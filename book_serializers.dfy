/** The book serializers: the derived average rating, the owner and non-owner
    projections of a book, and the validation that `BookCreateSerializer` applies to a
    create request. */
module BookSerializers {
  import opened Base
  import opened BookModels
  import opened Fields

  // ---------------------------------------------------------------------------
  // Average rating

  function Sum(rs: seq<int>): int
  {
    if rs == [] then 0 else rs[0] + Sum(rs[1..])
  }

  /** The value of the `average_rating` field: the mean of the ratings, or the sentinel
      'Not available' when there are none. */
  datatype Average = NotAvailable | Mean(value: real)

  /** `AverageRatingField.to_representation`. With no ratings it yields the sentinel and
      divides by nothing; otherwise the mean times the count is the sum. The mean is exact
      (the rounding to two decimals is not modelled). */
  function AverageRating(ratings: seq<int>): (r: Average)
    ensures r.NotAvailable? <==> ratings == []
    ensures r.Mean? ==> r.value * (|ratings| as real) == Sum(ratings) as real
  {
    if ratings == [] then NotAvailable
    else Mean(Sum(ratings) as real / |ratings| as real)
  }

  function AverageValue(a: Average): Value
  {
    match a
    case NotAvailable => Str("Not available")
    case Mean(x) => Num(x)
  }

  lemma {:induction false} SumAppend(a: seq<int>, b: seq<int>)
    ensures Sum(a + b) == Sum(a) + Sum(b)
  {
    if a == [] {
      assert a + b == b;
    } else {
      assert (a + b)[1..] == a[1..] + b;
      SumAppend(a[1..], b);
    }
  }

  /** The sum does not depend on the order of the ratings. */
  lemma {:induction false} SumPermutation(a: seq<int>, b: seq<int>)
    requires multiset(a) == multiset(b)
    ensures Sum(a) == Sum(b)
    decreases |a|
  {
    if a == [] {
      assert |b| == |multiset(b)| == 0;
    } else {
      var x := a[0];
      assert x in multiset(b);
      var i :| 0 <= i < |b| && b[i] == x;
      var rest := b[..i] + b[i + 1..];
      assert b == b[..i] + ([x] + b[i + 1..]);
      assert a == [x] + a[1..];
      calc {
        multiset(a[1..]) + multiset{x};
        multiset(a);
        multiset(b);
        multiset(b[..i]) + multiset([x] + b[i + 1..]);
        multiset(b[..i]) + multiset(b[i + 1..]) + multiset{x};
        multiset(rest) + multiset{x};
      }
      forall y ensures multiset(a[1..])[y] == multiset(rest)[y] {
        assert (multiset(a[1..]) + multiset{x})[y] == (multiset(rest) + multiset{x})[y];
      }
      assert multiset(a[1..]) == multiset(rest);
      SumPermutation(a[1..], rest);
      SumAppend(b[..i], [x] + b[i + 1..]);
      SumAppend([x], b[i + 1..]);
      SumAppend(b[..i], b[i + 1..]);
    }
  }

  lemma MulSucc(n: int, x: int)
    ensures (n + 1) * x == n * x + x
  {
  }

  lemma {:induction false} SumBounds(rs: seq<int>, lo: int, hi: int)
    requires forall i :: 0 <= i < |rs| ==> lo <= rs[i] <= hi
    ensures |rs| * lo <= Sum(rs) <= |rs| * hi
  {
    if rs != [] {
      var rest := rs[1..];
      assert forall i :: 0 <= i < |rest| ==> rest[i] == rs[i + 1];
      SumBounds(rest, lo, hi);
      MulSucc(|rest|, lo);
      MulSucc(|rest|, hi);
    }
  }

  lemma IntProductAsReal(a: int, b: int)
    ensures (a * b) as real == b as real * a as real
  {
  }

  lemma MulMonotone(a: real, b: real, n: real)
    requires a < b && n > 0.0
    ensures a * n < b * n
  {
    assert (b - a) * n > 0.0;
  }

  /** A quotient `m = s / n` with `n > 0` and `lo * n <= s <= hi * n` lies in [lo, hi]. */
  lemma QuotientBetween(s: real, n: real, m: real, lo: real, hi: real)
    requires n > 0.0 && m * n == s && lo * n <= s <= hi * n
    ensures lo <= m <= hi
  {
    if m < lo {
      MulMonotone(m, lo, n);
    }
    if hi < m {
      MulMonotone(hi, m, n);
    }
  }

  lemma ScaledBounds(k: nat, lo: int, hi: int, s: int)
    requires k * lo <= s <= k * hi
    ensures lo as real * k as real <= s as real <= hi as real * k as real
  {
    IntProductAsReal(k, lo);
    IntProductAsReal(k, hi);
  }

  lemma IndexedBounds(rs: seq<int>, lo: int, hi: int)
    requires forall r :: r in rs ==> lo <= r <= hi
    ensures forall i :: 0 <= i < |rs| ==> lo <= rs[i] <= hi
  {
    assert forall i :: 0 <= i < |rs| ==> rs[i] in rs;
  }

  /** The sum of ratings that lie in [lo, hi], as a real, between `lo` and `hi` times their count. */
  lemma SumBetween(rs: seq<int>, lo: int, hi: int)
    requires forall r :: r in rs ==> lo <= r <= hi
    ensures lo as real * |rs| as real <= Sum(rs) as real <= hi as real * |rs| as real
  {
    IndexedBounds(rs, lo, hi);
    SumBounds(rs, lo, hi);
    var n, s := |rs|, Sum(rs);
    assert n * lo <= s <= n * hi;
    ScaledBounds(n, lo, hi, s);
  }

  /** When every rating lies in [lo, hi], so does the mean. */
  lemma AverageBetween(rs: seq<int>, lo: int, hi: int)
    requires rs != []
    requires forall r :: r in rs ==> lo <= r <= hi
    ensures AverageRating(rs).Mean?
    ensures lo as real <= AverageRating(rs).value <= hi as real
  {
    SumBetween(rs, lo, hi);
    QuotientBetween(Sum(rs) as real, |rs| as real, AverageRating(rs).value, lo as real, hi as real);
  }

  function Lowest(rs: seq<int>): (m: int)
    requires rs != []
    ensures m in rs && forall r :: r in rs ==> m <= r
  {
    if |rs| == 1 then rs[0]
    else
      var rest := Lowest(rs[1..]);
      assert forall r :: r in rs ==> r == rs[0] || r in rs[1..];
      if rs[0] <= rest then rs[0] else rest
  }

  function Highest(rs: seq<int>): (m: int)
    requires rs != []
    ensures m in rs && forall r :: r in rs ==> r <= m
  {
    if |rs| == 1 then rs[0]
    else
      var rest := Highest(rs[1..]);
      assert forall r :: r in rs ==> r == rs[0] || r in rs[1..];
      if rs[0] >= rest then rs[0] else rest
  }

  /** The mean of a non-empty list of ratings lies between its lowest and highest rating. */
  lemma AverageWithinRange(rs: seq<int>)
    requires rs != []
    ensures AverageRating(rs).Mean?
    ensures Lowest(rs) as real <= AverageRating(rs).value <= Highest(rs) as real
  {
    AverageBetween(rs, Lowest(rs), Highest(rs));
  }

  /** Ratings that each lie in 1..5 average to a value in [1, 5]. */
  lemma AverageOfValidRatings(rs: seq<int>)
    requires rs != []
    requires forall r :: r in rs ==> ValidRating(r)
    ensures AverageRating(rs).Mean?
    ensures RatingMin as real <= AverageRating(rs).value <= RatingMax as real
  {
    AverageBetween(rs, RatingMin, RatingMax);
  }

  /** The average does not depend on the order in which the ratings are listed. */
  lemma AverageIgnoresOrder(a: seq<int>, b: seq<int>)
    requires multiset(a) == multiset(b)
    ensures AverageRating(a) == AverageRating(b)
  {
    assert |a| == |multiset(a)| == |multiset(b)| == |b|;
    SumPermutation(a, b);
  }

  // ---------------------------------------------------------------------------
  // Projections of a book

  function OptionalText(o: Option<string>): Value
  {
    if o.Some? then Str(o.value) else Null
  }

  function OptionalInt(o: Option<int>): Value
  {
    if o.Some? then Int(o.value) else Null
  }

  /** The serialized value of one field of a book; `average_rating` is the derived field. */
  function FieldValue(b: Book, f: string): Value
  {
    if f == "id" then Int(b.id)
    else if f == "name" then Str(b.data.name)
    else if f == "author" then Str(b.data.author)
    else if f == "picture" then OptionalText(b.data.picture)
    else if f == "description" then OptionalText(b.data.description)
    else if f == "rating" then OptionalInt(b.data.rating)
    else if f == "status" then Str(StatusLiteral(b.data.status))
    else if f == "price" then OptionalInt(b.data.price)
    else if f == "owner" then Int(b.data.owner)
    else if f == "ratings" then List(seq(|b.ratings|, i requires 0 <= i < |b.ratings| => Int(b.ratings[i])))
    else if f == "average_rating" then AverageValue(AverageRating(b.ratings))
    else Null
  }

  /** A model serializer over Book with `Meta.exclude` and the added `average_rating` field. */
  function Project(b: Book, exclude: set<string>): map<string, Value>
  {
    map f | f in (BookFields - exclude) + {"average_rating"} :: FieldValue(b, f)
  }

  /** `BookSerializerRequestUserIsOwner`: every book field except the owner and the
      ratings, plus the average rating. */
  function OwnerView(b: Book): (v: map<string, Value>)
    ensures v.Keys == BookFields - {"owner", "ratings"} + {"average_rating"}
    ensures forall f :: f in v ==> v[f] == FieldValue(b, f)
    ensures v["status"] == Str(StatusLiteral(b.data.status))
    ensures v["average_rating"] == AverageValue(AverageRating(b.ratings))
  {
    Project(b, {"owner", "ratings"})
  }

  /** `BookSerializerRequestUserIsNotOwner`: as the owner view, without the status. */
  function NonOwnerView(b: Book): (v: map<string, Value>)
    ensures v.Keys == BookFields - {"owner", "ratings", "status"} + {"average_rating"}
    ensures "status" !in v
    ensures v == OwnerView(b) - {"status"}
  {
    Project(b, {"owner", "ratings", "status"})
  }

  /** `BookCreateSerializer(...).data`: all forward fields of the book (`fields = '__all__'`),
      the owner included; the reverse `ratings` relation and the average are not part of it. */
  function CreatedView(b: Book): (v: map<string, Value>)
    ensures v.Keys == BookFields - {"ratings"}
    ensures v["owner"] == Int(b.data.owner)
    ensures forall f :: f in v ==> v[f] == FieldValue(b, f)
  {
    map f | f in BookFields - {"ratings"} :: FieldValue(b, f)
  }

  // ---------------------------------------------------------------------------
  // Validation of a create request (`BookCreateSerializer.is_valid`)

  /** A nullable, optional field is given when it is present and not null. */
  predicate Given(data: map<string, Value>, key: string)
  {
    key in data && data[key] != Null
  }

  /** The `picture` field (`ImageField`, nullable and optional): the request may leave it
      out or send null; any other JSON value is not an uploaded file and is 'invalid'. */
  function PictureField(data: map<string, Value>): Checked<Option<string>>
  {
    if Given(data, "picture") then FieldErr(WrongType) else FieldOk(None)
  }

  /** An optional, nullable text field (`description`): a missing or null field stores
      null; otherwise the text `CharField` reads. */
  function OptionalTextField(data: map<string, Value>, key: string): Checked<Option<string>>
  {
    if !Given(data, key) then FieldOk(None)
    else match TextOf(data[key])
      case Some(t) => FieldOk(Some(t))
      case None => FieldErr(WrongType)
  }

  /** An optional, nullable integer field with bounds (`rating`, `price`): a missing or
      null field stores null; otherwise the integer `IntegerField` reads, within
      `lo`..`hi`. */
  function OptionalIntField(data: map<string, Value>, key: string, lo: int, hi: int): Checked<Option<int>>
  {
    if !Given(data, key) then FieldOk(None)
    else match IntegerOf(data[key])
      case FieldErr(e) => FieldErr(e)
      case FieldOk(n) =>
        if n < lo then FieldErr(MinValue(lo))
        else if n > hi then FieldErr(MaxValue(hi))
        else FieldOk(Some(n))
  }

  /** The required status choice. `ChoiceField` looks up `str()` of the value, and only a
      string prints as one of the four choices. */
  function StatusField(data: map<string, Value>, key: string): (c: Checked<BookStatus>)
    ensures c.FieldOk? ==> key in data && data[key] == Str(StatusLiteral(c.value))
  {
    if key !in data then FieldErr(Required)
    else if data[key] == Null then FieldErr(NotNull)
    else if data[key].Str? && ParseStatus(data[key].s).Some? then FieldOk(ParseStatus(data[key].s).value)
    else FieldErr(InvalidChoice)
  }

  /** The required owner key, which must name an existing profile. */
  function OwnerField(profileKeys: set<Pk>, data: map<string, Value>, key: string): (c: Checked<Pk>)
    ensures c.FieldOk? ==> c.value in profileKeys && key in data && data[key] == Int(c.value)
  {
    if key !in data then FieldErr(Required)
    else if data[key] == Null then FieldErr(NotNull)
    else if !data[key].Int? then FieldErr(WrongType)
    else if data[key].i >= 0 && data[key].i as Pk in profileKeys then FieldOk(data[key].i as Pk)
    else FieldErr(DoesNotExist)
  }

  /** The verdicts of the eight writable fields of a create request. */
  datatype BookChecks = BookChecks(
    name: Checked<string>,
    author: Checked<string>,
    picture: Checked<Option<string>>,
    description: Checked<Option<string>>,
    rating: Checked<Option<int>>,
    status: Checked<BookStatus>,
    price: Checked<Option<int>>,
    owner: Checked<Pk>)
  {
    predicate AllOk()
    {
      name.FieldOk? && author.FieldOk? && picture.FieldOk? && description.FieldOk?
      && rating.FieldOk? && status.FieldOk? && price.FieldOk? && owner.FieldOk?
    }

    /** The error of the writable field `key`, if it failed. */
    function ErrorAt(key: string): Option<FieldError>
    {
      match key
      case "name" => if name.FieldErr? then Some(name.error) else None
      case "author" => if author.FieldErr? then Some(author.error) else None
      case "picture" => if picture.FieldErr? then Some(picture.error) else None
      case "description" => if description.FieldErr? then Some(description.error) else None
      case "rating" => if rating.FieldErr? then Some(rating.error) else None
      case "status" => if status.FieldErr? then Some(status.error) else None
      case "price" => if price.FieldErr? then Some(price.error) else None
      case "owner" => if owner.FieldErr? then Some(owner.error) else None
      case _ => None
    }
  }

  /** The fields a create request may write. */
  const WritableFields: set<string> := BookFields - {"id", "ratings"}

  /** `serializer.errors`: every failing writable field with its error. */
  function FieldErrors(c: BookChecks): (errors: map<string, FieldError>)
    ensures errors.Keys <= WritableFields
    ensures forall k :: k in errors <==> k in WritableFields && c.ErrorAt(k).Some?
  {
    map k | k in WritableFields && c.ErrorAt(k).Some? :: c.ErrorAt(k).value
  }

  /** Some field failed exactly when the error map is not empty. */
  lemma {:induction false} FieldErrorsEmpty(c: BookChecks)
    ensures FieldErrors(c) == map[] <==> c.AllOk()
  {
    var errors := FieldErrors(c);
    if !c.AllOk() {
      var k :=
        if c.name.FieldErr? then "name"
        else if c.author.FieldErr? then "author"
        else if c.picture.FieldErr? then "picture"
        else if c.description.FieldErr? then "description"
        else if c.rating.FieldErr? then "rating"
        else if c.status.FieldErr? then "status"
        else if c.price.FieldErr? then "price"
        else "owner";
      assert k in WritableFields;
      assert k in errors;
    } else {
      forall k | k in WritableFields ensures c.ErrorAt(k).None? {
      }
    }
  }

  function CheckBookFields(profileKeys: set<Pk>, data: map<string, Value>): BookChecks
  {
    BookChecks(
      RequiredTextField(data, "name", Some(NameMaxLen)),
      RequiredTextField(data, "author", Some(AuthorMaxLen)),
      PictureField(data),
      OptionalTextField(data, "description"),
      OptionalIntField(data, "rating", RatingMin, RatingMax),
      StatusField(data, "status"),
      OptionalIntField(data, "price", 0, PositiveIntegerMax),
      OwnerField(profileKeys, data, "owner"))
  }

  /** The conditions under which a create request is valid, stated on the request: a
      name and an author as non-blank text within their lengths, no picture, a
      description that is absent, null or text, a rating absent, null or an integer in
      1..5, one of the four status values, a price absent, null or an integer in the
      range of a positive integer column, and the key of an existing profile as owner. */
  predicate AcceptableBook(profileKeys: set<Pk>, data: map<string, Value>)
  {
    && "name" in data && TextOf(data["name"]).Some?
    && 0 < |TextOf(data["name"]).value| <= NameMaxLen
    && "author" in data && TextOf(data["author"]).Some?
    && 0 < |TextOf(data["author"]).value| <= AuthorMaxLen
    && !Given(data, "picture")
    && (Given(data, "description") ==> TextOf(data["description"]).Some?)
    && (Given(data, "rating") ==>
          IntegerOf(data["rating"]).FieldOk? && ValidRating(IntegerOf(data["rating"]).value))
    && "status" in data && data["status"].Str? && ParseStatus(data["status"].s).Some?
    && (Given(data, "price") ==>
          IntegerOf(data["price"]).FieldOk? && 0 <= IntegerOf(data["price"]).value <= PositiveIntegerMax)
    && "owner" in data && data["owner"].Int? && data["owner"].i >= 0 && data["owner"].i as Pk in profileKeys
  }

  /** `BookCreateSerializer(data=...).is_valid()`: the validated data when every field
      passes, otherwise the errors of the failing fields. A request is accepted exactly
      when it is acceptable; then every field of the data is what the request sent, read
      as its serializer field reads it, and the read-only `id` is ignored. */
  function ValidateBook(profileKeys: set<Pk>, data: map<string, Value>): (r: Validated<BookData>)
    ensures r.Accepted? <==> AcceptableBook(profileKeys, data)
    ensures r.Accepted? ==> ValidBookData(r.value) && r.value.owner in profileKeys
    ensures r.Accepted? ==> TextOf(data["name"]) == Some(r.value.name)
    ensures r.Accepted? ==> TextOf(data["author"]) == Some(r.value.author)
    ensures r.Accepted? ==> r.value.picture.None?
    ensures r.Accepted? ==>
              r.value.description == if Given(data, "description") then TextOf(data["description"]) else None
    ensures r.Accepted? ==>
              r.value.rating == if Given(data, "rating") then Some(IntegerOf(data["rating"]).value) else None
    ensures r.Accepted? ==> data["status"] == Str(StatusLiteral(r.value.status))
    ensures r.Accepted? ==>
              r.value.price == if Given(data, "price") then Some(IntegerOf(data["price"]).value) else None
    ensures r.Accepted? ==> data["owner"] == Int(r.value.owner)
    ensures r.Rejected? ==> r.errors != map[] && r.errors.Keys <= WritableFields
  {
    var c := CheckBookFields(profileKeys, data);
    if c.AllOk() then
      Accepted(BookData(c.name.value, c.author.value, c.picture.value, c.description.value,
                        c.rating.value, c.status.value, c.price.value, c.owner.value))
    else
      FieldErrorsEmpty(c);
      Rejected(FieldErrors(c))
  }

  /** What the create endpoint returns for a stored book without a picture is accepted
      again by the create validation and yields the same field values. (A picture is
      returned as its URL, which the image field refuses.) */
  lemma ValidateCreatedView(profileKeys: set<Pk>, b: Book)
    requires ValidBookData(b.data) && b.data.owner in profileKeys
    requires b.data.picture.None?
    ensures ValidateBook(profileKeys, CreatedView(b)) == Accepted(b.data)
  {
    var v := CreatedView(b);
    assert ParseStatus(StatusLiteral(b.data.status)) == Some(b.data.status);
    assert RequiredTextField(v, "name", Some(NameMaxLen)) == FieldOk(b.data.name);
    assert RequiredTextField(v, "author", Some(AuthorMaxLen)) == FieldOk(b.data.author);
    assert PictureField(v) == FieldOk(b.data.picture);
    assert OptionalTextField(v, "description") == FieldOk(b.data.description);
    assert OptionalIntField(v, "rating", RatingMin, RatingMax) == FieldOk(b.data.rating);
    assert OptionalIntField(v, "price", 0, PositiveIntegerMax) == FieldOk(b.data.price);
    assert StatusField(v, "status") == FieldOk(b.data.status);
    assert OwnerField(profileKeys, v, "owner") == FieldOk(b.data.owner);
  }

  /** Once the owner field is overwritten with a profile key, the outcome of validation no
      longer depends on the owner the client supplied, and accepted data names that
      profile. */
  lemma SuppliedOwnerIsOverridden(profileKeys: set<Pk>, data1: map<string, Value>,
                                  data2: map<string, Value>, profile: Pk)
    requires profile in profileKeys
    requires forall f :: f != "owner" ==> (f in data1 <==> f in data2)
    requires forall f :: f != "owner" && f in data1 ==> data1[f] == data2[f]
    ensures ValidateBook(profileKeys, data1["owner" := Int(profile)]) ==
            ValidateBook(profileKeys, data2["owner" := Int(profile)])
    ensures ValidateBook(profileKeys, data1["owner" := Int(profile)]).Accepted? ==>
            ValidateBook(profileKeys, data1["owner" := Int(profile)]).value.owner == profile
  {
    var d1 := data1["owner" := Int(profile)];
    var d2 := data2["owner" := Int(profile)];
    assert d1 == d2 by {
      forall f | f in d1 ensures f in d2 && d1[f] == d2[f] {
        if f != "owner" {
          assert f in data1;
        }
      }
      forall f | f in d2 ensures f in d1 {
        if f != "owner" {
          assert f in data2;
        }
      }
    }
  }
}
