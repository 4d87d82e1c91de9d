/** The Book table: its status choices, its fields and the constraints the model
    declares on them, and the cascade from the owning profile. */
module BookModels {
  import opened Base

  /** The reading status of a book (the `BookStatusChoices` enumeration). */
  datatype BookStatus = Read | Reading | Unread | WantToBuy

  /** The database value stored for each status. */
  function StatusLiteral(s: BookStatus): string
  {
    match s
    case Read => "Read"
    case Reading => "Reading"
    case Unread => "Unread"
    case WantToBuy => "Want to Buy"
  }

  /** Reads a stored or submitted status value; only the four choices are accepted. */
  function ParseStatus(text: string): (r: Option<BookStatus>)
    ensures forall s :: r == Some(s) <==> StatusLiteral(s) == text
    ensures r.None? <==> text !in {"Read", "Reading", "Unread", "Want to Buy"}
  {
    if text == "Read" then Some(Read)
    else if text == "Reading" then Some(Reading)
    else if text == "Unread" then Some(Unread)
    else if text == "Want to Buy" then Some(WantToBuy)
    else None
  }

  lemma StatusLiteralInjective(s: BookStatus, t: BookStatus)
    ensures StatusLiteral(s) == StatusLiteral(t) ==> s == t
  {
    assert ParseStatus(StatusLiteral(s)) == Some(s);
  }

  const NameMaxLen: nat := 150
  const AuthorMaxLen: nat := 50
  const RatingMin: int := 1
  const RatingMax: int := 5

  /** The largest value of a `PositiveIntegerField`: Django's default integer range for
      it, which the serializer built from the model enforces as `max_value`. */
  const PositiveIntegerMax: int := 2147483647

  /** The writable fields of a book: what a create request's `validated_data` holds. */
  datatype BookData = BookData(
    name: string,
    author: string,
    picture: Option<string>,
    description: Option<string>,
    rating: Option<int>,
    status: BookStatus,
    price: Option<int>,
    owner: Pk)

  /** A stored book: its primary key, its fields and the ratings given to it. */
  datatype Book = Book(id: Pk, data: BookData, ratings: seq<int>)

  /** The field names of a book record, the per-book ratings included. */
  const BookFields: set<string> :=
    {"id", "name", "author", "picture", "description", "rating", "status", "price", "owner", "ratings"}

  predicate ValidRating(r: int)
  {
    RatingMin <= r <= RatingMax
  }

  /** The constraints the Book model declares on its fields: a non-blank name of at most
      150 characters, a non-blank author of at most 50, a rating that is null or in 1..5,
      a price that is null or within the range of a positive integer column. The status
      is one of the four choices by its type, and the owner is a required key. */
  predicate ValidBookData(d: BookData)
  {
    && 0 < |d.name| <= NameMaxLen
    && 0 < |d.author| <= AuthorMaxLen
    && (d.rating.Some? ==> ValidRating(d.rating.value))
    && (d.price.Some? ==> 0 <= d.price.value <= PositiveIntegerMax)
  }

  /** Every book of the table refers to an existing profile. */
  predicate OwnersExist(profileKeys: set<Pk>, books: map<Pk, Book>)
  {
    forall k :: k in books ==> books[k].data.owner in profileKeys
  }

  /** Every book is stored under its own primary key. */
  predicate KeysAreIds(books: map<Pk, Book>)
  {
    forall k :: k in books ==> books[k].id == k
  }

  /** The book table after the profile `profile` is deleted (`on_delete=CASCADE`). */
  function CascadeProfileDelete(profileKeys: set<Pk>, books: map<Pk, Book>, profile: Pk): (r: map<Pk, Book>)
    requires OwnersExist(profileKeys, books)
    ensures forall k :: k in r ==> r[k].data.owner != profile
    ensures forall k :: k in books && books[k].data.owner != profile ==> k in r && r[k] == books[k]
    ensures r.Keys <= books.Keys
    ensures OwnersExist(profileKeys - {profile}, r)
  {
    map k | k in books && books[k].data.owner != profile :: books[k]
  }
}
