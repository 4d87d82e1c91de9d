/** The book endpoints: creating a book, the details of one book, and the listing of a
    user's books grouped by reading status. */
module BookViews {
  import opened Base
  import opened Queries
  import opened UserModels
  import opened BookModels
  import opened BookSerializers
  import opened BookPermissions
  import opened BookOperations
  import opened UserOperations
  import opened Store

  // ---------------------------------------------------------------------------
  // create_book

  /** The first half of `create_book`: the request's `owner` is overwritten with the key
      of the requester's profile and the result is validated; when the requester has no
      profile, `.pk` on None raises AttributeError. */
  function CheckCreateRequest(users: map<Pk, User>, profiles: map<Pk, Profile>, requester: Requester,
                              data: map<string, Value>): (r: Outcome<Validated<BookData>>)
    ensures r.Raise? <==> GetUserProfile(users, profiles, requester).None?
    ensures r.Raise? ==> r == Raise(AttributeError)
    ensures r.Return? ==>
              var owner := GetUserProfile(users, profiles, requester).value.id;
              && r.value == ValidateBook(profiles.Keys, data["owner" := Int(owner)])
              && (r.value.Accepted? ==> r.value.value.owner == owner)
  {
    match GetUserProfile(users, profiles, requester)
    case None => Raise(AttributeError)
    case Some(profile) => Return(ValidateBook(profiles.Keys, data["owner" := Int(profile.id)]))
  }

  /** `create_book` behind its decorators: `IsAuthenticated` answers an anonymous request
      403 and stores nothing. Otherwise, when the request check raises, the exception
      escapes; invalid data is answered 400 with the errors and nothing is stored; valid
      data is stored, owned by the requester's profile, and answered 201 with the stored
      book. */
  method CreateBook(s: Store, requester: Requester, data: map<string, Value>) returns (resp: Response)
    requires s.Valid()
    modifies s
    ensures s.Valid()
    ensures requester.Anonymous? ==> resp == NotAuthenticatedResponse && s.db == old(s.db)
    ensures requester.Authenticated? ==>
            match CheckCreateRequest(old(s.db.users), old(s.db.profiles), requester, data)
            case Raise(e) => resp == ServerError(e) && s.db == old(s.db)
            case Return(Rejected(errors)) => resp == Response(HTTP_400_BAD_REQUEST, ErrorsBody(errors)) && s.db == old(s.db)
            case Return(Accepted(d)) =>
              && s.db == BookInserted(old(s.db), d)
              && resp == Response(HTTP_201_CREATED, Obj(CreatedView(Book(old(s.db).nextBookPk, d, []))))
  {
    if requester.Anonymous? {
      return NotAuthenticatedResponse;
    }
    match CheckCreateRequest(s.db.users, s.db.profiles, requester, data)
    case Raise(e) =>
      resp := ServerError(e);
    case Return(Rejected(errors)) =>
      resp := Response(HTTP_400_BAD_REQUEST, ErrorsBody(errors));
    case Return(Accepted(d)) =>
      var b := s.InsertBook(d);
      resp := Response(HTTP_201_CREATED, Obj(CreatedView(b)));
  }

  // ---------------------------------------------------------------------------
  // details_book

  /** The serialization a requester gets of a book: the owner view when `IsOwner` holds,
      the non-owner view otherwise. */
  function BookFor(profiles: map<Pk, Profile>, requester: Requester, b: Book): (v: map<string, Value>)
    requires b.data.owner in profiles
    ensures "status" in v <==> HasObjectPermission(profiles, requester, b)
    ensures v - {"status"} == NonOwnerView(b)
  {
    if HasObjectPermission(profiles, requester, b) then OwnerView(b) else NonOwnerView(b)
  }

  /** `details_book` behind its decorators: `IsAuthenticated` answers an anonymous request
      403; otherwise 404 with no body for a missing key, or the book answered with status
      201 as the view is written. */
  function DetailsBook(profiles: map<Pk, Profile>, books: map<Pk, Book>, requester: Requester, pk: int): (resp: Response)
    requires OwnersExist(profiles.Keys, books)
    ensures requester.Anonymous? ==> resp == NotAuthenticatedResponse
    ensures requester.Authenticated? && GetBook(books, pk).None? ==> resp == Response(HTTP_404_NOT_FOUND, Null)
    ensures requester.Authenticated? && GetBook(books, pk).Some? ==>
              resp == Response(HTTP_201_CREATED, Obj(BookFor(profiles, requester, GetBook(books, pk).value)))
  {
    if requester.Anonymous? then NotAuthenticatedResponse
    else match GetBook(books, pk)
      case None => Response(HTTP_404_NOT_FOUND, Null)
      case Some(b) => Response(HTTP_201_CREATED, Obj(BookFor(profiles, requester, b)))
  }

  /** Only the owner of a book sees its status in its details; every other user sees the
      other fields and the average rating. */
  lemma {:induction false} DetailsShowStatusOnlyToOwner(profiles: map<Pk, Profile>, books: map<Pk, Book>,
                                                       u: User, pk: Pk)
    requires OwnersExist(profiles.Keys, books)
    requires pk in books
    ensures DetailsBook(profiles, books, Authenticated(u), pk).body.Obj?
    ensures "status" in DetailsBook(profiles, books, Authenticated(u), pk).body.fields <==>
              u.id == profiles[books[pk].data.owner].user
    ensures "average_rating" in DetailsBook(profiles, books, Authenticated(u), pk).body.fields
  {
    assert GetBook(books, pk) == Some(books[pk]);
    var v := BookFor(profiles, Authenticated(u), books[pk]);
    assert "average_rating" in NonOwnerView(books[pk]);
    assert "average_rating" in v - {"status"};
  }

  // ---------------------------------------------------------------------------
  // all_books_by_category

  /** The statuses occurring among some books: the groups of `values('status')`. */
  function StatusesOf(owned: map<Pk, Book>): set<BookStatus>
  {
    set k | k in owned :: owned[k].data.status
  }

  /** `Book.objects.filter(owner=profile, status=st)` over the user's own books. */
  function WithStatus(owned: map<Pk, Book>, st: BookStatus): (r: map<Pk, Book>)
    ensures forall k :: k in r <==> k in owned && owned[k].data.status == st
    ensures forall k :: k in r ==> r[k] == owned[k]
  {
    Where(owned, (b: Book) => b.data.status == st)
  }

  /** `book_status_dict`: the books of each occurring status. */
  function GroupByStatus(owned: map<Pk, Book>): (g: map<BookStatus, map<Pk, Book>>)
    ensures g.Keys == StatusesOf(owned)
    ensures forall st :: st in g ==> g[st] == WithStatus(owned, st)
  {
    map st | st in StatusesOf(owned) :: WithStatus(owned, st)
  }

  /** No status of the grouping has an empty group. */
  lemma {:induction false} GroupsAreNonEmpty(owned: map<Pk, Book>, st: BookStatus)
    requires st in GroupByStatus(owned)
    ensures GroupByStatus(owned)[st] != map[]
  {
    var k :| k in owned && owned[k].data.status == st;
    assert k in GroupByStatus(owned)[st];
  }

  /** Every book of a group is one of the user's books and has the group's status. */
  lemma {:induction false} GroupMembersHaveStatus(owned: map<Pk, Book>, st: BookStatus, k: Pk)
    requires st in GroupByStatus(owned) && k in GroupByStatus(owned)[st]
    ensures k in owned && GroupByStatus(owned)[st][k] == owned[k] && owned[k].data.status == st
  {
    assert GroupByStatus(owned)[st] == WithStatus(owned, st);
  }

  /** Every one of the user's books is listed under its own status and under no other. */
  lemma {:induction false} EachBookInOneGroup(owned: map<Pk, Book>, k: Pk)
    requires k in owned
    ensures owned[k].data.status in GroupByStatus(owned)
    ensures k in GroupByStatus(owned)[owned[k].data.status]
    ensures forall st :: st in GroupByStatus(owned) && k in GroupByStatus(owned)[st] ==> st == owned[k].data.status
  {
    var g := GroupByStatus(owned);
    assert owned[k].data.status in StatusesOf(owned);
    assert g[owned[k].data.status] == WithStatus(owned, owned[k].data.status);
  }

  /** `book_status_dict`: the list of books of each occurring status, in key order. */
  function StatusLists(owned: map<Pk, Book>): (d: map<BookStatus, seq<Book>>)
    ensures d.Keys == StatusesOf(owned)
    ensures forall st :: st in d ==> |d[st]| == |GroupByStatus(owned)[st]|
    ensures forall st :: st in d ==> d[st] == Rows(GroupByStatus(owned)[st])
  {
    var g := GroupByStatus(owned);
    map st | st in g :: Rows(g[st])
  }

  /** The owner view of each book of a list, in order. */
  function OwnerViews(rows: seq<Book>): (vs: seq<Value>)
    ensures |vs| == |rows|
    ensures forall i :: 0 <= i < |rows| ==> vs[i] == Obj(OwnerView(rows[i]))
  {
    if rows == [] then [] else [Obj(OwnerView(rows[0]))] + OwnerViews(rows[1..])
  }

  /** `BookSerializer(books, many=True).data` for the requester's own books. */
  function SerializeList(rows: seq<Book>): (v: Value)
    ensures v.List? && |v.items| == |rows|
  {
    List(OwnerViews(rows))
  }

  /** The status literals of a set of statuses. */
  function LiteralsOf(sts: set<BookStatus>): set<string>
  {
    set st | st in sts :: StatusLiteral(st)
  }

  /** The status literals of a grouping. */
  function Literals(g: map<BookStatus, seq<Book>>): set<string>
  {
    LiteralsOf(g.Keys)
  }

  lemma {:induction false} LiteralsOfAdd(sts: set<BookStatus>, st: BookStatus)
    ensures LiteralsOf(sts + {st}) == LiteralsOf(sts) + {StatusLiteral(st)}
  {
    assert StatusLiteral(st) in LiteralsOf(sts + {st});
    forall lit | lit in LiteralsOf(sts + {st}) ensures lit in LiteralsOf(sts) + {StatusLiteral(st)} {
      var t :| t in sts + {st} && StatusLiteral(t) == lit;
      if t != st {
        assert lit in LiteralsOf(sts);
      }
    }
    forall lit | lit in LiteralsOf(sts) ensures lit in LiteralsOf(sts + {st}) {
      var t :| t in sts && StatusLiteral(t) == lit;
      assert t in sts + {st};
    }
  }

  /** `response_data['books']`: each group serialized under its status literal. */
  function GroupsBody(g: map<BookStatus, seq<Book>>): (body: map<string, Value>)
    ensures body.Keys == Literals(g)
    ensures forall st :: st in g ==> body[StatusLiteral(st)] == SerializeList(g[st])
  {
    var body := map lit | lit in Literals(g) && ParseStatus(lit).Some? && ParseStatus(lit).value in g
                        :: SerializeList(g[ParseStatus(lit).value]);
    assert forall st :: st in g ==> ParseStatus(StatusLiteral(st)) == Some(st);
    body
  }

  /** A body with one entry per status literal, holding that status's serialized group,
      is the one `GroupsBody` describes. */
  lemma {:induction false} BodyDeterminedByGroups(g: map<BookStatus, seq<Book>>, out: map<string, Value>)
    requires out.Keys == Literals(g)
    requires forall st :: st in g ==> out[StatusLiteral(st)] == SerializeList(g[st])
    ensures out == GroupsBody(g)
  {
    forall lit | lit in out
      ensures out[lit] == GroupsBody(g)[lit]
    {
      var st :| st in g && StatusLiteral(st) == lit;
    }
  }

  /** One step of the loop keeps its invariant: the body then covers one more status. */
  lemma {:induction false} AddGroupKeepsBody(g: map<BookStatus, seq<Book>>, out: map<string, Value>,
                                             done: set<BookStatus>, st: BookStatus)
    requires done <= g.Keys && st in g && st !in done
    requires out.Keys == LiteralsOf(done)
    requires forall t :: t in done ==> out[StatusLiteral(t)] == SerializeList(g[t])
    ensures out[StatusLiteral(st) := SerializeList(g[st])].Keys == LiteralsOf(done + {st})
    ensures forall t :: t in done + {st} ==>
              out[StatusLiteral(st) := SerializeList(g[st])][StatusLiteral(t)] == SerializeList(g[t])
  {
    LiteralsOfAdd(done, st);
    forall t | t in done
      ensures StatusLiteral(t) != StatusLiteral(st)
    {
      StatusLiteralInjective(t, st);
    }
  }

  /** The loop of `all_books_by_category` that fills `response_data['books']`, one status
      at a time: one entry per status literal, holding that status's serialized list. */
  method SerializeGroups(g: map<BookStatus, seq<Book>>) returns (out: map<string, Value>)
    ensures out.Keys == Literals(g)
    ensures forall st :: st in g ==> out[StatusLiteral(st)] == SerializeList(g[st])
  {
    out := map[];
    var todo := g.Keys;
    while todo != {}
      invariant todo <= g.Keys
      invariant out.Keys == LiteralsOf(g.Keys - todo)
      invariant forall st :: st in g && st !in todo ==> out[StatusLiteral(st)] == SerializeList(g[st])
      decreases |todo|
    {
      var st :| st in todo;
      AddGroupKeepsBody(g, out, g.Keys - todo, st);
      assert g.Keys - (todo - {st}) == (g.Keys - todo) + {st};
      out := out[StatusLiteral(st) := SerializeList(g[st])];
      todo := todo - {st};
    }
    assert g.Keys - todo == g.Keys;
  }

  /** `all_books_by_category(request, user_id)`: 403 unless the requester is authenticated
      and `user_id` is its own key; a user without a profile makes `.values` run on None
      (AttributeError); otherwise 200 with `{'books': {status: [book, ...]}}`, grouping the
      user's own books (see Findings for the filter as written). */
  method AllBooksByCategory(profiles: map<Pk, Profile>, books: map<Pk, Book>, requester: Requester, userId: int)
      returns (resp: Response)
    requires OneProfilePerUser(profiles)
    ensures requester.Anonymous? ==> resp == NotAuthenticatedResponse
    ensures requester.Authenticated? && userId != requester.user.id ==>
              resp == Response(HTTP_403_FORBIDDEN, Detail("Unauthorized"))
    ensures requester.Authenticated? && userId == requester.user.id ==>
              match GetAllBooksByUser(profiles, books, requester.user)
              case None => resp == ServerError(AttributeError)
              case Some(owned) =>
                resp == Response(HTTP_200_OK, Obj(map["books" := Obj(GroupsBody(StatusLists(owned)))]))
  {
    if requester.Anonymous? {
      return NotAuthenticatedResponse;
    }
    if userId != requester.user.id {
      return Response(HTTP_403_FORBIDDEN, Detail("Unauthorized"));
    }
    var owned := GetAllBooksByUser(profiles, books, requester.user);
    if owned.None? {
      return ServerError(AttributeError);
    }
    var lists := StatusLists(owned.value);
    var body := SerializeGroups(lists);
    BodyDeterminedByGroups(lists, body);
    resp := Response(HTTP_200_OK, Obj(map["books" := Obj(body)]));
  }

  /** A successful listing has one key per status occurring among the user's books, and
      none of them holds an empty list. */
  lemma {:induction false} ListingHasNoEmptyGroup(owned: map<Pk, Book>, lit: string)
    requires lit in GroupsBody(StatusLists(owned))
    ensures exists k :: k in owned && StatusLiteral(owned[k].data.status) == lit
    ensures |GroupsBody(StatusLists(owned))[lit].items| > 0
  {
    var g := GroupByStatus(owned);
    var d := StatusLists(owned);
    var st :| st in d && StatusLiteral(st) == lit;
    GroupsAreNonEmpty(owned, st);
    var k :| k in g[st];
    GroupMembersHaveStatus(owned, st, k);
    assert |g[st]| > 0;
    assert |d[st]| > 0;
  }

  /** The per-status queryset as written: `Book.objects.filter(owner=user.pk, status=...)`
      compares the owning profile's key with the user's key. */
  function StatusGroupAsWritten(books: map<Pk, Book>, userPk: Pk, st: BookStatus): (r: map<Pk, Book>)
    ensures forall k :: k in r <==> k in books && books[k].data.owner == userPk && books[k].data.status == st
  {
    Where(books, (b: Book) => b.data.owner == userPk && b.data.status == st)
  }

  // The counterexample of the per-status filter: user 1 owns, through its profile 2,
  // book 10 with status Read, while profile 1 belongs to user 5 and owns book 11, also Read.

  function ExampleUser(): User
  {
    User(1, "reader", "reader@example.com", None, true, false, false, false, None, false)
  }

  function ExampleProfiles(): map<Pk, Profile>
  {
    map[2 := Profile(2, None, None, None, None, 1), 1 := Profile(1, None, None, None, None, 5)]
  }

  function OwnBook(): Book
  {
    Book(10, BookData("Dune", "Herbert", None, None, None, Read, None, 2), [])
  }

  function OtherBook(): Book
  {
    Book(11, BookData("Emma", "Austen", None, None, None, Read, None, 1), [])
  }

  function ExampleBooks(): map<Pk, Book>
  {
    map[10 := OwnBook(), 11 := OtherBook()]
  }

  lemma ExampleProfilesOnePerUser()
    ensures OneProfilePerUser(ExampleProfiles())
  {
    var profiles := ExampleProfiles();
    assert profiles.Keys == {1, 2} && profiles[1].user == 5 && profiles[2].user == 1;
    forall p, q | p in profiles && q in profiles && profiles[p].user == profiles[q].user
      ensures p == q
    {
      assert p == 1 || p == 2;
      assert q == 1 || q == 2;
    }
  }

  /** `get_all_books_by_user` for the example user holds its own book 10 and not book 11. */
  lemma ExampleOwnedBooks()
    ensures OneProfilePerUser(ExampleProfiles())
    ensures var owned := GetAllBooksByUser(ExampleProfiles(), ExampleBooks(), ExampleUser());
            owned.Some? && 10 in owned.value && 11 !in owned.value && owned.value[10] == OwnBook()
  {
    ExampleProfilesOnePerUser();
    var profiles := ExampleProfiles();
    var books := ExampleBooks();
    assert 1 in profiles && profiles[1].user == 5 && 2 in profiles && profiles[2].user == 1;
    assert books[10].data.owner == 2 && books[11].data.owner == 1;
  }

  /** The "Read" list as written holds book 11 of the other user and misses book 10. */
  lemma ExampleAsWrittenGroup()
    ensures var asWritten := StatusGroupAsWritten(ExampleBooks(), ExampleUser().id, Read);
            11 in asWritten && 10 !in asWritten
  {
    var books := ExampleBooks();
    assert books[10].data.owner == 2 && books[11].data.owner == 1 && books[11].data.status == Read;
  }

  /** As written, user 1's "Read" list holds the other user's book 11 and misses its own
      book 10; the corrected grouping lists book 10 under "Read". */
  lemma StatusFilterUsesWrongKey()
    ensures OneProfilePerUser(ExampleProfiles())
    ensures var owned := GetAllBooksByUser(ExampleProfiles(), ExampleBooks(), ExampleUser());
            && owned.Some? && 10 in owned.value && 11 !in owned.value
            && Read in GroupByStatus(owned.value) && 10 in GroupByStatus(owned.value)[Read]
    ensures var asWritten := StatusGroupAsWritten(ExampleBooks(), ExampleUser().id, Read);
            11 in asWritten && 10 !in asWritten
  {
    ExampleOwnedBooks();
    ExampleAsWrittenGroup();
    var owned := GetAllBooksByUser(ExampleProfiles(), ExampleBooks(), ExampleUser()).value;
    EachBookInOneGroup(owned, 10);
  }
}
