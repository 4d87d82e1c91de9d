/** The project-level views: the home page, and the registration, login and logout
    endpoints of the server package. Registration is the same view as the users app's;
    login adds a lookup of the request's user object in front of it. */
module ServerViews {
  import opened Base
  import opened UserModels
  import opened BookModels
  import opened BookSerializers
  import opened BookPermissions
  import opened BookOperations
  import opened UserOperations
  import opened UserSerializers
  import opened Store
  import opened UserViews

  /** The payload of the home page: the serialized user, profile and books, each null
      when absent. The books are keyed by their primary key. */
  datatype HomeData = HomeData(
    user: Option<map<string, Value>>,
    userProfile: Option<map<string, Value>>,
    books: Option<map<Pk, map<string, Value>>>)

  /** The books of `owned`, each serialized as its owner sees it. */
  function OwnedBooksData(owned: map<Pk, Book>): (d: map<Pk, map<string, Value>>)
    ensures d.Keys == owned.Keys
    ensures forall k :: k in d ==> d[k] == OwnerView(owned[k])
  {
    map k | k in owned :: OwnerView(owned[k])
  }

  /** The home page's profile entry: the serialized profile of the request's user object. */
  function ProfileData(users: map<Pk, User>, profiles: map<Pk, Profile>, requester: Requester): (d: Option<map<string, Value>>)
    ensures d.Some? <==> GetUserProfile(users, profiles, requester).Some?
    ensures d.Some? ==>
              exists p :: p in profiles && profiles[p].user == GetUserObject(users, requester).value.id
                          && d.value == ProfileView(profiles[p])
  {
    var profile := GetUserProfile(users, profiles, requester);
    if profile.Some? then
      var p :| p in profiles && profiles[p] == profile.value;
      Some(ProfileView(profiles[p]))
    else None
  }

  /** The home page's books entry: the user's own books, or null when there are none. */
  function BooksData(profiles: map<Pk, Profile>, books: map<Pk, Book>, u: User): (d: Option<map<Pk, map<string, Value>>>)
    requires OneProfilePerUser(profiles)
    ensures d.Some? <==>
              exists k :: k in books && books[k].data.owner in profiles && profiles[books[k].data.owner].user == u.id
    ensures d.Some? ==>
              forall k :: k in d.value <==>
                k in books && books[k].data.owner in profiles && profiles[books[k].data.owner].user == u.id
    ensures d.Some? ==> forall k :: k in d.value ==> d.value[k] == OwnerView(books[k])
  {
    var owned := GetAllBooksByUser(profiles, books, u);
    if owned.Some? && owned.value != map[] then Some(OwnedBooksData(owned.value))
    else
      assert owned.Some? ==> forall k :: k !in owned.value;
      None
  }

  /** `home_view`: an anonymous request gets three nulls. An authenticated one gets its
      user; the profile of its user object when there is one; and its books, null when it
      has no profile or owns no book (an empty queryset is falsy). */
  function HomeView(users: map<Pk, User>, profiles: map<Pk, Profile>, books: map<Pk, Book>,
                    requester: Requester): (r: HomeData)
    requires OneProfilePerUser(profiles)
    ensures requester.Anonymous? ==> r == HomeData(None, None, None)
    ensures requester.Authenticated? ==> r.user == Some(UserView(requester.user))
    ensures requester.Authenticated? ==> (r.userProfile.Some? <==> GetUserProfile(users, profiles, requester).Some?)
    ensures r.userProfile.Some? ==>
              exists p :: p in profiles && profiles[p].user == GetUserObject(users, requester).value.id
                          && r.userProfile.value == ProfileView(profiles[p])
    ensures r.books.Some? <==>
              requester.Authenticated?
              && exists k :: k in books && books[k].data.owner in profiles
                             && profiles[books[k].data.owner].user == requester.user.id
    ensures r.books.Some? ==>
              forall k :: k in r.books.value <==>
                k in books && books[k].data.owner in profiles && profiles[books[k].data.owner].user == requester.user.id
    ensures r.books.Some? ==> forall k :: k in r.books.value ==> r.books.value[k] == OwnerView(books[k])
  {
    match requester
    case Anonymous =>
      HomeData(None, None, None)
    case Authenticated(u) =>
      HomeData(Some(UserView(u)), ProfileData(users, profiles, requester), BooksData(profiles, books, u))
  }

  /** Every book on the home page is one on which the `IsOwner` permission admits the
      requester: the page shows the requester's own books and no others. */
  lemma {:induction false} HomeShowsOnlyPermittedBooks(users: map<Pk, User>, profiles: map<Pk, Profile>,
                                                      books: map<Pk, Book>, requester: Requester, k: Pk)
    requires OneProfilePerUser(profiles)
    requires HomeView(users, profiles, books, requester).books.Some?
    requires k in books && books[k].data.owner in profiles
    ensures k in HomeView(users, profiles, books, requester).books.value
            <==> HasObjectPermission(profiles, requester, books[k])
  {
    var r := HomeView(users, profiles, books, requester);
    assert requester.Authenticated?;
    assert k in r.books.value <==> profiles[books[k].data.owner].user == requester.user.id;
  }

  /** The server's `user_login`: a request whose user has no live user object is answered
      404 before the payload is looked at; otherwise it is the users app's login. Since
      stored usernames are never empty, an anonymous request always gets the 404. */
  method ServerUserLogin(s: Store, requester: Requester, data: map<string, Value>,
                         checkPassword: (User, string) -> bool, freshKey: string) returns (resp: Response)
    requires s.Valid()
    modifies s
    ensures s.Valid()
    ensures s.db == old(s.db)
    ensures GetUserObject(old(s.db.users), requester).None? <==> resp == Response(HTTP_404_NOT_FOUND, Detail("Not found"))
    ensures requester.Anonymous? ==> resp == Response(HTTP_404_NOT_FOUND, Detail("Not found"))
    ensures var v := ValidateLogin(old(s.db.users), data, checkPassword);
            GetUserObject(old(s.db.users), requester).Some? && v.Rejected? ==>
              resp == Response(HTTP_400_BAD_REQUEST, ErrorsBody(v.errors))
    ensures var v := ValidateLogin(old(s.db.users), data, checkPassword);
            GetUserObject(old(s.db.users), requester).Some? && v.Accepted? && !v.value.user.isActive ==>
              resp == Response(HTTP_401_UNAUTHORIZED, Detail(InvalidCredentials))
    ensures var v := ValidateLogin(old(s.db.users), data, checkPassword);
            GetUserObject(old(s.db.users), requester).Some? && v.Accepted? && v.value.user.isActive ==>
              resp == Response(HTTP_200_OK, Obj(map["user" := Obj(UserView(v.value.user)),
                                                    "token" := Str(s.db.tokens[v.value.user.id])]))
  {
    if requester.Anonymous? {
      AnonymousHasNoUserObject(s.db.users);
    }
    var user := GetUserObject(s.db.users, requester);
    if user.None? {
      return Response(HTTP_404_NOT_FOUND, Detail("Not found"));
    }
    resp := UserLogin(s, data, checkPassword, freshKey);
  }

  /** `user_logout` behind its decorators: `IsAuthenticated` answers an anonymous request
      403 before anything else, and `api_view(['POST'])` answers any other verb 405 with
      its own message; an authenticated POST is logged out and answered 200. The body's
      own 'Invalid request method' line is therefore never reached. */
  function UserLogout(verb: HttpMethod, authenticated: bool): (resp: Response)
    ensures !authenticated ==> resp == NotAuthenticatedResponse
    ensures resp.Response? && (resp.status == HTTP_200_OK <==> verb == POST && authenticated)
    ensures resp.status == HTTP_200_OK ==> resp.body == Detail("User logged out successfully")
    ensures authenticated && verb != POST ==>
              resp == Response(HTTP_405_METHOD_NOT_ALLOWED, Detail(MethodNotAllowed(verb)))
    ensures resp.body != Detail("Invalid request method")
  {
    var unreached := "Invalid request method";
    if !authenticated then
      assert |NotAuthenticated| != |unreached|;
      assert NotAuthenticatedResponse.body.fields["detail"] != Detail(unreached).fields["detail"];
      NotAuthenticatedResponse
    else if verb != POST then
      assert MethodNotAllowed(verb)[0] != unreached[0];
      assert Detail(MethodNotAllowed(verb)).fields["detail"] != Detail(unreached).fields["detail"];
      Response(HTTP_405_METHOD_NOT_ALLOWED, Detail(MethodNotAllowed(verb)))
    else
      var done := "User logged out successfully";
      assert |done| != |unreached|;
      assert Detail(done).fields["detail"] != Detail(unreached).fields["detail"];
      Response(HTTP_200_OK, Detail(done))
  }
}
