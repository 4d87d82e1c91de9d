/** The views of the users app: registration and login. Both change the stored state
    (the new user with its profile, token and welcome email; the login token), so they
    are methods on the store. */
module UserViews {
  import opened Base
  import opened UserModels
  import opened UserSerializers
  import opened Store

  const UserCreated: string := "User created successfully"
  const MissingCredentials: string := "Please provide username, password, and email."

  /** `user_registration`: an invalid payload is answered 400 with the serializer's
      errors and stores nothing; a valid one creates the user (with the email, see
      Findings) and is answered 201 with the message and the serialized input. The
      "Please provide ..." branch is dead: validation already makes all three values
      non-empty. */
  method UserRegistration(s: Store, data: map<string, Value>, isEmail: string -> bool, tokenKey: string)
    returns (resp: Response)
    requires s.Valid() && FreshKey(s.db.tokens, tokenKey)
    modifies s
    ensures s.Valid()
    ensures var v := ValidateRegistration(old(s.db.users), data, isEmail);
            v.Rejected? ==>
              && resp == Response(HTTP_400_BAD_REQUEST, ErrorsBody(v.errors))
              && s.db == old(s.db)
    ensures var v := ValidateRegistration(old(s.db.users), data, isEmail);
            v.Accepted? ==>
              && resp == Response(HTTP_201_CREATED, Obj(map["message" := Str(UserCreated), "user" := Obj(RegistrationView(v.value))]))
              && s.db == Registered(old(s.db), NewUser(old(s.db.nextUserPk), v.value.username, v.value.email,
                                                       Some(v.value.password), false, false), tokenKey)
    ensures resp.Response? && (resp.status == HTTP_201_CREATED <==> AcceptableRegistration(old(s.db.users), data, isEmail))
  {
    var v := ValidateRegistration(s.db.users, data, isEmail);
    if v.Rejected? {
      return Response(HTTP_400_BAD_REQUEST, ErrorsBody(v.errors));
    }
    var d := v.value;
    RegistrationGuardUnreachable(s.db.users, data, isEmail);
    if d.username == "" || d.password == "" || d.email == "" {
      assert false;
      return Response(HTTP_400_BAD_REQUEST, Obj(map["error" := Str(MissingCredentials)]));
    }
    var created := s.CreateUser(d.username, d.email, Some(d.password), false, false, tokenKey);
    assert created.Return?;
    resp := Response(HTTP_201_CREATED, Obj(map["message" := Str(UserCreated), "user" := Obj(RegistrationView(d))]));
  }

  /** Django's default `authenticate`: the user with username `name`, provided
      `checkPassword` (standing for `check_password`) accepts `password` for it and the
      user is active. */
  function Authenticate(users: map<Pk, User>, name: string, password: string,
                        checkPassword: (User, string) -> bool): (r: Option<User>)
    ensures r.Some? ==> r.value in users.Values && r.value.username == name
                        && r.value.isActive && checkPassword(r.value, password)
  {
    match FirstNamed(users, name)
    case None => None
    case Some(k) => if checkPassword(users[k], password) && users[k].isActive then Some(users[k]) else None
  }

  /** `authenticate` accepts exactly the credentials that the login serializer accepts,
      for an active user. */
  lemma {:induction false} AuthenticateAgreesWithCredentials(users: map<Pk, User>, name: string, password: string,
                                                             checkPassword: (User, string) -> bool)
    ensures var c := CheckCredentials(users, name, password, checkPassword);
            Authenticate(users, name, password, checkPassword) == if c.Some? && c.value.isActive then c else None
  {
    match FirstNamed(users, name)
    case None =>
      assert CheckCredentials(users, name, password, checkPassword).None?;
    case Some(k) =>
      assert FirstWithName(users, k, name);
      if checkPassword(users[k], password) {
        assert CheckCredentials(users, name, password, checkPassword) == Some(users[k]);
      } else {
        assert CheckCredentials(users, name, password, checkPassword).None?;
      }
  }

  /** `user_login`: an invalid payload (including wrong credentials) is answered 400
      with the serializer's errors; a user that `authenticate` refuses, which after a
      valid payload means an inactive user, is answered 401; otherwise the user's token
      is fetched (every stored user already has one, so nothing changes) and returned with
      the serialized user. Logging in again therefore returns the same token. */
  method UserLogin(s: Store, data: map<string, Value>, checkPassword: (User, string) -> bool, freshKey: string)
    returns (resp: Response)
    requires s.Valid()
    modifies s
    ensures s.Valid()
    ensures s.db == old(s.db)
    ensures var v := ValidateLogin(old(s.db.users), data, checkPassword);
            v.Rejected? ==> resp == Response(HTTP_400_BAD_REQUEST, ErrorsBody(v.errors))
    ensures var v := ValidateLogin(old(s.db.users), data, checkPassword);
            v.Accepted? && !v.value.user.isActive ==> resp == Response(HTTP_401_UNAUTHORIZED, Detail(InvalidCredentials))
    ensures var v := ValidateLogin(old(s.db.users), data, checkPassword);
            v.Accepted? && v.value.user.isActive ==>
              && v.value.user.id in s.db.tokens
              && resp == Response(HTTP_200_OK, Obj(map["user" := Obj(UserView(v.value.user)),
                                                       "token" := Str(s.db.tokens[v.value.user.id])]))
  {
    var v := ValidateLogin(s.db.users, data, checkPassword);
    if v.Rejected? {
      return Response(HTTP_400_BAD_REQUEST, ErrorsBody(v.errors));
    }
    AuthenticateAgreesWithCredentials(s.db.users, v.value.username, v.value.password, checkPassword);
    var user := Authenticate(s.db.users, v.value.username, v.value.password, checkPassword);
    if user.None? {
      return Response(HTTP_401_UNAUTHORIZED, Detail(InvalidCredentials));
    }
    var key := StoredToken(s, user.value, freshKey);
    resp := Response(HTTP_200_OK, Obj(map["user" := Obj(UserView(user.value)), "token" := Str(key)]));
  }

  /** `Token.objects.get_or_create(user=user)` for a stored user: the user's token was
      created with the user, so it is returned and nothing changes. */
  method StoredToken(s: Store, u: User, freshKey: string) returns (key: string)
    requires s.Valid() && u in s.db.users.Values
    modifies s
    ensures s.Valid()
    ensures s.db == old(s.db)
    ensures u.id in s.db.tokens && key == s.db.tokens[u.id]
  {
    var k :| k in s.db.users && s.db.users[k] == u;
    assert u.id in s.db.tokens;
    key := s.GetOrCreateToken(u.id, freshKey);
    assert s.db.tokens == old(s.db.tokens);
    assert s.db == old(s.db);
  }
}
