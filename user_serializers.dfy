/** The user serializers: the registration and login validation and the field projections
    of users and profiles. */
module UserSerializers {
  import opened Base
  import opened Queries
  import opened UserModels
  import opened Fields

  // ---------------------------------------------------------------------------
  // Projections

  /** `CustomUserSerializer(user).data`: exactly the id, the username and the email. */
  function UserView(u: User): (v: map<string, Value>)
    ensures v.Keys == {"id", "username", "email"}
    ensures "password" !in v
    ensures v["id"] == Int(u.id) && v["username"] == Str(u.username) && v["email"] == Str(u.email)
  {
    map["id" := Int(u.id), "username" := Str(u.username), "email" := Str(u.email)]
  }

  function OptionalTextValue(o: Option<string>): Value
  {
    if o.Some? then Str(o.value) else Null
  }

  /** `UserProfileSerializer` and `UserProfileUpdateSerializer` (`exclude = ('user',)`):
      every profile field except the user. */
  function ProfileView(p: Profile): (v: map<string, Value>)
    ensures v.Keys == ProfileFields - {"user"}
    ensures v["id"] == Int(p.id)
    ensures v["first_name"] == OptionalTextValue(p.firstName)
    ensures v["last_name"] == OptionalTextValue(p.lastName)
    ensures v["profile_picture"] == OptionalTextValue(p.profilePicture)
    ensures v["gender"] == if p.gender.Some? then Str(GenderLiteral(p.gender.value)) else Null
  {
    map[
      "id" := Int(p.id),
      "first_name" := OptionalTextValue(p.firstName),
      "last_name" := OptionalTextValue(p.lastName),
      "profile_picture" := OptionalTextValue(p.profilePicture),
      "gender" := if p.gender.Some? then Str(GenderLiteral(p.gender.value)) else Null]
  }

  // ---------------------------------------------------------------------------
  // Registration

  /** The validated data of a registration request. */
  datatype RegistrationData = RegistrationData(username: string, email: string, password: string)

  const RegistrationFields: set<string> := {"username", "email", "password"}

  /** `UserRegistrationSerializer(...).data` after validation: the password is write-only,
      so only the username and the email appear. */
  function RegistrationView(d: RegistrationData): (v: map<string, Value>)
    ensures v.Keys == {"username", "email"}
    ensures "password" !in v
    ensures v["username"] == Str(d.username) && v["email"] == Str(d.email)
  {
    map["username" := Str(d.username), "email" := Str(d.email)]
  }

  /** The username field of the model serializer: required text (a string, or an integer
      as `str()` writes it) of at most 50 characters that no stored user has. */
  function UsernameField(users: map<Pk, User>, data: map<string, Value>): (c: Checked<string>)
    ensures c.FieldOk? <==> "username" in data && TextOf(data["username"]).Some?
                            && ValidUsername(TextOf(data["username"]).value)
                            && !UsernameTaken(users, TextOf(data["username"]).value)
    ensures c.FieldOk? ==> TextOf(data["username"]) == Some(c.value)
  {
    var c := RequiredTextField(data, "username", Some(UsernameMaxLen));
    if c.FieldOk? && UsernameTaken(users, c.value) then FieldErr(Unique) else c
  }

  /** The email field: required text of at most 254 characters that is a valid address
      (`isEmail` stands for Django's `EmailValidator`) and that no stored user has. */
  function EmailField(users: map<Pk, User>, data: map<string, Value>, isEmail: string -> bool): (c: Checked<string>)
    ensures c.FieldOk? ==> "email" in data && TextOf(data["email"]) == Some(c.value)
                           && isEmail(c.value) && !EmailTaken(users, c.value)
  {
    var c := RequiredTextField(data, "email", Some(EmailMaxLen));
    if c.FieldOk? && !isEmail(c.value) then FieldErr(WrongType)
    else if c.FieldOk? && EmailTaken(users, c.value) then FieldErr(Unique)
    else c
  }

  /** The conditions under which a registration request is valid, stated on the request:
      each field is text (a string or an integer), within its length, and the username and
      the address are not taken. */
  predicate AcceptableRegistration(users: map<Pk, User>, data: map<string, Value>, isEmail: string -> bool)
  {
    && "username" in data && TextOf(data["username"]).Some?
    && ValidUsername(TextOf(data["username"]).value) && !UsernameTaken(users, TextOf(data["username"]).value)
    && "email" in data && TextOf(data["email"]).Some?
    && 0 < |TextOf(data["email"]).value| <= EmailMaxLen
    && isEmail(TextOf(data["email"]).value) && !EmailTaken(users, TextOf(data["email"]).value)
    && "password" in data && TextOf(data["password"]).Some?
    && 0 < |TextOf(data["password"]).value| <= PasswordMaxLen
  }

  /** `UserRegistrationSerializer(data=...).is_valid()`. */
  function ValidateRegistration(users: map<Pk, User>, data: map<string, Value>, isEmail: string -> bool): (r: Validated<RegistrationData>)
    ensures r.Accepted? <==> AcceptableRegistration(users, data, isEmail)
    ensures r.Accepted? ==>
              r.value == RegistrationData(TextOf(data["username"]).value, TextOf(data["email"]).value,
                                          TextOf(data["password"]).value)
    ensures r.Rejected? ==> r.errors != map[] && r.errors.Keys <= RegistrationFields
  {
    var checks := map[
      "username" := UsernameField(users, data),
      "email" := EmailField(users, data, isEmail),
      "password" := RequiredTextField(data, "password", Some(PasswordMaxLen))];
    if checks["username"].FieldOk? && checks["email"].FieldOk? && checks["password"].FieldOk? then
      Accepted(RegistrationData(checks["username"].value, checks["email"].value, checks["password"].value))
    else
      var errors := map k | k in checks && checks[k].FieldErr? :: checks[k].error;
      assert !checks["username"].FieldOk? ==> "username" in errors;
      assert !checks["email"].FieldOk? ==> "email" in errors;
      assert !checks["password"].FieldOk? ==> "password" in errors;
      Rejected(errors)
  }

  /** After a successful validation the views' "Please provide username, password, and
      email." branch cannot be taken: all three values are non-empty, and the new user
      meets the table's constraints. */
  lemma {:induction false} RegistrationGuardUnreachable(users: map<Pk, User>, data: map<string, Value>, isEmail: string -> bool)
    requires ValidateRegistration(users, data, isEmail).Accepted?
    ensures var d := ValidateRegistration(users, data, isEmail).value;
            d.username != "" && d.password != "" && d.email != ""
            && ValidUsername(d.username) && !UsernameTaken(users, d.username) && !EmailTaken(users, d.email)
  {
    assert AcceptableRegistration(users, data, isEmail);
  }

  // ---------------------------------------------------------------------------
  // Login

  /** The validated data of a login request: the input plus the `user` entry. */
  datatype LoginData = LoginData(username: string, password: string, user: User)

  const InvalidCredentials: string := "Invalid credentials"

  /** `k` is the first user (by key) with username `name`. */
  predicate FirstWithName(users: map<Pk, User>, k: Pk, name: string)
  {
    k in users && users[k].username == name && forall j :: j in users && j < k ==> users[j].username != name
  }

  lemma FirstWithNameUnique(users: map<Pk, User>, j: Pk, k: Pk, name: string)
    requires FirstWithName(users, j, name) && FirstWithName(users, k, name)
    ensures j == k
  {
  }

  /** `CustomUser.objects.filter(username=name).first()`. */
  function FirstNamed(users: map<Pk, User>, name: string): (r: Option<Pk>)
    ensures r.Some? ==> FirstWithName(users, r.value, name)
    ensures r.None? ==> forall k :: k in users ==> users[k].username != name
  {
    var named := (u: User) => u.username == name;
    assert forall k :: k in users ==> (named(users[k]) <==> users[k].username == name);
    FirstKeyWhere(users, named)
  }

  /** `validate`'s credential check: the first user with username `name` (soft-deleted
      users included), provided `checkPassword` (standing for `check_password`) accepts
      `password` for it. */
  function CheckCredentials(users: map<Pk, User>, name: string, password: string,
                            checkPassword: (User, string) -> bool): (r: Option<User>)
    ensures r.Some? ==> r.value in users.Values && r.value.username == name && checkPassword(r.value, password)
    ensures r.Some? <==> exists k :: FirstWithName(users, k, name) && checkPassword(users[k], password)
  {
    match FirstNamed(users, name)
    case None => None
    case Some(k) =>
      if checkPassword(users[k], password) then Some(users[k])
      else
        assert forall j :: FirstWithName(users, j, name) ==> !checkPassword(users[j], password) by {
          forall j | FirstWithName(users, j, name) ensures !checkPassword(users[j], password) {
            FirstWithNameUnique(users, j, k, name);
          }
        }
        None
  }

  /** `UserLoginSerializer(data=...).is_valid()`. Both fields are required non-blank
      text (a string, or an integer as `str()` writes it); then the credentials are checked, and a failed check is reported as the
      non-field error 'Invalid credentials'. On success the data is the input plus the
      user. */
  function ValidateLogin(users: map<Pk, User>, data: map<string, Value>, checkPassword: (User, string) -> bool): (r: Validated<LoginData>)
    ensures r.Accepted? ==>
              && "username" in data && TextOf(data["username"]) == Some(r.value.username)
              && "password" in data && TextOf(data["password"]) == Some(r.value.password)
              && r.value.user in users.Values && r.value.user.username == r.value.username
              && checkPassword(r.value.user, r.value.password)
    ensures r.Accepted? ==> CheckCredentials(users, r.value.username, r.value.password, checkPassword) == Some(r.value.user)
    ensures r.Accepted? <==>
              && RequiredTextField(data, "username", None).FieldOk?
              && RequiredTextField(data, "password", None).FieldOk?
              && CheckCredentials(users, TextOf(data["username"]).value, TextOf(data["password"]).value,
                                  checkPassword).Some?
    ensures r.Rejected? && RequiredTextField(data, "username", None).FieldOk?
                        && RequiredTextField(data, "password", None).FieldOk? ==>
              r.errors == map[NonFieldErrors := Message(InvalidCredentials)]
    ensures r.Rejected? ==> r.errors != map[]
  {
    var cu := RequiredTextField(data, "username", None);
    var cp := RequiredTextField(data, "password", None);
    if cu.FieldErr? || cp.FieldErr? then
      var errors := (if cu.FieldErr? then map["username" := cu.error] else map[])
                    + (if cp.FieldErr? then map["password" := cp.error] else map[]);
      assert cu.FieldErr? ==> "username" in errors;
      assert cp.FieldErr? ==> "password" in errors;
      Rejected(errors)
    else
      match CheckCredentials(users, cu.value, cp.value, checkPassword)
      case Some(u) => Accepted(LoginData(cu.value, cp.value, u))
      case None => Rejected(map[NonFieldErrors := Message(InvalidCredentials)])
  }
}
