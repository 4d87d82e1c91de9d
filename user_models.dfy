/** The user and profile tables, the requesting user, and the manager's
    `create_user` / `create_superuser` argument handling. */
module UserModels {
  import opened Base

  /** The gender choices of a profile. */
  datatype Gender = Female | Male | Other

  function GenderLiteral(g: Gender): string
  {
    match g
    case Female => "Female"
    case Male => "Male"
    case Other => "Other"
  }

  function ParseGender(text: string): (r: Option<Gender>)
    ensures forall g :: r == Some(g) <==> GenderLiteral(g) == text
    ensures r.None? <==> text !in {"Female", "Male", "Other"}
  {
    if text == "Female" then Some(Female)
    else if text == "Male" then Some(Male)
    else if text == "Other" then Some(Other)
    else None
  }

  const UsernameMaxLen: nat := 50
  const PersonNameMinLen: nat := 2
  const PersonNameMaxLen: nat := 20
  /** The default `max_length` of an `EmailField`. */
  const EmailMaxLen: nat := 254
  /** The `max_length` of the password column inherited from `AbstractBaseUser`. */
  const PasswordMaxLen: nat := 128

  /** A row of the user table. `password` is the argument given to `set_password`
      (None: an unusable password); hashing is not modelled. */
  datatype User = User(
    id: Pk,
    username: string,
    email: string,
    password: Option<string>,
    isActive: bool,
    isStaff: bool,
    isSuperuser: bool,
    isDeleted: bool,
    confirmationToken: Option<string>,
    isEmailConfirmed: bool)

  /** A row of the profile table; `user` is the one-to-one key of its user. */
  datatype Profile = Profile(
    id: Pk,
    firstName: Option<string>,
    lastName: Option<string>,
    profilePicture: Option<string>,
    gender: Option<Gender>,
    user: Pk)

  /** The field names of a profile record. */
  const ProfileFields: set<string> := {"id", "first_name", "last_name", "profile_picture", "gender", "user"}

  /** `request.user`: the anonymous user, or the user row the authentication loaded. */
  datatype Requester = Anonymous | Authenticated(user: User)

  /** The username column: required (create_user refuses an empty one) and at most 50
      characters. */
  predicate ValidUsername(name: string)
  {
    0 < |name| <= UsernameMaxLen
  }

  /** An optional person name: null, blank, or between 2 and 20 characters. A blank value
      is accepted because the field allows blanks and blank input skips the minimum-length
      validator. */
  predicate ValidPersonName(n: Option<string>)
  {
    n.None? || n.value == "" || PersonNameMinLen <= |n.value| <= PersonNameMaxLen
  }

  predicate ValidProfile(p: Profile)
  {
    ValidPersonName(p.firstName) && ValidPersonName(p.lastName)
  }

  /** The one-to-one constraint of `UserProfile.user`: no two profiles share a user. */
  predicate OneProfilePerUser(profiles: map<Pk, Profile>)
  {
    forall p, q :: p in profiles && q in profiles && profiles[p].user == profiles[q].user ==> p == q
  }

  /** The unique constraints of the user table. */
  predicate UniqueUsernames(users: map<Pk, User>)
  {
    forall a, b :: a in users && b in users && users[a].username == users[b].username ==> a == b
  }

  predicate UniqueEmails(users: map<Pk, User>)
  {
    forall a, b :: a in users && b in users && users[a].email == users[b].email ==> a == b
  }

  /** Some stored user has username `name`. */
  predicate UsernameTaken(users: map<Pk, User>, name: string)
  {
    exists k :: k in users && users[k].username == name
  }

  /** Some stored user has email `email`. */
  predicate EmailTaken(users: map<Pk, User>, email: string)
  {
    exists k :: k in users && users[k].email == email
  }

  /** The row `create_user` builds: active, not deleted, email not confirmed and no
      confirmation token, with the given flags. */
  function NewUser(id: Pk, username: string, email: string, password: Option<string>,
                   isStaff: bool, isSuperuser: bool): User
  {
    User(id, username, email, password, true, isStaff, isSuperuser, false, None, false)
  }

  /** The profile the post-save hook creates for a new user: every optional field null. */
  function NewProfile(id: Pk, user: Pk): (p: Profile)
    ensures ValidProfile(p) && p.user == user
  {
    Profile(id, None, None, None, None, user)
  }

  /** `create_superuser`'s treatment of the two flags in `extra_fields`: a missing flag
      defaults to True, and any flag that is then not True raises ValueError (the staff
      flag is checked first). None stands for a flag the caller did not pass. */
  function SuperuserFlags(isStaff: Option<bool>, isSuperuser: Option<bool>): (r: Outcome<(bool, bool)>)
    ensures r.Return? <==> isStaff != Some(false) && isSuperuser != Some(false)
    ensures r.Return? ==> r.value == (true, true)
    ensures isStaff == Some(false) ==> r == Raise(ValueError("Superuser must have is_staff=True."))
    ensures isStaff != Some(false) && isSuperuser == Some(false) ==>
              r == Raise(ValueError("Superuser must have is_superuser=True."))
  {
    var staff := if isStaff.Some? then isStaff.value else true;
    var superuser := if isSuperuser.Some? then isSuperuser.value else true;
    if staff != true then Raise(ValueError("Superuser must have is_staff=True."))
    else if superuser != true then Raise(ValueError("Superuser must have is_superuser=True."))
    else Return((staff, superuser))
  }

  /** The parameters of `create_user` as written: it takes no `email`. */
  const CreateUserParameters: set<string> := {"username", "password", "is_staff", "is_superuser"}

  /** Python's binding of keyword arguments to `create_user` as written: a call succeeds
      in binding iff it passes `username` and no keyword outside the parameter list. */
  function BindCreateUserArgs(keywords: set<string>): (r: Outcome<()>)
    ensures r.Return? <==> "username" in keywords && keywords <= CreateUserParameters
    ensures r.Raise? ==> r.exception == TypeError
  {
    if "username" in keywords && keywords <= CreateUserParameters then Return(()) else Raise(TypeError)
  }

  /** The registration views call `create_user(username=..., password=..., email=...)`:
      as written that call raises TypeError before any user is stored. */
  lemma RegistrationCallRaisesTypeError()
    ensures BindCreateUserArgs({"username", "password", "email"}) == Raise(TypeError)
  {
    assert "email" !in CreateUserParameters;
  }
}
