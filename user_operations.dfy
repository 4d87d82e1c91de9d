/** The user lookups of the users app and the email-confirmation step on a user row.
    Lookups that use `.filter(...).first()` take the matching row of smallest key. */
module UserOperations {
  import opened Base
  import opened Queries
  import opened UserModels

  /** Python truthiness of the optional lookup arguments: None, 0 and "" are false. */
  predicate PkGiven(pk: Option<int>)
  {
    pk.Some? && pk.value != 0
  }

  predicate TextGiven(t: Option<string>)
  {
    t.Some? && t.value != ""
  }

  /** `CustomUser.objects.get(field=value)` for a unique field: the row, or None on
      `DoesNotExist`. */
  function GetBy(users: map<Pk, User>, p: User -> bool): (r: Option<User>)
    ensures r.Some? ==> r.value in users.Values && p(r.value)
    ensures r.None? <==> forall k :: k in users ==> !p(users[k])
  {
    match FirstKeyWhere(users, p)
    case None => None
    case Some(k) => Some(users[k])
  }

  /** `get_user(pk=..., username=..., email=...)`: looks up by a truthy `pk` first, else by
      a truthy `username`, else by a truthy `email`; with none of them, or when the chosen
      lookup misses, the result is None. */
  function GetUser(users: map<Pk, User>, pk: Option<int>, username: Option<string>, email: Option<string>): (r: Option<User>)
    requires UniqueUsernames(users) && UniqueEmails(users)
    ensures PkGiven(pk) ==> (r.Some? <==> pk.value >= 0 && pk.value as Pk in users)
    ensures PkGiven(pk) && r.Some? ==> r.value == users[pk.value as Pk]
    ensures !PkGiven(pk) && TextGiven(username) ==>
              (r.Some? <==> exists k :: k in users && users[k].username == username.value)
    ensures !PkGiven(pk) && TextGiven(username) && r.Some? ==>
              r.value in users.Values && r.value.username == username.value
    ensures !PkGiven(pk) && !TextGiven(username) && TextGiven(email) ==>
              (r.Some? <==> exists k :: k in users && users[k].email == email.value)
    ensures !PkGiven(pk) && !TextGiven(username) && TextGiven(email) && r.Some? ==>
              r.value in users.Values && r.value.email == email.value
    ensures !PkGiven(pk) && !TextGiven(username) && !TextGiven(email) ==> r.None?
  {
    if PkGiven(pk) then
      if pk.value >= 0 && pk.value as Pk in users then Some(users[pk.value as Pk]) else None
    else if TextGiven(username) then GetBy(users, (u: User) => u.username == username.value)
    else if TextGiven(email) then GetBy(users, (u: User) => u.email == email.value)
    else None
  }

  /** The lookup ignores a later argument once an earlier one is truthy. */
  lemma GetUserPrefersPk(users: map<Pk, User>, pk: int, username: Option<string>, email: Option<string>)
    requires UniqueUsernames(users) && UniqueEmails(users)
    requires pk != 0
    ensures GetUser(users, Some(pk), username, email) == GetUser(users, Some(pk), None, None)
  {
  }

  /** `get_user_profile_by_id(pk)`: despite its name it returns the user stored under
      `pk`, not a profile, or None when there is none. */
  function GetUserProfileById(users: map<Pk, User>, pk: int): (r: Option<User>)
    ensures r.Some? <==> pk >= 0 && pk as Pk in users
    ensures r.Some? ==> r.value == users[pk as Pk]
  {
    if pk >= 0 && pk as Pk in users then Some(users[pk as Pk]) else None
  }

  /** The first user that is not soft-deleted and has exactly `username`. */
  function FirstLiveUser(users: map<Pk, User>, username: string): (r: Option<User>)
    ensures r.Some? ==> r.value in users.Values && r.value.username == username && !r.value.isDeleted
    ensures r.None? <==> forall k :: k in users ==> users[k].username != username || users[k].isDeleted
  {
    GetBy(users, (u: User) => u.username == username && !u.isDeleted)
  }

  /** `check_if_user_exists(request)`: `request.data['username']` raises KeyError when the
      key is missing (None here); otherwise the first non-deleted user with exactly that
      username, or None. */
  function CheckIfUserExists(users: map<Pk, User>, username: Option<string>): (r: Outcome<Option<User>>)
    ensures username.None? <==> r == Raise(KeyError)
    ensures username.Some? ==> r == Return(FirstLiveUser(users, username.value))
  {
    if username.None? then Raise(KeyError) else Return(FirstLiveUser(users, username.value))
  }

  /** The `username` attribute of `request.user`: the anonymous user's is "". */
  function RequestUsername(requester: Requester): string
  {
    match requester
    case Anonymous => ""
    case Authenticated(u) => u.username
  }

  /** `get_user_object(request)`: the first non-deleted user with the requester's username;
      a soft-deleted user is never returned. */
  function GetUserObject(users: map<Pk, User>, requester: Requester): (r: Option<User>)
    ensures r.Some? ==> r.value in users.Values && !r.value.isDeleted
    ensures r.Some? ==> r.value.username == RequestUsername(requester)
    ensures r.None? <==> forall k :: k in users ==> users[k].username != RequestUsername(requester) || users[k].isDeleted
  {
    FirstLiveUser(users, RequestUsername(requester))
  }

  /** Stored usernames are never empty, so the anonymous user has no user object. */
  lemma {:induction false} AnonymousHasNoUserObject(users: map<Pk, User>)
    requires forall k :: k in users ==> ValidUsername(users[k].username)
    ensures GetUserObject(users, Anonymous) == None
  {
    forall k | k in users ensures users[k].username != "" {
      assert ValidUsername(users[k].username);
    }
  }

  /** An authenticated user that is stored and not soft-deleted finds itself when usernames
      are unique. */
  lemma {:induction false} LiveUserFindsItself(users: map<Pk, User>, k: Pk)
    requires UniqueUsernames(users)
    requires k in users && !users[k].isDeleted
    ensures GetUserObject(users, Authenticated(users[k])) == Some(users[k])
  {
    var r := GetUserObject(users, Authenticated(users[k]));
    assert r.Some?;
    var j :| j in users && users[j] == r.value;
    assert users[j].username == users[k].username;
  }

  /** `UserProfile.objects.get(user=user)`: the profile of user `user`, or None. */
  function ProfileOf(profiles: map<Pk, Profile>, user: Pk): (r: Option<Profile>)
    ensures r.Some? ==> r.value in profiles.Values && r.value.user == user
    ensures r.None? <==> forall p :: p in profiles ==> profiles[p].user != user
  {
    match FirstKeyWhere(profiles, (q: Profile) => q.user == user)
    case None => None
    case Some(p) => Some(profiles[p])
  }

  /** `get_user_profile(request)`: the profile of the request's user object, or None when
      there is no such user or it has no profile (`get(user=None)` finds no profile). */
  function GetUserProfile(users: map<Pk, User>, profiles: map<Pk, Profile>, requester: Requester): (r: Option<Profile>)
    ensures r.Some? ==> GetUserObject(users, requester).Some?
                        && r.value in profiles.Values && r.value.user == GetUserObject(users, requester).value.id
    ensures GetUserObject(users, requester).Some? && r.None? ==>
              forall p :: p in profiles ==> profiles[p].user != GetUserObject(users, requester).value.id
  {
    match GetUserObject(users, requester)
    case None => None
    case Some(u) => ProfileOf(profiles, u.id)
  }

  /** The user row after `confirm_email_by_token` with `token`: when the stored token
      equals it, the email is confirmed and the token cleared; otherwise nothing changes
      and the result is None. */
  function ConfirmUser(u: User, token: Option<string>): (r: Option<User>)
    ensures r.Some? <==> u.confirmationToken == token
    ensures r.Some? ==> r.value == u.(isEmailConfirmed := true, confirmationToken := None)
  {
    if u.confirmationToken != token then None
    else Some(u.(isEmailConfirmed := true, confirmationToken := None))
  }

  /** What `confirm_email_by_token(request, token)` returns: with no user object for the
      request the attribute access on None raises AttributeError; otherwise the confirmed
      user, or None when the token does not match. */
  function ConfirmEmail(users: map<Pk, User>, requester: Requester, token: Option<string>): (r: Outcome<Option<User>>)
    ensures r.Raise? <==> GetUserObject(users, requester).None?
    ensures r.Raise? ==> r.exception == AttributeError
    ensures r.Return? && r.value.Some? ==>
              r.value.value.isEmailConfirmed && r.value.value.confirmationToken.None?
              && GetUserObject(users, requester).value.confirmationToken == token
              && r.value.value.id == GetUserObject(users, requester).value.id
    ensures r.Return? && r.value.None? ==> GetUserObject(users, requester).value.confirmationToken != token
  {
    match GetUserObject(users, requester)
    case None => Raise(AttributeError)
    case Some(u) => Return(ConfirmUser(u, token))
  }

  /** A confirmation token works once: after a successful confirmation, the same non-null
      token no longer matches, while a repeated confirmation leaves the row as it is. */
  lemma {:induction false} ConfirmationTokenSingleUse(u: User, t: string)
    requires ConfirmUser(u, Some(t)).Some?
    ensures ConfirmUser(ConfirmUser(u, Some(t)).value, Some(t)).None?
    ensures ConfirmUser(u, Some(t)).value.isEmailConfirmed
  {
    var v := ConfirmUser(u, Some(t)).value;
    assert v.confirmationToken == None;
  }

  /** Deactivation is not a soft delete: after a user is deactivated, the lookup that
      excludes soft-deleted users finds a user exactly when it did before, and the same
      one. */
  lemma {:induction false} DeactivatedStillVisible(users: map<Pk, User>, k: Pk, requester: Requester)
    requires k in users
    ensures GetUserObject(users[k := users[k].(isActive := false)], requester).Some? ==
            GetUserObject(users, requester).Some?
    ensures GetUserObject(users[k := users[k].(isActive := false)], requester).Some? ==>
              GetUserObject(users[k := users[k].(isActive := false)], requester).value.id ==
              GetUserObject(users, requester).value.id
  {
    var users' := users[k := users[k].(isActive := false)];
    var name := RequestUsername(requester);
    var p := (u: User) => u.username == name && !u.isDeleted;
    assert forall j :: j in users <==> j in users';
    assert forall j :: j in users ==> p(users'[j]) == p(users[j]) && users'[j].id == users[j].id;
    var a, b := FirstKeyWhere(users, p), FirstKeyWhere(users', p);
    assert a.None? <==> b.None?;
    if a.Some? {
      assert !(a.value < b.value) && !(b.value < a.value);
    }
  }
}
