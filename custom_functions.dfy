/** The raise-on-miss lookups built on `get_object_or_404`. Unlike the users app's own
    lookups they apply no soft-delete filter. */
module CustomFunctions {
  import opened Base
  import opened UserModels
  import opened UserOperations

  /** The lookup value of `username=request.user`: the string form of the request's user,
      which is the username of a stored user and "AnonymousUser" for the anonymous one. */
  function RequestUserText(requester: Requester): string
  {
    match requester
    case Anonymous => "AnonymousUser"
    case Authenticated(u) => u.username
  }

  /** `get_user_object(request)`: the user whose username is the request user's, or Http404. */
  function GetUserObjectOr404(users: map<Pk, User>, requester: Requester): (r: Outcome<User>)
    requires UniqueUsernames(users)
    ensures r.Return? ==> r.value in users.Values && r.value.username == RequestUserText(requester)
    ensures r.Raise? <==> forall k :: k in users ==> users[k].username != RequestUserText(requester)
    ensures r.Raise? ==> r.exception == Http404
  {
    match GetBy(users, (u: User) => u.username == RequestUserText(requester))
    case None => Raise(Http404)
    case Some(u) => Return(u)
  }

  /** `get_user_profile(request)`: the profile linked to that user; Http404 when the user
      or its profile is missing. */
  function GetUserProfileOr404(users: map<Pk, User>, profiles: map<Pk, Profile>, requester: Requester): (r: Outcome<Profile>)
    requires UniqueUsernames(users)
    ensures r.Raise? ==> r.exception == Http404
    ensures match GetUserObjectOr404(users, requester)
            case Raise(_) => r.Raise?
            case Return(u) =>
              && (r.Raise? <==> forall p :: p in profiles ==> profiles[p].user != u.id)
              && (r.Return? ==> r.value in profiles.Values && r.value.user == u.id)
  {
    var found := GetUserObjectOr404(users, requester);
    if found.Raise? then Raise(Http404)
    else
      var profile := ProfileOf(profiles, found.value.id);
      if profile.None? then Raise(Http404) else Return(profile.value)
  }

  /** A soft-deleted user is still found here, while the users app's `get_user_object`
      returns None for it. */
  lemma {:induction false} SoftDeletedUserFoundOnlyHere(users: map<Pk, User>, k: Pk)
    requires UniqueUsernames(users)
    requires k in users && users[k].isDeleted
    ensures GetUserObjectOr404(users, Authenticated(users[k])) == Return(users[k])
    ensures GetUserObject(users, Authenticated(users[k])).None?
  {
    var r := GetUserObjectOr404(users, Authenticated(users[k]));
    assert !(forall j :: j in users ==> users[j].username != users[k].username);
    var j :| j in users && users[j] == r.value;
    assert users[j].username == users[k].username;
    forall i | i in users ensures users[i].username != users[k].username || users[i].isDeleted {
      if users[i].username == users[k].username {
        assert i == k;
      }
    }
  }
}
