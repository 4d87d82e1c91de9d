/** The `IsOwner` object permission of the book endpoints. */
module BookPermissions {
  import opened Base
  import opened UserModels
  import opened BookModels

  /** `IsOwner.has_object_permission`: `obj.owner.user == request.user`. Model instances
      compare by primary key, and the anonymous user equals no stored user, so the
      permission holds exactly for the authenticated user whose profile owns the book. */
  function HasObjectPermission(profiles: map<Pk, Profile>, requester: Requester, book: Book): (r: bool)
    requires book.data.owner in profiles
    ensures requester.Anonymous? ==> !r
    ensures requester.Authenticated? ==> (r <==> requester.user.id == profiles[book.data.owner].user)
  {
    match requester
    case Anonymous => false
    case Authenticated(u) => profiles[book.data.owner].user == u.id
  }

  /** The owner is permitted on each of its books, and only the owner is: a user whose
      profile is not the owning one is denied when profiles are one-to-one. */
  lemma {:induction false} OnlyOwnerPermitted(profiles: map<Pk, Profile>, u: User, p: Pk, book: Book)
    requires OneProfilePerUser(profiles)
    requires p in profiles && profiles[p].user == u.id
    requires book.data.owner in profiles
    ensures HasObjectPermission(profiles, Authenticated(u), book) <==> book.data.owner == p
  {
    if HasObjectPermission(profiles, Authenticated(u), book) {
      assert profiles[book.data.owner].user == profiles[p].user;
    }
  }

  /** The decision depends on the book only through its owner: name, status, ratings and
      every other field play no part. */
  lemma DependsOnlyOnOwner(profiles: map<Pk, Profile>, requester: Requester, b1: Book, b2: Book)
    requires b1.data.owner in profiles && b1.data.owner == b2.data.owner
    ensures HasObjectPermission(profiles, requester, b1) == HasObjectPermission(profiles, requester, b2)
  {
  }
}
