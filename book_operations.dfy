/** The read-only book queries: one book by key, and all books of a user. */
module BookOperations {
  import opened Base
  import opened Queries
  import opened UserModels
  import opened BookModels

  /** `get_book(pk)`: the book stored under `pk`, or None when there is none. */
  function GetBook(books: map<Pk, Book>, pk: int): (r: Option<Book>)
    ensures r.Some? <==> pk >= 0 && pk as Pk in books
    ensures r.Some? ==> r.value == books[pk as Pk]
  {
    if pk >= 0 && pk as Pk in books then Some(books[pk as Pk]) else None
  }

  /** The key of the profile of user `user` (`user.userprofile`), or None when the user
      has none. */
  function ProfileKeyOf(profiles: map<Pk, Profile>, user: Pk): (r: Option<Pk>)
    ensures r.Some? ==> r.value in profiles && profiles[r.value].user == user
    ensures r.None? <==> forall p :: p in profiles ==> profiles[p].user != user
  {
    FirstKeyWhere(profiles, (q: Profile) => q.user == user)
  }

  /** With one profile per user, the profile found is the only one of that user. */
  lemma ProfileKeyOfUnique(profiles: map<Pk, Profile>, user: Pk, p: Pk)
    requires OneProfilePerUser(profiles)
    requires p in profiles && profiles[p].user == user
    ensures ProfileKeyOf(profiles, user) == Some(p)
  {
  }

  /** `get_all_books_by_user(user)`: None (not an empty queryset) when the user has no
      profile; otherwise exactly the books whose owner is the user's profile. */
  function GetAllBooksByUser(profiles: map<Pk, Profile>, books: map<Pk, Book>, user: User): (r: Option<map<Pk, Book>>)
    requires OneProfilePerUser(profiles)
    ensures r.None? <==> forall p :: p in profiles ==> profiles[p].user != user.id
    ensures r.Some? ==> forall k :: k in r.value <==>
              k in books && books[k].data.owner in profiles && profiles[books[k].data.owner].user == user.id
    ensures r.Some? ==> forall k :: k in r.value ==> r.value[k] == books[k]
  {
    match ProfileKeyOf(profiles, user.id)
    case None => None
    case Some(p) => Some(Where(books, (b: Book) => b.data.owner == p))
  }
}
