/** The database of the backend as one mutable object: the user, profile, book and token
    tables, the queue of e-mail tasks, and the auto-increment counters. The manager
    methods, the post-save signal handlers and the row updates of the users app are its
    methods. */
module Store {
  import opened Base
  import opened UserModels
  import opened BookModels
  import opened UserOperations

  /** A task handed to the e-mail queue (`send_registration_email_async.delay`). */
  datatype EmailTask = EmailTask(subject: string, message: string, fromEmail: string, recipients: seq<string>)

  /** The welcome message queued for a new user, addressed to that user alone. */
  function WelcomeEmail(email: string): (t: EmailTask)
    ensures t.recipients == [email]
  {
    EmailTask("Welcome to Your App", "Thank you for registering!", "your_email@gmail.com", [email])
  }

  /** Users are stored under their keys, below the counter, with valid, unique usernames
      and unique emails. */
  predicate UsersOk(users: map<Pk, User>, nextUserPk: Pk)
  {
    && (forall k :: k in users ==> users[k].id == k && k < nextUserPk && ValidUsername(users[k].username))
    && UniqueUsernames(users) && UniqueEmails(users)
  }

  /** Profiles are stored under their keys, below the counter, valid, each linked to an
      existing user, at most one per user. */
  predicate ProfilesOk(users: map<Pk, User>, profiles: map<Pk, Profile>, nextProfilePk: Pk)
  {
    && (forall p :: p in profiles ==> profiles[p].id == p && p < nextProfilePk)
    && (forall p :: p in profiles ==> profiles[p].user in users && ValidProfile(profiles[p]))
    && OneProfilePerUser(profiles)
  }

  /** User `u` has a profile. */
  predicate HasProfile(profiles: map<Pk, Profile>, u: Pk)
  {
    exists p :: p in profiles && profiles[p].user == u
  }

  predicate EveryUserHasProfile(users: map<Pk, User>, profiles: map<Pk, Profile>)
  {
    forall u :: u in users ==> HasProfile(profiles, u)
  }

  /** Books are stored under their keys, below the counter, valid and owned by existing
      profiles. */
  predicate BooksOk(profiles: map<Pk, Profile>, books: map<Pk, Book>, nextBookPk: Pk)
  {
    && KeysAreIds(books)
    && (forall k :: k in books ==> k < nextBookPk && ValidBookData(books[k].data))
    && OwnersExist(profiles.Keys, books)
  }

  /** Each user has exactly one token, and no two tokens share a key. */
  predicate TokensOk(users: map<Pk, User>, tokens: map<Pk, string>)
  {
    && tokens.Keys == users.Keys
    && (forall a, b :: a in tokens && b in tokens && tokens[a] == tokens[b] ==> a == b)
  }

  predicate FreshKey(tokens: map<Pk, string>, key: string)
  {
    forall k :: k in tokens ==> tokens[k] != key
  }

  lemma {:induction false} AddUserKeepsUsers(users: map<Pk, User>, next: Pk, u: User)
    requires UsersOk(users, next)
    requires u.id == next && ValidUsername(u.username)
    requires !UsernameTaken(users, u.username) && !EmailTaken(users, u.email)
    ensures UsersOk(users[next := u], next + 1)
  {
    assert next !in users;
    assert forall a :: a in users ==> users[a].username != u.username && users[a].email != u.email;
  }

  lemma {:induction false} AddProfileKeepsProfiles(users: map<Pk, User>, profiles: map<Pk, Profile>,
                                                   next: Pk, nextUser: Pk, u: User)
    requires ProfilesOk(users, profiles, next)
    requires forall k :: k in users ==> k < nextUser
    requires u.id == nextUser
    ensures ProfilesOk(users[nextUser := u], profiles[next := NewProfile(next, u.id)], next + 1)
    ensures EveryUserHasProfile(users, profiles) ==>
              EveryUserHasProfile(users[nextUser := u], profiles[next := NewProfile(next, u.id)])
  {
    var profiles' := profiles[next := NewProfile(next, u.id)];
    assert next !in profiles;
    assert forall p :: p in profiles ==> profiles[p].user in users && profiles[p].user != u.id;
    if EveryUserHasProfile(users, profiles) {
      forall v | v in users[nextUser := u] ensures HasProfile(profiles', v) {
        if v == nextUser {
          assert profiles'[next].user == v;
        } else {
          assert HasProfile(profiles, v);
          var q :| q in profiles && profiles[q].user == v;
          assert q in profiles' && profiles'[q].user == v;
        }
      }
    }
  }

  lemma {:induction false} AddTokenKeepsTokens(users: map<Pk, User>, tokens: map<Pk, string>, u: User, key: string)
    requires TokensOk(users, tokens) && FreshKey(tokens, key)
    requires u.id !in users
    ensures TokensOk(users[u.id := u], tokens[u.id := key])
  {
    assert u.id !in tokens;
  }

  lemma {:induction false} GrowProfilesKeepsBooks(profiles: map<Pk, Profile>, books: map<Pk, Book>, nextBook: Pk, p: Pk, q: Profile)
    requires BooksOk(profiles, books, nextBook)
    ensures BooksOk(profiles[p := q], books, nextBook)
  {
    forall k | k in books ensures books[k].data.owner in profiles[p := q].Keys {
      assert books[k].data.owner in profiles;
    }
  }

  /** Replacing a user row by one with the same key, username and email keeps every table
      constraint. */
  lemma {:induction false} UpdateUserKeepsUsers(users: map<Pk, User>, next: Pk, k: Pk, v: User)
    requires UsersOk(users, next) && k in users
    requires v.id == k && v.username == users[k].username && v.email == users[k].email
    ensures UsersOk(users[k := v], next)
  {
    var users' := users[k := v];
    forall a, b | a in users' && b in users' && users'[a].username == users'[b].username ensures a == b {
      assert users[a].username == users[b].username;
    }
    forall a, b | a in users' && b in users' && users'[a].email == users'[b].email ensures a == b {
      assert users[a].email == users[b].email;
    }
  }

  lemma {:induction false} UpdateUserKeepsLinks(users: map<Pk, User>, profiles: map<Pk, Profile>,
                                                tokens: map<Pk, string>, nextProfile: Pk, k: Pk, v: User)
    requires k in users
    requires ProfilesOk(users, profiles, nextProfile) && EveryUserHasProfile(users, profiles) && TokensOk(users, tokens)
    ensures ProfilesOk(users[k := v], profiles, nextProfile)
    ensures EveryUserHasProfile(users[k := v], profiles)
    ensures TokensOk(users[k := v], tokens)
  {
    assert users[k := v].Keys == users.Keys;
    forall w | w in users[k := v] ensures HasProfile(profiles, w) {
      assert w in users;
    }
  }

  lemma {:induction false} AddBookKeepsBooks(profiles: map<Pk, Profile>, books: map<Pk, Book>, next: Pk, b: Book)
    requires BooksOk(profiles, books, next)
    requires b.id == next && ValidBookData(b.data) && b.data.owner in profiles
    ensures BooksOk(profiles, books[next := b], next + 1)
  {
    var books' := books[next := b];
    forall k | k in books' ensures books'[k].id == k && k < next + 1 && ValidBookData(books'[k].data)
                                   && books'[k].data.owner in profiles {
      if k != next {
        assert books[k].id == k && k < next;
      }
    }
  }

  /** The rows the modelled code reads and writes: the user, profile, book and auth token
      tables (a token is stored under its user's key), the counters that hand out primary
      keys, and the queue of e-mail tasks that the signal handlers fill. */
  datatype Tables = Tables(
    users: map<Pk, User>,
    profiles: map<Pk, Profile>,
    books: map<Pk, Book>,
    tokens: map<Pk, string>,
    outbox: seq<EmailTask>,
    nextUserPk: Pk,
    nextProfilePk: Pk,
    nextBookPk: Pk)

  /** The constraints of the tables and what the signal handlers maintain: rows are stored
      under their own keys, below the counters; field constraints, unique usernames and
      emails, existing foreign keys; exactly one profile and one token per user, and token
      keys unique. */
  predicate TablesOk(t: Tables)
  {
    && UsersOk(t.users, t.nextUserPk)
    && ProfilesOk(t.users, t.profiles, t.nextProfilePk)
    && EveryUserHasProfile(t.users, t.profiles)
    && BooksOk(t.profiles, t.books, t.nextBookPk)
    && TokensOk(t.users, t.tokens)
  }

  /** The tables after user `u` is inserted under the next key and the post-save handlers
      have run: one new profile, one token with key `key`, one welcome email. */
  function Registered(t: Tables, u: User, key: string): (t': Tables)
    ensures t'.users == t.users[u.id := u] && t'.books == t.books
    ensures t'.profiles == t.profiles[t.nextProfilePk := NewProfile(t.nextProfilePk, u.id)]
    ensures t'.tokens == t.tokens[u.id := key] && t'.outbox == t.outbox + [WelcomeEmail(u.email)]
  {
    t.(users := t.users[u.id := u], nextUserPk := t.nextUserPk + 1,
       profiles := t.profiles[t.nextProfilePk := NewProfile(t.nextProfilePk, u.id)],
       nextProfilePk := t.nextProfilePk + 1,
       tokens := t.tokens[u.id := key],
       outbox := t.outbox + [WelcomeEmail(u.email)])
  }

  /** Registering a user with a fresh username, email and token key keeps every table
      constraint; in particular the new user gets its one profile and its one token. */
  lemma {:induction false} RegisteredKeepsTables(t: Tables, u: User, key: string)
    requires TablesOk(t) && FreshKey(t.tokens, key)
    requires u.id == t.nextUserPk && ValidUsername(u.username)
    requires !UsernameTaken(t.users, u.username) && !EmailTaken(t.users, u.email)
    ensures TablesOk(Registered(t, u, key))
  {
    AddUserKeepsUsers(t.users, t.nextUserPk, u);
    AddProfileKeepsProfiles(t.users, t.profiles, t.nextProfilePk, t.nextUserPk, u);
    AddTokenKeepsTokens(t.users, t.tokens, u, key);
    GrowProfilesKeepsBooks(t.profiles, t.books, t.nextBookPk, t.nextProfilePk, NewProfile(t.nextProfilePk, u.id));
  }

  /** Replacing a user row by one with the same key, username and email keeps every table
      constraint. */
  lemma {:induction false} UpdatedUserKeepsTables(t: Tables, v: User)
    requires TablesOk(t) && v.id in t.users
    requires v.username == t.users[v.id].username && v.email == t.users[v.id].email
    ensures TablesOk(t.(users := t.users[v.id := v]))
  {
    UpdateUserKeepsUsers(t.users, t.nextUserPk, v.id, v);
    UpdateUserKeepsLinks(t.users, t.profiles, t.tokens, t.nextProfilePk, v.id, v);
  }

  /** The tables after a book with data `data` is stored under the next book key. */
  function BookInserted(t: Tables, data: BookData): (t': Tables)
    ensures t'.books == t.books[t.nextBookPk := Book(t.nextBookPk, data, [])]
    ensures t'.nextBookPk == t.nextBookPk + 1
    ensures t'.users == t.users && t'.profiles == t.profiles && t'.tokens == t.tokens && t'.outbox == t.outbox
  {
    t.(books := t.books[t.nextBookPk := Book(t.nextBookPk, data, [])], nextBookPk := t.nextBookPk + 1)
  }

  /** Storing a valid book under the next key, owned by an existing profile, keeps every
      table constraint. */
  lemma {:induction false} InsertedBookKeepsTables(t: Tables, data: BookData)
    requires TablesOk(t)
    requires ValidBookData(data) && data.owner in t.profiles
    ensures TablesOk(BookInserted(t, data))
  {
    AddBookKeepsBooks(t.profiles, t.books, t.nextBookPk, Book(t.nextBookPk, data, []));
  }

  /** The user that `confirm_email_by_token` confirms is a stored row with its key,
      username and email unchanged, so saving it is a plain row update. */
  lemma {:induction false} ConfirmedUserIsStored(t: Tables, requester: Requester, token: Option<string>)
    requires TablesOk(t)
    requires ConfirmEmail(t.users, requester, token).Return? && ConfirmEmail(t.users, requester, token).value.Some?
    ensures var v := ConfirmEmail(t.users, requester, token).value.value;
            v.id in t.users && v.username == t.users[v.id].username && v.email == t.users[v.id].email
  {
    var u := GetUserObject(t.users, requester).value;
    var k :| k in t.users && t.users[k] == u;
    assert ConfirmUser(u, token).Some?;
  }

  /** The database. The methods are the writes of the modelled code: the user manager, the
      post-save handlers, the row updates of the users app, the token lookup of the login
      views and the insert of the book serializer. */
  class Store {
    var db: Tables

    predicate Valid()
      reads this
    {
      TablesOk(db)
    }

    /** An empty database. */
    constructor ()
      ensures Valid()
      ensures db == Tables(map[], map[], map[], map[], [], 1, 1, 1)
    {
      db := Tables(map[], map[], map[], map[], [], 1, 1, 1);
    }

    // -------------------------------------------------------------------------
    // The post-save handlers of the user table

    /** `create_user_profile`: on creation, one profile with every optional field null is
        linked to the user; any other save changes nothing. */
    method CreateUserProfile(u: User, created: bool)
      modifies this
      ensures db == if created then old(db).(profiles := old(db.profiles)[old(db.nextProfilePk) := NewProfile(old(db.nextProfilePk), u.id)],
                                             nextProfilePk := old(db.nextProfilePk) + 1)
                    else old(db)
    {
      if created {
        db := db.(profiles := db.profiles[db.nextProfilePk := NewProfile(db.nextProfilePk, u.id)],
                  nextProfilePk := db.nextProfilePk + 1);
      }
    }

    /** `create_auth_token`: on creation, a token with key `key` is stored for the user;
        the key stands for the one the token model generates. */
    method CreateAuthToken(u: User, created: bool, key: string)
      modifies this
      ensures db == if created then old(db).(tokens := old(db.tokens)[u.id := key]) else old(db)
    {
      if created {
        db := db.(tokens := db.tokens[u.id := key]);
      }
    }

    /** `send_registration_email`: on creation, one welcome task addressed to the user's
        email is queued; delivery is not part of the model. */
    method SendRegistrationEmail(u: User, created: bool)
      modifies this
      ensures db == if created then old(db).(outbox := old(db.outbox) + [WelcomeEmail(u.email)]) else old(db)
    {
      if created {
        db := db.(outbox := db.outbox + [WelcomeEmail(u.email)]);
      }
    }

    /** The `post_save` signal of the user table: the three handlers, in the order they
        are registered. */
    method PostSave(u: User, created: bool, key: string)
      modifies this
      ensures db == if created then old(db).(profiles := old(db.profiles)[old(db.nextProfilePk) := NewProfile(old(db.nextProfilePk), u.id)],
                                             nextProfilePk := old(db.nextProfilePk) + 1,
                                             tokens := old(db.tokens)[u.id := key],
                                             outbox := old(db.outbox) + [WelcomeEmail(u.email)])
                    else old(db)
    {
      CreateUserProfile(u, created);
      CreateAuthToken(u, created, key);
      SendRegistrationEmail(u, created);
    }

    // -------------------------------------------------------------------------
    // The user manager and the user rows

    /** `CustomUserManager.create_user`, with the email the registration views pass (see
        Findings): an empty username raises ValueError; a username longer than the column
        or a username or email already stored makes the insert fail; otherwise the user is
        stored active, not deleted and unconfirmed, and the post-save handlers give it one
        profile, one token (`tokenKey`, a key no token has) and one queued welcome email. */
    method CreateUser(username: string, email: string, password: Option<string>,
                      isStaff: bool, isSuperuser: bool, tokenKey: string) returns (r: Outcome<User>)
      requires Valid()
      requires FreshKey(db.tokens, tokenKey)
      modifies this
      ensures Valid()
      ensures username == "" ==> r == Raise(ValueError("The Username field must be set."))
      ensures |username| > UsernameMaxLen ==> r == Raise(DataError)
      ensures ValidUsername(username) && (UsernameTaken(old(db.users), username) || EmailTaken(old(db.users), email)) ==>
                r == Raise(IntegrityError)
      ensures r.Return? <==> ValidUsername(username) && !UsernameTaken(old(db.users), username) && !EmailTaken(old(db.users), email)
      ensures r.Raise? ==> db == old(db)
      ensures r.Return? ==>
                && r.value == NewUser(old(db.nextUserPk), username, email, password, isStaff, isSuperuser)
                && db == Registered(old(db), r.value, tokenKey)
    {
      if username == "" {
        return Raise(ValueError("The Username field must be set."));
      }
      if |username| > UsernameMaxLen {
        return Raise(DataError);
      }
      if UsernameTaken(db.users, username) || EmailTaken(db.users, email) {
        return Raise(IntegrityError);
      }
      var u := NewUser(db.nextUserPk, username, email, password, isStaff, isSuperuser);
      RegisteredKeepsTables(db, u, tokenKey);
      ghost var before := db;
      db := db.(users := db.users[u.id := u], nextUserPk := db.nextUserPk + 1);
      PostSave(u, true, tokenKey);
      assert db == Registered(before, u, tokenKey);
      r := Return(u);
    }

    /** `CustomUserManager.create_superuser`: the staff and superuser flags default to True
        and must be True (ValueError otherwise, and nothing is stored); then the user is
        created as by `CreateUser`. */
    method CreateSuperuser(username: string, email: string, password: Option<string>,
                           isStaff: Option<bool>, isSuperuser: Option<bool>, tokenKey: string) returns (r: Outcome<User>)
      requires Valid()
      requires FreshKey(db.tokens, tokenKey)
      modifies this
      ensures Valid()
      ensures SuperuserFlags(isStaff, isSuperuser).Raise? ==>
                r == Raise(SuperuserFlags(isStaff, isSuperuser).exception) && db == old(db)
      ensures r.Return? ==> r.value.isStaff && r.value.isSuperuser && db == Registered(old(db), r.value, tokenKey)
      ensures r.Return? <==> SuperuserFlags(isStaff, isSuperuser).Return? && ValidUsername(username)
                             && !UsernameTaken(old(db.users), username) && !EmailTaken(old(db.users), email)
    {
      match SuperuserFlags(isStaff, isSuperuser)
      case Raise(e) =>
        r := Raise(e);
      case Return(flags) =>
        r := CreateUser(username, email, password, flags.0, flags.1, tokenKey);
    }

    /** `user.save()` on a stored user whose key, username and email are unchanged: the
        row is replaced and, the save not being a creation, the handlers add nothing. */
    method SaveUser(v: User)
      requires Valid() && v.id in db.users
      requires v.username == db.users[v.id].username && v.email == db.users[v.id].email
      modifies this
      ensures Valid()
      ensures db == old(db).(users := old(db.users)[v.id := v])
    {
      UpdatedUserKeepsTables(db, v);
      db := db.(users := db.users[v.id := v]);
      PostSave(v, false, "");
    }

    /** `CustomUser.deactivate_user`: the user stays stored, inactive, with every other
        field as it was; the save is not a creation, so the handlers add nothing. */
    method DeactivateUser(pk: Pk)
      requires Valid() && pk in db.users
      modifies this
      ensures Valid()
      ensures db == old(db).(users := old(db.users)[pk := old(db.users)[pk].(isActive := false)])
    {
      SaveUser(db.users[pk].(isActive := false));
    }

    /** `confirm_email_by_token(request, token)`. With no user object for the request the
        attribute access on None raises AttributeError. A token that differs from the
        stored one returns None and changes nothing; a matching one confirms the email,
        clears the token, saves and returns the user. */
    method ConfirmEmailByToken(requester: Requester, token: Option<string>) returns (r: Outcome<Option<User>>)
      requires Valid()
      modifies this
      ensures Valid()
      ensures r == ConfirmEmail(old(db.users), requester, token)
      ensures db == if r.Return? && r.value.Some? then old(db).(users := old(db.users)[r.value.value.id := r.value.value])
                    else old(db)
    {
      r := ConfirmEmail(db.users, requester, token);
      if r.Return? && r.value.Some? {
        ConfirmedUserIsStored(db, requester, token);
        SaveUser(r.value.value);
      }
    }

    /** `Token.objects.get_or_create(user=user)`: the user's token key, creating one with
        key `freshKey` when the user has none. */
    method GetOrCreateToken(user: Pk, freshKey: string) returns (key: string)
      modifies this
      ensures key == if user in old(db.tokens) then old(db.tokens)[user] else freshKey
      ensures db == old(db).(tokens := old(db.tokens)[user := key])
      ensures old(Valid()) && user in old(db.users) ==> db == old(db) && Valid()
    {
      if user in db.tokens {
        key := db.tokens[user];
      } else {
        key := freshKey;
        db := db.(tokens := db.tokens[user := key]);
      }
    }

    // -------------------------------------------------------------------------
    // The book table

    /** `serializer.save()` through `BookCreateSerializer.create`: stores the validated
        book, whose owner is already the requester's profile, under the next key with no
        ratings. */
    method InsertBook(data: BookData) returns (b: Book)
      requires Valid() && data.owner in db.profiles && ValidBookData(data)
      modifies this
      ensures Valid()
      ensures b == Book(old(db.nextBookPk), data, [])
      ensures db == BookInserted(old(db), data)
    {
      b := Book(db.nextBookPk, data, []);
      InsertedBookKeepsTables(db, data);
      db := BookInserted(db, data);
    }
  }
}
