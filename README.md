# Book management backend: a verified model

This project models the server of a small book-management web application built with
Django and Django REST framework. Users register, log in and confirm their e-mail. Each
user has one profile, and profiles own books. A book has a reading status (Read, Reading,
Unread, Want to Buy) and a list of ratings. The endpoints create a book, show one book,
list a user's books grouped by status, and show a home page with the requester's user,
profile and books.

The model has two layers:

- The read-only parts are datatypes and functions. These are the lookups, the
  serializers' projections and validation, the `IsOwner` permission, the average rating
  and the home page.
- The parts that change the database are methods on one class, `Store.Store`. Its single
  field `db` holds the user, profile, book and token tables, the auto-increment counters
  and the queue of e-mail tasks. The methods are the user manager, the post-save signal
  handlers, the row updates, the token lookup and the book insert. `Valid()` states the
  table constraints: unique usernames and e-mails, one profile and one token per user,
  existing foreign keys and valid field values. Every method that requires it preserves
  it, and `GetOrCreateToken`, which does not require it, keeps it whenever the user is
  stored.

The views that write (registration, login, book creation) are methods on the store. The
others are functions. Each view returns a `Response` (status and JSON-like body) or a
`ServerError` carrying the exception that escapes the view.

Stand-ins for library calls:

- `checkPassword` stands for `check_password`.
- `isEmail` stands for Django's `EmailValidator`.
- Token keys are supplied as parameters, under the precondition that no token already has
  that key.
- Sessions (`login`, `logout`) are not modelled: they change no table the model reads.

Where the code and its own documentation disagree, the model follows the code:

- `details_book` answers 201, not 200, on success.
- `get_user_profile_by_id` returns a user, not a profile.
- The "Please provide username, password, and email." branch of the registration views
  cannot be reached.
- Two real defects are described under Findings.

The server package repeats the registration view (server/server/views.py:45-75) with the same
body as users/views.py:11-40, so `UserViews.UserRegistration` models both.

Resolved inconsistencies in the source:

- `books/models.py` imports a status enumeration that `custom_choices.py` does not
  define. The four statuses are taken from `server/server/books/choices.py`.
- The serializers read `value.ratings`, which the Book model does not declare. Each book
  carries a sequence of integer ratings.
- `users/operations.py` reads `is_deleted`, `confirmation_token` and `is_email_confirmed`,
  which the user model lacks. They are fields of `User`.
- The views import a `BookSerializer` that does not exist. Where the requester's own books
  are shown (home page, category listing) it is the owner projection. In `details_book`
  the `IsOwner` permission chooses between the owner and non-owner projections.

## Model

| member | source | states |
|---|---|---|
| BookModels.ParseStatus | server/server/books/choices.py:18-21 | a stored status value is accepted iff it is one of the four literals, and it parses to the status whose literal it is |
| BookModels.StatusLiteralInjective | server/server/books/choices.py:18-21 | distinct statuses have distinct stored values |
| BookModels.CascadeProfileDelete | server/server/books/models.py:48-52 | after a profile is deleted, none of its books remains, every other book remains unchanged, and every remaining owner still exists |
| BookOperations.GetBook | server/server/books/operations.py:6-11 | the book stored under `pk`, and None exactly when there is none |
| BookOperations.ProfileKeyOf | server/server/books/operations.py:17 | `user.userprofile`: a profile linked to the user, and None exactly when the user has none |
| BookOperations.ProfileKeyOfUnique | server/server/books/operations.py:17 | with one profile per user, the lookup returns that user's profile |
| BookOperations.GetAllBooksByUser | server/server/books/operations.py:15-21 | None exactly when the user has no profile; otherwise exactly the books whose owning profile belongs to the user, unchanged |
| BookPermissions.HasObjectPermission | server/server/books/permissions.py:23-36 | the anonymous user is denied; an authenticated user is permitted iff the user of the book's owning profile is that user |
| BookPermissions.OnlyOwnerPermitted | server/server/books/permissions.py:36 | with one profile per user, a user is permitted on a book iff the book's owner is that user's profile |
| BookPermissions.DependsOnlyOnOwner | server/server/books/permissions.py:23-36 | two books with the same owner get the same decision, whatever their other fields |
| BookSerializers.AverageRating | server/server/books/serializers.py:12-17 | 'Not available' exactly when there are no ratings; otherwise the mean times the count equals the sum |
| BookSerializers.AverageWithinRange | server/server/books/serializers.py:15 | the mean of a non-empty list lies between its lowest and its highest rating |
| BookSerializers.AverageOfValidRatings | server/server/books/serializers.py:15 | ratings in 1..5 have a mean in [1, 5] |
| BookSerializers.AverageIgnoresOrder | server/server/books/serializers.py:15 | lists of ratings with the same elements have the same average |
| BookSerializers.SumPermutation | server/server/books/serializers.py:15 | the sum of the ratings does not depend on their order |
| BookSerializers.OwnerView | server/server/books/serializers.py:38-42 | the owner view has every book field except owner and ratings, plus the average rating, and shows the status |
| BookSerializers.NonOwnerView | server/server/books/serializers.py:63-67 | the non-owner view is exactly the owner view without the status |
| BookSerializers.CreatedView | server/server/books/serializers.py:89-91 | the create response has every forward field of the book, the owner included, and no ratings |
| BookSerializers.ValidateBook | server/server/books/models.py:8-52 | accepted iff the request is acceptable for the model's fields (text name and author within their lengths, no picture, description text if given, rating an integer in 1..5 if given, a status literal, price a positive-integer-column value if given, an existing profile as owner); then every field is the request's value as its serializer field reads it (integers and numeric strings as integers, integers as their decimal text); a rejection reports at least one error, each under a book field |
| BookSerializers.FieldErrorsEmpty | server/server/books/views.py:27 | `is_valid()` holds, i.e. there are no field errors, iff every field check passes |
| BookSerializers.ValidateCreatedView | server/server/books/serializers.py:89-91 | the create response of a valid stored book without a picture validates again to the same data (round trip) |
| BookSerializers.SuppliedOwnerIsOverridden | server/server/books/views.py:24 | once `owner` is overwritten with a profile key, validation no longer depends on the owner the client sent, and accepted data names that profile |
| BookViews.CheckCreateRequest | server/server/books/views.py:24-27 | AttributeError exactly when the requester has no profile; otherwise the validation of the request with `owner` replaced by the requester's profile key, and accepted data is owned by that profile |
| BookViews.CreateBook | server/server/books/views.py:17-31 | an anonymous request is answered 403 'Authentication credentials were not provided.' and changes nothing; for an authenticated one, escape of AttributeError and 400 with the errors leave the tables unchanged; valid data is stored under the next key with no ratings and answered 201 with the stored book |
| BookViews.BookFor | server/server/books/views.py:43 | the status is shown iff `IsOwner` admits the requester, and every other field is the non-owner view |
| BookViews.DetailsBook | server/server/books/views.py:36-45 | an anonymous request is answered 403 'Authentication credentials were not provided.'; for an authenticated one, 404 with no body exactly when no book has the key, otherwise 201 with the book as the requester may see it |
| BookViews.DetailsShowStatusOnlyToOwner | server/server/books/serializers.py:63-67 | in the details of a book shown to an authenticated user the status appears iff that user is the owner's user, and the average rating always appears |
| BookViews.WithStatus | server/server/books/views.py:61 | the corrected per-status queryset: exactly the user's books with that status |
| BookViews.GroupByStatus | server/server/books/views.py:58-61 | the groups are keyed by exactly the statuses occurring among the user's books |
| BookViews.GroupsAreNonEmpty | server/server/books/views.py:58 | no status key maps to an empty group |
| BookViews.GroupMembersHaveStatus | server/server/books/views.py:61 | every book of a group is one of the user's books and has the group's status |
| BookViews.EachBookInOneGroup | server/server/books/views.py:58-62 | each of the user's books is in the group of its own status and in no other |
| BookViews.StatusLists | server/server/books/views.py:60-62 | each group as a list in key order, with as many entries as the group |
| BookViews.OwnerViews | server/server/books/views.py:66 | `BookSerializer(books, many=True)`: the owner view of each book, in order |
| BookViews.GroupsBody | server/server/books/views.py:62-68 | the response's `books` object has one key per status literal, holding that status's serialized list |
| BookViews.BodyDeterminedByGroups | server/server/books/views.py:65-68 | any body with one entry per status literal holding its serialized list is that object |
| BookViews.SerializeGroups | server/server/books/views.py:65-68 | the loop fills exactly one key per status literal, with that status's serialized list |
| BookViews.AllBooksByCategory | server/server/books/views.py:48-71 | an anonymous request is answered 403 'Authentication credentials were not provided.'; an authenticated user asking for another key gets 403 'Unauthorized'; AttributeError when it has no profile; otherwise 200 with the grouped listing, built by the grouping as corrected in Finding 2 |
| BookViews.ListingHasNoEmptyGroup | server/server/books/views.py:58-68 | every key of a listing is the status of some book of the user, and its list is not empty |
| BookViews.StatusGroupAsWritten | server/server/books/views.py:61 | the queryset as written: books whose owner key equals the user's key, with that status |
| BookViews.StatusFilterUsesWrongKey | server/server/books/views.py:61 | a store in which the as-written "Read" list holds another user's book and misses the user's own, while the corrected grouping lists the user's own |
| CustomFunctions.GetUserObjectOr404 | server/custom/custom_functions.py:4-7 | the stored user whose username is the request user's text, and Http404 exactly when there is none, soft-deleted users included |
| CustomFunctions.GetUserProfileOr404 | server/custom/custom_functions.py:10-13 | Http404 when the user is missing; otherwise the profile linked to that user, and Http404 exactly when it has none |
| CustomFunctions.SoftDeletedUserFoundOnlyHere | server/custom/custom_functions.py:7 | a soft-deleted user is found by this lookup but not by the users app's `get_user_object` |
| Fields.TextOf | server/server/books/models.py:12-18 | the text a character field reads: a string as it is, an integer as its decimal text, nothing else |
| Fields.ParseDecimalText | server/server/books/models.py:43-46 | the integer field reads back the decimal text of any integer as that integer |
| Fields.IntegerOf | server/server/books/models.py:30-46 | an integer as it is; a string of at most 1000 characters as the integer it spells (a zero fraction dropped), a longer one 'max_string_length'; a whole float below 1e16 in magnitude as its value; anything else 'invalid' |
| Fields.NumericTextAccepted | server/server/books/models.py:43-46 | an integer sent as its decimal text is accepted as that integer |
| Fields.RequiredTextField | server/server/books/models.py:12-18 | accepted iff the key is present with text that is non-empty and within the length limit; the accepted value is that text; a missing key is 'required' |
| ServerViews.OwnedBooksData | server/server/views.py:34 | the books payload is keyed by each book's key and holds its owner view |
| ServerViews.ProfileData | server/server/views.py:25-33 | a profile entry exactly when the request's user object has a profile, holding that profile's serialization |
| ServerViews.BooksData | server/server/views.py:26-34 | null when the user owns no book; otherwise exactly the user's books, each in its owner view |
| ServerViews.HomeView | server/server/views.py:22-42 | anonymous: three nulls; authenticated: the user, the profile when there is one, and exactly the user's own books or null when it has none |
| ServerViews.HomeShowsOnlyPermittedBooks | server/server/views.py:26-34 | a book is on the home page iff `IsOwner` admits the requester on it |
| ServerViews.ServerUserLogin | server/server/views.py:78-99 | 404 'Not found' exactly when the request has no live user object, always for an anonymous request; otherwise 400, 401 and 200 as in the users app's login, with no table changed |
| ServerViews.UserLogout | server/server/views.py:102-113 | an anonymous request is answered 403 'Authentication credentials were not provided.'; an authenticated request with another verb 405 'Method "X" not allowed.'; 200 'User logged out successfully' iff the request is an authenticated POST; the body's own 'Invalid request method' answer is never given |
| Store.WelcomeEmail | server/server/users/signals.py:26-30 | the welcome task is addressed to the new user's e-mail and to no one else |
| Store.Registered | server/server/users/signals.py:11-30 | registration adds the user, exactly one new profile linked to it, one token with the given key and one welcome e-mail, and leaves the books as they are |
| Store.RegisteredKeepsTables | server/server/users/signals.py:11-20 | registering a user with a fresh username, e-mail and token key keeps every table constraint, one profile and one token per user included |
| Store.UpdatedUserKeepsTables | server/server/users/models.py:62-64 | saving a user row with its key, username and e-mail unchanged keeps every table constraint |
| Store.BookInserted | server/server/books/serializers.py:104-106 | inserting a book adds it under the next key with no ratings and touches no other table |
| Store.InsertedBookKeepsTables | server/server/books/models.py:48-52 | inserting a valid book owned by an existing profile keeps every table constraint |
| Store.ConfirmedUserIsStored | server/server/users/operations.py:112-120 | the user that a successful confirmation returns is the stored row with its key, username and e-mail unchanged |
| Store.Store.CreateUserProfile | server/server/users/signals.py:11-14 | on creation exactly one profile, with every optional field null, is added for the user; otherwise nothing changes |
| Store.Store.CreateAuthToken | server/server/users/signals.py:17-20 | on creation one token is stored for the user; otherwise nothing changes |
| Store.Store.SendRegistrationEmail | server/server/users/signals.py:23-30 | on creation one welcome task is queued; otherwise nothing changes |
| Store.Store.PostSave | server/server/users/signals.py:11-30 | the three handlers together: one profile, one token, one e-mail on creation, and nothing otherwise |
| Store.Store.CreateUser | server/server/users/models.py:10-16 | an empty username raises ValueError; an over-long, taken username or a taken e-mail fails the insert; in each of these cases nothing is stored; otherwise the user is stored active, not deleted and unconfirmed with its flags, and the registration effects of the signals follow |
| Store.Store.CreateSuperuser | server/server/users/models.py:18-27 | a flag passed as anything but True raises ValueError and stores nothing; otherwise a user with both flags set is created as by `create_user` |
| Store.Store.SaveUser | server/server/users/operations.py:120 | saving a stored user replaces its row only and creates no profile, token or e-mail |
| Store.Store.DeactivateUser | server/server/users/models.py:62-64 | the user stays stored, inactive, with every other field and every other table unchanged |
| Store.Store.ConfirmEmailByToken | server/server/users/operations.py:102-123 | returns what the confirmation step returns, and changes the tables only by saving the confirmed user |
| Store.Store.GetOrCreateToken | server/server/users/views.py:54 | the user's existing token key, or a new token with the fresh key when it has none; for a stored user of a valid store nothing changes and the table constraints hold |
| Store.Store.InsertBook | server/server/books/serializers.py:104-106 | the validated book is stored under the next key with no ratings, and the table constraints still hold |
| UserModels.ParseGender | server/server/users/choices.py:17-19 | a gender value is accepted iff it is one of the three literals |
| UserModels.NewProfile | server/server/users/signals.py:14 | the new profile is linked to the user and valid |
| UserModels.SuperuserFlags | server/server/users/models.py:18-25 | missing flags default to True; the staff flag is checked first, and a flag given as False raises ValueError with the source's message |
| UserModels.BindCreateUserArgs | server/server/users/models.py:10 | a keyword call binds iff it passes `username` and only the declared parameters; otherwise TypeError |
| UserModels.RegistrationCallRaisesTypeError | server/server/users/views.py:29 | the registration views' call `create_user(username=, password=, email=)` raises TypeError as written |
| UserOperations.GetUser | server/server/users/operations.py:4-28 | a truthy pk is used before the username and the username before the e-mail; the chosen lookup's row, or None when it misses or nothing is given |
| UserOperations.GetUserPrefersPk | server/server/users/operations.py:15-20 | once a truthy pk is given, the username and e-mail arguments are ignored |
| UserOperations.GetUserProfileById | server/server/users/operations.py:31-44 | the user stored under the key (not a profile), or None |
| UserOperations.CheckIfUserExists | server/server/users/operations.py:47-63 | KeyError when the payload has no username; otherwise the first non-deleted user with exactly that username, or None |
| UserOperations.GetUserObject | server/server/users/operations.py:66-82 | a stored, non-deleted user with the request user's username, and None exactly when there is none |
| UserOperations.AnonymousHasNoUserObject | server/server/users/operations.py:75-79 | stored usernames are never empty, so the anonymous user has no user object |
| UserOperations.LiveUserFindsItself | server/server/users/operations.py:77 | a stored, non-deleted user finds its own row |
| UserOperations.GetUserProfile | server/server/users/operations.py:85-99 | the profile linked to the request's user object; None when there is no user object or it has no profile |
| UserOperations.ConfirmUser | server/server/users/operations.py:113-121 | a matching token confirms the e-mail and clears the token; a mismatch gives None |
| UserOperations.ConfirmEmail | server/server/users/operations.py:102-123 | AttributeError exactly when there is no user object; otherwise the confirmed user when the token matches, or None when it does not |
| UserOperations.ConfirmationTokenSingleUse | server/server/users/operations.py:117-121 | after a successful confirmation the same non-null token no longer matches |
| UserOperations.DeactivatedStillVisible | server/server/users/models.py:61-64 | deactivation is not a soft delete: after it the user object lookup finds a user exactly when it did before, and the same user |
| UserSerializers.UserView | server/server/users/serializers.py:97-99 | exactly id, username and e-mail, never the password |
| UserSerializers.ProfileView | server/server/users/serializers.py:112-114 | every profile field except the user: the key, the names and picture (null when unset) and the gender |
| UserSerializers.RegistrationView | server/server/users/serializers.py:24-27 | the registration output has the username and e-mail and never the write-only password |
| UserSerializers.UsernameField | server/server/users/models.py:35-38 | accepted iff the request's username, read as text (a string, or an integer as its decimal text), is a valid username that is not already stored; the accepted value is that text |
| UserSerializers.EmailField | server/server/users/models.py:40-42 | an accepted e-mail is the request's value read as text, a valid address, and not already stored |
| UserSerializers.ValidateRegistration | server/server/users/serializers.py:24-27 | accepted iff username, e-mail and password, read as text, meet the column constraints and are not taken; then the data is that text; a rejection reports errors only under the three fields |
| UserSerializers.RegistrationGuardUnreachable | server/server/users/views.py:22-26 | after a successful validation all three values are non-empty, so the "Please provide ..." branch is dead |
| UserSerializers.FirstNamed | server/server/users/serializers.py:78 | `filter(username=...).first()`: the user of smallest key with that username, or None when there is none |
| UserSerializers.FirstWithNameUnique | server/server/users/serializers.py:78 | at most one key is the first user with a given name, so `.first()` picks one user |
| UserSerializers.CheckCredentials | server/server/users/serializers.py:78-79 | a user is returned iff the first user with that username exists and its password check passes |
| UserSerializers.ValidateLogin | server/server/users/serializers.py:61-82 | accepted iff both fields are non-blank text (strings, or integers as their decimal text) and the credentials check passes on that text, returning it plus that user; otherwise 'Invalid credentials' as the non-field error, or the field errors |
| UserViews.UserRegistration | server/server/users/views.py:11-40 | with `create_user` as corrected in Finding 1: 400 with the errors and no change for an invalid payload; otherwise 201 with the message and the serialized input, and the user, its profile, token and welcome e-mail stored; 201 iff the payload is acceptable |
| UserViews.Authenticate | server/server/users/views.py:51 | a user is returned only if it is stored, has that username, is active and passes the password check |
| UserViews.AuthenticateAgreesWithCredentials | server/server/users/views.py:47-52 | `authenticate` returns exactly the user the login serializer accepted when it is active, and None otherwise |
| UserViews.UserLogin | server/server/users/views.py:43-60 | 400 with the errors for an invalid payload; 401 for a valid one whose user is inactive; otherwise 200 with the user and its stored token; no table changes, so logging in again returns the same token |
| UserViews.StoredToken | server/server/users/views.py:54 | a stored user's `get_or_create` returns its existing token and changes nothing |

## Left out

- Rounding: `round(average, 2)` is not modelled. The average is the exact mean, as a real.
- E-mail delivery and the Celery task are left out. The model records only that a task is queued.
- Password hashing is not modelled. The password is stored as given, and `check_password` is the parameter `checkPassword`.
- Django's `EmailValidator` is the parameter `isEmail`.
- Token keys are not generated. The caller supplies a key that no token has.
- Sessions are not modelled: `login` and `logout` change no table the model reads.
- Framework decorators:
  - `IsAuthenticated` is modelled in `BookViews.CreateBook`, `BookViews.DetailsBook`, `BookViews.AllBooksByCategory` and `ServerViews.UserLogout`: an anonymous request is answered 403 before the view body runs (session authentication comes first, so the answer is 403, not 401).
  - `api_view`'s 405 for an unlisted method is modelled only in `ServerViews.UserLogout`, which takes the method as a parameter. The book, registration and login views are modelled for their listed method only, and so is the unreachable 405 branch of `create_book` (books/views.py:33).
  - The implicit `None` that the registration and login views return for other methods is not modelled.
  - `Base.HttpMethod` lists GET, POST, PUT, PATCH and DELETE; OPTIONS and HEAD are not modelled.
- Django REST framework details:
  - Whitespace trimming of character fields is not modelled.
  - Fields.RequiredTextField: a float sent for a text field is rejected here, whereas Django REST framework stores `str()` of the float; Python's float printing is not modelled. The same holds for `Fields.TextOf` and the optional description.
  - Fields.IntegerOf: surrounding whitespace, '_' separators and non-ASCII digits in numeric strings, which Python's `int` also accepts, are not modelled; such strings are 'invalid' here.
  - BookSerializers.ValidateBook: file uploads (multipart requests) are not modelled, so a picture can only be absent or null; any other JSON value is 'invalid', as the image field answers for it.
  - BookSerializers.ValidateBook: the price bound is Django's default positive-integer range (up to 2147483647); SQLite on Django 5.0 and later allows up to 2^63-1, and the repository names no database.
  - BookSerializers.ValidateBook: the owner is modelled only as an integer key; `create_book` always writes an integer there (books/views.py:24), so a string key never reaches the serializer.
  - Error texts are represented by their error codes.
  - Each field reports one error rather than a list.
- Profile-name validation applies to serializer input. No modelled endpoint updates a profile, so `ValidProfile` is only proved for new profiles.
- `UserSerializers.ValidateRegistration`: the limits of the e-mail (254) and password (128) columns are Django's defaults, not declared in the repository.
- Store.Store.CreateUser: an over-long username raises DataError only on a database that enforces the column length. The e-mail is taken as a parameter (see Findings).
- `UserRegistrationSerializer.create` (users/serializers.py:40) is not modelled. The views never call it; it would raise the same TypeError as Finding 1.
- `UserOperations.CheckIfUserExists`: a non-string username in the payload is not modelled.
- The home page's JSON encoding turns the integer book keys into strings; this is not modelled.
- Pagination, the rating endpoint, the React client, the admin, URL routing and app configuration are not part of this model. The URL files route to views that the repository does not contain.
- Concurrency, transactions and uniqueness races are not modelled.
- Queries.FirstKeyWhere: `.first()` on an unordered queryset is modelled as the row of smallest key.
- BookViews.StatusLists: the groups are listed in key order, which is the model's choice; the source has no `order_by`, so the database's order is left open.

## Findings

| source | as written | input that shows it | evidently intended | confidence | as-written member | corrected member |
|---|---|---|---|---|---|---|
| server/server/users/models.py:10 | `create_user` declares no `email` parameter, but both registration views (users/views.py:29, server/views.py:64) call it with `email=` | any valid registration payload, e.g. username "ann", e-mail "ann@example.com", password "pw": the call raises TypeError after validation, and nothing is stored | `create_user` accepts the e-mail and stores it with the user | not executed | UserModels.BindCreateUserArgs, UserModels.RegistrationCallRaisesTypeError | Store.Store.CreateUser, UserViews.UserRegistration |
| server/server/books/views.py:61 | the per-status lists filter `owner=user.pk`, comparing the owning profile's key with the user's key, while line 56 selects books by the user's profile | user 1 has profile 2, which owns book 10 with status Read; profile 1 belongs to user 5 and owns book 11, also Read: user 1's "Read" list holds book 11 and not book 10 | each status lists the user's own books with that status | not executed | BookViews.StatusGroupAsWritten, BookViews.StatusFilterUsesWrongKey | BookViews.GroupByStatus, BookViews.AllBooksByCategory |
