# Book tracker: records, store and request handlers

This project models the small core of a Flask book-tracking site in Dafny.
Users own books. Books are kept in a table keyed by ISBN. A logged-in user adds
a book by ISBN, and the site fills in its fields from an Open Library lookup.
Anyone can list the books and search the catalogue. Only a book's owner can
delete it.

- `wrappers.dfy`, module `Wrappers`: `Option` and `Result`.
- `models.dfy`, module `Models`: models `models.py`.
  - `User` and `Book` are classes whose `const` fields only the constructors
    assign, as the `__init__`s do.
  - The token generator `set_token` is written out: hexadecimal of the random
    bytes, with its inverse.
  - The `BookSchema` projection.
  - `Database` stands in for the SQLAlchemy session: one map per table, keyed
    by the primary key. The primary-key, unique and foreign-key constraints
    are its invariant `Valid()`, and they are also the rejections its inserts
    return, as on a backend that enforces all three.
- `site.dfy`, module `Site`: models `app/site/routes.py`.
  - The handlers `books`, `add`, `delete` and `search`, as methods.
  - The pure dictionary lookups with defaults, as functions.
  - A specification function `DeleteOutcome` for delete, with lemmas about it.
  - Two client methods. `OwnershipScenario` registers two users, adds a book
    for the first, denies the second user's delete and allows the first's.
    `DistinctTokensScenario` builds two users from different random bytes,
    shows their tokens differ, and runs `OwnershipScenario` on them.

Inputs that come from outside are parameters:
- the caller's id (`current_user.id`);
- the ISBN from the form;
- the parsed Open Library responses;
- the uuid string used as a user's id;
- the random bytes behind a token;
- the password hash function.

`User.__init__` and the `email` column accept `''`: `nullable=False` only
rules out NULL, and the `email` argument defaults to `''`. The sign-up form's
`DataRequired` validator (forms.py:9), which is not modelled, is what would
refuse an empty email.

In two places the evident design intent and the code differ; the model follows the code:
- In a search result, a document whose `isbn` or `author_name` list is present
  but empty makes `doc.get(key, [''])[0]` raise `IndexError`. It does not give
  `""`. `Search` returns `Failure(IndexError(i))` for the first such document.
- A duplicate ISBN is not handled by the application. The table's primary key
  refuses the commit. The model returns `Failure(DuplicateKey)` and leaves the
  store unchanged.

## Model

| member | source | states |
|---|---|---|
| Models.TokenHex | models.py:41-42 | a token has two characters per random byte, every one a hexadecimal digit |
| Models.TokenHexRoundTrip | models.py:41-42 | decoding a token gives back exactly the random bytes it was made from |
| Models.TokenHexInjective | models.py:27 | two tokens are equal only if they came from the same random bytes, so fresh randomness gives a unique token |
| Models.SetToken | models.py:41-42 | `set_token(length)` gives 2 * length hex digits that decode to the drawn bytes |
| Models.User.constructor | models.py:31-39 | first, last, username, email and g_auth_verify are copied (g_auth_verify false by default); id is the generated id; the token comes from `set_token(24)` and the `token` argument is ignored; password is the hash of the supplied password |
| Models.Book.constructor | models.py:67-73 | each of the six arguments is stored unchanged in its field |
| Models.Dump | models.py:75-77 | serialising a book yields exactly isbn, title, author, description, cover_image_url and user_id with the book's values, and no date_created |
| Models.DumpDeterminedBySchemaFields | models.py:77 | two books serialise alike exactly when their six schema fields agree |
| Models.DumpMany | models.py:80 | the many-schema gives one serialised row per book, in order |
| Models.IsbnIdentifiesOneBook | models.py:55 | in a store keyed by ISBN, one ISBN names at most one book |
| Models.Database.constructor | models.py:19-29 | an empty store satisfies the key, uniqueness and foreign-key invariant |
| Models.Database.AddUser | models.py:20-27 | a user whose id or token is already taken is refused and nothing changes; otherwise exactly that user is added; ids and tokens stay pairwise distinct |
| Models.Database.InsertBook | models.py:54-60 | inserting a taken ISBN is refused by the primary key, and an unknown owner by the foreign key; both leave the store unchanged; otherwise exactly that book is added under its ISBN |
| Models.Database.DeleteBook | app/site/routes.py:83-84 | deleting a stored book removes its ISBN and nothing else; the invariant is kept |
| Models.Database.All | app/site/routes.py:21 | the query returns every stored book, each once (no ISBN repeats) and nothing else |
| Site.LookupFields | app/site/routes.py:42-45 | title, description and cover are the response's values under those keys; author is the value under by_statement; each absent key gives "" |
| Site.AuthorOnlyFromByStatement | app/site/routes.py:43 | changing any key other than by_statement never changes the author; with no by_statement the author is "" even if an author key is present |
| Site.LookupOfEmptyResponse | app/site/routes.py:42-45 | a response missing all four keys gives four empty strings, not a fault |
| Site.Books | app/site/routes.py:18-25 | the books page lists the serialised form of every stored book and nothing else, with one row per book |
| Site.Add | app/site/routes.py:28-61 | a taken ISBN is refused with the store unchanged; otherwise the store gains exactly one new book under that ISBN, owned by the caller, with exactly the looked-up fields; every earlier book stays; the returned list is every stored book |
| Site.FirstByIsbnAndUser | app/site/routes.py:70 | the query finds the book stored under the ISBN when the requester owns it, and otherwise no stored book matches both filters |
| Site.OwnershipRecheckNeverFires | app/site/routes.py:78-80 | whatever the query returns is owned by the requester, so the second ownership check can never refuse |
| Site.Delete | app/site/routes.py:63-88 | the new store and the flashed message are exactly those given by `DeleteOutcome`: delete when owned, otherwise the one denial with the store unchanged |
| Site.DeleteRemovesOnlyTheOwnedBook | app/site/routes.py:83-87 | deleting an owned book reports success, removes that ISBN and leaves every other entry untouched |
| Site.DeleteRefusedIffNotOwned | app/site/routes.py:70-80 | a delete is denied exactly when the store does not hold the ISBN under the requester's id, and the store changes exactly when the delete succeeds |
| Site.DenialsIndistinguishable | app/site/routes.py:73-80 | an absent ISBN and an ISBN owned by someone else give the same message, and neither changes the store |
| Site.DeleteTwiceIsDeleteOnce | app/site/routes.py:70-75 | repeating a delete is denied and changes nothing more |
| Site.HeadOrEmpty | app/site/routes.py:101 | `doc.get(key, [''])[0]` gives the head of a present list, "" for a missing key, and faults exactly on a present empty list |
| Site.MapDoc | app/site/routes.py:100-104 | a document's entry takes the head of isbn and author_name ("" when missing) and its title ("" when missing); it fails exactly when one of the two lists is present and empty |
| Site.Search | app/site/routes.py:92-106 | with no docs the handler faults on the key; otherwise the result has one entry per document in the same order, or it is the fault of the first document with an empty list |

## Left out

- HTTP, templates, `flash`, `redirect`, `login_required` and `current_user` are not modelled. The caller's id is a parameter. `Add` requires that id to name a stored user, because a logged-in user was loaded from the User table.
- `requests.get` and `response.json()` are network I/O and are not modelled. A failed request or a body that is not JSON is therefore not modelled either.
- An ISBN lookup response is a map from keys to strings. JSON `null` or non-string values, such as an object-valued `description`, are not represented. So neither is the NOT NULL failure a null title would cause.
- A search document's `Option` fields merge a missing key with a key present as JSON `null`. On `"isbn": null` or `"author_name": null`, `doc.get(key, [''])` returns `None` and indexing it raises `TypeError`; the model instead gives `""`. A `docs` key present as `null` would make the loop raise `TypeError`; the model has no such case.
- Models.Database.InsertBook: column widths are not modelled. `String(150)` on `isbn`, `title` and `author`, `String(500)` on `description` and `String(225)` on `cover_image_url` are not checked. A backend that enforces `VARCHAR(n)` (PostgreSQL, MySQL in strict mode) would refuse a longer value at commit, where the model commits. The same holds for the `String(150)` user columns in `Models.Database.AddUser`.
- Site.Add: it promises success whenever the ISBN is free. On a backend that enforces column widths, a looked-up title, author or description longer than its column would fail the commit instead.
- The backend is assumed to enforce the primary key, the unique token and the foreign key. SQLite, Flask-SQLAlchemy's usual default, enforces the first two but not the foreign key unless a PRAGMA turns it on. On such a backend `InsertBook` would not refuse an unknown owner. `Add` never meets that case, because it requires the caller to be a stored user.
- The form's `isbn` is a string. The case where the form has no `isbn` field and `request.form.get` returns `None` is not modelled.
- `uuid.uuid4` is not modelled: the id string is a parameter. `secrets.token_hex` draws random bytes, and those bytes are a parameter. `generate_password_hash` is a function parameter.
- `set_id` is represented by the constructor's id parameter. It only returns a fresh uuid string.
- Models.User.constructor: `set_password` is not a separate method. Its effect, storing the hash in `pw_hash` and returning it, is part of the constructor.
- Uniqueness of ids and tokens is enforced the way the database enforces it: `AddUser` refuses a collision. Nothing assumes that the generators never collide.
- The NOT NULL constraints on `email`, `title`, `author` and `user_id` hold by typing, because Dafny strings cannot be null. `first`, `last`, `username`, `password`, `description` and `cover_image_url`, which may be NULL in the table, are never NULL in the model either.
- `date_created` timestamps are wall-clock values and are not modelled.
- `User.__repr__` and `Book.__repr__` are display text and are not modelled.
- `load_user` and the `User.books` relationship are ORM plumbing and are not modelled.
- Sessions, transactions and concurrent requests are not modelled. Each handler's commit is one atomic step on the maps.
- `Models.Database.All`: the order of `Book.query.all()` is left unspecified. The model fixes no row order.
- forms.py is not modelled. It only configures WTForms validators for the sign-up form (`UserLoginForm`) and the sign-in form (`UserSignInForm`).
