/**
 * The request handlers of app/site/routes.py, without HTTP: the caller's id,
 * the form's ISBN and the already-parsed Open Library responses are
 * parameters, and a handler's result is the data it would render or the
 * message it would flash.
 */
module Site {
  import opened Wrappers
  import opened Models

  /// ---------------------------------------------------------------------
  /// ISBN lookup: the fields `add` takes from `isbn/{isbn}.json`.
  /// ---------------------------------------------------------------------

  datatype BookFields = BookFields(title: string, author: string, description: string, coverImageUrl: string)

  /** `data.get(key, '')`. */
  function GetOrEmpty(data: map<string, string>, key: string): (v: string) {
    if key in data then data[key] else ""
  }

  /**
   * The four fields of an ISBN lookup response. A missing key gives the
   * empty string; the author is the response's `by_statement`.
   */
  function LookupFields(bookData: map<string, string>): (f: BookFields)
    ensures "title" in bookData ==> f.title == bookData["title"]
    ensures "title" !in bookData ==> f.title == ""
    ensures "by_statement" in bookData ==> f.author == bookData["by_statement"]
    ensures "by_statement" !in bookData ==> f.author == ""
    ensures "description" in bookData ==> f.description == bookData["description"]
    ensures "description" !in bookData ==> f.description == ""
    ensures "cover" in bookData ==> f.coverImageUrl == bookData["cover"]
    ensures "cover" !in bookData ==> f.coverImageUrl == ""
  {
    BookFields(GetOrEmpty(bookData, "title"), GetOrEmpty(bookData, "by_statement"),
               GetOrEmpty(bookData, "description"), GetOrEmpty(bookData, "cover"))
  }

  /** No key other than `by_statement` has any say in the author; an `author` key is ignored. */
  lemma AuthorOnlyFromByStatement(bookData: map<string, string>, key: string, v: string)
    requires key != "by_statement"
    ensures LookupFields(bookData[key := v]).author == LookupFields(bookData).author
    ensures "by_statement" !in bookData ==> LookupFields(bookData[key := v]).author == ""
  {
  }

  /** A response with none of the four keys gives four empty strings. */
  lemma LookupOfEmptyResponse(bookData: map<string, string>)
    requires "title" !in bookData && "by_statement" !in bookData
    requires "description" !in bookData && "cover" !in bookData
    ensures LookupFields(bookData) == BookFields("", "", "", "")
  {
  }

  function FieldsOf(b: Book): (f: BookFields) {
    BookFields(b.title, b.author, b.description, b.coverImageUrl)
  }

  /// ---------------------------------------------------------------------
  /// The handlers over the store.
  /// ---------------------------------------------------------------------

  /** `GET /books`: every stored book, serialised. */
  method Books(db: Database) returns (rows: seq<map<string, string>>)
    requires db.Valid()
    ensures |rows| == |db.books|
    ensures forall k :: k in db.books ==> Dump(db.books[k]) in rows
    ensures forall i :: 0 <= i < |rows| ==> exists k :: k in db.books && rows[i] == Dump(db.books[k])
  {
    var all := db.All();
    rows := DumpMany(all);
    forall k | k in db.books
      ensures Dump(db.books[k]) in rows
    {
      var b := db.books[k];
      assert b in db.books.Values;
      var i :| 0 <= i < |all| && all[i] == b;
      assert rows[i] == Dump(b);
    }
    forall i | 0 <= i < |rows|
      ensures exists k :: k in db.books && rows[i] == Dump(db.books[k])
    {
      assert all[i] in all;
      var k :| k in db.books && db.books[k] == all[i];
      assert rows[i] == Dump(db.books[k]);
    }
  }

  /**
   * `POST /add`: look the ISBN's fields up in the response, store a new book
   * owned by the caller, and return all books. The caller is logged in, so
   * their id names a stored user. A taken ISBN is refused by the primary key
   * and the store stays as it was.
   */
  method Add(db: Database, isbn: string, bookData: map<string, string>, currentUserId: string)
      returns (result: Result<seq<Book>, DbError>)
    requires db.Valid()
    requires currentUserId in db.users
    modifies db
    ensures db.Valid() && db.users == old(db.users)
    ensures result.Failure? <==> isbn in old(db.books)
    ensures result.Failure? ==> result.error == DuplicateKey && db.books == old(db.books)
    ensures result.Success? ==>
      && db.books.Keys == old(db.books).Keys + {isbn}
      && (forall k :: k in old(db.books) ==> db.books[k] == old(db.books)[k])
      && fresh(db.books[isbn])
      && db.books[isbn].isbn == isbn
      && db.books[isbn].userId == currentUserId
      && FieldsOf(db.books[isbn]) == LookupFields(bookData)
      && |result.value| == |db.books|
      && (forall b :: b in result.value <==> b in db.books.Values)
  {
    var fields := LookupFields(bookData);
    var newBook := new Book(fields.title, fields.author, fields.description,
                            fields.coverImageUrl, isbn, currentUserId);
    var commit := db.InsertBook(newBook);
    if commit.Rejected? {
      return Failure(commit.error);
    }
    var books := db.All();
    result := Success(books);
  }

  const DeniedMessage: string := "You do not have permission to delete this book."
  const DeletedMessage: string := "Book deleted successfully"

  /** `Book.query.filter_by(isbn=isbn, user_id=userId).first()`. */
  function FirstByIsbnAndUser(books: map<string, Book>, isbn: string, userId: string): (found: Option<Book>)
    requires BooksKeyedByIsbn(books)
    ensures found.Some? ==> isbn in books && books[isbn] == found.value
    ensures found.Some? ==> found.value.isbn == isbn && found.value.userId == userId
    ensures found.None? ==> forall b :: b in books.Values ==> !(b.isbn == isbn && b.userId == userId)
  {
    if isbn in books && books[isbn].userId == userId then Some(books[isbn]) else None
  }

  /** The re-check of the owner after the query can never refuse: the query already filtered on it. */
  lemma OwnershipRecheckNeverFires(books: map<string, Book>, isbn: string, userId: string)
    requires BooksKeyedByIsbn(books)
    ensures FirstByIsbnAndUser(books, isbn, userId).Some? ==>
              FirstByIsbnAndUser(books, isbn, userId).value.userId == userId
  {
  }

  /** The store holds `isbn` and the requester owns it. */
  predicate OwnedBy(books: map<string, Book>, isbn: string, requester: string) {
    isbn in books && books[isbn].userId == requester
  }

  /**
   * What deleting `isbn` for `requester` does: the books afterwards and the
   * message flashed. Requested, found, authorised, deleted; a failure at
   * either check is the one denial.
   */
  function DeleteOutcome(books: map<string, Book>, isbn: string, requester: string): (outcome: (map<string, Book>, string)) {
    if OwnedBy(books, isbn, requester) then (books - {isbn}, DeletedMessage)
    else (books, DeniedMessage)
  }

  /**
   * `/books/<isbn>`: delete the book when the caller owns it; otherwise flash
   * the same denial whether the ISBN is absent or owned by someone else.
   */
  method Delete(db: Database, isbn: string, currentUserId: string) returns (message: string)
    requires db.Valid()
    modifies db
    ensures db.Valid() && db.users == old(db.users)
    ensures (db.books, message) == DeleteOutcome(old(db.books), isbn, currentUserId)
  {
    var book := FirstByIsbnAndUser(db.books, isbn, currentUserId);
    if book.None? {
      return DeniedMessage;
    }
    if book.value.userId != currentUserId {
      return DeniedMessage;
    }
    db.DeleteBook(book.value);
    message := DeletedMessage;
  }

  /** A successful delete removes that ISBN and nothing else. */
  lemma DeleteRemovesOnlyTheOwnedBook(books: map<string, Book>, isbn: string, requester: string)
    requires OwnedBy(books, isbn, requester)
    ensures DeleteOutcome(books, isbn, requester).1 == DeletedMessage
    ensures isbn !in DeleteOutcome(books, isbn, requester).0
    ensures DeleteOutcome(books, isbn, requester).0.Keys == books.Keys - {isbn}
    ensures forall k :: k in books && k != isbn ==> DeleteOutcome(books, isbn, requester).0[k] == books[k]
  {
  }

  /** A delete is refused, and changes nothing, exactly when the requester does not own the ISBN. */
  lemma DeleteRefusedIffNotOwned(books: map<string, Book>, isbn: string, requester: string)
    ensures DeleteOutcome(books, isbn, requester).1 == DeniedMessage <==> !OwnedBy(books, isbn, requester)
    ensures DeleteOutcome(books, isbn, requester).0 == books <==> !OwnedBy(books, isbn, requester)
  {
  }

  /** An absent ISBN and a book of someone else's get the same answer, and neither changes the store. */
  lemma DenialsIndistinguishable(absent: map<string, Book>, foreign: map<string, Book>, isbn: string, requester: string)
    requires isbn !in absent
    requires isbn in foreign && foreign[isbn].userId != requester
    ensures DeleteOutcome(absent, isbn, requester) == (absent, DeniedMessage)
    ensures DeleteOutcome(foreign, isbn, requester) == (foreign, DeniedMessage)
  {
  }

  /** Deleting the same ISBN a second time is refused and changes nothing more. */
  lemma DeleteTwiceIsDeleteOnce(books: map<string, Book>, isbn: string, requester: string)
    ensures var once := DeleteOutcome(books, isbn, requester).0;
            DeleteOutcome(once, isbn, requester) == (once, DeniedMessage)
  {
  }

  /// ---------------------------------------------------------------------
  /// Search: the entries `search` builds from `search.json?q=...`.
  /// ---------------------------------------------------------------------

  /** One document of a search response; each key may be missing. */
  datatype Doc = Doc(isbn: Option<seq<string>>, title: Option<string>, authorName: Option<seq<string>>)

  /** A search response; `docs` may be missing. */
  datatype SearchResponse = SearchResponse(docs: Option<seq<Doc>>)

  datatype SearchEntry = SearchEntry(isbn: string, title: string, author: string)

  /** How `search` fails: `data['docs']` with no `docs`, or indexing an empty list in document `doc`. */
  datatype SearchFault = KeyErrorDocs | IndexError(doc: nat)

  /** `doc.get(key, [''])[0]`: `None` where the list is present but empty. */
  function HeadOrEmpty(field: Option<seq<string>>): (r: Option<string>)
    ensures field.None? ==> r == Some("")
    ensures field.Some? && field.value != [] ==> r == Some(field.value[0])
    ensures r.None? <==> field == Some([])
  {
    var xs := if field.Some? then field.value else [""];
    if |xs| == 0 then None else Some(xs[0])
  }

  /** The entry built for one document, or `None` where its `isbn` or `author_name` list is empty. */
  function MapDoc(d: Doc): (r: Option<SearchEntry>)
    ensures r.None? <==> d.isbn == Some([]) || d.authorName == Some([])
    ensures r.Some? ==> r.value.title == (if d.title.Some? then d.title.value else "")
    ensures r.Some? && d.isbn.None? ==> r.value.isbn == ""
    ensures r.Some? && d.isbn.Some? ==> r.value.isbn == d.isbn.value[0]
    ensures r.Some? && d.authorName.None? ==> r.value.author == ""
    ensures r.Some? && d.authorName.Some? ==> r.value.author == d.authorName.value[0]
  {
    var isbn := HeadOrEmpty(d.isbn);
    var title := if d.title.Some? then d.title.value else "";
    var author := HeadOrEmpty(d.authorName);
    if isbn.None? || author.None? then None
    else Some(SearchEntry(isbn.value, title, author.value))
  }

  /**
   * `GET /search`: one entry per document, in the response's order; the
   * first document with an empty `isbn` or `author_name` list faults.
   */
  method Search(data: SearchResponse) returns (result: Result<seq<SearchEntry>, SearchFault>)
    ensures data.docs.None? ==> result == Failure(KeyErrorDocs)
    ensures data.docs.Some? ==>
      (result.Success? <==> forall i :: 0 <= i < |data.docs.value| ==> MapDoc(data.docs.value[i]).Some?)
    ensures result.Success? ==>
      && data.docs.Some?
      && |result.value| == |data.docs.value|
      && forall i :: 0 <= i < |result.value| ==> MapDoc(data.docs.value[i]) == Some(result.value[i])
    ensures data.docs.Some? && result.Failure? ==>
      && result.error.IndexError?
      && result.error.doc < |data.docs.value|
      && MapDoc(data.docs.value[result.error.doc]).None?
      && forall j :: 0 <= j < result.error.doc ==> MapDoc(data.docs.value[j]).Some?
  {
    if data.docs.None? {
      return Failure(KeyErrorDocs);
    }
    var docs := data.docs.value;
    var books: seq<SearchEntry> := [];
    for i := 0 to |docs|
      invariant |books| == i
      invariant forall j :: 0 <= j < i ==> MapDoc(docs[j]) == Some(books[j])
    {
      var book := MapDoc(docs[i]);
      if book.None? {
        return Failure(IndexError(i));
      }
      books := books + [book.value];
    }
    result := Success(books);
  }

  /// ---------------------------------------------------------------------
  /// A client: register two users, add a book for the first, let the second
  /// try to delete it, then the first.
  /// ---------------------------------------------------------------------

  method OwnershipScenario(u1: User, u2: User)
    requires u1.id == "u1" && u2.id == "u2" && u1.token != u2.token
  {
    var db := new Database();
    var c1 := db.AddUser(u1);
    assert c1 == Committed;
    var added := Add(db, "123", map["title" := "Dune", "by_statement" := "Frank Herbert"], "u1");
    assert added.Success? && db.books["123"].author == "Frank Herbert";
    var c2 := db.AddUser(u2);
    assert c2 == Committed;

    var denied := Delete(db, "123", "u2");
    assert denied == DeniedMessage && "123" in db.books;
    var deleted := Delete(db, "123", "u1");
    assert deleted == DeletedMessage && "123" !in db.books;
  }

  /** Two users built from different random bytes get different tokens. */
  method DistinctTokensScenario() {
    var hash := (pw: string) => "pbkdf2:" + pw;
    var u1 := new User("u1", seq(TokenLength, _ => 1 as byte), hash, email := "one@example.org");
    var u2 := new User("u2", seq(TokenLength, _ => 2 as byte), hash, email := "two@example.org");
    assert FromHex(u1.token) != FromHex(u2.token);
    OwnershipScenario(u1, u2);
  }
}
