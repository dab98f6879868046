/**
 * The records of models.py and the two tables that hold them.
 *
 * `User` and `Book` are classes whose fields only their constructors assign
 * (the `__init__`s), so the fields are `const`. `Database` stands in for the
 * SQLAlchemy session: one map per table, keyed by the table's primary key,
 * with the primary-key, unique and foreign-key constraints as its invariant
 * and as the rejections of its inserts.
 */
module Models {
  import opened Wrappers

  type byte = bv8

  /// ---------------------------------------------------------------------
  /// The token generator: secrets.token_hex(n) turns n random bytes into
  /// 2 * n lower-case hexadecimal digits. The random bytes are an input.
  /// ---------------------------------------------------------------------

  /** Number of random bytes `User.__init__` asks for: `set_token(24)`. */
  const TokenLength: nat := 24

  /** The lower-case hexadecimal digit of a nibble. */
  function HexDigit(n: nat): (c: char)
    requires n < 16
  {
    if n < 10 then ('0' as int + n) as char else ('a' as int + n - 10) as char
  }

  /** Inverse of `HexDigit`: the value of a lower-case hexadecimal digit. */
  function HexValue(c: char): (v: Option<nat>)
    ensures v.Some? ==> v.value < 16 && HexDigit(v.value) == c
  {
    if '0' <= c <= '9' then Some(c as int - '0' as int)
    else if 'a' <= c <= 'f' then Some(c as int - 'a' as int + 10)
    else None
  }

  lemma HexValueOfDigit(n: nat)
    requires n < 16
    ensures HexValue(HexDigit(n)) == Some(n)
  {
  }

  /** The two digits of one byte, high nibble first. */
  function HexByte(b: byte): (s: string)
  {
    [HexDigit((b as int) / 16), HexDigit((b as int) % 16)]
  }

  /** `secrets.token_hex` applied to the bytes it draws. */
  function TokenHex(bytes: seq<byte>): (t: string)
    ensures |t| == 2 * |bytes|
    ensures forall i :: 0 <= i < |t| ==> HexValue(t[i]).Some?
  {
    if bytes == [] then []
    else
      HexValueOfDigit((bytes[0] as int) / 16);
      HexValueOfDigit((bytes[0] as int) % 16);
      HexByte(bytes[0]) + TokenHex(bytes[1..])
  }

  /** Reads a string of hexadecimal digit pairs back into bytes. */
  function FromHex(s: string): (r: Option<seq<byte>>)
    decreases |s|
  {
    if s == [] then Some([])
    else if |s| == 1 then None
    else
      match (HexValue(s[0]), HexValue(s[1]), FromHex(s[2..]))
      case (Some(hi), Some(lo), Some(rest)) => Some([(hi * 16 + lo) as byte] + rest)
      case _ => None
  }

  /** The digits of one byte read back as that byte. */
  lemma HexByteRoundTrip(b: byte)
    ensures HexValue(HexByte(b)[0]) == Some((b as int) / 16)
    ensures HexValue(HexByte(b)[1]) == Some((b as int) % 16)
    ensures (((b as int) / 16 * 16 + (b as int) % 16) as byte) == b
  {
    HexValueOfDigit((b as int) / 16);
    HexValueOfDigit((b as int) % 16);
  }

  /** A token decodes back to exactly the random bytes it was made from. */
  lemma {:induction false} TokenHexRoundTrip(bytes: seq<byte>)
    ensures FromHex(TokenHex(bytes)) == Some(bytes)
  {
    if bytes != [] {
      var b, rest := bytes[0], bytes[1..];
      var t := TokenHex(bytes);
      assert t == HexByte(b) + TokenHex(rest);
      assert t[0] == HexByte(b)[0] && t[1] == HexByte(b)[1];
      assert t[2..] == TokenHex(rest);
      TokenHexRoundTrip(rest);
      HexByteRoundTrip(b);
      assert bytes == [b] + rest;
    }
  }

  /** Different random bytes never give the same token. */
  lemma TokenHexInjective(a: seq<byte>, b: seq<byte>)
    requires TokenHex(a) == TokenHex(b)
    ensures a == b
  {
    TokenHexRoundTrip(a);
    TokenHexRoundTrip(b);
  }

  /** `User.set_token(length)`: `length` random bytes in hexadecimal. */
  function SetToken(length: nat, randomBytes: seq<byte>): (t: string)
    requires |randomBytes| == length
    ensures |t| == 2 * length
    ensures FromHex(t) == Some(randomBytes)
  {
    TokenHexRoundTrip(randomBytes);
    TokenHex(randomBytes)
  }

  /// ---------------------------------------------------------------------
  /// The records.
  /// ---------------------------------------------------------------------

  /**
   * A row of the User table. The id (`str(uuid.uuid4())`), the random bytes
   * behind the token and the password hash function
   * (`generate_password_hash`) come from outside as parameters. The `token`
   * argument is accepted and ignored, as in the source.
   */
  class User {
    const id: string
    const first: string
    const last: string
    const username: string
    const email: string
    const password: string
    const pwHash: string
    const gAuthVerify: bool
    const token: string

    constructor (newId: string, randomBytes: seq<byte>, hash: string -> string,
                 first: string := "", last: string := "", username: string := "",
                 email: string := "", password: string := "", token: string := "",
                 gAuthVerify: bool := false)
      requires |randomBytes| == TokenLength
      ensures this.id == newId
      ensures this.first == first && this.last == last
      ensures this.username == username && this.email == email
      ensures this.pwHash == hash(password) && this.password == this.pwHash
      ensures this.token == SetToken(TokenLength, randomBytes)
      ensures |this.token| == 2 * TokenLength
      ensures this.gAuthVerify == gAuthVerify
    {
      id := newId;
      this.first := first;
      this.last := last;
      this.username := username;
      // set_password stores the hash in pw_hash and returns it
      var hashed := hash(password);
      pwHash := hashed;
      this.password := hashed;
      this.email := email;
      this.token := SetToken(TokenLength, randomBytes);
      this.gAuthVerify := gAuthVerify;
    }
  }

  /** A row of the Book table; `user_id` names the owning user. */
  class Book {
    const isbn: string
    const title: string
    const author: string
    const description: string
    const coverImageUrl: string
    const userId: string

    constructor (title: string, author: string, description: string,
                 coverImageUrl: string, isbn: string, userId: string)
      ensures this.title == title && this.author == author
      ensures this.description == description && this.coverImageUrl == coverImageUrl
      ensures this.isbn == isbn && this.userId == userId
    {
      this.title := title;
      this.author := author;
      this.description := description;
      this.coverImageUrl := coverImageUrl;
      this.isbn := isbn;
      this.userId := userId;
    }
  }

  /// ---------------------------------------------------------------------
  /// BookSchema: the serialised form of a book.
  /// ---------------------------------------------------------------------

  /** The fields `BookSchema.Meta.fields` lists. */
  const SchemaFields: set<string> :=
    {"isbn", "title", "author", "description", "cover_image_url", "user_id"}

  /** `book_schema.dump(book)`: exactly the schema's fields, each with the book's value. */
  function Dump(b: Book): (row: map<string, string>)
    ensures row.Keys == SchemaFields
    ensures "date_created" !in row
    ensures row["isbn"] == b.isbn && row["title"] == b.title && row["author"] == b.author
    ensures row["description"] == b.description && row["cover_image_url"] == b.coverImageUrl
    ensures row["user_id"] == b.userId
  {
    map["isbn" := b.isbn, "title" := b.title, "author" := b.author,
        "description" := b.description, "cover_image_url" := b.coverImageUrl,
        "user_id" := b.userId]
  }

  /** Two books serialise alike exactly when their six schema fields agree. */
  lemma DumpDeterminedBySchemaFields(a: Book, b: Book)
    ensures Dump(a) == Dump(b) <==>
      a.isbn == b.isbn && a.title == b.title && a.author == b.author &&
      a.description == b.description && a.coverImageUrl == b.coverImageUrl &&
      a.userId == b.userId
  {
  }

  /** `books_schema.dump(books)`: one serialised row per book, in order. */
  function DumpMany(books: seq<Book>): (rows: seq<map<string, string>>)
    ensures |rows| == |books|
    ensures forall i :: 0 <= i < |books| ==> rows[i] == Dump(books[i])
  {
    if books == [] then [] else [Dump(books[0])] + DumpMany(books[1..])
  }

  /// ---------------------------------------------------------------------
  /// The tables and their constraints.
  /// ---------------------------------------------------------------------

  /** What the database refuses on commit. */
  datatype DbError =
    | DuplicateKey         // a primary-key or unique constraint would be broken
    | ForeignKeyViolation  // Book.user_id names no user

  datatype Commit = Committed | Rejected(error: DbError)

  /** `User.id` is the primary key. */
  ghost predicate UsersKeyedById(users: map<string, User>) {
    forall id :: id in users ==> users[id].id == id
  }

  /** `User.token` is unique. */
  ghost predicate TokensUnique(users: map<string, User>) {
    forall i, j :: i in users && j in users && i != j ==> users[i].token != users[j].token
  }

  /** `Book.isbn` is the primary key. */
  ghost predicate BooksKeyedByIsbn(books: map<string, Book>) {
    forall k :: k in books ==> books[k].isbn == k
  }

  /** `Book.user_id` is a non-null foreign key into User. */
  ghost predicate OwnersExist(books: map<string, Book>, users: map<string, User>) {
    forall k :: k in books ==> books[k].userId in users
  }

  /** The tokens in use. */
  function Tokens(users: map<string, User>): (ts: set<string>)
    ensures forall id :: id in users ==> users[id].token in ts
    ensures forall t :: t in ts ==> exists id :: id in users && users[id].token == t
  {
    set id | id in users :: users[id].token
  }

  /** The ISBN identifies at most one stored book. */
  lemma IsbnIdentifiesOneBook(books: map<string, Book>, a: string, b: string)
    requires BooksKeyedByIsbn(books)
    requires a in books && b in books && books[a].isbn == books[b].isbn
    ensures a == b && books[a] == books[b]
  {
  }

  class Database {
    var users: map<string, User>
    var books: map<string, Book>

    ghost predicate Valid()
      reads this
    {
      UsersKeyedById(users) && TokensUnique(users) &&
      BooksKeyedByIsbn(books) && OwnersExist(books, users)
    }

    constructor ()
      ensures Valid() && users == map[] && books == map[]
    {
      users := map[];
      books := map[];
    }

    /** `db.session.add(user)` and commit: refused when the id or the token is taken. */
    method AddUser(u: User) returns (r: Commit)
      requires Valid()
      modifies this
      ensures Valid() && books == old(books)
      ensures r.Rejected? <==> u.id in old(users) || u.token in Tokens(old(users))
      ensures r.Rejected? ==> r.error == DuplicateKey && users == old(users)
      ensures r.Committed? ==> users == old(users)[u.id := u]
    {
      if u.id in users || u.token in Tokens(users) {
        return Rejected(DuplicateKey);
      }
      users := users[u.id := u];
      r := Committed;
    }

    /**
     * `db.session.add(book)` and commit: refused when the ISBN is taken
     * (checked first) or the owner does not exist.
     */
    method InsertBook(b: Book) returns (r: Commit)
      requires Valid()
      modifies this
      ensures Valid() && users == old(users)
      ensures r.Rejected? <==> b.isbn in old(books) || b.userId !in users
      ensures r == Rejected(DuplicateKey) <==> b.isbn in old(books)
      ensures r.Rejected? ==> books == old(books)
      ensures r.Committed? ==> books == old(books)[b.isbn := b]
    {
      if b.isbn in books {
        return Rejected(DuplicateKey);
      }
      if b.userId !in users {
        return Rejected(ForeignKeyViolation);
      }
      books := books[b.isbn := b];
      r := Committed;
    }

    /** `db.session.delete(book)` and commit, for a book read from the table. */
    method DeleteBook(b: Book)
      requires Valid()
      requires b.isbn in books && books[b.isbn] == b
      modifies this
      ensures Valid() && users == old(users)
      ensures books == old(books) - {b.isbn}
    {
      books := books - {b.isbn};
    }

    /** `Book.query.all()`: every stored book once, in no particular order. */
    method All() returns (all: seq<Book>)
      requires Valid()
      ensures |all| == |books|
      ensures forall b :: b in all <==> b in books.Values
      ensures forall i, j :: 0 <= i < j < |all| ==> all[i].isbn != all[j].isbn
    {
      var rest := books.Keys;
      all := [];
      ghost var taken: seq<string> := [];
      while rest != {}
        invariant rest <= books.Keys
        invariant |taken| == |all|
        invariant forall i :: 0 <= i < |taken| ==> taken[i] in books.Keys - rest
        invariant forall k :: k in books.Keys - rest ==> k in taken
        invariant forall i :: 0 <= i < |all| ==> all[i] == books[taken[i]]
        invariant forall i, j :: 0 <= i < j < |taken| ==> taken[i] != taken[j]
        invariant |all| + |rest| == |books.Keys|
        decreases rest
      {
        var k :| k in rest;
        all := all + [books[k]];
        taken := taken + [k];
        rest := rest - {k};
      }
      forall b | b in books.Values
        ensures b in all
      {
        var k :| k in books && books[k] == b;
        assert k in books.Keys - rest;
        var i :| 0 <= i < |taken| && taken[i] == k;
        assert all[i] == b;
      }
    }
  }
}
