/**
 * Password hashing, the stored hash format and the user table
 * (feed_baby/user.py). PBKDF2-HMAC-SHA256 (RFC 8018 section 5.2) with 600000
 * iterations is a parameter `kdf`: any function from (password, salt) to bytes.
 */
module Passwords {
  import opened Wrappers

  type byte = x: int | 0 <= x < 256

  /** pbkdf2_hmac("sha256", password.encode(), salt.encode(), 600000). */
  type Kdf = (string, string) -> seq<byte>

  /** The algorithm tag in front of every stored hash. */
  const Scheme: string := "pbkdf2:sha256:600000"

  predicate IsHexDigit(c: char) {
    '0' <= c <= '9' || 'a' <= c <= 'f'
  }

  /** The lower-case hexadecimal digit for 0 <= n < 16. */
  function HexDigit(n: int): (c: char)
    requires 0 <= n < 16
    ensures IsHexDigit(c)
  {
    if n < 10 then ('0' as int + n) as char else ('a' as int + n - 10) as char
  }

  /** bytes.hex(): two lower-case hexadecimal digits per byte, high nibble first. */
  function Hex(bytes: seq<byte>): (s: string)
    ensures |s| == 2 * |bytes|
    ensures forall i :: 0 <= i < |s| ==> IsHexDigit(s[i])
  {
    if bytes == [] then []
    else [HexDigit(bytes[0] / 16), HexDigit(bytes[0] % 16)] + Hex(bytes[1..])
  }

  /** Different byte strings have different hex encodings. */
  lemma {:induction false} HexInjective(a: seq<byte>, b: seq<byte>)
    requires Hex(a) == Hex(b)
    ensures a == b
  {
    if a != [] {
      var s := Hex(a);
      assert s[0] == HexDigit(a[0] / 16) && s[0] == HexDigit(b[0] / 16);
      assert s[1] == HexDigit(a[0] % 16) && s[1] == HexDigit(b[0] % 16);
      assert a[0] == b[0];
      assert Hex(a[1..]) == s[2..] == Hex(b[1..]);
      HexInjective(a[1..], b[1..]);
      assert a == [a[0]] + a[1..] && b == [b[0]] + b[1..];
    }
  }

  /** A hex encoding never contains the '$' separator of the stored format. */
  lemma HexHasNoDollar(bytes: seq<byte>)
    ensures '$' !in Hex(bytes)
  {
  }

  /** "".join with a one-character separator (the inverse of Split). */
  function Join(parts: seq<string>, sep: char): (s: string)
    requires |parts| >= 1
  {
    if |parts| == 1 then parts[0] else parts[0] + [sep] + Join(parts[1..], sep)
  }

  /**
   * str.split(sep) for a one-character separator: never empty, one more part than
   * there are separators, and no part contains sep.
   */
  function Split(s: string, sep: char): (parts: seq<string>)
    ensures |parts| == multiset(s)[sep] + 1
    ensures forall i :: 0 <= i < |parts| ==> sep !in parts[i]
  {
    if s == [] then [""]
    else
      var rest := Split(s[1..], sep);
      assert s == [s[0]] + s[1..];
      if s[0] == sep then [""] + rest
      else [[s[0]] + rest[0]] + rest[1..]
  }

  /** Splitting what Join built, from sep-free parts, gives the parts back. */
  lemma {:induction false} SplitJoin(parts: seq<string>, sep: char)
    requires |parts| >= 1
    requires forall i :: 0 <= i < |parts| ==> sep !in parts[i]
    ensures Split(Join(parts, sep), sep) == parts
  {
    if |parts| == 1 {
      SplitWithout(parts[0], sep);
    } else {
      var tail := Join(parts[1..], sep);
      SplitJoin(parts[1..], sep);
      SplitPrefix(parts[0], sep, tail);
    }
  }

  /** Joining the parts of any string with the separator it was split on gives the string back. */
  lemma {:induction false} JoinSplit(s: string, sep: char)
    ensures Join(Split(s, sep), sep) == s
  {
    if s != [] {
      var rest := Split(s[1..], sep);
      JoinSplit(s[1..], sep);
      if s[0] == sep {
        assert Split(s, sep) == [""] + rest;
        JoinCons("", rest, sep);
      } else {
        assert Split(s, sep) == [[s[0]] + rest[0]] + rest[1..];
        JoinHead(s[0], rest, sep);
      }
      assert [s[0]] + s[1..] == s;
    }
  }

  /** Join of a part put in front of the others. */
  lemma JoinCons(head: string, rest: seq<string>, sep: char)
    requires |rest| >= 1
    ensures Join([head] + rest, sep) == head + [sep] + Join(rest, sep)
  {
    assert ([head] + rest)[1..] == rest;
  }

  /** Join after a character is put in front of the first part. */
  lemma JoinHead(c: char, parts: seq<string>, sep: char)
    requires |parts| >= 1
    ensures Join([[c] + parts[0]] + parts[1..], sep) == [c] + Join(parts, sep)
  {
    var joined := [[c] + parts[0]] + parts[1..];
    if |parts| > 1 {
      assert joined[1..] == parts[1..];
    }
  }

  lemma {:induction false} SplitWithout(s: string, sep: char)
    requires sep !in s
    ensures Split(s, sep) == [s]
  {
    if s != [] {
      SplitWithout(s[1..], sep);
      assert [s[0]] + s[1..] == s;
    }
  }

  lemma {:induction false} SplitPrefix(head: string, sep: char, tail: string)
    requires sep !in head
    ensures Split(head + [sep] + tail, sep) == [head] + Split(tail, sep)
  {
    if head == [] {
      assert ([sep] + tail)[1..] == tail;
    } else {
      var s := head + [sep] + tail;
      assert s[0] == head[0] && s[1..] == head[1..] + [sep] + tail;
      SplitPrefix(head[1..], sep, tail);
      assert [head[0]] + head[1..] == head;
    }
  }

  lemma JoinThree(a: string, b: string, c: string, sep: char)
    ensures Join([a, b, c], sep) == a + [sep] + b + [sep] + c
  {
    assert [a, b, c][1..] == [b, c] && [b, c][1..] == [c];
    assert Join([b, c], sep) == b + [sep] + c;
    assert Join([a, b, c], sep) == a + [sep] + (b + [sep] + c);
  }

  /**
   * hash_password(password, salt): when no salt is supplied, the salt is
   * token_hex over the caller-supplied random bytes. Returns (hash, salt).
   */
  function HashPassword(password: string, salt: Option<string>, randomBytes: seq<byte>, kdf: Kdf)
    : (r: (string, string))
    ensures salt.Some? ==> r.1 == salt.value
    ensures salt.None? ==> r.1 == Hex(randomBytes) && |r.1| == 2 * |randomBytes| && '$' !in r.1
    ensures r.0 == Hex(kdf(password, r.1)) && |r.0| == 2 * |kdf(password, r.1)| && '$' !in r.0
  {
    var s := if salt.Some? then salt.value else Hex(randomBytes);
    HexHasNoDollar(randomBytes);
    HexHasNoDollar(kdf(password, s));
    (Hex(kdf(password, s)), s)
  }

  /** The stored form "pbkdf2:sha256:600000$<salt>$<hash>". */
  function FormatStored(salt: string, hash: string): (stored: string)
    ensures |Scheme| + 1 <= |stored| && stored[..|Scheme| + 1] == Scheme + "$"
  {
    Scheme + "$" + salt + "$" + hash
  }

  /** The stored form splits back into scheme, salt and hash when neither contains '$'. */
  lemma SplitStored(salt: string, hash: string)
    requires '$' !in salt && '$' !in hash
    ensures Split(FormatStored(salt, hash), '$') == [Scheme, salt, hash]
  {
    JoinThree(Scheme, salt, hash, '$');
    assert FormatStored(salt, hash) == Join([Scheme, salt, hash], '$');
    SplitJoin([Scheme, salt, hash], '$');
  }

  /**
   * verify_password: split on '$'; anything but three parts, or a first part other
   * than the scheme, is rejected; otherwise rehash with the stored salt and compare
   * (compare_digest is modelled as equality).
   */
  function VerifyPassword(password: string, stored: string, kdf: Kdf): (ok: bool)
    ensures ok ==> multiset(stored)['$'] == 2
  {
    var parts := Split(stored, '$');
    if |parts| != 3 then false
    else if parts[0] != Scheme then false
    else HashPassword(password, Some(parts[1]), [], kdf).0 == parts[2]
  }

  /** A first part other than the scheme is rejected, whatever the password. */
  lemma VerifyRejectsOtherScheme(password: string, tag: string, salt: string, hash: string, kdf: Kdf)
    requires '$' !in tag && '$' !in salt && '$' !in hash && tag != Scheme
    ensures !VerifyPassword(password, tag + "$" + salt + "$" + hash, kdf)
  {
    JoinThree(tag, salt, hash, '$');
    SplitJoin([tag, salt, hash], '$');
  }

  /**
   * Checking password q against the string stored for password p and salt: true
   * exactly when the key derivation gives q and p the same key under that salt.
   * In particular the right password is always accepted.
   */
  lemma VerifyStored(p: string, q: string, salt: string, kdf: Kdf)
    requires '$' !in salt
    ensures VerifyPassword(q, FormatStored(salt, Hex(kdf(p, salt))), kdf)
            <==> kdf(q, salt) == kdf(p, salt)
  {
    var hash := Hex(kdf(p, salt));
    HexHasNoDollar(kdf(p, salt));
    SplitStored(salt, hash);
    VerifyParsed(q, FormatStored(salt, hash), salt, hash, kdf);
    if Hex(kdf(q, salt)) == hash {
      HexInjective(kdf(q, salt), kdf(p, salt));
    }
  }

  /** Once the stored string is known to parse, verification is a comparison of hashes. */
  lemma VerifyParsed(password: string, stored: string, salt: string, hash: string, kdf: Kdf)
    requires Split(stored, '$') == [Scheme, salt, hash]
    ensures VerifyPassword(password, stored, kdf) <==> Hex(kdf(password, salt)) == hash
  {
  }

  /**
   * What set_password and create store: hash_password with a fresh salt, formatted
   * as "pbkdf2:sha256:600000$<salt>$<hash>".
   */
  function NewStoredHash(password: string, randomBytes: seq<byte>, kdf: Kdf): (stored: string)
    ensures |Scheme| + 1 <= |stored| && stored[..|Scheme| + 1] == Scheme + "$"
  {
    var (hashed, salt) := HashPassword(password, None, randomBytes, kdf);
    FormatStored(salt, hashed)
  }

  /** A freshly stored hash always verifies against the password it was made from. */
  lemma NewStoredHashVerifies(password: string, randomBytes: seq<byte>, kdf: Kdf)
    ensures VerifyPassword(password, NewStoredHash(password, randomBytes, kdf), kdf)
  {
    HexHasNoDollar(randomBytes);
    VerifyStored(password, password, Hex(randomBytes), kdf);
  }

  /** A row of the users table; created_at is assigned by storage and not modelled. */
  datatype UserRow = UserRow(id: int, username: string, passwordHash: string)

  /** A user account whose password hash can be replaced in place. */
  class User {
    var id: Option<int>
    var username: string
    var passwordHash: string

    constructor (id: Option<int>, username: string, passwordHash: string)
      ensures this.id == id && this.username == username && this.passwordHash == passwordHash
    {
      this.id := id;
      this.username := username;
      this.passwordHash := passwordHash;
    }

    /** set_password: a fresh salt from the random bytes, hash stored in the scheme's format. */
    method SetPassword(password: string, randomBytes: seq<byte>, kdf: Kdf)
      modifies this`passwordHash
      ensures |Scheme| + 1 <= |passwordHash| && passwordHash[..|Scheme| + 1] == Scheme + "$"
      ensures passwordHash == NewStoredHash(password, randomBytes, kdf)
      ensures CheckPassword(password, kdf)
    {
      passwordHash := NewStoredHash(password, randomBytes, kdf);
      NewStoredHashVerifies(password, randomBytes, kdf);
    }

    /** check_password: only a well-formed stored hash can match. */
    predicate CheckPassword(password: string, kdf: Kdf)
      reads this
      ensures CheckPassword(password, kdf) ==> multiset(passwordHash)['$'] == 2
    {
      VerifyPassword(password, passwordHash, kdf)
    }
  }

  /**
   * The users table, keyed by username (the UNIQUE constraint). Ids come from a
   * counter standing in for SQLite's row ids.
   */
  class UserStore {
    var rows: map<string, UserRow>
    var nextId: int

    ghost predicate Valid()
      reads this
    {
      forall name :: name in rows ==> rows[name].username == name && rows[name].id < nextId
    }

    constructor ()
      ensures Valid() && rows == map[]
    {
      rows := map[];
      nextId := 1;
    }

    /**
     * User.create: an existing username gives None and leaves the table unchanged;
     * otherwise a new row with a fresh id and the formatted hash is inserted
     * (NewStoredHashVerifies: that hash verifies against the password).
     */
    method Create(username: string, password: string, randomBytes: seq<byte>, kdf: Kdf)
      returns (user: User?)
      requires Valid()
      modifies this
      ensures Valid()
      ensures username in old(rows) ==> user == null && rows == old(rows) && nextId == old(nextId)
      ensures username !in old(rows) ==>
                && user != null && fresh(user)
                && user.id == Some(old(nextId)) && user.username == username
                && user.passwordHash == NewStoredHash(password, randomBytes, kdf)
                && rows == old(rows)[username := UserRow(old(nextId), username, user.passwordHash)]
      ensures forall name :: name in old(rows) ==> name in rows && rows[name] == old(rows)[name]
    {
      var passwordHash := NewStoredHash(password, randomBytes, kdf);
      if username in rows {
        return null;
      }
      var id := nextId;
      rows := rows[username := UserRow(id, username, passwordHash)];
      nextId := nextId + 1;
      user := new User(Some(id), username, passwordHash);
    }

    /**
     * User.authenticate: None when the username is absent or the password does not
     * match (the caller cannot tell which), the stored user otherwise.
     */
    method Authenticate(username: string, password: string, kdf: Kdf) returns (user: User?)
      requires Valid()
      ensures (user != null) <==>
                (username in rows && VerifyPassword(password, rows[username].passwordHash, kdf))
      ensures user != null ==>
                && fresh(user)
                && user.id == Some(rows[username].id)
                && user.username == username
                && user.passwordHash == rows[username].passwordHash
    {
      if username !in rows {
        return null;
      }
      var row := rows[username];
      user := new User(Some(row.id), row.username, row.passwordHash);
      if !user.CheckPassword(password, kdf) {
        user := null;
      }
    }
  }
}
