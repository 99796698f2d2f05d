/**
 * backend-go/utils/telegram.go: `ValidateInitData`, the check of a
 * Telegram Mini App `initData` string described in the Telegram Bot API
 * documentation, "Web Apps", section "Validating data received via the
 * Mini App". Go strings are byte strings, so the model works on bytes.
 */
module Telegram {
  import opened Wrappers
  import opened Seqs

  newtype byte = x: int | 0 <= x < 256
  type Bytes = seq<byte>

  /** The bytes of a string literal whose characters are all below 256. */
  function Ascii(s: string): (r: Bytes)
    requires forall i | 0 <= i < |s| :: s[i] as int < 256
    ensures |r| == |s| && forall i | 0 <= i < |s| :: r[i] as int == s[i] as int
  {
    if s == [] then [] else [s[0] as int as byte] + Ascii(s[1..])
  }

  const HASH_KEY: Bytes := Ascii("hash")
  const NEWLINE: byte := 10
  const EQUALS: byte := 61
  const WEB_APP_DATA: Bytes := Ascii("WebAppData")

  // ---------------------------------------------------------------------
  // The parsed query

  /** What `url.ParseQuery` returns: every key maps to its values in order. */
  type Query = map<Bytes, seq<Bytes>>

  /** `url.ParseQuery` never stores a key with an empty value list. */
  ghost predicate ParsedShape(q: Query) {
    forall k | k in q :: |q[k]| > 0
  }

  /** A `range` over the map: every key exactly once, in an order Go picks at random. */
  ghost predicate Enumerates(order: seq<Bytes>, q: Query) {
    Distinct(order) && forall k :: k in order <==> k in q
  }

  /** `url.Values.Get`: the first value, or "" when the key is absent. */
  function Get(q: Query, key: Bytes): (v: Bytes)
    ensures key !in q ==> v == []
    ensures key in q && |q[key]| > 0 ==> v == q[key][0]
  {
    if key in q && |q[key]| > 0 then q[key][0] else []
  }

  // ---------------------------------------------------------------------
  // The data-check-string

  /** `fmt.Sprintf("%s=%s", k, v[0])`. */
  function Part(key: Bytes, value: Bytes): Bytes {
    key + [EQUALS] + value
  }

  /** What the loop appends for key `k`: nothing for `hash`, else its first value. */
  function Contribution(q: Query, k: Bytes): seq<Bytes>
    requires k in q && |q[k]| > 0
  {
    if k == HASH_KEY then [] else [Part(k, q[k][0])]
  }

  /** `dataCheckParts` after the loop has visited the keys of `order`. */
  function Parts(q: Query, order: seq<Bytes>): seq<Bytes>
    requires ParsedShape(q) && forall k | k in order :: k in q
  {
    if order == [] then []
    else Parts(q, order[..|order| - 1]) + Contribution(q, order[|order| - 1])
  }

  lemma {:induction false} PartsAppend(q: Query, a: seq<Bytes>, b: seq<Bytes>)
    requires ParsedShape(q) && forall k | k in a + b :: k in q
    ensures Parts(q, a + b) == Parts(q, a) + Parts(q, b)
  {
    if b != [] {
      assert (a + b)[..|a + b| - 1] == a + b[..|b| - 1];
      PartsAppend(q, a, b[..|b| - 1]);
    } else {
      assert a + b == a;
    }
  }

  /** Taking key `b[j]` out of the visit order takes its contribution out of the parts. */
  lemma PartsWithout(q: Query, b: seq<Bytes>, j: nat)
    requires ParsedShape(q) && (forall k | k in b :: k in q) && j < |b|
    ensures multiset(Parts(q, b)) == multiset(Parts(q, b[..j] + b[j + 1..])) + multiset(Contribution(q, b[j]))
  {
    assert b == b[..j] + [b[j]] + b[j + 1..];
    PartsAppend(q, b[..j] + [b[j]], b[j + 1..]);
    PartsAppend(q, b[..j], [b[j]]);
    PartsAppend(q, b[..j], b[j + 1..]);
    assert Parts(q, [b[j]]) == Contribution(q, b[j]) by {
      assert [b[j]][..0] == [];
    }
  }

  /** Visiting the same keys in another order yields the same parts, reordered. */
  lemma {:induction false} PartsPermutation(q: Query, a: seq<Bytes>, b: seq<Bytes>)
    requires ParsedShape(q) && (forall k | k in a :: k in q) && (forall k | k in b :: k in q)
    requires multiset(a) == multiset(b)
    ensures multiset(Parts(q, a)) == multiset(Parts(q, b))
  {
    if a != [] {
      var n := |a| - 1;
      var j := PermutationWithoutLast(a, b);
      PartsPermutation(q, a[..n], b[..j] + b[j + 1..]);
      PartsWithout(q, b, j);
      assert Parts(q, a) == Parts(q, a[..n]) + Contribution(q, a[n]);
    } else {
      assert b == [];
    }
  }

  /** One part per visited key other than `hash`. */
  lemma {:induction false} PartsLength(q: Query, order: seq<Bytes>)
    requires ParsedShape(q) && (forall k | k in order :: k in q) && Distinct(order)
    ensures |Parts(q, order)| == |order| - (if HASH_KEY in order then 1 else 0)
  {
    if order != [] {
      var n := |order| - 1;
      assert Distinct(order[..n]);
      PartsLength(q, order[..n]);
      assert order == order[..n] + [order[n]];
      if order[n] == HASH_KEY {
        assert HASH_KEY !in order[..n];
      }
    }
  }

  /** Every visited key other than `hash` contributes `key=firstValue`. */
  lemma {:induction false} PartsCoverKeys(q: Query, order: seq<Bytes>, k: Bytes)
    requires ParsedShape(q) && forall k | k in order :: k in q
    requires k in order && k != HASH_KEY
    ensures Part(k, q[k][0]) in Parts(q, order)
  {
    var n := |order| - 1;
    if order[n] != k {
      assert order == order[..n] + [order[n]];
      PartsCoverKeys(q, order[..n], k);
    }
  }

  /** And every part comes from such a key. */
  lemma {:induction false} PartsComeFromKeys(q: Query, order: seq<Bytes>, p: Bytes)
    requires ParsedShape(q) && forall k | k in order :: k in q
    requires p in Parts(q, order)
    ensures exists k :: k in order && k != HASH_KEY && p == Part(k, q[k][0])
  {
    var n := |order| - 1;
    if p in Parts(q, order[..n]) {
      PartsComeFromKeys(q, order[..n], p);
      var k :| k in order[..n] && k != HASH_KEY && p == Part(k, q[k][0]);
      assert k in order;
    } else {
      assert p in Contribution(q, order[n]);
    }
  }

  // ---------------------------------------------------------------------
  // `sort.Strings`: Go orders strings bytewise

  /** `a <= b` for Go strings. */
  predicate LexLe(a: Bytes, b: Bytes) {
    if a == [] then true
    else if b == [] then false
    else if a[0] != b[0] then a[0] < b[0]
    else LexLe(a[1..], b[1..])
  }

  lemma {:induction false} LexLeReflexive(a: Bytes)
    ensures LexLe(a, a)
  {
    if a != [] {
      LexLeReflexive(a[1..]);
    }
  }

  lemma {:induction false} LexLeTotal(a: Bytes, b: Bytes)
    ensures LexLe(a, b) || LexLe(b, a)
  {
    if a != [] && b != [] && a[0] == b[0] {
      LexLeTotal(a[1..], b[1..]);
    }
  }

  lemma {:induction false} LexLeAntisymmetric(a: Bytes, b: Bytes)
    requires LexLe(a, b) && LexLe(b, a)
    ensures a == b
  {
    if a != [] && b != [] {
      LexLeAntisymmetric(a[1..], b[1..]);
      assert a == [a[0]] + a[1..] && b == [b[0]] + b[1..];
    }
  }

  lemma {:induction false} LexLeTransitive(a: Bytes, b: Bytes, c: Bytes)
    requires LexLe(a, b) && LexLe(b, c)
    ensures LexLe(a, c)
  {
    if a != [] && b != [] && c != [] && a[0] == b[0] && b[0] == c[0] {
      LexLeTransitive(a[1..], b[1..], c[1..]);
    }
  }

  ghost predicate Sorted(s: seq<Bytes>) {
    forall i, j :: 0 <= i < j < |s| ==> LexLe(s[i], s[j])
  }

  function Insert(x: Bytes, s: seq<Bytes>): (r: seq<Bytes>)
    ensures multiset(r) == multiset(s) + multiset{x}
  {
    if s == [] then [x]
    else if LexLe(x, s[0]) then [x] + s
    else
      assert s == [s[0]] + s[1..];
      [s[0]] + Insert(x, s[1..])
  }

  /** `sort.Strings`, as a function of the slice's contents. */
  function SortStrings(s: seq<Bytes>): (r: seq<Bytes>)
    ensures multiset(r) == multiset(s)
  {
    if s == [] then []
    else
      assert s == [s[0]] + s[1..];
      Insert(s[0], SortStrings(s[1..]))
  }

  lemma {:induction false} InsertKeepsSorted(x: Bytes, s: seq<Bytes>)
    requires Sorted(s)
    ensures Sorted(Insert(x, s))
  {
    if s == [] {
    } else if LexLe(x, s[0]) {
      forall j | 0 < j < |s| ensures LexLe(x, s[j]) {
        LexLeTransitive(x, s[0], s[j]);
      }
    } else {
      LexLeTotal(x, s[0]);
      InsertKeepsSorted(x, s[1..]);
      var r := Insert(x, s[1..]);
      forall j | 0 <= j < |r| ensures LexLe(s[0], r[j]) {
        assert r[j] in multiset(s[1..]) + multiset{x};
        if r[j] != x {
          var t :| 0 <= t < |s[1..]| && s[1..][t] == r[j];
          assert s[1..][t] == s[t + 1];
        }
      }
    }
  }

  lemma {:induction false} SortStringsSorted(s: seq<Bytes>)
    ensures Sorted(SortStrings(s))
  {
    if s != [] {
      SortStringsSorted(s[1..]);
      InsertKeepsSorted(s[0], SortStrings(s[1..]));
    }
  }

  /** Two sorted orderings of the same strings are the same sequence. */
  lemma {:induction false} SortedPermutationsEqual(s: seq<Bytes>, t: seq<Bytes>)
    requires Sorted(s) && Sorted(t) && multiset(s) == multiset(t)
    ensures s == t
  {
    if s == [] {
      assert |t| == |multiset(t)| == 0;
    } else {
      assert |t| == |multiset(t)| == |multiset(s)| == |s|;
      assert s[0] in multiset(t) && t[0] in multiset(s);
      var i :| 0 <= i < |t| && t[i] == s[0];
      var j :| 0 <= j < |s| && s[j] == t[0];
      assert LexLe(t[0], s[0]) by {
        if i > 0 { assert LexLe(t[0], t[i]); } else { LexLeReflexive(s[0]); }
      }
      assert LexLe(s[0], t[0]) by {
        if j > 0 { assert LexLe(s[0], s[j]); } else { LexLeReflexive(t[0]); }
      }
      LexLeAntisymmetric(s[0], t[0]);
      assert s == [s[0]] + s[1..] && t == [t[0]] + t[1..];
      assert multiset(s) == multiset(s[1..]) + multiset{s[0]};
      assert multiset(t) == multiset(t[1..]) + multiset{s[0]};
      MultisetCancel(multiset(s[1..]), multiset(t[1..]), s[0]);
      SortedPermutationsEqual(s[1..], t[1..]);
    }
  }

  // ---------------------------------------------------------------------
  // `strings.Join` and `hex.EncodeToString`

  /** `strings.Join(parts, sep)`: separators between parts only. */
  function Join(parts: seq<Bytes>, sep: Bytes): Bytes {
    if |parts| == 0 then []
    else if |parts| == 1 then parts[0]
    else Join(parts[..|parts| - 1], sep) + sep + parts[|parts| - 1]
  }

  /**
   * When no part holds a newline, the joined string holds exactly one
   * fewer newline than there are parts: none leads and none trails.
   */
  lemma {:induction false} JoinNewlines(parts: seq<Bytes>)
    requires |parts| > 0 && forall p | p in parts :: NEWLINE !in p
    ensures multiset(Join(parts, [NEWLINE]))[NEWLINE] == |parts| - 1
  {
    var n := |parts| - 1;
    assert parts[n] in parts;
    assert multiset(parts[n])[NEWLINE] == 0;
    if n > 0 {
      assert forall p | p in parts[..n] :: p in parts;
      JoinNewlines(parts[..n]);
    }
  }

  /**
   * `strings.Split(s, sep)` for a one-byte separator: the pieces between
   * separators, with an empty piece before a leading and after a trailing
   * separator, and [""] for the empty string.
   */
  function Split(s: Bytes, sep: byte): (r: seq<Bytes>)
    ensures |r| > 0
  {
    if s == [] then [[]]
    else if s[|s| - 1] == sep then Split(s[..|s| - 1], sep) + [[]]
    else
      var r := Split(s[..|s| - 1], sep);
      r[..|r| - 1] + [r[|r| - 1] + [s[|s| - 1]]]
  }

  lemma {:induction false} SplitWithoutSeparator(b: Bytes, sep: byte)
    requires sep !in b
    ensures Split(b, sep) == [b]
  {
    if b != [] {
      var n := |b| - 1;
      assert b[..n] + [b[n]] == b;
      SplitWithoutSeparator(b[..n], sep);
    }
  }

  lemma {:induction false} SplitAfterSeparator(a: Bytes, b: Bytes, sep: byte)
    requires sep !in b
    ensures Split(a + [sep] + b, sep) == Split(a, sep) + [b]
  {
    var s := a + [sep] + b;
    if b == [] {
      assert s[..|s| - 1] == a;
    } else {
      var n := |b| - 1;
      assert s[..|s| - 1] == a + [sep] + b[..n];
      assert s[|s| - 1] == b[n];
      SplitAfterSeparator(a, b[..n], sep);
      assert b[..n] + [b[n]] == b;
    }
  }

  /**
   * Splitting the data-check-string at its newlines gives back the sorted
   * parts when no part holds a newline: one separator between neighbours,
   * none leading and none trailing.
   */
  lemma {:induction false} SplitJoinRoundTrip(parts: seq<Bytes>)
    requires |parts| > 0 && forall p | p in parts :: NEWLINE !in p
    ensures Split(Join(parts, [NEWLINE]), NEWLINE) == parts
  {
    var n := |parts| - 1;
    assert NEWLINE !in parts[n] by {
      assert parts[n] in parts;
    }
    if n == 0 {
      SplitJoinSingle(parts);
    } else {
      assert forall p | p in parts[..n] :: NEWLINE !in p by {
        assert forall p | p in parts[..n] :: p in parts;
      }
      SplitJoinRoundTrip(parts[..n]);
      SplitJoinStep(parts[..n], parts[n]);
      InitSnocLast(parts);
    }
  }

  lemma SplitJoinSingle(parts: seq<Bytes>)
    requires |parts| == 1 && NEWLINE !in parts[0]
    ensures Split(Join(parts, [NEWLINE]), NEWLINE) == parts
  {
    SplitWithoutSeparator(parts[0], NEWLINE);
    assert parts == [parts[0]];
  }

  /** One more part, after a separator, comes back as one more piece. */
  lemma SplitJoinStep(init: seq<Bytes>, last: Bytes)
    requires |init| > 0 && NEWLINE !in last
    requires Split(Join(init, [NEWLINE]), NEWLINE) == init
    ensures Split(Join(init + [last], [NEWLINE]), NEWLINE) == init + [last]
  {
    JoinSnoc(init, last, [NEWLINE]);
    SplitAfterSeparator(Join(init, [NEWLINE]), last, NEWLINE);
  }

  lemma JoinSnoc(init: seq<Bytes>, last: Bytes, sep: Bytes)
    requires |init| > 0
    ensures Join(init + [last], sep) == Join(init, sep) + sep + last
  {
    assert (init + [last])[..|init|] == init;
  }

  lemma InitSnocLast<T>(s: seq<T>)
    requires |s| > 0
    ensures s[..|s| - 1] + [s[|s| - 1]] == s
  {
  }

  /** A lowercase hexadecimal digit. */
  function HexDigit(d: int): (c: byte)
    requires 0 <= d < 16
  {
    if d < 10 then (48 + d) as byte else (87 + d) as byte
  }

  ghost predicate IsLowerHex(c: byte) {
    48 <= c <= 57 || 97 <= c <= 102
  }

  /** `hex.EncodeToString`: two lowercase digits per byte, high nibble first. */
  function HexEncode(b: Bytes): (r: Bytes)
    ensures |r| == 2 * |b|
    ensures forall i | 0 <= i < |r| :: IsLowerHex(r[i])
  {
    if b == [] then []
    else [HexDigit(b[0] as int / 16), HexDigit(b[0] as int % 16)] + HexEncode(b[1..])
  }

  lemma {:induction false} HexEncodeInjective(a: Bytes, b: Bytes)
    requires HexEncode(a) == HexEncode(b)
    ensures a == b
  {
    if a != [] {
      var ra, rb := HexEncode(a), HexEncode(b);
      assert ra[0] == rb[0] && ra[1] == rb[1];
      assert a[0] as int / 16 == b[0] as int / 16;
      assert a[0] as int % 16 == b[0] as int % 16;
      assert ra[2..] == HexEncode(a[1..]) && rb[2..] == HexEncode(b[1..]);
      HexEncodeInjective(a[1..], b[1..]);
      assert a == [a[0]] + a[1..] && b == [b[0]] + b[1..];
    }
  }

  // ---------------------------------------------------------------------
  // The check

  /** The data-check-string for one enumeration of the query. */
  function DataCheckString(q: Query, order: seq<Bytes>): Bytes
    requires ParsedShape(q) && forall k | k in order :: k in q
  {
    Join(SortStrings(Parts(q, order)), [NEWLINE])
  }

  /** Distinct enumerations of one key set visit the same multiset of keys. */
  lemma EnumerationsArePermutations(q: Query, o1: seq<Bytes>, o2: seq<Bytes>)
    requires Enumerates(o1, q) && Enumerates(o2, q)
    ensures multiset(o1) == multiset(o2)
  {
    forall x ensures multiset(o1)[x] == multiset(o2)[x] {
      DistinctHasMultiplicityOne(o1, x);
      DistinctHasMultiplicityOne(o2, x);
      if x in q {
        assert x in multiset(o1) && x in multiset(o2);
      } else {
        assert x !in multiset(o1) && x !in multiset(o2);
      }
    }
  }

  /** The data-check-string does not depend on Go's map iteration order. */
  lemma DataCheckStringOrderFree(q: Query, o1: seq<Bytes>, o2: seq<Bytes>)
    requires ParsedShape(q) && Enumerates(o1, q) && Enumerates(o2, q)
    ensures DataCheckString(q, o1) == DataCheckString(q, o2)
  {
    EnumerationsArePermutations(q, o1, o2);
    PartsPermutation(q, o1, o2);
    SortStringsSorted(Parts(q, o1));
    SortStringsSorted(Parts(q, o2));
    SortedPermutationsEqual(SortStrings(Parts(q, o1)), SortStrings(Parts(q, o2)));
  }

  /** The HMAC-SHA-256 key: HMAC keyed with "WebAppData" over the bot token. */
  function SecretKey(botToken: Bytes, hmac: (Bytes, Bytes) -> Bytes): Bytes {
    hmac(WEB_APP_DATA, botToken)
  }

  /** The expected value of `hash`: hex of the HMAC of the data-check-string. */
  function ExpectedHash(q: Query, order: seq<Bytes>, botToken: Bytes, hmac: (Bytes, Bytes) -> Bytes): Bytes
    requires ParsedShape(q) && forall k | k in order :: k in q
  {
    HexEncode(hmac(SecretKey(botToken, hmac), DataCheckString(q, order)))
  }

  datatype ValidationError = ParseFailed | MissingHash

  /** What `ValidateInitData` reports: an error, or whether the hash matched. */
  datatype InitDataVerdict = Rejected(error: ValidationError) | Checked(valid: bool)

  /** The verdict on an `initData` whose parse gave `parsed`. */
  function VerdictOf(parsed: Option<Query>, order: seq<Bytes>, botToken: Bytes, hmac: (Bytes, Bytes) -> Bytes): InitDataVerdict
    requires parsed.Some? ==> ParsedShape(parsed.value) && forall k | k in order :: k in parsed.value
  {
    if parsed.None? then Rejected(ParseFailed)
    else if Get(parsed.value, HASH_KEY) == [] then Rejected(MissingHash)
    else Checked(ExpectedHash(parsed.value, order, botToken, hmac) == Get(parsed.value, HASH_KEY))
  }

  /**
   * `ValidateInitData`. `parsed` is the outcome of `url.ParseQuery` (None
   * when it reports an error), `order` the order the `range` visits the
   * keys in, and `hmac(key, message)` stands for HMAC-SHA-256.
   */
  method ValidateInitData(parsed: Option<Query>, order: seq<Bytes>, botToken: Bytes, hmac: (Bytes, Bytes) -> Bytes)
    returns (valid: bool, err: Option<ValidationError>)
    requires parsed.Some? ==> ParsedShape(parsed.value) && Enumerates(order, parsed.value)
    ensures err.Some? ==> !valid
    ensures parsed.None? <==> err == Some(ParseFailed)
    ensures parsed.Some? ==> (err == Some(MissingHash) <==> Get(parsed.value, HASH_KEY) == [])
    ensures parsed.Some? && err.None? ==>
      (valid <==> ExpectedHash(parsed.value, order, botToken, hmac) == Get(parsed.value, HASH_KEY))
    ensures (if err.Some? then Rejected(err.value) else Checked(valid)) == VerdictOf(parsed, order, botToken, hmac)
  {
    if parsed.None? {
      return false, Some(ParseFailed);
    }
    var q := parsed.value;
    var hash := Get(q, HASH_KEY);
    if hash == [] {
      return false, Some(MissingHash);
    }
    var parts: seq<Bytes> := [];
    for i := 0 to |order|
      invariant parts == Parts(q, order[..i])
    {
      var k := order[i];
      assert order[..i + 1][..i] == order[..i];
      if k != HASH_KEY {
        parts := parts + [Part(k, q[k][0])];
      }
    }
    assert order[..|order|] == order;
    var sorted := SortStrings(parts);
    var dataCheckString := Join(sorted, [NEWLINE]);
    var secretKey := hmac(WEB_APP_DATA, botToken);
    var calculatedHash := HexEncode(hmac(secretKey, dataCheckString));
    return calculatedHash == hash, None;
  }

  /** No hex encoding holds an uppercase digit. */
  lemma UppercaseNeverHex(h: Bytes, i: nat, b: Bytes)
    requires i < |h| && 65 <= h[i] <= 70
    ensures HexEncode(b) != h
  {
    if i < |HexEncode(b)| {
      assert IsLowerHex(HexEncode(b)[i]);
    }
  }

  /** A `hash` with an uppercase hex digit never validates. */
  lemma UppercaseHashRejected(q: Query, order: seq<Bytes>, botToken: Bytes, hmac: (Bytes, Bytes) -> Bytes, i: nat)
    requires ParsedShape(q) && forall k | k in order :: k in q
    requires i < |Get(q, HASH_KEY)| && 65 <= Get(q, HASH_KEY)[i] <= 70
    ensures ExpectedHash(q, order, botToken, hmac) != Get(q, HASH_KEY)
  {
    UppercaseNeverHex(Get(q, HASH_KEY), i, hmac(SecretKey(botToken, hmac), DataCheckString(q, order)));
  }

  /**
   * The parts are sorted as whole `k=v` strings: for keys "a" and "a1",
   * key order puts "a" first but "a1=…" sorts before "a=…", since '1'
   * precedes '='.
   */
  lemma WholePartOrderExample()
    ensures LexLe(Ascii("a"), Ascii("a1"))
    ensures !LexLe(Part(Ascii("a"), Ascii("z")), Part(Ascii("a1"), Ascii("z")))
  {
    var a, a1, z := Ascii("a"), Ascii("a1"), Ascii("z");
    assert a[1..] == [];
    var p, p1 := Part(a, z), Part(a1, z);
    assert p[0] == p1[0] && p[1] == EQUALS && p1[1] == 49;
    assert p[1..][0] == EQUALS && p1[1..][0] == 49;
  }
}
