/**
 * `groupNftsByCollection` of the React screens MyCollectionsScreen and
 * MyNftsScreen (the two copies are the same text): a reduce that builds
 * a dictionary `acc` from collection name to `{name, nfts}`, pushing each
 * NFT into the entry of its key, followed by `Object.values(acc)`.
 *
 * JavaScript enumerates an object's own string keys with the
 * integer-like ones ("array indices": "0", "7", ... up to 2^32 - 2)
 * first in ascending numeric order and all other keys in insertion
 * order; `ObjectKeyOrder` models that rule.
 */
module Grouping {
  import opened Wrappers
  import opened Nfts
  import opened Seqs
  import opened Decimal

  const UNCATEGORIZED: string := "Uncategorized"

  datatype Collection = Collection(name: string, nfts: seq<Nft>)

  /** `nft.collection_name || 'Uncategorized'`: absent, null and "" are falsy. */
  function GroupKey(nft: Nft): string {
    if nft.collectionName.Some? && nft.collectionName.value != "" then nft.collectionName.value
    else UNCATEGORIZED
  }

  /**
   * The properties every object literal inherits from `Object.prototype`.
   * For such a key `acc[key]` is already truthy (a function, or the
   * prototype object itself for `__proto__`), so the reduce creates no
   * entry for it and the following `acc[key].nfts.push` throws a TypeError.
   */
  const INHERITED_NAMES: set<string> := {
    "constructor", "hasOwnProperty", "isPrototypeOf", "propertyIsEnumerable",
    "toLocaleString", "toString", "valueOf", "__proto__",
    "__defineGetter__", "__defineSetter__", "__lookupGetter__", "__lookupSetter__"
  }

  /** Some NFT's key names an inherited property, so `groupNftsByCollection` throws. */
  predicate HitsInheritedName(xs: seq<Nft>) {
    exists i | 0 <= i < |xs| :: GroupKey(xs[i]) in INHERITED_NAMES
  }

  lemma GroupKeyNamesCollection(nft: Nft)
    ensures GroupKey(nft) != ""
    ensures GroupKey(nft) == UNCATEGORIZED <==>
      nft.collectionName.None? || nft.collectionName.value in {"", UNCATEGORIZED}
  {
  }

  // ---------------------------------------------------------------------
  // JavaScript own-property key order

  /** The largest array index, 2^32 - 2. */
  const MAX_ARRAY_INDEX: nat := 4294967294

  /** A canonical decimal numeral no larger than MAX_ARRAY_INDEX. */
  predicate IsArrayIndex(s: string) {
    && |s| > 0
    && AllDigits(s)
    && (s[0] != '0' || |s| == 1)
    && DigitsValue(s) <= MAX_ARRAY_INDEX
  }

  /** The numeric value of an array-index key; other keys sort as 0 but are never sorted. */
  function IndexValue(s: string): nat {
    if IsArrayIndex(s) then DigitsValue(s) else 0
  }

  function IndexKeys(ks: seq<string>): (r: seq<string>)
    ensures forall k | k in r :: IsArrayIndex(k)
  {
    if ks == [] then []
    else (if IsArrayIndex(ks[0]) then [ks[0]] else []) + IndexKeys(ks[1..])
  }

  function NamedKeys(ks: seq<string>): (r: seq<string>)
    ensures forall k | k in r :: !IsArrayIndex(k)
  {
    if ks == [] then []
    else (if IsArrayIndex(ks[0]) then [] else [ks[0]]) + NamedKeys(ks[1..])
  }

  lemma {:induction false} SplitKeysIsPermutation(ks: seq<string>)
    ensures multiset(IndexKeys(ks)) + multiset(NamedKeys(ks)) == multiset(ks)
  {
    if ks != [] {
      SplitKeysIsPermutation(ks[1..]);
      assert ks == [ks[0]] + ks[1..];
    }
  }

  ghost predicate AscendingIndices(s: seq<string>) {
    forall i, j :: 0 <= i < j < |s| ==> IndexValue(s[i]) <= IndexValue(s[j])
  }

  function InsertByIndex(k: string, s: seq<string>): (r: seq<string>)
    ensures multiset(r) == multiset(s) + multiset{k}
  {
    if s == [] then [k]
    else if IndexValue(k) <= IndexValue(s[0]) then [k] + s
    else
      assert s == [s[0]] + s[1..];
      [s[0]] + InsertByIndex(k, s[1..])
  }

  /** Ascending numeric order of the array-index keys. */
  function SortByIndex(ks: seq<string>): (r: seq<string>)
    ensures multiset(r) == multiset(ks)
  {
    if ks == [] then []
    else
      assert ks == [ks[0]] + ks[1..];
      InsertByIndex(ks[0], SortByIndex(ks[1..]))
  }

  /** Putting a key in front of an ascending run of keys that are all at least as large keeps it ascending. */
  lemma ConsAscending(x: string, r: seq<string>)
    requires AscendingIndices(r)
    requires forall y | y in r :: IndexValue(x) <= IndexValue(y)
    ensures AscendingIndices([x] + r)
  {
    var out := [x] + r;
    forall i, j | 0 <= i < j < |out| ensures IndexValue(out[i]) <= IndexValue(out[j]) {
      assert out[j] == r[j - 1];
      if i > 0 {
        assert out[i] == r[i - 1];
      }
    }
  }

  /** Inserting never puts a key below a bound that the key and all of the run respect. */
  lemma InsertKeepsLowerBound(k: string, s: seq<string>, m: nat)
    requires IndexValue(k) >= m
    requires forall y | y in s :: IndexValue(y) >= m
    ensures forall y | y in InsertByIndex(k, s) :: IndexValue(y) >= m
  {
    forall y | y in InsertByIndex(k, s) ensures IndexValue(y) >= m {
      assert y in multiset(InsertByIndex(k, s));
      assert y in multiset(s) + multiset{k};
      if y != k {
        assert y in multiset(s);
      }
    }
  }

  lemma {:induction false} InsertKeepsAscending(k: string, s: seq<string>)
    requires AscendingIndices(s)
    ensures AscendingIndices(InsertByIndex(k, s))
  {
    if s == [] {
    } else if IndexValue(k) <= IndexValue(s[0]) {
      assert forall y | y in s :: IndexValue(k) <= IndexValue(y) by {
        forall y | y in s ensures IndexValue(k) <= IndexValue(y) {
          var t :| 0 <= t < |s| && s[t] == y;
          assert t == 0 || IndexValue(s[0]) <= IndexValue(s[t]);
        }
      }
      ConsAscending(k, s);
    } else {
      var tail := s[1..];
      assert AscendingIndices(tail) by {
        forall i, j | 0 <= i < j < |tail| ensures IndexValue(tail[i]) <= IndexValue(tail[j]) {
          assert tail[i] == s[i + 1] && tail[j] == s[j + 1];
        }
      }
      InsertKeepsAscending(k, tail);
      assert forall y | y in tail :: IndexValue(y) >= IndexValue(s[0]) by {
        forall y | y in tail ensures IndexValue(y) >= IndexValue(s[0]) {
          var t :| 0 <= t < |tail| && tail[t] == y;
          assert tail[t] == s[t + 1];
        }
      }
      InsertKeepsLowerBound(k, tail, IndexValue(s[0]));
      ConsAscending(s[0], InsertByIndex(k, tail));
    }
  }

  lemma {:induction false} SortIsAscending(ks: seq<string>)
    ensures AscendingIndices(SortByIndex(ks))
  {
    if ks != [] {
      SortIsAscending(ks[1..]);
      InsertKeepsAscending(ks[0], SortByIndex(ks[1..]));
    }
  }

  /** The order in which `Object.values` lists the entries created under keys `ks` (insertion order). */
  function ObjectKeyOrder(ks: seq<string>): seq<string> {
    SortByIndex(IndexKeys(ks)) + NamedKeys(ks)
  }

  lemma ObjectKeyOrderIsPermutation(ks: seq<string>)
    ensures multiset(ObjectKeyOrder(ks)) == multiset(ks)
    ensures Distinct(ks) ==> Distinct(ObjectKeyOrder(ks))
  {
    SplitKeysIsPermutation(ks);
    if Distinct(ks) {
      PermutationKeepsDistinct(ks, ObjectKeyOrder(ks));
    }
  }

  lemma {:induction false} NoIndexKeysKeepOrder(ks: seq<string>)
    requires forall k | k in ks :: !IsArrayIndex(k)
    ensures IndexKeys(ks) == [] && NamedKeys(ks) == ks
    ensures ObjectKeyOrder(ks) == ks
  {
    if ks != [] {
      NoIndexKeysKeepOrder(ks[1..]);
      assert ks == [ks[0]] + ks[1..];
    }
  }

  // ---------------------------------------------------------------------
  // The grouping as the reduce computes it, stated on prefixes

  /** The key of every NFT of `xs`, in input order. */
  function KeysOf(xs: seq<Nft>): seq<string> {
    if xs == [] then [] else KeysOf(xs[..|xs| - 1]) + [GroupKey(xs[|xs| - 1])]
  }

  /** The keys of `acc` in insertion order after reducing `xs`: each key where it first occurs. */
  function FirstSeen(xs: seq<Nft>): (ks: seq<string>)
    ensures forall k :: k in ks <==> k in KeysOf(xs)
  {
    if xs == [] then []
    else
      var ks := FirstSeen(xs[..|xs| - 1]);
      var k := GroupKey(xs[|xs| - 1]);
      if k in ks then ks else ks + [k]
  }

  /** The NFTs of `xs` whose key is `k`, in input order: what `acc[k].nfts` holds. */
  function Members(xs: seq<Nft>, k: string): seq<Nft> {
    if xs == [] then []
    else Members(xs[..|xs| - 1], k) + (if GroupKey(xs[|xs| - 1]) == k then [xs[|xs| - 1]] else [])
  }

  /** A key is first seen exactly when some NFT carries it; FirstSeen lists each key once. */
  lemma {:induction false} FirstSeenFacts(xs: seq<Nft>)
    ensures Distinct(FirstSeen(xs))
    ensures forall k | k !in FirstSeen(xs) :: Members(xs, k) == []
  {
    if xs != [] {
      FirstSeenFacts(xs[..|xs| - 1]);
    }
  }

  /** The entries `order[i]` of the dictionary, in that order. */
  function GroupsFor(xs: seq<Nft>, order: seq<string>): (gs: seq<Collection>)
    ensures |gs| == |order|
    ensures forall i | 0 <= i < |order| :: gs[i] == Collection(order[i], Members(xs, order[i]))
  {
    if order == [] then []
    else [Collection(order[0], Members(xs, order[0]))] + GroupsFor(xs, order[1..])
  }

  /**
   * What `groupNftsByCollection(nfts)` returns when it does not throw: []
   * for a missing list, otherwise one collection per distinct key, in
   * `Object.values` order.
   */
  function Grouped(nfts: Option<seq<Nft>>): seq<Collection> {
    match nfts
    case None => []
    case Some(xs) => GroupsFor(xs, ObjectKeyOrder(FirstSeen(xs)))
  }

  /** `Object.values(acc)`, for an `acc` holding every key of `order`. */
  function ObjectValues(order: seq<string>, acc: map<string, seq<Nft>>): (gs: seq<Collection>)
    requires forall k | k in order :: k in acc
    ensures |gs| == |order|
    ensures forall i | 0 <= i < |order| :: gs[i] == Collection(order[i], acc[order[i]])
  {
    if order == [] then []
    else [Collection(order[0], acc[order[0]])] + ObjectValues(order[1..], acc)
  }

  /** Reducing one more NFT appends its key if it is new, and grows only its own collection. */
  lemma PrefixStep(xs: seq<Nft>, i: nat)
    requires i < |xs|
    ensures FirstSeen(xs[..i + 1]) ==
      (if GroupKey(xs[i]) in FirstSeen(xs[..i]) then FirstSeen(xs[..i]) else FirstSeen(xs[..i]) + [GroupKey(xs[i])])
    ensures forall k :: Members(xs[..i + 1], k) == Members(xs[..i], k) + (if GroupKey(xs[i]) == k then [xs[i]] else [])
  {
    assert xs[..i + 1][..i] == xs[..i] && xs[..i + 1][i] == xs[i];
  }

  /** Every entry of the accumulator holds the members of its key among `xs`. */
  ghost predicate AccHoldsMembers(acc: map<string, seq<Nft>>, xs: seq<Nft>) {
    forall k | k in acc :: acc[k] == Members(xs, k)
  }

  /** `keys` and `acc` are what the reduce holds after the first `n` NFTs of `xs`. */
  ghost predicate Reduced(xs: seq<Nft>, n: nat, keys: seq<string>, acc: map<string, seq<Nft>>) {
    && n <= |xs|
    && keys == FirstSeen(xs[..n])
    && (forall k :: k in acc <==> k in keys)
    && AccHoldsMembers(acc, xs[..n])
  }

  /** One step of the reduce: a new key gets an empty entry, then the NFT is pushed onto its entry. */
  lemma ReduceStep(xs: seq<Nft>, i: nat, keys: seq<string>, acc: map<string, seq<Nft>>,
                   keys': seq<string>, acc': map<string, seq<Nft>>)
    requires i < |xs| && Reduced(xs, i, keys, acc)
    requires keys' == (if GroupKey(xs[i]) in acc then keys else keys + [GroupKey(xs[i])])
    requires acc' == acc[GroupKey(xs[i]) := (if GroupKey(xs[i]) in acc then acc[GroupKey(xs[i])] else []) + [xs[i]]]
    ensures Reduced(xs, i + 1, keys', acc')
  {
    var key := GroupKey(xs[i]);
    PrefixStep(xs, i);
    if key !in acc {
      FirstSeenFacts(xs[..i]);
    }
    forall k | k in acc' ensures acc'[k] == Members(xs[..i + 1], k) {
      if k != key {
        assert acc'[k] == acc[k];
      }
    }
  }

  /** After the whole list, `Object.values(acc)` is the grouping. */
  lemma ReducedValuesAreGrouped(xs: seq<Nft>, keys: seq<string>, acc: map<string, seq<Nft>>)
    requires Reduced(xs, |xs|, keys, acc)
    ensures forall k | k in ObjectKeyOrder(keys) :: k in acc
    ensures ObjectValues(ObjectKeyOrder(keys), acc) == Grouped(Some(xs))
  {
    assert xs[..|xs|] == xs;
    ObjectKeyOrderIsPermutation(keys);
    forall k | k in ObjectKeyOrder(keys) ensures k in acc {
      assert k in multiset(ObjectKeyOrder(keys));
    }
  }

  /** `Reduced`, and no key met so far names an inherited property. */
  ghost predicate ReducedOwnKeys(xs: seq<Nft>, n: nat, keys: seq<string>, acc: map<string, seq<Nft>>) {
    && Reduced(xs, n, keys, acc)
    && (forall k | k in acc :: k !in INHERITED_NAMES)
    && (forall j | 0 <= j < n :: GroupKey(xs[j]) !in INHERITED_NAMES)
  }

  lemma OwnKeysStep(xs: seq<Nft>, i: nat, keys: seq<string>, acc: map<string, seq<Nft>>,
                    keys': seq<string>, acc': map<string, seq<Nft>>)
    requires i < |xs| && ReducedOwnKeys(xs, i, keys, acc)
    requires GroupKey(xs[i]) !in INHERITED_NAMES
    requires keys' == (if GroupKey(xs[i]) in acc then keys else keys + [GroupKey(xs[i])])
    requires acc' == acc[GroupKey(xs[i]) := (if GroupKey(xs[i]) in acc then acc[GroupKey(xs[i])] else []) + [xs[i]]]
    ensures ReducedOwnKeys(xs, i + 1, keys', acc')
  {
    ReduceStep(xs, i, keys, acc, keys', acc');
  }

  lemma OwnKeysComplete(xs: seq<Nft>, keys: seq<string>, acc: map<string, seq<Nft>>)
    requires ReducedOwnKeys(xs, |xs|, keys, acc)
    ensures !HitsInheritedName(xs)
    ensures forall k | k in ObjectKeyOrder(keys) :: k in acc
    ensures ObjectValues(ObjectKeyOrder(keys), acc) == Grouped(Some(xs))
  {
    ReducedValuesAreGrouped(xs, keys, acc);
  }

  /**
   * The reduce of `groupNftsByCollection`, with `acc` as a dictionary
   * updated in place. None is the TypeError thrown for a key that names an
   * inherited property; otherwise the result is `Grouped(nfts)`.
   */
  method GroupNftsByCollection(nfts: Option<seq<Nft>>) returns (groups: Option<seq<Collection>>)
    ensures groups.None? <==> nfts.Some? && HitsInheritedName(nfts.value)
    ensures groups.Some? ==> groups.value == Grouped(nfts)
  {
    if nfts.None? {
      return Some([]);
    }
    var xs := nfts.value;
    var keys: seq<string> := [];
    var acc: map<string, seq<Nft>> := map[];
    var i := 0;
    while i < |xs|
      invariant ReducedOwnKeys(xs, i, keys, acc)
    {
      var key := GroupKey(xs[i]);
      ghost var keys0, acc0 := keys, acc;
      // `!acc[key]` is false for an own entry and for an inherited property alike
      if key !in acc && key !in INHERITED_NAMES {
        acc := acc[key := []];
        keys := keys + [key];
      }
      if key !in acc {
        // `acc[key]` is the inherited property, which has no `nfts` to push to
        assert HitsInheritedName(xs) by {
          assert GroupKey(xs[i]) in INHERITED_NAMES;
        }
        return None;
      }
      acc := acc[key := acc[key] + [xs[i]]];
      OwnKeysStep(xs, i, keys0, acc0, keys, acc);
      i := i + 1;
    }
    OwnKeysComplete(xs, keys, acc);
    groups := Some(ObjectValues(ObjectKeyOrder(keys), acc));
  }

  /** A collection named "constructor" makes the grouping throw; "Uncategorized" never does. */
  lemma InheritedNameExample(a: Nft, b: Nft)
    requires a.collectionName == Some("constructor")
    requires b.collectionName.None?
    ensures HitsInheritedName([b, a])
    ensures !HitsInheritedName([b, b])
  {
    assert GroupKey([b, a][1]) in INHERITED_NAMES;
  }

  // ---------------------------------------------------------------------
  // Properties of the grouping

  lemma {:induction false} MembersFacts(xs: seq<Nft>, k: string)
    ensures forall n | n in Members(xs, k) :: n in xs && GroupKey(n) == k
    ensures forall n | n in xs && GroupKey(n) == k :: n in Members(xs, k)
    ensures k in KeysOf(xs) ==> Members(xs, k) != []
  {
    if xs != [] {
      var ys := xs[..|xs| - 1];
      MembersFacts(ys, k);
      assert xs == ys + [xs[|xs| - 1]];
    }
  }

  lemma {:induction false} KeysOfCoversInput(xs: seq<Nft>)
    ensures forall n | n in xs :: GroupKey(n) in KeysOf(xs)
  {
    if xs != [] {
      var ys := xs[..|xs| - 1];
      KeysOfCoversInput(ys);
      assert xs == ys + [xs[|xs| - 1]];
    }
  }

  /** Collection names are pairwise distinct, and every collection holds an NFT. */
  lemma GroupedNamesDistinctNonEmpty(nfts: Option<seq<Nft>>)
    ensures forall i, j :: 0 <= i < j < |Grouped(nfts)| ==> Grouped(nfts)[i].name != Grouped(nfts)[j].name
    ensures forall i | 0 <= i < |Grouped(nfts)| :: Grouped(nfts)[i].nfts != []
  {
    if nfts.Some? {
      var xs := nfts.value;
      var order := ObjectKeyOrder(FirstSeen(xs));
      FirstSeenFacts(xs);
      ObjectKeyOrderIsPermutation(FirstSeen(xs));
      forall i | 0 <= i < |order| ensures Members(xs, order[i]) != [] {
        assert order[i] in multiset(FirstSeen(xs));
        MembersFacts(xs, order[i]);
      }
    }
  }

  /** The order of the collections: a repetition-free list of exactly the keys met. */
  lemma GroupedOrderFacts(xs: seq<Nft>)
    ensures Distinct(ObjectKeyOrder(FirstSeen(xs)))
    ensures forall k :: k in ObjectKeyOrder(FirstSeen(xs)) <==> k in KeysOf(xs)
  {
    FirstSeenFacts(xs);
    ObjectKeyOrderIsPermutation(FirstSeen(xs));
    forall k ensures k in ObjectKeyOrder(FirstSeen(xs)) <==> k in KeysOf(xs) {
      assert k in ObjectKeyOrder(FirstSeen(xs)) <==> k in multiset(FirstSeen(xs));
    }
  }

  /** Every NFT lands in the collection named by its key. */
  lemma GroupedPlacesEveryNft(xs: seq<Nft>, n: Nft)
    requires n in xs
    ensures exists i ::
              && 0 <= i < |Grouped(Some(xs))|
              && Grouped(Some(xs))[i].name == GroupKey(n)
              && n in Grouped(Some(xs))[i].nfts
  {
    var order := ObjectKeyOrder(FirstSeen(xs));
    GroupedOrderFacts(xs);
    KeysOfCoversInput(xs);
    var i :| 0 <= i < |order| && order[i] == GroupKey(n);
    MembersFacts(xs, GroupKey(n));
    assert Grouped(Some(xs))[i] == Collection(GroupKey(n), Members(xs, GroupKey(n)));
  }

  /** A collection holds only input NFTs that carry its name. */
  lemma GroupedHoldsOnlyItsKey(xs: seq<Nft>, i: nat, n: Nft)
    requires i < |Grouped(Some(xs))| && n in Grouped(Some(xs))[i].nfts
    ensures n in xs && GroupKey(n) == Grouped(Some(xs))[i].name
  {
    MembersFacts(xs, ObjectKeyOrder(FirstSeen(xs))[i]);
  }

  /** All collections concatenated, in order. */
  function Flatten(gs: seq<Collection>): seq<Nft> {
    if gs == [] then [] else gs[0].nfts + Flatten(gs[1..])
  }

  /** Appending one NFT grows only the collection of its own key. */
  lemma MembersSnoc(ys: seq<Nft>, x: Nft, k: string)
    ensures Members(ys + [x], k) == Members(ys, k) + (if GroupKey(x) == k then [x] else [])
  {
    assert (ys + [x])[..|ys + [x]| - 1] == ys;
  }

  lemma FlattenFirstGroup(xs: seq<Nft>, order: seq<string>)
    requires order != []
    ensures Flatten(GroupsFor(xs, order)) == Members(xs, order[0]) + Flatten(GroupsFor(xs, order[1..]))
  {
  }

  lemma DistinctHeadNotInTail<T>(s: seq<T>)
    requires Distinct(s) && s != []
    ensures Distinct(s[1..]) && s[0] !in s[1..]
    ensures forall y :: y in s <==> y == s[0] || y in s[1..]
  {
    forall j | 0 <= j < |s[1..]| ensures s[1..][j] != s[0] {
      assert s[1..][j] == s[j + 1];
    }
    assert s == [s[0]] + s[1..];
  }

  /** The multiset bookkeeping of one step of FlattenSnoc: `x` joins at most one of the two parts. */
  lemma SnocJoinsOnePart(a0: seq<Nft>, b0: seq<Nft>, a1: seq<Nft>, b1: seq<Nft>, x: Nft, inHead: bool, inTail: bool)
    requires a1 == a0 + (if inHead then [x] else [])
    requires multiset(b1) == multiset(b0) + (if inTail then multiset{x} else multiset{})
    requires !(inHead && inTail)
    ensures multiset(a1 + b1) == multiset(a0 + b0) + (if inHead || inTail then multiset{x} else multiset{})
  {
  }

  lemma {:induction false} FlattenSnoc(ys: seq<Nft>, x: Nft, order: seq<string>)
    requires Distinct(order)
    ensures multiset(Flatten(GroupsFor(ys + [x], order))) ==
      multiset(Flatten(GroupsFor(ys, order))) + (if GroupKey(x) in order then multiset{x} else multiset{})
  {
    if order != [] {
      var k, rest := order[0], order[1..];
      DistinctHeadNotInTail(order);
      FlattenSnoc(ys, x, rest);
      MembersSnoc(ys, x, k);
      FlattenFirstGroup(ys + [x], order);
      FlattenFirstGroup(ys, order);
      SnocJoinsOnePart(Members(ys, k), Flatten(GroupsFor(ys, rest)),
                       Members(ys + [x], k), Flatten(GroupsFor(ys + [x], rest)),
                       x, GroupKey(x) == k, GroupKey(x) in rest);
    }
  }

  lemma {:induction false} FlattenOfEmpty(order: seq<string>)
    ensures Flatten(GroupsFor([], order)) == []
  {
    if order != [] {
      FlattenOfEmpty(order[1..]);
    }
  }

  lemma {:induction false} FlattenIsPermutation(xs: seq<Nft>, order: seq<string>)
    requires Distinct(order)
    requires forall k | k in KeysOf(xs) :: k in order
    ensures multiset(Flatten(GroupsFor(xs, order))) == multiset(xs)
  {
    if xs == [] {
      FlattenOfEmpty(order);
    } else {
      var ys, x := xs[..|xs| - 1], xs[|xs| - 1];
      assert xs == ys + [x];
      assert KeysOf(xs) == KeysOf(ys) + [GroupKey(x)];
      assert GroupKey(x) in order && forall k | k in KeysOf(ys) :: k in order;
      FlattenIsPermutation(ys, order);
      FlattenSnoc(ys, x, order);
      assert multiset(xs) == multiset(ys) + multiset{x};
    }
  }

  /** The collections together hold exactly the input NFTs, so the count is preserved. */
  lemma GroupedKeepsEveryNft(xs: seq<Nft>)
    ensures multiset(Flatten(Grouped(Some(xs)))) == multiset(xs)
    ensures |Flatten(Grouped(Some(xs)))| == |xs|
  {
    var order := ObjectKeyOrder(FirstSeen(xs));
    FirstSeenFacts(xs);
    ObjectKeyOrderIsPermutation(FirstSeen(xs));
    forall k | k in KeysOf(xs) ensures k in order {
      assert k in multiset(order);
    }
    FlattenIsPermutation(xs, order);
    assert |multiset(Flatten(Grouped(Some(xs))))| == |multiset(xs)|;
  }

  /** The group list is empty exactly when the list is missing or empty. */
  lemma GroupedEmptyIff(nfts: Option<seq<Nft>>)
    ensures Grouped(nfts) == [] <==> nfts.None? || nfts.value == []
  {
    if nfts.Some? && nfts.value != [] {
      var xs := nfts.value;
      KeysOfCoversInput(xs);
      ObjectKeyOrderIsPermutation(FirstSeen(xs));
      assert GroupKey(xs[0]) in multiset(FirstSeen(xs));
    }
  }

  /** The first position of `k` in `ks`. */
  function FirstPosition(ks: seq<string>, k: string): (p: nat)
    requires k in ks
    ensures p < |ks| && ks[p] == k
  {
    if ks[0] == k then 0 else 1 + FirstPosition(ks[1..], k)
  }

  lemma {:induction false} FirstPositionSnoc(ks: seq<string>, x: string, k: string)
    requires k in ks + [x]
    ensures k in ks ==> FirstPosition(ks + [x], k) == FirstPosition(ks, k)
    ensures k !in ks ==> FirstPosition(ks + [x], k) == |ks|
  {
    if ks != [] && ks[0] != k {
      assert (ks + [x])[1..] == ks[1..] + [x];
      FirstPositionSnoc(ks[1..], x, k);
    }
  }

  /** `FirstSeen` lists the keys in the order of their first occurrence in the input. */
  lemma {:induction false} FirstSeenByFirstOccurrence(xs: seq<Nft>, a: nat, b: nat)
    requires a < b < |FirstSeen(xs)|
    ensures FirstPosition(KeysOf(xs), FirstSeen(xs)[a]) < FirstPosition(KeysOf(xs), FirstSeen(xs)[b])
  {
    var ys := xs[..|xs| - 1];
    var kl := GroupKey(xs[|xs| - 1]);
    var ka, kb := FirstSeen(xs)[a], FirstSeen(xs)[b];
    assert KeysOf(xs) == KeysOf(ys) + [kl];
    if b < |FirstSeen(ys)| {
      FirstSeenByFirstOccurrence(ys, a, b);
      FirstPositionSnoc(KeysOf(ys), kl, ka);
      FirstPositionSnoc(KeysOf(ys), kl, kb);
    } else {
      assert kb == kl && kl !in FirstSeen(ys) && ka in FirstSeen(ys);
      FirstPositionSnoc(KeysOf(ys), kl, ka);
      FirstPositionSnoc(KeysOf(ys), kl, kb);
    }
  }

  /**
   * When no collection name is an array index, the collections are listed
   * in the order in which their names first occur in the input.
   */
  lemma GroupedInFirstSeenOrder(xs: seq<Nft>)
    requires forall k | k in KeysOf(xs) :: !IsArrayIndex(k)
    ensures forall a, b | 0 <= a < b < |Grouped(Some(xs))| ::
      && Grouped(Some(xs))[a].name in KeysOf(xs)
      && Grouped(Some(xs))[b].name in KeysOf(xs)
      && FirstPosition(KeysOf(xs), Grouped(Some(xs))[a].name) < FirstPosition(KeysOf(xs), Grouped(Some(xs))[b].name)
  {
    var ks := FirstSeen(xs);
    NoIndexKeysKeepOrder(ks);
    forall a, b | 0 <= a < b < |Grouped(Some(xs))|
      ensures Grouped(Some(xs))[a].name in KeysOf(xs) && Grouped(Some(xs))[b].name in KeysOf(xs)
      ensures FirstPosition(KeysOf(xs), Grouped(Some(xs))[a].name) < FirstPosition(KeysOf(xs), Grouped(Some(xs))[b].name)
    {
      GroupedNamesInFirstSeen(xs, a, b);
    }
  }

  /** One pair of collections, listed in `FirstSeen` order. */
  lemma GroupedNamesInFirstSeen(xs: seq<Nft>, a: nat, b: nat)
    requires ObjectKeyOrder(FirstSeen(xs)) == FirstSeen(xs)
    requires a < b < |Grouped(Some(xs))|
    ensures Grouped(Some(xs))[a].name in KeysOf(xs) && Grouped(Some(xs))[b].name in KeysOf(xs)
    ensures FirstPosition(KeysOf(xs), Grouped(Some(xs))[a].name) < FirstPosition(KeysOf(xs), Grouped(Some(xs))[b].name)
  {
    var ks := FirstSeen(xs);
    assert Grouped(Some(xs))[a].name == ks[a] && Grouped(Some(xs))[b].name == ks[b];
    FirstSeenByFirstOccurrence(xs, a, b);
  }

  /**
   * Collections whose name is an array index come first, in ascending
   * numeric order, ahead of every other collection.
   */
  lemma GroupedIndexNamesFirst(xs: seq<Nft>)
    ensures forall a, b | 0 <= a < b < |Grouped(Some(xs))| && IsArrayIndex(Grouped(Some(xs))[b].name) ::
      && IsArrayIndex(Grouped(Some(xs))[a].name)
      && DigitsValue(Grouped(Some(xs))[a].name) <= DigitsValue(Grouped(Some(xs))[b].name)
  {
    var ks := FirstSeen(xs);
    var sorted := SortByIndex(IndexKeys(ks));
    var order := ObjectKeyOrder(ks);
    SortIsAscending(IndexKeys(ks));
    forall i | 0 <= i < |sorted| ensures IsArrayIndex(sorted[i]) {
      assert sorted[i] in multiset(IndexKeys(ks));
    }
    forall a, b | 0 <= a < b < |order| && IsArrayIndex(order[b])
      ensures IsArrayIndex(order[a]) && DigitsValue(order[a]) <= DigitsValue(order[b])
    {
    }
  }

  /** A worked example: A and B in "X", C without a collection. */
  lemma GroupingExample(a: Nft, b: Nft, c: Nft)
    requires a.collectionName == Some("X") && b.collectionName == Some("X") && c.collectionName == None
    ensures Grouped(Some([a, b, c])) == [Collection("X", [a, b]), Collection(UNCATEGORIZED, [c])]
  {
    var xs := [a, b, c];
    var order := ["X", UNCATEGORIZED];
    ExampleKeys(a, b, c);
    assert ObjectKeyOrder(order) == order by {
      assert !IsArrayIndex("X") by { assert !IsDigit("X"[0]); }
      assert !IsArrayIndex(UNCATEGORIZED) by { assert !IsDigit(UNCATEGORIZED[0]); }
      NoIndexKeysKeepOrder(order);
    }
    ExampleMembers(a, b, c);
    assert GroupsFor(xs, order) == [Collection("X", [a, b]), Collection(UNCATEGORIZED, [c])];
  }

  /** The keys and the members behind the example above. */
  lemma ExampleKeys(a: Nft, b: Nft, c: Nft)
    requires a.collectionName == Some("X") && b.collectionName == Some("X") && c.collectionName == None
    ensures FirstSeen([a, b, c]) == ["X", UNCATEGORIZED]
  {
    assert [a, b, c][..2] == [a, b] && [a, b][..1] == [a] && [a][..0] == [];
    assert FirstSeen([a]) == ["X"];
    assert FirstSeen([a, b]) == ["X"];
  }

  lemma ExampleMembers(a: Nft, b: Nft, c: Nft)
    requires a.collectionName == Some("X") && b.collectionName == Some("X") && c.collectionName == None
    ensures Members([a, b, c], "X") == [a, b] && Members([a, b, c], UNCATEGORIZED) == [c]
  {
    assert [a, b, c][..2] == [a, b] && [a, b][..1] == [a] && [a][..0] == [];
    assert Members([a], "X") == [a] && Members([a], UNCATEGORIZED) == [];
    assert Members([a, b], "X") == [a, b] && Members([a, b], UNCATEGORIZED) == [];
  }
}
