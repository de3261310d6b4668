/** The chained hash map `yb_hash_map_t` of the support library: an array of
    bucket chains whose length is a power of two, and an element count.

    A chain is modelled as the sequence of its entries from the bucket head
    on; relinking a chain is reassigning that array slot. The hash function
    (murmurhash in the source) is a parameter of the map, fixed when the map
    is created. A bucket index is `hash mod length`, which for the
    power-of-two lengths the map keeps is the `hash & (length - 1)` of the
    source. Keys and values are stored as the byte contents of the copies
    the map makes. */
module YbHashMap {
  import opened Base
  import opened YbString

  datatype Entry = Entry(key: Bytes, value: Bytes, hash: bv32)

  /** The element count stays below 2^30: beyond that the int32 arithmetic of
      the source (doubling the bucket count) would overflow. */
  const MaxElems: int := 0x4000_0000

  function Bucket(h: bv32, len: nat): (b: nat)
    requires len > 0
    ensures b < len
  {
    (h as int) % len
  }

  predicate IsPow2(n: nat)
  {
    n == 1 || (n > 1 && n % 2 == 0 && IsPow2(n / 2))
  }

  /** The bucket count the resize picks: the smallest power of two that is at
      least 4 and not below the element count. */
  predicate IsNewLength(n: nat, elems: int)
  {
    IsPow2(n) && n >= 4 && n >= elems && (n == 4 || n / 2 < elems)
  }

  function NewLengthFrom(n: nat, elems: int): (r: nat)
    requires n >= 4 && IsPow2(n) && (n == 4 || n / 2 < elems)
    ensures IsNewLength(r, elems)
    decreases elems - n
  {
    if n >= elems then n else NewLengthFrom(2 * n, elems)
  }

  function NewLength(elems: int): (r: nat)
    ensures IsNewLength(r, elems)
  {
    NewLengthFrom(4, elems)
  }

  lemma {:induction false} Pow2Double(n: nat)
    requires IsPow2(n)
    ensures IsPow2(2 * n)
  {
    assert (2 * n) / 2 == n;
  }

  lemma {:induction false} Pow2Order(a: nat, b: nat)
    requires IsPow2(a) && IsPow2(b) && a < b
    ensures 2 * a <= b
    decreases b
  {
    if a > 1 {
      Pow2Order(a / 2, b / 2);
    }
  }

  /** The new bucket count is determined by the element count. */
  lemma NewLengthUnique(a: nat, b: nat, elems: int)
    requires IsNewLength(a, elems) && IsNewLength(b, elems)
    ensures a == b
  {
    if a < b {
      Pow2Order(a, b);
    } else if b < a {
      Pow2Order(b, a);
    }
  }

  // ---------------------------------------------------------------------
  // Bucket arrays as values

  /** All entries, bucket by bucket, each chain from its head: the order in
      which the resize visits them. */
  function Flatten(s: seq<seq<Entry>>): seq<Entry>
  {
    if s == [] then [] else Flatten(s[..|s| - 1]) + s[|s| - 1]
  }

  /** The entries as a multiset. */
  function AllEntries(s: seq<seq<Entry>>): multiset<Entry>
  {
    if s == [] then multiset{} else AllEntries(s[..|s| - 1]) + multiset(s[|s| - 1])
  }

  lemma {:induction false} FlattenEntries(s: seq<seq<Entry>>)
    ensures multiset(Flatten(s)) == AllEntries(s)
    decreases |s|
  {
    if s != [] {
      FlattenEntries(s[..|s| - 1]);
    }
  }

  /** Replacing one chain replaces its entries in the multiset. */
  lemma {:induction false} AllEntriesUpdate(s: seq<seq<Entry>>, b: nat, v: seq<Entry>)
    requires b < |s|
    ensures AllEntries(s[b := v]) + multiset(s[b]) == AllEntries(s) + multiset(v)
    decreases |s|
  {
    var n := |s| - 1;
    var t := s[b := v];
    if b == n {
      assert t[..n] == s[..n];
    } else {
      var p := s[..n];
      assert t[..n] == p[b := v];
      assert t[n] == s[n] && p[b] == s[b];
      AllEntriesUpdate(p, b, v);
      calc {
        AllEntries(t) + multiset(s[b]);
        AllEntries(p[b := v]) + multiset(s[n]) + multiset(s[b]);
        (AllEntries(p[b := v]) + multiset(p[b])) + multiset(s[n]);
        (AllEntries(p) + multiset(v)) + multiset(s[n]);
        AllEntries(s) + multiset(v);
      }
    }
  }

  lemma MultisetCancel<T>(a: multiset<T>, b: multiset<T>, c: multiset<T>)
    requires a + c == b + c
    ensures a == b
  {
    forall x
      ensures a[x] == b[x]
    {
      assert (a + c)[x] == (b + c)[x];
    }
  }

  lemma MultisetExchange<T>(a: multiset<T>, b: multiset<T>, mc: multiset<T>, mv: multiset<T>, x: T, y: T)
    requires a + mc == b + mv && mv + multiset{x} == mc + multiset{y}
    ensures a + multiset{x} == b + multiset{y}
  {
    forall z
      ensures (a + multiset{x})[z] == (b + multiset{y})[z]
    {
      assert (a + mc)[z] == (b + mv)[z];
      assert (mv + multiset{x})[z] == (mc + multiset{y})[z];
    }
  }

  /** Every entry sits in the bucket its hash selects. */
  predicate Placed(s: seq<seq<Entry>>)
  {
    forall b, k :: 0 <= b < |s| && 0 <= k < |s[b]| ==> Bucket(s[b][k].hash, |s|) == b
  }

  /** `len` empty chains. */
  function EmptyBuckets(len: nat): (s: seq<seq<Entry>>)
    ensures |s| == len && forall b :: 0 <= b < len ==> s[b] == []
  {
    seq(len, _ => [])
  }

  lemma {:induction false} EmptyBucketsHaveNoEntries(len: nat)
    ensures AllEntries(EmptyBuckets(len)) == multiset{}
    decreases len
  {
    if len > 0 {
      assert EmptyBuckets(len)[..len - 1] == EmptyBuckets(len - 1);
      EmptyBucketsHaveNoEntries(len - 1);
    }
  }

  /** One step of the resize: the entry becomes the head of its bucket. */
  function Push(s: seq<seq<Entry>>, e: Entry): (r: seq<seq<Entry>>)
    requires |s| > 0
    ensures |r| == |s|
  {
    var b := Bucket(e.hash, |s|);
    s[b := [e] + s[b]]
  }

  /** The resize: every entry, in visiting order, pushed onto the front of its
      new bucket. */
  function PushAll(s: seq<seq<Entry>>, es: seq<Entry>): (r: seq<seq<Entry>>)
    requires |s| > 0
    ensures |r| == |s|
  {
    if es == [] then s else Push(PushAll(s, es[..|es| - 1]), es[|es| - 1])
  }

  lemma PushAllSnoc(s: seq<seq<Entry>>, es: seq<Entry>, e: Entry)
    requires |s| > 0
    ensures PushAll(s, es + [e]) == Push(PushAll(s, es), e)
  {
    assert (es + [e])[..|es|] == es;
  }

  /** The resize keeps every entry in the right bucket. */
  lemma {:induction false} PushAllPlaced(s: seq<seq<Entry>>, es: seq<Entry>)
    requires |s| > 0 && Placed(s)
    ensures Placed(PushAll(s, es))
    decreases |es|
  {
    if es != [] {
      PushAllPlaced(s, es[..|es| - 1]);
      var t := PushAll(s, es[..|es| - 1]);
      var e := es[|es| - 1];
      var r: seq<seq<Entry>> := Push(t, e);
      forall b: int, k: int | 0 <= b < |r| && 0 <= k < |r[b]|
        ensures Bucket(r[b][k].hash, |r|) == b
      {
        if b == Bucket(e.hash, |t|) && k > 0 {
          assert r[b][k] == t[b][k - 1];
        }
      }
    }
  }

  /** One push adds exactly its entry. */
  lemma PushEntries(t: seq<seq<Entry>>, e: Entry)
    requires |t| > 0
    ensures AllEntries(Push(t, e)) == AllEntries(t) + multiset{e}
  {
    var b := Bucket(e.hash, |t|);
    var c := t[b];
    var A := AllEntries(t[b := [e] + c]);
    AllEntriesUpdate(t, b, [e] + c);
    assert multiset([e] + c) == multiset{e} + multiset(c);
    assert A + multiset(c) == AllEntries(t) + multiset{e} + multiset(c);
    MultisetCancel(A, AllEntries(t) + multiset{e}, multiset(c));
    assert Push(t, e) == t[b := [e] + c];
  }

  /** The resize neither loses nor duplicates an entry. */
  lemma {:induction false} PushAllEntries(s: seq<seq<Entry>>, es: seq<Entry>)
    requires |s| > 0
    ensures AllEntries(PushAll(s, es)) == AllEntries(s) + multiset(es)
    decreases |es|
  {
    if es != [] {
      var init, e := es[..|es| - 1], es[|es| - 1];
      assert es == init + [e];
      calc {
        AllEntries(PushAll(s, es));
        AllEntries(Push(PushAll(s, init), e));
      == { PushEntries(PushAll(s, init), e); }
        AllEntries(PushAll(s, init)) + multiset{e};
      == { PushAllEntries(s, init); }
        AllEntries(s) + multiset(init) + multiset{e};
      == { assert multiset(es) == multiset(init) + multiset{e}; }
        AllEntries(s) + multiset(es);
      }
    }
  }

  /** What the resize of a bucket array yields: a freshly sized array whose
      buckets hold exactly the old entries, each where its hash puts it. */
  lemma RehashCorrect(old_: seq<seq<Entry>>, len: nat)
    requires len > 0
    ensures Placed(PushAll(EmptyBuckets(len), Flatten(old_)))
    ensures AllEntries(PushAll(EmptyBuckets(len), Flatten(old_))) == AllEntries(old_)
  {
    PushAllPlaced(EmptyBuckets(len), Flatten(old_));
    PushAllEntries(EmptyBuckets(len), Flatten(old_));
    EmptyBucketsHaveNoEntries(len);
    FlattenEntries(old_);
  }

  // ---------------------------------------------------------------------
  // Lookup

  predicate Matches(e: Entry, key: Bytes, h: bv32)
  {
    e.hash == h && e.key == key
  }

  /** The position find_pointer stops at: the first entry of the chain whose
      hash and key both match, or the end of the chain. */
  function FirstMatch(chain: seq<Entry>, key: Bytes, h: bv32): (i: nat)
    ensures i <= |chain|
    ensures forall j :: 0 <= j < i ==> !Matches(chain[j], key, h)
    ensures i < |chain| ==> Matches(chain[i], key, h)
  {
    if chain == [] then 0
    else if Matches(chain[0], key, h) then 0
    else 1 + FirstMatch(chain[1..], key, h)
  }

  /** The value stored for `key` in a bucket array, or None. */
  function Lookup(s: seq<seq<Entry>>, hashFn: Bytes -> bv32, key: Bytes): Option<Bytes>
    requires |s| > 0
  {
    var h := hashFn(key);
    var chain := s[Bucket(h, |s|)];
    var i := FirstMatch(chain, key, h);
    if i < |chain| then Some(chain[i].value) else None
  }

  /** No entry stores a non-empty key. */
  predicate AllKeysEmpty(s: seq<seq<Entry>>)
  {
    forall b, k :: 0 <= b < |s| && 0 <= k < |s[b]| ==> s[b][k].key == []
  }

  /** With the copying constructor as written every stored key is empty, so
      no non-empty key is ever found. */
  lemma NonEmptyKeyNeverFound(s: seq<seq<Entry>>, hashFn: Bytes -> bv32, key: Bytes)
    requires |s| > 0 && AllKeysEmpty(s) && key != []
    ensures Lookup(s, hashFn, key) == None
  {
  }

  lemma {:induction false} PushAllKeysEmpty(s: seq<seq<Entry>>, es: seq<Entry>)
    requires |s| > 0 && AllKeysEmpty(s)
    requires forall k :: 0 <= k < |es| ==> es[k].key == []
    ensures AllKeysEmpty(PushAll(s, es))
    decreases |es|
  {
    if es != [] {
      PushAllKeysEmpty(s, es[..|es| - 1]);
      var t := PushAll(s, es[..|es| - 1]);
      var r: seq<seq<Entry>> := Push(t, es[|es| - 1]);
      forall b: int, k: int | 0 <= b < |r| && 0 <= k < |r[b]|
        ensures r[b][k].key == []
      {
        if b == Bucket(es[|es| - 1].hash, |t|) && k > 0 {
          assert r[b][k] == t[b][k - 1];
        }
      }
    }
  }

  lemma {:induction false} FlattenKeysEmpty(s: seq<seq<Entry>>)
    requires AllKeysEmpty(s)
    ensures forall k :: 0 <= k < |Flatten(s)| ==> Flatten(s)[k].key == []
    decreases |s|
  {
    if s != [] {
      var init := s[..|s| - 1];
      assert AllKeysEmpty(init) by {
        forall b: int, k: int | 0 <= b < |init| && 0 <= k < |init[b]|
          ensures init[b][k].key == []
        {
          assert init[b] == s[b];
        }
      }
      FlattenKeysEmpty(init);
    }
  }

  // ---------------------------------------------------------------------
  // Insert and remove on bucket arrays

  /** The chain after an insert: the first matching entry is replaced in its
      place, or the new entry is appended at the end. */
  function InsertChain(chain: seq<Entry>, key: Bytes, e: Entry): (r: seq<Entry>)
  {
    var i := FirstMatch(chain, key, e.hash);
    if i < |chain| then chain[i := e] else chain + [e]
  }

  /** The buckets after an insert, before any resize. */
  function InsertBuckets(s: seq<seq<Entry>>, key: Bytes, e: Entry): (r: seq<seq<Entry>>)
    requires |s| > 0
    ensures |r| == |s|
  {
    var b := Bucket(e.hash, |s|);
    s[b := InsertChain(s[b], key, e)]
  }

  /** True when the insert adds an entry rather than replacing one. */
  predicate InsertAdds(s: seq<seq<Entry>>, key: Bytes, h: bv32)
    requires |s| > 0
  {
    var chain := s[Bucket(h, |s|)];
    FirstMatch(chain, key, h) == |chain|
  }

  /** The entries after an insert: one more when it adds, otherwise the old
      entry exchanged for the new one. */
  lemma InsertBucketsEntries(s: seq<seq<Entry>>, key: Bytes, e: Entry)
    requires |s| > 0
    ensures InsertAdds(s, key, e.hash) ==>
      AllEntries(InsertBuckets(s, key, e)) == AllEntries(s) + multiset{e}
    ensures !InsertAdds(s, key, e.hash) ==>
      var chain := s[Bucket(e.hash, |s|)];
      AllEntries(InsertBuckets(s, key, e)) + multiset{chain[FirstMatch(chain, key, e.hash)]} ==
        AllEntries(s) + multiset{e}
  {
    var b := Bucket(e.hash, |s|);
    var i := FirstMatch(s[b], key, e.hash);
    if i < |s[b]| {
      ReplaceEntries(s, b, i, e);
    } else {
      AppendEntries(s, b, e);
    }
  }

  lemma ReplaceEntries(s: seq<seq<Entry>>, b: nat, i: nat, e: Entry)
    requires b < |s| && i < |s[b]|
    ensures AllEntries(s[b := s[b][i := e]]) + multiset{s[b][i]} == AllEntries(s) + multiset{e}
  {
    var chain := s[b];
    var v := chain[i := e];
    AllEntriesUpdate(s, b, v);
    SeqUpdateEntries(chain, i, e);
    MultisetExchange(AllEntries(s[b := v]), AllEntries(s), multiset(chain), multiset(v), chain[i], e);
  }

  lemma SeqUpdateEntries<T>(c: seq<T>, i: nat, e: T)
    requires i < |c|
    ensures multiset(c[i := e]) + multiset{c[i]} == multiset(c) + multiset{e}
  {
    assert c == c[..i] + [c[i]] + c[i + 1..];
    assert c[i := e] == c[..i] + [e] + c[i + 1..];
  }

  lemma AppendEntries(s: seq<seq<Entry>>, b: nat, e: Entry)
    requires b < |s|
    ensures AllEntries(s[b := s[b] + [e]]) == AllEntries(s) + multiset{e}
  {
    var chain := s[b];
    var v := chain + [e];
    AllEntriesUpdate(s, b, v);
    assert multiset(v) == multiset(chain) + multiset{e};
    MultisetCancel(AllEntries(s[b := v]), AllEntries(s) + multiset{e}, multiset(chain));
  }

  lemma InsertBucketsPlaced(s: seq<seq<Entry>>, key: Bytes, e: Entry)
    requires |s| > 0 && Placed(s)
    ensures Placed(InsertBuckets(s, key, e))
  {
    var r: seq<seq<Entry>> := InsertBuckets(s, key, e);
    var b := Bucket(e.hash, |s|);
    forall c: int, k: int | 0 <= c < |r| && 0 <= k < |r[c]|
      ensures Bucket(r[c][k].hash, |r|) == c
    {
      if c == b && k < |s[b]| && r[c][k] != e {
        assert r[c][k] == s[b][k];
      }
    }
  }

  /** The chain after a remove: the first matching entry unlinked. */
  function RemoveChain(chain: seq<Entry>, key: Bytes, h: bv32): (r: seq<Entry>)
  {
    var i := FirstMatch(chain, key, h);
    if i < |chain| then chain[..i] + chain[i + 1..] else chain
  }

  function RemoveBuckets(s: seq<seq<Entry>>, key: Bytes, h: bv32): (r: seq<seq<Entry>>)
    requires |s| > 0
    ensures |r| == |s|
  {
    var b := Bucket(h, |s|);
    s[b := RemoveChain(s[b], key, h)]
  }

  /** A remove takes out exactly the entry that was found, and nothing when
      none was. */
  lemma RemoveBucketsEntries(s: seq<seq<Entry>>, key: Bytes, h: bv32)
    requires |s| > 0
    ensures InsertAdds(s, key, h) ==> RemoveBuckets(s, key, h) == s
    ensures !InsertAdds(s, key, h) ==>
      var chain := s[Bucket(h, |s|)];
      AllEntries(RemoveBuckets(s, key, h)) + multiset{chain[FirstMatch(chain, key, h)]} == AllEntries(s)
  {
    var b := Bucket(h, |s|);
    var chain := s[b];
    var i := FirstMatch(chain, key, h);
    if i < |chain| {
      var v := RemoveChain(chain, key, h);
      AllEntriesUpdate(s, b, v);
      assert chain == chain[..i] + [chain[i]] + chain[i + 1..];
      assert multiset(chain) == multiset(v) + multiset{chain[i]};
      var t := AllEntries(s[b := v]);
      assert (t + multiset{chain[i]}) + multiset(v) == AllEntries(s) + multiset(v);
      MultisetCancel(t + multiset{chain[i]}, AllEntries(s), multiset(v));
    } else {
      assert s[b := chain] == s;
    }
  }

  /** A remove that finds its entry leaves one entry fewer. */
  lemma RemoveBucketsCount(s: seq<seq<Entry>>, key: Bytes, h: bv32)
    requires |s| > 0
    ensures InsertAdds(s, key, h) ==> RemoveBuckets(s, key, h) == s
    ensures !InsertAdds(s, key, h) ==> |AllEntries(RemoveBuckets(s, key, h))| == |AllEntries(s)| - 1
  {
    RemoveBucketsEntries(s, key, h);
  }

  lemma RemoveBucketsPlaced(s: seq<seq<Entry>>, key: Bytes, h: bv32)
    requires |s| > 0 && Placed(s)
    ensures Placed(RemoveBuckets(s, key, h))
  {
    var r: seq<seq<Entry>> := RemoveBuckets(s, key, h);
    var b := Bucket(h, |s|);
    var i := FirstMatch(s[b], key, h);
    forall c: int, k: int | 0 <= c < |r| && 0 <= k < |r[c]|
      ensures Bucket(r[c][k].hash, |r|) == c
    {
      if c == b && i < |s[b]| {
        assert r[c][k] == if k < i then s[b][k] else s[b][k + 1];
      }
    }
  }

  /** After an insert of `e` under its own key the key is found with e's
      value: directly when the entry replaced a match, and after a resize
      as well, because an added key had no match anywhere before. */
  lemma {:induction false} LookupAfterInsert(s: seq<seq<Entry>>, hashFn: Bytes -> bv32, e: Entry, len: nat)
    requires |s| > 0 && Placed(s) && e.hash == hashFn(e.key) && len > 0
    ensures Lookup(InsertBuckets(s, e.key, e), hashFn, e.key) == Some(e.value)
    ensures InsertAdds(s, e.key, e.hash) ==>
      Lookup(PushAll(EmptyBuckets(len), Flatten(InsertBuckets(s, e.key, e))), hashFn, e.key) == Some(e.value)
  {
    var key, h := e.key, e.hash;
    var b := Bucket(h, |s|);
    var chain := s[b];
    var i := FirstMatch(chain, key, h);
    var t := InsertBuckets(s, key, e);
    var chain' := t[b];
    if i < |chain| {
      assert chain' == chain[i := e];
      assert FirstMatch(chain', key, h) == i by {
        FirstMatchAt(chain', key, h, i);
      }
    } else {
      assert chain' == chain + [e];
      FirstMatchAt(chain', key, h, |chain|);
      // e is the only entry of t that matches.
      InsertBucketsPlaced(s, key, e);
      InsertBucketsEntries(s, key, e);
      forall x | x in AllEntries(t) && Matches(x, key, h)
        ensures x == e
      {
        if x != e {
          assert x in AllEntries(s);
          OnlyMatchesInBucket(s, x, key, h);
        }
      }
      var r := PushAll(EmptyBuckets(len), Flatten(t));
      RehashCorrect(t, len);
      assert e in AllEntries(r);
      EntryInItsBucket(r, e);
      var rb := r[Bucket(h, len)];
      var j := FirstMatch(rb, key, h);
      assert e in rb;
      FirstMatchFinds(rb, key, h, e);
      InChainInEntries(r, Bucket(h, len), j);
      assert rb[j] == e;
    }
  }

  /** The same, for whichever of the two shapes an insert leaves. */
  lemma LookupAfterInsertState(s: seq<seq<Entry>>, hashFn: Bytes -> bv32, e: Entry, r: seq<seq<Entry>>)
    requires |s| > 0 && Placed(s) && e.hash == hashFn(e.key)
    requires r == InsertBuckets(s, e.key, e) ||
      (InsertAdds(s, e.key, e.hash) && |r| > 0 && r == PushAll(EmptyBuckets(|r|), Flatten(InsertBuckets(s, e.key, e))))
    ensures |r| > 0 && Lookup(r, hashFn, e.key) == Some(e.value)
  {
    LookupAfterInsert(s, hashFn, e, |r|);
  }

  /** The first match is at `i` when `i` matches and nothing before it does. */
  lemma {:induction false} FirstMatchAt(chain: seq<Entry>, key: Bytes, h: bv32, i: nat)
    requires i < |chain| && Matches(chain[i], key, h)
    requires forall j :: 0 <= j < i ==> !Matches(chain[j], key, h)
    ensures FirstMatch(chain, key, h) == i
  {
  }

  /** A chain that holds a matching entry has a first match. */
  lemma FirstMatchFinds(chain: seq<Entry>, key: Bytes, h: bv32, e: Entry)
    requires e in chain && Matches(e, key, h)
    ensures FirstMatch(chain, key, h) < |chain|
  {
    var k :| 0 <= k < |chain| && chain[k] == e;
  }

  lemma {:induction false} InChainInEntries(s: seq<seq<Entry>>, b: nat, k: nat)
    requires b < |s| && k < |s[b]|
    ensures s[b][k] in AllEntries(s)
    decreases |s|
  {
    if b < |s| - 1 {
      assert s[..|s| - 1][b] == s[b];
      InChainInEntries(s[..|s| - 1], b, k);
    }
  }

  lemma {:induction false} InEntriesInChain(s: seq<seq<Entry>>, e: Entry) returns (b: nat, k: nat)
    requires e in AllEntries(s)
    ensures b < |s| && k < |s[b]| && s[b][k] == e
    decreases |s|
  {
    var n := |s| - 1;
    if e in multiset(s[n]) {
      b := n;
      k :| 0 <= k < |s[n]| && s[n][k] == e;
    } else {
      b, k := InEntriesInChain(s[..n], e);
    }
  }

  /** In a placed array an entry is in the chain of its own bucket. */
  lemma EntryInItsBucket(s: seq<seq<Entry>>, e: Entry)
    requires |s| > 0 && Placed(s) && e in AllEntries(s)
    ensures e in s[Bucket(e.hash, |s|)]
  {
    var b, k := InEntriesInChain(s, e);
  }

  /** In a placed array, a key with no match in its bucket has no match at
      all. */
  lemma OnlyMatchesInBucket(s: seq<seq<Entry>>, x: Entry, key: Bytes, h: bv32)
    requires |s| > 0 && Placed(s) && x in AllEntries(s) && Matches(x, key, h)
    ensures FirstMatch(s[Bucket(h, |s|)], key, h) < |s[Bucket(h, |s|)]|
  {
    EntryInItsBucket(s, x);
    FirstMatchFinds(s[Bucket(h, |s|)], key, h, x);
  }

  // ---------------------------------------------------------------------
  // The map object

  class HashMap {
    /** murmurhash(key, len, 0), as an uninterpreted function. */
    const hashFn: Bytes -> bv32
    /** The bucket chains; head.Length is head_length. */
    var head: array<seq<Entry>>
    var elems: int

    /** The map's invariant: a power-of-two bucket count of at least 4, every
        entry in its hash's bucket, `elems` counting the entries, and no more
        entries than buckets (the resize restores that after each insert). */
    predicate Valid()
      reads this, head
    {
      IsPow2(head.Length) && head.Length >= 4 &&
      Placed(head[..]) &&
      elems == |AllEntries(head[..])| &&
      0 <= elems <= head.Length && elems <= MaxElems
    }

    /** yb_hash_map_new: no entries, four empty buckets. */
    constructor (hashFn: Bytes -> bv32)
      ensures Valid() && fresh(head)
      ensures this.hashFn == hashFn && elems == 0
      ensures head[..] == EmptyBuckets(4)
    {
      this.hashFn := hashFn;
      head := new seq<Entry>[0];
      elems := 0;
      new;
      Resize();
      EmptyBucketsHaveNoEntries(4);
      assert head[..] == PushAll(EmptyBuckets(4), []);
    }

    /** yb_hash_map_resize: a fresh bucket array of the new length, filled by
        pushing every entry, in visiting order, to the front of its new
        bucket. */
    method Resize()
      requires elems == |AllEntries(head[..])|
      modifies this
      ensures fresh(head) && head.Length == NewLength(elems)
      ensures head[..] == PushAll(EmptyBuckets(head.Length), Flatten(old(head[..])))
      ensures elems == old(elems)
    {
      var newLength := 4;
      while newLength < elems
        modifies {}
        invariant newLength >= 4 && IsPow2(newLength) && (newLength == 4 || newLength / 2 < elems)
        decreases elems - newLength
      {
        Pow2Double(newLength);
        newLength := newLength * 2;
      }
      NewLengthUnique(newLength, NewLength(elems), elems);
      var newHead, count := Relink(head, newLength);
      FlattenEntries(head[..]);
      assert |multiset(Flatten(head[..]))| == |Flatten(head[..])|;
      assert elems == count;
      head := newHead;
    }

    /** The relinking loops of the resize: every chain of `oldHead`, from its
        head on, pushed entry by entry onto the new buckets; `count` is the
        number of entries moved. */
    static method Relink(oldHead: array<seq<Entry>>, newLength: nat) returns (newHead: array<seq<Entry>>, count: nat)
      requires newLength > 0
      ensures fresh(newHead) && newHead.Length == newLength
      ensures newHead[..] == PushAll(EmptyBuckets(newLength), Flatten(oldHead[..]))
      ensures count == |Flatten(oldHead[..])|
    {
      newHead := new seq<Entry>[newLength](_ => []);
      assert newHead[..] == EmptyBuckets(newLength);
      ghost var s := oldHead[..];
      assert s[..0] == [];
      count := 0;
      for i := 0 to oldHead.Length
        modifies newHead
        invariant newHead[..] == PushAll(EmptyBuckets(newLength), Flatten(s[..i]))
        invariant count == |Flatten(s[..i])|
      {
        var chain := oldHead[i];
        ghost var done := Flatten(s[..i]);
        count := RelinkChain(newHead, chain, done, count);
        assert s[..i + 1][..i] == s[..i];
        assert chain == s[..i + 1][i];
      }
      assert s[..oldHead.Length] == s;
    }

    /** The inner loop of the resize: the entries of one old chain, from its
        head on, each pushed onto the front of its new bucket. */
    static method RelinkChain(newHead: array<seq<Entry>>, chain: seq<Entry>, ghost done: seq<Entry>, count0: nat)
      returns (count: nat)
      requires newHead.Length > 0
      requires newHead[..] == PushAll(EmptyBuckets(newHead.Length), done)
      modifies newHead
      ensures newHead[..] == PushAll(EmptyBuckets(newHead.Length), done + chain)
      ensures count == count0 + |chain|
    {
      assert chain[..0] == [] && done + [] == done;
      count := count0;
      var k := 0;
      while k < |chain|
        invariant 0 <= k <= |chain|
        invariant newHead[..] == PushAll(EmptyBuckets(newHead.Length), done + chain[..k])
        invariant count == count0 + k
      {
        var h := chain[k];
        var b := Bucket(h.hash, newHead.Length);
        ghost var before := newHead[..];
        newHead[b] := [h] + newHead[b];
        assert newHead[..] == Push(before, h);
        PushAllSnoc(EmptyBuckets(newHead.Length), done + chain[..k], h);
        assert (done + chain[..k]) + [h] == done + chain[..k + 1];
        count := count + 1;
        k := k + 1;
      }
      assert chain[..k] == chain;
    }

    /** yb_hash_map_find_pointer: the bucket of `h` and the position in its
        chain of the first entry with that hash and an equal key (or the
        chain's length). The key test is yb_string_compare on the contents. */
    method FindPointer(key: Bytes, h: bv32) returns (b: nat, i: nat)
      requires Valid()
      ensures b == Bucket(h, head.Length)
      ensures i <= |head[b]|
      ensures forall j :: 0 <= j < i ==> !Matches(head[b][j], key, h)
      ensures i < |head[b]| ==> Matches(head[b][i], key, h)
    {
      b := Bucket(h, head.Length);
      var chain := head[b];
      i := 0;
      while i < |chain|
        invariant 0 <= i <= |chain|
        invariant forall j :: 0 <= j < i ==> !Matches(chain[j], key, h)
      {
        CompareContentIsLex(key, chain[i].key);
        LexZeroIffEqual(key, chain[i].key);
        if chain[i].hash == h && CompareContent(key, chain[i].key) == 0 {
          return;
        }
        i := i + 1;
      }
    }

    /** The insert on a valid map with the stored entry `e` (the copies of
        key and value, and the key's hash): replace the first match in place,
        or append and resize once there are more entries than buckets. */
    method InsertEntry(key: Bytes, e: Entry)
      requires Valid() && elems < MaxElems && e.hash == hashFn(key)
      modifies this, head
      ensures Valid()
      ensures !InsertAdds(old(head[..]), key, e.hash) ==>
        head == old(head) && elems == old(elems) &&
        head[..] == InsertBuckets(old(head[..]), key, e)
      ensures InsertAdds(old(head[..]), key, e.hash) ==>
        elems == old(elems) + 1 &&
        (elems > old(head.Length) ==>
           head[..] == PushAll(EmptyBuckets(head.Length), Flatten(InsertBuckets(old(head[..]), key, e))) &&
           head.Length == NewLength(elems)) &&
        (elems <= old(head.Length) ==> head == old(head) && head[..] == InsertBuckets(old(head[..]), key, e))
    {
      ghost var s := head[..];
      var b, i := FindPointer(key, e.hash);
      assert i == FirstMatch(s[b], key, e.hash) by {
        if i < |s[b]| {
          FirstMatchAt(s[b], key, e.hash, i);
        }
      }
      var chain := head[b];
      InsertBucketsPlaced(s, key, e);
      InsertBucketsEntries(s, key, e);
      if i < |chain| {
        head[b] := chain[i := e];
        assert head[..] == InsertBuckets(s, key, e);
      } else {
        head[b] := chain + [e];
        assert head[..] == InsertBuckets(s, key, e);
        elems := elems + 1;
        if elems > head.Length {
          ghost var t := head[..];
          Resize();
          RehashCorrect(t, head.Length);
        }
      }
    }

    /** The remove on a valid map: unlink the first entry matching `key`. */
    method RemoveEntry(key: Bytes)
      requires Valid()
      modifies this, head
      ensures Valid() && head == old(head)
      ensures head[..] == RemoveBuckets(old(head[..]), key, hashFn(key))
      ensures elems == if InsertAdds(old(head[..]), key, hashFn(key)) then old(elems) else old(elems) - 1
    {
      ghost var s := head[..];
      var h := hashFn(key);
      var b, i := FindPointer(key, h);
      assert i == FirstMatch(s[b], key, h) by {
        if i < |s[b]| {
          FirstMatchAt(s[b], key, h, i);
        }
      }
      ghost var r := RemoveBuckets(s, key, h);
      RemoveBucketsPlaced(s, key, h);
      RemoveBucketsCount(s, key, h);
      var chain := head[b];
      if i == |chain| {
        return;
      }
      head[b] := chain[..i] + chain[i + 1..];
      assert head[..] == r;
      elems := elems - 1;
    }
  }

  // ---------------------------------------------------------------------
  // The public operations

  /** Inserting an entry with an empty key into buckets whose keys are all
      empty keeps them all empty, before and after a rehash. */
  lemma InsertKeepsKeysEmpty(s: seq<seq<Entry>>, key: Bytes, e: Entry, n: nat)
    requires |s| > 0 && n > 0 && AllKeysEmpty(s) && e.key == []
    ensures AllKeysEmpty(InsertBuckets(s, key, e))
    ensures AllKeysEmpty(PushAll(EmptyBuckets(n), Flatten(InsertBuckets(s, key, e))))
  {
    var t: seq<seq<Entry>> := InsertBuckets(s, key, e);
    var b := Bucket(e.hash, |s|);
    forall c: int, j: int | 0 <= c < |t| && 0 <= j < |t[c]|
      ensures t[c][j].key == []
    {
      if c == b && j < |s[b]| && t[c][j] != e {
        assert t[c][j] == s[b][j];
      }
    }
    FlattenKeysEmpty(t);
    PushAllKeysEmpty(EmptyBuckets(n), Flatten(t));
  }

  /** yb_hash_map_insert as written: NULL map, key or value fails (a NULL
      value makes the entry's clone NULL). The entry stores what
      yb_string_clone returns, which as written is an empty string for key
      and value alike; its hash is the hash of the real key. */
  method Insert(m: HashMap?, key: Str?, value: Str?) returns (rc: int)
    requires m != null ==> m.Valid() && m.elems < MaxElems
    modifies m, if m == null then {} else {m.head}
    ensures m == null || key == null || value == null ==> rc == YB_FAIL
    ensures m != null && (key == null || value == null) ==>
      m.head == old(m.head) && m.head[..] == old(m.head[..]) && m.elems == old(m.elems)
    ensures m != null ==> m.Valid()
    ensures m != null && key != null && value != null ==>
      rc == YB_OK &&
      (AllKeysEmpty(old(m.head[..])) ==> AllKeysEmpty(m.head[..])) &&
      var e := Entry([], [], m.hashFn(key.data));
      (InsertAdds(old(m.head[..]), key.data, e.hash) ==> m.elems == old(m.elems) + 1) &&
      (!InsertAdds(old(m.head[..]), key.data, e.hash) ==> m.elems == old(m.elems)) &&
      (m.elems <= old(m.head.Length) ==> m.head[..] == InsertBuckets(old(m.head[..]), key.data, e))
  {
    if m == null || key == null {
      return YB_FAIL;
    }
    var h := m.hashFn(key.data);
    var k := Clone(key);
    var v := Clone(value);
    if v == null {
      return YB_FAIL;
    }
    ghost var s := m.head[..];
    var e := Entry(k.data, v.data, h);
    m.InsertEntry(key.data, e);
    if AllKeysEmpty(s) {
      InsertKeepsKeysEmpty(s, key.data, e, m.head.Length);
    }
    rc := YB_OK;
  }

  /** yb_hash_map_insert with copying constructors that copy: the entry
      stores the key and value contents. */
  method InsertFixed(m: HashMap?, key: Str?, value: Str?) returns (rc: int)
    requires m != null ==> m.Valid() && m.elems < MaxElems
    modifies m, if m == null then {} else {m.head}
    ensures m == null || key == null || value == null ==> rc == YB_FAIL
    ensures m != null ==> m.Valid()
    ensures m != null && key != null && value != null ==>
      rc == YB_OK && Lookup(m.head[..], m.hashFn, key.data) == Some(value.data)
  {
    if m == null || key == null {
      return YB_FAIL;
    }
    var h := m.hashFn(key.data);
    var k := CloneFixed(key);
    var v := CloneFixed(value);
    if v == null {
      return YB_FAIL;
    }
    var e := Entry(k.data, v.data, h);
    ghost var s := m.head[..];
    ghost var len := m.head.Length;
    m.InsertEntry(key.data, e);
    assert e.key == key.data && e.value == value.data;
    LookupAfterInsertState(s, m.hashFn, e, m.head[..]);
    rc := YB_OK;
  }

  /** yb_hash_map_get: NULL for a NULL map or key, otherwise the stored value
      of the first matching entry or NULL. */
  method Get(m: HashMap?, key: Str?) returns (r: Option<Bytes>)
    requires m != null ==> m.Valid()
    ensures m == null || key == null ==> r == None
    ensures m != null && key != null ==> r == Lookup(m.head[..], m.hashFn, key.data)
  {
    if m == null || key == null {
      return None;
    }
    var h := m.hashFn(key.data);
    var b, i := m.FindPointer(key.data, h);
    if i < |m.head[b]| {
      FirstMatchAt(m.head[b], key.data, h, i);
    }
    if i == |m.head[b]| {
      return None;
    }
    r := Some(m.head[b][i].value);
  }

  /** yb_hash_map_remove: nothing for a NULL map or key; otherwise the first
      matching entry is unlinked and the count drops by one, and an absent
      key changes nothing. */
  method Remove(m: HashMap?, key: Str?)
    requires m != null ==> m.Valid()
    modifies m, if m == null then {} else {m.head}
    ensures m != null ==> m.Valid() && m.head == old(m.head)
    ensures m != null && key == null ==> m.head[..] == old(m.head[..]) && m.elems == old(m.elems)
    ensures m != null && key != null ==>
      m.head[..] == RemoveBuckets(old(m.head[..]), key.data, m.hashFn(key.data)) &&
      m.elems == if InsertAdds(old(m.head[..]), key.data, m.hashFn(key.data)) then old(m.elems) else old(m.elems) - 1
  {
    if m == null || key == null {
      return;
    }
    m.RemoveEntry(key.data);
  }

  /** As written, a map filled only through Insert finds no non-empty key:
      every later Get of one is NULL and every Insert of one adds a
      duplicate entry. */
  lemma AsWrittenInsertLosesKeys(s: seq<seq<Entry>>, hashFn: Bytes -> bv32, key: Bytes)
    requires |s| > 0 && AllKeysEmpty(s) && key != []
    ensures Lookup(s, hashFn, key) == None
    ensures InsertAdds(s, key, hashFn(key))
  {
    NonEmptyKeyNeverFound(s, hashFn, key);
  }
}
