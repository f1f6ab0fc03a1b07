/** PHP arrays used as insertion-ordered maps. `$m[$k] = $v` keeps the slot of a key that
    is already present and only replaces its value; a new key goes to the end. The scrapers
    rely on this in `$newData`, `$uniqueEpisodes`, `$info` and the CUID-keyed merge. */
module OrderedMap {

  /** The slot of the first entry with key `k`, or |m| when there is none. */
  function Find<K(==), V>(m: seq<(K, V)>, k: K): (r: nat)
    ensures r <= |m|
    ensures r < |m| ==> m[r].0 == k
    ensures forall i :: 0 <= i < r ==> m[i].0 != k
  {
    if m == [] then 0 else if m[0].0 == k then 0 else 1 + Find(m[1..], k)
  }

  predicate Mentions<K(==), V>(m: seq<(K, V)>, k: K) {
    Find(m, k) < |m|
  }

  predicate DistinctKeys<K(==), V>(m: seq<(K, V)>) {
    forall i, j :: 0 <= i < j < |m| ==> m[i].0 != m[j].0
  }

  /** The value of the last entry with key `k`. */
  function LastValue<K(==), V>(m: seq<(K, V)>, k: K): V
    requires Mentions(m, k)
  {
    if m[|m| - 1].0 == k then m[|m| - 1].1 else
      assert Find(m[..|m| - 1], k) == Find(m, k) by { FindPrefix(m[..|m| - 1], m[|m| - 1], k); }
      LastValue(m[..|m| - 1], k)
  }

  lemma {:induction false} FindPrefix<K, V>(m: seq<(K, V)>, e: (K, V), k: K)
    requires Find(m + [e], k) < |m| || Find(m, k) < |m|
    ensures Find(m + [e], k) == Find(m, k)
  {
    if m != [] && m[0].0 != k {
      assert (m + [e])[1..] == m[1..] + [e];
      FindPrefix(m[1..], e, k);
    }
  }

  lemma {:induction false} FindAppend<K, V>(m: seq<(K, V)>, e: (K, V))
    requires !Mentions(m, e.0)
    ensures Find(m + [e], e.0) == |m|
  {
    if m != [] {
      assert (m + [e])[1..] == m[1..] + [e];
      FindAppend(m[1..], e);
    }
  }

  /** `$m[$k] = $v` */
  function Put<K(==), V>(m: seq<(K, V)>, k: K, v: V): (r: seq<(K, V)>)
    ensures Mentions(m, k) ==> |r| == |m| && r[Find(m, k)] == (k, v)
    ensures !Mentions(m, k) ==> r == m + [(k, v)]
    ensures forall i :: 0 <= i < |m| ==> r[i].0 == m[i].0
    ensures forall i :: 0 <= i < |m| && m[i].0 != k ==> r[i] == m[i]
  {
    var i := Find(m, k);
    if i < |m| then m[i := (k, v)] else m + [(k, v)]
  }

  /** `foreach ($kvs as [$k, $v]) $m[$k] = $v;` */
  function PutAll<K(==), V>(m: seq<(K, V)>, kvs: seq<(K, V)>): (r: seq<(K, V)>)
  {
    if kvs == [] then m else
      var last := kvs[|kvs| - 1];
      Put(PutAll(m, kvs[..|kvs| - 1]), last.0, last.1)
  }

  /** What the ordered assignments leave behind, starting from a map with distinct keys:
      the old slots keep their keys and come first, every key appears once, each key written
      carries the value of its last write, a key never written keeps its value, and the new
      keys follow in the order in which they were first written. */
  lemma PutAllSpec<K, V>(m: seq<(K, V)>, kvs: seq<(K, V)>)
    requires DistinctKeys(m)
    ensures var r := PutAll(m, kvs);
      && DistinctKeys(r)
      && |m| <= |r|
      && (forall i :: 0 <= i < |m| ==> r[i].0 == m[i].0)
      && (forall i :: 0 <= i < |m| && i < |r| && !Mentions(kvs, m[i].0) ==> r[i] == m[i])
      && (forall i :: 0 <= i < |r| && Mentions(kvs, r[i].0) ==> r[i].1 == LastValue(kvs, r[i].0))
      && (forall i :: |m| <= i < |r| ==> Mentions(kvs, r[i].0) && !Mentions(m, r[i].0))
      && (forall k :: Mentions(kvs, k) ==> Mentions(r, k))
      && (forall p, q :: |m| <= p < q < |r| ==> Find(kvs, r[p].0) < Find(kvs, r[q].0))
  {
    PutAllKeys(m, kvs);
    PutAllValues(m, kvs);
    PutAllOrder(m, kvs);
  }

  /** The keys of a map after the assignments of `init` and then one more. */
  lemma MentionsSnoc<K, V>(init: seq<(K, V)>, last: (K, V))
    ensures forall k :: Mentions(init, k) ==> Find(init + [last], k) == Find(init, k) && Mentions(init + [last], k)
    ensures forall k :: Mentions(init + [last], k) && k != last.0 ==> Mentions(init, k)
    ensures Mentions(init + [last], last.0)
    ensures !Mentions(init, last.0) ==> Find(init + [last], last.0) == |init|
  {
    var kvs := init + [last];
    forall k | Mentions(init, k) ensures Find(kvs, k) == Find(init, k) && Mentions(kvs, k) {
      FindPrefix(init, last, k);
    }
    forall k | Mentions(kvs, k) && k != last.0 ensures Mentions(init, k) {
      if !Mentions(init, k) {
        assert Find(kvs, k) < |init| by { assert kvs[Find(kvs, k)].0 == k; }
        FindPrefix(init, last, k);
      }
    }
    if !Mentions(init, last.0) {
      FindAppend(init, last);
    }
  }

  /** The slots of the map after the assignments: the old keys first, each once, then the new ones. */
  lemma {:induction false} PutAllKeys<K, V>(m: seq<(K, V)>, kvs: seq<(K, V)>)
    requires DistinctKeys(m)
    ensures var r := PutAll(m, kvs);
      && DistinctKeys(r)
      && |m| <= |r|
      && (forall i :: 0 <= i < |m| ==> r[i].0 == m[i].0)
      && (forall i :: |m| <= i < |r| ==> Mentions(kvs, r[i].0) && !Mentions(m, r[i].0))
      && (forall k :: Mentions(kvs, k) ==> Mentions(r, k))
  {
    if kvs != [] {
      var init, last := kvs[..|kvs| - 1], kvs[|kvs| - 1];
      assert kvs == init + [last];
      PutAllKeys(m, init);
      MentionsSnoc(init, last);
      var r0 := PutAll(m, init);
      assert Put(r0, last.0, last.1) == PutAll(m, kvs);
      var r := Put(r0, last.0, last.1);
      assert Mentions(m, last.0) ==> r0[Find(m, last.0)].0 == last.0;
      forall k | Mentions(kvs, k) ensures Mentions(r, k) {
        if Mentions(r0, k) {
          assert r[Find(r0, k)].0 == k;
        } else {
          assert r[|r0|].0 == k;
        }
      }
    }
  }

  /** The values of the map after the assignments: the last write of each key written, the old
      value of each key never written. */
  lemma {:induction false} PutAllValues<K, V>(m: seq<(K, V)>, kvs: seq<(K, V)>)
    requires DistinctKeys(m)
    ensures var r := PutAll(m, kvs);
      && (forall i :: 0 <= i < |m| && i < |r| && !Mentions(kvs, m[i].0) ==> r[i] == m[i])
      && (forall i :: 0 <= i < |r| && Mentions(kvs, r[i].0) ==> r[i].1 == LastValue(kvs, r[i].0))
  {
    if kvs != [] {
      var init, last := kvs[..|kvs| - 1], kvs[|kvs| - 1];
      assert kvs == init + [last];
      PutAllValues(m, init);
      PutAllKeys(m, init);
      MentionsSnoc(init, last);
      var r0 := PutAll(m, init);
      assert Put(r0, last.0, last.1) == PutAll(m, kvs);
      forall k | Mentions(kvs, k) && k != last.0 ensures LastValue(kvs, k) == LastValue(init, k) {
        assert kvs[..|kvs| - 1] == init;
      }
    }
  }

  /** The new keys come in the order of their first writes. */
  lemma {:induction false} PutAllOrder<K, V>(m: seq<(K, V)>, kvs: seq<(K, V)>)
    requires DistinctKeys(m)
    ensures var r := PutAll(m, kvs);
      forall p, q :: |m| <= p < q < |r| ==> Find(kvs, r[p].0) < Find(kvs, r[q].0)
  {
    if kvs != [] {
      var init, last := kvs[..|kvs| - 1], kvs[|kvs| - 1];
      assert kvs == init + [last];
      PutAllOrder(m, init);
      PutAllKeys(m, init);
      MentionsSnoc(init, last);
      var r0 := PutAll(m, init);
      var r := Put(r0, last.0, last.1);
      assert r == PutAll(m, kvs);
      if !Mentions(r0, last.0) {
        forall p | |m| <= p < |r0| ensures Find(kvs, r[p].0) < Find(kvs, r[|r0|].0) {
          assert Mentions(init, r0[p].0);
        }
      }
    }
  }

  /** `PutAll` over a concatenation is two rounds of assignments. */
  lemma {:induction false} PutAllConcat<K, V>(m: seq<(K, V)>, xs: seq<(K, V)>, ys: seq<(K, V)>)
    ensures PutAll(m, xs + ys) == PutAll(PutAll(m, xs), ys)
  {
    if ys == [] {
      assert xs + ys == xs;
    } else {
      assert (xs + ys)[..|xs + ys| - 1] == xs + ys[..|ys| - 1];
      PutAllConcat(m, xs, ys[..|ys| - 1]);
    }
  }

  /** Writing keys that the map does not hold yet appends their deduplicated entries. */
  lemma {:induction false} PutAllFresh<K, V>(p: seq<(K, V)>, kvs: seq<(K, V)>)
    requires forall i :: 0 <= i < |kvs| ==> !Mentions(p, kvs[i].0)
    ensures PutAll(p, kvs) == p + PutAll([], kvs)
  {
    if kvs != [] {
      var init, last := kvs[..|kvs| - 1], kvs[|kvs| - 1];
      assert forall i :: 0 <= i < |init| ==> init[i] == kvs[i];
      PutAllFresh(p, init);
      var d := PutAll([], init);
      assert PutAll(p, kvs) == Put(p + d, last.0, last.1);
      assert PutAll([], kvs) == Put(d, last.0, last.1);
      assert !Mentions(p, last.0) by { assert last == kvs[|kvs| - 1]; }
      var i := Find(d, last.0);
      FindShift(p, d, last.0);
      if i < |d| {
        assert Put(p + d, last.0, last.1) == (p + d)[|p| + i := (last.0, last.1)];
        assert (p + d)[|p| + i := (last.0, last.1)] == p + d[i := (last.0, last.1)];
      } else {
        assert Put(p + d, last.0, last.1) == (p + d) + [(last.0, last.1)];
        assert (p + d) + [(last.0, last.1)] == p + (d + [(last.0, last.1)]);
      }
    }
  }

  lemma {:induction false} FindShift<K, V>(p: seq<(K, V)>, d: seq<(K, V)>, k: K)
    requires !Mentions(p, k)
    ensures Find(p + d, k) == |p| + Find(d, k)
  {
    if p != [] {
      assert (p + d)[0] == p[0] && p[0].0 != k;
      assert (p + d)[1..] == p[1..] + d;
      assert Find(p, k) == 1 + Find(p[1..], k);
      assert !Mentions(p[1..], k);
      FindShift(p[1..], d, k);
      assert Find(p + d, k) == 1 + Find((p + d)[1..], k);
    } else {
      assert p + d == d;
    }
  }

  /** Assigning entries whose keys are already distinct, into an empty array, rebuilds them. */
  lemma {:induction false} DistinctIsDeduped<K, V>(d: seq<(K, V)>)
    requires DistinctKeys(d)
    ensures PutAll([], d) == d
  {
    if d != [] {
      var init, last := d[..|d| - 1], d[|d| - 1];
      DistinctIsDeduped(init);
      assert forall j :: 0 <= j < |init| ==> init[j].0 != last.0;
      assert init + [last] == d;
    }
  }

  /** When every written key is already present, the writes only replace values, each key
      taking the value of its last write. */
  lemma {:induction false} PutAllOverwrite<K, V>(m: seq<(K, V)>, kvs: seq<(K, V)>)
    requires forall i :: 0 <= i < |kvs| ==> Mentions(m, kvs[i].0)
    ensures var r := PutAll(m, kvs);
      && |r| == |m|
      && (forall i :: 0 <= i < |m| ==> r[i].0 == m[i].0)
      && (forall i :: 0 <= i < |m| && i < |r| && !Mentions(kvs, m[i].0) ==> r[i] == m[i])
      && (forall i :: 0 <= i < |m| && Mentions(kvs, m[i].0) && Find(m, m[i].0) == i ==>
            r[i].1 == LastValue(kvs, m[i].0))
  {
    if kvs != [] {
      var init, last := kvs[..|kvs| - 1], kvs[|kvs| - 1];
      assert kvs == init + [last];
      PutAllOverwrite(m, init);
      var r0 := PutAll(m, init);
      assert Find(r0, last.0) == Find(m, last.0) by {
        FindSameKeys(m, r0, last.0);
      }
      forall k | Mentions(init, k) ensures Find(kvs, k) == Find(init, k) && Mentions(kvs, k) {
        FindPrefix(init, last, k);
      }
      forall k | Mentions(kvs, k) && k != last.0 ensures Mentions(init, k) && LastValue(kvs, k) == LastValue(init, k) {
        if !Mentions(init, k) {
          assert Find(kvs, k) < |init| by { assert kvs[Find(kvs, k)].0 == k; }
          FindPrefix(init, last, k);
        }
      }
      assert Mentions(kvs, last.0) by {
        if !Mentions(init, last.0) { FindAppend(init, last); }
      }
    }
  }

  lemma {:induction false} FindSameKeys<K, V>(m: seq<(K, V)>, r: seq<(K, V)>, k: K)
    requires |m| == |r| && forall i :: 0 <= i < |m| ==> r[i].0 == m[i].0
    ensures Find(r, k) == Find(m, k)
  {
    if m != [] && m[0].0 != k {
      FindSameKeys(m[1..], r[1..], k);
    }
  }

  /** `array_values`: the values in slot order. */
  function Values<K, V>(m: seq<(K, V)>): (vs: seq<V>)
    ensures |vs| == |m| && forall i :: 0 <= i < |m| ==> vs[i] == m[i].1
  {
    seq(|m|, i requires 0 <= i < |m| => m[i].1)
  }

  /** An array built by assigning `kvs` in order to an empty array. */
  function Dedup<K(==), V>(kvs: seq<(K, V)>): seq<(K, V)> {
    PutAll([], kvs)
  }

  /** Deduplicating what was already deduplicated, followed by more entries, is the same as
      deduplicating everything at once. */
  lemma DedupAbsorbs<K, V>(xs: seq<(K, V)>, ys: seq<(K, V)>)
    ensures Dedup(Dedup(xs) + ys) == Dedup(xs + ys)
  {
    PutAllSpec([], xs);
    PutAllConcat([], Dedup(xs), ys);
    DistinctIsDeduped(Dedup(xs));
    PutAllConcat([], xs, ys);
  }

  /** Writing the same entries a second time changes nothing. */
  lemma PutAllTwice<K, V>(m: seq<(K, V)>, ys: seq<(K, V)>)
    requires DistinctKeys(m)
    ensures PutAll(PutAll(m, ys), ys) == PutAll(m, ys)
  {
    var r := PutAll(m, ys);
    PutAllSpec(m, ys);
    forall i | 0 <= i < |ys| ensures Mentions(r, ys[i].0) {
      assert Mentions(ys, ys[i].0) by { assert ys[i].0 == ys[i].0; }
    }
    PutAllOverwrite(r, ys);
    var r2 := PutAll(r, ys);
    forall i | 0 <= i < |r| ensures r2[i] == r[i] {
      if Mentions(ys, r[i].0) {
        assert Find(r, r[i].0) == i;
      }
    }
  }

  /** Appending entries that were already at the end of the input changes nothing. */
  lemma DedupRepeatedTail<K, V>(xs: seq<(K, V)>, ys: seq<(K, V)>)
    ensures Dedup(xs + ys + ys) == Dedup(xs + ys)
  {
    PutAllConcat([], xs, ys);
    PutAllConcat([], xs + ys, ys);
    PutAllSpec([], xs);
    PutAllTwice(Dedup(xs), ys);
  }

  /** Every entry's key is `key` of its value, as in `$m[$v['CUID']] = $v`. */
  predicate KeyedBy<K(==), V>(m: seq<(K, V)>, key: V -> K) {
    forall i :: 0 <= i < |m| ==> m[i].0 == key(m[i].1)
  }

  /** The assignments `$m[key($v)] = $v` for each `$v` of `vs`, in order. */
  function KeyEach<K, V>(vs: seq<V>, key: V -> K): (kvs: seq<(K, V)>)
    ensures |kvs| == |vs|
    ensures forall i :: 0 <= i < |vs| ==> kvs[i].1 == vs[i]
    ensures KeyedBy(kvs, key)
  {
    seq(|vs|, i requires 0 <= i < |vs| => (key(vs[i]), vs[i]))
  }

  /** Keying a concatenation keys each part. */
  lemma KeyEachConcat<K, V>(a: seq<V>, b: seq<V>, key: V -> K)
    ensures KeyEach(a + b, key) == KeyEach(a, key) + KeyEach(b, key)
  {
  }

  lemma {:induction false} PutAllKeyedBy<K, V>(m: seq<(K, V)>, kvs: seq<(K, V)>, key: V -> K)
    requires KeyedBy(m, key) && KeyedBy(kvs, key)
    ensures KeyedBy(PutAll(m, kvs), key)
  {
    if kvs != [] {
      PutAllKeyedBy(m, kvs[..|kvs| - 1], key);
      assert kvs[|kvs| - 1].0 == key(kvs[|kvs| - 1].1);
    }
  }

  /** The last entry with key `k` carries `LastValue(m, k)`. */
  lemma LastValueSpec<K, V>(m: seq<(K, V)>, k: K)
    requires Mentions(m, k)
    ensures exists j :: 0 <= j < |m| && m[j] == (k, LastValue(m, k)) && forall j' :: j < j' < |m| ==> m[j'].0 != k
  {
    var j := LastValueSlot(m, k);
  }

  /** The slot `LastValueSpec` speaks of. */
  lemma {:induction false} LastValueSlot<K, V>(m: seq<(K, V)>, k: K) returns (j: nat)
    requires Mentions(m, k)
    ensures j < |m| && m[j] == (k, LastValue(m, k)) && forall j' :: j < j' < |m| ==> m[j'].0 != k
  {
    if m[|m| - 1].0 == k {
      j := |m| - 1;
    } else {
      var init := m[..|m| - 1];
      FindPrefix(init, m[|m| - 1], k);
      j := LastValueSlot(init, k);
      assert m[j] == init[j];
      assert forall j' :: j < j' < |init| ==> m[j'] == init[j'];
    }
  }

  /** Each assignment adds at most one slot. */
  lemma {:induction false} PutAllLength<K, V>(m: seq<(K, V)>, kvs: seq<(K, V)>)
    ensures |m| <= |PutAll(m, kvs)| <= |m| + |kvs|
  {
    if kvs != [] {
      PutAllLength(m, kvs[..|kvs| - 1]);
    }
  }
}
