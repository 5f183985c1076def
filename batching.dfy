/**
 * The batch loop's arithmetic: `for i in range(0, total, batch_size)` taking
 * `records[i:i + batch_size]` and reporting `min(i + batch_size, total)` after each batch.
 */
module Batching {

  function Min(a: int, b: int): int { if a <= b then a else b }

  /** The slices records[i:i + bs], records[i + bs:i + 2bs], ... up to the end. */
  function BatchesFrom<T>(s: seq<T>, i: nat, bs: nat): seq<seq<T>>
    requires bs > 0
    decreases |s| - i
  {
    if i >= |s| then [] else [s[i..Min(i + bs, |s|)]] + BatchesFrom(s, i + bs, bs)
  }

  /** The batches of the loop, in order. */
  function Batches<T>(s: seq<T>, bs: nat): seq<seq<T>>
    requires bs > 0
  {
    BatchesFrom(s, 0, bs)
  }

  /** The counts reported after each batch from offset i on: min(i + bs, n), min(i + 2bs, n), ... */
  function ProgressFrom(i: nat, n: nat, bs: nat): seq<nat>
    requires bs > 0
    decreases n - i
  {
    if i >= n then [] else [Min(i + bs, n)] + ProgressFrom(i + bs, n, bs)
  }

  /** The progress counts the loop logs over s: one per batch. */
  function Progress<T>(s: seq<T>, bs: nat): (r: seq<nat>)
    requires bs > 0
    ensures |r| == |Batches(s, bs)|
  {
    ProgressFromShape(s, 0, bs);
    ProgressFrom(0, |s|, bs)
  }

  /** The concatenation of a sequence of batches. */
  function Flatten<T>(batches: seq<seq<T>>): seq<T> {
    if batches == [] then [] else batches[0] + Flatten(batches[1..])
  }

  /** The index of the first batch that is not accepted, or the number of batches when all are. */
  function FirstRejected<T>(batches: seq<seq<T>>, accepts: seq<T> -> bool): (k: nat)
    ensures k <= |batches|
    ensures forall j :: 0 <= j < k ==> accepts(batches[j])
    ensures k < |batches| ==> !accepts(batches[k])
  {
    if batches == [] || !accepts(batches[0]) then 0
    else 1 + FirstRejected(batches[1..], accepts)
  }

  /** The first rejected batch is the only index with every earlier batch accepted and itself rejected or past the end. */
  lemma FirstRejectedUnique<T>(batches: seq<seq<T>>, accepts: seq<T> -> bool, k: nat)
    requires k <= |batches|
    requires forall j :: 0 <= j < k ==> accepts(batches[j])
    requires k < |batches| ==> !accepts(batches[k])
    ensures FirstRejected(batches, accepts) == k
  {
  }

  /** One turn of the loop at offset i: the next batch is the slice at i and the rest start at i + bs. */
  lemma BatchStep<T>(s: seq<T>, bs: nat, i: nat, k: nat)
    requires bs > 0 && i < |s| && k <= |Batches(s, bs)|
    requires Batches(s, bs)[k..] == BatchesFrom(s, i, bs)
    ensures k < |Batches(s, bs)|
    ensures Batches(s, bs)[k] == s[i..Min(i + bs, |s|)]
    ensures Batches(s, bs)[k + 1..] == BatchesFrom(s, i + bs, bs)
  {
    assert Batches(s, bs)[k..] == [s[i..Min(i + bs, |s|)]] + BatchesFrom(s, i + bs, bs);
  }

  /** The count logged on the turn at offset i is min(i + bs, n); the later ones start at i + bs. */
  lemma ProgressStep<T>(s: seq<T>, bs: nat, i: nat, k: nat)
    requires bs > 0 && i < |s| && k <= |Progress(s, bs)|
    requires Progress(s, bs)[k..] == ProgressFrom(i, |s|, bs)
    ensures k < |Progress(s, bs)|
    ensures Progress(s, bs)[k] == Min(i + bs, |s|)
    ensures Progress(s, bs)[k + 1..] == ProgressFrom(i + bs, |s|, bs)
  {
    assert Progress(s, bs)[k..] == [Min(i + bs, |s|)] + ProgressFrom(i + bs, |s|, bs);
  }

  /** Once the first k batches make up s[..i], adding the slice at i makes up s[..min(i + bs, |s|)]. */
  lemma FlattenStep<T>(s: seq<T>, bs: nat, i: nat, k: nat)
    requires bs > 0 && i < |s| && k < |Batches(s, bs)|
    requires Batches(s, bs)[k] == s[i..Min(i + bs, |s|)]
    requires Flatten(Batches(s, bs)[..k]) == s[..i]
    ensures Flatten(Batches(s, bs)[..k + 1]) == s[..Min(i + bs, |s|)]
    ensures Flatten(Batches(s, bs)[..k + 1]) == Flatten(Batches(s, bs)[..k]) + Batches(s, bs)[k]
  {
    var b := Batches(s, bs);
    assert b[..k + 1] == b[..k] + [b[k]];
    FlattenAppend(b[..k], [b[k]]);
    assert Flatten([b[k]]) == b[k];
    assert s[..Min(i + bs, |s|)] == s[..i] + s[i..Min(i + bs, |s|)];
  }

  lemma {:induction false} FlattenAppend<T>(a: seq<seq<T>>, b: seq<seq<T>>)
    ensures Flatten(a + b) == Flatten(a) + Flatten(b)
  {
    if a == [] {
      assert a + b == b;
    } else {
      assert (a + b)[0] == a[0];
      assert (a + b)[1..] == a[1..] + b;
      FlattenAppend(a[1..], b);
    }
  }

  /** Batch k from offset i starts at offset o = i + k*bs and holds 1..bs records. */
  lemma {:induction false} BatchFromAt<T>(s: seq<T>, i: nat, bs: nat, k: nat, o: nat)
    requires bs > 0 && k < |BatchesFrom(s, i, bs)| && o == i + k * bs
    ensures o < |s|
    ensures BatchesFrom(s, i, bs)[k] == s[o..Min(o + bs, |s|)]
    ensures 1 <= |BatchesFrom(s, i, bs)[k]| <= bs
    decreases k
  {
    var b := BatchesFrom(s, i, bs);
    assert b == [s[i..Min(i + bs, |s|)]] + BatchesFrom(s, i + bs, bs);
    if k > 0 {
      NextOffset(i, bs, k);
      assert b[k] == BatchesFrom(s, i + bs, bs)[k - 1];
      BatchFromAt(s, i + bs, bs, k - 1, o);
    }
  }

  /** Offset i + bs plus k - 1 more batches is offset i plus k batches. */
  lemma NextOffset(i: nat, bs: nat, k: nat)
    requires k > 0
    ensures i + bs + (k - 1) * bs == i + k * bs
    ensures k * bs >= bs
  {
    assert (k - 1) * bs == k * bs - bs;
  }

  /**
   * The batches are the contiguous slices s[k*bs : min((k+1)*bs, |s|)], each holding 1..bs
   * records, and there is one for every multiple of bs below |s|.
   */
  lemma BatchAt<T>(s: seq<T>, bs: nat, k: nat)
    requires bs > 0
    ensures k < |Batches(s, bs)| <==> k * bs < |s|
    ensures k < |Batches(s, bs)| ==>
      Batches(s, bs)[k] == s[k * bs..Min(k * bs + bs, |s|)] && 1 <= |Batches(s, bs)[k]| <= bs
  {
    BatchCountFrom(s, 0, bs, k);
    if k < |Batches(s, bs)| {
      BatchFromAt(s, 0, bs, k, k * bs);
    }
  }

  lemma {:induction false} BatchCountFrom<T>(s: seq<T>, i: nat, bs: nat, k: nat)
    requires bs > 0
    ensures k < |BatchesFrom(s, i, bs)| <==> i + k * bs < |s|
    decreases |s| - i
  {
    if i < |s| && k > 0 {
      BatchCountFrom(s, i + bs, bs, k - 1);
      NextOffset(i, bs, k);
    }
  }

  lemma {:induction false} FlattenBatchesFrom<T>(s: seq<T>, i: nat, bs: nat)
    requires bs > 0 && i <= |s|
    ensures Flatten(BatchesFrom(s, i, bs)) == s[i..]
    decreases |s| - i
  {
    if i < |s| {
      var j := Min(i + bs, |s|);
      FlattenBatchesFrom(s, j, bs);
      if j < i + bs {
        assert BatchesFrom(s, i + bs, bs) == [];
      }
      assert BatchesFrom(s, i + bs, bs) == BatchesFrom(s, j, bs);
      assert s[i..] == s[i..j] + s[j..];
    }
  }

  /** Concatenating the batches gives back exactly the records, in order. */
  lemma FlattenBatches<T>(s: seq<T>, bs: nat)
    requires bs > 0
    ensures Flatten(Batches(s, bs)) == s
  {
    FlattenBatchesFrom(s, 0, bs);
  }

  /** The first k batches from offset i hold exactly the records from i up to o = i + k*bs. */
  lemma {:induction false} FlattenPrefixFrom<T>(s: seq<T>, i: nat, bs: nat, k: nat, o: nat)
    requires bs > 0 && i <= |s| && k <= |BatchesFrom(s, i, bs)| && o == i + k * bs
    ensures Flatten(BatchesFrom(s, i, bs)[..k]) == s[i..Min(o, |s|)]
    decreases k
  {
    var b := BatchesFrom(s, i, bs);
    if k == 0 {
      assert b[..k] == [];
    } else {
      NextOffset(i, bs, k);
      var rest := BatchesFrom(s, i + bs, bs);
      assert b == [s[i..Min(i + bs, |s|)]] + rest;
      assert b[..k] == [b[0]] + rest[..k - 1];
      FlattenCons(b[0], rest[..k - 1]);
      if i + bs <= |s| {
        FlattenPrefixFrom(s, i + bs, bs, k - 1, o);
        SliceSplit(s, i, i + bs, Min(o, |s|));
      } else {
        assert rest == [];
        assert rest[..k - 1] == [];
      }
    }
  }

  lemma FlattenCons<T>(x: seq<T>, rest: seq<seq<T>>)
    ensures Flatten([x] + rest) == x + Flatten(rest)
  {
    assert ([x] + rest)[1..] == rest;
  }

  lemma SliceSplit<T>(s: seq<T>, a: nat, b: nat, c: nat)
    requires a <= b <= c <= |s|
    ensures s[a..c] == s[a..b] + s[b..c]
  {
  }

  /** The first k batches hold exactly the first min(k*bs, |s|) records. */
  lemma FlattenPrefix<T>(s: seq<T>, bs: nat, k: nat)
    requires bs > 0 && k <= |Batches(s, bs)|
    ensures Flatten(Batches(s, bs)[..k]) == s[..Min(k * bs, |s|)]
  {
    FlattenPrefixFrom(s, 0, bs, k, k * bs);
  }

  /** From offset i on: one count per batch, each above i, none above n, strictly increasing. */
  lemma {:induction false} ProgressFromShape<T>(s: seq<T>, i: nat, bs: nat)
    requires bs > 0
    ensures |ProgressFrom(i, |s|, bs)| == |BatchesFrom(s, i, bs)|
    ensures forall j :: 0 <= j < |ProgressFrom(i, |s|, bs)| ==> i < ProgressFrom(i, |s|, bs)[j] <= |s|
    ensures forall j, k :: 0 <= j < k < |ProgressFrom(i, |s|, bs)| ==>
      ProgressFrom(i, |s|, bs)[j] < ProgressFrom(i, |s|, bs)[k]
    ensures i < |s| ==> ProgressFrom(i, |s|, bs)[|ProgressFrom(i, |s|, bs)| - 1] == |s|
    decreases |s| - i
  {
    if i < |s| {
      ProgressFromShape(s, i + bs, bs);
      var p := ProgressFrom(i, |s|, bs);
      var q := ProgressFrom(i + bs, |s|, bs);
      assert p == [Min(i + bs, |s|)] + q;
      forall j, k | 0 <= j < k < |p| ensures p[j] < p[k] {
        assert p[k] == q[k - 1];
        if j > 0 {
          assert p[j] == q[j - 1];
        }
      }
      if q == [] {
        assert i + bs >= |s|;
      }
    }
  }

  /**
   * The logged counts: one per batch, min((k+1)*bs, n) after batch k, strictly increasing,
   * and the last one is the number of records.
   */
  lemma ProgressShape<T>(s: seq<T>, bs: nat)
    requires bs > 0
    ensures forall j, k :: 0 <= j < k < |Progress(s, bs)| ==> Progress(s, bs)[j] < Progress(s, bs)[k]
    ensures |s| > 0 ==> Progress(s, bs)[|Progress(s, bs)| - 1] == |s|
  {
    ProgressFromShape(s, 0, bs);
  }

  lemma {:induction false} ProgressFromAt(i: nat, n: nat, bs: nat, k: nat)
    requires bs > 0 && k < |ProgressFrom(i, n, bs)|
    ensures ProgressFrom(i, n, bs)[k] == Min(i + k * bs + bs, n)
    decreases k
  {
    if k > 0 {
      ProgressFromAt(i + bs, n, bs, k - 1);
      NextOffset(i, bs, k);
    }
  }

  /** The count logged after batch k is the number of records the first k+1 batches hold. */
  lemma ProgressCountsInserted<T>(s: seq<T>, bs: nat, k: nat)
    requires bs > 0 && k < |Batches(s, bs)|
    ensures Progress(s, bs)[k] == Min((k + 1) * bs, |s|)
    ensures Progress(s, bs)[k] == |Flatten(Batches(s, bs)[..k + 1])|
  {
    ProgressShape(s, bs);
    ProgressFromAt(0, |s|, bs, k);
    FlattenPrefix(s, bs, k + 1);
    assert k * bs + bs == (k + 1) * bs;
  }

  /** With at most one batch's worth of records, the loop runs once and reports the total. */
  lemma OneBatch<T>(s: seq<T>, bs: nat)
    requires 0 < |s| <= bs
    ensures Batches(s, bs) == [s]
    ensures Progress(s, bs) == [|s|]
  {
    assert BatchesFrom(s, bs, bs) == [];
    assert ProgressFrom(bs, |s|, bs) == [];
    assert s[0..Min(bs, |s|)] == s;
  }
}
