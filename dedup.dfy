/**
 * Keeping the first item for each key, as the scraper's loops do with a `seen` set:
 * an item whose key is already in the set is skipped, any other is appended and its key added.
 */
module Dedup {

  function Keys<T, K(==)>(xs: seq<T>, key: T -> K): set<K>
  {
    set i | 0 <= i < |xs| :: key(xs[i])
  }

  /** The items with every item after the first one for its key dropped. */
  function FirstByKey<T, K(==)>(xs: seq<T>, key: T -> K): seq<T>
  {
    if xs == [] then []
    else
      var prefix := xs[..|xs| - 1];
      var last := xs[|xs| - 1];
      FirstByKey(prefix, key) + (if key(last) in Keys(prefix, key) then [] else [last])
  }

  /** The positions `FirstByKey` keeps. */
  function KeptPositions<T, K(==)>(xs: seq<T>, key: T -> K): seq<nat>
  {
    if xs == [] then []
    else
      var prefix := xs[..|xs| - 1];
      KeptPositions(prefix, key) + (if key(xs[|xs| - 1]) in Keys(prefix, key) then [] else [|xs| - 1])
  }

  /** `FirstByKey` picks, in input order, the items at `KeptPositions`. */
  lemma {:induction false} KeptPositionsPick<T, K>(xs: seq<T>, key: T -> K)
    ensures |KeptPositions(xs, key)| == |FirstByKey(xs, key)|
    ensures forall j :: 0 <= j < |KeptPositions(xs, key)| ==>
              KeptPositions(xs, key)[j] < |xs| && FirstByKey(xs, key)[j] == xs[KeptPositions(xs, key)[j]]
    ensures forall i, j :: 0 <= i < j < |KeptPositions(xs, key)| ==> KeptPositions(xs, key)[i] < KeptPositions(xs, key)[j]
  {
    if xs != [] {
      var prefix := xs[..|xs| - 1];
      KeptPositionsPick(prefix, key);
      assert forall k :: 0 <= k < |prefix| ==> xs[k] == prefix[k];
    }
  }

  /** Every kept item is the first one in the input with its key. */
  lemma {:induction false} KeptPositionsAreFirst<T, K>(xs: seq<T>, key: T -> K)
    ensures forall j, m :: 0 <= j < |KeptPositions(xs, key)| && 0 <= m < KeptPositions(xs, key)[j] < |xs| ==>
              key(xs[m]) != key(xs[KeptPositions(xs, key)[j]])
  {
    if xs != [] {
      var n := |xs|;
      var prefix := xs[..n - 1];
      KeptPositionsAreFirst(prefix, key);
      KeptPositionsPick(prefix, key);
      assert forall k :: 0 <= k < n - 1 ==> xs[k] == prefix[k];
      if key(xs[n - 1]) !in Keys(prefix, key) {
        forall m | 0 <= m < n - 1 ensures key(xs[m]) != key(xs[n - 1]) {
          assert key(prefix[m]) in Keys(prefix, key);
        }
      }
    }
  }

  lemma KeysSnoc<T, K>(xs: seq<T>, x: T, key: T -> K)
    ensures Keys(xs + [x], key) == Keys(xs, key) + {key(x)}
  {
    var ys := xs + [x];
    forall k | k in Keys(ys, key) ensures k in Keys(xs, key) + {key(x)} {
      var i :| 0 <= i < |ys| && key(ys[i]) == k;
      if i < |xs| {
        assert key(xs[i]) == k;
      }
    }
    forall k | k in Keys(xs, key) + {key(x)} ensures k in Keys(ys, key) {
      if k in Keys(xs, key) {
        var i :| 0 <= i < |xs| && key(xs[i]) == k;
        assert key(ys[i]) == k;
      } else {
        assert key(ys[|xs|]) == k;
      }
    }
  }

  /** Every key of the input survives. */
  lemma {:induction false} FirstByKeyKeepsEveryKey<T, K>(xs: seq<T>, key: T -> K)
    ensures Keys(FirstByKey(xs, key), key) == Keys(xs, key)
  {
    if xs != [] {
      var prefix := xs[..|xs| - 1];
      var last := xs[|xs| - 1];
      FirstByKeyKeepsEveryKey(prefix, key);
      assert xs == prefix + [last];
      KeysSnoc(prefix, last, key);
      if key(last) in Keys(prefix, key) {
        assert FirstByKey(xs, key) == FirstByKey(prefix, key) + [];
        assert FirstByKey(prefix, key) + [] == FirstByKey(prefix, key);
      } else {
        KeysSnoc(FirstByKey(prefix, key), last, key);
      }
    }
  }

  /** No key occurs twice among the kept items. */
  lemma FirstByKeyDistinct<T, K>(xs: seq<T>, key: T -> K)
    ensures forall i, j :: 0 <= i < j < |FirstByKey(xs, key)| ==> key(FirstByKey(xs, key)[i]) != key(FirstByKey(xs, key)[j])
  {
    var kept := KeptPositions(xs, key);
    KeptPositionsPick(xs, key);
    KeptPositionsAreFirst(xs, key);
    forall i, j | 0 <= i < j < |FirstByKey(xs, key)|
      ensures key(FirstByKey(xs, key)[i]) != key(FirstByKey(xs, key)[j])
    {
      assert 0 <= kept[i] < kept[j] < |xs|;
    }
  }

  /** One step of the `seen`-set loop: the kept items and the seen keys after one more item. */
  lemma FirstByKeyStep<T, K>(xs: seq<T>, x: T, key: T -> K)
    ensures Keys(xs + [x], key) == Keys(xs, key) + {key(x)}
    ensures FirstByKey(xs + [x], key) == FirstByKey(xs, key) + (if key(x) in Keys(xs, key) then [] else [x])
  {
    assert (xs + [x])[..|xs|] == xs;
    KeysSnoc(xs, x, key);
  }
}
