/**
 The change-set that a Node reports when it synchronises. The Node computes it with
 PHP's `array_diff(live, baseline)`, which compares VALUES only: an entry of the live
 data survives exactly when its value equals no value anywhere in the baseline, and it
 keeps its original key. It is therefore not a key-wise comparison: values swapped
 between two keys, or a key deleted from the live data, produce no change at all.
 */
module ArrayDiff {
  import opened Fields

  /** The reference definition of `array_diff(live, baseline)`. */
  function Changes<V(==)>(live: Data<V>, baseline: Data<V>): (c: Data<V>)
    ensures c.Keys <= live.Keys
    ensures forall k :: k in c ==> c[k] == live[k]
    ensures forall k :: k in live ==> (k in c <==> live[k] !in baseline.Values)
  {
    map k | k in live && live[k] !in baseline.Values :: live[k]
  }

  /** Whether `v` equals the value stored under some key of `m`, found by scanning
      every entry of `m` as `array_diff` does for each candidate value. */
  method Occurs<V(==)>(v: V, m: Data<V>) returns (found: bool)
    ensures found <==> v in m.Values
  {
    found := false;
    var todo := m.Keys;
    while todo != {}
      invariant todo <= m.Keys
      invariant found <==> exists k :: k in m && k !in todo && m[k] == v
      decreases todo
    {
      var k :| k in todo;
      if m[k] == v {
        found := true;
      }
      todo := todo - {k};
    }
    if v in m.Values {
      var k :| k in m && m[k] == v;
      assert k !in todo;
    }
  }

  /** `array_diff` as an algorithm: keep each live entry whose value the baseline
      does not hold anywhere. */
  method ComputeChanges<V(==)>(live: Data<V>, baseline: Data<V>) returns (c: Data<V>)
    ensures c == Changes(live, baseline)
  {
    c := map[];
    var todo := live.Keys;
    while todo != {}
      invariant todo <= live.Keys
      invariant forall k :: k in c <==> k in live && k !in todo && live[k] !in baseline.Values
      invariant forall k :: k in c ==> c[k] == live[k]
      decreases todo
    {
      var k :| k in todo;
      var found := Occurs(live[k], baseline);
      if !found {
        c := c[k := live[k]];
      }
      todo := todo - {k};
    }
    assert c.Keys == Changes(live, baseline).Keys;
  }

  /** The change-set is empty exactly when every live value already occurs among the
      baseline values, whatever keys they sit under. */
  lemma NoChangesIffValuesCovered<V>(live: Data<V>, baseline: Data<V>)
    ensures Changes(live, baseline) == map[] <==> live.Values <= baseline.Values
  {
    var c := Changes(live, baseline);
    if c == map[] {
      forall v | v in live.Values
        ensures v in baseline.Values
      {
        var k :| k in live && live[k] == v;
        assert k !in c;
      }
    } else {
      var k :| k in c;
      assert live[k] in live.Values;
    }
  }

  /** Comparing data with itself reports nothing. */
  lemma SelfDiffIsEmpty<V>(d: Data<V>)
    ensures Changes(d, d) == map[]
  {
    NoChangesIffValuesCovered(d, d);
  }

  /** Deleting keys from the data, and nothing else, is never reported: the deletion
      asymmetry of the value-based diff. */
  lemma RemovalAloneReportsNothing<V>(baseline: Data<V>, removed: set<string>)
    ensures Changes(baseline - removed, baseline) == map[]
  {
    var live := baseline - removed;
    forall v | v in live.Values
      ensures v in baseline.Values
    {
      var k :| k in live && live[k] == v;
      assert baseline[k] == v;
    }
    NoChangesIffValuesCovered(live, baseline);
  }

  /** Swapping the values of two keys changes the value under every key, yet the
      value-based diff reports nothing. */
  lemma SwapIsNotReported<V>(a: string, b: string, x: V, y: V)
    requires a != b && x != y
    ensures var baseline := map[a := x, b := y];
            var live := map[a := y, b := x];
            && live.Keys == baseline.Keys
            && (forall k :: k in live ==> live[k] != baseline[k])
            && Changes(live, baseline) == map[]
  {
    var baseline := map[a := x, b := y];
    var live := map[a := y, b := x];
    assert baseline[a] == x && baseline[b] == y;
    assert live.Values <= baseline.Values;
    NoChangesIffValuesCovered(live, baseline);
  }
}
