/** Right-biased dictionary merging: `Merge` and `MergeAll`
    (hass-hgl-to-yaml.py lines 249-258). */
module Merge {

  /** `{**a, **b}`: every key of either map, the right one winning. */
  function Merge<K, V>(a: map<K, V>, b: map<K, V>): (r: map<K, V>)
    ensures r.Keys == a.Keys + b.Keys
    ensures forall k :: k in b ==> r[k] == b[k]
    ensures forall k :: k in a && k !in b ==> r[k] == a[k]
  {
    a + b
  }

  /** What `MergeAll(ds)` computes: the maps merged from left to right. */
  function MergedAll<K, V>(ds: seq<map<K, V>>): map<K, V>
    decreases |ds|
  {
    if |ds| == 0 then map[] else MergedAll(ds[..|ds| - 1]) + ds[|ds| - 1]
  }

  /** `MergeAll`: `res = {}`, then `res = {**res, **d}` for each map in turn. */
  method MergeAll<K, V>(ds: seq<map<K, V>>) returns (res: map<K, V>)
    ensures res == MergedAll(ds)
  {
    res := map[];
    for i := 0 to |ds|
      invariant res == MergedAll(ds[..i])
    {
      assert ds[..i + 1][..i] == ds[..i];
      res := res + ds[i];
    }
    assert ds[..|ds|] == ds;
  }

  /** A key is in the merged map exactly when some input map holds it. */
  lemma {:induction false} MergedAllKeys<K, V>(ds: seq<map<K, V>>, k: K)
    ensures k in MergedAll(ds) <==> exists i :: 0 <= i < |ds| && k in ds[i]
    decreases |ds|
  {
    if |ds| > 0 {
      var init := ds[..|ds| - 1];
      MergedAllKeys(init, k);
      if k in MergedAll(ds) && k !in ds[|ds| - 1] {
        var i :| 0 <= i < |init| && k in init[i];
        assert k in ds[i];
      }
      if exists i :: 0 <= i < |ds| && k in ds[i] {
        var i :| 0 <= i < |ds| && k in ds[i];
        if i < |ds| - 1 {
          assert k in init[i];
        }
      }
    }
  }

  /** The merged value of a key comes from the last input map holding it. */
  lemma {:induction false} MergedAllLast<K, V>(ds: seq<map<K, V>>, i: nat, k: K)
    requires i < |ds| && k in ds[i]
    requires forall j :: i < j < |ds| ==> k !in ds[j]
    ensures k in MergedAll(ds) && MergedAll(ds)[k] == ds[i][k]
    decreases |ds|
  {
    if i < |ds| - 1 {
      var init := ds[..|ds| - 1];
      MergedAllLast(init, i, k);
    }
  }

  /** Merging a sequence one map longer is merging once more on the right. */
  lemma MergedAllSnoc<K, V>(ds: seq<map<K, V>>, d: map<K, V>)
    ensures MergedAll(ds + [d]) == Merge(MergedAll(ds), d)
  {
    assert (ds + [d])[..|ds|] == ds;
  }
}
