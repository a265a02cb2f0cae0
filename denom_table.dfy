/** A fixed table pairing assets with the native denoms of a chain, looked up
    in both directions. An asset or denom that is not in the table gives "no match". */
module DenomTable {
  import opened Wrappers
  import opened Assets

  type Table = seq<(Asset, string)>

  /** No asset and no denom appears twice, so the table is a bijection between its two columns. */
  predicate Injective(t: Table)
  {
    forall i, j :: 0 <= i < j < |t| ==> t[i].0 != t[j].0 && t[i].1 != t[j].1
  }

  /** The denom the table lists for `a`; `None` exactly when `a` is not in the table. */
  function DenomOf(t: Table, a: Asset): (r: Option<string>)
    ensures r.Some? ==> (a, r.value) in t
    ensures r.None? ==> forall i :: 0 <= i < |t| ==> t[i].0 != a
  {
    if |t| == 0 then None
    else if t[0].0 == a then Some(t[0].1)
    else DenomOf(t[1..], a)
  }

  /** The asset the table lists for `d`; `None` exactly when `d` is not in the table. */
  function AssetOf(t: Table, d: string): (r: Option<Asset>)
    ensures r.Some? ==> (r.value, d) in t
    ensures r.None? ==> forall i :: 0 <= i < |t| ==> t[i].1 != d
  {
    if |t| == 0 then None
    else if t[0].1 == d then Some(t[0].0)
    else AssetOf(t[1..], d)
  }

  /** In an injective table, an entry is found by either of its columns. */
  lemma {:induction false} LookupEntry(t: Table, k: nat)
    requires Injective(t) && k < |t|
    ensures DenomOf(t, t[k].0) == Some(t[k].1)
    ensures AssetOf(t, t[k].1) == Some(t[k].0)
  {
    if k > 0 {
      assert t[0].0 != t[k].0 && t[0].1 != t[k].1;
      assert t[1..][k - 1] == t[k];
      LookupEntry(t[1..], k - 1);
    }
  }

  /** Looking up the asset of an asset's denom gives that asset back. */
  lemma DenomThenAsset(t: Table, a: Asset)
    requires Injective(t)
    ensures DenomOf(t, a).Some? ==> AssetOf(t, DenomOf(t, a).value) == Some(a)
  {
    if DenomOf(t, a).Some? {
      var k :| 0 <= k < |t| && t[k] == (a, DenomOf(t, a).value);
      LookupEntry(t, k);
    }
  }

  /** Looking up the denom of a denom's asset gives that denom back. */
  lemma AssetThenDenom(t: Table, d: string)
    requires Injective(t)
    ensures AssetOf(t, d).Some? ==> DenomOf(t, AssetOf(t, d).value) == Some(d)
  {
    if AssetOf(t, d).Some? {
      var k :| 0 <= k < |t| && t[k] == (AssetOf(t, d).value, d);
      LookupEntry(t, k);
    }
  }
}
