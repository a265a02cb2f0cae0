/** Utilities of the THORChain adapter: the native asset RUNE and its denom,
    synthetic assets, the `CHAIN.SYMBOL` denom form, and the check of a
    broadcast result. */
module ThorchainUtil {
  import opened Wrappers
  import opened Assets
  import opened Strings
  import DenomTable

  /** The native asset of THORChain. */
  const AssetRune: Asset := Asset(THORChain, "RUNE", "RUNE")

  /** The on-chain denom of RUNE. */
  const RuneDenom: string := "rune"

  /** The character that separates the two halves of a synthetic asset's symbol. */
  const SynthSeparator: char := '/'

  /** The character between chain and symbol in `GetDenomWithChain`. */
  const ChainSeparator: char := '.'

  /** The synthetic asset ETH/ETH, held on THORChain. */
  const AssetSynthEth: Asset := Asset(THORChain, "ETH/ETH", "ETH/ETH")

  /** The denom table of THORChain: RUNE is its only native entry. */
  const Denoms: DenomTable.Table := [(AssetRune, RuneDenom)]

  predicate IsAssetRune(a: Asset)
  {
    a == AssetRune
  }

  /** A synthetic asset lives on THORChain and carries the separator in its symbol. */
  predicate IsSynthAsset(a: Asset)
  {
    a.chain == THORChain && SynthSeparator in a.symbol
  }

  function GetDenom(a: Asset): Option<string>
  {
    DenomTable.DenomOf(Denoms, a)
  }

  function GetAsset(d: string): Option<Asset>
  {
    DenomTable.AssetOf(Denoms, d)
  }

  /** The chain, then the separator, then the symbol. */
  function GetDenomWithChain(a: Asset): string
  {
    a.chain + [ChainSeparator] + a.symbol
  }

  /** The inverse of `GetDenomWithChain`: cut at the first separator into chain and symbol. */
  function SplitDenomWithChain(s: string): Option<(string, string)>
  {
    match IndexOf(s, ChainSeparator)
    case None => None
    case Some(i) => Some((s[..i], s[i + 1..]))
  }

  /** One log entry of an executed message. */
  datatype Log = Log(msgIndex: nat, log: string)

  /** The fields of a node's answer to a broadcast; each may be absent. */
  datatype BroadcastTxResult = BroadcastTxResult(
    logs: Option<seq<Log>>,
    rawLog: Option<string>,
    txhash: Option<string>,
    code: Option<int>)

  predicate IsBroadcastSuccess(r: BroadcastTxResult)
  {
    r.logs.Some?
  }

  // ---- asset classification ----

  lemma IsAssetRuneExamples()
    ensures IsAssetRune(AssetRune)
    ensures !IsAssetRune(AssetBCH)
    ensures !IsAssetRune(AssetSynthEth)
  {
  }

  lemma IsSynthAssetExamples()
    ensures IsSynthAsset(AssetSynthEth)
    ensures !IsSynthAsset(AssetBCH)
    ensures !IsSynthAsset(AssetRune)
  {
    assert AssetSynthEth.symbol[3] == SynthSeparator;
  }

  /** No asset is both the native asset and a synthetic one. */
  lemma NativeIsNotSynth(a: Asset)
    ensures !(IsAssetRune(a) && IsSynthAsset(a))
  {
  }

  /** Only assets of THORChain are synthetic. */
  lemma SynthOnlyOnThorchain(a: Asset)
    requires a.chain != THORChain
    ensures !IsSynthAsset(a)
  {
  }

  // ---- denom <-> asset ----

  lemma DenomsInjective()
    ensures DenomTable.Injective(Denoms)
  {
  }

  lemma DenomExamples()
    ensures GetDenom(AssetRune) == Some("rune")
    ensures GetAsset("rune") == Some(AssetRune)
    ensures GetDenomWithChain(AssetRune) == "THOR.RUNE"
  {
  }

  /** `rune` resolves to RUNE; in this one-entry table no other denom resolves
      (denoms of synthetic assets are outside the model). */
  lemma GetAssetResolves(d: string)
    ensures GetAsset(d).Some? <==> d == RuneDenom
    ensures GetAsset(d).Some? ==> GetAsset(d).value == AssetRune
  {
  }

  /** `GetAsset` undoes `GetDenom` for every asset that has a denom. */
  lemma DenomThenAsset(a: Asset)
    ensures GetDenom(a).Some? ==> GetAsset(GetDenom(a).value) == Some(a)
  {
    DenomsInjective();
    DenomTable.DenomThenAsset(Denoms, a);
  }

  /** `GetDenom` undoes `GetAsset` for every denom that resolves. */
  lemma AssetThenDenom(d: string)
    ensures GetAsset(d).Some? ==> GetDenom(GetAsset(d).value) == Some(d)
  {
    DenomsInjective();
    DenomTable.AssetThenDenom(Denoms, d);
  }

  /** Splitting the chain-qualified denom gives back chain and symbol,
      for every chain name without the separator. */
  lemma DenomWithChainRoundTrip(a: Asset)
    requires ChainSeparator !in a.chain
    ensures SplitDenomWithChain(GetDenomWithChain(a)) == Some((a.chain, a.symbol))
  {
    var s := GetDenomWithChain(a);
    IndexOfAfterPrefix(a.chain, ChainSeparator, a.symbol);
    assert s[..|a.chain|] == a.chain;
    assert s[|a.chain| + 1..] == a.symbol;
  }

  // ---- broadcast result ----

  /** Present logs mean success whatever they hold, empty included; absent logs mean failure. */
  lemma BroadcastSuccessByLogs(r: BroadcastTxResult, logs: seq<Log>)
    ensures IsBroadcastSuccess(r.(logs := Some(logs)))
    ensures !IsBroadcastSuccess(r.(logs := None))
  {
  }

  /** No field other than `logs` decides success. */
  lemma BroadcastSuccessIgnoresOtherFields(r: BroadcastTxResult, rawLog: Option<string>, txhash: Option<string>, code: Option<int>)
    ensures IsBroadcastSuccess(BroadcastTxResult(r.logs, rawLog, txhash, code)) == IsBroadcastSuccess(r)
  {
  }

  lemma BroadcastExamples()
    ensures IsBroadcastSuccess(BroadcastTxResult(Some([]), None, None, None))
    ensures !IsBroadcastSuccess(BroadcastTxResult(None, None, None, None))
  {
  }
}
