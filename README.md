# xchainjs utilities of the Cosmos and THORChain adapters, in Dafny

This project models the utility modules of two Cosmos-SDK chain clients of
xchainjs. Each client has its own utility module. Together they do four things:

- mapping between an asset (`{chain, symbol, ticker}`) and a chain's native
  denom, in both directions, with "no match" for anything not in the table;
- classifying THORChain assets as the native asset RUNE or as a synthetic asset;
- telling a single send (`MsgSend`) from a multi send (`MsgMultiSend`) by which
  fields a decoded message carries;
- checking a broadcast result, and building the query string of a history request.

The implementation files (`src/util.ts`, `src/types.ts` of either package) are not
part of this model. The model follows what the two test files pin down. Where they
leave a choice open, the choice is listed below.

Every operation is a pure function. Each one has a partner:
- the lookups are inverses of each other;
- `GetDenomWithChain` has a splitter that undoes it;
- `GetQueryString` has a parser that undoes it;
- each type guard accepts the shape it names and rejects the other one.

Files:

- `wrappers.dfy`: `Option`. The source's `null` result is `None` here.
- `strings.dfy`: first index of a character, join with a separator, split on a
  separator. It proves that split undoes join.
- `assets.dfy`: the `Asset` record and the chain constants `THOR`, `BCH`, `GAIA`.
- `denom_table.dfy`: a table of `(asset, denom)` pairs, looked up in both
  directions. For a table with no repeated asset or denom, it proves the two
  round trips.
- `thorchain_util.dfy`: module `ThorchainUtil`
  (`packages/xchain-thorchain/__tests__/util.test.ts`).
- `cosmos_util.dfy`: module `CosmosUtil`
  (`packages/xchain-cosmos/__tests__/util.test.ts`).

## Model

| member | source | states |
|---|---|---|
| DenomTable.DenomOf | packages/xchain-cosmos/__tests__/util.test.ts:74-82 | the denom found for an asset is listed with it in the table; no denom means the asset is not in the table |
| DenomTable.AssetOf | packages/xchain-cosmos/__tests__/util.test.ts:84-96 | the asset found for a denom is listed with it in the table; "no match" means the denom is not in the table |
| DenomTable.LookupEntry | packages/xchain-cosmos/__tests__/util.test.ts:74-91 | in a table with no repeated asset or denom, every entry can be looked up by its asset and by its denom |
| DenomTable.DenomThenAsset | packages/xchain-cosmos/__tests__/util.test.ts:74-91 | in such a table, looking up the asset of an asset's denom gives that asset |
| DenomTable.AssetThenDenom | packages/xchain-cosmos/__tests__/util.test.ts:74-91 | in such a table, looking up the denom of a denom's asset gives that denom |
| ThorchainUtil.IsAssetRuneExamples | packages/xchain-thorchain/__tests__/util.test.ts:19-33 | RUNE is the native asset; BCH and the THORChain synth ETH/ETH are not |
| ThorchainUtil.IsSynthAssetExamples | packages/xchain-thorchain/__tests__/util.test.ts:35-49 | ETH/ETH on THORChain is synthetic; BCH and RUNE are not |
| ThorchainUtil.NativeIsNotSynth | packages/xchain-thorchain/__tests__/util.test.ts:19-49 | no asset at all is both native and synthetic |
| ThorchainUtil.SynthOnlyOnThorchain | packages/xchain-thorchain/__tests__/util.test.ts:45-48 | an asset on any chain other than THORChain is never synthetic |
| ThorchainUtil.DenomsInjective | packages/xchain-thorchain/__tests__/util.test.ts:51-69 | the THORChain table repeats no asset and no denom |
| ThorchainUtil.DenomExamples | packages/xchain-thorchain/__tests__/util.test.ts:51-69 | the denom of RUNE is `rune`, the asset of `rune` is RUNE, and RUNE with its chain is `THOR.RUNE` |
| ThorchainUtil.GetAssetResolves | packages/xchain-thorchain/__tests__/util.test.ts:64-68 | `rune` resolves to RUNE, as tested; in the model's one-entry table no other denom resolves, which describes the model and not the program (see Left out) |
| ThorchainUtil.DenomThenAsset | packages/xchain-thorchain/__tests__/util.test.ts:53-67 | for every asset with a denom, getAsset(getDenom(a)) is a |
| ThorchainUtil.AssetThenDenom | packages/xchain-thorchain/__tests__/util.test.ts:53-67 | for every denom that resolves, getDenom(getAsset(d)) is d |
| ThorchainUtil.DenomWithChainRoundTrip | packages/xchain-thorchain/__tests__/util.test.ts:58-62 | the chain-qualified denom is chain, `.`, symbol: cutting it at the first `.` gives back chain and symbol when the chain has no `.` |
| ThorchainUtil.BroadcastSuccessByLogs | packages/xchain-thorchain/__tests__/util.test.ts:174-181 | present logs mean success, whatever they hold (empty included); absent logs mean failure |
| ThorchainUtil.BroadcastSuccessIgnoresOtherFields | packages/xchain-thorchain/__tests__/util.test.ts:174-181 | the raw log, hash and code do not change the verdict |
| ThorchainUtil.BroadcastExamples | packages/xchain-thorchain/__tests__/util.test.ts:175-180 | `{logs: []}` is a success and `{}` is not |
| CosmosUtil.SendIsNotMultiSend | packages/xchain-cosmos/__tests__/util.test.ts:43-70 | every decoded single send passes isMsgSend and fails isMsgMultiSend |
| CosmosUtil.MultiSendIsNotSend | packages/xchain-cosmos/__tests__/util.test.ts:9-70 | every decoded multi send passes isMsgMultiSend and fails isMsgSend |
| CosmosUtil.AsMsgSendRoundTrip | packages/xchain-cosmos/__tests__/util.test.ts:63-70 | narrowing a decoded single send gives back the same send; a narrowed message carries exactly the narrowed fields |
| CosmosUtil.AsMsgMultiSendRoundTrip | packages/xchain-cosmos/__tests__/util.test.ts:54-61 | the same for multi sends |
| CosmosUtil.NeitherKind | packages/xchain-cosmos/__tests__/util.test.ts:54-70 | a message that has none of the fields is neither kind, so one guard is not the negation of the other |
| CosmosUtil.TypeGuardExamples | packages/xchain-cosmos/__tests__/util.test.ts:9-70 | the test's multi send and single send are each classified as their own kind only |
| CosmosUtil.DenomsInjective | packages/xchain-cosmos/__tests__/util.test.ts:73-97 | the Cosmos table repeats no asset and no denom |
| CosmosUtil.DenomExamples | packages/xchain-cosmos/__tests__/util.test.ts:73-97 | ATOM maps to `uatom` and MUON to `umuon` and back; `unknown` gives "no match" and does not fail |
| CosmosUtil.GetAssetResolves | packages/xchain-cosmos/__tests__/util.test.ts:84-96 | a denom resolves exactly when it is `uatom` or `umuon` |
| CosmosUtil.DenomThenAsset | packages/xchain-cosmos/__tests__/util.test.ts:74-91 | for every asset with a denom, getAsset(getDenom(a)) is a |
| CosmosUtil.AssetThenDenom | packages/xchain-cosmos/__tests__/util.test.ts:74-91 | for every denom that resolves, getDenom(getAsset(d)) is d |
| CosmosUtil.ParseParamRoundTrip | packages/xchain-cosmos/__tests__/util.test.ts:168-179 | a `key=value` segment cut at its first `=` gives back key and value when the key has no `=` |
| CosmosUtil.QueryStringEmpty | packages/xchain-cosmos/__tests__/util.test.ts:168-179 | the query string is empty exactly when there are no parameters |
| CosmosUtil.QueryStringRoundTrip | packages/xchain-cosmos/__tests__/util.test.ts:168-179 | keys and values are copied unchanged and in order: parsing the query string gives the parameters back, if no key holds `&` or `=` and no value holds `&` |
| CosmosUtil.QueryStringConcat | packages/xchain-cosmos/__tests__/util.test.ts:168-179 | insertion order is kept: the query string of p followed by q is that of p, `&`, that of q |
| CosmosUtil.QueryStringExample | packages/xchain-cosmos/__tests__/util.test.ts:168-179 | the test's three parameters give exactly `message.Sender=<sender>&page=1&limit=5`, with the `.` in the key kept |

## Left out

- `getTxsFromHistory` (both adapters) is not modelled. Its implementation is not part of this model. Its two fixtures are not explained by any one plain rule: each fixture message carries 1000 base units, yet every entry is expected to carry 2000. Its inputs are also built by third-party codecs. The only fixture facts are these: the THORChain call gives 2 entries of asset RUNE, and the Cosmos call gives 2 entries of asset ATOM.
- `MsgSend.fromJSON`, `MsgMultiSend.fromObject` and `codec.packAny` come from a third-party codec library. The model has plain records instead: `SendToMsg` and `MultiSendToMsg` give the decoded form, a message whose absent fields are `None`.
- `baseAmount(…, 6)` and big-number equality are not modelled. Coin amounts are natural numbers in base units.
- Timestamps, the `testnet` network argument, gas, fee, memo and signature fields, and the test framework are not modelled. They do not bear on the modelled functions.
- ThorchainUtil.GetDenom: only the native entry is modelled (RUNE ↔ `rune`). Every other asset gets "no match", including synthetic assets. The program instead gives a synthetic THORChain asset a `CHAIN.SYMBOL`-style denom that round-trips through getAsset. The model does not capture that, because the tests do not pin down that denom's exact form.
- ThorchainUtil.GetAsset: only `rune` resolves. The program also resolves the `CHAIN.SYMBOL`-style denoms of synthetic assets, which the model does not capture, for the same reason.
- ThorchainUtil.GetAssetResolves: its "only `rune` resolves" half describes the model's one-entry table, not the program. The program also resolves the `CHAIN.SYMBOL`-style denoms of synthetic assets back to those assets, and the model does not capture that. Only the `rune` half is pinned by the tests.
- CosmosUtil.GetQueryString: it does no percent-encoding, and every parameter has a string value. The tests use no value that needs encoding and no parameter without a value. Leaving out a parameter whose value is absent is therefore not modelled.
- CosmosUtil.GetQueryString: parameters are a sequence in insertion order. JavaScript enumerates integer-like object keys first, in numeric order, and that reordering is not modelled.
- Constants: the chain ids `BCH` and `GAIA` and the tickers of RUNE, ATOM and MUON come from constants outside the model. Only `THOR` and the symbol `RUNE` are pinned by the tests, through `THOR.RUNE`.
- Asset equality compares all three fields. No test compares two assets that share chain and symbol but differ in ticker. So the tests do not settle whether `isAssetRune`, `getDenom` and `getAsset` compare the ticker, and comparing it is the model's choice.
- `isMsgSend` and `isMsgMultiSend` are TypeScript type guards. The narrowing they give the type checker is modelled as `AsMsgSend` and `AsMsgMultiSend`, which return the typed message or `None`.
