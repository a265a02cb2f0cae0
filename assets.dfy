/** The chain-agnostic asset record and the well-known chains and assets that
    the two adapters share. */
module Assets {

  /** A token identified chain-agnostically; two assets are equal when all three fields are. */
  datatype Asset = Asset(chain: string, symbol: string, ticker: string)

  const THORChain: string := "THOR"
  const BCHChain: string := "BCH"
  const CosmosChain: string := "GAIA"

  /** Bitcoin Cash, an asset on a chain other than THORChain. */
  const AssetBCH: Asset := Asset(BCHChain, "BCH", "BCH")
}
