/** The records the observer reads and writes: funding-asset configuration
    rows, transfer-ledger rows, and the balance snapshots the extractor
    returns. Decimals are `real`; a DateTime is its tick count. */
module Domain {

  /** One row of the asset configuration table, keyed by (AssetSymbol, Network). */
  datatype ObserverAsset = ObserverAsset(
    assetSymbol: string,
    weight: int,
    network: string,
    minTransferAmount: real,
    lockedUntil: int,
    binanceSymbol: string,
    lockTimeInMin: int,
    isEnabled: bool)

  /** One row of the transfer ledger; `transferId` is the identity column. */
  datatype ObserverTransfer = ObserverTransfer(
    transferId: int,
    from: string,
    to: string,
    asset: string,
    amount: real,
    indexPrice: real,
    reason: string,
    timeStamp: int)

  /** A margin or main balance as the balance extractor reports it. */
  datatype ExchangeBalance = ExchangeBalance(
    symbol: string,
    balance: real,
    borrowed: real,
    positiveBalance: real)

  /** A custody-vault balance for one (asset, network, vault account). */
  datatype FbBalance = FbBalance(asset: string, network: string, vaultAccount: int, amount: real)

  /** A custody vault account: its id, its priority and its per-asset reserve floors. */
  datatype VaultAccount = VaultAccount(vaultAccountId: int, weight: int, minBalances: map<string, real>)

  /** DateTime.Ticks per minute (one tick is 100 ns). */
  const TicksPerMinute: int := 600000000

  /** DateTime.AddMinutes on a tick count. */
  function AddMinutes(ticks: int, minutes: int): (r: int)
    ensures minutes >= 0 ==> r >= ticks
    ensures minutes > 0 ==> r > ticks
  {
    ticks + minutes * TicksPerMinute
  }

  function AssetWeight(a: ObserverAsset): int { a.weight }

  function VaultWeight(v: VaultAccount): int { v.weight }

  function TransferIdOf(t: ObserverTransfer): int { t.transferId }

  /** No two asset rows share the table key (AssetSymbol, Network). */
  ghost predicate AssetKeysUnique(assets: seq<ObserverAsset>)
  {
    forall i, j :: 0 <= i < j < |assets| ==>
      (assets[i].assetSymbol, assets[i].network) != (assets[j].assetSymbol, assets[j].network)
  }
}
