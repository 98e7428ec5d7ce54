/** The state shared by both jobs and its primitives (ObserverJobHelper, and
    the copies of LockAsset, AddToMonitor and ResetMonitor inside the borrow
    checker job): the asset configuration table, the append-only transfer
    ledger with its identity counter, and the debt-monitor table. */
module JobHelper {
  import opened Common
  import opened Domain
  import opened MonitorEntity

  /** MaxDate: the later of two instants, compared by ticks. */
  function MaxDate(currentLock: int, newLock: int): (r: int)
    ensures r >= currentLock && r >= newLock
    ensures r == currentLock || r == newLock
  {
    if currentLock >= newLock then currentLock else newLock
  }

  /** One row after LockAsset(assetSymbol) asked for a lock lasting until `until`. */
  function LockRow(a: ObserverAsset, assetSymbol: string, until: int): ObserverAsset
  {
    if a.assetSymbol == assetSymbol then a.(lockedUntil := MaxDate(a.lockedUntil, until)) else a
  }

  /** The asset table after LockAsset(assetSymbol): every row of that symbol,
      on any network, is locked until at least `until`; a lock never moves
      earlier; other rows and other columns are untouched. */
  function LockRows(assets: seq<ObserverAsset>, assetSymbol: string, until: int): (r: seq<ObserverAsset>)
    ensures |r| == |assets|
    ensures forall i :: 0 <= i < |r| ==> r[i] == assets[i].(lockedUntil := r[i].lockedUntil)
    ensures forall i :: 0 <= i < |r| ==> r[i].lockedUntil >= assets[i].lockedUntil
    ensures forall i :: 0 <= i < |r| && assets[i].assetSymbol == assetSymbol ==>
      r[i].lockedUntil == MaxDate(assets[i].lockedUntil, until) && r[i].lockedUntil >= until
    ensures forall i :: 0 <= i < |r| && assets[i].assetSymbol != assetSymbol ==> r[i] == assets[i]
  {
    seq(|assets|, i requires 0 <= i < |assets| => LockRow(assets[i], assetSymbol, until))
  }

  /** Locking twice with the same instant is the same as locking once. */
  lemma LockRowsIdempotent(assets: seq<ObserverAsset>, assetSymbol: string, until: int)
    ensures LockRows(LockRows(assets, assetSymbol, until), assetSymbol, until) == LockRows(assets, assetSymbol, until)
  {
    var once := LockRows(assets, assetSymbol, until);
    var twice := LockRows(once, assetSymbol, until);
    forall i | 0 <= i < |assets| ensures twice[i] == once[i] {
    }
  }

  /** Locking keeps the table key of every row, so it keeps the keys unique. */
  lemma LockRowsKeepsKeys(assets: seq<ObserverAsset>, assetSymbol: string, until: int)
    requires AssetKeysUnique(assets)
    ensures AssetKeysUnique(LockRows(assets, assetSymbol, until))
  {
    var r := LockRows(assets, assetSymbol, until);
    forall i, j | 0 <= i < j < |r|
      ensures (r[i].assetSymbol, r[i].network) != (r[j].assetSymbol, r[j].network)
    {
      assert r[i].assetSymbol == assets[i].assetSymbol && r[i].network == assets[i].network;
      assert r[j].assetSymbol == assets[j].assetSymbol && r[j].network == assets[j].network;
    }
  }

  /** Ledger rows as the identity column numbers them, from `firstId` on. */
  function Numbered(recs: seq<ObserverTransfer>, firstId: int): seq<ObserverTransfer>
  {
    seq(|recs|, k requires 0 <= k < |recs| => recs[k].(transferId := firstId + k))
  }

  lemma NumberedAppend(a: seq<ObserverTransfer>, b: seq<ObserverTransfer>, firstId: int)
    ensures Numbered(a + b, firstId) == Numbered(a, firstId) + Numbered(b, firstId + |a|)
  {
    var l := Numbered(a + b, firstId);
    var r := Numbered(a, firstId) + Numbered(b, firstId + |a|);
    assert |l| == |r|;
    forall k | 0 <= k < |l| ensures l[k] == r[k] {
      if k < |a| {
      } else {
        assert (a + b)[k] == b[k - |a|];
      }
    }
  }

  /** Identity values grow along the ledger and stay below the next one to hand out. */
  ghost predicate LedgerNumbered(transfers: seq<ObserverTransfer>, nextId: int)
  {
    && (forall i, j :: 0 <= i < j < |transfers| ==> transfers[i].transferId < transfers[j].transferId)
    && (forall i :: 0 <= i < |transfers| ==> transfers[i].transferId < nextId)
  }

  /** Appending rows numbered from the counter keeps the ledger numbered. */
  lemma NumberedExtends(transfers: seq<ObserverTransfer>, nextId: int, recs: seq<ObserverTransfer>)
    requires LedgerNumbered(transfers, nextId)
    ensures LedgerNumbered(transfers + Numbered(recs, nextId), nextId + |recs|)
  {
  }

  /** The storage both jobs share: the configuration table, the transfer
      ledger and the debt-monitor table. */
  class ObserverStore {
    var assets: seq<ObserverAsset>
    var transfers: seq<ObserverTransfer>
    var nextTransferId: int
    var monitor: map<TableKey, TransfersMonitorEntity>

    ghost predicate Valid()
      reads this
    {
      AssetKeysUnique(assets) && LedgerNumbered(transfers, nextTransferId)
    }

    /** A store holding the given configuration, an empty ledger whose
        identity column starts at 1, and no monitor rows. */
    constructor (initialAssets: seq<ObserverAsset>)
      requires AssetKeysUnique(initialAssets)
      ensures Valid()
      ensures assets == initialAssets && transfers == [] && nextTransferId == 1 && monitor == map[]
    {
      assets := initialAssets;
      transfers := [];
      nextTransferId := 1;
      monitor := map[];
    }

    /** SaveTransfer: appends exactly one row, numbered by the identity
        column, and leaves every existing row as it was. */
    method SaveTransfer(t: ObserverTransfer)
      requires Valid()
      modifies this
      ensures Valid()
      ensures transfers == old(transfers) + [t.(transferId := old(nextTransferId))]
      ensures nextTransferId == old(nextTransferId) + 1
      ensures assets == old(assets) && monitor == old(monitor)
    {
      transfers := transfers + [t.(transferId := nextTransferId)];
      nextTransferId := nextTransferId + 1;
    }

    /** GetAssets: the whole configuration table; nothing changes. */
    method GetAssets() returns (r: seq<ObserverAsset>)
      ensures r == assets
    {
      r := assets;
    }

    /** LockAsset: extends the lock of every row of `assetSymbol` to at least
        `now + assetLockTime` minutes, row by row. */
    method LockAsset(assetSymbol: string, assetLockTime: int, now: int)
      requires Valid()
      modifies this
      ensures Valid()
      ensures assets == LockRows(old(assets), assetSymbol, AddMinutes(now, assetLockTime))
      ensures transfers == old(transfers) && nextTransferId == old(nextTransferId) && monitor == old(monitor)
    {
      ghost var before := assets;
      var until := AddMinutes(now, assetLockTime);
      LockRowsKeepsKeys(before, assetSymbol, until);
      var i := 0;
      while i < |assets|
        invariant 0 <= i <= |assets| == |before|
        invariant forall k :: 0 <= k < i ==> assets[k] == LockRow(before[k], assetSymbol, until)
        invariant forall k :: i <= k < |assets| ==> assets[k] == before[k]
        invariant transfers == old(transfers) && nextTransferId == old(nextTransferId) && monitor == old(monitor)
      {
        if assets[i].assetSymbol == assetSymbol {
          assets := assets[i := assets[i].(lockedUntil := MaxDate(assets[i].lockedUntil, until))];
        }
        i := i + 1;
      }
      assert assets == LockRows(before, assetSymbol, until);
    }

    /** AddToMonitor: inserts or replaces the one row of `symbol`. */
    method AddToMonitor(symbol: string, borrowedBalance: real, reason: string, comment: string, entryType: string, now: int)
      requires Valid()
      modifies this
      ensures Valid()
      ensures monitor == old(monitor)[KeyOf(symbol) := Create(symbol, borrowedBalance, now, reason, comment, entryType)]
      ensures assets == old(assets) && transfers == old(transfers) && nextTransferId == old(nextTransferId)
    {
      monitor := monitor[KeyOf(symbol) := Create(symbol, borrowedBalance, now, reason, comment, entryType)];
    }

    /** ResetMonitor: deletes the row of `asset`, if there is one. */
    method ResetMonitor(asset: string)
      requires Valid()
      modifies this
      ensures Valid()
      ensures monitor == old(monitor) - {KeyOf(asset)}
      ensures assets == old(assets) && transfers == old(transfers) && nextTransferId == old(nextTransferId)
    {
      monitor := monitor - {KeyOf(asset)};
    }
  }

  /** After an upsert for `symbol`, that symbol has exactly the new row and
      every other symbol keeps its row or its absence. */
  lemma UpsertMonitorFacts(m: map<TableKey, TransfersMonitorEntity>, symbol: string, e: TransfersMonitorEntity, other: string)
    requires other != symbol
    ensures KeyOf(symbol) in m[KeyOf(symbol) := e] && m[KeyOf(symbol) := e][KeyOf(symbol)] == e
    ensures KeyOf(other) in m[KeyOf(symbol) := e] <==> KeyOf(other) in m
    ensures KeyOf(other) in m ==> m[KeyOf(symbol) := e][KeyOf(other)] == m[KeyOf(other)]
  {
    KeyOfInjective(symbol, other);
  }

  /** After a reset for `symbol`, that symbol has no row and every other
      symbol keeps its row or its absence. */
  lemma ResetMonitorFacts(m: map<TableKey, TransfersMonitorEntity>, symbol: string, other: string)
    requires other != symbol
    ensures KeyOf(symbol) !in m - {KeyOf(symbol)}
    ensures KeyOf(other) in m - {KeyOf(symbol)} <==> KeyOf(other) in m
    ensures KeyOf(other) in m ==> (m - {KeyOf(symbol)})[KeyOf(other)] == m[KeyOf(other)]
  {
    KeyOfInjective(symbol, other);
  }

  /** An upsert through Create keeps every row under its own key. */
  lemma UpsertKeepsKeyed(m: map<TableKey, TransfersMonitorEntity>, symbol: string, debt: real, timestamp: int,
                         reason: string, comment: string, entryType: string)
    requires MonitorKeyed(m)
    ensures MonitorKeyed(m[KeyOf(symbol) := Create(symbol, debt, timestamp, reason, comment, entryType)])
  {
  }

  /** A delete keeps every remaining row under its own key. */
  lemma ResetKeepsKeyed(m: map<TableKey, TransfersMonitorEntity>, symbol: string)
    requires MonitorKeyed(m)
    ensures MonitorKeyed(m - {KeyOf(symbol)})
  {
  }

  /** A keyed monitor table holds at most one row per asset symbol. */
  lemma OneRowPerSymbol(m: map<TableKey, TransfersMonitorEntity>, k1: TableKey, k2: TableKey)
    requires MonitorKeyed(m) && k1 in m && k2 in m
    requires m[k1].asset == m[k2].asset
    ensures k1 == k2
  {
  }
}
