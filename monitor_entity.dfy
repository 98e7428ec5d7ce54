/** The debt-monitor row (TransfersMonitorNoSqlEntity): its key functions and
    its `Create` factory. A row lives under (PartitionKey, RowKey). */
module MonitorEntity {
  import opened Common

  datatype TableKey = TableKey(partitionKey: string, rowKey: string)

  datatype TransfersMonitorEntity = TransfersMonitorEntity(
    partitionKey: string,
    rowKey: string,
    asset: string,
    amount: real,
    lastTs: int,
    reason: string,
    comment: string,
    entryType: Option<string>)

  const MonitorPartition: string := "ObserverFailed"

  function GeneratePartitionKey(): string
  {
    MonitorPartition
  }

  /** The row key is the asset symbol itself, so distinct symbols never share a row. */
  function GenerateRowKey(asset: string): string
  {
    asset
  }

  /** The key a monitor row for `asset` is stored under. */
  function KeyOf(asset: string): TableKey
  {
    TableKey(GeneratePartitionKey(), GenerateRowKey(asset))
  }

  /** Create copies its arguments into the row, except `entryType`, which it
      never assigns: the row's Type stays unset. */
  function Create(asset: string, debt: real, timestamp: int, reason: string, comment: string, entryType: string)
    : TransfersMonitorEntity
  {
    TransfersMonitorEntity(GeneratePartitionKey(), GenerateRowKey(asset), asset, debt, timestamp, reason, comment, None)
  }

  /** Distinct assets get distinct keys: one monitor row per symbol. */
  lemma KeyOfInjective(a: string, b: string)
    ensures KeyOf(a) == KeyOf(b) <==> a == b
  {
    if KeyOf(a) == KeyOf(b) {
      assert GenerateRowKey(a) == GenerateRowKey(b);
    }
  }

  /** A created row is stored under its asset's key, so a table holding just
      that row is keyed; only the given asset's key finds it; and the `type`
      argument has no effect on the row, whose Type stays unset. */
  lemma CreateFacts(asset: string, debt: real, timestamp: int, reason: string, comment: string,
                    entryType: string, otherType: string)
    ensures var e := Create(asset, debt, timestamp, reason, comment, entryType);
      && MonitorKeyed(map[KeyOf(asset) := e])
      && (forall a :: KeyOf(a) == TableKey(e.partitionKey, e.rowKey) <==> a == asset)
      && e == Create(asset, debt, timestamp, reason, comment, otherType)
      && e.entryType == None
  {
    var e := Create(asset, debt, timestamp, reason, comment, entryType);
    forall a ensures KeyOf(a) == TableKey(e.partitionKey, e.rowKey) <==> a == asset {
      KeyOfInjective(a, asset);
    }
  }

  /** Every row is stored under its own key, in the constant partition. */
  ghost predicate MonitorKeyed(m: map<TableKey, TransfersMonitorEntity>)
  {
    forall k :: k in m ==>
      k.partitionKey == MonitorPartition && k == TableKey(m[k].partitionKey, m[k].rowKey) && k == KeyOf(m[k].asset)
  }
}
