/** The gRPC service over the asset configuration table and the transfer
    ledger (ObserverService): keyed upsert and delete of configuration rows,
    and the paged transfer-history query. */
module ObserverService {
  import opened Common
  import opened Ordering
  import opened Domain
  import opened JobHelper

  datatype UpdateAssetRequest = UpdateAssetRequest(
    assetSymbol: string,
    weight: int,
    network: string,
    minTransferAmount: real,
    binanceSymbol: string,
    lockTimeInMin: int,
    isEnabled: bool,
    fireblocksToBinanceFee: real)

  datatype RemoveAssetRequest = RemoveAssetRequest(assetSymbol: string, network: string)

  /** IsSuccess, and the exception's message when it is false (unset on success). */
  datatype OperationResponse = OperationResponse(isSuccess: bool, errorMessage: Option<string>)

  /** A null text field is modelled as the empty string; IsNullOrWhiteSpace
      treats both alike. */
  datatype GetTransfersRequest = GetTransfersRequest(
    searchText: string,
    lastSeenId: int,
    take: int,
    tsDateFrom: Option<int>,
    tsDateTo: Option<int>,
    asset: string)

  // ---------------------------------------------------------------------
  // The configuration table

  predicate HasKey(a: ObserverAsset, assetSymbol: string, network: string)
  {
    a.assetSymbol == assetSymbol && a.network == network
  }

  /** FirstOrDefault by (AssetSymbol, Network), from position `i` on: the index
      of the first matching row. */
  function FindFrom(assets: seq<ObserverAsset>, assetSymbol: string, network: string, i: nat): (r: Option<nat>)
    requires i <= |assets|
    ensures r.Some? ==> i <= r.value < |assets| && HasKey(assets[r.value], assetSymbol, network)
    ensures r.Some? ==> forall j :: i <= j < r.value ==> !HasKey(assets[j], assetSymbol, network)
    ensures r.None? ==> forall j :: i <= j < |assets| ==> !HasKey(assets[j], assetSymbol, network)
    decreases |assets| - i
  {
    if i == |assets| then None
    else if HasKey(assets[i], assetSymbol, network) then Some(i)
    else FindFrom(assets, assetSymbol, network, i + 1)
  }

  function FindAsset(assets: seq<ObserverAsset>, assetSymbol: string, network: string): Option<nat>
  {
    FindFrom(assets, assetSymbol, network, 0)
  }

  /** The row `new ObserverAsset { AssetSymbol, Network }`: every other column
      at its default (no lock, disabled, no Binance symbol). */
  function NewAsset(assetSymbol: string, network: string): ObserverAsset
  {
    ObserverAsset(assetSymbol, 0, network, 0.0, 0, "", 0, false)
  }

  /** The four columns AddOrUpdateAsset assigns from the request. */
  function Assigned(a: ObserverAsset, request: UpdateAssetRequest): ObserverAsset
  {
    a.(weight := request.weight, minTransferAmount := request.minTransferAmount,
       binanceSymbol := request.binanceSymbol, lockTimeInMin := request.lockTimeInMin)
  }

  /** The table after a successful AddOrUpdateAsset: the matching row updated
      in place, or the new row added. */
  function AddOrUpdateRows(assets: seq<ObserverAsset>, request: UpdateAssetRequest): seq<ObserverAsset>
  {
    match FindAsset(assets, request.assetSymbol, request.network)
    case Some(i) => assets[i := Assigned(assets[i], request)]
    case None => assets + [Assigned(NewAsset(request.assetSymbol, request.network), request)]
  }

  /** The table after a successful RemoveAsset. */
  function RemoveRows(assets: seq<ObserverAsset>, request: RemoveAssetRequest): seq<ObserverAsset>
  {
    match FindAsset(assets, request.assetSymbol, request.network)
    case Some(i) => assets[..i] + assets[i + 1..]
    case None => assets
  }

  /** AddOrUpdateAsset. `dbError` is the exception the database raises, if
      any; in that case nothing is saved and the response carries its message. */
  method AddOrUpdateAsset(store: ObserverStore, request: UpdateAssetRequest, dbError: Option<string>)
    returns (response: OperationResponse)
    requires store.Valid()
    modifies store
    ensures store.Valid()
    ensures dbError.None? ==> store.assets == AddOrUpdateRows(old(store.assets), request)
    ensures dbError.Some? ==> store.assets == old(store.assets)
    ensures response.isSuccess <==> dbError.None?
    ensures response.errorMessage == dbError
    ensures store.transfers == old(store.transfers) && store.nextTransferId == old(store.nextTransferId)
    ensures store.monitor == old(store.monitor)
  {
    if dbError.Some? {
      return OperationResponse(false, Some(dbError.value));
    }
    var found := FindAsset(store.assets, request.assetSymbol, request.network);
    var asset := if found.Some? then store.assets[found.value] else NewAsset(request.assetSymbol, request.network);
    asset := asset.(weight := request.weight);
    asset := asset.(minTransferAmount := request.minTransferAmount);
    asset := asset.(binanceSymbol := request.binanceSymbol);
    asset := asset.(lockTimeInMin := request.lockTimeInMin);
    AddOrUpdateKeepsKeys(store.assets, request);
    if found.Some? {
      store.assets := store.assets[found.value := asset];
    } else {
      store.assets := store.assets + [asset];
    }
    response := OperationResponse(true, None);
  }

  /** RemoveAsset: deletes the matching row, if any; either way the call
      succeeds unless the database raises `dbError`. */
  method RemoveAsset(store: ObserverStore, request: RemoveAssetRequest, dbError: Option<string>)
    returns (response: OperationResponse)
    requires store.Valid()
    modifies store
    ensures store.Valid()
    ensures dbError.None? ==> store.assets == RemoveRows(old(store.assets), request)
    ensures dbError.Some? ==> store.assets == old(store.assets)
    ensures response.isSuccess <==> dbError.None?
    ensures response.errorMessage == dbError
    ensures store.transfers == old(store.transfers) && store.nextTransferId == old(store.nextTransferId)
    ensures store.monitor == old(store.monitor)
  {
    if dbError.Some? {
      return OperationResponse(false, Some(dbError.value));
    }
    var found := FindAsset(store.assets, request.assetSymbol, request.network);
    RemoveKeepsKeys(store.assets, request);
    if found.Some? {
      store.assets := store.assets[..found.value] + store.assets[found.value + 1..];
    }
    response := OperationResponse(true, None);
  }

  /** After AddOrUpdateAsset the key is present exactly once and its row holds
      the request's four columns; an existing row keeps its lock, its enabled
      flag and its position, a new one is appended unlocked and disabled; the
      request's enabled flag and fee are never read; every other row is as it was. */
  lemma AddOrUpdateFacts(assets: seq<ObserverAsset>, request: UpdateAssetRequest)
    ensures var r := AddOrUpdateRows(assets, request);
      var found := FindAsset(assets, request.assetSymbol, request.network);
      && FindAsset(r, request.assetSymbol, request.network).Some?
      && (var i := FindAsset(r, request.assetSymbol, request.network).value;
          && HasKey(r[i], request.assetSymbol, request.network)
          && r[i].weight == request.weight && r[i].minTransferAmount == request.minTransferAmount
          && r[i].binanceSymbol == request.binanceSymbol && r[i].lockTimeInMin == request.lockTimeInMin
          && (found.Some? ==>
                i == found.value && |r| == |assets|
                && r[i].lockedUntil == assets[i].lockedUntil && r[i].isEnabled == assets[i].isEnabled)
          && (found.None? ==>
                i == |assets| && |r| == |assets| + 1 && r[i].lockedUntil == 0 && !r[i].isEnabled)
          && (forall j :: 0 <= j < |assets| && j != i ==> r[j] == assets[j]))
  {
    var r := AddOrUpdateRows(assets, request);
    var found := FindAsset(assets, request.assetSymbol, request.network);
    if found.Some? {
      var f := FindFrom(r, request.assetSymbol, request.network, 0);
      assert forall j :: 0 <= j < found.value ==> r[j] == assets[j];
      assert HasKey(r[found.value], request.assetSymbol, request.network);
      assert f == Some(found.value);
    } else {
      var f := FindFrom(r, request.assetSymbol, request.network, 0);
      assert forall j :: 0 <= j < |assets| ==> r[j] == assets[j];
      assert HasKey(r[|assets|], request.assetSymbol, request.network);
      assert f.Some?;
      assert f == Some(|assets|);
    }
  }

  /** Repeating the same AddOrUpdateAsset changes nothing more. */
  lemma AddOrUpdateIdempotent(assets: seq<ObserverAsset>, request: UpdateAssetRequest)
    ensures AddOrUpdateRows(AddOrUpdateRows(assets, request), request) == AddOrUpdateRows(assets, request)
  {
    AddOrUpdateFacts(assets, request);
  }

  /** AddOrUpdateAsset keeps the table keys unique. */
  lemma AddOrUpdateKeepsKeys(assets: seq<ObserverAsset>, request: UpdateAssetRequest)
    requires AssetKeysUnique(assets)
    ensures AssetKeysUnique(AddOrUpdateRows(assets, request))
  {
    var r := AddOrUpdateRows(assets, request);
    forall i, j | 0 <= i < j < |r|
      ensures (r[i].assetSymbol, r[i].network) != (r[j].assetSymbol, r[j].network)
    {
      if j == |assets| {
        assert !HasKey(assets[i], request.assetSymbol, request.network);
      } else {
        assert (r[i].assetSymbol, r[i].network) == (assets[i].assetSymbol, assets[i].network);
        assert (r[j].assetSymbol, r[j].network) == (assets[j].assetSymbol, assets[j].network);
      }
    }
  }

  /** RemoveAsset leaves the key absent (keys being unique), removes exactly
      the matching row and keeps the other rows in their order; an absent key
      leaves the table unchanged. */
  lemma RemoveFacts(assets: seq<ObserverAsset>, request: RemoveAssetRequest)
    requires AssetKeysUnique(assets)
    ensures var r := RemoveRows(assets, request);
      var found := FindAsset(assets, request.assetSymbol, request.network);
      && FindAsset(r, request.assetSymbol, request.network).None?
      && (found.None? ==> r == assets)
      && (found.Some? ==> |r| == |assets| - 1 && multiset(r) + multiset{assets[found.value]} == multiset(assets))
      && (forall a :: a in assets && !HasKey(a, request.assetSymbol, request.network) ==> a in r)
  {
    var found := FindAsset(assets, request.assetSymbol, request.network);
    if found.Some? {
      var i := found.value;
      var r := RemoveRows(assets, request);
      assert assets == assets[..i] + [assets[i]] + assets[i + 1..];
      forall j | 0 <= j < |r| ensures !HasKey(r[j], request.assetSymbol, request.network) {
        if j < i {
          assert r[j] == assets[j];
        } else {
          assert r[j] == assets[j + 1];
        }
      }
      var f := FindFrom(r, request.assetSymbol, request.network, 0);
    }
  }

  /** RemoveAsset keeps the table keys unique. */
  lemma RemoveKeepsKeys(assets: seq<ObserverAsset>, request: RemoveAssetRequest)
    requires AssetKeysUnique(assets)
    ensures AssetKeysUnique(RemoveRows(assets, request))
  {
    var found := FindAsset(assets, request.assetSymbol, request.network);
    if found.Some? {
      var i := found.value;
      var r := RemoveRows(assets, request);
      forall a, b | 0 <= a < b < |r|
        ensures (r[a].assetSymbol, r[a].network) != (r[b].assetSymbol, r[b].network)
      {
        var a' := if a < i then a else a + 1;
        var b' := if b < i then b else b + 1;
        assert r[a] == assets[a'] && r[b] == assets[b'];
      }
    }
  }

  /** Adding a key the table lacks and then removing it restores the table. */
  lemma RemoveUndoesAdd(assets: seq<ObserverAsset>, request: UpdateAssetRequest)
    requires FindAsset(assets, request.assetSymbol, request.network).None?
    ensures RemoveRows(AddOrUpdateRows(assets, request), RemoveAssetRequest(request.assetSymbol, request.network)) == assets
  {
    AddOrUpdateFacts(assets, request);
  }

  // ---------------------------------------------------------------------
  // The transfer-history query

  const DefaultTake: int := 20

  /** A request's Take of 0 means the default page size. */
  function EffectiveTake(take: int): int
  {
    if take == 0 then DefaultTake else take
  }

  /** Enumerable.Take: a prefix of `s` whose length is `n` clamped to the
      range 0 to |s|. */
  function TakeFirst<T>(s: seq<T>, n: int): (r: seq<T>)
    ensures r <= s
    ensures |r| == (if n <= 0 then 0 else if n < |s| then n else |s|)
  {
    if n <= 0 then [] else if n >= |s| then s else s[..n]
  }

  /** The conditions the query applies, each only when its request field is set. */
  predicate PassesLastSeen(request: GetTransfersRequest, t: ObserverTransfer)
  {
    request.lastSeenId != 0 ==> t.transferId < request.lastSeenId
  }

  predicate PassesAsset(request: GetTransfersRequest, t: ObserverTransfer)
  {
    !IsBlank(request.asset) ==> t.asset == request.asset
  }

  predicate PassesDates(request: GetTransfersRequest, t: ObserverTransfer)
  {
    && (request.tsDateFrom.Some? ==> t.timeStamp >= request.tsDateFrom.value)
    && (request.tsDateTo.Some? ==> t.timeStamp <= request.tsDateTo.value)
  }

  predicate PassesSearch(request: GetTransfersRequest, t: ObserverTransfer)
  {
    !IsBlank(request.searchText) ==>
      Contains(t.from, request.searchText) || Contains(t.to, request.searchText) || Contains(t.reason, request.searchText)
  }

  /** A ledger row the request selects. */
  predicate Matches(request: GetTransfersRequest, t: ObserverTransfer)
  {
    PassesLastSeen(request, t) && PassesAsset(request, t) && PassesDates(request, t) && PassesSearch(request, t)
  }

  /** The Where conditions of the query, one per request field. */
  function LastSeenCond(request: GetTransfersRequest): ObserverTransfer -> bool
  {
    (t: ObserverTransfer) => t.transferId < request.lastSeenId
  }

  function AssetCond(request: GetTransfersRequest): ObserverTransfer -> bool
  {
    (t: ObserverTransfer) => t.asset == request.asset
  }

  function FromCond(request: GetTransfersRequest): ObserverTransfer -> bool
    requires request.tsDateFrom.Some?
  {
    (t: ObserverTransfer) => t.timeStamp >= request.tsDateFrom.value
  }

  function ToCond(request: GetTransfersRequest): ObserverTransfer -> bool
    requires request.tsDateTo.Some?
  {
    (t: ObserverTransfer) => t.timeStamp <= request.tsDateTo.value
  }

  function SearchCond(request: GetTransfersRequest): ObserverTransfer -> bool
  {
    (t: ObserverTransfer) =>
      Contains(t.from, request.searchText) || Contains(t.to, request.searchText) || Contains(t.reason, request.searchText)
  }

  /** GetTransfers, as the query is composed: the active filters in turn, then
      the newest rows first, then one page. */
  function GetTransfers(transfers: seq<ObserverTransfer>, request: GetTransfersRequest): seq<ObserverTransfer>
  {
    var take := EffectiveTake(request.take);
    var q1 := if request.lastSeenId != 0 then Filter(transfers, LastSeenCond(request)) else transfers;
    var q2 := if !IsBlank(request.asset) then Filter(q1, AssetCond(request)) else q1;
    var q3 := if request.tsDateFrom.Some? then Filter(q2, FromCond(request)) else q2;
    var q4 := if request.tsDateTo.Some? then Filter(q3, ToCond(request)) else q3;
    var q5 := if !IsBlank(request.searchText) then Filter(q4, SearchCond(request)) else q4;
    TakeFirst(SortDesc(q5, TransferIdOf), take)
  }

  /** Filtering the result of a filter is one filter by both conditions. */
  lemma {:induction false} FilterThen<T>(s: seq<T>, p: T -> bool, q: T -> bool, pq: T -> bool)
    requires forall x :: pq(x) == (p(x) && q(x))
    ensures Filter(Filter(s, p), q) == Filter(s, pq)
    decreases |s|
  {
    if s != [] {
      FilterThen(s[1..], p, q, pq);
      var rest := Filter(s[1..], p);
      if p(s[0]) {
        assert Filter(s, p) == [s[0]] + rest;
        assert ([s[0]] + rest)[1..] == rest;
      } else {
        assert Filter(s, p) == rest;
      }
    }
  }

  /** Filtering by conditions that agree everywhere gives the same rows. */
  lemma {:induction false} FilterSame<T>(s: seq<T>, p: T -> bool, q: T -> bool)
    requires forall x :: p(x) == q(x)
    ensures Filter(s, p) == Filter(s, q)
    decreases |s|
  {
    if s != [] {
      FilterSame(s[1..], p, q);
    }
  }

  /** A filter that keeps every row changes nothing. */
  lemma {:induction false} FilterAll<T>(s: seq<T>, p: T -> bool)
    requires forall x :: p(x)
    ensures Filter(s, p) == s
    decreases |s|
  {
    if s != [] {
      FilterAll(s[1..], p);
      assert s == [s[0]] + s[1..];
    }
  }

  function MatchesCond(request: GetTransfersRequest): ObserverTransfer -> bool
  {
    (t: ObserverTransfer) => Matches(request, t)
  }

  /** The rows the request selects, in ledger order. */
  function Selected(transfers: seq<ObserverTransfer>, request: GetTransfersRequest): seq<ObserverTransfer>
  {
    Filter(transfers, MatchesCond(request))
  }

  /** The composed filters select exactly the rows Matches describes. */
  lemma FiltersSelect(transfers: seq<ObserverTransfer>, request: GetTransfersRequest)
    ensures GetTransfers(transfers, request) == TakeFirst(SortDesc(Selected(transfers, request), TransferIdOf),
                                                          EffectiveTake(request.take))
  {
    var r := request;
    var p1 := (t: ObserverTransfer) => PassesLastSeen(r, t);
    var p2 := (t: ObserverTransfer) => PassesLastSeen(r, t) && PassesAsset(r, t);
    var p3 := (t: ObserverTransfer) => PassesLastSeen(r, t) && PassesAsset(r, t)
                                       && (r.tsDateFrom.Some? ==> t.timeStamp >= r.tsDateFrom.value);
    var p4 := (t: ObserverTransfer) => PassesLastSeen(r, t) && PassesAsset(r, t) && PassesDates(r, t);

    var q1 := if r.lastSeenId != 0 then Filter(transfers, LastSeenCond(r)) else transfers;
    if r.lastSeenId != 0 {
      FilterSame(transfers, LastSeenCond(r), p1);
    } else {
      FilterAll(transfers, p1);
    }
    assert q1 == Filter(transfers, p1);

    var q2 := if !IsBlank(r.asset) then Filter(q1, AssetCond(r)) else q1;
    if !IsBlank(r.asset) {
      FilterThen(transfers, p1, AssetCond(r), p2);
    } else {
      FilterSame(transfers, p1, p2);
    }
    assert q2 == Filter(transfers, p2);

    var q3 := if r.tsDateFrom.Some? then Filter(q2, FromCond(r)) else q2;
    if r.tsDateFrom.Some? {
      FilterThen(transfers, p2, FromCond(r), p3);
    } else {
      FilterSame(transfers, p2, p3);
    }
    assert q3 == Filter(transfers, p3);

    var q4 := if r.tsDateTo.Some? then Filter(q3, ToCond(r)) else q3;
    if r.tsDateTo.Some? {
      FilterThen(transfers, p3, ToCond(r), p4);
    } else {
      FilterSame(transfers, p3, p4);
    }
    assert q4 == Filter(transfers, p4);

    var q5 := if !IsBlank(r.searchText) then Filter(q4, SearchCond(r)) else q4;
    if !IsBlank(r.searchText) {
      FilterThen(transfers, p4, SearchCond(r), MatchesCond(r));
    } else {
      FilterSame(transfers, p4, MatchesCond(r));
    }
    assert q5 == Selected(transfers, r);
  }

  /** A page of the rows `s` sorted by `key`, highest first: its rows come
      from `s`, it is sorted, it is no longer than `s` or the page size, and a
      row of `s` it leaves out is below every row it holds; a page shorter than
      the page size holds every row of `s`. */
  lemma PageFacts<T>(s: seq<T>, key: T -> int, n: int)
    ensures var r := TakeFirst(SortDesc(s, key), n);
      && (forall x :: x in r ==> x in s)
      && SortedDesc(r, key)
      && |r| <= |s|
      && (n > 0 ==> |r| <= n)
      && (n <= 0 ==> r == [])
      && (forall x :: x in s && x !in r ==> forall y :: y in r ==> key(y) >= key(x))
      && (|r| < n ==> forall x :: x in s ==> x in r)
  {
    var sorted := SortDesc(s, key);
    SortDescFacts(s, key);
    var r := TakeFirst(sorted, n);
    forall x | x in r ensures x in s {
      assert x in multiset(sorted);
    }
    forall x | x in s && x !in r ensures forall y :: y in r ==> key(y) >= key(x) {
      assert x in multiset(sorted);
      var k :| 0 <= k < |sorted| && sorted[k] == x;
      forall y | y in r ensures key(y) >= key(x) {
        var m :| 0 <= m < |r| && r[m] == y;
        assert sorted[m] == y;
      }
    }
    if |r| < n {
      assert r == sorted;
      forall x | x in s ensures x in r {
        assert x in multiset(sorted);
      }
    }
  }

  /** Every returned row is a ledger row the request selects; the page is
      ordered newest first, holds at most the page size (none for a negative
      Take) and no more rows than the ledger. */
  lemma GetTransfersSound(transfers: seq<ObserverTransfer>, request: GetTransfersRequest)
    ensures var r := GetTransfers(transfers, request);
      && (forall t :: t in r ==> t in transfers && Matches(request, t))
      && SortedDesc(r, TransferIdOf)
      && |r| <= |transfers|
      && (request.take > 0 ==> |r| <= request.take)
      && (request.take == 0 ==> |r| <= DefaultTake)
      && (request.take < 0 ==> r == [])
  {
    FiltersSelect(transfers, request);
    FilterFacts(transfers, MatchesCond(request));
    PageFacts(Selected(transfers, request), TransferIdOf, EffectiveTake(request.take));
  }

  /** The page holds the newest selected rows: a selected row left out is no
      newer than any returned row, and a page shorter than the page size holds
      every selected row. */
  lemma GetTransfersComplete(transfers: seq<ObserverTransfer>, request: GetTransfersRequest, t: ObserverTransfer)
    requires t in transfers && Matches(request, t)
    ensures var r := GetTransfers(transfers, request);
      && (t !in r ==> forall u :: u in r ==> u.transferId >= t.transferId)
      && (|r| < EffectiveTake(request.take) ==> t in r)
  {
    FiltersSelect(transfers, request);
    FilterFacts(transfers, MatchesCond(request));
    PageFacts(Selected(transfers, request), TransferIdOf, EffectiveTake(request.take));
  }
}
