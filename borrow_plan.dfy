/** What one cycle of the borrow checker decides, as functions of the cycle's
    snapshot (asset table, main and vault balances, vault accounts, the clock)
    and of the gateway's answers. The job's methods in BorrowChecker are
    proved to carry out exactly these plans; the lemmas below state what the
    plans guarantee. */
module BorrowPlan {
  import opened Common
  import opened Ordering
  import opened Domain
  import opened Gateway
  import opened MonitorEntity
  import opened JobHelper

  /** Everything a cycle reads once and then keeps: the asset snapshot, the
      main-book and custody balances, the vault accounts, the clock, and the
      two foreign functions used only for ledger text (index price, decimal
      formatting). */
  datatype CycleInputs = CycleInputs(
    assets: seq<ObserverAsset>,
    mains: seq<ExchangeBalance>,
    fb: seq<FbBalance>,
    vaults: seq<VaultAccount>,
    now: int,
    indexPrice: string -> real,
    render: real -> string)

  /** A fund movement the cascade executed; `borrowed` is the residual debt the
      ledger reason quotes, `amount` what was moved. */
  datatype Payment =
    | MarginRepay(symbol: string, borrowed: real, amount: real)
    | MainTransfer(symbol: string, borrowed: real, amount: real)
    | VaultTransfer(asset: ObserverAsset, vault: VaultAccount, borrowed: real, amount: real)

  /** A failed gateway request and the message of the exception it raised. */
  datatype Fault = Fault(call: GatewayCall, message: string)

  /** How a step ends: it paid `paid` (possibly 0), it was skipped because a
      candidate asset is locked, or it raised. */
  datatype StepEnd = Done(paid: real) | Skipped | Raised(fault: Fault)

  datatype StepResult = StepResult(payments: seq<Payment>, end: StepEnd)

  const RepayErrorPrefix: string := "Unable to repay. Error "
  const MainErrorPrefix: string := "Unable to transfer binance main to margin.  Error "
  const VaultErrorPrefix: string := "Unable to transfer from Fireblocks to Binance.  Error "

  // ---------------------------------------------------------------------
  // Payments, the requests they send and the ledger rows they write

  function CallOf(p: Payment): GatewayCall
  {
    match p
    case MarginRepay(s, _, a) => MakeRepay(s, a, "Binance")
    case MainTransfer(s, _, a) => TransferBinanceMainToMargin(s, a)
    case VaultTransfer(asset, v, _, a) =>
      TransferFireblocksToBinance(asset.assetSymbol, asset.network, v.vaultAccountId, a)
  }

  /** The ledger row written after a successful movement; the identity column
      fills in `transferId`. */
  function RecordOf(p: Payment, inputs: CycleInputs): ObserverTransfer
  {
    var render := inputs.render;
    match p
    case MarginRepay(s, b, a) =>
      ObserverTransfer(0, "BinanceMargin", "BinanceMarginBorrowed", s, a, inputs.indexPrice(s),
        "Borrowed " + render(b) + " " + s + ". Repay from Binance Margin. Amount " + render(a), inputs.now)
    case MainTransfer(s, b, a) =>
      ObserverTransfer(0, "BinanceMain", "BinanceMargin", s, a, inputs.indexPrice(s),
        "Borrowed " + render(b) + " " + s + ". Transfer from Binance Main to Margin. Amount " + render(a), inputs.now)
    case VaultTransfer(asset, _, b, a) =>
      ObserverTransfer(0, "Fireblocks", "Binance", asset.assetSymbol, a, inputs.indexPrice(asset.assetSymbol),
        "Borrowed " + render(b) + " " + asset.assetSymbol + ". Transfer from Fireblocks to Binance. Amount " + render(a),
        inputs.now)
  }

  function Calls(ps: seq<Payment>): seq<GatewayCall>
  {
    seq(|ps|, k requires 0 <= k < |ps| => CallOf(ps[k]))
  }

  function Records(ps: seq<Payment>, inputs: CycleInputs): seq<ObserverTransfer>
  {
    seq(|ps|, k requires 0 <= k < |ps| => RecordOf(ps[k], inputs))
  }

  lemma CallsAppend(a: seq<Payment>, b: seq<Payment>)
    ensures Calls(a + b) == Calls(a) + Calls(b)
  {
    assert forall k :: 0 <= k < |a + b| ==> Calls(a + b)[k] == (Calls(a) + Calls(b))[k];
  }

  lemma RecordsAppend(a: seq<Payment>, b: seq<Payment>, inputs: CycleInputs)
    ensures Records(a + b, inputs) == Records(a, inputs) + Records(b, inputs)
  {
    var l, r := Records(a + b, inputs), Records(a, inputs) + Records(b, inputs);
    forall k | 0 <= k < |l| ensures l[k] == r[k] {
      if k < |a| {
        assert (a + b)[k] == a[k];
      } else {
        assert (a + b)[k] == b[k - |a|];
      }
    }
  }

  /** Total amount moved. */
  function PaidSum(ps: seq<Payment>): real
  {
    if ps == [] then 0.0 else PaidSum(ps[..|ps| - 1]) + ps[|ps| - 1].amount
  }

  /** Amount moved inside the exchange (self-repay and main-to-margin). */
  function ExchangePaid(ps: seq<Payment>): real
  {
    if ps == [] then 0.0
    else ExchangePaid(ps[..|ps| - 1]) + (if ps[|ps| - 1].VaultTransfer? then 0.0 else ps[|ps| - 1].amount)
  }

  /** Amount moved out of the custody vaults. */
  function VaultPaid(ps: seq<Payment>): real
  {
    if ps == [] then 0.0
    else VaultPaid(ps[..|ps| - 1]) + (if ps[|ps| - 1].VaultTransfer? then ps[|ps| - 1].amount else 0.0)
  }

  lemma {:induction false} PaidSumAppend(a: seq<Payment>, b: seq<Payment>)
    ensures PaidSum(a + b) == PaidSum(a) + PaidSum(b)
    ensures ExchangePaid(a + b) == ExchangePaid(a) + ExchangePaid(b)
    ensures VaultPaid(a + b) == VaultPaid(a) + VaultPaid(b)
    decreases |b|
  {
    if b == [] {
      assert a + b == a;
    } else {
      var c := a + b;
      assert c[..|c| - 1] == a + b[..|b| - 1];
      PaidSumAppend(a, b[..|b| - 1]);
    }
  }

  lemma {:induction false} PaidSumSplit(ps: seq<Payment>)
    ensures PaidSum(ps) == ExchangePaid(ps) + VaultPaid(ps)
    decreases |ps|
  {
    if ps != [] {
      PaidSumSplit(ps[..|ps| - 1]);
    }
  }

  /** The asset table after the locks that the vault movements in `ps` take,
      in order. */
  function LocksAfter(assets: seq<ObserverAsset>, ps: seq<Payment>, now: int): seq<ObserverAsset>
  {
    if ps == [] then assets
    else
      var before := LocksAfter(assets, ps[..|ps| - 1], now);
      var p := ps[|ps| - 1];
      if p.VaultTransfer? then LockRows(before, p.asset.assetSymbol, AddMinutes(now, p.asset.lockTimeInMin))
      else before
  }

  lemma {:induction false} LocksAfterAppend(assets: seq<ObserverAsset>, a: seq<Payment>, b: seq<Payment>, now: int)
    ensures LocksAfter(assets, a + b, now) == LocksAfter(LocksAfter(assets, a, now), b, now)
    decreases |b|
  {
    if b == [] {
      assert a + b == a;
    } else {
      var c := a + b;
      assert c[..|c| - 1] == a + b[..|b| - 1];
      LocksAfterAppend(assets, a, b[..|b| - 1], now);
    }
  }

  /** The symbols whose rows the movements in `ps` lock. */
  function LockedSymbols(ps: seq<Payment>): set<string>
  {
    set k | 0 <= k < |ps| && ps[k].VaultTransfer? :: ps[k].asset.assetSymbol
  }

  /** Locking only ever moves LockedUntil later, touches no other column, and
      leaves the rows of every symbol that no vault movement used as they were. */
  lemma {:induction false} LocksAfterFacts(assets: seq<ObserverAsset>, ps: seq<Payment>, now: int)
    ensures |LocksAfter(assets, ps, now)| == |assets|
    ensures forall i :: 0 <= i < |assets| ==>
      var r := LocksAfter(assets, ps, now)[i];
      r == assets[i].(lockedUntil := r.lockedUntil) && r.lockedUntil >= assets[i].lockedUntil
    ensures forall i :: 0 <= i < |assets| && assets[i].assetSymbol !in LockedSymbols(ps) ==>
      LocksAfter(assets, ps, now)[i] == assets[i]
    ensures AssetKeysUnique(assets) ==> AssetKeysUnique(LocksAfter(assets, ps, now))
    decreases |ps|
  {
    if ps != [] {
      var init := ps[..|ps| - 1];
      LocksAfterFacts(assets, init, now);
      assert LockedSymbols(init) <= LockedSymbols(ps) by {
        forall s | s in LockedSymbols(init) ensures s in LockedSymbols(ps) {
          var k :| 0 <= k < |init| && init[k].VaultTransfer? && init[k].asset.assetSymbol == s;
          assert ps[k] == init[k];
        }
      }
      var p := ps[|ps| - 1];
      if p.VaultTransfer? {
        var before := LocksAfter(assets, init, now);
        assert p.asset.assetSymbol in LockedSymbols(ps) by {
          assert ps[|ps| - 1] == p;
        }
        if AssetKeysUnique(assets) {
          LockRowsKeepsKeys(before, p.asset.assetSymbol, AddMinutes(now, p.asset.lockTimeInMin));
        }
      }
    }
  }

  // ---------------------------------------------------------------------
  // Lookups (FirstOrDefault with a default of 0)

  /** FirstOrDefault(t => t.Symbol == symbol) over the main balances, from position `i` on. */
  function FindBalanceFrom(balances: seq<ExchangeBalance>, symbol: string, i: nat): (r: Option<nat>)
    requires i <= |balances|
    ensures r.Some? ==> (i <= r.value < |balances| && balances[r.value].symbol == symbol
      && forall k :: i <= k < r.value ==> balances[k].symbol != symbol)
    ensures r.None? ==> forall k :: i <= k < |balances| ==> balances[k].symbol != symbol
    decreases |balances| - i
  {
    if i == |balances| then None
    else if balances[i].symbol == symbol then Some(i)
    else FindBalanceFrom(balances, symbol, i + 1)
  }

  /** The first main balance of `symbol`, if any. */
  function FindBalance(balances: seq<ExchangeBalance>, symbol: string): Option<ExchangeBalance>
  {
    match FindBalanceFrom(balances, symbol, 0)
    case None => None
    case Some(i) => Some(balances[i])
  }

  predicate HoldsBalance(b: FbBalance, vaultAccountId: int, asset: string, network: string)
  {
    b.vaultAccount == vaultAccountId && b.asset == asset && b.network == network
  }

  /** FirstOrDefault over the custody balances for (vault, asset, network), from position `i` on. */
  function VaultBalanceFrom(fb: seq<FbBalance>, vaultAccountId: int, asset: string, network: string, i: nat)
    : (r: Option<nat>)
    requires i <= |fb|
    ensures r.Some? ==> (i <= r.value < |fb| && HoldsBalance(fb[r.value], vaultAccountId, asset, network)
      && forall k :: i <= k < r.value ==> !HoldsBalance(fb[k], vaultAccountId, asset, network))
    ensures r.None? ==> forall k :: i <= k < |fb| ==> !HoldsBalance(fb[k], vaultAccountId, asset, network)
    decreases |fb| - i
  {
    if i == |fb| then None
    else if HoldsBalance(fb[i], vaultAccountId, asset, network) then Some(i)
    else VaultBalanceFrom(fb, vaultAccountId, asset, network, i + 1)
  }

  /** The custody balance of (vault, asset, network); 0 when there is none. */
  function VaultBalance(fb: seq<FbBalance>, vaultAccountId: int, asset: string, network: string): real
  {
    match VaultBalanceFrom(fb, vaultAccountId, asset, network, 0)
    case None => 0.0
    case Some(i) => fb[i].amount
  }

  /** The reserve floor a vault keeps for an asset; 0 when it sets none. */
  function MinBalance(v: VaultAccount, asset: string): real
  {
    if asset in v.minBalances then v.minBalances[asset] else 0.0
  }

  /** What a vault can give of an asset: its balance above the floor. */
  function Available(fb: seq<FbBalance>, a: ObserverAsset, v: VaultAccount): real
  {
    VaultBalance(fb, v.vaultAccountId, a.assetSymbol, a.network) - MinBalance(v, a.assetSymbol)
  }

  // ---------------------------------------------------------------------
  // Step 1: self-repay from the margin balance

  function PayFromMarginAccount(p: ExchangeBalance, answer: GatewayCall -> CallResult): StepResult
  {
    var amount := Min(p.balance, p.borrowed);
    if amount == 0.0 then StepResult([], Done(0.0))
    else
      var pay := MarginRepay(p.symbol, p.borrowed, amount);
      var r := answer(CallOf(pay));
      if r.Success? then StepResult([pay], Done(amount))
      else StepResult([], Raised(Fault(CallOf(pay), FailureMessage(RepayErrorPrefix, r))))
  }

  // ---------------------------------------------------------------------
  // Step 2: main-book to margin transfer

  function TransferFromMainAccount(symbol: string, borrowed: real, mains: seq<ExchangeBalance>,
                                   answer: GatewayCall -> CallResult): StepResult
  {
    match FindBalance(mains, symbol)
    case None => StepResult([], Done(0.0))
    case Some(b) =>
      var amount := Min(borrowed, b.balance);
      if amount == 0.0 then StepResult([], Done(0.0))
      else
        var pay := MainTransfer(symbol, borrowed, amount);
        var r := answer(CallOf(pay));
        if r.Success? then StepResult([pay], Done(amount))
        else StepResult([], Raised(Fault(CallOf(pay), FailureMessage(MainErrorPrefix, r))))
  }

  // ---------------------------------------------------------------------
  // Step 3: custody vaults

  /** Some snapshot row mapped to `symbol` is locked beyond `now`. */
  predicate HasLockedAssets(assets: seq<ObserverAsset>, symbol: string, now: int)
  {
    exists i :: 0 <= i < |assets| && assets[i].binanceSymbol == symbol && assets[i].lockedUntil > now
  }

  /** The assets mapped to `symbol`, highest weight first, ties in table order. */
  function Candidates(assets: seq<ObserverAsset>, symbol: string): seq<ObserverAsset>
  {
    SortDesc(Filter(assets, (a: ObserverAsset) => a.binanceSymbol == symbol), AssetWeight)
  }

  /** Vault accounts, highest weight first, ties in list order. */
  function VaultOrder(vaults: seq<VaultAccount>): seq<VaultAccount>
  {
    SortDesc(vaults, VaultWeight)
  }

  /** The full pass takes a pair when the vault can cover the whole residual
      above its floor and the residual reaches the asset's minimum transfer. */
  predicate FullQualifies(a: ObserverAsset, v: VaultAccount, residual: real, fb: seq<FbBalance>)
  {
    !(Available(fb, a, v) < residual) && !(residual < a.minTransferAmount)
  }

  /** Inner loop of the full pass: the first vault from `j` on that qualifies for `a`. */
  function FullPassVaults(a: ObserverAsset, vs: seq<VaultAccount>, residual: real, fb: seq<FbBalance>, j: nat)
    : (r: Option<nat>)
    requires j <= |vs|
    ensures r.Some? ==> j <= r.value < |vs|
    decreases |vs| - j
  {
    if j == |vs| then None
    else if FullQualifies(a, vs[j], residual, fb) then Some(j)
    else FullPassVaults(a, vs, residual, fb, j + 1)
  }

  /** Outer loop of the full pass: the first qualifying (asset, vault) pair
      from asset `i` on, in (asset, vault) order. */
  function FullPassFrom(cands: seq<ObserverAsset>, vs: seq<VaultAccount>, residual: real, fb: seq<FbBalance>, i: nat)
    : (r: Option<(nat, nat)>)
    requires i <= |cands|
    ensures r.Some? ==> i <= r.value.0 < |cands| && r.value.1 < |vs|
    decreases |cands| - i
  {
    if i == |cands| then None
    else
      match FullPassVaults(cands[i], vs, residual, fb, 0)
      case Some(j) => Some((i, j))
      case None => FullPassFrom(cands, vs, residual, fb, i + 1)
  }

  /** The inner loop finds the first qualifying vault from `j` on, or none. */
  lemma {:induction false} FullPassVaultsFacts(a: ObserverAsset, vs: seq<VaultAccount>, residual: real,
                                               fb: seq<FbBalance>, j: nat)
    requires j <= |vs|
    ensures var r := FullPassVaults(a, vs, residual, fb, j);
      && (r.Some? ==> (FullQualifies(a, vs[r.value], residual, fb)
                      && forall j' :: j <= j' < r.value ==> !FullQualifies(a, vs[j'], residual, fb)))
      && (r.None? ==> forall j' :: j <= j' < |vs| ==> !FullQualifies(a, vs[j'], residual, fb))
    decreases |vs| - j
  {
    if j < |vs| && !FullQualifies(a, vs[j], residual, fb) {
      FullPassVaultsFacts(a, vs, residual, fb, j + 1);
    }
  }

  /** The outer loop finds the first qualifying pair from asset `i` on, in
      (asset, vault) order, or none. */
  lemma {:induction false} FullPassFromFacts(cands: seq<ObserverAsset>, vs: seq<VaultAccount>, residual: real,
                                             fb: seq<FbBalance>, i: nat)
    requires i <= |cands|
    ensures var r := FullPassFrom(cands, vs, residual, fb, i);
      && (r.Some? ==>
        && FullQualifies(cands[r.value.0], vs[r.value.1], residual, fb)
        && (forall i', j' :: i <= i' < r.value.0 && 0 <= j' < |vs| ==> !FullQualifies(cands[i'], vs[j'], residual, fb))
        && (forall j' :: 0 <= j' < r.value.1 ==> !FullQualifies(cands[r.value.0], vs[j'], residual, fb)))
      && (r.None? ==>
        forall i', j' :: i <= i' < |cands| && 0 <= j' < |vs| ==> !FullQualifies(cands[i'], vs[j'], residual, fb))
    decreases |cands| - i
  {
    if i < |cands| {
      FullPassVaultsFacts(cands[i], vs, residual, fb, 0);
      if FullPassVaults(cands[i], vs, residual, fb, 0).None? {
        FullPassFromFacts(cands, vs, residual, fb, i + 1);
      }
    }
  }

  /** State of the partial pass: residual debt, running total, movements made,
      and the fault that ended it, if one did. */
  datatype PassState = PassState(residual: real, total: real, payments: seq<Payment>, fault: Option<Fault>)

  /** The pass stops for good once it raised or the residual reached 0. */
  predicate Stopped(st: PassState)
  {
    st.fault.Some? || st.residual == 0.0
  }

  /** One (asset, vault) pair of the partial pass. */
  function PartialPair(a: ObserverAsset, v: VaultAccount, st: PassState, fb: seq<FbBalance>,
                       answer: GatewayCall -> CallResult): PassState
  {
    if Stopped(st) then st
    else
      var amount := Min(st.residual, Available(fb, a, v));
      if amount < a.minTransferAmount then st
      else
        var pay := VaultTransfer(a, v, st.residual, amount);
        var r := answer(CallOf(pay));
        if r.Success? then PassState(st.residual - amount, st.total + amount, st.payments + [pay], None)
        else st.(fault := Some(Fault(CallOf(pay), FailureMessage(VaultErrorPrefix, r))))
  }

  /** Inner loop of the partial pass: the vaults of one asset, in order. */
  function PartialVaults(a: ObserverAsset, vs: seq<VaultAccount>, st: PassState, fb: seq<FbBalance>,
                         answer: GatewayCall -> CallResult): PassState
  {
    if vs == [] then st
    else PartialPair(a, vs[|vs| - 1], PartialVaults(a, vs[..|vs| - 1], st, fb, answer), fb, answer)
  }

  /** Outer loop of the partial pass: the candidate assets, in order. */
  function PartialAssets(cands: seq<ObserverAsset>, vs: seq<VaultAccount>, st: PassState, fb: seq<FbBalance>,
                         answer: GatewayCall -> CallResult): PassState
  {
    if cands == [] then st
    else PartialVaults(cands[|cands| - 1], vs, PartialAssets(cands[..|cands| - 1], vs, st, fb, answer), fb, answer)
  }

  function InitialPass(residual: real): PassState
  {
    PassState(residual, 0.0, [], None)
  }

  /** TransferFromFireblocks: the lock guard, then the full pass, then the partial pass. */
  function TransferFromFireblocks(symbol: string, borrowed: real, inputs: CycleInputs,
                                  answer: GatewayCall -> CallResult): StepResult
  {
    if HasLockedAssets(inputs.assets, symbol, inputs.now) then StepResult([], Skipped)
    else
      var cands := Candidates(inputs.assets, symbol);
      var vs := VaultOrder(inputs.vaults);
      match FullPassFrom(cands, vs, borrowed, inputs.fb, 0)
      case Some(ij) =>
        var pay := VaultTransfer(cands[ij.0], vs[ij.1], borrowed, borrowed);
        var r := answer(CallOf(pay));
        if r.Success? then StepResult([pay], Done(borrowed))
        else StepResult([], Raised(Fault(CallOf(pay), FailureMessage(VaultErrorPrefix, r))))
      case None =>
        var st := PartialAssets(cands, vs, InitialPass(borrowed), inputs.fb, answer);
        StepResult(st.payments, if st.fault.Some? then Raised(st.fault.value) else Done(st.total))
  }

  /** The requests a step sent: one per movement, plus the one that failed. */
  function StepCalls(s: StepResult): seq<GatewayCall>
  {
    Calls(s.payments) + (if s.end.Raised? then [s.end.fault.call] else [])
  }

  // ---------------------------------------------------------------------
  // One borrowed position

  datatype Verdict = Resolved | Unresolved(isProcessed: bool) | Failed(fault: Fault)

  /** The movements made for a position, the residual the job tracks at the
      end, and how the position ended. */
  datatype PositionOutcome = PositionOutcome(payments: seq<Payment>, residual: real, verdict: Verdict)

  /** The loop body of CheckExchangeBorrows for one position: self-repay,
      then (while debt is left) the main-book stage. */
  function CheckPosition(p: ExchangeBalance, inputs: CycleInputs, answer: GatewayCall -> CallResult): PositionOutcome
  {
    var s1 := PayFromMarginAccount(p, answer);
    if s1.end.Raised? then PositionOutcome(s1.payments, p.borrowed, Failed(s1.end.fault))
    else
      var r1 := p.borrowed - (if s1.end.Done? then s1.end.paid else 0.0);
      if r1 == 0.0 then PositionOutcome(s1.payments, r1, Resolved)
      else MainStage(p.symbol, r1, s1.payments, inputs, answer)
  }

  /** The main-book transfer with residual `r1` after the movements `before`,
      then (while debt is left) the vault stage. */
  function MainStage(symbol: string, r1: real, before: seq<Payment>, inputs: CycleInputs,
                     answer: GatewayCall -> CallResult): PositionOutcome
  {
    var s2 := TransferFromMainAccount(symbol, r1, inputs.mains, answer);
    if s2.end.Raised? then PositionOutcome(before + s2.payments, r1, Failed(s2.end.fault))
    else
      var r2 := r1 - (if s2.end.Done? then s2.end.paid else 0.0);
      if r2 == 0.0 then PositionOutcome(before + s2.payments, r2, Resolved)
      else VaultStage(symbol, r2, before + s2.payments, inputs, answer)
  }

  /** The vault step with residual `r2` after the movements `before`, and the
      verdict it leads to. */
  function VaultStage(symbol: string, r2: real, before: seq<Payment>, inputs: CycleInputs,
                      answer: GatewayCall -> CallResult): PositionOutcome
  {
    AfterVault(r2, before, TransferFromFireblocks(symbol, r2, inputs, answer))
  }

  /** The verdict after the vault step `s3`. A skipped step pays nothing; when
      the step raises, the residual stays `r2`. */
  function AfterVault(r2: real, before: seq<Payment>, s3: StepResult): PositionOutcome
  {
    var ps := before + s3.payments;
    if s3.end.Raised? then PositionOutcome(ps, r2, Failed(s3.end.fault))
    else
      var r3 := r2 - (if s3.end.Done? then s3.end.paid else 0.0);
      if r3 == 0.0 then PositionOutcome(ps, r3, Resolved)
      else PositionOutcome(ps, r3, Unresolved(s3.end.Done?))
  }

  /** The plan of a position whose self-repay step ends it. */
  lemma CheckPositionStops(p: ExchangeBalance, inputs: CycleInputs, answer: GatewayCall -> CallResult,
                           o: PositionOutcome)
    requires var s1 := PayFromMarginAccount(p, answer);
      || (s1.end.Raised? && o == PositionOutcome(s1.payments, p.borrowed, Failed(s1.end.fault)))
      || (s1.end.Done? && p.borrowed - s1.end.paid == 0.0 && o == PositionOutcome(s1.payments, 0.0, Resolved))
    ensures o == CheckPosition(p, inputs, answer)
  {
  }

  /** The plan of a position that goes on to the main-book stage with `r1` left. */
  lemma CheckPositionContinues(p: ExchangeBalance, r1: real, inputs: CycleInputs,
                               answer: GatewayCall -> CallResult)
    requires var s1 := PayFromMarginAccount(p, answer);
      s1.end.Done? && r1 == p.borrowed - s1.end.paid && r1 != 0.0
    ensures CheckPosition(p, inputs, answer)
         == MainStage(p.symbol, r1, PayFromMarginAccount(p, answer).payments, inputs, answer)
  {
  }

  /** The plan from the main-book step on, when that step ends the position. */
  lemma MainStageStops(symbol: string, r1: real, before: seq<Payment>, inputs: CycleInputs,
                       answer: GatewayCall -> CallResult, o: PositionOutcome)
    requires var s2 := TransferFromMainAccount(symbol, r1, inputs.mains, answer);
      || (s2.end.Raised? && o == PositionOutcome(before + s2.payments, r1, Failed(s2.end.fault)))
      || (s2.end.Done? && r1 - s2.end.paid == 0.0 && o == PositionOutcome(before + s2.payments, 0.0, Resolved))
    ensures o == MainStage(symbol, r1, before, inputs, answer)
  {
  }

  /** The plan from the main-book step on, when the vault stage follows with `r2` left. */
  lemma MainStageContinues(symbol: string, r1: real, r2: real, before: seq<Payment>, inputs: CycleInputs,
                           answer: GatewayCall -> CallResult)
    requires var s2 := TransferFromMainAccount(symbol, r1, inputs.mains, answer);
      s2.end.Done? && r2 == r1 - s2.end.paid && r2 != 0.0
    ensures MainStage(symbol, r1, before, inputs, answer)
         == VaultStage(symbol, r2, before + TransferFromMainAccount(symbol, r1, inputs.mains, answer).payments,
                            inputs, answer)
  {
  }

  /** The requests sent for a position. */
  function OutcomeCalls(o: PositionOutcome): seq<GatewayCall>
  {
    Calls(o.payments) + (if o.verdict.Failed? then [o.verdict.fault.call] else [])
  }

  function DepthReason(isProcessed: bool): string
  {
    if isProcessed then "Not enough balance" else "Asset payment in process"
  }

  /** The monitor table after a position: its row is deleted when the debt is
      cleared, and otherwise replaced by a "Depth" row with the residual. */
  function MonitorAfter(m: map<TableKey, TransfersMonitorEntity>, symbol: string, o: PositionOutcome, now: int)
    : map<TableKey, TransfersMonitorEntity>
  {
    match o.verdict
    case Resolved => m - {KeyOf(symbol)}
    case Unresolved(isProcessed) =>
      m[KeyOf(symbol) := Create(symbol, o.residual, now, DepthReason(isProcessed), "", "Depth")]
    case Failed(f) => m[KeyOf(symbol) := Create(symbol, o.residual, now, "Error", f.message, "Depth")]
  }

  // ---------------------------------------------------------------------
  // The cycle

  /** The margin balances with a non-zero debt, in the extractor's order; no
      list at all counts as an empty one. */
  function BorrowedPositions(margin: Option<seq<ExchangeBalance>>): seq<ExchangeBalance>
  {
    match margin
    case None => []
    case Some(bs) => Filter(bs, (b: ExchangeBalance) => b.borrowed != 0.0)
  }

  function CyclePayments(ps: seq<ExchangeBalance>, inputs: CycleInputs, answer: GatewayCall -> CallResult): seq<Payment>
  {
    if ps == [] then []
    else CyclePayments(ps[..|ps| - 1], inputs, answer) + CheckPosition(ps[|ps| - 1], inputs, answer).payments
  }

  function CycleCalls(ps: seq<ExchangeBalance>, inputs: CycleInputs, answer: GatewayCall -> CallResult): seq<GatewayCall>
  {
    if ps == [] then []
    else CycleCalls(ps[..|ps| - 1], inputs, answer) + OutcomeCalls(CheckPosition(ps[|ps| - 1], inputs, answer))
  }

  function CycleMonitor(m: map<TableKey, TransfersMonitorEntity>, ps: seq<ExchangeBalance>, inputs: CycleInputs,
                        answer: GatewayCall -> CallResult): map<TableKey, TransfersMonitorEntity>
  {
    if ps == [] then m
    else MonitorAfter(CycleMonitor(m, ps[..|ps| - 1], inputs, answer), ps[|ps| - 1].symbol,
                      CheckPosition(ps[|ps| - 1], inputs, answer), inputs.now)
  }
}
