/** The relayer and the chain end to end: what is below a saved cursor has settled on the other side. */
module Settlement {
  import opened Base
  import opened Text
  import opened Sorting
  import opened Sums
  import opened Canonical
  import opened Signers
  import Limits
  import Bank
  import Registry
  import opened Bridge
  import opened Ledger
  import opened Pipeline
  import opened PipelineSafety

  // ---- a call succeeds only once the chain has the claim --------------------------------------

  /**
    A submission of the deposit that came back as a success before the `i`th operation: its claim was queued
    on the chain at `k`, and the query at `m` found the claim recorded. Chain operations that run while a poll
    waits come before it in a run.
   */
  ghost predicate SubmittedAt(c: Crypto, g: Config, s: Bridged, ops: seq<BridgedOp>, i: nat, d: Deposit, k: nat, m: nat)
    requires i <= |ops|
  {
    && k < m <= i && QueuesClaimOf(ops[k], d)
    && ClaimID(c, d) in BridgedRun(c, g, s, ops[..m]).ledger.bridge.claims
  }

  ghost predicate QueuesClaimOf(op: BridgedOp, d: Deposit) {
    op.OnChain? && op.op.DoQueue? && op.op.claim.identity == ClaimIdentityOf(d.event)
  }

  ghost predicate Submitted(c: Crypto, g: Config, s: Bridged, ops: seq<BridgedOp>, i: nat, d: Deposit)
    requires i <= |ops|
  {
    exists k: nat, m: nat :: SubmittedAt(c, g, s, ops, i, d, k, m)
  }

  /** The deposit is logged, and the call for it goes through when the poll gets to it. */
  ghost predicate Succeeds(c: Crypto, g: Config, s: Bridged, w: Weather, d: Deposit) {
    d in s.evm.logs && w.latest.Some? &&
      var from := Cursor(s.relay.memory, DEPOSITS);
      var xs := Observed(DepositItems(c, s.evm.logs), from, FinalTip(from, w.latest.value, g.evmConfirmations));
      exists i :: 0 <= i < |xs| && DepositItem(c, d) == xs[i] && GoesThrough(w.calls(i), g.retryLimit)
  }

  /** In every poll a call succeeds only as `SubmitDepositClaim` does, and every event names its kind where it must. */
  ghost predicate Honest(c: Crypto, g: Config, s: Bridged, ops: seq<BridgedOp>) {
    && (forall i | 0 <= i < |ops| && ops[i].Log? :: WellNamed(ops[i].d))
    && (forall i, d | 0 <= i < |ops| && ops[i].PollDeposits?
        && Succeeds(c, g, BridgedRun(c, g, s, ops[..i]), ops[i].w, d) ::
         Submitted(c, g, s, ops, i, d))
  }

  /** Every success of this poll is for a claim the chain has recorded by now. */
  ghost predicate Truthful(c: Crypto, g: Config, s: Bridged, op: BridgedOp) {
    op.PollDeposits? ==> forall d | Succeeds(c, g, s, op.w, d) :: ClaimID(c, d) in s.ledger.bridge.claims
  }

  lemma {:induction false} ClaimsStay(c: Crypto, g: Config, s: Bridged, ops: seq<BridgedOp>, m: nat)
    requires m <= |ops|
    ensures BridgedRun(c, g, s, ops[..m]).ledger.bridge.claims.Keys
      <= BridgedRun(c, g, s, ops).ledger.bridge.claims.Keys
    decreases |ops|
  {
    hide BridgedStep;
    if m == |ops| {
      assert ops[..m] == ops;
    } else {
      var front := ops[..|ops| - 1];
      assert front[..m] == ops[..m];
      ClaimsStay(c, g, s, front, m);
      StepKeepsKeys(c, g, BridgedRun(c, g, s, front), ops[|ops| - 1]);
    }
  }

  lemma StepKeepsKeys(c: Crypto, g: Config, s: Bridged, op: BridgedOp)
    ensures s.ledger.bridge.claims.Keys <= BridgedStep(c, g, s, op).ledger.bridge.claims.Keys
  {
    hide Poll, Ledger.Step, HeightRises, ItemsOf, DepositItems;
    if op.OnChain? { ClaimsAreFinal(c, s.ledger, op.op); }
  }

  lemma HonestIsTruthful(c: Crypto, g: Config, s: Bridged, ops: seq<BridgedOp>, i: nat)
    requires Honest(c, g, s, ops) && i < |ops|
    ensures Truthful(c, g, BridgedRun(c, g, s, ops[..i]), ops[i])
  {
    hide BridgedRun, Succeeds, ClaimID;
    if ops[i].PollDeposits? {
      var now := BridgedRun(c, g, s, ops[..i]);
      forall d | Succeeds(c, g, now, ops[i].w, d) ensures ClaimID(c, d) in now.ledger.bridge.claims {
        var k: nat, m: nat :| SubmittedAt(c, g, s, ops, i, d, k, m);
        assert ops[..i][..m] == ops[..m];
        ClaimsStay(c, g, s, ops[..i], m);
      }
    }
  }

  /** No two byte strings share a hash. */
  ghost predicate CollisionFree(c: Crypto) {
    forall a, b :: c.sha256Hex(a) == c.sha256Hex(b) ==> a == b
  }

  /** The replay key of some withdrawal. */
  ghost predicate WithdrawalKey(c: Crypto, key: string) {
    exists id: ClaimIdentity :: id.kind == KIND_WITHDRAWAL && key == DerivedMessageID(c, id)
  }

  /** Every key a call ever succeeded for is a recorded claim's or a withdrawal's. */
  ghost predicate Backed(c: Crypto, s: Bridged) {
    && (forall key | key in s.relay.accepted :: key in s.ledger.bridge.claims || WithdrawalKey(c, key))
    && (forall w | w in s.ledger.bridge.withdrawals :: w.identity.kind == KIND_WITHDRAWAL)
    && (forall d | d in s.evm.logs :: WellNamed(d))
  }

  /** The keys a loop over observed items adds are of items whose calls went through. */
  lemma {:induction false} HandledKeys(r: Relay, xs: seq<Item>, w: Weather, limit: int)
    ensures forall key | key in HandleAll(r, xs, w, limit).0.accepted ::
      key in r.accepted || exists i :: 0 <= i < |xs| && xs[i].key == key && GoesThrough(w.calls(i), limit)
    decreases |xs|
  {
    hide GoesThrough;
    if xs != [] {
      var n := |xs| - 1;
      HandledKeys(r, xs[..n], w, limit);
      forall key | key in HandleAll(r, xs, w, limit).0.accepted && key !in r.accepted
        ensures exists i :: 0 <= i < |xs| && xs[i].key == key && GoesThrough(w.calls(i), limit)
      {
        if key in HandleAll(r, xs[..n], w, limit).0.accepted {
          var i :| 0 <= i < n && xs[..n][i].key == key && GoesThrough(w.calls(i), limit);
          assert xs[i].key == key;
        } else {
          assert xs[n].key == key && GoesThrough(w.calls(n), limit);
        }
      }
    }
  }

  /** What a poll adds to the accepted keys comes from what it observed. */
  lemma PolledKeys(r: Relay, name: string, items: seq<Item>, confirmations: U64, limit: int, w: Weather)
    ensures forall key | key in Poll(r, name, items, confirmations, limit, w).0.accepted && key !in r.accepted ::
      && w.latest.Some?
      && var xs := Observed(items, Cursor(r.memory, name),
          FinalTip(Cursor(r.memory, name), w.latest.value, confirmations));
         exists i :: 0 <= i < |xs| && xs[i].key == key && GoesThrough(w.calls(i), limit)
  {
    hide Observed, FinalTip, GoesThrough, HandleAll;
    if w.latest.Some? {
      var from := Cursor(r.memory, name);
      HandledKeys(r, Observed(items, from, FinalTip(from, w.latest.value, confirmations)), w, limit);
    }
  }

  /** A well-named deposit's claim is filed under the relayer's own key, and that is no withdrawal's key. */
  lemma DepositKeyIsClaimID(c: Crypto, d: Deposit)
    requires WellNamed(d)
    ensures ClaimID(c, d) == DepositItem(c, d).key
    ensures CollisionFree(c) ==> !WithdrawalKey(c, ClaimID(c, d))
  {
    KeysAgreeIff(d.event);
    hide IdentityBytes, ClaimIdentityOf;
    if CollisionFree(c) && WithdrawalKey(c, ClaimID(c, d)) {
      var id: ClaimIdentity :| id.kind == KIND_WITHDRAWAL && ClaimID(c, d) == DerivedMessageID(c, id);
      KindsTellApart(id, d);
    }
  }

  lemma KindsTellApart(id: ClaimIdentity, d: Deposit)
    requires id.kind == KIND_WITHDRAWAL && WellNamed(d)
    ensures IdentityBytes(id) != IdentityBytes(ClaimIdentityOf(d.event))
  {
    var e := ClaimIdentityOf(d.event);
    assert e.kind == KIND_DEPOSIT;
    SolidEndsTrim(KIND_WITHDRAWAL);
    SolidEndsTrim(KIND_DEPOSIT);
    assert |KIND_WITHDRAWAL| != |KIND_DEPOSIT|;
    hide IdentityBytes, Trim, ClaimIdentityOf;
    IdentityBytesUnambiguous(id, e);
  }

  lemma BackedPollDeposits(c: Crypto, g: Config, s: Bridged, w: Weather)
    requires Backed(c, s) && Truthful(c, g, s, PollDeposits(w))
    ensures Backed(c, BridgedStep(c, g, s, PollDeposits(w)))
  {
    hide Poll, Observed, FinalTip, GoesThrough, WithdrawalKey, DepositItem, ClaimID, WellNamed;
    var items := DepositItems(c, s.evm.logs);
    PolledKeys(s.relay, DEPOSITS, items, g.evmConfirmations, g.retryLimit, w);
    var r := Poll(s.relay, DEPOSITS, items, g.evmConfirmations, g.retryLimit, w).0;
    forall key | key in r.accepted && key !in s.relay.accepted ensures key in s.ledger.bridge.claims {
      var from := Cursor(s.relay.memory, DEPOSITS);
      var xs := Observed(items, from, FinalTip(from, w.latest.value, g.evmConfirmations));
      var i :| 0 <= i < |xs| && xs[i].key == key && GoesThrough(w.calls(i), g.retryLimit);
      ObservedComesFrom(items, from, w.latest.value, g.evmConfirmations);
      assert xs[i] in items;
      var j :| 0 <= j < |items| && items[j] == xs[i];
      assert s.evm.logs[j] in s.evm.logs && DepositItem(c, s.evm.logs[j]) == xs[i];
      assert Succeeds(c, g, s, w, s.evm.logs[j]);
      DepositKeyIsClaimID(c, s.evm.logs[j]);
    }
  }

  lemma BackedPollWithdrawals(c: Crypto, g: Config, s: Bridged, w: Weather)
    requires Backed(c, s)
    ensures Backed(c, BridgedStep(c, g, s, PollWithdrawals(w)))
  {
    hide Poll, Observed, FinalTip, GoesThrough, WellNamed, DerivedMessageID;
    var items := ItemsOf(c, s.ledger.bridge.withdrawals);
    PolledKeys(s.relay, WITHDRAWALS, items, g.cosmosConfirmations, g.retryLimit, w);
    var r := Poll(s.relay, WITHDRAWALS, items, g.cosmosConfirmations, g.retryLimit, w).0;
    forall key | key in r.accepted && key !in s.relay.accepted ensures WithdrawalKey(c, key) {
      var from := Cursor(s.relay.memory, WITHDRAWALS);
      var xs := Observed(items, from, FinalTip(from, w.latest.value, g.cosmosConfirmations));
      var i :| 0 <= i < |xs| && xs[i].key == key && GoesThrough(w.calls(i), g.retryLimit);
      ObservedComesFrom(items, from, w.latest.value, g.cosmosConfirmations);
      assert xs[i] in items;
      var j :| 0 <= j < |items| && items[j] == xs[i];
      assert s.ledger.bridge.withdrawals[j] in s.ledger.bridge.withdrawals;
      assert key == DerivedMessageID(c, s.ledger.bridge.withdrawals[j].identity);
    }
  }

  lemma BackedOnChain(c: Crypto, g: Config, s: Bridged, op: Ledger.Op)
    requires Backed(c, s)
    ensures Backed(c, BridgedStep(c, g, s, OnChain(op)))
  {
    hide Ledger.Step, WithdrawalKey, WellNamed, HeightRises;
    if HeightRises(s.ledger, op) {
      StepAppends(c, s.ledger, op);
      ClaimsAreFinal(c, s.ledger, op);
    }
  }

  lemma StepBacked(c: Crypto, g: Config, s: Bridged, op: BridgedOp)
    requires Backed(c, s) && Truthful(c, g, s, op) && (op.Log? ==> WellNamed(op.d))
    ensures Backed(c, BridgedStep(c, g, s, op))
  {
    hide Poll, WithdrawalKey, WellNamed, Ledger.Step, Truthful, HeightRises, ItemsOf;
    match op
    case PollDeposits(w) => BackedPollDeposits(c, g, s, w);
    case PollWithdrawals(w) => BackedPollWithdrawals(c, g, s, w);
    case OnChain(op) => BackedOnChain(c, g, s, op);
    case Crash(_) =>
    case Log(_) =>
    case Mine(_) =>
  }

  lemma {:induction false} RunBacked(c: Crypto, g: Config, durable: bool, ledger: LedgerState, ops: seq<BridgedOp>)
    requires Honest(c, g, Cold(durable, ledger), ops)
    requires forall w | w in ledger.bridge.withdrawals :: w.identity.kind == KIND_WITHDRAWAL
    ensures Backed(c, BridgedRun(c, g, Cold(durable, ledger), ops))
  {
    hide BridgedStep, Truthful, WellNamed, WithdrawalKey, BridgedRun, Succeeds, Submitted, Backed;
    NoSteps(c, g, Cold(durable, ledger));
    if ops == [] {
      ColdBacked(c, durable, ledger);
    } else {
      var n := |ops| - 1;
      var s := Cold(durable, ledger);
      HonestFront(c, g, s, ops);
      RunBacked(c, g, durable, ledger, ops[..n]);
      HonestIsTruthful(c, g, s, ops, n);
      StepBacked(c, g, BridgedRun(c, g, s, ops[..n]), ops[n]);
      LastStep(c, g, s, ops);
    }
  }

  lemma NoSteps(c: Crypto, g: Config, s: Bridged)
    ensures BridgedRun(c, g, s, []) == s
  {
  }

  lemma LastStep(c: Crypto, g: Config, s: Bridged, ops: seq<BridgedOp>)
    requires ops != []
    ensures BridgedRun(c, g, s, ops) == BridgedStep(c, g, BridgedRun(c, g, s, ops[..|ops| - 1]), ops[|ops| - 1])
  {
  }

  lemma ColdBacked(c: Crypto, durable: bool, ledger: LedgerState)
    requires forall w | w in ledger.bridge.withdrawals :: w.identity.kind == KIND_WITHDRAWAL
    ensures Backed(c, Cold(durable, ledger))
  {
    hide WithdrawalKey, WellNamed;
  }

  /** What a run submitted, it submitted in time: a shorter run is honest too. */
  lemma HonestFront(c: Crypto, g: Config, s: Bridged, ops: seq<BridgedOp>)
    requires Honest(c, g, s, ops) && ops != []
    ensures Honest(c, g, s, ops[..|ops| - 1])
  {
    hide BridgedRun, Succeeds, WellNamed, ClaimID;
    var front := ops[..|ops| - 1];
    forall i, d | 0 <= i < |front| && front[i].PollDeposits?
      && Succeeds(c, g, BridgedRun(c, g, s, front[..i]), front[i].w, d)
      ensures Submitted(c, g, s, front, i, d)
    {
      assert front[..i] == ops[..i] && front[i] == ops[i];
      var k: nat, m: nat :| SubmittedAt(c, g, s, ops, i, d, k, m);
      assert front[..m] == ops[..m] && front[k] == ops[k];
      assert SubmittedAt(c, g, s, front, i, d, k, m);
    }
  }

  /**
    Over every honest run of polls, failures, crashes and restarts: a deposit below the deposit cursor, in
    memory or saved, has its claim recorded on chain, under the ID that only mints once.
   */
  lemma DepositsArrive(c: Crypto, g: Config, durable: bool, ledger: LedgerState, ops: seq<BridgedOp>)
    requires CollisionFree(c) && Honest(c, g, Cold(durable, ledger), ops)
    requires forall w | w in ledger.bridge.withdrawals :: w.identity.kind == KIND_WITHDRAWAL
    ensures var s := BridgedRun(c, g, Cold(durable, ledger), ops);
      forall d | d in s.evm.logs
        && (d.height < Cursor(s.relay.memory, DEPOSITS) || d.height < Cursor(s.relay.disk, DEPOSITS)) ::
        ClaimID(c, d) in s.ledger.bridge.claims
  {
    hide BridgedRun, Honest, DepositsSound, ClaimID, WithdrawalKey, WellNamed, CollisionFree;
    var s := BridgedRun(c, g, Cold(durable, ledger), ops);
    RunBacked(c, g, durable, ledger, ops);
    NoDepositMissed(c, g, durable, ledger, ops);
    forall d | d in s.evm.logs
      && (d.height < Cursor(s.relay.memory, DEPOSITS) || d.height < Cursor(s.relay.disk, DEPOSITS))
      ensures ClaimID(c, d) in s.ledger.bridge.claims
    {
      var items := DepositItems(c, s.evm.logs);
      var j :| 0 <= j < |s.evm.logs| && s.evm.logs[j] == d;
      assert items[j] == DepositItem(c, d) && items[j] in items;
      DepositKeyIsClaimID(c, d);
    }
  }

  // ---- one confirmation, exactly ------------------------------------------------------------------

  lemma WithdrawnRecorded(c: Crypto, s: LedgerState, owner: string, r: WithdrawalRequest, persists: bool)
    requires Withdraw(c, s, owner, r, persists).1.Ok?
    ensures var t := Withdraw(c, s, owner, r, persists).0;
      |t.bridge.withdrawals| == |s.bridge.withdrawals| + 1
      && t.bridge.withdrawals[|s.bridge.withdrawals|].blockHeight == s.bridge.currentHeight
  {
    hide Trim, Lower, AuditPasses, Bank.DebitError, Bank.Debited, Limits.CheckTransfer, Limits.RecordTransfer,
         Registry.BridgeDenom, DerivedMessageID, Dec, Render;
  }

  /** A poll in fair weather of a source at the given height. */
  function ClearWeather(height: U64): Weather {
    Weather(Some(height), true, _ => true, _ => _ => Succeeded, _ => true, true)
  }

  lemma EmptyPoll(confirmations: U64, limit: int, height: U64)
    requires confirmations == 0 && height < TWO_64 - 1
    ensures var cold := Relay(EMPTY_STORE, EMPTY_STORE, true, false, {});
      var r := Poll(cold, WITHDRAWALS, [], confirmations, limit, ClearWeather(height)).0;
      Cursor(r.memory, WITHDRAWALS) == height + 1 && r.memory.processed == {}
  {
    hide Sort;
    assert Between([], 0, height) == [];
    assert Sort([], ItemLe) == [] by { assert |Sort<Item>([], ItemLe)| == 0; }
  }

  /** Without confirmations: a poll of a chain without withdrawals, then one at the height polled, and it is missed. */
  lemma SkippingRun(c: Crypto, g: Config, ledger: LedgerState, owner: string, r: WithdrawalRequest)
    returns (ops: seq<BridgedOp>)
    requires g.cosmosConfirmations == 0 && ledger.bridge.withdrawals == [] && ledger.bridge.currentHeight < TWO_64 - 1
    requires Withdraw(c, ledger, owner, r, true).1.Ok?
    ensures var s := BridgedRun(c, g, Cold(true, ledger), ops);
      !NothingMissed(s.relay, WITHDRAWALS, ItemsOf(c, s.ledger.bridge.withdrawals))
  {
    hide BridgedRun, Poll, Withdraw, Trim, DerivedMessageID, Ledger.Step;
    var height := ledger.bridge.currentHeight;
    var poll, withdraw := PollWithdrawals(ClearWeather(height)), OnChain(Ledger.DoWithdraw(owner, r, true));
    ops := [poll, withdraw];
    var s0 := Cold(true, ledger);
    TwoSteps(c, g, s0, poll, withdraw);
    WithdrawnRecorded(c, ledger, owner, r, true);
    EmptyPoll(g.cosmosConfirmations, g.retryLimit, height);
    assert ItemsOf(c, []) == [];
    var s1 := BridgedStep(c, g, s0, poll);
    assert s1.ledger == ledger && Cursor(s1.relay.memory, WITHDRAWALS) == height + 1 && s1.relay.memory.processed == {};
    var s2 := BridgedStep(c, g, s1, withdraw);
    assert s2.relay == s1.relay && s2.ledger == Withdraw(c, ledger, owner, r, true).0 by {
      StepIsWithdraw(c, s1.ledger, owner, r);
    }
    hide BridgedStep;
    var items := ItemsOf(c, s2.ledger.bridge.withdrawals);
    assert items[0] in items && items[0].height == height;
  }

  lemma TwoSteps(c: Crypto, g: Config, s: Bridged, a: BridgedOp, b: BridgedOp)
    ensures BridgedRun(c, g, s, [a, b]) == BridgedStep(c, g, BridgedStep(c, g, s, a), b)
  {
    hide BridgedStep;
    assert [a, b][..1] == [a] && [a][..0] == [];
    assert BridgedRun(c, g, s, [a]) == BridgedStep(c, g, s, a);
  }

  lemma StepIsWithdraw(c: Crypto, s: LedgerState, owner: string, r: WithdrawalRequest)
    ensures Ledger.Step(c, s, Ledger.DoWithdraw(owner, r, true)) == Withdraw(c, s, owner, r, true).0
  {
    hide Withdraw;
  }

  /**
    On any chain reached from genesis that has recorded no withdrawal yet, but lets someone withdraw: whatever
    happens from there on, no withdrawal below a cursor is missed, if and only if the relayer waits for at
    least one confirmation.
   */
  lemma NoSkipIff(c: Crypto, g: Config, allowedSigners: seq<string>, requiredThreshold: U32, past: seq<Ledger.Op>,
                  owner: string, r: WithdrawalRequest)
    requires var ledger := Ledger.Run(c, GenesisLedger(allowedSigners, requiredThreshold), past);
      && ledger.bridge.withdrawals == [] && ledger.bridge.currentHeight < TWO_64 - 1
      && Withdraw(c, ledger, owner, r, true).1.Ok?
    ensures var ledger := Ledger.Run(c, GenesisLedger(allowedSigners, requiredThreshold), past);
      g.cosmosConfirmations >= 1 <==>
        forall durable, ops ::
          var s := BridgedRun(c, g, Cold(durable, ledger), ops);
          NothingMissed(s.relay, WITHDRAWALS, ItemsOf(c, s.ledger.bridge.withdrawals))
  {
    hide BridgedRun, NothingMissed, ItemsOf, Ledger.Run, GenesisLedger, Withdraw;
    var ledger := Ledger.Run(c, GenesisLedger(allowedSigners, requiredThreshold), past);
    if g.cosmosConfirmations >= 1 {
      forall durable, ops
        ensures var s := BridgedRun(c, g, Cold(durable, ledger), ops);
          NothingMissed(s.relay, WITHDRAWALS, ItemsOf(c, s.ledger.bridge.withdrawals))
      {
        NoWithdrawalSkipped(c, g, durable, ledger, ops);
      }
    } else {
      var ops := SkippingRun(c, g, ledger, owner, r);
    }
  }
}
