/** Every claim the chain ever accepts: by a submission, by draining the queue, over a whole run. */
module Minting {
  import opened Base
  import opened Text
  import opened Canonical
  import opened Attestations
  import opened Signers
  import opened Bridge
  import opened Ledger

  /** One accepted claim, with its recipient normalized, and the state it was accepted in. */
  datatype Acceptance = Acceptance(before: LedgerState, claim: DepositClaim, att: Attestation)

  function KeyOf(c: Crypto, a: Acceptance): string {
    DerivedMessageID(c, a.claim.identity)
  }

  ghost function BySubmit(c: Crypto, s: LedgerState, claim: DepositClaim, att: Attestation, persists: bool)
    : seq<Acceptance> {
    if Submit(c, s, claim, att, persists).1.Ok? then [Acceptance(s, claim.(recipient := Trim(claim.recipient)), att)]
      else []
  }

  ghost function ByDrain(c: Crypto, s: LedgerState, queue: seq<QueuedClaim>, persists: nat -> bool): seq<Acceptance> {
    if queue == [] then []
    else
      var n := |queue| - 1;
      ByDrain(c, s, queue[..n], persists)
        + BySubmit(c, Drain(c, s, queue[..n], persists), queue[n].claim, queue[n].attestation, persists(n))
  }

  ghost function ByStep(c: Crypto, s: LedgerState, op: Op): seq<Acceptance> {
    match op
    case DoSubmit(claim, att, persists) => BySubmit(c, s, claim, att, persists)
    case DoAdvance(oracle) => ByDrain(c, NextBlock(s), s.pending, oracle)
    case _ => []
  }

  ghost function ByRun(c: Crypto, s: LedgerState, ops: seq<Op>): seq<Acceptance> {
    if ops == [] then []
    else
      var n := |ops| - 1;
      ByRun(c, s, ops[..n]) + ByStep(c, Run(c, s, ops[..n]), ops[n])
  }

  // ---- no key twice ---------------------------------------------------------------------------

  /** Between two states: the keys accepted are pairwise distinct, were not recorded before, and are recorded after. */
  ghost predicate Fresh(c: Crypto, log: seq<Acceptance>, s: LedgerState, t: LedgerState) {
    && Keeps(s.bridge.claims, t.bridge.claims)
    && (forall i, j | 0 <= i < j < |log| :: KeyOf(c, log[i]) != KeyOf(c, log[j]))
    && (forall i | 0 <= i < |log| :: KeyOf(c, log[i]) !in s.bridge.claims && KeyOf(c, log[i]) in t.bridge.claims)
  }

  lemma FreshChains(c: Crypto, a: seq<Acceptance>, b: seq<Acceptance>, s: LedgerState, t: LedgerState, u: LedgerState)
    requires Fresh(c, a, s, t) && Fresh(c, b, t, u)
    ensures Fresh(c, a + b, s, u)
  {
    hide KeyOf;
    var log := a + b;
    forall i, j | 0 <= i < j < |log| ensures KeyOf(c, log[i]) != KeyOf(c, log[j]) {
      if i < |a| <= j {
        assert KeyOf(c, a[i]) in t.bridge.claims && KeyOf(c, b[j - |a|]) !in t.bridge.claims;
      }
    }
  }

  lemma FreshNothing(c: Crypto, s: LedgerState, t: LedgerState)
    requires Keeps(s.bridge.claims, t.bridge.claims)
    ensures Fresh(c, [], s, t)
  {
  }

  /** A submission that is accepted was of a claim not yet recorded, passed every check, and records it. */
  lemma AcceptedIsNew(c: Crypto, s: LedgerState, claim: DepositClaim, att: Attestation, persists: bool)
    requires Submit(c, s, claim, att, persists).1.Ok?
    ensures var claim' := claim.(recipient := Trim(claim.recipient));
      && DepositChecks(c, s.bridge, s.policy, s.limits, claim', att).None?
      && DerivedMessageID(c, claim.identity) !in s.bridge.claims
      && DerivedMessageID(c, claim.identity) in Submit(c, s, claim, att, persists).0.bridge.claims
  {
    hide Trim, ValidClaim, VerifyDeposit, Limits.CheckTransfer, AuditPasses, Limits.RecordTransfer, Bank.CreditError,
         Bank.Credited, IdentityBytes, Registry.BridgeDenom;
    ValidClaimFacts(c, claim.(recipient := Trim(claim.recipient)));
  }

  lemma SubmitFresh(c: Crypto, s: LedgerState, claim: DepositClaim, att: Attestation, persists: bool)
    ensures Fresh(c, BySubmit(c, s, claim, att, persists), s, Submit(c, s, claim, att, persists).0)
  {
    hide Submit, DerivedMessageID, Trim, DepositChecks;
    SubmitKeepsClaims(c, s, claim, att, persists);
    if Submit(c, s, claim, att, persists).1.Ok? { AcceptedIsNew(c, s, claim, att, persists); }
  }

  lemma {:induction false} DrainFresh(c: Crypto, s: LedgerState, queue: seq<QueuedClaim>, persists: nat -> bool)
    ensures Fresh(c, ByDrain(c, s, queue, persists), s, Drain(c, s, queue, persists))
  {
    hide Submit, BySubmit, Fresh;
    if queue == [] {
      FreshNothing(c, s, s);
    } else {
      var n := |queue| - 1;
      var before := Drain(c, s, queue[..n], persists);
      DrainFresh(c, s, queue[..n], persists);
      SubmitFresh(c, before, queue[n].claim, queue[n].attestation, persists(n));
      FreshChains(c, ByDrain(c, s, queue[..n], persists),
                  BySubmit(c, before, queue[n].claim, queue[n].attestation, persists(n)),
                  s, before, Drain(c, s, queue, persists));
    }
  }

  lemma StepFresh(c: Crypto, s: LedgerState, op: Op)
    ensures Fresh(c, ByStep(c, s, op), s, Step(c, s, op))
  {
    hide Submit, BySubmit, ByDrain, Drain, KeyOf;
    ClaimsAreFinal(c, s, op);
    match op
    case DoSubmit(claim, att, persists) => SubmitFresh(c, s, claim, att, persists);
    case DoAdvance(oracle) => DrainFresh(c, NextBlock(s), s.pending, oracle);
    case _ => hide Step; FreshNothing(c, s, Step(c, s, op));
  }

  /**
    However often a claim is submitted or queued, by whomever, and whatever else happens in between: the
    claims accepted over a run, directly or out of the queue, carry pairwise distinct replay keys, none of
    them recorded before and all of them recorded after.
   */
  lemma {:induction false} EachKeyMintsOnce(c: Crypto, s: LedgerState, ops: seq<Op>)
    ensures Fresh(c, ByRun(c, s, ops), s, Run(c, s, ops))
  {
    hide Step, ByStep, Fresh;
    if ops == [] {
      FreshNothing(c, s, s);
    } else {
      var n := |ops| - 1;
      EachKeyMintsOnce(c, s, ops[..n]);
      StepFresh(c, Run(c, s, ops[..n]), ops[n]);
      FreshChains(c, ByRun(c, s, ops[..n]), ByStep(c, Run(c, s, ops[..n]), ops[n]), s, Run(c, s, ops[..n]),
        Run(c, s, ops));
    }
  }

  // ---- nothing recorded unless accepted -----------------------------------------------------------

  function Keys(c: Crypto, log: seq<Acceptance>): set<string> {
    set a | a in log :: KeyOf(c, a)
  }

  lemma KeysAdd(c: Crypto, a: seq<Acceptance>, b: seq<Acceptance>)
    ensures Keys(c, a + b) == Keys(c, a) + Keys(c, b)
  {
    hide KeyOf;
  }

  lemma SubmitRecords(c: Crypto, s: LedgerState, claim: DepositClaim, att: Attestation, persists: bool)
    requires LedgerInv(s)
    ensures Submit(c, s, claim, att, persists).0.bridge.claims.Keys
      == s.bridge.claims.Keys + Keys(c, BySubmit(c, s, claim, att, persists))
  {
    hide Submit, LedgerInv, DerivedMessageID, Trim, SupplyOf, Bank.Held, Keys, DepositAudited;
    if Submit(c, s, claim, att, persists).1.Ok? {
      DepositEffect(c, s, claim, att, persists);
      OneKey(c, Acceptance(s, claim.(recipient := Trim(claim.recipient)), att));
    } else {
      InvAudits(c, s, claim, att);
      RefusedRecordsNothing(c, s, claim, att, persists);
      NoKeys(c);
    }
  }

  lemma OneKey(c: Crypto, a: Acceptance)
    ensures Keys(c, [a]) == {KeyOf(c, a)}
  {
  }

  lemma RefusedRecordsNothing(c: Crypto, s: LedgerState, claim: DepositClaim, att: Attestation, persists: bool)
    requires DepositAudited(c, s, claim, att) && Submit(c, s, claim, att, persists).1.Err?
    ensures Submit(c, s, claim, att, persists).0.bridge.claims == s.bridge.claims
  {
    hide Trim, DepositChecks, AuditPasses, AcceptDeposit, Limits.RecordTransfer, Bank.CreditError, Bank.Credited,
         Receipt;
  }

  lemma {:induction false} DrainRecords(c: Crypto, s: LedgerState, queue: seq<QueuedClaim>, persists: nat -> bool)
    requires LedgerInv(s)
    ensures Drain(c, s, queue, persists).bridge.claims.Keys
      == s.bridge.claims.Keys + Keys(c, ByDrain(c, s, queue, persists))
  {
    hide Submit, BySubmit, LedgerInv, Keys;
    if queue == [] {
      NoKeys(c);
    } else {
      var n := |queue| - 1;
      var before := Drain(c, s, queue[..n], persists);
      DrainRecords(c, s, queue[..n], persists);
      DrainKeepsInv(c, s, queue[..n], persists);
      SubmitRecords(c, before, queue[n].claim, queue[n].attestation, persists(n));
      KeysAdd(c, ByDrain(c, s, queue[..n], persists),
        BySubmit(c, before, queue[n].claim, queue[n].attestation, persists(n)));
    }
  }

  lemma NoKeys(c: Crypto)
    ensures Keys(c, []) == {}
  {
  }

  /** The operations that are neither a submission nor a block leave the recorded claims alone. */
  lemma OthersRecordNothing(c: Crypto, s: LedgerState, op: Op)
    requires !op.DoSubmit? && !op.DoAdvance?
    ensures Step(c, s, op).bridge.claims == s.bridge.claims
  {
    hide Trim, Lower, Upsert, Registry.Register, Registry.SetEnabled, Limits.PutLimit, Queue, AuditPasses,
         Bank.DebitError, Bank.Debited, NewRecord, Limits.CheckTransfer, Limits.RecordTransfer, SupplyCovers,
         WithdrawChecks;
    if op.DoQueue? { QueueKeepsBridge(c, s, op.claim, op.att); }
    if op.DoWithdraw? { WithdrawKeepsClaims(c, s, op.owner, op.req, op.persists); }
    hide Withdraw;
  }

  lemma WithdrawKeepsClaims(c: Crypto, s: LedgerState, owner: string, r: WithdrawalRequest, persists: bool)
    ensures Withdraw(c, s, owner, r, persists).0.bridge.claims == s.bridge.claims
  {
    hide Trim, Lower, AuditPasses, Bank.DebitError, Bank.Debited, NewRecord, Limits.CheckTransfer,
         Limits.RecordTransfer, Registry.BridgeDenom;
  }

  lemma StepRecords(c: Crypto, s: LedgerState, op: Op)
    requires LedgerInv(s)
    ensures Step(c, s, op).bridge.claims.Keys == s.bridge.claims.Keys + Keys(c, ByStep(c, s, op))
  {
    hide Submit, BySubmit, ByDrain, Drain, LedgerInv, Keys;
    NoKeys(c);
    match op
    case DoSubmit(claim, att, persists) => SubmitRecords(c, s, claim, att, persists);
    case DoAdvance(oracle) =>
      HeightKeepsInv(s, NextBlock(s));
      DrainRecords(c, NextBlock(s), s.pending, oracle);
    case _ => hide Step; OthersRecordNothing(c, s, op);
  }

  /** On sound books the claims recorded after a run are those before it and those it accepted, and no others. */
  lemma {:induction false} RecordedIffAccepted(c: Crypto, s: LedgerState, ops: seq<Op>)
    requires LedgerInv(s)
    ensures Run(c, s, ops).bridge.claims.Keys == s.bridge.claims.Keys + Keys(c, ByRun(c, s, ops))
  {
    hide Step, ByStep, LedgerInv, Keys;
    if ops == [] {
      NoKeys(c);
    } else {
      var n := |ops| - 1;
      RecordedIffAccepted(c, s, ops[..n]);
      RunKeepsInv(c, s, ops[..n]);
      StepRecords(c, Run(c, s, ops[..n]), ops[n]);
      KeysAdd(c, ByRun(c, s, ops[..n]), ByStep(c, Run(c, s, ops[..n]), ops[n]));
    }
  }

  // ---- a quorum behind every mint ----------------------------------------------------------------------

  /** Threshold distinct members of the highest-version set active in the state it was accepted in vouched for it. */
  ghost predicate QuorumBehind(c: Crypto, a: Acceptance) {
    exists active, members :: Vouched(c, a.before.bridge, a.claim, a.att, active, members)
  }

  lemma SubmitVouched(c: Crypto, s: LedgerState, claim: DepositClaim, att: Attestation, persists: bool)
    ensures forall a | a in BySubmit(c, s, claim, att, persists) :: QuorumBehind(c, a)
  {
    hide Submit, Vouched, VerifyDeposit, DepositChecks, Trim, DerivedMessageID;
    if Submit(c, s, claim, att, persists).1.Ok? {
      AcceptedIsNew(c, s, claim, att, persists);
      var claim' := claim.(recipient := Trim(claim.recipient));
      ChecksVerify(c, s, claim', att);
      var active, members := QuorumSoundness(c, s.bridge, claim', att);
    }
  }

  lemma ChecksVerify(c: Crypto, s: LedgerState, claim: DepositClaim, att: Attestation)
    requires DepositChecks(c, s.bridge, s.policy, s.limits, claim, att).None?
    ensures VerifyDeposit(c, s.bridge, claim, att).None?
  {
    hide VerifyDeposit, ValidClaim, Trim, Limits.CheckTransfer, IdentityBytes;
  }

  lemma {:induction false} DrainVouched(c: Crypto, s: LedgerState, queue: seq<QueuedClaim>, persists: nat -> bool)
    ensures forall a | a in ByDrain(c, s, queue, persists) :: QuorumBehind(c, a)
  {
    hide BySubmit, QuorumBehind, Submit;
    if queue != [] {
      var n := |queue| - 1;
      DrainVouched(c, s, queue[..n], persists);
      SubmitVouched(c, Drain(c, s, queue[..n], persists), queue[n].claim, queue[n].attestation, persists(n));
    }
  }

  /** Over every run, each claim accepted, directly or out of the queue, had its quorum when it was accepted. */
  lemma {:induction false} QuorumBehindEveryMint(c: Crypto, s: LedgerState, ops: seq<Op>)
    ensures forall a | a in ByRun(c, s, ops) :: QuorumBehind(c, a)
  {
    hide BySubmit, ByDrain, QuorumBehind, Step, NextBlock;
    if ops != [] {
      var n := |ops| - 1;
      QuorumBehindEveryMint(c, s, ops[..n]);
      var before, op := Run(c, s, ops[..n]), ops[n];
      match op {
        case DoSubmit(claim, att, persists) => SubmitVouched(c, before, claim, att, persists);
        case DoAdvance(oracle) => DrainVouched(c, NextBlock(before), before.pending, oracle);
        case _ =>
      }
    }
  }
}
