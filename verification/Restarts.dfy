/** The chain over its whole life: runs of the ledger with restarts in between. */
module Restarts {
  import opened Base
  import opened Text
  import opened Sums
  import opened Canonical
  import opened Signers
  import Bank
  import Limits
  import Registry
  import opened Bridge
  import opened Ledger
  import opened BridgePersistence
  import opened Minting

  /**
    A restart reloads the bridge from its store, and the queue from wherever it was last saved: it may hold
    anything, old claims included. Bank, limits and registry come back as they were.
   */
  datatype LifeOp = Live(op: Op) | Restart(queue: seq<QueuedClaim>)

  function Restarted(s: LedgerState, home: SignerSets, queue: seq<QueuedClaim>): LedgerState {
    s.(bridge := Reloaded(s.bridge, home), pending := queue)
  }

  ghost function LifeStep(c: Crypto, home: SignerSets, s: LedgerState, op: LifeOp): LedgerState {
    match op
    case Live(op) => Ledger.Step(c, s, op)
    case Restart(queue) => Restarted(s, home, queue)
  }

  ghost function Life(c: Crypto, home: SignerSets, s: LedgerState, ops: seq<LifeOp>): LedgerState {
    if ops == [] then s else LifeStep(c, home, Life(c, home, s, ops[..|ops| - 1]), ops[|ops| - 1])
  }

  // ---- the books survive --------------------------------------------------------------------------

  lemma SameClaimed(claims: map<string, ClaimRecord>, d: string)
    ensures Claimed(WithoutTxHash(claims), d) == Claimed(claims, d)
  {
    SumBySame(claims, WithoutTxHash(claims), AcceptedIn(d));
  }

  lemma RestartKeepsInv(s: LedgerState, home: SignerSets, queue: seq<QueuedClaim>)
    requires LedgerInv(s) && SetsInv(home)
    ensures LedgerInv(Restarted(s, home, queue)) && Conserves(s, Restarted(s, home, queue))
  {
    hide Bank.BankInv, Limits.LimitsInv, Registry.RegistryInv, SetsInv, Claimed, Withdrawn, Bank.TotalHeld, Trim;
    forall d ensures Claimed(WithoutTxHash(s.bridge.claims), d) == Claimed(s.bridge.claims, d) {
      SameClaimed(s.bridge.claims, d);
    }
  }

  lemma {:induction false} LifeKeepsInv(c: Crypto, home: SignerSets, s: LedgerState, ops: seq<LifeOp>)
    requires LedgerInv(s) && SetsInv(home)
    ensures LedgerInv(Life(c, home, s, ops)) && Conserves(s, Life(c, home, s, ops))
  {
    hide LedgerInv, Ledger.Step, Restarted, Conserves, SetsInv;
    if ops == [] {
      ConservesAlone(s, s);
    } else {
      var before := Life(c, home, s, ops[..|ops| - 1]);
      LifeKeepsInv(c, home, s, ops[..|ops| - 1]);
      match ops[|ops| - 1] {
        case Live(op) => StepKeepsInv(c, before, op);
        case Restart(queue) => RestartKeepsInv(before, home, queue);
      }
      ConservesChains(s, before, Life(c, home, s, ops));
    }
  }

  /**
    Over a whole life from genesis, with any number of restarts: per denomination wallets sum to the supply,
    supply is claims minus withdrawals, the audit passes and the breaker has not tripped.
   */
  lemma LifeConservation(c: Crypto, allowedSigners: seq<string>, requiredThreshold: U32, ops: seq<LifeOp>)
    ensures var g := GenesisLedger(allowedSigners, requiredThreshold);
      var s := Life(c, g.bridge.signerSets, g, ops);
      && (forall d :: Bank.TotalHeld(s.bank, d) == SupplyOf(s.bridge.supply, d)
                        == Claimed(s.bridge.claims, d) - Withdrawn(s.bridge.withdrawals, s.policy.assets, d))
      && AuditPasses(s.bridge, s.policy.assets) && !s.bridge.tripped
  {
    hide AuditPasses, GenesisLedger, Life, Outside, Claimed, Withdrawn, Bank.TotalHeld, SetsInv, Bank.BankInv,
         Limits.LimitsInv, Registry.RegistryInv;
    var g := GenesisLedger(allowedSigners, requiredThreshold);
    var s := Life(c, g.bridge.signerSets, g, ops);
    GenesisInv(allowedSigners, requiredThreshold);
    LifeKeepsInv(c, g.bridge.signerSets, g, ops);
    AuditExact(s.bridge, s.policy.assets);
    forall d ensures Bank.TotalHeld(s.bank, d) == SupplyOf(s.bridge.supply, d)
                       == Claimed(s.bridge.claims, d) - Withdrawn(s.bridge.withdrawals, s.policy.assets, d)
    {
      NothingOutside(s, d);
    }
  }

  /** And at every point of a life the bridge is one that can be persisted and read back. */
  lemma {:induction false} LifeStorable(c: Crypto, allowedSigners: seq<string>, requiredThreshold: U32,
                                        ops: seq<LifeOp>)
    requires HexDigests(c)
    ensures var g := GenesisLedger(allowedSigners, requiredThreshold);
      Storable(Life(c, g.bridge.signerSets, g, ops).bridge)
  {
    hide Ledger.Step, Trim, HexDigests, SetsInv, Books, Restarted;
    var g := GenesisLedger(allowedSigners, requiredThreshold);
    var home := g.bridge.signerSets;
    GenesisInv(allowedSigners, requiredThreshold);
    LifeKeepsInv(c, home, g, ops);
    if ops != [] {
      var before := Life(c, home, g, ops[..|ops| - 1]);
      LifeStorable(c, allowedSigners, requiredThreshold, ops[..|ops| - 1]);
      LifeKeepsInv(c, home, g, ops[..|ops| - 1]);
      match ops[|ops| - 1] {
        case Live(op) => StepStorable(c, before, op);
        case Restart(queue) => RestartKeepsKeys(before, home, queue);
      }
    }
  }

  lemma RestartKeepsKeys(s: LedgerState, home: SignerSets, queue: seq<QueuedClaim>)
    requires KeysTrimmed(s.bridge)
    ensures KeysTrimmed(Restarted(s, home, queue).bridge)
  {
    hide Trim;
  }

  // ---- no key twice in a whole life -------------------------------------------------------------------

  ghost function ByLife(c: Crypto, home: SignerSets, s: LedgerState, ops: seq<LifeOp>): seq<Acceptance> {
    if ops == [] then []
    else
      var front, last := ops[..|ops| - 1], ops[|ops| - 1];
      ByLife(c, home, s, front) + if last.Live? then ByStep(c, Life(c, home, s, front), last.op) else []
  }

  /** As `Fresh`, but recorded claims need only stay recorded. */
  ghost predicate Once(c: Crypto, log: seq<Acceptance>, s: LedgerState, t: LedgerState) {
    && s.bridge.claims.Keys <= t.bridge.claims.Keys
    && (forall i, j | 0 <= i < j < |log| :: KeyOf(c, log[i]) != KeyOf(c, log[j]))
    && (forall i | 0 <= i < |log| :: KeyOf(c, log[i]) !in s.bridge.claims && KeyOf(c, log[i]) in t.bridge.claims)
  }

  lemma FreshIsOnce(c: Crypto, log: seq<Acceptance>, s: LedgerState, t: LedgerState)
    requires Fresh(c, log, s, t)
    ensures Once(c, log, s, t)
  {
    hide KeyOf;
  }

  lemma RestartForgetsNothing(c: Crypto, s: LedgerState, home: SignerSets, queue: seq<QueuedClaim>)
    ensures Once(c, [], s, Restarted(s, home, queue))
  {
  }

  lemma OnceChains(c: Crypto, a: seq<Acceptance>, b: seq<Acceptance>, s: LedgerState, t: LedgerState, u: LedgerState)
    requires Once(c, a, s, t) && Once(c, b, t, u)
    ensures Once(c, a + b, s, u)
  {
    hide KeyOf;
    var log := a + b;
    forall i, j | 0 <= i < j < |log| ensures KeyOf(c, log[i]) != KeyOf(c, log[j]) {
      if i < |a| <= j {
        assert KeyOf(c, a[i]) in t.bridge.claims && KeyOf(c, b[j - |a|]) !in t.bridge.claims;
      }
    }
  }

  /**
    Nor does a restart let a key mint again, whatever queue it brings back: over a whole life the accepted
    claims carry pairwise distinct replay keys, absent before and recorded after.
   */
  lemma {:induction false} LifeMintsOnce(c: Crypto, home: SignerSets, s: LedgerState, ops: seq<LifeOp>)
    ensures Once(c, ByLife(c, home, s, ops), s, Life(c, home, s, ops))
  {
    hide Ledger.Step, ByStep, Once, Fresh, Restarted;
    if ops == [] {
      assert Once(c, [], s, s) by { NothingHappens(c, s); }
    } else {
      var front, last := ops[..|ops| - 1], ops[|ops| - 1];
      var before := Life(c, home, s, front);
      LifeMintsOnce(c, home, s, front);
      match last {
        case Live(op) =>
          StepFresh(c, before, op);
          FreshIsOnce(c, ByStep(c, before, op), before, Ledger.Step(c, before, op));
          OnceChains(c, ByLife(c, home, s, front), ByStep(c, before, op), s, before, Life(c, home, s, ops));
        case Restart(queue) =>
          RestartForgetsNothing(c, before, home, queue);
          OnceChains(c, ByLife(c, home, s, front), [], s, before, Life(c, home, s, ops));
      }
    }
  }

  lemma NothingHappens(c: Crypto, s: LedgerState)
    ensures Once(c, [], s, s)
  {
  }
}
