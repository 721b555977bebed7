/** A wallet-funded transfer: debit, initiate, hand to the chain application, and compensate when a step fails. */
module WalletTransfer {
  import opened Base
  import opened Text
  import Bank
  import opened Ledger
  import opened Bridge
  import opened Signers
  import Limits
  import Registry
  import R = Router

  datatype Node = Node(ledger: LedgerState, router: R.RouterState)

  datatype WalletRequest = WalletRequest(
    sender: string, routeID: string, assetID: string, amount: int, receiver: string, timeoutHeight: U64, memo: string)

  /** The chain application, seen only by whether its two calls fail; `NoChain` when there is none. */
  datatype ChainApp = NoChain | Chain(syncs: bool, executes: bool, reason: string)

  datatype WalletError =
    | AssetUnknown | BalanceTooLow | SyncFailed | DebitFailed(bank: Bank.BankError)
      | RouterRefused(error: R.RouterError)
    | ChainFailed(reason: string)

  function RouterRequest(q: WalletRequest): R.Request {
    R.Request(q.assetID, Some(q.amount), q.receiver, q.timeoutHeight, q.memo)
  }

  function DenomOf(s: Node, q: WalletRequest): string
    requires Trim(q.assetID) in s.ledger.policy.assets
  {
    s.ledger.policy.assets[Trim(q.assetID)].denom
  }

  function BalanceOf(b: Bank.Balances, address: string, denom: string): int {
    if Trim(denom) == "" then 0 else Bank.Held(b, Trim(address), Trim(denom))
  }

  /** What stops a funded request before its debit takes effect. */
  function FundError(s: Node, q: WalletRequest, chain: ChainApp): Option<WalletError>
    requires Trim(q.assetID) in s.ledger.policy.assets
  {
    if Trim(q.sender) == "" then None
    else if BalanceOf(s.ledger.bank, Trim(q.sender), DenomOf(s, q)) < q.amount then Some(BalanceTooLow)
    else if chain.Chain? && !chain.syncs then Some(SyncFailed)
    else match Bank.DebitError(s.ledger.bank, Trim(q.sender), DenomOf(s, q), Some(q.amount), true)
      case Some(e) => Some(DebitFailed(e))
      case None => None
  }

  function FailureText(reason: string): string {
    "localhost sdk transfer failed: " + reason
  }

  /** What a request does to both ledgers, compensations carried out. */
  function Transfer(s: Node, q: WalletRequest, chain: ChainApp): (Node, Result<R.TransferRecord, WalletError>) {
    if Trim(q.assetID) !in s.ledger.policy.assets then (s, Err(AssetUnknown))
    else if FundError(s, q, chain).Some? then (s, Err(FundError(s, q, chain).value))
    else
      var funded := Trim(q.sender) != "";
      var denom := DenomOf(s, q);
      var debited := if funded then Bank.Debited(s.ledger.bank, Trim(q.sender), denom, Some(q.amount))
        else s.ledger.bank;
      var returned := if funded then Bank.Credited(debited, Trim(q.sender), denom, Some(q.amount)) else debited;
      match R.InitiateError(s.router, q.routeID, RouterRequest(q))
      case Some(e) => (s.(ledger := s.ledger.(bank := returned)), Err(RouterRefused(e)))
      case None =>
        var router := R.InitiateVia(s.router, q.routeID, RouterRequest(q));
        var id := R.TransferID(q.assetID, s.router.nextSequence);
        InitiateStores(s.router, q.routeID, RouterRequest(q));
        if chain.Chain? && !chain.executes then
          (Node(s.ledger.(bank := returned), R.Acknowledge(router, id, R.AckFailure(FailureText(chain.reason)))),
            Err(ChainFailed(chain.reason)))
        else
          (Node(s.ledger.(bank := debited), router), Ok(router.transfers[id]))
  }

  lemma InitiateStores(r: R.RouterState, routeID: string, q: R.Request)
    requires R.InitiateError(r, routeID, q).None?
    ensures R.TransferID(q.assetID, r.nextSequence) in R.InitiateVia(r, routeID, q).transfers
    ensures R.InitiateVia(r, routeID, q).transfers[R.TransferID(q.assetID, r.nextSequence)].status == R.Pending
    ensures R.InitiateVia(r, routeID, q).transfers[R.TransferID(q.assetID, r.nextSequence)].amount == q.amount.value
  {
    hide Trim, R.TransferID, R.Destination;
  }

  lemma RefusedInitiate(r: R.RouterState, routeID: string, q: R.Request)
    ensures R.InitiateError(r, routeID, q).Some? ==> R.InitiateVia(r, routeID, q) == r
  {
    hide Trim, R.TransferID, R.Destination;
  }

  /** The networked node: the application, its router and, unless there is none, the chain application. */
  class Gateway {
    const app: App
    const router: R.RouterKeeper

    constructor (app: App, router: R.RouterKeeper)
      ensures this.app == app && this.router == router
    {
      this.app, this.router := app, router;
    }

    ghost function State(): Node
      reads app, app.bankKeeper, app.bridgeKeeper, app.limitsKeeper, app.registryKeeper, app.pauserKeeper, router
    {
      Node(app.State(), router.State())
    }

    /** The debit, with the checks before it; a blank sender pays nothing. */
    method Fund(q: WalletRequest, chain: ChainApp) returns (e: Option<WalletError>)
      requires Trim(q.assetID) in app.registryKeeper.assets
      modifies app.bankKeeper
      ensures e == FundError(old(State()), q, chain)
      ensures app.bankKeeper.balances ==
        if Trim(q.sender) == "" || e.Some? then old(app.bankKeeper.balances)
        else Bank.Debited(old(app.bankKeeper.balances), Trim(q.sender), DenomOf(old(State()), q), Some(q.amount))
    {
      hide Trim, Bank.DebitError, Bank.DebitWallet, Bank.Held;
      var sender := Trim(q.sender);
      TrimTwice(q.sender);
      if sender == "" { return None; }
      var denom := app.registryKeeper.assets[Trim(q.assetID)].denom;
      var balance := app.bankKeeper.BalanceOf(sender, denom);
      if balance < q.amount { return Some(BalanceTooLow); }
      if chain.Chain? && !chain.syncs { return Some(SyncFailed); }
      var refused := app.bankKeeper.Debit(sender, denom, Some(q.amount), true);
      e := if refused.Some? then Some(DebitFailed(refused.value)) else None;
    }

    /** `applyIBCTransferPayload`; bank storage is taken to work, the chain application may fail at either call. */
    method ApplyIBCTransfer(q: WalletRequest, chain: ChainApp) returns (result: Result<R.TransferRecord, WalletError>)
      modifies app.bankKeeper, router
      ensures State() == Transfer(old(State()), q, chain).0
      ensures result == Transfer(old(State()), q, chain).1
    {
      hide Trim, R.InitiateVia, R.InitiateError, R.TransferID, R.Acknowledge, R.PendingError, Bank.Debited,
           Bank.Credited, Bank.CreditError, FundError;
      if Trim(q.assetID) !in app.registryKeeper.assets { return Err(AssetUnknown); }
      var denom := app.registryKeeper.assets[Trim(q.assetID)].denom;
      var refused := Fund(q, chain);
      if refused.Some? { return Err(refused.value); }
      RefusedInitiate(router.State(), q.routeID, RouterRequest(q));
      var initiated := router.InitiateTransfer(q.routeID, RouterRequest(q));
      if initiated.Err? {
        if Trim(q.sender) != "" { var _ := app.bankKeeper.Credit(Trim(q.sender), denom, Some(q.amount), true); }
        return Err(RouterRefused(initiated.error));
      }
      if chain.Chain? && !chain.executes {
        if Trim(q.sender) != "" { var _ := app.bankKeeper.Credit(Trim(q.sender), denom, Some(q.amount), true); }
        var _ := router.AcknowledgeTransfer(initiated.value.transferID, R.AckFailure(FailureText(chain.reason)));
        return Err(ChainFailed(chain.reason));
      }
      result := Ok(initiated.value);
    }
  }

  // ---- all or nothing --------------------------------------------------------------------------------

  function PendingTransfers(r: R.RouterState): map<string, R.TransferRecord> {
    map id | id in r.transfers && r.transfers[id].status == R.Pending :: r.transfers[id]
  }

  /** A debit takes the amount from one balance and leaves every other. */
  /** A refused request leaves the bank as it was and adds no pending transfer; nor does it disturb one. */
  lemma RefusedChangesNothing(s: Node, q: WalletRequest, chain: ChainApp)
    requires R.RouterInv(s.router) && s.router.nextSequence < TWO_64 - 1
    requires Transfer(s, q, chain).1.Err?
    ensures var t := Transfer(s, q, chain).0;
      t.ledger == s.ledger && PendingTransfers(t.router) == PendingTransfers(s.router)
  {
    hide Trim, R.InitiateVia, R.InitiateError, R.TransferID, R.Acknowledge, Bank.DebitError, Bank.Debited,
         Bank.Credited, PendingTransfers, R.RouterInv;
    if Trim(q.assetID) in s.ledger.policy.assets && FundError(s, q, chain).None? {
      if Trim(q.sender) != "" { Bank.DebitThenCredit(s.ledger.bank, Trim(q.sender), DenomOf(s, q), Some(q.amount)); }
      if R.InitiateError(s.router, q.routeID, RouterRequest(q)).None? {
        CancelledAtOnce(s.router, q.routeID, RouterRequest(q), R.AckFailure(FailureText(chain.reason)));
      }
    }
  }

  /** Initiating and failing a transfer leaves the pending ones as they were. */
  lemma CancelledAtOnce(r: R.RouterState, routeID: string, q: R.Request, v: R.Verdict)
    requires R.RouterInv(r) && r.nextSequence < TWO_64 - 1 && R.InitiateError(r, routeID, q).None?
    ensures var id := R.TransferID(q.assetID, r.nextSequence);
      PendingTransfers(R.Acknowledge(R.InitiateVia(r, routeID, q), id, v)) == PendingTransfers(r)
  {
    hide Trim, R.TransferID, R.RouterInv, R.SessionOf, R.SettleSession, R.InitiateVia, R.InitiateError, R.Settle;
    var id := R.TransferID(q.assetID, r.nextSequence);
    var added := R.InitiateVia(r, routeID, q);
    var cancelled := R.Acknowledge(added, id, v);
    AddedOne(r, routeID, q);
    R.SequenceParsesBack(q.assetID, r.nextSequence);
    hide R.ParseSequence;
    var settled := R.Settle(added.transfers[id], v);
    SettledIsNotPending(added.transfers[id], v);
    assert cancelled.transfers == added.transfers[id := settled];
    hide R.Acknowledge;
    assert PendingTransfers(added) == PendingTransfers(r)[id := added.transfers[id]];
    assert forall x :: x in PendingTransfers(cancelled) <==> x != id && x in PendingTransfers(added);
  }

  lemma SettledIsNotPending(t: R.TransferRecord, v: R.Verdict)
    ensures R.Settle(t, v).status != R.Pending
  {
    hide Trim;
  }

  /**
    An accepted request debits its sender by exactly the amount and adds exactly one pending transfer of that
    amount.
   */
  lemma AcceptedMovesAmount(s: Node, q: WalletRequest, chain: ChainApp)
    requires R.RouterInv(s.router) && s.router.nextSequence < TWO_64 - 1
    requires Transfer(s, q, chain).1.Ok?
    ensures var (t, r) := Transfer(s, q, chain);
      && q.amount > 0 && r.value.amount == q.amount && r.value.status == R.Pending
      && r.value.transferID !in s.router.transfers
      && PendingTransfers(t.router) == PendingTransfers(s.router)[r.value.transferID := r.value]
      && t.ledger == s.ledger.(bank := t.ledger.bank)
      && (forall a, d :: Bank.Held(t.ledger.bank, a, d) == Bank.Held(s.ledger.bank, a, d)
            - if Trim(q.sender) != "" && a == Trim(q.sender) && d == Trim(DenomOf(s, q)) then q.amount else 0)
  {
    hide Trim, R.InitiateVia, R.InitiateError, R.TransferID, Bank.DebitError, Bank.Debited, PendingTransfers,
         R.RouterInv, Bank.Held;
    TrimTwice(q.sender);
    AddedOne(s.router, q.routeID, RouterRequest(q));
    if Trim(q.sender) != "" {
      forall a, d
        ensures Bank.Held(Bank.Debited(s.ledger.bank, Trim(q.sender), DenomOf(s, q), Some(q.amount)), a, d) ==
          Bank.Held(s.ledger.bank, a, d) - if a == Trim(q.sender) && d == Trim(DenomOf(s, q)) then q.amount else 0
      {
        Bank.DebitTakes(s.ledger.bank, Trim(q.sender), DenomOf(s, q), q.amount, a, d);
      }
    }
  }

  lemma AddedOne(r: R.RouterState, routeID: string, q: R.Request)
    requires R.RouterInv(r) && r.nextSequence < TWO_64 - 1 && R.InitiateError(r, routeID, q).None?
    ensures var id := R.TransferID(q.assetID, r.nextSequence);
      var r' := R.InitiateVia(r, routeID, q);
      && id !in r.transfers && id in r'.transfers && q.amount.value > 0
      && r'.transfers[id].transferID == id && r'.transfers[id].amount == q.amount.value
      && r'.transfers[id].status == R.Pending
      && PendingTransfers(r') == PendingTransfers(r)[id := r'.transfers[id]]
  {
    hide Trim, R.Destination, R.TransferID, R.RouterInv, R.Paired;
    var (chainID, channelID, denom) := R.Destination(r, routeID, q).value;
    R.InitiateFresh(r, q, chainID, channelID, denom);
  }

  /** A funded request can be paid for: the sender holds the amount, and the chain application has synchronised. */
  predicate CanPay(s: Node, q: WalletRequest, chain: ChainApp)
    requires Trim(q.assetID) in s.ledger.policy.assets
  {
    Trim(q.sender) != "" ==>
      && Bank.Held(s.ledger.bank, Trim(q.sender), Trim(DenomOf(s, q))) >= q.amount > 0
      && Trim(DenomOf(s, q)) != "" && (chain.Chain? ==> chain.syncs)
  }

  /**
    A request is accepted exactly when its asset is known, its sender, if any, can pay, the router takes it, and
    the chain application carries it out.
   */
  lemma AcceptedIff(s: Node, q: WalletRequest, chain: ChainApp)
    requires Bank.BankInv(s.ledger.bank)
    ensures Transfer(s, q, chain).1.Ok? <==>
      && Trim(q.assetID) in s.ledger.policy.assets && CanPay(s, q, chain)
      && R.InitiateError(s.router, q.routeID, RouterRequest(q)).None? && (chain.Chain? ==> chain.executes)
  {
    TrimTwice(q.sender);
    if Trim(q.assetID) in s.ledger.policy.assets {
      TrimTwice(DenomOf(s, q));
      FundIff(s, q, chain);
    }
    hide Trim, R.InitiateVia, R.InitiateError, R.TransferID, R.Acknowledge, Bank.Debited, Bank.Credited, FundError,
         Bank.Held, RouterRequest;
  }

  lemma FundIff(s: Node, q: WalletRequest, chain: ChainApp)
    requires Bank.BankInv(s.ledger.bank) && Trim(q.assetID) in s.ledger.policy.assets
    ensures FundError(s, q, chain).None? <==> CanPay(s, q, chain)
  {
    TrimTwice(q.sender);
    hide Trim, Bank.DebitError, Bank.Held, Bank.BankInv;
    if Trim(q.sender) != "" {
      Bank.DebitIff(s.ledger.bank, Trim(q.sender), DenomOf(s, q), Some(q.amount), true);
    }
  }

  /** The transfer an accepted request is answered with says all that was asked for, and goes where the router says. */
  lemma AcceptedStores(s: Node, q: WalletRequest, chain: ChainApp)
    requires Transfer(s, q, chain).1.Ok?
    ensures var t := Transfer(s, q, chain).1.value;
      && R.Goes(s.router, q.routeID, RouterRequest(q), t.chainID, t.channelID, t.denom)
      && t.assetID == Trim(q.assetID) && t.amount == q.amount > 0 && t.receiver == Trim(q.receiver) != ""
      && t.timeoutHeight == q.timeoutHeight != 0 && t.memo == Trim(q.memo) && t.status == R.Pending
      && t.transferID == "ibc/" + Trim(q.assetID) + "/" + Dec(s.router.nextSequence)
    ensures RouterRequest(q).assetID == q.assetID && RouterRequest(q).memo == q.memo
  {
    AcceptedRouter(s, q, chain);
    R.InitiateEffect(s.router, q.routeID, RouterRequest(q));
    hide Trim, R.InitiateVia, R.InitiateError, Transfer, R.Goes, Dec;
  }

  lemma AcceptedRouter(s: Node, q: WalletRequest, chain: ChainApp)
    requires Transfer(s, q, chain).1.Ok?
    ensures R.InitiateError(s.router, q.routeID, RouterRequest(q)).None?
    ensures var id := "ibc/" + Trim(q.assetID) + "/" + Dec(s.router.nextSequence);
      var r := R.InitiateVia(s.router, q.routeID, RouterRequest(q));
      id in r.transfers && Transfer(s, q, chain).1.value == r.transfers[id]
  {
    if R.InitiateError(s.router, q.routeID, RouterRequest(q)).None? {
      InitiateStores(s.router, q.routeID, RouterRequest(q));
    }
    hide Trim, R.InitiateVia, R.InitiateError, R.Acknowledge, Bank.Debited, Bank.Credited, FundError, Dec;
  }

  // ---- supply, wallets and transfers over every run ---------------------------------------------------------

  /** A funded transfer that went out: its ID, denomination and amount. */
  datatype Sent = Sent(id: string, denom: string, amount: int)

  function SentOf(sent: seq<Sent>, denom: string): int {
    if sent == [] then 0
    else SentOf(sent[..|sent| - 1], denom) + if sent[|sent| - 1].denom == denom then sent[|sent| - 1].amount else 0
  }

  datatype NodeOp =
    | OnLedger(op: Ledger.Op)
    | OnRouter(router: R.RouterOp)
    | OnTransfer(request: WalletRequest, chain: ChainApp)

  /** The node and, as history, the funded transfers whose debit was never given back. */
  datatype Books = Books(node: Node, sent: seq<Sent>)

  ghost function NodeStep(c: Crypto, s: Books, op: NodeOp): Books {
    match op
    case OnLedger(op) => s.(node := s.node.(ledger := Ledger.Step(c, s.node.ledger, op)))
    case OnRouter(op) => s.(node := s.node.(router := R.RouterStep(s.node.router, op)))
    case OnTransfer(q, chain) =>
      var (node, r) := Transfer(s.node, q, chain);
      Books(node, s.sent + if r.Ok? && Trim(q.sender) != "" then
        [Sent(r.value.transferID, Trim(DenomOf(s.node, q)), q.amount)] else [])
  }

  ghost function NodeRun(c: Crypto, s: Books, ops: seq<NodeOp>): Books {
    if ops == [] then s else NodeStep(c, NodeRun(c, s, ops[..|ops| - 1]), ops[|ops| - 1])
  }

  /** Every sent entry is one of the router's transfers, of that amount, and no two are the same. */
  ghost predicate SentOk(r: R.RouterState, sent: seq<Sent>) {
    && (forall k | 0 <= k < |sent| :: sent[k].id in r.transfers && r.transfers[sent[k].id].amount == sent[k].amount > 0)
    && (forall k, l | 0 <= k < l < |sent| :: sent[k].id != sent[l].id)
  }

  ghost predicate NodeInv(s: Books) {
    && LedgerInv(s.node.ledger)
    && R.RouterInv(s.node.router)
    && SentOk(s.node.router, s.sent)
    && forall d :: Outside(s.node.ledger, d) == SentOf(s.sent, d)
  }

  /** No transfer disappears or changes its amount. */
  ghost predicate AmountsKept(r: R.RouterState, r': R.RouterState) {
    forall id | id in r.transfers :: id in r'.transfers && r'.transfers[id].amount == r.transfers[id].amount
  }

  lemma StepKeepsAmounts(r: R.RouterState, op: R.RouterOp)
    requires R.RouterInv(r) && r.nextSequence < TWO_64 - 1
    ensures AmountsKept(r, R.RouterStep(r, op))
  {
    hide R.RouterStep, R.RouterInv;
    forall id | id in r.transfers ensures R.Advanced(r, R.RouterStep(r, op), id) {
      R.StatusOnlyAdvances(r, op, id);
    }
  }

  lemma RouterOpKeeps(c: Crypto, s: Books, op: R.RouterOp)
    requires NodeInv(s) && s.node.router.nextSequence < TWO_64 - 1
    ensures NodeInv(NodeStep(c, s, OnRouter(op)))
  {
    hide R.RouterStep, R.RouterInv, LedgerInv, Outside, SentOf;
    R.StepKeepsInv(s.node.router, op);
    StepKeepsAmounts(s.node.router, op);
  }

  lemma LedgerOpKeeps(c: Crypto, s: Books, op: Ledger.Op)
    requires NodeInv(s)
    ensures NodeInv(NodeStep(c, s, OnLedger(op)))
  {
    hide R.RouterInv, LedgerInv, Outside, SentOf, Ledger.Step, SentOk;
    Ledger.StepKeepsInv(c, s.node.ledger, op);
    var t := Ledger.Step(c, s.node.ledger, op);
    forall d ensures Outside(t, d) == SentOf(s.sent, d) {
      assert Outside(t, d) == Outside(s.node.ledger, d);
    }
  }

  /** The router after any request, accepted or cancelled, only grew. */
  lemma TransferGrows(s: Node, q: WalletRequest, chain: ChainApp)
    requires R.RouterInv(s.router) && s.router.nextSequence < TWO_64 - 2
    ensures R.RouterInv(Transfer(s, q, chain).0.router)
    ensures Transfer(s, q, chain).0.router.nextSequence <= s.router.nextSequence + 1
    ensures AmountsKept(s.router, Transfer(s, q, chain).0.router)
  {
    hide Trim, R.RouterInv, R.InitiateVia, R.InitiateError, R.Acknowledge, R.TransferID, Bank.Debited, Bank.Credited,
         FundError, RouterRequest;
    var request := RouterRequest(q);
    var r := R.InitiateVia(s.router, q.routeID, request);
    var v := R.AckFailure(FailureText(if chain.Chain? then chain.reason else ""));
    var id := R.TransferID(q.assetID, s.router.nextSequence);
    R.InitiateKeepsInv(s.router, q.routeID, request);
    R.AcknowledgeKeepsInv(r, id, v);
    AcknowledgeKeepsSequence(r, id, v);
    StepKeepsAmounts(s.router, R.OpInitiate(q.routeID, request));
    StepKeepsAmounts(r, R.OpAcknowledge(id, v));
  }

  lemma AcknowledgeKeepsSequence(r: R.RouterState, id: string, v: R.Verdict)
    ensures R.Acknowledge(r, id, v).nextSequence == r.nextSequence
  {
    hide Trim, R.SessionOf, R.SettleSession;
  }

  lemma SentGrows(r: R.RouterState, r': R.RouterState, sent: seq<Sent>, x: Sent)
    requires SentOk(r, sent) && AmountsKept(r, r')
    requires x.id !in r.transfers && x.id in r'.transfers && r'.transfers[x.id].amount == x.amount > 0
    ensures SentOk(r', sent + [x])
  {
    var sent' := sent + [x];
    assert forall k | 0 <= k < |sent| :: sent'[k] == sent[k];
  }

  /** A debit of the bank alone moves its amount of one denomination outside the wallets. */
  lemma DebitGoesOutside(s: LedgerState, address: string, denom: string, amount: int, d: string)
    requires Bank.DebitError(s.bank, address, denom, Some(amount), true).None?
    ensures Outside(s.(bank := Bank.Debited(s.bank, address, denom, Some(amount))), d) == Outside(s, d) + if d
      == Trim(denom) then amount else 0
  {
    hide Trim, Bank.DebitWallet, Bank.TotalHeld;
    Bank.DebitTotal(s.bank, Trim(address), Trim(denom), amount, d);
  }

  lemma BankChangeKeepsInv(s: LedgerState, bank: Bank.Balances)
    requires LedgerInv(s) && Bank.BankInv(bank)
    ensures LedgerInv(s.(bank := bank))
  {
    hide SetsInv, Limits.LimitsInv, Registry.RegistryInv, BooksBalance, AmountsPositive, Bank.BankInv;
  }

  lemma InvBank(s: LedgerState)
    requires LedgerInv(s)
    ensures Bank.BankInv(s.bank)
  {
    hide SetsInv, Limits.LimitsInv, Registry.RegistryInv, BooksBalance, AmountsPositive, Bank.BankInv;
  }

  lemma TransferOpKeeps(c: Crypto, s: Books, q: WalletRequest, chain: ChainApp)
    requires NodeInv(s) && s.node.router.nextSequence < TWO_64 - 2
    ensures NodeInv(NodeStep(c, s, OnTransfer(q, chain)))
  {
    hide Transfer, R.RouterInv, LedgerInv, Outside, SentOf, Trim, PendingTransfers, Bank.Held;
    TransferGrows(s.node, q, chain);
    if Transfer(s.node, q, chain).1.Err? {
      RefusedChangesNothing(s.node, q, chain);
      assert s.sent + [] == s.sent;
    } else if Trim(q.sender) == "" {
      AcceptedUnfunded(s.node, q, chain);
      assert s.sent + [] == s.sent;
    } else {
      AcceptedFunded(s, q, chain);
      hide SentOk, AmountsKept;
    }
  }

  lemma AcceptedUnfunded(s: Node, q: WalletRequest, chain: ChainApp)
    requires Transfer(s, q, chain).1.Ok? && Trim(q.sender) == ""
    ensures Transfer(s, q, chain).0.ledger == s.ledger
  {
    hide Trim, R.InitiateVia, R.InitiateError, R.TransferID, R.Acknowledge, Bank.DebitError, Bank.Debited,
         Bank.Credited;
  }

  lemma AcceptedFunded(s: Books, q: WalletRequest, chain: ChainApp)
    requires NodeInv(s) && s.node.router.nextSequence < TWO_64 - 2
    requires Transfer(s.node, q, chain).1.Ok? && Trim(q.sender) != ""
    ensures var (t, r) := Transfer(s.node, q, chain);
      var sent := s.sent + [Sent(r.value.transferID, Trim(DenomOf(s.node, q)), q.amount)];
      && LedgerInv(t.ledger) && SentOk(t.router, sent) && forall d :: Outside(t.ledger, d) == SentOf(sent, d)
  {
    hide Trim, R.InitiateVia, R.InitiateError, R.TransferID, R.Acknowledge, Bank.DebitError, Bank.Debited,
         Bank.Credited, R.RouterInv, LedgerInv, Outside, PendingTransfers, Bank.Held;
    var (t, r) := Transfer(s.node, q, chain);
    var denom := DenomOf(s.node, q);
    AcceptedMovesAmount(s.node, q, chain);
    TransferGrows(s.node, q, chain);
    var x := Sent(r.value.transferID, Trim(denom), q.amount);
    NewRecordStored(s.node, q, chain);
    SentGrows(s.node.router, t.router, s.sent, x);
    assert t.ledger == s.node.ledger.(bank := Bank.Debited(s.node.ledger.bank, Trim(q.sender), denom, Some(q.amount)));
    assert (s.sent + [x])[..|s.sent|] == s.sent;
    forall d ensures Outside(t.ledger, d) == SentOf(s.sent + [x], d) {
      DebitGoesOutside(s.node.ledger, Trim(q.sender), denom, q.amount, d);
    }
    InvBank(s.node.ledger);
    Bank.DebitKeepsInv(s.node.ledger.bank, Trim(q.sender), denom, Some(q.amount));
    BankChangeKeepsInv(s.node.ledger, t.ledger.bank);
  }

  lemma NewRecordStored(s: Node, q: WalletRequest, chain: ChainApp)
    requires R.RouterInv(s.router) && s.router.nextSequence < TWO_64 - 1 && Transfer(s, q, chain).1.Ok?
    ensures var (t, r) := Transfer(s, q, chain);
      r.value.transferID in t.router.transfers && t.router.transfers[r.value.transferID] == r.value
  {
    hide Trim, R.InitiateVia, R.InitiateError, R.TransferID, Bank.DebitError, Bank.Debited, Bank.Credited,
         PendingTransfers, R.RouterInv;
    AddedOne(s.router, q.routeID, RouterRequest(q));
  }

  lemma NodeStepKeeps(c: Crypto, s: Books, op: NodeOp)
    requires NodeInv(s) && s.node.router.nextSequence < TWO_64 - 2
    ensures NodeInv(NodeStep(c, s, op))
    ensures NodeStep(c, s, op).node.router.nextSequence <= s.node.router.nextSequence + 1
  {
    hide NodeInv, Ledger.Step, R.RouterStep, Transfer;
    NodeInvRouter(s);
    match op
    case OnLedger(op) => LedgerOpKeeps(c, s, op);
    case OnRouter(op) =>
      RouterOpKeeps(c, s, op);
      R.StepKeepsInv(s.node.router, op);
    case OnTransfer(q, chain) =>
      TransferOpKeeps(c, s, q, chain);
      TransferGrows(s.node, q, chain);
  }

  lemma NodeInvRouter(s: Books)
    requires NodeInv(s)
    ensures R.RouterInv(s.node.router) && LedgerInv(s.node.ledger) && SentOk(s.node.router, s.sent)
    ensures forall d :: Outside(s.node.ledger, d) == SentOf(s.sent, d)
  {
    hide R.RouterInv, LedgerInv, Outside, SentOf, SentOk;
  }

  function FreshNode(allowedSigners: seq<string>, requiredThreshold: U32): Books {
    Books(Node(GenesisLedger(allowedSigners, requiredThreshold), R.EmptyRouter()), [])
  }

  lemma {:induction false} NodeRunKeeps(c: Crypto, allowedSigners: seq<string>, requiredThreshold: U32,
                                        ops: seq<NodeOp>)
    requires |ops| < TWO_64 - 4
    ensures var s := NodeRun(c, FreshNode(allowedSigners, requiredThreshold), ops);
      NodeInv(s) && s.node.router.nextSequence <= |ops| + 1
  {
    if ops == [] {
      GenesisInv(allowedSigners, requiredThreshold);
      hide LedgerInv, GenesisLedger, Outside;
      assert R.RouterInv(R.EmptyRouter());
    } else {
      hide NodeInv, NodeStep, FreshNode;
      NodeRunKeeps(c, allowedSigners, requiredThreshold, ops[..|ops| - 1]);
      NodeStepKeeps(c, NodeRun(c, FreshNode(allowedSigners, requiredThreshold), ops[..|ops| - 1]), ops[|ops| - 1]);
    }
  }

  /**
    Over every run of deposits, withdrawals, wallet transfers, acknowledgements and refunds, with the
    chain application failing wherever it likes: per denomination, what wallets hold plus the funded
    transfers whose debit was never given back is the bridge supply; those transfers are distinct
    router transfers of exactly those amounts; and so wallets never hold more than the supply.
   */
  lemma WalletsPlusTransfersIsSupply(c: Crypto, allowedSigners: seq<string>, requiredThreshold: U32, ops: seq<NodeOp>,
                                     d: string)
    requires |ops| < TWO_64 - 4
    ensures var s := NodeRun(c, FreshNode(allowedSigners, requiredThreshold), ops);
      && Bank.TotalHeld(s.node.ledger.bank, d) + SentOf(s.sent, d) == SupplyOf(s.node.ledger.bridge.supply, d)
      && SentOf(s.sent, d) >= 0
      && SentOk(s.node.router, s.sent)
  {
    hide LedgerInv, FreshNode, NodeRun, SentOf, Bank.TotalHeld;
    NodeRunKeeps(c, allowedSigners, requiredThreshold, ops);
    var s := NodeRun(c, FreshNode(allowedSigners, requiredThreshold), ops);
    assert Outside(s.node.ledger, d) == SentOf(s.sent, d);
    SentIsNonNegative(s.node.router, s.sent, d);
  }

  /**
    Wallets hold the whole supply of a denomination exactly as long as no funded transfer of it went out
    uncompensated, however that transfer ended: completed, failed or refunded.
   */
  lemma WalletsHoldSupplyIff(c: Crypto, allowedSigners: seq<string>, requiredThreshold: U32, ops: seq<NodeOp>,
                             d: string)
    requires |ops| < TWO_64 - 4
    ensures var s := NodeRun(c, FreshNode(allowedSigners, requiredThreshold), ops);
      (forall k | 0 <= k < |s.sent| :: s.sent[k].denom != d) <==>
      Bank.TotalHeld(s.node.ledger.bank, d) == SupplyOf(s.node.ledger.bridge.supply, d)
  {
    hide FreshNode, NodeRun, SentOf, Bank.TotalHeld;
    WalletsPlusTransfersIsSupply(c, allowedSigners, requiredThreshold, ops, d);
    var s := NodeRun(c, FreshNode(allowedSigners, requiredThreshold), ops);
    NothingSentIff(s.node.router, s.sent, d);
  }

  lemma {:induction false} NothingSentIff(r: R.RouterState, sent: seq<Sent>, d: string)
    requires SentOk(r, sent)
    ensures SentOf(sent, d) == 0 <==> forall k | 0 <= k < |sent| :: sent[k].denom != d
  {
    SentIsNonNegative(r, sent, d);
    if sent != [] {
      var front, last := sent[..|sent| - 1], sent[|sent| - 1];
      assert forall k | 0 <= k < |front| :: front[k] == sent[k];
      assert last.amount > 0;
      NothingSentIff(r, front, d);
      SentIsNonNegative(r, front, d);
    }
  }

  /** A refund moves no wallet, no supply and no entry of the history, whatever it is a refund of. */
  lemma RefundCreditsNobody(c: Crypto, s: Books, id: string)
    ensures NodeStep(c, s, OnRouter(R.OpRefund(id))) == s.(node := s.node.(router := R.Refund(s.node.router, id)))
    ensures NodeStep(c, s, OnRouter(R.OpRefund(id))).node.ledger == s.node.ledger
  {
    hide R.Refund;
  }

  /**
    For every accepted funded request: once its transfer has failed and been refunded, its status is
    refunded, every wallet is still short of exactly the amount debited, and the history still counts it.
   */
  lemma RefundedStaysOut(c: Crypto, s: Books, q: WalletRequest, chain: ChainApp, reason: string)
    requires R.RouterInv(s.node.router) && s.node.router.nextSequence < TWO_64 - 2
    requires Transfer(s.node, q, chain).1.Ok? && Trim(q.sender) != ""
    ensures var id := Transfer(s.node, q, chain).1.value.transferID;
      var sent := NodeStep(c, s, OnTransfer(q, chain));
      var failed := NodeStep(c, sent, OnRouter(R.OpAcknowledge(id, R.AckFailure(reason))));
      var t := NodeStep(c, failed, OnRouter(R.OpRefund(id)));
      && id in t.node.router.transfers && t.node.router.transfers[id].status == R.Refunded
      && t.sent == s.sent + [Sent(id, Trim(DenomOf(s.node, q)), q.amount)]
      && forall a, d :: (Bank.Held(t.node.ledger.bank, a, d) == Bank.Held(s.node.ledger.bank, a, d)
           - if a == Trim(q.sender) && d == Trim(DenomOf(s.node, q)) then q.amount else 0)
  {
    hide Trim, Transfer, R.RouterInv, PendingTransfers, Bank.Held, AmountsKept, R.Acknowledge, R.Refund, DenomOf;
    AcceptedKnowsAsset(s.node, q, chain);
    AcceptedMovesAmount(s.node, q, chain);
    NewRecordStored(s.node, q, chain);
    TransferGrows(s.node, q, chain);
    var (node, r) := Transfer(s.node, q, chain);
    var id := r.value.transferID;
    FailedThenRefunded(node.router, id, reason);
    var sent := NodeStep(c, s, OnTransfer(q, chain));
    assert sent == Books(node, s.sent + [Sent(id, Trim(DenomOf(s.node, q)), q.amount)]);
    var failed := NodeStep(c, sent, OnRouter(R.OpAcknowledge(id, R.AckFailure(reason))));
    assert failed == sent.(node := node.(router := R.Acknowledge(node.router, id, R.AckFailure(reason))));
    hide NodeStep;
    RefundCreditsNobody(c, failed, id);
  }

  lemma AcceptedKnowsAsset(s: Node, q: WalletRequest, chain: ChainApp)
    requires Transfer(s, q, chain).1.Ok?
    ensures Trim(q.assetID) in s.ledger.policy.assets
  {
    hide Trim, R.InitiateVia, R.InitiateError, R.TransferID, R.Acknowledge, Bank.Debited, Bank.Credited, FundError;
  }

  lemma FailedThenRefunded(r: R.RouterState, id: string, reason: string)
    requires R.RouterInv(r) && id in r.transfers && r.transfers[id].status == R.Pending
    ensures var t := R.Refund(R.Acknowledge(r, id, R.AckFailure(reason)), id);
      id in t.transfers && t.transfers[id].status == R.Refunded
  {
    R.PairedAt(r, id);
    R.PairedSequence(id, r.transfers[id], r.sessions[id], r.nextSequence);
    hide Trim, R.RouterInv, R.Paired, R.SessionOf, R.TransferSequence, R.Acknowledge;
    R.SettleEffect(r, id, R.AckFailure(reason));
  }

  lemma {:induction false} SentIsNonNegative(r: R.RouterState, sent: seq<Sent>, d: string)
    requires SentOk(r, sent)
    ensures SentOf(sent, d) >= 0
  {
    if sent != [] {
      assert sent[|sent| - 1].amount > 0;
      assert forall k | 0 <= k < |sent| - 1 :: sent[..|sent| - 1][k] == sent[k];
      SentIsNonNegative(r, sent[..|sent| - 1], d);
    }
  }

  /** In every such run, an owner who holds the amount is served whenever the other checks pass and storage works. */
  lemma HolderIsServedInEveryRun(c: Crypto, allowedSigners: seq<string>, requiredThreshold: U32, ops: seq<NodeOp>,
                                 owner: string, r: WithdrawalRequest, persists: bool)
    requires |ops| < TWO_64 - 4
    requires var s := NodeRun(c, FreshNode(allowedSigners, requiredThreshold), ops).node.ledger;
      && WithdrawChecks(s.bridge, s.policy, s.limits, r).None? && NormalizeAddress(c, owner).Some?
      && Bank.Held(s.bank, Trim(owner), Trim(s.policy.assets[Trim(r.assetID)].denom)) >= r.amount.value
    ensures var s := NodeRun(c, FreshNode(allowedSigners, requiredThreshold), ops).node.ledger;
      Withdraw(c, s, owner, r, persists).1.Ok? <==> persists
  {
    hide LedgerInv, FreshNode, NodeRun, SentOf, Outside, Withdraw, WithdrawChecks, Bank.Held, Trim;
    NodeRunKeeps(c, allowedSigners, requiredThreshold, ops);
    var s := NodeRun(c, FreshNode(allowedSigners, requiredThreshold), ops);
    forall d ensures Outside(s.node.ledger, d) >= 0 {
      SentIsNonNegative(s.node.router, s.sent, d);
    }
    HolderIsServed(c, s.node.ledger, owner, r, persists);
  }
}
