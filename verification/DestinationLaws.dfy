/** What every execution and every run of the destination runtime keeps, in every mode and for every envelope. */
module DestinationLaws {
  import opened Base
  import opened Text
  import opened RouteAction
  import opened Amm
  import opened Destination
  import R = Router

  // ---- pools: positive reserves, product never falls ---------------------------------------------

  predicate Healthy(p: Pool) {
    ParsesPositive(p.reserveIn) && ParsesPositive(p.reserveOut)
  }

  ghost predicate PoolsHealthy(pools: seq<Pool>) {
    pools != [] && forall i | 0 <= i < |pools| :: Healthy(pools[i])
  }

  function Product(p: Pool): int
    requires Healthy(p)
  {
    ReservesOf(p).input * ReservesOf(p).output
  }

  /** The same market later: the same pools in the same order, each with positive reserves and no smaller a product. */
  ghost predicate MarketKept(before: seq<Pool>, after: seq<Pool>) {
    && PoolsHealthy(before) && PoolsHealthy(after) && |after| == |before|
    && forall i | 0 <= i < |before| ::
         && after[i] == before[i].(reserveIn := after[i].reserveIn, reserveOut := after[i].reserveOut)
         && Product(after[i]) >= Product(before[i])
  }

  /** On a healthy pool the textual swap is the arithmetic quote, cut off below a minimum. */
  lemma SwapOnIsQuote(p: Pool, amount: string, minOut: string)
    requires Healthy(p)
    ensures SwapOn(p, amount, minOut).Ok? <==>
      && ParsesPositive(amount) && Quote(ReservesOf(p), p.feeBPS, Parse(amount).value).Ok?
      && (Trim(minOut) == ""
          || (ParsesPositive(minOut)
              && Parse(minOut).value <= Quote(ReservesOf(p), p.feeBPS, Parse(amount).value).value.1))
    ensures SwapOn(p, amount, minOut).Ok? ==>
      && var (p', out) := SwapOn(p, amount, minOut).value;
      && var (r', out') := Quote(ReservesOf(p), p.feeBPS, Parse(amount).value).value;
      && Healthy(p') && ReservesOf(p') == r' && out == out'
      && p' == p.(reserveIn := p'.reserveIn, reserveOut := p'.reserveOut)
  {
    hide ParseInt, Trim, Render, EffectiveInput, Output;
    if ParsesPositive(amount) {
      var n := Parse(amount).value;
      EffectiveNonNegative(n, p.feeBPS);
      var r := ReservesOf(p);
      var e := EffectiveInput(n, p.feeBPS);
      ParseRendered(r.input + e);
      ParseRendered(r.output - Output(r, e));
    }
  }

  lemma SwapOnKeeps(p: Pool, amount: string, minOut: string)
    requires Healthy(p) && SwapOn(p, amount, minOut).Ok?
    ensures var (p', out) := SwapOn(p, amount, minOut).value;
      && Healthy(p') && Product(p') >= Product(p) && 0 < out == ReservesOf(p).output - ReservesOf(p').output
      && p' == p.(reserveIn := p'.reserveIn, reserveOut := p'.reserveOut)
  {
    SwapOnIsQuote(p, amount, minOut);
    SwapKeepsProduct(ReservesOf(p), p.feeBPS, Parse(amount).value);
    hide ParseInt, Trim, Render, EffectiveInput, Output, SwapOn;
    var q := Quote(ReservesOf(p), p.feeBPS, Parse(amount).value);
    QuotePays(ReservesOf(p), p.feeBPS, Parse(amount).value);
  }

  lemma QuotePays(r: Reserves, feeBPS: U32, amount: int)
    requires r.input > 0 && r.output > 0 && Quote(r, feeBPS, amount).Ok?
    ensures Quote(r, feeBPS, amount).value.1 > 0
  {
    hide EffectiveInput, Output;
  }

  lemma MarketSame(pools: seq<Pool>)
    requires PoolsHealthy(pools)
    ensures MarketKept(pools, pools)
  {
    hide Healthy;
  }

  lemma MarketChains(a: seq<Pool>, b: seq<Pool>, c: seq<Pool>)
    requires MarketKept(a, b) && MarketKept(b, c)
    ensures MarketKept(a, c)
  {
    hide Healthy, Product;
  }

  /** No execution of any envelope, failed or not, hurts the market. */
  lemma ExecuteKeepsMarket(b: Books, e: Envelope)
    requires PoolsHealthy(b.pools)
    ensures MarketKept(b.pools, Execute(b, e).books.pools)
  {
    hide Healthy, SwapOn, Trim, Product, Credit, Render;
    MarketSame(b.pools);
    if e.action.Some? {
      var a := e.action.value;
      var i := FindPool(b.pools, e.denom, a.targetDenom);
      if i < |b.pools| && SwapOn(b.pools[i], e.amount, a.minOut).Ok? {
        SwapOnKeeps(b.pools[i], e.amount, a.minOut);
      }
    }
  }

  // ---- balances --------------------------------------------------------------------------------------

  ghost predicate BalancesParse(bs: seq<Balance>) {
    forall i | 0 <= i < |bs| :: Parse(bs[i].amount).Some?
  }

  /** What an account owns: its record's number, 0 without a record or with an unreadable one. */
  function Owns(bs: seq<Balance>, address: string, denom: string): int {
    var i := FindBalance(bs, address, denom);
    if i < |bs| then Worth(bs[i].amount) else 0
  }

  function Worth(amount: string): int {
    if Parse(amount).Some? then Parse(amount).value else 0
  }

  lemma BlankIsWorthless(amount: string)
    requires Trim(amount) == ""
    ensures Worth(amount) == 0 && Parse(amount).None?
  {
  }

  lemma TrimKeepsParse(amount: string)
    ensures Parse(Trim(amount)) == Parse(amount) && Worth(Trim(amount)) == Worth(amount)
  {
    TrimTwice(amount);
  }

  /** A credit goes through unless a record exists and it or the amount is unreadable. */
  lemma CreditFails(bs: seq<Balance>, address: string, denom: string, amount: string)
    ensures Credit(bs, address, denom, amount).Err? <==>
      && Trim(amount) != "" && FindBalance(bs, address, denom) < |bs|
      && (Parse(bs[FindBalance(bs, address, denom)].amount).None? || Parse(amount).None?)
  {
    TrimKeepsParse(amount);
    hide ParseInt, Trim, Render, Holds;
  }

  /**
    Readable balances stay readable exactly when the credited amount is blank or a number: a first credit stores
    anything.
   */
  lemma CreditKeepsParse(bs: seq<Balance>, address: string, denom: string, amount: string)
    requires BalancesParse(bs) && Credit(bs, address, denom, amount).Ok?
    ensures BalancesParse(Credit(bs, address, denom, amount).value) <==> Trim(amount) == "" || Parse(amount).Some?
  {
    TrimKeepsParse(amount);
    hide ParseInt, Trim, Render, Holds;
    var i := FindBalance(bs, address, denom);
    if Trim(amount) != "" {
      if i < |bs| && Parse(amount).Some? {
        ParseRendered(Parse(bs[i].amount).value + Parse(amount).value);
      }
      if i == |bs| {
        var after := Credit(bs, address, denom, amount).value;
        assert after[|bs|].amount == Trim(amount);
        hide Parse;
      }
    }
  }

  /** The account credited gains the amount; every other account keeps what it has. */
  lemma CreditAdds(bs: seq<Balance>, address: string, denom: string, amount: string, other: string, otherDenom: string)
    requires Credit(bs, address, denom, amount).Ok?
    ensures Owns(Credit(bs, address, denom, amount).value, other, otherDenom) ==
      Owns(bs, other, otherDenom)
      + if Trim(other) == Trim(address) && Trim(otherDenom) == Trim(denom) then Worth(amount) else 0
  {
    TrimKeepsParse(amount);
    if Trim(amount) == "" { BlankIsWorthless(amount); }
    TrimTwice(address); TrimTwice(denom);
    hide ParseInt, Trim, Render, Parse, Owns, Holds;
    var i := FindBalance(bs, address, denom);
    if Trim(amount) != "" && i < |bs| {
      var sum := Parse(bs[i].amount).value + Parse(Trim(amount)).value;
      assert sum == Worth(bs[i].amount) + Worth(amount);
      hide Worth;
      WorthRendered(sum);
      OwnsPut(bs, i, Render(sum), address, denom, other, otherDenom);
    } else if Trim(amount) != "" {
      OwnsAppend(bs, Balance(Trim(address), Trim(denom), Trim(amount)), address, denom, other, otherDenom);
    }
  }

  /** `OwnsPut` and `OwnsAppend` are the two cases of a credit. */
  lemma OwnsPut(bs: seq<Balance>, i: nat, amount: string, address: string, denom: string, other: string,
                otherDenom: string)
    requires i < |bs| && i == FindBalance(bs, address, denom)
    ensures Owns(bs[i := bs[i].(amount := amount)], other, otherDenom) ==
      if Trim(other) == Trim(address) && Trim(otherDenom) == Trim(denom) then
        Owns(bs, other, otherDenom) + Worth(amount) - Worth(bs[i].amount)
      else Owns(bs, other, otherDenom)
  {
    hide Trim, Worth;
    var after := bs[i := bs[i].(amount := amount)];
    assert forall j | 0 <= j < |bs| :: Holds(after[j], other, otherDenom) == Holds(bs[j], other, otherDenom);
    FindBalanceIs(after, other, otherDenom);
    FindBalanceIs(bs, other, otherDenom);
  }

  lemma OwnsAppend(bs: seq<Balance>, b: Balance, address: string, denom: string, other: string, otherDenom: string)
    requires FindBalance(bs, address, denom) == |bs| && Holds(b, address, denom)
    ensures Owns(bs + [b], other, otherDenom) ==
      if Trim(other) == Trim(address) && Trim(otherDenom) == Trim(denom) then
        Owns(bs, other, otherDenom) + Worth(b.amount)
      else Owns(bs, other, otherDenom)
  {
    hide Trim, Worth;
    var after := bs + [b];
    assert after[|bs|] == b && forall j | 0 <= j < |bs| :: after[j] == bs[j];
    FindBalanceIs(after, other, otherDenom);
    FindBalanceIs(bs, other, otherDenom);
  }

  lemma FindBalanceIs(bs: seq<Balance>, address: string, denom: string)
    ensures forall i | 0 <= i < |bs| && Holds(bs[i], address, denom)
      && (forall j | 0 <= j < i :: !Holds(bs[j], address, denom)) ::
      FindBalance(bs, address, denom) == i
  {
    hide Holds;
  }

  // ---- a failed execution --------------------------------------------------------------------------------

  predicate SwapEnvelope(e: Envelope) {
    Trim(e.actionError) == "" && e.action.Some? && e.action.value.kind == "swap"
  }

  /** The swap is paid for by the pool, and the recipient's existing record cannot be read. */
  predicate LosesSwap(b: Books, e: Envelope) {
    && SwapEnvelope(e)
    && SwapIn(b.pools, e.denom, e.amount, e.action.value).Ok?
    && var i := FindBalance(b.balances, Recipient(e), e.action.value.targetDenom);
    && i < |b.balances| && Parse(b.balances[i].amount).None?
  }

  /**
    A failed execution leaves every book as it was, except in exactly one case: a swap whose payout has nowhere to
    go.
   */
  lemma FailureMovesNothingIff(b: Books, e: Envelope)
    ensures Execute(b, e).failure.Some? && Execute(b, e).books != b <==> LosesSwap(b, e)
  {
    hide Trim, Parse, SwapIn, Credit, Render, SwapText, Recipient;
    if SwapEnvelope(e) {
      var a := e.action.value;
      match SwapIn(b.pools, e.denom, e.amount, a)
      case Err(_) =>
      case Ok((pools, out)) =>
        ParseRendered(out);
        RenderNotBlank(out);
        CreditFails(b.balances, Recipient(e), a.targetDenom, Render(out));
        assert Execute(b, e) == ExecuteSwap(b, e, a);
        assert |Execute(b, e).books.swaps| == |b.swaps| + 1;
    } else {
      CreditFails(b.balances, Recipient(e), e.denom, Trim(e.amount));
    }
  }

  lemma RenderNotBlank(n: int)
    ensures Trim(Render(n)) != ""
  {
    ParseRender(n);
  }

  /** With readable balances a failed execution moves nothing. */
  lemma FailureMovesNothing(b: Books, e: Envelope)
    requires BalancesParse(b.balances) && Execute(b, e).failure.Some?
    ensures Execute(b, e).books == b
  {
    FailureMovesNothingIff(b, e);
    hide Execute, Parse, SwapIn, Recipient, Trim;
  }

  // ---- a successful execution ------------------------------------------------------------------------------

  predicate StakeEnvelope(e: Envelope) {
    Trim(e.actionError) == "" && e.action.Some? && e.action.value.kind == "stake"
  }

  /** What a swap of this envelope is quoted on the pool that serves it. */
  function QuoteFor(b: Books, e: Envelope): Result<(Reserves, int), SwapError>
    requires e.action.Some? && PoolsHealthy(b.pools)
  {
    var i := FindPool(b.pools, e.denom, e.action.value.targetDenom);
    if i == |b.pools| || Parse(e.amount).None? then Err(NoPool)
    else
      assert Healthy(b.pools[i]);
      Quote(ReservesOf(b.pools[i]), b.pools[i].feeBPS, Parse(e.amount).value)
  }

  /**
    A successful execution pays its recipient and nobody else: a plain transfer its amount in the received
    denomination, a swap the quote of its pool in the target denomination and no less than its minimum.
    A stake pays nobody and is recorded for its recipient.
   */
  lemma ExecutionPays(b: Books, e: Envelope, account: string, denom: string)
    requires PoolsHealthy(b.pools) && Execute(b, e).failure.None?
    ensures var fx := Execute(b, e);
      var mine := Trim(account) == Trim(Recipient(e));
      && (SwapEnvelope(e) ==>
            && QuoteFor(b, e).Ok?
            && (ParsesPositive(e.action.value.minOut) ==> Parse(e.action.value.minOut).value <= QuoteFor(b, e).value.1)
            && Owns(fx.books.balances, account, denom) == Owns(b.balances, account, denom)
                 + if mine && Trim(denom) == Trim(e.action.value.targetDenom) then QuoteFor(b, e).value.1 else 0)
      && (StakeEnvelope(e) ==>
            && fx.books.balances == b.balances && fx.books.pools == b.pools && |fx.books.stakes| == |b.stakes| + 1
            && fx.books.stakes[|b.stakes|].staker == Recipient(e)
            && fx.books.stakes[|b.stakes|].amount == Trim(e.amount))
      && (!SwapEnvelope(e) && !StakeEnvelope(e) ==>
            fx.books.pools == b.pools
            && Owns(fx.books.balances, account, denom) == Owns(b.balances, account, denom)
                 + if mine && Trim(denom) == Trim(e.denom) then Worth(e.amount) else 0)
  {
    TrimKeepsParse(e.amount);
    hide Trim, SwapIn, Credit, Render, Worth, Recipient, SwapText, PoolsHealthy, PathOf, Owns, Parse, ParseInt,
         QuoteFor;
    if SwapEnvelope(e) {
      SwapPays(b, e, account, denom);
    } else if !StakeEnvelope(e) {
      CreditAdds(b.balances, Recipient(e), e.denom, Trim(e.amount), account, denom);
    }
  }

  lemma SwapPays(b: Books, e: Envelope, account: string, denom: string)
    requires PoolsHealthy(b.pools) && SwapEnvelope(e) && Execute(b, e).failure.None?
    ensures QuoteFor(b, e).Ok?
    ensures ParsesPositive(e.action.value.minOut) ==> Parse(e.action.value.minOut).value <= QuoteFor(b, e).value.1
    ensures Owns(Execute(b, e).books.balances, account, denom) == Owns(b.balances, account, denom)
      + if Trim(account) == Trim(Recipient(e)) && Trim(denom) == Trim(e.action.value.targetDenom) then
          QuoteFor(b, e).value.1
        else 0
  {
    var a := e.action.value;
    assert Execute(b, e) == ExecuteSwap(b, e, a);
    hide Execute, Trim, Credit, Render, Recipient, SwapText, PathOf, Owns, Parse, ParseInt, SwapOn, Worth, Quote,
         SwapIn;
    SwapInIsQuote(b, e, a);
    var out := SwapIn(b.pools, e.denom, e.amount, a).value.1;
    WorthRendered(out);
    CreditAdds(b.balances, Recipient(e), a.targetDenom, Render(out), account, denom);
  }

  lemma SwapInIsQuote(b: Books, e: Envelope, a: RouteAction)
    requires PoolsHealthy(b.pools) && e.action == Some(a) && SwapIn(b.pools, e.denom, e.amount, a).Ok?
    ensures QuoteFor(b, e).Ok? && QuoteFor(b, e).value.1 == SwapIn(b.pools, e.denom, e.amount, a).value.1
    ensures ParsesPositive(a.minOut) ==> Parse(a.minOut).value <= QuoteFor(b, e).value.1
  {
    var i := FindPool(b.pools, e.denom, a.targetDenom);
    assert Healthy(b.pools[i]);
    SwapOnIsQuote(b.pools[i], e.amount, a.minOut);
    if Trim(a.minOut) == "" { BlankIsWorthless(a.minOut); }
    hide Trim, ParseInt, SwapOn, Quote, Serves;
  }

  // ---- every execution, by what it does -----------------------------------------------------------------

  /** Whom an execution pays or stakes for. */
  predicate PaysTo(e: Envelope, who: string) {
    if e.action.Some? && Trim(e.action.value.recipient) != "" then who == Trim(e.action.value.recipient)
    else who == Trim(e.receiver)
  }

  predicate Follows(e: Envelope, path: string) {
    path == if e.action.Some? then Trim(e.action.value.path) else ""
  }

  /** The record says which packet was executed, with what, for whom and where. */
  predicate Describes(x: Execution, e: Envelope) {
    && x.transferID == e.transferID && x.sequence == e.sequence && PaysTo(e, x.recipient)
    && x.inputDenom == e.denom && x.inputAmount == Trim(e.amount)
    && x.chainID == e.chainID && Follows(e, x.path)
  }

  predicate Fails(fx: Effect, result: Outcome, reason: string) {
    fx.failure == Some(reason) && fx.execution.result == result && fx.execution.error == reason
  }

  predicate Succeeds(fx: Effect, result: Outcome, outputDenom: string, outputAmount: string) {
    && fx.failure.None? && fx.execution.result == result && fx.execution.error == ""
    && fx.execution.outputDenom == outputDenom && fx.execution.outputAmount == outputAmount
  }

  /** The first record of the account is readable, or there is none, or there is nothing to credit. */
  ghost predicate Creditable(bs: seq<Balance>, address: string, denom: string, amount: string) {
    Trim(amount) == "" || forall i | 0 <= i < |bs| && Holds(bs[i], address, denom)
      && (forall j | 0 <= j < i :: !Holds(bs[j], address, denom)) ::
      Parse(bs[i].amount).Some? && Parse(amount).Some?
  }

  /** One account more by the amount, every other as it was, no record lost. */
  ghost predicate Paid(before: seq<Balance>, after: seq<Balance>, address: string, denom: string, amount: string) {
    && |before| <= |after|
    && forall account, d :: Owns(after, account, d)
         == Owns(before, account, d)
            + if Trim(account) == Trim(address) && Trim(d) == Trim(denom) then Worth(amount) else 0
  }

  /** A malformed memo: nothing moves, and the record says why. */
  ghost predicate RefusesAction(b: Books, e: Envelope, fx: Effect) {
    fx.books == b && Fails(fx, InvalidAction, Trim(e.actionError))
  }

  /**
    A stake succeeds exactly when what it stakes is what arrived and it names a validator; then it is recorded,
    and otherwise nothing is.
   */
  ghost predicate Stakes(b: Books, e: Envelope, a: RouteAction, fx: Effect) {
    if Trim(a.targetDenom) == Trim(e.denom) && Trim(a.path) != "" then
      && Succeeds(fx, StakeSuccess, a.targetDenom, Trim(e.amount))
      && |fx.books.stakes| == |b.stakes| + 1
      && fx.books == b.(stakes := b.stakes + [fx.books.stakes[|b.stakes|]])
      && var stake := fx.books.stakes[|b.stakes|];
         && stake.transferID == e.transferID && stake.denom == a.targetDenom && stake.amount == Trim(e.amount)
         && PaysTo(e, stake.staker) && stake.validator == Trim(a.path)
    else
      && fx.books == b
      && Fails(fx, StakeFailed,
               if Trim(a.targetDenom) != Trim(e.denom) then "stake action requires received denom " + e.denom
               else "missing validator path for stake action")
  }

  /**
    A swap succeeds exactly when a fair one is to be had and its payout can be credited. A fair one whose payout
    cannot be credited fails with the pool already changed; without a fair one nothing moves.
   */
  ghost predicate Swaps(b: Books, e: Envelope, a: RouteAction, fx: Effect) {
    if after, out :| FairSwap(b.pools, e.denom, a.targetDenom, e.amount, a.minOut, after, out) then
      && fx.books.pools == after && fx.books.stakes == b.stakes && |fx.books.swaps| == |b.swaps| + 1
      && fx.books.swaps[..|b.swaps|] == b.swaps && Recorded(fx.books.swaps[|b.swaps|], e, a, out)
      && if Creditable(b.balances, fx.execution.recipient, a.targetDenom, Render(out)) then
           Succeeds(fx, SwapSuccess, a.targetDenom, Render(out))
           && Paid(b.balances, fx.books.balances, fx.execution.recipient, a.targetDenom, Render(out))
         else
           fx.books.balances == b.balances && fx.failure.Some? && Fails(fx, SwapFailed, fx.failure.value)
    else fx.books == b && fx.failure.Some? && Fails(fx, SwapFailed, fx.failure.value)
  }

  predicate Recorded(r: SwapRecord, e: Envelope, a: RouteAction, out: int) {
    && r.transferID == e.transferID && r.inputDenom == e.denom && r.outputDenom == a.targetDenom
    && r.inputAmount == Trim(e.amount) && r.outputAmount == Render(out) && PaysTo(e, r.recipient)
    && r.chainID == e.chainID && Follows(e, r.path)
  }

  /** A plain transfer succeeds exactly when the account can be credited; then it is. */
  ghost predicate Credits(b: Books, e: Envelope, fx: Effect) {
    if Creditable(b.balances, fx.execution.recipient, e.denom, e.amount) then
      && Succeeds(fx, Outcome.Credited, e.denom, Trim(e.amount))
      && fx.books == b.(balances := fx.books.balances)
      && Paid(b.balances, fx.books.balances, fx.execution.recipient, e.denom, e.amount)
    else fx.books == b && fx.failure.Some? && Fails(fx, CreditFailed, fx.failure.value)
  }

  /** What an execution does, by the kind of its envelope. */
  ghost predicate Does(b: Books, e: Envelope, fx: Effect) {
    && Describes(fx.execution, e)
    && if Trim(e.actionError) != "" then RefusesAction(b, e, fx)
       else if e.action.Some? && e.action.value.kind == "swap" then Swaps(b, e, e.action.value, fx)
       else if e.action.Some? && e.action.value.kind == "stake" then Stakes(b, e, e.action.value, fx)
       else Credits(b, e, fx)
  }

  lemma CreditDecides(bs: seq<Balance>, address: string, denom: string, amount: string)
    ensures Credit(bs, address, denom, amount).Ok? <==> Creditable(bs, address, denom, amount)
    ensures Credit(bs, address, denom, amount).Ok? ==>
      Paid(bs, Credit(bs, address, denom, amount).value, address, denom, amount)
  {
    CreditGoes(bs, address, denom, amount);
    hide Credit, Creditable, Trim, Worth, Owns;
    if Credit(bs, address, denom, amount).Ok? {
      var after := Credit(bs, address, denom, amount).value;
      forall account, d ensures Owns(after, account, d) == Owns(bs, account, d)
        + if Trim(account) == Trim(address) && Trim(d) == Trim(denom) then Worth(amount) else 0 {
        CreditAdds(bs, address, denom, amount, account, d);
      }
    }
  }

  lemma CreditGoes(bs: seq<Balance>, address: string, denom: string, amount: string)
    ensures Credit(bs, address, denom, amount).Ok? <==> Creditable(bs, address, denom, amount)
    ensures Credit(bs, address, denom, amount).Ok? ==> |bs| <= |Credit(bs, address, denom, amount).value|
  {
    TrimKeepsParse(amount);
    hide Trim, ParseInt, Render, Parse;
    var i := FindBalance(bs, address, denom);
  }

  /** Every execution of every envelope does exactly what its kind promises. */
  lemma ExecutionExact(b: Books, e: Envelope)
    ensures Does(b, e, Execute(b, e))
  {
    hide Stakes, Swaps, Credits, ExecuteSwap, ExecuteStake, ExecuteCredit, Trim;
    if Trim(e.actionError) != "" {
      Describe(e, InvalidAction);
    } else if e.action.Some? && e.action.value.kind == "swap" {
      SwapExact(b, e, e.action.value);
    } else if e.action.Some? && e.action.value.kind == "stake" {
      StakeExact(b, e, e.action.value);
    } else {
      CreditExact(b, e);
    }
  }

  lemma Describe(e: Envelope, result: Outcome)
    ensures Describes(Blank(e, result), e)
    ensures PaysTo(e, Recipient(e)) && Follows(e, PathOf(e))
  {
    hide Trim;
  }

  lemma StakeExact(b: Books, e: Envelope, a: RouteAction)
    requires e.action == Some(a)
    ensures Stakes(b, e, a, ExecuteStake(b, e, a)) && Describes(ExecuteStake(b, e, a).execution, e)
  {
    Describe(e, StakeSuccess);
    TrimTwice(a.path);
    hide Trim, Recipient;
  }

  lemma CreditExact(b: Books, e: Envelope)
    ensures Credits(b, e, ExecuteCredit(b, e)) && Describes(ExecuteCredit(b, e).execution, e)
  {
    Describe(e, Outcome.Credited);
    CreditDecides(b.balances, Recipient(e), e.denom, Trim(e.amount));
    TrimKeepsParse(e.amount);
    TrimTwice(e.amount);
    hide Trim, Recipient, Credit, Owns, Parse, Holds, PathOf;
  }

  lemma SwapExact(b: Books, e: Envelope, a: RouteAction)
    requires e.action == Some(a)
    ensures Swaps(b, e, a, ExecuteSwap(b, e, a)) && Describes(ExecuteSwap(b, e, a).execution, e)
  {
    hide Trim, Recipient, Credit, Creditable, Paid, PathOf, SwapIn, FairSwap, Render, SwapText, PaysTo, Follows;
    Describe(e, SwapSuccess);
    SwapInDecides(b.pools, e.denom, e.amount, a);
    if SwapIn(b.pools, e.denom, e.amount, a).Ok? {
      var (after, out) := SwapIn(b.pools, e.denom, e.amount, a).value;
      OneFairSwap(b.pools, e.denom, e.amount, a, after, out);
      CreditDecides(b.balances, Recipient(e), a.targetDenom, Render(out));
    }
  }

  lemma OneFairSwap(pools: seq<Pool>, denom: string, amount: string, a: RouteAction, after: seq<Pool>, out: int)
    requires SwapIn(pools, denom, amount, a) == Ok((after, out))
    ensures forall x, y | FairSwap(pools, denom, a.targetDenom, amount, a.minOut, x, y) :: x == after && y == out
  {
    hide SwapIn, FairSwap;
    forall x, y | FairSwap(pools, denom, a.targetDenom, amount, a.minOut, x, y) ensures x == after && y == out {
      SwapInFair(pools, denom, amount, a, x, y);
    }
  }

  // ---- acknowledgements, by what they say ---------------------------------------------------------------

  /** The packet waits to acknowledge this, and nothing else about it has changed. */
  predicate Offers(p: Packet, q: Packet, status: AckStatus, reason: string) {
    && q.transferID == p.transferID && q.envelope == p.envelope && q.state == AckReady && !q.ackRelayed
    && q.ackState == status && q.ackReason == Trim(reason)
    && q.ackPayload.Some? && q.ackPayload.value.status == status && q.ackPayload.value.reason == reason
  }

  /** A failed execution is always acknowledged as failed; a successful one as the mode says. */
  lemma AckedExact(s: TargetState, i: nat)
    requires i < |s.packets|
    ensures var t, p := ExecuteAt(s, i), s.packets[i];
      var fx := EffectAt(s, i);
      && t.mode == s.mode && t.books == fx.books && t.executions == s.executions + [fx.execution]
      && |t.packets| == |s.packets| && (forall j | 0 <= j < |s.packets| && j != i :: t.packets[j] == s.packets[j])
      && var q := t.packets[i];
      && (fx.failure.Some? ==> Offers(p, q, AckFailed, fx.failure.value))
      && (fx.failure.None? && s.mode == Success ==> Offers(p, q, AckCompleted, ""))
      && (fx.failure.None? && s.mode == Fail ==> Offers(p, q, AckFailed, "mock ack failed"))
      && (fx.failure.None? && s.mode == TimeoutMode ==> Offers(p, q, AckTimedOut, "mock timeout"))
      && (fx.failure.None? && s.mode == Manual ==>
            q.state == Executed && q.ackState == AckPending && q.ackPayload.None? && q.envelope == p.envelope)
  {
    hide Trim, Execute;
  }

  /** What the operator's controls do to a packet: each to the packet asked for, executing it first where needed. */
  lemma SetAckExact(s: TargetState, id: string, a: AckAction)
    ensures SetAckError(s, id, a).None? <==>
      exists p | p in s.packets :: p.transferID == Trim(id)
        && (a.Confirm? ==> p == s.packets[FindPacket(s.packets, id)] && p.state == AckReady)
    ensures SetAckError(s, id, a).None? ==>
      var i := FindPacket(s.packets, id);
      && i < |s.packets| && s.packets[i].transferID == Trim(id)
      && var before, t := (if a.Complete? || a.FailAck? then EnsureExecuted(s, i) else s), SetAck(s, id, a);
      && t == before.(packets := before.packets[i := t.packets[i]])
      && match a
         case Confirm => t.packets[i] == s.packets[i].(state := AckRelayed, ackRelayed := true)
         case Complete => Offers(before.packets[i], t.packets[i], AckCompleted, "")
         case FailAck(reason) => Offers(before.packets[i], t.packets[i], AckFailed, Trim(reason))
         case TimeoutAck(reason) => Offers(before.packets[i], t.packets[i], AckTimedOut, Trim(reason))
  {
    hide Trim, ExecuteAt;
    var i := FindPacket(s.packets, id);
    if i < |s.packets| { assert s.packets[i] in s.packets; }
  }

  /** A poll lists exactly the acknowledgements that wait and have not been confirmed. */
  lemma {:induction false} ReadyExact(ps: seq<Packet>, a: AckRecord)
    ensures a in ReadyRecords(ps) <==> exists p | p in ps ::
      && p.state == AckReady && !p.ackRelayed && p.ackPayload.Some?
      && a.transferID == p.transferID && a.status == p.ackPayload.value.status && a.reason == p.ackPayload.value.reason
  {
    if ps != [] {
      var front, last := ps[..|ps| - 1], ps[|ps| - 1];
      assert ps == front + [last];
      ReadyExact(front, a);
    }
  }

  lemma {:induction false} NothingReceived(s: TargetState, n: nat)
    requires n <= |s.packets| && forall j | 0 <= j < n :: s.packets[j].state != Received
    ensures AdvanceFirst(s, n) == s
  {
    if n > 0 { NothingReceived(s, n - 1); }
  }

  /** Packets execute in the order they arrived: the first one waiting goes first, on the books as they stand. */
  lemma {:induction false} FirstReceivedFirst(s: TargetState, i: nat, n: nat)
    requires i < n <= |s.packets| && s.packets[i].state == Received
    requires forall j | 0 <= j < i :: s.packets[j].state != Received
    ensures AdvanceFirst(s, n) == AdvanceFirst(AdvanceOne(s, i), n)
    decreases n
  {
    hide AdvanceOne;
    var s1 := AdvanceOne(s, i);
    AdvancedIsDone(s, i);
    if n == i + 1 {
      NothingReceived(s, i);
      NothingReceived(s1, n);
    } else {
      FirstReceivedFirst(s, i, n - 1);
    }
  }

  lemma AdvancedIsDone(s: TargetState, i: nat)
    requires i < |s.packets|
    ensures AdvanceOne(s, i).packets[i].state != Received
    ensures forall j | 0 <= j < |s.packets| && j != i :: AdvanceOne(s, i).packets[j] == s.packets[j]
  {
    hide Trim, Execute;
  }

  // ---- what arrives ----------------------------------------------------------------------------------------

  /** The message of a transfer, field by field. */
  predicate Carries(e: Envelope, t: Transfer) {
    && e.transferID == t.transferID && R.ParseSequence(t.transferID) == Some(e.sequence)
    && e.chainID == t.chainID && e.channelID == Trim(t.channelID) && e.timeoutHeight == t.timeoutHeight
    && e.baseDenom == Trim(t.assetID) && e.amount == Trim(t.amount) && e.receiver == Trim(t.receiver)
    && e.memo == Trim(t.memo) && e.denom == Trim(t.denom)
    && (ParseMemo(t.memo).Do? ==> e.action == Some(ParseMemo(t.memo).action))
    && (!ParseMemo(t.memo).Do? ==> e.action.None?)
    && (Trim(e.actionError) != "" <==> ParseMemo(t.memo).Bad?)
  }

  /** A delivery adds its packet at the end, unless it is malformed or a packet is stored under its trimmed ID. */
  lemma ReceiveExact(s: TargetState, t: Transfer)
    ensures var known := exists p | p in s.packets :: p.transferID == Trim(t.transferID);
      if BuildEnvelope(t).Ok? && !known then
        && |Receive(s, t).packets| == |s.packets| + 1
        && var p := Receive(s, t).packets[|s.packets|];
        && Receive(s, t) == s.(packets := s.packets + [p])
        && p.state == Received && p.transferID == t.transferID && Carries(p.envelope, t)
      else Receive(s, t) == s
  {
    BuildExact(t);
    hide Trim, BuildEnvelope, Carries;
    var i := FindPacket(s.packets, t.transferID);
    if i < |s.packets| { assert s.packets[i] in s.packets; }
  }

  /** What `BuildEnvelope` and `NewPacket` make of a malformed memo is never blank, and of any other always. */
  lemma ErrorShows(m: Memo)
    ensures m.Bad? ==> Trim(Trim(ActionText(m.error))) != ""
    ensures Trim(Trim("")) == ""
  {
    hide ActionText;
    if m.Bad? { TrimTwice(ActionText(m.error)); }
    assert Trim("") == "";
  }

  /** A message is built exactly for a transfer with a sequence, a channel, an asset and a receiver. */
  lemma BuildExact(t: Transfer)
    ensures BuildEnvelope(t).Ok? <==>
      R.ParseSequence(t.transferID).Some? && Trim(t.channelID) != "" && Trim(t.assetID) != "" && Trim(t.receiver) != ""
    ensures BuildEnvelope(t).Ok? ==>
      var p := NewPacket(BuildEnvelope(t).value);
      && Carries(p.envelope, t) && p.transferID == t.transferID && p.state == Received && p.ackState == AckPending
      && p.ackPayload.None? && !p.ackRelayed
  {
    hide Trim, ParseMemo, ActionText, R.ParseSequence;
    ErrorShows(ParseMemo(t.memo));
  }

  // ---- conservation on the destination -------------------------------------------------------------------

  /** All a denomination's holders own. */
  function Held(bs: seq<Balance>, denom: string): int {
    if bs == [] then 0
    else
      var n := |bs| - 1;
      Held(bs[..n], denom) + if bs[n].denom == denom then Worth(bs[n].amount) else 0
  }

  /** All that pools still have to pay out in a denomination. */
  function Payable(pools: seq<Pool>, denom: string): int {
    if pools == [] then 0
    else
      var n := |pools| - 1;
      Payable(pools[..n], denom) + if pools[n].outputDenom == denom then Worth(pools[n].reserveOut) else 0
  }

  function Stock(b: Books, denom: string): int {
    Held(b.balances, denom) + Payable(b.pools, denom)
  }

  /** What an execution brings into being: the amount of a plain credit, less the payout of a swap that lost it. */
  function Flow(x: Execution, denom: string): int {
    if x.result == Credited && Trim(x.outputDenom) == denom then Worth(x.outputAmount)
    else if x.result == SwapFailed && Trim(x.outputDenom) == denom then -Worth(x.outputAmount)
    else 0
  }

  lemma {:induction false} HeldPut(bs: seq<Balance>, i: nat, b: Balance, denom: string)
    requires i < |bs| && b.denom == bs[i].denom
    ensures Held(bs[i := b], denom)
      == Held(bs, denom) + if b.denom == denom then Worth(b.amount) - Worth(bs[i].amount) else 0
    decreases |bs|
  {
    hide Worth;
    var n := |bs| - 1;
    if i == n {
      assert bs[i := b][..n] == bs[..n];
    } else {
      HeldPut(bs[..n], i, b, denom);
      assert bs[i := b][..n] == bs[..n][i := b];
    }
  }

  lemma {:induction false} PayablePut(ps: seq<Pool>, i: nat, p: Pool, denom: string)
    requires i < |ps| && p.outputDenom == ps[i].outputDenom
    ensures Payable(ps[i := p], denom) ==
      Payable(ps, denom) + if p.outputDenom == denom then Worth(p.reserveOut) - Worth(ps[i].reserveOut) else 0
    decreases |ps|
  {
    hide Worth;
    var n := |ps| - 1;
    if i == n {
      assert ps[i := p][..n] == ps[..n];
    } else {
      PayablePut(ps[..n], i, p, denom);
      assert ps[i := p][..n] == ps[..n][i := p];
    }
  }

  lemma CreditHeld(bs: seq<Balance>, address: string, to: string, amount: string, denom: string)
    requires Credit(bs, address, to, amount).Ok?
    ensures Held(Credit(bs, address, to, amount).value, denom)
      == Held(bs, denom) + if Trim(to) == denom then Worth(amount) else 0
  {
    TrimKeepsParse(amount);
    if Trim(amount) == "" { BlankIsWorthless(amount); }
    hide ParseInt, Trim, Render, Parse;
    var i := FindBalance(bs, address, to);
    if Trim(amount) != "" {
      if i < |bs| {
        var sum := Parse(bs[i].amount).value + Parse(Trim(amount)).value;
        ParseRendered(sum);
        HeldPut(bs, i, bs[i].(amount := Render(sum)), denom);
      } else {
        var b := Balance(Trim(address), Trim(to), Trim(amount));
        assert (bs + [b])[..|bs|] == bs;
      }
    }
  }

  lemma SwapPayable(pools: seq<Pool>, from: string, amount: string, a: RouteAction, denom: string)
    requires PoolsHealthy(pools) && SwapIn(pools, from, amount, a).Ok?
    ensures var (pools', out) := SwapIn(pools, from, amount, a).value;
      out > 0 && Payable(pools', denom) == Payable(pools, denom) - if Trim(a.targetDenom) == denom then out else 0
  {
    hide Trim, SwapOn, Parse;
    var i := FindPool(pools, from, a.targetDenom);
    var (p, out) := SwapOn(pools[i], amount, a.minOut).value;
    assert Healthy(pools[i]);
    SwapOnKeeps(pools[i], amount, a.minOut);
    PayablePut(pools, i, p, denom);
  }

  /**
    A swap only moves value from a pool to an account; a plain credit brings its amount; nothing else moves a
    denomination.
   */
  lemma ExecuteConserves(b: Books, e: Envelope, denom: string)
    requires PoolsHealthy(b.pools)
    ensures Stock(Execute(b, e).books, denom) == Stock(b, denom) + Flow(Execute(b, e).execution, denom)
  {
    TrimTwice(e.amount);
    hide Trim, SwapIn, Credit, Render, Worth, Recipient, SwapText, PoolsHealthy, PathOf, Held, Payable;
    if SwapEnvelope(e) {
      SwapConserves(b, e, denom);
    } else if e.action.Some? && e.action.value.kind == "stake" {
    } else if Credit(b.balances, Recipient(e), e.denom, Trim(e.amount)).Ok? {
      CreditHeld(b.balances, Recipient(e), e.denom, Trim(e.amount), denom);
    }
  }

  lemma SwapConserves(b: Books, e: Envelope, denom: string)
    requires PoolsHealthy(b.pools) && SwapEnvelope(e)
    ensures Stock(Execute(b, e).books, denom) == Stock(b, denom) + Flow(Execute(b, e).execution, denom)
  {
    var a := e.action.value;
    assert Execute(b, e) == ExecuteSwap(b, e, a);
    hide Execute, Trim, SwapIn, Credit, Render, Worth, Recipient, SwapText, PoolsHealthy, PathOf, Held, Payable,
         ParseInt;
    if SwapIn(b.pools, e.denom, e.amount, a).Ok? {
      SwapPayable(b.pools, e.denom, e.amount, a, denom);
      PaidConserves(b, e, a, denom);
    } else {
      EmptyIsWorthless();
    }
  }

  lemma PaidConserves(b: Books, e: Envelope, a: RouteAction, denom: string)
    requires SwapIn(b.pools, e.denom, e.amount, a).Ok?
    requires var (pools', out) := SwapIn(b.pools, e.denom, e.amount, a).value;
      Payable(pools', denom) == Payable(b.pools, denom) - if Trim(a.targetDenom) == denom then out else 0
    ensures var fx := ExecuteSwap(b, e, a); Stock(fx.books, denom) == Stock(b, denom) + Flow(fx.execution, denom)
  {
    hide Trim, SwapIn, Credit, Render, Worth, Recipient, SwapText, PathOf, Held, Payable, ParseInt;
    var out := SwapIn(b.pools, e.denom, e.amount, a).value.1;
    WorthRendered(out);
    if Credit(b.balances, Recipient(e), a.targetDenom, Render(out)).Ok? {
      CreditHeld(b.balances, Recipient(e), a.targetDenom, Render(out), denom);
    }
  }

  lemma EmptyIsWorthless()
    ensures Worth("") == 0
  {
    assert Trim("") == "";
  }

  lemma WorthRendered(n: int)
    ensures Worth(Render(n)) == n
  {
    ParseRendered(n);
  }

  // ---- whole runs ----------------------------------------------------------------------------------------------

  datatype TargetOp =
    | OpReceive(transfer: Transfer)
    | OpPost(envelope: Envelope)
    | OpAdvance
    | OpSetAck(id: string, action: AckAction)

  /** `OpPost` is an envelope posted to `/transfers` by anyone. */
  function TargetStep(s: TargetState, op: TargetOp): TargetState {
    match op
    case OpReceive(t) => Receive(s, t)
    case OpPost(e) => ReceiveEnvelope(s, e)
    case OpAdvance => AdvanceFirst(s, |s.packets|)
    case OpSetAck(id, a) => SetAck(s, id, a)
  }

  function TargetRun(s: TargetState, ops: seq<TargetOp>): TargetState {
    if ops == [] then s else TargetStep(TargetRun(s, ops[..|ops| - 1]), ops[|ops| - 1])
  }

  function TotalFlow(xs: seq<Execution>, denom: string): int {
    if xs == [] then 0 else TotalFlow(xs[..|xs| - 1], denom) + Flow(xs[|xs| - 1], denom)
  }

  /** What relates any state of a run to its start. */
  ghost predicate Since(s0: TargetState, s: TargetState) {
    && s.mode == s0.mode
    && MarketKept(s0.books.pools, s.books.pools)
    && s0.executions <= s.executions
    && forall denom: string ::
        Stock(s.books, denom) - TotalFlow(s.executions, denom)
          == Stock(s0.books, denom) - TotalFlow(s0.executions, denom)
  }

  lemma SinceStart(s: TargetState)
    requires PoolsHealthy(s.books.pools)
    ensures Since(s, s)
  {
    MarketSame(s.books.pools);
  }

  lemma SinceChains(a: TargetState, b: TargetState, c: TargetState)
    requires Since(a, b) && Since(b, c)
    ensures Since(a, c)
  {
    hide Stock, TotalFlow, MarketKept;
    MarketChains(a.books.pools, b.books.pools, c.books.pools);
    forall denom: string
      ensures Stock(c.books, denom) - TotalFlow(c.executions, denom)
        == Stock(a.books, denom) - TotalFlow(a.executions, denom)
    {
      assert Stock(b.books, denom) - TotalFlow(b.executions, denom)
        == Stock(a.books, denom) - TotalFlow(a.executions, denom);
    }
  }

  lemma SincePackets(s: TargetState, packets: seq<Packet>)
    requires PoolsHealthy(s.books.pools)
    ensures Since(s, s.(packets := packets))
  {
    SinceStart(s);
    hide Stock, TotalFlow, MarketKept;
  }

  lemma ExecuteSince(s: TargetState, i: nat)
    requires i < |s.packets| && PoolsHealthy(s.books.pools)
    ensures Since(s, ExecuteAt(s, i))
  {
    hide Stock, Execute, Flow;
    var e := s.packets[i].envelope;
    var s' := ExecuteAt(s, i);
    assert EnsurePools(s.books) == s.books;
    ExecuteKeepsMarket(s.books, e);
    assert s'.executions[..|s.executions|] == s.executions;
    forall denom: string
      ensures Stock(s'.books, denom) - TotalFlow(s'.executions, denom)
        == Stock(s.books, denom) - TotalFlow(s.executions, denom)
    {
      ExecuteConserves(s.books, e, denom);
    }
  }

  lemma AdvanceOneSince(s: TargetState, i: nat)
    requires i < |s.packets| && PoolsHealthy(s.books.pools)
    ensures Since(s, AdvanceOne(s, i))
  {
    hide Since, ExecuteAt;
    SinceStart(s);
    SincePackets(s, s.packets[i := MarkReady(s.packets[i], Ack(AckTimedOut, "mock timeout"))]);
    ExecuteSince(s, i);
  }

  lemma {:induction false} AdvanceSince(s: TargetState, n: nat)
    requires n <= |s.packets| && PoolsHealthy(s.books.pools)
    ensures Since(s, AdvanceFirst(s, n))
  {
    hide Stock, AdvanceOne;
    if n == 0 {
      SinceStart(s);
    } else {
      AdvanceSince(s, n - 1);
      AdvanceOneSince(AdvanceFirst(s, n - 1), n - 1);
      SinceChains(s, AdvanceFirst(s, n - 1), AdvanceFirst(s, n));
    }
  }

  lemma SetAckSince(s: TargetState, id: string, a: AckAction)
    requires PoolsHealthy(s.books.pools)
    ensures Since(s, SetAck(s, id, a))
  {
    SinceStart(s);
    hide Since, MarkReady, Trim, PoolsHealthy, ExecuteAt, FindPacket;
    if SetAckError(s, id, a).None? {
      var i := FindPacket(s.packets, id);
      match a
      case Confirm => SincePackets(s, SetAck(s, id, a).packets);
      case TimeoutAck(_) => SincePackets(s, SetAck(s, id, a).packets);
      case _ =>
        ExecuteSince(s, i);
        var s1 := EnsureExecuted(s, i);
        SinceHealthy(s, s1);
        SincePackets(s1, SetAck(s, id, a).packets);
        SinceChains(s, s1, s1.(packets := SetAck(s, id, a).packets));
    }
  }

  lemma SinceHealthy(s: TargetState, s': TargetState)
    requires Since(s, s')
    ensures PoolsHealthy(s'.books.pools)
  {
    hide Stock, TotalFlow;
  }

  lemma StepSince(s: TargetState, op: TargetOp)
    requires PoolsHealthy(s.books.pools)
    ensures Since(s, TargetStep(s, op))
  {
    SinceStart(s);
    hide Since, BuildEnvelope, PoolsHealthy, SetAck, AdvanceFirst, NewPacket, FindPacket;
    match op
    case OpReceive(t) =>
      if BuildEnvelope(t).Ok? { SincePackets(s, s.packets + [NewPacket(BuildEnvelope(t).value)]); }
    case OpPost(e) => SincePackets(s, s.packets + [NewPacket(e)]);
    case OpAdvance => AdvanceSince(s, |s.packets|);
    case OpSetAck(id, a) => SetAckSince(s, id, a);
  }

  /**
    Over every run, in every mode, with deliveries, posts and acknowledgement controls in any order:
    every pool keeps positive reserves and a product that never fell, and in every denomination what
    holders own plus what pools can still pay is what there was, plus what plain credits brought in, less
    the payouts of swaps that were lost.
   */
  lemma {:induction false} EveryRun(s: TargetState, ops: seq<TargetOp>)
    requires PoolsHealthy(s.books.pools)
    ensures Since(s, TargetRun(s, ops))
  {
    hide TargetStep, Since;
    if ops == [] {
      SinceStart(s);
    } else {
      var s1 := TargetRun(s, ops[..|ops| - 1]);
      EveryRun(s, ops[..|ops| - 1]);
      SinceHealthy(s, s1);
      StepSince(s1, ops[|ops| - 1]);
      SinceChains(s, s1, TargetRun(s, ops));
    }
  }

  // ---- at most once ----------------------------------------------------------------------------------------------

  /** A second delivery is recognised exactly when the ID came trimmed, or its trimmed form was already there. */
  lemma RedeliveryRecognisedIff(s: TargetState, t: Transfer)
    requires BuildEnvelope(t).Ok?
    ensures Receive(Receive(s, t), t) == Receive(s, t) <==>
      Trim(t.transferID) == t.transferID || FindPacket(s.packets, t.transferID) < |s.packets|
  {
    var e := BuildEnvelope(t).value;
    assert e.transferID == t.transferID;
    hide Trim, BuildEnvelope, ParseMemo;
    if FindPacket(s.packets, t.transferID) == |s.packets| {
      FindAppended(s.packets, NewPacket(e), t.transferID);
    }
  }

  lemma FindAppended(ps: seq<Packet>, p: Packet, id: string)
    requires FindPacket(ps, id) == |ps|
    ensures FindPacket(ps + [p], id) == if p.transferID == Trim(id) then |ps| else |ps| + 1
  {
    hide Trim;
    assert forall i | 0 <= i < |ps| :: (ps + [p])[i] == ps[i];
    assert (ps + [p])[|ps|] == p;
  }

  /** A packet of that ID left the received state. */
  ghost predicate Left(ps: seq<Packet>, id: string) {
    exists i :: 0 <= i < |ps| && ps[i].transferID == id && ps[i].state != Received
  }

  lemma LeftStays(ps: seq<Packet>, qs: seq<Packet>, id: string)
    requires Left(ps, id) && |qs| >= |ps|
    requires forall i | 0 <= i < |ps| ::
      qs[i].transferID == ps[i].transferID && (ps[i].state != Received ==> qs[i].state != Received)
    ensures Left(qs, id)
  {
    var i :| 0 <= i < |ps| && ps[i].transferID == id && ps[i].state != Received;
    assert qs[i].transferID == id;
  }

  /** Trimmed IDs are stored once and execute at most once, and only by leaving the received state for good. */
  ghost predicate Once(s: TargetState) {
    && (forall i, j | 0 <= i < j < |s.packets| && s.packets[i].transferID == s.packets[j].transferID ::
          Trim(s.packets[i].transferID) != s.packets[i].transferID)
    && (forall i | 0 <= i < |s.packets| :: s.packets[i].envelope.transferID == s.packets[i].transferID)
    && (forall k | 0 <= k < |s.executions| :: Left(s.packets, s.executions[k].transferID))
    && (forall k, l | 0 <= k < l < |s.executions| && s.executions[k].transferID == s.executions[l].transferID ::
          Trim(s.executions[k].transferID) != s.executions[k].transferID)
  }

  lemma ReceiveOnce(s: TargetState, e: Envelope)
    requires Once(s)
    ensures Once(ReceiveEnvelope(s, e))
  {
    hide Trim, Left;
    var s' := ReceiveEnvelope(s, e);
    var n := |s.packets|;
    if FindPacket(s.packets, e.transferID) == n {
      assert s'.packets[..n] == s.packets && s'.packets[n].transferID == e.transferID;
      assert forall i | 0 <= i < n :: s'.packets[i] == s.packets[i];
      forall i | 0 <= i < n && s.packets[i].transferID == e.transferID ensures Trim(e.transferID) != e.transferID {
        assert s.packets[i].transferID != Trim(e.transferID);
      }
      forall k | 0 <= k < |s.executions| ensures Left(s'.packets, s.executions[k].transferID) {
        LeftStays(s.packets, s'.packets, s.executions[k].transferID);
      }
    }
  }

  /** Rewriting a packet's acknowledgement fields, never back to received. */
  lemma PutOnce(s: TargetState, i: nat, p: Packet)
    requires Once(s) && i < |s.packets| && p.state != Received
    requires p.transferID == s.packets[i].transferID && p.envelope == s.packets[i].envelope
    ensures Once(s.(packets := s.packets[i := p]))
  {
    hide Trim, Left;
    var ps := s.packets[i := p];
    assert forall j | 0 <= j < |ps| ::
      ps[j].transferID == s.packets[j].transferID && ps[j].envelope == s.packets[j].envelope;
    forall k | 0 <= k < |s.executions| ensures Left(ps, s.executions[k].transferID) {
      LeftStays(s.packets, ps, s.executions[k].transferID);
    }
  }

  /** An execution of a packet that was received until now, and no longer is. */
  lemma LogOnce(s: TargetState, i: nat, p: Packet, x: Execution, b: Books)
    requires Once(s) && i < |s.packets| && s.packets[i].state == Received && p.state != Received
    requires p.transferID == s.packets[i].transferID == x.transferID && p.envelope == s.packets[i].envelope
    ensures Once(s.(packets := s.packets[i := p], executions := s.executions + [x], books := b))
  {
    hide Trim;
    PutOnce(s, i, p);
    var ps := s.packets[i := p];
    assert ps[i] == p && Left(ps, x.transferID);
    forall k | 0 <= k < |s.executions| && s.executions[k].transferID == x.transferID
      ensures Trim(x.transferID) != x.transferID {
      assert Left(s.packets, x.transferID);
    }
  }

  lemma ExecutionNamesPacket(b: Books, e: Envelope)
    ensures Execute(b, e).execution.transferID == e.transferID
  {
    hide Trim, SwapIn, Credit, Recipient, PathOf;
  }

  lemma AckedLeaves(mode: Mode, p: Packet, fx: Effect)
    ensures Acked(mode, p, fx).state != Received
    ensures Acked(mode, p, fx).transferID == p.transferID && Acked(mode, p, fx).envelope == p.envelope
  {
    hide Trim;
  }

  lemma ExecuteOnce(s: TargetState, i: nat)
    requires Once(s) && i < |s.packets| && s.packets[i].state == Received
    ensures Once(ExecuteAt(s, i))
  {
    hide Execute, Trim, Acked, Left, EnsurePools;
    assert s.packets[i].envelope.transferID == s.packets[i].transferID;
    ExecutionNamesPacket(EnsurePools(s.books), s.packets[i].envelope);
    var fx := EffectAt(s, i);
    AckedLeaves(s.mode, s.packets[i], fx);
    hide Once, EffectAt;
    LogOnce(s, i, Acked(s.mode, s.packets[i], fx), fx.execution, fx.books);
  }

  lemma {:induction false} AdvanceOnce(s: TargetState, n: nat)
    requires Once(s) && n <= |s.packets|
    ensures Once(AdvanceFirst(s, n))
  {
    hide Once, ExecuteAt, Trim;
    if n > 0 {
      AdvanceOnce(s, n - 1);
      var s1 := AdvanceFirst(s, n - 1);
      if s1.packets[n - 1].state == Received {
        ExecuteOnce(s1, n - 1);
        PutOnce(s1, n - 1, MarkReady(s1.packets[n - 1], Ack(AckTimedOut, "mock timeout")));
      }
    }
  }

  lemma SetAckOnce(s: TargetState, id: string, a: AckAction)
    requires Once(s)
    ensures Once(SetAck(s, id, a))
  {
    hide Once, Trim, Execute, FindPacket;
    if SetAckError(s, id, a).None? {
      var i := FindPacket(s.packets, id);
      match a
      case Confirm => PutOnce(s, i, SetAck(s, id, a).packets[i]);
      case TimeoutAck(_) => PutOnce(s, i, SetAck(s, id, a).packets[i]);
      case _ =>
        if s.packets[i].state == Received { ExecuteOnce(s, i); }
        var s1 := EnsureExecuted(s, i);
        PutOnce(s1, i, SetAck(s, id, a).packets[i]);
    }
  }

  lemma StepOnce(s: TargetState, op: TargetOp)
    requires Once(s)
    ensures Once(TargetStep(s, op))
  {
    hide Once, BuildEnvelope, SetAck, AdvanceFirst, ReceiveEnvelope;
    match op
    case OpReceive(t) => if BuildEnvelope(t).Ok? { ReceiveOnce(s, BuildEnvelope(t).value); }
    case OpPost(e) => ReceiveOnce(s, e);
    case OpAdvance => AdvanceOnce(s, |s.packets|);
    case OpSetAck(id, a) => SetAckOnce(s, id, a);
  }

  /** In every mode and over every run, a transfer ID that is its own trimming is executed at most once. */
  lemma {:induction false} AtMostOnce(mode: Mode, books: Books, ops: seq<TargetOp>)
    ensures var s := TargetRun(TargetState(mode, [], [], books), ops);
      && Once(s)
      && forall k, l | 0 <= k < l < |s.executions| && Trim(s.executions[k].transferID) == s.executions[k].transferID ::
           s.executions[k].transferID != s.executions[l].transferID
  {
    hide TargetStep, Trim;
    if ops != [] {
      AtMostOnce(mode, books, ops[..|ops| - 1]);
      StepOnce(TargetRun(TargetState(mode, [], [], books), ops[..|ops| - 1]), ops[|ops| - 1]);
    }
  }

  /** The pools the runtime falls back on are healthy, so every claim above holds for its own defaults. */
  lemma DefaultsHealthy()
    ensures PoolsHealthy(DefaultPools())
  {
    var half, whole := "500000000", "1000000000";
    SolidEndsTrim(half);
    SolidEndsTrim(whole);
    hide Trim;
    assert DigitsValue(half) > 0 by { LeadingDigitCounts(half); }
    assert DigitsValue(whole) > 0 by { LeadingDigitCounts(whole); }
  }

  lemma {:induction false} LeadingDigitCounts(s: string)
    requires Digits(s) && s != "" && s[0] != '0'
    ensures DigitsValue(s) > 0
    decreases |s|
  {
    if |s| > 1 { LeadingDigitCounts(s[..|s| - 1]); }
  }

  // ---- a lost swap, from the defaults ------------------------------------------------------------------

  /** A plain credit of an amount nobody can read. */
  function JunkCredit(who: string, junk: string): Envelope {
    Envelope("a", "", 1, "", 1, "", junk, who, "", "uosmo", None, "")
  }

  /** A swap of 500000000 on the first default pool, to the same recipient and into the same denomination. */
  function JunkSwap(who: string): Envelope {
    Envelope("b", "", 2, "", 1, "", "500000000", who, "", "ibc/uatom-usdc",
      Some(RouteAction("swap", "uosmo", "", "", "")), "")
  }

  function DefaultTarget(): TargetState {
    Loaded(Success, [], None)
  }

  /**
    The input: a runtime started from its defaults receives a plain credit whose amount is not a number, for
    anyone but the faucet, and executes it; then a swap for the same recipient. The swap takes from the pool,
    fails, and pays nobody.
   */
  lemma LostSwapExample(who: string, junk: string)
    requires Trim(who) == who != "" && who != "osmo1faucet" && Trim(junk) == junk != "" && Parse(junk).None?
    ensures var credit, swap := OpPost(JunkCredit(who, junk)), OpPost(JunkSwap(who));
      var before := TargetRun(DefaultTarget(), [credit, OpAdvance, swap]);
      var after := TargetRun(DefaultTarget(), [credit, OpAdvance, swap, OpAdvance]);
      && LosesSwap(before.books, JunkSwap(who))
      && after.books == Execute(before.books, JunkSwap(who)).books != before.books
      && |after.executions| == 2 && after.executions[1].result == SwapFailed
  {
    hide Trim, Parse, Execute, LosesSwap, FindPacket, DefaultTarget, TargetStep, Acked;
    var credit, swap := OpPost(JunkCredit(who, junk)), OpPost(JunkSwap(who));
    RunUnfolds(DefaultTarget(), credit, OpAdvance, swap, OpAdvance);
    JunkCredited(who, junk);
    var s := TargetRun(DefaultTarget(), [credit, OpAdvance]);
    SwapLost(s.books, who, junk);
    JunkSwapped(s, who);
    var before := TargetRun(DefaultTarget(), [credit, OpAdvance, swap]);
    FailureMovesNothingIff(before.books, JunkSwap(who));
    LostSwapFails(before.books, JunkSwap(who));
  }

  lemma RunUnfolds(s: TargetState, a: TargetOp, b: TargetOp, c: TargetOp, d: TargetOp)
    ensures TargetRun(s, [a, b]) == TargetStep(TargetStep(s, a), b)
    ensures TargetRun(s, [a, b, c]) == TargetStep(TargetRun(s, [a, b]), c)
    ensures TargetRun(s, [a, b, c, d]) == TargetStep(TargetRun(s, [a, b, c]), d)
  {
    hide TargetStep, TargetRun;
    RunOfTwo(s, a, b);
    RunOfThree(s, a, b, c);
    RunOfFour(s, a, b, c, d);
  }

  lemma RunOfTwo(s: TargetState, a: TargetOp, b: TargetOp)
    ensures TargetRun(s, [a, b]) == TargetStep(TargetStep(s, a), b)
  {
    hide TargetStep;
    RunOfOne(s, a);
    assert [a, b][..1] == [a];
  }

  lemma RunOfOne(s: TargetState, a: TargetOp)
    ensures TargetRun(s, [a]) == TargetStep(s, a)
  {
    hide TargetStep;
    assert TargetRun(s, []) == s;
  }

  lemma RunOfThree(s: TargetState, a: TargetOp, b: TargetOp, c: TargetOp)
    ensures TargetRun(s, [a, b, c]) == TargetStep(TargetRun(s, [a, b]), c)
  {
    hide TargetStep;
    assert [a, b, c][..2] == [a, b];
  }

  lemma RunOfFour(s: TargetState, a: TargetOp, b: TargetOp, c: TargetOp, d: TargetOp)
    ensures TargetRun(s, [a, b, c, d]) == TargetStep(TargetRun(s, [a, b, c]), d)
  {
    hide TargetStep;
    assert [a, b, c, d][..3] == [a, b, c];
  }

  /** What the defaults become: one record more, and one packet that has executed. */
  ghost predicate HoldsJunk(b: Books, who: string, junk: string) {
    && b.pools == DefaultPools() && b.balances == DefaultBalances() + [Balance(who, "uosmo", junk)]
  }

  lemma JunkCredited(who: string, junk: string)
    requires Trim(who) == who != "" && who != "osmo1faucet" && Trim(junk) == junk != ""
    ensures var s := TargetStep(TargetStep(DefaultTarget(), OpPost(JunkCredit(who, junk))), OpAdvance);
      && HoldsJunk(s.books, who, junk) && |s.executions| == 1 && s.mode == Success
      && |s.packets| == 1 && s.packets[0].transferID == "a" && s.packets[0].state != Received
  {
    SolidEndsTrim("a"); SolidEndsTrim("uosmo");
    assert Trim("") == "";
    hide Trim;
    var e := JunkCredit(who, junk);
    assert FindBalance(DefaultBalances(), who, "uosmo") == 1;
    var s1 := TargetStep(DefaultTarget(), OpPost(e));
    assert s1.packets == [NewPacket(e)];
    assert NewPacket(e).envelope == e;
    assert AdvanceFirst(s1, 1) == ExecuteAt(s1, 0) by { assert AdvanceFirst(s1, 0) == s1; }
  }

  lemma JunkSwapped(s: TargetState, who: string)
    requires s.books.pools != [] && s.mode == Success
    requires |s.packets| == 1 && s.packets[0].transferID == "a" && s.packets[0].state != Received
    ensures var s2 := TargetStep(s, OpPost(JunkSwap(who)));
      var s3 := TargetStep(s2, OpAdvance);
      && s2.books == s.books
      && s3.books == Execute(s.books, JunkSwap(who)).books
      && s3.executions == s.executions + [Execute(s.books, JunkSwap(who)).execution]
  {
    assert Trim("") == "";
    hide Trim, Execute, Acked, TargetStep;
    var e := JunkSwap(who);
    assert NewPacket(e).envelope == e && NewPacket(e).state == Received;
    JunkPosted(s, e);
    SecondRuns(TargetStep(s, OpPost(e)));
  }

  lemma JunkPosted(s: TargetState, e: Envelope)
    requires e.transferID == "b" && s.books.pools != [] && |s.packets| == 1 && s.packets[0].transferID == "a"
    ensures TargetStep(s, OpPost(e)) == s.(packets := s.packets + [NewPacket(e)])
  {
    SolidEndsTrim("b");
    hide Trim;
    assert FindPacket(s.packets, "b") == 1;
  }

  lemma SecondRuns(s: TargetState)
    requires |s.packets| == 2 && s.packets[0].state != Received && s.packets[1].state == Received
    requires s.books.pools != [] && s.mode == Success
    ensures var t := TargetStep(s, OpAdvance);
      && t.books == Execute(s.books, s.packets[1].envelope).books
      && t.executions == s.executions + [Execute(s.books, s.packets[1].envelope).execution]
  {
    NothingReceived(s, 1);
    AckedExact(s, 1);
    hide Trim, Execute, Acked, ExecuteAt;
    assert AdvanceFirst(s, 2) == AdvanceOne(s, 1);
  }

  lemma SwapLost(b: Books, who: string, junk: string)
    requires HoldsJunk(b, who, junk) && Trim(who) == who != "" && who != "osmo1faucet" && Parse(junk).None?
    ensures LosesSwap(b, JunkSwap(who))
  {
    FirstPoolPays();
    FirstPoolServes();
    JunkFound(b, who, junk);
    PoolsAreDefault(b, who, junk);
    assert Trim("") == "";
    hide Trim, Parse, SwapOn, HoldsJunk, FindPool, FindBalance, LosesSwap, DefaultPools;
    LosesWhen(b, JunkSwap(who), JunkSwap(who).action.value, 1);
  }

  /** The recipe for losing a swap: a pool that pays, and an unreadable record for the recipient. */
  lemma LosesWhen(b: Books, e: Envelope, a: RouteAction, i: nat)
    requires e.action == Some(a) && SwapEnvelope(e) && b.pools != [] && FindPool(b.pools, e.denom, a.targetDenom) == 0
    requires SwapOn(b.pools[0], e.amount, a.minOut).Ok?
    requires i < |b.balances| && FindBalance(b.balances, Recipient(e), a.targetDenom) == i
    requires Parse(b.balances[i].amount).None?
    ensures LosesSwap(b, e)
  {
    hide Trim, Parse, SwapOn, Recipient, FindPool, FindBalance;
  }

  lemma PoolsAreDefault(b: Books, who: string, junk: string)
    requires HoldsJunk(b, who, junk)
    ensures b.pools == DefaultPools()
  {
  }

  lemma FirstPoolServes()
    ensures FindPool(DefaultPools(), "ibc/uatom-usdc", "uosmo") == 0
  {
    SolidEndsTrim("uosmo"); SolidEndsTrim("ibc/uatom-usdc");
    hide Trim;
  }

  lemma JunkFound(b: Books, who: string, junk: string)
    requires HoldsJunk(b, who, junk) && Trim(who) == who && who != "osmo1faucet"
    ensures FindBalance(b.balances, who, "uosmo") == 1 && b.balances[1].amount == junk
  {
    SolidEndsTrim("uosmo");
    hide Trim;
    assert b.balances[1] == Balance(who, "uosmo", junk) && b.balances[0] == DefaultBalances()[0];
  }

  /** The input equals the pool's own reserve, so the swap is quoted half of the other. */
  lemma FirstPoolPays()
    ensures SwapOn(DefaultPools()[0], "500000000", "").Ok?
  {
    var half, whole, tenth := "500000000", "1000000000", "100000000";
    SolidEndsTrim(half);
    SolidEndsTrim(whole);
    assert Trim("") == "";
    hide Trim;
    assert DigitsValue(half) > 0 by { LeadingDigitCounts(half); }
    assert DigitsValue(whole) == 10 * DigitsValue(tenth) >= 10 by {
      LeadingDigitCounts(tenth);
      assert whole[..|whole| - 1] == tenth;
    }
    hide DigitsValue;
    var p := DefaultPools()[0];
    var x, y := DigitsValue(half), DigitsValue(whole);
    assert ReservesOf(p) == Reserves(x, y) && EffectiveInput(x, 0) == x;
    HalfOf(x, y);
  }

  lemma HalfOf(x: int, y: int)
    requires x > 0 && y >= 10
    ensures 0 < Output(Reserves(x, y), x) < y
  {
    assert 1 * (x + x) <= y * x by { MulMono(2, y, x); }
    assert y * x < y * (x + x) by { assert y * (x + x) == y * x + y * x; }
    DivAtLeast(y * x, x + x, 1);
    DivBelow(y * x, x + x, y);
  }

  lemma LostSwapFails(b: Books, e: Envelope)
    requires LosesSwap(b, e)
    ensures Execute(b, e).execution.result == SwapFailed
  {
    hide Trim, Parse, SwapIn, Render, SwapText, Recipient, FindBalance;
    var (_, out) := SwapIn(b.pools, e.denom, e.amount, e.action.value).value;
    RenderNotBlank(out);
  }
}
