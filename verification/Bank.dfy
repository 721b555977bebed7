/** The bank keeper: wallet balances per address and denomination. */
module Bank {
  import opened Base
  import opened Text
  import opened Sums

  type Wallet = map<string, int>
  type Balances = map<string, Wallet>

  datatype BankError = InvalidAddress | InvalidDenom | InvalidAmount | InsufficientBalance | PersistFailed

  datatype BalanceRecord = BalanceRecord(address: string, denom: string, amount: string)

  function Held(b: Balances, address: string, denom: string): int {
    if address in b && denom in b[address] then b[address][denom] else 0
  }

  ghost predicate WalletInv(w: Wallet) {
    w != map[] && forall d | d in w :: Trim(d) == d != "" && w[d] > 0
  }

  /** Only positive amounts are stored, under trimmed non-blank keys, and no wallet is empty. */
  ghost predicate BankInv(b: Balances) {
    forall a | a in b :: Trim(a) == a != "" && WalletInv(b[a])
  }

  ghost function DenomIn(denom: string): Wallet -> int {
    w => if denom in w then w[denom] else 0
  }

  /** The sum of all balances of a denomination. */
  ghost function TotalHeld(b: Balances, denom: string): int {
    SumBy(b, DenomIn(denom))
  }

  function CreditWallet(b: Balances, address: string, denom: string, amount: int): Balances {
    b[address := (if address in b then b[address] else map[])[denom := Held(b, address, denom) + amount]]
  }

  function DebitWallet(b: Balances, address: string, denom: string, amount: int): Balances {
    if address !in b || denom !in b[address] then b
    else
      var left := b[address][denom] - amount;
      var wallet := if left == 0 then b[address] - {denom} else b[address][denom := left];
      if wallet == map[] then b - {address} else b[address := wallet]
  }

  /** The argument checks that `Credit` and `Debit` share, before storage is touched. */
  function ArgumentError(address: string, denom: string, amount: BigInt): Option<BankError> {
    if Trim(address) == "" then Some(InvalidAddress)
    else if Trim(denom) == "" then Some(InvalidDenom)
    else if !Positive(amount) then Some(InvalidAmount)
    else None
  }

  function CreditError(address: string, denom: string, amount: BigInt, persists: bool): Option<BankError> {
    if ArgumentError(address, denom, amount).Some? then ArgumentError(address, denom, amount)
    else if !persists then Some(PersistFailed)
    else None
  }

  function Credited(b: Balances, address: string, denom: string, amount: BigInt): Balances {
    if ArgumentError(address, denom, amount).Some? then b
    else CreditWallet(b, Trim(address), Trim(denom), amount.value)
  }

  function DebitError(b: Balances, address: string, denom: string, amount: BigInt, persists: bool): Option<BankError> {
    if ArgumentError(address, denom, amount).Some? then ArgumentError(address, denom, amount)
    else if !(Trim(address) in b && Trim(denom) in b[Trim(address)] && amount.value <= b[Trim(address)][Trim(denom)])
      then Some(InsufficientBalance)
    else if !persists then Some(PersistFailed)
    else None
  }

  function Debited(b: Balances, address: string, denom: string, amount: BigInt): Balances {
    if DebitError(b, address, denom, amount, true).Some? then b
    else DebitWallet(b, Trim(address), Trim(denom), amount.value)
  }

  class BankKeeper {
    var balances: Balances

    constructor ()
      ensures balances == map[]
    {
      balances := map[];
    }

    /** A failing `persist` is reported after memory has been changed. */
    method Credit(address: string, denom: string, amount: BigInt, persists: bool) returns (e: Option<BankError>)
      modifies this
      ensures e == CreditError(address, denom, amount, persists)
      ensures balances == Credited(old(balances), address, denom, amount)
    {
      var a, d := Trim(address), Trim(denom);
      if a == "" { return Some(InvalidAddress); }
      if d == "" { return Some(InvalidDenom); }
      if !Positive(amount) { return Some(InvalidAmount); }
      if a !in balances {
        balances := balances[a := map[]];
      }
      if d !in balances[a] {
        balances := balances[a := balances[a][d := 0]];
      }
      balances := balances[a := balances[a][d := balances[a][d] + amount.value]];
      e := if persists then None else Some(PersistFailed);
      assert balances[a] == CreditWallet(old(balances), a, d, amount.value)[a];
    }

    method Debit(address: string, denom: string, amount: BigInt, persists: bool) returns (e: Option<BankError>)
      modifies this
      ensures e == DebitError(old(balances), address, denom, amount, persists)
      ensures balances == Debited(old(balances), address, denom, amount)
    {
      var a, d := Trim(address), Trim(denom);
      if a == "" { return Some(InvalidAddress); }
      if d == "" { return Some(InvalidDenom); }
      if !Positive(amount) { return Some(InvalidAmount); }
      if a !in balances || d !in balances[a] || balances[a][d] < amount.value {
        return Some(InsufficientBalance);
      }
      var wallet := balances[a][d := balances[a][d] - amount.value];
      if wallet[d] == 0 {
        wallet := wallet - {d};
        assert wallet == balances[a] - {d};
      }
      if wallet == map[] {
        balances := balances - {a};
      } else {
        balances := balances[a := wallet];
      }
      e := if persists then None else Some(PersistFailed);
    }

    method BalanceOf(address: string, denom: string) returns (amount: int)
      ensures amount == if Trim(denom) == "" then 0 else Held(balances, Trim(address), Trim(denom))
    {
      var a, d := Trim(address), Trim(denom);
      if d == "" || a !in balances || d !in balances[a] {
        return 0;
      }
      amount := balances[a][d];
    }

    /** One record per balance. */
    method ExportState() returns (records: seq<BalanceRecord>)
      ensures RecordsOf(records, balances)
    {
      hide WalletExported, RecordFits;
      records := [];
      var addresses := balances.Keys;
      while addresses != {}
        invariant addresses <= balances.Keys
        invariant forall r | r in records :: RecordFits(r, balances)
        invariant forall a | a in balances && a !in addresses :: WalletExported(records, a, balances[a])
        decreases |addresses|
      {
        var a :| a in addresses;
        addresses := addresses - {a};
        var before := records;
        var more := ExportWallet(a);
        records := records + more;
        forall x | x in balances && x !in addresses ensures WalletExported(records, x, balances[x]) {
          ExportedGrows(if x == a then more else before, records, x, balances[x]);
        }
      }
    }

    method ExportWallet(a: string) returns (records: seq<BalanceRecord>)
      requires a in balances
      ensures forall r | r in records :: RecordFits(r, balances)
      ensures WalletExported(records, a, balances[a])
    {
      records := [];
      var wallet := balances[a];
      var denoms := wallet.Keys;
      while denoms != {}
        invariant denoms <= wallet.Keys
        invariant forall r | r in records :: RecordFits(r, balances)
        invariant forall d | d in wallet && d !in denoms :: BalanceRecord(a, d, Render(wallet[d])) in records
        decreases |denoms|
      {
        var d :| d in denoms;
        denoms := denoms - {d};
        records := records + [BalanceRecord(a, d, Render(wallet[d]))];
      }
    }

    /** `loadState`: memory is replaced only when every record is valid. */
    method ImportState(records: seq<BalanceRecord>) returns (ok: bool)
      modifies this
      ensures ok <==> forall r | r in records :: RecordAmount(r).Some?
      ensures balances == if ok then Imported(records) else old(balances)
    {
      hide Trim, RecordAmount;
      var next: Balances := map[];
      var i := 0;
      while i < |records|
        invariant 0 <= i <= |records| && next == Imported(records[..i]) && balances == old(balances)
        invariant forall j | 0 <= j < i :: RecordAmount(records[j]).Some?
      {
        var r := records[i];
        var amount := RecordAmount(r);
        if amount.None? {
          return false;
        }
        var a, d := Trim(r.address), Trim(r.denom);
        if a !in next {
          next := next[a := map[]];
        }
        next := next[a := next[a][d := amount.value]];
        assert records[..i + 1][..i] == records[..i];
        i := i + 1;
      }
      assert records[..i] == records;
      balances := next;
      ok := true;
    }
  }

  // ---- snapshots ---------------------------------------------------------------

  /** The amount a record carries when `loadState` accepts it. */
  function RecordAmount(r: BalanceRecord): (n: Option<int>)
    ensures n.Some? ==> n.value > 0
  {
    var parsed := if Trim(r.amount) == "" then None else ParseInt(Trim(r.amount));
    if Trim(r.address) == "" || Trim(r.denom) == "" || !Positive(parsed) then None else parsed
  }

  function Imported(records: seq<BalanceRecord>): Balances {
    if records == [] then map[]
    else
      var r := records[|records| - 1];
      var b := Imported(records[..|records| - 1]);
      if RecordAmount(r).None? then b
      else
        var a, d := Trim(r.address), Trim(r.denom);
        b[a := (if a in b then b[a] else map[])[d := RecordAmount(r).value]]
  }

  ghost predicate RecordFits(r: BalanceRecord, b: Balances) {
    r.address in b && r.denom in b[r.address] && r.amount == Render(b[r.address][r.denom])
  }

  ghost predicate WalletExported(records: seq<BalanceRecord>, address: string, w: Wallet) {
    forall d | d in w :: BalanceRecord(address, d, Render(w[d])) in records
  }

  lemma ExportedGrows(records: seq<BalanceRecord>, more: seq<BalanceRecord>, address: string, w: Wallet)
    requires WalletExported(records, address, w) && forall r | r in records :: r in more
    ensures WalletExported(more, address, w)
  {
  }

  /** The records are exactly the stored balances, in any order. */
  ghost predicate RecordsOf(records: seq<BalanceRecord>, b: Balances) {
    && (forall r | r in records :: RecordFits(r, b))
    && (forall a | a in b :: WalletExported(records, a, b[a]))
  }

  lemma FittingAmount(r: BalanceRecord, b: Balances)
    requires BankInv(b) && RecordFits(r, b)
    ensures RecordAmount(r) == Some(b[r.address][r.denom])
    ensures Trim(r.address) == r.address && Trim(r.denom) == r.denom
  {
    hide Trim, Render;
    assert WalletInv(b[r.address]);
    ParseRender(b[r.address][r.denom]);
  }

  ghost predicate WalletWithin(w: Wallet, full: Wallet) {
    w != map[] && forall d | d in w :: d in full && w[d] == full[d]
  }

  /** `m` holds nothing but entries of `b`. */
  ghost predicate Within(m: Balances, b: Balances) {
    forall a | a in m :: a in b && WalletWithin(m[a], b[a])
  }

  ghost predicate HasEntry(m: Balances, r: BalanceRecord) {
    r.address in m && r.denom in m[r.address]
  }

  lemma ImportOne(m: Balances, b: Balances, r: BalanceRecord, seen: seq<BalanceRecord>) returns (m': Balances)
    requires BankInv(b) && RecordFits(r, b) && Within(m, b)
    requires forall x | x in seen :: HasEntry(m, x)
    ensures RecordAmount(r).Some?
    ensures m' == m[Trim(r.address) := (if Trim(r.address) in m then m[Trim(r.address)]
      else map[])[Trim(r.denom) := RecordAmount(r).value]]
    ensures Within(m', b) && HasEntry(m', r) && forall x | x in seen :: HasEntry(m', x)
  {
    hide Trim, RecordAmount, Render, WalletInv;
    FittingAmount(r, b);
    m' := m[r.address := (if r.address in m then m[r.address] else map[])[r.denom := b[r.address][r.denom]]];
    assert r.denom in m'[r.address];
    assert WalletWithin(m'[r.address], b[r.address]);
    forall x | x in seen ensures HasEntry(m', x) {
      assert HasEntry(m, x);
    }
  }

  lemma {:induction false} ImportedFits(records: seq<BalanceRecord>, b: Balances)
    requires BankInv(b) && forall r | r in records :: RecordFits(r, b)
    ensures forall r | r in records :: RecordAmount(r).Some?
    ensures Within(Imported(records), b)
    ensures forall r | r in records :: HasEntry(Imported(records), r)
  {
    hide Trim, RecordAmount, RecordFits, HasEntry, WalletInv, WalletWithin;
    if records != [] {
      var front, r := records[..|records| - 1], records[|records| - 1];
      assert records == front + [r];
      ImportedFits(front, b);
      var m := ImportOne(Imported(front), b, r, front);
      assert m == Imported(records);
    }
  }

  lemma WalletRestored(records: seq<BalanceRecord>, m: Balances, address: string, w: Wallet)
    requires w != map[] && WalletExported(records, address, w)
    requires forall r | r in records :: HasEntry(m, r)
    requires address in m ==> WalletWithin(m[address], w)
    ensures address in m && m[address] == w
  {
    hide Render;
    forall d | d in w ensures address in m && d in m[address] {
      assert HasEntry(m, BalanceRecord(address, d, Render(w[d])));
    }
    var x :| x in w;
  }

  /** Importing an export restores the very same balances: the rollback of the bank is exact. */
  lemma ImportExportBank(records: seq<BalanceRecord>, b: Balances)
    requires BankInv(b) && RecordsOf(records, b)
    ensures Imported(records) == b
    ensures forall r | r in records :: RecordAmount(r).Some?
  {
    hide Trim, RecordAmount, RecordFits, WalletExported, WalletWithin, HasEntry;
    ImportedFits(records, b);
    var m := Imported(records);
    forall a | a in b ensures a in m && m[a] == b[a] {
      assert WalletInv(b[a]) && WalletExported(records, a, b[a]);
      WalletRestored(records, m, a, b[a]);
    }
  }

  // ---- totals ----------------------------------------------------------------

  lemma HeldWithinTotal(b: Balances, address: string, denom: string)
    requires BankInv(b)
    ensures 0 <= Held(b, address, denom) <= TotalHeld(b, denom)
  {
    hide Trim;
    assert forall a | a in b :: WalletInv(b[a]);
    SumByNonNegative(b, DenomIn(denom));
  }

  /** A debit takes its amount from one account, and nothing from any other. */
  lemma DebitTakes(b: Balances, address: string, denom: string, amount: int, a: string, d: string)
    requires DebitError(b, address, denom, Some(amount), true).None?
    ensures Held(Debited(b, address, denom, Some(amount)), a, d) ==
      Held(b, a, d) - if a == Trim(address) && d == Trim(denom) then amount else 0
  {
    hide Trim;
    var key, own := Trim(address), Trim(denom);
    var left := b[key][own] - amount;
    var wallet := if left == 0 then b[key] - {own} else b[key][own := left];
    assert Debited(b, address, denom, Some(amount)) == if wallet == map[] then b - {key} else b[key := wallet];
    assert d != own ==> (d in wallet <==> d in b[key]) && (d in b[key] ==> wallet[d] == b[key][d]);
    if wallet == map[] {
      assert d !in wallet;
      if a == key { assert a !in b - {key}; }
    }
  }

  /** A credit goes through exactly for a named account, a named denomination and a positive amount, if it is stored. */
  lemma CreditIff(address: string, denom: string, amount: BigInt, persists: bool)
    ensures var e := CreditError(address, denom, amount, persists);
      && (e.None? <==> Trim(address) != "" && Trim(denom) != "" && amount.Some? && amount.value > 0 && persists)
      && (e == Some(InvalidAddress) <==> Trim(address) == "")
      && (e == Some(InvalidDenom) <==> Trim(address) != "" && Trim(denom) == "")
      && (e == Some(PersistFailed) ==> !persists)
  {
    hide Trim;
  }

  /** A debit goes through exactly when the account also holds the amount. */
  lemma DebitIff(b: Balances, address: string, denom: string, amount: BigInt, persists: bool)
    requires BankInv(b)
    ensures var e := DebitError(b, address, denom, amount, persists);
      && (e.None? <==>
            Trim(address) != "" && Trim(denom) != "" && amount.Some? && amount.value > 0
            && Held(b, Trim(address), Trim(denom)) >= amount.value && persists)
      && (e == Some(InvalidAddress) <==> Trim(address) == "")
      && (e == Some(InvalidDenom) <==> Trim(address) != "" && Trim(denom) == "")
      && (e == Some(InsufficientBalance) ==> Held(b, Trim(address), Trim(denom)) < amount.value)
      && (e == Some(PersistFailed) ==> !persists)
  {
    hide Trim, WalletInv;
  }

  lemma WalletUpdates(w: Wallet, denom: string, amount: int)
    requires (w == map[] || WalletInv(w)) && Trim(denom) == denom != "" && amount > 0
    ensures WalletInv(w[denom := amount])
    ensures w - {denom} == map[] || WalletInv(w - {denom})
  {
    hide Trim;
    var w' := w[denom := amount];
    assert denom in w';
    forall d | d in w' ensures Trim(d) == d != "" && w'[d] > 0 {
    }
  }

  lemma CreditKeepsInv(b: Balances, address: string, denom: string, amount: BigInt)
    requires BankInv(b)
    ensures BankInv(Credited(b, address, denom, amount))
  {
    hide Trim, WalletInv;
    var a, d := Trim(address), Trim(denom);
    TrimTwice(address);
    TrimTwice(denom);
    if ArgumentError(address, denom, amount).None? {
      assert Held(b, a, d) >= 0 by { HeldWithinTotal(b, a, d); }
      WalletUpdates(if a in b then b[a] else map[], d, Held(b, a, d) + amount.value);
    }
  }

  lemma DebitKeepsInv(b: Balances, address: string, denom: string, amount: BigInt)
    requires BankInv(b)
    ensures BankInv(Debited(b, address, denom, amount))
  {
    hide Trim, WalletInv;
    var a, d := Trim(address), Trim(denom);
    TrimTwice(denom);
    if DebitError(b, address, denom, amount, true).None? {
      var left := b[a][d] - amount.value;
      WalletUpdates(b[a], d, if left == 0 then 1 else left);
    }
  }

  /** A credit raises the total of its own denomination by the amount and no other total. */
  lemma CreditTotal(b: Balances, address: string, denom: string, amount: int, d: string)
    ensures TotalHeld(CreditWallet(b, address, denom, amount), d)
      == TotalHeld(b, d) + (if d == denom then amount else 0)
  {
    var wallet := (if address in b then b[address] else map[])[denom := Held(b, address, denom) + amount];
    SumByPut(b, DenomIn(d), address, wallet);
  }

  lemma DebitTotal(b: Balances, address: string, denom: string, amount: int, d: string)
    requires address in b && denom in b[address]
    ensures TotalHeld(DebitWallet(b, address, denom, amount), d) == TotalHeld(b, d) - (if d == denom then amount else 0)
  {
    var left := b[address][denom] - amount;
    var wallet := if left == 0 then b[address] - {denom} else b[address][denom := left];
    if wallet == map[] {
      SumByDrop(b, DenomIn(d), address);
      assert d in b[address] && d != denom ==> d in wallet;
    } else {
      SumByPut(b, DenomIn(d), address, wallet);
    }
  }

  lemma WalletDebitCredit(w: Wallet, denom: string, amount: int)
    requires denom in w
    ensures w == w[denom := w[denom] - amount][denom := w[denom] - amount + amount]
    ensures w == (w - {denom})[denom := w[denom]]
    ensures w - {denom} == map[] ==> w == map[denom := w[denom]]
  {
    if w - {denom} == map[] {
      forall x | x in w ensures x == denom {
        assert x != denom ==> x in w - {denom};
      }
    }
  }

  lemma DebitCreditWallet(b: Balances, a: string, d: string, amount: int)
    requires a in b && d in b[a]
    ensures CreditWallet(DebitWallet(b, a, d, amount), a, d, amount) == b
  {
    WalletDebitCredit(b[a], d, amount);
    var back := CreditWallet(DebitWallet(b, a, d, amount), a, d, amount);
    assert back[a] == b[a];
  }

  /** A debit that is credited back leaves the bank exactly as it was, emptied wallets included. */
  lemma DebitThenCredit(b: Balances, address: string, denom: string, amount: BigInt)
    requires DebitError(b, address, denom, amount, true).None?
    ensures CreditError(address, denom, amount, true).None?
    ensures Credited(Debited(b, address, denom, amount), address, denom, amount) == b
  {
    hide Trim, DebitWallet, CreditWallet;
    DebitCreditWallet(b, Trim(address), Trim(denom), amount.value);
  }
}
