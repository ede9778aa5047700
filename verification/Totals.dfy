/** The money in the bank, per currency and over all, against what it was opened with. */
module Totals {
  import opened Money
  import opened Schema
  import opened Decoding
  import opened Spec
  import opened Integrity
  import opened Accounting

  ghost function Sum(accounts: map<AccountId, Account>, ids: set<AccountId>): (n: int)
    requires ids <= accounts.Keys
  {
    if ids == {} then 0
    else
      assert (forall a :: a !in ids) ==> ids == {};
      var a :| a in ids;
      accounts[a].balance + Sum(accounts, ids - {a})
  }

  /** A currency, or `None` for the whole bank. */
  type Selection = Option<string>

  predicate Selects(sel: Selection, account: Account) {
    sel.None? || account.currency == sel.value
  }

  ghost function Total(accounts: map<AccountId, Account>, sel: Selection): (n: int) {
    Sum(accounts, set a | a in accounts && Selects(sel, accounts[a]))
  }

  lemma {:induction false} SumPick(accounts: map<AccountId, Account>, ids: set<AccountId>, a: AccountId)
    requires ids <= accounts.Keys && a in ids
    ensures Sum(accounts, ids) == accounts[a].balance + Sum(accounts, ids - {a})
    decreases |ids|
  {
    var b :| b in ids && Sum(accounts, ids) == accounts[b].balance + Sum(accounts, ids - {b});
    if a == b {
    } else {
      SumPick(accounts, ids - {b}, a);
      SumPick(accounts, ids - {a}, b);
      assert ids - {b} - {a} == ids - {a} - {b};
    }
  }

  lemma {:induction false} SumSame(accounts: map<AccountId, Account>, later: map<AccountId, Account>,
                                   ids: set<AccountId>)
    requires ids <= accounts.Keys && ids <= later.Keys
    requires forall a :: a in ids ==> accounts[a].balance == later[a].balance
    ensures Sum(accounts, ids) == Sum(later, ids)
    decreases |ids|
  {
    if ids == {} {
    } else {
      assert (forall a :: a !in ids) ==> ids == {};
      var a :| a in ids;
      SumPick(accounts, ids, a);
      SumPick(later, ids, a);
      SumSame(accounts, later, ids - {a});
    }
  }

  /** What an event slips into the selected accounts; both ends of a transfer have one currency. */
  function TotalSlip(db: DB, ev: Event, sel: Selection): (n: int)
    ensures -1 <= n <= 1 && (!TieEvent(ev) ==> n == 0)
  {
    if TieEvent(ev) && ev.req.from in db.accounts && Selects(sel, db.accounts[ev.req.from])
    then Bit(SourceGains(db, ev)) - Bit(DestinationLoses(db, ev))
    else 0
  }

  /** Changing one balance changes the total by as much, if the account is selected. */
  lemma TotalOfUpdate(accounts: map<AccountId, Account>, a: AccountId, balance: int, sel: Selection)
    requires a in accounts
    ensures Total(accounts[a := accounts[a].(balance := balance)], sel) ==
            Total(accounts, sel) + if Selects(sel, accounts[a]) then balance - accounts[a].balance else 0
  {
    var later := accounts[a := accounts[a].(balance := balance)];
    var ids := set b | b in accounts && Selects(sel, accounts[b]);
    assert ids == set b | b in later && Selects(sel, later[b]);
    if a in ids {
      SumPick(accounts, ids, a);
      SumPick(later, ids, a);
      SumSame(accounts, later, ids - {a});
    } else {
      SumSame(accounts, later, ids);
    }
  }

  lemma TotalOfInsert(accounts: map<AccountId, Account>, a: AccountId, account: Account, sel: Selection)
    requires a !in accounts
    ensures Total(accounts[a := account], sel) ==
            Total(accounts, sel) + if Selects(sel, account) then account.balance else 0
  {
    var later := accounts[a := account];
    var ids := set b | b in accounts && Selects(sel, accounts[b]);
    var more := set b | b in later && Selects(sel, later[b]);
    if Selects(sel, account) {
      assert more == ids + {a};
      SumPick(later, more, a);
      assert more - {a} == ids;
    } else {
      assert more == ids;
    }
    SumSame(accounts, later, ids);
  }

  /** For any floors, a transfer moves a total by at most one paisa and by nothing off a tie: up when
      the tie leaves the source positive, down when it leaves the destination negative. */
  lemma TransferDrift(db: DB, req: TransferRequest, id: TxId, sel: Selection)
    requires Legal(db, Transferred(req, id))
    ensures Total(Apply(db, Transferred(req, id)).accounts, sel) - Total(db.accounts, sel) ==
            TotalSlip(db, Transferred(req, id), sel)
  {
    var was := db.accounts;
    TransferMoves(db, req, id);
    var now := Apply(db, Transferred(req, id)).accounts;
    TotalOfUpdate(was, req.from, now[req.from].balance, sel);
    TotalOfUpdate(was[req.from := now[req.from]], req.to, now[req.to].balance, sel);
    assert now == was[req.from := now[req.from]][req.to := now[req.to]];
  }

  lemma GivingBackKeepsTotal(accounts: map<AccountId, Account>, p: Posting, sel: Selection)
    requires p.from in accounts && p.to in accounts && p.from != p.to
    requires accounts[p.from].currency == accounts[p.to].currency
    ensures Total(GivenBack(accounts, p), sel) == Total(accounts, sel)
  {
    TotalOfUpdate(accounts, p.from, accounts[p.from].balance + p.amount, sel);
    var half := accounts[p.from := accounts[p.from].(balance := accounts[p.from].balance + p.amount)];
    TotalOfUpdate(half, p.to, half[p.to].balance - p.amount, sel);
  }

  /** A reversal never drifts, in any currency, although `Reverse` does not compare currencies. */
  lemma ReversalDrift(db: DB, orig: TxId, id: TxId, sel: Selection)
    requires Sound(db) && Legal(db, Undone(orig, id))
    ensures Total(Apply(db, Undone(orig, id)).accounts, sel) == Total(db.accounts, sel)
  {
    ReversalMoves(db, orig, id);
    GivingBackKeepsTotal(db.accounts, Decode(EntriesOf(db.ledger, orig)), sel);
  }

  /** What the selected accounts were opened with. */
  ghost function TotalOpening(init: DB, evs: seq<Event>, sel: Selection): (n: int) {
    if evs == [] then Total(init.accounts, sel)
    else
      var last := evs[|evs| - 1];
      TotalOpening(init, evs[..|evs| - 1], sel)
      + if last.Opened? && (sel.None? || sel.value == last.currency) then Rnd(last.initial) else 0
  }

  function TotalSlips(init: DB, evs: seq<Event>, sel: Selection): (n: int) {
    if evs == [] then 0
    else
      var front, last := evs[..|evs| - 1], evs[|evs| - 1];
      TotalSlips(init, front, sel) + TotalSlip(Replay(init, front), last, sel)
  }

  /** How many half-paisa transfers left a selected account. */
  function Ties(init: DB, evs: seq<Event>, sel: Selection): (n: nat) {
    if evs == [] then 0
    else
      var front, last := evs[..|evs| - 1], evs[|evs| - 1];
      Ties(init, front, sel)
      + Bit(TieEvent(last) && last.req.from in Replay(init, front).accounts
            && Selects(sel, Replay(init, front).accounts[last.req.from]))
  }

  /** One event moves a total by what it opens, and by its slip. */
  lemma EventDrift(db: DB, ev: Event, sel: Selection)
    requires Sound(db) && Legal(db, ev)
    ensures Total(Apply(db, ev).accounts, sel) - Total(db.accounts, sel) ==
            (if ev.Opened? && (sel.None? || sel.value == ev.currency) then Rnd(ev.initial) else 0)
            + TotalSlip(db, ev, sel)
  {
    match ev
    case Opened(a, currency, initial) =>
      TotalOfInsert(db.accounts, a, Account(currency, Rnd(initial), 0, Active), sel);
    case Transferred(req, id) => TransferDrift(db, req, id, sel);
    case Undone(orig, id) => ReversalDrift(db, orig, id, sel);
    case FailureRecorded(_, _, _) =>
  }

  /** After any legal history, for any amounts and floors, the money of each currency and of the whole
      bank is what was opened plus what rounding slipped at ties. */
  lemma {:induction false} ExactDrift(init: DB, evs: seq<Event>, sel: Selection)
    requires Seeded(init) && LegalHistory(init, evs)
    ensures Total(Replay(init, evs).accounts, sel) == TotalOpening(init, evs, sel) + TotalSlips(init, evs, sel)
  {
    if evs == [] {
    } else {
      var front, last := evs[..|evs| - 1], evs[|evs| - 1];
      ExactDrift(init, front, sel);
      HistorySound(init, front);
      EventDrift(Replay(init, front), last, sel);
    }
  }

  /** Where balances cannot be negative, or amounts are no ties, that is one paisa per half-paisa
      transfer. */
  lemma {:induction false} DriftAtTies(init: DB, evs: seq<Event>, sel: Selection)
    requires Seeded(init) && LegalHistory(init, evs) && TieSafe(init, evs)
    ensures TotalSlips(init, evs, sel) == Ties(init, evs, sel)
  {
    if evs == [] {
    } else {
      var front, last := evs[..|evs| - 1], evs[|evs| - 1];
      DriftAtTies(init, front, sel);
      HistorySound(init, front);
      if FloorsNonNegative(init) { NonNegativeKept(init, front); }
      SlipAtTies(Replay(init, front), last);
    }
  }

  predicate SelectedIn(accounts: map<AccountId, Account>, a: AccountId, sel: Selection) {
    a in accounts && Selects(sel, accounts[a])
  }

  /** Where balances cannot be negative, a history conserves a currency, or the bank, exactly when no transfer
      of it is a tie. */
  lemma ConservedIffNoTies(init: DB, evs: seq<Event>, sel: Selection)
    requires Seeded(init) && LegalHistory(init, evs) && FloorsNonNegative(init)
    ensures var accounts := Replay(init, evs).accounts;
            Total(accounts, sel) == TotalOpening(init, evs, sel) <==>
            forall ev :: ev in evs && TieEvent(ev) ==> !SelectedIn(accounts, ev.req.from, sel)
  {
    ExactDrift(init, evs, sel);
    DriftAtTies(init, evs, sel);
    TiesCountEvents(init, evs, sel);
  }

  lemma {:induction false} SourceExists(init: DB, evs: seq<Event>, ev: Event)
    requires LegalHistory(init, evs) && ev in evs && ev.Transferred?
    ensures ev.req.from in Replay(init, evs).accounts
  {
    var front, last := evs[..|evs| - 1], evs[|evs| - 1];
    ApplyGrows(Replay(init, front), last);
    if ev == last {
    } else {
      assert evs == front + [last];
      SourceExists(init, front, ev);
    }
  }

  /** The selection of an account never changes. */
  lemma SelectionKept(db: DB, ev: Event, a: AccountId, sel: Selection)
    requires Legal(db, ev) && a in db.accounts
    ensures SelectedIn(Apply(db, ev).accounts, a, sel) == SelectedIn(db.accounts, a, sel)
  {
    ApplyGrows(db, ev);
  }

  lemma {:induction false} TiesCountEvents(init: DB, evs: seq<Event>, sel: Selection)
    requires LegalHistory(init, evs)
    ensures Ties(init, evs, sel) == 0 <==>
            forall ev :: ev in evs && TieEvent(ev) ==> !SelectedIn(Replay(init, evs).accounts, ev.req.from, sel)
  {
    if evs == [] {
    } else {
      var front, last := evs[..|evs| - 1], evs[|evs| - 1];
      var db := Replay(init, front);
      TiesCountEvents(init, front, sel);
      assert evs == front + [last];
      assert forall ev :: ev in evs <==> ev in front || ev == last;
      forall ev | ev in front && TieEvent(ev)
        ensures SelectedIn(Apply(db, last).accounts, ev.req.from, sel) == SelectedIn(db.accounts, ev.req.from, sel)
      {
        SourceExists(init, front, ev);
        SelectionKept(db, last, ev.req.from, sel);
      }
      if TieEvent(last) { SelectionKept(db, last, last.req.from, sel); }
    }
  }

  lemma {:induction false} NoTiesNoSlips(init: DB, evs: seq<Event>, sel: Selection)
    requires forall ev :: ev in evs ==> !TieEvent(ev)
    ensures TotalSlips(init, evs, sel) == 0
  {
    if evs == [] {
    } else {
      NoTiesNoSlips(init, evs[..|evs| - 1], sel);
    }
  }

  /** In whole paise, for any floors, the money of each currency, and of the bank, moves by account creation
      alone. */
  lemma WholePaiseConserve(init: DB, evs: seq<Event>, sel: Selection)
    requires Seeded(init) && LegalHistory(init, evs) && WholePaise(evs)
    ensures Total(Replay(init, evs).accounts, sel) == TotalOpening(init, evs, sel)
  {
    WholeHasNoTies(evs);
    NoTiesNoSlips(init, evs, sel);
    ExactDrift(init, evs, sel);
  }

  /** Half a paisa sent from one rupee: the source is stored as one rupee again and the destination
      gains a paisa. */
  lemma HalfPaisaMintsMoney(id: TxId)
    ensures var rupee := Account("INR", 100, 0, Active);
            var db := DB(map[1 := rupee, 2 := rupee], map[], [], []);
            var ev := Transferred(TransferRequest(1, 2, 0.5, None), id);
            Seeded(db) && Legal(db, ev) && Total(Apply(db, ev).accounts, None) == Total(db.accounts, None) + 1
  {
    var rupee := Account("INR", 100, 0, Active);
    var db := DB(map[1 := rupee, 2 := rupee], map[], [], []);
    var req := TransferRequest(1, 2, 0.5, None);
    assert Validate(db, req) == None;
    TransferDrift(db, req, id, None);
    assert IsTie(0.5);
  }
}
