/** Balances against the ledger, totals against openings, and what reversed pairs leave behind, over
    every legal history. */
module Accounting {
  import opened Money
  import opened Schema
  import opened Decoding
  import opened Spec
  import opened Integrity

  // --- Sums over the ledger -----------------------------------------------------------------------

  /** Credits minus debits of account `a` in `rows`. */
  function Net(rows: seq<Entry>, a: AccountId): (n: int) {
    if rows == [] then 0
    else
      var e := rows[|rows| - 1];
      Net(rows[..|rows| - 1], a) + if e.account == a then e.credit - e.debit else 0
  }

  function TotalDebits(rows: seq<Entry>): (n: int) {
    if rows == [] then 0 else TotalDebits(rows[..|rows| - 1]) + rows[|rows| - 1].debit
  }

  function TotalCredits(rows: seq<Entry>): (n: int) {
    if rows == [] then 0 else TotalCredits(rows[..|rows| - 1]) + rows[|rows| - 1].credit
  }

  /** A completed transfer that has not been reversed. */
  predicate Standing(txs: map<TxId, TxRow>, id: TxId) {
    id in txs && txs[id].typ == Transfer && txs[id].status == Completed
  }

  /** `Net` over the rows that remain when every reversed transfer is deleted with its reversal. */
  function StandingNet(rows: seq<Entry>, txs: map<TxId, TxRow>, a: AccountId): (n: int) {
    if rows == [] then 0
    else
      var e := rows[|rows| - 1];
      StandingNet(rows[..|rows| - 1], txs, a)
      + if e.account == a && Standing(txs, e.tx) then e.credit - e.debit else 0
  }

  function PairNet(f: AccountId, t: AccountId, m: int, a: AccountId): (n: int) {
    (if t == a then m else 0) - if f == a then m else 0
  }

  lemma SumsOfPair(rows: seq<Entry>, id: TxId, f: AccountId, t: AccountId, m: int,
                   txs: map<TxId, TxRow>, a: AccountId)
    ensures var more := rows + Pair(id, f, t, m);
            && Net(more, a) == Net(rows, a) + PairNet(f, t, m, a)
            && StandingNet(more, txs, a) ==
               StandingNet(rows, txs, a) + (if Standing(txs, id) then PairNet(f, t, m, a) else 0)
            && TotalDebits(more) == TotalDebits(rows) + m
            && TotalCredits(more) == TotalCredits(rows) + m
  {
    var es := Pair(id, f, t, m);
    var more := rows + es;
    var mid := rows + [es[0]];
    assert more[..|more| - 1] == mid && mid[..|mid| - 1] == rows;
  }

  // --- Balances agree with the ledger --------------------------------------------------------------

  predicate FloorsNonNegative(db: DB) {
    forall a :: a in db.accounts ==> db.accounts[a].floor >= 0
  }

  predicate TieEvent(ev: Event) {
    ev.Transferred? && IsTie(ev.req.amount)
  }

  /** Rounding leaves the source with one paisa more than the ledger says. */
  predicate SourceGains(db: DB, ev: Event) {
    TieEvent(ev) && ev.req.from in db.accounts && db.accounts[ev.req.from].balance as real > ev.req.amount
  }

  /** Rounding leaves the destination with one paisa less than the ledger says. */
  predicate DestinationLoses(db: DB, ev: Event) {
    TieEvent(ev) && ev.req.to in db.accounts && db.accounts[ev.req.to].balance as real + ev.req.amount < 0.0
  }

  function Slip(db: DB, ev: Event, a: AccountId): (n: int) {
    Bit(SourceGains(db, ev) && ev.req.from == a) - Bit(DestinationLoses(db, ev) && ev.req.to == a)
  }

  /** Either no floor allows a negative balance, or no committed amount is a tie. */
  predicate TieSafe(init: DB, evs: seq<Event>) {
    FloorsNonNegative(init) || forall ev :: ev in evs ==> !TieEvent(ev)
  }

  /** The balance account `a` was opened with. */
  function Opening(init: DB, evs: seq<Event>, a: AccountId): (b: int) {
    if evs == [] then if a in init.accounts then init.accounts[a].balance else 0
    else
      var last := evs[|evs| - 1];
      if last.Opened? && last.account == a then Rnd(last.initial) else Opening(init, evs[..|evs| - 1], a)
  }

  /** What rounding has given account `a` and taken from it. */
  function Slips(init: DB, evs: seq<Event>, a: AccountId): (n: int) {
    if evs == [] then 0
    else
      var front, last := evs[..|evs| - 1], evs[|evs| - 1];
      Slips(init, front, a) + Slip(Replay(init, front), last, a)
  }

  /** How many half-paisa transfers left account `a`. */
  function TiesFrom(evs: seq<Event>, a: AccountId): (n: nat) {
    if evs == [] then 0
    else
      var last := evs[|evs| - 1];
      TiesFrom(evs[..|evs| - 1], a) + Bit(TieEvent(last) && last.req.from == a)
  }

  lemma {:induction false} NonNegativeKept(init: DB, evs: seq<Event>)
    requires LegalHistory(init, evs) && FloorsNonNegative(init)
    ensures FloorsNonNegative(Replay(init, evs))
  {
    if evs == [] {
    } else {
      var front := evs[..|evs| - 1];
      NonNegativeKept(init, front);
      ApplyGrows(Replay(init, front), evs[|evs| - 1]);
    }
  }

  /** How one transfer moves the two balances it touches, for any floors. */
  lemma TransferMoves(db: DB, req: TransferRequest, id: TxId)
    requires Legal(db, Transferred(req, id))
    ensures var was, now, ev := db.accounts, Apply(db, Transferred(req, id)).accounts, Transferred(req, id);
            && now.Keys == was.Keys
            && now[req.from].balance == was[req.from].balance - Rnd(req.amount) + Bit(SourceGains(db, ev))
            && now[req.to].balance == was[req.to].balance + Rnd(req.amount) - Bit(DestinationLoses(db, ev))
            && forall a :: a in was && a != req.from && a != req.to ==> now[a] == was[a]
  {
    RndDebit(db.accounts[req.from].balance, req.amount);
    RndCredit(db.accounts[req.to].balance, req.amount);
  }

  /** Where balances cannot be negative, rounding slips on the debit side only, exactly at ties. */
  lemma SlipAtTies(db: DB, ev: Event)
    requires FloorsHold(db) && Legal(db, ev) && (FloorsNonNegative(db) || !TieEvent(ev))
    ensures SourceGains(db, ev) <==> TieEvent(ev)
    ensures !DestinationLoses(db, ev)
  {
    if TieEvent(ev) {
      var b := db.accounts[ev.req.from].balance;
      assert (b as real).Floor == b && !IsTie(b as real);
    }
  }

  lemma NoRowsNoNet(db: DB, a: AccountId)
    requires Sound(db) && a !in db.accounts
    ensures Net(db.ledger, a) == 0
  {
    forall e | e in db.ledger ensures e.account != a {
      assert TxOk(db, e.tx);
      RowAmongItsEntries(db.ledger, e);
    }
    NetOfOthers(db.ledger, a);
  }

  lemma RowAmongItsEntries(rows: seq<Entry>, e: Entry)
    requires e in rows
    ensures e in EntriesOf(rows, e.tx)
  {
    if rows[|rows| - 1] == e {
    } else {
      assert rows == rows[..|rows| - 1] + [rows[|rows| - 1]];
      RowAmongItsEntries(rows[..|rows| - 1], e);
    }
  }

  lemma NetOfOthers(rows: seq<Entry>, a: AccountId)
    requires forall e :: e in rows ==> e.account != a
    ensures Net(rows, a) == 0
  {
  }

  lemma {:induction false} SlipsOfUnopened(init: DB, evs: seq<Event>, a: AccountId)
    requires LegalHistory(init, evs) && a !in Replay(init, evs).accounts
    ensures Slips(init, evs, a) == 0
  {
    if evs == [] {
    } else {
      ApplyGrows(Replay(init, evs[..|evs| - 1]), evs[|evs| - 1]);
      SlipsOfUnopened(init, evs[..|evs| - 1], a);
    }
  }

  /** One event changes a balance by what it adds to the account's ledger rows, plus its slip. */
  lemma EventAgrees(db: DB, ev: Event, a: AccountId)
    requires Sound(db) && Legal(db, ev) && !ev.Opened? && a in db.accounts
    ensures a in Apply(db, ev).accounts
    ensures Apply(db, ev).accounts[a].balance - db.accounts[a].balance ==
            Net(Apply(db, ev).ledger, a) - Net(db.ledger, a) + Slip(db, ev, a)
  {
    match ev
    case Transferred(req, id) => TransferAgrees(db, req, id, a);
    case Undone(orig, id) =>
      ReversalMoves(db, orig, id);
      var p := Decode(EntriesOf(db.ledger, orig));
      SumsOfPair(db.ledger, id, p.to, p.from, p.amount, map[], a);
    case FailureRecorded(_, _, _) =>
  }

  lemma TransferAgrees(db: DB, req: TransferRequest, id: TxId, a: AccountId)
    requires Legal(db, Transferred(req, id)) && a in db.accounts
    ensures var later := Apply(db, Transferred(req, id));
            a in later.accounts
            && later.accounts[a].balance - db.accounts[a].balance ==
               Net(later.ledger, a) - Net(db.ledger, a) + Slip(db, Transferred(req, id), a)
  {
    TransferMoves(db, req, id);
    SumsOfPair(db.ledger, id, req.from, req.to, Rnd(req.amount), map[], a);
  }

  /** For any amounts and floors, every balance is its opening balance plus its ledger credits minus its
      ledger debits, plus what rounding slipped. */
  lemma {:induction false} LedgerAgrees(init: DB, evs: seq<Event>, a: AccountId)
    requires Seeded(init) && LegalHistory(init, evs) && a in Replay(init, evs).accounts
    ensures Replay(init, evs).accounts[a].balance ==
            Opening(init, evs, a) + Net(Replay(init, evs).ledger, a) + Slips(init, evs, a)
  {
    if evs == [] {
    } else {
      var front, last := evs[..|evs| - 1], evs[|evs| - 1];
      var db := Replay(init, front);
      HistorySound(init, front);
      if a in db.accounts {
        LedgerAgrees(init, front, a);
        if !last.Opened? { EventAgrees(db, last, a); }
      } else {
        NoRowsNoNet(db, a);
        SlipsOfUnopened(init, front, a);
        OnlyOpeningOpens(db, last, a);
      }
    }
  }

  /** Where balances cannot be negative, or amounts are no ties, rounding slips exactly one paisa to the
      source of each half-paisa transfer. */
  lemma {:induction false} SlipsAreTies(init: DB, evs: seq<Event>, a: AccountId)
    requires Seeded(init) && LegalHistory(init, evs) && TieSafe(init, evs)
    ensures Slips(init, evs, a) == TiesFrom(evs, a)
  {
    if evs == [] {
    } else {
      var front, last := evs[..|evs| - 1], evs[|evs| - 1];
      SlipsAreTies(init, front, a);
      HistorySound(init, front);
      if FloorsNonNegative(init) { NonNegativeKept(init, front); }
      SlipAtTies(Replay(init, front), last);
    }
  }

  /** Every transfer of the history was asked for in whole paise. */
  predicate WholePaise(evs: seq<Event>) {
    forall ev :: ev in evs && ev.Transferred? ==> IsWhole(ev.req.amount)
  }

  lemma WholeHasNoTies(evs: seq<Event>)
    requires WholePaise(evs)
    ensures forall ev :: ev in evs ==> !TieEvent(ev)
  {
    forall ev | ev in evs && ev.Transferred? ensures !TieEvent(ev) { WholeIsStoredExactly(ev.req.amount); }
  }

  lemma {:induction false} NoTiesNoCount(evs: seq<Event>, a: AccountId)
    requires forall ev :: ev in evs ==> !TieEvent(ev)
    ensures TiesFrom(evs, a) == 0
  {
    if evs == [] {
    } else {
      NoTiesNoCount(evs[..|evs| - 1], a);
    }
  }

  lemma OnlyOpeningOpens(db: DB, ev: Event, a: AccountId)
    requires Legal(db, ev) && Sound(db) && a !in db.accounts && a in Apply(db, ev).accounts
    ensures ev.Opened? && ev.account == a && Apply(db, ev).accounts[a].balance == Rnd(ev.initial)
  {
    if ev.Undone? { ReversalMoves(db, ev.orig, ev.id); }
  }

  /** Total debits equal total credits, even for amounts that get rounded. */
  lemma {:induction false} DebitsEqualCredits(init: DB, evs: seq<Event>)
    requires Seeded(init) && LegalHistory(init, evs)
    ensures TotalDebits(Replay(init, evs).ledger) == TotalCredits(Replay(init, evs).ledger)
  {
    if evs == [] {
    } else {
      var front, last := evs[..|evs| - 1], evs[|evs| - 1];
      DebitsEqualCredits(init, front);
      var db := Replay(init, front);
      match last
      case Opened(_, _, _) =>
      case Transferred(req, id) => SumsOfPair(db.ledger, id, req.from, req.to, Rnd(req.amount), db.txs, 0);
      case Undone(orig, id) =>
        var p := Decode(EntriesOf(db.ledger, orig));
        SumsOfPair(db.ledger, id, p.to, p.from, p.amount, db.txs, 0);
      case FailureRecorded(_, _, _) =>
    }
  }

  // --- Deleting reversed transfers with their reversals ---------------------------------------------

  /** Adding a row that no ledger row names moves nothing. */
  lemma StandingFrame(rows: seq<Entry>, txs: map<TxId, TxRow>, more: map<TxId, TxRow>, a: AccountId)
    requires forall e :: e in rows ==> Standing(txs, e.tx) == Standing(more, e.tx)
    ensures StandingNet(rows, txs, a) == StandingNet(rows, more, a)
  {
  }

  /** Marking `orig` takes exactly its own rows out of the standing sum. */
  lemma {:induction false} UnstandingOne(rows: seq<Entry>, txs: map<TxId, TxRow>, later: map<TxId, TxRow>,
                                         orig: TxId, a: AccountId)
    requires Standing(txs, orig) && !Standing(later, orig)
    requires forall e :: e in rows && e.tx != orig ==> Standing(txs, e.tx) == Standing(later, e.tx)
    ensures StandingNet(rows, later, a) == StandingNet(rows, txs, a) - Net(EntriesOf(rows, orig), a)
  {
    if rows == [] {
    } else {
      var front, last := rows[..|rows| - 1], rows[|rows| - 1];
      UnstandingOne(front, txs, later, orig, a);
      if last.tx == orig {
        var es := EntriesOf(rows, orig);
        assert es[..|es| - 1] == EntriesOf(front, orig);
      } else {
        assert last in rows && EntriesOf(rows, orig) == EntriesOf(front, orig);
      }
    }
  }

  /** Every account's ledger sum is the sum over standing transfers alone: a reversed transfer and its
      reversal cancel exactly, for any amounts. */
  lemma {:induction false} HistoryReduction(init: DB, evs: seq<Event>, a: AccountId)
    requires Seeded(init) && LegalHistory(init, evs)
    ensures var db := Replay(init, evs);
            Net(db.ledger, a) == StandingNet(db.ledger, db.txs, a)
  {
    if evs == [] {
    } else {
      var front, last := evs[..|evs| - 1], evs[|evs| - 1];
      HistoryReduction(init, front, a);
      HistorySound(init, front);
      var db := Replay(init, front);
      if last.Undone? {
        ReductionAtReversal(db, last.orig, last.id, a);
      } else {
        ReductionElsewhere(db, last, a);
      }
    }
  }

  lemma ReductionElsewhere(db: DB, ev: Event, a: AccountId)
    requires NoOrphans(db) && Legal(db, ev) && !ev.Undone?
    requires Net(db.ledger, a) == StandingNet(db.ledger, db.txs, a)
    ensures var later := Apply(db, ev);
            Net(later.ledger, a) == StandingNet(later.ledger, later.txs, a)
  {
    var later := Apply(db, ev);
    StandingFrame(db.ledger, db.txs, later.txs, a);
    if ev.Transferred? {
      SumsOfPair(db.ledger, ev.id, ev.req.from, ev.req.to, Rnd(ev.req.amount), later.txs, a);
    }
  }

  lemma ReductionAtReversal(db: DB, orig: TxId, id: TxId, a: AccountId)
    requires Sound(db) && Legal(db, Undone(orig, id))
    requires Net(db.ledger, a) == StandingNet(db.ledger, db.txs, a)
    ensures var later := Apply(db, Undone(orig, id));
            Net(later.ledger, a) == StandingNet(later.ledger, later.txs, a)
  {
    var later := Apply(db, Undone(orig, id));
    var p := Decode(EntriesOf(db.ledger, orig));
    ReversalDecodes(db, orig);
    UnstandingOne(db.ledger, db.txs, later.txs, orig, a);
    SumsOfPair(db.ledger, id, p.to, p.from, p.amount, later.txs, a);
    SumsOfPair([], orig, p.from, p.to, p.amount, db.txs, a);
    assert [] + Pair(orig, p.from, p.to, p.amount) == EntriesOf(db.ledger, orig);
  }

  /** In whole paise, for any floors, rounding slips nothing: every balance is its opening balance plus the
      standing transfers to it minus those from it. */
  lemma WholePaiseBalances(init: DB, evs: seq<Event>, a: AccountId)
    requires Seeded(init) && LegalHistory(init, evs) && WholePaise(evs) && a in Replay(init, evs).accounts
    ensures var db := Replay(init, evs);
            db.accounts[a].balance == Opening(init, evs, a) + StandingNet(db.ledger, db.txs, a)
  {
    WholeHasNoTies(evs);
    SlipsAreTies(init, evs, a);
    NoTiesNoCount(evs, a);
    LedgerAgrees(init, evs, a);
    HistoryReduction(init, evs, a);
  }
}
