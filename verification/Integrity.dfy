/** What ties the four tables together, and how rows may change, in every database that a legal
    history leaves. */
module Integrity {
  import opened Money
  import opened Schema
  import opened Decoding
  import opened Spec

  // --- How the tables may change ------------------------------------------------------------

  predicate AccountsKept(db: DB, later: DB) {
    forall a :: a in db.accounts ==>
      && a in later.accounts
      && later.accounts[a] == db.accounts[a].(balance := later.accounts[a].balance)
  }

  /** A row never changes, except that a completed transfer may become reversed. */
  predicate RowKept(row: TxRow, later: TxRow) {
    row == later || (row.typ == Transfer && row.status == Completed && later == row.(status := Reversed))
  }

  predicate RowsKept(db: DB, later: DB) {
    forall id :: id in db.txs ==> id in later.txs && RowKept(db.txs[id], later.txs[id])
  }

  /** The two append-only tables grow at the end, and only with rows of new transactions. */
  predicate LogsKept(db: DB, later: DB) {
    && db.ledger <= later.ledger && db.audit <= later.audit
    && forall id :: id in db.txs ==>
         && EntriesOf(later.ledger, id) == EntriesOf(db.ledger, id)
         && AuditOf(later.audit, id) == AuditOf(db.audit, id)
  }

  predicate Grows(db: DB, later: DB) {
    AccountsKept(db, later) && RowsKept(db, later) && LogsKept(db, later)
  }

  lemma GrowsTransitive(a: DB, b: DB, c: DB)
    requires Grows(a, b) && Grows(b, c)
    ensures Grows(a, c)
  {
  }

  lemma AppendKeepsLogs(db: DB, later: DB, id: TxId, d: Entry, c: Entry, row: AuditRow)
    requires id !in db.txs && d.tx == c.tx == row.tx == id
    requires later.ledger == db.ledger || later.ledger == db.ledger + [d, c]
    requires later.audit == db.audit + [row]
    ensures LogsKept(db, later)
  {
    forall other | other in db.txs
      ensures EntriesOf(later.ledger, other) == EntriesOf(db.ledger, other)
      ensures AuditOf(later.audit, other) == AuditOf(db.audit, other)
    {
      EntriesOfPair(db.ledger, d, c, other);
      AuditOfSnoc(db.audit, row, other);
    }
  }

  lemma ApplyKeepsLogs(db: DB, ev: Event)
    requires Legal(db, ev)
    ensures LogsKept(db, Apply(db, ev))
  {
    var later := Apply(db, ev);
    match ev
    case Opened(_, _, _) =>
    case Transferred(req, id) =>
      var es := Pair(id, req.from, req.to, Rnd(req.amount));
      AppendKeepsLogs(db, later, id, es[0], es[1], TransferAudit(req, id));
    case Undone(orig, id) =>
      var p := Decode(EntriesOf(db.ledger, orig));
      var es := Pair(id, p.to, p.from, p.amount);
      AppendKeepsLogs(db, later, id, es[0], es[1], ReversalAudit(p, id));
    case FailureRecorded(req, reason, id) =>
      AppendKeepsLogs(db, later, id, Entry(id, 0, 0, 0), Entry(id, 0, 0, 0), FailureAudit(req, reason, id));
  }

  lemma ApplyKeepsAccounts(db: DB, ev: Event)
    requires Legal(db, ev)
    ensures AccountsKept(db, Apply(db, ev))
  {
  }

  lemma ApplyKeepsRows(db: DB, ev: Event)
    requires Legal(db, ev)
    ensures RowsKept(db, Apply(db, ev))
  {
  }

  /** One commit changes nothing that was there but balances and one transfer's status. */
  lemma ApplyGrows(db: DB, ev: Event)
    requires Legal(db, ev)
    ensures Grows(db, Apply(db, ev))
  {
    ApplyKeepsLogs(db, ev);
    ApplyKeepsAccounts(db, ev);
    ApplyKeepsRows(db, ev);
  }

  /** Over a whole history: accounts keep currency, floor and status; rows keep everything but the
      one status change, so `failed` and `reversed` are terminal; both logs are append-only. */
  lemma {:induction false} HistoryGrows(init: DB, evs: seq<Event>, k: nat)
    requires LegalHistory(init, evs) && k <= |evs|
    ensures LegalHistory(init, evs[..k])
    ensures Grows(Replay(init, evs[..k]), Replay(init, evs))
  {
    if k == |evs| {
      assert evs[..k] == evs;
    } else {
      var front := evs[..|evs| - 1];
      HistoryGrows(init, front, k);
      assert front[..k] == evs[..k];
      ApplyGrows(Replay(init, front), evs[|evs| - 1]);
      GrowsTransitive(Replay(init, evs[..k]), Replay(init, front), Replay(init, evs));
    }
  }

  // --- Shape of one transaction across the tables ---------------------------------------------

  /** Two rows: a pure debit, then a pure credit of the same amount, on different accounts of one
      currency. */
  predicate PairShape(db: DB, id: TxId) {
    var es := EntriesOf(db.ledger, id);
    && |es| == 2
    && es == Pair(id, es[0].account, es[1].account, es[0].debit)
    && es[0].debit >= 0
    && es[0].account != es[1].account
    && es[0].account in db.accounts && es[1].account in db.accounts
    && db.accounts[es[0].account].currency == db.accounts[es[1].account].currency
  }

  /** The ledger rows of `rev` mirror those of `orig`. */
  predicate Mirrors(db: DB, rev: TxId, orig: TxId) {
    var es, was := EntriesOf(db.ledger, rev), EntriesOf(db.ledger, orig);
    && |es| == 2 && |was| == 2
    && es[0].account == was[1].account && es[1].account == was[0].account
    && es[0].debit == was[0].debit > 0
  }

  predicate TransferOk(db: DB, id: TxId)
    requires id in db.txs
  {
    var row, es, audit := db.txs[id], EntriesOf(db.ledger, id), AuditOf(db.audit, id);
    && row.reversalOf == None
    && if row.status == Failed then es == []
       else PairShape(db, id) && |audit| == 1
            && audit[0].accounts == [es[0].account, es[1].account] && audit[0].amount == es[0].debit
  }

  predicate ReversalOk(db: DB, id: TxId)
    requires id in db.txs
  {
    var row, es, audit := db.txs[id], EntriesOf(db.ledger, id), AuditOf(db.audit, id);
    && row.status == Completed && row.reference == None
    && PairShape(db, id) && |audit| == 1
    && audit[0].accounts == [es[1].account, es[0].account] && audit[0].amount == es[0].debit
    && row.reversalOf.Some? && row.reversalOf.value in db.txs
    && var orig := row.reversalOf.value;
       db.txs[orig].typ == Transfer && db.txs[orig].status == Reversed && Mirrors(db, id, orig)
  }

  /** Exactly one audit row, which agrees with the transaction row. */
  predicate AuditOk(db: DB, id: TxId)
    requires id in db.txs
  {
    var row, audit := db.txs[id], AuditOf(db.audit, id);
    && |audit| == 1
    && audit[0].tx == id && audit[0].operation == row.typ && audit[0].reason == row.reason
    && (audit[0].outcome == Success <==> row.status != Failed)
    && (row.reason.Some? <==> row.status == Failed)
  }

  predicate TxOk(db: DB, id: TxId)
    requires id in db.txs
  {
    && AuditOk(db, id)
    && (db.txs[id].typ == Transfer || db.txs[id].typ == Reversal)
    && if db.txs[id].typ == Transfer then TransferOk(db, id) else ReversalOk(db, id)
  }

  /** Both logs name committed transactions only. */
  predicate NoOrphans(db: DB) {
    && (forall e :: e in db.ledger ==> e.tx in db.txs)
    && (forall r :: r in db.audit ==> r.tx in db.txs)
  }

  /** Two values of a UNIQUE column collide; NULL collides with nothing. */
  predicate SameKey<K(==)>(a: Option<K>, b: Option<K>) {
    a.Some? && a == b
  }

  predicate ReversalExists(db: DB, orig: TxId) {
    exists rev :: rev in db.txs && db.txs[rev].reversalOf == Some(orig)
  }

  /** Every reversed transaction has a reversal, and no two reversals share an original. */
  predicate ReversalsMatch(db: DB) {
    && (forall id :: id in db.txs && db.txs[id].status == Reversed ==> ReversalExists(db, id))
    && (forall i, j :: i in db.txs && j in db.txs && SameKey(db.txs[i].reversalOf, db.txs[j].reversalOf) ==> i == j)
  }

  predicate ReferencesUnique(db: DB) {
    forall i, j :: i in db.txs && j in db.txs && SameKey(db.txs[i].reference, db.txs[j].reference) ==> i == j
  }

  predicate FloorsHold(db: DB) {
    forall a :: a in db.accounts ==> db.accounts[a].balance >= db.accounts[a].floor
  }

  predicate Sound(db: DB) {
    && (forall id :: id in db.txs ==> TxOk(db, id))
    && NoOrphans(db) && ReversalsMatch(db) && ReferencesUnique(db) && FloorsHold(db)
  }

  // --- Every commit keeps it --------------------------------------------------------------------

  lemma TxOkKept(db: DB, later: DB, id: TxId)
    requires Grows(db, later) && id in db.txs && TxOk(db, id)
    ensures TxOk(later, id)
  {
  }

  lemma NoEntriesYet(ledger: seq<Entry>, id: TxId)
    requires forall e :: e in ledger ==> e.tx != id
    ensures EntriesOf(ledger, id) == []
  {
  }

  lemma NoAuditYet(audit: seq<AuditRow>, id: TxId)
    requires forall r :: r in audit ==> r.tx != id
    ensures AuditOf(audit, id) == []
  {
  }

  lemma FreshTx(db: DB, id: TxId, d: Entry, c: Entry, row: AuditRow)
    requires NoOrphans(db) && id !in db.txs && d.tx == c.tx == row.tx == id
    ensures EntriesOf(db.ledger, id) == [] && EntriesOf(db.ledger + [d, c], id) == [d, c]
    ensures AuditOf(db.audit + [row], id) == [row]
  {
    NoEntriesYet(db.ledger, id);
    NoAuditYet(db.audit, id);
    EntriesOfPair(db.ledger, d, c, id);
    AuditOfSnoc(db.audit, row, id);
  }

  lemma OthersKept(db: DB, ev: Event)
    requires Legal(db, ev) && Sound(db)
    ensures forall id :: id in db.txs ==> TxOk(Apply(db, ev), id)
  {
    ApplyGrows(db, ev);
    forall id | id in db.txs ensures TxOk(Apply(db, ev), id) { TxOkKept(db, Apply(db, ev), id); }
  }

  lemma TransferKeepsTx(db: DB, req: TransferRequest, id: TxId)
    requires Sound(db) && Legal(db, Transferred(req, id))
    ensures TxOk(Apply(db, Transferred(req, id)), id)
  {
    var es := Pair(id, req.from, req.to, Rnd(req.amount));
    RndWhole(0);
    RndMonotone(0.0, req.amount);
    FreshTx(db, id, es[0], es[1], TransferAudit(req, id));
  }

  lemma FailureKeepsTx(db: DB, req: TransferRequest, reason: Reason, id: TxId)
    requires Sound(db) && Legal(db, FailureRecorded(req, reason, id))
    ensures TxOk(Apply(db, FailureRecorded(req, reason, id)), id)
  {
    FreshTx(db, id, Entry(id, 0, 0, 0), Entry(id, 0, 0, 0), FailureAudit(req, reason, id));
  }

  /** What `Reverse` decodes is the pair that was posted. */
  lemma ReversalDecodes(db: DB, orig: TxId)
    requires Sound(db) && orig in db.txs && db.txs[orig].typ == Transfer && db.txs[orig].status == Completed
    requires Decode(EntriesOf(db.ledger, orig)).amount != 0
    ensures var es, p := EntriesOf(db.ledger, orig), Decode(EntriesOf(db.ledger, orig));
            |es| == 2 && p == Posting(es[0].account, es[1].account, es[0].debit) && p.amount > 0
            && es == Pair(orig, p.from, p.to, p.amount)
            && p.from != p.to && p.from in db.accounts && p.to in db.accounts
            && db.accounts[p.from].currency == db.accounts[p.to].currency
  {
    assert TxOk(db, orig);
    var es := EntriesOf(db.ledger, orig);
    PostingRoundTrip(orig, es[0].account, es[1].account, es[0].debit, es);
  }

  /** `p` undone on exact balances: its amount goes back from destination to source. */
  function GivenBack(accounts: map<AccountId, Account>, p: Posting): (r: map<AccountId, Account>)
    requires p.from in accounts && p.to in accounts
  {
    var half := accounts[p.from := accounts[p.from].(balance := accounts[p.from].balance + p.amount)];
    half[p.to := half[p.to].(balance := half[p.to].balance - p.amount)]
  }

  lemma ExactExchange(accounts: map<AccountId, Account>, p: Posting)
    requires p.from in accounts && p.to in accounts
    ensures AddToBalance(AddToBalance(accounts, p.from, p.amount as real), p.to, -(p.amount as real)) ==
            GivenBack(accounts, p)
  {
    RndShift(accounts[p.from].balance, p.amount);
    var half := AddToBalance(accounts, p.from, p.amount as real);
    RndShift(half[p.to].balance, p.amount);
  }

  /** One reversal gives back exactly what its original moved: no rounding, no other account. */
  lemma ReversalMoves(db: DB, orig: TxId, id: TxId)
    requires Sound(db) && Legal(db, Undone(orig, id))
    ensures var p := Decode(EntriesOf(db.ledger, orig));
            && p.from in db.accounts && p.to in db.accounts && p.from != p.to && p.amount > 0
            && EntriesOf(db.ledger, orig) == Pair(orig, p.from, p.to, p.amount)
            && db.accounts[p.from].currency == db.accounts[p.to].currency
            && CoversReversal(db.accounts[p.to], p.amount)
            && Apply(db, Undone(orig, id)).accounts == GivenBack(db.accounts, p)
  {
    ReversalDecodes(db, orig);
    UndoneGivesBack(db, orig, id);
  }

  lemma UndoneGivesBack(db: DB, orig: TxId, id: TxId)
    requires Legal(db, Undone(orig, id))
    ensures var p := Decode(EntriesOf(db.ledger, orig));
            && p.from in db.accounts && p.to in db.accounts && CoversReversal(db.accounts[p.to], p.amount)
            && Apply(db, Undone(orig, id)).accounts == GivenBack(db.accounts, p)
  {
    ExactExchange(db.accounts, Decode(EntriesOf(db.ledger, orig)));
  }

  lemma ReversalKeepsTx(db: DB, orig: TxId, id: TxId)
    requires Sound(db) && Legal(db, Undone(orig, id))
    ensures TxOk(Apply(db, Undone(orig, id)), id)
  {
    var p := Decode(EntriesOf(db.ledger, orig));
    var later := Apply(db, Undone(orig, id));
    var es := Pair(id, p.to, p.from, p.amount);
    ReversalMoves(db, orig, id);
    assert EntriesOf(later.ledger, id) == es && AuditOf(later.audit, id) == [ReversalAudit(p, id)] by {
      FreshTx(db, id, es[0], es[1], ReversalAudit(p, id));
    }
    assert EntriesOf(later.ledger, orig) == EntriesOf(db.ledger, orig) by {
      EntriesOfPair(db.ledger, es[0], es[1], orig);
    }
    assert later.txs[id] == ReversalRow(orig) && later.txs[orig] == db.txs[orig].(status := Reversed);
  }

  lemma NoOrphansKept(db: DB, ev: Event)
    requires Sound(db) && Legal(db, ev)
    ensures NoOrphans(Apply(db, ev))
  {
  }

  /** The row an event adds, if it adds one. */
  function NewRow(ev: Event): (r: Option<(TxId, TxRow)>) {
    match ev
    case Opened(_, _, _) => None
    case Transferred(req, id) => Some((id, TransferRow(req)))
    case Undone(orig, id) => Some((id, ReversalRow(orig)))
    case FailureRecorded(req, reason, id) => Some((id, FailureRow(req, reason)))
  }

  /** In both unique columns a row holds afterwards what it held before, or what the event put
      there. */
  lemma UniqueColumns(db: DB, ev: Event, id: TxId)
    requires Legal(db, ev) && id in Apply(db, ev).txs
    ensures var later := Apply(db, ev).txs[id];
            if id in db.txs then later.reference == db.txs[id].reference && later.reversalOf == db.txs[id].reversalOf
            else NewRow(ev).Some? && id == NewRow(ev).value.0
                 && later.reference == NewRow(ev).value.1.reference
                 && later.reversalOf == NewRow(ev).value.1.reversalOf
  {
  }

  lemma KeysKept(db: DB, ev: Event)
    requires ReversalsMatch(db) && ReferencesUnique(db) && Legal(db, ev)
    ensures ReversalsMatch(Apply(db, ev)) && ReferencesUnique(Apply(db, ev))
  {
    var later := Apply(db, ev);
    forall i, j | i in later.txs && j in later.txs
      ensures SameKey(later.txs[i].reference, later.txs[j].reference) ==> i == j
      ensures SameKey(later.txs[i].reversalOf, later.txs[j].reversalOf) ==> i == j
    {
      UniqueColumns(db, ev, i);
      UniqueColumns(db, ev, j);
    }
    forall id | id in later.txs && later.txs[id].status == Reversed
      ensures ReversalExists(later, id)
    {
      ReversalKept(db, ev, id);
    }
  }

  lemma ReversalKept(db: DB, ev: Event, id: TxId)
    requires ReversalsMatch(db) && Legal(db, ev)
    requires id in Apply(db, ev).txs && Apply(db, ev).txs[id].status == Reversed
    ensures ReversalExists(Apply(db, ev), id)
  {
    var later := Apply(db, ev);
    if ev.Undone? && id == ev.orig {
      assert later.txs[ev.id].reversalOf == Some(id);
    } else {
      assert ReversalExists(db, id);
      var rev :| rev in db.txs && db.txs[rev].reversalOf == Some(id);
      UniqueColumns(db, ev, rev);
    }
  }

  /** The checked balance bounds the stored one, because rounding is monotone. */
  lemma FloorAfterDebit(balance: int, floor: int, amount: real)
    requires balance as real - amount >= floor as real
    ensures Rnd(balance as real - amount) >= floor
  {
    RndWhole(floor);
    RndMonotone(floor as real, balance as real - amount);
  }

  lemma BalanceAfterCredit(balance: int, amount: real)
    requires amount >= 0.0
    ensures Rnd(balance as real + amount) >= balance
  {
    RndWhole(balance);
    RndMonotone(balance as real, balance as real + amount);
  }

  lemma FloorsAfterTransfer(db: DB, req: TransferRequest, id: TxId)
    requires FloorsHold(db) && Legal(db, Transferred(req, id))
    ensures FloorsHold(Apply(db, Transferred(req, id)))
  {
    FloorAfterDebit(db.accounts[req.from].balance, db.accounts[req.from].floor, req.amount);
    BalanceAfterCredit(db.accounts[req.to].balance, req.amount);
  }

  lemma FloorsKept(db: DB, ev: Event)
    requires Sound(db) && Legal(db, ev)
    ensures FloorsHold(Apply(db, ev))
  {
    match ev
    case Opened(_, _, initial) =>
      RndWhole(0);
      RndMonotone(0.0, initial);
    case Transferred(req, id) => FloorsAfterTransfer(db, req, id);
    case Undone(orig, id) => ReversalMoves(db, orig, id);
    case FailureRecorded(_, _, _) =>
  }

  lemma ApplyKeepsSound(db: DB, ev: Event)
    requires Sound(db) && Legal(db, ev)
    ensures Sound(Apply(db, ev))
  {
    OthersKept(db, ev);
    NoOrphansKept(db, ev);
    KeysKept(db, ev);
    FloorsKept(db, ev);
    match ev
    case Opened(_, _, _) =>
    case Transferred(req, id) => TransferKeepsTx(db, req, id);
    case Undone(orig, id) => ReversalKeepsTx(db, orig, id);
    case FailureRecorded(req, reason, id) => FailureKeepsTx(db, req, reason, id);
  }

  /** Every legal history leaves sound tables. */
  lemma {:induction false} HistorySound(init: DB, evs: seq<Event>)
    requires Seeded(init) && LegalHistory(init, evs)
    ensures Sound(Replay(init, evs))
  {
    if evs == [] {
    } else {
      HistorySound(init, evs[..|evs| - 1]);
      ApplyKeepsSound(Replay(init, evs[..|evs| - 1]), evs[|evs| - 1]);
    }
  }
}
