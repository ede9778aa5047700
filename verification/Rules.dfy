/** The decisions and the writes of the services, spelled out in the fields of the tables: when each answer is
    given, and what each commit leaves in every column. */
module Rules {
  import opened Money
  import opened Schema
  import opened Decoding
  import opened Errors
  import opened Spec
  import opened Integrity
  import opened Accounting

  // --- When a transfer is refused -----------------------------------------------------------------------

  /** The reasons that do not look at an account: the amount, then the numbers, then the lower of the accounts
      that are missing. */
  lemma RefusedBeforeReading(db: DB, req: TransferRequest)
    ensures Validate(db, req) == Some(InvalidAmount) <==> req.amount <= 0.0
    ensures Validate(db, req) == Some(SameAccount) <==> req.amount > 0.0 && req.from == req.to
    ensures forall a :: Validate(db, req) == Some(AccountNotFound(a)) <==>
              && req.amount > 0.0 && req.from != req.to && a !in db.accounts
              && (|| (a == req.from && (req.from < req.to || req.to in db.accounts))
                  || (a == req.to && (req.to < req.from || req.from in db.accounts)))
  {
  }

  /** The reasons that do, each only when the ones before it do not apply; and no reason at all. */
  lemma RefusedOnAccounts(db: DB, req: TransferRequest)
    requires req.amount > 0.0 && req.from != req.to && req.from in db.accounts && req.to in db.accounts
    ensures var from, to := db.accounts[req.from], db.accounts[req.to];
            && (Validate(db, req) == Some(SourceNotActive) <==> from.status != Active)
            && (Validate(db, req) == Some(DestinationNotActive) <==> from.status == Active && to.status != Active)
            && (Validate(db, req) == Some(CurrencyMismatch) <==>
                from.status == Active && to.status == Active && from.currency != to.currency)
            && (Validate(db, req) == Some(InsufficientFunds) <==>
                && from.status == Active && to.status == Active && from.currency == to.currency
                && from.balance as real - req.amount < from.floor as real)
            && (Validate(db, req) == None <==>
                && from.status == Active && to.status == Active && from.currency == to.currency
                && from.balance as real - req.amount >= from.floor as real)
  {
  }

  /** And those are given only for a positive amount between two accounts that exist. */
  lemma ReadingMeans(db: DB, req: TransferRequest)
    ensures var answer := Validate(db, req);
            || answer == None || answer == Some(SourceNotActive) || answer == Some(DestinationNotActive)
            || answer == Some(CurrencyMismatch) || answer == Some(InsufficientFunds) <==>
            req.amount > 0.0 && req.from != req.to && req.from in db.accounts && req.to in db.accounts
  {
  }

  // --- When a reversal is refused -----------------------------------------------------------------------

  /** The refusals that look at the original's row alone. */
  lemma RefusedOnRow(db: DB, orig: TxId)
    ensures ReverseCheck(db, orig) == Err(NotFound) <==> orig !in db.txs
    ensures ReverseCheck(db, orig) == Err(InvalidType) <==> orig in db.txs && db.txs[orig].typ != Transfer
    ensures forall s :: ReverseCheck(db, orig) == Err(InvalidStatus(s)) <==>
              orig in db.txs && db.txs[orig].typ == Transfer && db.txs[orig].status == s != Completed
  {
  }

  lemma AmongRows(rows: seq<Entry>, id: TxId, e: Entry)
    ensures e in EntriesOf(rows, id) <==> e in rows && e.tx == id
  {
    if e in rows && e.tx == id { RowAmongItsEntries(rows, e); }
    RowsOfOne(rows, id);
  }

  lemma {:induction false} RowsOfOne(rows: seq<Entry>, id: TxId)
    ensures forall e :: e in EntriesOf(rows, id) ==> e in rows && e.tx == id
  {
    if rows == [] {
    } else {
      RowsOfOne(rows[..|rows| - 1], id);
    }
  }

  lemma PostedRows(db: DB, orig: TxId) returns (d: Entry, c: Entry)
    requires Sound(db) && orig in db.txs && db.txs[orig].typ == Transfer && db.txs[orig].status == Completed
    ensures EntriesOf(db.ledger, orig) == [d, c] && d in db.ledger && c in db.ledger && d.tx == c.tx == orig
    ensures d.debit == c.credit >= 0 && d.credit == c.debit == 0
    ensures d.account in db.accounts && c.account in db.accounts && d.account != c.account
  {
    assert TxOk(db, orig);
    d, c := EntriesOf(db.ledger, orig)[0], EntriesOf(db.ledger, orig)[1];
    AmongRows(db.ledger, orig, d);
    AmongRows(db.ledger, orig, c);
  }

  /** The refusals that look at what the original posted: a debit of zero paise is an internal error, and
      otherwise only funds can be missing, on the account that was credited. */
  lemma RefusedOnRows(db: DB, orig: TxId) returns (d: Entry, c: Entry)
    requires Sound(db) && orig in db.txs && db.txs[orig].typ == Transfer && db.txs[orig].status == Completed
    ensures d in db.ledger && c in db.ledger && d.tx == c.tx == orig
    ensures d.debit == c.credit >= 0 && d.credit == c.debit == 0
    ensures d.account in db.accounts && c.account in db.accounts && d.account != c.account
    ensures ReverseCheck(db, orig) == Err(Internal) <==> d.debit == 0
    ensures ReverseCheck(db, orig) == Err(InsufficientForReversal) <==>
            d.debit > 0 && db.accounts[c.account].balance - d.debit < db.accounts[c.account].floor
    ensures ReverseCheck(db, orig) == Ok(Posting(d.account, c.account, d.debit)) <==>
            d.debit > 0 && db.accounts[c.account].balance - d.debit >= db.accounts[c.account].floor
  {
    d, c := PostedRows(db, orig);
    PostingRoundTrip(orig, d.account, c.account, d.debit, [d, c]);
  }

  /** The two rows are the only ones of the original with a debit and with a credit. */
  lemma OnePairPosted(db: DB, orig: TxId, d: Entry, c: Entry)
    requires Sound(db) && orig in db.txs && db.txs[orig].typ == Transfer && db.txs[orig].status == Completed
    requires d in db.ledger && c in db.ledger && d.tx == c.tx == orig && d.debit > 0 && c.credit > 0
    ensures EntriesOf(db.ledger, orig) == [d, c]
  {
    var d', c' := PostedRows(db, orig);
    AmongRows(db.ledger, orig, d);
    AmongRows(db.ledger, orig, c);
  }

  /** All refusals in one place, on sound tables. */
  lemma RefusalMeans(db: DB, orig: TxId, r: Refusal)
    requires Sound(db) && ReverseCheck(db, orig) == Err(r)
    ensures match r
            case NotFound => orig !in db.txs
            case InvalidType => orig in db.txs && db.txs[orig].typ != Transfer
            case InvalidStatus(s) =>
              orig in db.txs && db.txs[orig].typ == Transfer && db.txs[orig].status == s != Completed
            case InsufficientForReversal =>
              && orig in db.txs && db.txs[orig].typ == Transfer && db.txs[orig].status == Completed
              && exists d, c ::
                   && d in db.ledger && c in db.ledger && d.tx == c.tx == orig && d.debit > 0 && c.credit == d.debit
                   && c.account in db.accounts
                   && db.accounts[c.account].balance - d.debit < db.accounts[c.account].floor
            case Internal =>
              && orig in db.txs && db.txs[orig].typ == Transfer && db.txs[orig].status == Completed
              && forall e :: e in db.ledger && e.tx == orig ==> e.debit == 0
            case AlreadyReversed => false
  {
    RefusedOnRow(db, orig);
    if orig in db.txs && db.txs[orig].typ == Transfer && db.txs[orig].status == Completed {
      var d, c := RefusedOnRows(db, orig);
      if r == Internal { NothingMoved(db, orig); }
    }
  }

  lemma NothingMoved(db: DB, orig: TxId)
    requires Sound(db) && ReverseCheck(db, orig) == Err(Internal)
    ensures forall e :: e in db.ledger && e.tx == orig ==> e.debit == 0
  {
    RefusedOnRow(db, orig);
    var d, c := PostedRows(db, orig);
    var d', c' := RefusedOnRows(db, orig);
    AmongRows(db.ledger, orig, d');
    forall e | e in db.ledger && e.tx == orig ensures e.debit == 0 { AmongRows(db.ledger, orig, e); }
  }

  // --- What may be inserted -----------------------------------------------------------------------------

  /** A row goes in exactly when no row shares its id, nor a reference or an original that it has. */
  lemma InsertableMeans(db: DB, row: TxRow, id: TxId)
    ensures Insertable(db, row, id) <==>
            forall other :: other in db.txs ==>
              && other != id
              && (row.reference == None || db.txs[other].reference != row.reference)
              && (row.reversalOf == None || db.txs[other].reversalOf != row.reversalOf)
  {
  }

  // --- What is written ------------------------------------------------------------------------------------

  /** An account is opened active, with no overdraft and with the nearest paisa of what was asked for. */
  lemma OpenedWrites(db: DB, a: AccountId, currency: string, initial: real)
    requires Legal(db, Opened(a, currency, initial))
    ensures var later := Apply(db, Opened(a, currency, initial));
            && a !in db.accounts && later.accounts.Keys == db.accounts.Keys + {a}
            && (forall b :: b in db.accounts ==> later.accounts[b] == db.accounts[b])
            && later.accounts[a].currency == currency && later.accounts[a].status == Active
            && later.accounts[a].floor == 0 && IsNearest(initial, later.accounts[a].balance)
            && later.txs == db.txs && later.ledger == db.ledger && later.audit == db.audit
  {
  }

  /** A transfer changes two balances, adds its row, a debit row and a credit row, and one audit row. */
  lemma TransferWrites(db: DB, req: TransferRequest, id: TxId)
    requires Legal(db, Transferred(req, id))
    ensures var later := Apply(db, Transferred(req, id));
            && later.accounts.Keys == db.accounts.Keys && req.from in db.accounts && req.to in db.accounts
            && (forall a :: a in db.accounts && a != req.from && a != req.to ==> later.accounts[a] == db.accounts[a])
            && later.accounts[req.from] == db.accounts[req.from].(balance := later.accounts[req.from].balance)
            && later.accounts[req.to] == db.accounts[req.to].(balance := later.accounts[req.to].balance)
            && IsNearest(db.accounts[req.from].balance as real - req.amount, later.accounts[req.from].balance)
            && IsNearest(db.accounts[req.to].balance as real + req.amount, later.accounts[req.to].balance)
            && id !in db.txs && later.txs == db.txs[id := TxRow(Transfer, Completed, req.reference, None, None)]
    ensures var later := Apply(db, Transferred(req, id));
            exists m: nat ::
              && IsNearest(req.amount, m)
              && later.ledger == db.ledger + [Entry(id, req.from, m, 0), Entry(id, req.to, 0, m)]
              && later.audit == db.audit + [AuditRow(Transfer, id, [req.from, req.to], m, Success, None)]
  {
    RndWhole(0);
    RndMonotone(0.0, req.amount);
    assert Rnd(req.amount) >= 0;
    assert IsNearest(req.amount, Rnd(req.amount));
  }

  /** A reversal gives the posted amount back, adds its row and the mirrored pair, marks its original, and adds
      one audit row. */
  lemma ReversalWrites(db: DB, orig: TxId, id: TxId, d: Entry, c: Entry)
    requires Sound(db) && Legal(db, Undone(orig, id))
    requires d in db.ledger && c in db.ledger && d.tx == c.tx == orig && d.debit > 0 && c.credit > 0
    ensures var later, m := Apply(db, Undone(orig, id)), d.debit;
            && later.accounts.Keys == db.accounts.Keys && d.account in db.accounts && c.account in db.accounts
            && (forall a :: a in db.accounts && a != d.account && a != c.account ==>
                  later.accounts[a] == db.accounts[a])
            && later.accounts[d.account] ==
               db.accounts[d.account].(balance := db.accounts[d.account].balance + m)
            && later.accounts[c.account] ==
               db.accounts[c.account].(balance := db.accounts[c.account].balance - m)
            && orig in db.txs && id !in db.txs
            && later.txs == db.txs[id := TxRow(Reversal, Completed, None, Some(orig), None)]
                                  [orig := db.txs[orig].(status := Reversed)]
            && later.ledger == db.ledger + [Entry(id, c.account, m, 0), Entry(id, d.account, 0, m)]
            && later.audit == db.audit + [AuditRow(Reversal, id, [d.account, c.account], m, Success, None)]
  {
    ReversalMoves(db, orig, id);
    WrittenBy(db, orig, id, d, c);
    GivenBackIn(db.accounts, Posting(d.account, c.account, d.debit));
  }

  lemma GivenBackIn(accounts: map<AccountId, Account>, p: Posting)
    requires p.from in accounts && p.to in accounts && p.from != p.to
    ensures var later := GivenBack(accounts, p);
            && later.Keys == accounts.Keys
            && (forall a :: a in accounts && a != p.from && a != p.to ==> later[a] == accounts[a])
            && later[p.from] == accounts[p.from].(balance := accounts[p.from].balance + p.amount)
            && later[p.to] == accounts[p.to].(balance := accounts[p.to].balance - p.amount)
  {
  }

  /** What is undone is what the two rows say. */
  lemma WrittenBy(db: DB, orig: TxId, id: TxId, d: Entry, c: Entry)
    requires Sound(db) && Legal(db, Undone(orig, id))
    requires d in db.ledger && c in db.ledger && d.tx == c.tx == orig && d.debit > 0 && c.credit > 0
    ensures Decode(EntriesOf(db.ledger, orig)) == Posting(d.account, c.account, d.debit)
  {
    OnePairPosted(db, orig, d, c);
    var d1, c1 := PostedRows(db, orig);
    PostingRoundTrip(orig, d.account, c.account, d.debit, [d, c]);
  }

  /** A recorded failure adds a failed row and one audit row, both with the reason; the audit row has the
      account numbers that were given, a missing one being zero, and the nearest paisa of the amount. */
  lemma FailureWrites(db: DB, req: TransferRequest, reason: Reason, id: TxId)
    requires Legal(db, FailureRecorded(req, reason, id))
    ensures var later := Apply(db, FailureRecorded(req, reason, id));
            && later.accounts == db.accounts && later.ledger == db.ledger
            && id !in db.txs && later.txs == db.txs[id := TxRow(Transfer, Failed, req.reference, None, Some(reason))]
            && |later.audit| == |db.audit| + 1 && later.audit[..|db.audit|] == db.audit
            && var row := later.audit[|db.audit|];
               && row.operation == Transfer && row.tx == id && row.outcome == Failure && row.reason == Some(reason)
               && IsNearest(req.amount, row.amount)
               && (req.from != 0 && req.to != 0 ==> row.accounts == [req.from, req.to])
               && (req.from != 0 && req.to == 0 ==> row.accounts == [req.from])
               && (req.from == 0 && req.to != 0 ==> row.accounts == [req.to])
               && (req.from == 0 && req.to == 0 ==> row.accounts == [])
  {
  }

  /** So an account just opened with a positive balance in whole paise can send all of it to any other active
      account of its currency. */
  lemma OpenedCanSend(db: DB, a: AccountId, currency: string, initial: real, to: AccountId, id: TxId)
    requires Legal(db, Opened(a, currency, initial)) && initial > 0.0 && IsWhole(initial)
    requires to in db.accounts && db.accounts[to].status == Active && db.accounts[to].currency == currency
    requires id !in db.txs
    ensures var later := Apply(db, Opened(a, currency, initial));
            var ev := Transferred(TransferRequest(a, to, initial, None), id);
            && Legal(later, ev) && Apply(later, ev).accounts[a].balance == 0
  {
    var later := Apply(db, Opened(a, currency, initial));
    var req := TransferRequest(a, to, initial, None);
    OpenedWrites(db, a, currency, initial);
    WholeIsStoredExactly(initial);
    NearestIsUnique(initial, later.accounts[a].balance);
    RefusedOnAccounts(later, req);
    TransferMoves(later, req, id);
  }

  // --- The requests of a reversal ---------------------------------------------------------------------------

  /** `Reverse` locks the original, reads its rows, locks both accounts in ascending order, and then writes:
      source, destination, its row, two ledger rows, the original's status and the audit row. */
  lemma RequestOrder(orig: TxId, p: Posting)
    requires p.from != p.to
    ensures var rs := Requests(orig, p);
            && |rs| == 13 && rs[0] == BeginTx && rs[1] == LockTransaction(orig) && rs[2] == ListEntries
            && rs[3].LockAccount? && rs[4].LockAccount? && rs[3].account < rs[4].account
            && {rs[3].account, rs[4].account} == {p.from, p.to}
            && rs[5] == UpdateAccount(p.from) && rs[6] == UpdateAccount(p.to) && rs[7] == CreateTransaction
            && rs[8] == InsertLedger && rs[9] == InsertLedger && rs[10] == MarkTransaction(orig)
            && rs[11] == InsertLog && rs[12] == CommitTx
  {
  }
}
