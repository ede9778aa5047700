/** The services as they are written: statements that change an open database transaction one after
    the other, committed or thrown away as a whole.  Each call is proved equal to `Spec` when no
    other session runs.

    A connection survives a given number of statements (`budget`, counting BEGIN and COMMIT); the
    statement after that fails.  Every contract holds for every budget, so it covers a driver error
    at any point. */
module Services {
  import opened Money
  import opened Schema
  import opened Decoding
  import opened Errors
  import opened Spec

  datatype DbKind = NoRows | UniqueViolation | ConstraintViolation | Dropped

  /** An error of the database as a store returns it. */
  datatype DbError = DbError(kind: DbKind, text: string)

  const MISSING_KEY := "violates foreign key constraint (SQLSTATE 23503)"
  const CHECK_FAILED := "violates check constraint (SQLSTATE 23514)"

  /** A ledger row as the service builds it, before the column rounds it. */
  datatype Draft = Draft(tx: TxId, account: AccountId, debit: real, credit: real)

  /** An open database transaction: the tables as it sees them, its own writes included. */
  class Tx {
    var accounts: map<AccountId, Account>
    var txs: map<TxId, TxRow>
    var ledger: seq<Entry>
    var audit: seq<AuditRow>
    var budget: nat
    /** What the driver says when the connection is gone. */
    const cause: string

    function View(): DB
      reads this
    {
      DB(accounts, txs, ledger, audit)
    }

    constructor (db: DB, budget: nat, cause: string)
      ensures View() == db && this.budget == budget && this.cause == cause
    {
      accounts, txs, ledger, audit := db.accounts, db.txs, db.ledger, db.audit;
      this.budget := budget;
      this.cause := cause;
    }

    function Gone(r: Request): (e: DbError) {
      DbError(Dropped, StoreText(r, cause))
    }

    /** Sends one statement. */
    method Send() returns (ok: bool)
      modifies this`budget
      ensures ok == (old(budget) > 0)
      ensures budget == if ok then old(budget) - 1 else 0
    {
      ok := budget > 0;
      if ok {
        budget := budget - 1;
      }
    }

    method AccountForUpdate(id: AccountId) returns (r: Result<Account, DbError>)
      modifies this`budget
      ensures budget == if old(budget) > 0 then old(budget) - 1 else 0
      ensures r == if old(budget) == 0 then Err(Gone(LockAccount(id)))
                   else if id in accounts then Ok(accounts[id])
                   else Err(DbError(NoRows, StoreText(LockAccount(id), NO_ROWS)))
    {
      var ok := Send();
      if !ok {
        return Err(Gone(LockAccount(id)));
      }
      if id !in accounts {
        return Err(DbError(NoRows, StoreText(LockAccount(id), NO_ROWS)));
      }
      return Ok(accounts[id]);
    }

    method TxForUpdate(id: TxId) returns (r: Result<TxRow, DbError>)
      modifies this`budget
      ensures budget == if old(budget) > 0 then old(budget) - 1 else 0
      ensures r == if old(budget) == 0 then Err(Gone(LockTransaction(id)))
                   else if id in txs then Ok(txs[id])
                   else Err(DbError(NoRows, StoreText(LockTransaction(id), NO_ROWS)))
    {
      var ok := Send();
      if !ok {
        return Err(Gone(LockTransaction(id)));
      }
      if id !in txs {
        return Err(DbError(NoRows, StoreText(LockTransaction(id), NO_ROWS)));
      }
      return Ok(txs[id]);
    }

    /** Adds to whatever the balance is now; a missing account is no error, and no row changes. */
    method UpdateBalance(id: AccountId, delta: real) returns (err: Option<DbError>)
      modifies this`accounts, this`budget
      ensures budget == if old(budget) > 0 then old(budget) - 1 else 0
      ensures err == if old(budget) == 0 then Some(Gone(UpdateAccount(id))) else None
      ensures accounts == if err == None then AddToBalance(old(accounts), id, delta) else old(accounts)
    {
      var ok := Send();
      if !ok {
        return Some(Gone(UpdateAccount(id)));
      }
      if id in accounts {
        var account := accounts[id];
        accounts := accounts[id := account.(balance := Rnd(account.balance as real + delta))];
      }
      return None;
    }

    /** Inserts a row under the generated `id`, subject to the three unique columns and, after them, to
        the foreign key: what a row reverses must exist. */
    method Create(row: TxRow, id: TxId) returns (r: Result<TxId, DbError>)
      modifies this`txs, this`budget
      ensures budget == if old(budget) > 0 then old(budget) - 1 else 0
      ensures r == if old(budget) == 0 then Err(Gone(CreateTransaction))
                   else if id in old(txs)
                   then Err(DbError(UniqueViolation, StoreText(CreateTransaction, DuplicateKey("transactions_pkey"))))
                   else if !ReferenceFree(old(View()), row.reference)
                   then Err(DbError(UniqueViolation,
                                    StoreText(CreateTransaction, DuplicateKey("transactions_reference_id_key"))))
                   else if !ReversalFree(old(View()), row.reversalOf)
                   then Err(DbError(UniqueViolation,
                                    StoreText(CreateTransaction, DuplicateKey("transactions_reversal_of_id_key"))))
                   else if row.reversalOf.Some? && row.reversalOf.value !in old(txs)[id := row]
                   then Err(DbError(ConstraintViolation, StoreText(CreateTransaction, MISSING_KEY)))
                   else Ok(id)
      ensures txs == if r.Ok? then old(txs)[id := row] else old(txs)
    {
      var ok := Send();
      if !ok {
        return Err(Gone(CreateTransaction));
      }
      if id in txs {
        return Err(DbError(UniqueViolation, StoreText(CreateTransaction, DuplicateKey("transactions_pkey"))));
      }
      if !ReferenceFree(View(), row.reference) {
        return Err(DbError(UniqueViolation,
                           StoreText(CreateTransaction, DuplicateKey("transactions_reference_id_key"))));
      }
      if !ReversalFree(View(), row.reversalOf) {
        return Err(DbError(UniqueViolation,
                           StoreText(CreateTransaction, DuplicateKey("transactions_reversal_of_id_key"))));
      }
      if row.reversalOf.Some? && row.reversalOf.value !in txs[id := row] {
        return Err(DbError(ConstraintViolation, StoreText(CreateTransaction, MISSING_KEY)));
      }
      txs := txs[id := row];
      return Ok(id);
    }

    method SetReversed(id: TxId) returns (err: Option<DbError>)
      modifies this`txs, this`budget
      ensures budget == if old(budget) > 0 then old(budget) - 1 else 0
      ensures err == if old(budget) == 0 then Some(Gone(MarkTransaction(id))) else None
      ensures txs == if err == None then MarkReversed(old(txs), id) else old(txs)
    {
      var ok := Send();
      if !ok {
        return Some(Gone(MarkTransaction(id)));
      }
      if id in txs {
        txs := txs[id := txs[id].(status := Reversed)];
      }
      return None;
    }

    /** The stored row is rounded; amounts must not be negative, and both keys must exist. */
    method InsertEntry(d: Draft) returns (err: Option<DbError>)
      modifies this`ledger, this`budget
      ensures budget == if old(budget) > 0 then old(budget) - 1 else 0
      ensures err == if old(budget) == 0 then Some(Gone(InsertLedger))
                     else if Rnd(d.debit) < 0 || Rnd(d.credit) < 0
                     then Some(DbError(ConstraintViolation, StoreText(InsertLedger, CHECK_FAILED)))
                     else if d.account !in accounts || d.tx !in txs
                     then Some(DbError(ConstraintViolation, StoreText(InsertLedger, MISSING_KEY)))
                     else None
      ensures ledger == old(ledger) +
                        if err == None then [Entry(d.tx, d.account, Rnd(d.debit), Rnd(d.credit))] else []
    {
      var ok := Send();
      if !ok {
        return Some(Gone(InsertLedger));
      }
      if Rnd(d.debit) < 0 || Rnd(d.credit) < 0 {
        return Some(DbError(ConstraintViolation, StoreText(InsertLedger, CHECK_FAILED)));
      }
      if d.account !in accounts || d.tx !in txs {
        return Some(DbError(ConstraintViolation, StoreText(InsertLedger, MISSING_KEY)));
      }
      ledger := ledger + [Entry(d.tx, d.account, Rnd(d.debit), Rnd(d.credit))];
      return None;
    }

    method ListByTransaction(id: TxId) returns (r: Result<seq<Entry>, DbError>)
      modifies this`budget
      ensures budget == if old(budget) > 0 then old(budget) - 1 else 0
      ensures r == if old(budget) == 0 then Err(Gone(ListEntries)) else Ok(EntriesOf(ledger, id))
    {
      var ok := Send();
      if !ok {
        return Err(Gone(ListEntries));
      }
      var entries := [];
      for i := 0 to |ledger|
        invariant entries == EntriesOf(ledger[..i], id)
      {
        assert ledger[..i + 1][..i] == ledger[..i];
        if ledger[i].tx == id {
          entries := entries + [ledger[i]];
        }
      }
      assert ledger[..|ledger|] == ledger;
      return Ok(entries);
    }

    method InsertAudit(row: AuditRow) returns (err: Option<DbError>)
      modifies this`audit, this`budget
      ensures budget == if old(budget) > 0 then old(budget) - 1 else 0
      ensures err == if old(budget) == 0 then Some(Gone(InsertLog))
                     else if row.tx !in txs then Some(DbError(ConstraintViolation, StoreText(InsertLog, MISSING_KEY)))
                     else None
      ensures audit == old(audit) + if err == None then [row] else []
    {
      var ok := Send();
      if !ok {
        return Some(Gone(InsertLog));
      }
      if row.tx !in txs {
        return Some(DbError(ConstraintViolation, StoreText(InsertLog, MISSING_KEY)));
      }
      audit := audit + [row];
      return None;
    }
  }

  /** What ends the callback of a transfer early. */
  datatype TransferError = Invalid(reason: Reason) | Database(error: DbError)

  datatype TransferResult =
    | Posted(id: TxId, entries: seq<Draft>)
    | Rejected(reason: Reason, failed: Option<TxId>)
    | TransferBroken

  /** What ends the callback of a reversal early: an error of its own, or one it passes on. */
  datatype ReverseError = Decided(refusal: Refusal) | Plain(text: string)

  function AnswerOfError(e: ReverseError): (r: Refusal) {
    match e
    case Decided(refusal) => refusal
    case Plain(text) => AnswerTo(text)
  }

  datatype ReverseResult = Reverted(id: TxId, entries: seq<Draft>) | Refused(refusal: Refusal)

  lemma NonNegativeStored(x: real)
    requires x >= 0.0
    ensures Rnd(x) >= 0 && Rnd(0.0) == 0
  {
    RndWhole(0);
    RndMonotone(0.0, x);
  }

  /** The debit row of a posting, then its credit row; only the driver can fail here. */
  method InsertPair(tx: Tx, debit: Draft, credit: Draft) returns (err: Option<DbError>)
    requires debit.debit == credit.credit >= 0.0 && debit.credit == credit.debit == 0.0
    requires debit.tx == credit.tx && debit.tx in tx.txs
    requires debit.account in tx.accounts && credit.account in tx.accounts
    modifies tx`ledger, tx`budget
    ensures err == if old(tx.budget) >= 2 then None else Some(tx.Gone(InsertLedger))
    ensures err == None ==> tx.budget == old(tx.budget) - 2
    ensures err == None ==>
              tx.ledger == old(tx.ledger) + Pair(debit.tx, debit.account, credit.account, Rnd(debit.debit))
  {
    NonNegativeStored(debit.debit);
    err := tx.InsertEntry(debit);
    if err.None? {
      err := tx.InsertEntry(credit);
    }
  }

  /** The writes of `Transfer`, after its checks. */
  method WriteTransfer(tx: Tx, req: TransferRequest, id: TxId) returns (r: Result<seq<Draft>, DbError>)
    requires Validate(tx.View(), req) == None
    modifies tx
    ensures r.Ok? ==> Insertable(old(tx.View()), TransferRow(req), id)
                      && tx.View() == Apply(old(tx.View()), Transferred(req, id))
                      && r.value == [Draft(id, req.from, req.amount, 0.0), Draft(id, req.to, 0.0, req.amount)]
                      && tx.budget == old(tx.budget) - 6
    ensures r.Ok? <==> Insertable(old(tx.View()), TransferRow(req), id) && old(tx.budget) >= 6
  {
    var err := tx.UpdateBalance(req.from, -req.amount);
    if err.Some? {
      return Err(err.value);
    }
    err := tx.UpdateBalance(req.to, req.amount);
    if err.Some? {
      return Err(err.value);
    }
    var created := tx.Create(TransferRow(req), id);
    if created.Err? {
      return Err(created.error);
    }
    var debit, credit := Draft(created.value, req.from, req.amount, 0.0), Draft(created.value, req.to, 0.0, req.amount);
    err := InsertPair(tx, debit, credit);
    if err.Some? {
      return Err(err.value);
    }
    err := tx.InsertAudit(TransferAudit(req, created.value));
    if err.Some? {
      return Err(err.value);
    }
    r := Ok([debit, credit]);
  }

  /** The callback of `Transfer`. */
  method PostTransfer(tx: Tx, req: TransferRequest, id: TxId) returns (r: Result<seq<Draft>, TransferError>)
    requires req.amount > 0.0 && req.from != req.to
    modifies tx
    ensures r.Ok? ==> Legal(old(tx.View()), Transferred(req, id))
                      && tx.View() == Apply(old(tx.View()), Transferred(req, id))
                      && r.value == [Draft(id, req.from, req.amount, 0.0), Draft(id, req.to, 0.0, req.amount)]
                      && tx.budget == old(tx.budget) - 8
    ensures r.Ok? <==> Legal(old(tx.View()), Transferred(req, id)) && old(tx.budget) >= 8
    ensures r.Err? && r.error.Invalid? ==> Validate(old(tx.View()), req) == Some(r.error.reason)
    ensures r.Err? && r.error.Invalid? <==>
            match Validate(old(tx.View()), req)
            case None => false
            case Some(AccountNotFound(a)) => old(tx.budget) >= if a < req.from || a < req.to then 1 else 2
            case Some(_) => old(tx.budget) >= 2
  {
    var firstId, secondId := req.from, req.to;
    if firstId > secondId {
      firstId, secondId := secondId, firstId;
    }
    var first := tx.AccountForUpdate(firstId);
    if first.Err? {
      return Err(if first.error.kind == NoRows then Invalid(AccountNotFound(firstId)) else Database(first.error));
    }
    var second := tx.AccountForUpdate(secondId);
    if second.Err? {
      return Err(if second.error.kind == NoRows then Invalid(AccountNotFound(secondId)) else Database(second.error));
    }
    var from, to := first.value, second.value;
    if firstId != req.from {
      from, to := second.value, first.value;
    }
    if from.status != Active {
      return Err(Invalid(SourceNotActive));
    }
    if to.status != Active {
      return Err(Invalid(DestinationNotActive));
    }
    if from.currency != to.currency {
      return Err(Invalid(CurrencyMismatch));
    }
    if from.balance as real - req.amount < from.floor as real {
      return Err(Invalid(InsufficientFunds));
    }
    var posted := WriteTransfer(tx, req, id);
    r := if posted.Ok? then Ok(posted.value) else Err(Database(posted.error));
  }

  /** The callback of `recordFailure`.  `failed` is what the captured variable holds afterwards: it is
      assigned as soon as the row is inserted. */
  method PostFailure(tx: Tx, req: TransferRequest, reason: Reason, id: TxId)
    returns (ok: bool, failed: Option<TxId>)
    modifies tx
    ensures failed == if old(tx.budget) >= 1 && Insertable(old(tx.View()), FailureRow(req, reason), id)
                      then Some(id) else None
    ensures ok <==> old(tx.budget) >= 2 && Insertable(old(tx.View()), FailureRow(req, reason), id)
    ensures ok ==> tx.View() == Apply(old(tx.View()), FailureRecorded(req, reason, id))
                   && tx.budget == old(tx.budget) - 2
                   && tx.txs == old(tx.txs)[id := TxRow(Transfer, Failed, req.reference, None, Some(reason))]
  {
    failed := None;
    var created := tx.Create(FailureRow(req, reason), id);
    if created.Err? {
      return false, failed;
    }
    failed := Some(created.value);
    var accountIds := [];
    if req.from != 0 {
      accountIds := accountIds + [req.from];
    }
    if req.to != 0 {
      accountIds := accountIds + [req.to];
    }
    assert accountIds == NamedAccounts(req);
    var err := tx.InsertAudit(AuditRow(Transfer, created.value, accountIds, Rnd(req.amount), Failure, Some(reason)));
    ok := err.None?;
  }

  /** The first reads of `Reverse`: the original under its lock, then its ledger rows. */
  method FindOriginal(tx: Tx, orig: TxId, ghost id: TxId) returns (r: Result<Posting, ReverseError>)
    modifies tx`budget
    ensures r.Err? ==> ReverseAnswer(tx.View(), orig, id, 1 + old(tx.budget), tx.cause) == Some(AnswerOfError(r.error))
    ensures r.Ok? ==>
              && Accepting(tx.View(), orig) && r.value == Decode(EntriesOf(tx.ledger, orig)) && r.value.amount != 0
              && tx.budget == old(tx.budget) - 2
  {
    var row := tx.TxForUpdate(orig);
    if row.Err? {
      return Err(if row.error.kind == NoRows then Decided(NotFound) else Plain(row.error.text));
    }
    if row.value.typ != Transfer {
      return Err(Decided(InvalidType));
    }
    if row.value.status != Completed {
      return Err(Decided(InvalidStatus(row.value.status)));
    }
    var entries := tx.ListByTransaction(orig);
    if entries.Err? {
      return Err(Plain(Phrased("fetch original entries:", entries.error.text)));
    }
    var p := DecodeEntries(entries.value);
    if p.amount == 0 {
      NothingPostedTellsNothing();
      return Err(Plain(NOTHING_POSTED));
    }
    return Ok(p);
  }

  /** The answers of a reversal that ends at its account locks or at the check after them. */
  lemma LockingAnswers(db: DB, orig: TxId, id: TxId, p: Posting, budget: nat, cause: string)
    requires Accepting(db, orig) && p == Decode(EntriesOf(db.ledger, orig)) && p.amount != 0
    ensures var first, second := Lesser(p.from, p.to), Greater(p.from, p.to);
            var answer := ReverseAnswer(db, orig, id, budget, cause);
            && (budget == 3 ==> answer == Some(AnswerTo(ErrorText(LockAccount(first), cause))))
            && (budget > 3 && first !in db.accounts ==>
                  answer == Some(AnswerTo(ErrorText(LockAccount(first), NO_ROWS))))
            && (budget == 4 && first in db.accounts ==>
                  answer == Some(AnswerTo(ErrorText(LockAccount(second), cause))))
            && (budget > 4 && first in db.accounts && second !in db.accounts ==>
                  answer == Some(AnswerTo(ErrorText(LockAccount(second), NO_ROWS))))
            && (budget > 4 && first in db.accounts && second in db.accounts ==>
                  !CoversReversal(db.accounts[p.to], p.amount) ==> answer == Some(InsufficientForReversal))
  {
    var rs := Requests(orig, p);
    assert rs[3] == LockAccount(Lesser(p.from, p.to)) && rs[4] == LockAccount(Greater(p.from, p.to));
  }

  /** Both accounts under their locks, in ascending order, and the check of the destination. */
  method LockPair(tx: Tx, orig: TxId, p: Posting, ghost id: TxId) returns (err: Option<ReverseError>)
    requires Accepting(tx.View(), orig) && p == Decode(EntriesOf(tx.ledger, orig)) && p.amount != 0
    modifies tx`budget
    ensures err.Some? ==>
              ReverseAnswer(tx.View(), orig, id, 3 + old(tx.budget), tx.cause) == Some(AnswerOfError(err.value))
    ensures err.None? ==> ReverseCheck(tx.View(), orig) == Ok(p) && tx.budget == old(tx.budget) - 2
  {
    LockingAnswers(tx.View(), orig, id, p, 3 + tx.budget, tx.cause);
    var firstId, secondId := p.from, p.to;
    if firstId > secondId {
      firstId, secondId := secondId, firstId;
    }
    var first := tx.AccountForUpdate(firstId);
    if first.Err? {
      return Some(Plain(LockText(firstId, first.error.text)));
    }
    var second := tx.AccountForUpdate(secondId);
    if second.Err? {
      return Some(Plain(LockText(secondId, second.error.text)));
    }
    var to := second.value;
    if firstId != p.from {
      to := first.value;
    }
    if to.balance - p.amount < to.floor {
      return Some(Decided(InsufficientForReversal));
    }
    return None;
  }

  function Exchanged(accounts: map<AccountId, Account>, p: Posting): (r: map<AccountId, Account>) {
    AddToBalance(AddToBalance(accounts, p.from, p.amount as real), p.to, -(p.amount as real))
  }

  /** The answers of a reversal that ends at its balance updates or at its insert. */
  lemma MovingAnswers(db: DB, orig: TxId, id: TxId, p: Posting, budget: nat, cause: string)
    requires ReverseCheck(db, orig) == Ok(p)
    ensures var answer := ReverseAnswer(db, orig, id, budget, cause);
            && (budget == 5 ==> answer == Some(AnswerTo(ErrorText(UpdateAccount(p.from), cause))))
            && (budget == 6 ==> answer == Some(AnswerTo(ErrorText(UpdateAccount(p.to), cause))))
            && (budget == 7 ==> answer == Some(AnswerTo(ErrorText(CreateTransaction, cause))))
            && (budget > 7 && !Insertable(db, ReversalRow(orig), id) ==> answer == Some(AlreadyReversed))
  {
    var rs := Requests(orig, p);
    assert rs[5] == UpdateAccount(p.from) && rs[6] == UpdateAccount(p.to) && rs[7] == CreateTransaction;
  }

  /** The two balance updates of `Reverse` and its new row. */
  method MoveBack(tx: Tx, orig: TxId, p: Posting, id: TxId) returns (err: Option<ReverseError>)
    requires ReverseCheck(tx.View(), orig) == Ok(p)
    modifies tx`accounts, tx`txs, tx`budget
    ensures err.Some? ==>
              ReverseAnswer(old(tx.View()), orig, id, 5 + old(tx.budget), tx.cause) == Some(AnswerOfError(err.value))
    ensures err.None? ==>
              && Insertable(old(tx.View()), ReversalRow(orig), id)
              && tx.accounts == Exchanged(old(tx.accounts), p)
              && tx.txs == old(tx.txs)[id := ReversalRow(orig)]
              && tx.budget == old(tx.budget) - 3
  {
    MovingAnswers(tx.View(), orig, id, p, 5 + tx.budget, tx.cause);
    var err1 := tx.UpdateBalance(p.from, p.amount as real);
    if err1.Some? {
      return Some(Plain(err1.value.text));
    }
    var err2 := tx.UpdateBalance(p.to, -(p.amount as real));
    if err2.Some? {
      return Some(Plain(err2.value.text));
    }
    var created := tx.Create(ReversalRow(orig), id);
    if created.Err? {
      if created.error.kind == UniqueViolation {
        DuplicateKeyTells("transactions_pkey");
        DuplicateKeyTells("transactions_reversal_of_id_key");
      }
      return Some(Plain(Phrased("create reversal transaction:", created.error.text)));
    }
    return None;
  }

  /** The answers of a reversal that the driver ends after its insert. */
  lemma MirroringAnswers(db: DB, orig: TxId, id: TxId, p: Posting, budget: nat, cause: string)
    requires Legal(db, Undone(orig, id)) && ReverseCheck(db, orig) == Ok(p)
    ensures var answer := ReverseAnswer(db, orig, id, budget, cause);
            && (budget == 8 || budget == 9 ==> answer == Some(AnswerTo(ErrorText(InsertLedger, cause))))
            && (budget == 10 ==> answer == Some(AnswerTo(ErrorText(MarkTransaction(orig), cause))))
            && (budget == 11 ==> answer == Some(AnswerTo(ErrorText(InsertLog, cause))))
            && (budget == 12 ==> answer == Some(AnswerTo(ErrorText(CommitTx, cause))))
            && (budget > 12 ==> answer == None)
    ensures Apply(db, Undone(orig, id)) ==
            DB(Exchanged(db.accounts, p), MarkReversed(db.txs[id := ReversalRow(orig)], orig),
               db.ledger + Pair(id, p.to, p.from, p.amount), db.audit + [ReversalAudit(p, id)])
  {
    var rs := Requests(orig, p);
    assert rs[8] == rs[9] == InsertLedger && rs[10] == MarkTransaction(orig);
    assert rs[11] == InsertLog && rs[12] == CommitTx;
  }

  /** What is left after the insert: the mirrored rows, the status of the original, the audit row. */
  method MirrorRows(tx: Tx, orig: TxId, p: Posting, id: TxId, ghost db: DB)
    returns (r: Result<seq<Draft>, ReverseError>)
    requires Legal(db, Undone(orig, id)) && ReverseCheck(db, orig) == Ok(p)
    requires tx.accounts == Exchanged(db.accounts, p) && tx.txs == db.txs[id := ReversalRow(orig)]
    requires tx.ledger == db.ledger && tx.audit == db.audit
    modifies tx
    ensures r.Err? ==>
              ReverseAnswer(db, orig, id, 8 + old(tx.budget), tx.cause) == Some(AnswerOfError(r.error))
    ensures r.Ok? ==>
              && tx.View() == Apply(db, Undone(orig, id)) && tx.budget == old(tx.budget) - 4
              && r.value == [Draft(id, p.to, p.amount as real, 0.0), Draft(id, p.from, 0.0, p.amount as real)]
  {
    MirroringAnswers(db, orig, id, p, 8 + tx.budget, tx.cause);
    assert p.amount >= 0 by { DecodeFindsRows(EntriesOf(db.ledger, orig)); }
    RndWhole(p.amount);
    var debit := Draft(id, p.to, p.amount as real, 0.0);
    var credit := Draft(id, p.from, 0.0, p.amount as real);
    var err := InsertPair(tx, debit, credit);
    if err.Some? {
      return Err(Plain(err.value.text));
    }
    err := tx.SetReversed(orig);
    if err.Some? {
      return Err(Plain(err.value.text));
    }
    err := tx.InsertAudit(ReversalAudit(p, id));
    if err.Some? {
      return Err(Plain(err.value.text));
    }
    r := Ok([debit, credit]);
  }

  /** The callback of `Reverse`. */
  method PostReversal(tx: Tx, orig: TxId, id: TxId) returns (r: Result<seq<Draft>, ReverseError>)
    modifies tx
    ensures r.Err? ==>
              ReverseAnswer(old(tx.View()), orig, id, 1 + old(tx.budget), tx.cause) == Some(AnswerOfError(r.error))
    ensures r.Ok? ==>
              && Legal(old(tx.View()), Undone(orig, id))
              && tx.View() == Apply(old(tx.View()), Undone(orig, id))
              && tx.budget == old(tx.budget) - 11
              && var p := Decode(EntriesOf(old(tx.ledger), orig));
                 r.value == [Draft(id, p.to, p.amount as real, 0.0), Draft(id, p.from, 0.0, p.amount as real)]
  {
    ghost var db := tx.View();
    var found := FindOriginal(tx, orig, id);
    if found.Err? {
      return Err(found.error);
    }
    var p := found.value;
    var err := LockPair(tx, orig, p, id);
    if err.Some? {
      return Err(err.value);
    }
    err := MoveBack(tx, orig, p, id);
    if err.Some? {
      return Err(err.value);
    }
    r := MirrorRows(tx, orig, p, id, db);
  }

  /** Why an account is not created: the first two before the database is asked. */
  datatype OpenError = MissingFields | NegativeOpening | OpenFailed

  /** What a `CHAR(3)` column stores: shorter values are padded, longer ones lose trailing blanks, and
      anything else is an error. */
  function Char3(s: string): (r: Option<string>)
    ensures r.None? <==> exists i :: 3 <= i < |s| && s[i] != ' '
    ensures r.Some? ==> |r.value| == 3
    ensures r.Some? ==> forall i :: 0 <= i < 3 ==> r.value[i] == if i < |s| then s[i] else ' '
  {
    if |s| <= 3 then Some((s + "   ")[..3])
    else if forall i :: 3 <= i < |s| ==> s[i] == ' ' then Some(s[..3])
    else None
  }

  lemma BeginningAnswer(db: DB, orig: TxId, id: TxId, cause: string)
    ensures ReverseAnswer(db, orig, id, 0, cause) == Some(AnswerTo(StoreText(BeginTx, cause)))
  {
  }

  /** The answers that the original's row alone decides. */
  lemma RowAnswers(db: DB, orig: TxId, id: TxId, budget: nat, cause: string)
    ensures var answer := ReverseAnswer(db, orig, id, budget, cause);
            && (answer == Some(NotFound) <==> orig !in db.txs && budget >= 2)
            && (answer == Some(InvalidType) <==> orig in db.txs && db.txs[orig].typ != Transfer && budget >= 2)
            && forall s :: answer == Some(InvalidStatus(s)) <==>
                 orig in db.txs && db.txs[orig].typ == Transfer && db.txs[orig].status == s != Completed && budget >= 2
  {
  }

  /** The database and the three entry points. */
  class Bank {
    var accounts: map<AccountId, Account>
    var txs: map<TxId, TxRow>
    var ledger: seq<Entry>
    var audit: seq<AuditRow>
    /** No account number from here on has been assigned. */
    var nextAccount: AccountId
    const customers: set<int>
    const defaultCurrency: string

    function Committed(): DB
      reads this
    {
      DB(accounts, txs, ledger, audit)
    }

    /** The sequence is ahead of every account number. */
    predicate Numbering()
      reads this
    {
      forall a :: a in accounts ==> a < nextAccount
    }

    constructor (seeded: map<AccountId, Account>, nextAccount: AccountId, customers: set<int>, defaultCurrency: string)
      requires forall a :: a in seeded ==> a < nextAccount
      ensures Committed() == DB(seeded, map[], [], []) && Numbering()
      ensures (forall a :: a in seeded ==> seeded[a].balance >= seeded[a].floor) <==> Seeded(Committed())
      ensures this.customers == customers && this.defaultCurrency == defaultCurrency
    {
      accounts, txs, ledger, audit := seeded, map[], [], [];
      this.customers, this.defaultCurrency := customers, defaultCurrency;
      this.nextAccount := nextAccount;
    }

    method Begin(budget: nat, cause: string) returns (r: Result<Tx, DbError>)
      ensures budget == 0 ==> r == Err(DbError(Dropped, StoreText(BeginTx, cause)))
      ensures budget > 0 ==> r.Ok? && fresh(r.value) && r.value.View() == Committed()
                             && r.value.budget == budget - 1 && r.value.cause == cause
    {
      if budget == 0 {
        return Err(DbError(Dropped, StoreText(BeginTx, cause)));
      }
      var tx := new Tx(DB(accounts, txs, ledger, audit), budget - 1, cause);
      return Ok(tx);
    }

    method Commit(tx: Tx) returns (err: Option<DbError>)
      modifies `accounts, `txs, `ledger, `audit, tx`budget
      ensures err == if old(tx.budget) > 0 then None else Some(DbError(Dropped, StoreText(CommitTx, tx.cause)))
      ensures Committed() == if err == None then old(tx.View()) else old(Committed())
    {
      var ok := tx.Send();
      if !ok {
        return Some(DbError(Dropped, StoreText(CommitTx, tx.cause)));
      }
      accounts, txs, ledger, audit := tx.accounts, tx.txs, tx.ledger, tx.audit;
      return None;
    }

    /** The account handler and its store.  `skipped` numbers of the sequence were lost to inserts that
        failed before. */
    method CreateAccount(customer: int, currency: string, initial: real, skipped: nat, budget: nat)
      returns (r: Result<AccountId, OpenError>)
      requires Numbering()
      modifies `accounts, `nextAccount
      ensures Numbering()
      ensures r.Err? && r.error == MissingFields <==> customer == 0
      ensures r.Err? && r.error == NegativeOpening <==> customer != 0 && initial < 0.0
      ensures var code := if currency == "" then defaultCurrency else currency;
              && (r.Ok? <==> && customer != 0 && initial >= 0.0 && budget > 0 && customer in customers
                             && (forall i :: 3 <= i < |code| ==> code[i] == ' ')
                             && Rnd(initial) < 1_000_000_000_000_000)
              && (r.Ok? ==> && r.value == old(nextAccount) + skipped && r.value !in old(accounts) && r.value in accounts
                            && accounts == old(accounts)[r.value := accounts[r.value]]
                            && accounts[r.value].status == Active && accounts[r.value].floor == 0
                            && IsNearest(initial, accounts[r.value].balance)
                            && |accounts[r.value].currency| == 3
                            && (|code| == 3 ==> accounts[r.value].currency == code)
                            && forall i :: 0 <= i < 3 ==>
                                 accounts[r.value].currency[i] == if i < |code| then code[i] else ' ')
      ensures r.Ok? ==> var ev := Opened(r.value, accounts[r.value].currency, initial);
                        Legal(old(Committed()), ev) && Committed() == Apply(old(Committed()), ev)
      ensures r.Err? ==> Committed() == old(Committed())
    {
      if customer == 0 {
        return Err(MissingFields);
      }
      var code := currency;
      if code == "" {
        code := defaultCurrency;
      }
      if initial < 0.0 {
        return Err(NegativeOpening);
      }
      if budget == 0 || customer !in customers || Char3(code).None? || Rnd(initial) >= 1_000_000_000_000_000 {
        return Err(OpenFailed);
      }
      var id := nextAccount + skipped;
      accounts := accounts[id := Account(Char3(code).value, Rnd(initial), 0, Active)];
      nextAccount := id + 1;
      return Ok(id);
    }

    /** A transfer either posts everything or, on any error, nothing but at most the record of its
        failure, under the reason that was found.  When no request fails it leaves a trace, posted or
        refused, exactly when its reference was free. */
    method Transfer(req: TransferRequest, id: TxId, failedId: TxId, budget: nat, recordBudget: nat, cause: string)
      returns (r: TransferResult)
      modifies `accounts, `txs, `ledger, `audit
      ensures old(Numbering()) ==> Numbering()
      ensures r.Posted? ==>
                && Legal(old(Committed()), Transferred(req, id))
                && Committed() == Apply(old(Committed()), Transferred(req, id))
                && r == Posted(id, [Draft(id, req.from, req.amount, 0.0), Draft(id, req.to, 0.0, req.amount)])
      ensures r.Posted? ==>
                && req.from in old(accounts) && req.to in old(accounts)
                && var from, to := old(accounts)[req.from], old(accounts)[req.to];
                   && from.status == Active && to.status == Active && from.currency == to.currency
                   && from.balance as real - req.amount >= from.floor as real
                   && ledger == old(ledger) + [Entry(id, req.from, Rnd(req.amount), 0),
                                               Entry(id, req.to, 0, Rnd(req.amount))]
      ensures r.Rejected? ==>
                && Validate(old(Committed()), req) == Some(r.reason)
                && var ev := FailureRecorded(req, r.reason, failedId);
                   Committed() == if recordBudget >= 4 && Legal(old(Committed()), ev)
                                  then Apply(old(Committed()), ev) else old(Committed())
      ensures r.Rejected? ==>
                && (r.failed.Some? ==> r.failed == Some(failedId))
                && (r.failed.Some? <==> recordBudget >= 2
                                        && Legal(old(Committed()), FailureRecorded(req, r.reason, failedId)))
                && (recordBudget >= 4 && Legal(old(Committed()), FailureRecorded(req, r.reason, failedId)) ==>
                      txs == old(txs)[failedId := TxRow(TxType.Transfer, Failed, req.reference, None, Some(r.reason))])
      ensures r.TransferBroken? ==> Committed() == old(Committed())
      ensures r.Posted? <==> Legal(old(Committed()), Transferred(req, id)) && budget >= 10
      ensures r.Rejected? <==>
              match Validate(old(Committed()), req)
              case None => false
              case Some(InvalidAmount) => true
              case Some(SameAccount) => true
              case Some(AccountNotFound(a)) => budget >= if a < req.from || a < req.to then 2 else 3
              case Some(_) => budget >= 3
      ensures budget >= 10 && recordBudget >= 4 ==>
                Committed() == match TransferCommits(old(Committed()), req, id, failedId)
                               case Some(ev) => Apply(old(Committed()), ev)
                               case None => old(Committed())
    {
      if req.amount <= 0.0 {
        r := RecordFailure(req, InvalidAmount, failedId, recordBudget, cause);
        return;
      }
      if req.from == req.to {
        r := RecordFailure(req, SameAccount, failedId, recordBudget, cause);
        return;
      }
      var begun := Begin(budget, cause);
      if begun.Err? {
        return TransferBroken;
      }
      var posted := PostTransfer(begun.value, req, id);
      if posted.Ok? {
        var err := Commit(begun.value);
        r := if err == None then Posted(id, posted.value) else TransferBroken;
      } else if posted.error.Invalid? {
        r := RecordFailure(req, posted.error.reason, failedId, recordBudget, cause);
      } else {
        r := TransferBroken;
      }
    }

    /** Errors are swallowed, so the returned row exists exactly when two more statements, the audit
        insert and COMMIT, went through after it was inserted. */
    method RecordFailure(req: TransferRequest, reason: Reason, id: TxId, budget: nat, cause: string)
      returns (r: TransferResult)
      modifies `accounts, `txs, `ledger, `audit
      ensures accounts == old(accounts)
      ensures var ev := FailureRecorded(req, reason, id);
              && r == Rejected(reason, if budget >= 2 && Legal(old(Committed()), ev) then Some(id) else None)
              && Committed() == if budget >= 4 && Legal(old(Committed()), ev)
                                then Apply(old(Committed()), ev) else old(Committed())
      ensures budget >= 4 && Legal(old(Committed()), FailureRecorded(req, reason, id)) ==>
                txs == old(txs)[id := TxRow(TxType.Transfer, Failed, req.reference, None, Some(reason))]
    {
      var begun := Begin(budget, cause);
      if begun.Err? {
        return Rejected(reason, None);
      }
      var posted, failed := PostFailure(begun.value, req, reason, id);
      if posted {
        var err := Commit(begun.value);
      }
      r := Rejected(reason, failed);
    }

    /** A reversal either undoes its transfer or leaves every table, the audit log included, as it
        was; and its answer is determined by the request at which the driver fails, if it does. */
    method Reverse(orig: TxId, id: TxId, budget: nat, cause: string) returns (r: ReverseResult)
      modifies `accounts, `txs, `ledger, `audit
      ensures old(Numbering()) ==> Numbering()
      ensures match ReverseAnswer(old(Committed()), orig, id, budget, cause)
              case Some(refusal) => r == Refused(refusal) && Committed() == old(Committed())
              case None =>
                && Legal(old(Committed()), Undone(orig, id))
                && Committed() == Apply(old(Committed()), Undone(orig, id))
                && var p := Decode(EntriesOf(old(ledger), orig));
                   r == Reverted(id, [Draft(id, p.to, p.amount as real, 0.0), Draft(id, p.from, 0.0, p.amount as real)])
      ensures r == Refused(NotFound) <==> orig !in old(txs) && budget >= 2
      ensures r == Refused(InvalidType) <==> orig in old(txs) && old(txs)[orig].typ != TxType.Transfer && budget >= 2
      ensures forall s :: r == Refused(InvalidStatus(s)) <==>
                && orig in old(txs) && old(txs)[orig].typ == TxType.Transfer && old(txs)[orig].status == s != Completed
                && budget >= 2
      ensures r.Reverted? ==>
                && |r.entries| == 2
                && ledger == old(ledger) + [Entry(id, r.entries[0].account, Rnd(r.entries[0].debit), 0),
                                            Entry(id, r.entries[1].account, 0, Rnd(r.entries[1].credit))]
    {
      RowAnswers(Committed(), orig, id, budget, cause);
      var begun := Begin(budget, cause);
      if begun.Err? {
        BeginningAnswer(Committed(), orig, id, cause);
        r := Answered(Plain(begun.error.text));
        return;
      }
      var posted := PostReversal(begun.value, orig, id);
      if posted.Err? {
        r := Answered(posted.error);
        return;
      }
      RndWhole(Decode(EntriesOf(ledger, orig)).amount);
      MirroringAnswers(Committed(), orig, id, Decode(EntriesOf(ledger, orig)), budget, cause);
      var err := Commit(begun.value);
      if err.Some? {
        r := Answered(Plain(err.value.text));
        return;
      }
      r := Reverted(id, posted.value);
    }

    /** An error of its own is answered as it is; any other is searched for the signs of a unique
        violation. */
    method Answered(e: ReverseError) returns (r: ReverseResult)
      ensures r == Refused(AnswerOfError(e))
    {
      match e
      case Decided(refusal) => r := Refused(refusal);
      case Plain(text) =>
        var violation := IsUniqueViolation(text);
        r := Refused(if violation then AlreadyReversed else Internal);
    }
  }
}
