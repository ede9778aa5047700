/** What each database transaction of the service does when it runs alone, as a function on the
    committed database.  `Services` proves the imperative code against it, and `Serializability`
    proves every interleaved run equal to some sequence of these. */
module Spec {
  import opened Money
  import opened Schema
  import opened Decoding
  import opened Errors

  function Lesser(a: int, b: int): (r: int) { if a > b then b else a }

  function Greater(a: int, b: int): (r: int) { if a > b then a else b }

  /** The checks of `Transfer` on the two locked accounts, in their order. */
  function Ladder(from: Account, to: Account, amount: real): (r: Option<Reason>) {
    if from.status != Active then Some(SourceNotActive)
    else if to.status != Active then Some(DestinationNotActive)
    else if from.currency != to.currency then Some(CurrencyMismatch)
    else if from.balance as real - amount < from.floor as real then Some(InsufficientFunds)
    else None
  }

  /** Why a transfer is refused on `db`, if it is. */
  function Validate(db: DB, req: TransferRequest): (r: Option<Reason>) {
    var first, second := Lesser(req.from, req.to), Greater(req.from, req.to);
    if req.amount <= 0.0 then Some(InvalidAmount)
    else if req.from == req.to then Some(SameAccount)
    else if first !in db.accounts then Some(AccountNotFound(first))
    else if second !in db.accounts then Some(AccountNotFound(second))
    else Ladder(db.accounts[req.from], db.accounts[req.to], req.amount)
  }

  predicate CoversReversal(to: Account, amount: int) {
    to.balance - amount >= to.floor
  }

  /** `Reverse` accepts the type and status of `orig`. */
  predicate Accepting(db: DB, orig: TxId) {
    orig in db.txs && db.txs[orig].typ == Transfer && db.txs[orig].status == Completed
  }

  /** What `Reverse` decides about `orig` on `db`: the movement to undo, or why not. */
  function ReverseCheck(db: DB, orig: TxId): (r: Result<Posting, Refusal>) {
    if orig !in db.txs then Err(NotFound)
    else if db.txs[orig].typ != Transfer then Err(InvalidType)
    else if db.txs[orig].status != Completed then Err(InvalidStatus(db.txs[orig].status))
    else
      var p := Decode(EntriesOf(db.ledger, orig));
      var first, second := Lesser(p.from, p.to), Greater(p.from, p.to);
      if p.amount == 0 then Err(Internal)
      else if first !in db.accounts then Err(AnswerTo(ErrorText(LockAccount(first), NO_ROWS)))
      else if second !in db.accounts then Err(AnswerTo(ErrorText(LockAccount(second), NO_ROWS)))
      else if !CoversReversal(db.accounts[p.to], p.amount) then Err(InsufficientForReversal)
      else Ok(p)
  }

  function WithBalance(accounts: map<AccountId, Account>, id: AccountId, balance: int)
    : (r: map<AccountId, Account>)
    requires id in accounts
  {
    accounts[id := accounts[id].(balance := balance)]
  }

  /** `UPDATE accounts SET balance = balance + delta`: relative, rounded on store. */
  function AddToBalance(accounts: map<AccountId, Account>, id: AccountId, delta: real)
    : (r: map<AccountId, Account>)
  {
    if id in accounts then WithBalance(accounts, id, Rnd(accounts[id].balance as real + delta)) else accounts
  }

  /** The account ids a failure is audited under: zero means that none was given. */
  function NamedAccounts(req: TransferRequest): (ids: seq<AccountId>) {
    (if req.from != 0 then [req.from] else []) + if req.to != 0 then [req.to] else []
  }

  /** A committed database transaction; `id` is the row it adds. */
  datatype Event =
    | Opened(account: AccountId, currency: string, initial: real)
    | Transferred(req: TransferRequest, id: TxId)
    | Undone(orig: TxId, id: TxId)
    | FailureRecorded(req: TransferRequest, reason: Reason, id: TxId)

  function TransferRow(req: TransferRequest): TxRow {
    TxRow(Transfer, Completed, req.reference, None, None)
  }

  function ReversalRow(orig: TxId): TxRow {
    TxRow(Reversal, Completed, None, Some(orig), None)
  }

  function FailureRow(req: TransferRequest, reason: Reason): TxRow {
    TxRow(Transfer, Failed, req.reference, None, Some(reason))
  }

  function TransferAudit(req: TransferRequest, id: TxId): AuditRow {
    AuditRow(Transfer, id, [req.from, req.to], Rnd(req.amount), Success, None)
  }

  function ReversalAudit(p: Posting, id: TxId): AuditRow {
    AuditRow(Reversal, id, [p.from, p.to], p.amount, Success, None)
  }

  function FailureAudit(req: TransferRequest, reason: Reason, id: TxId): AuditRow {
    AuditRow(Transfer, id, NamedAccounts(req), Rnd(req.amount), Failure, Some(reason))
  }

  function MarkReversed(txs: map<TxId, TxRow>, id: TxId): (r: map<TxId, TxRow>) {
    if id in txs then txs[id := txs[id].(status := Reversed)] else txs
  }

  /** The committed database after `ev`. */
  function Apply(db: DB, ev: Event): (r: DB) {
    match ev
    case Opened(a, currency, initial) =>
      db.(accounts := db.accounts[a := Account(currency, Rnd(initial), 0, Active)])
    case Transferred(req, id) =>
      DB(AddToBalance(AddToBalance(db.accounts, req.from, -req.amount), req.to, req.amount),
         db.txs[id := TransferRow(req)],
         db.ledger + Pair(id, req.from, req.to, Rnd(req.amount)),
         db.audit + [TransferAudit(req, id)])
    case Undone(orig, id) =>
      var p := Decode(EntriesOf(db.ledger, orig));
      DB(AddToBalance(AddToBalance(db.accounts, p.from, p.amount as real), p.to, -(p.amount as real)),
         MarkReversed(db.txs[id := ReversalRow(orig)], orig),
         db.ledger + Pair(id, p.to, p.from, p.amount),
         db.audit + [ReversalAudit(p, id)])
    case FailureRecorded(req, reason, id) =>
      db.(txs := db.txs[id := FailureRow(req, reason)],
          audit := db.audit + [FailureAudit(req, reason, id)])
  }

  /** No committed row carries this reference: the UNIQUE constraint, which ignores NULL. */
  predicate ReferenceFree(db: DB, reference: Option<string>) {
    reference.Some? ==> forall id :: id in db.txs ==> db.txs[id].reference != reference
  }

  predicate ReversalFree(db: DB, orig: Option<TxId>) {
    orig.Some? ==> forall id :: id in db.txs ==> db.txs[id].reversalOf != orig
  }

  /** Inserting `row` under `id` violates no constraint. */
  predicate Insertable(db: DB, row: TxRow, id: TxId) {
    id !in db.txs && ReferenceFree(db, row.reference) && ReversalFree(db, row.reversalOf)
  }

  /** The database transaction `ev`, run alone on `db`, commits. */
  predicate Legal(db: DB, ev: Event) {
    match ev
    case Opened(a, _, initial) => a !in db.accounts && initial >= 0.0
    case Transferred(req, id) => Validate(db, req) == None && Insertable(db, TransferRow(req), id)
    case Undone(orig, id) => ReverseCheck(db, orig).Ok? && Insertable(db, ReversalRow(orig), id)
    case FailureRecorded(req, reason, id) => Insertable(db, FailureRow(req, reason), id)
  }

  /** The requests of `Reverse`, from BEGIN to COMMIT, when it undoes `p`. */
  function Requests(orig: TxId, p: Posting): (rs: seq<Request>)
    ensures |rs| == 13
  {
    [BeginTx, LockTransaction(orig), ListEntries, LockAccount(Lesser(p.from, p.to)), LockAccount(Greater(p.from, p.to)),
     UpdateAccount(p.from), UpdateAccount(p.to), CreateTransaction, InsertLedger, InsertLedger,
     MarkTransaction(orig), InsertLog, CommitTx]
  }

  /** How many of them `Reverse` makes on `db` if none fails. */
  function Reached(db: DB, orig: TxId, id: TxId): (n: nat)
    ensures n <= 13
  {
    var p := Decode(EntriesOf(db.ledger, orig));
    if !Accepting(db, orig) then 2
    else if p.amount == 0 then 3
    else if Lesser(p.from, p.to) !in db.accounts then 4
    else if Greater(p.from, p.to) !in db.accounts || !CoversReversal(db.accounts[p.to], p.amount) then 5
    else if !Insertable(db, ReversalRow(orig), id) then 8
    else 13
  }

  /** What `Reverse` answers on `db` when the driver fails with `cause` after `budget` requests; `None` is
      success. */
  function ReverseAnswer(db: DB, orig: TxId, id: TxId, budget: nat, cause: string): (r: Option<Refusal>) {
    if budget < Reached(db, orig, id) then
      Some(AnswerTo(ErrorText(Requests(orig, Decode(EntriesOf(db.ledger, orig)))[budget], cause)))
    else
      match ReverseCheck(db, orig)
      case Err(refusal) => Some(refusal)
      case Ok(_) => if Insertable(db, ReversalRow(orig), id) then None else Some(AlreadyReversed)
  }

  /** What `Transfer` commits on `db` when no request fails, given an id for each row it may add. */
  function TransferCommits(db: DB, req: TransferRequest, id: TxId, failedId: TxId): (r: Option<Event>) {
    var ev := match Validate(db, req)
              case None => Transferred(req, id)
              case Some(reason) => FailureRecorded(req, reason, failedId);
    if Legal(db, ev) then Some(ev) else None
  }

  function Replay(init: DB, evs: seq<Event>): (r: DB) {
    if evs == [] then init
    else Apply(Replay(init, evs[..|evs| - 1]), evs[|evs| - 1])
  }

  /** Each event of `evs`, in turn, commits on what the ones before it left. */
  predicate LegalHistory(init: DB, evs: seq<Event>) {
    evs == [] ||
    (LegalHistory(init, evs[..|evs| - 1]) && Legal(Replay(init, evs[..|evs| - 1]), evs[|evs| - 1]))
  }

  /** The database before the first call: accounts as seeded, no transaction yet. */
  predicate Seeded(db: DB) {
    && db.txs == map[] && db.ledger == [] && db.audit == []
    && forall a :: a in db.accounts ==> db.accounts[a].balance >= db.accounts[a].floor
  }
}
