/** Any number of calls in flight on one database at the default isolation level, as a state machine
    whose steps interleave arbitrarily.

    Taken as given about the database: a row lock or an inserted unique key is held until its
    transaction ends, a locking read sees the latest committed row, a plain read sees committed rows
    and the reader's own, an insert that collides with an uncommitted key waits, and an aborted
    transaction leaves nothing. */
module Sessions {
  import opened Money
  import opened Schema
  import opened Decoding
  import opened Errors
  import opened Spec

  type Sid = nat

  const MAX_CONNS: nat := 200

  datatype Op = DoTransfer(req: TransferRequest) | DoReverse(orig: TxId)

  /** What a session can hold until its transaction ends. */
  datatype Resource =
    | TransactionRow(tx: TxId)
    | AccountRow(account: AccountId)
    | ReferenceKey(reference: string)
    | ReversalKey(orig: TxId)
    | PrimaryKey(id: TxId)

  /** What a transaction is out to write.  `seen` is how many commits had happened when the reason of a
      failure was found. */
  datatype Job =
    | TransferJob(req: TransferRequest)
    | ReversalJob(orig: TxId, p: Posting)
    | FailureJob(req: TransferRequest, reason: Reason, seen: nat)

  datatype Answer = Succeeded(id: TxId) | RejectedWith(reason: Reason) | RefusedWith(refusal: Refusal) | Broken

  /** Where a call stands; accounts are carried as they were read under their locks. */
  datatype Phase =
    | Arrived
    | AwaitConnection
    | LockOriginal(orig: TxId)
    | CheckOriginal(orig: TxId, row: TxRow)
    | ReadEntries(orig: TxId)
    | LockFirst(job: Job)
    | LockSecond(job: Job, first: Account)
    | CheckAccounts(job: Job, first: Account, second: Account)
    | Writing(job: Job, k: nat, id: TxId)
    | AwaitRecording(req: TransferRequest, reason: Reason, seen: nat)
    | Done(answer: Answer)

  /** An uncommitted change, visible to its own session only. */
  datatype Change =
    | SetBalance(account: AccountId, balance: int)
    | AddTx(id: TxId, row: TxRow)
    | SetReversed(tx: TxId)
    | AddEntry(entry: Entry)
    | AddAudit(audit: AuditRow)

  datatype Session = Session(op: Op, phase: Phase, log: seq<Change>)

  datatype Commit = Commit(who: Option<Sid>, event: Event, seen: nat)

  datatype State = State(
    init: DB,
    db: DB,
    sessions: seq<Session>,
    locks: map<Resource, Sid>,
    hist: seq<Commit>
  )

  datatype Label =
    | Run(sid: Sid, newId: TxId)
    | Fail(sid: Sid, cause: string)
    | Arrive(op: Op)
    | Open(account: AccountId, currency: string, initial: real)

  // --- Statements -----------------------------------------------------------------------------------

  datatype Statement =
    | UpdateBalance(account: AccountId, delta: real)
    | Create(row: TxRow)
    | InsertEntry(account: AccountId, debit: real, credit: real)
    | MarkOriginal(orig: TxId)
    | InsertAudit(operation: TxType, accounts: seq<AccountId>, amount: real, outcome: Outcome, reason: Option<Reason>)

  /** The writes of each callback, in order. */
  function Script(job: Job): (s: seq<Statement>) {
    match job
    case TransferJob(req) =>
      [UpdateBalance(req.from, -req.amount), UpdateBalance(req.to, req.amount),
       Create(TransferRow(req)),
       InsertEntry(req.from, req.amount, 0.0), InsertEntry(req.to, 0.0, req.amount),
       InsertAudit(Transfer, [req.from, req.to], req.amount, Success, None)]
    case ReversalJob(orig, p) =>
      [UpdateBalance(p.from, p.amount as real), UpdateBalance(p.to, -(p.amount as real)),
       Create(ReversalRow(orig)),
       InsertEntry(p.to, p.amount as real, 0.0), InsertEntry(p.from, 0.0, p.amount as real),
       MarkOriginal(orig),
       InsertAudit(Reversal, [p.from, p.to], p.amount as real, Success, None)]
    case FailureJob(req, reason, _) =>
      [Create(FailureRow(req, reason)),
       InsertAudit(Transfer, NamedAccounts(req), req.amount, Failure, Some(reason))]
  }

  function ApplyChange(db: DB, c: Change): (r: DB) {
    match c
    case SetBalance(a, balance) =>
      if a in db.accounts then db.(accounts := WithBalance(db.accounts, a, balance)) else db
    case AddTx(id, row) => db.(txs := db.txs[id := row])
    case SetReversed(id) => db.(txs := MarkReversed(db.txs, id))
    case AddEntry(e) => db.(ledger := db.ledger + [e])
    case AddAudit(row) => db.(audit := db.audit + [row])
  }

  /** The committed database as a session with this log sees it. */
  function View(db: DB, log: seq<Change>): (r: DB) {
    if log == [] then db else ApplyChange(View(db, log[..|log| - 1]), log[|log| - 1])
  }

  /** What a statement changes, given what its session sees. */
  function ChangeOf(view: DB, s: Statement, id: TxId): (c: Change) {
    match s
    case UpdateBalance(a, delta) =>
      SetBalance(a, if a in view.accounts then Rnd(view.accounts[a].balance as real + delta) else 0)
    case Create(row) => AddTx(id, row)
    case InsertEntry(a, debit, credit) => AddEntry(Entry(id, a, Rnd(debit), Rnd(credit)))
    case MarkOriginal(orig) => SetReversed(orig)
    case InsertAudit(operation, accounts, amount, outcome, reason) =>
      AddAudit(AuditRow(operation, id, accounts, Rnd(amount), outcome, reason))
  }

  function From(job: Job): AccountId {
    if job.ReversalJob? then job.p.from else job.req.from
  }

  function To(job: Job): AccountId {
    if job.ReversalJob? then job.p.to else job.req.to
  }

  function First(job: Job): AccountId { Lesser(From(job), To(job)) }

  function Second(job: Job): AccountId { Greater(From(job), To(job)) }

  function EventOf(job: Job, id: TxId): (ev: Event) {
    match job
    case TransferJob(req) => Transferred(req, id)
    case ReversalJob(orig, _) => Undone(orig, id)
    case FailureJob(req, reason, _) => FailureRecorded(req, reason, id)
  }

  function AnswerOf(job: Job, id: TxId): (a: Answer) {
    if job.FailureJob? then RejectedWith(job.reason) else Succeeded(id)
  }

  /** The error a unique violation ends in. */
  function ViolationAnswer(job: Job): (a: Answer) {
    match job
    case TransferJob(_) => Broken
    case ReversalJob(_, _) => RefusedWith(AlreadyReversed)
    case FailureJob(_, reason, _) => RejectedWith(reason)
  }

  function RequestOfStatement(s: Statement): (r: Request) {
    match s
    case UpdateBalance(a, _) => UpdateAccount(a)
    case Create(_) => CreateTransaction
    case InsertEntry(_, _, _) => InsertLedger
    case MarkOriginal(orig) => MarkTransaction(orig)
    case InsertAudit(_, _, _, _, _) => InsertLog
  }

  /** What the next step sends to the database; a check sends nothing. */
  function RequestOf(p: Phase): (r: Option<Request>) {
    match p
    case AwaitConnection => Some(BeginTx)
    case AwaitRecording(_, _, _) => Some(BeginTx)
    case LockOriginal(orig) => Some(LockTransaction(orig))
    case ReadEntries(_) => Some(ListEntries)
    case LockFirst(job) => Some(LockAccount(First(job)))
    case LockSecond(job, _) => Some(LockAccount(Second(job)))
    case Writing(job, k, _) => Some(if k < |Script(job)| then RequestOfStatement(Script(job)[k]) else CommitTx)
    case _ => None
  }

  /** The error a driver failure ends in; the one of a recording is swallowed, and the one of a reversal
      is searched for the signs of a unique violation. */
  function FailureAnswer(s: Session, cause: string): (a: Answer)
    requires RequestOf(s.phase).Some?
  {
    if s.phase.AwaitRecording? then RejectedWith(s.phase.reason)
    else if s.phase.Writing? && s.phase.job.FailureJob? then RejectedWith(s.phase.job.reason)
    else if s.op.DoTransfer? then Broken
    else RefusedWith(AnswerTo(ErrorText(RequestOf(s.phase).value, cause)))
  }

  // --- Waiting ---------------------------------------------------------------------------------------

  predicate InTransaction(p: Phase) {
    !p.Arrived? && !p.AwaitConnection? && !p.AwaitRecording? && !p.Done?
  }

  /** The sessions that occupy a connection of the pool. */
  function Connections(st: State): (c: set<Sid>) {
    set i: Sid | i < |st.sessions| && InTransaction(st.sessions[i].phase)
  }

  predicate ConnectionFree(st: State) {
    |Connections(st)| < MAX_CONNS
  }

  function UniqueKey(row: TxRow): (r: Option<Resource>) {
    if row.reference.Some? then Some(ReferenceKey(row.reference.value))
    else if row.reversalOf.Some? then Some(ReversalKey(row.reversalOf.value))
    else None
  }

  predicate Inserting(p: Phase) {
    p.Writing? && p.k < |Script(p.job)| && Script(p.job)[p.k].Create?
  }

  /** The one resource the next step has to get first. */
  function Wants(p: Phase): (r: Option<Resource>) {
    match p
    case LockOriginal(orig) => Some(TransactionRow(orig))
    case LockFirst(job) => Some(AccountRow(First(job)))
    case LockSecond(job, _) => Some(AccountRow(Second(job)))
    case Writing(job, k, _) => if Inserting(p) then UniqueKey(Script(job)[k].row) else None
    case _ => None
  }

  predicate Grantable(st: State, sid: Sid, r: Resource) {
    r in st.locks ==> st.locks[r] == sid
  }

  predicate AwaitsConnection(p: Phase) {
    p.AwaitConnection? || p.AwaitRecording?
  }

  predicate Blocked(st: State, sid: Sid)
    requires sid < |st.sessions|
  {
    var p := st.sessions[sid].phase;
    || (AwaitsConnection(p) && !ConnectionFree(st))
    || (Wants(p).Some? && !Grantable(st, sid, Wants(p).value))
  }

  /** A generated id collides with no row, committed or not. */
  predicate Fresh(st: State, id: TxId) {
    id !in st.db.txs && PrimaryKey(id) !in st.locks
  }

  // --- Steps ------------------------------------------------------------------------------------------

  function Goto(st: State, sid: Sid, p: Phase): State
    requires sid < |st.sessions|
  {
    st.(sessions := st.sessions[sid := st.sessions[sid].(phase := p)])
  }

  function Take(st: State, sid: Sid, r: Resource, p: Phase): State
    requires sid < |st.sessions|
  {
    Goto(st, sid, p).(locks := st.locks[r := sid])
  }

  function Release(locks: map<Resource, Sid>, sid: Sid): (r: map<Resource, Sid>) {
    map r | r in locks && locks[r] != sid :: locks[r]
  }

  /** The transaction is over: its log is dropped and everything it held is free. */
  function Quit(st: State, sid: Sid, p: Phase): State
    requires sid < |st.sessions|
  {
    st.(sessions := st.sessions[sid := Session(st.sessions[sid].op, p, [])], locks := Release(st.locks, sid))
  }

  function Put(st: State, sid: Sid, c: Change, p: Phase): State
    requires sid < |st.sessions|
  {
    var s := st.sessions[sid];
    st.(sessions := st.sessions[sid := Session(s.op, p, s.log + [c])])
  }

  function LockKeys(locks: map<Resource, Sid>, row: TxRow, id: TxId, sid: Sid): (r: map<Resource, Sid>) {
    var claimed := locks[PrimaryKey(id) := sid];
    if UniqueKey(row).Some? then claimed[UniqueKey(row).value := sid] else claimed
  }

  function Reject(st: State, sid: Sid, req: TransferRequest, reason: Reason): State
    requires sid < |st.sessions|
  {
    Quit(st, sid, AwaitRecording(req, reason, |st.hist|))
  }

  function RunArrived(st: State, sid: Sid): State
    requires sid < |st.sessions|
  {
    match st.sessions[sid].op
    case DoTransfer(req) =>
      if req.amount <= 0.0 then Reject(st, sid, req, InvalidAmount)
      else if req.from == req.to then Reject(st, sid, req, SameAccount)
      else Goto(st, sid, AwaitConnection)
    case DoReverse(_) => Goto(st, sid, AwaitConnection)
  }

  function RunBegin(st: State, sid: Sid): State
    requires sid < |st.sessions|
  {
    match st.sessions[sid].op
    case DoTransfer(req) => Goto(st, sid, LockFirst(TransferJob(req)))
    case DoReverse(orig) => Goto(st, sid, LockOriginal(orig))
  }

  function RunLockOriginal(st: State, sid: Sid, orig: TxId): State
    requires sid < |st.sessions|
  {
    if orig !in st.db.txs then Quit(st, sid, Done(RefusedWith(NotFound)))
    else Take(st, sid, TransactionRow(orig), CheckOriginal(orig, st.db.txs[orig]))
  }

  function RunCheckOriginal(st: State, sid: Sid, orig: TxId, row: TxRow): State
    requires sid < |st.sessions|
  {
    if row.typ != Transfer then Quit(st, sid, Done(RefusedWith(InvalidType)))
    else if row.status != Completed then Quit(st, sid, Done(RefusedWith(InvalidStatus(row.status))))
    else Goto(st, sid, ReadEntries(orig))
  }

  /** The ledger is read without a lock. */
  function RunReadEntries(st: State, sid: Sid, orig: TxId): State
    requires sid < |st.sessions|
  {
    var p := Decode(EntriesOf(View(st.db, st.sessions[sid].log).ledger, orig));
    if p.amount == 0 then Quit(st, sid, Done(RefusedWith(Internal)))
    else Goto(st, sid, LockFirst(ReversalJob(orig, p)))
  }

  function Missing(st: State, sid: Sid, job: Job, a: AccountId): State
    requires sid < |st.sessions|
  {
    if job.TransferJob? then Reject(st, sid, job.req, AccountNotFound(a))
    else Quit(st, sid, Done(RefusedWith(AnswerTo(ErrorText(LockAccount(a), NO_ROWS)))))
  }

  function RunLockFirst(st: State, sid: Sid, job: Job): State
    requires sid < |st.sessions|
  {
    var a := First(job);
    if a !in st.db.accounts then Missing(st, sid, job, a)
    else Take(st, sid, AccountRow(a), LockSecond(job, st.db.accounts[a]))
  }

  function RunLockSecond(st: State, sid: Sid, job: Job, first: Account): State
    requires sid < |st.sessions|
  {
    var a := Second(job);
    if a !in st.db.accounts then Missing(st, sid, job, a)
    else Take(st, sid, AccountRow(a), CheckAccounts(job, first, st.db.accounts[a]))
  }

  /** The checks use the rows as they were read. */
  function RunCheckAccounts(st: State, sid: Sid, job: Job, first: Account, second: Account): State
    requires sid < |st.sessions|
  {
    var (from, to) := if First(job) == From(job) then (first, second) else (second, first);
    match job
    case TransferJob(req) =>
      (match Ladder(from, to, req.amount)
       case Some(reason) => Reject(st, sid, req, reason)
       case None => Goto(st, sid, Writing(job, 0, TxId(0))))
    case ReversalJob(_, p) =>
      if !CoversReversal(to, p.amount) then Quit(st, sid, Done(RefusedWith(InsufficientForReversal)))
      else Goto(st, sid, Writing(job, 0, TxId(0)))
    case FailureJob(_, _, _) => Quit(st, sid, Done(Broken))
  }

  /** COMMIT: everything in the log becomes visible at once. */
  function RunCommit(st: State, sid: Sid, job: Job, id: TxId): State
    requires sid < |st.sessions|
  {
    var seen := if job.FailureJob? then job.seen else 0;
    Quit(st, sid, Done(AnswerOf(job, id)))
    .(db := View(st.db, st.sessions[sid].log), hist := st.hist + [Commit(Some(sid), EventOf(job, id), seen)])
  }

  function RunInsert(st: State, sid: Sid, job: Job, k: nat, row: TxRow, newId: TxId): State
    requires sid < |st.sessions|
  {
    var view := View(st.db, st.sessions[sid].log);
    if !Insertable(view, row, newId) then Quit(st, sid, Done(ViolationAnswer(job)))
    else Put(st, sid, ChangeOf(view, Create(row), newId), Writing(job, k + 1, newId))
         .(locks := LockKeys(st.locks, row, newId, sid))
  }

  function RunStatement(st: State, sid: Sid, job: Job, k: nat, id: TxId): State
    requires sid < |st.sessions| && k < |Script(job)|
  {
    Put(st, sid, ChangeOf(View(st.db, st.sessions[sid].log), Script(job)[k], id), Writing(job, k + 1, id))
  }

  function RunWrite(st: State, sid: Sid, job: Job, k: nat, id: TxId, newId: TxId): State
    requires sid < |st.sessions|
  {
    if k >= |Script(job)| then RunCommit(st, sid, job, id)
    else if Script(job)[k].Create? then RunInsert(st, sid, job, k, Script(job)[k].row, newId)
    else RunStatement(st, sid, job, k, id)
  }

  function RunStep(st: State, sid: Sid, newId: TxId): State
    requires sid < |st.sessions|
  {
    match st.sessions[sid].phase
    case Arrived => RunArrived(st, sid)
    case AwaitConnection => RunBegin(st, sid)
    case LockOriginal(orig) => RunLockOriginal(st, sid, orig)
    case CheckOriginal(orig, row) => RunCheckOriginal(st, sid, orig, row)
    case ReadEntries(orig) => RunReadEntries(st, sid, orig)
    case LockFirst(job) => RunLockFirst(st, sid, job)
    case LockSecond(job, first) => RunLockSecond(st, sid, job, first)
    case CheckAccounts(job, first, second) => RunCheckAccounts(st, sid, job, first, second)
    case Writing(job, k, id) => RunWrite(st, sid, job, k, id, newId)
    case AwaitRecording(req, reason, seen) => Goto(st, sid, Writing(FailureJob(req, reason, seen), 0, TxId(0)))
    case Done(_) => st
  }

  predicate Enabled(st: State, l: Label) {
    match l
    case Run(sid, newId) =>
      && sid < |st.sessions| && !st.sessions[sid].phase.Done? && !Blocked(st, sid)
      && (Inserting(st.sessions[sid].phase) ==> Fresh(st, newId))
    case Fail(sid, _) => sid < |st.sessions| && RequestOf(st.sessions[sid].phase).Some?
    case Arrive(_) => true
    case Open(a, currency, initial) => ConnectionFree(st) && Legal(st.db, Opened(a, currency, initial))
  }

  /** An account is created outside the sessions, by one statement on a free connection. */
  function AfterOpening(st: State, ev: Event): State {
    st.(db := Apply(st.db, ev), hist := st.hist + [Commit(None, ev, 0)])
  }

  function AfterArrival(st: State, op: Op): State {
    st.(sessions := st.sessions + [Session(op, Arrived, [])])
  }

  function Next(st: State, l: Label): State
    requires Enabled(st, l)
  {
    match l
    case Run(sid, newId) => RunStep(st, sid, newId)
    case Fail(sid, cause) => Quit(st, sid, Done(FailureAnswer(st.sessions[sid], cause)))
    case Arrive(op) => AfterArrival(st, op)
    case Open(a, currency, initial) => AfterOpening(st, Opened(a, currency, initial))
  }

  predicate Initial(st: State) {
    st.db == st.init && Seeded(st.init) && st.sessions == [] && st.locks == map[] && st.hist == []
  }

  predicate Runs(st: State, labels: seq<Label>)
    decreases |labels|
  {
    labels == [] || (Enabled(st, labels[0]) && Runs(Next(st, labels[0]), labels[1..]))
  }

  function After(st: State, labels: seq<Label>): State
    requires Runs(st, labels)
    decreases |labels|
  {
    if labels == [] then st else After(Next(st, labels[0]), labels[1..])
  }
}
