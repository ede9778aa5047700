/** The invariant of every interleaved run: what each session has read and written so far is still what
    it would read and write if it ran alone on the committed database, because of the locks it holds. */
module Interleaving {
  import opened Money
  import opened Schema
  import opened Decoding
  import opened Spec
  import opened Integrity
  import opened Sessions

  function Events(hist: seq<Commit>): (evs: seq<Event>)
    ensures |evs| == |hist|
    ensures forall i :: 0 <= i < |hist| ==> evs[i] == hist[i].event
  {
    if hist == [] then [] else Events(hist[..|hist| - 1]) + [hist[|hist| - 1].event]
  }

  /** The commits of one session, in order. */
  function EventsBy(hist: seq<Commit>, sid: Sid): (evs: seq<Event>) {
    if hist == [] then []
    else
      var last := hist[|hist| - 1];
      EventsBy(hist[..|hist| - 1], sid) + if last.who == Some(sid) then [last.event] else []
  }

  // --- Who holds what --------------------------------------------------------------------------------

  function RowOf(job: Job): TxRow {
    match job
    case TransferJob(req) => TransferRow(req)
    case ReversalJob(orig, _) => ReversalRow(orig)
    case FailureJob(req, reason, _) => FailureRow(req, reason)
  }

  /** Where in its script a job inserts its transaction row. */
  function InsertAt(job: Job): nat {
    if job.FailureJob? then 0 else 2
  }

  function HeldFirst(job: Job): (h: set<Resource>) {
    if job.ReversalJob? then {TransactionRow(job.orig)} else {}
  }

  function HeldRows(job: Job): (h: set<Resource>) {
    if job.FailureJob? then {}
    else HeldFirst(job) + {AccountRow(First(job)), AccountRow(Second(job))}
  }

  function HeldKeys(job: Job, id: TxId): (h: set<Resource>) {
    {PrimaryKey(id)} + if UniqueKey(RowOf(job)).Some? then {UniqueKey(RowOf(job)).value} else {}
  }

  /** Exactly what a session holds in each phase. */
  function Holds(p: Phase): (h: set<Resource>) {
    match p
    case CheckOriginal(orig, _) => {TransactionRow(orig)}
    case ReadEntries(orig) => {TransactionRow(orig)}
    case LockFirst(job) => HeldFirst(job)
    case LockSecond(job, _) => HeldFirst(job) + {AccountRow(First(job))}
    case CheckAccounts(job, _, _) => HeldFirst(job) + {AccountRow(First(job)), AccountRow(Second(job))}
    case Writing(job, k, id) => HeldRows(job) + if k > InsertAt(job) then HeldKeys(job, id) else {}
    case _ => {}
  }

  function HeldBy(sessions: seq<Session>): (held: seq<set<Resource>>)
    ensures |held| == |sessions|
    ensures forall i :: 0 <= i < |sessions| ==> held[i] == Holds(sessions[i].phase)
  {
    seq(|sessions|, i requires 0 <= i < |sessions| => Holds(sessions[i].phase))
  }

  /** The lock table says, of every resource, exactly who holds it. */
  ghost predicate Matches(held: seq<set<Resource>>, locks: map<Resource, Sid>) {
    && (forall r :: r in locks ==> locks[r] < |held| && r in held[locks[r]])
    && (forall i: Sid, r :: i < |held| && r in held[i] ==> r in locks && locks[r] == i)
  }

  ghost predicate LocksMatch(st: State) {
    Matches(HeldBy(st.sessions), st.locks)
  }

  // --- What each session knows ---------------------------------------------------------------------------

  predicate ArgumentsOk(req: TransferRequest) {
    req.amount > 0.0 && req.from != req.to
  }

  /** The reason holds of some earlier committed database: the one it was found on. */
  predicate Justified(init: DB, evs: seq<Event>, req: TransferRequest, reason: Reason, seen: nat) {
    seen <= |evs| && Validate(Replay(init, evs[..seen]), req) == Some(reason)
  }

  predicate JobStarts(db: DB, op: Op, job: Job) {
    match job
    case TransferJob(req) => op == DoTransfer(req) && ArgumentsOk(req)
    case ReversalJob(orig, p) =>
      op == DoReverse(orig) && Accepting(db, orig) && p == Decode(EntriesOf(db.ledger, orig))
      && p.amount != 0 && p.from != p.to && p.from in db.accounts && p.to in db.accounts
    case FailureJob(_, _, _) => false
  }

  predicate JobReady(init: DB, evs: seq<Event>, db: DB, op: Op, job: Job) {
    match job
    case TransferJob(req) => JobStarts(db, op, job) && Validate(db, req) == None
    case ReversalJob(orig, p) => JobStarts(db, op, job) && ReverseCheck(db, orig) == Ok(p)
    case FailureJob(req, reason, seen) => op == DoTransfer(req) && Justified(init, evs, req, reason, seen)
  }

  function Balance(db: DB, a: AccountId): int {
    if a in db.accounts then db.accounts[a].balance else 0
  }

  function FromDelta(job: Job): real
    requires !job.FailureJob?
  {
    if job.ReversalJob? then job.p.amount as real else -job.req.amount
  }

  function ToDelta(job: Job): real
    requires !job.FailureJob?
  {
    if job.ReversalJob? then -(job.p.amount as real) else job.req.amount
  }

  function Addition(db: DB, a: AccountId, delta: real): (c: Change) {
    SetBalance(a, Rnd(Balance(db, a) as real + delta))
  }

  /** The two balance changes of a job that runs alone on `db`. */
  function BalanceChanges(db: DB, job: Job): (log: seq<Change>)
    requires !job.FailureJob?
  {
    [Addition(db, From(job), FromDelta(job)), Addition(db, To(job), ToDelta(job))]
  }

  /** The changes that follow: rows under the new id. */
  function RowChanges(job: Job, id: TxId): (log: seq<Change>) {
    match job
    case TransferJob(req) =>
      var es := Pair(id, req.from, req.to, Rnd(req.amount));
      [AddTx(id, TransferRow(req)), AddEntry(es[0]), AddEntry(es[1]), AddAudit(TransferAudit(req, id))]
    case ReversalJob(orig, p) =>
      var es := Pair(id, p.to, p.from, p.amount);
      [AddTx(id, ReversalRow(orig)), AddEntry(es[0]), AddEntry(es[1]), SetReversed(orig),
       AddAudit(ReversalAudit(p, id))]
    case FailureJob(req, reason, _) =>
      [AddTx(id, FailureRow(req, reason)), AddAudit(FailureAudit(req, reason, id))]
  }

  /** The whole log of a job that runs alone on `db`. */
  function Plan(db: DB, job: Job, id: TxId): (log: seq<Change>)
    ensures |log| == |Script(job)|
  {
    (if job.FailureJob? then [] else BalanceChanges(db, job)) + RowChanges(job, id)
  }

  predicate KnowsFirst(db: DB, job: Job, first: Account) {
    First(job) in db.accounts && db.accounts[First(job)] == first
  }

  predicate KnowsSecond(db: DB, job: Job, second: Account) {
    Second(job) in db.accounts && db.accounts[Second(job)] == second
  }

  predicate PhaseOk(init: DB, evs: seq<Event>, db: DB, s: Session) {
    match s.phase
    case Arrived => s.log == []
    case AwaitConnection => s.log == [] && (s.op.DoTransfer? ==> ArgumentsOk(s.op.req))
    case LockOriginal(orig) => s.log == [] && s.op == DoReverse(orig)
    case CheckOriginal(orig, row) => s.log == [] && s.op == DoReverse(orig) && orig in db.txs && db.txs[orig] == row
    case ReadEntries(orig) => s.log == [] && s.op == DoReverse(orig) && Accepting(db, orig)
    case LockFirst(job) => s.log == [] && JobStarts(db, s.op, job)
    case LockSecond(job, first) => s.log == [] && JobStarts(db, s.op, job) && KnowsFirst(db, job, first)
    case CheckAccounts(job, first, second) =>
      s.log == [] && JobStarts(db, s.op, job) && KnowsFirst(db, job, first) && KnowsSecond(db, job, second)
    case Writing(job, k, id) =>
      && JobReady(init, evs, db, s.op, job)
      && k <= |Script(job)|
      && (k > InsertAt(job) ==> Insertable(db, RowOf(job), id))
      && s.log == Plan(db, job, id)[..k]
    case AwaitRecording(req, reason, seen) =>
      s.log == [] && s.op == DoTransfer(req) && Justified(init, evs, req, reason, seen)
    case Done(_) => s.log == []
  }

  /** What a session's answer says about its commits. */
  predicate AnswerOk(s: Session, mine: seq<Event>) {
    if !s.phase.Done? then mine == []
    else
      match s.phase.answer
      case Succeeded(id) =>
        mine == [match s.op case DoTransfer(req) => Transferred(req, id) case DoReverse(orig) => Undone(orig, id)]
      case RejectedWith(reason) =>
        s.op.DoTransfer?
        && (|| mine == []
            || (|mine| == 1 && mine[0].FailureRecorded? && mine[0].req == s.op.req && mine[0].reason == reason))
      case RefusedWith(_) => mine == []
      case Broken => mine == []
  }

  predicate FailuresJustified(init: DB, hist: seq<Commit>) {
    forall i :: 0 <= i < |hist| && hist[i].event.FailureRecorded? ==>
      && hist[i].seen <= i
      && Justified(init, Events(hist), hist[i].event.req, hist[i].event.reason, hist[i].seen)
  }

  predicate Serial(st: State) {
    && Seeded(st.init)
    && LegalHistory(st.init, Events(st.hist))
    && st.db == Replay(st.init, Events(st.hist))
  }

  predicate AllPhasesOk(st: State) {
    forall i: Sid :: i < |st.sessions| ==> PhaseOk(st.init, Events(st.hist), st.db, st.sessions[i])
  }

  predicate AllAnswersOk(st: State) {
    forall i: Sid :: i < |st.sessions| ==> AnswerOk(st.sessions[i], EventsBy(st.hist, i))
  }

  predicate CommittersArrived(hist: seq<Commit>, n: nat) {
    forall i :: 0 <= i < |hist| && hist[i].who.Some? ==> hist[i].who.value < n
  }

  ghost predicate Inv(st: State) {
    && Serial(st)
    && LocksMatch(st)
    && AllPhasesOk(st)
    && AllAnswersOk(st)
    && CommittersArrived(st.hist, |st.sessions|)
    && FailuresJustified(st.init, st.hist)
  }

  // --- Running alone ----------------------------------------------------------------------------------

  predicate TwoAccounts(db: DB, job: Job) {
    From(job) in db.accounts && To(job) in db.accounts && From(job) != To(job)
  }

  lemma ViewSnoc(db: DB, log: seq<Change>, c: Change)
    ensures View(db, log + [c]) == ApplyChange(View(db, log), c)
  {
    assert (log + [c])[..|log|] == log;
  }

  lemma {:induction false} ViewConcat(db: DB, log: seq<Change>, more: seq<Change>)
    ensures View(db, log + more) == View(View(db, log), more)
    decreases |more|
  {
    if more == [] {
      assert log + more == log;
    } else {
      var front, last := more[..|more| - 1], more[|more| - 1];
      ViewConcat(db, log, front);
      assert log + more == (log + front) + [last];
      ViewSnoc(db, log + front, last);
    }
  }

  lemma ViewOne(db: DB, c: Change)
    ensures View(db, [c]) == ApplyChange(db, c)
  {
    ViewSnoc(db, [], c);
    assert [] + [c] == [c];
  }

  /** Each statement of a script makes the change that the plan foresees; before its insert, a plan does
      not depend on the id. */
  lemma PlanStep(db: DB, job: Job, k: nat, id: TxId)
    requires k < |Script(job)| && (job.FailureJob? || TwoAccounts(db, job))
    ensures Plan(db, job, id)[..k] + [ChangeOf(View(db, Plan(db, job, id)[..k]), Script(job)[k], id)] ==
            Plan(db, job, id)[..k + 1]
  {
    var plan := Plan(db, job, id);
    if !job.FailureJob? && k == 1 {
      assert plan[..1] == [plan[0]];
      ViewOne(db, plan[0]);
    }
    RndWhole(0);
    if job.ReversalJob? { RndWhole(job.p.amount); }
  }

  lemma PlanBeforeInsert(db: DB, job: Job, k: nat, id: TxId, newId: TxId)
    requires k <= InsertAt(job)
    ensures Plan(db, job, id)[..k] == Plan(db, job, newId)[..k]
  {
  }

  /** The accounts after the two balance updates of a job. */
  function Moved(db: DB, job: Job): (r: map<AccountId, Account>)
    requires !job.FailureJob?
  {
    AddToBalance(AddToBalance(db.accounts, From(job), FromDelta(job)), To(job), ToDelta(job))
  }

  lemma ViewTwo(db: DB, c: Change, d: Change)
    ensures View(db, [c, d]) == ApplyChange(ApplyChange(db, c), d)
  {
    ViewOne(db, c);
    ViewSnoc(db, [c], d);
    assert [c] + [d] == [c, d];
  }

  lemma OneAddition(db: DB, a: AccountId, x: real)
    requires a in db.accounts
    ensures ApplyChange(db, Addition(db, a, x)) == db.(accounts := AddToBalance(db.accounts, a, x))
  {
  }

  /** An addition to one account does not change what an addition to another computes. */
  lemma OtherAddition(db: DB, a: AccountId, x: real, b: AccountId, y: real)
    requires b in db.accounts && a != b
    ensures Addition(db.(accounts := AddToBalance(db.accounts, a, x)), b, y) == Addition(db, b, y)
    ensures b in AddToBalance(db.accounts, a, x)
  {
  }

  lemma TwoAdditions(db: DB, a: AccountId, x: real, b: AccountId, y: real)
    requires a in db.accounts && b in db.accounts && a != b
    ensures View(db, [Addition(db, a, x), Addition(db, b, y)]) ==
            db.(accounts := AddToBalance(AddToBalance(db.accounts, a, x), b, y))
  {
    ViewTwo(db, Addition(db, a, x), Addition(db, b, y));
    OneAddition(db, a, x);
    OtherAddition(db, a, x, b, y);
    OneAddition(db.(accounts := AddToBalance(db.accounts, a, x)), b, y);
  }

  lemma PlanMoves(db: DB, job: Job)
    requires !job.FailureJob? && TwoAccounts(db, job)
    ensures View(db, BalanceChanges(db, job)) == db.(accounts := Moved(db, job))
  {
    TwoAdditions(db, From(job), FromDelta(job), To(job), ToDelta(job));
  }

  /** A balance update in the plan leaves the transaction table alone. */
  lemma ViewBeforeInsert(db: DB, job: Job, id: TxId)
    requires job.FailureJob? || TwoAccounts(db, job)
    ensures View(db, Plan(db, job, id)[..InsertAt(job)]).txs == db.txs
  {
    if job.FailureJob? {
      assert Plan(db, job, id)[..0] == [];
    } else {
      assert Plan(db, job, id)[..2] == BalanceChanges(db, job);
      PlanMoves(db, job);
    }
  }

  /** Four row changes in a row. */
  lemma FourRows(db: DB, c0: Change, c1: Change, c2: Change, c3: Change)
    ensures View(db, [c0, c1, c2, c3]) ==
            ApplyChange(ApplyChange(ApplyChange(ApplyChange(db, c0), c1), c2), c3)
  {
    ViewOne(db, c0);
    ViewSnoc(db, [c0], c1);
    ViewSnoc(db, [c0, c1], c2);
    ViewSnoc(db, [c0, c1, c2], c3);
    assert [c0] + [c1] == [c0, c1] && [c0, c1] + [c2] == [c0, c1, c2] && [c0, c1, c2] + [c3] == [c0, c1, c2, c3];
  }

  lemma TransferPlan(db: DB, req: TransferRequest, id: TxId)
    requires TwoAccounts(db, TransferJob(req))
    ensures View(db, Plan(db, TransferJob(req), id)) == Apply(db, Transferred(req, id))
  {
    var job := TransferJob(req);
    var rows := RowChanges(job, id);
    var mid := db.(accounts := Moved(db, job));
    ViewConcat(db, BalanceChanges(db, job), rows);
    PlanMoves(db, job);
    FourRows(mid, rows[0], rows[1], rows[2], rows[3]);
    var es := Pair(id, req.from, req.to, Rnd(req.amount));
    assert db.ledger + [es[0]] + [es[1]] == db.ledger + es;
  }

  lemma ReversalRows(db: DB, orig: TxId, p: Posting, id: TxId)
    ensures View(db, RowChanges(ReversalJob(orig, p), id)) ==
            DB(db.accounts, MarkReversed(db.txs[id := ReversalRow(orig)], orig),
               db.ledger + Pair(id, p.to, p.from, p.amount), db.audit + [ReversalAudit(p, id)])
  {
    var rows := RowChanges(ReversalJob(orig, p), id);
    FourRows(db, rows[0], rows[1], rows[2], rows[3]);
    ViewSnoc(db, [rows[0], rows[1], rows[2], rows[3]], rows[4]);
    assert [rows[0], rows[1], rows[2], rows[3]] + [rows[4]] == rows;
    var es := Pair(id, p.to, p.from, p.amount);
    assert db.ledger + [es[0]] + [es[1]] == db.ledger + es;
  }

  lemma UndoneParts(db: DB, orig: TxId, p: Posting, id: TxId)
    requires p == Decode(EntriesOf(db.ledger, orig))
    ensures Apply(db, Undone(orig, id)) ==
            DB(Moved(db, ReversalJob(orig, p)), MarkReversed(db.txs[id := ReversalRow(orig)], orig),
               db.ledger + Pair(id, p.to, p.from, p.amount), db.audit + [ReversalAudit(p, id)])
  {
  }

  lemma ReversalPlan(db: DB, orig: TxId, p: Posting, id: TxId)
    requires TwoAccounts(db, ReversalJob(orig, p)) && p == Decode(EntriesOf(db.ledger, orig))
    ensures View(db, Plan(db, ReversalJob(orig, p), id)) == Apply(db, Undone(orig, id))
  {
    var job := ReversalJob(orig, p);
    ViewConcat(db, BalanceChanges(db, job), RowChanges(job, id));
    PlanMoves(db, job);
    ReversalRows(db.(accounts := Moved(db, job)), orig, p, id);
    UndoneParts(db, orig, p, id);
  }

  /** A finished plan is the atomic event. */
  lemma PlanIsEvent(init: DB, evs: seq<Event>, db: DB, op: Op, job: Job, id: TxId)
    requires JobReady(init, evs, db, op, job)
    ensures View(db, Plan(db, job, id)) == Apply(db, EventOf(job, id))
  {
    match job
    case TransferJob(req) => TransferPlan(db, req, id);
    case ReversalJob(orig, p) => ReversalPlan(db, orig, p, id);
    case FailureJob(req, reason, _) =>
      var rows := RowChanges(job, id);
      ViewOne(db, rows[0]);
      ViewSnoc(db, [rows[0]], rows[1]);
      assert Plan(db, job, id) == [rows[0]] + [rows[1]];
  }

  // --- Interference -------------------------------------------------------------------------------------

  /** `later` respects what `held` protects. */
  ghost predicate Respects(db: DB, later: DB, held: set<Resource>) {
    && Grows(db, later)
    && (forall a :: AccountRow(a) in held && a in db.accounts ==> later.accounts[a] == db.accounts[a])
    && (forall id :: TransactionRow(id) in held && id in db.txs ==> later.txs[id] == db.txs[id])
    && (forall id :: PrimaryKey(id) in held && id !in db.txs ==> id !in later.txs)
    && (forall r :: ReferenceKey(r) in held && ReferenceFree(db, Some(r)) ==> ReferenceFree(later, Some(r)))
    && (forall o :: ReversalKey(o) in held && ReversalFree(db, Some(o)) ==> ReversalFree(later, Some(o)))
  }

  /** Everything a session relies on is protected by what it holds. */
  lemma PhaseKept(init: DB, evs: seq<Event>, db: DB, ev: Event, later: DB, s: Session)
    requires PhaseOk(init, evs, db, s) && Respects(db, later, Holds(s.phase))
    ensures PhaseOk(init, evs + [ev], later, s)
  {
    match s.phase
    case Writing(job, k, id) =>
      WritingKept(init, evs, db, ev, later, s);
    case AwaitRecording(req, reason, seen) =>
      assert (evs + [ev])[..seen] == evs[..seen];
    case _ =>
  }

  lemma WritingKept(init: DB, evs: seq<Event>, db: DB, ev: Event, later: DB, s: Session)
    requires s.phase.Writing? && PhaseOk(init, evs, db, s) && Respects(db, later, Holds(s.phase))
    ensures PhaseOk(init, evs + [ev], later, s)
  {
    var job, k, id := s.phase.job, s.phase.k, s.phase.id;
    JobKept(init, evs, db, ev, later, s.op, job, Holds(s.phase));
    PlanKept(db, later, job, id, Holds(s.phase));
    if k > InsertAt(job) { InsertKept(db, later, job, id, Holds(s.phase)); }
  }

  /** What a job was found ready on stays as it was. */
  lemma JobKept(init: DB, evs: seq<Event>, db: DB, ev: Event, later: DB, op: Op, job: Job, held: set<Resource>)
    requires JobReady(init, evs, db, op, job) && HeldRows(job) <= held && Respects(db, later, held)
    ensures JobReady(init, evs + [ev], later, op, job)
  {
    match job
    case FailureJob(_, _, seen) => assert (evs + [ev])[..seen] == evs[..seen];
    case TransferJob(req) => assert AccountRow(req.from) in held && AccountRow(req.to) in held;
    case ReversalJob(orig, p) =>
      assert AccountRow(p.from) in held && AccountRow(p.to) in held && TransactionRow(orig) in held;
  }

  lemma PlanKept(db: DB, later: DB, job: Job, id: TxId, held: set<Resource>)
    requires HeldRows(job) <= held && Respects(db, later, held) && (job.FailureJob? || TwoAccounts(db, job))
    ensures Plan(later, job, id) == Plan(db, job, id)
  {
    assert !job.FailureJob? ==> AccountRow(From(job)) in held && AccountRow(To(job)) in held;
  }

  lemma InsertKept(db: DB, later: DB, job: Job, id: TxId, held: set<Resource>)
    requires Insertable(db, RowOf(job), id) && HeldKeys(job, id) <= held && Respects(db, later, held)
    ensures Insertable(later, RowOf(job), id)
  {
    var row := RowOf(job);
    assert PrimaryKey(id) in held;
    if row.reference.Some? { assert ReferenceKey(row.reference.value) in held; }
    if row.reversalOf.Some? { assert ReversalKey(row.reversalOf.value) in held; }
  }

  /** A commit respects whatever is held by others. */
  lemma CommitRespects(init: DB, evs: seq<Event>, db: DB, op: Op, job: Job, id: TxId, held: set<Resource>)
    requires JobReady(init, evs, db, op, job) && Insertable(db, RowOf(job), id)
    requires held !! HeldRows(job) + HeldKeys(job, id)
    ensures Legal(db, EventOf(job, id)) && Respects(db, Apply(db, EventOf(job, id)), held)
  {
    assert job.ReversalJob? ==> job.p == Decode(EntriesOf(db.ledger, job.orig));
    ApplyGrows(db, EventOf(job, id));
    CommitRespectsRows(db, job, id, held);
    CommitRespectsKeys(db, job, id, held);
  }

  lemma CommitRespectsRows(db: DB, job: Job, id: TxId, held: set<Resource>)
    requires Legal(db, EventOf(job, id)) && held !! HeldRows(job) + HeldKeys(job, id)
    requires job.ReversalJob? ==> job.p == Decode(EntriesOf(db.ledger, job.orig))
    ensures var later := Apply(db, EventOf(job, id));
            && (forall a :: AccountRow(a) in held && a in db.accounts ==>
                  a in later.accounts && later.accounts[a] == db.accounts[a])
            && (forall t :: TransactionRow(t) in held && t in db.txs ==> t in later.txs && later.txs[t] == db.txs[t])
  {
    var later := Apply(db, EventOf(job, id));
    forall a | AccountRow(a) in held && a in db.accounts
      ensures a in later.accounts && later.accounts[a] == db.accounts[a]
    {
      assert !job.FailureJob? ==> AccountRow(From(job)) in HeldRows(job) && AccountRow(To(job)) in HeldRows(job);
      OtherAccounts(db, job, id, a);
    }
    forall t | TransactionRow(t) in held && t in db.txs ensures t in later.txs && later.txs[t] == db.txs[t] {
      if job.ReversalJob? { assert TransactionRow(job.orig) in HeldRows(job); }
    }
  }

  lemma CommitRespectsKeys(db: DB, job: Job, id: TxId, held: set<Resource>)
    requires Legal(db, EventOf(job, id)) && held !! HeldKeys(job, id)
    ensures var later := Apply(db, EventOf(job, id));
            && (forall t :: PrimaryKey(t) in held && t !in db.txs ==> t !in later.txs)
            && (forall r :: ReferenceKey(r) in held && ReferenceFree(db, Some(r)) ==> ReferenceFree(later, Some(r)))
            && (forall o :: ReversalKey(o) in held && ReversalFree(db, Some(o)) ==> ReversalFree(later, Some(o)))
  {
    var ev := EventOf(job, id);
    var later := Apply(db, ev);
    forall t | PrimaryKey(t) in held && t !in db.txs ensures t !in later.txs {
      assert PrimaryKey(id) in HeldKeys(job, id);
    }
    forall r | ReferenceKey(r) in held && ReferenceFree(db, Some(r)) ensures ReferenceFree(later, Some(r)) {
      assert RowOf(job).reference != Some(r);
      ColumnsStayFree(db, ev, Some(r), None);
    }
    forall o | ReversalKey(o) in held && ReversalFree(db, Some(o)) ensures ReversalFree(later, Some(o)) {
      assert RowOf(job).reversalOf != Some(o);
      ColumnsStayFree(db, ev, None, Some(o));
    }
  }

  lemma OtherAccounts(db: DB, job: Job, id: TxId, a: AccountId)
    requires a in db.accounts && (job.FailureJob? || (a != From(job) && a != To(job)))
    requires job.ReversalJob? ==> job.p == Decode(EntriesOf(db.ledger, job.orig))
    ensures a in Apply(db, EventOf(job, id)).accounts && Apply(db, EventOf(job, id)).accounts[a] == db.accounts[a]
  {
  }

  lemma ColumnsStayFree(db: DB, ev: Event, reference: Option<string>, orig: Option<TxId>)
    requires Legal(db, ev) && NewRow(ev).Some?
    requires ReferenceFree(db, reference) && ReversalFree(db, orig)
    requires !SameKey(reference, NewRow(ev).value.1.reference) && !SameKey(orig, NewRow(ev).value.1.reversalOf)
    ensures ReferenceFree(Apply(db, ev), reference) && ReversalFree(Apply(db, ev), orig)
  {
    forall t | t in Apply(db, ev).txs
      ensures reference.Some? ==> Apply(db, ev).txs[t].reference != reference
      ensures orig.Some? ==> Apply(db, ev).txs[t].reversalOf != orig
    {
      UniqueColumns(db, ev, t);
    }
  }

  lemma OpeningRespects(db: DB, ev: Event, held: set<Resource>)
    requires ev.Opened? && Legal(db, ev)
    ensures Respects(db, Apply(db, ev), held)
  {
    ApplyGrows(db, ev);
  }
}
