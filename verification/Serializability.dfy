/** Every step of every session keeps the invariant, so the committed tables of any interleaved run are
    those of its committed events run one at a time in commit order. */
module Serializability {
  import opened Schema
  import opened Decoding
  import opened Errors
  import opened Spec
  import opened Integrity
  import opened Sessions
  import opened Interleaving

  // --- Locks ------------------------------------------------------------------------------------------

  predicate OthersSame(st: State, later: State, sid: Sid)
    requires sid < |st.sessions|
  {
    && |later.sessions| == |st.sessions|
    && (forall i: Sid :: i < |st.sessions| && i != sid ==> later.sessions[i] == st.sessions[i])
    && later.sessions[sid].op == st.sessions[sid].op
  }

  lemma MatchesGrow(held: seq<set<Resource>>, locks: map<Resource, Sid>, sid: Sid, more: set<Resource>,
                    later: map<Resource, Sid>)
    requires Matches(held, locks) && sid < |held|
    requires forall r :: r in more ==> r !in locks || locks[r] == sid
    requires forall r :: r in later <==> r in locks || r in more
    requires forall r :: r in later ==> later[r] == if r in more then sid else locks[r]
    ensures Matches(held[sid := held[sid] + more], later)
  {
  }

  /** A session that gets `more`, all of it free or its own already. */
  lemma LocksGrow(st: State, later: State, sid: Sid, more: set<Resource>)
    requires LocksMatch(st) && sid < |st.sessions| && OthersSame(st, later, sid)
    requires Holds(later.sessions[sid].phase) == Holds(st.sessions[sid].phase) + more
    requires forall r :: r in more ==> Grantable(st, sid, r)
    requires forall r :: r in later.locks <==> r in st.locks || r in more
    requires forall r :: r in later.locks ==> later.locks[r] == if r in more then sid else st.locks[r]
    ensures LocksMatch(later)
  {
    var held := HeldBy(st.sessions);
    MatchesGrow(held, st.locks, sid, more, later.locks);
    assert HeldBy(later.sessions) == held[sid := held[sid] + more];
  }

  lemma LocksShrink(st: State, later: State, sid: Sid)
    requires LocksMatch(st) && sid < |st.sessions| && OthersSame(st, later, sid)
    requires Holds(later.sessions[sid].phase) == {} && later.locks == Release(st.locks, sid)
    ensures LocksMatch(later)
  {
    assert HeldBy(later.sessions) == HeldBy(st.sessions)[sid := {}];
  }

  // --- Steps that commit nothing ---------------------------------------------------------------------------

  /** A step of one session that leaves the committed tables alone keeps the invariant if it keeps its
      own part. */
  lemma LocalStep(st: State, later: State, sid: Sid)
    requires Inv(st) && sid < |st.sessions| && OthersSame(st, later, sid)
    requires later.init == st.init && later.db == st.db && later.hist == st.hist
    requires LocksMatch(later)
    requires PhaseOk(st.init, Events(st.hist), st.db, later.sessions[sid])
    requires AnswerOk(later.sessions[sid], EventsBy(st.hist, sid))
    ensures Inv(later)
  {
  }

  lemma GotoKeeps(st: State, sid: Sid, p: Phase)
    requires Inv(st) && sid < |st.sessions| && !st.sessions[sid].phase.Done? && !p.Done?
    requires Holds(p) == Holds(st.sessions[sid].phase)
    requires PhaseOk(st.init, Events(st.hist), st.db, st.sessions[sid].(phase := p))
    ensures Inv(Goto(st, sid, p))
  {
    var later := Goto(st, sid, p);
    LocksGrow(st, later, sid, {});
    LocalStep(st, later, sid);
  }

  lemma TakeKeeps(st: State, sid: Sid, r: Resource, p: Phase)
    requires Inv(st) && sid < |st.sessions| && !st.sessions[sid].phase.Done? && !p.Done?
    requires Grantable(st, sid, r) && Holds(p) == Holds(st.sessions[sid].phase) + {r}
    requires PhaseOk(st.init, Events(st.hist), st.db, st.sessions[sid].(phase := p))
    ensures Inv(Take(st, sid, r, p))
  {
    var later := Take(st, sid, r, p);
    LocksGrow(st, later, sid, {r});
    LocalStep(st, later, sid);
  }

  /** Ending a transaction early, in an answer without a commit or on the way to a recording. */
  lemma QuitKeeps(st: State, sid: Sid, p: Phase)
    requires Inv(st) && sid < |st.sessions| && !st.sessions[sid].phase.Done?
    requires p.AwaitRecording? || (p.Done? && !p.answer.Succeeded?
                                   && (p.answer.RejectedWith? ==> st.sessions[sid].op.DoTransfer?))
    requires PhaseOk(st.init, Events(st.hist), st.db, Session(st.sessions[sid].op, p, []))
    ensures Inv(Quit(st, sid, p))
  {
    var later := Quit(st, sid, p);
    LocksShrink(st, later, sid);
    LocalStep(st, later, sid);
  }

  lemma RejectKeeps(st: State, sid: Sid, req: TransferRequest, reason: Reason)
    requires Inv(st) && sid < |st.sessions| && !st.sessions[sid].phase.Done?
    requires st.sessions[sid].op == DoTransfer(req) && Validate(st.db, req) == Some(reason)
    ensures Inv(Reject(st, sid, req, reason))
  {
    assert Events(st.hist)[..|st.hist|] == Events(st.hist);
    QuitKeeps(st, sid, AwaitRecording(req, reason, |st.hist|));
  }

  /** Only a transfer can miss an account: a reversal's were posted to. */
  lemma MissingKeeps(st: State, sid: Sid, job: Job, a: AccountId)
    requires Inv(st) && sid < |st.sessions| && !st.sessions[sid].phase.Done?
    requires JobStarts(st.db, st.sessions[sid].op, job) && a !in st.db.accounts
    requires a == First(job) || (a == Second(job) && First(job) in st.db.accounts)
    ensures Inv(Missing(st, sid, job, a))
  {
    assert job.TransferJob?;
    RejectKeeps(st, sid, job.req, AccountNotFound(a));
  }

  ghost predicate Ready(st: State, sid: Sid) {
    Inv(st) && sid < |st.sessions| && !Blocked(st, sid)
  }

  lemma ArrivedKeeps(st: State, sid: Sid)
    requires Ready(st, sid) && st.sessions[sid].phase.Arrived?
    ensures Inv(RunArrived(st, sid))
  {
    match st.sessions[sid].op
    case DoTransfer(req) =>
      if req.amount <= 0.0 {
        RejectKeeps(st, sid, req, InvalidAmount);
      } else if req.from == req.to {
        RejectKeeps(st, sid, req, SameAccount);
      } else {
        GotoKeeps(st, sid, AwaitConnection);
      }
    case DoReverse(_) => GotoKeeps(st, sid, AwaitConnection);
  }

  lemma BeginKeeps(st: State, sid: Sid)
    requires Ready(st, sid) && st.sessions[sid].phase.AwaitConnection?
    ensures Inv(RunBegin(st, sid))
  {
    match st.sessions[sid].op
    case DoTransfer(req) => GotoKeeps(st, sid, LockFirst(TransferJob(req)));
    case DoReverse(orig) => GotoKeeps(st, sid, LockOriginal(orig));
  }

  lemma LockOriginalKeeps(st: State, sid: Sid, orig: TxId)
    requires Ready(st, sid) && st.sessions[sid].phase == LockOriginal(orig)
    ensures Inv(RunLockOriginal(st, sid, orig))
  {
    if orig !in st.db.txs {
      QuitKeeps(st, sid, Done(RefusedWith(NotFound)));
    } else {
      TakeKeeps(st, sid, TransactionRow(orig), CheckOriginal(orig, st.db.txs[orig]));
    }
  }

  lemma CheckOriginalKeeps(st: State, sid: Sid, orig: TxId, row: TxRow)
    requires Ready(st, sid) && st.sessions[sid].phase == CheckOriginal(orig, row)
    ensures Inv(RunCheckOriginal(st, sid, orig, row))
  {
    assert PhaseOk(st.init, Events(st.hist), st.db, st.sessions[sid]);
    if row.typ != Transfer {
      QuitKeeps(st, sid, Done(RefusedWith(InvalidType)));
    } else if row.status != Completed {
      QuitKeeps(st, sid, Done(RefusedWith(InvalidStatus(row.status))));
    } else {
      GotoKeeps(st, sid, ReadEntries(orig));
    }
  }

  lemma ReadEntriesKeeps(st: State, sid: Sid, orig: TxId)
    requires Ready(st, sid) && st.sessions[sid].phase == ReadEntries(orig)
    ensures Inv(RunReadEntries(st, sid, orig))
  {
    assert PhaseOk(st.init, Events(st.hist), st.db, st.sessions[sid]);
    HistorySound(st.init, Events(st.hist));
    var p := Decode(EntriesOf(st.db.ledger, orig));
    if p.amount == 0 {
      QuitKeeps(st, sid, Done(RefusedWith(Internal)));
    } else {
      ReversalDecodes(st.db, orig);
      GotoKeeps(st, sid, LockFirst(ReversalJob(orig, p)));
    }
  }

  lemma LockFirstKeeps(st: State, sid: Sid, job: Job)
    requires Ready(st, sid) && st.sessions[sid].phase == LockFirst(job)
    ensures Inv(RunLockFirst(st, sid, job))
  {
    assert PhaseOk(st.init, Events(st.hist), st.db, st.sessions[sid]);
    var a := First(job);
    if a !in st.db.accounts {
      MissingKeeps(st, sid, job, a);
    } else {
      TakeKeeps(st, sid, AccountRow(a), LockSecond(job, st.db.accounts[a]));
    }
  }

  lemma LockSecondKeeps(st: State, sid: Sid, job: Job, first: Account)
    requires Ready(st, sid) && st.sessions[sid].phase == LockSecond(job, first)
    ensures Inv(RunLockSecond(st, sid, job, first))
  {
    assert PhaseOk(st.init, Events(st.hist), st.db, st.sessions[sid]);
    var a := Second(job);
    if a !in st.db.accounts {
      MissingKeeps(st, sid, job, a);
    } else {
      TakeKeeps(st, sid, AccountRow(a), CheckAccounts(job, first, st.db.accounts[a]));
    }
  }

  lemma WritingStarts(init: DB, evs: seq<Event>, db: DB, s: Session, job: Job)
    requires JobReady(init, evs, db, s.op, job) && s.log == []
    ensures PhaseOk(init, evs, db, s.(phase := Writing(job, 0, TxId(0))))
  {
    assert Plan(db, job, TxId(0))[..0] == [];
  }

  /** The rows as they were read decide as the committed rows would now. */
  lemma ChecksAreCurrent(init: DB, evs: seq<Event>, db: DB, s: Session)
    requires s.phase.CheckAccounts? && PhaseOk(init, evs, db, s)
    ensures var job, first, second := s.phase.job, s.phase.first, s.phase.second;
            var (from, to) := if First(job) == From(job) then (first, second) else (second, first);
            match job
            case TransferJob(req) => Validate(db, req) == Ladder(from, to, req.amount)
            case ReversalJob(orig, p) =>
              ReverseCheck(db, orig) == if CoversReversal(to, p.amount) then Ok(p) else Err(InsufficientForReversal)
            case FailureJob(_, _, _) => false
  {
  }

  lemma CheckAccountsKeeps(st: State, sid: Sid, job: Job, first: Account, second: Account)
    requires Inv(st) && sid < |st.sessions| && st.sessions[sid].phase == CheckAccounts(job, first, second)
    ensures Inv(RunCheckAccounts(st, sid, job, first, second))
  {
    assert PhaseOk(st.init, Events(st.hist), st.db, st.sessions[sid]);
    ChecksAreCurrent(st.init, Events(st.hist), st.db, st.sessions[sid]);
    if JobReady(st.init, Events(st.hist), st.db, st.sessions[sid].op, job) {
      StartWritingKeeps(st, sid, job);
    } else if job.TransferJob? {
      RejectKeeps(st, sid, job.req, Validate(st.db, job.req).value);
    } else {
      QuitKeeps(st, sid, Done(RefusedWith(InsufficientForReversal)));
    }
  }

  lemma HoldsAtStart(job: Job, first: Account, second: Account)
    requires !job.FailureJob?
    ensures Holds(Writing(job, 0, TxId(0))) == Holds(CheckAccounts(job, first, second))
  {
  }

  lemma StartWritingKeeps(st: State, sid: Sid, job: Job)
    requires Inv(st) && sid < |st.sessions| && !job.FailureJob?
    requires st.sessions[sid].phase.CheckAccounts? && st.sessions[sid].phase.job == job && st.sessions[sid].log == []
    requires JobReady(st.init, Events(st.hist), st.db, st.sessions[sid].op, job)
    ensures Inv(Goto(st, sid, Writing(job, 0, TxId(0))))
  {
    WritingStarts(st.init, Events(st.hist), st.db, st.sessions[sid], job);
    HoldsAtStart(job, st.sessions[sid].phase.first, st.sessions[sid].phase.second);
    GotoKeeps(st, sid, Writing(job, 0, TxId(0)));
  }

  lemma RecordingKeeps(st: State, sid: Sid, req: TransferRequest, reason: Reason, seen: nat)
    requires Inv(st) && sid < |st.sessions| && st.sessions[sid].phase == AwaitRecording(req, reason, seen)
    ensures Inv(Goto(st, sid, Writing(FailureJob(req, reason, seen), 0, TxId(0))))
  {
    assert PhaseOk(st.init, Events(st.hist), st.db, st.sessions[sid]);
    WritingStarts(st.init, Events(st.hist), st.db, st.sessions[sid], FailureJob(req, reason, seen));
    GotoKeeps(st, sid, Writing(FailureJob(req, reason, seen), 0, TxId(0)));
  }

  // --- Writing ------------------------------------------------------------------------------------------

  lemma WritingAccounts(init: DB, evs: seq<Event>, db: DB, s: Session)
    requires s.phase.Writing? && PhaseOk(init, evs, db, s)
    ensures s.phase.job.FailureJob? || TwoAccounts(db, s.phase.job)
  {
  }

  lemma WriteKeeps(st: State, sid: Sid, job: Job, k: nat, id: TxId)
    requires Ready(st, sid) && st.sessions[sid].phase == Writing(job, k, id)
    requires k < |Script(job)| && !Script(job)[k].Create?
    ensures Inv(RunStatement(st, sid, job, k, id))
  {
    WrittenOk(st.init, Events(st.hist), st.db, st.sessions[sid]);
    LocksAfterStatement(st, sid, job, k, id);
    StatementIsLocal(st, sid, job, k, id);
    LocalStep(st, RunStatement(st, sid, job, k, id), sid);
  }

  lemma StatementIsLocal(st: State, sid: Sid, job: Job, k: nat, id: TxId)
    requires sid < |st.sessions| && k < |Script(job)|
    ensures var later, s := RunStatement(st, sid, job, k, id), st.sessions[sid];
            && OthersSame(st, later, sid)
            && later.init == st.init && later.db == st.db && later.hist == st.hist
            && later.sessions[sid] ==
               Session(s.op, Writing(job, k + 1, id), s.log + [ChangeOf(View(st.db, s.log), Script(job)[k], id)])
  {
  }

  lemma LocksAfterStatement(st: State, sid: Sid, job: Job, k: nat, id: TxId)
    requires LocksMatch(st) && sid < |st.sessions| && st.sessions[sid].phase == Writing(job, k, id)
    requires k < |Script(job)| && !Script(job)[k].Create?
    ensures LocksMatch(RunStatement(st, sid, job, k, id))
  {
    HoldsAfterStatement(job, k, id);
    LocksGrow(st, RunStatement(st, sid, job, k, id), sid, {});
  }

  lemma HoldsAfterStatement(job: Job, k: nat, id: TxId)
    requires k < |Script(job)| && !Script(job)[k].Create?
    ensures Holds(Writing(job, k + 1, id)) == Holds(Writing(job, k, id)) + {}
  {
    assert Script(job)[InsertAt(job)].Create?;
  }

  lemma HoldsAfterInsert(job: Job, id: TxId, newId: TxId)
    ensures Holds(Writing(job, InsertAt(job) + 1, newId)) ==
            Holds(Writing(job, InsertAt(job), id)) + HeldKeys(job, newId)
  {
  }

  /** A session's own view is the view of its plan, so its next change is the planned one. */
  lemma WrittenOk(init: DB, evs: seq<Event>, db: DB, s: Session)
    requires s.phase.Writing? && PhaseOk(init, evs, db, s)
    requires s.phase.k < |Script(s.phase.job)| && !Script(s.phase.job)[s.phase.k].Create?
    ensures var job, k, id := s.phase.job, s.phase.k, s.phase.id;
            PhaseOk(init, evs, db,
                    Session(s.op, Writing(job, k + 1, id),
                            s.log + [ChangeOf(View(db, s.log), Script(job)[k], id)]))
  {
    WritingAccounts(init, evs, db, s);
    PlanStep(db, s.phase.job, s.phase.k, s.phase.id);
    assert Script(s.phase.job)[InsertAt(s.phase.job)].Create?;
  }

  /** The unique indexes a session sees are those of the committed table, and its insert is the planned
      one, whatever id was generated. */
  lemma InsertedOk(init: DB, evs: seq<Event>, db: DB, op: Op, job: Job, id: TxId, log: seq<Change>, newId: TxId)
    requires PhaseOk(init, evs, db, Session(op, Writing(job, InsertAt(job), id), log))
    ensures Insertable(View(db, log), RowOf(job), newId) == Insertable(db, RowOf(job), newId)
    ensures Insertable(db, RowOf(job), newId) ==>
              PhaseOk(init, evs, db,
                      Session(op, Writing(job, InsertAt(job) + 1, newId),
                              log + [ChangeOf(View(db, log), Create(RowOf(job)), newId)]))
    ensures job.FailureJob? ==> op.DoTransfer?
  {
    var k := InsertAt(job);
    WritingAccounts(init, evs, db, Session(op, Writing(job, k, id), log));
    assert Script(job)[k] == Create(RowOf(job));
    ViewBeforeInsert(db, job, id);
    PlanBeforeInsert(db, job, k, id, newId);
    PlanStep(db, job, k, newId);
  }

  lemma InsertPoint(job: Job, k: nat)
    requires k < |Script(job)| && Script(job)[k].Create?
    ensures k == InsertAt(job) && Script(job)[k].row == RowOf(job)
  {
  }

  lemma InsertKeeps(st: State, sid: Sid, job: Job, id: TxId, newId: TxId)
    requires Inv(st) && sid < |st.sessions| && Fresh(st, newId)
    requires st.sessions[sid].phase == Writing(job, InsertAt(job), id)
    requires UniqueKey(RowOf(job)).Some? ==> Grantable(st, sid, UniqueKey(RowOf(job)).value)
    ensures Inv(RunInsert(st, sid, job, InsertAt(job), RowOf(job), newId))
  {
    var s := st.sessions[sid];
    InsertedOk(st.init, Events(st.hist), st.db, s.op, job, id, s.log, newId);
    if Insertable(st.db, RowOf(job), newId) {
      ClaimKeeps(st, sid, job, id, newId);
    } else {
      QuitKeeps(st, sid, Done(ViolationAnswer(job)));
    }
  }

  lemma ClaimKeeps(st: State, sid: Sid, job: Job, id: TxId, newId: TxId)
    requires Inv(st) && sid < |st.sessions|
    requires st.sessions[sid].phase == Writing(job, InsertAt(job), id) && Fresh(st, newId)
    requires UniqueKey(RowOf(job)).Some? ==> Grantable(st, sid, UniqueKey(RowOf(job)).value)
    requires var s := st.sessions[sid];
             && Insertable(View(st.db, s.log), RowOf(job), newId)
             && PhaseOk(st.init, Events(st.hist), st.db,
                        Session(s.op, Writing(job, InsertAt(job) + 1, newId),
                                s.log + [ChangeOf(View(st.db, s.log), Create(RowOf(job)), newId)]))
    ensures Inv(RunInsert(st, sid, job, InsertAt(job), RowOf(job), newId))
  {
    ClaimLocks(st, sid, job, id, newId);
    LocalStep(st, RunInsert(st, sid, job, InsertAt(job), RowOf(job), newId), sid);
  }

  lemma ClaimLocks(st: State, sid: Sid, job: Job, id: TxId, newId: TxId)
    requires LocksMatch(st) && sid < |st.sessions|
    requires st.sessions[sid].phase == Writing(job, InsertAt(job), id) && Fresh(st, newId)
    requires UniqueKey(RowOf(job)).Some? ==> Grantable(st, sid, UniqueKey(RowOf(job)).value)
    requires Insertable(View(st.db, st.sessions[sid].log), RowOf(job), newId)
    ensures LocksMatch(RunInsert(st, sid, job, InsertAt(job), RowOf(job), newId))
  {
    HoldsAfterInsert(job, id, newId);
    KeysClaimed(st, sid, job, newId);
    LocksGrow(st, RunInsert(st, sid, job, InsertAt(job), RowOf(job), newId), sid, HeldKeys(job, newId));
  }

  lemma KeysClaimed(st: State, sid: Sid, job: Job, id: TxId)
    requires Fresh(st, id) && (UniqueKey(RowOf(job)).Some? ==> Grantable(st, sid, UniqueKey(RowOf(job)).value))
    ensures forall r :: r in HeldKeys(job, id) ==> Grantable(st, sid, r)
    ensures var later := LockKeys(st.locks, RowOf(job), id, sid);
            && (forall r :: r in later <==> r in st.locks || r in HeldKeys(job, id))
            && (forall r :: r in later ==> later[r] == if r in HeldKeys(job, id) then sid else st.locks[r])
  {
  }

  lemma EventsSnoc(hist: seq<Commit>, c: Commit)
    ensures Events(hist + [c]) == Events(hist) + [c.event]
    ensures forall i: Sid :: EventsBy(hist + [c], i) == EventsBy(hist, i) + if c.who == Some(i) then [c.event] else []
  {
    assert (hist + [c])[..|hist|] == hist;
  }

  lemma FailuresKept(init: DB, hist: seq<Commit>, c: Commit)
    requires FailuresJustified(init, hist)
    requires c.event.FailureRecorded? ==> Justified(init, Events(hist), c.event.req, c.event.reason, c.seen)
    ensures FailuresJustified(init, hist + [c])
  {
    EventsSnoc(hist, c);
    var more := hist + [c];
    forall i | 0 <= i < |more| && more[i].event.FailureRecorded?
      ensures more[i].seen <= i && Justified(init, Events(more), more[i].event.req, more[i].event.reason, more[i].seen)
    {
      assert Events(more)[..more[i].seen] == Events(hist)[..more[i].seen];
    }
  }

  /** What is committed is the event, run atomically on whatever is committed by then. */
  lemma CommitIsEvent(st: State, sid: Sid, job: Job, k: nat, id: TxId)
    requires Inv(st) && sid < |st.sessions|
    requires st.sessions[sid].phase == Writing(job, k, id) && k >= |Script(job)|
    ensures JobReady(st.init, Events(st.hist), st.db, st.sessions[sid].op, job)
    ensures Insertable(st.db, RowOf(job), id)
    ensures View(st.db, st.sessions[sid].log) == Apply(st.db, EventOf(job, id))
  {
    FinishedLog(st.init, Events(st.hist), st.db, st.sessions[sid]);
    PlanIsEvent(st.init, Events(st.hist), st.db, st.sessions[sid].op, job, id);
  }

  lemma FinishedLog(init: DB, evs: seq<Event>, db: DB, s: Session)
    requires PhaseOk(init, evs, db, s) && s.phase.Writing? && s.phase.k >= |Script(s.phase.job)|
    ensures JobReady(init, evs, db, s.op, s.phase.job) && Insertable(db, RowOf(s.phase.job), s.phase.id)
    ensures s.log == Plan(db, s.phase.job, s.phase.id)
  {
  }

  lemma CommitKeepsSerial(st: State, c: Commit, db: DB)
    requires Serial(st) && Legal(st.db, c.event) && db == Apply(st.db, c.event)
    ensures Serial(st.(db := db, hist := st.hist + [c]))
  {
    EventsSnoc(st.hist, c);
    var evs := Events(st.hist) + [c.event];
    assert evs[..|evs| - 1] == Events(st.hist);
  }

  lemma CommitKeeps(st: State, sid: Sid, job: Job, k: nat, id: TxId)
    requires Inv(st) && sid < |st.sessions|
    requires st.sessions[sid].phase == Writing(job, k, id) && k >= |Script(job)|
    ensures Inv(RunCommit(st, sid, job, id))
  {
    CommitIsEvent(st, sid, job, k, id);
    LocksAfterCommit(st, sid, job, id);
    CommitKeepsTables(st, sid, job, id);
    CommitKeepsSessions(st, sid, job, k, id);
  }

  lemma LocksAfterCommit(st: State, sid: Sid, job: Job, id: TxId)
    requires LocksMatch(st) && sid < |st.sessions|
    ensures LocksMatch(RunCommit(st, sid, job, id))
  {
    LocksShrink(st, RunCommit(st, sid, job, id), sid);
  }

  lemma CommitKeepsTables(st: State, sid: Sid, job: Job, id: TxId)
    requires Serial(st) && FailuresJustified(st.init, st.hist) && sid < |st.sessions|
    requires CommittersArrived(st.hist, |st.sessions|)
    requires JobReady(st.init, Events(st.hist), st.db, st.sessions[sid].op, job) && Insertable(st.db, RowOf(job), id)
    requires View(st.db, st.sessions[sid].log) == Apply(st.db, EventOf(job, id))
    ensures var later := RunCommit(st, sid, job, id);
            && Serial(later) && FailuresJustified(later.init, later.hist)
            && CommittersArrived(later.hist, |later.sessions|)
  {
    var later := RunCommit(st, sid, job, id);
    var c := later.hist[|st.hist|];
    ReadyIsLegal(st.init, Events(st.hist), st.db, st.sessions[sid].op, job, id);
    assert Serial(later) by { CommitKeepsSerial(st, c, later.db); }
    assert FailuresJustified(st.init, later.hist) by { FailuresKept(st.init, st.hist, c); }
    assert CommittersArrived(later.hist, |st.sessions|) by { CommittersKept(st.hist, c, |st.sessions|); }
  }

  lemma ReadyIsLegal(init: DB, evs: seq<Event>, db: DB, op: Op, job: Job, id: TxId)
    requires JobReady(init, evs, db, op, job) && Insertable(db, RowOf(job), id)
    ensures Legal(db, EventOf(job, id)) && OwnOp(op, job)
    ensures job.FailureJob? ==> Justified(init, evs, job.req, job.reason, job.seen)
  {
  }

  lemma CommitKeepsSessions(st: State, sid: Sid, job: Job, k: nat, id: TxId)
    requires AllPhasesOk(st) && AllAnswersOk(st) && LocksMatch(st) && sid < |st.sessions|
    requires st.sessions[sid].phase == Writing(job, k, id) && k > InsertAt(job)
    requires JobReady(st.init, Events(st.hist), st.db, st.sessions[sid].op, job) && Insertable(st.db, RowOf(job), id)
    requires View(st.db, st.sessions[sid].log) == Apply(st.db, EventOf(job, id))
    ensures AllPhasesOk(RunCommit(st, sid, job, id)) && AllAnswersOk(RunCommit(st, sid, job, id))
  {
    var later := RunCommit(st, sid, job, id);
    EventsSnoc(st.hist, later.hist[|st.hist|]);
    ReadyIsLegal(st.init, Events(st.hist), st.db, st.sessions[sid].op, job, id);
    AnswersAfterCommit(st, later, sid, job, k, id);
    PhasesAfterCommit(st, later, sid, job, k, id);
  }

  lemma CommittersKept(hist: seq<Commit>, c: Commit, n: nat)
    requires CommittersArrived(hist, n) && (c.who.Some? ==> c.who.value < n)
    ensures CommittersArrived(hist + [c], n)
  {
  }

  predicate OwnOp(op: Op, job: Job) {
    match job
    case TransferJob(req) => op == DoTransfer(req)
    case ReversalJob(orig, _) => op == DoReverse(orig)
    case FailureJob(req, _, _) => op == DoTransfer(req)
  }

  lemma OwnAnswer(op: Op, job: Job, id: TxId, log: seq<Change>)
    requires OwnOp(op, job)
    ensures AnswerOk(Session(op, Done(AnswerOf(job, id)), log), [EventOf(job, id)])
  {
  }

  lemma AnswersAfterCommit(st: State, later: State, sid: Sid, job: Job, k: nat, id: TxId)
    requires AllAnswersOk(st) && sid < |st.sessions| && OthersSame(st, later, sid)
    requires st.sessions[sid].phase == Writing(job, k, id) && later.sessions[sid].phase == Done(AnswerOf(job, id))
    requires OwnOp(st.sessions[sid].op, job)
    requires forall i: Sid :: EventsBy(later.hist, i) ==
                              EventsBy(st.hist, i) + if Some(sid) == Some(i) then [EventOf(job, id)] else []
    ensures AllAnswersOk(later)
  {
    assert AnswerOk(st.sessions[sid], EventsBy(st.hist, sid));
    OwnAnswer(st.sessions[sid].op, job, id, later.sessions[sid].log);
    forall i: Sid | i < |later.sessions| && i != sid
      ensures AnswerOk(later.sessions[i], EventsBy(later.hist, i))
    {
      assert EventsBy(later.hist, i) == EventsBy(st.hist, i);
    }
  }

  lemma PhasesAfterCommit(st: State, later: State, sid: Sid, job: Job, k: nat, id: TxId)
    requires AllPhasesOk(st) && LocksMatch(st) && sid < |st.sessions| && OthersSame(st, later, sid)
    requires st.sessions[sid].phase == Writing(job, k, id) && k > InsertAt(job)
    requires JobReady(st.init, Events(st.hist), st.db, st.sessions[sid].op, job) && Insertable(st.db, RowOf(job), id)
    requires later.sessions[sid].phase.Done? && later.sessions[sid].log == []
    requires later.init == st.init && later.db == Apply(st.db, EventOf(job, id))
    requires Events(later.hist) == Events(st.hist) + [EventOf(job, id)]
    ensures AllPhasesOk(later)
  {
    var op := st.sessions[sid].op;
    forall i: Sid | i < |later.sessions|
      ensures PhaseOk(later.init, Events(later.hist), later.db, later.sessions[i])
    {
      if i != sid {
        OthersDisjoint(st, sid, job, k, id, i);
        OtherPhaseKept(st.init, Events(st.hist), st.db, op, job, id, st.sessions[i]);
      }
    }
  }

  lemma OtherPhaseKept(init: DB, evs: seq<Event>, db: DB, op: Op, job: Job, id: TxId, other: Session)
    requires JobReady(init, evs, db, op, job) && Insertable(db, RowOf(job), id)
    requires Holds(other.phase) !! HeldRows(job) + HeldKeys(job, id)
    requires PhaseOk(init, evs, db, other)
    ensures PhaseOk(init, evs + [EventOf(job, id)], Apply(db, EventOf(job, id)), other)
  {
    CommitRespects(init, evs, db, op, job, id, Holds(other.phase));
    PhaseKept(init, evs, db, EventOf(job, id), Apply(db, EventOf(job, id)), other);
  }

  lemma OthersDisjoint(st: State, sid: Sid, job: Job, k: nat, id: TxId, i: Sid)
    requires LocksMatch(st) && sid < |st.sessions| && i < |st.sessions| && i != sid
    requires st.sessions[sid].phase == Writing(job, k, id) && k > InsertAt(job)
    ensures Holds(st.sessions[i].phase) !! HeldRows(job) + HeldKeys(job, id)
  {
    var held := HeldBy(st.sessions);
    assert held[sid] == HeldRows(job) + HeldKeys(job, id);
    assert held[i] == Holds(st.sessions[i].phase);
    forall r | r in Holds(st.sessions[i].phase) ensures r !in Holds(st.sessions[sid].phase) {
      assert r in st.locks && st.locks[r] == i;
    }
  }

  // --- The run ---------------------------------------------------------------------------------------------

  lemma RunKeeps(st: State, sid: Sid, newId: TxId)
    requires Inv(st) && Enabled(st, Run(sid, newId))
    ensures Inv(Next(st, Run(sid, newId)))
  {
    match st.sessions[sid].phase
    case Arrived => ArrivedKeeps(st, sid);
    case AwaitConnection => BeginKeeps(st, sid);
    case LockOriginal(orig) => LockOriginalKeeps(st, sid, orig);
    case CheckOriginal(orig, row) => CheckOriginalKeeps(st, sid, orig, row);
    case ReadEntries(orig) => ReadEntriesKeeps(st, sid, orig);
    case LockFirst(job) => LockFirstKeeps(st, sid, job);
    case LockSecond(job, first) => LockSecondKeeps(st, sid, job, first);
    case CheckAccounts(job, first, second) => CheckAccountsKeeps(st, sid, job, first, second);
    case AwaitRecording(req, reason, seen) => RecordingKeeps(st, sid, req, reason, seen);
    case Writing(job, k, id) =>
      if k >= |Script(job)| {
        CommitKeeps(st, sid, job, k, id);
      } else if Script(job)[k].Create? {
        InsertPoint(job, k);
        InsertKeeps(st, sid, job, id, newId);
      } else {
        WriteKeeps(st, sid, job, k, id);
      }
  }

  lemma FailKeeps(st: State, sid: Sid, cause: string)
    requires Inv(st) && Enabled(st, Fail(sid, cause))
    ensures Inv(Next(st, Fail(sid, cause)))
  {
    assert PhaseOk(st.init, Events(st.hist), st.db, st.sessions[sid]);
    QuitKeeps(st, sid, Done(FailureAnswer(st.sessions[sid], cause)));
  }

  lemma {:induction false} NoEventsOfStrangers(hist: seq<Commit>, n: nat)
    requires forall i :: 0 <= i < |hist| && hist[i].who.Some? ==> hist[i].who.value < n
    ensures EventsBy(hist, n) == []
  {
    if hist == [] {
    } else {
      NoEventsOfStrangers(hist[..|hist| - 1], n);
    }
  }

  lemma ArriveKeeps(st: State, op: Op)
    requires Inv(st)
    ensures Inv(AfterArrival(st, op))
  {
    var later := AfterArrival(st, op);
    SameTables(st, later);
    StrangerHoldsNothing(st, op);
    StrangerAnswers(st, op);
  }

  /** The parts of the invariant that speak of the committed tables and the history alone. */
  lemma SameTables(st: State, later: State)
    requires Serial(st) && FailuresJustified(st.init, st.hist) && CommittersArrived(st.hist, |st.sessions|)
    requires later.init == st.init && later.db == st.db && later.hist == st.hist && |st.sessions| <= |later.sessions|
    ensures Serial(later) && FailuresJustified(later.init, later.hist)
    ensures CommittersArrived(later.hist, |later.sessions|)
  {
  }

  lemma StrangerHoldsNothing(st: State, op: Op)
    requires LocksMatch(st)
    ensures LocksMatch(AfterArrival(st, op))
  {
    assert HeldBy(AfterArrival(st, op).sessions) == HeldBy(st.sessions) + [{}];
  }

  lemma StrangerAnswers(st: State, op: Op)
    requires AllPhasesOk(st) && AllAnswersOk(st) && CommittersArrived(st.hist, |st.sessions|)
    ensures AllPhasesOk(AfterArrival(st, op)) && AllAnswersOk(AfterArrival(st, op))
  {
    NoEventsOfStrangers(st.hist, |st.sessions|);
  }

  lemma OpenKeeps(st: State, ev: Event)
    requires Inv(st) && ev.Opened? && Legal(st.db, ev)
    ensures Inv(AfterOpening(st, ev))
  {
    TablesAfterOpening(st, ev);
    PhasesAfterOpening(st, ev);
    AnswersAfterOpening(st, ev);
    assert HeldBy(AfterOpening(st, ev).sessions) == HeldBy(st.sessions);
  }

  lemma TablesAfterOpening(st: State, ev: Event)
    requires Serial(st) && FailuresJustified(st.init, st.hist) && CommittersArrived(st.hist, |st.sessions|)
    requires ev.Opened? && Legal(st.db, ev)
    ensures var later := AfterOpening(st, ev);
            && Serial(later) && FailuresJustified(later.init, later.hist)
            && CommittersArrived(later.hist, |later.sessions|)
  {
    var c := Commit(None, ev, 0);
    CommitKeepsSerial(st, c, Apply(st.db, ev));
    assert FailuresJustified(st.init, st.hist + [c]) by { FailuresKept(st.init, st.hist, c); }
    CommittersKept(st.hist, c, |st.sessions|);
  }

  lemma AnswersAfterOpening(st: State, ev: Event)
    requires AllAnswersOk(st)
    ensures AllAnswersOk(AfterOpening(st, ev))
  {
    EventsSnoc(st.hist, Commit(None, ev, 0));
  }

  lemma PhasesAfterOpening(st: State, ev: Event)
    requires AllPhasesOk(st) && ev.Opened? && Legal(st.db, ev)
    ensures AllPhasesOk(AfterOpening(st, ev))
  {
    EventsSnoc(st.hist, Commit(None, ev, 0));
    forall i: Sid | i < |st.sessions|
      ensures PhaseOk(st.init, Events(st.hist) + [ev], Apply(st.db, ev), st.sessions[i])
    {
      OpeningRespects(st.db, ev, Holds(st.sessions[i].phase));
      PhaseKept(st.init, Events(st.hist), st.db, ev, Apply(st.db, ev), st.sessions[i]);
    }
  }

  lemma StepKeeps(st: State, l: Label)
    requires Inv(st) && Enabled(st, l)
    ensures Inv(Next(st, l))
  {
    match l
    case Run(sid, newId) => RunKeeps(st, sid, newId);
    case Fail(sid, cause) => FailKeeps(st, sid, cause);
    case Arrive(op) => ArriveKeeps(st, op);
    case Open(a, currency, initial) => OpenKeeps(st, Opened(a, currency, initial));
  }

  lemma {:induction false} RunsKeep(st: State, labels: seq<Label>)
    requires Inv(st) && Runs(st, labels)
    ensures Inv(After(st, labels))
    decreases |labels|
  {
    if labels == [] {
    } else {
      StepKeeps(st, labels[0]);
      RunsKeep(Next(st, labels[0]), labels[1..]);
    }
  }

  lemma InitialInv(st: State)
    requires Initial(st)
    ensures Inv(st)
  {
  }

  /** For any number of sessions and every interleaving of their steps: the committed events, run one at a
      time in commit order, each commit, and leave exactly the committed tables. */
  lemma Serializable(start: State, labels: seq<Label>)
    requires Initial(start) && Runs(start, labels)
    ensures var st := After(start, labels);
            LegalHistory(start.db, Events(st.hist)) && st.db == Replay(start.db, Events(st.hist))
  {
    InitialInv(start);
    RunsKeep(start, labels);
    InitKept(start, labels);
  }

  lemma {:induction false} InitKept(st: State, labels: seq<Label>)
    requires Runs(st, labels)
    ensures After(st, labels).init == st.init
    decreases |labels|
  {
    if labels == [] {
    } else {
      InitKept(Next(st, labels[0]), labels[1..]);
    }
  }
}
