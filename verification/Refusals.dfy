/** In interleaved runs, whether what a call is told, and what is recorded of it, is true. */
module Refusals {
  import opened Schema
  import opened Decoding
  import opened Errors
  import opened Spec
  import opened Integrity
  import opened Reduction
  import opened Rules
  import opened Unwinding
  import opened Sessions
  import opened Interleaving
  import opened Serializability
  import opened Progress
  import opened Safety
  import opened Traces

  // --- Refused reversals ------------------------------------------------------------------------------

  /** The reversal of `orig` is refused with `r` on the tables after the first `k` commits. */
  predicate RefusedOn(init: DB, hist: seq<Commit>, orig: TxId, r: Refusal, k: nat) {
    k <= |hist| && ReverseCheck(Replay(init, Events(hist)[..k]), orig) == Err(r)
  }

  predicate RefusedSometime(init: DB, hist: seq<Commit>, orig: TxId, r: Refusal) {
    exists k: nat :: k <= |hist| && RefusedOn(init, hist, orig, r, k)
  }

  /** A refused reversal was refused for a true reason. */
  predicate RefusedTruly(st: State, sid: Sid) {
    sid < |st.sessions| && st.sessions[sid].op.DoReverse? && st.sessions[sid].phase.Done? ==>
      var answer := st.sessions[sid].phase.answer;
      answer.Succeeded?
      || (answer.RefusedWith? && RefusedSometime(st.init, st.hist, st.sessions[sid].op.orig, answer.refusal))
  }

  /** Before it writes, a reversal ends in what `ReverseCheck` says of the committed tables. */
  lemma CheckRefuses(init: DB, evs: seq<Event>, st: State, sid: Sid, newId: TxId)
    requires sid < |st.sessions| && PhaseOk(init, evs, st.db, st.sessions[sid])
    requires st.sessions[sid].op.DoReverse? && !st.sessions[sid].phase.Writing? && !st.sessions[sid].phase.Done?
    ensures var p := RunStep(st, sid, newId).sessions[sid].phase;
            p.Done? ==> p.answer.RefusedWith? && ReverseCheck(st.db, st.sessions[sid].op.orig) == Err(p.answer.refusal)
  {
    if st.sessions[sid].phase.CheckAccounts? { ChecksAreCurrent(init, evs, st.db, st.sessions[sid]); }
  }

  /** While it writes, it ends in nothing but its commit. */
  lemma WritingSucceeds(st: State, sid: Sid, newId: TxId)
    requires Inv(st) && Enabled(st, Run(sid, newId))
    requires st.sessions[sid].op.DoReverse? && st.sessions[sid].phase.Writing?
    ensures var p := RunStep(st, sid, newId).sessions[sid].phase;
            p.Done? ==> p.answer.Succeeded?
  {
    var p := st.sessions[sid].phase;
    assert PhaseOk(st.init, Events(st.hist), st.db, st.sessions[sid]);
    if p.k < |Script(p.job)| && Script(p.job)[p.k].Create? {
      InsertPoint(p.job, p.k);
      ReversalUncontested(st, sid, p.job, p.id, newId);
      StepOfInsert(st, sid, p.job, p.id, newId);
    }
  }

  lemma RefusedNow(st: State, orig: TxId, r: Refusal)
    requires Serial(st) && ReverseCheck(st.db, orig) == Err(r)
    ensures RefusedSometime(st.init, st.hist, orig, r)
  {
    assert Events(st.hist)[..|st.hist|] == Events(st.hist);
    assert RefusedOn(st.init, st.hist, orig, r, |st.hist|);
  }

  /** What was true of a prefix stays true of it. */
  lemma RefusedStays(init: DB, hist: seq<Commit>, c: Commit, orig: TxId, r: Refusal)
    requires RefusedSometime(init, hist, orig, r)
    ensures RefusedSometime(init, hist + [c], orig, r)
  {
    var k: nat :| k <= |hist| && RefusedOn(init, hist, orig, r, k);
    EventsSnoc(hist, c);
    assert Events(hist + [c])[..k] == Events(hist)[..k];
    assert RefusedOn(init, hist + [c], orig, r, k);
  }

  lemma HistGrows(st: State, l: Label)
    requires Enabled(st, l)
    ensures Next(st, l).init == st.init
    ensures Next(st, l).hist == st.hist || exists c :: Next(st, l).hist == st.hist + [c]
  {
    if Commits(st, l) {
      assert Next(st, l).hist == st.hist + [Next(st, l).hist[|st.hist|]];
    } else {
      QuietStep(st, l);
    }
  }

  lemma OthersRefusedTruly(st: State, l: Label, sid: Sid)
    requires Enabled(st, l) && RefusedTruly(st, sid) && !((l.Run? || l.Fail?) && l.sid == sid)
    ensures RefusedTruly(Next(st, l), sid)
  {
    if l.Run? || l.Fail? { StepIsLocal(st, l); }
    HistGrows(st, l);
    var s := if sid < |st.sessions| then st.sessions[sid] else Session(DoReverse(TxId(0)), Arrived, []);
    if s.op.DoReverse? && s.phase.Done? && s.phase.answer.RefusedWith? && Next(st, l).hist != st.hist {
      var c :| Next(st, l).hist == st.hist + [c];
      RefusedStays(st.init, st.hist, c, s.op.orig, s.phase.answer.refusal);
    }
  }

  lemma OwnRefusedTruly(st: State, sid: Sid, newId: TxId)
    requires Inv(st) && Enabled(st, Run(sid, newId)) && st.sessions[sid].op.DoReverse?
    ensures RefusedTruly(Next(st, Run(sid, newId)), sid)
  {
    var later := Next(st, Run(sid, newId));
    var p := later.sessions[sid].phase;
    SameOp(st, Run(sid, newId));
    if st.sessions[sid].phase.Writing? {
      WritingSucceeds(st, sid, newId);
    } else {
      CheckRefuses(st.init, Events(st.hist), st, sid, newId);
      QuietStep(st, Run(sid, newId));
      HistGrows(st, Run(sid, newId));
      if p.Done? { RefusedNow(st, st.sessions[sid].op.orig, p.answer.refusal); }
    }
  }

  lemma StepRefusesTruly(st: State, l: Label, sid: Sid)
    requires Inv(st) && Enabled(st, l) && RefusedTruly(st, sid) && !(l.Fail? && l.sid == sid)
    ensures RefusedTruly(Next(st, l), sid)
  {
    if l.Run? && l.sid == sid {
      SameOp(st, l);
      if st.sessions[sid].op.DoReverse? { OwnRefusedTruly(st, sid, l.newId); }
    } else {
      OthersRefusedTruly(st, l, sid);
    }
  }

  lemma {:induction false} RunRefusesTruly(st: State, labels: seq<Label>, sid: Sid)
    requires Inv(st) && Runs(st, labels) && Unbroken(labels, sid) && RefusedTruly(st, sid)
    ensures RefusedTruly(After(st, labels), sid)
    decreases |labels|
  {
    if labels == [] {
    } else {
      StepKeeps(st, labels[0]);
      StepRefusesTruly(st, labels[0], sid);
      RunRefusesTruly(Next(st, labels[0]), labels[1..], sid);
    }
  }

  /** An interleaved reversal sends what one that runs alone sends, request by request. */
  lemma SendsItsRequests(orig: TxId, p: Posting, row: TxRow, first: Account, second: Account, k: nat, id: TxId)
    requires k <= 7
    ensures var rs, job := Requests(orig, p), ReversalJob(orig, p);
            && RequestOf(AwaitConnection) == Some(rs[0]) && RequestOf(LockOriginal(orig)) == Some(rs[1])
            && RequestOf(CheckOriginal(orig, row)) == None && RequestOf(ReadEntries(orig)) == Some(rs[2])
            && RequestOf(LockFirst(job)) == Some(rs[3]) && RequestOf(LockSecond(job, first)) == Some(rs[4])
            && RequestOf(CheckAccounts(job, first, second)) == None
            && RequestOf(Writing(job, k, id)) == Some(rs[5 + k])
  {
  }

  /** In every run, a finished reversal none of whose requests failed has committed and succeeded, or it is
      answered by what its checks say of the tables after the first `k` of the run's commits, spelled out: no
      such row; a row that is no transfer; a transfer that is not completed; a credited account that cannot pay;
      a transfer stored as zero paise. */
  lemma EveryRefusalWasTrue(start: State, labels: seq<Label>, sid: Sid) returns (k: nat)
    requires Initial(start) && Runs(start, labels) && Unbroken(labels, sid)
    requires var st := After(start, labels);
             sid < |st.sessions| && st.sessions[sid].op.DoReverse? && st.sessions[sid].phase.Done?
    ensures var st := After(start, labels);
            var orig, answer := st.sessions[sid].op.orig, st.sessions[sid].phase.answer;
            || (answer.Succeeded? && EventsBy(st.hist, sid) == [Undone(orig, answer.id)])
            || (answer.RefusedWith? && EventsBy(st.hist, sid) == [] && k <= |st.hist|
                && ReverseCheck(Replay(start.db, Events(st.hist)[..k]), orig) == Err(answer.refusal))
    ensures var st := After(start, labels);
            var orig, answer := st.sessions[sid].op.orig, st.sessions[sid].phase.answer;
            answer.RefusedWith? ==>
              k <= |st.hist|
              && var db := Replay(start.db, Events(st.hist)[..k]);
                 match answer.refusal
                 case NotFound => orig !in db.txs
                 case InvalidType => orig in db.txs && db.txs[orig].typ != Transfer
                 case InvalidStatus(s) =>
                   orig in db.txs && db.txs[orig].typ == Transfer && db.txs[orig].status == s != Completed
                 case InsufficientForReversal =>
                   && orig in db.txs && db.txs[orig].typ == Transfer && db.txs[orig].status == Completed
                   && exists d, c ::
                        && d in db.ledger && c in db.ledger && d.tx == c.tx == orig
                        && d.debit > 0 && c.credit == d.debit && c.account in db.accounts
                        && db.accounts[c.account].balance - d.debit < db.accounts[c.account].floor
                 case Internal =>
                   && orig in db.txs && db.txs[orig].typ == Transfer && db.txs[orig].status == Completed
                   && forall e :: e in db.ledger && e.tx == orig ==> e.debit == 0
                 case AlreadyReversed => false
  {
    var st := After(start, labels);
    RefusedAt(start, labels, sid);
    k := 0;
    if st.sessions[sid].phase.answer.RefusedWith? {
      var orig, r := st.sessions[sid].op.orig, st.sessions[sid].phase.answer.refusal;
      var n: nat :| n <= |st.hist| && RefusedOn(start.db, st.hist, orig, r, n);
      k := n;
      Serializable(start, labels);
      HistoryGrows(start.db, Events(st.hist), k);
      HistorySound(start.db, Events(st.hist)[..k]);
      RefusalMeans(Replay(start.db, Events(st.hist)[..k]), orig, r);
    }
  }

  lemma RefusedAt(start: State, labels: seq<Label>, sid: Sid)
    requires Initial(start) && Runs(start, labels) && Unbroken(labels, sid)
    requires var st := After(start, labels);
             sid < |st.sessions| && st.sessions[sid].op.DoReverse? && st.sessions[sid].phase.Done?
    ensures var st := After(start, labels);
            var orig, answer := st.sessions[sid].op.orig, st.sessions[sid].phase.answer;
            || (answer.Succeeded? && EventsBy(st.hist, sid) == [Undone(orig, answer.id)])
            || (answer.RefusedWith? && EventsBy(st.hist, sid) == []
                && RefusedSometime(start.db, st.hist, orig, answer.refusal))
  {
    InitialInv(start);
    RunRefusesTruly(start, labels, sid);
    AnswersMatchCommits(start, labels, sid);
    InitKept(start, labels);
  }

  /** So a reversal that is told its original is reversed already has been overtaken: another call committed
      that reversal. */
  lemma OvertakenByAnother(start: State, labels: seq<Label>, sid: Sid) returns (k: nat)
    requires Initial(start) && Runs(start, labels) && Unbroken(labels, sid)
    requires var st := After(start, labels);
             && sid < |st.sessions| && st.sessions[sid].op.DoReverse?
             && st.sessions[sid].phase == Done(RefusedWith(InvalidStatus(Reversed)))
    ensures var st := After(start, labels);
            && k < |st.hist| && st.hist[k].who != Some(sid)
            && st.hist[k].event.Undone? && st.hist[k].event.orig == st.sessions[sid].op.orig
  {
    var st := After(start, labels);
    var orig := st.sessions[sid].op.orig;
    var n := EveryRefusalWasTrue(start, labels, sid);
    Serializable(start, labels);
    k := ReversedBySomebody(start.db, Events(st.hist), n, orig);
    if st.hist[k].who == Some(sid) { AmongEventsBy(st.hist, k, sid); }
  }

  lemma ReversedBySomebody(init: DB, evs: seq<Event>, n: nat, orig: TxId) returns (k: nat)
    requires Seeded(init) && LegalHistory(init, evs) && n <= |evs|
    requires ReverseCheck(Replay(init, evs[..n]), orig) == Err(InvalidStatus(Reversed))
    ensures k < |evs| && evs[k].Undone? && evs[k].orig == orig
  {
    HistoryGrows(init, evs, n);
    HistorySound(init, evs[..n]);
    RowFates(init, evs[..n]);
    SaysReversed(Replay(init, evs[..n]), orig);
    k := UndoneAt(evs[..n], orig);
  }

  lemma SaysReversed(db: DB, orig: TxId)
    requires Sound(db) && ReverseCheck(db, orig) == Err(InvalidStatus(Reversed))
    ensures orig in db.txs && db.txs[orig].status == Reversed
  {
  }

  // --- Recorded reasons ---------------------------------------------------------------------------------

  /** The reason a transfer was refused for still applies on these tables. */
  predicate StillApplies(db: DB, req: TransferRequest, reason: Reason) {
    match reason
    case AccountNotFound(a) => a !in db.accounts
    case InsufficientFunds =>
      && req.from in db.accounts
      && db.accounts[req.from].balance as real - req.amount < db.accounts[req.from].floor as real
    case _ => true
  }

  /** Only a missing account and missing funds can be remedied: every other reason stays true for good. */
  lemma ReasonStaysIff(db: DB, later: DB, req: TransferRequest, reason: Reason)
    requires Grows(db, later) && Validate(db, req) == Some(reason)
    ensures Validate(later, req) == Some(reason) <==> StillApplies(later, req, reason)
  {
  }

  /** In every run, the reason in a failed row is true of the tables it is recorded on, unless it is a missing
      account that is there by then, or missing funds that have arrived. */
  lemma RecordedReasonTrueIff(start: State, labels: seq<Label>, k: nat)
    requires Initial(start) && Runs(start, labels) && k < |After(start, labels).hist|
    requires After(start, labels).hist[k].event.FailureRecorded?
    ensures var st := After(start, labels);
            var req, id, db := st.hist[k].event.req, st.hist[k].event.id, Replay(start.db, Events(st.hist)[..k]);
            && id in st.db.txs && st.db.txs[id].reason.Some?
            && (Validate(db, req) == st.db.txs[id].reason <==>
                match st.db.txs[id].reason.value
                case AccountNotFound(a) => a !in db.accounts
                case InsufficientFunds =>
                  && req.from in db.accounts
                  && db.accounts[req.from].balance as real - req.amount < db.accounts[req.from].floor as real
                case _ => true)
  {
    var evs, c := Events(After(start, labels).hist), After(start, labels).hist[k];
    RecordedReasonsWereTrue(start, labels, k);
    Serializable(start, labels);
    HistoryGrows(start.db, evs, k);
    HistoryGrows(start.db, evs[..k], c.seen);
    assert evs[..k][..c.seen] == evs[..c.seen];
    ReasonStaysIff(Replay(start.db, evs[..c.seen]), Replay(start.db, evs[..k]), c.event.req, c.event.reason);
  }

  // --- A reason that goes stale ---------------------------------------------------------------------------

  predicate Leads(st: State, labels: seq<Label>, end: State) {
    Runs(st, labels) && After(st, labels) == end
  }

  lemma LeadsCons(st: State, l: Label, mid: State, rest: seq<Label>, end: State)
    requires Enabled(st, l) && Next(st, l) == mid && Leads(mid, rest, end)
    ensures Leads(st, [l] + rest, end)
  {
    assert ([l] + rest)[1..] == rest;
  }

  /** One call in flight, holding nothing. */
  function Solo(start: State, db: DB, op: Op, p: Phase, hist: seq<Commit>): (st: State) {
    State(start.init, db, [Session(op, p, [])], map[], hist)
  }

  lemma NobodyConnected(start: State, db: DB, op: Op, p: Phase, hist: seq<Commit>)
    requires !InTransaction(p)
    ensures ConnectionFree(Solo(start, db, op, p, hist))
  {
    assert Connections(Solo(start, db, op, p, hist)) == {};
  }

  /** A transfer that finds the lower of its accounts missing has its failure to record. */
  lemma FindsMissing(start: State, req: TransferRequest, newId: TxId) returns (labels: seq<Label>)
    requires Initial(start) && ArgumentsOk(req) && Lesser(req.from, req.to) !in start.db.accounts
    ensures var missing := AwaitRecording(req, AccountNotFound(Lesser(req.from, req.to)), 0);
            Leads(Solo(start, start.db, DoTransfer(req), Arrived, []), labels,
                  Solo(start, start.db, DoTransfer(req), missing, []))
  {
    var op, run := DoTransfer(req), Run(0, newId);
    var s0, s1 := Solo(start, start.db, op, Arrived, []), Solo(start, start.db, op, AwaitConnection, []);
    var s2 := Solo(start, start.db, op, LockFirst(TransferJob(req)), []);
    var s3 := Solo(start, start.db, op, AwaitRecording(req, AccountNotFound(Lesser(req.from, req.to)), 0), []);
    NobodyConnected(start, start.db, op, AwaitConnection, []);
    assert Next(s0, run) == s1 && Next(s1, run) == s2;
    assert Release(map[], 0) == map[];
    assert Next(s2, run) == s3;
    LeadsCons(s2, run, s3, [], s3);
    LeadsCons(s1, run, s2, [run] + [], s3);
    LeadsCons(s0, run, s1, [run] + ([run] + []), s3);
    labels := [run] + ([run] + ([run] + []));
  }

  /** The only call is writing the record of a failure. */
  predicate Recording(st: State, job: Job, k: nat, id: TxId, hist: seq<Commit>) {
    && job.FailureJob? && |st.sessions| == 1 && st.sessions[0].phase == Writing(job, k, id) && st.hist == hist
  }

  lemma InsertsRecord(st: State, job: Job, newId: TxId)
    requires Recording(st, job, 0, TxId(0), st.hist) && st.sessions[0].log == [] && st.locks == map[]
    requires Insertable(st.db, RowOf(job), newId)
    ensures Enabled(st, Run(0, newId)) && Recording(Next(st, Run(0, newId)), job, 1, newId, st.hist)
  {
    assert Script(job)[0] == Create(RowOf(job));
    StepOfInsert(st, 0, job, TxId(0), newId);
  }

  lemma AuditsRecord(st: State, job: Job, id: TxId, newId: TxId)
    requires Recording(st, job, 1, id, st.hist)
    ensures Enabled(st, Run(0, newId)) && Recording(Next(st, Run(0, newId)), job, 2, id, st.hist)
  {
    assert Script(job)[1].InsertAudit?;
  }

  lemma CommitsRecord(st: State, job: Job, id: TxId, newId: TxId)
    requires Recording(st, job, 2, id, st.hist)
    ensures Enabled(st, Run(0, newId))
    ensures Next(st, Run(0, newId)).hist == st.hist + [Commit(Some(0), EventOf(job, id), job.seen)]
  {
    assert |Script(job)| == 2;
  }

  /** A failure that waits to be recorded is recorded, if nothing else runs and its reference is free. */
  lemma GetsRecorded(start: State, db: DB, req: TransferRequest, reason: Reason, seen: nat, hist: seq<Commit>,
                     newId: TxId) returns (labels: seq<Label>)
    requires Insertable(db, FailureRow(req, reason), newId)
    ensures var st := Solo(start, db, DoTransfer(req), AwaitRecording(req, reason, seen), hist);
            && Runs(st, labels)
            && After(st, labels).hist == hist + [Commit(Some(0), FailureRecorded(req, reason, newId), seen)]
  {
    var op, run, job := DoTransfer(req), Run(0, newId), FailureJob(req, reason, seen);
    var s0 := Solo(start, db, op, AwaitRecording(req, reason, seen), hist);
    var s1 := Solo(start, db, op, Writing(job, 0, TxId(0)), hist);
    NobodyConnected(start, db, op, AwaitRecording(req, reason, seen), hist);
    assert Next(s0, run) == s1;
    InsertsRecord(s1, job, newId);
    var s2 := Next(s1, run);
    AuditsRecord(s2, job, newId, newId);
    var s3 := Next(s2, run);
    CommitsRecord(s3, job, newId, newId);
    labels := FourRuns(s0, s1, s2, s3, run);
  }

  lemma FourRuns(s0: State, s1: State, s2: State, s3: State, run: Label) returns (labels: seq<Label>)
    requires Enabled(s0, run) && Next(s0, run) == s1 && Enabled(s1, run) && Next(s1, run) == s2
    requires Enabled(s2, run) && Next(s2, run) == s3 && Enabled(s3, run)
    ensures Leads(s0, labels, Next(s3, run))
  {
    var s4 := Next(s3, run);
    LeadsCons(s3, run, s4, [], s4);
    LeadsCons(s2, run, s3, [run] + [], s4);
    LeadsCons(s1, run, s2, [run] + ([run] + []), s4);
    LeadsCons(s0, run, s1, [run] + ([run] + ([run] + [])), s4);
    labels := [run] + ([run] + ([run] + ([run] + [])));
  }

  lemma {:induction false} LeadsConcat(st: State, labels: seq<Label>, mid: State, rest: seq<Label>)
    requires Leads(st, labels, mid) && Runs(mid, rest)
    ensures Runs(st, labels + rest) && After(st, labels + rest) == After(mid, rest)
    decreases |labels|
  {
    if labels == [] {
      assert labels + rest == rest;
    } else {
      assert (labels + rest)[1..] == labels[1..] + rest;
      LeadsConcat(Next(st, labels[0]), labels[1..], mid, rest);
    }
  }

  lemma InOrder(start: State, arrive: Label, s0: State, found: seq<Label>, before: State, open: Label, after: State,
                recorded: seq<Label>) returns (labels: seq<Label>)
    requires Enabled(start, arrive) && Next(start, arrive) == s0 && Leads(s0, found, before)
    requires Enabled(before, open) && Next(before, open) == after && Runs(after, recorded)
    ensures Leads(start, labels, After(after, recorded))
  {
    LeadsCons(before, open, after, recorded, After(after, recorded));
    LeadsConcat(s0, found, before, [open] + recorded);
    LeadsCons(start, arrive, s0, found + ([open] + recorded), After(after, recorded));
    labels := [arrive] + (found + ([open] + recorded));
  }

  /** Meanwhile the missing account is opened. */
  lemma OpensMissing(start: State, op: Op, p: Phase, a: AccountId)
    requires a !in start.db.accounts && !InTransaction(p)
    ensures var ev := Opened(a, "INR", 0.0);
            var st := Solo(start, start.db, op, p, []);
            && Enabled(st, Open(a, "INR", 0.0))
            && Next(st, Open(a, "INR", 0.0)) == Solo(start, Apply(start.db, ev), op, p, [Commit(None, ev, 0)])
  {
    NobodyConnected(start, start.db, op, p, []);
    assert [] + [Commit(None, Opened(a, "INR", 0.0), 0)] == [Commit(None, Opened(a, "INR", 0.0), 0)];
  }

  lemma Arrives(start: State, op: Op)
    requires Initial(start)
    ensures Enabled(start, Arrive(op)) && Next(start, Arrive(op)) == Solo(start, start.db, op, Arrived, [])
  {
  }

  lemma OpenedIsThere(init: DB, req: TransferRequest, newId: TxId, hist: seq<Commit>)
    requires var a := Lesser(req.from, req.to);
             hist == [Commit(None, Opened(a, "INR", 0.0), 0)]
                     + [Commit(Some(0), FailureRecorded(req, AccountNotFound(a), newId), 0)]
    ensures var missing := AccountNotFound(Lesser(req.from, req.to));
            && |hist| == 2 && hist[1].event == FailureRecorded(req, missing, newId)
            && Validate(Replay(init, Events(hist)[..1]), req) != Some(missing)
  {
    var evs := Events(hist)[..1];
    assert evs == [hist[0].event] && evs[..0] == [];
    assert Replay(init, evs) == Apply(init, hist[0].event);
  }

  /** A recorded reason can be false when it is recorded: the account that was missing is opened between the
      check and the record. */
  lemma ReasonGoesStale(start: State, req: TransferRequest, newId: TxId) returns (labels: seq<Label>)
    requires Initial(start) && ArgumentsOk(req) && Lesser(req.from, req.to) !in start.db.accounts
    ensures Runs(start, labels)
    ensures var hist, missing := After(start, labels).hist, AccountNotFound(Lesser(req.from, req.to));
            && |hist| == 2 && hist[1].event == FailureRecorded(req, missing, newId)
            && newId in After(start, labels).db.txs && After(start, labels).db.txs[newId].reason == Some(missing)
            && Validate(Replay(start.db, Events(hist)[..1]), req) != Some(missing)
  {
    var a, op := Lesser(req.from, req.to), DoTransfer(req);
    var opening := Opened(a, "INR", 0.0);
    var missing := AwaitRecording(req, AccountNotFound(a), 0);
    var before := Solo(start, start.db, op, missing, []);
    var after := Solo(start, Apply(start.db, opening), op, missing, [Commit(None, opening, 0)]);
    Arrives(start, op);
    var found := FindsMissing(start, req, newId);
    OpensMissing(start, op, missing, a);
    var recorded := GetsRecorded(start, Apply(start.db, opening), req, AccountNotFound(a), 0,
                                 [Commit(None, opening, 0)], newId);
    labels := InOrder(start, Arrive(op), Solo(start, start.db, op, Arrived, []), found, before,
                      Open(a, "INR", 0.0), after, recorded);
    OpenedIsThere(start.db, req, newId, After(after, recorded).hist);
    RecordedReasonsWereTrue(start, labels, 1);
  }
}
