/** In interleaved runs, whether what a transfer call is told is true. */
module Answers {
  import opened Schema
  import opened Spec
  import opened Integrity
  import opened Sessions
  import opened Interleaving
  import opened Serializability
  import opened Progress
  import opened Safety
  import opened Traces
  import opened Refusals

  /** The transfer is answered with `answer` by the tables after the first `k` commits. */
  predicate AnsweredOn(init: DB, hist: seq<Commit>, req: TransferRequest, answer: Option<Reason>, k: nat) {
    k <= |hist| && Validate(Replay(init, Events(hist)[..k]), req) == answer
  }

  predicate AnsweredSometime(init: DB, hist: seq<Commit>, req: TransferRequest, answer: Option<Reason>) {
    exists k: nat :: k <= |hist| && AnsweredOn(init, hist, req, answer, k)
  }

  /** A finished transfer that is rejected has a reason that was true, and is told nothing about reversals. */
  predicate RejectedTruly(st: State, sid: Sid) {
    sid < |st.sessions| && st.sessions[sid].op.DoTransfer? && st.sessions[sid].phase.Done? ==>
      var answer := st.sessions[sid].phase.answer;
      && !answer.RefusedWith?
      && (answer.RejectedWith? ==> AnsweredSometime(st.init, st.hist, st.sessions[sid].op.req, Some(answer.reason)))
  }

  lemma AnsweredNow(init: DB, hist: seq<Commit>, req: TransferRequest, reason: Reason, seen: nat)
    requires Justified(init, Events(hist), req, reason, seen)
    ensures AnsweredSometime(init, hist, req, Some(reason))
  {
    assert AnsweredOn(init, hist, req, Some(reason), seen);
  }

  lemma AnsweredStays(init: DB, hist: seq<Commit>, c: Commit, req: TransferRequest, answer: Option<Reason>)
    requires AnsweredSometime(init, hist, req, answer)
    ensures AnsweredSometime(init, hist + [c], req, answer)
  {
    var k: nat :| k <= |hist| && AnsweredOn(init, hist, req, answer, k);
    EventsSnoc(hist, c);
    assert Events(hist + [c])[..k] == Events(hist)[..k];
    assert AnsweredOn(init, hist + [c], req, answer, k);
  }

  lemma AnsweredNext(st: State, l: Label, req: TransferRequest, answer: Option<Reason>)
    requires Enabled(st, l) && AnsweredSometime(st.init, st.hist, req, answer)
    ensures AnsweredSometime(Next(st, l).init, Next(st, l).hist, req, answer)
  {
    HistGrows(st, l);
    if Next(st, l).hist != st.hist {
      var c :| Next(st, l).hist == st.hist + [c];
      AnsweredStays(st.init, st.hist, c, req, answer);
    }
  }

  // --- How a transfer ends ----------------------------------------------------------------------------------

  /** What a transfer is told by the step that ends it. */
  predicate EndsAs(p: Phase, later: Phase) {
    later.Done? ==>
      && p.Writing?
      && (later.answer.RejectedWith? ==> p.job.FailureJob? && later.answer.reason == p.job.reason)
      && (later.answer == Broken ==> p.job.TransferJob?)
      && !later.answer.RefusedWith?
  }

  lemma WritingEndsAs(st: State, sid: Sid, newId: TxId)
    requires sid < |st.sessions| && st.sessions[sid].phase.Writing? && !st.sessions[sid].phase.job.ReversalJob?
    ensures EndsAs(st.sessions[sid].phase, RunStep(st, sid, newId).sessions[sid].phase)
  {
    var p := st.sessions[sid].phase;
    if p.k < |Script(p.job)| && Script(p.job)[p.k].Create? {
      InsertPoint(p.job, p.k);
      StepOfInsert(st, sid, p.job, p.id, newId);
    }
  }

  lemma OwnAnswer(init: DB, evs: seq<Event>, st: State, sid: Sid, newId: TxId)
    requires sid < |st.sessions| && PhaseOk(init, evs, st.db, st.sessions[sid])
    requires st.sessions[sid].op.DoTransfer? && !st.sessions[sid].phase.Done?
    ensures EndsAs(st.sessions[sid].phase, RunStep(st, sid, newId).sessions[sid].phase)
  {
    if st.sessions[sid].phase.Writing? {
      OwnReference(init, evs, st.db, st.sessions[sid]);
      WritingEndsAs(st, sid, newId);
    } else {
      ChecksEndNothing(init, evs, st, sid, newId);
    }
  }

  /** What it is told when a request of its own fails. */
  lemma OwnFailure(st: State, sid: Sid, cause: string)
    requires Inv(st) && Enabled(st, Fail(sid, cause)) && st.sessions[sid].op.DoTransfer?
    ensures RejectedTruly(Next(st, Fail(sid, cause)), sid)
  {
    var p := st.sessions[sid].phase;
    assert PhaseOk(st.init, Events(st.hist), st.db, st.sessions[sid]);
    if p.AwaitRecording? {
      AnsweredNow(st.init, st.hist, p.req, p.reason, p.seen);
    } else if p.Writing? && p.job.FailureJob? {
      AnsweredNow(st.init, st.hist, p.job.req, p.job.reason, p.job.seen);
    }
  }

  lemma OwnRejectedTruly(st: State, sid: Sid, newId: TxId)
    requires Inv(st) && Enabled(st, Run(sid, newId)) && st.sessions[sid].op.DoTransfer?
    ensures RejectedTruly(Next(st, Run(sid, newId)), sid)
  {
    var p, later := st.sessions[sid].phase, RunStep(st, sid, newId).sessions[sid].phase;
    SameOp(st, Run(sid, newId));
    OwnAnswer(st.init, Events(st.hist), st, sid, newId);
    if later.Done? && later.answer.RejectedWith? {
      assert PhaseOk(st.init, Events(st.hist), st.db, st.sessions[sid]);
      AnsweredNow(st.init, st.hist, p.job.req, p.job.reason, p.job.seen);
      AnsweredNext(st, Run(sid, newId), p.job.req, Some(p.job.reason));
    }
  }

  lemma StepRejectsTruly(st: State, l: Label, sid: Sid)
    requires Inv(st) && Enabled(st, l) && RejectedTruly(st, sid)
    ensures RejectedTruly(Next(st, l), sid)
  {
    if (l.Run? || l.Fail?) && l.sid == sid {
      if st.sessions[sid].op.DoTransfer? {
        match l
        case Run(_, newId) => OwnRejectedTruly(st, sid, newId);
        case Fail(_, cause) => OwnFailure(st, sid, cause);
      } else if l.Run? {
        SameOp(st, l);
      }
    } else {
      OthersRejectedTruly(st, l, sid);
    }
  }

  lemma OthersRejectedTruly(st: State, l: Label, sid: Sid)
    requires Enabled(st, l) && RejectedTruly(st, sid) && !((l.Run? || l.Fail?) && l.sid == sid)
    ensures RejectedTruly(Next(st, l), sid)
  {
    if l.Run? || l.Fail? { StepIsLocal(st, l); }
    if sid < |st.sessions| && st.sessions[sid].op.DoTransfer? && st.sessions[sid].phase.Done? {
      var answer := st.sessions[sid].phase.answer;
      if answer.RejectedWith? { AnsweredNext(st, l, st.sessions[sid].op.req, Some(answer.reason)); }
    }
  }

  lemma {:induction false} RunRejectsTruly(st: State, labels: seq<Label>, sid: Sid)
    requires Inv(st) && Runs(st, labels) && RejectedTruly(st, sid)
    ensures RejectedTruly(After(st, labels), sid)
    decreases |labels|
  {
    if labels == [] {
    } else {
      StepKeeps(st, labels[0]);
      StepRejectsTruly(st, labels[0], sid);
      RunRejectsTruly(Next(st, labels[0]), labels[1..], sid);
    }
  }

  /** In every run, whatever fails, a finished transfer has posted, or is rejected for a reason that was true of
      the tables after the first `k` commits, or is told nothing but that it broke, having committed nothing. */
  lemma EveryRejectionWasTrue(start: State, labels: seq<Label>, sid: Sid) returns (k: nat)
    requires Initial(start) && Runs(start, labels)
    requires var st := After(start, labels);
             sid < |st.sessions| && st.sessions[sid].op.DoTransfer? && st.sessions[sid].phase.Done?
    ensures var st := After(start, labels);
            var req, answer, mine := st.sessions[sid].op.req, st.sessions[sid].phase.answer, EventsBy(st.hist, sid);
            match answer
            case Succeeded(id) => mine == [Transferred(req, id)]
            case RejectedWith(reason) =>
              k <= |st.hist| && Validate(Replay(start.db, Events(st.hist)[..k]), req) == Some(reason)
            case RefusedWith(_) => false
            case Broken => mine == []
  {
    var st := After(start, labels);
    var req, answer := st.sessions[sid].op.req, st.sessions[sid].phase.answer;
    InitialInv(start);
    RunRejectsTruly(start, labels, sid);
    AnswersMatchCommits(start, labels, sid);
    InitKept(start, labels);
    k := 0;
    if answer.RejectedWith? {
      var n: nat :| n <= |st.hist| && AnsweredOn(start.db, st.hist, req, Some(answer.reason), n);
      k := n;
    }
  }

  // --- When a transfer breaks -----------------------------------------------------------------------------

  /** A transfer that broke although none of its requests failed was valid. */
  predicate BrokenWhileValid(st: State, sid: Sid) {
    sid < |st.sessions| && st.sessions[sid].op.DoTransfer? && st.sessions[sid].phase == Done(Broken) ==>
      AnsweredSometime(st.init, st.hist, st.sessions[sid].op.req, None)
  }

  lemma ValidNow(st: State, sid: Sid)
    requires Inv(st) && sid < |st.sessions|
    requires st.sessions[sid].phase.Writing? && st.sessions[sid].phase.job.TransferJob?
    ensures st.sessions[sid].op.DoTransfer?
    ensures AnsweredSometime(st.init, st.hist, st.sessions[sid].op.req, None)
  {
    assert PhaseOk(st.init, Events(st.hist), st.db, st.sessions[sid]);
    assert Events(st.hist)[..|st.hist|] == Events(st.hist);
    assert AnsweredOn(st.init, st.hist, st.sessions[sid].op.req, None, |st.hist|);
  }

  lemma StepBreaksValid(st: State, l: Label, sid: Sid)
    requires Inv(st) && Enabled(st, l) && BrokenWhileValid(st, sid) && !(l.Fail? && l.sid == sid)
    ensures BrokenWhileValid(Next(st, l), sid)
  {
    if l.Run? && l.sid == sid {
      SameOp(st, l);
      if st.sessions[sid].op.DoTransfer? {
        OwnAnswer(st.init, Events(st.hist), st, sid, l.newId);
        if Next(st, l).sessions[sid].phase == Done(Broken) {
          ValidNow(st, sid);
          AnsweredNext(st, l, st.sessions[sid].op.req, None);
        }
      }
    } else {
      if l.Run? || l.Fail? { StepIsLocal(st, l); }
      if sid < |st.sessions| && st.sessions[sid].op.DoTransfer? && st.sessions[sid].phase == Done(Broken) {
        AnsweredNext(st, l, st.sessions[sid].op.req, None);
      }
    }
  }

  lemma {:induction false} RunBreaksValid(st: State, labels: seq<Label>, sid: Sid)
    requires Inv(st) && Runs(st, labels) && Unbroken(labels, sid) && BrokenWhileValid(st, sid)
    ensures BrokenWhileValid(After(st, labels), sid)
    decreases |labels|
  {
    if labels == [] {
    } else {
      StepKeeps(st, labels[0]);
      StepBreaksValid(st, labels[0], sid);
      RunBreaksValid(Next(st, labels[0]), labels[1..], sid);
    }
  }

  /** In every run, a transfer that broke although none of its requests failed was valid on the tables after the
      first `k` commits, and another call has committed under its reference. */
  lemma BrokenByReference(start: State, labels: seq<Label>, sid: Sid) returns (k: nat)
    requires Initial(start) && Runs(start, labels) && Unbroken(labels, sid)
    requires var st := After(start, labels);
             sid < |st.sessions| && st.sessions[sid].op.DoTransfer? && st.sessions[sid].phase == Done(Broken)
    ensures var st := After(start, labels);
            var req := st.sessions[sid].op.req;
            && k <= |st.hist| && Validate(Replay(start.db, Events(st.hist)[..k]), req) == None
            && exists j :: 0 <= j < |st.hist| && st.hist[j].who != Some(sid)
                           && NewRow(st.hist[j].event).Some? && req.reference.Some?
                           && NewRow(st.hist[j].event).value.1.reference == req.reference
  {
    var st := After(start, labels);
    InitialInv(start);
    RunBreaksValid(start, labels, sid);
    AnswersMatchCommits(start, labels, sid);
    InitKept(start, labels);
    TracedIffReferenceNotTaken(start, labels, sid);
    var n: nat :| n <= |st.hist| && AnsweredOn(start.db, st.hist, st.sessions[sid].op.req, None, n);
    k := n;
  }

  // --- When a reason was found ------------------------------------------------------------------------------

  /** The call has found `reason`, and is recording it or has been told it. */
  predicate Finding(p: Phase, reason: Reason) {
    || (p.AwaitRecording? && p.reason == reason)
    || (p.Writing? && p.job.FailureJob? && p.job.reason == reason)
    || p == Done(RejectedWith(reason))
  }

  lemma FindingKept(st: State, l: Label, sid: Sid, reason: Reason)
    requires Enabled(st, l) && sid < |st.sessions| && Finding(st.sessions[sid].phase, reason)
    ensures sid < |Next(st, l).sessions| && Finding(Next(st, l).sessions[sid].phase, reason)
  {
    if l.Run? && l.sid == sid {
      if st.sessions[sid].phase.Writing? { FindingWritten(st, sid, l.newId, reason); }
    } else if l.Run? || l.Fail? {
      StepIsLocal(st, l);
    }
  }

  lemma FindingWritten(st: State, sid: Sid, newId: TxId, reason: Reason)
    requires sid < |st.sessions| && st.sessions[sid].phase.Writing? && Finding(st.sessions[sid].phase, reason)
    ensures sid < |RunStep(st, sid, newId).sessions| && Finding(RunStep(st, sid, newId).sessions[sid].phase, reason)
  {
    var p := st.sessions[sid].phase;
    if p.k < |Script(p.job)| && Script(p.job)[p.k].Create? {
      InsertPoint(p.job, p.k);
      StepOfInsert(st, sid, p.job, p.id, newId);
    }
  }

  /** A reason that was found is the one that is told, whatever fails or collides while it is recorded. */
  lemma {:induction false} FoundIsTold(st: State, labels: seq<Label>, sid: Sid, reason: Reason)
    requires Runs(st, labels) && sid < |st.sessions| && Finding(st.sessions[sid].phase, reason)
    ensures sid < |After(st, labels).sessions|
    ensures var p := After(st, labels).sessions[sid].phase;
            p.Done? ==> p.answer == RejectedWith(reason)
    decreases |labels|
  {
    if labels == [] {
    } else {
      FindingKept(st, labels[0], sid, reason);
      FoundIsTold(Next(st, labels[0]), labels[1..], sid, reason);
    }
  }
}
