/** Which transfer calls leave a trace in an interleaved run. */
module Traces {
  import opened Schema
  import opened Spec
  import opened Integrity
  import opened Consequences
  import opened Sessions
  import opened Interleaving
  import opened Serializability
  import opened Progress
  import opened Safety

  /** No request of this call fails. */
  predicate Unbroken(labels: seq<Label>, sid: Sid) {
    forall l :: l in labels ==> !(l.Fail? && l.sid == sid)
  }

  /** A finished transfer has committed something, or its reference is taken. */
  predicate TracedOrTaken(st: State, sid: Sid) {
    sid < |st.sessions| && st.sessions[sid].op.DoTransfer? && st.sessions[sid].phase.Done? ==>
      EventsBy(st.hist, sid) != [] || !ReferenceFree(st.db, st.sessions[sid].op.req.reference)
  }

  // --- What other steps keep -----------------------------------------------------------------------------

  predicate Commits(st: State, l: Label) {
    l.Open? || (l.Run? && l.sid < |st.sessions| && st.sessions[l.sid].phase.Writing?
                && st.sessions[l.sid].phase.k >= |Script(st.sessions[l.sid].phase.job)|)
  }

  lemma QuietStep(st: State, l: Label)
    requires Enabled(st, l) && !Commits(st, l)
    ensures Next(st, l).db == st.db && Next(st, l).hist == st.hist
  {
  }

  lemma StepGrows(st: State, l: Label)
    requires Inv(st) && Enabled(st, l)
    ensures Grows(st.db, Next(st, l).db)
    ensures forall i: Sid :: EventsBy(st.hist, i) != [] ==> EventsBy(Next(st, l).hist, i) != []
  {
    if !Commits(st, l) {
      QuietStep(st, l);
    } else if l.Open? {
      OpeningGrows(st, Opened(l.account, l.currency, l.initial));
    } else {
      var p := st.sessions[l.sid].phase;
      CommitGrows(st, l.sid, p.job, p.k, p.id);
    }
  }

  lemma OpeningGrows(st: State, ev: Event)
    requires ev.Opened? && Legal(st.db, ev)
    ensures var later := AfterOpening(st, ev);
            && Grows(st.db, later.db)
            && forall i: Sid :: EventsBy(st.hist, i) != [] ==> EventsBy(later.hist, i) != []
  {
    ApplyGrows(st.db, ev);
    EventsSnoc(st.hist, Commit(None, ev, 0));
  }

  lemma CommitGrows(st: State, sid: Sid, job: Job, k: nat, id: TxId)
    requires Inv(st) && sid < |st.sessions|
    requires st.sessions[sid].phase == Writing(job, k, id) && k >= |Script(job)|
    ensures var later := RunCommit(st, sid, job, id);
            && Grows(st.db, later.db)
            && forall i: Sid :: EventsBy(st.hist, i) != [] ==> EventsBy(later.hist, i) != []
  {
    CommitIsEvent(st, sid, job, k, id);
    ReadyIsLegal(st.init, Events(st.hist), st.db, st.sessions[sid].op, job, id);
    ApplyGrows(st.db, EventOf(job, id));
    EventsSnoc(st.hist, RunCommit(st, sid, job, id).hist[|st.hist|]);
  }

  lemma TakenStays(db: DB, later: DB, reference: Option<string>)
    requires Grows(db, later) && !ReferenceFree(db, reference)
    ensures !ReferenceFree(later, reference)
  {
    var id :| id in db.txs && db.txs[id].reference == reference;
    assert RowKept(db.txs[id], later.txs[id]);
  }

  // --- How a transfer ends -----------------------------------------------------------------------------------

  lemma CommitTraces(st: State, sid: Sid, job: Job, id: TxId)
    requires sid < |st.sessions|
    ensures EventsBy(RunCommit(st, sid, job, id).hist, sid) != []
  {
    EventsSnoc(st.hist, RunCommit(st, sid, job, id).hist[|st.hist|]);
  }

  /** The insert of a transfer's row, or of its failure, is refused for the reference alone. */
  lemma RefusedForReference(st: State, sid: Sid, job: Job, id: TxId, newId: TxId)
    requires Inv(st) && sid < |st.sessions| && Fresh(st, newId) && !job.ReversalJob?
    requires st.sessions[sid].phase == Writing(job, InsertAt(job), id)
    requires RunInsert(st, sid, job, InsertAt(job), RowOf(job), newId).sessions[sid].phase.Done?
    ensures !ReferenceFree(st.db, RowOf(job).reference)
  {
    var s := st.sessions[sid];
    InsertedOk(st.init, Events(st.hist), st.db, s.op, job, id, s.log, newId);
  }

  lemma OwnReference(init: DB, evs: seq<Event>, db: DB, s: Session)
    requires PhaseOk(init, evs, db, s) && s.phase.Writing? && s.op.DoTransfer?
    ensures !s.phase.job.ReversalJob? && RowOf(s.phase.job).reference == s.op.req.reference
  {
  }

  lemma WritingTraces(st: State, sid: Sid, newId: TxId)
    requires Inv(st) && Enabled(st, Run(sid, newId))
    requires st.sessions[sid].op.DoTransfer? && st.sessions[sid].phase.Writing?
    ensures TracedOrTaken(Next(st, Run(sid, newId)), sid)
  {
    var p := st.sessions[sid].phase;
    OwnReference(st.init, Events(st.hist), st.db, st.sessions[sid]);
    if p.k >= |Script(p.job)| {
      CommitTraces(st, sid, p.job, p.id);
    } else if Script(p.job)[p.k].Create? {
      InsertPoint(p.job, p.k);
      StepOfInsert(st, sid, p.job, p.id, newId);
      if RunStep(st, sid, newId).sessions[sid].phase.Done? {
        RefusedForReference(st, sid, p.job, p.id, newId);
      }
    }
  }

  /** Before it writes, a transfer ends in nothing but the record of its failure. */
  lemma ChecksEndNothing(init: DB, evs: seq<Event>, st: State, sid: Sid, newId: TxId)
    requires sid < |st.sessions| && PhaseOk(init, evs, st.db, st.sessions[sid])
    requires st.sessions[sid].op.DoTransfer? && !st.sessions[sid].phase.Writing? && !st.sessions[sid].phase.Done?
    ensures !RunStep(st, sid, newId).sessions[sid].phase.Done?
  {
  }

  lemma StepTraces(st: State, l: Label, sid: Sid)
    requires Inv(st) && Enabled(st, l) && TracedOrTaken(st, sid) && !(l.Fail? && l.sid == sid)
    ensures TracedOrTaken(Next(st, l), sid)
  {
    if l.Run? && l.sid == sid {
      if st.sessions[sid].op.DoTransfer? {
        if st.sessions[sid].phase.Writing? {
          WritingTraces(st, sid, l.newId);
        } else {
          ChecksEndNothing(st.init, Events(st.hist), st, sid, l.newId);
        }
      } else {
        StepIsLocal(st, l);
        SameOp(st, l);
      }
    } else {
      OtherStepTraces(st, l, sid);
    }
  }

  lemma SameOp(st: State, l: Label)
    requires Enabled(st, l) && l.Run?
    ensures |Next(st, l).sessions| == |st.sessions| && Next(st, l).sessions[l.sid].op == st.sessions[l.sid].op
  {
  }

  lemma OtherStepTraces(st: State, l: Label, sid: Sid)
    requires Inv(st) && Enabled(st, l) && TracedOrTaken(st, sid) && !((l.Run? || l.Fail?) && l.sid == sid)
    ensures TracedOrTaken(Next(st, l), sid)
  {
    StepGrows(st, l);
    if l.Run? || l.Fail? { StepIsLocal(st, l); }
    if sid < |st.sessions| && st.sessions[sid].op.DoTransfer? && st.sessions[sid].phase.Done? {
      if !ReferenceFree(st.db, st.sessions[sid].op.req.reference) {
        TakenStays(st.db, Next(st, l).db, st.sessions[sid].op.req.reference);
      }
    }
  }

  lemma {:induction false} RunTraces(st: State, labels: seq<Label>, sid: Sid)
    requires Inv(st) && Runs(st, labels) && Unbroken(labels, sid) && TracedOrTaken(st, sid)
    ensures TracedOrTaken(After(st, labels), sid)
    decreases |labels|
  {
    if labels == [] {
    } else {
      StepKeeps(st, labels[0]);
      StepTraces(st, labels[0], sid);
      RunTraces(Next(st, labels[0]), labels[1..], sid);
    }
  }

  // --- Who took the reference ----------------------------------------------------------------------------

  predicate Carries(ev: Event, reference: Option<string>) {
    NewRow(ev).Some? && SameKey(NewRow(ev).value.1.reference, reference)
  }

  /** A taken reference was put there by some commit. */
  lemma {:induction false} TakenByEvent(init: DB, evs: seq<Event>, reference: Option<string>) returns (k: nat)
    requires Seeded(init) && LegalHistory(init, evs) && !ReferenceFree(Replay(init, evs), reference)
    ensures k < |evs| && Carries(evs[k], reference)
  {
    var front, last := evs[..|evs| - 1], evs[|evs| - 1];
    if Carries(last, reference) {
      k := |evs| - 1;
    } else {
      NotByLast(Replay(init, front), last, reference);
      k := TakenByEvent(init, front, reference);
    }
  }

  lemma NotByLast(db: DB, ev: Event, reference: Option<string>)
    requires Legal(db, ev) && !Carries(ev, reference) && !ReferenceFree(Apply(db, ev), reference)
    ensures !ReferenceFree(db, reference)
  {
    var id :| id in Apply(db, ev).txs && Apply(db, ev).txs[id].reference == reference;
    UniqueColumns(db, ev, id);
  }

  lemma {:induction false} OwnCommit(hist: seq<Commit>, sid: Sid) returns (k: nat)
    requires EventsBy(hist, sid) != []
    ensures k < |hist| && hist[k].who == Some(sid)
  {
    if hist[|hist| - 1].who == Some(sid) {
      k := |hist| - 1;
    } else {
      k := OwnCommit(hist[..|hist| - 1], sid);
    }
  }

  lemma OwnCommitCarries(s: Session, mine: seq<Event>, ev: Event, reference: string)
    requires AnswerOk(s, mine) && s.phase.Done? && s.op.DoTransfer? && ev in mine
    requires s.op.req.reference == Some(reference)
    ensures Carries(ev, Some(reference))
  {
  }

  /** Some other call, or none, has committed a row under this reference. */
  predicate TakenByOther(hist: seq<Commit>, sid: Sid, reference: Option<string>) {
    exists k :: 0 <= k < |hist| && hist[k].who != Some(sid) && Carries(hist[k].event, reference)
  }

  /** In every run, a finished transfer call none of whose requests failed has committed something, and so is
      audited, exactly when no other call has committed under its reference. */
  lemma TracedIffReferenceNotTaken(start: State, labels: seq<Label>, sid: Sid)
    requires Initial(start) && Runs(start, labels) && Unbroken(labels, sid)
    requires var st := After(start, labels);
             sid < |st.sessions| && st.sessions[sid].op.DoTransfer? && st.sessions[sid].phase.Done?
    ensures var st := After(start, labels);
            EventsBy(st.hist, sid) != [] <==> !TakenByOther(st.hist, sid, st.sessions[sid].op.req.reference)
  {
    var st := After(start, labels);
    InitialInv(start);
    RunTraces(start, labels, sid);
    Serializable(start, labels);
    if EventsBy(st.hist, sid) == [] {
      UntracedIsTaken(start.db, st, sid);
    } else {
      AnswersMatchCommits(start, labels, sid);
      TracedIsNotTaken(start.db, st, sid);
    }
  }

  lemma UntracedIsTaken(init: DB, st: State, sid: Sid)
    requires Seeded(init) && LegalHistory(init, Events(st.hist)) && st.db == Replay(init, Events(st.hist))
    requires sid < |st.sessions| && st.sessions[sid].op.DoTransfer?
    requires EventsBy(st.hist, sid) == [] && !ReferenceFree(st.db, st.sessions[sid].op.req.reference)
    ensures TakenByOther(st.hist, sid, st.sessions[sid].op.req.reference)
  {
    var k := TakenByEvent(init, Events(st.hist), st.sessions[sid].op.req.reference);
    if st.hist[k].who == Some(sid) { AmongEventsBy(st.hist, k, sid); }
  }

  lemma TracedIsNotTaken(init: DB, st: State, sid: Sid)
    requires LegalHistory(init, Events(st.hist)) && sid < |st.sessions|
    requires AnswerOk(st.sessions[sid], EventsBy(st.hist, sid)) && EventsBy(st.hist, sid) != []
    requires st.sessions[sid].op.DoTransfer? && st.sessions[sid].phase.Done?
    ensures !TakenByOther(st.hist, sid, st.sessions[sid].op.req.reference)
  {
    var reference := st.sessions[sid].op.req.reference;
    var j := OwnCommit(st.hist, sid);
    AmongEventsBy(st.hist, j, sid);
    if reference.Some? {
      OwnCommitCarries(st.sessions[sid], EventsBy(st.hist, sid), st.hist[j].event, reference.value);
      forall k | 0 <= k < |st.hist| && st.hist[k].who != Some(sid) ensures !Carries(st.hist[k].event, reference) {
        CarriedOnce(init, Events(st.hist), j, k, reference);
      }
    }
  }

  lemma CarriedOnce(init: DB, evs: seq<Event>, i: nat, j: nat, reference: Option<string>)
    requires LegalHistory(init, evs) && i < |evs| && j < |evs| && i != j && Carries(evs[i], reference)
    ensures !Carries(evs[j], reference)
  {
    if Carries(evs[j], reference) { AtMostOnce(init, evs, if i < j then i else j, if i < j then j else i); }
  }
}
