/** What holds in every state that any number of interleaved calls can reach. */
module Safety {
  import opened Money
  import opened Schema
  import opened Errors
  import opened Spec
  import opened Integrity
  import opened Accounting
  import opened Totals
  import opened Consequences
  import opened Reduction
  import opened Rules
  import opened Unwinding
  import opened Sessions
  import opened Interleaving
  import opened Serializability
  import opened Progress

  /** All four tables fit together, every floor holds, and debits equal credits. */
  lemma EveryRunIsSound(start: State, labels: seq<Label>)
    requires Initial(start) && Runs(start, labels)
    ensures Sound(After(start, labels).db)
    ensures TotalDebits(After(start, labels).db.ledger) == TotalCredits(After(start, labels).db.ledger)
  {
    Serializable(start, labels);
    HistorySound(start.db, Events(After(start, labels).hist));
    DebitsEqualCredits(start.db, Events(After(start, labels).hist));
  }

  /** Every balance is its opening balance plus its ledger, of which only the transfers still standing
      count, plus what rounding slipped: where balances cannot be negative, one paisa per half-paisa
      transfer out of it. */
  lemma EveryRunBalances(start: State, labels: seq<Label>, a: AccountId)
    requires Initial(start) && Runs(start, labels) && a in After(start, labels).db.accounts
    ensures var st := After(start, labels);
            var evs := Events(st.hist);
            && Net(st.db.ledger, a) == StandingNet(st.db.ledger, st.db.txs, a)
            && st.db.accounts[a].balance ==
               Opening(start.db, evs, a) + StandingNet(st.db.ledger, st.db.txs, a) + Slips(start.db, evs, a)
            && (TieSafe(start.db, evs) ==> Slips(start.db, evs, a) == TiesFrom(evs, a))
  {
    var evs := Events(After(start, labels).hist);
    Serializable(start, labels);
    LedgerAgrees(start.db, evs, a);
    HistoryReduction(start.db, evs, a);
    if TieSafe(start.db, evs) { SlipsAreTies(start.db, evs, a); }
  }

  /** The money of each currency, and of the bank, changes by account creation and ties alone. */
  lemma EveryRunConserves(start: State, labels: seq<Label>, sel: Selection)
    requires Initial(start) && Runs(start, labels)
    ensures var evs := Events(After(start, labels).hist);
            && Total(After(start, labels).db.accounts, sel) ==
               TotalOpening(start.db, evs, sel) + TotalSlips(start.db, evs, sel)
            && (TieSafe(start.db, evs) ==> TotalSlips(start.db, evs, sel) == Ties(start.db, evs, sel))
  {
    var evs := Events(After(start, labels).hist);
    Serializable(start, labels);
    ExactDrift(start.db, evs, sel);
    if TieSafe(start.db, evs) { DriftAtTies(start.db, evs, sel); }
  }

  /** While every committed transfer is in whole paise, for any floors: each balance is its opening balance plus
      its standing transfers, and the money of each currency, and of the bank, is what was opened. */
  lemma EveryWholePaiseRun(start: State, labels: seq<Label>, a: AccountId, sel: Selection)
    requires Initial(start) && Runs(start, labels) && WholePaise(Events(After(start, labels).hist))
    ensures var st := After(start, labels);
            var evs := Events(st.hist);
            && Total(st.db.accounts, sel) == TotalOpening(start.db, evs, sel)
            && (a in st.db.accounts ==>
                  st.db.accounts[a].balance == Opening(start.db, evs, a) + StandingNet(st.db.ledger, st.db.txs, a))
  {
    var evs := Events(After(start, labels).hist);
    Serializable(start, labels);
    WholePaiseConserve(start.db, evs, sel);
    if a in After(start, labels).db.accounts { WholePaiseBalances(start.db, evs, a); }
  }

  /** Off ties, the accounts that any run leaves are those of its history without the reversed transfers and
      their reversals. */
  lemma EveryRunReduces(start: State, labels: seq<Label>)
    requires Initial(start) && Runs(start, labels)
    requires forall ev :: ev in Events(After(start, labels).hist) ==> !TieEvent(ev)
    ensures var st := After(start, labels);
            st.db.accounts == Replay(start.db, Reduced(Events(st.hist))).accounts
  {
    Serializable(start, labels);
    EventReduction(start.db, Events(After(start, labels).hist));
  }

  /** Whatever stands after a run can be taken back, newest first, exactly when its history is payable, and then
      every account is left with what it was opened with and what rounding slipped. */
  lemma EveryRunUnwinds(start: State, labels: seq<Label>, base: nat)
    requires Initial(start) && Runs(start, labels)
    requires forall id :: id in After(start, labels).db.txs ==> id.uuid <= base
    ensures var st := After(start, labels);
            var evs := Events(st.hist);
            && (LegalHistory(st.db, UndoAll(evs, base)) <==> Payable(start.db, evs))
            && (Payable(start.db, evs) ==>
                  var accounts := Replay(st.db, UndoAll(evs, base)).accounts;
                  && accounts.Keys == st.db.accounts.Keys
                  && forall a :: a in accounts ==>
                       accounts[a].balance == Opening(start.db, evs, a) + Slips(start.db, evs, a))
  {
    var evs := Events(After(start, labels).hist);
    Serializable(start, labels);
    UnwindsIffPayable(start.db, evs, base);
    HistoryConcat(start.db, evs, UndoAll(evs, base));
  }

  /** Between any commit and the end of a run, accounts keep currency, floor and status, rows keep all but a
      completed transfer's status, and the logs are only appended to: an unlocked read of a committed
      transaction's ledger rows never goes stale. */
  lemma EveryRunGrows(start: State, labels: seq<Label>, k: nat)
    requires Initial(start) && Runs(start, labels) && k <= |After(start, labels).hist|
    ensures Grows(Replay(start.db, Events(After(start, labels).hist)[..k]), After(start, labels).db)
  {
    Serializable(start, labels);
    HistoryGrows(start.db, Events(After(start, labels).hist), k);
  }

  // --- Traces -----------------------------------------------------------------------------------------

  /** How many commits were calls of the services. */
  function Calls(evs: seq<Event>): (n: nat) {
    if evs == [] then 0 else Calls(evs[..|evs| - 1]) + Bit(!evs[|evs| - 1].Opened?)
  }

  lemma {:induction false} LogsCountCalls(init: DB, evs: seq<Event>)
    requires Seeded(init) && LegalHistory(init, evs)
    ensures |Replay(init, evs).audit| == |Replay(init, evs).txs| == Calls(evs)
  {
    if evs == [] {
    } else {
      var front, last := evs[..|evs| - 1], evs[|evs| - 1];
      var db, later := Replay(init, front), Replay(init, evs);
      LogsCountCalls(init, front);
      match last
      case Opened(_, _, _) =>
      case Transferred(_, id) => assert later.txs.Keys == db.txs.Keys + {id};
      case Undone(_, id) => assert later.txs.Keys == db.txs.Keys + {id};
      case FailureRecorded(_, _, id) => assert later.txs.Keys == db.txs.Keys + {id};
    }
  }

  /** The audit log has exactly one row per transaction row and per committed call: what left no commit
      left no trace. */
  lemma TracesAreCommits(start: State, labels: seq<Label>)
    requires Initial(start) && Runs(start, labels)
    ensures var st := After(start, labels);
            |st.db.audit| == |st.db.txs| == Calls(Events(st.hist))
  {
    Serializable(start, labels);
    LogsCountCalls(start.db, Events(After(start, labels).hist));
  }

  /** A refused reversal is such a gap: a call for an unknown transaction is answered and nothing is
      logged. */
  lemma RefusalLeavesNoTrace(start: State, orig: TxId) returns (labels: seq<Label>)
    requires Initial(start)
    ensures Runs(start, labels) && |After(start, labels).sessions| == 1
    ensures After(start, labels).sessions[0].phase == Done(RefusedWith(NotFound))
    ensures After(start, labels).db == start.db
  {
    var run := Run(0, orig);
    var s0 := Next(start, Arrive(DoReverse(orig)));
    assert Connections(s0) == {};
    var s1 := Next(s0, run);
    assert Connections(s1) == {};
    var s2 := Next(s1, run);
    var s3 := Next(s2, run);
    labels := [Arrive(DoReverse(orig)), run, run, run];
    assert labels[1..] == [run, run, run] && labels[1..][1..] == [run, run] && labels[1..][1..][1..] == [run];
    assert [run][1..] == [];
    assert Runs(s3, []) && After(s3, []) == s3;
    assert Runs(s2, [run]) && After(s2, [run]) == s3;
    assert Runs(s1, [run, run]) && After(s1, [run, run]) == s3;
    assert Runs(s0, [run, run, run]) && After(s0, [run, run, run]) == s3;
  }

  // --- Answers -------------------------------------------------------------------------------------------

  lemma {:induction false} AmongEventsBy(hist: seq<Commit>, k: nat, sid: Sid)
    requires k < |hist| && hist[k].who == Some(sid)
    ensures hist[k].event in EventsBy(hist, sid)
  {
    if k == |hist| - 1 {
    } else {
      assert hist[..|hist| - 1][k] == hist[k];
      AmongEventsBy(hist[..|hist| - 1], k, sid);
    }
  }

  /** A session's answer tells exactly what it committed: its own event on success; on a rejection, nothing
      or the record of it; on any other error, nothing. */
  lemma AnswersMatchCommits(start: State, labels: seq<Label>, sid: Sid)
    requires Initial(start) && Runs(start, labels) && sid < |After(start, labels).sessions|
    ensures AnswerOk(After(start, labels).sessions[sid], EventsBy(After(start, labels).hist, sid))
  {
    InitialInv(start);
    RunsKeep(start, labels);
  }

  /** A call that ends in an error has moved no money: it committed at most once, and what it committed left
      accounts, ledger and existing transactions as they were, and added one failed row with its audit row. */
  lemma ErrorsMoveNothing(start: State, labels: seq<Label>, sid: Sid, k: nat)
    requires Initial(start) && Runs(start, labels)
    requires var st := After(start, labels);
             && sid < |st.sessions| && st.sessions[sid].phase.Done? && !st.sessions[sid].phase.answer.Succeeded?
             && k < |st.hist| && st.hist[k].who == Some(sid)
    ensures var st := After(start, labels);
            var db, later := Replay(start.db, Events(st.hist)[..k]), Replay(start.db, Events(st.hist)[..k + 1]);
            && later.accounts == db.accounts && later.ledger == db.ledger
            && (forall id :: id in db.txs ==> id in later.txs && later.txs[id] == db.txs[id])
            && |later.audit| == |db.audit| + 1 && |later.txs| == |db.txs| + 1
            && EventsBy(st.hist, sid) == [st.hist[k].event]
  {
    var st := After(start, labels);
    ErrorCommits(start, labels, sid, k);
    Serializable(start, labels);
    LegalAt(start.db, Events(st.hist), k);
    FailureAddsOne(Replay(start.db, Events(st.hist)[..k]), st.hist[k].event);
  }

  lemma ErrorCommits(start: State, labels: seq<Label>, sid: Sid, k: nat)
    requires Initial(start) && Runs(start, labels)
    requires var st := After(start, labels);
             && sid < |st.sessions| && st.sessions[sid].phase.Done? && !st.sessions[sid].phase.answer.Succeeded?
             && k < |st.hist| && st.hist[k].who == Some(sid)
    ensures After(start, labels).hist[k].event.FailureRecorded?
    ensures EventsBy(After(start, labels).hist, sid) == [After(start, labels).hist[k].event]
  {
    AnswersMatchCommits(start, labels, sid);
    AmongEventsBy(After(start, labels).hist, k, sid);
  }

  lemma FailureAddsOne(db: DB, ev: Event)
    requires ev.FailureRecorded? && Legal(db, ev)
    ensures var later := Apply(db, ev);
            && later.accounts == db.accounts && later.ledger == db.ledger
            && (forall id :: id in db.txs ==> id in later.txs && later.txs[id] == db.txs[id])
            && |later.audit| == |db.audit| + 1 && |later.txs| == |db.txs| + 1
  {
    var txs := db.txs[ev.id := FailureRow(ev.req, ev.reason)];
    assert txs.Keys == db.txs.Keys + {ev.id};
  }

  /** What a commit put into a new row stays there, unless it is a completed transfer's status, and its audit
      row stays where it is. */
  lemma CommittedRowStays(init: DB, evs: seq<Event>, k: nat, id: TxId)
    requires LegalHistory(init, evs) && k < |evs| && id in Replay(init, evs[..k + 1]).txs
    ensures var was, now := Replay(init, evs[..k + 1]), Replay(init, evs);
            && id in now.txs && RowKept(was.txs[id], now.txs[id])
            && was.audit <= now.audit
  {
    HistoryGrows(init, evs, k + 1);
  }

  /** Every failed row of a run carries the reason that was the true one on some earlier committed database, the
      one it was found on, together with the reference; and its audit row carries the same reason, the account
      numbers that were given and the nearest paisa of the amount. */
  lemma RecordedReasonsWereTrue(start: State, labels: seq<Label>, k: nat)
    requires Initial(start) && Runs(start, labels) && k < |After(start, labels).hist|
    requires After(start, labels).hist[k].event.FailureRecorded?
    ensures var st := After(start, labels);
            var c := st.hist[k];
            var req, id := c.event.req, c.event.id;
            && id in st.db.txs && st.db.txs[id] == TxRow(Transfer, Failed, req.reference, None, Some(c.event.reason))
            && c.seen <= k && Validate(Replay(start.db, Events(st.hist)[..c.seen]), req) == st.db.txs[id].reason
    ensures var st := After(start, labels);
            var req, id, n := st.hist[k].event.req, st.hist[k].event.id, |Replay(start.db, Events(st.hist)[..k]).audit|;
            && id in st.db.txs && n < |st.db.audit|
            && var row := st.db.audit[n];
               && row.operation == Transfer && row.tx == id && row.outcome == Failure
               && row.reason == st.db.txs[id].reason && IsNearest(req.amount, row.amount)
               && (req.from != 0 && req.to != 0 ==> row.accounts == [req.from, req.to])
               && (req.from != 0 && req.to == 0 ==> row.accounts == [req.from])
               && (req.from == 0 && req.to != 0 ==> row.accounts == [req.to])
               && (req.from == 0 && req.to == 0 ==> row.accounts == [])
  {
    var evs, ev := Events(After(start, labels).hist), After(start, labels).hist[k].event;
    ReasonWasFound(start, labels, k);
    Serializable(start, labels);
    LegalAt(start.db, evs, k);
    FailureWrites(Replay(start.db, evs[..k]), ev.req, ev.reason, ev.id);
    CommittedRowStays(start.db, evs, k, ev.id);
  }

  lemma ReasonWasFound(start: State, labels: seq<Label>, k: nat)
    requires Initial(start) && Runs(start, labels) && k < |After(start, labels).hist|
    requires After(start, labels).hist[k].event.FailureRecorded?
    ensures var st := After(start, labels);
            var c := st.hist[k];
            c.seen <= k && Validate(Replay(start.db, Events(st.hist)[..c.seen]), c.event.req) == Some(c.event.reason)
  {
    InitialInv(start);
    RunsKeep(start, labels);
    InitKept(start, labels);
  }

  /** Every transfer that a run commits is between two different accounts that are active then, of one currency,
      and leaves its source on its floor. */
  lemma EveryTransferWasAllowed(start: State, labels: seq<Label>, k: nat)
    requires Initial(start) && Runs(start, labels) && k < |After(start, labels).hist|
    requires After(start, labels).hist[k].event.Transferred?
    ensures var st := After(start, labels);
            var req, db := st.hist[k].event.req, Replay(start.db, Events(st.hist)[..k]);
            && req.amount > 0.0 && req.from != req.to && req.from in db.accounts && req.to in db.accounts
            && db.accounts[req.from].status == Active && db.accounts[req.to].status == Active
            && db.accounts[req.from].currency == db.accounts[req.to].currency
            && db.accounts[req.from].balance as real - req.amount >= db.accounts[req.from].floor as real
  {
    var evs, req := Events(After(start, labels).hist), After(start, labels).hist[k].event.req;
    Serializable(start, labels);
    LegalAt(start.db, evs, k);
    ReadingMeans(Replay(start.db, evs[..k]), req);
    RefusedOnAccounts(Replay(start.db, evs[..k]), req);
  }

  /** No two commits of a run share an id, a reference or an original. */
  lemma EveryRunCommitsOnce(start: State, labels: seq<Label>, i: nat, j: nat)
    requires Initial(start) && Runs(start, labels) && i < j < |After(start, labels).hist|
    requires var hist := After(start, labels).hist;
             NewRow(hist[i].event).Some? && NewRow(hist[j].event).Some?
    ensures var hist := After(start, labels).hist;
            var (idI, rowI), (idJ, rowJ) := NewRow(hist[i].event).value, NewRow(hist[j].event).value;
            idI != idJ && !SameKey(rowI.reference, rowJ.reference) && !SameKey(rowI.reversalOf, rowJ.reversalOf)
  {
    Serializable(start, labels);
    AtMostOnce(start.db, Events(After(start, labels).hist), i, j);
  }

  // --- The reversal constraint never fires ---------------------------------------------------------------

  /** Whoever claims the reversal of `orig` holds the row lock of `orig` too, so nobody competes for it. */
  lemma ReversalKeyIsFree(st: State, sid: Sid, orig: TxId)
    requires LocksMatch(st) && sid < |st.sessions|
    requires TransactionRow(orig) in Holds(st.sessions[sid].phase)
    ensures Grantable(st, sid, ReversalKey(orig))
  {
    var held, r, row := HeldBy(st.sessions), ReversalKey(orig), TransactionRow(orig);
    assert row in held[sid];
    assert row in st.locks && st.locks[row] == sid;
    if r in st.locks {
      var j := st.locks[r];
      assert r in held[j];
      KeyNeedsRow(st.sessions[j].phase, orig);
      assert row in held[j];
    }
  }

  /** And nobody has reversed it before, because it was read as completed under that lock. */
  lemma ReversalIsInsertable(init: DB, evs: seq<Event>, db: DB, s: Session, job: Job, id: TxId, newId: TxId)
    requires Sound(db) && PhaseOk(init, evs, db, s) && job.ReversalJob? && newId !in db.txs
    requires s.phase == Writing(job, InsertAt(job), id)
    ensures Insertable(View(db, s.log), RowOf(job), newId)
  {
    AcceptedReversalIsFree(db, job.orig);
    assert Insertable(db, RowOf(job), newId);
    InsertedOk(init, evs, db, s.op, job, id, s.log, newId);
  }

  lemma ReversalUncontested(st: State, sid: Sid, job: Job, id: TxId, newId: TxId)
    requires Inv(st) && sid < |st.sessions| && Fresh(st, newId) && job.ReversalJob?
    requires st.sessions[sid].phase == Writing(job, InsertAt(job), id)
    ensures !Blocked(st, sid)
    ensures RunInsert(st, sid, job, InsertAt(job), RowOf(job), newId).sessions[sid].phase ==
            Writing(job, InsertAt(job) + 1, newId)
  {
    HistorySound(st.init, Events(st.hist));
    ReversalIsInsertable(st.init, Events(st.hist), st.db, st.sessions[sid], job, id, newId);
    ReversalKeyIsFree(st, sid, job.orig);
    UnblockedAtInsert(st, sid, job, id);
  }

  lemma UnblockedAtInsert(st: State, sid: Sid, job: Job, id: TxId)
    requires sid < |st.sessions| && st.sessions[sid].phase == Writing(job, InsertAt(job), id)
    requires job.ReversalJob? && Grantable(st, sid, ReversalKey(job.orig))
    ensures !Blocked(st, sid)
  {
    assert Script(job)[InsertAt(job)] == Create(RowOf(job));
  }

  lemma KeyNeedsRow(p: Phase, orig: TxId)
    requires ReversalKey(orig) in Holds(p)
    ensures TransactionRow(orig) in Holds(p)
  {
  }

  predicate InsertingReversal(p: Phase) {
    Inserting(p) && p.job.ReversalJob?
  }

  lemma StepOfInsert(st: State, sid: Sid, job: Job, id: TxId, newId: TxId)
    requires sid < |st.sessions| && st.sessions[sid].phase == Writing(job, InsertAt(job), id)
    ensures RunStep(st, sid, newId) == RunInsert(st, sid, job, InsertAt(job), RowOf(job), newId)
    ensures Inserting(st.sessions[sid].phase)
    ensures |RunStep(st, sid, newId).sessions| == |st.sessions|
    ensures forall i: Sid :: i < |st.sessions| && i != sid ==> RunStep(st, sid, newId).sessions[i] == st.sessions[i]
  {
    assert Script(job)[InsertAt(job)] == Create(RowOf(job));
  }

  /** With any number of concurrent reversals of the same transfer, UNIQUE(reversal_of_id) never fires: in
      every reachable state, the insert of a reversal waits for nobody and goes through. */
  lemma ConstraintNeverFires(start: State, labels: seq<Label>, sid: Sid, newId: TxId)
    requires Initial(start) && Runs(start, labels) && sid < |After(start, labels).sessions|
    requires InsertingReversal(After(start, labels).sessions[sid].phase) && Fresh(After(start, labels), newId)
    ensures var st := After(start, labels);
            var p := st.sessions[sid].phase;
            && Enabled(st, Run(sid, newId))
            && Next(st, Run(sid, newId)).sessions[sid].phase == Writing(p.job, p.k + 1, newId)
  {
    var st := After(start, labels);
    var p := st.sessions[sid].phase;
    InitialInv(start);
    RunsKeep(start, labels);
    InsertPoint(p.job, p.k);
    ReversalUncontested(st, sid, p.job, p.id, newId);
    StepOfInsert(st, sid, p.job, p.id, newId);
  }

  // --- Who is told that a transfer is already reversed ---------------------------------------------------

  predicate ToldReversed(st: State, sid: Sid) {
    sid < |st.sessions| && st.sessions[sid].phase == Done(RefusedWith(AlreadyReversed))
  }

  /** The driver fails at a request of this reversal, and its error shows one of the two strings: in the
      driver's own words, or in the number of the row at hand. */
  predicate FailsTelling(st: State, l: Label, sid: Sid) {
    && l.Fail? && l.sid == sid && sid < |st.sessions| && st.sessions[sid].op.DoReverse?
    && RequestOf(st.sessions[sid].phase).Some?
    && (Tells(l.cause) || Tells(Named(RequestOf(st.sessions[sid].phase).value)))
  }

  /** That happens somewhere in the run. */
  predicate EndedByText(st: State, labels: seq<Label>, sid: Sid)
    requires Runs(st, labels)
    decreases |labels|
  {
    labels != [] && (FailsTelling(st, labels[0], sid) || EndedByText(Next(st, labels[0]), labels[1..], sid))
  }

  lemma OwnStepsDoNotTell(st: State, sid: Sid, newId: TxId)
    requires sid < |st.sessions| && !st.sessions[sid].phase.Done? && !InsertingReversal(st.sessions[sid].phase)
    requires PhaseOk(st.init, Events(st.hist), st.db, st.sessions[sid])
    ensures !ToldReversed(RunStep(st, sid, newId), sid)
  {
  }

  lemma RunDoesNotTell(st: State, sid: Sid, newId: TxId)
    requires Inv(st) && Enabled(st, Run(sid, newId))
    ensures !ToldReversed(Next(st, Run(sid, newId)), sid)
  {
    var p := st.sessions[sid].phase;
    if InsertingReversal(p) {
      InsertPoint(p.job, p.k);
      ReversalUncontested(st, sid, p.job, p.id, newId);
      StepOfInsert(st, sid, p.job, p.id, newId);
    } else {
      OwnStepsDoNotTell(st, sid, newId);
    }
  }

  lemma FailTellsIff(st: State, sid: Sid, cause: string)
    requires Inv(st) && Enabled(st, Fail(sid, cause))
    ensures ToldReversed(Next(st, Fail(sid, cause)), sid) <==> FailsTelling(st, Fail(sid, cause), sid)
  {
    var s := st.sessions[sid];
    assert PhaseOk(st.init, Events(st.hist), st.db, s);
    TellsIff(RequestOf(s.phase).value, cause);
  }

  /** A step leaves the answers of other sessions alone. */
  lemma OthersUntold(st: State, l: Label, sid: Sid)
    requires Enabled(st, l) && !((l.Run? || l.Fail?) && l.sid == sid)
    ensures ToldReversed(Next(st, l), sid) <==> ToldReversed(st, sid)
  {
    if l.Run? || l.Fail? { StepIsLocal(st, l); }
  }

  lemma StepTellsIff(st: State, l: Label, sid: Sid)
    requires Inv(st) && Enabled(st, l)
    ensures ToldReversed(Next(st, l), sid) <==> ToldReversed(st, sid) || FailsTelling(st, l, sid)
  {
    if (l.Run? || l.Fail?) && l.sid == sid {
      match l
      case Run(_, newId) => RunDoesNotTell(st, sid, newId);
      case Fail(_, cause) => FailTellsIff(st, sid, cause);
    } else {
      OthersUntold(st, l, sid);
    }
  }

  lemma {:induction false} RunTellsIff(st: State, labels: seq<Label>, sid: Sid)
    requires Inv(st) && Runs(st, labels)
    ensures ToldReversed(After(st, labels), sid) <==> ToldReversed(st, sid) || EndedByText(st, labels, sid)
    decreases |labels|
  {
    if labels == [] {
    } else {
      StepKeeps(st, labels[0]);
      StepTellsIff(st, labels[0], sid);
      RunTellsIff(Next(st, labels[0]), labels[1..], sid);
    }
  }

  /** In every run, a call is answered ALREADY_REVERSED exactly when it was ended by a driver error whose text
      passes for a unique violation; whether anything reversed its transfer does not matter. */
  lemma ToldExactlyByText(start: State, labels: seq<Label>, sid: Sid)
    requires Initial(start) && Runs(start, labels)
    ensures ToldReversed(After(start, labels), sid) <==> EndedByText(start, labels, sid)
  {
    InitialInv(start);
    RunTellsIff(start, labels, sid);
  }

  /** In any reachable state, a reversal about to lock account 23505 is told so by any failure there, whatever
      its cause, although its transfer stands and no row reverses it. */
  lemma ToldThoughStanding(start: State, labels: seq<Label>, sid: Sid, cause: string)
    requires Initial(start) && Runs(start, labels) && sid < |After(start, labels).sessions|
    requires var s := After(start, labels).sessions[sid];
             s.op.DoReverse? && RequestOf(s.phase) == Some(LockAccount(23505))
    ensures var st := After(start, labels);
            var orig := st.sessions[sid].op.orig;
            && Enabled(st, Fail(sid, cause)) && ToldReversed(Next(st, Fail(sid, cause)), sid)
            && Standing(Next(st, Fail(sid, cause)).db.txs, orig)
            && ReversalFree(Next(st, Fail(sid, cause)).db, Some(orig))
  {
    var st := After(start, labels);
    InitialInv(start);
    RunsKeep(start, labels);
    AtAccountLock(st.init, Events(st.hist), st.db, st.sessions[sid], 23505);
    FailureAt23505(st, sid, cause);
    HistorySound(st.init, Events(st.hist));
    AcceptedReversalIsFree(st.db, st.sessions[sid].op.orig);
  }

  lemma AtAccountLock(init: DB, evs: seq<Event>, db: DB, s: Session, a: AccountId)
    requires RequestOf(s.phase) == Some(LockAccount(a)) && s.op.DoReverse? && PhaseOk(init, evs, db, s)
    ensures (s.phase.LockFirst? || s.phase.LockSecond?) && Accepting(db, s.op.orig)
  {
  }

  lemma FailureAt23505(st: State, sid: Sid, cause: string)
    requires sid < |st.sessions| && st.sessions[sid].op.DoReverse?
    requires st.sessions[sid].phase.LockFirst? || st.sessions[sid].phase.LockSecond?
    requires RequestOf(st.sessions[sid].phase) == Some(LockAccount(23505))
    ensures Enabled(st, Fail(sid, cause)) && ToldReversed(Next(st, Fail(sid, cause)), sid)
    ensures Next(st, Fail(sid, cause)).db == st.db
  {
    AccountNumberTells(cause);
  }
}
