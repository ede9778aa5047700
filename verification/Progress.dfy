/** Why concurrent calls do not deadlock and always finish: every wait goes upward in one order of
    resources, and every step uses up some of a fixed amount of work. */
module Progress {
  import opened Schema
  import opened Spec
  import opened Sessions
  import opened Interleaving
  import opened Serializability

  // --- The order of waiting ---------------------------------------------------------------------------

  /** Connection slot, then transaction row, then account rows in ascending order, then unique keys. */
  datatype Rank = Rank(kind: int, number: int)

  predicate Below(a: Rank, b: Rank) {
    a.kind < b.kind || (a.kind == b.kind && a.number < b.number)
  }

  function RankOf(r: Resource): (n: Rank) {
    match r
    case TransactionRow(_) => Rank(1, 0)
    case AccountRow(a) => Rank(2, a)
    case ReferenceKey(_) => Rank(3, 0)
    case ReversalKey(_) => Rank(3, 0)
    case PrimaryKey(_) => Rank(3, 0)
  }

  /** What a session that cannot go on is waiting for. */
  function Level(p: Phase): (n: Rank) {
    if Wants(p).Some? then RankOf(Wants(p).value) else Rank(0, 0)
  }

  /** Session `i` is blocked and `j` is in its way: `j` has the lock that `i` wants, or, when all
      connections are taken, one of them. */
  predicate WaitsFor(st: State, i: Sid, j: Sid)
    requires i < |st.sessions|
  {
    var p := st.sessions[i].phase;
    && j < |st.sessions|
    && (|| (AwaitsConnection(p) && !ConnectionFree(st) && j in Connections(st))
        || (Wants(p).Some? && Wants(p).value in st.locks && st.locks[Wants(p).value] == j && j != i))
  }

  /** Whatever a session holds lies below whatever it still wants. */
  lemma HoldsBelowWants(st: State, i: Sid, r: Resource)
    requires Inv(st) && i < |st.sessions|
    requires r in Holds(st.sessions[i].phase) && Wants(st.sessions[i].phase).Some?
    ensures Below(RankOf(r), Level(st.sessions[i].phase))
  {
    PhaseHoldsBelow(st.init, Events(st.hist), st.db, st.sessions[i], r);
  }

  lemma PhaseHoldsBelow(init: DB, evs: seq<Event>, db: DB, s: Session, r: Resource)
    requires PhaseOk(init, evs, db, s) && r in Holds(s.phase) && Wants(s.phase).Some?
    ensures Below(RankOf(r), Level(s.phase))
  {
    if s.phase.Writing? {
      InsertPoint(s.phase.job, s.phase.k);
    }
  }

  /** Waiting goes upward. */
  lemma WaitsUpward(st: State, i: Sid, j: Sid)
    requires Inv(st) && i < |st.sessions| && WaitsFor(st, i, j) && j < |st.sessions| && Blocked(st, j)
    ensures Below(Level(st.sessions[i].phase), Level(st.sessions[j].phase))
  {
    var p := st.sessions[i].phase;
    if AwaitsConnection(p) {
      BlockedInTransaction(st, j);
    } else {
      LockedUpward(st, j, Wants(p).value);
    }
  }

  lemma LockedUpward(st: State, j: Sid, r: Resource)
    requires Inv(st) && j < |st.sessions| && Blocked(st, j) && r in st.locks && st.locks[r] == j
    ensures Below(RankOf(r), Level(st.sessions[j].phase))
  {
    assert r in HeldBy(st.sessions)[j];
    HolderInTransaction(st.sessions[j].phase, r);
    BlockedInTransaction(st, j);
    HoldsBelowWants(st, j, r);
  }

  lemma HolderInTransaction(p: Phase, r: Resource)
    requires r in Holds(p)
    ensures InTransaction(p)
  {
  }

  lemma BlockedInTransaction(st: State, j: Sid)
    requires j < |st.sessions| && Blocked(st, j) && InTransaction(st.sessions[j].phase)
    ensures Wants(st.sessions[j].phase).Some? && Below(Rank(0, 0), Level(st.sessions[j].phase))
  {
  }

  predicate WaitingPath(st: State, path: seq<Sid>) {
    && |path| >= 2
    && (forall k :: 0 <= k < |path| ==> path[k] < |st.sessions|)
    && (forall k :: 0 <= k < |path| - 1 ==> WaitsFor(st, path[k], path[k + 1]))
  }

  lemma WaitersAreBlocked(st: State, i: Sid, j: Sid)
    requires i < |st.sessions| && WaitsFor(st, i, j)
    ensures Blocked(st, i)
  {
  }

  /** Every wait of a blocked session for a blocked session goes upward. */
  ghost predicate UpwardWaits(st: State) {
    forall i: Sid, j: Sid :: i < |st.sessions| && j < |st.sessions| && WaitsFor(st, i, j) && Blocked(st, j) ==>
      Below(Level(st.sessions[i].phase), Level(st.sessions[j].phase))
  }

  lemma AllWaitUpward(st: State)
    requires Inv(st)
    ensures UpwardWaits(st)
  {
    forall i: Sid, j: Sid | i < |st.sessions| && j < |st.sessions| && WaitsFor(st, i, j) && Blocked(st, j)
      ensures Below(Level(st.sessions[i].phase), Level(st.sessions[j].phase))
    {
      WaitsUpward(st, i, j);
    }
  }

  lemma {:induction false} PathUpward(st: State, path: seq<Sid>)
    requires UpwardWaits(st) && WaitingPath(st, path) && Blocked(st, path[|path| - 1])
    ensures Below(Level(st.sessions[path[0]].phase), Level(st.sessions[path[|path| - 1]].phase))
    decreases |path|
  {
    var n := |path| - 1;
    assert WaitsFor(st, path[n - 1], path[n]);
    if n == 1 {
    } else {
      WaitersAreBlocked(st, path[n - 1], path[n]);
      PathUpward(st, path[..n]);
    }
  }

  /** No deadlock: the waits-for graph of a reachable state has no cycle. */
  lemma NoDeadlock(start: State, labels: seq<Label>, path: seq<Sid>)
    requires Initial(start) && Runs(start, labels) && WaitingPath(After(start, labels), path)
    ensures path[0] != path[|path| - 1]
  {
    var st := After(start, labels);
    InitialInv(start);
    RunsKeep(start, labels);
    AllWaitUpward(st);
    assert WaitsFor(st, path[0], path[1]);
    WaitersAreBlocked(st, path[0], path[1]);
    if path[0] == path[|path| - 1] {
      PathUpward(st, path);
    }
  }

  // --- Somebody can always go on -------------------------------------------------------------------------

  lemma BlockedHasReason(st: State, i: Sid) returns (j: Sid)
    requires Inv(st) && i < |st.sessions| && Blocked(st, i)
    ensures j < |st.sessions| && WaitsFor(st, i, j) && !st.sessions[j].phase.Done?
  {
    var p := st.sessions[i].phase;
    if Wants(p).Some? && !Grantable(st, i, Wants(p).value) {
      j := st.locks[Wants(p).value];
      HolderIsBusy(st, Wants(p).value);
    } else {
      j := Occupant(st);
    }
  }

  lemma HolderIsBusy(st: State, r: Resource)
    requires LocksMatch(st) && r in st.locks
    ensures st.locks[r] < |st.sessions| && !st.sessions[st.locks[r]].phase.Done?
  {
    assert r in HeldBy(st.sessions)[st.locks[r]];
  }

  /** When no connection is free, somebody has one. */
  lemma Occupant(st: State) returns (j: Sid)
    requires !ConnectionFree(st)
    ensures j in Connections(st)
  {
    assert (forall k: Sid :: k !in Connections(st)) ==> Connections(st) == {};
    j :| j in Connections(st);
  }

  /** The blocked sessions that wait above `n`. */
  function WaitingAbove(st: State, n: Rank): (s: set<Sid>) {
    set k: Sid | k < |st.sessions| && Blocked(st, k) && Below(n, Level(st.sessions[k].phase))
  }

  /** From any unfinished session, following what it waits for ends at one that can go on. */
  lemma {:induction false} FindRunnable(st: State, i: Sid) returns (j: Sid)
    requires Inv(st) && i < |st.sessions| && !st.sessions[i].phase.Done?
    ensures j < |st.sessions| && !st.sessions[j].phase.Done? && !Blocked(st, j)
    decreases |WaitingAbove(st, Level(st.sessions[i].phase))|
  {
    if !Blocked(st, i) {
      return i;
    }
    var k := BlockedHasReason(st, i);
    if !Blocked(st, k) {
      return k;
    }
    WaitsUpward(st, i, k);
    FewerAbove(st, Level(st.sessions[i].phase), k);
    j := FindRunnable(st, k);
  }

  lemma FewerAbove(st: State, n: Rank, k: Sid)
    requires k < |st.sessions| && Blocked(st, k) && Below(n, Level(st.sessions[k].phase))
    ensures |WaitingAbove(st, Level(st.sessions[k].phase))| < |WaitingAbove(st, n)|
  {
    Smaller(WaitingAbove(st, Level(st.sessions[k].phase)), WaitingAbove(st, n), k);
  }

  lemma Smaller(a: set<Sid>, b: set<Sid>, x: Sid)
    requires a <= b && x in b && x !in a
    ensures |a| < |b|
  {
    assert a <= b - {x};
    SubsetCard(a, b - {x});
  }

  lemma {:induction false} SubsetCard(a: set<Sid>, b: set<Sid>)
    requires a <= b
    ensures |a| <= |b|
    decreases |a|
  {
    if a == {} {
    } else {
      assert (forall x: Sid :: x !in a) ==> a == {};
      var x: Sid :| x in a;
      SubsetCard(a - {x}, b - {x});
    }
  }

  /** Ids never run out. */
  lemma FreshExists(st: State) returns (id: TxId)
    ensures Fresh(st, id)
  {
    var taken := (set t | t in st.db.txs :: t.uuid) + (set r | r in st.locks && r.PrimaryKey? :: r.id.uuid);
    var n := BeyondAll(taken);
    id := TxId(n);
    assert forall t :: t in st.db.txs ==> t.uuid in taken;
    assert forall r :: r in st.locks && r.PrimaryKey? ==> r.id.uuid in taken;
    assert id.uuid !in taken;
  }

  lemma {:induction false} BeyondAll(s: set<nat>) returns (n: nat)
    ensures forall x: nat :: x in s ==> x < n
    decreases |s|
  {
    if s == {} {
      n := 0;
    } else {
      assert (forall x: nat :: x !in s) ==> s == {};
      var x: nat :| x in s;
      var m := BeyondAll(s - {x});
      n := if x < m then m else x + 1;
      forall y: nat | y in s ensures y < n {
        assert y == x || y in s - {x};
      }
    }
  }

  /** In every reachable state with an unfinished session, some session can take an ordinary step. */
  lemma SomeoneCanRun(start: State, labels: seq<Label>, i: Sid) returns (sid: Sid, newId: TxId)
    requires Initial(start) && Runs(start, labels)
    requires i < |After(start, labels).sessions| && !After(start, labels).sessions[i].phase.Done?
    ensures Enabled(After(start, labels), Run(sid, newId))
  {
    InitialInv(start);
    RunsKeep(start, labels);
    sid := FindRunnable(After(start, labels), i);
    newId := FreshExists(After(start, labels));
  }

  // --- Every run ends ---------------------------------------------------------------------------------------

  /** How many steps a phase has left at most. */
  function Fuel(p: Phase): (n: nat) {
    match p
    case Arrived => 20
    case AwaitConnection => 19
    case LockOriginal(_) => 18
    case CheckOriginal(_, _) => 17
    case ReadEntries(_) => 16
    case LockFirst(_) => 15
    case LockSecond(_, _) => 14
    case CheckAccounts(_, _, _) => 13
    case Writing(job, k, _) =>
      (if job.FailureJob? then 1 else 5) + if k < |Script(job)| then |Script(job)| - k else 0
    case AwaitRecording(_, _, _) => 4
    case Done(_) => 0
  }

  function TotalFuel(sessions: seq<Session>): (n: nat) {
    if sessions == [] then 0
    else TotalFuel(sessions[..|sessions| - 1]) + Fuel(sessions[|sessions| - 1].phase)
  }

  lemma {:induction false} FuelOfUpdate(sessions: seq<Session>, i: nat, s: Session)
    requires i < |sessions|
    ensures TotalFuel(sessions[i := s]) == TotalFuel(sessions) - Fuel(sessions[i].phase) + Fuel(s.phase)
  {
    var n := |sessions| - 1;
    var later := sessions[i := s];
    if i == n {
      assert later[..n] == sessions[..n];
    } else {
      assert later[..n] == sessions[..n][i := s];
      FuelOfUpdate(sessions[..n], i, s);
    }
  }

  predicate SessionStep(l: Label) {
    l.Run? || l.Fail?
  }

  /** `later` replaces one session of `st`, and takes fuel from it. */
  predicate Uses(st: State, later: State, sid: Sid)
    requires sid < |st.sessions|
  {
    && |later.sessions| == |st.sessions|
    && later.sessions == st.sessions[sid := later.sessions[sid]]
    && Fuel(later.sessions[sid].phase) < Fuel(st.sessions[sid].phase)
  }

  lemma ScriptsAreShort(job: Job)
    ensures |Script(job)| <= if job.FailureJob? then 2 else 7
  {
  }

  lemma WriteUses(st: State, sid: Sid, newId: TxId)
    requires sid < |st.sessions| && st.sessions[sid].phase.Writing?
    ensures Uses(st, RunStep(st, sid, newId), sid)
  {
  }

  lemma RunUses(st: State, sid: Sid, newId: TxId)
    requires sid < |st.sessions| && !st.sessions[sid].phase.Done? && !st.sessions[sid].phase.Writing?
    ensures Uses(st, RunStep(st, sid, newId), sid)
  {
    match st.sessions[sid].phase
    case CheckAccounts(job, _, _) => ScriptsAreShort(job);
    case AwaitRecording(req, reason, seen) => ScriptsAreShort(FailureJob(req, reason, seen));
    case _ =>
  }

  /** A step replaces its own session only. */
  lemma StepIsLocal(st: State, l: Label)
    requires SessionStep(l) && Enabled(st, l)
    ensures Uses(st, Next(st, l), l.sid)
  {
    if l.Run? {
      if st.sessions[l.sid].phase.Writing? {
        WriteUses(st, l.sid, l.newId);
      } else {
        RunUses(st, l.sid, l.newId);
      }
    }
  }

  /** Every step, even a failing one, uses up fuel. */
  lemma StepUsesFuel(st: State, l: Label)
    requires SessionStep(l) && Enabled(st, l)
    ensures TotalFuel(Next(st, l).sessions) < TotalFuel(st.sessions)
  {
    StepIsLocal(st, l);
    FuelOfUpdate(st.sessions, l.sid, Next(st, l).sessions[l.sid]);
  }

  /** Calls in flight take at most their total fuel in steps, whatever the interleaving and whatever
      fails. */
  lemma {:induction false} RunsAreShort(st: State, labels: seq<Label>)
    requires Runs(st, labels) && forall l :: l in labels ==> SessionStep(l)
    ensures |labels| + TotalFuel(After(st, labels).sessions) <= TotalFuel(st.sessions)
    decreases |labels|
  {
    if labels == [] {
    } else {
      StepUsesFuel(st, labels[0]);
      RunsAreShort(Next(st, labels[0]), labels[1..]);
    }
  }

  predicate AllDone(st: State) {
    forall i :: 0 <= i < |st.sessions| ==> st.sessions[i].phase.Done?
  }

  /** From any state the invariant allows, ordinary steps alone bring every call to its answer. */
  lemma {:induction false} AllCanFinish(st: State) returns (labels: seq<Label>)
    requires Inv(st)
    ensures forall l :: l in labels ==> l.Run?
    ensures Runs(st, labels) && AllDone(After(st, labels))
    decreases TotalFuel(st.sessions)
  {
    if AllDone(st) {
      return [];
    }
    var i :| 0 <= i < |st.sessions| && !st.sessions[i].phase.Done?;
    var sid := FindRunnable(st, i);
    var newId := FreshExists(st);
    var l := Run(sid, newId);
    StepKeeps(st, l);
    StepUsesFuel(st, l);
    var rest := AllCanFinish(Next(st, l));
    labels := [l] + rest;
    assert labels[1..] == rest;
  }

  // --- The pool ----------------------------------------------------------------------------------------

  /** Only a session that was given a free connection starts a transaction. */
  lemma BeginsWithConnection(st: State, l: Label)
    requires SessionStep(l) && Enabled(st, l)
    requires l.sid < |Next(st, l).sessions|
    requires InTransaction(Next(st, l).sessions[l.sid].phase) && !InTransaction(st.sessions[l.sid].phase)
    ensures ConnectionFree(st)
  {
  }

  lemma PoolKept(st: State, l: Label)
    requires Enabled(st, l) && |Connections(st)| <= 200
    ensures |Connections(Next(st, l))| <= 200
  {
    var before, after := Connections(st), Connections(Next(st, l));
    if SessionStep(l) {
      StepIsLocal(st, l);
      if l.sid in after && l.sid !in before {
        BeginsWithConnection(st, l);
        SubsetCard(after, before + {l.sid});
      } else {
        SubsetCard(after, before);
      }
    } else {
      SubsetCard(after, before);
    }
  }

  /** A call waits to begin exactly while 200 transactions are open. */
  lemma WaitsAtBeginIff(st: State, i: Sid)
    requires i < |st.sessions| && AwaitsConnection(st.sessions[i].phase)
    ensures Blocked(st, i) <==> |Connections(st)| >= 200
  {
  }

  /** The pool is never overdrawn, because a transaction starts on a free connection only. */
  lemma {:induction false} PoolBounded(st: State, labels: seq<Label>)
    requires Runs(st, labels) && |Connections(st)| <= 200
    ensures |Connections(After(st, labels))| <= 200
    decreases |labels|
  {
    if labels == [] {
    } else {
      PoolKept(st, labels[0]);
      PoolBounded(Next(st, labels[0]), labels[1..]);
    }
  }
}
