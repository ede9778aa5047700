/** Taking a history of transfers back, newest first. */
module Unwinding {
  import opened Money
  import opened Schema
  import opened Decoding
  import opened Spec
  import opened Integrity
  import opened Accounting
  import opened Consequences
  import opened Reduction

  // --- Histories one after the other ------------------------------------------------------------------

  lemma {:induction false} HistoryConcat(init: DB, evs: seq<Event>, more: seq<Event>)
    ensures Replay(init, evs + more) == Replay(Replay(init, evs), more)
    ensures LegalHistory(init, evs + more) <==> LegalHistory(init, evs) && LegalHistory(Replay(init, evs), more)
    decreases |more|
  {
    if more == [] {
      assert evs + more == evs;
    } else {
      var all := evs + more;
      assert all[..|all| - 1] == evs + more[..|more| - 1];
      HistoryConcat(init, evs, more[..|more| - 1]);
    }
  }

  lemma HistoryCons(db: DB, ev: Event, more: seq<Event>)
    ensures LegalHistory(db, [ev] + more) <==> Legal(db, ev) && LegalHistory(Apply(db, ev), more)
    ensures Replay(db, [ev] + more) == Replay(Apply(db, ev), more)
  {
    assert [ev][..0] == [] && LegalHistory(db, []) && Replay(db, []) == db;
    assert Replay(db, [ev]) == Apply(db, ev) && (LegalHistory(db, [ev]) <==> Legal(db, ev));
    HistoryConcat(db, [ev], more);
  }

  // --- The reversals of what stands -------------------------------------------------------------------

  /** A transfer that moved money and is not in `undone`; one stored as zero paise cannot be reversed. */
  predicate Due(ev: Event, undone: set<TxId>) {
    ev.Transferred? && Rnd(ev.req.amount) != 0 && ev.id !in undone
  }

  /** One reversal for each transfer that is due, newest first, with ids after `base`. */
  function UndoDue(evs: seq<Event>, undone: set<TxId>, base: nat): (undos: seq<Event>) {
    if evs == [] then []
    else
      var last := evs[|evs| - 1];
      (if Due(last, undone) then [Undone(last.id, TxId(base + |evs|))] else [])
      + UndoDue(evs[..|evs| - 1], undone, base)
  }

  /** The reversals of every transfer that the history itself has not undone. */
  function UndoAll(evs: seq<Event>, base: nat): (undos: seq<Event>) {
    UndoDue(evs, UndoneIn(evs), base)
  }

  // --- What is left to be undone -------------------------------------------------------------------------

  /** What account `a` has when everything after the first `n` events is taken back: its opening balance, the
      standing transfers among those events, and what rounding slipped, which no reversal takes back. */
  function Left(init: DB, evs: seq<Event>, n: nat, a: AccountId): (b: int)
    requires n <= |evs|
  {
    Opening(init, evs, a) + NetOfEvents(evs[..n], UndoneIn(evs), a) + Slips(init, evs, a)
  }

  /** The destination of each standing transfer among the first `n` events stays on its floor without it. */
  predicate PayableTo(init: DB, evs: seq<Event>, n: nat)
    requires n <= |evs|
  {
    var accounts := Replay(init, evs).accounts;
    forall k :: 0 <= k < n && Due(evs[k], UndoneIn(evs)) ==>
      evs[k].req.to in accounts && Left(init, evs, k, evs[k].req.to) >= accounts[evs[k].req.to].floor
  }

  predicate Payable(init: DB, evs: seq<Event>) {
    PayableTo(init, evs, |evs|)
  }

  /** A transfer is still there to be reversed. */
  predicate Waiting(db: DB, ev: Event)
    requires ev.Transferred?
  {
    Accepting(db, ev.id) && Decode(EntriesOf(db.ledger, ev.id)) == Posting(ev.req.from, ev.req.to, Rnd(ev.req.amount))
  }

  predicate AllWaiting(db: DB, front: seq<Event>, undone: set<TxId>) {
    forall ev :: ev in front && Due(ev, undone) ==> Waiting(db, ev)
  }

  predicate IdsFree(db: DB, base: nat, n: nat) {
    forall id :: id in db.txs ==> !(base < id.uuid <= base + n)
  }

  predicate AccountsLeft(init: DB, evs: seq<Event>, n: nat, accounts: map<AccountId, Account>)
    requires n <= |evs|
  {
    && SameButBalances(accounts, Replay(init, evs).accounts)
    && forall a :: a in accounts ==> accounts[a].balance == Left(init, evs, n, a)
  }

  /** Everything that stood after the first `n` events has been taken back in `db`. */
  predicate Unwound(init: DB, evs: seq<Event>, n: nat, db: DB, base: nat)
    requires n <= |evs|
  {
    && Sound(db)
    && AccountsLeft(init, evs, n, db.accounts)
    && AllWaiting(db, evs[..n], UndoneIn(evs))
    && IdsFree(db, base, n)
  }

  // --- One step back -------------------------------------------------------------------------------------

  /** A waiting transfer is accepted exactly when its destination can pay it back, and then given back. */
  lemma WaitingIsAccepted(db: DB, req: TransferRequest, id: TxId, rev: TxId)
    requires Sound(db) && Waiting(db, Transferred(req, id)) && Rnd(req.amount) != 0 && rev !in db.txs
    requires req.from in db.accounts && req.to in db.accounts
    ensures Legal(db, Undone(id, rev)) <==> CoversReversal(db.accounts[req.to], Rnd(req.amount))
    ensures Apply(db, Undone(id, rev)).accounts == GivenBack(db.accounts, Posting(req.from, req.to, Rnd(req.amount)))
  {
    AcceptedReversalIsFree(db, id);
    AcceptedIff(db, id, rev);
    ExactExchange(db.accounts, Posting(req.from, req.to, Rnd(req.amount)));
  }

  lemma GivenBackMoves(accounts: map<AccountId, Account>, p: Posting)
    requires p.from in accounts && p.to in accounts && p.from != p.to
    ensures SameButBalances(GivenBack(accounts, p), accounts)
    ensures forall a :: a in accounts ==>
              GivenBack(accounts, p)[a].balance == accounts[a].balance - PairNet(p.from, p.to, p.amount, a)
  {
  }

  lemma LeftStep(init: DB, evs: seq<Event>, n: nat, a: AccountId)
    requires n < |evs|
    ensures Left(init, evs, n + 1, a) ==
            Left(init, evs, n, a)
            + if Due(evs[n], UndoneIn(evs))
              then PairNet(evs[n].req.from, evs[n].req.to, Rnd(evs[n].req.amount), a) else 0
  {
    assert evs[..n + 1][..n] == evs[..n];
  }

  /** What else was waiting still is. */
  lemma OthersWait(db: DB, front: seq<Event>, undone: set<TxId>, orig: TxId, rev: TxId)
    requires Legal(db, Undone(orig, rev)) && AllWaiting(db, front, undone)
    requires forall ev :: ev in front && ev.Transferred? ==> ev.id != orig
    ensures AllWaiting(Apply(db, Undone(orig, rev)), front, undone)
  {
    forall ev | ev in front && Due(ev, undone) ensures Waiting(Apply(db, Undone(orig, rev)), ev) {
      WaitsThrough(db, Undone(orig, rev), ev);
    }
  }

  lemma WaitsThrough(db: DB, ev: Event, e: Event)
    requires Legal(db, ev) && e.Transferred? && Waiting(db, e) && (ev.Undone? ==> ev.orig != e.id)
    ensures Waiting(Apply(db, ev), e)
  {
    ApplyGrows(db, ev);
  }

  lemma DistinctIds(init: DB, evs: seq<Event>, n: nat, ev: Event)
    requires LegalHistory(init, evs) && n < |evs| && ev in evs[..n]
    requires NewRow(ev).Some? && NewRow(evs[n]).Some?
    ensures NewRow(ev).value.0 != NewRow(evs[n]).value.0
  {
    var i :| 0 <= i < n && evs[i] == ev;
    AtMostOnce(init, evs, i, n);
  }

  lemma TransferAt(init: DB, evs: seq<Event>, n: nat)
    requires LegalHistory(init, evs) && n < |evs| && evs[n].Transferred?
    ensures var accounts, req := Replay(init, evs).accounts, evs[n].req;
            req.from in accounts && req.to in accounts && req.from != req.to
    ensures forall e :: e in evs[..n] && e.Transferred? ==> e.id != evs[n].id
  {
    LegalAt(init, evs, n);
    HistoryGrows(init, evs, n);
    forall e | e in evs[..n] && e.Transferred? ensures e.id != evs[n].id { DistinctIds(init, evs, n, e); }
  }

  lemma FewerWait(db: DB, evs: seq<Event>, n: nat, undone: set<TxId>)
    requires n < |evs| && AllWaiting(db, evs[..n + 1], undone)
    ensures AllWaiting(db, evs[..n], undone) && (Due(evs[n], undone) ==> Waiting(db, evs[n]))
  {
    assert evs[..n + 1] == evs[..n] + [evs[n]];
  }

  lemma StepIdle(init: DB, evs: seq<Event>, n: nat, db: DB, base: nat)
    requires n < |evs| && !Due(evs[n], UndoneIn(evs)) && Unwound(init, evs, n + 1, db, base)
    ensures Unwound(init, evs, n, db, base)
  {
    forall a | a in db.accounts ensures db.accounts[a].balance == Left(init, evs, n, a) { LeftStep(init, evs, n, a); }
    FewerWait(db, evs, n, UndoneIn(evs));
  }

  lemma AccountsStepBack(init: DB, evs: seq<Event>, n: nat, accounts: map<AccountId, Account>)
    requires LegalHistory(init, evs) && n < |evs| && Due(evs[n], UndoneIn(evs))
    requires AccountsLeft(init, evs, n + 1, accounts)
    ensures var req := evs[n].req;
            && req.from in accounts && req.to in accounts
            && AccountsLeft(init, evs, n, GivenBack(accounts, Posting(req.from, req.to, Rnd(req.amount))))
            && (CoversReversal(accounts[req.to], Rnd(req.amount)) <==>
                Left(init, evs, n, req.to) >= Replay(init, evs).accounts[req.to].floor)
  {
    var req := evs[n].req;
    TransferAt(init, evs, n);
    GivenBackMoves(accounts, Posting(req.from, req.to, Rnd(req.amount)));
    forall a | a in accounts
      ensures Left(init, evs, n + 1, a) == Left(init, evs, n, a) + PairNet(req.from, req.to, Rnd(req.amount), a)
    {
      LeftStep(init, evs, n, a);
    }
  }

  /** The next reversal is accepted exactly when the destination can pay it. */
  lemma StepDue(init: DB, evs: seq<Event>, n: nat, db: DB, base: nat)
    requires LegalHistory(init, evs) && n < |evs| && Due(evs[n], UndoneIn(evs))
    requires Unwound(init, evs, n + 1, db, base)
    ensures var undo, to := Undone(evs[n].id, TxId(base + n + 1)), evs[n].req.to;
            && to in Replay(init, evs).accounts
            && (Legal(db, undo) <==> Left(init, evs, n, to) >= Replay(init, evs).accounts[to].floor)
            && (Legal(db, undo) ==> Unwound(init, evs, n, Apply(db, undo), base))
  {
    var req, id, rev := evs[n].req, evs[n].id, TxId(base + n + 1);
    AccountsStepBack(init, evs, n, db.accounts);
    FewerWait(db, evs, n, UndoneIn(evs));
    WaitingIsAccepted(db, req, id, rev);
    if Legal(db, Undone(id, rev)) {
      ApplyKeepsSound(db, Undone(id, rev));
      TransferAt(init, evs, n);
      OthersWait(db, evs[..n], UndoneIn(evs), id, rev);
      IdsStayFree(db, Undone(id, rev), base, n);
    }
  }

  lemma IdsStayFree(db: DB, undo: Event, base: nat, n: nat)
    requires undo.Undone? && undo.id == TxId(base + n + 1) && IdsFree(db, base, n + 1) && undo.orig in db.txs
    ensures IdsFree(Apply(db, undo), base, n)
  {
  }

  // --- All the way ---------------------------------------------------------------------------------------

  /** From `db`, the reversals in `undos` are all accepted exactly when the first `n` events can be paid back,
      and then leave every account with what it was opened with and what rounding slipped. */
  predicate Ends(init: DB, evs: seq<Event>, n: nat, db: DB, undos: seq<Event>)
    requires n <= |evs|
  {
    && (LegalHistory(db, undos) <==> PayableTo(init, evs, n))
    && (LegalHistory(db, undos) ==> AccountsLeft(init, evs, 0, Replay(db, undos).accounts))
  }

  lemma UndoDueSnoc(evs: seq<Event>, n: nat, undone: set<TxId>, base: nat)
    requires n < |evs|
    ensures UndoDue(evs[..n + 1], undone, base) ==
            if Due(evs[n], undone) then [Undone(evs[n].id, TxId(base + n + 1))] + UndoDue(evs[..n], undone, base)
            else UndoDue(evs[..n], undone, base)
  {
    assert evs[..n + 1][..n] == evs[..n];
    assert [] + UndoDue(evs[..n], undone, base) == UndoDue(evs[..n], undone, base);
  }

  lemma PayableSnoc(init: DB, evs: seq<Event>, n: nat)
    requires n < |evs|
    ensures PayableTo(init, evs, n + 1) <==>
            PayableTo(init, evs, n)
            && (Due(evs[n], UndoneIn(evs)) ==>
                  var accounts, to := Replay(init, evs).accounts, evs[n].req.to;
                  to in accounts && Left(init, evs, n, to) >= accounts[to].floor)
  {
  }

  /** One more reversal in front. */
  lemma EndsDue(init: DB, evs: seq<Event>, n: nat, db: DB, base: nat)
    requires n < |evs| && Due(evs[n], UndoneIn(evs)) && evs[n].req.to in Replay(init, evs).accounts
    requires var undo, to := Undone(evs[n].id, TxId(base + n + 1)), evs[n].req.to;
             && (Legal(db, undo) <==> Left(init, evs, n, to) >= Replay(init, evs).accounts[to].floor)
             && (Legal(db, undo) ==> Ends(init, evs, n, Apply(db, undo), UndoDue(evs[..n], UndoneIn(evs), base)))
    ensures Ends(init, evs, n + 1, db, UndoDue(evs[..n + 1], UndoneIn(evs), base))
  {
    UndoDueSnoc(evs, n, UndoneIn(evs), base);
    PayableSnoc(init, evs, n);
    HistoryCons(db, Undone(evs[n].id, TxId(base + n + 1)), UndoDue(evs[..n], UndoneIn(evs), base));
  }

  lemma EndsIdle(init: DB, evs: seq<Event>, n: nat, db: DB, base: nat)
    requires n < |evs| && !Due(evs[n], UndoneIn(evs))
    requires Ends(init, evs, n, db, UndoDue(evs[..n], UndoneIn(evs), base))
    ensures Ends(init, evs, n + 1, db, UndoDue(evs[..n + 1], UndoneIn(evs), base))
  {
    UndoDueSnoc(evs, n, UndoneIn(evs), base);
    PayableSnoc(init, evs, n);
  }

  lemma NoneLeft(init: DB, evs: seq<Event>, db: DB, base: nat)
    requires AccountsLeft(init, evs, 0, db.accounts)
    ensures Ends(init, evs, 0, db, UndoDue(evs[..0], UndoneIn(evs), base))
  {
    assert evs[..0] == [];
  }

  lemma {:induction false} UnwindAll(init: DB, evs: seq<Event>, n: nat, db: DB, base: nat)
    requires LegalHistory(init, evs) && n <= |evs| && Unwound(init, evs, n, db, base)
    ensures Ends(init, evs, n, db, UndoDue(evs[..n], UndoneIn(evs), base))
  {
    if n == 0 {
      NoneLeft(init, evs, db, base);
    } else {
      var m: nat := n - 1;
      if Due(evs[m], UndoneIn(evs)) {
        var undo := Undone(evs[m].id, TxId(base + m + 1));
        StepDue(init, evs, m, db, base);
        if Legal(db, undo) { UnwindAll(init, evs, m, Apply(db, undo), base); }
        EndsDue(init, evs, m, db, base);
      } else {
        StepIdle(init, evs, m, db, base);
        UnwindAll(init, evs, m, db, base);
        EndsIdle(init, evs, m, db, base);
      }
    }
  }

  /** What the history posted and did not undo is waiting at its end. */
  lemma {:induction false} StandingWaits(init: DB, evs: seq<Event>, ev: Event)
    requires Seeded(init) && LegalHistory(init, evs) && ev in evs && Due(ev, UndoneIn(evs))
    ensures Waiting(Replay(init, evs), ev)
  {
    var front, last := evs[..|evs| - 1], evs[|evs| - 1];
    var db := Replay(init, front);
    if ev == last {
      HistorySound(init, front);
      PostedPairDecodes(db, ev.req, ev.id);
    } else {
      assert evs == front + [last];
      StandingWaits(init, front, ev);
      WaitsThrough(db, last, ev);
    }
  }

  lemma NothingTakenBack(init: DB, evs: seq<Event>)
    requires Seeded(init) && LegalHistory(init, evs)
    ensures AccountsLeft(init, evs, |evs|, Replay(init, evs).accounts)
  {
    assert evs[..|evs|] == evs;
    var accounts := Replay(init, evs).accounts;
    forall a | a in accounts ensures accounts[a].balance == Left(init, evs, |evs|, a) {
      LedgerAgrees(init, evs, a);
      HistoryReduction(init, evs, a);
      StandingOfEvents(init, evs, a);
    }
  }

  /** For every legal history, with any amounts, floors and reversals: reversing everything that stands, newest
      first, is accepted at every step exactly when each destination stays on its floor without the transfer,
      counted over the standing transfers before it; and then every account has what it was opened with and
      what rounding slipped. */
  lemma UnwindsIffPayable(init: DB, evs: seq<Event>, base: nat)
    requires Seeded(init) && LegalHistory(init, evs)
    requires forall id :: id in Replay(init, evs).txs ==> id.uuid <= base
    ensures LegalHistory(init, evs + UndoAll(evs, base)) <==> Payable(init, evs)
    ensures Payable(init, evs) ==>
              var accounts := Replay(init, evs + UndoAll(evs, base)).accounts;
              && accounts.Keys == Replay(init, evs).accounts.Keys
              && forall a :: a in accounts ==> accounts[a].balance == Opening(init, evs, a) + Slips(init, evs, a)
  {
    var db := Replay(init, evs);
    assert evs[..|evs|] == evs && evs[..0] == [];
    HistorySound(init, evs);
    NothingTakenBack(init, evs);
    forall ev | ev in evs && Due(ev, UndoneIn(evs)) ensures Waiting(db, ev) { StandingWaits(init, evs, ev); }
    UnwindAll(init, evs, |evs|, db, base);
    HistoryConcat(init, evs, UndoAll(evs, base));
  }

  // --- When it can be paid ---------------------------------------------------------------------------------

  /** An account is opened once. */
  lemma {:induction false} OpeningFixed(init: DB, evs: seq<Event>, k: nat, a: AccountId)
    requires LegalHistory(init, evs) && k <= |evs| && a in Replay(init, evs[..k]).accounts
    ensures Opening(init, evs, a) == Opening(init, evs[..k], a)
  {
    if k == |evs| {
      assert evs[..k] == evs;
    } else {
      var front := evs[..|evs| - 1];
      assert front[..k] == evs[..k];
      OpeningFixed(init, front, k, a);
      HistoryGrows(init, front, k);
    }
  }

  /** The destination of transfer `k` has its floor in the history that skips whatever is undone. */
  predicate FloorWithout(init: DB, evs: seq<Event>, k: nat)
    requires k < |evs| && evs[k].Transferred?
  {
    var accounts, to := Replay(init, Without(evs[..k], UndoneIn(evs))).accounts, evs[k].req.to;
    to in accounts && accounts[to].balance >= accounts[to].floor
  }

  /** Off ties the condition is one on the history without its reversed transfers and reversals: when each
      standing transfer was made, its destination was on its floor even without them. */
  lemma PayableOffTies(init: DB, evs: seq<Event>)
    requires Seeded(init) && LegalHistory(init, evs) && forall ev :: ev in evs ==> !TieEvent(ev)
    ensures Payable(init, evs) <==>
            forall k :: 0 <= k < |evs| && Due(evs[k], UndoneIn(evs)) ==> FloorWithout(init, evs, k)
  {
    forall k | 0 <= k < |evs| && Due(evs[k], UndoneIn(evs))
      ensures var accounts, to := Replay(init, evs).accounts, evs[k].req.to;
              to in accounts && (FloorWithout(init, evs, k) <==> Left(init, evs, k, to) >= accounts[to].floor)
    {
      LeftOffTies(init, evs, k);
    }
  }

  lemma LeftOffTies(init: DB, evs: seq<Event>, k: nat)
    requires Seeded(init) && LegalHistory(init, evs) && k < |evs| && evs[k].Transferred?
    requires forall ev :: ev in evs ==> !TieEvent(ev)
    ensures var less, accounts := Replay(init, Without(evs[..k], UndoneIn(evs))).accounts, Replay(init, evs).accounts;
            var to := evs[k].req.to;
            && to in less && to in accounts
            && less[to].balance == Left(init, evs, k, to) && less[to].floor == accounts[to].floor
  {
    var to := evs[k].req.to;
    LegalAt(init, evs, k);
    HistoryGrows(init, evs, k);
    BalanceWithout(init, evs[..k], UndoneIn(evs), to);
    SameAccounts(init, evs[..k], UndoneIn(evs));
    OpeningFixed(init, evs, k, to);
    SlipsAreTies(init, evs, to);
    NoTiesNoCount(evs, to);
  }

  /** No reversal reached behind a younger transfer that still stands. */
  predicate InTurn(evs: seq<Event>) {
    forall i, k, j :: 0 <= i < k < j < |evs| && Reaches(evs, i, j) ==> !Due(evs[k], UndoneIn(evs))
  }

  predicate Reaches(evs: seq<Event>, i: nat, j: nat)
    requires i < |evs| && j < |evs|
  {
    evs[i].Transferred? && evs[j].Undone? && evs[j].orig == evs[i].id
  }

  lemma {:induction false} UndoneAt(evs: seq<Event>, id: TxId) returns (j: nat)
    requires id in UndoneIn(evs)
    ensures j < |evs| && evs[j].Undone? && evs[j].orig == id
  {
    var n := |evs| - 1;
    if evs[n].Undone? && evs[n].orig == id {
      j := n;
    } else {
      j := UndoneAt(evs[..n], id);
    }
  }

  lemma {:induction false} SameNet(evs: seq<Event>, undone: set<TxId>, others: set<TxId>, a: AccountId)
    requires forall ev :: ev in evs && ev.Transferred? ==> (ev.id in undone <==> ev.id in others)
    ensures NetOfEvents(evs, undone, a) == NetOfEvents(evs, others, a)
  {
    if evs == [] {
    } else {
      SameNet(evs[..|evs| - 1], undone, others, a);
    }
  }

  /** In turn, whatever is ever undone of the events before a standing transfer was undone before it. */
  lemma UndoneBefore(evs: seq<Event>, k: nat, ev: Event)
    requires InTurn(evs) && k < |evs| && Due(evs[k], UndoneIn(evs)) && ev in evs[..k] && ev.Transferred?
    ensures ev.id in UndoneIn(evs) <==> ev.id in UndoneIn(evs[..k])
  {
    if ev.id in UndoneIn(evs) {
      var i :| 0 <= i < k && evs[i] == ev;
      var j := UndoneAt(evs, ev.id);
      assert Reaches(evs, i, j);
      assert j < k && evs[..k][j] == evs[j];
      EveryReversalIn(evs[..k], evs[j]);
    }
    if ev.id in UndoneIn(evs[..k]) {
      var j := UndoneAt(evs[..k], ev.id);
      EveryReversalIn(evs, evs[j]);
    }
  }

  lemma {:induction false} TiesGrow(evs: seq<Event>, k: nat, a: AccountId)
    requires k <= |evs|
    ensures TiesFrom(evs[..k], a) <= TiesFrom(evs, a)
  {
    if k == |evs| {
      assert evs[..k] == evs;
    } else {
      assert evs[..|evs| - 1][..k] == evs[..k];
      TiesGrow(evs[..|evs| - 1], k, a);
    }
  }

  lemma PrefixTieSafe(init: DB, evs: seq<Event>, k: nat)
    requires TieSafe(init, evs) && k <= |evs|
    ensures TieSafe(init, evs[..k])
  {
  }

  /** Then what is left at a standing transfer is what was there when it was made, or more. */
  lemma InTurnIsPayable(init: DB, evs: seq<Event>, k: nat)
    requires Seeded(init) && LegalHistory(init, evs) && TieSafe(init, evs) && InTurn(evs)
    requires k < |evs| && Due(evs[k], UndoneIn(evs))
    ensures var accounts, to := Replay(init, evs).accounts, evs[k].req.to;
            to in accounts && Left(init, evs, k, to) >= accounts[to].floor
  {
    var front, to := evs[..k], evs[k].req.to;
    LegalAt(init, evs, k);
    HistoryGrows(init, evs, k);
    NothingTakenBack(init, front);
    assert front[..k] == front;
    forall ev | ev in front && ev.Transferred? ensures ev.id in UndoneIn(evs) <==> ev.id in UndoneIn(front) {
      UndoneBefore(evs, k, ev);
    }
    SameNet(front, UndoneIn(evs), UndoneIn(front), to);
    OpeningFixed(init, evs, k, to);
    PrefixTieSafe(init, evs, k);
    SlipsAreTies(init, evs, to);
    SlipsAreTies(init, front, to);
    TiesGrow(evs, k, to);
    HistorySound(init, front);
  }

  /** Where balances cannot be negative, or amounts are no ties: if no reversal reached behind a younger transfer
      that still stands, as when there is none, taking back everything that stands is accepted at every step
      and leaves every account with what it was opened with and one paisa per half-paisa transfer out of it. */
  lemma UndoingAllRestores(init: DB, evs: seq<Event>, base: nat)
    requires Seeded(init) && LegalHistory(init, evs) && TieSafe(init, evs) && InTurn(evs)
    requires forall id :: id in Replay(init, evs).txs ==> id.uuid <= base
    ensures LegalHistory(init, evs + UndoAll(evs, base))
    ensures var accounts := Replay(init, evs + UndoAll(evs, base)).accounts;
            && accounts.Keys == Replay(init, evs).accounts.Keys
            && (forall a :: a in accounts ==> accounts[a].balance == Opening(init, evs, a) + TiesFrom(evs, a))
            && ((forall ev :: ev in evs ==> !TieEvent(ev)) ==>
                  forall a :: a in accounts ==> accounts[a].balance == Opening(init, evs, a))
  {
    forall k | 0 <= k < |evs| && Due(evs[k], UndoneIn(evs))
      ensures var accounts, to := Replay(init, evs).accounts, evs[k].req.to;
              to in accounts && Left(init, evs, k, to) >= accounts[to].floor
    {
      InTurnIsPayable(init, evs, k);
    }
    UnwindsIffPayable(init, evs, base);
    var accounts := Replay(init, evs + UndoAll(evs, base)).accounts;
    forall a | a in accounts
      ensures accounts[a].balance == Opening(init, evs, a) + TiesFrom(evs, a)
      ensures (forall ev :: ev in evs ==> !TieEvent(ev)) ==> TiesFrom(evs, a) == 0
    {
      SlipsAreTies(init, evs, a);
      if forall ev :: ev in evs ==> !TieEvent(ev) { NoTiesNoCount(evs, a); }
    }
  }
}
