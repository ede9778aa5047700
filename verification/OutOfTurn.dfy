/** A history that cannot be taken back newest first, because a reversal was made out of turn. */
module OutOfTurn {
  import opened Money
  import opened Schema
  import opened Decoding
  import opened Errors
  import opened Spec
  import opened Integrity
  import opened Accounting
  import opened Reduction
  import opened Unwinding

  predicate OpenWith(db: DB, a: AccountId, balance: int) {
    a in db.accounts && db.accounts[a] == Account("INR", balance, 0, Active)
  }

  function Sends(f: AccountId, t: AccountId, m: nat, id: TxId): (ev: Event) {
    Transferred(TransferRequest(f, t, m as real, None), id)
  }

  /** A transfer of `m` paise that its source can afford. */
  lemma Posts(db: DB, f: AccountId, t: AccountId, x: nat, y: nat, m: nat, id: TxId)
    requires OpenWith(db, f, x) && OpenWith(db, t, y) && f != t && 0 < m <= x && id !in db.txs
    ensures var ev := Sends(f, t, m, id);
            var later := Apply(db, ev);
            && Legal(db, ev) && !TieEvent(ev) && Rnd(ev.req.amount) == m
            && OpenWith(later, f, x - m) && OpenWith(later, t, y + m)
            && forall a :: a != f && a != t && a in db.accounts ==>
                 a in later.accounts && later.accounts[a] == db.accounts[a]
  {
    var req := TransferRequest(f, t, m as real, None);
    WholeIsStoredExactly(m as real);
    RndWhole(m);
    assert Validate(db, req) == None;
    ExactTransfer(db.accounts, req);
  }

  lemma HistorySnoc(init: DB, evs: seq<Event>, ev: Event)
    ensures Replay(init, evs + [ev]) == Apply(Replay(init, evs), ev)
    ensures LegalHistory(init, evs + [ev]) <==> LegalHistory(init, evs) && Legal(Replay(init, evs), ev)
  {
    assert (evs + [ev])[..|evs|] == evs;
  }

  function Paisas(): (db: DB) {
    var paisa := Account("INR", 1, 0, Active);
    DB(map[1 := paisa, 2 := paisa, 3 := paisa], map[], [], [])
  }

  /** `evs` is a legal history with the rows `ids`, and accounts 1, 2 and 3 have `x`, `y` and `z` paise. */
  predicate Stage(init: DB, evs: seq<Event>, x: nat, y: nat, z: nat, ids: set<TxId>) {
    var db := Replay(init, evs);
    && LegalHistory(init, evs) && db.txs.Keys == ids
    && OpenWith(db, 1, x) && OpenWith(db, 2, y) && OpenWith(db, 3, z)
  }

  lemma OneToTwo(init: DB, evs: seq<Event>, x: nat, y: nat, z: nat, ids: set<TxId>, m: nat, id: TxId)
    requires Stage(init, evs, x, y, z, ids) && id !in ids && 0 < m <= x
    ensures Stage(init, evs + [Sends(1, 2, m, id)], x - m, y + m, z, ids + {id})
  {
    Posts(Replay(init, evs), 1, 2, x, y, m, id);
    HistorySnoc(init, evs, Sends(1, 2, m, id));
  }

  lemma TwoToThree(init: DB, evs: seq<Event>, x: nat, y: nat, z: nat, ids: set<TxId>, m: nat, id: TxId)
    requires Stage(init, evs, x, y, z, ids) && id !in ids && 0 < m <= y
    ensures Stage(init, evs + [Sends(2, 3, m, id)], x, y - m, z + m, ids + {id})
  {
    Posts(Replay(init, evs), 2, 3, y, z, m, id);
    HistorySnoc(init, evs, Sends(2, 3, m, id));
  }

  lemma ThreeToTwo(init: DB, evs: seq<Event>, x: nat, y: nat, z: nat, ids: set<TxId>, m: nat, id: TxId)
    requires Stage(init, evs, x, y, z, ids) && id !in ids && 0 < m <= z
    ensures Stage(init, evs + [Sends(3, 2, m, id)], x, y + m, z - m, ids + {id})
  {
    Posts(Replay(init, evs), 3, 2, z, y, m, id);
    HistorySnoc(init, evs, Sends(3, 2, m, id));
  }

  lemma AtFirst(init: DB)
    requires init == Paisas()
    ensures Stage(init, [], 1, 1, 1, {})
  {
  }

  /** One paisa from 1 to 2, both of them on to 3, and one back to 2. */
  predicate RoundTrip(evs: seq<Event>, t1: TxId, t2: TxId, t3: TxId) {
    |evs| == 3 && evs[0] == Sends(1, 2, 1, t1) && evs[1] == Sends(2, 3, 2, t2) && evs[2] == Sends(3, 2, 1, t3)
  }

  lemma AfterOne(init: DB, t1: TxId) returns (evs: seq<Event>)
    requires init == Paisas()
    ensures Stage(init, evs, 0, 2, 1, {} + {t1})
    ensures |evs| == 1 && evs[0] == Sends(1, 2, 1, t1)
  {
    AtFirst(init);
    OneToTwo(init, [], 1, 1, 1, {}, 1, t1);
    evs := [] + [Sends(1, 2, 1, t1)];
  }

  lemma AfterTwo(init: DB, t1: TxId, t2: TxId) returns (evs: seq<Event>)
    requires init == Paisas() && t1 != t2
    ensures Stage(init, evs, 0, 0, 3, {} + {t1} + {t2})
    ensures |evs| == 2 && evs[0] == Sends(1, 2, 1, t1) && evs[1] == Sends(2, 3, 2, t2)
  {
    var one := AfterOne(init, t1);
    TwoToThree(init, one, 0, 2, 1, {} + {t1}, 2, t2);
    evs := one + [Sends(2, 3, 2, t2)];
  }

  lemma AfterRoundTrip(init: DB, t1: TxId, t2: TxId, t3: TxId) returns (evs: seq<Event>)
    requires init == Paisas() && t1 != t2 && t1 != t3 && t2 != t3
    ensures Stage(init, evs, 0, 1, 2, {} + {t1} + {t2} + {t3}) && RoundTrip(evs, t1, t2, t3)
  {
    var two := AfterTwo(init, t1, t2);
    ThreeToTwo(init, two, 0, 0, 3, {} + {t1} + {t2}, 1, t3);
    evs := two + [Sends(3, 2, 1, t3)];
  }

  lemma RefusedForFunds(db: DB, ev: Event)
    requires ev.Transferred? && Waiting(db, ev) && Rnd(ev.req.amount) != 0
    requires ev.req.from in db.accounts && ev.req.to in db.accounts
    requires !CoversReversal(db.accounts[ev.req.to], Rnd(ev.req.amount))
    ensures ReverseCheck(db, ev.id) == Err(InsufficientForReversal)
  {
  }

  /** Undoing one of two transfers to the same account leaves the other unpayable. */
  lemma UndoOldest(db: DB, first: Event, last: Event, rev: TxId)
    requires Sound(db) && first.Transferred? && last.Transferred? && first.id != last.id && rev !in db.txs
    requires Waiting(db, first) && Waiting(db, last) && Rnd(first.req.amount) != 0 && Rnd(last.req.amount) != 0
    requires first.req.to == last.req.to && first.req.from != first.req.to
    requires first.req.from in db.accounts && last.req.from in db.accounts && first.req.to in db.accounts
    requires var to := db.accounts[first.req.to];
             CoversReversal(to, Rnd(first.req.amount))
             && !CoversReversal(to, Rnd(first.req.amount) + Rnd(last.req.amount))
    ensures Legal(db, Undone(first.id, rev))
    ensures ReverseCheck(Apply(db, Undone(first.id, rev)), last.id) == Err(InsufficientForReversal)
  {
    WaitingIsAccepted(db, first.req, first.id, rev);
    GivenBackMoves(db.accounts, Posting(first.req.from, first.req.to, Rnd(first.req.amount)));
    WaitsThrough(db, Undone(first.id, rev), last);
    RefusedForFunds(Apply(db, Undone(first.id, rev)), last);
  }

  lemma {:induction false} NothingUndone(evs: seq<Event>)
    requires forall ev :: ev in evs ==> !ev.Undone?
    ensures UndoneIn(evs) == {}
  {
    if evs == [] {
    } else {
      NothingUndone(evs[..|evs| - 1]);
    }
  }

  lemma EndsWait(init: DB, evs: seq<Event>, t1: TxId, t2: TxId, t3: TxId)
    requires Seeded(init) && LegalHistory(init, evs) && RoundTrip(evs, t1, t2, t3)
    ensures Waiting(Replay(init, evs), evs[0]) && Waiting(Replay(init, evs), evs[2])
  {
    NothingUndone(evs);
    RndWhole(1);
    StandingWaits(init, evs, evs[0]);
    StandingWaits(init, evs, evs[2]);
  }

  lemma OldestUndone(init: DB, evs: seq<Event>, t1: TxId, t2: TxId, t3: TxId, ids: set<TxId>, rev: TxId)
    requires Seeded(init) && Stage(init, evs, 0, 1, 2, ids) && RoundTrip(evs, t1, t2, t3) && rev !in ids && t1 != t3
    ensures LegalHistory(init, evs + [Undone(t1, rev)])
    ensures ReverseCheck(Replay(init, evs + [Undone(t1, rev)]), t3) == Err(InsufficientForReversal)
  {
    RndWhole(1);
    EndsWait(init, evs, t1, t2, t3);
    HistorySound(init, evs);
    UndoOldest(Replay(init, evs), evs[0], evs[2], rev);
    HistorySnoc(init, evs, Undone(t1, rev));
  }

  /** A history whose newest standing transfer is refused cannot be paid back. */
  lemma RefusedIsUnpayable(init: DB, evs: seq<Event>, n: nat)
    requires Seeded(init) && LegalHistory(init, evs) && |evs| == n + 2
    requires Due(evs[n], UndoneIn(evs)) && !Due(evs[n + 1], UndoneIn(evs))
    requires ReverseCheck(Replay(init, evs), evs[n].id).Err?
    ensures !Payable(init, evs)
  {
    var db := Replay(init, evs);
    var base := BeyondIds(db.txs.Keys);
    var undo, rest := Undone(evs[n].id, TxId(base + n + 1)), UndoDue(evs[..n], UndoneIn(evs), base);
    UnwindsIffPayable(init, evs, base);
    NewestFirst(evs, n, base);
    HistoryConcat(init, evs, [undo] + rest);
    HistoryCons(db, undo, rest);
  }

  lemma NewestFirst(evs: seq<Event>, n: nat, base: nat)
    requires |evs| == n + 2 && Due(evs[n], UndoneIn(evs)) && !Due(evs[n + 1], UndoneIn(evs))
    ensures UndoAll(evs, base) ==
            [Undone(evs[n].id, TxId(base + n + 1))] + UndoDue(evs[..n], UndoneIn(evs), base)
  {
    assert evs[..n + 2] == evs;
    UndoDueSnoc(evs, n + 1, UndoneIn(evs), base);
    UndoDueSnoc(evs, n, UndoneIn(evs), base);
  }

  lemma {:induction false} BeyondIds(ids: set<TxId>) returns (base: nat)
    ensures forall id :: id in ids ==> id.uuid <= base
    decreases |ids|
  {
    if ids == {} {
      base := 0;
    } else {
      var id :| id in ids;
      var less := BeyondIds(ids - {id});
      base := if less < id.uuid then id.uuid else less;
      assert forall other :: other in ids ==> other == id || other in ids - {id};
    }
  }

  lemma OnlyFirstUndone(evs: seq<Event>, t1: TxId, t2: TxId, t3: TxId, rev: TxId)
    requires RoundTrip(evs, t1, t2, t3)
    ensures UndoneIn(evs + [Undone(t1, rev)]) == {t1}
  {
    NothingUndone(evs);
    assert (evs + [Undone(t1, rev)])[..3] == evs;
  }

  /** Not every history can be paid back: with the first of three transfers undone out of turn, the newest one
      standing is refused. */
  lemma NewestIsRefused(init: DB, t1: TxId, t2: TxId, t3: TxId, rev: TxId) returns (evs: seq<Event>)
    requires init == Paisas() && t1 != t2 && t1 != t3 && t2 != t3 && rev !in {t1, t2, t3}
    ensures |evs| == 4 && RoundTrip(evs[..3], t1, t2, t3) && evs[3] == Undone(t1, rev)
    ensures Seeded(init) && LegalHistory(init, evs) && !Payable(init, evs)
    ensures ReverseCheck(Replay(init, evs), t3) == Err(InsufficientForReversal)
  {
    var trip := AfterRoundTrip(init, t1, t2, t3);
    OldestUndone(init, trip, t1, t2, t3, {} + {t1} + {t2} + {t3}, rev);
    OnlyFirstUndone(trip, t1, t2, t3, rev);
    RndWhole(1);
    evs := trip + [Undone(t1, rev)];
    assert evs[..3] == trip;
    RefusedIsUnpayable(init, evs, 2);
  }
}
