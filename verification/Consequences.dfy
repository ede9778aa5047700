/** What a reader of the tables may rely on after any legal history. */
module Consequences {
  import opened Money
  import opened Schema
  import opened Decoding
  import opened Errors
  import opened Spec
  import opened Integrity
  import opened Accounting

  // --- Reversals ------------------------------------------------------------------------------------

  ghost function ReversalsOf(db: DB, orig: TxId): (ids: set<TxId>) {
    set id | id in db.txs && db.txs[id].reversalOf == Some(orig)
  }

  /** A transaction is reversed exactly when exactly one row reverses it, and is otherwise reversed by
      none; only transfers are ever reversed. */
  lemma ReversedIffOneReversal(db: DB, orig: TxId)
    requires Sound(db) && orig in db.txs
    ensures |ReversalsOf(db, orig)| == if db.txs[orig].status == Reversed then 1 else 0
    ensures db.txs[orig].status == Reversed ==> db.txs[orig].typ == Transfer
  {
    assert TxOk(db, orig);
    if db.txs[orig].status == Reversed {
      assert ReversalExists(db, orig);
      OneReversal(db, orig);
    } else {
      NoReversal(db, orig);
    }
  }

  lemma OneReversal(db: DB, orig: TxId)
    requires ReversalsMatch(db) && ReversalExists(db, orig)
    ensures |ReversalsOf(db, orig)| == 1
  {
    var rev :| rev in db.txs && db.txs[rev].reversalOf == Some(orig);
    forall other | other in ReversalsOf(db, orig) ensures other == rev {
      assert SameKey(db.txs[other].reversalOf, db.txs[rev].reversalOf);
    }
    assert ReversalsOf(db, orig) == {rev};
  }

  lemma NoReversal(db: DB, orig: TxId)
    requires orig in db.txs && db.txs[orig].status != Reversed
    requires forall id :: id in db.txs ==> TxOk(db, id)
    ensures |ReversalsOf(db, orig)| == 0
  {
    forall id | id in db.txs ensures db.txs[id].reversalOf != Some(orig) { assert TxOk(db, id); }
  }

  /** The UNIQUE(reversal_of_id) constraint cannot fire for a transfer `Reverse` accepts. */
  lemma AcceptedReversalIsFree(db: DB, orig: TxId)
    requires Sound(db) && orig in db.txs && db.txs[orig].status == Completed
    ensures ReversalFree(db, Some(orig))
  {
    ReversedIffOneReversal(db, orig);
    assert |ReversalsOf(db, orig)| == 0;
    assert forall id :: id in db.txs && db.txs[id].reversalOf == Some(orig) ==> id in ReversalsOf(db, orig);
  }

  /** For any amount and floors: reversing a transfer next succeeds exactly when its stored amount is not
      zero and the destination did not both lose a paisa to rounding and sit on its floor; and it then
      restores every account exactly when rounding slipped nothing. */
  lemma ReverseInverts(db: DB, req: TransferRequest, id: TxId, rev: TxId)
    requires Sound(db) && Legal(db, Transferred(req, id)) && rev !in db.txs && rev != id
    ensures var ev, to := Transferred(req, id), db.accounts[req.to];
            var mid := Apply(db, ev);
            var covered := !(DestinationLoses(db, ev) && to.balance == to.floor);
            && (Legal(mid, Undone(id, rev)) <==> Rnd(req.amount) != 0 && covered)
            && (Legal(mid, Undone(id, rev)) ==>
                  (Apply(mid, Undone(id, rev)).accounts == db.accounts <==>
                   !SourceGains(db, ev) && !DestinationLoses(db, ev)))
  {
    ReverseAccepted(db, req, id, rev);
    if Legal(Apply(db, Transferred(req, id)), Undone(id, rev)) {
      ReverseRestores(db, req, id, rev);
    }
  }

  /** Where balances cannot be negative, the reversal is refused for no reason but a stored amount of zero,
      never for funds, and restores every account exactly when the amount was no tie. */
  lemma ReverseInvertsFloored(db: DB, req: TransferRequest, id: TxId, rev: TxId)
    requires Sound(db) && FloorsNonNegative(db) && Legal(db, Transferred(req, id))
    requires rev !in db.txs && rev != id
    ensures var mid := Apply(db, Transferred(req, id));
            && (Legal(mid, Undone(id, rev)) <==> Rnd(req.amount) != 0)
            && (ReverseCheck(mid, id).Err? ==> ReverseCheck(mid, id).error == Internal)
            && (Rnd(req.amount) != 0 ==>
                  (Apply(mid, Undone(id, rev)).accounts == db.accounts <==> !IsTie(req.amount)))
  {
    SlipAtTies(db, Transferred(req, id));
    ReverseInverts(db, req, id, rev);
    ReverseAccepted(db, req, id, rev);
  }

  lemma ReverseAccepted(db: DB, req: TransferRequest, id: TxId, rev: TxId)
    requires Sound(db) && Legal(db, Transferred(req, id)) && rev !in db.txs && rev != id
    ensures var ev, to := Transferred(req, id), db.accounts[req.to];
            var mid := Apply(db, ev);
            var covered := !(DestinationLoses(db, ev) && to.balance == to.floor);
            && Sound(mid)
            && (Legal(mid, Undone(id, rev)) <==> Rnd(req.amount) != 0 && covered)
            && (Rnd(req.amount) == 0 ==> ReverseCheck(mid, id) == Err(Internal))
            && (Rnd(req.amount) != 0 ==>
                  Decode(EntriesOf(mid.ledger, id)) == Posting(req.from, req.to, Rnd(req.amount)))
  {
    ApplyKeepsSound(db, Transferred(req, id));
    AcceptedReversalIsFree(Apply(db, Transferred(req, id)), id);
    ReverseDecided(db, req, id, rev);
  }

  lemma ReverseDecided(db: DB, req: TransferRequest, id: TxId, rev: TxId)
    requires NoOrphans(db) && FloorsHold(db) && Legal(db, Transferred(req, id)) && rev !in db.txs && rev != id
    requires ReversalFree(Apply(db, Transferred(req, id)), Some(id))
    ensures var ev, to := Transferred(req, id), db.accounts[req.to];
            var mid := Apply(db, ev);
            var covered := !(DestinationLoses(db, ev) && to.balance == to.floor);
            && (Legal(mid, Undone(id, rev)) <==> Rnd(req.amount) != 0 && covered)
            && (Rnd(req.amount) == 0 ==> ReverseCheck(mid, id) == Err(Internal))
            && (Rnd(req.amount) != 0 ==>
                  Decode(EntriesOf(mid.ledger, id)) == Posting(req.from, req.to, Rnd(req.amount)))
  {
    var mid := Apply(db, Transferred(req, id));
    PostedPairDecodes(db, req, id);
    TransferMoves(db, req, id);
    DestinationCovers(db, mid, req, id);
    AcceptedIff(mid, id, rev);
  }

  /** A completed transfer that nothing has reversed can be undone exactly when it moved money that its
      destination can pay back. */
  lemma AcceptedIff(db: DB, orig: TxId, rev: TxId)
    requires Accepting(db, orig) && rev !in db.txs && ReversalFree(db, Some(orig))
    requires var p := Decode(EntriesOf(db.ledger, orig));
             p.amount != 0 ==> p.from in db.accounts && p.to in db.accounts
    ensures var p := Decode(EntriesOf(db.ledger, orig));
            && (p.amount == 0 ==> ReverseCheck(db, orig) == Err(Internal))
            && (Legal(db, Undone(orig, rev)) <==> p.amount != 0 && CoversReversal(db.accounts[p.to], p.amount))
  {
  }

  lemma DestinationCovers(db: DB, mid: DB, req: TransferRequest, id: TxId)
    requires FloorsHold(db) && req.to in db.accounts && req.to in mid.accounts
    requires mid.accounts[req.to].balance ==
             db.accounts[req.to].balance + Rnd(req.amount) - Bit(DestinationLoses(db, Transferred(req, id)))
    requires mid.accounts[req.to].floor == db.accounts[req.to].floor
    ensures CoversReversal(mid.accounts[req.to], Rnd(req.amount)) <==>
            !(DestinationLoses(db, Transferred(req, id)) && db.accounts[req.to].balance == db.accounts[req.to].floor)
  {
  }

  lemma PostedPairDecodes(db: DB, req: TransferRequest, id: TxId)
    requires NoOrphans(db) && Legal(db, Transferred(req, id))
    ensures var mid, m := Apply(db, Transferred(req, id)), Rnd(req.amount);
            && m >= 0 && EntriesOf(mid.ledger, id) == Pair(id, req.from, req.to, m)
            && Decode(EntriesOf(mid.ledger, id)) == if m == 0 then Posting(0, 0, 0) else Posting(req.from, req.to, m)
  {
    var es := Pair(id, req.from, req.to, Rnd(req.amount));
    FreshTx(db, id, es[0], es[1], TransferAudit(req, id));
    RndWhole(0);
    RndMonotone(0.0, req.amount);
    PostingRoundTrip(id, req.from, req.to, Rnd(req.amount), es);
  }

  lemma ReverseRestores(db: DB, req: TransferRequest, id: TxId, rev: TxId)
    requires Sound(db) && Legal(db, Transferred(req, id)) && rev !in db.txs && rev != id
    requires Legal(Apply(db, Transferred(req, id)), Undone(id, rev))
    ensures var ev := Transferred(req, id);
            Apply(Apply(db, ev), Undone(id, rev)).accounts == db.accounts <==>
            !SourceGains(db, ev) && !DestinationLoses(db, ev)
  {
    var ev := Transferred(req, id);
    var mid := Apply(db, ev);
    ReverseAccepted(db, req, id, rev);
    ReversalMoves(mid, id, rev);
    TransferMoves(db, req, id);
    ApplyGrows(db, ev);
    ThereAndBack(db.accounts, mid.accounts, Posting(req.from, req.to, Rnd(req.amount)),
                 Bit(SourceGains(db, ev)), Bit(DestinationLoses(db, ev)));
  }

  lemma ThereAndBack(was: map<AccountId, Account>, mid: map<AccountId, Account>, p: Posting, up: nat, down: nat)
    requires mid.Keys == was.Keys && p.from in was && p.to in was && p.from != p.to
    requires forall a :: a in was ==> mid[a] == was[a].(balance := mid[a].balance)
    requires forall a :: a in was && a != p.from && a != p.to ==> mid[a] == was[a]
    requires mid[p.from].balance == was[p.from].balance - p.amount + up
    requires mid[p.to].balance == was[p.to].balance + p.amount - down
    ensures GivenBack(mid, p) == was <==> up == 0 && down == 0
  {
    var back := GivenBack(mid, p);
    assert back[p.from].balance == was[p.from].balance + up;
    assert back[p.to].balance == was[p.to].balance - down;
    assert back.Keys == was.Keys;
    if up == 0 && down == 0 {
      assert back[p.from] == was[p.from] && back[p.to] == was[p.to];
      assert back == was;
    }
  }

  // --- Answers and traces ----------------------------------------------------------------------------

  /** Alone on sound tables, `Reverse` decides for itself exactly as `ReverseCheck` does, and never that
      its original is already reversed. */
  lemma ReverseDecides(db: DB, orig: TxId, id: TxId, budget: nat, cause: string)
    requires Sound(db) && id !in db.txs && budget >= Reached(db, orig, id)
    ensures ReverseAnswer(db, orig, id, budget, cause) ==
            match ReverseCheck(db, orig) case Err(refusal) => Some(refusal) case Ok(_) => None
    ensures ReverseCheck(db, orig) != Err(AlreadyReversed)
    ensures Reached(db, orig, id) == 13 <==> ReverseCheck(db, orig).Ok?
  {
    if Accepting(db, orig) {
      AcceptedReversalIsFree(db, orig);
      if Decode(EntriesOf(db.ledger, orig)).amount != 0 {
        ReversalDecodes(db, orig);
      }
    }
  }

  /** Exactly when `Reverse`, alone on sound tables, answers ALREADY_REVERSED: never because of the unique
      constraint, but whenever the driver fails at a request whose error shows one of the two strings, be it
      in the driver's words or in the number of the row. */
  lemma ToldReversedIff(db: DB, orig: TxId, id: TxId, budget: nat, cause: string)
    requires Sound(db) && id !in db.txs
    ensures ReverseAnswer(db, orig, id, budget, cause) == Some(AlreadyReversed) <==>
            budget < Reached(db, orig, id)
            && (Tells(cause) || Tells(Named(Requests(orig, Decode(EntriesOf(db.ledger, orig)))[budget])))
  {
    if budget < Reached(db, orig, id) {
      TellsIff(Requests(orig, Decode(EntriesOf(db.ledger, orig)))[budget], cause);
    } else {
      ReverseDecides(db, orig, id, budget, cause);
    }
  }

  /** So is any reversal whose driver gives up, for whatever reason, on the lock of account 23505. */
  lemma LockOf23505(db: DB, orig: TxId, id: TxId, p: Posting, cause: string)
    requires ReverseCheck(db, orig) == Ok(p) && Greater(p.from, p.to) == 23505
    ensures ReverseAnswer(db, orig, id, 4, cause) == Some(AlreadyReversed)
  {
    AccountNumberTells(cause);
    assert Requests(orig, p)[4] == LockAccount(23505);
  }

  /** One paisa from account 1 to account 23505: nothing has reversed it and a reversal would
      succeed, yet `Reverse` says that it is already reversed. */
  lemma UnreversedToldReversed(id: TxId, rev: TxId, cause: string)
    requires id != rev
    ensures var rupee := Account("INR", 100, 0, Active);
            var start := DB(map[1 := rupee, 23505 := rupee], map[], [], []);
            var ev := Transferred(TransferRequest(1, 23505, 1.0, None), id);
            && Seeded(start) && Legal(start, ev) && Legal(Apply(start, ev), Undone(id, rev))
            && ReverseAnswer(Apply(start, ev), id, rev, 4, cause) == Some(AlreadyReversed)
  {
    var rupee := Account("INR", 100, 0, Active);
    var start := DB(map[1 := rupee, 23505 := rupee], map[], [], []);
    var req := TransferRequest(1, 23505, 1.0, None);
    assert Validate(start, req) == None;
    RndWhole(1);
    ReverseAccepted(start, req, id, rev);
    SlipAtTies(start, Transferred(req, id));
    LockOf23505(Apply(start, Transferred(req, id)), id, rev, Posting(1, 23505, 1), cause);
  }

  /** A reversal that runs alone leaves a trace exactly when no request fails and `ReverseCheck` accepts it. */
  lemma ReverseTracedIffAccepted(db: DB, orig: TxId, id: TxId, budget: nat, cause: string)
    requires Sound(db) && id !in db.txs
    ensures var done := ReverseAnswer(db, orig, id, budget, cause) == None;
            var later := if done then Apply(db, Undone(orig, id)) else db;
            && (done <==> budget >= 13 && ReverseCheck(db, orig).Ok?)
            && |later.audit| == |db.audit| + Bit(done) && |AuditOf(later.audit, id)| == Bit(done)
  {
    ReverseSucceedsIff(db, orig, id, budget, cause);
    NoAuditYet(db.audit, id);
    AuditsOnce(db, ReversalAudit(Decode(EntriesOf(db.ledger, orig)), id));
  }

  lemma ReverseSucceedsIff(db: DB, orig: TxId, id: TxId, budget: nat, cause: string)
    requires Sound(db) && id !in db.txs
    ensures ReverseAnswer(db, orig, id, budget, cause) == None <==> budget >= 13 && ReverseCheck(db, orig).Ok?
  {
    if budget >= Reached(db, orig, id) {
      ReverseDecides(db, orig, id, budget, cause);
    } else if ReverseCheck(db, orig).Ok? {
      AcceptedReversalIsFree(db, orig);
    }
  }

  /** A transfer that runs alone, with no request failing, leaves a trace exactly when its reference is free,
      whether it is valid or not; a valid one under a used reference fails without any. */
  lemma TransferTracedIffReferenceFree(db: DB, req: TransferRequest, id: TxId, failedId: TxId)
    requires NoOrphans(db) && id !in db.txs && failedId !in db.txs
    ensures var committed := TransferCommits(db, req, id, failedId);
            && (committed.Some? <==> ReferenceFree(db, req.reference))
            && (committed.Some? <==>
                req.reference == None || forall other :: other in db.txs ==> db.txs[other].reference != req.reference)
            && (committed.Some? ==>
                  var later := Apply(db, committed.value);
                  |later.audit| == |db.audit| + 1
                  && |AuditOf(later.audit, if Validate(db, req) == None then id else failedId)| == 1)
  {
    CommitsIffReferenceFree(db, req, id, failedId);
    match Validate(db, req)
    case None => AuditsOnce(db, TransferAudit(req, id));
    case Some(reason) => AuditsOnce(db, FailureAudit(req, reason, failedId));
  }

  lemma CommitsIffReferenceFree(db: DB, req: TransferRequest, id: TxId, failedId: TxId)
    requires id !in db.txs && failedId !in db.txs
    ensures TransferCommits(db, req, id, failedId).Some? <==> ReferenceFree(db, req.reference)
  {
  }

  lemma AuditsOnce(db: DB, row: AuditRow)
    requires NoOrphans(db) && row.tx !in db.txs
    ensures |AuditOf(db.audit + [row], row.tx)| == 1
  {
    NoAuditYet(db.audit, row.tx);
    AuditOfSnoc(db.audit, row, row.tx);
  }

  // --- At most once -----------------------------------------------------------------------------------

  /** Two events of one history never add rows with the same id, the same reference or the same
      original: money moves at most once per reference, a recorded failure blocks a later completion
      under its reference, and a transfer is undone at most once. */
  lemma AtMostOnce(init: DB, evs: seq<Event>, i: nat, j: nat)
    requires LegalHistory(init, evs) && i < j < |evs|
    requires NewRow(evs[i]).Some? && NewRow(evs[j]).Some?
    ensures var (idI, rowI), (idJ, rowJ) := NewRow(evs[i]).value, NewRow(evs[j]).value;
            && idI != idJ
            && !SameKey(rowI.reference, rowJ.reference)
            && !SameKey(rowI.reversalOf, rowJ.reversalOf)
  {
    LegalAt(init, evs, i);
    LegalAt(init, evs, j);
    HistoryGrows(init, evs, j);
    HistoryGrows(init, evs[..j], i + 1);
    assert evs[..j][..i + 1] == evs[..i + 1];
    NoCollision(Replay(init, evs[..i]), evs[i], Replay(init, evs[..j]), evs[j]);
  }

  lemma LegalAt(init: DB, evs: seq<Event>, k: nat)
    requires LegalHistory(init, evs) && k < |evs|
    ensures LegalHistory(init, evs[..k]) && Legal(Replay(init, evs[..k]), evs[k])
    ensures Replay(init, evs[..k + 1]) == Apply(Replay(init, evs[..k]), evs[k])
  {
    HistoryGrows(init, evs, k + 1);
    assert evs[..k + 1][..k] == evs[..k];
  }

  lemma NoCollision(db: DB, ev: Event, later: DB, next: Event)
    requires Legal(db, ev) && Legal(later, next) && Grows(Apply(db, ev), later)
    requires NewRow(ev).Some? && NewRow(next).Some?
    ensures var (idI, rowI), (idJ, rowJ) := NewRow(ev).value, NewRow(next).value;
            && idI != idJ
            && !SameKey(rowI.reference, rowJ.reference)
            && !SameKey(rowI.reversalOf, rowJ.reversalOf)
  {
    var (id, row) := NewRow(ev).value;
    UniqueColumns(db, ev, id);
    assert RowKept(Apply(db, ev).txs[id], later.txs[id]);
    var (idJ, rowJ) := NewRow(next).value;
    assert Insertable(later, rowJ, idJ);
  }

  // --- Audit ------------------------------------------------------------------------------------------

  /** The audit log pairs off with the transactions: each has exactly one row in the whole log. */
  lemma AuditBijection(db: DB, id: TxId)
    requires Sound(db) && id in db.txs
    ensures exists k :: 0 <= k < |db.audit| && db.audit[k] == AuditOf(db.audit, id)[0]
                        && forall i :: 0 <= i < |db.audit| && db.audit[i].tx == id ==> i == k
  {
    assert TxOk(db, id);
    OnlyIndex(db.audit, id);
  }

  lemma {:induction false} OnlyIndex(audit: seq<AuditRow>, id: TxId)
    requires |AuditOf(audit, id)| == 1
    ensures exists k :: 0 <= k < |audit| && audit[k] == AuditOf(audit, id)[0]
                        && forall i :: 0 <= i < |audit| && audit[i].tx == id ==> i == k
  {
    var n := |audit| - 1;
    if audit[n].tx == id {
      assert AuditOf(audit[..n], id) == [];
      NoIndex(audit[..n], id);
      assert forall i :: 0 <= i < n ==> audit[i] == audit[..n][i];
    } else {
      assert AuditOf(audit, id) == AuditOf(audit[..n], id);
      OnlyIndex(audit[..n], id);
      var k :| 0 <= k < n && audit[..n][k] == AuditOf(audit, id)[0]
               && forall i :: 0 <= i < n && audit[..n][i].tx == id ==> i == k;
      assert forall i :: 0 <= i < n ==> audit[i] == audit[..n][i];
    }
  }

  lemma NoIndex(audit: seq<AuditRow>, id: TxId)
    requires AuditOf(audit, id) == []
    ensures forall i :: 0 <= i < |audit| ==> audit[i].tx != id
  {
    if audit == [] {
    } else {
      NoIndex(audit[..|audit| - 1], id);
      assert forall i :: 0 <= i < |audit| - 1 ==> audit[i] == audit[..|audit| - 1][i];
    }
  }
}
