/** Reversals cancel their transfers in the event list itself. */
module Reduction {
  import opened Money
  import opened Schema
  import opened Decoding
  import opened Spec
  import opened Integrity
  import opened Accounting

  // --- Deleting reversed transfers and reversals from the history -------------------------------------

  /** The transfers that `evs` undoes. */
  function UndoneIn(evs: seq<Event>): (ids: set<TxId>) {
    if evs == [] then {}
    else
      var last := evs[|evs| - 1];
      UndoneIn(evs[..|evs| - 1]) + if last.Undone? then {last.orig} else {}
  }

  /** The rows of the reversals in `evs`. */
  function ReversalsIn(evs: seq<Event>): (ids: set<TxId>) {
    if evs == [] then {}
    else
      var last := evs[|evs| - 1];
      ReversalsIn(evs[..|evs| - 1]) + if last.Undone? then {last.id} else {}
  }

  predicate Deleted(ev: Event, undone: set<TxId>) {
    ev.Undone? || (ev.Transferred? && ev.id in undone)
  }

  /** `evs` without its reversals and without the transfers in `undone`. */
  function Without(evs: seq<Event>, undone: set<TxId>): (r: seq<Event>) {
    if evs == [] then []
    else
      var last := evs[|evs| - 1];
      Without(evs[..|evs| - 1], undone) + if Deleted(last, undone) then [] else [last]
  }

  function Reduced(evs: seq<Event>): (r: seq<Event>) {
    Without(evs, UndoneIn(evs))
  }

  /** What the transfers of `evs` outside `undone` add to account `a`. */
  function NetOfEvents(evs: seq<Event>, undone: set<TxId>, a: AccountId): (n: int) {
    if evs == [] then 0
    else
      var last := evs[|evs| - 1];
      NetOfEvents(evs[..|evs| - 1], undone, a)
      + if last.Transferred? && last.id !in undone
        then PairNet(last.req.from, last.req.to, Rnd(last.req.amount), a) else 0
  }

  /** Credits minus debits of account `a` in the rows outside `gone`. */
  function NetOutside(rows: seq<Entry>, gone: set<TxId>, a: AccountId): (n: int) {
    if rows == [] then 0
    else
      var e := rows[|rows| - 1];
      NetOutside(rows[..|rows| - 1], gone, a) + if e.account == a && e.tx !in gone then e.credit - e.debit else 0
  }

  lemma NetOutsidePair(rows: seq<Entry>, id: TxId, f: AccountId, t: AccountId, m: int, gone: set<TxId>, a: AccountId)
    ensures NetOutside(rows + Pair(id, f, t, m), gone, a) ==
            NetOutside(rows, gone, a) + if id in gone then 0 else PairNet(f, t, m, a)
  {
    var es := Pair(id, f, t, m);
    var more, mid := rows + es, rows + [es[0]];
    assert more[..|more| - 1] == mid && mid[..|mid| - 1] == rows;
  }

  lemma {:induction false} StandingIsOutside(rows: seq<Entry>, txs: map<TxId, TxRow>, gone: set<TxId>, a: AccountId)
    requires forall e :: e in rows ==> (Standing(txs, e.tx) <==> e.tx !in gone)
    ensures StandingNet(rows, txs, a) == NetOutside(rows, gone, a)
  {
    if rows == [] {
    } else {
      StandingIsOutside(rows[..|rows| - 1], txs, gone, a);
    }
  }

  /** The rows of the ledger outside `gone` are those that the surviving transfers posted. */
  lemma {:induction false} LedgerOfEvents(init: DB, evs: seq<Event>, undone: set<TxId>, gone: set<TxId>, a: AccountId)
    requires init.ledger == []
    requires forall ev :: ev in evs && ev.Transferred? ==> (ev.id in gone <==> ev.id in undone)
    requires forall ev :: ev in evs && ev.Undone? ==> ev.id in gone
    ensures NetOutside(Replay(init, evs).ledger, gone, a) == NetOfEvents(evs, undone, a)
  {
    if evs == [] {
    } else {
      var front, last := evs[..|evs| - 1], evs[|evs| - 1];
      var rows := Replay(init, front).ledger;
      LedgerOfEvents(init, front, undone, gone, a);
      match last
      case Transferred(req, id) => NetOutsidePair(rows, id, req.from, req.to, Rnd(req.amount), gone, a);
      case Undone(orig, id) =>
        var p := Decode(EntriesOf(rows, orig));
        NetOutsidePair(rows, id, p.to, p.from, p.amount, gone, a);
      case _ =>
    }
  }

  /** The final type and status of a row tell what became of it in the history. */
  lemma {:induction false} RowFates(init: DB, evs: seq<Event>)
    requires Seeded(init) && LegalHistory(init, evs)
    ensures var txs := Replay(init, evs).txs;
            && UndoneIn(evs) <= txs.Keys && ReversalsIn(evs) <= txs.Keys
            && forall id :: id in txs ==>
                 && (txs[id].status == Reversed <==> id in UndoneIn(evs))
                 && (txs[id].typ == Reversal <==> id in ReversalsIn(evs))
  {
    if evs == [] {
    } else {
      var front, last := evs[..|evs| - 1], evs[|evs| - 1];
      RowFates(init, front);
      FateKept(Replay(init, front), last, UndoneIn(front), ReversalsIn(front));
    }
  }

  lemma FateKept(db: DB, ev: Event, undone: set<TxId>, reversals: set<TxId>)
    requires Legal(db, ev) && undone <= db.txs.Keys && reversals <= db.txs.Keys
    requires forall id :: id in db.txs ==> (db.txs[id].status == Reversed <==> id in undone)
    requires forall id :: id in db.txs ==> (db.txs[id].typ == Reversal <==> id in reversals)
    ensures var txs := Apply(db, ev).txs;
            var undone', reversals' := undone + (if ev.Undone? then {ev.orig} else {}),
                                       reversals + (if ev.Undone? then {ev.id} else {});
            && undone' <= txs.Keys && reversals' <= txs.Keys
            && forall id :: id in txs ==> (txs[id].status == Reversed <==> id in undone')
                                          && (txs[id].typ == Reversal <==> id in reversals')
  {
  }

  /** A ledger row stands exactly when no reversal in the history touches its transaction. */
  lemma StandingFate(init: DB, evs: seq<Event>, e: Entry)
    requires Seeded(init) && LegalHistory(init, evs) && e in Replay(init, evs).ledger
    ensures Standing(Replay(init, evs).txs, e.tx) <==> e.tx !in UndoneIn(evs) + ReversalsIn(evs)
  {
    var db := Replay(init, evs);
    RowFates(init, evs);
    HistorySound(init, evs);
    assert TxOk(db, e.tx);
    RowAmongItsEntries(db.ledger, e);
  }

  /** A transfer's row is not a reversal's. */
  lemma TransferIsNoReversal(init: DB, evs: seq<Event>, ev: Event)
    requires Seeded(init) && LegalHistory(init, evs) && ev in evs && ev.Transferred?
    ensures ev.id !in ReversalsIn(evs)
  {
    RowFates(init, evs);
    TransferRowStays(init, evs, ev);
  }

  lemma {:induction false} TransferRowStays(init: DB, evs: seq<Event>, ev: Event)
    requires LegalHistory(init, evs) && ev in evs && ev.Transferred?
    ensures ev.id in Replay(init, evs).txs && Replay(init, evs).txs[ev.id].typ == Transfer
  {
    var front, last := evs[..|evs| - 1], evs[|evs| - 1];
    ApplyGrows(Replay(init, front), last);
    if ev == last {
    } else {
      assert evs == front + [last];
      TransferRowStays(init, front, ev);
    }
  }

  lemma {:induction false} EveryReversalIn(evs: seq<Event>, ev: Event)
    requires ev in evs && ev.Undone?
    ensures ev.id in ReversalsIn(evs) && ev.orig in UndoneIn(evs)
  {
    var front, last := evs[..|evs| - 1], evs[|evs| - 1];
    if ev == last {
    } else {
      assert evs == front + [last];
      EveryReversalIn(front, ev);
    }
  }

  /** What stands in the ledger is what the surviving transfers moved. */
  lemma StandingOfEvents(init: DB, evs: seq<Event>, a: AccountId)
    requires Seeded(init) && LegalHistory(init, evs)
    ensures var db := Replay(init, evs);
            StandingNet(db.ledger, db.txs, a) == NetOfEvents(evs, UndoneIn(evs), a)
  {
    var db := Replay(init, evs);
    var undone := UndoneIn(evs);
    var gone := undone + ReversalsIn(evs);
    forall e | e in db.ledger ensures Standing(db.txs, e.tx) <==> e.tx !in gone { StandingFate(init, evs, e); }
    StandingIsOutside(db.ledger, db.txs, gone, a);
    forall ev | ev in evs && ev.Transferred? ensures ev.id in gone <==> ev.id in undone {
      TransferIsNoReversal(init, evs, ev);
    }
    forall ev | ev in evs && ev.Undone? ensures ev.id in gone { EveryReversalIn(evs, ev); }
    LedgerOfEvents(init, evs, undone, gone, a);
  }

  /** Off ties a transfer moves exactly its stored amount, whether its checks would pass or not. */
  lemma ExactTransfer(accounts: map<AccountId, Account>, req: TransferRequest)
    requires req.from in accounts && req.to in accounts && req.from != req.to
    requires req.amount > 0.0 && !IsTie(req.amount)
    ensures var now := AddToBalance(AddToBalance(accounts, req.from, -req.amount), req.to, req.amount);
            var m := Rnd(req.amount);
            && now.Keys == accounts.Keys
            && forall a :: a in accounts ==>
                 now[a] == accounts[a].(balance := accounts[a].balance + PairNet(req.from, req.to, m, a))
  {
    RndDebit(accounts[req.from].balance, req.amount);
    RndCredit(accounts[req.to].balance, req.amount);
    var half := AddToBalance(accounts, req.from, -req.amount);
    assert half[req.to] == accounts[req.to];
  }

  lemma {:induction false} NoNetBeforeOpening(init: DB, evs: seq<Event>, undone: set<TxId>, a: AccountId)
    requires LegalHistory(init, evs) && a !in Replay(init, evs).accounts
    ensures NetOfEvents(evs, undone, a) == 0
  {
    if evs == [] {
    } else {
      ApplyGrows(Replay(init, evs[..|evs| - 1]), evs[|evs| - 1]);
      NoNetBeforeOpening(init, evs[..|evs| - 1], undone, a);
    }
  }

  /** The same accounts, apart from balances. */
  predicate SameButBalances(a: map<AccountId, Account>, b: map<AccountId, Account>) {
    a.Keys == b.Keys && forall x :: x in a ==> a[x] == b[x].(balance := a[x].balance)
  }

  lemma SameAfterDeleted(db: DB, less: map<AccountId, Account>, ev: Event)
    requires Legal(db, ev) && !ev.Opened? && SameButBalances(less, db.accounts)
    ensures SameButBalances(less, Apply(db, ev).accounts)
  {
    ApplyGrows(db, ev);
    assert Apply(db, ev).accounts.Keys == db.accounts.Keys;
  }

  lemma SameAfterKept(db: DB, less: DB, ev: Event)
    requires Legal(db, ev) && !ev.Undone? && SameButBalances(less.accounts, db.accounts)
    ensures SameButBalances(Apply(less, ev).accounts, Apply(db, ev).accounts)
  {
  }

  lemma WithoutLast(evs: seq<Event>, undone: set<TxId>, init: DB)
    requires evs != []
    ensures var front, last := evs[..|evs| - 1], evs[|evs| - 1];
            Replay(init, Without(evs, undone)) ==
            if Deleted(last, undone) then Replay(init, Without(front, undone))
            else Apply(Replay(init, Without(front, undone)), last)
  {
    var less, last := Without(evs[..|evs| - 1], undone), evs[|evs| - 1];
    assert less + [] == less;
    assert (less + [last])[..|less|] == less;
  }

  /** The history without its reversals opens the same accounts. */
  lemma {:induction false} SameAccounts(init: DB, evs: seq<Event>, undone: set<TxId>)
    requires LegalHistory(init, evs)
    ensures SameButBalances(Replay(init, Without(evs, undone)).accounts, Replay(init, evs).accounts)
  {
    if evs == [] {
    } else {
      var front, last := evs[..|evs| - 1], evs[|evs| - 1];
      var db, less := Replay(init, front), Replay(init, Without(front, undone));
      SameAccounts(init, front, undone);
      WithoutLast(evs, undone, init);
      if Deleted(last, undone) {
        SameAfterDeleted(db, less.accounts, last);
      } else {
        SameAfterKept(db, less, last);
      }
    }
  }

  /** What a kept event does to one balance of the shorter history. */
  lemma KeptMoves(db: DB, less: DB, ev: Event, a: AccountId)
    requires Legal(db, ev) && !ev.Undone? && !TieEvent(ev) && SameButBalances(less.accounts, db.accounts)
    requires a in db.accounts
    ensures a in Apply(less, ev).accounts
    ensures Apply(less, ev).accounts[a].balance ==
            less.accounts[a].balance
            + if ev.Transferred? then PairNet(ev.req.from, ev.req.to, Rnd(ev.req.amount), a) else 0
  {
    if ev.Transferred? { ExactTransfer(less.accounts, ev.req); }
  }

  lemma NewAccount(db: DB, less: DB, ev: Event, a: AccountId)
    requires a !in db.accounts && a in Apply(db, ev).accounts
    ensures ev.Opened? && ev.account == a && Apply(less, ev).accounts[a].balance == Rnd(ev.initial)
  {
  }

  /** And the surviving transfers determine their balances. */
  lemma {:induction false} BalanceWithout(init: DB, evs: seq<Event>, undone: set<TxId>, a: AccountId)
    requires LegalHistory(init, evs) && a in Replay(init, evs).accounts
    requires forall ev :: ev in evs ==> !TieEvent(ev)
    ensures var accounts := Replay(init, Without(evs, undone)).accounts;
            a in accounts && accounts[a].balance == Opening(init, evs, a) + NetOfEvents(evs, undone, a)
  {
    SameAccounts(init, evs, undone);
    if evs == [] {
    } else {
      var front, last := evs[..|evs| - 1], evs[|evs| - 1];
      var db, less := Replay(init, front), Replay(init, Without(front, undone));
      WithoutLast(evs, undone, init);
      if a in db.accounts {
        BalanceWithout(init, front, undone, a);
        SameAccounts(init, front, undone);
        if !Deleted(last, undone) { KeptMoves(db, less, last, a); }
      } else {
        NewAccount(db, less, last, a);
        NoNetBeforeOpening(init, front, undone, a);
      }
    }
  }

  /** For any floors and any amounts off ties: deleting every reversed transfer and every reversal from the
      history leaves every account as it is, although the shorter history need not be one the services would
      have accepted. */
  lemma EventReduction(init: DB, evs: seq<Event>)
    requires Seeded(init) && LegalHistory(init, evs) && forall ev :: ev in evs ==> !TieEvent(ev)
    ensures Replay(init, Reduced(evs)).accounts == Replay(init, evs).accounts
  {
    var full, less := Replay(init, evs).accounts, Replay(init, Reduced(evs)).accounts;
    SameAccounts(init, evs, UndoneIn(evs));
    forall a | a in full ensures less[a] == full[a] {
      BalanceWithout(init, evs, UndoneIn(evs), a);
      LedgerAgrees(init, evs, a);
      HistoryReduction(init, evs, a);
      SlipsAreTies(init, evs, a);
      NoTiesNoCount(evs, a);
      StandingOfEvents(init, evs, a);
    }
  }
}
