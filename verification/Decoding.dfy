/** Reading source, destination and amount back out of ledger rows: the loop of `Reverse` and the
    one of the transaction response. */
module Decoding {
  import opened Numerals
  import opened Schema

  datatype Posting = Posting(from: AccountId, to: AccountId, amount: int)

  /** The fields of a response that are derived from ledger rows. */
  datatype Derived = Derived(from: Option<AccountId>, to: Option<AccountId>, amount: Option<int>)

  datatype Currency = Currency(code: string, symbol: string)

  datatype Response = Response(
    id: TxId,
    typ: TxType,
    status: TxStatus,
    reference: Option<string>,
    reversalOf: Option<TxId>,
    from: Option<AccountId>,
    to: Option<AccountId>,
    amount: Option<int>,
    display: Option<string>,
    currency: Option<string>,
    reason: Option<Reason>,
    entries: seq<Entry>
  )

  /** What the loop of `Reverse` has in its three variables after the rows `es`. */
  function Decode(es: seq<Entry>): (p: Posting) {
    if es == [] then Posting(0, 0, 0)
    else
      var e, p := es[|es| - 1], Decode(es[..|es| - 1]);
      Posting(
        if e.debit > 0 then e.account else p.from,
        if e.credit > 0 then e.account else p.to,
        if e.debit > 0 then e.debit else p.amount)
  }

  /** What the response loop derives from the rows `es`. */
  function Derive(es: seq<Entry>): (r: Derived) {
    if es == [] then Derived(None, None, None)
    else
      var e, r := es[|es| - 1], Derive(es[..|es| - 1]);
      Derived(
        if e.debit > 0 then Some(e.account) else r.from,
        if e.credit > 0 then Some(e.account) else r.to,
        if e.debit > 0 then Some(e.debit) else r.amount)
  }

  method DecodeEntries(entries: seq<Entry>) returns (p: Posting)
    ensures p == Decode(entries)
  {
    var fromId, toId, amount := 0, 0, 0;
    for i := 0 to |entries|
      invariant Posting(fromId, toId, amount) == Decode(entries[..i])
    {
      var e := entries[i];
      assert entries[..i + 1][..i] == entries[..i];
      if e.debit > 0 {
        fromId := e.account;
        amount := e.debit;
      }
      if e.credit > 0 {
        toId := e.account;
      }
    }
    assert entries[..|entries|] == entries;
    p := Posting(fromId, toId, amount);
  }

  function DisplayOf(amount: Option<int>, symbol: string): (d: Option<string>) {
    if amount.Some? && amount.value > 0 then Some(symbol + Decimal(amount.value)) else None
  }

  /** What a client is told about a transaction and its rows. */
  method ToResponse(id: TxId, row: TxRow, entries: seq<Entry>, currency: Currency) returns (resp: Response)
    ensures resp.id == id && resp.typ == row.typ && resp.status == row.status && resp.reference == row.reference
    ensures resp.reversalOf == row.reversalOf && resp.reason == row.reason && resp.entries == entries
    ensures Derived(resp.from, resp.to, resp.amount) == Derive(entries)
    ensures resp.amount.Some? ==>
              && resp.amount.value > 0 && resp.currency == Some(currency.code)
              && resp.display.Some? && |resp.display.value| >= |currency.symbol|
              && resp.display.value[..|currency.symbol|] == currency.symbol
              && ParseDecimal(resp.display.value[|currency.symbol|..]) == resp.amount.value
              && var shown := resp.display.value[|currency.symbol|..];
                 var n := |shown| - 3;
                 && n > 0 && (forall i :: 0 <= i < n + 3 && i != n ==> '0' <= shown[i] <= '9') && shown[n] == '.'
                 && 100 * ParseNumeral(shown[..n]) + ParseNumeral(shown[n + 1..]) == resp.amount.value
    ensures resp.amount.None? ==> resp.display.None? && resp.currency.None?
  {
    resp := Response(id, row.typ, row.status, row.reference, row.reversalOf,
                     None, None, None, None, None, row.reason, entries);
    for i := 0 to |entries|
      invariant resp == Response(id, row.typ, row.status, row.reference, row.reversalOf,
                                 Derive(entries[..i]).from, Derive(entries[..i]).to, Derive(entries[..i]).amount,
                                 DisplayOf(resp.amount, currency.symbol),
                                 if resp.amount.Some? then Some(currency.code) else None, row.reason, entries)
      invariant resp.amount.Some? ==> resp.amount.value > 0
    {
      var e := entries[i];
      assert entries[..i + 1][..i] == entries[..i];
      if e.debit > 0 {
        resp := resp.(from := Some(e.account), amount := Some(e.debit),
                      display := Some(currency.symbol + Decimal(e.debit)), currency := Some(currency.code));
      }
      if e.credit > 0 {
        resp := resp.(to := Some(e.account));
      }
    }
    assert entries[..|entries|] == entries;
    if resp.amount.Some? {
      var shown := Decimal(resp.amount.value);
      DecimalRoundTrip(resp.amount.value);
      assert (currency.symbol + shown)[|currency.symbol|..] == shown;
    }
  }

  /** The two rows that record a movement of `m` from `f` to `t`. */
  function Pair(id: TxId, f: AccountId, t: AccountId, m: int): (es: seq<Entry>) {
    [Entry(id, f, m, 0), Entry(id, t, 0, m)]
  }

  predicate LastDebit(es: seq<Entry>, i: nat) {
    i < |es| && es[i].debit > 0 && forall j :: i < j < |es| ==> es[j].debit <= 0
  }

  predicate LastCredit(es: seq<Entry>, i: nat) {
    i < |es| && es[i].credit > 0 && forall j :: i < j < |es| ==> es[j].credit <= 0
  }

  lemma {:induction false} DebitFound(es: seq<Entry>)
    ensures Decode(es).amount >= 0
    ensures Decode(es).amount == 0 ==> forall i :: 0 <= i < |es| ==> es[i].debit <= 0
    ensures Decode(es).amount != 0 ==>
              exists i: nat :: LastDebit(es, i) && es[i].debit == Decode(es).amount && es[i].account == Decode(es).from
  {
    if es == [] {
    } else {
      var n := |es| - 1;
      var front := es[..n];
      DebitFound(front);
      if es[n].debit > 0 {
        assert LastDebit(es, n);
      } else if Decode(front).amount == 0 {
        assert forall i :: 0 <= i < n ==> es[i] == front[i];
      } else {
        var i: nat :| LastDebit(front, i) && front[i].debit == Decode(front).amount
                 && front[i].account == Decode(front).from;
        assert es[i] == front[i] && forall j :: i < j < n ==> es[j] == front[j];
        assert LastDebit(es, i);
      }
    }
  }

  lemma {:induction false} CreditFound(es: seq<Entry>)
    ensures || (forall i :: 0 <= i < |es| ==> es[i].credit <= 0)
            || exists i: nat :: LastCredit(es, i) && es[i].account == Decode(es).to
  {
    if es == [] {
    } else {
      var n := |es| - 1;
      var front := es[..n];
      CreditFound(front);
      if es[n].credit > 0 {
        assert LastCredit(es, n);
      } else if i: nat :| LastCredit(front, i) && front[i].account == Decode(front).to {
        assert es[i] == front[i] && forall j :: i < j < n ==> es[j] == front[j];
        assert LastCredit(es, i);
      } else {
        assert forall i :: 0 <= i < n ==> es[i] == front[i];
      }
    }
  }

  /** The amount and the source are those of the last debit row, the destination is that of the last credit row;
      `Reverse` sees amount 0 exactly when no row has a debit. */
  lemma DecodeFindsRows(es: seq<Entry>)
    ensures Decode(es).amount == 0 <==> forall i :: 0 <= i < |es| ==> es[i].debit <= 0
    ensures Decode(es).amount != 0 ==>
              exists i :: 0 <= i < |es| && es[i].debit == Decode(es).amount > 0 && es[i].account == Decode(es).from
                          && forall j :: i < j < |es| ==> es[j].debit <= 0
    ensures (exists i :: 0 <= i < |es| && es[i].credit > 0) ==>
              exists i :: 0 <= i < |es| && es[i].credit > 0 && es[i].account == Decode(es).to
                          && forall j :: i < j < |es| ==> es[j].credit <= 0
  {
    DebitFound(es);
    CreditFound(es);
    if i: nat :| LastDebit(es, i) && es[i].debit == Decode(es).amount && es[i].account == Decode(es).from {
      assert es[i].debit == Decode(es).amount > 0;
    }
    if i: nat :| LastCredit(es, i) && es[i].account == Decode(es).to {
      assert es[i].credit > 0;
    }
  }

  /** The response loop finds the same rows, and is silent where there are none. */
  lemma {:induction false} DeriveAgrees(es: seq<Entry>)
    ensures Derive(es).amount == if Decode(es).amount != 0 then Some(Decode(es).amount) else None
    ensures Derive(es).from == if Decode(es).amount != 0 then Some(Decode(es).from) else None
    ensures Derive(es).to == if exists i :: 0 <= i < |es| && es[i].credit > 0 then Some(Decode(es).to) else None
  {
    if es == [] {
    } else {
      var front, last := es[..|es| - 1], es[|es| - 1];
      DeriveAgrees(front);
      DebitFound(front);
      assert es == front + [last];
      assert last.credit > 0 ==> es[|front|].credit > 0;
      assert forall i :: 0 <= i < |front| ==> es[i] == front[i];
    }
  }

  /** Both loops recover exactly what was posted, in whichever order the two rows come back; a
      posting whose stored amount is zero decodes to nothing. */
  lemma PostingRoundTrip(id: TxId, f: AccountId, t: AccountId, m: nat, es: seq<Entry>)
    requires es == Pair(id, f, t, m) || es == [Pair(id, f, t, m)[1], Pair(id, f, t, m)[0]]
    ensures m > 0 ==> Decode(es) == Posting(f, t, m) && Derive(es) == Derived(Some(f), Some(t), Some(m))
    ensures m == 0 ==> Decode(es) == Posting(0, 0, 0) && Derive(es) == Derived(None, None, None)
  {
    var front := es[..1];
    assert front == [es[0]] && front[..0] == [];
    assert Decode(front[..0]) == Posting(0, 0, 0) && Derive(front[..0]) == Derived(None, None, None);
    assert Decode(es).amount == if es[1].debit > 0 then es[1].debit else Decode(front).amount;
  }

  /** Decoding the rows a reversal writes gives the original movement with its ends swapped. */
  lemma MirrorRoundTrip(id: TxId, rev: TxId, f: AccountId, t: AccountId, m: nat)
    requires m > 0
    ensures var p := Decode(Pair(id, f, t, m));
            Decode(Pair(rev, p.to, p.from, p.amount)) == Posting(t, f, m)
  {
    PostingRoundTrip(id, f, t, m, Pair(id, f, t, m));
    PostingRoundTrip(rev, t, f, m, Pair(rev, t, f, m));
  }
}
