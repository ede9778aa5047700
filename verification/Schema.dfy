/** The rows of the four tables and the committed database as a value. */
module Schema {

  datatype Option<+T> = None | Some(value: T)

  datatype Result<+T, +E> = Ok(value: T) | Err(error: E)

  /** A bigserial account number; zero and negative numbers can be requested, never assigned. */
  type AccountId = int

  /** A generated UUID. */
  datatype TxId = TxId(uuid: nat)

  datatype AccountStatus = Active | Inactive | Closed

  datatype Account = Account(currency: string, balance: int, floor: int, status: AccountStatus)

  datatype TxType = Transfer | Reversal | Deposit | Withdrawal

  datatype TxStatus = Completed | Failed | Reversed

  /** Why `Transfer` refuses a request; each stands for one message and code. */
  datatype Reason =
    | InvalidAmount
    | SameAccount
    | AccountNotFound(account: AccountId)
    | SourceNotActive
    | DestinationNotActive
    | CurrencyMismatch
    | InsufficientFunds

  datatype TxRow = TxRow(
    typ: TxType,
    status: TxStatus,
    reference: Option<string>,
    reversalOf: Option<TxId>,
    reason: Option<Reason>
  )

  datatype Entry = Entry(tx: TxId, account: AccountId, debit: int, credit: int)

  datatype Outcome = Success | Failure

  datatype AuditRow = AuditRow(
    operation: TxType,
    tx: TxId,
    accounts: seq<AccountId>,
    amount: int,
    outcome: Outcome,
    reason: Option<Reason>
  )

  datatype DB = DB(
    accounts: map<AccountId, Account>,
    txs: map<TxId, TxRow>,
    ledger: seq<Entry>,
    audit: seq<AuditRow>
  )

  datatype TransferRequest = TransferRequest(
    from: AccountId,
    to: AccountId,
    amount: real,
    reference: Option<string>
  )

  /** The ledger rows of one transaction, in insertion order. */
  function EntriesOf(ledger: seq<Entry>, id: TxId): (es: seq<Entry>) {
    if ledger == [] then []
    else
      var last := ledger[|ledger| - 1];
      EntriesOf(ledger[..|ledger| - 1], id) + if last.tx == id then [last] else []
  }

  /** The audit rows of one transaction, in insertion order. */
  function AuditOf(audit: seq<AuditRow>, id: TxId): (rows: seq<AuditRow>) {
    if audit == [] then []
    else
      var last := audit[|audit| - 1];
      AuditOf(audit[..|audit| - 1], id) + if last.tx == id then [last] else []
  }

  lemma EntriesOfSnoc(ledger: seq<Entry>, e: Entry, id: TxId)
    ensures EntriesOf(ledger + [e], id) == EntriesOf(ledger, id) + if e.tx == id then [e] else []
  {
    assert (ledger + [e])[..|ledger|] == ledger;
  }

  lemma EntriesOfPair(ledger: seq<Entry>, d: Entry, c: Entry, id: TxId)
    requires d.tx == c.tx
    ensures EntriesOf(ledger + [d, c], id) == EntriesOf(ledger, id) + if d.tx == id then [d, c] else []
  {
    assert ledger + [d, c] == ledger + [d] + [c];
    EntriesOfSnoc(ledger, d, id);
    EntriesOfSnoc(ledger + [d], c, id);
  }

  lemma AuditOfSnoc(audit: seq<AuditRow>, r: AuditRow, id: TxId)
    ensures AuditOf(audit + [r], id) == AuditOf(audit, id) + if r.tx == id then [r] else []
  {
    assert (audit + [r])[..|audit|] == audit;
  }
}
