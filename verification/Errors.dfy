/** The texts of the errors that `Reverse` can meet, and how they decide its answer.

    An error of the database is recognised as a unique violation by its text alone, and the stores put
    the number of the row at hand into that text. */
module Errors {
  import opened Schema
  import opened Numerals

  /** How `Reverse` fails. */
  datatype Refusal =
    | NotFound
    | InvalidType
    | InvalidStatus(status: TxStatus)
    | InsufficientForReversal
    | AlreadyReversed
    | Internal

  /** What `Reverse` sends to the database, from BEGIN to COMMIT. */
  datatype Request =
    | BeginTx
    | LockTransaction(id: TxId)
    | ListEntries
    | LockAccount(account: AccountId)
    | UpdateAccount(account: AccountId)
    | CreateTransaction
    | InsertLedger
    | MarkTransaction(id: TxId)
    | InsertLog
    | CommitTx

  // --- Searching a text ---------------------------------------------------------------------------

  /** `sub` occurs in `s` at index `i`. */
  predicate OccursAt(s: string, sub: string, i: nat) {
    i + |sub| <= |s| && s[i..i + |sub|] == sub
  }

  predicate Contains(s: string, sub: string) {
    exists i: nat :: i <= |s| && OccursAt(s, sub, i)
  }

  method ContainsStr(s: string, sub: string) returns (found: bool)
    ensures found <==> Contains(s, sub)
  {
    var i := 0;
    while i <= |s| - |sub|
      invariant 0 <= i
      invariant forall j: nat :: j < i ==> !OccursAt(s, sub, j)
    {
      if s[i..i + |sub|] == sub {
        assert OccursAt(s, sub, i);
        return true;
      }
      i := i + 1;
    }
    return false;
  }

  /** What contains `sub` is `sub` with something before and after it, and the other way round. */
  lemma ContainsParts(s: string, sub: string) returns (before: string, after: string)
    requires Contains(s, sub)
    ensures s == before + sub + after
  {
    var i: nat :| i <= |s| && OccursAt(s, sub, i);
    before, after := s[..i], s[i + |sub|..];
  }

  lemma PartsContain(before: string, sub: string, after: string)
    ensures Contains(before + sub + after, sub)
  {
    assert OccursAt(before + sub + after, sub, |before|);
  }

  const UNIQUE := "unique"
  const SQLSTATE := "23505"

  /** The text passes for a unique violation. */
  predicate Tells(text: string) {
    Contains(text, UNIQUE) || Contains(text, SQLSTATE)
  }

  method IsUniqueViolation(text: string) returns (b: bool)
    ensures b <==> Tells(text)
    ensures b <==> Contains(text, "unique") || Contains(text, "23505")
  {
    var named := ContainsStr(text, UNIQUE);
    var coded := ContainsStr(text, SQLSTATE);
    b := |text| > 0 && (named || coded);
  }

  // --- Texts ----------------------------------------------------------------------------------------

  const NO_ROWS := "no rows in result set"

  /** The driver's text for a collision in a unique index. */
  function DuplicateKey(constraint: string): (s: string) {
    Phrased("ERROR: duplicate key value violates",
            Phrased("unique", Phrased("constraint", Phrased("\"" + constraint + "\"", "(SQLSTATE 23505)"))))
  }

  /** What `Reverse` says when it finds no debit among the rows of its original. */
  const NOTHING_POSTED := Phrased("original transaction", "has no ledger entries")

  /** Thirty-two digits in five groups. */
  function Hyphenated(h: string): (s: string)
    requires |h| == 32
  {
    h[..8] + "-" + h[8..12] + "-" + h[12..16] + "-" + h[16..20] + "-" + h[20..]
  }

  /** The canonical form of a UUID. */
  function UuidText(id: TxId): (s: string) {
    Hyphenated(HexDigits(id.uuid, 32))
  }

  function Phrased(phrase: string, rest: string): (s: string) { phrase + " " + rest }

  function Numbered(phrase: string, number: string, rest: string): (s: string) {
    phrase + " " + number + ": " + rest
  }

  function LockText(a: AccountId, cause: string): (s: string) {
    Numbered("lock account", FormatInt(a), cause)
  }

  /** The error of a request as its store returns it; `cause` is the driver's own text. */
  function StoreText(r: Request, cause: string): (s: string) {
    match r
    case BeginTx => cause
    case LockTransaction(id) => Numbered("lock transaction", UuidText(id), cause)
    case ListEntries => Phrased("list ledger entries:", cause)
    case LockAccount(a) => LockText(a, cause)
    case UpdateAccount(a) => Numbered("update balance for account", FormatInt(a), cause)
    case CreateTransaction => Phrased("create transaction:", cause)
    case InsertLedger => Phrased("insert ledger entry:", cause)
    case MarkTransaction(id) => Phrased("mark transaction", Phrased(UuidText(id), Phrased("reversed:", cause)))
    case InsertLog => Phrased("insert audit log:", cause)
    case CommitTx => cause
  }

  /** The same error as `Reverse` passes it on. */
  function ErrorText(r: Request, cause: string): (s: string) {
    match r
    case ListEntries => Phrased("fetch original entries:", StoreText(r, cause))
    case LockAccount(a) => LockText(a, StoreText(r, cause))
    case CreateTransaction => Phrased("create reversal transaction:", StoreText(r, cause))
    case _ => StoreText(r, cause)
  }

  /** The number a request puts into its error, if any. */
  function Named(r: Request): (s: string) {
    match r
    case LockTransaction(id) => UuidText(id)
    case MarkTransaction(id) => UuidText(id)
    case LockAccount(a) => FormatInt(a)
    case UpdateAccount(a) => FormatInt(a)
    case _ => ""
  }

  /** How an error that is not one of the service's own is answered. */
  function AnswerTo(text: string): (r: Refusal) {
    if Tells(text) then AlreadyReversed else Internal
  }

  lemma GroupsOf(h: string)
    requires |h| == 32
    ensures var s := Hyphenated(h);
            && |s| == 36 && s[8] == s[13] == s[18] == s[23] == '-'
            && s[..8] == h[..8] && s[9..13] == h[8..12] && s[14..18] == h[12..16] && s[19..23] == h[16..20]
            && s[24..] == h[20..]
  {
  }

  lemma GroupsTogether(h: string)
    requires |h| == 32
    ensures h[..8] + h[8..12] + h[12..16] + h[16..20] + h[20..] == h
  {
  }

  lemma CharactersOf(h: string)
    requires |h| == 32
    ensures forall c :: c in Hyphenated(h) ==> c == '-' || c in h
  {
    var a, b := h[..8] + "-" + h[8..12], h[12..16] + "-" + h[16..20] + "-" + h[20..];
    assert Hyphenated(h) == a + "-" + b;
    assert forall c :: c in a ==> c == '-' || c in h;
    assert forall c :: c in b ==> c == '-' || c in h;
  }

  /** A UUID is written in five groups of hexadecimal digits, which are its number. */
  lemma UuidIsCanonical(id: TxId)
    requires id.uuid < Power16(32)
    ensures var s := UuidText(id);
            && |s| == 36 && s[8] == s[13] == s[18] == s[23] == '-'
            && ParseHex(s[..8] + s[9..13] + s[14..18] + s[19..23] + s[24..]) == id.uuid
            && forall c :: c in s ==> c == '-' || '0' <= c <= '9' || 'a' <= c <= 'f'
  {
    var h := HexDigits(id.uuid, 32);
    HexRoundTrip(id.uuid, 32);
    HexDigitsOnly(id.uuid, 32);
    CharactersOf(h);
    GroupsOf(h);
    GroupsTogether(h);
  }

  /** The whole texts of the requests that name no row; BEGIN and COMMIT add nothing. */
  lemma RequestTexts(cause: string)
    ensures ErrorText(BeginTx, cause) == ErrorText(CommitTx, cause) == cause
    ensures ErrorText(ListEntries, cause) == "fetch original entries:" + " " + ("list ledger entries:" + " " + cause)
    ensures ErrorText(CreateTransaction, cause) ==
            "create reversal transaction:" + " " + ("create transaction:" + " " + cause)
    ensures ErrorText(InsertLedger, cause) == "insert ledger entry:" + " " + cause
    ensures ErrorText(InsertLog, cause) == "insert audit log:" + " " + cause
  {
  }

  /** The texts of those that do; an account number appears twice while its row is locked, once by the store and
      once by the service. */
  lemma RowTexts(a: AccountId, id: TxId, cause: string)
    ensures ErrorText(LockTransaction(id), cause) == "lock transaction" + " " + UuidText(id) + ": " + cause
    ensures ErrorText(LockAccount(a), cause) ==
            "lock account" + " " + FormatInt(a) + ": " + ("lock account" + " " + FormatInt(a) + ": " + cause)
    ensures ErrorText(UpdateAccount(a), cause) == "update balance for account" + " " + FormatInt(a) + ": " + cause
    ensures ErrorText(MarkTransaction(id), cause) ==
            "mark transaction" + " " + (UuidText(id) + " " + ("reversed:" + " " + cause))
  {
  }

  // --- When a text passes for a unique violation ------------------------------------------------------

  /** An occurrence that covers the joint has the joint's character. */
  lemma CoversJoint(a: string, sep: char, b: string, sub: string, i: nat)
    requires OccursAt(a + [sep] + b, sub, i)
    ensures i <= |a| < i + |sub| ==> sub[|a| - i] == sep
  {
  }

  lemma OccursInFront(a: string, rest: string, sub: string, i: nat)
    requires i + |sub| <= |a|
    ensures OccursAt(a + rest, sub, i) <==> OccursAt(a, sub, i)
  {
    assert (a + rest)[i..i + |sub|] == a[i..i + |sub|];
  }

  lemma OccursBehind(front: string, b: string, sub: string, j: nat)
    ensures OccursAt(front + b, sub, |front| + j) <==> OccursAt(b, sub, j)
  {
    if j + |sub| <= |b| {
      assert (front + b)[|front| + j..|front| + j + |sub|] == b[j..j + |sub|];
    }
  }

  /** No occurrence of `sub` reaches across a character that is not in it. */
  lemma ContainsSplit(a: string, sep: char, b: string, sub: string)
    requires sub != "" && sep !in sub
    ensures Contains(a + [sep] + b, sub) <==> Contains(a, sub) || Contains(b, sub)
  {
    var s, front := a + [sep] + b, a + [sep];
    assert s == a + ([sep] + b) && s == front + b;
    if Contains(s, sub) {
      var i: nat :| i <= |s| && OccursAt(s, sub, i);
      CoversJoint(a, sep, b, sub, i);
      if i + |sub| <= |a| {
        OccursInFront(a, [sep] + b, sub, i);
      } else {
        OccursBehind(front, b, sub, i - |front|);
      }
    }
    if Contains(a, sub) {
      var i: nat :| i <= |a| && OccursAt(a, sub, i);
      OccursInFront(a, [sep] + b, sub, i);
    }
    if Contains(b, sub) {
      var j: nat :| j <= |b| && OccursAt(b, sub, j);
      OccursBehind(front, b, sub, j);
    }
  }

  lemma TellsSplit(a: string, sep: char, b: string)
    requires sep == ' ' || sep == ':'
    ensures Tells(a + [sep] + b) <==> Tells(a) || Tells(b)
  {
    ContainsSplit(a, sep, b, UNIQUE);
    ContainsSplit(a, sep, b, SQLSTATE);
  }

  /** What contains `sub` contains each of its characters. */
  lemma ContainsItsCharacters(s: string, sub: string, k: nat)
    requires Contains(s, sub) && k < |sub|
    ensures sub[k] in s
  {
    var i: nat :| i <= |s| && OccursAt(s, sub, i);
    assert s[i + k] == s[i..i + |sub|][k];
  }

  /** A text without the two characters tells nothing. */
  lemma NothingToTell(s: string)
    ensures Tells(s) ==> 'q' in s || '5' in s
  {
    if Contains(s, UNIQUE) { ContainsItsCharacters(s, UNIQUE, 3); }
    if Contains(s, SQLSTATE) { ContainsItsCharacters(s, SQLSTATE, 2); }
  }

  lemma TellsPhrased(phrase: string, rest: string)
    requires 'q' !in phrase && '5' !in phrase
    ensures Tells(Phrased(phrase, rest)) <==> Tells(rest)
  {
    NothingToTell(phrase);
    TellsSplit(phrase, ' ', rest);
    assert phrase + [' '] + rest == Phrased(phrase, rest);
  }

  lemma TellsNumbered(phrase: string, number: string, rest: string)
    requires 'q' !in phrase && '5' !in phrase
    ensures Tells(Numbered(phrase, number, rest)) <==> Tells(number) || Tells(rest)
  {
    TellsPhrased("", rest);
    TellsSplit(number, ':', Phrased("", rest));
    TellsPhrased(phrase, number + [':'] + Phrased("", rest));
    assert Phrased(phrase, number + [':'] + Phrased("", rest)) == Numbered(phrase, number, rest);
  }

  lemma TellsMarked(number: string, cause: string)
    ensures Tells(Phrased("mark transaction", Phrased(number, Phrased("reversed:", cause)))) <==>
            Tells(number) || Tells(cause)
  {
    TellsPhrased("reversed:", cause);
    TellsSplit(number, ' ', Phrased("reversed:", cause));
    assert number + [' '] + Phrased("reversed:", cause) == Phrased(number, Phrased("reversed:", cause));
    TellsPhrased("mark transaction", Phrased(number, Phrased("reversed:", cause)));
  }

  lemma TellsWhenWrapped(outer: string, inner: string, cause: string)
    requires 'q' !in outer && '5' !in outer && 'q' !in inner && '5' !in inner
    ensures Tells(Phrased(outer, Phrased(inner, cause))) <==> Tells(cause)
  {
    TellsPhrased(inner, cause);
    TellsPhrased(outer, Phrased(inner, cause));
  }

  lemma ListingTells(cause: string)
    ensures Tells(ErrorText(ListEntries, cause)) <==> Tells(cause)
  {
    TellsWhenWrapped("fetch original entries:", "list ledger entries:", cause);
  }

  lemma CreatingTells(cause: string)
    ensures Tells(ErrorText(CreateTransaction, cause)) <==> Tells(cause)
  {
    TellsWhenWrapped("create reversal transaction:", "create transaction:", cause);
  }

  lemma LockingTells(a: AccountId, cause: string)
    ensures Tells(ErrorText(LockAccount(a), cause)) <==> Tells(cause) || Tells(FormatInt(a))
  {
    TellsNumbered("lock account", FormatInt(a), cause);
    TellsNumbered("lock account", FormatInt(a), LockText(a, cause));
  }

  lemma UpdatingTells(a: AccountId, cause: string)
    ensures Tells(ErrorText(UpdateAccount(a), cause)) <==> Tells(cause) || Tells(FormatInt(a))
  {
    TellsNumbered("update balance for account", FormatInt(a), cause);
  }

  lemma LoggingTells(cause: string)
    ensures Tells(ErrorText(InsertLedger, cause)) <==> Tells(cause)
    ensures Tells(ErrorText(InsertLog, cause)) <==> Tells(cause)
  {
    TellsPhrased("insert ledger entry:", cause);
    TellsPhrased("insert audit log:", cause);
  }

  /** Exactly when a failed request passes for a unique violation: when the driver's text does, or the
      number of the row at hand does. */
  lemma TellsIff(r: Request, cause: string)
    ensures Tells(ErrorText(r, cause)) <==> Tells(cause) || Tells(Named(r))
  {
    NothingToTell("");
    match r
    case LockTransaction(id) => TellsNumbered("lock transaction", UuidText(id), cause);
    case ListEntries => ListingTells(cause);
    case LockAccount(a) => LockingTells(a, cause);
    case UpdateAccount(a) => UpdatingTells(a, cause);
    case CreateTransaction => CreatingTells(cause);
    case MarkTransaction(id) => TellsMarked(UuidText(id), cause);
    case InsertLedger => LoggingTells(cause);
    case InsertLog => LoggingTells(cause);
    case _ =>
  }

  /** A real violation is recognised. */
  lemma DuplicateKeyTells(constraint: string)
    ensures AnswerTo(ErrorText(CreateTransaction, DuplicateKey(constraint))) == AlreadyReversed
  {
    var rest := Phrased("constraint", Phrased("\"" + constraint + "\"", "(SQLSTATE 23505)"));
    assert OccursAt("unique", UNIQUE, 0);
    TellsSplit("unique", ' ', rest);
    assert "unique" + [' '] + rest == Phrased("unique", rest);
    TellsSplit("ERROR: duplicate key value violates", ' ', Phrased("unique", rest));
    assert "ERROR: duplicate key value violates" + [' '] + Phrased("unique", rest) == DuplicateKey(constraint);
    CreatingTells(DuplicateKey(constraint));
  }

  /** Both signs are in its text, on either side of the name of the constraint. */
  lemma DuplicateKeyText(constraint: string)
    ensures DuplicateKey(constraint) ==
            "ERROR: duplicate key value violates" + " " + ("unique" + " " + ("constraint" + " "
            + ("\"" + constraint + "\"" + " " + "(SQLSTATE 23505)")))
    ensures Contains(DuplicateKey(constraint), SQLSTATE)
  {
    var rest := Phrased("\"" + constraint + "\"", "(SQLSTATE 23505)");
    assert OccursAt("(SQLSTATE 23505)", SQLSTATE, 10);
    ContainsBehind("\"" + constraint + "\"", "(SQLSTATE 23505)", SQLSTATE);
    ContainsBehind("constraint", rest, SQLSTATE);
    ContainsBehind("unique", Phrased("constraint", rest), SQLSTATE);
    ContainsBehind("ERROR: duplicate key value violates", Phrased("unique", Phrased("constraint", rest)), SQLSTATE);
  }

  lemma ContainsBehind(phrase: string, rest: string, sub: string)
    requires Contains(rest, sub)
    ensures Contains(Phrased(phrase, rest), sub)
  {
    var j: nat :| j <= |rest| && OccursAt(rest, sub, j);
    assert phrase + " " + rest == (phrase + " ") + rest;
    OccursBehind(phrase + " ", rest, sub, j);
  }

  lemma NothingPostedTellsNothing()
    ensures AnswerTo(NOTHING_POSTED) == Internal
  {
    NothingToTell("has no ledger entries");
    TellsPhrased("original transaction", "has no ledger entries");
  }

  /** An account that is missing is told only by its number. */
  lemma NoRowsTellsNothing(a: AccountId)
    ensures AnswerTo(ErrorText(LockAccount(a), NO_ROWS)) == if Tells(FormatInt(a)) then AlreadyReversed else Internal
  {
    NothingToTell(NO_ROWS);
    LockingTells(a, NO_ROWS);
  }

  /** The number of account 23505 passes for a violation, whatever went wrong while it was locked or updated. */
  lemma AccountNumberTells(cause: string)
    ensures AnswerTo(ErrorText(LockAccount(23505), cause)) == AlreadyReversed
    ensures AnswerTo(ErrorText(UpdateAccount(23505), cause)) == AlreadyReversed
  {
    assert Numeral(2) == "2" && Numeral(23) == "23" && Numeral(235) == "235" && Numeral(2350) == "2350";
    assert FormatInt(23505) == "23505";
    assert OccursAt("23505", SQLSTATE, 0);
    LockingTells(23505, cause);
    UpdatingTells(23505, cause);
  }
}
