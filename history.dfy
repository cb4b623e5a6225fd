/**
 * The transaction-history view's pure logic: the split of a user's transactions
 * into the "active" tab and the "history" tab by status, the set of statuses
 * the view has a label for, and the shortened display of a deposit's
 * transaction hash.
 */
module History {
  import opened Base
  import opened Tables

  /** The fields of a listed transaction that the modelled logic reads. */
  datatype Transaction = Transaction(id: string, isDeposit: bool, status: string, txHash: Option<string>)

  /** The statuses the view has a label (and a colour and an icon) for. */
  const LabelledStatuses: set<string> :=
    {"submitted", "processing", "paid", "rejected", "cancelled", "pending", "confirmed"}

  predicate IsActiveStatus(status: string) {
    status == "submitted" || status == "processing" || status == "pending"
  }

  predicate IsHistoryStatus(status: string) {
    status == "paid" || status == "rejected" || status == "cancelled" || status == "confirmed"
  }

  function IsActive(tx: Transaction): bool { IsActiveStatus(tx.status) }
  function IsHistory(tx: Transaction): bool { IsHistoryStatus(tx.status) }

  /** The "active" tab: transactions still in progress, in the order given. */
  function ActiveTransactions(transactions: seq<Transaction>): (r: seq<Transaction>)
    ensures forall tx :: tx in r <==> tx in transactions && tx.status in {"submitted", "processing", "pending"}
    ensures IsSubsequence(r, transactions)
  {
    Select(transactions, IsActive, true)
  }

  /** The "history" tab: transactions that reached a final status, in the order given. */
  function HistoryTransactions(transactions: seq<Transaction>): (r: seq<Transaction>)
    ensures forall tx :: tx in r <==> tx in transactions && tx.status in {"paid", "rejected", "cancelled", "confirmed"}
    ensures IsSubsequence(r, transactions)
  {
    Select(transactions, IsHistory, true)
  }

  /**
   * Each labelled status belongs to exactly one tab, and every other status to
   * neither.
   */
  lemma StatusPartition(status: string)
    ensures status in LabelledStatuses ==> IsActiveStatus(status) != IsHistoryStatus(status)
    ensures status !in LabelledStatuses ==> !IsActiveStatus(status) && !IsHistoryStatus(status)
  {
  }

  /** No transaction is shown in both tabs. */
  lemma TabsDisjoint(transactions: seq<Transaction>)
    ensures forall tx :: tx in ActiveTransactions(transactions) ==> tx !in HistoryTransactions(transactions)
  {
  }

  /**
   * The two tabs together show every transaction whose status is labelled
   * exactly once, and nothing else.
   */
  lemma {:induction false} TabsCoverLabelled(transactions: seq<Transaction>)
    ensures |ActiveTransactions(transactions)| + |HistoryTransactions(transactions)|
         == |Select(transactions, IsLabelled, true)|
  {
    if transactions != [] {
      TabsCoverLabelled(transactions[1..]);
      StatusPartition(transactions[0].status);
    }
  }

  function IsLabelled(tx: Transaction): bool { tx.status in LabelledStatuses }

  // ---------------------------------------------------- transaction hash

  function Min(a: int, b: int): int { if a <= b then a else b }
  function Max(a: int, b: int): int { if a <= b then b else a }

  /** Clamps a `substring` argument into `[0, n]`. */
  function Clamp(i: int, n: nat): (r: nat)
    ensures r <= n
    ensures 0 <= i <= n ==> r == i
  {
    if i < 0 then 0 else if i > n then n else i
  }

  /**
   * JavaScript's `String.prototype.substring(start, end)`: both arguments are
   * clamped into `[0, |s|]` and swapped when `start > end`.
   */
  function Substring(s: string, start: int, end: int): (r: string)
    ensures |r| <= |s|
  {
    var a, b := Clamp(start, |s|), Clamp(end, |s|);
    if a <= b then s[a..b] else s[b..a]
  }

  /** Within bounds `substring` is the slice, and the order of its arguments does not matter. */
  lemma SubstringSlice(s: string, start: int, end: int)
    ensures 0 <= start <= end <= |s| ==> Substring(s, start, end) == s[start..end]
    ensures Substring(s, start, end) == Substring(s, end, start)
  {
  }

  /**
   * `txHash.substring(0, 10) + "..." + txHash.substring(txHash.length - 8)`:
   * at most the first 10 characters, an ellipsis, and at most the last 8
   * characters; a hash shorter than that contributes all it has to each part.
   */
  function AbbreviateHash(h: string): (r: string)
    ensures r == h[..Min(10, |h|)] + "..." + h[Max(0, |h| - 8)..]
    ensures |r| == Min(10, |h|) + 3 + Min(8, |h|)
  {
    Substring(h, 0, 10) + "..." + Substring(h, |h| - 8, |h|)
  }

  /** A hash of 18 characters or more shows its first 10 and last 8, 21 characters in all. */
  lemma LongHashAbbreviation(h: string)
    requires |h| >= 18
    ensures AbbreviateHash(h) == h[..10] + "..." + h[|h| - 8..]
    ensures |AbbreviateHash(h)| == 21
  {
  }

  /** A hash of at most 8 characters is shown whole on both sides of the ellipsis. */
  lemma ShortHashAbbreviation(h: string)
    requires |h| <= 8
    ensures AbbreviateHash(h) == h + "..." + h
  {
  }

  /** JavaScript truthiness of an optional string: absent and empty are both falsy. */
  predicate Truthy(s: Option<string>) {
    match s
    case None => false
    case Some(v) => |v| > 0
  }

  /**
   * The hash line of a transaction card, `{tx.txHash && (...)}` inside the
   * deposit branch: a payment card never shows one, a deposit card shows one
   * exactly when it has a non-empty hash, and the line is the abbreviation of
   * that hash: it keeps the hash's first and last characters, puts the
   * ellipsis after at most 10 characters, and is at most 21 characters long.
   */
  function HashLine(tx: Transaction): (r: Option<string>)
    ensures !tx.isDeposit ==> r.None?
    ensures tx.isDeposit ==> (r.None? <==> tx.txHash.GetOr("") == "")
    ensures r.Some? ==>
      var h := tx.txHash.value;
      var n := |h|;
      && |r.value| == Min(10, n) + 3 + Min(8, n) <= 21
      && r.value[0] == h[0]
      && r.value[|r.value| - 1] == h[n - 1]
      && r.value[Min(10, n)..Min(10, n) + 3] == "..."
  {
    if tx.isDeposit && Truthy(tx.txHash) then Some(AbbreviateHash(tx.txHash.value)) else None
  }
}
