// The transaction list (src/pages/Transactions.tsx): the table filter, which
// never shows mining entries, and the badge colour of each transaction type.
module Transactions {
  import opened Types
  import opened Text
  import opened Seqs

  /** The table's test: not a mining entry, user name or id containing the term, and the selected type. */
  predicate TransactionShown(tx: Transaction, term: string, typeFilter: string) {
    tx.kind != "mining"
    && (IncludesCI(tx.userName, term) || IncludesCI(tx.id, term))
    && KindSelected(typeFilter, tx.kind)
  }

  /** `filteredTransactions`: the shown transactions in list order; nothing before the data arrives. */
  function FilteredTransactions(txs: Option<seq<Transaction>>, term: string, typeFilter: string)
    : (r: Option<seq<Transaction>>)
    ensures txs.None? <==> r.None?
    ensures txs.Some? ==> IsSubsequence(r.value, txs.value)
    ensures txs.Some? ==> forall i :: 0 <= i < |r.value| ==> r.value[i].kind != "mining"
    ensures txs.Some? ==> forall i :: 0 <= i < |r.value| ==> TransactionShown(r.value[i], term, typeFilter)
    ensures txs.Some? ==> forall i :: 0 <= i < |txs.value| && TransactionShown(txs.value[i], term, typeFilter) ==>
      txs.value[i] in r.value
    ensures txs.Some? ==> |r.value| == CountWhere(txs.value, (tx: Transaction) => TransactionShown(tx, term, typeFilter))
  {
    match txs
    case None => None
    case Some(ts) =>
      var keep := (tx: Transaction) => TransactionShown(tx, term, typeFilter);
      FilterIsSubsequence(ts, keep);
      FilterLength(ts, keep);
      Some(Filter(ts, keep))
  }

  /** A transaction is listed exactly when it is in the list and passes the table's test. */
  lemma ListedIffShown(txs: seq<Transaction>, term: string, typeFilter: string, tx: Transaction)
    ensures tx in FilteredTransactions(Some(txs), term, typeFilter).value <==>
      tx in txs && TransactionShown(tx, term, typeFilter)
  {
    var r := FilteredTransactions(Some(txs), term, typeFilter).value;
    if tx in r {
      var i :| 0 <= i < |r| && r[i] == tx;
      SubsequenceMembers(r, txs, i);
    }
  }

  /** With an empty search and the `'all'` type, every non-mining transaction is listed, in order. */
  lemma EmptySearchShowsAllButMining(txs: seq<Transaction>)
    ensures FilteredTransactions(Some(txs), "", "all").value == Filter(txs, (tx: Transaction) => tx.kind != "mining")
  {
    EmptySearchFilter(txs);
  }

  lemma {:induction false} EmptySearchFilter(txs: seq<Transaction>)
    ensures Filter(txs, (tx: Transaction) => TransactionShown(tx, "", "all"))
      == Filter(txs, (tx: Transaction) => tx.kind != "mining")
  {
    if txs != [] {
      IncludesEmpty(txs[0].userName);
      EmptySearchFilter(txs[1..]);
    }
  }

  const GrayBadge := "bg-gray-100 text-gray-800"

  /** The five transaction types with a colour of their own. */
  predicate KnownKind(kind: string) {
    kind == "mining" || kind == "buy" || kind == "sell" || kind == "transfer" || kind == "referral_bonus"
  }

  /** `getTypeColor`: the badge classes for a transaction type. */
  function TypeColor(kind: string): (r: string)
    ensures r == GrayBadge <==> !KnownKind(kind)
  {
    match kind
    case "mining" => "bg-blue-100 text-blue-800"
    case "buy" => "bg-green-100 text-green-800"
    case "sell" => "bg-yellow-100 text-yellow-800"
    case "transfer" => "bg-purple-100 text-purple-800"
    case "referral_bonus" => "bg-pink-100 text-pink-800"
    case _ => GrayBadge
  }

  /** Each of the five known types gets a colour no other type gets. */
  lemma KnownKindsDistinct(a: string, b: string)
    requires KnownKind(a) && a != b
    ensures TypeColor(a) != TypeColor(b)
  {
  }
}
