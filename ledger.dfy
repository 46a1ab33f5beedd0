/** The transaction ledger read as money: what has been disbursed to and repaid
    on one application, summed over the append-only list of transactions. */
module Ledger {
  import opened Entities

  /** The amount a single transaction contributes to `kind` for application `id`. */
  function Share(t: Transaction, id: Id, kind: TxType): int {
    if t.applicationId == id && t.txType == kind then t.amount else 0
  }

  /** Sum of the amounts of all `kind` transactions recorded against `id`. */
  function Total(txs: seq<Transaction>, id: Id, kind: TxType): int {
    if txs == [] then 0 else Share(txs[0], id, kind) + Total(txs[1..], id, kind)
  }

  /** Disbursements minus repayments: what the ledger says `id` still owes. */
  function Balance(txs: seq<Transaction>, id: Id): int {
    Total(txs, id, Disbursement) - Total(txs, id, Repayment)
  }

  /** The signed change one transaction makes to the balance of `id`. */
  function Effect(t: Transaction, id: Id): (d: int)
    ensures t.applicationId != id ==> d == 0
    ensures t.applicationId == id && t.txType == Disbursement ==> d == t.amount
    ensures t.applicationId == id && t.txType == Repayment ==> d == -t.amount
  {
    Share(t, id, Disbursement) - Share(t, id, Repayment)
  }

  /** Appending one transaction adds exactly its share to the running total. */
  lemma {:induction false} TotalAppend(txs: seq<Transaction>, t: Transaction, id: Id, kind: TxType)
    ensures Total(txs + [t], id, kind) == Total(txs, id, kind) + Share(t, id, kind)
  {
    if txs != [] {
      assert (txs + [t])[1..] == txs[1..] + [t];
      TotalAppend(txs[1..], t, id, kind);
    }
  }

  /** Appending one transaction moves the balance of `id` by exactly its effect. */
  lemma BalanceAppend(txs: seq<Transaction>, t: Transaction, id: Id)
    ensures Balance(txs + [t], id) == Balance(txs, id) + Effect(t, id)
  {
    TotalAppend(txs, t, id, Disbursement);
    TotalAppend(txs, t, id, Repayment);
  }

  /** An application with no transaction of its own has nothing recorded. */
  lemma {:induction false} TotalUntouched(txs: seq<Transaction>, id: Id, kind: TxType)
    requires forall i :: 0 <= i < |txs| ==> txs[i].applicationId != id
    ensures Total(txs, id, kind) == 0
  {
    if txs != [] {
      TotalUntouched(txs[1..], id, kind);
    }
  }

  /** With non-negative amounts, every running total is non-negative. */
  lemma {:induction false} TotalNonNegative(txs: seq<Transaction>, id: Id, kind: TxType)
    requires forall i :: 0 <= i < |txs| ==> TxDocValid(txs[i])
    ensures Total(txs, id, kind) >= 0
  {
    if txs != [] {
      TotalNonNegative(txs[1..], id, kind);
    }
  }
}
