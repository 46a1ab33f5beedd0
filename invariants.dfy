/** Every application handler keeps the store consistent: ids stay fresh,
    emails unique, documents schema-valid, the ledger only grows, and the
    ledger balance law keeps holding for every application. */
module Invariants {
  import opened Entities
  import opened Ledger
  import opened StoreState
  import opened Applications

  /** Appending one transaction for `id` while replacing the application
      stored at `id` keeps the balance law, provided the replacement owes
      exactly the transaction's effect more than before. */
  lemma BalancedAfterPosting(s: State, id: Id, updated: Application, tx: Transaction)
    requires LedgerBalanced(s) && id in s.apps && tx.applicationId == id
    requires updated.disbursedAmount == s.apps[id].disbursedAmount + Effect(tx, id)
    ensures LedgerBalanced(s.(apps := s.apps[id := updated], txs := s.txs + [tx]))
  {
    var t := s.(apps := s.apps[id := updated], txs := s.txs + [tx]);
    forall other | other in t.apps
      ensures t.apps[other].disbursedAmount == Balance(t.txs, other)
    {
      BalanceAppend(s.txs, tx, other);
    }
  }

  /** createApplication keeps the store consistent and stores the new
      application under an id no application had. */
  lemma CreateApplicationPreservesInv(s: State, input: CreateApplicationInput, now: int)
    requires Inv(s)
    ensures Inv(CreateApplication(s, input, now).state)
    ensures CreateApplication(s, input, now).resp.Ok? ==>
      CreateApplication(s, input, now).resp.value.0 !in s.apps
    ensures OwnersExist(s) ==> OwnersExist(CreateApplication(s, input, now).state)
  {
    var out := CreateApplication(s, input, now);
    if out.resp.Ok? {
      var t := out.state;
      var id := s.nextId;
      assert t.apps == s.apps[id := NewApplication(input, now)];
      assert forall i :: 0 <= i < |s.txs| ==> s.txs[i].applicationId != id;
      TotalUntouched(s.txs, id, Disbursement);
      TotalUntouched(s.txs, id, Repayment);
    }
  }

  lemma DisbursePreservesInv(s: State, input: DisburseInput)
    requires Inv(s)
    ensures Inv(Disburse(s, input).state)
    ensures OwnersExist(s) ==> OwnersExist(Disburse(s, input).state)
  {
    var out := Disburse(s, input);
    if out.resp.Ok? {
      var id := input.applicationId;
      BalancedAfterPosting(s, id, out.resp.value, Transaction(id, Disbursement, DisbursedTotal(input)));
    }
  }

  lemma RepayPreservesInv(s: State, input: RepayInput)
    requires Inv(s)
    ensures Inv(Repay(s, input).state)
    ensures OwnersExist(s) ==> OwnersExist(Repay(s, input).state)
  {
    var out := Repay(s, input);
    if out.resp.Ok? {
      var id := input.applicationId;
      BalancedAfterPosting(s, id, out.resp.value, Transaction(id, Repayment, input.amount));
    }
  }

  lemma RejectPreservesInv(s: State, applicationId: Id)
    requires Inv(s)
    ensures Inv(Reject(s, applicationId).state)
    ensures OwnersExist(s) ==> OwnersExist(Reject(s, applicationId).state)
    ensures Reject(s, applicationId).state.txs == s.txs
    ensures forall id :: id in s.apps ==>
      Reject(s, applicationId).state.apps[id].disbursedAmount == s.apps[id].disbursedAmount
  {
  }

  /** In a store where every owner is stored, the disburse handler's "User
      not found" check never fires: disburse succeeds exactly when the
      application exists, is OPEN, the new balance fits the owner's limit and
      the schema accepts the writes, so a failure is always one of those. */
  lemma DisburseOwnerFound(s: State, input: DisburseInput)
    requires OwnersExist(s)
    ensures var id := input.applicationId;
      Disburse(s, input).resp.Ok? <==>
        && id in s.apps
        && s.apps[id].status == Open
        && s.apps[id].disbursedAmount + DisbursedTotal(input) <= s.users[s.apps[id].userId].creditLimit
        && TxDocValid(Transaction(id, Disbursement, DisbursedTotal(input)))
        && AppDocValid(AfterDisbursement(s.apps[id], input))
  {
  }
}
