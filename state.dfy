/** The whole store as one value, the shape of a handler's result, and the
    invariant every handler preserves. */
module StoreState {
  import opened Entities
  import opened Ledger

  /** Users, applications, the append-only transaction list, and the next
      fresh id. */
  datatype State = State(
    users: map<Id, User>,
    apps: map<Id, Application>,
    txs: seq<Transaction>,
    nextId: Id)

  /** The store after a handler ran, and what the handler answered. */
  datatype Outcome<T> = Outcome(state: State, resp: Response<T>)

  const Empty := State(map[], map[], [], 0)

  /** Every stored id was handed out before `nextId`. */
  ghost predicate IdsIssued(s: State) {
    && (forall id :: id in s.users ==> id < s.nextId)
    && (forall id :: id in s.apps ==> id < s.nextId)
  }

  /** No two users share an email (the unique index on `email`). */
  ghost predicate EmailsUnique(users: map<Id, User>) {
    forall a, b :: a in users && b in users && a != b ==> users[a].email != users[b].email
  }

  /** `email` belongs to some user in `users`. */
  predicate EmailInUse(users: map<Id, User>, email: string) {
    exists id :: id in users && users[id].email == email
  }

  /** Every stored application passed schema validation and carries a status
      some handler can write. */
  ghost predicate AppsWellFormed(s: State) {
    forall id :: id in s.apps ==>
      AppDocValid(s.apps[id]) && s.apps[id].status !in {Processing, Cancelled}
  }

  /** Every transaction has a non-negative amount and belongs to a stored
      application that has left OPEN. */
  ghost predicate LedgerWellFormed(s: State) {
    forall i :: 0 <= i < |s.txs| ==>
      && TxDocValid(s.txs[i])
      && s.txs[i].applicationId in s.apps
      && s.apps[s.txs[i].applicationId].status != Open
  }

  /** The ledger balance law: disbursements minus repayments equal the
      application's `disbursedAmount`. */
  ghost predicate LedgerBalanced(s: State) {
    forall id :: id in s.apps ==> s.apps[id].disbursedAmount == Balance(s.txs, id)
  }

  /** A REPAID application owes nothing. */
  ghost predicate RepaidSettled(s: State) {
    forall id :: id in s.apps && s.apps[id].status == Repaid ==> s.apps[id].disbursedAmount == 0
  }

  ghost predicate Inv(s: State) {
    && IdsIssued(s)
    && EmailsUnique(s.users)
    && AppsWellFormed(s)
    && LedgerWellFormed(s)
    && LedgerBalanced(s)
    && RepaidSettled(s)
  }

  /** Every application's owner is a stored user. Users are never deleted, so
      this holds in every reachable store; it is kept apart from `Inv` because
      the disburse handler still tests for a missing owner. */
  ghost predicate OwnersExist(s: State) {
    forall id :: id in s.apps ==> s.apps[id].userId in s.users
  }

  lemma EmptyIsConsistent()
    ensures Inv(Empty) && OwnersExist(Empty)
  {
  }

  /** In a consistent store an OPEN application has no ledger entries and so
      no disbursed balance. */
  lemma OpenIsUndisbursed(s: State, id: Id)
    requires Inv(s) && id in s.apps && s.apps[id].status == Open
    ensures s.apps[id].disbursedAmount == 0
    ensures forall i :: 0 <= i < |s.txs| ==> s.txs[i].applicationId != id
  {
    TotalUntouched(s.txs, id, Disbursement);
    TotalUntouched(s.txs, id, Repayment);
  }
}
