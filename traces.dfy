/** Sequences of state-changing requests, and what holds in every store they
    can reach from the empty one. */
module Traces {
  import opened Entities
  import opened Ledger
  import opened StoreState
  import Users
  import Applications
  import Invariants

  /** One request to a handler that may write. */
  datatype Request =
    | CreateUserReq(user: CreateUserInput)
    | UpdateUserReq(userId: Option<Id>, patch: UserPatch)
    | CreateApplicationReq(application: CreateApplicationInput, now: int)
    | DisburseReq(disburse: DisburseInput)
    | RepayReq(repay: RepayInput)
    | RejectReq(applicationId: Id)

  /** The store after one request, whatever it answered. */
  function Step(s: State, req: Request): State {
    match req
    case CreateUserReq(u) => Users.CreateUser(s, u).state
    case UpdateUserReq(id, p) => Users.UpdateUser(s, id, p).state
    case CreateApplicationReq(a, now) => Applications.CreateApplication(s, a, now).state
    case DisburseReq(d) => Applications.Disburse(s, d).state
    case RepayReq(r) => Applications.Repay(s, r).state
    case RejectReq(id) => Applications.Reject(s, id).state
  }

  /** The store after the requests, one after another. */
  function Run(s: State, reqs: seq<Request>): State
    decreases |reqs|
  {
    if reqs == [] then s else Run(Step(s, reqs[0]), reqs[1..])
  }

  /** One request keeps the store consistent and only appends to the ledger. */
  lemma StepPreservesInv(s: State, req: Request)
    requires Inv(s) && OwnersExist(s)
    ensures Inv(Step(s, req)) && OwnersExist(Step(s, req))
    ensures s.txs <= Step(s, req).txs
  {
    match req
    case CreateUserReq(u) => Users.CreateUserPreservesInv(s, u);
    case UpdateUserReq(id, p) => Users.UpdateUserPreservesInv(s, id, p);
    case CreateApplicationReq(a, now) => Invariants.CreateApplicationPreservesInv(s, a, now);
    case DisburseReq(d) => Invariants.DisbursePreservesInv(s, d);
    case RepayReq(r) => Invariants.RepayPreservesInv(s, r);
    case RejectReq(id) => Invariants.RejectPreservesInv(s, id);
  }

  /** Any sequence of requests keeps the store consistent, and the
      transactions already recorded stay, unmodified, at the front of the
      ledger. */
  lemma {:induction false} RunPreservesInv(s: State, reqs: seq<Request>)
    requires Inv(s) && OwnersExist(s)
    ensures Inv(Run(s, reqs)) && OwnersExist(Run(s, reqs))
    ensures s.txs <= Run(s, reqs).txs
    decreases |reqs|
  {
    if reqs != [] {
      StepPreservesInv(s, reqs[0]);
      RunPreservesInv(Step(s, reqs[0]), reqs[1..]);
    }
  }

  /** In every store reachable from the empty one, each application's
      disbursements minus repayments equal its `disbursedAmount`, repayments
      never exceed disbursements, an OPEN or REPAID application owes nothing,
      no application is PROCESSING or CANCELLED, and its owner is stored. */
  lemma ReachableStoreLaws(reqs: seq<Request>, id: Id)
    requires id in Run(Empty, reqs).apps
    ensures var s := Run(Empty, reqs);
      && s.apps[id].disbursedAmount == Balance(s.txs, id)
      && 0 <= Total(s.txs, id, Repayment) <= Total(s.txs, id, Disbursement)
      && (s.apps[id].status in {Open, Repaid} ==> s.apps[id].disbursedAmount == 0)
      && s.apps[id].status !in {Processing, Cancelled}
      && s.apps[id].userId in s.users
  {
    EmptyIsConsistent();
    RunPreservesInv(Empty, reqs);
    var s := Run(Empty, reqs);
    TotalNonNegative(s.txs, id, Repayment);
    if s.apps[id].status == Open {
      OpenIsUndisbursed(s, id);
    }
  }
}
