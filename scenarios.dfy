/** Concrete runs of the handlers. They show the lifecycle working, and the
    places where the handlers allow what a reader of the status lifecycle
    would not expect: a credit limit lowered below an existing balance, a
    rejection that overwrites an OUTSTANDING application and strands its
    debt, and a repayment of nothing. */
module Scenarios {
  import opened Entities
  import opened Ledger
  import opened StoreState
  import opened Users
  import opened Applications
  import Invariants

  const Ada := CreateUserInput("Ada", "Lovelace", "ada@example.com", 1000, None)
  const AdaUser := User("Ada", "Lovelace", "ada@example.com", 1000, false)

  /** Application 1 as created (for 500, at time 1) and after 400 went out. */
  const Open500 := Application(0, Open, 500, 0, false, 0, 1)
  const Owing400 := Open500.(status := Outstanding, disbursedAmount := 400)

  /** The store once Ada (limit 1000) is user 0. */
  const WithUser := State(map[0 := AdaUser], map[], [], 1)

  /** The store once Ada has application 1 for 500, created at time 1. */
  const WithApplication := State(map[0 := AdaUser], map[1 := Open500], [], 2)

  /** The store once 400 (tip 0) has been disbursed into application 1. */
  const Disbursed400 := State(map[0 := AdaUser], map[1 := Owing400], [Transaction(1, Disbursement, 400)], 2)

  /** Creating Ada in the empty store makes her user 0 (201). */
  lemma CreateAda()
    ensures CreateUser(Empty, Ada) == Outcome(WithUser, Ok(201, (0, AdaUser)))
  {
    assert !EmailInUse(map[], Ada.email);
  }

  /** Ada's application for 500 (limit 1000) becomes application 1, OPEN,
      nothing disbursed, no express delivery, no tip (201). */
  lemma CreateAdaApplication()
    ensures CreateApplication(WithUser, CreateApplicationInput(0, 500, None, None), 1)
            == Outcome(WithApplication, Ok(201, (1, Open500)))
  {
  }

  /** Disbursing 400 with tip 0 makes application 1 OUTSTANDING, owing 400,
      with one DISBURSEMENT of 400 in the ledger (200). */
  lemma DisburseFirst400()
    ensures Disburse(WithApplication, DisburseInput(1, 400, None, Some(0)))
            == Outcome(Disbursed400, Ok(200, Owing400))
  {
    var input := DisburseInput(1, 400, None, Some(0));
    assert DisburseAccepted(WithApplication, input);
    assert AfterDisbursement(Open500, input) == Owing400;
    assert WithApplication.apps[1 := Owing400] == map[1 := Owing400];
    assert WithApplication.txs + [Transaction(1, Disbursement, 400)] == Disbursed400.txs;
  }

  /** A second disbursement of 700 is refused before any limit arithmetic,
      because the application is no longer OPEN; nothing is written. */
  lemma SecondDisbursementRefused()
    ensures Disburse(Disbursed400, DisburseInput(1, 700, None, None)) == Outcome(Disbursed400, Fail(500))
  {
  }

  /** Repaying the full 400 makes the application REPAID with nothing owed,
      and the ledger then holds one DISBURSEMENT and one REPAYMENT. */
  lemma RepayInFull()
    ensures var out := Repay(Disbursed400, RepayInput(1, 400));
      && out.resp.Ok? && out.state.apps[1].status == Repaid && out.state.apps[1].disbursedAmount == 0
      && out.state.txs == [Transaction(1, Disbursement, 400), Transaction(1, Repayment, 400)]
  {
  }

  /** A disbursement of exactly the remaining limit is allowed; one unit more
      is refused with the store unchanged. */
  lemma LimitIsInclusive()
    ensures Disburse(WithApplication, DisburseInput(1, 990, None, Some(10))).resp.Ok?
    ensures Disburse(WithApplication, DisburseInput(1, 990, None, Some(11))) == Outcome(WithApplication, Fail(500))
  {
  }

  /** updateUser does not look at balances: the limit can be lowered to 100
      while application 1 owes 400, and the store is still consistent, so
      "disbursed never exceeds the owner's limit" is not an invariant; the
      limit is enforced only when disbursing. */
  lemma LoweredLimitLeavesBalanceAboveIt()
    ensures var out := UpdateUser(Disbursed400, Some(0), NoChange.(creditLimit := Some(100)));
      && out.resp == Ok(200, User("Ada", "Lovelace", "ada@example.com", 100, false))
      && Inv(out.state)
      && out.state.apps[1].disbursedAmount > out.state.users[out.state.apps[1].userId].creditLimit
  {
    UserAndApplicationConsistent();
    UpdateUserPreservesInv(Disbursed400, Some(0), NoChange.(creditLimit := Some(100)));
  }

  /** The store after the disbursement is consistent. */
  lemma UserAndApplicationConsistent()
    ensures Inv(Disbursed400)
  {
    CreateAda();
    CreateAdaApplication();
    DisburseFirst400();
    EmptyIsConsistent();
    CreateUserPreservesInv(Empty, Ada);
    Invariants.CreateApplicationPreservesInv(WithUser, CreateApplicationInput(0, 500, None, None), 1);
    Invariants.DisbursePreservesInv(WithApplication, DisburseInput(1, 400, None, Some(0)));
  }

  /** Rejecting an OUTSTANDING application answers 400 but still writes
      REJECTED; the 400 owed stays on the application and can no longer be
      repaid, since repay wants OUTSTANDING. */
  lemma RejectStrandsOutstandingDebt()
    ensures var out := Reject(Disbursed400, 1);
      && out.resp == Fail(400)
      && out.state.apps[1].status == Rejected
      && out.state.apps[1].disbursedAmount == 400
      && out.state.txs == Disbursed400.txs
      && Repay(out.state, RepayInput(1, 400)).resp == Fail(500)
  {
  }

  /** Rejecting an OPEN application, the one case the handler means to
      accept, also answers 400. */
  lemma RejectOfOpenAnswers400()
    ensures WithApplication.apps[1].status == Open
    ensures Reject(WithApplication, 1).resp == Fail(400)
  {
  }

  /** disburse has no lower bound of its own: 0 with no tip is accepted,
      makes application 1 OUTSTANDING while it owes nothing, and is recorded
      as a DISBURSEMENT of 0 (200). */
  lemma DisburseNothing()
    ensures var out := Disburse(WithApplication, DisburseInput(1, 0, None, None));
      && out.resp.Ok? && out.resp.code == 200
      && out.state.apps[1].status == Outstanding
      && out.state.apps[1].disbursedAmount == 0
      && out.state.txs == [Transaction(1, Disbursement, 0)]
  {
    assert DisburseAccepted(WithApplication, DisburseInput(1, 0, None, None));
  }

  /** repay has no lower bound of its own: 0 is accepted and recorded as a
      REPAYMENT of 0, while a negative amount is refused only by the
      transaction schema, as an internal error (500). */
  lemma RepayAmountBounds()
    ensures var out := Repay(Disbursed400, RepayInput(1, 0));
      && out.resp.Ok? && out.state.apps[1].status == Outstanding
      && out.state.txs == Disbursed400.txs + [Transaction(1, Repayment, 0)]
    ensures Repay(Disbursed400, RepayInput(1, -5)) == Outcome(Disbursed400, Fail(500))
  {
  }
}
