/** The three stored entities (User, Application, Transaction), the inputs the
    handlers receive, and the response value every handler returns. */
module Entities {

  /** A document id. The store hands out fresh ids itself. */
  type Id = nat

  datatype Option<T> = None | Some(value: T) {
    /** The value if present, otherwise `default`; this is how `x || default`
        is read for an optional request field. */
    function GetOr(default: T): T {
      if Some? then value else default
    }
  }

  /** Every value the application status enum declares, including the two that
      no handler ever writes. */
  datatype Status = Open | Processing | Cancelled | Rejected | Outstanding | Repaid

  datatype User = User(
    firstName: string,
    lastName: string,
    email: string,
    creditLimit: int,
    isAdmin: bool)

  datatype Application = Application(
    userId: Id,
    status: Status,
    requestedAmount: int,
    disbursedAmount: int,
    expressDelivery: bool,
    tip: int,
    createdAt: int)

  datatype TxType = Disbursement | Repayment

  datatype Transaction = Transaction(applicationId: Id, txType: TxType, amount: int)

  /** An application together with its id, as the listing returns it. */
  datatype Entry = Entry(id: Id, app: Application)

  /** What a handler answers: a status code, and the document on success. */
  datatype Response<T> = Ok(code: int, value: T) | Fail(code: int)

  // Request bodies. Fields the request may omit are `Option`s.

  datatype CreateUserInput = CreateUserInput(
    firstName: string,
    lastName: string,
    email: string,
    creditLimit: int,
    isAdmin: Option<bool>)

  /** The body of an update: only the fields present are written. */
  datatype UserPatch = UserPatch(
    firstName: Option<string>,
    lastName: Option<string>,
    email: Option<string>,
    creditLimit: Option<int>,
    isAdmin: Option<bool>)

  datatype CreateApplicationInput = CreateApplicationInput(
    userId: Id,
    requestedAmount: int,
    expressDelivery: Option<bool>,
    tip: Option<int>)

  datatype DisburseInput = DisburseInput(
    applicationId: Id,
    amount: int,
    expressDelivery: Option<bool>,
    tip: Option<int>)

  datatype RepayInput = RepayInput(applicationId: Id, amount: int)

  // Schema validation, run by `create` and `save` (but not by the
  // find-and-update queries). A document that fails it makes the write throw.

  /** Required strings must be non-empty and the credit limit non-negative. */
  predicate UserDocValid(u: User) {
    |u.firstName| > 0 && |u.lastName| > 0 && |u.email| > 0 && u.creditLimit >= 0
  }

  /** The three amounts of an application carry `min: 0`. */
  predicate AppDocValid(a: Application) {
    a.requestedAmount >= 0 && a.disbursedAmount >= 0 && a.tip >= 0
  }

  /** A transaction amount carries `min: 0`. */
  predicate TxDocValid(t: Transaction) {
    t.amount >= 0
  }
}
