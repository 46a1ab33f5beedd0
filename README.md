# Line-of-credit applications: a verified Dafny model

This project models the request handlers of a small line-of-credit service.
Users have a credit limit. A line-of-credit application is created OPEN for a
requested amount. Disbursing funds into it moves it to OUTSTANDING. Repaying
it down to zero makes it REPAID, and an administrator can reject it. Every
money movement appends an immutable DISBURSEMENT or REPAYMENT transaction to
a ledger.

The store is one object, `Store.LineOfCreditStore`, holding:

- `users: map<Id, User>`
- `apps: map<Id, Application>`
- an append-only `txs: seq<Transaction>`
- the next fresh id

Each handler is a method on it and runs as one atomic step. What a handler does
is specified by a function from the store before to the store after plus a
`Response`, which carries the HTTP status code:

- user handlers in `Users`
- application handlers in `Applications`

Each method ensures that the new store and its answer are exactly what that
function gives. The one exception is `GetUserApplications`: it is specified by
the predicate `Applications.IsListResponse`, which fixes which applications the
listing holds and their order by `createdAt`. Applications with equal
`createdAt` may come in any order. Every writing method requires and keeps
`Valid()`, that is `StoreState.Inv`, which holds:

- ids are fresh and emails unique;
- every stored application and transaction passes schema validation, and no
  application is PROCESSING or CANCELLED (users are not covered: updateUser
  stores documents the schema would refuse);
- every transaction belongs to an application that has left OPEN;
- the **ledger balance law**: for every application, its DISBURSEMENT amounts
  minus its REPAYMENT amounts equal its `disbursedAmount`;
- a REPAID application owes nothing.

`Traces` shows that any sequence of requests from the empty store keeps this
invariant and only ever appends to the ledger.

How the handlers behave, as the code is written:

- A check that fails inside disburse or repay throws. `withErrorHandler`
  (src/utils/errorHandler.ts:23-33) turns every thrown error into a 500, so
  every failure of these two handlers answers 500.
- Every check runs before the first write, so a failed handler leaves the
  store unchanged. The one exception is reject, below.
- The Mongoose schemas reject negative amounts (`min: 0`), empty required
  strings and a duplicate email when a document is created or saved. That
  makes the write throw, which also ends as a 500. The update queries
  (`findByIdAndUpdate`, `findOneAndUpdate`) skip schema validation. The unique
  email index still applies to them.
- reject writes REJECTED before it looks at the status, so it overwrites an
  application in any state. Its OPEN test then reads the new value, so it
  never answers 200. An OUTSTANDING application that is rejected keeps its
  balance and can no longer be repaid.
- repay has no lower bound of its own. 0 is accepted and recorded. A negative
  amount is stopped only by the transaction schema, as a 500.
- disburse has no lower bound either. A disbursement of 0 with no tip
  succeeds, records a DISBURSEMENT of 0 and leaves the application
  OUTSTANDING while it owes 0. A negative total is stopped only by the
  transaction schema, as a 500.
- updateUser does not look at balances. A limit lowered below an existing
  balance is accepted, so "disbursed never exceeds the owner's limit" holds
  right after each disbursement but is not a store invariant.
- createUser and updateUser copy the whole request body. The body may
  therefore set `isAdmin`, which the model includes. updateUser may also set a
  negative credit limit, because update queries skip schema validation.

The repository's build output also holds a different version of the
application handlers (`.aws-sam/build/GetAllUsersFunction/src/handlers/applications.ts`).
The model follows `src/handlers`, which differs from that version in four ways:

- disburse and repay take no PROCESSING lock (that version, lines 49-56 and
  117-124), and disburse has no 3-day express-delivery window (that version,
  lines 14 and 62-73);
- repay has no `amount <= 0` rejection (that version, line 130);
- reject does not filter on OPEN, so it rejects an application in any state
  (that version, lines 175-185);
- reject answers 404 and 400 itself (src/handlers/applications.ts:143-149);
  that version throws instead, so all its reject failures are 500 (lines
  190-192).

The schema rules (`min: 0` on amounts, `required` strings, the unique `email`
index) are those of the Mongoose models
`src/models/{user,application,transaction}.model.ts`, which the handlers import
through `src/models/index`.

## Model

| member | source | states |
|---|---|---|
| `Users.NewUser` | src/handlers/users.ts:10 | the created user has the body's first and last name, email and limit; `isAdmin` is true only if the body sets it |
| `Users.CreateUser` | src/handlers/users.ts:7-11 | 201 with the user stored under the next unissued id (the counter then advances) iff the schema accepts the body and the email is unused; otherwise 500 and nothing stored; applications and ledger untouched |
| `Users.GetUser` | src/handlers/users.ts:15-28 | 400 iff no id; 404 iff unknown id; 200 iff the id is stored, with exactly the stored user |
| `Users.ApplyPatch` | src/handlers/users.ts:41-45 | each field present in the patch replaces the stored one; every absent field keeps its value |
| `Users.PatchLaws` | src/handlers/users.ts:41-45 | an empty patch changes nothing; applying a patch twice equals applying it once |
| `Users.UpdateUser` | src/handlers/users.ts:32-51 | 400 iff no id; 404 iff unknown id; 500 iff the patch's email belongs to another user; 200 iff the id is stored and the email does not clash, so no credit limit or balance can refuse it; every failure leaves the store unchanged; on 200 only that user changes, to the patched document, whatever the limit and the balances |
| `Users.UpdateUserTouchesOnlyTarget` | src/handlers/users.ts:41-45 | a successful update leaves every other user and the set of user ids unchanged |
| `Users.CreateUserPreservesInv` | src/handlers/users.ts:10 | createUser keeps the store invariant (notably unique emails), stores the user under an id no user had, and does not touch the ledger |
| `Users.UpdateUserPreservesInv` | src/handlers/users.ts:41-45 | updateUser keeps the store invariant (the unique email index) and does not touch the ledger |
| `Applications.NewApplication` | src/handlers/applications.ts:28-33 | a new application is OPEN with nothing disbursed; `expressDelivery` defaults to false and `tip` to 0 |
| `Applications.CreateApplication` | src/handlers/applications.ts:19-35 | 404 iff the user is missing; 400 iff the requested amount exceeds the limit (equality allowed); success iff the user exists, the amount fits and the schema accepts it; every other failure (the schema refusing a negative amount or tip) is 500; failure stores nothing; 201 stores it under the next unissued id (the counter then advances), adds no transaction and changes no user |
| `Applications.AfterDisbursement` | src/handlers/applications.ts:75-78 | the balance grows by `amount + tip`; status becomes OUTSTANDING; tips accumulate; `expressDelivery` is overwritten (default false) |
| `Applications.Disburse` | src/handlers/applications.ts:43-84 | success iff the application exists, is OPEN, its owner exists, balance + amount + tip stays within the limit and the schema accepts the writes; any failure is 500 with the store unchanged; success appends exactly one DISBURSEMENT of `amount + tip` and leaves the balance within the owner's limit |
| `Applications.AfterRepayment` | src/handlers/applications.ts:116-119 | the balance drops by the amount; status becomes REPAID exactly when the balance reaches 0, and is otherwise kept |
| `Applications.Repay` | src/handlers/applications.ts:92-125 | success iff the application exists, is OUTSTANDING, the amount is at most the balance and the schema accepts the writes; any failure is 500 with the store unchanged; success appends exactly one REPAYMENT of the amount, lowers the balance by it, ends REPAID iff the balance is 0 (otherwise OUTSTANDING), and keeps every other field of the application |
| `Applications.Reject` | src/handlers/applications.ts:133-151 | 404 iff the id is unknown, with the store unchanged; otherwise status becomes REJECTED whatever it was and the answer is 400; balances, users and ledger are untouched; never 200 |
| `Applications.Insert` | src/handlers/applications.ts:163-164 | inserting into a newest-first list keeps it newest first and adds exactly that entry |
| `Applications.ListByUser` | src/handlers/applications.ts:163-164 | the result holds each application of the user exactly once, nothing else, ordered by `createdAt` descending |
| `Ledger.Effect` | src/handlers/applications.ts:68-72 | a transaction changes only its own application's balance: + for a DISBURSEMENT, - for a REPAYMENT |
| `Ledger.TotalAppend` | src/handlers/applications.ts:68-113 | appending a DISBURSEMENT or a REPAYMENT adds exactly its amount to the running total of its kind and application, and nothing to any other |
| `Ledger.BalanceAppend` | src/handlers/applications.ts:68-72 | appending a transaction moves each application's ledger balance by exactly that transaction's effect |
| `StoreState.OpenIsUndisbursed` | src/handlers/applications.ts:51-53 | in a consistent store an OPEN application has no transactions and owes 0 |
| `Invariants.BalancedAfterPosting` | src/handlers/applications.ts:68-79 | appending a transaction while updating its application by the same amount keeps the ledger balance law for every application |
| `Invariants.CreateApplicationPreservesInv` | src/handlers/applications.ts:28-33 | createApplication keeps the store invariant, including the balance law for the new application, and stores it under an id no application had, so exactly one application is added |
| `Invariants.DisbursePreservesInv` | src/handlers/applications.ts:68-79 | disburse keeps the store invariant, including the ledger balance law |
| `Invariants.RepayPreservesInv` | src/handlers/applications.ts:109-120 | repay keeps the store invariant; a REPAID application owes nothing |
| `Invariants.RejectPreservesInv` | src/handlers/applications.ts:133-141 | reject keeps the store invariant and owners-exist, changes no balance and leaves the ledger as it was |
| `Invariants.DisburseOwnerFound` | src/handlers/applications.ts:56-60 | in a store where every owner exists, disburse succeeds exactly when the application exists, is OPEN, the new balance fits the limit and the schema accepts the writes: its "User not found" branch never decides the answer |
| `Traces.StepPreservesInv` | src/handlers/applications.ts:15-152 | every writing handler (createApplication, disburse, repay and reject here, and createUser and updateUser at src/handlers/users.ts:7-51) keeps the invariant and owners-exist, and keeps the old ledger as a prefix |
| `Traces.RunPreservesInv` | src/handlers/applications.ts:68-79 | any sequence of requests keeps the invariant; transactions already recorded are never modified, only appended to |
| `Traces.ReachableStoreLaws` | src/handlers/applications.ts:68-120 | in every reachable store: disbursements minus repayments equal `disbursedAmount`; repayments never exceed disbursements; OPEN and REPAID owe 0; no PROCESSING or CANCELLED; every owner is stored |
| `Store.LineOfCreditStore.CreateUser` | src/handlers/users.ts:7-11 | updates the maps in place exactly as `Users.CreateUser` says; keeps the invariant and the ledger prefix |
| `Store.LineOfCreditStore.GetUser` | src/handlers/users.ts:15-28 | answers as `Users.GetUser` and changes nothing |
| `Store.LineOfCreditStore.UpdateUser` | src/handlers/users.ts:32-51 | patches the user map in place exactly as `Users.UpdateUser` says; keeps the invariant |
| `Store.LineOfCreditStore.CreateApplication` | src/handlers/applications.ts:15-36 | adds the application in place exactly as `Applications.CreateApplication` says; keeps the invariant |
| `Store.LineOfCreditStore.Disburse` | src/handlers/applications.ts:39-85 | appends to `txs` and updates `apps` in place exactly as `Applications.Disburse` says; keeps the invariant |
| `Store.LineOfCreditStore.Repay` | src/handlers/applications.ts:88-126 | appends to `txs` and updates `apps` in place exactly as `Applications.Repay` says; keeps the invariant |
| `Store.LineOfCreditStore.Reject` | src/handlers/applications.ts:129-152 | overwrites the status in place exactly as `Applications.Reject` says; leaves `txs` unchanged; keeps the invariant |
| `Store.LineOfCreditStore.GetUserApplications` | src/handlers/applications.ts:155-166 | 400 without a user id, else 200 with exactly that user's applications, newest first (equal `createdAt` in any order); changes nothing |
| `Scenarios.CreateAda` | src/handlers/users.ts:10-11 | creating a user in the empty store answers 201 with id 0 and the body's fields |
| `Scenarios.CreateAdaApplication` | src/handlers/applications.ts:24-35 | an application for 500 under a limit of 1000 is created OPEN with 0 disbursed |
| `Scenarios.DisburseFirst400` | src/handlers/applications.ts:62-84 | disbursing 400 makes it OUTSTANDING, owing 400, with one DISBURSEMENT of 400 |
| `Scenarios.SecondDisbursementRefused` | src/handlers/applications.ts:51-53 | a second disbursement is refused (500, store unchanged) because the application is no longer OPEN |
| `Scenarios.RepayInFull` | src/handlers/applications.ts:116-119 | repaying the whole 400 gives REPAID, 0 owed, and one DISBURSEMENT plus one REPAYMENT in the ledger |
| `Scenarios.LimitIsInclusive` | src/handlers/applications.ts:62-65 | `amount + tip` exactly equal to the limit is accepted; one unit more is refused with the store unchanged |
| `Scenarios.LoweredLimitLeavesBalanceAboveIt` | src/handlers/users.ts:41-45 | lowering the limit to 100 under a 400 balance succeeds and leaves a consistent store where the balance exceeds the limit |
| `Scenarios.RejectStrandsOutstandingDebt` | src/handlers/applications.ts:133-149 | rejecting an OUTSTANDING application answers 400 yet writes REJECTED; it keeps its 400 balance, and a later repay is refused |
| `Scenarios.RejectOfOpenAnswers400` | src/handlers/applications.ts:147-149 | even rejecting an OPEN application answers 400 |
| `Scenarios.DisburseNothing` | src/handlers/applications.ts:62-78 | disbursing 0 with no tip succeeds: the application becomes OUTSTANDING owing 0, and the ledger holds one DISBURSEMENT of 0 |
| `Scenarios.RepayAmountBounds` | src/handlers/applications.ts:104-113 | repaying 0 succeeds and records a REPAYMENT of 0; repaying -5 is refused only with 500, store unchanged |

## Left out

- Database connection, environment variables and JSON parsing of the body are
  I/O plumbing. A body that fails to parse would throw (500); that case is not
  modelled.
- Malformed ids are not modelled. A path or body id that is not a valid
  ObjectId makes the lookup throw a cast error (500). Ids here are abstract
  naturals, and a missing or empty path id is `None`.
- The response envelope, CORS headers and error logging are left out. Only
  the status code and the returned document are kept.
- The token helpers and the admin lookup are not part of this model.
- The transaction wrapper is assumed atomic, and its session isolation is not
  modelled. Every handler is one sequential step, and concurrent requests are
  not modelled. The wrapper's implementation is not part of this model. Since
  the writes come last, the only failure after a write is a save the schema
  refuses, and the model assumes the wrapper rolls that back.
- Clock values: `createdAt` is a parameter (`now`) of createApplication and
  serves only as the ordering key of the listing. `updatedAt` and the
  transaction `timestamp` are not modelled.
- Database sort internals are not modelled. The listing is specified by its
  filter and its order. Entries with equal `createdAt` may come in any order.
- JavaScript numbers are modelled as unbounded integers. NaN, fractions and
  rounding are not modelled, and the `=== 0` test is an exact comparison.
- Request bodies missing a required field are not modelled: ids in the bodies
  of createApplication, disburse, repay and reject are always present. For
  most handlers a missing id ends in a 404 or a 500 with nothing written. For
  reject it need not: its filter `{ _id: body.applicationId }` at
  src/handlers/applications.ts:133-134 would then carry `_id: undefined`,
  which Mongoose may drop from the filter, so an arbitrary application could
  be marked REJECTED before the 400. That case is outside the model.
- `null` values in an update body and fields outside the schema are not
  modelled. Of the timestamp fields an update could set, none is modelled.
- PROCESSING and CANCELLED are declared but never written by any handler. The
  model proves that no reachable application has either status.
