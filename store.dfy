/** The in-memory store the handlers act on: users and applications keyed by
    id, and the transaction collection, which only ever grows. Each method is
    one handler run as a single atomic step; the functions of `Users` and
    `Applications` say what it does to the store and what it answers. */
module Store {
  import opened Entities
  import opened StoreState
  import Users
  import Applications
  import Invariants

  class LineOfCreditStore {
    var users: map<Id, User>
    var apps: map<Id, Application>
    var txs: seq<Transaction>
    var nextId: Id

    /** The store's contents as a value. */
    ghost function Abs(): State
      reads this
    {
      State(users, apps, txs, nextId)
    }

    ghost predicate Valid()
      reads this
    {
      Inv(Abs())
    }

    constructor ()
      ensures Valid() && Abs() == Empty
    {
      users, apps, txs, nextId := map[], map[], [], 0;
    }

    method CreateUser(input: CreateUserInput) returns (r: Response<(Id, User)>)
      requires Valid()
      modifies this
      ensures Valid() && old(txs) <= txs
      ensures Abs() == Users.CreateUser(old(Abs()), input).state
      ensures r == Users.CreateUser(old(Abs()), input).resp
    {
      ghost var before := Abs();
      var u := Users.NewUser(input);
      if !UserDocValid(u) || EmailInUse(users, u.email) {
        r := Fail(500);
        return;
      }
      var id := nextId;
      users := users[id := u];
      nextId := nextId + 1;
      r := Ok(201, (id, u));
      Users.CreateUserPreservesInv(before, input);
    }

    method GetUser(userId: Option<Id>) returns (r: Response<User>)
      ensures r == Users.GetUser(Abs(), userId)
    {
      if userId.None? {
        return Fail(400);
      }
      if userId.value !in users {
        return Fail(404);
      }
      r := Ok(200, users[userId.value]);
    }

    method UpdateUser(userId: Option<Id>, patch: UserPatch) returns (r: Response<User>)
      requires Valid()
      modifies this
      ensures Valid() && old(txs) <= txs
      ensures Abs() == Users.UpdateUser(old(Abs()), userId, patch).state
      ensures r == Users.UpdateUser(old(Abs()), userId, patch).resp
    {
      ghost var before := Abs();
      if userId.None? {
        r := Fail(400);
        return;
      }
      var id := userId.value;
      if id !in users {
        r := Fail(404);
        return;
      }
      if Users.PatchTakesEmail(users, id, patch) {
        r := Fail(500);
        return;
      }
      var u := Users.ApplyPatch(users[id], patch);
      users := users[id := u];
      r := Ok(200, u);
      Users.UpdateUserPreservesInv(before, userId, patch);
    }

    method CreateApplication(input: CreateApplicationInput, now: int) returns (r: Response<(Id, Application)>)
      requires Valid()
      modifies this
      ensures Valid() && old(txs) <= txs
      ensures Abs() == Applications.CreateApplication(old(Abs()), input, now).state
      ensures r == Applications.CreateApplication(old(Abs()), input, now).resp
    {
      ghost var before := Abs();
      if input.userId !in users {
        r := Fail(404);
        return;
      }
      if input.requestedAmount > users[input.userId].creditLimit {
        r := Fail(400);
        return;
      }
      var app := Applications.NewApplication(input, now);
      if !AppDocValid(app) {
        r := Fail(500);
        return;
      }
      var id := nextId;
      apps := apps[id := app];
      nextId := nextId + 1;
      r := Ok(201, (id, app));
      Invariants.CreateApplicationPreservesInv(before, input, now);
    }

    method Disburse(input: DisburseInput) returns (r: Response<Application>)
      requires Valid()
      modifies this
      ensures Valid() && old(txs) <= txs
      ensures Abs() == Applications.Disburse(old(Abs()), input).state
      ensures r == Applications.Disburse(old(Abs()), input).resp
    {
      ghost var before := Abs();
      var id := input.applicationId;
      if id !in apps {
        r := Fail(500);
        return;
      }
      var app := apps[id];
      if app.status != Open {
        r := Fail(500);
        return;
      }
      if app.userId !in users {
        r := Fail(500);
        return;
      }
      var total := Applications.DisbursedTotal(input);
      if app.disbursedAmount + total > users[app.userId].creditLimit {
        r := Fail(500);
        return;
      }
      var tx := Transaction(id, Disbursement, total);
      var updated := Applications.AfterDisbursement(app, input);
      if !TxDocValid(tx) || !AppDocValid(updated) {
        r := Fail(500);
        return;
      }
      txs := txs + [tx];
      apps := apps[id := updated];
      r := Ok(200, updated);
      Invariants.DisbursePreservesInv(before, input);
    }

    method Repay(input: RepayInput) returns (r: Response<Application>)
      requires Valid()
      modifies this
      ensures Valid() && old(txs) <= txs
      ensures Abs() == Applications.Repay(old(Abs()), input).state
      ensures r == Applications.Repay(old(Abs()), input).resp
    {
      ghost var before := Abs();
      var id := input.applicationId;
      if id !in apps {
        r := Fail(500);
        return;
      }
      var app := apps[id];
      if app.status != Outstanding {
        r := Fail(500);
        return;
      }
      if input.amount > app.disbursedAmount {
        r := Fail(500);
        return;
      }
      var tx := Transaction(id, Repayment, input.amount);
      var updated := Applications.AfterRepayment(app, input.amount);
      if !TxDocValid(tx) || !AppDocValid(updated) {
        r := Fail(500);
        return;
      }
      txs := txs + [tx];
      apps := apps[id := updated];
      r := Ok(200, updated);
      Invariants.RepayPreservesInv(before, input);
    }

    method Reject(applicationId: Id) returns (r: Response<Application>)
      requires Valid()
      modifies this
      ensures Valid() && txs == old(txs)
      ensures Abs() == Applications.Reject(old(Abs()), applicationId).state
      ensures r == Applications.Reject(old(Abs()), applicationId).resp
    {
      ghost var before := Abs();
      if applicationId !in apps {
        r := Fail(404);
        return;
      }
      apps := apps[applicationId := apps[applicationId].(status := Rejected)];
      var updated := apps[applicationId];
      r := if updated.status != Open then Fail(400) else Ok(200, updated);
      Invariants.RejectPreservesInv(before, applicationId);
    }

    method GetUserApplications(userId: Option<Id>) returns (r: Response<seq<Entry>>)
      ensures Applications.IsListResponse(Abs(), userId, r)
    {
      if userId.None? {
        return Fail(400);
      }
      var list := Applications.ListByUser(apps, userId.value);
      r := Ok(200, list);
    }
  }
}
