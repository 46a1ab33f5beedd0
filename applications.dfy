/** The line-of-credit lifecycle: create an application, disburse funds into
    it, repay it, reject it, and list a user's applications. Each handler is a
    function from the store before to the store after and the response. */
module Applications {
  import opened Entities
  import opened Ledger
  import opened StoreState

  /** The document `LineOfCreditApplication.create` builds: OPEN, nothing
      disbursed, `expressDelivery` defaulting to false and `tip` to 0. */
  function NewApplication(input: CreateApplicationInput, now: int): (a: Application)
    ensures a.status == Open && a.disbursedAmount == 0
    ensures a.userId == input.userId && a.requestedAmount == input.requestedAmount
    ensures a.expressDelivery <==> input.expressDelivery == Some(true)
    ensures a.tip == input.tip.GetOr(0) && a.createdAt == now
  {
    Application(input.userId, Open, input.requestedAmount, 0,
                input.expressDelivery.GetOr(false), input.tip.GetOr(0), now)
  }

  /** createApplication: 404 for an unknown user, 400 when the requested
      amount is above the user's credit limit (equal is allowed), 500 when the
      schema refuses the new document; otherwise one new OPEN application
      (201). Failure stores nothing; no transaction is ever written. */
  function CreateApplication(s: State, input: CreateApplicationInput, now: int): (out: Outcome<(Id, Application)>)
    ensures out.resp == Fail(404) <==> input.userId !in s.users
    ensures out.resp == Fail(400) <==>
      input.userId in s.users && input.requestedAmount > s.users[input.userId].creditLimit
    ensures out.resp.Ok? <==>
      && input.userId in s.users
      && input.requestedAmount <= s.users[input.userId].creditLimit
      && input.requestedAmount >= 0 && input.tip.GetOr(0) >= 0
    ensures out.resp.Fail? ==> out.resp.code in {400, 404, 500} && out.state == s
    ensures out.resp.Ok? ==>
      && out.resp.code == 201
      && out.resp.value.0 == s.nextId && out.state.nextId == s.nextId + 1
      && out.resp.value.1 == NewApplication(input, now)
      && out.state.apps == s.apps[out.resp.value.0 := NewApplication(input, now)]
      && out.state.users == s.users && out.state.txs == s.txs
  {
    if input.userId !in s.users then Outcome(s, Fail(404))
    else if input.requestedAmount > s.users[input.userId].creditLimit then Outcome(s, Fail(400))
    else
      var app := NewApplication(input, now);
      if !AppDocValid(app) then Outcome(s, Fail(500))
      else Outcome(s.(apps := s.apps[s.nextId := app], nextId := s.nextId + 1), Ok(201, (s.nextId, app)))
  }

  /** `amount + (tip || 0)`: what one disbursement moves. */
  function DisbursedTotal(input: DisburseInput): int {
    input.amount + input.tip.GetOr(0)
  }

  /** The application after a disbursement: balance raised by the total,
      OUTSTANDING, tips accumulated, `expressDelivery` overwritten. */
  function AfterDisbursement(app: Application, input: DisburseInput): (a: Application)
    ensures a.disbursedAmount - app.disbursedAmount == DisbursedTotal(input)
    ensures a.status == Outstanding && a.tip == app.tip + input.tip.GetOr(0)
    ensures a.expressDelivery == input.expressDelivery.GetOr(false)
    ensures a.userId == app.userId && a.requestedAmount == app.requestedAmount
    ensures a.createdAt == app.createdAt
  {
    app.(disbursedAmount := app.disbursedAmount + DisbursedTotal(input),
         status := Outstanding,
         expressDelivery := input.expressDelivery.GetOr(false),
         tip := app.tip + input.tip.GetOr(0))
  }

  /** Every check disburse makes before its first write: the application
      exists and is OPEN, its owner exists, the new balance stays within the
      owner's credit limit, and the schema accepts the transaction and the
      updated application. */
  predicate DisburseAccepted(s: State, input: DisburseInput) {
    && input.applicationId in s.apps
    && s.apps[input.applicationId].status == Open
    && s.apps[input.applicationId].userId in s.users
    && s.apps[input.applicationId].disbursedAmount + DisbursedTotal(input)
         <= s.users[s.apps[input.applicationId].userId].creditLimit
    && TxDocValid(Transaction(input.applicationId, Disbursement, DisbursedTotal(input)))
    && AppDocValid(AfterDisbursement(s.apps[input.applicationId], input))
  }

  /** disburse: every failed check throws, which answers 500 with the store
      unchanged. On success exactly one DISBURSEMENT of `amount + tip` is
      appended and the application, now OUTSTANDING, owes that much more, but
      never more than its owner's credit limit (200). */
  function Disburse(s: State, input: DisburseInput): (out: Outcome<Application>)
    ensures out.resp.Ok? <==> DisburseAccepted(s, input)
    ensures out.resp.Fail? ==> out.resp == Fail(500) && out.state == s
    ensures out.resp.Ok? ==>
      var id := input.applicationId;
      && out.resp.code == 200
      && out.state.txs == s.txs + [Transaction(id, Disbursement, DisbursedTotal(input))]
      && out.state.apps == s.apps[id := out.resp.value]
      && out.resp.value == AfterDisbursement(s.apps[id], input)
      && out.state.users == s.users && out.state.nextId == s.nextId
      && out.resp.value.disbursedAmount <= s.users[out.resp.value.userId].creditLimit
  {
    var id := input.applicationId;
    if id !in s.apps then Outcome(s, Fail(500))
    else
      var app := s.apps[id];
      if app.status != Open then Outcome(s, Fail(500))
      else if app.userId !in s.users then Outcome(s, Fail(500))
      else
        var total := DisbursedTotal(input);
        if app.disbursedAmount + total > s.users[app.userId].creditLimit then Outcome(s, Fail(500))
        else
          var tx := Transaction(id, Disbursement, total);
          var updated := AfterDisbursement(app, input);
          if !TxDocValid(tx) || !AppDocValid(updated) then Outcome(s, Fail(500))
          else Outcome(s.(apps := s.apps[id := updated], txs := s.txs + [tx]), Ok(200, updated))
  }

  /** The application after a repayment: balance lowered by the amount, and
      REPAID exactly when that leaves nothing owed. */
  function AfterRepayment(app: Application, amount: int): (a: Application)
    ensures a.disbursedAmount == app.disbursedAmount - amount
    ensures a.status == (if a.disbursedAmount == 0 then Repaid else app.status)
    ensures a == app.(disbursedAmount := a.disbursedAmount, status := a.status)
  {
    var balance := app.disbursedAmount - amount;
    app.(disbursedAmount := balance, status := if balance == 0 then Repaid else app.status)
  }

  /** Every check repay makes before its first write. The handler itself has
      no lower bound on the amount: 0 passes, and a negative amount is stopped
      only by the transaction schema. */
  predicate RepayAccepted(s: State, input: RepayInput) {
    && input.applicationId in s.apps
    && s.apps[input.applicationId].status == Outstanding
    && input.amount <= s.apps[input.applicationId].disbursedAmount
    && TxDocValid(Transaction(input.applicationId, Repayment, input.amount))
    && AppDocValid(AfterRepayment(s.apps[input.applicationId], input.amount))
  }

  /** repay: every failed check answers 500 with the store unchanged. On
      success exactly one REPAYMENT of `amount` is appended and the balance
      drops by it; the application becomes REPAID exactly at zero and
      otherwise stays OUTSTANDING (200). */
  function Repay(s: State, input: RepayInput): (out: Outcome<Application>)
    ensures out.resp.Ok? <==> RepayAccepted(s, input)
    ensures out.resp.Fail? ==> out.resp == Fail(500) && out.state == s
    ensures out.resp.Ok? ==>
      var id := input.applicationId;
      && out.resp.code == 200
      && out.state.txs == s.txs + [Transaction(id, Repayment, input.amount)]
      && out.state.apps == s.apps[id := out.resp.value]
      && out.resp.value == AfterRepayment(s.apps[id], input.amount)
      && out.resp.value.disbursedAmount == s.apps[id].disbursedAmount - input.amount
      && (out.resp.value.status == Repaid <==> out.resp.value.disbursedAmount == 0)
      && (out.resp.value.status != Repaid ==> out.resp.value.status == Outstanding)
      && out.state.users == s.users && out.state.nextId == s.nextId
  {
    var id := input.applicationId;
    if id !in s.apps then Outcome(s, Fail(500))
    else
      var app := s.apps[id];
      if app.status != Outstanding then Outcome(s, Fail(500))
      else if input.amount > app.disbursedAmount then Outcome(s, Fail(500))
      else
        var tx := Transaction(id, Repayment, input.amount);
        var updated := AfterRepayment(app, input.amount);
        if !TxDocValid(tx) || !AppDocValid(updated) then Outcome(s, Fail(500))
        else Outcome(s.(apps := s.apps[id := updated], txs := s.txs + [tx]), Ok(200, updated))
  }

  /** reject: 404 for an unknown id. Otherwise the status is overwritten with
      REJECTED before it is looked at, so the OPEN test reads the new value:
      whatever the prior status, the application ends REJECTED and the
      answer is 400. Balances and the ledger are untouched. */
  function Reject(s: State, applicationId: Id): (out: Outcome<Application>)
    ensures out.resp == Fail(404) <==> applicationId !in s.apps
    ensures applicationId !in s.apps ==> out.state == s
    ensures applicationId in s.apps ==>
      && out.resp == Fail(400)
      && out.state == s.(apps := s.apps[applicationId := s.apps[applicationId].(status := Rejected)])
    ensures !out.resp.Ok?
  {
    if applicationId !in s.apps then Outcome(s, Fail(404))
    else
      var updated := s.apps[applicationId].(status := Rejected);
      Outcome(s.(apps := s.apps[applicationId := updated]),
              if updated.status != Open then Fail(400) else Ok(200, updated))
  }

  // Listing a user's applications, newest first.

  /** Entries ordered by `createdAt`, newest first. */
  ghost predicate NewestFirst(list: seq<Entry>) {
    forall i, j :: 0 <= i < j < |list| ==> list[i].app.createdAt >= list[j].app.createdAt
  }

  /** The stored applications, among those whose id is in `keys`, that belong
      to `userId`. */
  ghost function Owned(apps: map<Id, Application>, keys: set<Id>, userId: Id): set<Entry> {
    set id | id in keys && id in apps && apps[id].userId == userId :: Entry(id, apps[id])
  }

  /** `list` holds each application of `userId` exactly once, and nothing
      else, newest first. */
  ghost predicate IsUserListing(apps: map<Id, Application>, userId: Id, list: seq<Entry>) {
    multiset(list) == multiset(Owned(apps, apps.Keys, userId)) && NewestFirst(list)
  }

  /** An entry at least as new as everything in a newest-first list can go
      in front of it. */
  lemma PrependNewest(x: Entry, list: seq<Entry>)
    requires NewestFirst(list)
    requires forall y :: y in list ==> x.app.createdAt >= y.app.createdAt
    ensures NewestFirst([x] + list)
  {
  }

  /** The first entry of a newest-first list is at least as new as any. */
  lemma HeadIsNewest(list: seq<Entry>)
    requires NewestFirst(list) && list != []
    ensures forall y :: y in list ==> list[0].app.createdAt >= y.app.createdAt
  {
  }

  /** Places `e` into a newest-first list, after every entry at least as new. */
  function Insert(list: seq<Entry>, e: Entry): (r: seq<Entry>)
    requires NewestFirst(list)
    ensures NewestFirst(r)
    ensures multiset(r) == multiset(list) + multiset{e}
    ensures forall x :: x in r ==> x in list || x == e
  {
    if list == [] then [e]
    else
      HeadIsNewest(list);
      if e.app.createdAt >= list[0].app.createdAt then
        PrependNewest(e, list);
        [e] + list
      else
        var rest := Insert(list[1..], e);
        assert list == [list[0]] + list[1..];
        PrependNewest(list[0], rest);
        [list[0]] + rest
  }

  /** Collects the applications of `userId`, newest first, from `apps`
      without changing anything. */
  method ListByUser(apps: map<Id, Application>, userId: Id) returns (list: seq<Entry>)
    ensures IsUserListing(apps, userId, list)
  {
    list := [];
    var rest := apps.Keys;
    while rest != {}
      invariant rest <= apps.Keys
      invariant multiset(list) == multiset(Owned(apps, apps.Keys - rest, userId))
      invariant NewestFirst(list)
      decreases rest
    {
      var id :| id in rest;
      var done := apps.Keys - rest;
      ghost var before := Owned(apps, done, userId);
      if apps[id].userId == userId {
        var e := Entry(id, apps[id]);
        assert e !in before;
        assert Owned(apps, done + {id}, userId) == before + {e};
        list := Insert(list, e);
      } else {
        assert Owned(apps, done + {id}, userId) == before;
      }
      rest := rest - {id};
      assert apps.Keys - rest == done + {id};
    }
  }

  /** getUserApplications: 400 without a user id, otherwise that user's
      applications newest first (200); nothing is written. */
  ghost predicate IsListResponse(s: State, userId: Option<Id>, r: Response<seq<Entry>>) {
    if userId.None? then r == Fail(400)
    else r.Ok? && r.code == 200 && IsUserListing(s.apps, userId.value, r.value)
  }
}
