/** The user handlers: create, look up, and patch a user, the source of the
    credit limit the application handlers enforce. */
module Users {
  import opened Entities
  import opened Ledger
  import opened StoreState

  /** The document `User.create` builds from the body: every field as given,
      `isAdmin` defaulting to false. */
  function NewUser(input: CreateUserInput): (u: User)
    ensures u.firstName == input.firstName && u.lastName == input.lastName
    ensures u.email == input.email && u.creditLimit == input.creditLimit
    ensures u.isAdmin <==> input.isAdmin == Some(true)
  {
    User(input.firstName, input.lastName, input.email, input.creditLimit, input.isAdmin.GetOr(false))
  }

  /** createUser: stores the body as given and answers 201. The handler checks
      nothing itself; a body the schema refuses, or an email already taken,
      makes `User.create` throw, which surfaces as 500 with nothing stored. */
  function CreateUser(s: State, input: CreateUserInput): (out: Outcome<(Id, User)>)
    ensures out.resp.Ok? <==> UserDocValid(NewUser(input)) && !EmailInUse(s.users, input.email)
    ensures out.resp.Fail? ==> out.resp.code == 500 && out.state == s
    ensures out.resp.Ok? ==>
      && out.resp.code == 201
      && out.resp.value.0 == s.nextId && out.state.nextId == s.nextId + 1
      && out.resp.value.1 == NewUser(input)
      && out.state.users == s.users[out.resp.value.0 := NewUser(input)]
      && out.state.apps == s.apps && out.state.txs == s.txs
  {
    var u := NewUser(input);
    if !UserDocValid(u) || EmailInUse(s.users, u.email) then Outcome(s, Fail(500))
    else Outcome(s.(users := s.users[s.nextId := u], nextId := s.nextId + 1), Ok(201, (s.nextId, u)))
  }

  /** getUser: 400 without an id, 404 for an unknown id, else the stored user. */
  function GetUser(s: State, userId: Option<Id>): (r: Response<User>)
    ensures r == Fail(400) <==> userId.None?
    ensures r == Fail(404) <==> userId.Some? && userId.value !in s.users
    ensures r.Ok? <==> userId.Some? && userId.value in s.users
    ensures r.Ok? ==> r.code == 200 && userId.Some? && userId.value in s.users
                      && r.value == s.users[userId.value]
  {
    if userId.None? then Fail(400)
    else if userId.value !in s.users then Fail(404)
    else Ok(200, s.users[userId.value])
  }

  /** `$set` of the body: a field present in the patch replaces the stored one,
      every other field is kept. */
  function ApplyPatch(u: User, p: UserPatch): (v: User)
    ensures p.firstName.None? ==> v.firstName == u.firstName
    ensures p.lastName.None? ==> v.lastName == u.lastName
    ensures p.email.None? ==> v.email == u.email
    ensures p.creditLimit.None? ==> v.creditLimit == u.creditLimit
    ensures p.isAdmin.None? ==> v.isAdmin == u.isAdmin
    ensures p.firstName.Some? ==> v.firstName == p.firstName.value
    ensures p.lastName.Some? ==> v.lastName == p.lastName.value
    ensures p.email.Some? ==> v.email == p.email.value
    ensures p.creditLimit.Some? ==> v.creditLimit == p.creditLimit.value
    ensures p.isAdmin.Some? ==> v.isAdmin == p.isAdmin.value
  {
    User(
      p.firstName.GetOr(u.firstName),
      p.lastName.GetOr(u.lastName),
      p.email.GetOr(u.email),
      p.creditLimit.GetOr(u.creditLimit),
      p.isAdmin.GetOr(u.isAdmin))
  }

  /** The patch that writes nothing. */
  const NoChange := UserPatch(None, None, None, None, None)

  /** An empty patch leaves a user as it was, and applying a patch twice is
      the same as applying it once. */
  lemma PatchLaws(u: User, p: UserPatch)
    ensures ApplyPatch(u, NoChange) == u
    ensures ApplyPatch(ApplyPatch(u, p), p) == ApplyPatch(u, p)
  {
  }

  /** An email a patch would give user `id` collides with another user's. */
  predicate PatchTakesEmail(users: map<Id, User>, id: Id, p: UserPatch) {
    p.email.Some? && EmailInUse(users - {id}, p.email.value)
  }

  /** updateUser: 400 without an id; 404 (nothing written) for an unknown id;
      otherwise the patch is written with no schema validation, so any credit
      limit is accepted, and the unique email index alone can refuse it (500). */
  function UpdateUser(s: State, userId: Option<Id>, p: UserPatch): (out: Outcome<User>)
    ensures out.resp == Fail(400) <==> userId.None?
    ensures out.resp == Fail(404) <==> userId.Some? && userId.value !in s.users
    ensures out.resp == Fail(500) <==>
      userId.Some? && userId.value in s.users && PatchTakesEmail(s.users, userId.value, p)
    ensures out.resp.Ok? <==>
      userId.Some? && userId.value in s.users && !PatchTakesEmail(s.users, userId.value, p)
    ensures out.resp.Fail? ==> out.state == s
    ensures out.resp.Ok? ==>
      && out.resp.code == 200 && userId.Some? && userId.value in s.users
      && out.resp.value == ApplyPatch(s.users[userId.value], p)
      && out.state == s.(users := s.users[userId.value := out.resp.value])
  {
    if userId.None? then Outcome(s, Fail(400))
    else if userId.value !in s.users then Outcome(s, Fail(404))
    else if PatchTakesEmail(s.users, userId.value, p) then Outcome(s, Fail(500))
    else
      var u := ApplyPatch(s.users[userId.value], p);
      Outcome(s.(users := s.users[userId.value := u]), Ok(200, u))
  }

  /** A successful update changes the one user it names and no other. */
  lemma UpdateUserTouchesOnlyTarget(s: State, userId: Option<Id>, p: UserPatch, other: Id)
    requires UpdateUser(s, userId, p).resp.Ok?
    requires other in s.users && Some(other) != userId
    ensures other in UpdateUser(s, userId, p).state.users
    ensures UpdateUser(s, userId, p).state.users[other] == s.users[other]
    ensures UpdateUser(s, userId, p).state.users.Keys == s.users.Keys
  {
  }

  /** createUser keeps the store consistent, stores the new user under an id
      no user had, and leaves the ledger alone. */
  lemma CreateUserPreservesInv(s: State, input: CreateUserInput)
    requires Inv(s)
    ensures Inv(CreateUser(s, input).state)
    ensures CreateUser(s, input).resp.Ok? ==> CreateUser(s, input).resp.value.0 !in s.users
    ensures OwnersExist(s) ==> OwnersExist(CreateUser(s, input).state)
    ensures CreateUser(s, input).state.txs == s.txs
  {
  }

  lemma UpdateUserPreservesInv(s: State, userId: Option<Id>, p: UserPatch)
    requires Inv(s)
    ensures Inv(UpdateUser(s, userId, p).state)
    ensures OwnersExist(s) ==> OwnersExist(UpdateUser(s, userId, p).state)
    ensures UpdateUser(s, userId, p).state.txs == s.txs
  {
    var out := UpdateUser(s, userId, p);
    if out.resp.Ok? {
      var id := userId.value;
      var t := out.state;
      forall a, b | a in t.users && b in t.users && a != b
        ensures t.users[a].email != t.users[b].email
      {
        if p.email.Some? && (a == id || b == id) {
          var o := if a == id then b else a;
          assert o in s.users - {id};
        }
      }
    }
  }
}
