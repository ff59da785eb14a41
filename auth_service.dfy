/** The identity service's registration endpoint
    (services/auth-service/src/index.ts, `POST /register`).

    The user table is a map from email to record: the database column is
    unique, so a map keyed by email is the table. Ids come from an
    auto-increment counter. The request body's `email` and `password` are the
    JSON values `express.json()` produced (None when absent). The database
    and scrypt can fail; which of them fails, if any, is a parameter, as are
    the random salt bytes, scrypt itself and the clock. */
module AuthService {
  import opened Wrappers
  import opened Json
  import opened Utf8
  import PasswordHash
  import Http

  datatype UserRecord = UserRecord(id: int, email: string, password: string, createdAt: string)

  /** The table and the next auto-increment id. */
  datatype Store = Store(users: map<string, UserRecord>, nextId: int)

  /** Where the handler's `try` block can throw: the uniqueness lookup,
      the hashing, or the insert. */
  datatype Fault = NoFault | LookupFault | HashFault | CreateFault

  datatype Reply = Reply(status: int, body: Json)

  datatype Registration = Registration(reply: Reply, store: Store)

  const RequiredMessage := "Email and password are required"
  const InUseMessage := "Email already in use"
  const InternalMessage := "Internal server error"

  /** Every record sits under its own email, and ids are distinct, positive
      and below the counter. */
  ghost predicate ValidStore(s: Store) {
    && s.nextId >= 1
    && (forall e :: e in s.users ==> s.users[e].email == e && 1 <= s.users[e].id < s.nextId)
    && (forall e1, e2 :: e1 in s.users && e2 in s.users && e1 != e2 ==> s.users[e1].id != s.users[e2].id)
  }

  function InternalError(): Reply {
    Reply(500, Http.MessageBody(InternalMessage))
  }

  /** The 201 body: id, email (under the key `user`) and creation time. */
  function CreatedBody(r: UserRecord): Json {
    JObj([("id", JNum(r.id)), ("user", JStr(r.email)), ("createdAt", JStr(r.createdAt))])
  }

  /** The `/register` handler on a store. A falsy field gives 400; a
      non-string email makes the lookup throw and a non-string password makes
      scrypt throw, both giving 500 like any failure of the database or of
      scrypt. */
  function RegisterResult(s: Store, email: Option<Json>, password: Option<Json>, saltBytes: seq<Byte>,
                          kdf: PasswordHash.Kdf, now: string, fault: Fault): Registration
  {
    if !TruthyOpt(email) || !TruthyOpt(password) then
      Registration(Reply(400, JObj([("error", JStr(RequiredMessage))])), s)
    else if !email.value.JStr? || fault == LookupFault then Registration(InternalError(), s)
    else if email.value.s in s.users then Registration(Reply(409, Http.MessageBody(InUseMessage)), s)
    else if !password.value.JStr? || fault == HashFault || fault == CreateFault then Registration(InternalError(), s)
    else
      var e := email.value.s;
      var record := UserRecord(s.nextId, e, PasswordHash.HashPassword(password.value.s, saltBytes, kdf), now);
      Registration(Reply(201, CreatedBody(record)), Store(s.users[e := record], s.nextId + 1))
  }

  // ---------------------------------------------------------------------
  // Properties of one registration

  /** The answers: 400 exactly when a field is falsy; 409 exactly when a
      well-formed request names a registered email and the lookup works;
      201 exactly when nothing fails and the email is new. The table changes
      only on 201, and then by exactly one record, under the new email, whose
      password is the hash of the given password and whose id is the
      counter's. */
  lemma RegisterOutcomes(s: Store, email: Option<Json>, password: Option<Json>, saltBytes: seq<Byte>,
                         kdf: PasswordHash.Kdf, now: string, fault: Fault)
    ensures var r := RegisterResult(s, email, password, saltBytes, kdf, now, fault);
      && (r.reply.status == 400 <==> !TruthyOpt(email) || !TruthyOpt(password))
      && (r.reply.status == 409 <==>
            TruthyOpt(email) && TruthyOpt(password) && email.value.JStr? && fault != LookupFault
            && email.value.s in s.users)
      && (r.reply.status == 201 <==>
            TruthyOpt(email) && TruthyOpt(password) && email.value.JStr? && password.value.JStr?
            && fault == NoFault && email.value.s !in s.users)
      && r.reply.status in {201, 400, 409, 500}
      && (r.reply.status != 201 ==> r.store == s)
      && (r.reply.status == 201 ==>
            var e := email.value.s;
            && e !in s.users
            && r.store.users.Keys == s.users.Keys + {e}
            && (forall k :: k in s.users ==> r.store.users[k] == s.users[k])
            && r.store.users[e]
               == UserRecord(s.nextId, e, PasswordHash.HashPassword(password.value.s, saltBytes, kdf), now)
            && r.store.nextId == s.nextId + 1)
  {
  }

  /** The 201 body carries the id, the email and the creation time, under
      exactly those keys: never the stored hash. */
  lemma CreatedBodyFields(s: Store, email: Option<Json>, password: Option<Json>, saltBytes: seq<Byte>,
                          kdf: PasswordHash.Kdf, now: string, fault: Fault)
    requires RegisterResult(s, email, password, saltBytes, kdf, now, fault).reply.status == 201
    ensures var body := RegisterResult(s, email, password, saltBytes, kdf, now, fault).reply.body;
      && body.JObj?
      && (forall i :: 0 <= i < |body.fields| ==> body.fields[i].0 in {"id", "user", "createdAt"})
      && Lookup(body.fields, "password") == None
      && Lookup(body.fields, "user") == Some(email.value)
      && Lookup(body.fields, "id") == Some(JNum(s.nextId))
      && Lookup(body.fields, "createdAt") == Some(JStr(now))
  {
    var body := RegisterResult(s, email, password, saltBytes, kdf, now, fault).reply.body;
    assert body.fields[1..] == [("user", email.value), ("createdAt", JStr(now))];
    LookupPair(("user", email.value), ("createdAt", JStr(now)), "user");
    LookupPair(("user", email.value), ("createdAt", JStr(now)), "createdAt");
    LookupPair(("user", email.value), ("createdAt", JStr(now)), "password");
  }

  /** A registration keeps the table well formed. */
  lemma RegisterKeepsValid(s: Store, email: Option<Json>, password: Option<Json>, saltBytes: seq<Byte>,
                           kdf: PasswordHash.Kdf, now: string, fault: Fault)
    requires ValidStore(s)
    ensures ValidStore(RegisterResult(s, email, password, saltBytes, kdf, now, fault).store)
  {
  }

  /** A registered email can never be registered again: the answer is
      never 201 and the table is unchanged. */
  lemma NoDoubleRegistration(s: Store, e: string, password: Option<Json>, saltBytes: seq<Byte>,
                             kdf: PasswordHash.Kdf, now: string, fault: Fault)
    requires e in s.users
    ensures var r := RegisterResult(s, Some(JStr(e)), password, saltBytes, kdf, now, fault);
      r.reply.status != 201 && r.store == s
  {
  }

  /** The stored password of a new user verifies against the password given
      at registration. */
  lemma RegisteredPasswordVerifies(s: Store, e: string, password: string, saltBytes: seq<Byte>,
                                   kdf: PasswordHash.Kdf, now: string)
    requires PasswordHash.DerivesKeyLength(kdf) && |saltBytes| == PasswordHash.SaltLength
    requires e != "" && password != "" && e !in s.users
    ensures var r := RegisterResult(s, Some(JStr(e)), Some(JStr(password)), saltBytes, kdf, now, NoFault);
      && e in r.store.users
      && PasswordHash.VerifyPassword(r.store.users[e].password, password, kdf) == Ok(true)
  {
    PasswordHash.VerifyOwnPassword(password, saltBytes, kdf);
  }

  // ---------------------------------------------------------------------
  // Any sequence of registrations

  datatype Request = Request(email: Option<Json>, password: Option<Json>, saltBytes: seq<Byte>,
                             now: string, fault: Fault)

  /** The store after the requests, in order. */
  function RegisterAll(s: Store, requests: seq<Request>, kdf: PasswordHash.Kdf): Store
    decreases |requests|
  {
    if requests == [] then s
    else
      var q := requests[0];
      RegisterAll(RegisterResult(s, q.email, q.password, q.saltBytes, kdf, q.now, q.fault).store, requests[1..], kdf)
  }

  /** Whatever the requests, the table stays well formed (one record per
      email, distinct ids) and never loses a record. */
  lemma {:induction false} RegisterAllKeepsValid(s: Store, requests: seq<Request>, kdf: PasswordHash.Kdf)
    requires ValidStore(s)
    decreases |requests|
    ensures ValidStore(RegisterAll(s, requests, kdf))
    ensures forall e :: e in s.users ==>
      e in RegisterAll(s, requests, kdf).users && RegisterAll(s, requests, kdf).users[e] == s.users[e]
  {
    if requests != [] {
      var q := requests[0];
      var next := RegisterResult(s, q.email, q.password, q.saltBytes, kdf, q.now, q.fault).store;
      RegisterKeepsValid(s, q.email, q.password, q.saltBytes, kdf, q.now, q.fault);
      RegisterOutcomes(s, q.email, q.password, q.saltBytes, kdf, q.now, q.fault);
      RegisterAllKeepsValid(next, requests[1..], kdf);
    }
  }

  // ---------------------------------------------------------------------
  // The service

  /** The service's user table, updated in place by each request. */
  class UserTable {
    var users: map<string, UserRecord>
    var nextId: int

    ghost predicate Valid()
      reads this
    {
      ValidStore(Store(users, nextId))
    }

    constructor ()
      ensures Valid() && users == map[] && nextId == 1
    {
      users := map[];
      nextId := 1;
    }

    /** `POST /register`: answers on `res` and updates the table as
        `Register` says. */
    method Register(email: Option<Json>, password: Option<Json>, saltBytes: seq<Byte>,
                    kdf: PasswordHash.Kdf, now: string, fault: Fault,
                    res: Http.ServerResponse, stringify: Json -> string)
      requires Valid()
      modifies this, res
      ensures Valid()
      ensures var r := RegisterResult(Store(old(users), old(nextId)), email, password, saltBytes, kdf, now, fault);
        && Store(users, nextId) == r.store
        && res.statusCode == r.reply.status && res.contentType == Some(Http.JsonContentType)
        && res.body == old(res.body) + stringify(r.reply.body) && res.ended
    {
      RegisterKeepsValid(Store(users, nextId), email, password, saltBytes, kdf, now, fault);
      if !TruthyOpt(email) || !TruthyOpt(password) {
        res.SendJson(400, JObj([("error", JStr(RequiredMessage))]), stringify);
        return;
      }
      if !email.value.JStr? || fault == LookupFault {
        res.SendJson(500, Http.MessageBody(InternalMessage), stringify);
        return;
      }
      var e := email.value.s;
      if e in users {
        res.SendJson(409, Http.MessageBody(InUseMessage), stringify);
        return;
      }
      if !password.value.JStr? || fault == HashFault {
        res.SendJson(500, Http.MessageBody(InternalMessage), stringify);
        return;
      }
      var hashedPassword := PasswordHash.HashPassword(password.value.s, saltBytes, kdf);
      if fault == CreateFault {
        res.SendJson(500, Http.MessageBody(InternalMessage), stringify);
        return;
      }
      var user := UserRecord(nextId, e, hashedPassword, now);
      users := users[e := user];
      nextId := nextId + 1;
      res.SendJson(201, CreatedBody(user), stringify);
    }
  }
}
