/**
  Registration and login: internal/service/auth.go over the in-memory user store. Hashing is a
  parameter; a salt makes each hash its own.
 */
module Auth {
  import opened Domain
  import opened StorageInMemory
  import Numbers
  import Claims

  type Password = Bytes

  datatype Hasher = Hasher(hash: (Password, nat) -> Option<Bytes>, compare: (Bytes, Password) -> bool)

  /** The assumption on bcrypt: a hash accepts the password it was made from. */
  ghost predicate AcceptsOwnHashes(h: Hasher) {
    forall password: Password, salt: nat ::
      h.hash(password, salt).Some? ==> h.compare(h.hash(password, salt).value, password)
  }

  datatype Setup = Setup(hasher: Hasher, tokens: Claims.Settings, minPasswordLen: nat)
  datatype Db = Db(users: Users, next: nat)

  const EMPTY_DB := Db(map[], 0)

  datatype Request =
    | Register(name: string, login: string, password: Password, salt: nat, now: Time)
    | LogIn(login: string, password: Password, now: Time)

  /** The request passes every check up to and including the store's. */
  predicate Registers(st: Setup, db: Db, q: Request) {
    && q.Register?
    && |q.password| >= st.minPasswordLen && q.login != ""
    && st.hasher.hash(q.password, q.salt).Some?
    && q.login !in db.users
  }

  function Next(st: Setup, db: Db, q: Request): Db {
    if Registers(st, db, q)
    then Db(db.users[q.login := UserData(db.next, q.name, st.hasher.hash(q.password, q.salt).value, q.now)], db.next + 1)
    else db
  }

  function Answer(st: Setup, db: Db, q: Request): Result<Claims.Token> {
    match q
    case Register(_, login, password, salt, now) =>
      if |password| < st.minPasswordLen || login == "" then Err(ErrBadRequest)
      else if st.hasher.hash(password, salt).None? then Err(ErrInternal)
      else if login in db.users then Err(ErrConflict)
      else Claims.Issue(st.tokens, Claims.UserClaims(login, db.next), now)
    case LogIn(login, password, now) =>
      if login !in db.users then Err(ErrNotFound)
      else if !st.hasher.compare(db.users[login].passwordHash, password) then Err(ErrHashComparing)
      else Claims.Issue(st.tokens, Claims.UserClaims(login, db.users[login].id), now)
  }

  class Service {
    const storage: MemoryStorage
    const tokens: Claims.TokenMaker
    const hasher: Hasher
    const minPasswordLen: nat

    constructor (s: MemoryStorage, t: Claims.TokenMaker, h: Hasher, min: nat)
      ensures storage == s && tokens == t && hasher == h && minPasswordLen == min
    {
      storage := s;
      tokens := t;
      hasher := h;
      minPasswordLen := min;
    }

    function Settings(): Setup {
      Setup(hasher, tokens.settings, minPasswordLen)
    }

    function State(): Db
      reads storage
    {
      Db(storage.users, storage.userIDIncrement)
    }

    method Register(name: string, login: string, password: Password, salt: nat, now: Time)
        returns (r: Result<Claims.Token>)
      modifies storage`users, storage`userIDIncrement
      ensures State() == Next(Settings(), old(State()), Request.Register(name, login, password, salt, now))
      ensures r == Answer(Settings(), old(State()), Request.Register(name, login, password, salt, now))
    {
      if |password| < minPasswordLen {
        return Err(ErrBadRequest);
      }
      if login == "" {
        return Err(ErrBadRequest);
      }
      var hashed := hasher.hash(password, salt);
      if hashed.None? {
        return Err(ErrInternal);
      }
      var userID := storage.Register(name, login, hashed.value, now);
      if userID.Err? {
        return Err(userID.error);
      }
      r := tokens.Create(Claims.UserClaims(login, userID.value), now);
    }

    method LogIn(login: string, password: Password, now: Time) returns (r: Result<Claims.Token>)
      ensures r == Answer(Settings(), State(), Request.LogIn(login, password, now))
    {
      var found := storage.LogIn(login);
      if found.Err? {
        return Err(found.error);
      }
      if !hasher.compare(found.value.1, password) {
        return Err(ErrHashComparing);
      }
      r := tokens.Create(Claims.UserClaims(login, found.value.0), now);
    }
  }

  // ----- runs -----

  function After(st: Setup, db: Db, qs: seq<Request>): Db
    decreases |qs|
  {
    if qs == [] then db else After(st, Next(st, db, qs[0]), qs[1..])
  }

  /** The logins registered by a run, in order. */
  function Registered(st: Setup, db: Db, qs: seq<Request>): seq<string>
    decreases |qs|
  {
    if qs == [] then []
    else (if Registers(st, db, qs[0]) then [qs[0].login] else []) + Registered(st, Next(st, db, qs[0]), qs[1..])
  }

  lemma {:induction false} AfterOneMore(st: Setup, db: Db, qs: seq<Request>, q: Request)
    ensures After(st, db, qs + [q]) == Next(st, After(st, db, qs), q)
    ensures Registered(st, db, qs + [q])
         == Registered(st, db, qs) + if Registers(st, After(st, db, qs), q) then [q.login] else []
    decreases |qs|
  {
    if qs == [] {
      assert [] + [q] == [q];
    } else {
      assert (qs + [q])[1..] == qs[1..] + [q];
      AfterOneMore(st, Next(st, db, qs[0]), qs[1..], q);
    }
  }

  /** The users are exactly those of `order`, each with its position as id. */
  predicate Numbered(db: Db, order: seq<string>) {
    && db.next == |order|
    && (forall i :: 0 <= i < |order| ==> order[i] in db.users && db.users[order[i]].id == i)
    && (forall login :: login in db.users ==> login in order)
  }

  lemma StepKeepsNumbered(st: Setup, db: Db, q: Request, order: seq<string>)
    requires Numbered(db, order)
    ensures Numbered(Next(st, db, q), order + if Registers(st, db, q) then [q.login] else [])
  {
    var added := if Registers(st, db, q) then [q.login] else [];
    var order' := order + added;
    forall login | login in Next(st, db, q).users ensures login in order' {
      assert login in db.users ==> login in order;
    }
  }

  lemma {:induction false} RunKeepsNumbered(st: Setup, db: Db, qs: seq<Request>, order: seq<string>)
    requires Numbered(db, order)
    ensures Numbered(After(st, db, qs), order + Registered(st, db, qs))
    decreases |qs|
  {
    if qs == [] {
      assert order + [] == order;
    } else {
      var added := if Registers(st, db, qs[0]) then [qs[0].login] else [];
      StepKeepsNumbered(st, db, qs[0], order);
      RunKeepsNumbered(st, Next(st, db, qs[0]), qs[1..], order + added);
      assert order + Registered(st, db, qs) == (order + added) + Registered(st, Next(st, db, qs[0]), qs[1..]);
    }
  }

  /**
    After any sequence of Register and LogIn calls the ids in use are exactly 0 to n - 1, in
    registration order, one per login.
   */
  lemma IdsInRegistrationOrder(st: Setup, qs: seq<Request>)
    ensures Numbered(After(st, EMPTY_DB, qs), Registered(st, EMPTY_DB, qs))
    ensures forall i, j :: 0 <= i < j < |Registered(st, EMPTY_DB, qs)| ==>
              Registered(st, EMPTY_DB, qs)[i] != Registered(st, EMPTY_DB, qs)[j]
  {
    RunKeepsNumbered(st, EMPTY_DB, qs, []);
    assert [] + Registered(st, EMPTY_DB, qs) == Registered(st, EMPTY_DB, qs);
  }

  /** Nothing a run does changes or removes a registered user. */
  lemma {:induction false} UsersPersist(st: Setup, db: Db, qs: seq<Request>, login: string)
    requires login in db.users
    ensures login in After(st, db, qs).users && After(st, db, qs).users[login] == db.users[login]
    decreases |qs|
  {
    if qs != [] {
      UsersPersist(st, Next(st, db, qs[0]), qs[1..], login);
    }
  }

  /**
    However many calls come before and in between: a login with the password given at
    registration issues a token that reads back as the very user the registration's token reads
    back as, namely the login with the number of users registered before it.
   */
  lemma LogInMatchesRegistration(
      st: Setup, before: seq<Request>, reg: Request, between: seq<Request>, now: Time)
    requires AcceptsOwnHashes(st.hasher)
    requires reg.Register? && Answer(st, After(st, EMPTY_DB, before), reg).Ok?
    requires |Registered(st, EMPTY_DB, before)| <= Numbers.TWO53
    ensures var db := After(st, EMPTY_DB, before);
            var user := Claims.UserClaims(reg.login, |Registered(st, EMPTY_DB, before)|);
            var again := Answer(st, After(st, Next(st, db, reg), between), LogIn(reg.login, reg.password, now));
            && again.Ok?
            && Claims.GivesBackUntil(st.tokens, Answer(st, db, reg).value, user, Claims.ExpiryOf(st.tokens, reg.now))
            && Claims.GivesBackUntil(st.tokens, again.value, user, Claims.ExpiryOf(st.tokens, now))
  {
    var db := After(st, EMPTY_DB, before);
    var id := |Registered(st, EMPTY_DB, before)|;
    IdsInRegistrationOrder(st, before);
    assert db.next == id;
    UsersPersist(st, Next(st, db, reg), between, reg.login);
    var user := Claims.UserClaims(reg.login, id);
    Claims.ClaimsRoundTrip(st.tokens, user, reg.now);
    Claims.ClaimsRoundTrip(st.tokens, user, now);
  }

  // ----- the answers, from the history of calls alone -----

  /** A registration of `login` that is long enough, named and hashable. */
  predicate Sound(st: Setup, q: Request, login: string) {
    && q.Register? && q.login == login && login != ""
    && |q.password| >= st.minPasswordLen && st.hasher.hash(q.password, q.salt).Some?
  }

  /** Call `k` is the first sound registration of `login`: the one that counts. */
  predicate First(st: Setup, qs: seq<Request>, k: nat, login: string) {
    k < |qs| && Sound(st, qs[k], login) && forall j :: 0 <= j < k ==> !Sound(st, qs[j], login)
  }

  ghost predicate Known(st: Setup, qs: seq<Request>, login: string) {
    exists k: nat :: First(st, qs, k, login)
  }

  /** The password opens the account that the first sound registration of `login` made. */
  ghost predicate Opens(st: Setup, qs: seq<Request>, login: string, password: Password) {
    exists k: nat :: First(st, qs, k, login) && st.hasher.compare(st.hasher.hash(qs[k].password, qs[k].salt).value, password)
  }

  /** What the table says about `login` is what its first sound registration, call `k`, said. */
  predicate StoredFrom(st: Setup, db: Db, q: Request, login: string)
    requires Sound(st, q, login)
  {
    && login in db.users && db.users[login].name == q.name && db.users[login].createdAt == q.now
    && db.users[login].passwordHash == st.hasher.hash(q.password, q.salt).value
  }

  lemma FirstOfMore(st: Setup, qs: seq<Request>, q: Request, k: nat, login: string)
    ensures First(st, qs + [q], k, login)
       <==> First(st, qs, k, login) || (k == |qs| && Sound(st, q, login) && !Known(st, qs, login))
  {
    forall j | 0 <= j < |qs| ensures Sound(st, qs[j], login) ==> Known(st, qs, login) {
      if Sound(st, qs[j], login) {
        KnownOnceSound(st, qs, j, login);
      }
    }
    assert forall j :: 0 <= j < |qs| ==> (qs + [q])[j] == qs[j];
  }

  lemma {:induction false} KnownOnceSound(st: Setup, qs: seq<Request>, j: nat, login: string)
    requires j < |qs| && Sound(st, qs[j], login)
    ensures Known(st, qs, login)
  {
    if i :| 0 <= i < j && Sound(st, qs[i], login) {
      KnownOnceSound(st, qs, i, login);
    } else {
      assert First(st, qs, j, login);
    }
  }

  lemma {:induction false} UsersAreTheKnown(st: Setup, qs: seq<Request>, login: string)
    ensures login in After(st, EMPTY_DB, qs).users <==> Known(st, qs, login)
    ensures forall k: nat :: First(st, qs, k, login) ==> StoredFrom(st, After(st, EMPTY_DB, qs), qs[k], login)
    decreases |qs|
  {
    if qs != [] {
      var before, q := qs[..|qs| - 1], qs[|qs| - 1];
      assert qs == before + [q];
      UsersAreTheKnown(st, before, login);
      AfterOneMore(st, EMPTY_DB, before, q);
      forall k: nat ensures First(st, qs, k, login) ==> StoredFrom(st, After(st, EMPTY_DB, qs), qs[k], login) {
        FirstOfMore(st, before, q, k, login);
      }
      if Known(st, before, login) {
        var k: nat :| First(st, before, k, login);
        FirstOfMore(st, before, q, k, login);
        assert First(st, qs, k, login);
      } else if Sound(st, q, login) {
        FirstOfMore(st, before, q, |before|, login);
      }
    }
  }

  /**
    After any calls, a login succeeds if and only if tokens can be made and the password is
    accepted by the hash of the login's first sound registration; a known login with any other
    password is refused by the hasher, and an unknown login is not found.
   */
  lemma LogInAnswers(st: Setup, qs: seq<Request>, login: string, password: Password, now: Time)
    ensures var answer := Answer(st, After(st, EMPTY_DB, qs), LogIn(login, password, now));
            && (answer.Ok? <==> Opens(st, qs, login, password) && st.tokens.alg.HS256?)
            && (answer == Err(ErrNotFound) <==> !Known(st, qs, login))
            && (answer == Err(ErrHashComparing) <==> Known(st, qs, login) && !Opens(st, qs, login, password))
            && (answer == Err(ErrInternal) <==> Opens(st, qs, login, password) && !st.tokens.alg.HS256?)
  {
    UsersAreTheKnown(st, qs, login);
    forall k: nat | First(st, qs, k, login)
      ensures Opens(st, qs, login, password) <==>
              st.hasher.compare(st.hasher.hash(qs[k].password, qs[k].salt).value, password)
    {
      forall j: nat | First(st, qs, j, login) ensures j == k {
      }
    }
  }

  /**
    After any calls, a registration succeeds if and only if its login and password pass, its hash
    can be made, the login is unknown and tokens can be made; which error it gets otherwise is
    decided in that order.
   */
  lemma RegisterAnswers(
      st: Setup, qs: seq<Request>, name: string, login: string, password: Password, salt: nat, now: Time)
    ensures var answer := Answer(st, After(st, EMPTY_DB, qs), Request.Register(name, login, password, salt, now));
            var passes := |password| >= st.minPasswordLen && login != "";
            var hashed := st.hasher.hash(password, salt).Some?;
            && (answer == Err(ErrBadRequest) <==> !passes)
            && (answer == Err(ErrConflict) <==> passes && hashed && Known(st, qs, login))
            && (answer.Ok? <==> passes && hashed && !Known(st, qs, login) && st.tokens.alg.HS256?)
            && (answer == Err(ErrInternal)
                <==> passes && (!hashed || (!Known(st, qs, login) && !st.tokens.alg.HS256?)))
  {
    UsersAreTheKnown(st, qs, login);
  }

  // ----- what a failing call leaves behind -----

  /** A call fails and yet changes the users exactly when a Register passes every check and no token can be made. */
  lemma FailureLeavesTraceIff(st: Setup, db: Db, q: Request)
    ensures Answer(st, db, q).Err? && Next(st, db, q) != db <==> Registers(st, db, q) && !st.tokens.alg.HS256?
  {
  }

  /** Call `k` of a run from no users fails and still changes the users. */
  predicate LeavesTrace(st: Setup, qs: seq<Request>, k: nat)
    requires k < |qs|
  {
    var db := After(st, EMPTY_DB, qs[..k]);
    Answer(st, db, qs[k]).Err? && Next(st, db, qs[k]) != db
  }

  ghost predicate FailuresLeaveNoTrace(st: Setup, qs: seq<Request>, n: nat)
    requires n <= |qs|
  {
    forall k :: 0 <= k < n ==> !LeavesTrace(st, qs, k)
  }

  lemma {:induction false} TracesUpTo(st: Setup, qs: seq<Request>, n: nat)
    requires n <= |qs|
    ensures FailuresLeaveNoTrace(st, qs, n) <==> st.tokens.alg.HS256? || Registered(st, EMPTY_DB, qs[..n]) == []
  {
    if n > 0 {
      TracesUpTo(st, qs, n - 1);
      assert qs[..n] == qs[..n - 1] + [qs[n - 1]];
      AfterOneMore(st, EMPTY_DB, qs[..n - 1], qs[n - 1]);
      FailureLeavesTraceIff(st, After(st, EMPTY_DB, qs[..n - 1]), qs[n - 1]);
      assert FailuresLeaveNoTrace(st, qs, n) <==> FailuresLeaveNoTrace(st, qs, n - 1) && !LeavesTrace(st, qs, n - 1);
    }
  }

  /**
    In a run of any calls, every failing call leaves the users as they were if and only if tokens
    can be made or no request of the run passes the checks.
   */
  lemma FailuresLeaveNoTraceIff(st: Setup, qs: seq<Request>)
    ensures FailuresLeaveNoTrace(st, qs, |qs|) <==> st.tokens.alg.HS256? || Registered(st, EMPTY_DB, qs) == []
  {
    TracesUpTo(st, qs, |qs|);
    assert qs[..|qs|] == qs;
  }

  /**
    A user left behind by a failed registration blocks the login for good: whatever calls follow,
    registering it again answers conflict, or an earlier check's error, and never succeeds.
   */
  lemma LeftBehindBlocksLogin(st: Setup, db: Db, q: Request, between: seq<Request>, retry: Request)
    requires Answer(st, db, q).Err? && Next(st, db, q) != db
    requires retry.Register? && retry.login == q.login
    ensures var later := After(st, Next(st, db, q), between);
            && Answer(st, later, retry).Err? && Next(st, later, retry) == later
            && (Registers(st, db, retry) ==> Answer(st, later, retry) == Err(ErrConflict))
  {
    FailureLeavesTraceIff(st, db, q);
    UsersPersist(st, Next(st, db, q), between, q.login);
  }
}
