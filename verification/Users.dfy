/** The user store: users by name, with an index by API token and one by seed-phrase hash, and the
    periodic sweep that takes the tokens of expired users away. */
module Users {
  import opened Common

  datatype User = User(username: string, apiToken: string, seedHash: string, expire: Time, createdAt: Time)

  datatype UserStore = UserStore(users: map<string, User>, byToken: map<string, string>, bySeed: map<string, string>)

  const EMPTY_USERS := UserStore(map[], map[], map[])

  // ----- transactions -----

  function Create(st: UserStore, u: User): (UserStore, bool) {
    if u.username in st.users || !KeyOk(u.username) || !KeyOk(u.apiToken) || !KeyOk(u.seedHash) then (st, false)
    else (UserStore(st.users[u.username := u], st.byToken[u.apiToken := u.username], st.bySeed[u.seedHash := u.username]), true)
  }

  function UpdateToken(st: UserStore, name: string, token: string): (UserStore, bool) {
    if name !in st.users || !KeyOk(token) then (st, false)
    else
      var u := st.users[name];
      (st.(users := st.users[name := u.(apiToken := token)],
           byToken := (st.byToken - {u.apiToken})[token := name]), true)
  }

  function Delete(st: UserStore, name: string): UserStore {
    if name !in st.users then st
    else
      var u := st.users[name];
      UserStore(st.users - {name}, st.byToken - {u.apiToken}, st.bySeed - {u.seedHash})
  }

  predicate Expired(u: User, now: Time) {
    u.expire != 0 && now > u.expire
  }

  /** One user's part of the sweep. */
  function Swept(u: User, now: Time): User {
    if Expired(u, now) then u.(apiToken := "") else u
  }

  /** All of it: every expired user loses its token. */
  function Sweep(st: UserStore, now: Time): UserStore {
    st.(users := map name | name in st.users :: Swept(st.users[name], now),
        byToken := st.byToken - ExpiredTokens(st, st.users.Keys, now))
  }

  function ExpiredTokens(st: UserStore, names: set<string>, now: Time): set<string> {
    set name | name in names && name in st.users && Expired(st.users[name], now) :: st.users[name].apiToken
  }

  function ByToken(st: UserStore, token: string): Option<User> {
    if token in st.byToken && st.byToken[token] in st.users then Some(st.users[st.byToken[token]]) else None
  }

  function BySeed(st: UserStore, hash: string): Option<User> {
    if hash in st.bySeed && st.bySeed[hash] in st.users then Some(st.users[st.bySeed[hash]]) else None
  }

  /** The store as an object, changed in place. */
  class UserDatabase {
    var users: map<string, User>
    var byToken: map<string, string>
    var bySeed: map<string, string>

    constructor ()
      ensures State() == EMPTY_USERS
    {
      users, byToken, bySeed := map[], map[], map[];
    }

    function State(): UserStore
      reads this
    {
      UserStore(users, byToken, bySeed)
    }

    method CreateUser(u: User) returns (ok: bool)
      modifies this
      ensures (State(), ok) == Create(old(State()), u)
    {
      if u.username in users || !KeyOk(u.username) || !KeyOk(u.apiToken) || !KeyOk(u.seedHash) {
        return false;
      }
      users := users[u.username := u];
      byToken := byToken[u.apiToken := u.username];
      bySeed := bySeed[u.seedHash := u.username];
      return true;
    }

    method UpdateUserToken(name: string, token: string) returns (ok: bool)
      modifies this
      ensures (State(), ok) == UpdateToken(old(State()), name, token)
    {
      if name !in users || !KeyOk(token) {
        return false;
      }
      var u := users[name];
      byToken := byToken - {u.apiToken};
      users := users[name := u.(apiToken := token)];
      byToken := byToken[token := name];
      return true;
    }

    method DeleteUser(name: string)
      modifies this
      ensures State() == Delete(old(State()), name)
    {
      if name !in users {
        return;
      }
      var u := users[name];
      users := users - {name};
      byToken := byToken - {u.apiToken};
      bySeed := bySeed - {u.seedHash};
    }

    /** The cursor loop: index entries are deleted and records rewritten as the cursor passes. */
    method InvalidateExpiredUsers(now: Time)
      modifies this
      ensures State() == Sweep(old(State()), now)
    {
      ghost var st := State();
      var rest := users.Keys;
      while rest != {}
        invariant rest <= st.users.Keys == users.Keys && bySeed == st.bySeed
        invariant forall name | name in rest :: users[name] == st.users[name]
        invariant forall name | name in users && name !in rest :: users[name] == Swept(st.users[name], now)
        invariant byToken == st.byToken - ExpiredTokens(st, st.users.Keys - rest, now)
        decreases rest
      {
        var name :| name in rest;
        var u := users[name];
        ExpiredTokensSnoc(st, st.users.Keys - rest, name, now);
        assert st.users.Keys - (rest - {name}) == (st.users.Keys - rest) + {name};
        rest := rest - {name};
        if u.expire != 0 && now > u.expire {
          byToken := byToken - {u.apiToken};
          users := users[name := u.(apiToken := "")];
        }
      }
      assert st.users.Keys - rest == st.users.Keys;
    }
  }

  lemma ExpiredTokensSnoc(st: UserStore, names: set<string>, name: string, now: Time)
    ensures ExpiredTokens(st, names + {name}, now) == ExpiredTokens(st, names, now) +
        (if name in st.users && Expired(st.users[name], now) then {st.users[name].apiToken} else {})
  {
  }

  // ----- the indexes against a scan -----

  /** Records are filed under their names, and each index holds exactly what a scan of all users finds.
      A user whose token was taken away has the empty token, which no index holds. */
  ghost predicate Exact(st: UserStore) {
    && (forall name | name in st.users :: st.users[name].username == name)
    && TokensExact(st) && SeedsExact(st)
  }

  ghost predicate TokensExact(st: UserStore) {
    && "" !in st.byToken
    && (forall name | name in st.users && st.users[name].apiToken != "" ::
          st.users[name].apiToken in st.byToken && st.byToken[st.users[name].apiToken] == name)
    && (forall token | token in st.byToken ::
          st.byToken[token] in st.users && st.users[st.byToken[token]].apiToken == token)
  }

  ghost predicate SeedsExact(st: UserStore) {
    && (forall name | name in st.users ::
          st.users[name].seedHash in st.bySeed && st.bySeed[st.users[name].seedHash] == name)
    && (forall hash | hash in st.bySeed ::
          st.bySeed[hash] in st.users && st.users[st.bySeed[hash]].seedHash == hash)
  }

  /** In an exact store, look-up by token or by seed hash is a scan of all users. */
  lemma LookupsAreScans(st: UserStore, key: string)
    requires Exact(st)
    ensures forall u :: ByToken(st, key) == Some(u) <==> u in st.users.Values && u.apiToken == key && key != ""
    ensures forall u :: BySeed(st, key) == Some(u) <==> u in st.users.Values && u.seedHash == key
  {
    forall u | u in st.users.Values && u.apiToken == key && key != ""
      ensures ByToken(st, key) == Some(u)
    {
      var name :| name in st.users && st.users[name] == u;
    }
    forall u | u in st.users.Values && u.seedHash == key
      ensures BySeed(st, key) == Some(u)
    {
      var name :| name in st.users && st.users[name] == u;
    }
  }

  lemma CreateKeepsExact(st: UserStore, u: User)
    requires Exact(st) && u.apiToken !in st.byToken && u.seedHash !in st.bySeed
    ensures Exact(Create(st, u).0)
  {
  }

  lemma CreateBreaksExact(st: UserStore, u: User)
    requires Exact(st) && Create(st, u).1 && (u.apiToken in st.byToken || u.seedHash in st.bySeed)
    ensures !Exact(Create(st, u).0)
  {
    var other := if u.apiToken in st.byToken then st.byToken[u.apiToken] else st.bySeed[u.seedHash];
    assert other != u.username && Create(st, u).0.users[other] == st.users[other];
  }

  /** Creating a user keeps the indexes exact if and only if it is refused, or its token and its seed hash
      are not in use. */
  lemma CreateExactIff(st: UserStore, u: User)
    requires Exact(st)
    ensures Exact(Create(st, u).0) <==>
      !Create(st, u).1 || (u.apiToken !in st.byToken && u.seedHash !in st.bySeed)
  {
    if u.apiToken !in st.byToken && u.seedHash !in st.bySeed {
      CreateKeepsExact(st, u);
    } else if Create(st, u).1 {
      CreateBreaksExact(st, u);
    }
  }

  lemma UpdateKeepsExact(st: UserStore, name: string, token: string)
    requires Exact(st) && (token !in st.byToken || st.byToken[token] == name)
    ensures Exact(UpdateToken(st, name, token).0)
  {
  }

  lemma UpdateBreaksExact(st: UserStore, name: string, token: string)
    requires Exact(st) && UpdateToken(st, name, token).1 && token in st.byToken && st.byToken[token] != name
    ensures !TokensExact(UpdateToken(st, name, token).0)
  {
    var other := st.byToken[token];
    assert UpdateToken(st, name, token).0.users[other] == st.users[other];
  }

  /** Giving a user a new token keeps the indexes exact if and only if it is refused, or no other user
      holds that token. */
  lemma UpdateExactIff(st: UserStore, name: string, token: string)
    requires Exact(st)
    ensures Exact(UpdateToken(st, name, token).0) <==>
      !UpdateToken(st, name, token).1 || token !in st.byToken || st.byToken[token] == name
  {
    if token !in st.byToken || st.byToken[token] == name {
      UpdateKeepsExact(st, name, token);
    } else if UpdateToken(st, name, token).1 {
      UpdateBreaksExact(st, name, token);
    }
  }

  lemma DeleteExact(st: UserStore, name: string)
    requires Exact(st)
    ensures Exact(Delete(st, name)) && (forall n :: n in Delete(st, name).users <==> n in st.users && n != name)
  {
  }

  /** A user who has been created is found by its token and by its seed hash, with the record as given; all others
      are found as before. */
  lemma CreatedIsFound(st: UserStore, u: User, key: string)
    requires Exact(st) && Create(st, u).1 && u.apiToken !in st.byToken && u.seedHash !in st.bySeed
    ensures var st' := Create(st, u).0;
      && ByToken(st', u.apiToken) == Some(u) && BySeed(st', u.seedHash) == Some(u)
      && (key != u.apiToken ==> ByToken(st', key) == ByToken(st, key))
      && (key != u.seedHash ==> BySeed(st', key) == BySeed(st, key))
  {
  }

  /** Exactly when a user can be created. */
  lemma CreateIff(st: UserStore, u: User)
    ensures Create(st, u).1 <==> u.username !in st.users && 1 <= |u.username| <= 32768 && 1 <= |u.apiToken| <= 32768
                                 && 1 <= |u.seedHash| <= 32768
    ensures !Create(st, u).1 ==> Create(st, u).0 == st
  {
  }

  /** A new token finds the same user, with nothing else about it changed; the old token finds nobody any more, and all
      other tokens find whom they found. The seed phrase finds the user as it is now. */
  lemma UpdatedIsFound(st: UserStore, name: string, token: string, key: string)
    requires Exact(st) && name in st.users && 1 <= |token| <= 32768 && token !in st.byToken
    ensures var (st', ok) := UpdateToken(st, name, token);
      var u := st.users[name];
      && ok && ByToken(st', token) == Some(u.(apiToken := token)) && BySeed(st', u.seedHash) == Some(u.(apiToken := token))
      && ByToken(st', u.apiToken) == None
      && (key != token && key != u.apiToken ==> ByToken(st', key) == ByToken(st, key))
      && (key != u.seedHash ==> BySeed(st', key) == BySeed(st, key))
  {
  }

  /** A deleted user is found by nothing, all others as before. */
  lemma DeletedIsGone(st: UserStore, name: string, key: string)
    requires Exact(st) && name in st.users
    ensures var (st', u) := (Delete(st, name), st.users[name]);
      && ByToken(st', u.apiToken) == None && BySeed(st', u.seedHash) == None
      && (key != u.apiToken ==> ByToken(st', key) == ByToken(st, key))
      && (key != u.seedHash ==> BySeed(st', key) == BySeed(st, key))
  {
  }

  lemma SweepExact(st: UserStore, now: Time)
    requires Exact(st)
    ensures Exact(Sweep(st, now))
  {
    var st' := Sweep(st, now);
    forall name | name in st'.users && st'.users[name].apiToken != ""
      ensures st'.users[name].apiToken in st'.byToken
    {
      assert st.byToken[st.users[name].apiToken] == name;
    }
    forall token | token in st'.byToken
      ensures st'.users[st'.byToken[token]].apiToken == token
    {
      assert token !in ExpiredTokens(st, st.users.Keys, now);
    }
  }

  /** After a sweep, the tokens that still find a user are exactly the earlier ones whose user never expires
      or has not expired yet, and they find the same record; seed phrases are unaffected; and sweeping again
      at the same instant changes nothing. */
  lemma SweepEffect(st: UserStore, now: Time)
    requires Exact(st)
    ensures var st' := Sweep(st, now);
      && (forall token, u :: ByToken(st', token) == Some(u) <==>
            ByToken(st, token) == Some(u) && (u.expire == 0 || u.expire >= now))
      && (forall hash :: BySeed(st', hash).Some? <==> BySeed(st, hash).Some?)
      && (forall name :: name in st'.users <==> name in st.users)
      && (forall name | name in st.users :: var u := st.users[name];
            st'.users[name] == if u.expire != 0 && now > u.expire then u.(apiToken := "") else u)
      && Sweep(st', now) == st'
  {
    var st' := Sweep(st, now);
    SweepExact(st, now);
    forall token, u
      ensures ByToken(st', token) == Some(u) <==>
        ByToken(st, token) == Some(u) && (u.expire == 0 || u.expire >= now)
    {
      if token in st.byToken {
        var name := st.byToken[token];
        assert token in ExpiredTokens(st, st.users.Keys, now) <==> Expired(st.users[name], now);
      }
    }
    assert ExpiredTokens(st', st'.users.Keys, now) <= {""};
    assert Sweep(st', now).users == st'.users;
    assert Sweep(st', now).byToken == st'.byToken;
  }

  // ----- runs -----

  datatype Op = CreateOp(u: User) | UpdateOp(name: string, token: string) | DeleteOp(name: string) | SweepOp(now: Time)

  function Do(st: UserStore, op: Op): UserStore {
    match op
    case CreateOp(u) => Create(st, u).0
    case UpdateOp(name, token) => UpdateToken(st, name, token).0
    case DeleteOp(name) => Delete(st, name)
    case SweepOp(now) => Sweep(st, now)
  }

  /** Tokens are fresh random strings, and seed hashes of different phrases differ. */
  predicate FreshOp(st: UserStore, op: Op) {
    match op
    case CreateOp(u) => u.apiToken !in st.byToken && u.seedHash !in st.bySeed
    case UpdateOp(_, token) => token !in st.byToken
    case _ => true
  }

  predicate FreshRun(st: UserStore, ops: seq<Op>)
    decreases |ops|
  {
    ops == [] || (FreshOp(st, ops[0]) && FreshRun(Do(st, ops[0]), ops[1..]))
  }

  function Run(st: UserStore, ops: seq<Op>): UserStore
    decreases |ops|
  {
    if ops == [] then st else Run(Do(st, ops[0]), ops[1..])
  }

  /** After any sequence of creations, token updates, deletions and sweeps with fresh tokens and distinct seed
      hashes, both indexes agree with a scan. */
  lemma {:induction false} ExactRun(st: UserStore, ops: seq<Op>)
    requires Exact(st) && FreshRun(st, ops)
    ensures Exact(Run(st, ops))
    decreases |ops|
  {
    if ops != [] {
      match ops[0] {
        case CreateOp(u) => CreateExactIff(st, u);
        case UpdateOp(name, token) => UpdateExactIff(st, name, token);
        case DeleteOp(name) => DeleteExact(st, name);
        case SweepOp(now) => SweepExact(st, now);
      }
      ExactRun(Do(st, ops[0]), ops[1..]);
    }
  }
}
