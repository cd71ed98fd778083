/** The server with each handler, cleaner pass and restart taken as one step: the store, the
    route table, the credentials of the tunnel server and the configuration. */
module World {
  import opened Common
  import opened Rules
  import opened SessionStore
  import opened SessionDb
  import Hosts

  datatype World = World(store: Store, routes: map<string, int>, users: map<string, string>, cfg: Config)

  // ----- agreement of memory with the store -----

  predicate LiveHttp(s: Session) {
    s.activated && s.mode.Http?
  }

  /** The route table is exactly { subdomain -> server port } of the activated http sessions. */
  ghost predicate RoutesExact(routes: map<string, int>, st: Store) {
    && (forall t | t in st.sessions && LiveHttp(st.sessions[t]) ::
          st.sessions[t].subdomain in routes && routes[st.sessions[t].subdomain] == st.sessions[t].serverPort)
    && (forall sub | sub in routes ::
          exists t :: t in st.sessions && LiveHttp(st.sessions[t]) && st.sessions[t].subdomain == sub)
  }

  /** The tunnel credentials are exactly { subdomain -> token } of the activated sessions. */
  ghost predicate UsersExact(users: map<string, string>, st: Store) {
    && (forall t | t in st.sessions && st.sessions[t].activated ::
          st.sessions[t].subdomain in users && users[st.sessions[t].subdomain] == st.sessions[t].token)
    && (forall sub | sub in users ::
          exists t :: t in st.sessions && st.sessions[t].activated && st.sessions[t].subdomain == sub)
  }

  ghost predicate Agreement(w: World) {
    SubExact(w.store) && LabelsPlain(w.store) && RoutesExact(w.routes, w.store) && UsersExact(w.users, w.store)
  }

  /** Exact route tables and credentials are determined by the store. */
  lemma MemoryDetermined(st: Store, r1: map<string, int>, r2: map<string, int>, u1: map<string, string>, u2: map<string, string>)
    requires RoutesExact(r1, st) && RoutesExact(r2, st) && UsersExact(u1, st) && UsersExact(u2, st)
    ensures r1 == r2 && u1 == u2
  {
  }

  // ----- restart -----

  function ReloadRoutes(order: seq<Session>): map<string, int> {
    if order == [] then map[]
    else
      var s := order[|order| - 1];
      var before := ReloadRoutes(order[..|order| - 1]);
      if LiveHttp(s) then before[s.subdomain := s.serverPort] else before
  }

  function ReloadUsers(order: seq<Session>): map<string, string> {
    if order == [] then map[]
    else
      var s := order[|order| - 1];
      var before := ReloadUsers(order[..|order| - 1]);
      if s.activated then before[s.subdomain := s.token] else before
  }

  ghost predicate DistinctSubs(order: seq<Session>) {
    forall i, j | 0 <= i < j < |order| :: order[i].subdomain != order[j].subdomain
  }

  lemma {:induction false} ReloadRoutesAt(order: seq<Session>)
    requires DistinctSubs(order)
    ensures forall i | 0 <= i < |order| && LiveHttp(order[i]) ::
        order[i].subdomain in ReloadRoutes(order) && ReloadRoutes(order)[order[i].subdomain] == order[i].serverPort
    ensures forall sub | sub in ReloadRoutes(order) ::
        exists i :: 0 <= i < |order| && LiveHttp(order[i]) && order[i].subdomain == sub
  {
    if order != [] {
      var before := order[..|order| - 1];
      ReloadRoutesAt(before);
      forall sub | sub in ReloadRoutes(order)
        ensures exists i :: 0 <= i < |order| && LiveHttp(order[i]) && order[i].subdomain == sub
      {
        if sub in ReloadRoutes(before) {
          var i :| 0 <= i < |before| && LiveHttp(before[i]) && before[i].subdomain == sub;
          assert order[i] == before[i];
        } else {
          assert LiveHttp(order[|order| - 1]);
        }
      }
      forall i | 0 <= i < |order| && LiveHttp(order[i])
        ensures order[i].subdomain in ReloadRoutes(order)
        ensures ReloadRoutes(order)[order[i].subdomain] == order[i].serverPort
      {
        if i < |before| {
          assert order[i] == before[i];
        }
      }
    }
  }

  lemma {:induction false} ReloadUsersAt(order: seq<Session>)
    requires DistinctSubs(order)
    ensures forall i | 0 <= i < |order| && order[i].activated ::
        order[i].subdomain in ReloadUsers(order) && ReloadUsers(order)[order[i].subdomain] == order[i].token
    ensures forall sub | sub in ReloadUsers(order) ::
        exists i :: 0 <= i < |order| && order[i].activated && order[i].subdomain == sub
  {
    if order != [] {
      var before := order[..|order| - 1];
      ReloadUsersAt(before);
      forall sub | sub in ReloadUsers(order)
        ensures exists i :: 0 <= i < |order| && order[i].activated && order[i].subdomain == sub
      {
        if sub in ReloadUsers(before) {
          var i :| 0 <= i < |before| && before[i].activated && before[i].subdomain == sub;
          assert order[i] == before[i];
        } else {
          assert order[|order| - 1].activated;
        }
      }
      forall i | 0 <= i < |order| && order[i].activated
        ensures order[i].subdomain in ReloadUsers(order)
        ensures ReloadUsers(order)[order[i].subdomain] == order[i].token
      {
        if i < |before| {
          assert order[i] == before[i];
        }
      }
    }
  }

  lemma EnumerationSubsDistinct(order: seq<Session>, st: Store)
    requires SubExact(st) && Enumerates(order, st)
    ensures DistinctSubs(order)
  {
  }

  /** Rebuilding from empty memory gives exactly the routes and credentials the store determines,
      in whatever order the sessions are listed. */
  lemma ReloadExact(order: seq<Session>, st: Store)
    requires SubExact(st) && Enumerates(order, st)
    ensures RoutesExact(ReloadRoutes(order), st) && UsersExact(ReloadUsers(order), st)
  {
    EnumerationSubsDistinct(order, st);
    ReloadRoutesAt(order);
    ReloadUsersAt(order);
    forall sub | sub in ReloadRoutes(order)
      ensures exists t :: t in st.sessions && LiveHttp(st.sessions[t]) && st.sessions[t].subdomain == sub
    {
      var i :| 0 <= i < |order| && LiveHttp(order[i]) && order[i].subdomain == sub;
      assert order[i].setupToken in st.sessions;
    }
    forall sub | sub in ReloadUsers(order)
      ensures exists t :: t in st.sessions && st.sessions[t].activated && st.sessions[t].subdomain == sub
    {
      var i :| 0 <= i < |order| && order[i].activated && order[i].subdomain == sub;
      assert order[i].setupToken in st.sessions;
    }
  }

  // ----- verify -----

  datatype Verdict = Refused(reason: Refusal) | Denied(t: string) | Activated(s: Session)

  function Judge(ed: Verifier, w: World, req: VerifyRequest, now: Time): Verdict {
    match GetByPubkey(w.store, req.pubHex)
    case None => Refused(UnknownPubkey)
    case Some(s) =>
      if s.activated then Refused(AlreadyActivated)
      else
        match CheckRequest(ed, s, req, now)
        case Err(reason) => Refused(reason)
        case Ok(_) => if Permitted(w.cfg, s) then Activated(s) else Denied(s.setupToken)
  }

  function Verify(ed: Verifier, w: World, req: VerifyRequest, now: Time): World {
    match Judge(ed, w, req, now)
    case Refused(_) => w
    case Denied(t) => w.(store := Delete(w.store, t))
    case Activated(s) =>
      World(SessionStore.Activate(w.store, s.setupToken, now).0,
            if s.mode.Http? then w.routes[s.subdomain := s.serverPort] else w.routes,
            w.users[s.subdomain := s.token], w.cfg)
  }

  function Challenge(w: World, pubHex: string, nonce: string, now: Time): World {
    if pubHex == "" then w
    else
      match GetByPubkey(w.store, pubHex)
      case None => w
      case Some(s) => if s.activated then w else w.(store := UpdateNonce(w.store, s.setupToken, nonce, now).0)
  }

  // ----- cleaner -----

  function Subs(st: Store, ts: set<string>): set<string> {
    set t | t in ts && t in st.sessions :: st.sessions[t].subdomain
  }

  function Keys(st: Store, ts: set<string>): set<string> {
    set t | t in ts && t in st.sessions && |st.sessions[t].pubKey| > 0 :: Hex.Encode(st.sessions[t].pubKey)
  }

  /** Ports whose raw listener a removal closes. */
  function TcpPorts(st: Store, ts: set<string>): set<int> {
    set t | t in ts && t in st.sessions && (st.sessions[t].mode.Tcp? || st.sessions[t].mode.TcpUdp?)
      :: st.sessions[t].serverPort
  }

  function UdpPorts(st: Store, ts: set<string>): set<int> {
    set t | t in ts && t in st.sessions && st.sessions[t].mode.TcpUdp? :: st.sessions[t].serverPort
  }

  function RemoveAll(st: Store, ts: set<string>): Store {
    Store(st.sessions - ts, st.byPubkey - Keys(st, ts), st.bySub - Subs(st, ts))
  }

  lemma SubsTwice(st: Store, a: set<string>, b: set<string>)
    ensures Subs(st, a) + Subs(RemoveAll(st, a), b) == Subs(st, a + b)
  {
  }

  lemma KeysTwice(st: Store, a: set<string>, b: set<string>)
    ensures Keys(st, a) + Keys(RemoveAll(st, a), b) == Keys(st, a + b)
  {
  }

  /** Two removals one after the other are one removal of the union. */
  lemma RemoveTwice(st: Store, a: set<string>, b: set<string>)
    ensures RemoveAll(RemoveAll(st, a), b) == RemoveAll(st, a + b)
    ensures Subs(st, a) + Subs(RemoveAll(st, a), b) == Subs(st, a + b)
  {
    SubsTwice(st, a, b);
    KeysTwice(st, a, b);
    assert st.sessions - a - b == st.sessions - (a + b);
    assert st.byPubkey - Keys(st, a) - Keys(RemoveAll(st, a), b) == st.byPubkey - (Keys(st, a) + Keys(RemoveAll(st, a), b));
    assert st.bySub - Subs(st, a) - Subs(RemoveAll(st, a), b) == st.bySub - (Subs(st, a) + Subs(RemoveAll(st, a), b));
  }

  lemma PortsTwice(st: Store, a: set<string>, b: set<string>)
    ensures TcpPorts(st, a) + TcpPorts(RemoveAll(st, a), b) == TcpPorts(st, a + b)
    ensures UdpPorts(st, a) + UdpPorts(RemoveAll(st, a), b) == UdpPorts(st, a + b)
  {
  }

  lemma PortsOne(st: Store, t: string)
    ensures TcpPorts(st, {t}) ==
      if t in st.sessions && (st.sessions[t].mode.Tcp? || st.sessions[t].mode.TcpUdp?) then {st.sessions[t].serverPort} else {}
    ensures UdpPorts(st, {t}) ==
      if t in st.sessions && st.sessions[t].mode.TcpUdp? then {st.sessions[t].serverPort} else {}
  {
  }

  /** Deleting one session is removing the set that holds it alone. */
  lemma RemoveOne(st: Store, t: string)
    ensures Delete(st, t) == RemoveAll(st, {t})
    ensures Subs(st, {t}) == if t in st.sessions then {st.sessions[t].subdomain} else {}
  {
    if t in st.sessions && |st.sessions[t].pubKey| > 0 {
      assert Keys(st, {t}) == {Hex.Encode(st.sessions[t].pubKey)};
    } else {
      assert Keys(st, {t}) == {};
    }
  }

  function DoomedTokens(w: World, now: Time, pipes: Pipes): set<string> {
    set t | t in w.store.sessions && Doomed(w.cfg, w.store.sessions[t], now, pipes)
  }

  function DoomedRoutes(w: World, now: Time, pipes: Pipes): set<string> {
    set t | t in w.store.sessions && Doomed(w.cfg, w.store.sessions[t], now, pipes) && w.store.sessions[t].mode.Http?
      :: w.store.sessions[t].subdomain
  }

  /** What the scan collects from a listing of sessions. */
  function PlanOf(cfg: Config, all: seq<Session>, now: Time, pipes: Pipes): Plan {
    if all == [] then EMPTY_PLAN
    else Look(cfg, PlanOf(cfg, all[..|all| - 1], now, pipes), all[|all| - 1], now, pipes)
  }

  /** A listed doomed session has this token and is disconnected, or else expired, as asked. */
  ghost predicate Named(cfg: Config, all: seq<Session>, now: Time, pipes: Pipes, gone: bool, t: string) {
    exists j :: 0 <= j < |all| && Doomed(cfg, all[j], now, pipes) && Disconnected(all[j], pipes) == gone && all[j].setupToken == t
  }

  /** A listed doomed http session has this subdomain. */
  ghost predicate Routed(cfg: Config, all: seq<Session>, now: Time, pipes: Pipes, sub: string) {
    exists j :: 0 <= j < |all| && Doomed(cfg, all[j], now, pipes) && all[j].mode.Http? && all[j].subdomain == sub
  }

  lemma NamedSnoc(cfg: Config, before: seq<Session>, s: Session, now: Time, pipes: Pipes, gone: bool, t: string)
    ensures Named(cfg, before + [s], now, pipes, gone, t) <==>
      Named(cfg, before, now, pipes, gone, t) ||
      (Doomed(cfg, s, now, pipes) && Disconnected(s, pipes) == gone && s.setupToken == t)
  {
    var all := before + [s];
    assert all[|before|] == s;
    assert forall j | 0 <= j < |before| :: all[j] == before[j];
  }

  lemma RoutedSnoc(cfg: Config, before: seq<Session>, s: Session, now: Time, pipes: Pipes, sub: string)
    ensures Routed(cfg, before + [s], now, pipes, sub) <==>
      Routed(cfg, before, now, pipes, sub) || (Doomed(cfg, s, now, pipes) && s.mode.Http? && s.subdomain == sub)
  {
    var all := before + [s];
    assert all[|before|] == s;
    assert forall j | 0 <= j < |before| :: all[j] == before[j];
  }

  /** The scan collects the tokens of exactly the doomed sessions, disconnection coming before expiry, and the
      routes of exactly the http ones among them. */
  lemma {:induction false} PlanMembers(cfg: Config, all: seq<Session>, now: Time, pipes: Pipes)
    ensures var p := PlanOf(cfg, all, now, pipes);
      && (forall t :: t in p.disconnected <==> Named(cfg, all, now, pipes, true, t))
      && (forall t :: t in p.expired <==> Named(cfg, all, now, pipes, false, t))
      && (forall sub :: sub in p.httpRoutes <==> Routed(cfg, all, now, pipes, sub))
  {
    if all != [] {
      var before, last := all[..|all| - 1], all[|all| - 1];
      PlanMembers(cfg, before, now, pipes);
      assert all == before + [last];
      forall t, gone {
        NamedSnoc(cfg, before, last, now, pipes, gone, t);
      }
      forall sub {
        RoutedSnoc(cfg, before, last, now, pipes, sub);
      }
    }
  }

  lemma NamedDoomed(w: World, all: seq<Session>, now: Time, pipes: Pipes, t: string)
    requires SubExact(w.store) && Enumerates(all, w.store)
    ensures t in DoomedTokens(w, now, pipes) <==>
      Named(w.cfg, all, now, pipes, true, t) || Named(w.cfg, all, now, pipes, false, t)
  {
    if t in DoomedTokens(w, now, pipes) {
      var j :| 0 <= j < |all| && all[j] == w.store.sessions[t];
      assert Named(w.cfg, all, now, pipes, Disconnected(all[j], pipes), t);
    }
  }

  lemma RoutedDoomed(w: World, all: seq<Session>, now: Time, pipes: Pipes, sub: string)
    requires SubExact(w.store) && Enumerates(all, w.store)
    ensures sub in DoomedRoutes(w, now, pipes) <==> Routed(w.cfg, all, now, pipes, sub)
  {
    if sub in DoomedRoutes(w, now, pipes) {
      var t :| t in w.store.sessions && Doomed(w.cfg, w.store.sessions[t], now, pipes)
        && w.store.sessions[t].mode.Http? && w.store.sessions[t].subdomain == sub;
      var j :| 0 <= j < |all| && all[j] == w.store.sessions[t];
    }
    if Routed(w.cfg, all, now, pipes, sub) {
      var j :| 0 <= j < |all| && Doomed(w.cfg, all[j], now, pipes) && all[j].mode.Http? && all[j].subdomain == sub;
      assert all[j].setupToken in w.store.sessions;
    }
  }

  /** Over a listing of all sessions the plan holds exactly the doomed sessions and their http routes. */
  lemma PlanComplete(w: World, all: seq<Session>, now: Time, pipes: Pipes)
    requires SubExact(w.store) && Enumerates(all, w.store)
    ensures var p := PlanOf(w.cfg, all, now, pipes);
      && Elements(p.expired) + Elements(p.disconnected) == DoomedTokens(w, now, pipes)
      && Elements(p.httpRoutes) == DoomedRoutes(w, now, pipes)
  {
    PlanMembers(w.cfg, all, now, pipes);
    forall t {
      NamedDoomed(w, all, now, pipes, t);
    }
    forall sub {
      RoutedDoomed(w, all, now, pipes, sub);
    }
    var p := PlanOf(w.cfg, all, now, pipes);
    assert forall t :: t in Elements(p.expired) + Elements(p.disconnected) <==> t in DoomedTokens(w, now, pipes);
    assert forall sub :: sub in Elements(p.httpRoutes) <==> sub in DoomedRoutes(w, now, pipes);
  }

  function Clean(w: World, now: Time, pipes: Pipes): World {
    var ts := DoomedTokens(w, now, pipes);
    World(RemoveAll(w.store, ts), w.routes - DoomedRoutes(w, now, pipes), w.users - Subs(w.store, ts), w.cfg)
  }

  /** A pass removes exactly the doomed sessions, with their route and credential; every other
      session, route and credential is as before. */
  lemma CleanExact(w: World, now: Time, pipes: Pipes)
    requires Agreement(w)
    ensures var w' := Clean(w, now, pipes);
      && (forall t :: t in w'.store.sessions <==>
            t in w.store.sessions && !Doomed(w.cfg, w.store.sessions[t], now, pipes))
      && (forall t | t in w.store.sessions ::
            var s := w.store.sessions[t];
            if Doomed(w.cfg, s, now, pipes) then
              s.subdomain !in w'.routes && s.subdomain !in w'.users && s.subdomain !in w'.store.bySub
            else
              && w'.store.sessions[t] == s
              && At(w'.routes, s.subdomain) == At(w.routes, s.subdomain)
              && At(w'.users, s.subdomain) == At(w.users, s.subdomain))
  {
  }

  function At<V>(m: map<string, V>, k: string): Option<V> {
    if k in m then Some(m[k]) else None
  }

  // ----- atomic steps and runs -----

  datatype Op =
    | ScriptOp(req: Request, draws: seq<seq<byte>>, setup: string, token: string)
    | RegisterOp(t: string, pubHex: string)
    | ChallengeOp(pubHex: string, nonce: string)
    | VerifyOp(proof: VerifyRequest)
    | CleanOp(pipes: Pipes)
    | RestartOp(order: seq<Session>, newCfg: Config)
    | ConfigOp(newCfg: Config)

  function Admit(w: World): bool {
    w.cfg.maxSessions <= 0 || |w.store.sessions| < w.cfg.maxSessions
  }

  ghost predicate Enabled(w: World, op: Op) {
    match op
    case ScriptOp(_, draws, setup, _) => |draws| >= ATTEMPTS && setup !in w.store.sessions
    case RestartOp(order, _) => Enumerates(order, w.store)
    case _ => true
  }

  function Next(ed: Verifier, w: World, now: Time, op: Op): World
    requires op.ScriptOp? ==> |op.draws| >= ATTEMPTS
  {
    match op
    case ScriptOp(req, draws, setup, token) =>
      if Admit(w) then w.(store := Create(w.store, req, draws, setup, token, now).0) else w
    case RegisterOp(t, p) => w.(store := Register(w.store, t, p).0)
    case ChallengeOp(p, nonce) => Challenge(w, p, nonce, now)
    case VerifyOp(req) => Verify(ed, w, req, now)
    case CleanOp(pipes) => Clean(w, now, pipes)
    case RestartOp(order, cfg) => World(w.store, ReloadRoutes(order), ReloadUsers(order), cfg)
    case ConfigOp(cfg) => w.(cfg := cfg)
  }

  /** A store step that leaves every activated session as it is and activates none leaves
      memory in agreement. */
  lemma QuietStep(w: World, st': Store)
    requires Agreement(w) && SubExact(st') && LabelsPlain(st')
    requires forall t | t in w.store.sessions && w.store.sessions[t].activated ::
        t in st'.sessions && st'.sessions[t] == w.store.sessions[t]
    requires forall t | t in st'.sessions && st'.sessions[t].activated ::
        t in w.store.sessions && w.store.sessions[t].activated
    ensures Agreement(w.(store := st'))
  {
    forall sub | sub in w.routes
      ensures exists t :: t in st'.sessions && LiveHttp(st'.sessions[t]) && st'.sessions[t].subdomain == sub
    {
      var t :| t in w.store.sessions && LiveHttp(w.store.sessions[t]) && w.store.sessions[t].subdomain == sub;
      assert st'.sessions[t] == w.store.sessions[t];
    }
    forall sub | sub in w.users
      ensures exists t :: t in st'.sessions && st'.sessions[t].activated && st'.sessions[t].subdomain == sub
    {
      var t :| t in w.store.sessions && w.store.sessions[t].activated && w.store.sessions[t].subdomain == sub;
      assert st'.sessions[t] == w.store.sessions[t];
    }
  }

  /** Creations, registrations, and nonces or deletions of sessions not yet activated are quiet. */
  predicate Quiet(st: Store, tx: Tx) {
    match tx
    case CreateTx(_, draws, setup, _, _) => |draws| >= ATTEMPTS && setup !in st.sessions
    case RegisterTx(_, _) => true
    case NonceTx(t, _, _) => t in st.sessions ==> !st.sessions[t].activated
    case ActivateTx(_, _) => false
    case DeleteTx(t) => t in st.sessions ==> !st.sessions[t].activated
  }

  lemma QuietTx(w: World, tx: Tx)
    requires Agreement(w) && Quiet(w.store, tx)
    ensures Agreement(w.(store := Apply(w.store, tx)))
  {
    SubExactStep(w.store, tx);
    if tx.CreateTx? {
      CreateEffect(w.store, tx.req, tx.draws, tx.setup, tx.token, tx.now);
    }
    QuietStep(w, Apply(w.store, tx));
  }

  lemma VerifyAgreement(ed: Verifier, w: World, req: VerifyRequest, now: Time)
    requires Agreement(w)
    ensures Agreement(Verify(ed, w, req, now))
  {
    match Judge(ed, w, req, now)
    case Refused(_) =>
    case Denied(t) => QuietTx(w, DeleteTx(t));
    case Activated(s) =>
      SubExactStep(w.store, ActivateTx(s.setupToken, now));
      ActivateAgreement(w, s, now);
  }

  lemma ActivateAgreement(w: World, s: Session, now: Time)
    requires Agreement(w)
    requires s.setupToken in w.store.sessions && w.store.sessions[s.setupToken] == s && !s.activated
    ensures var st' := SessionStore.Activate(w.store, s.setupToken, now).0;
      && RoutesExact(if s.mode.Http? then w.routes[s.subdomain := s.serverPort] else w.routes, st')
      && UsersExact(w.users[s.subdomain := s.token], st')
  {
    var st' := SessionStore.Activate(w.store, s.setupToken, now).0;
    var routes' := if s.mode.Http? then w.routes[s.subdomain := s.serverPort] else w.routes;
    var users' := w.users[s.subdomain := s.token];
    assert st'.sessions[s.setupToken].activated;
    forall sub | sub in routes'
      ensures exists t :: t in st'.sessions && LiveHttp(st'.sessions[t]) && st'.sessions[t].subdomain == sub
    {
      if sub in w.routes {
        var t :| t in w.store.sessions && LiveHttp(w.store.sessions[t]) && w.store.sessions[t].subdomain == sub;
        assert st'.sessions[t] == w.store.sessions[t];
      } else {
        assert LiveHttp(st'.sessions[s.setupToken]);
      }
    }
    forall sub | sub in users'
      ensures exists t :: t in st'.sessions && st'.sessions[t].activated && st'.sessions[t].subdomain == sub
    {
      if sub in w.users {
        var t :| t in w.store.sessions && w.store.sessions[t].activated && w.store.sessions[t].subdomain == sub;
        assert t == s.setupToken || st'.sessions[t] == w.store.sessions[t];
      }
    }
  }

  lemma CleanAgreement(w: World, now: Time, pipes: Pipes)
    requires Agreement(w)
    ensures Agreement(Clean(w, now, pipes))
  {
    CleanExact(w, now, pipes);
    var w' := Clean(w, now, pipes);
    forall sub | sub in w'.routes
      ensures exists t :: t in w'.store.sessions && LiveHttp(w'.store.sessions[t]) && w'.store.sessions[t].subdomain == sub
    {
      var t :| t in w.store.sessions && LiveHttp(w.store.sessions[t]) && w.store.sessions[t].subdomain == sub;
      assert t in w'.store.sessions;
    }
    forall sub | sub in w'.users
      ensures exists t :: t in w'.store.sessions && w'.store.sessions[t].activated && w'.store.sessions[t].subdomain == sub
    {
      var t :| t in w.store.sessions && w.store.sessions[t].activated && w.store.sessions[t].subdomain == sub;
      assert t in w'.store.sessions;
    }
  }

  lemma ChallengeAgreement(w: World, pubHex: string, nonce: string, now: Time)
    requires Agreement(w)
    ensures Agreement(Challenge(w, pubHex, nonce, now))
  {
    var s := GetByPubkey(w.store, pubHex);
    if pubHex != "" && s.Some? && !s.value.activated {
      QuietTx(w, NonceTx(s.value.setupToken, nonce, now));
    }
  }

  lemma AgreementStep(ed: Verifier, w: World, now: Time, op: Op)
    requires Agreement(w) && Enabled(w, op)
    ensures Agreement(Next(ed, w, now, op))
  {
    match op
    case ScriptOp(req, draws, setup, token) => QuietTx(w, CreateTx(req, draws, setup, token, now));
    case RegisterOp(t, p) => QuietTx(w, RegisterTx(t, p));
    case ChallengeOp(p, nonce) => ChallengeAgreement(w, p, nonce, now);
    case VerifyOp(req) => VerifyAgreement(ed, w, req, now);
    case CleanOp(pipes) => CleanAgreement(w, now, pipes);
    case RestartOp(order, cfg) => ReloadExact(order, w.store);
    case ConfigOp(cfg) =>
  }

  /** A timed run: states, and between them the operations with the instants they happen at. */
  ghost predicate IsRun(ed: Verifier, ws: seq<World>, ops: seq<(Time, Op)>) {
    && |ws| == |ops| + 1
    && (forall i {:trigger ops[i]} | 0 <= i < |ops| ::
          Enabled(ws[i], ops[i].1) && ws[i + 1] == Next(ed, ws[i], ops[i].0, ops[i].1))
    && (forall i, j | 0 <= i < j < |ops| :: ops[i].0 <= ops[j].0)
  }

  /** In every run of handlers, cleaner passes, restarts and configuration changes, routes and
      credentials stay exactly those of the activated sessions. */
  lemma {:induction false} AgreementRun(ed: Verifier, ws: seq<World>, ops: seq<(Time, Op)>, n: nat)
    requires IsRun(ed, ws, ops) && n < |ws| && Agreement(ws[0])
    ensures Agreement(ws[n])
  {
    if n > 0 {
      AgreementRun(ed, ws, ops, n - 1);
      AgreementStep(ed, ws[n - 1], ops[n - 1].0, ops[n - 1].1);
    }
  }

  /** A verification that is refused or denied changes neither routes nor credentials; a denied
      one deletes its own session and nothing else. */
  lemma DeniedVerifyLeavesMemory(ed: Verifier, w: World, req: VerifyRequest, now: Time)
    requires Agreement(w) && !Judge(ed, w, req, now).Activated?
    ensures var w' := Verify(ed, w, req, now);
      && w'.routes == w.routes && w'.users == w.users
      && match Judge(ed, w, req, now) {
           case Denied(t) =>
             t in w.store.sessions && !w.store.sessions[t].activated &&
             w'.store.sessions == w.store.sessions - {t} &&
             GetBySubdomain(w'.store, w.store.sessions[t].subdomain) == None
           case _ => w' == w
         }
  {
  }

  /** What a stored nonce outlives: a request that presents the current nonce of a pending session leaves it
      stored, and so usable once more, if and only if one of the checks refuses it. The nonce goes with the
      activation or with the deletion, never with the check that accepts it. */
  lemma NonceKeptIff(ed: Verifier, w: World, req: VerifyRequest, now: Time, s: Session)
    requires Agreement(w) && GetByPubkey(w.store, req.pubHex) == Some(s)
    requires !s.activated && s.nonce != "" && s.nonce == req.nonce
    ensures var st' := Verify(ed, w, req, now).store;
      (s.setupToken in st'.sessions && st'.sessions[s.setupToken].nonce == req.nonce) <==>
        || req.signature.None?
        || now - s.nonceAt > 300_000_000_000
        || Hex.Decode(req.pubHex).None?
        || |Hex.Decode(req.pubHex).value| != 32
        || !ed(Hex.Decode(req.pubHex).value, req.nonce, req.signature.value)
  {
  }

  // ----- lifetime bound -----

  /** Every finite activated session has its deadline, reckoned with the grace period of g, at or after
      the given instant. */
  ghost predicate AliveUntil(w: World, g: Config, cut: Time) {
    forall t | t in w.store.sessions && w.store.sessions[t].activated && !w.store.sessions[t].infinity ::
      cut <= Deadline(g, w.store.sessions[t])
  }

  /** Whatever happens after the instant, a change of configuration and a restart included. */
  lemma AliveUntilStep(ed: Verifier, w: World, now: Time, op: Op, g: Config, cut: Time)
    requires AliveUntil(w, g, cut) && cut <= now && Agreement(w) && Enabled(w, op)
    ensures AliveUntil(Next(ed, w, now, op), g, cut)
  {
    if op.ScriptOp? && Admit(w) {
      CreateEffect(w.store, op.req, op.draws, op.setup, op.token, now);
    }
  }

  lemma AliveAfterPass(w: World, now: Time, pipes: Pipes)
    requires Agreement(w) && w.cfg.ttl > 0
    ensures AliveUntil(Clean(w, now, pipes), w.cfg, now)
  {
    CleanExact(w, now, pipes);
    var w' := Clean(w, now, pipes);
    forall t | t in w'.store.sessions && w'.store.sessions[t].activated && !w'.store.sessions[t].infinity
      ensures now <= Deadline(w.cfg, w'.store.sessions[t])
    {
      SparedUntilDeadline(w.cfg, w.store.sessions[t], now, pipes);
    }
  }

  lemma RunStep(ed: Verifier, ws: seq<World>, ops: seq<(Time, Op)>, pass: nat, i: nat)
    requires IsRun(ed, ws, ops) && Agreement(ws[0]) && pass <= i < |ops|
    ensures Agreement(ws[i]) && Enabled(ws[i], ops[i].1) && ws[i + 1] == Next(ed, ws[i], ops[i].0, ops[i].1)
    ensures ops[pass].0 <= ops[i].0
  {
    AgreementRun(ed, ws, ops, i);
  }

  lemma AliveAt(ed: Verifier, ws: seq<World>, ops: seq<(Time, Op)>, pass: nat, i: nat)
    requires IsRun(ed, ws, ops) && Agreement(ws[0]) && pass <= i < |ops|
    requires ops[pass].1.CleanOp? && ws[pass].cfg.ttl > 0
    requires i == pass || AliveUntil(ws[i], ws[pass].cfg, ops[pass].0)
    ensures AliveUntil(ws[i + 1], ws[pass].cfg, ops[pass].0)
  {
    RunStep(ed, ws, ops, pass, i);
    if i == pass {
      AliveAfterPass(ws[i], ops[i].0, ops[i].1.pipes);
    } else {
      AliveUntilStep(ed, ws[i], ops[i].0, ops[i].1, ws[pass].cfg, ops[pass].0);
    }
  }

  /** After a pass, every finite activated session at any later point of the run has its deadline, under
      the grace period of that pass, at or after it. */
  lemma {:induction false} AliveSincePass(ed: Verifier, ws: seq<World>, ops: seq<(Time, Op)>, pass: nat, n: nat)
    requires IsRun(ed, ws, ops) && Agreement(ws[0]) && pass < n < |ws|
    requires ops[pass].1.CleanOp? && ws[pass].cfg.ttl > 0
    ensures AliveUntil(ws[n], ws[pass].cfg, ops[pass].0)
    decreases n
  {
    if n > pass + 1 {
      AliveSincePass(ed, ws, ops, pass, n - 1);
    }
    AliveAt(ed, ws, ops, pass, n - 1);
  }

  /** If some pass of the cleaner lies at most delta before an instant, no finite activated session
      is still there at that instant more than delta past its deadline, which is the later of its
      expiry and the end of its grace period as configured at that pass. The configuration may change
      and the server may restart at any point of the run. */
  lemma BoundedLifetime(ed: Verifier, ws: seq<World>, ops: seq<(Time, Op)>, pass: nat, n: nat, now: Time, delta: Time, t: string)
    requires IsRun(ed, ws, ops) && Agreement(ws[0]) && pass < n < |ws|
    requires ops[pass].1.CleanOp? && ws[pass].cfg.ttl > 0 && now - delta <= ops[pass].0
    requires t in ws[n].store.sessions && ws[n].store.sessions[t].activated && !ws[n].store.sessions[t].infinity
    ensures now <= Deadline(ws[pass].cfg, ws[n].store.sessions[t]) + delta
  {
    AliveSincePass(ed, ws, ops, pass, n);
  }

  // ----- ports -----

  predicate HasPort(st: Store, t: string, port: int) {
    t in st.sessions && st.sessions[t].serverPort == port
  }

  /** The ports of the route table are those of activated http sessions. So the server port of a stored
      session can be handed out a second time, its listeners being closed, if and only if no activated http
      session has it: sessions that are pending or raw do not keep it. */
  lemma PortReusableIff(w: World, port: int)
    requires Agreement(w)
    ensures port !in w.routes.Values <==> forall t | HasPort(w.store, t, port) ::
        var s := w.store.sessions[t]; !(s.activated && s.mode.Http?)
  {
    forall sub | sub in w.routes && w.routes[sub] == port
      ensures exists t :: HasPort(w.store, t, port) && LiveHttp(w.store.sessions[t])
    {
      var t :| t in w.store.sessions && LiveHttp(w.store.sessions[t]) && w.store.sessions[t].subdomain == sub;
      assert HasPort(w.store, t, port);
    }
  }

  lemma PortFreeOfHttp(w: World, port: int)
    requires port !in w.routes.Values
    ensures Agreement(w) ==> forall t | HasPort(w.store, t, port) ::
        var s := w.store.sessions[t]; !(s.activated && s.mode.Http?)
  {
    if Agreement(w) {
      PortReusableIff(w, port);
    }
  }

  /** Two sessions with one port: a second script request is given the port of a session that is pending. */
  lemma PortGivenTwice(ed: Verifier, w: World, now: Time, port: int, cfg: Config, draws: seq<seq<byte>>)
    returns (first: Op, second: Op)
    requires w == World(EMPTY_STORE, map[], map[], cfg) && cfg.maxSessions <= 0 && |draws| >= ATTEMPTS
    ensures Agreement(w) && Enabled(w, first)
    ensures var w1 := Next(ed, w, now, first);
      && Enabled(w1, second) && port !in w1.routes.Values
      && HasPort(w1.store, "s", port)
      && HasPort(Next(ed, w1, now, second).store, "s", port)
      && HasPort(Next(ed, w1, now, second).store, "t", port)
  {
    var req := Request(80, port, "", 0, false, 6, Http, "public", "", "abc", [], "");
    first, second := ScriptOp(req, draws, "s", "u"), ScriptOp(req.(preferred := "abd"), draws, "t", "v");
  }

  // ----- proxying -----

  function PipeSeen(polls: seq<Pipes>): int -> bool {
    (port: int) => exists i :: 0 <= i < |polls| && (port, TcpPipe) in polls[i]
  }

  /** Whenever a host resolves, the session of the resolved subdomain exists, is an activated http
      session, and listens on the resolved port: neither guard meets a missing session. */
  lemma ResolvedHasSession(w: World, host: string)
    requires Agreement(w) && Hosts.Resolve(w.routes, host).Some?
    ensures var (port, sub) := Hosts.Resolve(w.routes, host).value;
      var s := GetBySubdomain(w.store, sub);
      s.Some? && LiveHttp(s.value) && s.value.serverPort == port && s.value.subdomain == sub
  {
    var (port, sub) := Hosts.Resolve(w.routes, host).value;
    var t :| t in w.store.sessions && LiveHttp(w.store.sessions[t]) && w.store.sessions[t].subdomain == sub;
    assert w.store.bySub[sub] == t;
  }

  datatype Credentials = NoHeader | OtherScheme | BadEncoding | Basic(text: string)

  datatype Answer = RootPage | NotFound | AuthRefused | IpRefused | PipeMissing | Forward(port: int)

  /** Missing session or no password set: let through. */
  predicate BasicAuthOk(st: Store, sub: string, creds: Credentials) {
    var s := GetBySubdomain(st, sub);
    s.None? || s.value.httpAuth == "" || creds == Basic(s.value.httpAuth)
  }

  /** Missing session or empty list: let through. */
  predicate AllowedIpOk(st: Store, sub: string, admits: string -> bool) {
    var s := GetBySubdomain(st, sub);
    s.None? || s.value.allowedIPs == [] || exists cidr :: cidr in s.value.allowedIPs && admits(cidr)
  }

  function Proxy(w: World, host: string, creds: Credentials, admits: string -> bool, pipe: int -> bool): Answer {
    match Hosts.Resolve(w.routes, host)
    case None => if w.cfg.rootPage && Hosts.StripPort(host) == w.cfg.domain then RootPage else NotFound
    case Some((port, sub)) =>
      if !BasicAuthOk(w.store, sub, creds) then AuthRefused
      else if !AllowedIpOk(w.store, sub, admits) then IpRefused
      else if !pipe(port) then PipeMissing
      else Forward(port)
  }

  /** A request for a stored subdomain is forwarded to a port exactly when that subdomain's session is
      an activated http session on that port, its password (if any) is presented, its address list
      (if any) admits the client, and the tunnel is seen at one of the looks. */
  lemma ForwardIff(w: World, t: string, domain: string, port: Option<string>, creds: Credentials,
                   admits: string -> bool, polls: seq<Pipes>, p: int)
    requires Agreement(w) && t in w.store.sessions
    requires ':' !in domain && (port.Some? ==> ':' !in port.value)
    ensures var s := w.store.sessions[t];
      Proxy(w, Hosts.WithPort(s.subdomain + "." + domain, port), creds, admits, PipeSeen(polls)) == Forward(p) <==>
        && s.activated && s.mode.Http? && s.serverPort == p
        && (s.httpAuth == "" || creds == Basic(s.httpAuth))
        && (s.allowedIPs == [] || exists cidr :: cidr in s.allowedIPs && admits(cidr))
        && (exists i :: 0 <= i < |polls| && (p, TcpPipe) in polls[i])
  {
    var s := w.store.sessions[t];
    RouteOf(w, t);
    Hosts.HostRoundTrip(w.routes, s.subdomain, domain, port);
    assert GetBySubdomain(w.store, s.subdomain) == Some(s);
  }

  /** The guards of a resolved request, in order. */
  lemma GuardedAnswer(w: World, s: Session, host: string, creds: Credentials, admits: string -> bool, polls: seq<Pipes>)
    requires Hosts.Resolve(w.routes, host) == Some((s.serverPort, s.subdomain)) && GetBySubdomain(w.store, s.subdomain) == Some(s)
    ensures var a := Proxy(w, host, creds, admits, PipeSeen(polls));
      var password := s.httpAuth == "" || creds == Basic(s.httpAuth);
      var address := s.allowedIPs == [] || exists cidr :: cidr in s.allowedIPs && admits(cidr);
      var tunnel := exists i :: 0 <= i < |polls| && (s.serverPort, TcpPipe) in polls[i];
      && !a.RootPage? && !a.NotFound?
      && (a.AuthRefused? <==> !password)
      && (a.IpRefused? <==> password && !address)
      && (a.PipeMissing? <==> password && address && !tunnel)
  {
  }

  /** Every other answer, and when it is given. */
  lemma AnswerIff(w: World, t: string, domain: string, port: Option<string>, creds: Credentials,
                  admits: string -> bool, polls: seq<Pipes>)
    requires Agreement(w) && t in w.store.sessions
    requires ':' !in domain && (port.Some? ==> ':' !in port.value)
    ensures var s := w.store.sessions[t];
      var name := s.subdomain + "." + domain;
      var a := Proxy(w, Hosts.WithPort(name, port), creds, admits, PipeSeen(polls));
      var live := s.activated && s.mode.Http?;
      var password := s.httpAuth == "" || creds == Basic(s.httpAuth);
      var address := s.allowedIPs == [] || exists cidr :: cidr in s.allowedIPs && admits(cidr);
      var tunnel := exists i :: 0 <= i < |polls| && (s.serverPort, TcpPipe) in polls[i];
      && (a.RootPage? <==> !live && w.cfg.rootPage && name == w.cfg.domain)
      && (a.NotFound? <==> !live && !(w.cfg.rootPage && name == w.cfg.domain))
      && (a.AuthRefused? <==> live && !password)
      && (a.IpRefused? <==> live && password && !address)
      && (a.PipeMissing? <==> live && password && address && !tunnel)
  {
    var s := w.store.sessions[t];
    var name := s.subdomain + "." + domain;
    RouteOf(w, t);
    Hosts.HostRoundTrip(w.routes, s.subdomain, domain, port);
    if s.activated && s.mode.Http? {
      assert GetBySubdomain(w.store, s.subdomain) == Some(s);
      GuardedAnswer(w, s, Hosts.WithPort(name, port), creds, admits, polls);
    } else {
      Hosts.PlainHasNoSeparator(s.subdomain);
      Hosts.StripWithPort(name, port);
    }
  }

  /** Any other host: it is answered by the root page if that is switched on and the host is the server's own domain,
      and by not-found otherwise. */
  lemma UnroutedAnswer(w: World, name: string, port: Option<string>, creds: Credentials, admits: string -> bool, pipe: int -> bool)
    requires ':' !in name && (port.Some? ==> ':' !in port.value) && name !in w.routes
    requires forall k | k in w.routes :: !(|k| < |name| && k == name[..|k|] && name[|k|] == '.')
    ensures Proxy(w, Hosts.WithPort(name, port), creds, admits, pipe) ==
      if w.cfg.rootPage && name == w.cfg.domain then RootPage else NotFound
  {
    Hosts.StripWithPort(name, port);
    var dot := Hosts.FirstIndex(name, '.');
    assert dot != -1 ==> |name[..dot]| == dot;
  }

  /** A stored session has a route if and only if it is an activated http session. */
  lemma RouteOf(w: World, t: string)
    requires Agreement(w) && t in w.store.sessions
    ensures var s := w.store.sessions[t];
      At(w.routes, s.subdomain) == if LiveHttp(s) then Some(s.serverPort) else None
    ensures forall k | k in w.routes :: PlainLabel(k)
  {
    var s := w.store.sessions[t];
    forall k | k in w.routes
      ensures PlainLabel(k)
    {
      var u :| u in w.store.sessions && LiveHttp(w.store.sessions[u]) && w.store.sessions[u].subdomain == k;
    }
    if s.subdomain in w.routes {
      var u :| u in w.store.sessions && LiveHttp(w.store.sessions[u]) && w.store.sessions[u].subdomain == s.subdomain;
      assert u == t;
    }
  }
}
