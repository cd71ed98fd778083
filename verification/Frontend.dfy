/** The server object: request handlers, the cleaner and the restart procedure, changing the database
    and the in-memory tables in place. Each method is tied to its step in `World`. */
module Frontend {
  import opened Common
  import opened Rules
  import opened World
  import Db = SessionDb
  import Hosts
  import Ports
  import Limits = RateLimiter
  import Spec = SessionStore

  datatype ScriptResult =
    | RateLimited
    | Busy
    | Rejected
    | PortTaken
    | Failed(error: Spec.CreateError)
    | Created(s: Spec.Session)

  class Frontend {
    const db: Db.Database
    var cfg: Config
    var routes: map<string, int>
    var users: map<string, string>
    var nextPort: nat
    var tcpListeners: set<int>
    var udpListeners: set<int>
    const limiter: Limits.RateLimiter
    const regenerateLimiter: Limits.RateLimiter

    constructor (cfg: Config, db: Db.Database)
      ensures View() == World(db.State(), map[], map[], cfg) && this.db == db
      ensures nextPort == 0 && tcpListeners == udpListeners == {}
      ensures limiter != regenerateLimiter && fresh(limiter) && fresh(regenerateLimiter)
      ensures limiter.State() == Limits.Limiter(map[], cfg.requests.count, cfg.requests.window)
      ensures regenerateLimiter.State() == Limits.Limiter(map[], cfg.regenerations.count, cfg.regenerations.window)
    {
      limiter := new Limits.RateLimiter(cfg.requests.count, cfg.requests.window);
      regenerateLimiter := new Limits.RateLimiter(cfg.regenerations.count, cfg.regenerations.window);
      this.db, this.cfg := db, cfg;
      routes, users, nextPort := map[], map[], 0;
      tcpListeners, udpListeners := {}, {};
    }

    function View(): World
      reads this, db
    {
      World(db.State(), routes, users, cfg)
    }

    // ----- routes and ports -----

    method RegisterRoute(sub: string, port: int)
      modifies this`routes
      ensures routes == old(routes)[sub := port]
    {
      routes := routes[sub := port];
    }

    predicate PortInUse(port: int)
      reads this`routes, this`tcpListeners, this`udpListeners
    {
      port in routes.Values || port in tcpListeners || port in udpListeners
    }

    predicate FreePort(port: int, bindable: set<int>)
      reads this`routes, this`tcpListeners, this`udpListeners
    {
      Ports.InRange(port) && !PortInUse(port) && port in bindable
    }

    /** Ticks the wrapping counter until it hits a port that is not in use and can be bound:
        the first free candidate, found within 47296 attempts. */
    method NextServerPort(bindable: set<int>) returns (port: int, ghost attempts: nat)
      requires nextPort < Ports.WRAP
      requires exists p :: FreePort(p, bindable)
      modifies this`nextPort
      ensures 20000 <= port <= 59999 && port in bindable
      ensures port !in routes.Values && port !in tcpListeners && port !in udpListeners
      ensures 1 <= attempts <= 47296 && nextPort == (old(nextPort) + attempts) % 0x1_0000_0000
      ensures port == Ports.Candidate(old(nextPort), attempts)
      ensures forall i: nat | 1 <= i < attempts ::
          var p := Ports.Candidate(old(nextPort), i);
          p !in bindable || p in routes.Values || p in tcpListeners || p in udpListeners
      ensures Agreement(View()) ==> forall t | HasPort(db.State(), t, port) ::
          var s := db.State().sessions[t]; !(s.activated && s.mode.Http?)
    {
      ghost var p :| FreePort(p, bindable);
      ghost var hit := Ports.Covered(nextPort, p);
      attempts := 0;
      while true
        invariant attempts < hit && nextPort == Ports.Tick(old(nextPort), attempts)
        invariant forall i: nat | 1 <= i <= attempts :: !FreePort(Ports.Candidate(old(nextPort), i), bindable)
        decreases hit - attempts
      {
        Ports.TickNext(old(nextPort), attempts);
        nextPort := (nextPort + 1) % Ports.WRAP;
        attempts := attempts + 1;
        port := nextPort % Ports.RANGE + Ports.BASE;
        if PortInUse(port) {
          continue;
        }
        if port !in bindable {
          continue;
        }
        PortFreeOfHttp(View(), port);
        return;
      }
    }

    method ResolveRoute(host: string) returns (r: Option<(int, string)>)
      ensures r == Hosts.Resolve(routes, host)
    {
      var name := host;
      var colon := Hosts.LastIndex(host, ':');
      if colon != -1 {
        name := host[..colon];
      }
      if name in routes {
        return Some((routes[name], name));
      }
      var dot := Hosts.FirstIndex(name, '.');
      if dot != -1 && name[..dot] in routes {
        return Some((routes[name[..dot]], name[..dot]));
      }
      return None;
    }

    // ----- handlers -----

    /** The rate limit, admission, then the checks of the request's own parameters, which have no effect
        and are summed up in `acceptable`, then the port, then creation. One call at a time never lifts the
        number of stored sessions above the configured maximum. */
    method HandleScript(ip: string, acceptable: bool, remotePort: int, req: Spec.Request, draws: seq<seq<byte>>, setup: string,
                        token: string, now: Time, bindable: set<int>)
      returns (r: ScriptResult)
      requires |draws| >= Spec.ATTEMPTS && nextPort < Ports.WRAP
      requires remotePort <= 0 ==> exists p :: FreePort(p, bindable)
      modifies this`nextPort, db, limiter
      ensures r.RateLimited? <==> !Limits.Accepts(old(limiter.State()), ip, now)
      ensures limiter.State() == Limits.Allow(old(limiter.State()), ip, now)
      ensures r.Busy? <==> !r.RateLimited? && cfg.maxSessions > 0 && |old(db.State()).sessions| >= cfg.maxSessions
      ensures r.Rejected? <==> !r.RateLimited? && !r.Busy? && !acceptable
      ensures r.PortTaken? <==>
          && !r.RateLimited? && !r.Busy? && !r.Rejected? && remotePort > 0
          && (remotePort in routes.Values || remotePort in tcpListeners || remotePort in udpListeners)
      ensures r.RateLimited? || r.Busy? || r.Rejected? || r.PortTaken? ==> db.State() == old(db.State())
      ensures r.Failed? || r.Created? ==> exists port ::
          && (if remotePort > 0 then port == remotePort else 20000 <= port <= 59999 && port in bindable)
          && port !in routes.Values && port !in tcpListeners && port !in udpListeners
          && var (st, c) := Spec.Create(old(db.State()), req.(serverPort := port), draws, setup, token, now);
             db.State() == st && r == (match c case Ok(s) => Created(s) case Err(e) => Failed(e))
      ensures cfg.maxSessions > 0 ==> |db.State().sessions| <= Max(|old(db.State()).sessions|, cfg.maxSessions)
    {
      ghost var free: int :| remotePort <= 0 ==> FreePort(free, bindable);
      var allowed := limiter.AllowRequest(ip, now);
      if !allowed {
        return RateLimited;
      }
      if cfg.maxSessions > 0 && |db.sessions| >= cfg.maxSessions {
        return Busy;
      }
      if !acceptable {
        return Rejected;
      }
      var port := remotePort;
      if port <= 0 {
        ghost var attempts;
        assert FreePort(free, bindable);
        port, attempts := NextServerPort(bindable);
      } else if PortInUse(port) {
        return PortTaken;
      }
      var c := db.CreateSession(req.(serverPort := port), draws, setup, token, now);
      match c {
        case Ok(s) => r := Created(s);
        case Err(e) => r := Failed(e);
      }
    }

    method HandleRegister(t: string, pubHex: string) returns (ok: bool)
      modifies db
      ensures t == "" || pubHex == "" ==> !ok && db.State() == old(db.State())
      ensures t != "" && pubHex != "" ==> (db.State(), ok) == Spec.Register(old(db.State()), t, pubHex)
    {
      if t == "" || pubHex == "" {
        return false;
      }
      ok := db.RegisterPubkey(t, pubHex);
    }

    method HandleChallenge(pubHex: string, nonce: string, now: Time) returns (ok: bool)
      requires Spec.SubExact(db.State())
      modifies db
      ensures View() == Challenge(old(View()), pubHex, nonce, now)
      ensures ok <==> pubHex != "" && Spec.GetByPubkey(old(db.State()), pubHex).Some? &&
                      !Spec.GetByPubkey(old(db.State()), pubHex).value.activated
    {
      if pubHex == "" {
        return false;
      }
      var sess := db.GetByPubkey(pubHex);
      if sess == null || sess.data.activated {
        return false;
      }
      sess.SetNonce(nonce, now);
      ok := db.UpdateSessionNonce(sess.data.setupToken, sess.data.nonce, sess.data.nonceAt);
    }

    /** The checks of a verify request in order, then the credential, the route and the stored activation. */
    method HandleVerify(ed: Verifier, req: VerifyRequest, now: Time) returns (v: Verdict)
      requires Spec.SubExact(db.State())
      modifies this`routes, this`users, db
      ensures v == Judge(ed, old(View()), req, now)
      ensures View() == Verify(ed, old(View()), req, now)
    {
      var sess := db.GetByPubkey(req.pubHex);
      if sess == null {
        return Refused(UnknownPubkey);
      }
      if sess.data.activated {
        return Refused(AlreadyActivated);
      }
      var found := sess.data;
      if req.signature.None? {
        return Refused(BadSignatureEncoding);
      }
      var young := sess.ConsumeNonce(req.nonce, NONCE_TTL, now);
      if !young {
        return Refused(BadNonce);
      }
      var key := Spec.Hex.Decode(req.pubHex);
      if key.None? || |key.value| != PUBLIC_KEY_SIZE {
        return Refused(BadPubkey);
      }
      if !ed(key.value, req.nonce, req.signature.value) {
        return Refused(BadSignature);
      }
      var perms := if sess.data.role == "public" then cfg.publicPerms else cfg.authPerms;
      if (sess.data.mode.Tcp? || sess.data.mode.TcpUdp?) && !perms.rawTCP {
        db.DeleteSession(sess.data.setupToken);
        return Denied(sess.data.setupToken);
      }
      if sess.data.mode.Http? && !perms.createTunnel {
        db.DeleteSession(sess.data.setupToken);
        return Denied(sess.data.setupToken);
      }
      if sess.data.infinity && !perms.infinity {
        db.DeleteSession(sess.data.setupToken);
        return Denied(sess.data.setupToken);
      }
      users := users[sess.data.subdomain := sess.data.token];
      if sess.data.mode.Http? {
        RegisterRoute(sess.data.subdomain, sess.data.serverPort);
      }
      sess.Activate(now);
      var stored := db.ActivateSession(sess.data.setupToken, now);
      assert stored;
      v := Activated(found);
    }

    // ----- cleaner -----

    /** Sorts the sessions to remove by reason, and lists the routes of the http ones among them. */
    method Scan(all: seq<Spec.Session>, now: Time, pipes: Pipes) returns (plan: Plan)
      ensures plan == PlanOf(cfg, all, now, pipes)
    {
      var expired, disconnected, httpRoutes := [], [], [];
      for i := 0 to |all|
        invariant Plan(expired, disconnected, httpRoutes) == PlanOf(cfg, all[..i], now, pipes)
      {
        var s := all[i];
        assert all[..i + 1][..i] == all[..i];
        if !s.activated {
          continue;
        }
        if cfg.gracePeriod > 0 && s.activatedAt != 0 && now - s.activatedAt < cfg.gracePeriod {
          continue;
        }
        if Disconnected(s, pipes) {
          disconnected := disconnected + [s.setupToken];
          if s.mode.Http? {
            httpRoutes := httpRoutes + [s.subdomain];
          }
          continue;
        }
        if cfg.ttl > 0 && !s.infinity && now > s.expiresAt {
          expired := expired + [s.setupToken];
          if s.mode.Http? {
            httpRoutes := httpRoutes + [s.subdomain];
          }
        }
      }
      assert all[..|all|] == all;
      plan := Plan(expired, disconnected, httpRoutes);
    }

    /** One pass: a scan over a snapshot of all sessions, the removal of routes, and the removal of the
        expired and then of the disconnected sessions, each read again before it is removed. */
    method CleanStaleRoutesAndSessions(now: Time, pipes: Pipes)
      requires Spec.SubExact(db.State())
      modifies this`routes, this`users, this`tcpListeners, this`udpListeners, db
      ensures View() == Clean(old(View()), now, pipes)
      ensures Dropped(old(Volatile()), old(db.State()), DoomedTokens(old(View()), now, pipes), Volatile(), db.State())
    {
      var all := db.AllSessions();
      var plan := Scan(all, now, pipes);
      PlanComplete(View(), all, now, pipes);
      ApplyPlan(plan);
    }

    method ApplyPlan(plan: Plan)
      modifies this`routes, this`users, this`tcpListeners, this`udpListeners, db
      ensures routes == old(routes) - Elements(plan.httpRoutes)
      ensures Dropped(old(Volatile()), old(db.State()), Elements(plan.expired) + Elements(plan.disconnected),
                      Volatile(), db.State())
    {
      DeleteRoutes(plan.httpRoutes);
      DropSessions(plan.expired);
      ghost var v, st := Volatile(), db.State();
      DropSessions(plan.disconnected);
      DroppedTwice(old(Volatile()), old(db.State()), Elements(plan.expired), v, st, Elements(plan.disconnected),
                   Volatile(), db.State());
    }

    method DeleteRoutes(subs: seq<string>)
      modifies this`routes
      ensures routes == old(routes) - Elements(subs)
    {
      for i := 0 to |subs|
        invariant routes == old(routes) - Elements(subs[..i])
      {
        ElementsSnoc(subs, i);
        routes := routes - {subs[i]};
      }
      assert subs[..|subs|] == subs;
    }

    /** Goes through the tokens in order. */
    method DropSessions(tokens: seq<string>)
      modifies this`users, this`tcpListeners, this`udpListeners, db
      ensures Dropped(old(Volatile()), old(db.State()), Elements(tokens), Volatile(), db.State())
    {
      ghost var st := db.State();
      for i := 0 to |tokens|
        invariant Dropped(old(Volatile()), st, Elements(tokens[..i]), Volatile(), db.State())
      {
        ElementsSnoc(tokens, i);
        ghost var v, mid := Volatile(), db.State();
        DropSession(tokens[i]);
        DroppedTwice(old(Volatile()), st, Elements(tokens[..i]), v, mid, {tokens[i]}, Volatile(), db.State());
      }
      assert tokens[..|tokens|] == tokens;
    }

    /** Reads the session again; if it is still there, closes its listeners and removes its credential
        and its record. */
    method DropSession(t: string)
      modifies this`users, this`tcpListeners, this`udpListeners, db
      ensures Dropped(old(Volatile()), old(db.State()), {t}, Volatile(), db.State())
    {
      RemoveOne(db.State(), t);
      PortsOne(db.State(), t);
      if t in db.sessions {
        var s := db.sessions[t];
        if s.mode.Tcp? || s.mode.TcpUdp? {
          tcpListeners := tcpListeners - {s.serverPort};
        }
        if s.mode.TcpUdp? {
          udpListeners := udpListeners - {s.serverPort};
        }
        users := users - {s.subdomain};
        db.DeleteSession(t);
      }
    }

    function Volatile(): Memory
      reads this
    {
      Memory(users, tcpListeners, udpListeners)
    }

    // ----- restart -----

    /** Adds the routes and credentials of all activated sessions to those in memory. */
    method ReloadChiselUsers() returns (ghost order: seq<Spec.Session>)
      requires Spec.SubExact(db.State())
      modifies this`routes, this`users
      ensures Db.Enumerates(order, db.State())
      ensures routes == old(routes) + ReloadRoutes(order) && users == old(users) + ReloadUsers(order)
    {
      var all := db.AllSessions();
      AddSessions(all);
      order := all;
    }

    method AddSessions(all: seq<Spec.Session>)
      modifies this`routes, this`users
      ensures routes == old(routes) + ReloadRoutes(all) && users == old(users) + ReloadUsers(all)
    {
      for i := 0 to |all|
        invariant routes == old(routes) + ReloadRoutes(all[..i])
        invariant users == old(users) + ReloadUsers(all[..i])
      {
        var s := all[i];
        ReloadSnoc(all, i);
        if !s.activated {
          continue;
        }
        users := users[s.subdomain := s.token];
        if s.mode.Http? {
          RegisterRoute(s.subdomain, s.serverPort);
        }
      }
      assert all[..|all|] == all;
    }

    /** A configuration that cannot be loaded or is not valid changes nothing; otherwise it replaces the old
        one and both limiters take over its limits, keeping the requests they have counted. */
    method ReloadConfig(loaded: Option<Config>) returns (ok: bool)
      requires limiter != regenerateLimiter
      modifies this`cfg, limiter, regenerateLimiter
      ensures ok <==> loaded.Some?
      ensures View() == if ok then old(View()).(cfg := loaded.value) else old(View())
      ensures limiter.State() == (var l := old(limiter.State());
          if ok then Limits.Do(l, Limits.ReconfigureOp(cfg.requests.count, cfg.requests.window)) else l)
      ensures regenerateLimiter.State() == (var l := old(regenerateLimiter.State());
          if ok then Limits.Do(l, Limits.ReconfigureOp(cfg.regenerations.count, cfg.regenerations.window)) else l)
    {
      if loaded.None? {
        return false;
      }
      cfg := loaded.value;
      limiter.Reconfigure(cfg.requests.count, cfg.requests.window);
      regenerateLimiter.Reconfigure(cfg.regenerations.count, cfg.regenerations.window);
      return true;
    }

    // ----- proxying -----

    /** At most ten looks at the pipe registry, fifty milliseconds apart. */
    method WaitProxyPipe(port: int, polls: seq<Pipes>) returns (found: bool)
      requires |polls| == 10
      ensures found == PipeSeen(polls)(port)
    {
      for i := 0 to 10
        invariant forall j | 0 <= j < i :: (port, TcpPipe) !in polls[j]
      {
        if (port, TcpPipe) in polls[i] {
          return true;
        }
      }
      return false;
    }

    /** Resolve, then the password guard, then the address guard, then the pipe. */
    method ProxyTunnel(host: string, creds: Credentials, admits: string -> bool, polls: seq<Pipes>) returns (a: Answer)
      requires |polls| == 10
      ensures a == Proxy(View(), host, creds, admits, PipeSeen(polls))
    {
      var r := ResolveRoute(host);
      if r.None? {
        if cfg.rootPage && Hosts.StripPort(host) == cfg.domain {
          return RootPage;
        }
        return NotFound;
      }
      var (port, sub) := r.value;
      if !BasicAuthOk(db.State(), sub, creds) {
        return AuthRefused;
      }
      if !AllowedIpOk(db.State(), sub, admits) {
        return IpRefused;
      }
      var found := WaitProxyPipe(port, polls);
      if !found {
        return PipeMissing;
      }
      return Forward(port);
    }
  }

  /** A process that starts over an existing database ends its reload with memory in agreement. */
  method Restart(cfg: Config, db: Db.Database) returns (f: Frontend)
    requires Spec.SubExact(db.State()) && Spec.LabelsPlain(db.State())
    ensures fresh(f) && f.db == db && Agreement(f.View()) && f.View().store == old(db.State())
  {
    f := new Frontend(cfg, db);
    ghost var order := f.ReloadChiselUsers();
    assert f.routes == ReloadRoutes(order) && f.users == ReloadUsers(order);
    ReloadExact(order, db.State());
  }

  lemma ReloadSnoc(all: seq<Spec.Session>, i: nat)
    requires i < |all|
    ensures var (s, r, u) := (all[i], ReloadRoutes(all[..i]), ReloadUsers(all[..i]));
      && ReloadRoutes(all[..i + 1]) == (if LiveHttp(s) then r[s.subdomain := s.serverPort] else r)
      && ReloadUsers(all[..i + 1]) == (if s.activated then u[s.subdomain := s.token] else u)
  {
    assert all[..i + 1][..i] == all[..i];
  }

  /** What the removal of sessions touches besides the store. */
  datatype Memory = Memory(users: map<string, string>, tcp: set<int>, udp: set<int>)

  /** The sessions named by ts are gone from st, with their credentials and listeners. */
  predicate Dropped(v: Memory, st: Spec.Store, ts: set<string>, v': Memory, st': Spec.Store) {
    && st' == RemoveAll(st, ts)
    && v' == Memory(v.users - Subs(st, ts), v.tcp - TcpPorts(st, ts), v.udp - UdpPorts(st, ts))
  }

  /** Of the listeners a removal closes exactly those of removed sessions: a TCP port for modes tcp and tcp/udp, a UDP
      port for mode tcp/udp. */
  lemma DroppedListeners(v: Memory, st: Spec.Store, ts: set<string>, v': Memory, st': Spec.Store, port: int)
    requires Dropped(v, st, ts, v', st')
    ensures port in v'.tcp <==> port in v.tcp && !exists t ::
        t in st.sessions && t !in st'.sessions && (st.sessions[t].mode.Tcp? || st.sessions[t].mode.TcpUdp?) &&
        st.sessions[t].serverPort == port
    ensures port in v'.udp <==> port in v.udp && !exists t ::
        t in st.sessions && t !in st'.sessions && st.sessions[t].mode.TcpUdp? && st.sessions[t].serverPort == port
  {
  }

  lemma DroppedTwice(v: Memory, st: Spec.Store, a: set<string>, v1: Memory, st1: Spec.Store,
                     b: set<string>, v2: Memory, st2: Spec.Store)
    requires Dropped(v, st, a, v1, st1) && Dropped(v1, st1, b, v2, st2)
    ensures Dropped(v, st, a + b, v2, st2)
  {
    RemoveTwice(st, a, b);
    PortsTwice(st, a, b);
    assert v2.users == v.users - (Subs(st, a) + Subs(st1, b));
    assert v2.tcp == v.tcp - (TcpPorts(st, a) + TcpPorts(st1, b));
    assert v2.udp == v.udp - (UdpPorts(st, a) + UdpPorts(st1, b));
  }
}
