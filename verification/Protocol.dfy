/** The server at the granularity of database transactions. Handlers and cleaner passes are threads
    that work on private session copies between transactions, so their steps interleave freely;
    a crash may strike between any two steps. */
module Protocol {
  import opened Common
  import opened Rules
  import Spec = SessionStore
  import World
  import Db = SessionDb

  type Session = Spec.Session

  /** Where a request handler or a cleaner pass stands between two atomic steps. */
  datatype Thread =
    | Admitted                                               // passed the session limit, not created yet
    | ChallengeFound(t: string)                              // saw a session that is not activated
    | ChallengeReady(t: string, nonce: string, at: Time)     // nonce set in the private copy
    | VerifyFound(proof: VerifyRequest, s: Session)          // private copy, not activated when read
    | VerifyChecked(s: Session)                              // nonce and signature accepted
    | VerifyDenied(s: Session)
    | VerifyPermitted(s: Session)
    | VerifyUserAdded(s: Session)
    | VerifyRouted(s: Session)
    | CleanScanning(all: seq<Session>, i: nat, rules: Config, since: Time, plan: Plan)  // sessions before i looked at
    | CleanLooping(tokens: seq<string>)
    | CleanFound(sub: string, tokens: seq<string>)           // first token read again and found
    | CleanUserGone(tokens: seq<string>)                     // credential removed, record not yet

  datatype State = State(
    hist: Spec.Hist, threads: map<nat, Thread>, routes: map<string, int>, users: map<string, string>,
    cfg: Config, clock: Time, pipes: Pipes)

  datatype Action =
    | Tick(to: Time)
    | SetPipes(newPipes: Pipes)
    | SetConfig(newCfg: Config)
    | Crash(order: seq<Session>, newCfg: Config)
    | Register(t: string, pubHex: string)
    | ScriptCheck(h: nat)
    | ScriptCreate(h: nat, req: Spec.Request, draws: seq<seq<byte>>, setup: string, token: string)
    | ScriptQuit(h: nat)
    | ChallengeLookup(h: nat, pubHex: string)
    | ChallengeDraw(h: nat, nonce: string)
    | ChallengeWrite(h: nat)
    | VerifyLookup(h: nat, proof: VerifyRequest)
    | VerifyCheck(h: nat)
    | VerifyDecide(h: nat)
    | VerifyDeny(h: nat)
    | VerifyAddUser(h: nat)
    | VerifyAddRoute(h: nat)
    | VerifyActivate(h: nat)
    | CleanBegin(h: nat, all: seq<Session>)
    | CleanLook(h: nat, later: Pipes)
    | CleanRoutes(h: nat)
    | CleanRead(h: nat)
    | CleanUser(h: nat)
    | CleanDelete(h: nat)

  function WorldOf(s: State): World.World {
    World.World(s.hist.store, s.routes, s.users, s.cfg)
  }

  function Ended(s: State, h: nat): State {
    s.(threads := s.threads - {h})
  }

  function At(s: State, h: nat, th: Thread): State {
    s.(threads := s.threads[h := th])
  }

  function WithTx(s: State, tx: Spec.Tx): State
    requires Spec.Fresh(s.hist, tx)
  {
    s.(hist := Spec.Next(s.hist, tx))
  }

  /** What a look at one session sees of the tunnels: its TCP tunnel now, its UDP tunnel a moment later, when
      the tunnels may have changed. */
  function Seen(now: Pipes, later: Pipes): Pipes {
    (set p | p in now && p.1.TcpPipe?) + (set p | p in later && p.1.UdpPipe?)
  }

  /** Steps that start a thread or belong to none. */
  ghost function Begin(s: State, a: Action): Option<State> {
    match a
    case Tick(to) => if to < s.clock then None else Some(s.(clock := to))
    case SetPipes(pipes) => Some(s.(pipes := pipes))
    case SetConfig(cfg) => Some(s.(cfg := cfg))
    case Crash(order, cfg) =>
      if !Db.Enumerates(order, s.hist.store) then None
      else Some(s.(threads := map[], routes := World.ReloadRoutes(order), users := World.ReloadUsers(order), cfg := cfg))
    case Register(t, p) => Some(WithTx(s, Spec.RegisterTx(t, p)))
    case ScriptCheck(h) =>
      if h in s.threads || !World.Admit(WorldOf(s)) then None else Some(At(s, h, Admitted))
    case ChallengeLookup(h, p) =>
      var found := Spec.GetByPubkey(s.hist.store, p);
      if h in s.threads || p == "" || found.None? || found.value.activated then None
      else Some(At(s, h, ChallengeFound(found.value.setupToken)))
    case VerifyLookup(h, proof) =>
      var found := Spec.GetByPubkey(s.hist.store, proof.pubHex);
      if h in s.threads || found.None? || found.value.activated then None
      else Some(At(s, h, VerifyFound(proof, found.value)))
    case CleanBegin(h, all) =>
      if h in s.threads || !Db.Enumerates(all, s.hist.store) then None
      else Some(At(s, h, CleanScanning(all, 0, s.cfg, s.clock, EMPTY_PLAN)))
    case _ => None
  }

  /** Steps of a running thread. */
  function Continue(ed: Verifier, s: State, a: Action, h: nat, th: Thread): Option<State> {
    match (a, th)
    case (ScriptCreate(_, req, draws, setup, token), Admitted) =>
      var tx := Spec.CreateTx(req, draws, setup, token, s.clock);
      if Spec.Fresh(s.hist, tx) then Some(Ended(WithTx(s, tx), h)) else None
    case (ScriptQuit(_), Admitted) => Some(Ended(s, h))
    case (ChallengeDraw(_, nonce), ChallengeFound(t)) => Some(At(s, h, ChallengeReady(t, nonce, s.clock)))
    case (ChallengeWrite(_), ChallengeReady(t, nonce, at)) => Some(Ended(WithTx(s, Spec.NonceTx(t, nonce, at)), h))
    case (VerifyCheck(_), VerifyFound(proof, c)) =>
      if CheckRequest(ed, c, proof, s.clock).Ok? then Some(At(s, h, VerifyChecked(c))) else Some(Ended(s, h))
    case (VerifyDecide(_), VerifyChecked(c)) =>
      Some(At(s, h, if Permitted(s.cfg, c) then VerifyPermitted(c) else VerifyDenied(c)))
    case (VerifyDeny(_), VerifyDenied(c)) => Some(Ended(WithTx(s, Spec.DeleteTx(c.setupToken)), h))
    case (VerifyAddUser(_), VerifyPermitted(c)) =>
      Some(At(s, h, VerifyUserAdded(c)).(users := s.users[c.subdomain := c.token]))
    case (VerifyAddRoute(_), VerifyUserAdded(c)) =>
      Some(At(s, h, VerifyRouted(c)).(routes := if c.mode.Http? then s.routes[c.subdomain := c.serverPort] else s.routes))
    case (VerifyActivate(_), VerifyRouted(c)) => Some(Ended(WithTx(s, Spec.ActivateTx(c.setupToken, s.clock)), h))
    case (CleanLook(_, later), CleanScanning(all, i, rules, since, plan)) =>
      if i >= |all| then None
      else
        var plan' := Look(rules, plan, all[i], since, Seen(s.pipes, later));
        Some(At(s, h, CleanScanning(all, i + 1, rules, since, plan')).(pipes := later))
    case (CleanRoutes(_), CleanScanning(all, i, rules, since, plan)) =>
      if i < |all| then None
      else Some(At(s, h, CleanLooping(plan.expired + plan.disconnected)).(routes := s.routes - Elements(plan.httpRoutes)))
    case (CleanRead(_), CleanLooping(tokens)) =>
      if tokens == [] then Some(Ended(s, h))
      else
        var found := Spec.Get(s.hist.store, tokens[0]);
        Some(At(s, h, if found.Some? then CleanFound(found.value.subdomain, tokens) else CleanLooping(tokens[1..])))
    case (CleanUser(_), CleanFound(sub, tokens)) => Some(At(s, h, CleanUserGone(tokens)).(users := s.users - {sub}))
    case (CleanDelete(_), CleanUserGone(tokens)) =>
      if tokens == [] then None
      else Some(At(WithTx(s, Spec.DeleteTx(tokens[0])), h, CleanLooping(tokens[1..])))
    case _ => None
  }

  predicate IsBegin(a: Action) {
    a.Tick? || a.SetPipes? || a.SetConfig? || a.Crash? || a.Register? || a.ScriptCheck? || a.ChallengeLookup?
    || a.VerifyLookup? || a.CleanBegin?
  }

  ghost function Next(ed: Verifier, s: State, a: Action): Option<State> {
    if IsBegin(a) then Begin(s, a)
    else if a.h in s.threads then Continue(ed, s, a, a.h, s.threads[a.h])
    else None
  }

  datatype Run = Run(states: seq<State>, actions: seq<Action>)

  ghost predicate Steps(ed: Verifier, r: Run) {
    && |r.states| == |r.actions| + 1
    && (forall i {:trigger r.actions[i]} | 0 <= i < |r.actions| :: Next(ed, r.states[i], r.actions[i]) == Some(r.states[i + 1]))
  }

  /** A run of the server from an empty database. */
  ghost predicate IsRun(ed: Verifier, r: Run) {
    && Steps(ed, r)
    && r.states[0].hist == Spec.EMPTY_HIST && r.states[0].threads == map[]
    && r.states[0].routes == map[] && r.states[0].users == map[]
  }

  // ----- the store under interleaving -----

  /** The transaction a step runs, if any. */
  function TxOf(s: State, a: Action): Option<Spec.Tx> {
    if a.Register? then Some(Spec.RegisterTx(a.t, a.pubHex))
    else if IsBegin(a) || a.h !in s.threads then None
    else
      match (a, s.threads[a.h])
      case (ScriptCreate(_, req, draws, setup, token), Admitted) => Some(Spec.CreateTx(req, draws, setup, token, s.clock))
      case (ChallengeWrite(_), ChallengeReady(t, nonce, at)) => Some(Spec.NonceTx(t, nonce, at))
      case (VerifyDeny(_), VerifyDenied(c)) => Some(Spec.DeleteTx(c.setupToken))
      case (VerifyActivate(_), VerifyRouted(c)) => Some(Spec.ActivateTx(c.setupToken, s.clock))
      case (CleanDelete(_), CleanUserGone(tokens)) => if tokens == [] then None else Some(Spec.DeleteTx(tokens[0]))
      case _ => None
  }

  /** The store changes by the step's transaction and by nothing else. */
  lemma StepTx(ed: Verifier, s: State, a: Action)
    requires Next(ed, s, a).Some?
    ensures match TxOf(s, a)
            case None => Next(ed, s, a).value.hist == s.hist
            case Some(tx) => Spec.Fresh(s.hist, tx) && Next(ed, s, a).value.hist == Spec.Next(s.hist, tx)
  {
  }

  lemma HistStep(ed: Verifier, s: State, a: Action)
    requires Next(ed, s, a).Some? && Spec.Inv(s.hist)
    ensures Spec.Inv(Next(ed, s, a).value.hist) && Spec.Evolves(s.hist, Next(ed, s, a).value.hist)
  {
    StepTx(ed, s, a);
    var tx := TxOf(s, a);
    if tx.Some? {
      Spec.InvStep(s.hist, tx.value);
      Spec.EvolvesStep(s.hist, tx.value);
    }
  }

  lemma EmptyInv()
    ensures Spec.Inv(Spec.EMPTY_HIST)
  {
  }

  lemma HistNext(ed: Verifier, r: Run, n: nat)
    requires Steps(ed, r) && n < |r.actions| && Spec.Inv(r.states[n].hist)
    ensures Spec.Inv(r.states[n + 1].hist)
  {
    assert Next(ed, r.states[n], r.actions[n]) == Some(r.states[n + 1]);
    HistStep(ed, r.states[n], r.actions[n]);
  }

  lemma {:induction false} HistRun(ed: Verifier, r: Run, n: nat)
    requires IsRun(ed, r) && n < |r.states|
    ensures Spec.Inv(r.states[n].hist)
  {
    if n == 0 {
      EmptyInv();
    } else {
      HistRun(ed, r, n - 1);
      HistNext(ed, r, n - 1);
    }
  }

  /** Whatever sub-steps of handlers or of the cleaner a crash interrupts, the restart leaves the
      store as it was and rebuilds exactly the routes and credentials that the store determines. */
  lemma CrashRecovers(ed: Verifier, r: Run, n: nat)
    requires IsRun(ed, r) && n < |r.actions| && r.actions[n].Crash?
    ensures r.states[n + 1].hist == r.states[n].hist && r.states[n + 1].threads == map[]
    ensures World.Agreement(WorldOf(r.states[n + 1]))
  {
    HistRun(ed, r, n);
    assert Next(ed, r.states[n], r.actions[n]) == Some(r.states[n + 1]);
    World.ReloadExact(r.actions[n].order, r.states[n].hist.store);
  }

  // ----- where threads, nonces, activations and deletions come from -----

  predicate Verifying(th: Thread) {
    th.ChallengeReady? || th.VerifyFound? || th.VerifyChecked? || th.VerifyDenied? || th.VerifyPermitted?
    || th.VerifyUserAdded? || th.VerifyRouted?
  }

  predicate Cleaning(th: Thread) {
    th.CleanScanning? || th.CleanLooping? || th.CleanFound? || th.CleanUserGone?
  }

  predicate Unmoved(s: State, s': State, h: nat) {
    h in s.threads && h in s'.threads && s'.threads[h] == s.threads[h]
  }

  /** How a verification gets to where th stands, by step a from state s. */
  predicate VerifyMove(ed: Verifier, s: State, a: Action, h: nat, th: Thread) {
    match th
    case ChallengeReady(_, nonce, at) => a == ChallengeDraw(h, nonce) && at == s.clock
    case VerifyFound(proof, c) =>
      a == VerifyLookup(h, proof) && Spec.GetByPubkey(s.hist.store, proof.pubHex) == Some(c) && !c.activated
    case VerifyChecked(c) =>
      a == VerifyCheck(h) && h in s.threads && s.threads[h].VerifyFound? && s.threads[h].s == c &&
      CheckRequest(ed, c, s.threads[h].proof, s.clock).Ok?
    case VerifyDenied(c) =>
      a == VerifyDecide(h) && h in s.threads && s.threads[h] == VerifyChecked(c) && !Permitted(s.cfg, c)
    case VerifyPermitted(c) =>
      a == VerifyDecide(h) && h in s.threads && s.threads[h] == VerifyChecked(c) && Permitted(s.cfg, c)
    case VerifyUserAdded(c) => h in s.threads && s.threads[h] == VerifyPermitted(c)
    case VerifyRouted(c) => h in s.threads && s.threads[h] == VerifyUserAdded(c)
    case _ => true
  }

  lemma VerifyOrigin(ed: Verifier, s: State, a: Action, h: nat)
    requires Next(ed, s, a).Some? && h in Next(ed, s, a).value.threads && Verifying(Next(ed, s, a).value.threads[h])
    requires !Unmoved(s, Next(ed, s, a).value, h)
    ensures VerifyMove(ed, s, a, h, Next(ed, s, a).value.threads[h])
  {
    if !IsBegin(a) {
      ContinuedVerify(ed, s, a, h);
    }
  }

  lemma ContinuedVerify(ed: Verifier, s: State, a: Action, h: nat)
    requires !IsBegin(a) && a.h in s.threads && Continue(ed, s, a, a.h, s.threads[a.h]).Some?
    requires h in Continue(ed, s, a, a.h, s.threads[a.h]).value.threads
    requires Verifying(Continue(ed, s, a, a.h, s.threads[a.h]).value.threads[h])
    requires !Unmoved(s, Continue(ed, s, a, a.h, s.threads[a.h]).value, h)
    ensures VerifyMove(ed, s, a, h, Continue(ed, s, a, a.h, s.threads[a.h]).value.threads[h])
  {
    assert a.h == h;
  }

  /** How a cleaner pass gets to where th stands. */
  ghost predicate CleanMove(s: State, a: Action, h: nat, th: Thread) {
    match th
    case CleanScanning(all, i, rules, since, plan) =>
      || (a == CleanBegin(h, all) && rules == s.cfg && since == s.clock && plan == EMPTY_PLAN && Db.Enumerates(all, s.hist.store))
      || (a.CleanLook? && a.h == h && h in s.threads && LookFrom(s.threads[h], th, Seen(s.pipes, a.later)))
    case CleanLooping(tokens) =>
      h in s.threads &&
      if s.threads[h].CleanScanning? then tokens == s.threads[h].plan.expired + s.threads[h].plan.disconnected
      else
        (s.threads[h].CleanLooping? || s.threads[h].CleanUserGone?) &&
        |s.threads[h].tokens| > 0 && tokens == s.threads[h].tokens[1..]
    case CleanFound(_, tokens) => h in s.threads && s.threads[h] == CleanLooping(tokens)
    case CleanUserGone(tokens) => h in s.threads && s.threads[h].CleanFound? && s.threads[h].tokens == tokens
    case _ => true
  }

  lemma CleanOrigin(ed: Verifier, s: State, a: Action, h: nat)
    requires Next(ed, s, a).Some? && h in Next(ed, s, a).value.threads && Cleaning(Next(ed, s, a).value.threads[h])
    requires !Unmoved(s, Next(ed, s, a).value, h)
    ensures CleanMove(s, a, h, Next(ed, s, a).value.threads[h])
  {
    if IsBegin(a) {
    } else {
      ContinuedClean(ed, s, a, h);
    }
  }

  lemma ContinuedClean(ed: Verifier, s: State, a: Action, h: nat)
    requires !IsBegin(a) && Next(ed, s, a).Some? && h in Next(ed, s, a).value.threads
    requires Cleaning(Next(ed, s, a).value.threads[h]) && !Unmoved(s, Next(ed, s, a).value, h)
    ensures CleanMove(s, a, h, Next(ed, s, a).value.threads[h])
  {
    assert a.h == h;
  }

  /** The same of a step of a run. */
  lemma MoveAt(ed: Verifier, r: Run, n: nat, h: nat)
    requires Steps(ed, r) && n < |r.actions| && h in r.states[n + 1].threads && !Unmoved(r.states[n], r.states[n + 1], h)
    ensures var th := r.states[n + 1].threads[h];
      && (Verifying(th) ==> VerifyMove(ed, r.states[n], r.actions[n], h, th))
      && (Cleaning(th) ==> CleanMove(r.states[n], r.actions[n], h, th))
  {
    assert Next(ed, r.states[n], r.actions[n]) == Some(r.states[n + 1]);
    if Verifying(r.states[n + 1].threads[h]) {
      VerifyOrigin(ed, r.states[n], r.actions[n], h);
    } else if Cleaning(r.states[n + 1].threads[h]) {
      CleanOrigin(ed, r.states[n], r.actions[n], h);
    }
  }

  predicate LookFrom(th: Thread, th': Thread, seen: Pipes) {
    && th.CleanScanning? && th'.CleanScanning? && th.i < |th.all|
    && th'.all == th.all && th'.rules == th.rules && th'.since == th.since
    && th'.plan == Look(th.rules, th.plan, th.all[th.i], th.since, seen)
  }

  lemma TxNonce(h: Spec.Hist, tx: Spec.Tx, t: string)
    requires Spec.Fresh(h, tx) && Spec.Inv(h) && t in Spec.Apply(h.store, tx).sessions
    requires Spec.Apply(h.store, tx).sessions[t].nonce != ""
    ensures var c := Spec.Apply(h.store, tx).sessions[t];
      t in h.store.sessions &&
      ((h.store.sessions[t].nonce == c.nonce && h.store.sessions[t].nonceAt == c.nonceAt)
       || tx == Spec.NonceTx(t, c.nonce, c.nonceAt))
  {
    if tx.CreateTx? {
      Spec.CreateEffect(h.store, tx.req, tx.draws, tx.setup, tx.token, tx.now);
    }
  }

  lemma TxActivated(h: Spec.Hist, tx: Spec.Tx, t: string)
    requires Spec.Fresh(h, tx) && Spec.Inv(h) && t in Spec.Apply(h.store, tx).sessions
    requires Spec.Apply(h.store, tx).sessions[t].activated
    ensures t in h.store.sessions && (h.store.sessions[t].activated || (tx.ActivateTx? && tx.t == t))
  {
    if tx.CreateTx? {
      Spec.CreateEffect(h.store, tx.req, tx.draws, tx.setup, tx.token, tx.now);
    }
  }

  lemma NonceOrigin(ed: Verifier, s: State, a: Action, t: string)
    requires Next(ed, s, a).Some? && Spec.Inv(s.hist)
    requires t in Next(ed, s, a).value.hist.store.sessions
    requires Next(ed, s, a).value.hist.store.sessions[t].nonce != ""
    ensures var c := Next(ed, s, a).value.hist.store.sessions[t];
      t in s.hist.store.sessions &&
      ((s.hist.store.sessions[t].nonce == c.nonce && s.hist.store.sessions[t].nonceAt == c.nonceAt)
       || (a.ChallengeWrite? && a.h in s.threads && s.threads[a.h] == ChallengeReady(t, c.nonce, c.nonceAt)))
  {
    StepTx(ed, s, a);
    var tx := TxOf(s, a);
    if tx.Some? {
      TxNonce(s.hist, tx.value, t);
    }
  }

  lemma ActivationOrigin(ed: Verifier, s: State, a: Action, t: string)
    requires Next(ed, s, a).Some? && Spec.Inv(s.hist)
    requires t in Next(ed, s, a).value.hist.store.sessions && Next(ed, s, a).value.hist.store.sessions[t].activated
    ensures t in s.hist.store.sessions
    ensures s.hist.store.sessions[t].activated ||
      (a.VerifyActivate? && a.h in s.threads && s.threads[a.h].VerifyRouted? && s.threads[a.h].s.setupToken == t)
  {
    StepTx(ed, s, a);
    var tx := TxOf(s, a);
    if tx.Some? {
      TxActivated(s.hist, tx.value, t);
    }
  }

  lemma DeletionOrigin(ed: Verifier, s: State, a: Action, t: string)
    requires Next(ed, s, a).Some? && t in s.hist.store.sessions && t !in Next(ed, s, a).value.hist.store.sessions
    ensures !IsBegin(a) && a.h in s.threads
    ensures var th := s.threads[a.h];
      || (th.VerifyDenied? && th.s.setupToken == t)
      || (th.CleanUserGone? && |th.tokens| > 0 && th.tokens[0] == t)
  {
    StepTx(ed, s, a);
  }

  // ----- events of a run -----

  /** Step d drew this nonce for handler h, at this instant. */
  ghost predicate Drawn(r: Run, d: nat, h: nat, nonce: string, at: Time) {
    d < |r.actions| < |r.states| && r.actions[d] == ChallengeDraw(h, nonce) && r.states[d].clock == at
  }

  /** Step c stored this nonce for session t; its handler had drawn it at this instant. */
  ghost predicate NonceStored(r: Run, c: nat, t: string, nonce: string, at: Time) {
    && c < |r.actions| < |r.states| && r.actions[c].ChallengeWrite? && r.actions[c].h in r.states[c].threads
    && r.states[c].threads[r.actions[c].h] == ChallengeReady(t, nonce, at)
    && t in r.states[c].hist.store.sessions
    && exists d: nat :: d < c && Drawn(r, d, r.actions[c].h, nonce, at)
  }

  /** At step l handler h read its copy s, not activated, under the key that the request names. */
  ghost predicate LookedUp(r: Run, l: nat, h: nat, s: Session, proof: VerifyRequest) {
    && l < |r.actions| < |r.states| && r.actions[l] == VerifyLookup(h, proof)
    && Spec.GetByPubkey(r.states[l].hist.store, proof.pubHex) == Some(s) && !s.activated
  }

  /** At step k handler h, holding the request and the copy s it had looked up for it, accepted nonce and
      signature; the nonce had been stored for that session earlier. */
  ghost predicate CheckPassed(ed: Verifier, r: Run, k: nat, h: nat, s: Session, proof: VerifyRequest) {
    && k < |r.actions| < |r.states| && r.actions[k] == VerifyCheck(h) && h in r.states[k].threads
    && r.states[k].threads[h] == VerifyFound(proof, s)
    && CheckRequest(ed, s, proof, r.states[k].clock).Ok?
    && Spec.Hex.Decode(proof.pubHex) == Some(s.pubKey)
    && (exists l: nat :: l < k && LookedUp(r, l, h, s, proof))
    && exists c: nat :: c < k && NonceStored(r, c, s.setupToken, s.nonce, s.nonceAt)
  }

  /** The copy that a handler past its check works on. */
  function CopyOf(th: Thread): Option<Session> {
    match th
    case VerifyChecked(s) => Some(s)
    case VerifyDenied(s) => Some(s)
    case VerifyPermitted(s) => Some(s)
    case VerifyUserAdded(s) => Some(s)
    case VerifyRouted(s) => Some(s)
    case _ => None
  }

  /** From just after step i up to state j, handler h keeps running with its copy s. */
  ghost predicate Carried(r: Run, h: nat, s: Session, i: nat, j: nat) {
    i < j < |r.states| && forall x | i < x <= j :: h in r.states[x].threads && CopyOf(r.states[x].threads[h]) == Some(s)
  }

  /** The handler that stands at state n with the copy s passed its check at step k. */
  ghost predicate CheckedBy(ed: Verifier, r: Run, k: nat, h: nat, s: Session, proof: VerifyRequest, n: nat) {
    CheckPassed(ed, r, k, h, s, proof) && Carried(r, h, s, k, n)
  }

  ghost predicate Proved(ed: Verifier, r: Run, h: nat, s: Session, n: nat) {
    exists k: nat, proof :: CheckedBy(ed, r, k, h, s, proof, n)
  }

  /** At step g handler h, having passed its check, consulted the configuration for its copy s. */
  ghost predicate Decided(ed: Verifier, r: Run, g: nat, h: nat, s: Session) {
    && g < |r.actions| < |r.states| && r.actions[g] == VerifyDecide(h) && h in r.states[g].threads
    && r.states[g].threads[h] == VerifyChecked(s)
    && Proved(ed, r, h, s, g)
  }

  ghost predicate Granted(ed: Verifier, r: Run, g: nat, h: nat, s: Session) {
    Decided(ed, r, g, h, s) && Permitted(r.states[g].cfg, s)
  }

  /** The handler that stands at state n with the copy s was granted its session at step g. */
  ghost predicate GrantedBy(ed: Verifier, r: Run, g: nat, h: nat, s: Session, n: nat) {
    Granted(ed, r, g, h, s) && Carried(r, h, s, g, n)
  }

  ghost predicate Backed(ed: Verifier, r: Run, h: nat, s: Session, n: nat) {
    exists g: nat :: GrantedBy(ed, r, g, h, s, n)
  }

  /** Step m is handler h activating the session of its copy s. */
  ghost predicate Activates(r: Run, m: nat, h: nat, s: Session) {
    && m < |r.actions| < |r.states| && r.actions[m] == VerifyActivate(h)
    && h in r.states[m].threads && r.states[m].threads[h] == VerifyRouted(s)
  }

  /** Step m activated the session that is now cur, on the strength of a copy from which it has grown. */
  ghost predicate ActivatedAt(ed: Verifier, r: Run, m: nat, h: nat, s: Session, cur: Session) {
    && Activates(r, m, h, s)
    && s.setupToken == cur.setupToken && Spec.Grew(s, cur) && |s.pubKey| > 0
    && Backed(ed, r, h, s, m)
  }

  /** At step b handler h began a scan over all sessions. */
  ghost predicate ScanBegan(r: Run, b: nat, h: nat, th: Thread) {
    && b < |r.actions| < |r.states| && th.CleanScanning? && r.actions[b] == CleanBegin(h, th.all)
    && th.rules == r.states[b].cfg && th.since == r.states[b].clock && Db.Enumerates(th.all, r.states[b].hist.store)
  }

  /** At step j a cleaner pass, begun at an earlier step b, found session t to be removed: activated and out of its
      grace period, and without its tunnels or past its time; by the session, the configuration and the time as
      they were at b, and by the tunnels it saw at j. */
  ghost predicate DoomedAt(r: Run, b: nat, j: nat, t: string) {
    && b < j < |r.actions| < |r.states| && r.actions[j].CleanLook? && r.actions[j].h in r.states[j].threads
    && r.actions[b].CleanBegin? && r.actions[b].h == r.actions[j].h
    && t in r.states[b].hist.store.sessions
    && var (s, cfg, now) := (r.states[b].hist.store.sessions[t], r.states[b].cfg, r.states[b].clock);
    var (tcp, udp) := ((s.serverPort, TcpPipe) in r.states[j].pipes, (s.serverPort, UdpPipe) in r.actions[j].later);
    && s.activated
    && !(cfg.gracePeriod > 0 && s.activatedAt != 0 && now - s.activatedAt < cfg.gracePeriod)
    && (|| ((s.mode.Http? || s.mode.Tcp?) && !tcp)
        || (s.mode.TcpUdp? && !tcp && !udp)
        || (cfg.ttl > 0 && !s.infinity && now > s.expiresAt))
  }

  // ----- the invariant over a run -----

  /** A private copy is an earlier form of the session still stored under its token, if one is. */
  ghost predicate Kin(h: Spec.Hist, s: Session) {
    && s.setupToken in h.issued && |s.pubKey| > 0
    && (s.setupToken in h.store.sessions ==> Spec.Grew(s, h.store.sessions[s.setupToken]))
  }

  ghost predicate DoomedBefore(r: Run, n: nat, t: string) {
    exists b: nat, j: nat :: j < n && DoomedAt(r, b, j, t)
  }

  ghost predicate AllDoomed(r: Run, n: nat, tokens: seq<string>) {
    forall t | t in tokens :: DoomedBefore(r, n, t)
  }

  /** The copies of a verification are earlier forms of the stored session. */
  ghost predicate KinOk(hist: Spec.Hist, th: Thread) {
    (th.VerifyFound? ==> Kin(hist, th.s)) && (CopyOf(th).Some? ==> Kin(hist, CopyOf(th).value))
  }

  /** What holds of a challenge or a verification at state n. */
  ghost predicate VerifyOk(ed: Verifier, r: Run, n: nat, h: nat, th: Thread) {
    match th
    case ChallengeReady(_, nonce, at) => exists d: nat :: d < n && Drawn(r, d, h, nonce, at)
    case VerifyFound(proof, s) =>
      && Spec.Hex.Decode(proof.pubHex) == Some(s.pubKey)
      && (exists l: nat :: l < n && LookedUp(r, l, h, s, proof))
      && (s.nonce != "" ==> exists c: nat :: c < n && NonceStored(r, c, s.setupToken, s.nonce, s.nonceAt))
    case VerifyChecked(s) => Proved(ed, r, h, s, n)
    case VerifyDenied(s) => exists g: nat :: g < n && Decided(ed, r, g, h, s) && !Permitted(r.states[g].cfg, s)
    case VerifyPermitted(s) => Backed(ed, r, h, s, n)
    case VerifyUserAdded(s) => Backed(ed, r, h, s, n)
    case VerifyRouted(s) => Backed(ed, r, h, s, n)
    case _ => true
  }

  /** What holds of a cleaner pass at state n. */
  ghost predicate CleanOk(r: Run, n: nat, h: nat, th: Thread) {
    match th
    case CleanScanning(all, i, rules, since, plan) =>
      && (exists b: nat :: b < n && ScanBegan(r, b, h, th))
      && AllDoomed(r, n, plan.expired) && AllDoomed(r, n, plan.disconnected)
    case CleanLooping(tokens) => AllDoomed(r, n, tokens)
    case CleanFound(_, tokens) => AllDoomed(r, n, tokens)
    case CleanUserGone(tokens) => AllDoomed(r, n, tokens)
    case _ => true
  }

  ghost predicate NoncesOk(r: Run, n: nat)
    requires n < |r.states|
  {
    var st := r.states[n].hist.store;
    forall t | t in st.sessions && st.sessions[t].nonce != "" ::
      exists c: nat :: c < n && NonceStored(r, c, t, st.sessions[t].nonce, st.sessions[t].nonceAt)
  }

  ghost predicate ThreadsOk(ed: Verifier, r: Run, n: nat)
    requires n < |r.states|
  {
    forall h | h in r.states[n].threads ::
      var th := r.states[n].threads[h];
      KinOk(r.states[n].hist, th) && VerifyOk(ed, r, n, h, th) && CleanOk(r, n, h, th)
  }

  ghost predicate ActivationsOk(ed: Verifier, r: Run, n: nat)
    requires n < |r.states|
  {
    var st := r.states[n].hist.store;
    forall t | t in st.sessions && st.sessions[t].activated ::
      exists m: nat, h, s :: m < n && ActivatedAt(ed, r, m, h, s, st.sessions[t])
  }

  lemma KinStable(a: Spec.Hist, b: Spec.Hist, s: Session)
    requires Kin(a, s) && Spec.Evolves(a, b)
    ensures Kin(b, s)
  {
  }

  lemma CarriedOn(r: Run, h: nat, s: Session, i: nat, n: nat)
    requires Carried(r, h, s, i, n) && n + 1 < |r.states|
    requires h in r.states[n + 1].threads && CopyOf(r.states[n + 1].threads[h]) == Some(s)
    ensures Carried(r, h, s, i, n + 1)
  {
  }

  /** What backs a handler is carried on while the handler keeps its copy. */
  lemma BackedOn(ed: Verifier, r: Run, h: nat, s: Session, n: nat)
    requires Backed(ed, r, h, s, n) && n + 1 < |r.states|
    requires h in r.states[n + 1].threads && CopyOf(r.states[n + 1].threads[h]) == Some(s)
    ensures Backed(ed, r, h, s, n + 1)
  {
    var g: nat :| GrantedBy(ed, r, g, h, s, n);
    CarriedOn(r, h, s, g, n);
    assert GrantedBy(ed, r, g, h, s, n + 1);
  }

  lemma ProvedOn(ed: Verifier, r: Run, h: nat, s: Session, n: nat)
    requires Proved(ed, r, h, s, n) && n + 1 < |r.states|
    requires h in r.states[n + 1].threads && CopyOf(r.states[n + 1].threads[h]) == Some(s)
    ensures Proved(ed, r, h, s, n + 1)
  {
    var k: nat, proof :| CheckedBy(ed, r, k, h, s, proof, n);
    CarriedOn(r, h, s, k, n);
    assert CheckedBy(ed, r, k, h, s, proof, n + 1);
  }

  lemma AllDoomedLater(r: Run, n: nat, tokens: seq<string>)
    requires AllDoomed(r, n, tokens)
    ensures AllDoomed(r, n + 1, tokens)
    ensures |tokens| > 0 ==> AllDoomed(r, n + 1, tokens[1..])
  {
    forall t | t in tokens
      ensures DoomedBefore(r, n + 1, t)
    {
      var b: nat, j: nat :| j < n && DoomedAt(r, b, j, t);
    }
  }

  /** What holds of a thread that did not move still holds. */
  lemma VerifyStays(ed: Verifier, r: Run, n: nat, h: nat)
    requires n + 1 < |r.states| && Unmoved(r.states[n], r.states[n + 1], h)
    requires VerifyOk(ed, r, n, h, r.states[n].threads[h])
    ensures VerifyOk(ed, r, n + 1, h, r.states[n + 1].threads[h])
  {
    var th := r.states[n].threads[h];
    if th.VerifyChecked? {
      ProvedOn(ed, r, h, th.s, n);
    } else if th.VerifyPermitted? || th.VerifyUserAdded? || th.VerifyRouted? {
      BackedOn(ed, r, h, th.s, n);
    }
  }

  lemma CleanStays(r: Run, n: nat, h: nat, th: Thread)
    requires CleanOk(r, n, h, th)
    ensures CleanOk(r, n + 1, h, th)
  {
    if th.CleanScanning? {
      AllDoomedLater(r, n, th.plan.expired);
      AllDoomedLater(r, n, th.plan.disconnected);
    } else if Cleaning(th) {
      AllDoomedLater(r, n, th.tokens);
    }
  }

  lemma NoncesStep(ed: Verifier, r: Run, n: nat)
    requires Steps(ed, r) && n < |r.actions| && Spec.Inv(r.states[n].hist) && NoncesOk(r, n) && ThreadsOk(ed, r, n)
    ensures NoncesOk(r, n + 1)
  {
    var st := r.states[n + 1].hist.store;
    forall t | t in st.sessions && st.sessions[t].nonce != ""
      ensures exists c: nat :: c < n + 1 && NonceStored(r, c, t, st.sessions[t].nonce, st.sessions[t].nonceAt)
    {
      var s, a := r.states[n], r.actions[n];
      NonceOrigin(ed, s, a, t);
      var was := s.hist.store.sessions[t];
      if was.nonce == st.sessions[t].nonce && was.nonceAt == st.sessions[t].nonceAt {
        var c: nat :| c < n && NonceStored(r, c, t, was.nonce, was.nonceAt);
      } else {
        assert VerifyOk(ed, r, n, a.h, s.threads[a.h]);
        assert NonceStored(r, n, t, st.sessions[t].nonce, st.sessions[t].nonceAt);
      }
    }
  }

  /** A copy just read, and the check of one just accepted. */
  lemma VerifyBegins(ed: Verifier, r: Run, n: nat, h: nat)
    requires Steps(ed, r) && n < |r.actions| && Spec.Inv(r.states[n].hist) && NoncesOk(r, n)
    requires h in r.states[n + 1].threads
    requires !Unmoved(r.states[n], r.states[n + 1], h)
    requires h in r.states[n].threads ==> VerifyOk(ed, r, n, h, r.states[n].threads[h])
    requires r.states[n + 1].threads[h].VerifyFound? || r.states[n + 1].threads[h].VerifyChecked?
    ensures VerifyOk(ed, r, n + 1, h, r.states[n + 1].threads[h])
  {
    MoveAt(ed, r, n, h);
    match r.states[n + 1].threads[h] {
      case VerifyFound(proof, c) => FoundNow(ed, r, n, h, proof, c);
      case VerifyChecked(c) =>
        CheckedNow(ed, r, n, h, r.states[n].threads[h], c);
    }
  }

  lemma FoundNow(ed: Verifier, r: Run, n: nat, h: nat, proof: VerifyRequest, c: Session)
    requires n < |r.states| && Spec.Inv(r.states[n].hist) && NoncesOk(r, n) && LookedUp(r, n, h, c, proof)
    ensures VerifyOk(ed, r, n + 1, h, VerifyFound(proof, c))
  {
    Spec.PubkeyLookupSound(r.states[n].hist, proof.pubHex);
  }

  lemma CarriedOnce(r: Run, h: nat, s: Session, n: nat)
    requires n + 1 < |r.states| && h in r.states[n + 1].threads && CopyOf(r.states[n + 1].threads[h]) == Some(s)
    ensures Carried(r, h, s, n, n + 1)
  {
  }

  lemma CheckedNow(ed: Verifier, r: Run, n: nat, h: nat, th: Thread, c: Session)
    requires n < |r.actions| < |r.states| && r.actions[n] == VerifyCheck(h)
    requires th.VerifyFound? && th.s == c && h in r.states[n].threads && r.states[n].threads[h] == th
    requires h in r.states[n + 1].threads && r.states[n + 1].threads[h] == VerifyChecked(c)
    requires VerifyOk(ed, r, n, h, th) && CheckRequest(ed, c, th.proof, r.states[n].clock).Ok?
    ensures Proved(ed, r, h, c, n + 1)
  {
    assert CheckedBy(ed, r, n, h, c, th.proof, n + 1);
  }

  lemma ChallengeDraws(ed: Verifier, r: Run, n: nat, h: nat)
    requires Steps(ed, r) && n < |r.actions| && h in r.states[n + 1].threads && r.states[n + 1].threads[h].ChallengeReady?
    requires !Unmoved(r.states[n], r.states[n + 1], h)
    ensures VerifyOk(ed, r, n + 1, h, r.states[n + 1].threads[h])
  {
    MoveAt(ed, r, n, h);
    assert Drawn(r, n, h, r.actions[n].nonce, r.states[n].clock);
  }

  /** The configuration just consulted. */
  lemma VerifyDecides(ed: Verifier, r: Run, n: nat, h: nat)
    requires Steps(ed, r) && n < |r.actions| && h in r.states[n + 1].threads
    requires !Unmoved(r.states[n], r.states[n + 1], h)
    requires h in r.states[n].threads ==> VerifyOk(ed, r, n, h, r.states[n].threads[h])
    requires r.states[n + 1].threads[h].VerifyDenied? || r.states[n + 1].threads[h].VerifyPermitted?
    ensures VerifyOk(ed, r, n + 1, h, r.states[n + 1].threads[h])
  {
    var th := r.states[n + 1].threads[h];
    MoveAt(ed, r, n, h);
    DecidedNow(ed, r, n, h, th.s);
    if th.VerifyPermitted? {
      PermittedNow(ed, r, n, h, th.s);
    } else {
      DeniedNow(ed, r, n, h, th.s);
    }
  }

  lemma PermittedNow(ed: Verifier, r: Run, n: nat, h: nat, s: Session)
    requires Granted(ed, r, n, h, s) && n + 1 < |r.states|
    requires h in r.states[n + 1].threads && r.states[n + 1].threads[h] == VerifyPermitted(s)
    ensures Backed(ed, r, h, s, n + 1)
  {
    CarriedOnce(r, h, s, n);
    assert GrantedBy(ed, r, n, h, s, n + 1);
  }

  lemma DeniedNow(ed: Verifier, r: Run, n: nat, h: nat, s: Session)
    requires Decided(ed, r, n, h, s) && !Permitted(r.states[n].cfg, s)
    ensures VerifyOk(ed, r, n + 1, h, VerifyDenied(s))
  {
  }

  lemma DecidedNow(ed: Verifier, r: Run, n: nat, h: nat, s: Session)
    requires n < |r.actions| < |r.states| && r.actions[n] == VerifyDecide(h) && h in r.states[n].threads
    requires r.states[n].threads[h] == VerifyChecked(s) && VerifyOk(ed, r, n, h, r.states[n].threads[h])
    ensures Decided(ed, r, n, h, s)
  {
  }

  /** Credential or route just added. */
  lemma VerifyProceeds(ed: Verifier, r: Run, n: nat, h: nat)
    requires Steps(ed, r) && n < |r.actions| && h in r.states[n + 1].threads
    requires !Unmoved(r.states[n], r.states[n + 1], h)
    requires h in r.states[n].threads ==> VerifyOk(ed, r, n, h, r.states[n].threads[h])
    requires r.states[n + 1].threads[h].VerifyUserAdded? || r.states[n + 1].threads[h].VerifyRouted?
    ensures VerifyOk(ed, r, n + 1, h, r.states[n + 1].threads[h])
  {
    MoveAt(ed, r, n, h);
    BackedOn(ed, r, h, r.states[n + 1].threads[h].s, n);
  }

  /** What a look adds to the plan is a doomed session. */
  lemma LookDoomed(r: Run, n: nat, h: nat, th: Thread, b: nat)
    requires n < |r.actions| < |r.states| && r.actions[n].CleanLook? && r.actions[n].h == h && h in r.states[n].threads
    requires b < n && ScanBegan(r, b, h, th) && th.i < |th.all|
    requires Doomed(th.rules, th.all[th.i], th.since, Seen(r.states[n].pipes, r.actions[n].later))
    ensures DoomedBefore(r, n + 1, th.all[th.i].setupToken)
  {
    assert DoomedAt(r, b, n, th.all[th.i].setupToken);
  }

  lemma AllDoomedSnoc(r: Run, n: nat, tokens: seq<string>, t: string)
    requires AllDoomed(r, n, tokens) && DoomedBefore(r, n, t)
    ensures AllDoomed(r, n, tokens + [t])
  {
  }

  /** A cleaner pass that has looked at one more session. */
  lemma LookAdvance(r: Run, n: nat, h: nat, th: Thread, th': Thread)
    requires n < |r.actions| < |r.states| && r.actions[n].CleanLook? && r.actions[n].h == h
    requires h in r.states[n].threads && LookFrom(th, th', Seen(r.states[n].pipes, r.actions[n].later))
    requires CleanOk(r, n, h, th)
    ensures CleanOk(r, n + 1, h, th')
  {
    var b: nat :| b < n && ScanBegan(r, b, h, th);
    assert ScanBegan(r, b, h, th');
    AllDoomedLater(r, n, th.plan.expired);
    AllDoomedLater(r, n, th.plan.disconnected);
    if Doomed(th.rules, th.all[th.i], th.since, Seen(r.states[n].pipes, r.actions[n].later)) {
      var t := th.all[th.i].setupToken;
      LookDoomed(r, n, h, th, b);
      AllDoomedSnoc(r, n + 1, th.plan.expired, t);
      AllDoomedSnoc(r, n + 1, th.plan.disconnected, t);
    }
  }

  lemma ScanAdvance(ed: Verifier, r: Run, n: nat, h: nat)
    requires Steps(ed, r) && n < |r.actions| && h in r.states[n + 1].threads
    requires !Unmoved(r.states[n], r.states[n + 1], h) && r.states[n + 1].threads[h].CleanScanning?
    requires h in r.states[n].threads ==> CleanOk(r, n, h, r.states[n].threads[h])
    ensures CleanOk(r, n + 1, h, r.states[n + 1].threads[h])
  {
    var th' := r.states[n + 1].threads[h];
    MoveAt(ed, r, n, h);
    if r.actions[n].CleanBegin? {
      assert ScanBegan(r, n, h, th');
    } else {
      LookAdvance(r, n, h, r.states[n].threads[h], th');
    }
  }

  lemma CleanAdvance(ed: Verifier, r: Run, n: nat, h: nat)
    requires Steps(ed, r) && n < |r.actions| && h in r.states[n + 1].threads
    requires !Unmoved(r.states[n], r.states[n + 1], h)
    requires h in r.states[n].threads ==> CleanOk(r, n, h, r.states[n].threads[h])
    ensures CleanOk(r, n + 1, h, r.states[n + 1].threads[h])
  {
    var th' := r.states[n + 1].threads[h];
    if th'.CleanScanning? {
      ScanAdvance(ed, r, n, h);
    } else if Cleaning(th') {
      MoveAt(ed, r, n, h);
      CleanStays(r, n, h, r.states[n].threads[h]);
      if !r.states[n].threads[h].CleanScanning? {
        AllDoomedLater(r, n, r.states[n].threads[h].tokens);
      }
    }
  }

  lemma KinStep(ed: Verifier, r: Run, n: nat, h: nat)
    requires Steps(ed, r) && n < |r.actions| && Spec.Inv(r.states[n].hist)
    requires Spec.Evolves(r.states[n].hist, r.states[n + 1].hist) && h in r.states[n + 1].threads
    requires h in r.states[n].threads ==> KinOk(r.states[n].hist, r.states[n].threads[h])
    ensures KinOk(r.states[n + 1].hist, r.states[n + 1].threads[h])
  {
    var s, s' := r.states[n], r.states[n + 1];
    var th := s'.threads[h];
    if Verifying(th) && !th.ChallengeReady? {
      if !Unmoved(s, s', h) {
        MoveAt(ed, r, n, h);
      }
      if th.VerifyFound? && !Unmoved(s, s', h) {
        Spec.PubkeyLookupSound(s.hist, th.proof.pubHex);
        assert Kin(s.hist, th.s);
      }
      KinStable(s.hist, s'.hist, th.s);
    }
  }

  lemma ThreadStep(ed: Verifier, r: Run, n: nat, h: nat)
    requires Steps(ed, r) && n < |r.actions| && Spec.Inv(r.states[n].hist) && NoncesOk(r, n) && ThreadsOk(ed, r, n)
    requires Spec.Evolves(r.states[n].hist, r.states[n + 1].hist)
    requires h in r.states[n + 1].threads
    ensures KinOk(r.states[n + 1].hist, r.states[n + 1].threads[h])
    ensures VerifyOk(ed, r, n + 1, h, r.states[n + 1].threads[h])
    ensures CleanOk(r, n + 1, h, r.states[n + 1].threads[h])
  {
    KinStep(ed, r, n, h);
    if Unmoved(r.states[n], r.states[n + 1], h) {
      VerifyStays(ed, r, n, h);
      CleanStays(r, n, h, r.states[n].threads[h]);
    } else {
      CleanAdvance(ed, r, n, h);
      var th := r.states[n + 1].threads[h];
      if th.VerifyFound? || th.VerifyChecked? {
        VerifyBegins(ed, r, n, h);
      } else if th.VerifyDenied? || th.VerifyPermitted? {
        VerifyDecides(ed, r, n, h);
      } else if th.ChallengeReady? {
        ChallengeDraws(ed, r, n, h);
      } else if Verifying(th) {
        VerifyProceeds(ed, r, n, h);
      }
    }
  }

  lemma ActivationsStep(ed: Verifier, r: Run, n: nat)
    requires Steps(ed, r) && n < |r.actions| && Spec.Inv(r.states[n].hist)
    requires Spec.Evolves(r.states[n].hist, r.states[n + 1].hist)
    requires Spec.Inv(r.states[n + 1].hist)
    requires ThreadsOk(ed, r, n) && ActivationsOk(ed, r, n)
    ensures ActivationsOk(ed, r, n + 1)
  {
    var (s, s', a) := (r.states[n], r.states[n + 1], r.actions[n]);
    assert Next(ed, s, a) == Some(s');
    forall t | t in s'.hist.store.sessions && s'.hist.store.sessions[t].activated
      ensures exists m: nat, h, c :: m < n + 1 && ActivatedAt(ed, r, m, h, c, s'.hist.store.sessions[t])
    {
      ActivationOrigin(ed, s, a, t);
      if s.hist.store.sessions[t].activated {
        var m: nat, h, c :| m < n && ActivatedAt(ed, r, m, h, c, s.hist.store.sessions[t]);
        assert ActivatedAt(ed, r, m, h, c, s'.hist.store.sessions[t]);
      } else {
        var th := s.threads[a.h];
        assert VerifyOk(ed, r, n, a.h, th);
        KinStable(s.hist, s'.hist, th.s);
        assert ActivatedAt(ed, r, n, a.h, th.s, s'.hist.store.sessions[t]);
      }
    }
  }

  lemma HistAt(ed: Verifier, r: Run, n: nat)
    requires IsRun(ed, r) && n < |r.actions|
    ensures Spec.Inv(r.states[n].hist) && Spec.Inv(r.states[n + 1].hist)
    ensures Spec.Evolves(r.states[n].hist, r.states[n + 1].hist)
  {
    HistRun(ed, r, n);
    assert Next(ed, r.states[n], r.actions[n]) == Some(r.states[n + 1]);
    HistStep(ed, r.states[n], r.actions[n]);
  }

  lemma {:induction false} Provenance(ed: Verifier, r: Run, n: nat)
    requires IsRun(ed, r) && n < |r.states|
    ensures Spec.Inv(r.states[n].hist) && NoncesOk(r, n) && ThreadsOk(ed, r, n) && ActivationsOk(ed, r, n)
  {
    HistRun(ed, r, n);
    if n > 0 {
      Provenance(ed, r, n - 1);
      HistAt(ed, r, n - 1);
      NoncesStep(ed, r, n - 1);
      ActivationsStep(ed, r, n - 1);
      forall h | h in r.states[n].threads
        ensures var th := r.states[n].threads[h];
          KinOk(r.states[n].hist, th) && VerifyOk(ed, r, n, h, th) && CleanOk(r, n, h, th)
      {
        ThreadStep(ed, r, n - 1, h);
      }
    }
  }

  // ----- main results -----

  /** What an accepted check and a grant say about the session as it is now. */
  lemma CheckMeaning(ed: Verifier, r: Run, k: nat, h: nat, s: Session, proof: VerifyRequest, cur: Session)
    requires CheckPassed(ed, r, k, h, s, proof) && Spec.Grew(s, cur) && |s.pubKey| > 0
    ensures proof.nonce == s.nonce && r.states[k].clock - s.nonceAt <= NONCE_TTL
    ensures Spec.Hex.Decode(proof.pubHex) == Some(cur.pubKey) && |cur.pubKey| == PUBLIC_KEY_SIZE
    ensures proof.signature.Some? && ed(cur.pubKey, proof.nonce, proof.signature.value)
    ensures forall cfg :: Permitted(cfg, s) == Permitted(cfg, cur)
  {
  }

  /** Whenever a session is activated, however handlers, cleaners, restarts and configuration changes
      interleaved: a challenge stored a nonce for that very session (c); later a handler h, holding a request
      that names the session's stored public key, presents that nonce, at most five minutes old, and carries a
      signature over it that verifies under that key, accepted it for its copy s of the session (k); later still
      the configuration permitted the session's mode and infinity flag for its role (g); and only then was that
      session activated (m). The last three are steps of one run of one handler, on one copy. */
  lemma ActivationCorrespondence(ed: Verifier, r: Run, n: nat, t: string)
    returns (c: nat, k: nat, g: nat, m: nat, h: nat, s: Session, proof: VerifyRequest)
    requires IsRun(ed, r) && n < |r.states|
    requires t in r.states[n].hist.store.sessions && r.states[n].hist.store.sessions[t].activated
    ensures c < k < g < m < n
    ensures s.setupToken == t && Spec.Grew(s, r.states[n].hist.store.sessions[t])
    ensures NonceStored(r, c, t, proof.nonce, s.nonceAt)
    ensures CheckPassed(ed, r, k, h, s, proof) && Granted(ed, r, g, h, s) && Activates(r, m, h, s)
    ensures Carried(r, h, s, k, m)
    ensures var cur := r.states[n].hist.store.sessions[t];
      && r.states[k].clock - s.nonceAt <= 300_000_000_000
      && Spec.Hex.Decode(proof.pubHex) == Some(cur.pubKey) && |cur.pubKey| == 32
      && proof.signature.Some? && ed(cur.pubKey, proof.nonce, proof.signature.value)
    ensures var (cur, cfg) := (r.states[n].hist.store.sessions[t], r.states[g].cfg);
      var perms := if cur.role == "public" then cfg.publicPerms else cfg.authPerms;
      && (cur.mode.Tcp? || cur.mode.TcpUdp? ==> perms.rawTCP)
      && (cur.mode.Http? ==> perms.createTunnel)
      && (cur.infinity ==> perms.infinity)
  {
    Provenance(ed, r, n);
    var cur := r.states[n].hist.store.sessions[t];
    m, h, s :| m < n && ActivatedAt(ed, r, m, h, s, cur);
    g :| GrantedBy(ed, r, g, h, s, m);
    k, proof :| CheckedBy(ed, r, k, h, s, proof, g);
    c :| c < k && NonceStored(r, c, s.setupToken, s.nonce, s.nonceAt);
    CheckMeaning(ed, r, k, h, s, proof, cur);
  }

  /** The role of the session lacks the permission for its mode or for its infinity flag. */
  predicate Forbids(cfg: Config, s: Session) {
    var perms := if s.role == "public" then cfg.publicPerms else cfg.authPerms;
    || ((s.mode.Tcp? || s.mode.TcpUdp?) && !perms.rawTCP)
    || (s.mode.Http? && !perms.createTunnel)
    || (s.infinity && !perms.infinity)
  }

  /** A handler had accepted a proof for session t, and then the configuration forbade it. */
  ghost predicate DeniedBefore(ed: Verifier, r: Run, n: nat, t: string) {
    exists g: nat, h, s :: g < n && Decided(ed, r, g, h, s) && s.setupToken == t && Forbids(r.states[g].cfg, s)
  }

  lemma DeniedThread(ed: Verifier, r: Run, n: nat, h: nat)
    requires n < |r.states| && h in r.states[n].threads && r.states[n].threads[h].VerifyDenied?
    requires VerifyOk(ed, r, n, h, r.states[n].threads[h])
    ensures DeniedBefore(ed, r, n, r.states[n].threads[h].s.setupToken)
  {
    var s := r.states[n].threads[h].s;
    var g: nat :| g < n && Decided(ed, r, g, h, s) && !Permitted(r.states[g].cfg, s);
    assert Forbids(r.states[g].cfg, s);
  }

  /** Whenever a step deletes a session, either an earlier cleaner pass found it activated, out of grace, and
      disconnected or expired; or its own client had proved possession of its key and was then denied by the
      configuration. */
  lemma DeletionCorrespondence(ed: Verifier, r: Run, n: nat, t: string)
    requires IsRun(ed, r) && n < |r.actions|
    requires t in r.states[n].hist.store.sessions && t !in r.states[n + 1].hist.store.sessions
    ensures DoomedBefore(r, n, t) || DeniedBefore(ed, r, n, t)
  {
    Provenance(ed, r, n);
    assert Next(ed, r.states[n], r.actions[n]) == Some(r.states[n + 1]);
    DeletionOrigin(ed, r.states[n], r.actions[n], t);
    var h := r.actions[n].h;
    var th := r.states[n].threads[h];
    assert VerifyOk(ed, r, n, h, th) && CleanOk(r, n, h, th);
    if th.VerifyDenied? {
      DeniedThread(ed, r, n, h);
    } else {
      assert th.tokens[0] == t;
    }
  }

  // ----- who may connect -----

  /** Some handler passed all checks for a session with this subdomain and token. */
  ghost predicate Earned(ed: Verifier, r: Run, n: nat, sub: string, token: string) {
    exists g: nat, h, s :: g < n && Granted(ed, r, g, h, s) && s.subdomain == sub && s.token == token
  }

  ghost predicate RouteEarned(ed: Verifier, r: Run, n: nat, sub: string, port: int) {
    exists g: nat, h, s :: g < n && Granted(ed, r, g, h, s) && s.mode.Http? && s.subdomain == sub && s.serverPort == port
  }

  ghost predicate UsersEarned(ed: Verifier, r: Run, n: nat)
    requires n < |r.states|
  {
    forall sub | sub in r.states[n].users :: Earned(ed, r, n, sub, r.states[n].users[sub])
  }

  ghost predicate RoutesEarned(ed: Verifier, r: Run, n: nat)
    requires n < |r.states|
  {
    forall sub | sub in r.states[n].routes :: RouteEarned(ed, r, n, sub, r.states[n].routes[sub])
  }

  /** Except at a restart, a new credential is the one of a permitted handler. */
  lemma UserOrigin(ed: Verifier, s: State, a: Action, sub: string)
    requires Next(ed, s, a).Some? && !a.Crash? && sub in Next(ed, s, a).value.users
    ensures var users' := Next(ed, s, a).value.users;
      || (sub in s.users && users'[sub] == s.users[sub])
      || (a.VerifyAddUser? && a.h in s.threads && s.threads[a.h].VerifyPermitted? &&
          s.threads[a.h].s.subdomain == sub && s.threads[a.h].s.token == users'[sub])
  {
  }

  lemma RouteOrigin(ed: Verifier, s: State, a: Action, sub: string)
    requires Next(ed, s, a).Some? && !a.Crash? && sub in Next(ed, s, a).value.routes
    ensures var routes' := Next(ed, s, a).value.routes;
      || (sub in s.routes && routes'[sub] == s.routes[sub])
      || (a.VerifyAddRoute? && a.h in s.threads && s.threads[a.h].VerifyUserAdded? && s.threads[a.h].s.mode.Http? &&
          s.threads[a.h].s.subdomain == sub && s.threads[a.h].s.serverPort == routes'[sub])
  {
  }

  lemma ActivatedEarned(ed: Verifier, r: Run, n: nat, t: string)
    requires n < |r.states| && ActivationsOk(ed, r, n)
    requires t in r.states[n].hist.store.sessions && r.states[n].hist.store.sessions[t].activated
    ensures var c := r.states[n].hist.store.sessions[t];
      Earned(ed, r, n, c.subdomain, c.token) && (c.mode.Http? ==> RouteEarned(ed, r, n, c.subdomain, c.serverPort))
  {
    var m: nat, h, s :| m < n && ActivatedAt(ed, r, m, h, s, r.states[n].hist.store.sessions[t]);
    var g: nat :| GrantedBy(ed, r, g, h, s, m);
  }

  lemma RestartEarned(ed: Verifier, r: Run, n: nat)
    requires IsRun(ed, r) && n < |r.actions| && r.actions[n].Crash?
    ensures UsersEarned(ed, r, n + 1) && RoutesEarned(ed, r, n + 1)
  {
    Provenance(ed, r, n);
    CrashRecovers(ed, r, n);
    var w, st := WorldOf(r.states[n + 1]), r.states[n].hist.store;
    assert w.store == st;
    forall sub | sub in w.users
      ensures Earned(ed, r, n + 1, sub, w.users[sub])
    {
      var t :| t in st.sessions && st.sessions[t].activated && st.sessions[t].subdomain == sub;
      ActivatedEarned(ed, r, n, t);
    }
    forall sub | sub in w.routes
      ensures RouteEarned(ed, r, n + 1, sub, w.routes[sub])
    {
      var t :| t in st.sessions && World.LiveHttp(st.sessions[t]) && st.sessions[t].subdomain == sub;
      ActivatedEarned(ed, r, n, t);
    }
  }

  lemma GrantOf(ed: Verifier, r: Run, n: nat, h: nat)
    requires n < |r.states| && ThreadsOk(ed, r, n) && h in r.states[n].threads
    requires r.states[n].threads[h].VerifyPermitted? || r.states[n].threads[h].VerifyUserAdded?
    ensures var s := r.states[n].threads[h].s;
      Earned(ed, r, n, s.subdomain, s.token) && (s.mode.Http? ==> RouteEarned(ed, r, n, s.subdomain, s.serverPort))
  {
    var th := r.states[n].threads[h];
    assert VerifyOk(ed, r, n, h, th);
    var g: nat :| GrantedBy(ed, r, g, h, th.s, n);
  }

  lemma UsersEarnedStep(ed: Verifier, r: Run, n: nat)
    requires Steps(ed, r) && n < |r.actions| && !r.actions[n].Crash? && ThreadsOk(ed, r, n) && UsersEarned(ed, r, n)
    ensures UsersEarned(ed, r, n + 1)
  {
    var s, s', a := r.states[n], r.states[n + 1], r.actions[n];
    assert Next(ed, s, a) == Some(s');
    forall sub | sub in s'.users
      ensures Earned(ed, r, n + 1, sub, s'.users[sub])
    {
      UserOrigin(ed, s, a, sub);
      if !(sub in s.users && s'.users[sub] == s.users[sub]) {
        GrantOf(ed, r, n, a.h);
      }
      EarnedLater(ed, r, n, sub, s'.users[sub]);
    }
  }

  lemma EarnedLater(ed: Verifier, r: Run, n: nat, sub: string, token: string)
    requires Earned(ed, r, n, sub, token)
    ensures Earned(ed, r, n + 1, sub, token)
  {
  }

  lemma RouteEarnedLater(ed: Verifier, r: Run, n: nat, sub: string, port: int)
    requires RouteEarned(ed, r, n, sub, port)
    ensures RouteEarned(ed, r, n + 1, sub, port)
  {
  }

  lemma RoutesEarnedStep(ed: Verifier, r: Run, n: nat)
    requires Steps(ed, r) && n < |r.actions| && !r.actions[n].Crash? && ThreadsOk(ed, r, n) && RoutesEarned(ed, r, n)
    ensures RoutesEarned(ed, r, n + 1)
  {
    var s, s', a := r.states[n], r.states[n + 1], r.actions[n];
    assert Next(ed, s, a) == Some(s');
    forall sub | sub in s'.routes
      ensures RouteEarned(ed, r, n + 1, sub, s'.routes[sub])
    {
      RouteOrigin(ed, s, a, sub);
      if !(sub in s.routes && s'.routes[sub] == s.routes[sub]) {
        GrantOf(ed, r, n, a.h);
      }
      RouteEarnedLater(ed, r, n, sub, s'.routes[sub]);
    }
  }

  /** At every moment of every run, between any two sub-steps and after any number of crashes: each credential the
      tunnel server holds is that of a session for which some handler had passed all checks, and each route leads to
      the port of such a session of mode http. */
  lemma {:induction false} CredentialsEarned(ed: Verifier, r: Run, n: nat)
    requires IsRun(ed, r) && n < |r.states|
    ensures forall sub | sub in r.states[n].users :: Earned(ed, r, n, sub, r.states[n].users[sub])
    ensures forall sub | sub in r.states[n].routes :: RouteEarned(ed, r, n, sub, r.states[n].routes[sub])
  {
    if n > 0 {
      CredentialsEarned(ed, r, n - 1);
      if r.actions[n - 1].Crash? {
        RestartEarned(ed, r, n - 1);
      } else {
        Provenance(ed, r, n - 1);
        UsersEarnedStep(ed, r, n - 1);
        RoutesEarnedStep(ed, r, n - 1);
      }
    }
  }

  // ----- two activations on one nonce -----

  lemma {:induction false} EvolvesOver(ed: Verifier, r: Run, i: nat, j: nat)
    requires IsRun(ed, r) && i < j < |r.states|
    ensures Spec.Evolves(r.states[i].hist, r.states[j].hist)
    decreases j
  {
    HistAt(ed, r, j - 1);
    if i < j - 1 {
      EvolvesOver(ed, r, i, j - 1);
      Spec.EvolvesTransitive(r.states[i].hist, r.states[j - 1].hist, r.states[j].hist);
    }
  }

  /** An activated session found at an earlier state is not found inactive at a later one. */
  lemma StaysActivated(ed: Verifier, r: Run, i: nat, j: nat, t: string, pubHex: string)
    requires IsRun(ed, r) && i <= j < |r.states|
    requires t in r.states[i].hist.store.sessions && r.states[i].hist.store.sessions[t].activated
    ensures var found := Spec.GetByPubkey(r.states[j].hist.store, pubHex);
      found.Some? && found.value.setupToken == t ==> found.value.activated
  {
    HistRun(ed, r, i);
    HistRun(ed, r, j);
    if i < j {
      EvolvesOver(ed, r, i, j);
    }
  }

  lemma LookupOf(ed: Verifier, r: Run, m: nat, h: nat, s: Session) returns (l: nat, proof: VerifyRequest)
    requires IsRun(ed, r) && Activates(r, m, h, s)
    ensures l < m && LookedUp(r, l, h, s, proof)
  {
    Provenance(ed, r, m);
    assert VerifyOk(ed, r, m, h, r.states[m].threads[h]);
    var g: nat :| GrantedBy(ed, r, g, h, s, m);
    var k: nat;
    k, proof :| CheckedBy(ed, r, k, h, s, proof, g);
    l :| l < k && LookedUp(r, l, h, s, proof);
  }

  lemma ActivationEffect(ed: Verifier, r: Run, m: nat, h: nat, s: Session)
    requires Steps(ed, r) && Activates(r, m, h, s) && s.setupToken in r.states[m].hist.store.sessions
    ensures var st := r.states[m + 1].hist.store;
      s.setupToken in st.sessions && st.sessions[s.setupToken].activated
  {
    assert Next(ed, r.states[m], r.actions[m]) == Some(r.states[m + 1]);
  }

  lemma LookupNotLater(ed: Verifier, r: Run, m: nat, h: nat, s: Session, l: nat, h': nat, s': Session, proof: VerifyRequest)
    requires IsRun(ed, r) && Activates(r, m, h, s) && s.setupToken in r.states[m].hist.store.sessions
    requires LookedUp(r, l, h', s', proof) && s'.setupToken == s.setupToken
    ensures l < m
  {
    if l > m {
      ActivationEffect(ed, r, m, h, s);
      StaysActivated(ed, r, m + 1, l, s.setupToken, proof.pubHex);
    }
  }

  /** Only a handler that had read its copy before the first activation of a session can activate it again. */
  lemma SecondActivation(ed: Verifier, r: Run, m1: nat, h1: nat, s1: Session, m2: nat, h2: nat, s2: Session)
    returns (l: nat, proof: VerifyRequest)
    requires IsRun(ed, r) && m1 < m2 && Activates(r, m1, h1, s1) && Activates(r, m2, h2, s2)
    requires s1.setupToken == s2.setupToken && s1.setupToken in r.states[m1].hist.store.sessions
    ensures l < m1 && LookedUp(r, l, h2, s2, proof)
  {
    l, proof := LookupOf(ed, r, m2, h2, s2);
    LookupNotLater(ed, r, m1, h1, s1, l, h2, s2, proof);
  }

  // ----- admission -----

  /** Script requests that have passed the session limit and not created their session yet. */
  function InFlight(s: State): set<nat> {
    set h | h in s.threads && s.threads[h].Admitted?
  }

  ghost predicate Bounded(s: State, max: int) {
    |s.hist.store.sessions| + |InFlight(s)| <= max
  }

  lemma InFlightStep(ed: Verifier, s: State, a: Action)
    requires Next(ed, s, a).Some?
    ensures var s' := Next(ed, s, a).value;
      InFlight(s') == (match a
        case ScriptCheck(h) => InFlight(s) + {h}
        case ScriptCreate(h, _, _, _, _) => InFlight(s) - {h}
        case ScriptQuit(h) => InFlight(s) - {h}
        case Crash(_, _) => {}
        case _ => InFlight(s))
    ensures a.ScriptCheck? ==> a.h !in InFlight(s)
    ensures a.ScriptCreate? || a.ScriptQuit? ==> a.h in InFlight(s)
  {
  }

  lemma TxCount(st: Spec.Store, tx: Spec.Tx)
    requires tx.CreateTx? ==> |tx.draws| >= Spec.ATTEMPTS
    ensures |Spec.Apply(st, tx).sessions| <= |st.sessions| + (if tx.CreateTx? then 1 else 0)
  {
    var keys, keys' := st.sessions.Keys, Spec.Apply(st, tx).sessions.Keys;
    assert |keys'| == |Spec.Apply(st, tx).sessions| && |keys| == |st.sessions|;
    if tx.CreateTx? {
      CreateKeys(st, tx);
      SubsetCount(keys', keys + {tx.setup});
    } else {
      OtherKeys(st, tx);
      SubsetCount(keys', keys);
    }
  }

  lemma CreateKeys(st: Spec.Store, tx: Spec.Tx)
    requires tx.CreateTx? && |tx.draws| >= Spec.ATTEMPTS
    ensures Spec.Apply(st, tx).sessions.Keys <= st.sessions.Keys + {tx.setup}
  {
  }

  lemma OtherKeys(st: Spec.Store, tx: Spec.Tx)
    requires !tx.CreateTx?
    ensures Spec.Apply(st, tx).sessions.Keys <= st.sessions.Keys
  {
  }

  lemma CountStep(ed: Verifier, s: State, a: Action)
    requires Next(ed, s, a).Some?
    ensures var s' := Next(ed, s, a).value;
      |s'.hist.store.sessions| <= |s.hist.store.sessions| + (if a.ScriptCreate? then 1 else 0)
  {
    StepTx(ed, s, a);
    var tx := TxOf(s, a);
    if tx.Some? {
      TxCount(s.hist.store, tx.value);
    }
  }

  lemma BoundedStep(ed: Verifier, s: State, a: Action, k: nat)
    requires Next(ed, s, a).Some? && s.cfg.maxSessions > 0
    requires Bounded(s, s.cfg.maxSessions - 1 + k) && |InFlight(Next(ed, s, a).value)| <= k
    ensures Bounded(Next(ed, s, a).value, s.cfg.maxSessions - 1 + k)
  {
    InFlightStep(ed, s, a);
    CountStep(ed, s, a);
    if a.ScriptCreate? || a.ScriptQuit? {
      assert InFlight(s) == (InFlight(s) - {a.h}) + {a.h};
    }
  }

  /** With a fixed limit and at most k script requests between their check and their creation, the number
      of stored sessions stays at or below the limit plus k - 1; so with k = 1 the limit holds. */
  lemma {:induction false} AdmissionBound(ed: Verifier, r: Run, max: int, k: nat, n: nat)
    requires Steps(ed, r) && n < |r.states| && max > 0
    requires forall i | 0 <= i < |r.states| :: r.states[i].cfg.maxSessions == max && |InFlight(r.states[i])| <= k
    requires Bounded(r.states[0], max - 1 + k)
    ensures Bounded(r.states[n], max - 1 + k) && |r.states[n].hist.store.sessions| <= max - 1 + k
  {
    if n > 0 {
      AdmissionBound(ed, r, max, k, n - 1);
      assert Next(ed, r.states[n - 1], r.actions[n - 1]) == Some(r.states[n]);
      BoundedStep(ed, r.states[n - 1], r.actions[n - 1], k);
    }
  }
}
