/** The persistent session store as a value: three buckets, and the effect of each database
    transaction on them. A transaction either commits all its writes or none.

    The facts proved here hold for every sequence of transactions, whoever issues them,
    so they hold however the request handlers and the cleaner are interleaved. */
module SessionStore {
  import opened Common
  import Hex
  import Labels

  datatype Mode = Http | Tcp | TcpUdp | OtherMode(name: string)

  datatype Session = Session(
    pubKey: seq<byte>, subdomain: string, localPort: int, serverPort: int, targetHost: string,
    token: string, setupToken: string, createdAt: Time, expiresAt: Time, nonce: string, nonceAt: Time,
    activated: bool, activatedAt: Time, mode: Mode, role: string, httpAuth: string,
    allowedIPs: seq<string>, infinity: bool, username: string)

  /** Buckets: setup token to session, public key (hex) to setup token, subdomain to setup token. */
  datatype Store = Store(sessions: map<string, Session>, byPubkey: map<string, string>, bySub: map<string, string>)

  const EMPTY_STORE := Store(map[], map[], map[])

  /** What a caller of session creation chooses. */
  datatype Request = Request(
    localPort: int, serverPort: int, targetHost: string, ttl: Time, infinity: bool, subdomainLen: nat,
    mode: Mode, role: string, httpAuth: string, preferred: string, allowedIPs: seq<string>, username: string)

  datatype CreateError = InvalidSubdomain | SubdomainInUse | RandomFailed | NoUniqueSubdomain | PutFailed

  // ----- transactions -----

  const ATTEMPTS := 100

  /** The first generated name not in use among the attempts from number i on. */
  function Generate(bySub: map<string, string>, n: nat, draws: seq<seq<byte>>, i: nat): Result<string, CreateError>
    requires i <= ATTEMPTS <= |draws|
    decreases ATTEMPTS - i
  {
    if i == ATTEMPTS then Err(NoUniqueSubdomain)
    else
      match Labels.Drawn(n, draws[i])
      case None => Err(RandomFailed)
      case Some(sub) => if sub !in bySub then Ok(sub) else Generate(bySub, n, draws, i + 1)
  }

  function PickSubdomain(bySub: map<string, string>, req: Request, draws: seq<seq<byte>>): Result<string, CreateError>
    requires |draws| >= ATTEMPTS
  {
    if req.preferred != "" then
      if !Labels.ValidSubdomain(req.preferred) then Err(InvalidSubdomain)
      else if req.preferred in bySub then Err(SubdomainInUse)
      else Ok(req.preferred)
    else Generate(bySub, req.subdomainLen, draws, 0)
  }

  function NewSession(req: Request, sub: string, setup: string, token: string, now: Time): Session {
    Session([], sub, req.localPort, req.serverPort, if req.targetHost == "" then "localhost" else req.targetHost,
            token, setup, now, if req.infinity then 0 else now + req.ttl, "", 0,
            false, 0, req.mode, req.role, req.httpAuth, req.allowedIPs, req.infinity, req.username)
  }

  function Create(st: Store, req: Request, draws: seq<seq<byte>>, setup: string, token: string, now: Time):
    (r: (Store, Result<Session, CreateError>))
    requires |draws| >= ATTEMPTS
  {
    match PickSubdomain(st.bySub, req, draws)
    case Err(e) => (st, Err(e))
    case Ok(sub) =>
      if !KeyOk(setup) || !KeyOk(sub) then (st, Err(PutFailed))
      else
        var s := NewSession(req, sub, setup, token, now);
        (st.(sessions := st.sessions[setup := s], bySub := st.bySub[sub := setup]), Ok(s))
  }

  function Register(st: Store, t: string, pubHex: string): (Store, bool) {
    if t !in st.sessions then (st, false)
    else
      var s := st.sessions[t];
      if s.activated || |s.pubKey| > 0 then (st, false)
      else
        match Hex.Decode(pubHex)
        case None => (st, false)
        case Some(key) =>
          if !KeyOk(pubHex) then (st, false)
          else (st.(sessions := st.sessions[t := s.(pubKey := key)], byPubkey := st.byPubkey[pubHex := t]), true)
  }

  function Delete(st: Store, t: string): Store {
    if t !in st.sessions then st
    else
      var s := st.sessions[t];
      Store(st.sessions - {t},
            if |s.pubKey| > 0 then st.byPubkey - {Hex.Encode(s.pubKey)} else st.byPubkey,
            st.bySub - {s.subdomain})
  }

  function UpdateNonce(st: Store, t: string, nonce: string, at: Time): (Store, bool) {
    if t !in st.sessions then (st, false)
    else (st.(sessions := st.sessions[t := st.sessions[t].(nonce := nonce, nonceAt := at)]), true)
  }

  function Activate(st: Store, t: string, now: Time): (Store, bool) {
    if t !in st.sessions then (st, false)
    else (st.(sessions := st.sessions[t := st.sessions[t].(activated := true, activatedAt := now, nonce := "")]), true)
  }

  // ----- lookups -----

  function Get(st: Store, t: string): Option<Session> {
    if t in st.sessions then Some(st.sessions[t]) else None
  }

  function GetByPubkey(st: Store, pubHex: string): Option<Session> {
    if pubHex in st.byPubkey then Get(st, st.byPubkey[pubHex]) else None
  }

  function GetBySubdomain(st: Store, sub: string): Option<Session> {
    if sub in st.bySub then Get(st, st.bySub[sub]) else None
  }

  predicate HasSubdomain(st: Store, sub: string) {
    sub in st.bySub
  }

  // ----- one transaction, and runs of them -----

  datatype Tx =
    | CreateTx(req: Request, draws: seq<seq<byte>>, setup: string, token: string, now: Time)
    | RegisterTx(t: string, pubHex: string)
    | NonceTx(t: string, nonce: string, at: Time)
    | ActivateTx(t: string, now: Time)
    | DeleteTx(t: string)

  /** A store together with every setup token issued so far. */
  datatype Hist = Hist(store: Store, issued: set<string>)

  const EMPTY_HIST := Hist(EMPTY_STORE, {})

  function Apply(st: Store, tx: Tx): Store
    requires tx.CreateTx? ==> |tx.draws| >= ATTEMPTS
  {
    match tx
    case CreateTx(req, draws, setup, token, now) => Create(st, req, draws, setup, token, now).0
    case RegisterTx(t, p) => Register(st, t, p).0
    case NonceTx(t, nonce, at) => UpdateNonce(st, t, nonce, at).0
    case ActivateTx(t, now) => Activate(st, t, now).0
    case DeleteTx(t) => Delete(st, t)
  }

  /** Setup tokens are 256 random bits: a creation never draws a token issued before. */
  predicate Fresh(h: Hist, tx: Tx) {
    tx.CreateTx? ==> |tx.draws| >= ATTEMPTS && tx.setup !in h.issued
  }

  function Next(h: Hist, tx: Tx): Hist
    requires Fresh(h, tx)
  {
    Hist(Apply(h.store, tx), if tx.CreateTx? then h.issued + {tx.setup} else h.issued)
  }

  predicate FreshRun(h: Hist, txs: seq<Tx>)
    decreases |txs|
  {
    txs == [] || (Fresh(h, txs[0]) && FreshRun(Next(h, txs[0]), txs[1..]))
  }

  function Run(h: Hist, txs: seq<Tx>): Hist
    requires FreshRun(h, txs)
    decreases |txs|
  {
    if txs == [] then h else Run(Next(h, txs[0]), txs[1..])
  }

  // ----- invariants -----

  /** Every session is filed under its own token, and the subdomain bucket holds exactly
      the subdomains of the stored sessions. */
  ghost predicate SubExact(st: Store) {
    && (forall t | t in st.sessions ::
          && st.sessions[t].setupToken == t
          && st.sessions[t].subdomain in st.bySub
          && st.bySub[st.sessions[t].subdomain] == t)
    && (forall sub | sub in st.bySub ::
          && st.bySub[sub] in st.sessions
          && st.sessions[st.bySub[sub]].subdomain == sub)
  }

  predicate PlainLabel(sub: string) {
    sub != "" && forall i | 0 <= i < |sub| :: Labels.IsLetDigHyp(sub[i])
  }

  ghost predicate LabelsPlain(st: Store) {
    forall t | t in st.sessions :: PlainLabel(st.sessions[t].subdomain)
  }

  /** An entry of the public-key bucket may outlive its session, but it never names a session
      with another key. */
  ghost predicate PubkeySound(st: Store) {
    forall p | p in st.byPubkey ::
      Hex.Decode(p).Some? && |Hex.Decode(p).value| > 0 &&
      (st.byPubkey[p] in st.sessions ==> st.sessions[st.byPubkey[p]].pubKey == Hex.Decode(p).value)
  }

  ghost predicate TokensIssued(h: Hist) {
    && h.store.sessions.Keys <= h.issued
    && (forall p | p in h.store.byPubkey :: h.store.byPubkey[p] in h.issued)
  }

  ghost predicate Inv(h: Hist) {
    SubExact(h.store) && LabelsPlain(h.store) && PubkeySound(h.store) && TokensIssued(h)
  }

  lemma {:induction false} GenerateSound(bySub: map<string, string>, n: nat, draws: seq<seq<byte>>, i: nat)
    requires i <= ATTEMPTS <= |draws|
    ensures var r := Generate(bySub, n, draws, i);
      r.Ok? ==> r.value !in bySub && |r.value| == n && forall k | 0 <= k < n :: Labels.IsLetDig(r.value[k])
    decreases ATTEMPTS - i
  {
    if i < ATTEMPTS {
      GenerateSound(bySub, n, draws, i + 1);
    }
  }

  lemma PickSound(bySub: map<string, string>, req: Request, draws: seq<seq<byte>>)
    requires |draws| >= ATTEMPTS
    ensures var r := PickSubdomain(bySub, req, draws);
      r.Ok? && KeyOk(r.value) ==> r.value !in bySub && PlainLabel(r.value)
  {
    GenerateSound(bySub, req.subdomainLen, draws, 0);
  }

  /** Creation succeeds only under a subdomain that was free, and then adds exactly one session. */
  lemma CreateEffect(st: Store, req: Request, draws: seq<seq<byte>>, setup: string, token: string, now: Time)
    requires |draws| >= ATTEMPTS
    ensures var (st', r) := Create(st, req, draws, setup, token, now);
      && (r.Err? ==> st' == st)
      && (r.Ok? ==>
            && r.value.subdomain !in st.bySub && PlainLabel(r.value.subdomain)
            && !r.value.activated && r.value.pubKey == [] && r.value.nonce == "" && r.value.setupToken == setup
            && st' == Store(st.sessions[setup := r.value], st.byPubkey, st.bySub[r.value.subdomain := setup]))
  {
    PickSound(st.bySub, req, draws);
  }

  /** The record keeps everything that was asked for, and nothing is set that was not. */
  lemma CreateKeepsRequest(st: Store, req: Request, draws: seq<seq<byte>>, setup: string, token: string, now: Time)
    requires |draws| >= ATTEMPTS && Create(st, req, draws, setup, token, now).1.Ok?
    ensures var (st', r) := Create(st, req, draws, setup, token, now);
      var s := r.value;
      && setup in st'.sessions && st'.sessions[setup] == s && s.setupToken == setup && s.token == token
      && (req.preferred != "" ==> s.subdomain == req.preferred)
      && (req.preferred == "" ==> |s.subdomain| == req.subdomainLen)
      && s.localPort == req.localPort && s.serverPort == req.serverPort
      && s.targetHost == (if req.targetHost == "" then "localhost" else req.targetHost)
      && s.createdAt == now && s.expiresAt == (if req.infinity then 0 else now + req.ttl)
      && s.mode == req.mode && s.role == req.role && s.infinity == req.infinity
      && s.httpAuth == req.httpAuth && s.allowedIPs == req.allowedIPs && s.username == req.username
      && s.pubKey == [] && s.nonce == "" && s.nonceAt == 0 && !s.activated && s.activatedAt == 0
  {
    GenerateSound(st.bySub, req.subdomainLen, draws, 0);
  }

  ghost predicate Taken(st: Store, sub: string) {
    exists t :: t in st.sessions && st.sessions[t].subdomain == sub
  }

  /** Exactly when a request for a name of its own succeeds, and how it fails. */
  lemma CreatePreferredIff(st: Store, req: Request, draws: seq<seq<byte>>, setup: string, token: string, now: Time)
    requires |draws| >= ATTEMPTS && SubExact(st) && req.preferred != ""
    ensures var r := Create(st, req, draws, setup, token, now).1;
      var valid := Labels.Label(req.preferred) && 3 <= |req.preferred| <= 63;
      && (r == Err(InvalidSubdomain) <==> !valid)
      && (r == Err(SubdomainInUse) <==> valid && Taken(st, req.preferred))
      && (r.Ok? <==> valid && !Taken(st, req.preferred) && 1 <= |setup| <= 32768)
  {
    Labels.ValidIffGrammar(req.preferred);
    if req.preferred in st.bySub {
      assert st.bySub[req.preferred] in st.sessions;
    }
  }

  /** Attempt i draws a name that a session has already. */
  predicate Clashes(bySub: map<string, string>, n: nat, draws: seq<seq<byte>>, i: nat)
    requires i < |draws|
  {
    Labels.Drawn(n, draws[i]).Some? && Labels.Drawn(n, draws[i]).value in bySub
  }

  /** The outcome of up to 100 attempts is decided by the first one, number k, that draws no name in use: it succeeds
      with a free name, and fails when the random source does. Only if all 100 draw names in use is there none. */
  lemma {:induction false} FirstAttempt(bySub: map<string, string>, n: nat, draws: seq<seq<byte>>, i: nat) returns (k: nat)
    requires i <= 100 <= |draws|
    ensures i <= k <= 100 && (forall j | i <= j < k :: Clashes(bySub, n, draws, j)) && (k < 100 ==> !Clashes(bySub, n, draws, k))
    ensures Generate(bySub, n, draws, i) ==
      if k == 100 then Err(NoUniqueSubdomain)
      else match Labels.Drawn(n, draws[k]) case None => Err(RandomFailed) case Some(sub) => Ok(sub)
    decreases 100 - i
  {
    k := i;
    if i < 100 && Clashes(bySub, n, draws, i) {
      k := FirstAttempt(bySub, n, draws, i + 1);
    }
  }

  lemma SubExactCreate(st: Store, tx: Tx)
    requires SubExact(st) && LabelsPlain(st) && tx.CreateTx? && |tx.draws| >= ATTEMPTS && tx.setup !in st.sessions
    ensures SubExact(Apply(st, tx)) && LabelsPlain(Apply(st, tx))
  {
    CreateEffect(st, tx.req, tx.draws, tx.setup, tx.token, tx.now);
  }

  lemma SubExactDelete(st: Store, t: string)
    requires SubExact(st) && LabelsPlain(st)
    ensures SubExact(Delete(st, t)) && LabelsPlain(Delete(st, t))
  {
  }

  /** A subdomain-exact store stays so under every transaction that reuses no live token. */
  lemma SubExactStep(st: Store, tx: Tx)
    requires SubExact(st) && LabelsPlain(st)
    requires tx.CreateTx? ==> |tx.draws| >= ATTEMPTS && tx.setup !in st.sessions
    ensures SubExact(Apply(st, tx)) && LabelsPlain(Apply(st, tx))
  {
    match tx
    case CreateTx(_, _, _, _, _) => SubExactCreate(st, tx);
    case DeleteTx(t) => SubExactDelete(st, t);
    case _ =>
  }

  lemma PubkeySoundStep(h: Hist, tx: Tx)
    requires Inv(h) && Fresh(h, tx)
    ensures PubkeySound(Apply(h.store, tx)) && TokensIssued(Next(h, tx))
  {
    match tx
    case CreateTx(req, draws, setup, token, now) =>
      CreateEffect(h.store, req, draws, setup, token, now);
    case RegisterTx(t, p) =>
      if Hex.Decode(p).Some? {
        Hex.EncodeDecode(p);
      }
    case _ =>
  }

  lemma InvStep(h: Hist, tx: Tx)
    requires Inv(h) && Fresh(h, tx)
    ensures Inv(Next(h, tx))
  {
    SubExactStep(h.store, tx);
    PubkeySoundStep(h, tx);
  }

  /** In every reachable store the subdomain index is exact and the public-key index is sound. */
  lemma {:induction false} InvRun(h: Hist, txs: seq<Tx>)
    requires Inv(h) && FreshRun(h, txs)
    ensures Inv(Run(h, txs))
    decreases |txs|
  {
    if txs != [] {
      InvStep(h, txs[0]);
      InvRun(Next(h, txs[0]), txs[1..]);
    }
  }

  /** Looking a subdomain up in the index gives what scanning all sessions gives. */
  lemma LookupAgreesWithScan(st: Store, sub: string)
    requires SubExact(st)
    ensures forall s :: GetBySubdomain(st, sub) == Some(s) <==> s in st.sessions.Values && s.subdomain == sub
    ensures HasSubdomain(st, sub) <==> exists t :: t in st.sessions && st.sessions[t].subdomain == sub
    ensures HasSubdomain(st, sub) <==> GetBySubdomain(st, sub).Some?
  {
    forall s | s in st.sessions.Values && s.subdomain == sub
      ensures GetBySubdomain(st, sub) == Some(s)
    {
      var t :| t in st.sessions && st.sessions[t] == s;
    }
    if sub in st.bySub {
      var t := st.bySub[sub];
      assert t in st.sessions && st.sessions[t].subdomain == sub;
    }
  }

  /** A session found by public key carries that key. */
  lemma PubkeyLookupSound(h: Hist, p: string)
    requires Inv(h) && GetByPubkey(h.store, p).Some?
    ensures var s := GetByPubkey(h.store, p).value;
      && s.setupToken in h.store.sessions && h.store.sessions[s.setupToken] == s
      && Hex.Decode(p) == Some(s.pubKey) && |s.pubKey| > 0
  {
  }

  /** Exactly when a registration succeeds; it then writes the key into that session and an entry for it. */
  lemma RegisterIff(st: Store, t: string, p: string)
    ensures Register(st, t, p).1 <==>
      && t in st.sessions && !st.sessions[t].activated && st.sessions[t].pubKey == []
      && Hex.Decode(p).Some? && 1 <= |p| <= 32768
    ensures !Register(st, t, p).1 ==> Register(st, t, p).0 == st
    ensures Register(st, t, p).1 ==>
      var st' := Register(st, t, p).0;
      && GetByPubkey(st', p) == Some(st.sessions[t].(pubKey := Hex.Decode(p).value))
      && (forall q | q != p && GetByPubkey(st, q).Some? && GetByPubkey(st, q).value.pubKey != [] && PubkeySound(st) ::
            GetByPubkey(st', q) == GetByPubkey(st, q))
      && (forall u | u != t :: Get(st', u) == Get(st, u)) && st'.bySub == st.bySub
  {
  }

  /** What the other transactions on a stored session do to it, and to nothing else. */
  lemma WritesOneSession(st: Store, t: string, nonce: string, at: Time)
    requires t in st.sessions
    ensures var st' := UpdateNonce(st, t, nonce, at).0;
      && st'.sessions[t] == st.sessions[t].(nonce := nonce, nonceAt := at)
      && (forall u | u != t :: Get(st', u) == Get(st, u)) && st'.byPubkey == st.byPubkey && st'.bySub == st.bySub
    ensures var st' := Activate(st, t, at).0;
      && st'.sessions[t] == st.sessions[t].(activated := true, activatedAt := at, nonce := "")
      && (forall u | u != t :: Get(st', u) == Get(st, u)) && st'.byPubkey == st.byPubkey && st'.bySub == st.bySub
  {
  }

  // ----- the life of one session -----

  /** The fields fixed at creation are equal, a set key stays, and an activation stays. */
  predicate Grew(x: Session, y: Session) {
    && x.(pubKey := y.pubKey, nonce := y.nonce, nonceAt := y.nonceAt,
          activated := y.activated, activatedAt := y.activatedAt) == y
    && (|x.pubKey| > 0 ==> y.pubKey == x.pubKey)
    && (x.activated ==> y.activated)
  }

  /** A token issued by now and gone stays gone; a session that remains has only grown. */
  ghost predicate Evolves(a: Hist, b: Hist) {
    && a.issued <= b.issued
    && (forall t | t in b.store.sessions && t in a.issued ::
          t in a.store.sessions && Grew(a.store.sessions[t], b.store.sessions[t]))
  }

  lemma EvolvesCreate(h: Hist, tx: Tx)
    requires Fresh(h, tx) && Inv(h) && tx.CreateTx?
    ensures Evolves(h, Next(h, tx))
  {
    CreateEffect(h.store, tx.req, tx.draws, tx.setup, tx.token, tx.now);
  }

  lemma EvolvesRegister(h: Hist, tx: Tx)
    requires tx.RegisterTx?
    ensures Evolves(h, Next(h, tx))
  {
  }

  lemma EvolvesDelete(h: Hist, tx: Tx)
    requires tx.DeleteTx?
    ensures Evolves(h, Next(h, tx))
  {
  }

  lemma EvolvesStep(h: Hist, tx: Tx)
    requires Fresh(h, tx) && Inv(h)
    ensures Evolves(h, Next(h, tx))
  {
    match tx
    case CreateTx(_, _, _, _, _) => EvolvesCreate(h, tx);
    case RegisterTx(_, _) => EvolvesRegister(h, tx);
    case DeleteTx(_) => EvolvesDelete(h, tx);
    case _ =>
  }

  lemma EvolvesTransitive(a: Hist, b: Hist, c: Hist)
    requires Evolves(a, b) && Evolves(b, c)
    ensures Evolves(a, c)
  {
  }

  /** Under every interleaving of transactions: no deleted session comes back, a public key is
      written at most once, an activation is never undone, and identity, ports, mode, role,
      expiry and the infinity flag never change after creation. */
  lemma {:induction false} EvolvesRun(h: Hist, txs: seq<Tx>)
    requires Inv(h) && FreshRun(h, txs)
    ensures Evolves(h, Run(h, txs))
    decreases |txs|
  {
    if txs != [] {
      InvStep(h, txs[0]);
      EvolvesStep(h, txs[0]);
      EvolvesRun(Next(h, txs[0]), txs[1..]);
      EvolvesTransitive(h, Next(h, txs[0]), Run(h, txs));
    }
  }

  // ----- when the public-key index is exact -----

  /** The index holds the lower-case key of every keyed session, and nothing else. */
  ghost predicate PubkeyExact(st: Store) {
    && (forall t | t in st.sessions && |st.sessions[t].pubKey| > 0 ::
          var p := Hex.Encode(st.sessions[t].pubKey); p in st.byPubkey && st.byPubkey[p] == t)
    && (forall p | p in st.byPubkey ::
          && st.byPubkey[p] in st.sessions
          && |st.sessions[st.byPubkey[p]].pubKey| > 0
          && Hex.Encode(st.sessions[st.byPubkey[p]].pubKey) == p)
  }

  lemma RegisterKeepsExact(st: Store, t: string, p: string)
    requires PubkeyExact(st) && Register(st, t, p).1
    requires Hex.IsLower(p) && p !in st.byPubkey
    ensures PubkeyExact(Register(st, t, p).0)
  {
    var st' := Register(st, t, p).0;
    Hex.EncodeDecode(p);
    assert Hex.Encode(st'.sessions[t].pubKey) == p;
    forall u | u in st'.sessions && |st'.sessions[u].pubKey| > 0
      ensures var q := Hex.Encode(st'.sessions[u].pubKey); q in st'.byPubkey && st'.byPubkey[q] == u
    {
      if u != t {
        assert st'.sessions[u] == st.sessions[u];
      }
    }
    forall q | q in st'.byPubkey
      ensures var u := st'.byPubkey[q];
        u in st'.sessions && |st'.sessions[u].pubKey| > 0 && Hex.Encode(st'.sessions[u].pubKey) == q
    {
      if q != p {
        assert st'.byPubkey[q] == st.byPubkey[q] != t;
      }
    }
  }

  lemma RegisterBreaksExact(st: Store, t: string, p: string)
    requires PubkeyExact(st) && Register(st, t, p).1
    requires !Hex.IsLower(p) || p in st.byPubkey
    ensures !PubkeyExact(Register(st, t, p).0)
  {
    var st' := Register(st, t, p).0;
    Hex.EncodeDecode(p);
    assert p in st'.byPubkey && st'.byPubkey[p] == t;
    if p in st.byPubkey {
      var u := st.byPubkey[p];
      assert u != t && st'.sessions[u] == st.sessions[u];
    }
  }

  /** A registration keeps the index exact if and only if it is refused, or its key is written
      in lower case and not in use by another session. */
  lemma RegisterExactIff(st: Store, t: string, p: string)
    requires PubkeyExact(st)
    ensures PubkeyExact(Register(st, t, p).0) <==>
            !Register(st, t, p).1 || (Hex.IsLower(p) && p !in st.byPubkey)
  {
    if Register(st, t, p).1 {
      if Hex.IsLower(p) && p !in st.byPubkey {
        RegisterKeepsExact(st, t, p);
      } else {
        RegisterBreaksExact(st, t, p);
      }
    }
  }

  /** In an exact index, looking a key up is scanning all sessions for it. */
  lemma PubkeyLookupIsScan(st: Store, key: seq<byte>)
    requires PubkeyExact(st) && SubExact(st) && key != []
    ensures forall s :: GetByPubkey(st, Hex.Encode(key)) == Some(s) <==> s in st.sessions.Values && s.pubKey == key
  {
    var p := Hex.Encode(key);
    Hex.DecodeEncode(key);
    forall s | s in st.sessions.Values && s.pubKey == key
      ensures GetByPubkey(st, p) == Some(s)
    {
      var t :| t in st.sessions && st.sessions[t] == s;
    }
    if p in st.byPubkey {
      Hex.DecodeEncode(st.sessions[st.byPubkey[p]].pubKey);
    }
  }

  /** Deletion takes one session out of every look-up and leaves every other session in all of them. */
  lemma DeleteLookups(st: Store, t: string, u: string)
    requires PubkeyExact(st) && SubExact(st) && t in st.sessions && u in st.sessions
    ensures var (st', s) := (Delete(st, t), st.sessions[u]);
      && Get(st', u) == (if u == t then None else Some(s))
      && GetBySubdomain(st', s.subdomain) == (if u == t then None else Some(s))
      && (s.pubKey != [] ==> GetByPubkey(st', Hex.Encode(s.pubKey)) == if u == t then None else Some(s))
  {
  }

  /** Deleting a session from an exact index leaves no stale entry. */
  lemma DeleteExact(st: Store, t: string)
    requires PubkeyExact(st)
    ensures PubkeyExact(Delete(st, t))
    ensures forall p | p in Delete(st, t).byPubkey :: Delete(st, t).byPubkey[p] != t
  {
    if t in st.sessions {
      var st' := Delete(st, t);
      forall u | u in st'.sessions && |st'.sessions[u].pubKey| > 0
        ensures Hex.Encode(st'.sessions[u].pubKey) in st'.byPubkey
      {
        assert st.byPubkey[Hex.Encode(st.sessions[u].pubKey)] == u;
      }
    }
  }

  lemma RunOfOne(h: Hist, tx: Tx)
    requires Fresh(h, tx)
    ensures FreshRun(h, [tx]) && Run(h, [tx]) == Next(h, tx)
  {
    assert [tx][1..] == [];
    assert FreshRun(Next(h, tx), []) && Run(Next(h, tx), []) == Next(h, tx);
  }

  lemma RunOfThree(h: Hist, a: Tx, b: Tx, c: Tx)
    requires Fresh(h, a) && Fresh(Next(h, a), b) && Fresh(Next(Next(h, a), b), c)
    ensures FreshRun(h, [a, b, c]) && Run(h, [a, b, c]) == Next(Next(Next(h, a), b), c)
  {
    RunOfOne(Next(Next(h, a), b), c);
    assert [b, c][1..] == [c];
    assert FreshRun(Next(h, a), [b, c]) && Run(Next(h, a), [b, c]) == Next(Next(Next(h, a), b), c);
    assert [a, b, c][1..] == [b, c];
  }

  lemma RegisterMixedCase(st: Store, t: string)
    requires t in st.sessions && !st.sessions[t].activated && st.sessions[t].pubKey == []
    ensures Register(st, t, "AB").0 ==
      st.(sessions := st.sessions[t := st.sessions[t].(pubKey := [0xAB])], byPubkey := st.byPubkey["AB" := t])
  {
    assert "AB"[2..] == "";
    assert Hex.DigitPair(10, 11) == 0xAB;
    var none: seq<byte> := [];
    assert [Hex.DigitPair(10, 11)] + none == [0xAB];
    assert Hex.Decode("AB") == Some([0xAB]);
  }

  /** A run with one mixed-case registration: the session goes, its entry stays. */
  lemma StaleEntry(req: Request, draws: seq<seq<byte>>, now: Time) returns (txs: seq<Tx>)
    requires req.preferred == "abc" && |draws| >= ATTEMPTS
    ensures FreshRun(EMPTY_HIST, txs)
    ensures var st := Run(EMPTY_HIST, txs).store; st.sessions == map[] && "AB" in st.byPubkey && !PubkeyExact(st)
  {
    var create, register, delete := CreateTx(req, draws, "t", "u", now), RegisterTx("t", "AB"), DeleteTx("t");
    txs := [create, register, delete];
    RunOfThree(EMPTY_HIST, create, register, delete);
    var s := NewSession(req, "abc", "t", "u", now);
    var h1 := Next(EMPTY_HIST, create);
    assert h1.store == Store(map["t" := s], map[], map["abc" := "t"]);
    RegisterMixedCase(h1.store, "t");
    var h2 := Next(h1, register);
    assert h2.store == Store(map["t" := s.(pubKey := [0xAB])], map["AB" := "t"], map["abc" := "t"]);
    StaleAfterDelete(h2, s.(pubKey := [0xAB]));
  }

  lemma StaleAfterDelete(h: Hist, s: Session)
    requires h.store == Store(map["t" := s], map["AB" := "t"], map["abc" := "t"])
    requires s.pubKey == [0xAB] && s.subdomain == "abc"
    ensures var st := Delete(h.store, "t"); st.sessions == map[] && "AB" in st.byPubkey && !PubkeyExact(st)
  {
    Hex.DecodeEncode(s.pubKey);
    assert Hex.IsLower(Hex.Encode(s.pubKey)) && !Hex.IsLower("AB") by {
      assert "AB"[0] == 'A';
    }
  }

  predicate SameKeys(st: Store, st': Store) {
    && st'.byPubkey == st.byPubkey
    && (forall t | t in st.sessions :: t in st'.sessions && st'.sessions[t].pubKey == st.sessions[t].pubKey)
    && (forall t | t in st'.sessions && t !in st.sessions :: st'.sessions[t].pubKey == [])
  }

  lemma SameKeysExact(st: Store, st': Store)
    requires PubkeyExact(st) && SameKeys(st, st')
    ensures PubkeyExact(st')
  {
  }

  lemma OtherTxKeys(h: Hist, tx: Tx)
    requires TokensIssued(h) && Fresh(h, tx) && !tx.RegisterTx? && !tx.DeleteTx?
    ensures SameKeys(h.store, Apply(h.store, tx))
  {
    if tx.CreateTx? {
      CreateEffect(h.store, tx.req, tx.draws, tx.setup, tx.token, tx.now);
    }
  }

  /** Registrations in a run use pairwise distinct lower-case keys, none of them in `used`. */
  predicate DistinctLowerKeys(txs: seq<Tx>, used: set<string>)
    decreases |txs|
  {
    txs == [] ||
    if txs[0].RegisterTx? then
      Hex.IsLower(txs[0].pubHex) && txs[0].pubHex !in used && DistinctLowerKeys(txs[1..], used + {txs[0].pubHex})
    else DistinctLowerKeys(txs[1..], used)
  }

  /** With distinct lower-case keys the index is exact in every reachable state. */
  lemma {:induction false} PubkeyExactRun(h: Hist, txs: seq<Tx>, used: set<string>)
    requires Inv(h) && FreshRun(h, txs)
    requires PubkeyExact(h.store) && h.store.byPubkey.Keys <= used && DistinctLowerKeys(txs, used)
    ensures PubkeyExact(Run(h, txs).store)
    decreases |txs|
  {
    if txs != [] {
      var tx := txs[0];
      InvStep(h, tx);
      match tx {
        case RegisterTx(t, p) => RegisterExactIff(h.store, t, p);
        case DeleteTx(t) => DeleteExact(h.store, t);
        case _ =>
          OtherTxKeys(h, tx);
          SameKeysExact(h.store, Apply(h.store, tx));
      }
      PubkeyExactRun(Next(h, tx), txs[1..], if tx.RegisterTx? then used + {tx.pubHex} else used);
    }
  }
}
