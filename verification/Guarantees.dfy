/** What users of the server may rely on, from request to forwarded traffic, in terms of requests, records, times
    and tunnels alone. */
module Guarantees {
  import opened Common
  import opened Rules
  import opened SessionStore
  import opened World
  import W = World
  import Hex
  import Hosts
  import Labels

  // ----- the cleaner -----

  /** Exactly when a pass removes a stored session. */
  lemma RemovedIff(w: World, now: Time, pipes: Pipes, t: string)
    requires Agreement(w) && t in w.store.sessions
    ensures var (s, st', cfg) := (w.store.sessions[t], Clean(w, now, pipes).store, w.cfg);
      var (tcp, udp) := ((s.serverPort, TcpPipe) in pipes, (s.serverPort, UdpPipe) in pipes);
      && (t !in st'.sessions <==>
            && s.activated
            && !(cfg.gracePeriod > 0 && s.activatedAt != 0 && now - s.activatedAt < cfg.gracePeriod)
            && (|| ((s.mode.Http? || s.mode.Tcp?) && !tcp)
                || (s.mode.TcpUdp? && !tcp && !udp)
                || (cfg.ttl > 0 && !s.infinity && now > s.expiresAt)))
      && (t in st'.sessions ==> st'.sessions[t] == s)
  {
    CleanExact(w, now, pipes);
  }

  /** The tunnel the cleaner looks for is the one traffic needs: after a pass, beyond the grace period and within its
      lifetime, an activated http session forwards an authorised request over the tunnels that the pass saw
      if and only if the pass spared it. */
  lemma SparedIffForwards(w: World, now: Time, pipes: Pipes, t: string, domain: string, port: Option<string>,
                          creds: Credentials, admits: string -> bool)
    requires Agreement(w) && t in w.store.sessions && ':' !in domain && (port.Some? ==> ':' !in port.value)
    requires var s := w.store.sessions[t];
      && s.activated && s.mode.Http? && (s.infinity || now <= s.expiresAt) && now >= s.activatedAt + Max(w.cfg.gracePeriod, 0)
      && (s.httpAuth == "" || creds == Basic(s.httpAuth))
      && (s.allowedIPs == [] || exists cidr :: cidr in s.allowedIPs && admits(cidr))
    ensures var (s, w') := (w.store.sessions[t], Clean(w, now, pipes));
      Proxy(w', Hosts.WithPort(s.subdomain + "." + domain, port), creds, admits, PipeSeen([pipes])) == Forward(s.serverPort)
      <==> t in w'.store.sessions
  {
    var s, w' := w.store.sessions[t], Clean(w, now, pipes);
    CleanAgreement(w, now, pipes);
    RemovedIff(w, now, pipes, t);
    assert [pipes][0] == pipes;
    if t in w'.store.sessions {
      ForwardIff(w', t, domain, port, creds, admits, [pipes], s.serverPort);
    } else {
      CleanExact(w, now, pipes);
      NoRouteNoForward(w', s.subdomain, domain, port, creds, admits, PipeSeen([pipes]));
    }
  }

  lemma NoRouteNoForward(w: World, sub: string, domain: string, port: Option<string>, creds: Credentials,
                         admits: string -> bool, pipe: int -> bool)
    requires Agreement(w) && PlainLabel(sub) && sub !in w.routes && ':' !in domain && (port.Some? ==> ':' !in port.value)
    ensures !Proxy(w, Hosts.WithPort(sub + "." + domain, port), creds, admits, pipe).Forward?
  {
    forall k | k in w.routes
      ensures PlainLabel(k)
    {
      var u :| u in w.store.sessions && LiveHttp(w.store.sessions[u]) && w.store.sessions[u].subdomain == k;
    }
    Hosts.HostRoundTrip(w.routes, sub, domain, port);
  }

  // ----- verification -----

  /** The request proves possession of the key of the pending session s. */
  ghost predicate Presents(ed: Verifier, w: World, req: VerifyRequest, now: Time, s: Session) {
    && req.pubHex in w.store.byPubkey && w.store.byPubkey[req.pubHex] in w.store.sessions
    && s == w.store.sessions[w.store.byPubkey[req.pubHex]] && !s.activated
    && s.nonce != "" && req.nonce == s.nonce && now <= s.nonceAt + 300_000_000_000
    && req.signature.Some? && Hex.Decode(req.pubHex).Some?
    && |Hex.Decode(req.pubHex).value| == 32 && ed(Hex.Decode(req.pubHex).value, req.nonce, req.signature.value)
  }

  /** Exactly when a request is granted: it names the key of a pending session, presents that session's nonce no later
      than five minutes after it was drawn, with a signature over it that verifies under the 32-byte key, and
      the permissions of the session's own role cover its mode and its infinity flag. */
  lemma ActivatedIff(ed: Verifier, w: World, req: VerifyRequest, now: Time)
    ensures Judge(ed, w, req, now).Activated? <==> exists s ::
      && Presents(ed, w, req, now, s)
      && (s.role == "public" ==>
            && (s.mode.Tcp? || s.mode.TcpUdp? ==> w.cfg.publicPerms.rawTCP)
            && (s.mode.Http? ==> w.cfg.publicPerms.createTunnel)
            && (s.infinity ==> w.cfg.publicPerms.infinity))
      && (s.role != "public" ==>
            && (s.mode.Tcp? || s.mode.TcpUdp? ==> w.cfg.authPerms.rawTCP)
            && (s.mode.Http? ==> w.cfg.authPerms.createTunnel)
            && (s.infinity ==> w.cfg.authPerms.infinity))
  {
    if GetByPubkey(w.store, req.pubHex).Some? {
      var s := GetByPubkey(w.store, req.pubHex).value;
      assert !Judge(ed, w, req, now).Refused? <==> Presents(ed, w, req, now, s);
    }
  }

  /** A request that proves possession is never refused: it is granted, or its session is deleted. One that does not is
      refused, and changes nothing. */
  lemma RefusedIff(ed: Verifier, w: World, req: VerifyRequest, now: Time)
    requires Agreement(w)
    ensures Judge(ed, w, req, now).Refused? <==> forall s :: !Presents(ed, w, req, now, s)
    ensures Judge(ed, w, req, now).Refused? ==> Verify(ed, w, req, now) == w
    ensures Judge(ed, w, req, now).Denied? ==>
      exists s :: Presents(ed, w, req, now, s) && s.setupToken !in Verify(ed, w, req, now).store.sessions
  {
    if GetByPubkey(w.store, req.pubHex).Some? {
      var s := GetByPubkey(w.store, req.pubHex).value;
      assert !Judge(ed, w, req, now).Refused? <==> Presents(ed, w, req, now, s);
    }
  }

  /** Why a request is refused: for the first check that fails, in this order. */
  lemma RefusalReasons(ed: Verifier, w: World, req: VerifyRequest, now: Time, s: Session)
    requires GetByPubkey(w.store, req.pubHex) == Some(s)
    ensures var (v, key) := (Judge(ed, w, req, now), Hex.Decode(req.pubHex));
      var current := s.nonce != "" && req.nonce == s.nonce && now <= s.nonceAt + 300_000_000_000;
      var sound := key.Some? && |key.value| == 32;
      && v != Refused(UnknownPubkey)
      && (v == Refused(AlreadyActivated) <==> s.activated)
      && (v == Refused(BadSignatureEncoding) <==> !s.activated && req.signature.None?)
      && (v == Refused(BadNonce) <==> !s.activated && req.signature.Some? && !current)
      && (v == Refused(BadPubkey) <==> !s.activated && req.signature.Some? && current && !sound)
      && (v == Refused(BadSignature) <==>
            !s.activated && req.signature.Some? && current && sound && !ed(key.value, req.nonce, req.signature.value))
  {
  }

  lemma UnknownKey(ed: Verifier, w: World, req: VerifyRequest, now: Time)
    ensures Judge(ed, w, req, now) == Refused(UnknownPubkey) <==>
      req.pubHex !in w.store.byPubkey || w.store.byPubkey[req.pubHex] !in w.store.sessions
  {
  }

  // ----- challenge -----

  /** A challenge stores the nonce and the instant it was drawn in the pending session that the key names, and changes
      nothing else. */
  lemma ChallengeStores(w: World, p: string, nonce: string, at: Time)
    requires Agreement(w) && p != "" && GetByPubkey(w.store, p).Some? && !GetByPubkey(w.store, p).value.activated
    ensures var (s, w') := (GetByPubkey(w.store, p).value, Challenge(w, p, nonce, at));
      && w'.store.sessions == w.store.sessions[s.setupToken := s.(nonce := nonce, nonceAt := at)]
      && w'.store.byPubkey == w.store.byPubkey && w'.store.bySub == w.store.bySub
      && w'.routes == w.routes && w'.users == w.users && w'.cfg == w.cfg
  {
  }

  /** No challenge is given for an empty or unknown key, or to an activated session; and nothing changes. */
  lemma NoChallenge(w: World, p: string, nonce: string, at: Time)
    requires p == "" || GetByPubkey(w.store, p).None? || GetByPubkey(w.store, p).value.activated
    ensures Challenge(w, p, nonce, at) == w
  {
  }

  /** An answered challenge is accepted: a nonce given to a pending session with a 32-byte key, signed under that key, is
      not refused within five minutes. */
  lemma AnswerAccepted(ed: Verifier, w: World, p: string, nonce: string, at: Time, sig: seq<byte>, now: Time)
    requires Agreement(w) && p != "" && GetByPubkey(w.store, p).Some? && !GetByPubkey(w.store, p).value.activated
    requires Hex.Decode(p).Some? && |Hex.Decode(p).value| == 32 && ed(Hex.Decode(p).value, nonce, sig)
    requires nonce != "" && at <= now <= at + 300_000_000_000
    ensures var s := GetByPubkey(w.store, p).value;
      Presents(ed, Challenge(w, p, nonce, at), VerifyRequest(p, Some(sig), nonce), now, s.(nonce := nonce, nonceAt := at))
  {
  }

  // ----- a session among all the others -----

  /** Session s is stored and pending; what the key index says of its token is its own key, and no other session has
      that key. */
  ghost predicate Stands(w: World, s: Session) {
    && s.setupToken in w.store.sessions && w.store.sessions[s.setupToken] == s && !s.activated
    && (forall q | q in w.store.byPubkey && w.store.byPubkey[q] == s.setupToken ::
          s.pubKey != [] && Hex.Decode(q) == Some(s.pubKey))
    && (s.pubKey != [] ==> forall u | u in w.store.sessions && u != s.setupToken :: w.store.sessions[u].pubKey != s.pubKey)
  }

  /** The key index finds s under p. */
  predicate FoundAt(w: World, s: Session, p: string) {
    Hex.Decode(p) == Some(s.pubKey) && s.pubKey != [] && p in w.store.byPubkey && w.store.byPubkey[p] == s.setupToken
  }

  /** An operation of anybody else: it registers nothing under token t, and names no key text that reads as `key`. */
  predicate ByOthers(op: Op, t: string, key: seq<byte>) {
    match op
    case RegisterOp(t', q) => t' != t && Hex.Decode(q) != Some(key)
    case ChallengeOp(q, _) => Hex.Decode(q) != Some(key)
    case VerifyOp(req) => Hex.Decode(req.pubHex) != Some(key)
    case _ => true
  }

  lemma EncodedKeys(st: Store, ts: set<string>, p: string)
    requires Hex.Decode(p).Some? && p in Keys(st, ts)
    ensures exists u :: u in ts && u in st.sessions && st.sessions[u].pubKey == Hex.Decode(p).value
  {
    var u :| u in ts && u in st.sessions && |st.sessions[u].pubKey| > 0 && Hex.Encode(st.sessions[u].pubKey) == p;
    Hex.DecodeEncode(st.sessions[u].pubKey);
  }

  lemma StandsScript(ed: Verifier, w: World, now: Time, op: Op, s: Session, p: string)
    requires Agreement(w) && Enabled(w, op) && Stands(w, s) && op.ScriptOp?
    ensures Stands(W.Next(ed, w, now, op), s) && (FoundAt(w, s, p) ==> FoundAt(W.Next(ed, w, now, op), s, p))
  {
    CreateEffect(w.store, op.req, op.draws, op.setup, op.token, now);
  }

  lemma StandsRegister(w: World, s: Session, p: string, t: string, q: string, key: seq<byte>)
    requires Stands(w, s) && (s.pubKey == [] || s.pubKey == key) && t != s.setupToken && Hex.Decode(q) != Some(key)
    ensures var w' := w.(store := Register(w.store, t, q).0);
      Stands(w', s) && (FoundAt(w, s, p) ==> FoundAt(w', s, p))
  {
  }

  /** Deleting another session takes no entry of s with it. */
  lemma StandsDelete(w: World, s: Session, p: string, ts: set<string>)
    requires Stands(w, s) && s.setupToken !in ts
    ensures var w' := w.(store := RemoveAll(w.store, ts));
      Stands(w', s) && (FoundAt(w, s, p) ==> FoundAt(w', s, p))
  {
    if FoundAt(w, s, p) && p in Keys(w.store, ts) {
      EncodedKeys(w.store, ts, p);
    }
  }

  lemma StandsVerify(ed: Verifier, w: World, now: Time, req: VerifyRequest, s: Session, p: string, key: seq<byte>)
    requires Agreement(w) && Stands(w, s) && (s.pubKey == [] || s.pubKey == key) && Hex.Decode(req.pubHex) != Some(key)
    ensures Stands(Verify(ed, w, req, now), s) && (FoundAt(w, s, p) ==> FoundAt(Verify(ed, w, req, now), s, p))
  {
    match Judge(ed, w, req, now)
    case Refused(_) =>
    case Denied(u) =>
      RemoveOne(w.store, u);
      StandsDelete(w, s, p, {u});
    case Activated(c) => StandsActivated(ed, w, now, req, s, p, key);
  }

  lemma StandsActivated(ed: Verifier, w: World, now: Time, req: VerifyRequest, s: Session, p: string, key: seq<byte>)
    requires Agreement(w) && Stands(w, s) && (s.pubKey == [] || s.pubKey == key) && Hex.Decode(req.pubHex) != Some(key)
    requires Judge(ed, w, req, now).Activated?
    ensures Stands(Verify(ed, w, req, now), s) && (FoundAt(w, s, p) ==> FoundAt(Verify(ed, w, req, now), s, p))
  {
    WritesOneSession(w.store, Judge(ed, w, req, now).s.setupToken, "", now);
  }

  lemma StandsChallenge(w: World, now: Time, q: string, nonce: string, s: Session, p: string, key: seq<byte>)
    requires Agreement(w) && Stands(w, s) && (s.pubKey == [] || s.pubKey == key) && Hex.Decode(q) != Some(key)
    ensures Stands(Challenge(w, q, nonce, now), s) && (FoundAt(w, s, p) ==> FoundAt(Challenge(w, q, nonce, now), s, p))
  {
  }

  /** Nothing anybody else does disturbs a pending session: no script, registration, challenge or verification, no
      cleaner pass, restart or change of configuration. */
  lemma StandsStep(ed: Verifier, w: World, now: Time, op: Op, s: Session, p: string, key: seq<byte>)
    requires Agreement(w) && Enabled(w, op) && Stands(w, s) && (s.pubKey == [] || s.pubKey == key)
    requires ByOthers(op, s.setupToken, key)
    ensures Stands(W.Next(ed, w, now, op), s) && (FoundAt(w, s, p) ==> FoundAt(W.Next(ed, w, now, op), s, p))
  {
    match op
    case ScriptOp(_, _, _, _) => StandsScript(ed, w, now, op, s, p);
    case RegisterOp(t, q) => StandsRegister(w, s, p, t, q, key);
    case ChallengeOp(q, nonce) => StandsChallenge(w, now, q, nonce, s, p, key);
    case VerifyOp(req) => StandsVerify(ed, w, now, req, s, p, key);
    case CleanOp(pipes) => StandsDelete(w, s, p, DoomedTokens(w, now, pipes));
    case _ =>
  }

  lemma {:induction false} StandsRun(ed: Verifier, ws: seq<World>, ops: seq<(Time, Op)>, i: nat, j: nat,
                                     s: Session, p: string, key: seq<byte>)
    requires IsRun(ed, ws, ops) && Agreement(ws[0]) && i <= j <= |ops|
    requires Stands(ws[i], s) && (s.pubKey == [] || s.pubKey == key)
    requires forall k | i <= k < j :: ByOthers(ops[k].1, s.setupToken, key)
    ensures Stands(ws[j], s) && (FoundAt(ws[i], s, p) ==> FoundAt(ws[j], s, p))
    decreases j
  {
    if i < j {
      StandsRun(ed, ws, ops, i, j - 1, s, p, key);
      RunStep(ed, ws, ops, j - 1, j - 1);
      StandsStep(ed, ws[j - 1], ops[j - 1].0, ops[j - 1].1, s, p, key);
    }
  }

  // ----- from the script to the tunnel -----

  /** The record a script request asks for, under the name it got. */
  function Asked(req: Request, sub: string, t: string, token: string, now: Time): Session {
    Session(pubKey := [], subdomain := sub, localPort := req.localPort, serverPort := req.serverPort,
            targetHost := if req.targetHost == "" then "localhost" else req.targetHost,
            token := token, setupToken := t, createdAt := now, expiresAt := if req.infinity then 0 else now + req.ttl,
            nonce := "", nonceAt := 0, activated := false, activatedAt := 0, mode := req.mode, role := req.role,
            httpAuth := req.httpAuth, allowedIPs := req.allowedIPs, infinity := req.infinity, username := req.username)
  }

  lemma Scripted(ed: Verifier, w: World, now: Time, req: Request, draws: seq<seq<byte>>, t: string, token: string)
    requires Agreement(w) && |draws| >= ATTEMPTS && t !in w.store.sessions && t !in w.store.byPubkey.Values
    requires t in W.Next(ed, w, now, ScriptOp(req, draws, t, token)).store.sessions
    ensures var w' := W.Next(ed, w, now, ScriptOp(req, draws, t, token));
      Stands(w', Asked(req, w'.store.sessions[t].subdomain, t, token, now))
  {
    CreateEffect(w.store, req, draws, t, token, now);
    CreateKeepsRequest(w.store, req, draws, t, token, now);
  }

  lemma Registered(w: World, s: Session, p: string)
    requires Stands(w, s) && s.pubKey == [] && Hex.Decode(p).Some? && |Hex.Decode(p).value| == 32
    requires forall u | u in w.store.sessions :: w.store.sessions[u].pubKey != Hex.Decode(p).value
    ensures var (w', s') := (w.(store := Register(w.store, s.setupToken, p).0), s.(pubKey := Hex.Decode(p).value));
      Stands(w', s') && FoundAt(w', s', p)
  {
    Hex.EncodeDecode(p);
    RegisterIff(w.store, s.setupToken, p);
  }

  lemma Challenged(w: World, s: Session, p: string, nonce: string, now: Time)
    requires Agreement(w) && Stands(w, s) && FoundAt(w, s, p)
    ensures var (w', s') := (Challenge(w, p, nonce, now), s.(nonce := nonce, nonceAt := now));
      Stands(w', s') && FoundAt(w', s', p)
  {
    assert p != "";
  }

  /** What becomes of a session whose owner has proved possession of its key. */
  ghost predicate Settled(w: World, w': World, s: Session, now: Time) {
    var perms := if s.role == "public" then w.cfg.publicPerms else w.cfg.authPerms;
    if (s.mode.Tcp? || s.mode.TcpUdp? ==> perms.rawTCP) && (s.mode.Http? ==> perms.createTunnel) && (s.infinity ==> perms.infinity)
    then
      && w'.store.sessions == w.store.sessions[s.setupToken := s.(activated := true, activatedAt := now, nonce := "")]
      && w'.users == w.users[s.subdomain := s.token]
      && w'.routes == (if s.mode.Http? then w.routes[s.subdomain := s.serverPort] else w.routes)
    else
      && w'.store.sessions == w.store.sessions - {s.setupToken}
      && s.subdomain !in w'.store.bySub && w'.users == w.users && w'.routes == w.routes
  }

  lemma Verified(ed: Verifier, w: World, s: Session, req: VerifyRequest, now: Time)
    requires Agreement(w) && Stands(w, s) && Presents(ed, w, req, now, s)
    ensures Settled(w, Verify(ed, w, req, now), s, now)
  {
  }

  /** A session's own path through any run. Its script request (step a), its registration with a new 32-byte key (b), a
      challenge (c) and the signed answer within five minutes (d) may lie anywhere among the operations of
      others, cleaner passes, restarts and changes of configuration. If the script request was served, the
      answer settles the session: with exactly the record asked for, the key, and the route and credential that
      go with it, if the configuration at that moment permits it to its role, and by its removal if not. */
  lemma Onboarded(ed: Verifier, ws: seq<World>, ops: seq<(Time, Op)>, a: nat, b: nat, c: nat, d: nat,
                  req: Request, draws: seq<seq<byte>>, t: string, token: string, p: string, nonce: string, sig: seq<byte>)
    returns (s: Session)
    requires IsRun(ed, ws, ops) && Agreement(ws[0]) && a < b < c < d < |ops|
    requires ops[a].1 == ScriptOp(req, draws, t, token) && t !in ws[a].store.byPubkey.Values && t in ws[a + 1].store.sessions
    requires ops[b].1 == RegisterOp(t, p) && Hex.Decode(p).Some? && |Hex.Decode(p).value| == 32
    requires forall u | u in ws[b].store.sessions :: ws[b].store.sessions[u].pubKey != Hex.Decode(p).value
    requires ops[c].1 == ChallengeOp(p, nonce) && nonce != ""
    requires ops[d].1 == VerifyOp(VerifyRequest(p, Some(sig), nonce)) && ed(Hex.Decode(p).value, nonce, sig)
    requires ops[d].0 <= ops[c].0 + 300_000_000_000
    requires forall k | a < k < d && k != b && k != c :: ByOthers(ops[k].1, t, Hex.Decode(p).value)
    ensures s == Asked(req, s.subdomain, t, token, ops[a].0).(pubKey := Hex.Decode(p).value, nonce := nonce, nonceAt := ops[c].0)
    ensures t in ws[d].store.sessions && ws[d].store.sessions[t] == s
    ensures Settled(ws[d], ws[d + 1], s, ops[d].0)
  {
    var key := Hex.Decode(p).value;
    var s0 := ToRegistration(ed, ws, ops, a, b, req, draws, t, token, key);
    ToChallenge(ed, ws, ops, b, c, s0, p);
    s := s0.(pubKey := key, nonce := nonce, nonceAt := ops[c].0);
    ToAnswer(ed, ws, ops, c, d, s0.(pubKey := key), p, nonce);
    RunStep(ed, ws, ops, d, d);
    Verified(ed, ws[d], s, VerifyRequest(p, Some(sig), nonce), ops[d].0);
  }

  lemma ToChallenge(ed: Verifier, ws: seq<World>, ops: seq<(Time, Op)>, b: nat, c: nat, s: Session, p: string)
    requires IsRun(ed, ws, ops) && Agreement(ws[0]) && b < c < |ops| && Stands(ws[b], s) && s.pubKey == []
    requires ops[b].1 == RegisterOp(s.setupToken, p) && Hex.Decode(p).Some? && |Hex.Decode(p).value| == 32
    requires forall u | u in ws[b].store.sessions :: ws[b].store.sessions[u].pubKey != Hex.Decode(p).value
    requires forall k | b < k < c :: ByOthers(ops[k].1, s.setupToken, Hex.Decode(p).value)
    ensures var s' := s.(pubKey := Hex.Decode(p).value); Stands(ws[c], s') && FoundAt(ws[c], s', p)
  {
    RunStep(ed, ws, ops, b, b);
    Registered(ws[b], s, p);
    StandsRun(ed, ws, ops, b + 1, c, s.(pubKey := Hex.Decode(p).value), p, Hex.Decode(p).value);
  }

  lemma ToAnswer(ed: Verifier, ws: seq<World>, ops: seq<(Time, Op)>, c: nat, d: nat, s: Session, p: string, nonce: string)
    requires IsRun(ed, ws, ops) && Agreement(ws[0]) && c < d < |ops| && Stands(ws[c], s) && FoundAt(ws[c], s, p)
    requires ops[c].1 == ChallengeOp(p, nonce)
    requires forall k | c < k < d :: ByOthers(ops[k].1, s.setupToken, s.pubKey)
    ensures var s' := s.(nonce := nonce, nonceAt := ops[c].0); Stands(ws[d], s') && FoundAt(ws[d], s', p)
  {
    RunStep(ed, ws, ops, c, c);
    Challenged(ws[c], s, p, nonce, ops[c].0);
    StandsRun(ed, ws, ops, c + 1, d, s.(nonce := nonce, nonceAt := ops[c].0), p, s.pubKey);
  }

  lemma ToRegistration(ed: Verifier, ws: seq<World>, ops: seq<(Time, Op)>, a: nat, b: nat,
                       req: Request, draws: seq<seq<byte>>, t: string, token: string, key: seq<byte>)
    returns (s: Session)
    requires IsRun(ed, ws, ops) && Agreement(ws[0]) && a < b < |ops|
    requires ops[a].1 == ScriptOp(req, draws, t, token) && t !in ws[a].store.byPubkey.Values && t in ws[a + 1].store.sessions
    requires forall k | a < k < b :: ByOthers(ops[k].1, t, key)
    ensures s == Asked(req, s.subdomain, t, token, ops[a].0) && Stands(ws[b], s)
  {
    RunStep(ed, ws, ops, a, a);
    Scripted(ed, ws[a], ops[a].0, req, draws, t, token);
    s := Asked(req, ws[a + 1].store.sessions[t].subdomain, t, token, ops[a].0);
    StandsRun(ed, ws, ops, a + 1, b, s, "", key);
  }

  lemma FirstScript(ed: Verifier, w: World, req: Request, draws: seq<seq<byte>>, at: Time)
    requires w.store == EMPTY_STORE && w.cfg.maxSessions <= 0 && req.preferred == "abc" && |draws| >= ATTEMPTS
    ensures W.Next(ed, w, at, ScriptOp(req, draws, "t", "u")).store.sessions == map["t" := Asked(req, "abc", "t", "u", at)]
  {
    Labels.ValidIffGrammar("abc");
    CreatePreferredIff(w.store, req, draws, "t", "u", at);
    CreateEffect(w.store, req, draws, "t", "u", at);
    CreateKeepsRequest(w.store, req, draws, "t", "u", at);
  }

  lemma FourSteps(ed: Verifier, w: World, ops: seq<(Time, Op)>) returns (ws: seq<World>)
    requires |ops| == 4 && ops[0].0 == ops[1].0 == ops[2].0 == ops[3].0
    requires Enabled(w, ops[0].1) && ops[1].1.RegisterOp? && ops[2].1.ChallengeOp? && ops[3].1.VerifyOp?
    ensures IsRun(ed, ws, ops) && ws[0] == w && ws[1] == W.Next(ed, w, ops[0].0, ops[0].1)
  {
    var w1 := W.Next(ed, w, ops[0].0, ops[0].1);
    var w2 := W.Next(ed, w1, ops[1].0, ops[1].1);
    var w3 := W.Next(ed, w2, ops[2].0, ops[2].1);
    ws := [w, w1, w2, w3, W.Next(ed, w3, ops[3].0, ops[3].1)];
  }

  /** The shortest such run: from an empty server, four requests in a row. */
  lemma FourRequests(ed: Verifier, cfg: Config, req: Request, draws: seq<seq<byte>>, p: string, nonce: string,
                     sig: seq<byte>, at: Time)
    returns (ws: seq<World>, ops: seq<(Time, Op)>, s: Session)
    requires cfg.maxSessions <= 0 && req.preferred == "abc" && |draws| >= ATTEMPTS
    requires Hex.Decode(p).Some? && |Hex.Decode(p).value| == 32 && nonce != "" && ed(Hex.Decode(p).value, nonce, sig)
    ensures IsRun(ed, ws, ops) && |ops| == 4 && ws[0] == World(EMPTY_STORE, map[], map[], cfg)
    ensures s == Asked(req, s.subdomain, "t", "u", at).(pubKey := Hex.Decode(p).value, nonce := nonce, nonceAt := at)
    ensures Settled(ws[3], ws[4], s, at)
  {
    var w := World(EMPTY_STORE, map[], map[], cfg);
    ops := [(at, ScriptOp(req, draws, "t", "u")), (at, RegisterOp("t", p)), (at, ChallengeOp(p, nonce)),
            (at, VerifyOp(VerifyRequest(p, Some(sig), nonce)))];
    FirstScript(ed, w, req, draws, at);
    ws := FourSteps(ed, w, ops);
    s := Onboarded(ed, ws, ops, 0, 1, 2, 3, req, draws, "t", "u", p, nonce, sig);
  }

  // ----- what was asked for is what is served -----

  /** An operation that does not hand token t out leaves its session gone, or grown. */
  lemma GrownStep(ed: Verifier, w: World, now: Time, op: Op, t: string)
    requires Agreement(w) && Enabled(w, op) && (op.ScriptOp? ==> op.setup != t)
    requires t in W.Next(ed, w, now, op).store.sessions
    ensures t in w.store.sessions && Grew(w.store.sessions[t], W.Next(ed, w, now, op).store.sessions[t])
  {
    match op
    case ScriptOp(req, draws, setup, token) => CreateEffect(w.store, req, draws, setup, token, now);
    case VerifyOp(req) => GrownVerify(ed, w, now, req, t);
    case RegisterOp(u, p) => GrownRegister(w.store, u, p, t);
    case _ =>
  }

  lemma GrownRegister(st: Store, u: string, p: string, t: string)
    requires t in Register(st, u, p).0.sessions
    ensures t in st.sessions && Grew(st.sessions[t], Register(st, u, p).0.sessions[t])
  {
  }

  lemma GrownVerify(ed: Verifier, w: World, now: Time, req: VerifyRequest, t: string)
    requires Agreement(w) && t in Verify(ed, w, req, now).store.sessions
    ensures t in w.store.sessions && Grew(w.store.sessions[t], Verify(ed, w, req, now).store.sessions[t])
  {
    match Judge(ed, w, req, now)
    case Refused(_) =>
    case Denied(_) =>
    case Activated(s) => WritesOneSession(w.store, s.setupToken, "", now);
  }

  lemma {:induction false} GrownRun(ed: Verifier, ws: seq<World>, ops: seq<(Time, Op)>, i: nat, n: nat, t: string)
    requires IsRun(ed, ws, ops) && Agreement(ws[0]) && i <= n <= |ops| && t in ws[n].store.sessions
    requires forall k | i <= k < n :: ops[k].1.ScriptOp? ==> ops[k].1.setup != t
    ensures t in ws[i].store.sessions && Grew(ws[i].store.sessions[t], ws[n].store.sessions[t])
    decreases n
  {
    if i < n {
      RunStep(ed, ws, ops, n - 1, n - 1);
      GrownStep(ed, ws[n - 1], ops[n - 1].0, ops[n - 1].1, t);
      GrownRun(ed, ws, ops, i, n - 1, t);
    }
  }

  /** Step a created the session of token t, which no later request is given. */
  ghost predicate CreatedAt(ws: seq<World>, ops: seq<(Time, Op)>, a: nat, n: nat, req: Request, t: string) {
    && a < n <= |ops| < |ws| && ops[a].1.ScriptOp? && ops[a].1.req == req && ops[a].1.setup == t
    && t in ws[n].store.sessions && (forall k | a < k < n :: ops[k].1.ScriptOp? ==> ops[k].1.setup != t)
  }

  lemma CreatedRecord(ed: Verifier, ws: seq<World>, ops: seq<(Time, Op)>, a: nat, n: nat, req: Request, t: string)
    requires IsRun(ed, ws, ops) && Agreement(ws[0]) && CreatedAt(ws, ops, a, n, req, t)
    ensures var s := ws[n].store.sessions[t];
      Grew(Asked(req, s.subdomain, t, s.token, ops[a].0), s) && (req.preferred != "" ==> s.subdomain == req.preferred)
  {
    GrownRun(ed, ws, ops, a + 1, n, t);
    RunStep(ed, ws, ops, a, a);
    CreateEffect(ws[a].store, req, ops[a].1.draws, t, ops[a].1.token, ops[a].0);
    CreateKeepsRequest(ws[a].store, req, ops[a].1.draws, t, ops[a].1.token, ops[a].0);
  }

  /** At any later point of the run, as long as the session is there, traffic to its subdomain is forwarded exactly as its
      script request asked: to that port, to those who present that password, from addresses that list admits. */
  lemma RequestHonoured(ed: Verifier, ws: seq<World>, ops: seq<(Time, Op)>, a: nat, n: nat, req: Request, t: string,
                        domain: string, port: Option<string>, creds: Credentials, admits: string -> bool,
                        polls: seq<Pipes>, p: int)
    requires IsRun(ed, ws, ops) && Agreement(ws[0]) && CreatedAt(ws, ops, a, n, req, t)
    requires ':' !in domain && (port.Some? ==> ':' !in port.value)
    ensures var s := ws[n].store.sessions[t];
      Proxy(ws[n], Hosts.WithPort(s.subdomain + "." + domain, port), creds, admits, PipeSeen(polls)) == Forward(p) <==>
        && s.activated && req.mode.Http? && req.serverPort == p
        && (req.httpAuth == "" || creds == Basic(req.httpAuth))
        && (req.allowedIPs == [] || exists cidr :: cidr in req.allowedIPs && admits(cidr))
        && (exists i :: 0 <= i < |polls| && (p, TcpPipe) in polls[i])
  {
    AgreementRun(ed, ws, ops, n);
    CreatedRecord(ed, ws, ops, a, n, req, t);
    ForwardIff(ws[n], t, domain, port, creds, admits, polls, p);
  }

  /** Reckoned from the request: with a pass at most delta ago, an activated session that was not asked to be infinite is
      no more than delta past the lifetime it was given at its creation, or else no more than delta past
      the grace period that began with its activation. */
  lemma LifetimeFromRequest(ed: Verifier, ws: seq<World>, ops: seq<(Time, Op)>, a: nat, pass: nat, n: nat,
                            req: Request, t: string, now: Time, delta: Time)
    requires IsRun(ed, ws, ops) && Agreement(ws[0]) && CreatedAt(ws, ops, a, n, req, t) && pass < n
    requires ops[pass].1.CleanOp? && ws[pass].cfg.ttl > 0 && now - delta <= ops[pass].0
    requires ws[n].store.sessions[t].activated && !req.infinity
    ensures var (s, grace) := (ws[n].store.sessions[t], ws[pass].cfg.gracePeriod);
      || now <= ops[a].0 + req.ttl + delta
      || now <= s.activatedAt + (if grace > 0 then grace else 0) + delta
  {
    CreatedRecord(ed, ws, ops, a, n, req, t);
    BoundedLifetime(ed, ws, ops, pass, n, now, delta, t);
  }

  // ----- configuration -----

  /** A new configuration is in force from the step that brings it, and that step changes nothing else; a restart brings
      one too, keeps the store, and leaves memory in agreement with it. */
  lemma Reconfigured(ed: Verifier, w: World, now: Time, order: seq<Session>, cfg: Config)
    ensures W.Next(ed, w, now, ConfigOp(cfg)) == World(w.store, w.routes, w.users, cfg)
    ensures SubExact(w.store) && LabelsPlain(w.store) && Enabled(w, RestartOp(order, cfg)) ==>
      var w' := W.Next(ed, w, now, RestartOp(order, cfg)); w'.store == w.store && w'.cfg == cfg && Agreement(w')
  {
    if SubExact(w.store) && LabelsPlain(w.store) && Enabled(w, RestartOp(order, cfg)) {
      ReloadExact(order, w.store);
    }
  }

  // ----- admission -----

  /** A script request is served if and only if there is room, and its name can be had. */
  lemma ServedIff(ed: Verifier, w: World, now: Time, req: Request, draws: seq<seq<byte>>, t: string, token: string)
    requires Agreement(w) && |draws| >= 100 && t !in w.store.sessions && 1 <= |t| <= 32768 && req.preferred != ""
    ensures t in W.Next(ed, w, now, ScriptOp(req, draws, t, token)).store.sessions <==>
      && (w.cfg.maxSessions <= 0 || |w.store.sessions| < w.cfg.maxSessions)
      && Labels.Label(req.preferred) && 3 <= |req.preferred| <= 63
      && !(exists u :: u in w.store.sessions && w.store.sessions[u].subdomain == req.preferred)
  {
    CreatePreferredIff(w.store, req, draws, t, token, now);
    CreateEffect(w.store, req, draws, t, token, now);
  }
}
