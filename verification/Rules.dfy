/** The decisions of the server that depend only on a session, the configuration, the clock and
    the connected tunnels: who may activate, and which sessions the cleaner removes. */
module Rules {
  import opened Common
  import opened SessionStore

  datatype Permissions = Permissions(createTunnel: bool, rawTCP: bool, infinity: bool)

  datatype Config = Config(
    publicPerms: Permissions, authPerms: Permissions, maxSessions: int, gracePeriod: Time, ttl: Time,
    domain: string, rootPage: bool, requests: Limit, regenerations: Limit)

  /** So many requests of one address in any window. */
  datatype Limit = Limit(count: int, window: Time)

  /** Signature verification of public key, message and signature; any function will do. */
  type Verifier = (seq<byte>, string, seq<byte>) -> bool

  datatype Proto = TcpPipe | UdpPipe

  /** The tunnels connected right now, by server port and protocol. */
  type Pipes = set<(int, Proto)>

  const NONCE_TTL: Time := 5 * MINUTE
  const PUBLIC_KEY_SIZE := 32

  /** A verify request; the signature is None when it is not valid base64. */
  datatype VerifyRequest = VerifyRequest(pubHex: string, signature: Option<seq<byte>>, nonce: string)

  predicate NonceValid(s: Session, nonce: string, now: Time) {
    s.nonce != "" && s.nonce == nonce && now - s.nonceAt <= NONCE_TTL
  }

  datatype Refusal =
    | UnknownPubkey | AlreadyActivated | BadSignatureEncoding | BadNonce | BadPubkey | BadSignature

  /** The checks of a verify request against the session it names, in the order they are made. */
  function CheckRequest(ed: Verifier, s: Session, req: VerifyRequest, now: Time): Result<(), Refusal> {
    if req.signature.None? then Err(BadSignatureEncoding)
    else if !NonceValid(s, req.nonce, now) then Err(BadNonce)
    else
      match Hex.Decode(req.pubHex)
      case None => Err(BadPubkey)
      case Some(key) =>
        if |key| != PUBLIC_KEY_SIZE then Err(BadPubkey)
        else if !ed(key, req.nonce, req.signature.value) then Err(BadSignature)
        else Ok(())
  }

  /** Whether the configuration lets the session's role use its mode and infinity flag. */
  predicate Permitted(cfg: Config, s: Session) {
    var perms := if s.role == "public" then cfg.publicPerms else cfg.authPerms;
    && (s.mode.Tcp? || s.mode.TcpUdp? ==> perms.rawTCP)
    && (s.mode.Http? ==> perms.createTunnel)
    && (s.infinity ==> perms.infinity)
  }

  predicate Disconnected(s: Session, pipes: Pipes) {
    match s.mode
    case Tcp => (s.serverPort, TcpPipe) !in pipes
    case TcpUdp => (s.serverPort, TcpPipe) !in pipes && (s.serverPort, UdpPipe) !in pipes
    case Http => (s.serverPort, TcpPipe) !in pipes
    case OtherMode(_) => false
  }

  predicate InGrace(cfg: Config, s: Session, now: Time) {
    cfg.gracePeriod > 0 && s.activatedAt != 0 && now - s.activatedAt < cfg.gracePeriod
  }

  predicate Expired(cfg: Config, s: Session, now: Time) {
    cfg.ttl > 0 && !s.infinity && now > s.expiresAt
  }

  /** What the cleaner removes: activated, past the grace period, and either disconnected or expired. */
  predicate Doomed(cfg: Config, s: Session, now: Time, pipes: Pipes) {
    s.activated && !InGrace(cfg, s, now) && (Disconnected(s, pipes) || Expired(cfg, s, now))
  }

  /** What a scan has collected: tokens to remove, by reason, and routes. */
  datatype Plan = Plan(expired: seq<string>, disconnected: seq<string>, httpRoutes: seq<string>)

  const EMPTY_PLAN := Plan([], [], [])

  /** The scan's look at one session. */
  function Look(cfg: Config, p: Plan, s: Session, now: Time, pipes: Pipes): Plan {
    if !Doomed(cfg, s, now, pipes) then p
    else
      Plan(if Disconnected(s, pipes) then p.expired else p.expired + [s.setupToken],
           if Disconnected(s, pipes) then p.disconnected + [s.setupToken] else p.disconnected,
           if s.mode.Http? then p.httpRoutes + [s.subdomain] else p.httpRoutes)
  }

  /** The last instant at which a pass of the cleaner may still leave a finite session alone. */
  function Deadline(cfg: Config, s: Session): Time {
    Max(s.expiresAt, s.activatedAt + Max(cfg.gracePeriod, 0))
  }

  lemma SparedUntilDeadline(cfg: Config, s: Session, now: Time, pipes: Pipes)
    requires s.activated && !s.infinity && cfg.ttl > 0 && !Doomed(cfg, s, now, pipes)
    ensures now <= Deadline(cfg, s)
  {
  }
}
