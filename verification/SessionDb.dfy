/** The session store as the program holds it: buckets changed in place by transactions, and the
    private session copies that request handlers work on. Every method is tied to the
    corresponding function of `SessionStore`. */
module SessionDb {
  import opened Common
  import Labels
  import Spec = SessionStore

  /** A handler's private copy of a stored session. Changing it leaves the store alone. */
  class SessionCopy {
    var data: Spec.Session

    constructor FromData(d: Spec.Session)
      ensures data == d
    {
      data := d;
    }

    method SetNonce(nonce: string, now: Time)
      modifies this
      ensures data == old(data).(nonce := nonce, nonceAt := now)
    {
      data := data.(nonce := nonce);
      data := data.(nonceAt := now);
    }

    /** Accepts the current nonce while it is young enough, and clears it in this copy only. */
    method ConsumeNonce(nonce: string, ttl: Time, now: Time) returns (ok: bool)
      modifies this
      ensures ok <==> old(data).nonce != "" && old(data).nonce == nonce && now - old(data).nonceAt <= ttl
      ensures data == if ok then old(data).(nonce := "") else old(data)
    {
      if data.nonce == "" || data.nonce != nonce || now - data.nonceAt > ttl {
        return false;
      }
      data := data.(nonce := "");
      return true;
    }

    method Activate(now: Time)
      modifies this
      ensures data == old(data).(activated := true, activatedAt := now)
    {
      data := data.(activated := true);
      data := data.(activatedAt := now);
    }
  }

  /** The sequence lists every stored session exactly once. */
  ghost predicate Enumerates(out: seq<Spec.Session>, st: Spec.Store) {
    && (forall i | 0 <= i < |out| ::
          out[i].setupToken in st.sessions && st.sessions[out[i].setupToken] == out[i])
    && (forall i, j | 0 <= i < j < |out| :: out[i].setupToken != out[j].setupToken)
    && (forall t | t in st.sessions :: exists i :: 0 <= i < |out| && out[i] == st.sessions[t])
  }

  class Database {
    var sessions: map<string, Spec.Session>
    var byPubkey: map<string, string>
    var bySub: map<string, string>

    constructor ()
      ensures State() == Spec.EMPTY_STORE
    {
      sessions, byPubkey, bySub := map[], map[], map[];
    }

    function State(): Spec.Store
      reads this
    {
      Spec.Store(sessions, byPubkey, bySub)
    }

    /** Up to 100 random names, stopping at the first one not in use. */
    method GenerateSubdomain(n: nat, draws: seq<seq<byte>>) returns (r: Result<string, Spec.CreateError>)
      requires |draws| >= Spec.ATTEMPTS
      ensures r == Spec.Generate(bySub, n, draws, 0)
    {
      var sub := "";
      var attempts := 0;
      while attempts < Spec.ATTEMPTS
        invariant attempts <= Spec.ATTEMPTS
        invariant attempts > 0 ==> sub in bySub
        invariant Spec.Generate(bySub, n, draws, 0) == Spec.Generate(bySub, n, draws, attempts)
      {
        var drawn := Labels.RandString(n, draws[attempts]);
        if drawn.None? {
          return Err(Spec.RandomFailed);
        }
        sub := drawn.value;
        if sub !in bySub {
          break;
        }
        attempts := attempts + 1;
      }
      if sub in bySub {
        return Err(Spec.NoUniqueSubdomain);
      }
      return Ok(sub);
    }

    method CreateSession(req: Spec.Request, draws: seq<seq<byte>>, setup: string, token: string, now: Time)
      returns (r: Result<Spec.Session, Spec.CreateError>)
      requires |draws| >= Spec.ATTEMPTS
      modifies this
      ensures (State(), r) == Spec.Create(old(State()), req, draws, setup, token, now)
    {
      var sub := "";
      if req.preferred != "" {
        var ok := Labels.ValidateSubdomain(req.preferred);
        if !ok {
          return Err(Spec.InvalidSubdomain);
        }
        if req.preferred in bySub {
          return Err(Spec.SubdomainInUse);
        }
        sub := req.preferred;
      } else {
        var generated := GenerateSubdomain(req.subdomainLen, draws);
        if generated.Err? {
          return Err(generated.error);
        }
        sub := generated.value;
      }
      if !KeyOk(setup) || !KeyOk(sub) {
        return Err(Spec.PutFailed);
      }
      var s := Spec.NewSession(req, sub, setup, token, now);
      sessions := sessions[setup := s];
      bySub := bySub[sub := setup];
      return Ok(s);
    }

    method RegisterPubkey(t: string, pubHex: string) returns (ok: bool)
      modifies this
      ensures (State(), ok) == Spec.Register(old(State()), t, pubHex)
    {
      if t !in sessions {
        return false;
      }
      var s := sessions[t];
      if s.activated || |s.pubKey| > 0 {
        return false;
      }
      var key := Spec.Hex.Decode(pubHex);
      if key.None? || !KeyOk(pubHex) {
        return false;
      }
      sessions := sessions[t := s.(pubKey := key.value)];
      byPubkey := byPubkey[pubHex := t];
      return true;
    }

    method DeleteSession(t: string)
      modifies this
      ensures State() == Spec.Delete(old(State()), t)
    {
      if t !in sessions {
        return;
      }
      var s := sessions[t];
      sessions := sessions - {t};
      bySub := bySub - {s.subdomain};
      if |s.pubKey| > 0 {
        byPubkey := byPubkey - {Spec.Hex.Encode(s.pubKey)};
      }
    }

    method UpdateSessionNonce(t: string, nonce: string, at: Time) returns (ok: bool)
      modifies this
      ensures (State(), ok) == Spec.UpdateNonce(old(State()), t, nonce, at)
    {
      if t !in sessions {
        return false;
      }
      sessions := sessions[t := sessions[t].(nonce := nonce, nonceAt := at)];
      return true;
    }

    method ActivateSession(t: string, now: Time) returns (ok: bool)
      modifies this
      ensures (State(), ok) == Spec.Activate(old(State()), t, now)
    {
      if t !in sessions {
        return false;
      }
      sessions := sessions[t := sessions[t].(activated := true, activatedAt := now, nonce := "")];
      return true;
    }

    method GetByPubkey(pubHex: string) returns (copy: SessionCopy?)
      ensures copy == null <==> Spec.GetByPubkey(State(), pubHex).None?
      ensures copy != null ==> fresh(copy) && Spec.GetByPubkey(State(), pubHex) == Some(copy.data)
    {
      if pubHex !in byPubkey || byPubkey[pubHex] !in sessions {
        return null;
      }
      copy := new SessionCopy.FromData(sessions[byPubkey[pubHex]]);
    }

    /** A snapshot of all sessions, in whatever order the bucket is walked. */
    method AllSessions() returns (out: seq<Spec.Session>)
      requires Spec.SubExact(State())
      ensures Enumerates(out, State())
    {
      out := [];
      var rest := sessions.Keys;
      while rest != {}
        invariant rest <= sessions.Keys
        invariant forall i | 0 <= i < |out| ::
            out[i].setupToken in sessions && out[i].setupToken !in rest && sessions[out[i].setupToken] == out[i]
        invariant forall i, j | 0 <= i < j < |out| :: out[i].setupToken != out[j].setupToken
        invariant forall t | t in sessions && t !in rest :: exists i :: 0 <= i < |out| && out[i] == sessions[t]
        decreases rest
      {
        var t :| t in rest;
        ghost var before := out;
        out := out + [sessions[t]];
        rest := rest - {t};
        assert out[|before|] == sessions[t];
        assert forall i | 0 <= i < |before| :: out[i] == before[i];
      }
    }
  }
}
