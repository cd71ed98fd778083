/** Runs of the fine machine built step by step. Undisturbed, the fine steps of a handler or of a cleaner pass
    compute exactly the atomic step of `World`; disturbed, they may not: in the middle of a verification memory
    disagrees with the store, and two verifications can succeed on one nonce. */
module Isolation {
  import opened Common
  import opened Rules
  import opened Protocol
  import Spec = SessionStore
  import World
  import Db = SessionDb

  /** The run consists of steps of the machine and leads from s to s'. */
  ghost predicate Leads(ed: Verifier, r: Run, s: State, s': State) {
    Steps(ed, r) && r.states[0] == s && r.states[|r.actions|] == s'
  }

  lemma One(ed: Verifier, s: State, a: Action, s': State) returns (r: Run)
    requires Next(ed, s, a) == Some(s')
    ensures Leads(ed, r, s, s') && r.actions == [a]
  {
    r := Run([s, s'], [a]);
  }

  lemma Join(ed: Verifier, r1: Run, r2: Run, s: State, s1: State, s2: State) returns (r: Run)
    requires Leads(ed, r1, s, s1) && Leads(ed, r2, s1, s2)
    ensures Leads(ed, r, s, s2) && r.actions == r1.actions + r2.actions
  {
    var n := |r1.actions|;
    r := Run(r1.states + r2.states[1..], r1.actions + r2.actions);
    forall i | 0 <= i < |r.actions|
      ensures Next(ed, r.states[i], r.actions[i]) == Some(r.states[i + 1])
    {
      if i >= n {
        assert r.states[i] == r2.states[i - n] && r.states[i + 1] == r2.states[i + 1 - n];
      }
    }
  }

  // ----- verify -----

  /** Look-up and check of a request that is not refused. */
  lemma CheckAlone(ed: Verifier, s: State, h: nat, proof: VerifyRequest) returns (c: Session, r: Run)
    requires h !in s.threads && !World.Judge(ed, WorldOf(s), proof, s.clock).Refused?
    ensures Spec.GetByPubkey(s.hist.store, proof.pubHex) == Some(c)
    ensures Leads(ed, r, s, At(s, h, VerifyChecked(c)))
  {
    c := Spec.GetByPubkey(s.hist.store, proof.pubHex).value;
    var s1, s2 := At(s, h, VerifyFound(proof, c)), At(s, h, VerifyChecked(c));
    assert At(s1, h, VerifyChecked(c)) == s2;
    var r1 := One(ed, s, VerifyLookup(h, proof), s1);
    var r2 := One(ed, s1, VerifyCheck(h), s2);
    r := Join(ed, r1, r2, s, s1, s2);
  }

  lemma DenyAlone(ed: Verifier, s: State, h: nat, c: Session) returns (r: Run)
    requires h in s.threads && s.threads[h] == VerifyChecked(c) && !Permitted(s.cfg, c)
    ensures Leads(ed, r, s, Ended(WithTx(s, Spec.DeleteTx(c.setupToken)), h))
  {
    var s1 := At(s, h, VerifyDenied(c));
    var s2 := Ended(WithTx(s, Spec.DeleteTx(c.setupToken)), h);
    assert s1.threads - {h} == s.threads - {h};
    var r1 := One(ed, s, VerifyDecide(h), s1);
    var r2 := One(ed, s1, VerifyDeny(h), s2);
    r := Join(ed, r1, r2, s, s1, s2);
  }

  function Routed(s: State, c: Session): map<string, int> {
    if c.mode.Http? then s.routes[c.subdomain := c.serverPort] else s.routes
  }

  lemma AddUserAlone(ed: Verifier, s: State, h: nat, c: Session) returns (r: Run)
    requires h in s.threads && s.threads[h] == VerifyChecked(c) && Permitted(s.cfg, c)
    ensures Leads(ed, r, s, At(s, h, VerifyUserAdded(c)).(users := s.users[c.subdomain := c.token]))
  {
    var s1 := At(s, h, VerifyPermitted(c));
    var s2 := At(s, h, VerifyUserAdded(c)).(users := s.users[c.subdomain := c.token]);
    assert s1.threads[h := VerifyUserAdded(c)] == s2.threads;
    var r1 := One(ed, s, VerifyDecide(h), s1);
    var r2 := One(ed, s1, VerifyAddUser(h), s2);
    r := Join(ed, r1, r2, s, s1, s2);
  }

  lemma ActivateAlone(ed: Verifier, s: State, h: nat, c: Session) returns (r: Run)
    requires h in s.threads && s.threads[h] == VerifyUserAdded(c)
    ensures Leads(ed, r, s, Ended(WithTx(s, Spec.ActivateTx(c.setupToken, s.clock)), h).(routes := Routed(s, c)))
  {
    var s1 := At(s, h, VerifyRouted(c)).(routes := Routed(s, c));
    var s2 := Ended(WithTx(s1, Spec.ActivateTx(c.setupToken, s.clock)), h);
    assert s1.threads - {h} == s.threads - {h};
    var r1 := One(ed, s, VerifyAddRoute(h), s1);
    var r2 := One(ed, s1, VerifyActivate(h), s2);
    r := Join(ed, r1, r2, s, s1, s2);
  }

  /** A verification that is granted or denied, run alone, is the atomic verification. */
  lemma VerifyAlone(ed: Verifier, s: State, h: nat, proof: VerifyRequest) returns (s': State, r: Run)
    requires h !in s.threads && !World.Judge(ed, WorldOf(s), proof, s.clock).Refused?
    ensures Leads(ed, r, s, s')
    ensures WorldOf(s') == World.Verify(ed, WorldOf(s), proof, s.clock)
    ensures s' == s.(hist := s.hist.(store := s'.hist.store), routes := s'.routes, users := s'.users)
  {
    var c, r1 := CheckAlone(ed, s, h, proof);
    var mid := At(s, h, VerifyChecked(c));
    assert mid.threads - {h} == s.threads;
    if Permitted(s.cfg, c) {
      var r2 := AddUserAlone(ed, mid, h, c);
      var added := At(mid, h, VerifyUserAdded(c)).(users := mid.users[c.subdomain := c.token]);
      assert added.threads - {h} == s.threads;
      var r3 := ActivateAlone(ed, added, h, c);
      s' := Ended(WithTx(added, Spec.ActivateTx(c.setupToken, s.clock)), h).(routes := Routed(added, c));
      var r12 := Join(ed, r1, r2, s, mid, added);
      r := Join(ed, r12, r3, s, added, s');
    } else {
      var r2 := DenyAlone(ed, mid, h, c);
      s' := Ended(WithTx(mid, Spec.DeleteTx(c.setupToken)), h);
      r := Join(ed, r1, r2, s, mid, s');
    }
  }

  // ----- challenge, script and registration -----

  /** A challenge of a pending session, run alone, is the atomic challenge. */
  lemma ChallengeAlone(ed: Verifier, s: State, h: nat, p: string, nonce: string) returns (s': State, r: Run)
    requires h !in s.threads && p != "" && Spec.GetByPubkey(s.hist.store, p).Some?
    requires !Spec.GetByPubkey(s.hist.store, p).value.activated
    ensures Leads(ed, r, s, s') && WorldOf(s') == World.Challenge(WorldOf(s), p, nonce, s.clock)
  {
    var t := Spec.GetByPubkey(s.hist.store, p).value.setupToken;
    var s1, s2 := At(s, h, ChallengeFound(t)), At(s, h, ChallengeReady(t, nonce, s.clock));
    s' := Ended(WithTx(s2, Spec.NonceTx(t, nonce, s.clock)), h);
    assert At(s1, h, ChallengeReady(t, nonce, s.clock)) == s2;
    var r1 := One(ed, s, ChallengeLookup(h, p), s1);
    var r2 := One(ed, s1, ChallengeDraw(h, nonce), s2);
    var r3 := One(ed, s2, ChallengeWrite(h), s');
    var r12 := Join(ed, r1, r2, s, s1, s2);
    r := Join(ed, r12, r3, s, s2, s');
  }

  /** A script request with a fresh token that finds room, run alone, is the atomic creation; and so is a registration. */
  lemma ScriptAlone(ed: Verifier, s: State, h: nat, req: Spec.Request, draws: seq<seq<byte>>, setup: string, token: string)
    returns (s': State, r: Run)
    requires h !in s.threads && World.Admit(WorldOf(s)) && setup !in s.hist.issued && |draws| >= Spec.ATTEMPTS
    ensures Leads(ed, r, s, s')
    ensures WorldOf(s') == World.Next(ed, WorldOf(s), s.clock, World.ScriptOp(req, draws, setup, token))
  {
    var tx := Spec.CreateTx(req, draws, setup, token, s.clock);
    var s1 := At(s, h, Admitted);
    s' := Ended(WithTx(s1, tx), h);
    var r1 := One(ed, s, ScriptCheck(h), s1);
    var r2 := One(ed, s1, ScriptCreate(h, req, draws, setup, token), s');
    r := Join(ed, r1, r2, s, s1, s');
  }

  lemma RegisterAlone(ed: Verifier, s: State, t: string, p: string)
    ensures Next(ed, s, Register(t, p)).Some?
    ensures WorldOf(Next(ed, s, Register(t, p)).value) == World.Next(ed, WorldOf(s), s.clock, World.RegisterOp(t, p))
  {
  }

  // ----- cleaner -----

  /** What is left once the deletion loop has gone through its tokens. */
  function Swept(s: State, h: nat, tokens: seq<string>): State {
    var ts := Elements(tokens);
    s.(hist := s.hist.(store := World.RemoveAll(s.hist.store, ts)),
       users := s.users - World.Subs(s.hist.store, ts), threads := s.threads - {h})
  }

  /** The state after the loop has dealt with its first token. */
  function FirstGone(s: State, h: nat, tokens: seq<string>): State
    requires |tokens| > 0
  {
    var t := tokens[0];
    s.(hist := s.hist.(store := Spec.Delete(s.hist.store, t)),
       users := if t in s.hist.store.sessions then s.users - {s.hist.store.sessions[t].subdomain} else s.users,
       threads := s.threads[h := CleanLooping(tokens[1..])])
  }

  lemma SplitSets(st: Spec.Store, t: string, rest: set<string>)
    ensures World.RemoveAll(Spec.Delete(st, t), rest) == World.RemoveAll(st, {t} + rest)
    ensures World.Subs(st, {t} + rest) == World.Subs(Spec.Delete(st, t), rest) +
        (if t in st.sessions then {st.sessions[t].subdomain} else {})
  {
    World.RemoveOne(st, t);
    World.RemoveTwice(st, {t}, rest);
  }

  lemma SweptStep(s: State, h: nat, tokens: seq<string>)
    requires |tokens| > 0
    ensures Swept(FirstGone(s, h, tokens), h, tokens[1..]) == Swept(s, h, tokens)
  {
    var rest := Elements(tokens[1..]);
    assert Elements(tokens) == {tokens[0]} + rest by {
      assert tokens == [tokens[0]] + tokens[1..];
    }
    SplitSets(s.hist.store, tokens[0], rest);
    assert FirstGone(s, h, tokens).threads - {h} == s.threads - {h};
  }

  lemma FirstAlone(ed: Verifier, s: State, h: nat, tokens: seq<string>) returns (r: Run)
    requires h in s.threads && s.threads[h] == CleanLooping(tokens) && |tokens| > 0
    ensures Leads(ed, r, s, FirstGone(s, h, tokens))
  {
    var found := Spec.Get(s.hist.store, tokens[0]);
    if found.Some? {
      r := FoundAlone(ed, s, h, tokens, found.value);
    } else {
      r := One(ed, s, CleanRead(h), FirstGone(s, h, tokens));
    }
  }

  lemma FoundAlone(ed: Verifier, s: State, h: nat, tokens: seq<string>, c: Session) returns (r: Run)
    requires h in s.threads && s.threads[h] == CleanLooping(tokens) && |tokens| > 0
    requires Spec.Get(s.hist.store, tokens[0]) == Some(c)
    ensures Leads(ed, r, s, FirstGone(s, h, tokens))
  {
    var b := At(s, h, CleanUserGone(tokens)).(users := s.users - {c.subdomain});
    var r1 := UserGoneAlone(ed, s, h, tokens, c);
    var r2 := RecordGoneAlone(ed, s, h, tokens, c);
    r := Join(ed, r1, r2, s, b, FirstGone(s, h, tokens));
  }

  lemma ReadAlone(ed: Verifier, s: State, h: nat, tokens: seq<string>, c: Session) returns (r: Run)
    requires h in s.threads && s.threads[h] == CleanLooping(tokens) && |tokens| > 0
    requires Spec.Get(s.hist.store, tokens[0]) == Some(c)
    ensures Leads(ed, r, s, At(s, h, CleanFound(c.subdomain, tokens)))
  {
    r := One(ed, s, CleanRead(h), At(s, h, CleanFound(c.subdomain, tokens)));
  }

  lemma UserGoneAlone(ed: Verifier, s: State, h: nat, tokens: seq<string>, c: Session) returns (r: Run)
    requires h in s.threads && s.threads[h] == CleanLooping(tokens) && |tokens| > 0
    requires Spec.Get(s.hist.store, tokens[0]) == Some(c)
    ensures Leads(ed, r, s, At(s, h, CleanUserGone(tokens)).(users := s.users - {c.subdomain}))
  {
    var a := At(s, h, CleanFound(c.subdomain, tokens));
    var b := At(s, h, CleanUserGone(tokens)).(users := s.users - {c.subdomain});
    assert a.threads[h := CleanUserGone(tokens)] == b.threads;
    var r1 := ReadAlone(ed, s, h, tokens, c);
    var r2 := One(ed, a, CleanUser(h), b);
    r := Join(ed, r1, r2, s, a, b);
  }

  lemma RecordGoneAlone(ed: Verifier, s: State, h: nat, tokens: seq<string>, c: Session) returns (r: Run)
    requires |tokens| > 0 && Spec.Get(s.hist.store, tokens[0]) == Some(c)
    ensures Leads(ed, r, At(s, h, CleanUserGone(tokens)).(users := s.users - {c.subdomain}), FirstGone(s, h, tokens))
  {
    var b := At(s, h, CleanUserGone(tokens)).(users := s.users - {c.subdomain});
    assert b.threads[h := CleanLooping(tokens[1..])] == s.threads[h := CleanLooping(tokens[1..])];
    r := One(ed, b, CleanDelete(h), FirstGone(s, h, tokens));
  }

  lemma EmptyAlone(ed: Verifier, s: State, h: nat) returns (r: Run)
    requires h in s.threads && s.threads[h] == CleanLooping([])
    ensures Leads(ed, r, s, Swept(s, h, []))
  {
    assert Elements([]) == {};
    assert World.RemoveAll(s.hist.store, {}) == s.hist.store;
    assert s.users - World.Subs(s.hist.store, {}) == s.users;
    r := One(ed, s, CleanRead(h), Swept(s, h, []));
  }

  lemma {:induction false} SweepAlone(ed: Verifier, s: State, h: nat, tokens: seq<string>) returns (r: Run)
    requires h in s.threads && s.threads[h] == CleanLooping(tokens)
    ensures Leads(ed, r, s, Swept(s, h, tokens))
    decreases |tokens|
  {
    if tokens == [] {
      r := EmptyAlone(ed, s, h);
    } else {
      var s1 := FirstGone(s, h, tokens);
      var r1 := FirstAlone(ed, s, h, tokens);
      SweptStep(s, h, tokens);
      var r2 := SweepAlone(ed, s1, h, tokens[1..]);
      r := Join(ed, r1, r2, s, s1, Swept(s, h, tokens));
    }
  }

  /** The pass h over `all`, begun at s, once it has looked at the first i sessions. */
  function Scanned(s: State, h: nat, all: seq<Session>, i: nat): State
    requires i <= |all|
  {
    At(s, h, CleanScanning(all, i, s.cfg, s.clock, World.PlanOf(s.cfg, all[..i], s.clock, s.pipes)))
  }

  lemma BeginAlone(ed: Verifier, s: State, h: nat, all: seq<Session>) returns (r: Run)
    requires h !in s.threads && Db.Enumerates(all, s.hist.store)
    ensures Leads(ed, r, s, Scanned(s, h, all, 0))
  {
    assert all[..0] == [];
    r := One(ed, s, CleanBegin(h, all), Scanned(s, h, all, 0));
  }

  lemma LookAlone(ed: Verifier, s: State, h: nat, all: seq<Session>, i: nat) returns (r: Run)
    requires i < |all|
    ensures Leads(ed, r, Scanned(s, h, all, i), Scanned(s, h, all, i + 1))
  {
    assert all[..i + 1][..i] == all[..i];
    assert Seen(s.pipes, s.pipes) == s.pipes;
    var mid := Scanned(s, h, all, i);
    assert mid.threads[h := Scanned(s, h, all, i + 1).threads[h]] == Scanned(s, h, all, i + 1).threads;
    r := One(ed, mid, CleanLook(h, s.pipes), Scanned(s, h, all, i + 1));
  }

  lemma {:induction false} ScanAlone(ed: Verifier, s: State, h: nat, all: seq<Session>, i: nat, r0: Run) returns (r: Run)
    requires Leads(ed, r0, s, Scanned(s, h, all, 0)) && i <= |all|
    ensures Leads(ed, r, s, Scanned(s, h, all, i))
  {
    if i == 0 {
      r := r0;
    } else {
      var r1 := ScanAlone(ed, s, h, all, i - 1, r0);
      var r2 := LookAlone(ed, s, h, all, i - 1);
      r := Join(ed, r1, r2, s, Scanned(s, h, all, i - 1), Scanned(s, h, all, i));
    }
  }

  /** What the pass goes on to delete, and the state in which it starts to. */
  function Tokens(s: State, all: seq<Session>): seq<string> {
    var plan := World.PlanOf(s.cfg, all, s.clock, s.pipes);
    plan.expired + plan.disconnected
  }

  function Unrouted(s: State, h: nat, all: seq<Session>): State {
    var subs := Elements(World.PlanOf(s.cfg, all, s.clock, s.pipes).httpRoutes);
    At(s, h, CleanLooping(Tokens(s, all))).(routes := s.routes - subs)
  }

  lemma RoutesAlone(ed: Verifier, s: State, h: nat, all: seq<Session>) returns (r: Run)
    ensures Leads(ed, r, Scanned(s, h, all, |all|), Unrouted(s, h, all))
  {
    assert all[..|all|] == all;
    var th := CleanLooping(Tokens(s, all));
    assert Scanned(s, h, all, |all|).threads[h := th] == s.threads[h := th];
    r := One(ed, Scanned(s, h, all, |all|), CleanRoutes(h), Unrouted(s, h, all));
  }

  lemma PlanAlone(ed: Verifier, s: State, h: nat, all: seq<Session>) returns (r: Run)
    requires h !in s.threads && Db.Enumerates(all, s.hist.store)
    ensures Leads(ed, r, s, Unrouted(s, h, all))
  {
    var r0 := BeginAlone(ed, s, h, all);
    var r1 := ScanAlone(ed, s, h, all, |all|, r0);
    var r2 := RoutesAlone(ed, s, h, all);
    r := Join(ed, r1, r2, s, Scanned(s, h, all, |all|), Unrouted(s, h, all));
  }

  lemma TokensDoomed(s: State, all: seq<Session>)
    requires Spec.SubExact(s.hist.store) && Db.Enumerates(all, s.hist.store)
    ensures Elements(Tokens(s, all)) == World.DoomedTokens(WorldOf(s), s.clock, s.pipes)
    ensures Elements(World.PlanOf(s.cfg, all, s.clock, s.pipes).httpRoutes) == World.DoomedRoutes(WorldOf(s), s.clock, s.pipes)
  {
    var plan := World.PlanOf(s.cfg, all, s.clock, s.pipes);
    World.PlanComplete(WorldOf(s), all, s.clock, s.pipes);
    assert Elements(Tokens(s, all)) == Elements(plan.expired) + Elements(plan.disconnected);
  }

  lemma PassIsClean(s: State, h: nat, all: seq<Session>)
    requires h !in s.threads && Spec.SubExact(s.hist.store) && Db.Enumerates(all, s.hist.store)
    ensures var s' := Swept(Unrouted(s, h, all), h, Tokens(s, all));
      && WorldOf(s') == World.Clean(WorldOf(s), s.clock, s.pipes)
      && s' == s.(hist := s.hist.(store := s'.hist.store), routes := s'.routes, users := s'.users)
  {
    TokensDoomed(s, all);
    assert Unrouted(s, h, all).threads - {h} == s.threads;
  }

  /** A cleaner pass, run alone, is the atomic pass. */
  lemma CleanAlone(ed: Verifier, s: State, h: nat, all: seq<Session>) returns (s': State, r: Run)
    requires h !in s.threads && Spec.SubExact(s.hist.store) && Db.Enumerates(all, s.hist.store)
    ensures Leads(ed, r, s, s')
    ensures WorldOf(s') == World.Clean(WorldOf(s), s.clock, s.pipes)
    ensures s' == s.(hist := s.hist.(store := s'.hist.store), routes := s'.routes, users := s'.users)
  {
    var r1 := PlanAlone(ed, s, h, all);
    var r2 := SweepAlone(ed, Unrouted(s, h, all), h, Tokens(s, all));
    s' := Swept(Unrouted(s, h, all), h, Tokens(s, all));
    r := Join(ed, r1, r2, s, Unrouted(s, h, all), s');
    PassIsClean(s, h, all);
  }

  // ----- in the middle of a verification -----

  /** From any state in agreement, a verification about to be granted passes through a state in which memory
      disagrees with the store: the credential is there, the activation is not. */
  lemma MidVerifyDisagrees(ed: Verifier, s: State, h: nat, proof: VerifyRequest) returns (s': State, r: Run)
    requires World.Agreement(WorldOf(s)) && h !in s.threads && World.Judge(ed, WorldOf(s), proof, s.clock).Activated?
    ensures Leads(ed, r, s, s') && !World.Agreement(WorldOf(s'))
  {
    var c, r1 := CheckAlone(ed, s, h, proof);
    var mid := At(s, h, VerifyChecked(c));
    var r2 := AddUserAlone(ed, mid, h, c);
    s' := At(mid, h, VerifyUserAdded(c)).(users := mid.users[c.subdomain := c.token]);
    r := Join(ed, r1, r2, s, mid, s');
    assert c.subdomain in s'.users && !c.activated;
    forall t | t in s.hist.store.sessions && s.hist.store.sessions[t].subdomain == c.subdomain
      ensures !s.hist.store.sessions[t].activated
    {
      assert t == c.setupToken;
    }
  }

  // ----- two verifications on one nonce -----

  /** The state b with two more threads. */
  function Pair(b: State, h1: nat, h2: nat, x: Thread, y: Thread): State {
    b.(threads := b.threads[h1 := x][h2 := y])
  }

  lemma PairAt(b: State, h1: nat, h2: nat, x: Thread, y: Thread, z: Thread)
    requires h1 != h2
    ensures At(Pair(b, h1, h2, x, y), h1, z) == Pair(b, h1, h2, z, y)
    ensures At(Pair(b, h1, h2, x, y), h2, z) == Pair(b, h1, h2, x, z)
  {
    assert b.threads[h1 := x][h2 := y][h1 := z] == b.threads[h1 := z][h2 := y];
    assert b.threads[h1 := x][h2 := y][h2 := z] == b.threads[h1 := x][h2 := z];
  }

  /** Both handlers move from the same place to the same place by steps that touch nothing else. */
  lemma BothMove(ed: Verifier, b: State, h1: nat, h2: nat, x: Thread, y: Thread, a1: Action, a2: Action) returns (r: Run)
    requires h1 != h2 && !IsBegin(a1) && !IsBegin(a2) && a1.h == h1 && a2.h == h2
    requires var s := Pair(b, h1, h2, x, x); Continue(ed, s, a1, h1, x) == Some(At(s, h1, y))
    requires var s := Pair(b, h1, h2, y, x); Continue(ed, s, a2, h2, x) == Some(At(s, h2, y))
    ensures Leads(ed, r, Pair(b, h1, h2, x, x), Pair(b, h1, h2, y, y)) && r.actions == [a1, a2]
  {
    PairAt(b, h1, h2, x, x, y);
    PairAt(b, h1, h2, y, x, y);
    var r1 := One(ed, Pair(b, h1, h2, x, x), a1, Pair(b, h1, h2, y, x));
    var r2 := One(ed, Pair(b, h1, h2, y, x), a2, Pair(b, h1, h2, y, y));
    r := Join(ed, r1, r2, Pair(b, h1, h2, x, x), Pair(b, h1, h2, y, x), Pair(b, h1, h2, y, y));
  }

  lemma BothFound(ed: Verifier, s: State, h1: nat, h2: nat, proof: VerifyRequest, c: Session) returns (r: Run)
    requires h1 != h2 && h1 !in s.threads && h2 !in s.threads
    requires Spec.GetByPubkey(s.hist.store, proof.pubHex) == Some(c) && !c.activated
    ensures Leads(ed, r, s, Pair(s, h1, h2, VerifyFound(proof, c), VerifyFound(proof, c)))
    ensures r.actions == [VerifyLookup(h1, proof), VerifyLookup(h2, proof)]
  {
    var s1 := At(s, h1, VerifyFound(proof, c));
    var s2 := Pair(s, h1, h2, VerifyFound(proof, c), VerifyFound(proof, c));
    var r1 := One(ed, s, VerifyLookup(h1, proof), s1);
    var r2 := One(ed, s1, VerifyLookup(h2, proof), s2);
    r := Join(ed, r1, r2, s, s1, s2);
  }

  lemma BothChecked(ed: Verifier, s: State, h1: nat, h2: nat, proof: VerifyRequest, c: Session) returns (r: Run)
    requires h1 != h2 && CheckRequest(ed, c, proof, s.clock).Ok?
    ensures Leads(ed, r, Pair(s, h1, h2, VerifyFound(proof, c), VerifyFound(proof, c)),
                  Pair(s, h1, h2, VerifyChecked(c), VerifyChecked(c)))
    ensures r.actions == [VerifyCheck(h1), VerifyCheck(h2)]
  {
    r := BothMove(ed, s, h1, h2, VerifyFound(proof, c), VerifyChecked(c), VerifyCheck(h1), VerifyCheck(h2));
  }

  lemma BothDecided(ed: Verifier, s: State, h1: nat, h2: nat, c: Session) returns (r: Run)
    requires h1 != h2 && Permitted(s.cfg, c)
    ensures Leads(ed, r, Pair(s, h1, h2, VerifyChecked(c), VerifyChecked(c)),
                  Pair(s, h1, h2, VerifyPermitted(c), VerifyPermitted(c)))
    ensures r.actions == [VerifyDecide(h1), VerifyDecide(h2)]
  {
    r := BothMove(ed, s, h1, h2, VerifyChecked(c), VerifyPermitted(c), VerifyDecide(h1), VerifyDecide(h2));
  }

  /** Look-up, check and decision of both, in turn. */
  lemma BothPermitted(ed: Verifier, s: State, h1: nat, h2: nat, proof: VerifyRequest, c: Session) returns (r: Run)
    requires h1 != h2 && h1 !in s.threads && h2 !in s.threads
    requires World.Judge(ed, WorldOf(s), proof, s.clock) == World.Activated(c)
    ensures Leads(ed, r, s, Pair(s, h1, h2, VerifyPermitted(c), VerifyPermitted(c)))
    ensures r.actions == [VerifyLookup(h1, proof), VerifyLookup(h2, proof), VerifyCheck(h1), VerifyCheck(h2),
                          VerifyDecide(h1), VerifyDecide(h2)]
  {
    var (x, y, z) := (VerifyFound(proof, c), VerifyChecked(c), VerifyPermitted(c));
    var r1 := BothFound(ed, s, h1, h2, proof, c);
    var r2 := BothChecked(ed, s, h1, h2, proof, c);
    var r3 := BothDecided(ed, s, h1, h2, c);
    var r12 := Join(ed, r1, r2, s, Pair(s, h1, h2, x, x), Pair(s, h1, h2, y, y));
    r := Join(ed, r12, r3, s, Pair(s, h1, h2, y, y), Pair(s, h1, h2, z, z));
  }

  /** The state b with the credential and the route of c. */
  function Connected(b: State, c: Session): State {
    b.(users := b.users[c.subdomain := c.token], routes := Routed(b, c))
  }

  lemma BothAddUser(ed: Verifier, s: State, h1: nat, h2: nat, c: Session) returns (r: Run)
    requires h1 != h2
    ensures var s' := s.(users := s.users[c.subdomain := c.token]);
      Leads(ed, r, Pair(s, h1, h2, VerifyPermitted(c), VerifyPermitted(c)),
            Pair(s', h1, h2, VerifyUserAdded(c), VerifyUserAdded(c)))
    ensures r.actions == [VerifyAddUser(h1), VerifyAddUser(h2)]
  {
    var (x, y) := (VerifyPermitted(c), VerifyUserAdded(c));
    var s' := s.(users := s.users[c.subdomain := c.token]);
    assert s'.users[c.subdomain := c.token] == s'.users;
    PairAt(s, h1, h2, x, x, y);
    PairAt(s', h1, h2, y, x, y);
    var r1 := One(ed, Pair(s, h1, h2, x, x), VerifyAddUser(h1), Pair(s', h1, h2, y, x));
    var r2 := One(ed, Pair(s', h1, h2, y, x), VerifyAddUser(h2), Pair(s', h1, h2, y, y));
    r := Join(ed, r1, r2, Pair(s, h1, h2, x, x), Pair(s', h1, h2, y, x), Pair(s', h1, h2, y, y));
  }

  lemma BothAddRoute(ed: Verifier, s: State, h1: nat, h2: nat, c: Session) returns (r: Run)
    requires h1 != h2
    ensures var s' := s.(routes := Routed(s, c));
      Leads(ed, r, Pair(s, h1, h2, VerifyUserAdded(c), VerifyUserAdded(c)),
            Pair(s', h1, h2, VerifyRouted(c), VerifyRouted(c)))
    ensures r.actions == [VerifyAddRoute(h1), VerifyAddRoute(h2)]
  {
    var (x, y) := (VerifyUserAdded(c), VerifyRouted(c));
    var s' := s.(routes := Routed(s, c));
    assert Routed(s', c) == s'.routes;
    PairAt(s, h1, h2, x, x, y);
    PairAt(s', h1, h2, y, x, y);
    var r1 := One(ed, Pair(s, h1, h2, x, x), VerifyAddRoute(h1), Pair(s', h1, h2, y, x));
    var r2 := One(ed, Pair(s', h1, h2, y, x), VerifyAddRoute(h2), Pair(s', h1, h2, y, y));
    r := Join(ed, r1, r2, Pair(s, h1, h2, x, x), Pair(s', h1, h2, y, x), Pair(s', h1, h2, y, y));
  }

  /** The state s with session t activated at an instant. */
  function Activated(s: State, t: string, at: Time): State {
    WithTx(s, Spec.ActivateTx(t, at))
  }

  lemma BothActivate(ed: Verifier, s: State, h1: nat, h2: nat, c: Session, later: Time) returns (r: Run)
    requires h1 != h2 && h1 !in s.threads && h2 !in s.threads && s.clock <= later
    ensures var t := c.setupToken;
      Leads(ed, r, Pair(s, h1, h2, VerifyRouted(c), VerifyRouted(c)),
            Activated(Activated(s, t, s.clock), t, later).(clock := later))
    ensures r.actions == [VerifyActivate(h1), Tick(later), VerifyActivate(h2)]
  {
    var t, x := c.setupToken, VerifyRouted(c);
    var s0 := Pair(s, h1, h2, x, x);
    var s1 := At(Activated(s, t, s.clock), h2, x);
    var s2 := s1.(clock := later);
    var s3 := Activated(Activated(s, t, s.clock), t, later).(clock := later);
    assert s0.threads - {h1} == s.threads[h2 := x];
    assert s2.threads - {h2} == s.threads;
    var r1 := One(ed, s0, VerifyActivate(h1), s1);
    var r2 := One(ed, s1, Tick(later), s2);
    var r3 := One(ed, s2, VerifyActivate(h2), s3);
    var r12 := Join(ed, r1, r2, s0, s1, s2);
    r := Join(ed, r12, r3, s0, s2, s3);
  }

  /** The state after both have been granted c's session at s, and the second has activated it later. */
  function Twice(s: State, c: Session, later: Time): State {
    Activated(Activated(Connected(s, c), c.setupToken, s.clock), c.setupToken, later).(clock := later)
  }

  lemma BothGranted(ed: Verifier, s: State, h1: nat, h2: nat, c: Session, later: Time) returns (r: Run)
    requires h1 != h2 && h1 !in s.threads && h2 !in s.threads && s.clock <= later
    ensures Leads(ed, r, Pair(s, h1, h2, VerifyPermitted(c), VerifyPermitted(c)), Twice(s, c, later))
    ensures r.actions == [VerifyAddUser(h1), VerifyAddUser(h2), VerifyAddRoute(h1), VerifyAddRoute(h2),
                          VerifyActivate(h1), Tick(later), VerifyActivate(h2)]
  {
    var u := s.(users := s.users[c.subdomain := c.token]);
    var s1 := Pair(s, h1, h2, VerifyPermitted(c), VerifyPermitted(c));
    var s2 := Pair(u, h1, h2, VerifyUserAdded(c), VerifyUserAdded(c));
    var s3 := Pair(Connected(s, c), h1, h2, VerifyRouted(c), VerifyRouted(c));
    var r1 := BothAddUser(ed, s, h1, h2, c);
    var r2 := BothAddRoute(ed, u, h1, h2, c);
    var r3 := BothActivate(ed, Connected(s, c), h1, h2, c, later);
    var r12 := Join(ed, r1, r2, s1, s2, s3);
    r := Join(ed, r12, r3, s1, s3, Twice(s, c, later));
  }

  lemma TwiceMeaning(ed: Verifier, s: State, proof: VerifyRequest, c: Session, later: Time)
    requires Spec.SubExact(s.hist.store) && World.Judge(ed, WorldOf(s), proof, s.clock) == World.Activated(c)
    ensures var first := World.Verify(ed, WorldOf(s), proof, s.clock);
      && c.setupToken in first.store.sessions && first.store.sessions[c.setupToken].activatedAt == s.clock
      && WorldOf(Twice(s, c, later)) == first.(store := Spec.Activate(first.store, c.setupToken, later).0)
      && Twice(s, c, later).hist.store.sessions[c.setupToken] == c.(activated := true, activatedAt := later, nonce := "")
  {
  }

  /** Whenever a verification would be granted, two handlers can both be: both look the session up before either
      activates it, both accept the same nonce, and both activate; the second moves the activation time. That
      the second look-up precedes the first activation is also necessary: see `Protocol.SecondActivation`. */
  lemma TwoActivations(ed: Verifier, s: State, h1: nat, h2: nat, proof: VerifyRequest, later: Time)
    returns (s': State, r: Run)
    requires h1 != h2 && h1 !in s.threads && h2 !in s.threads && s.clock <= later && Spec.SubExact(s.hist.store)
    requires World.Judge(ed, WorldOf(s), proof, s.clock).Activated?
    ensures Leads(ed, r, s, s')
    ensures r.actions == [
      VerifyLookup(h1, proof), VerifyLookup(h2, proof), VerifyCheck(h1), VerifyCheck(h2),
      VerifyDecide(h1), VerifyDecide(h2), VerifyAddUser(h1), VerifyAddUser(h2),
      VerifyAddRoute(h1), VerifyAddRoute(h2), VerifyActivate(h1), Tick(later), VerifyActivate(h2)]
    ensures var c := World.Judge(ed, WorldOf(s), proof, s.clock).s;
      var first := World.Verify(ed, WorldOf(s), proof, s.clock);
      && c.setupToken in first.store.sessions && first.store.sessions[c.setupToken].activatedAt == s.clock
      && WorldOf(s') == first.(store := Spec.Activate(first.store, c.setupToken, later).0)
      && s'.hist.store.sessions[c.setupToken] == c.(activated := true, activatedAt := later, nonce := "")
  {
    var c := World.Judge(ed, WorldOf(s), proof, s.clock).s;
    s' := Twice(s, c, later);
    TwiceMeaning(ed, s, proof, c, later);
    var r1 := BothPermitted(ed, s, h1, h2, proof, c);
    var r2 := BothGranted(ed, s, h1, h2, c, later);
    r := Join(ed, r1, r2, s, Pair(s, h1, h2, VerifyPermitted(c), VerifyPermitted(c)), s');
  }
}
