/** The sliding-window rate limiter: per address a list of accepted instants, pruned as it goes, against
    the history of everything that was ever accepted. */
module RateLimiter {
  import opened Common

  datatype Limiter = Limiter(windows: map<string, seq<Time>>, limit: int, window: Time)

  /** The entries strictly after a cutoff, in order. */
  function Above(ts: seq<Time>, cutoff: Time): (r: seq<Time>)
    ensures |r| <= |ts|
  {
    if ts == [] then []
    else
      var before := Above(ts[..|ts| - 1], cutoff);
      if ts[|ts| - 1] > cutoff then before + [ts[|ts| - 1]] else before
  }

  function Entry(windows: map<string, seq<Time>>, ip: string): seq<Time> {
    if ip in windows then windows[ip] else []
  }

  function ListOf(l: Limiter, ip: string): seq<Time> {
    Entry(l.windows, ip)
  }

  function Accepts(l: Limiter, ip: string, now: Time): bool {
    |Above(ListOf(l, ip), now - l.window)| < l.limit
  }

  function Allow(l: Limiter, ip: string, now: Time): Limiter {
    var recent := Above(ListOf(l, ip), now - l.window);
    l.(windows := l.windows[ip := if |recent| >= l.limit then recent else recent + [now]])
  }

  function Cleanup(l: Limiter, now: Time): Limiter {
    l.(windows := map ip | ip in l.windows && Above(l.windows[ip], now - l.window) != []
                    :: Above(l.windows[ip], now - l.window))
  }

  /** The limiter as an object whose lists are replaced in place. */
  class RateLimiter {
    var windows: map<string, seq<Time>>
    var limit: int
    var window: Time

    constructor (limit: int, window: Time)
      ensures State() == Limiter(map[], limit, window)
    {
      windows := map[];
      this.limit, this.window := limit, window;
    }

    function State(): Limiter
      reads this
    {
      Limiter(windows, limit, window)
    }

    method Reconfigure(limit: int, window: Time)
      modifies this
      ensures State() == old(State()).(limit := limit, window := window)
    {
      this.limit := limit;
      this.window := window;
    }

    method Recent(times: seq<Time>, cutoff: Time) returns (recent: seq<Time>)
      ensures recent == Above(times, cutoff)
    {
      recent := [];
      for i := 0 to |times|
        invariant recent == Above(times[..i], cutoff)
      {
        assert times[..i + 1][..i] == times[..i];
        if times[i] > cutoff {
          recent := recent + [times[i]];
        }
      }
      assert times[..|times|] == times;
    }

    method AllowRequest(ip: string, now: Time) returns (ok: bool)
      modifies this
      ensures ok == Accepts(old(State()), ip, now)
      ensures State() == Allow(old(State()), ip, now)
    {
      var recent := Recent(if ip in windows then windows[ip] else [], now - window);
      if |recent| >= limit {
        windows := windows[ip := recent];
        return false;
      }
      windows := windows[ip := recent + [now]];
      return true;
    }

    method CleanupLists(now: Time)
      modifies this
      ensures State() == Cleanup(old(State()), now)
    {
      var todo := windows.Keys;
      ghost var l := State();
      while todo != {}
        invariant todo <= l.windows.Keys && limit == l.limit && window == l.window
        invariant forall ip | ip in todo :: ip in windows && windows[ip] == l.windows[ip]
        invariant windows.Keys <= l.windows.Keys
        invariant forall ip | ip in l.windows && ip !in todo :: Entry(windows, ip) == Above(l.windows[ip], now - l.window)
        invariant forall ip | ip in windows && ip !in todo :: windows[ip] != []
        decreases todo
      {
        var ip :| ip in todo;
        todo := todo - {ip};
        var recent := Recent(windows[ip], now - window);
        if |recent| == 0 {
          windows := windows - {ip};
        } else {
          windows := windows[ip := recent];
        }
      }
    }
  }

  // ----- runs -----

  datatype Op =
    | AllowOp(ip: string, now: Time)
    | CleanupOp(now: Time)
    | ReconfigureOp(limit: int, window: Time)

  function Do(l: Limiter, op: Op): Limiter {
    match op
    case AllowOp(ip, now) => Allow(l, ip, now)
    case CleanupOp(now) => Cleanup(l, now)
    case ReconfigureOp(limit, window) => l.(limit := limit, window := window)
  }

  /** The limiter after the first n operations. */
  function Exec(l: Limiter, ops: seq<Op>, n: nat): Limiter
    requires n <= |ops|
  {
    if n == 0 then l else Do(Exec(l, ops, n - 1), ops[n - 1])
  }

  // ----- one address through a run -----

  /** What a run has meant for one address: its pruned list; the instants at which its requests were accepted,
      nothing forgotten; the largest cutoff its list was ever pruned at; what a limiter that keeps its whole
      history and never cleans up would have accepted; and the settings in force. */
  datatype Track = Track(list: seq<Time>, log: seq<Time>, floor: Option<Time>, ideal: seq<Time>, limit: int, window: Time)

  predicate Prunes(op: Op, ip: string) {
    (op.AllowOp? && op.ip == ip) || op.CleanupOp?
  }

  /** The decision of the pruned limiter. */
  predicate Decides(s: Track, now: Time) {
    |Above(s.list, now - s.window)| < s.limit
  }

  /** The decision from a given history of accepted requests. */
  predicate Within(log: seq<Time>, cutoff: Time, limit: int) {
    |Above(log, cutoff)| < limit
  }

  function Step(s: Track, op: Op, ip: string): Track {
    if op.ReconfigureOp? then s.(limit := op.limit, window := op.window)
    else if !Prunes(op, ip) then s
    else
      var cutoff := op.now - s.window;
      var recent := Above(s.list, cutoff);
      var pruned := s.(list := recent, floor := Some(Raise(s.floor, cutoff)));
      if op.CleanupOp? then pruned
      else
        pruned.(
          list := if Decides(s, op.now) then recent + [op.now] else recent,
          log := if Decides(s, op.now) then s.log + [op.now] else s.log,
          ideal := if Within(s.ideal, cutoff, s.limit) then s.ideal + [op.now] else s.ideal)
  }

  /** The list after an operation that prunes it: a request under the limit is recorded. */
  function NextList(list: seq<Time>, op: Op, cutoff: Time, limit: int): seq<Time>
    requires !op.ReconfigureOp?
  {
    var recent := Above(list, cutoff);
    if op.AllowOp? && |recent| < limit then recent + [op.now] else recent
  }

  predicate SameSettings(a: Track, b: Track) {
    a.limit == b.limit && a.window == b.window
  }

  /** What a step does, apart from the ideal. */
  predicate Stepped(s: Track, op: Op, ip: string, s': Track) {
    if op.ReconfigureOp? then s'.limit == op.limit && s'.window == op.window && SameHistory(s, s')
    else if !Prunes(op, ip) then SameSettings(s, s') && SameHistory(s, s')
    else
      var cutoff := op.now - s.window;
      && SameSettings(s, s')
      && s'.list == NextList(s.list, op, cutoff, s.limit)
      && s'.log == (if op.AllowOp? && |Above(s.list, cutoff)| < s.limit then s.log + [op.now] else s.log)
      && s'.floor == Some(Raise(s.floor, cutoff))
  }

  predicate SameHistory(a: Track, b: Track) {
    a.list == b.list && a.log == b.log && a.floor == b.floor
  }

  lemma StepFacts(s: Track, op: Op, ip: string)
    ensures Stepped(s, op, ip, Step(s, op, ip))
  {
  }

  function After(l: Limiter, ops: seq<Op>, ip: string, n: nat): Track
    requires n <= |ops|
  {
    if n == 0 then Track(ListOf(l, ip), [], None, [], l.limit, l.window)
    else Step(After(l, ops, ip, n - 1), ops[n - 1], ip)
  }

  function Raise(f: Option<Time>, cutoff: Time): Time {
    if f.None? then cutoff else Max(f.value, cutoff)
  }

  function AboveFloor(ts: seq<Time>, f: Option<Time>): seq<Time> {
    if f.None? then ts else Above(ts, f.value)
  }

  lemma DoStep(l: Limiter, op: Op, ip: string, s: Track)
    requires s.limit == l.limit && s.window == l.window && s.list == ListOf(l, ip)
    ensures var (l', s') := (Do(l, op), Step(s, op, ip));
      s'.limit == l'.limit && s'.window == l'.window && s'.list == ListOf(l', ip)
  {
  }

  /** The track is the limiter's own state, seen at one address. */
  lemma {:induction false} TrackIsExec(l: Limiter, ops: seq<Op>, ip: string, n: nat)
    requires n <= |ops|
    ensures var (e, s) := (Exec(l, ops, n), After(l, ops, ip, n));
      s.limit == e.limit && s.window == e.window && s.list == ListOf(e, ip)
    ensures forall now :: Decides(After(l, ops, ip, n), now) == Accepts(Exec(l, ops, n), ip, now)
  {
    if n > 0 {
      TrackIsExec(l, ops, ip, n - 1);
      DoStep(Exec(l, ops, n - 1), ops[n - 1], ip, After(l, ops, ip, n - 1));
    }
  }

  /** Clocks do not run backwards, and windows are positive, as the configuration check demands. */
  ghost predicate Sane(l: Limiter, ops: seq<Op>) {
    && l.windows == map[] && l.window > 0
    && (forall i | 0 <= i < |ops| && ops[i].ReconfigureOp? :: ops[i].window > 0)
    && (forall i, j | 0 <= i < j < |ops| && !ops[i].ReconfigureOp? && !ops[j].ReconfigureOp? ::
          ops[i].now <= ops[j].now)
  }

  /** No operation among the first n happened after the given instant. */
  ghost predicate NotAfter(ops: seq<Op>, n: nat, now: Time)
    requires n <= |ops|
  {
    forall i | 0 <= i < n && !ops[i].ReconfigureOp? :: ops[i].now <= now
  }

  lemma {:induction false} AboveTwice(ts: seq<Time>, f: Time, g: Time)
    ensures Above(Above(ts, f), g) == Above(ts, Max(f, g))
  {
    if ts != [] {
      var before, last := ts[..|ts| - 1], ts[|ts| - 1];
      AboveTwice(before, f, g);
      AboveSnoc(Above(before, f), last, g);
    }
  }

  lemma AboveSnoc(ts: seq<Time>, t: Time, cutoff: Time)
    ensures Above(ts + [t], cutoff) == Above(ts, cutoff) + (if t > cutoff then [t] else [])
  {
    assert (ts + [t])[..|ts|] == ts;
  }

  lemma AboveRaise(ts: seq<Time>, f: Option<Time>, cutoff: Time)
    ensures Above(AboveFloor(ts, f), cutoff) == Above(ts, Raise(f, cutoff))
  {
    if f.Some? {
      AboveTwice(ts, f.value, cutoff);
    }
  }

  ghost predicate Sorted(ts: seq<Time>) {
    forall i, j | 0 <= i < j < |ts| :: ts[i] <= ts[j]
  }

  /** The pruned list is the accepted history above the floor, and the floor lies in the past. */
  predicate ListGood(s: Track, now: Time) {
    s.list == AboveFloor(s.log, s.floor) && s.window > 0 && (s.floor.Some? ==> s.floor.value < now)
  }

  /** The history is in order and reaches no further than now. */
  ghost predicate LogGood(log: seq<Time>, now: Time) {
    Sorted(log) && forall i | 0 <= i < |log| :: log[i] <= now
  }

  /** What every run keeps. */
  ghost predicate Good(s: Track, now: Time) {
    ListGood(s, now) && LogGood(s.log, now)
  }

  lemma ListStep(s: Track, op: Op, ip: string, s': Track, now: Time)
    requires ListGood(s, if op.ReconfigureOp? then now else op.now) && Stepped(s, op, ip, s')
    requires if op.ReconfigureOp? then op.window > 0 else op.now <= now
    ensures ListGood(s', now)
  {
    if !op.ReconfigureOp? && Prunes(op, ip) {
      NextGood(s.log, s.floor, op, op.now - s.window, s.limit);
    }
  }

  /** Pruning the history above the floor is the history above the raised floor, the new entry included. */
  lemma NextGood(log: seq<Time>, floor: Option<Time>, op: Op, cutoff: Time, limit: int)
    requires !op.ReconfigureOp? && Raise(floor, cutoff) < op.now
    ensures var list := AboveFloor(log, floor);
      var log' := if op.AllowOp? && |Above(list, cutoff)| < limit then log + [op.now] else log;
      NextList(list, op, cutoff, limit) == Above(log', Raise(floor, cutoff))
  {
    AboveRaise(log, floor, cutoff);
    AboveSnoc(log, op.now, Raise(floor, cutoff));
  }

  lemma LogStep(s: Track, op: Op, ip: string, now: Time)
    requires LogGood(s.log, if op.ReconfigureOp? then now else op.now)
    requires op.ReconfigureOp? || op.now <= now
    ensures LogGood(Step(s, op, ip).log, now)
  {
    var log := Step(s, op, ip).log;
    assert log == s.log || (!op.ReconfigureOp? && log == s.log + [op.now]);
  }

  lemma {:induction false} GoodRun(l: Limiter, ops: seq<Op>, ip: string, n: nat, now: Time)
    requires Sane(l, ops) && n <= |ops| && NotAfter(ops, n, now)
    ensures Good(After(l, ops, ip, n), now)
  {
    if n > 0 {
      var op := ops[n - 1];
      GoodRun(l, ops, ip, n - 1, if op.ReconfigureOp? then now else op.now);
      StepFacts(After(l, ops, ip, n - 1), op, ip);
      ListStep(After(l, ops, ip, n - 1), op, ip, After(l, ops, ip, n), now);
      LogStep(After(l, ops, ip, n - 1), op, ip, now);
    }
  }

  lemma DecidesIff(s: Track, now: Time)
    requires s.list == AboveFloor(s.log, s.floor)
    ensures Decides(s, now) <==> Within(s.log, Raise(s.floor, now - s.window), s.limit)
  {
    AboveRaise(s.log, s.floor, now - s.window);
  }

  /** Exactly when a request is accepted, in any run whatever: when fewer than `limit` accepted requests
      of its address lie after both the window's cutoff and the address's floor. */
  lemma AcceptsIff(l: Limiter, ops: seq<Op>, ip: string, n: nat, now: Time)
    requires Sane(l, ops) && n <= |ops| && NotAfter(ops, n, now)
    ensures var s := After(l, ops, ip, n);
      Accepts(Exec(l, ops, n), ip, now) <==> Within(s.log, Raise(s.floor, now - s.window), s.limit)
  {
    GoodRun(l, ops, ip, n, now);
    TrackIsExec(l, ops, ip, n);
    DecidesIff(After(l, ops, ip, n), now);
  }

  /** The cutoff of a request now has reached every cutoff used to prune its address's list. */
  predicate CutoffReached(s: Track, now: Time) {
    s.floor.Some? ==> s.floor.value <= now - s.window
  }

  lemma NothingRaised(s: Track, now: Time)
    requires CutoffReached(s, now)
    ensures Raise(s.floor, now - s.window) == now - s.window
  {
  }

  /** As soon as the window's cutoff has reached every cutoff used for pruning, decisions agree with the
      full history again, whatever reconfigurations came before. */
  lemma CaughtUp(l: Limiter, ops: seq<Op>, ip: string, n: nat, now: Time)
    requires Sane(l, ops) && n <= |ops| && NotAfter(ops, n, now) && CutoffReached(After(l, ops, ip, n), now)
    ensures var s := After(l, ops, ip, n);
      Accepts(Exec(l, ops, n), ip, now) <==> Within(s.log, now - s.window, s.limit)
  {
    NothingRaised(After(l, ops, ip, n), now);
    AcceptsIff(l, ops, ip, n, now);
  }

  // ----- against a limiter that never forgets -----

  /** No request is judged at a cutoff below one already used to prune its list. */
  ghost predicate Steady(l: Limiter, ops: seq<Op>) {
    forall i | 0 <= i < |ops| && ops[i].AllowOp? :: CutoffReached(After(l, ops, ops[i].ip, i), ops[i].now)
  }

  lemma IdealStep(s: Track, op: Op, ip: string)
    requires s.log == s.ideal && s.list == AboveFloor(s.log, s.floor)
    requires op.AllowOp? && op.ip == ip ==> CutoffReached(s, op.now)
    ensures Step(s, op, ip).log == Step(s, op, ip).ideal
  {
    if op.AllowOp? {
      DecidesIff(s, op.now);
    }
  }

  /** In a steady run the pruned limiter and the one that never forgets accept the same requests. */
  lemma {:induction false} RefinesIdeal(l: Limiter, ops: seq<Op>, ip: string, n: nat)
    requires Sane(l, ops) && Steady(l, ops) && n <= |ops|
    ensures After(l, ops, ip, n).log == After(l, ops, ip, n).ideal
  {
    if n > 0 {
      RefinesIdeal(l, ops, ip, n - 1);
      if ops[n - 1].AllowOp? {
        GoodRun(l, ops, ip, n - 1, ops[n - 1].now);
        IdealStep(After(l, ops, ip, n - 1), ops[n - 1], ip);
      }
    }
  }

  /** The first n operations without their cleanups. */
  function Kept(ops: seq<Op>, n: nat): (r: seq<Op>)
    requires n <= |ops|
    ensures |r| <= n
  {
    if n == 0 then []
    else if ops[n - 1].CleanupOp? then Kept(ops, n - 1)
    else Kept(ops, n - 1) + [ops[n - 1]]
  }

  predicate SameIdeal(a: Track, b: Track) {
    a.ideal == b.ideal && a.limit == b.limit && a.window == b.window
  }

  lemma {:induction false} AfterPrefix(l: Limiter, a: seq<Op>, op: Op, ip: string, n: nat)
    requires n <= |a|
    ensures After(l, a + [op], ip, n) == After(l, a, ip, n)
  {
    if n > 0 {
      AfterPrefix(l, a, op, ip, n - 1);
      assert (a + [op])[n - 1] == a[n - 1];
    }
  }

  lemma {:induction false} IdealIgnoresCleanups(l: Limiter, ops: seq<Op>, ip: string, n: nat)
    requires n <= |ops|
    ensures SameIdeal(After(l, Kept(ops, n), ip, |Kept(ops, n)|), After(l, ops, ip, n))
  {
    if n > 0 {
      IdealIgnoresCleanups(l, ops, ip, n - 1);
      if !ops[n - 1].CleanupOp? {
        var k := Kept(ops, n - 1);
        AfterPrefix(l, k, ops[n - 1], ip, |k|);
      }
    }
  }

  // ----- settings that stay or narrow -----

  datatype Settings = Settings(limit: int, window: Time)

  /** The settings in force after the first n operations. */
  function InForce(start: Settings, ops: seq<Op>, n: nat): Settings
    requires n <= |ops|
  {
    if n == 0 then start
    else if ops[n - 1].ReconfigureOp? then Settings(ops[n - 1].limit, ops[n - 1].window)
    else InForce(start, ops, n - 1)
  }

  lemma {:induction false} InForceIs(l: Limiter, ops: seq<Op>, ip: string, n: nat)
    requires n <= |ops|
    ensures var s := After(l, ops, ip, n); InForce(Settings(l.limit, l.window), ops, n) == Settings(s.limit, s.window)
  {
    if n > 0 {
      InForceIs(l, ops, ip, n - 1);
    }
  }

  /** No reconfiguration widens the window. */
  predicate Narrowing(l: Limiter, ops: seq<Op>) {
    forall i | 0 <= i < |ops| && ops[i].ReconfigureOp? ::
      ops[i].window <= InForce(Settings(l.limit, l.window), ops, i).window
  }

  lemma {:induction false} NarrowingRun(l: Limiter, ops: seq<Op>, ip: string, n: nat, now: Time)
    requires Narrowing(l, ops) && n <= |ops| && NotAfter(ops, n, now)
    ensures CutoffReached(After(l, ops, ip, n), now)
  {
    if n > 0 {
      NarrowingRun(l, ops, ip, n - 1, now);
      InForceIs(l, ops, ip, n - 1);
    }
  }

  /** As long as no reconfiguration widens the window, no request is judged below an earlier cutoff. */
  lemma NarrowingIsSteady(l: Limiter, ops: seq<Op>)
    requires Sane(l, ops) && Narrowing(l, ops)
    ensures Steady(l, ops)
  {
    forall i | 0 <= i < |ops| && ops[i].AllowOp?
      ensures CutoffReached(After(l, ops, ops[i].ip, i), ops[i].now)
    {
      NarrowingRun(l, ops, ops[i].ip, i, ops[i].now);
    }
  }


  predicate Fixed(ops: seq<Op>) {
    forall i | 0 <= i < |ops| :: !ops[i].ReconfigureOp?
  }

  predicate FixedTrack(l: Limiter, s: Track, now: Time) {
    s.limit == l.limit && s.window == l.window && CutoffReached(s, now)
  }

  lemma {:induction false} FixedRun(l: Limiter, ops: seq<Op>, ip: string, n: nat, now: Time)
    requires Fixed(ops) && n <= |ops| && NotAfter(ops, n, now)
    ensures FixedTrack(l, After(l, ops, ip, n), now)
  {
    if n > 0 {
      FixedRun(l, ops, ip, n - 1, now);
    }
  }

  /** Fixed settings, non-decreasing clock: a request is accepted if and only if fewer than `limit` accepted
      requests of its address lie in the window that ends now, and `limit` is that of the limiter. */
  lemma FixedDecision(l: Limiter, ops: seq<Op>, ip: string, n: nat, now: Time)
    requires Sane(l, ops) && Fixed(ops) && n <= |ops| && NotAfter(ops, n, now)
    ensures Accepts(Exec(l, ops, n), ip, now) <==> Within(After(l, ops, ip, n).log, now - l.window, l.limit)
    ensures forall i | 0 <= i < |After(l, ops, ip, n).log| :: After(l, ops, ip, n).log[i] <= now
  {
    GoodRun(l, ops, ip, n, now);
    FixedRun(l, ops, ip, n, now);
    CaughtUp(l, ops, ip, n, now);
  }

  /** By their numbers, the requests of an address among the first n operations that were accepted, and were made
      less than a window before an instant. */
  function AcceptedWithin(l: Limiter, ops: seq<Op>, ip: string, n: nat, now: Time, window: Time): set<int>
    requires n <= |ops|
  {
    set i | 0 <= i < n && ops[i].AllowOp? && ops[i].ip == ip && Accepts(Exec(l, ops, i), ip, ops[i].now)
            && now - ops[i].now < window
  }

  function One(b: bool, n: int): set<int> {
    if b then {n} else {}
  }

  lemma AcceptedSnoc(l: Limiter, ops: seq<Op>, ip: string, n: nat, now: Time, window: Time)
    requires n < |ops|
    ensures AcceptedWithin(l, ops, ip, n + 1, now, window) == AcceptedWithin(l, ops, ip, n, now, window) +
      One(ops[n].AllowOp? && ops[n].ip == ip && Accepts(Exec(l, ops, n), ip, ops[n].now) && now - ops[n].now < window, n)
    ensures n !in AcceptedWithin(l, ops, ip, n, now, window)
  {
  }

  lemma LogCountStep(s: Track, op: Op, ip: string, s': Track, now: Time, window: Time)
    requires Stepped(s, op, ip, s')
    ensures |Above(s'.log, now - window)| == |Above(s.log, now - window)| +
      |One(op.AllowOp? && op.ip == ip && Decides(s, op.now) && now - op.now < window, 0)|
  {
    if op.AllowOp? {
      AboveSnoc(s.log, op.now, now - window);
    }
  }

  lemma LogCountNext(l: Limiter, ops: seq<Op>, ip: string, n: nat, now: Time, window: Time)
    requires n < |ops|
    requires |Above(After(l, ops, ip, n).log, now - window)| == |AcceptedWithin(l, ops, ip, n, now, window)|
    ensures |Above(After(l, ops, ip, n + 1).log, now - window)| == |AcceptedWithin(l, ops, ip, n + 1, now, window)|
  {
    var s := After(l, ops, ip, n);
    AcceptedSnoc(l, ops, ip, n, now, window);
    StepFacts(s, ops[n], ip);
    LogCountStep(s, ops[n], ip, After(l, ops, ip, n + 1), now, window);
    if ops[n].AllowOp? {
      TrackIsExec(l, ops, ip, n);
      assert Decides(s, ops[n].now) == Accepts(Exec(l, ops, n), ip, ops[n].now);
    }
  }

  /** The history kept for an address holds the accepted requests. */
  lemma {:induction false} LogCount(l: Limiter, ops: seq<Op>, ip: string, n: nat, now: Time, window: Time)
    requires n <= |ops|
    ensures |Above(After(l, ops, ip, n).log, now - window)| == |AcceptedWithin(l, ops, ip, n, now, window)|
  {
    if n > 0 {
      LogCount(l, ops, ip, n - 1, now, window);
      LogCountNext(l, ops, ip, n - 1, now, window);
    } else {
      assert AcceptedWithin(l, ops, ip, 0, now, window) == {};
    }
  }

  /** After any reconfigurations a request is accepted if and only if fewer than `limit` requests of its address that
      were accepted before it were made less than a window ago, in the settings in force, once the window reaches
      back no further than any earlier pruning did. */
  lemma AcceptedAgainIff(l: Limiter, ops: seq<Op>, ip: string, n: nat, now: Time)
    requires Sane(l, ops) && n <= |ops| && NotAfter(ops, n, now) && CutoffReached(After(l, ops, ip, n), now)
    ensures var f := InForce(Settings(l.limit, l.window), ops, n);
      Accepts(Exec(l, ops, n), ip, now) <==> |AcceptedWithin(l, ops, ip, n, now, f.window)| < f.limit
  {
    InForceIs(l, ops, ip, n);
    CaughtUp(l, ops, ip, n, now);
    LogCount(l, ops, ip, n, now, After(l, ops, ip, n).window);
  }

  lemma {:induction false} FixedInForce(start: Settings, ops: seq<Op>, n: nat)
    requires Fixed(ops) && n <= |ops|
    ensures InForce(start, ops, n) == start
  {
    if n > 0 {
      FixedInForce(start, ops, n - 1);
    }
  }

  /** So, with fixed settings, always. */
  lemma AcceptedIff(l: Limiter, ops: seq<Op>, ip: string, n: nat, now: Time)
    requires Sane(l, ops) && Fixed(ops) && n <= |ops| && NotAfter(ops, n, now)
    ensures Accepts(Exec(l, ops, n), ip, now) <==> |AcceptedWithin(l, ops, ip, n, now, l.window)| < l.limit
  {
    FixedRun(l, ops, ip, n, now);
    FixedInForce(Settings(l.limit, l.window), ops, n);
    AcceptedAgainIff(l, ops, ip, n, now);
  }

  lemma {:induction false} AboveMembers(ts: seq<Time>, cutoff: Time)
    ensures forall t :: t in Above(ts, cutoff) <==> t in ts && t > cutoff
  {
    if ts != [] {
      AboveMembers(ts[..|ts| - 1], cutoff);
      assert ts == ts[..|ts| - 1] + [ts[|ts| - 1]];
    }
  }

  /** A cleanup forgets exactly the requests that are a window old or older, and every address left without one. */
  lemma CleanupForgets(l: Limiter, ip: string, now: Time)
    ensures forall t :: t in ListOf(Cleanup(l, now), ip) <==> t in ListOf(l, ip) && now - t < l.window
    ensures ip in Cleanup(l, now).windows <==> exists t :: t in ListOf(l, ip) && now - t < l.window
  {
    AboveMembers(ListOf(l, ip), now - l.window);
    if Above(ListOf(l, ip), now - l.window) != [] {
      assert Above(ListOf(l, ip), now - l.window)[0] in Above(ListOf(l, ip), now - l.window);
    }
  }

  lemma {:induction false} KeptMembers(ops: seq<Op>, n: nat, k: nat)
    requires n <= |ops| && k < |Kept(ops, n)|
    ensures exists i :: 0 <= i < n && ops[i] == Kept(ops, n)[k] && !ops[i].CleanupOp?
  {
    if k == |Kept(ops, n)| - 1 && !ops[n - 1].CleanupOp? {
      assert ops[n - 1] == Kept(ops, n)[k];
    } else {
      KeptMembers(ops, n - 1, k);
    }
  }

  lemma KeptNotAfter(ops: seq<Op>, n: nat, now: Time)
    requires n <= |ops| && NotAfter(ops, n, now)
    ensures NotAfter(Kept(ops, n), |Kept(ops, n)|, now)
  {
    var k := Kept(ops, n);
    forall i | 0 <= i < |k| && !k[i].ReconfigureOp?
      ensures k[i].now <= now
    {
      KeptMembers(ops, n, i);
    }
  }

  lemma {:induction false} KeptSane(l: Limiter, ops: seq<Op>, n: nat)
    requires Sane(l, ops) && n <= |ops|
    ensures Sane(l, Kept(ops, n))
  {
    if n > 0 {
      KeptSane(l, ops, n - 1);
      if !ops[n - 1].ReconfigureOp? {
        KeptNotAfter(ops, n - 1, ops[n - 1].now);
      }
    }
  }

  predicate NoHigher(a: Option<Time>, b: Option<Time>) {
    a.Some? ==> b.Some? && a.value <= b.value
  }

  lemma FloorStep(a: Track, b: Track, op: Op, ip: string)
    requires NoHigher(a.floor, b.floor) && a.window == b.window
    ensures NoHigher(Step(a, op, ip).floor, Step(b, op, ip).floor)
    ensures op.CleanupOp? ==> NoHigher(a.floor, Step(b, op, ip).floor)
  {
  }

  /** Without its cleanups a run has pruned no further than with them. */
  lemma {:induction false} KeptFloor(l: Limiter, ops: seq<Op>, ip: string, n: nat)
    requires n <= |ops|
    ensures NoHigher(After(l, Kept(ops, n), ip, |Kept(ops, n)|).floor, After(l, ops, ip, n).floor)
  {
    if n > 0 {
      var k, op := Kept(ops, n - 1), ops[n - 1];
      KeptFloor(l, ops, ip, n - 1);
      IdealIgnoresCleanups(l, ops, ip, n - 1);
      FloorStep(After(l, k, ip, |k|), After(l, ops, ip, n - 1), op, ip);
      if !op.CleanupOp? {
        AfterPrefix(l, k, op, ip, |k|);
      }
    }
  }

  lemma KeptReached(l: Limiter, ops: seq<Op>, ip: string, n: nat, now: Time)
    requires n <= |ops| && CutoffReached(After(l, ops, ip, n), now)
    ensures CutoffReached(After(l, Kept(ops, n), ip, |Kept(ops, n)|), now)
  {
    KeptFloor(l, ops, ip, n);
    IdealIgnoresCleanups(l, ops, ip, n);
  }

  lemma {:induction false} KeptSteady(l: Limiter, ops: seq<Op>, n: nat)
    requires Steady(l, ops) && n <= |ops|
    ensures Steady(l, Kept(ops, n))
  {
    if n > 0 {
      KeptSteady(l, ops, n - 1);
      var k, op := Kept(ops, n - 1), ops[n - 1];
      if !op.CleanupOp? {
        forall i | 0 <= i < |k + [op]| && (k + [op])[i].AllowOp?
          ensures CutoffReached(After(l, k + [op], (k + [op])[i].ip, i), (k + [op])[i].now)
        {
          AfterPrefix(l, k, op, (k + [op])[i].ip, i);
          if i == |k| {
            KeptReached(l, ops, op.ip, n - 1, op.now);
          }
        }
      }
    }
  }

  lemma SameLog(l: Limiter, ops: seq<Op>, n: nat, ip: string)
    requires Sane(l, ops) && Steady(l, ops) && n <= |ops|
    ensures var k := Kept(ops, n);
      After(l, ops, ip, n).log == After(l, k, ip, |k|).log
  {
    var k := Kept(ops, n);
    KeptSane(l, ops, n);
    KeptSteady(l, ops, n);
    RefinesIdeal(l, ops, ip, n);
    RefinesIdeal(l, k, ip, |k|);
    IdealIgnoresCleanups(l, ops, ip, n);
  }

  /** In a steady run, whatever reconfigurations it contains, cleanups may happen anywhere or not at all: the same
      requests have been accepted, and the next one, if it is not judged below an earlier cutoff either,
      is decided alike. */
  lemma CleanupsInvisible(l: Limiter, ops: seq<Op>, ip: string, n: nat, now: Time)
    requires Sane(l, ops) && Steady(l, ops) && n <= |ops| && NotAfter(ops, n, now)
    requires CutoffReached(After(l, ops, ip, n), now)
    ensures var k := Kept(ops, n);
      && After(l, ops, ip, n).log == After(l, k, ip, |k|).log
      && Accepts(Exec(l, ops, n), ip, now) == Accepts(Exec(l, k, |k|), ip, now)
  {
    var k := Kept(ops, n);
    KeptSane(l, ops, n);
    KeptNotAfter(ops, n, now);
    KeptReached(l, ops, ip, n, now);
    SameLog(l, ops, n, ip);
    IdealIgnoresCleanups(l, ops, ip, n);
    CaughtUp(l, ops, ip, n, now);
    CaughtUp(l, k, ip, |k|, now);
  }

  /** So while no reconfiguration widens the window, no cleanup is ever noticed. */
  lemma NarrowingHidesCleanups(l: Limiter, ops: seq<Op>, ip: string, n: nat, now: Time)
    requires Sane(l, ops) && Narrowing(l, ops) && n <= |ops| && NotAfter(ops, n, now)
    ensures var k := Kept(ops, n);
      && After(l, ops, ip, n).log == After(l, k, ip, |k|).log
      && Accepts(Exec(l, ops, n), ip, now) == Accepts(Exec(l, k, |k|), ip, now)
  {
    NarrowingIsSteady(l, ops);
    NarrowingRun(l, ops, ip, n, now);
    CleanupsInvisible(l, ops, ip, n, now);
  }

  // ----- spacing, size, independence -----

  lemma {:induction false} AboveNone(ts: seq<Time>, cutoff: Time)
    requires forall i | 0 <= i < |ts| :: ts[i] <= cutoff
    ensures Above(ts, cutoff) == []
  {
    if ts != [] {
      AboveNone(ts[..|ts| - 1], cutoff);
    }
  }

  /** Of a sorted list, everything before the entries above a cutoff is at or below it. */
  lemma {:induction false} AboveSorted(ts: seq<Time>, cutoff: Time)
    requires Sorted(ts)
    ensures forall i | 0 <= i < |ts| - |Above(ts, cutoff)| :: ts[i] <= cutoff
  {
    if ts != [] {
      var before, last := ts[..|ts| - 1], ts[|ts| - 1];
      AboveSorted(before, cutoff);
      if last <= cutoff {
        AboveNone(before, cutoff);
      }
    }
  }

  ghost predicate Spaced(log: seq<Time>, limit: nat, window: Time) {
    forall i | 0 <= i < |log| - limit :: log[i + limit] - log[i] >= window
  }

  lemma SpacedStep(s: Track, op: Op, ip: string)
    requires s.limit > 0 && Spaced(s.log, s.limit, s.window) && !op.ReconfigureOp?
    requires Good(s, op.now) && CutoffReached(s, op.now)
    ensures Spaced(Step(s, op, ip).log, s.limit, s.window)
  {
    if op.AllowOp? && op.ip == ip && Decides(s, op.now) {
      DecidesIff(s, op.now);
      AboveSorted(s.log, op.now - s.window);
      var log := s.log + [op.now];
      forall i | 0 <= i < |log| - s.limit
        ensures log[i + s.limit] - log[i] >= s.window
      {
      }
    }
  }

  /** With fixed settings, an accepted request and the one accepted `limit` places later are at least a
      whole window apart. */
  lemma {:induction false} Spacing(l: Limiter, ops: seq<Op>, ip: string, n: nat)
    requires Sane(l, ops) && Fixed(ops) && n <= |ops| && l.limit > 0
    ensures Spaced(After(l, ops, ip, n).log, l.limit, l.window)
  {
    if n > 0 {
      var op := ops[n - 1];
      Spacing(l, ops, ip, n - 1);
      FixedGood(l, ops, ip, n - 1, op.now);
      SpacedStep(After(l, ops, ip, n - 1), op, ip);
    }
  }

  lemma FixedGood(l: Limiter, ops: seq<Op>, ip: string, n: nat, now: Time)
    requires Sane(l, ops) && Fixed(ops) && n < |ops| && now == ops[n].now
    ensures Good(After(l, ops, ip, n), now) && FixedTrack(l, After(l, ops, ip, n), now)
  {
    GoodRun(l, ops, ip, n, now);
    FixedRun(l, ops, ip, n, now);
  }

  lemma ListBoundStep(s: Track, op: Op, ip: string)
    requires |s.list| <= Max(s.limit, 0) && !op.ReconfigureOp?
    ensures |Step(s, op, ip).list| <= Max(s.limit, 0) && Step(s, op, ip).limit == s.limit
  {
  }

  lemma {:induction false} TrackBound(l: Limiter, ops: seq<Op>, ip: string, n: nat)
    requires l.windows == map[] && Fixed(ops) && n <= |ops|
    ensures |After(l, ops, ip, n).list| <= Max(l.limit, 0) && After(l, ops, ip, n).limit == l.limit
  {
    if n > 0 {
      TrackBound(l, ops, ip, n - 1);
      ListBoundStep(After(l, ops, ip, n - 1), ops[n - 1], ip);
    }
  }

  /** With fixed settings no list ever holds more than `limit` entries. */
  lemma ListBound(l: Limiter, ops: seq<Op>, ip: string, n: nat)
    requires l.windows == map[] && Fixed(ops) && n <= |ops|
    ensures |ListOf(Exec(l, ops, n), ip)| <= Max(l.limit, 0)
  {
    TrackBound(l, ops, ip, n);
    TrackIsExec(l, ops, ip, n);
  }

  /** A request leaves the lists of all other addresses, and every decision about them, alone. */
  lemma OthersUntouched(l: Limiter, ip: string, other: string, now: Time)
    requires other != ip
    ensures ListOf(Allow(l, ip, now), other) == ListOf(l, other)
    ensures forall later :: Accepts(Allow(l, ip, now), other, later) == Accepts(l, other, later)
  {
  }

  // ----- when a cleanup is harmless -----

  function Copies(t: Time, n: nat): seq<Time> {
    seq(n, _ => t)
  }

  lemma {:induction false} AboveAll(t: Time, n: nat, cutoff: Time)
    ensures Above(Copies(t, n), cutoff) == if t > cutoff then Copies(t, n) else []
  {
    if n > 0 {
      var ts := Copies(t, n);
      assert ts[..n - 1] == Copies(t, n - 1);
      AboveAll(t, n - 1, cutoff);
    }
  }

  /** The cutoff that operation i, a request or a cleanup, prunes at. */
  function CutoffAt(start: Settings, ops: seq<Op>, i: nat): Time
    requires i < |ops| && !ops[i].ReconfigureOp?
  {
    ops[i].now - InForce(start, ops, i).window
  }

  /** Of the first n operations those that prune the address's list all do so below a cutoff. */
  predicate PrunesBelow(start: Settings, ops: seq<Op>, ip: string, n: nat, cutoff: Time)
    requires n <= |ops|
  {
    forall i {:trigger Prunes(ops[i], ip)} | 0 <= i < n && Prunes(ops[i], ip) :: CutoffAt(start, ops, i) < cutoff
  }

  /** No request of the address among the first n operations is judged under a limit that admits anything. */
  predicate NoneAdmitted(start: Settings, ops: seq<Op>, ip: string, n: nat)
    requires n <= |ops|
  {
    forall i {:trigger Prunes(ops[i], ip)} | 0 <= i < n && Prunes(ops[i], ip) && ops[i].AllowOp? ::
      InForce(start, ops, i).limit <= 0
  }

  /** Operation j is a request of the address that is judged below the cutoff of a cleanup made before the
      run, under a limit that admits something, and nothing in between has pruned the list that far. */
  predicate Undercuts(start: Settings, c: Time, ops: seq<Op>, ip: string, j: nat)
    requires j < |ops|
  {
    && ops[j].AllowOp? && ops[j].ip == ip && InForce(start, ops, j).limit > 0
    && CutoffAt(start, ops, j) < c - start.window
    && PrunesBelow(start, ops, ip, j, c - start.window)
  }

  /** Operation n, if it is a request of the address, is decided alike with and without a cleanup before the run. */
  predicate DecidedAlike(l: Limiter, c: Time, ops: seq<Op>, ip: string, n: nat)
    requires n < |ops|
  {
    ops[n].AllowOp? && ops[n].ip == ip ==>
      Accepts(Exec(l, ops, n), ip, ops[n].now) == Accepts(Exec(Cleanup(l, c), ops, n), ip, ops[n].now)
  }

  /** With and without the cleanup: the lists are the same, or the cleanup has cut one of them short and
      nothing has pruned the other that far. */
  predicate Apart(start: Settings, c: Time, ops: seq<Op>, ip: string, n: nat, x: seq<Time>, y: seq<Time>)
    requires n <= |ops|
  {
    x == y || (y == Above(x, c - start.window) && PrunesBelow(start, ops, ip, n, c - start.window))
  }

  predicate Cut(start: Settings, c: Time, ops: seq<Op>, ip: string, n: nat, a: Track, b: Track)
    requires n <= |ops|
  {
    SameSettings(a, b) && Apart(start, c, ops, ip, n, a.list, b.list)
  }

  /** Pruning below the cutoff of the cleanup, without accepting: the difference stays. */
  lemma ListBelow(list: seq<Time>, op: Op, k: Time, limit: int, cutoff: Time)
    requires !op.ReconfigureOp? && k < cutoff && (op.CleanupOp? || limit <= 0)
    ensures NextList(Above(list, cutoff), op, k, limit) == Above(NextList(list, op, k, limit), cutoff)
  {
    AboveTwice(list, cutoff, k);
    AboveTwice(list, k, cutoff);
  }

  /** Pruning as far as the cleanup did: the difference is gone. */
  lemma ListBeyond(list: seq<Time>, op: Op, k: Time, limit: int, cutoff: Time)
    requires !op.ReconfigureOp? && k >= cutoff
    ensures NextList(Above(list, cutoff), op, k, limit) == NextList(list, op, k, limit)
    ensures Above(Above(list, cutoff), k) == Above(list, k)
  {
    AboveTwice(list, cutoff, k);
  }

  /** The same of two lists, one of them cut short: they stay so, or come together. */
  lemma ListsStep(x: seq<Time>, y: seq<Time>, op: Op, k: Time, limit: int, cutoff: Time)
    requires !op.ReconfigureOp? && y == Above(x, cutoff) && (k >= cutoff || op.CleanupOp? || limit <= 0)
    ensures var (x', y') := (NextList(x, op, k, limit), NextList(y, op, k, limit));
      if k >= cutoff then y' == x' else y' == Above(x', cutoff)
    ensures op.AllowOp? ==> (|Above(x, k)| < limit <==> |Above(y, k)| < limit)
  {
    if k < cutoff {
      ListBelow(x, op, k, limit, cutoff);
    } else {
      ListBeyond(x, op, k, limit, cutoff);
    }
  }

  lemma PrunesOneMore(start: Settings, ops: seq<Op>, ip: string, n: nat, cutoff: Time)
    requires n < |ops| && PrunesBelow(start, ops, ip, n, cutoff)
    requires Prunes(ops[n], ip) ==> CutoffAt(start, ops, n) < cutoff
    ensures PrunesBelow(start, ops, ip, n + 1, cutoff)
  {
  }

  lemma ApartStep(start: Settings, c: Time, ops: seq<Op>, ip: string, n: nat, x: seq<Time>, y: seq<Time>, now: Settings)
    requires n < |ops| && Prunes(ops[n], ip) && Apart(start, c, ops, ip, n, x, y) && !Undercuts(start, c, ops, ip, n)
    requires now == InForce(start, ops, n)
    ensures var k := ops[n].now - now.window;
      && Apart(start, c, ops, ip, n + 1, NextList(x, ops[n], k, now.limit), NextList(y, ops[n], k, now.limit))
      && (ops[n].AllowOp? ==> (|Above(x, k)| < now.limit <==> |Above(y, k)| < now.limit))
  {
    if x != y {
      ListsStep(x, y, ops[n], ops[n].now - now.window, now.limit, c - start.window);
      if ops[n].now - now.window < c - start.window {
        PrunesOneMore(start, ops, ip, n, c - start.window);
      }
    }
  }

  lemma ApartIdle(start: Settings, c: Time, ops: seq<Op>, ip: string, n: nat, x: seq<Time>, y: seq<Time>)
    requires n < |ops| && !Prunes(ops[n], ip) && Apart(start, c, ops, ip, n, x, y)
    ensures Apart(start, c, ops, ip, n + 1, x, y)
  {
    if x != y {
      PrunesOneMore(start, ops, ip, n, c - start.window);
    }
  }

  lemma CutPrunes(start: Settings, c: Time, ops: seq<Op>, ip: string, n: nat, a: Track, b: Track, a': Track, b': Track)
    requires n < |ops| && Prunes(ops[n], ip) && SameSettings(a, b) && Stepped(a, ops[n], ip, a') && Stepped(b, ops[n], ip, b')
    requires var k := ops[n].now - a.window;
      Apart(start, c, ops, ip, n + 1, NextList(a.list, ops[n], k, a.limit), NextList(b.list, ops[n], k, b.limit))
    ensures SameSettings(a', b') && Apart(start, c, ops, ip, n + 1, a'.list, b'.list)
  {
  }

  lemma CutIdle(start: Settings, c: Time, ops: seq<Op>, ip: string, n: nat, a: Track, b: Track, a': Track, b': Track)
    requires n < |ops| && !Prunes(ops[n], ip) && SameSettings(a, b) && Stepped(a, ops[n], ip, a') && Stepped(b, ops[n], ip, b')
    requires Apart(start, c, ops, ip, n + 1, a.list, b.list)
    ensures SameSettings(a', b') && Apart(start, c, ops, ip, n + 1, a'.list, b'.list)
  {
  }

  lemma CutStep(start: Settings, c: Time, ops: seq<Op>, ip: string, n: nat, a: Track, b: Track, a': Track, b': Track)
    requires n < |ops| && Cut(start, c, ops, ip, n, a, b) && !Undercuts(start, c, ops, ip, n)
    requires InForce(start, ops, n) == Settings(a.limit, a.window)
    requires Stepped(a, ops[n], ip, a') && Stepped(b, ops[n], ip, b')
    ensures Cut(start, c, ops, ip, n + 1, a', b')
  {
    if Prunes(ops[n], ip) {
      ApartStep(start, c, ops, ip, n, a.list, b.list, Settings(a.limit, a.window));
      CutPrunes(start, c, ops, ip, n, a, b, a', b');
    } else {
      ApartIdle(start, c, ops, ip, n, a.list, b.list);
      CutIdle(start, c, ops, ip, n, a, b, a', b');
    }
  }

  lemma CutDecides(start: Settings, c: Time, ops: seq<Op>, ip: string, n: nat, a: Track, b: Track)
    requires n < |ops| && Cut(start, c, ops, ip, n, a, b) && !Undercuts(start, c, ops, ip, n)
    requires InForce(start, ops, n) == Settings(a.limit, a.window)
    requires ops[n].AllowOp? && ops[n].ip == ip
    ensures Decides(a, ops[n].now) == Decides(b, ops[n].now)
  {
    ApartStep(start, c, ops, ip, n, a.list, b.list, Settings(a.limit, a.window));
  }

  lemma {:induction false} CutRun(l: Limiter, c: Time, ops: seq<Op>, ip: string, n: nat)
    requires n <= |ops| && forall j: nat | j < n :: !Undercuts(Settings(l.limit, l.window), c, ops, ip, j)
    ensures Cut(Settings(l.limit, l.window), c, ops, ip, n, After(l, ops, ip, n), After(Cleanup(l, c), ops, ip, n))
  {
    if n > 0 {
      CutRun(l, c, ops, ip, n - 1);
      InForceIs(l, ops, ip, n - 1);
      var a, b := After(l, ops, ip, n - 1), After(Cleanup(l, c), ops, ip, n - 1);
      StepFacts(a, ops[n - 1], ip);
      StepFacts(b, ops[n - 1], ip);
      CutStep(Settings(l.limit, l.window), c, ops, ip, n - 1, a, b, After(l, ops, ip, n), After(Cleanup(l, c), ops, ip, n));
    }
  }

  lemma AlikeUnlessUndercut(l: Limiter, c: Time, ops: seq<Op>, ip: string, n: nat)
    requires n < |ops| && forall j: nat | j <= n :: !Undercuts(Settings(l.limit, l.window), c, ops, ip, j)
    ensures DecidedAlike(l, c, ops, ip, n)
  {
    CutRun(l, c, ops, ip, n);
    InForceIs(l, ops, ip, n);
    if ops[n].AllowOp? && ops[n].ip == ip {
      CutDecides(Settings(l.limit, l.window), c, ops, ip, n, After(l, ops, ip, n), After(Cleanup(l, c), ops, ip, n));
    }
    TrackIsExec(l, ops, ip, n);
    TrackIsExec(Cleanup(l, c), ops, ip, n);
  }

  lemma CopiesStep(s: Track, op: Op, ip: string, s': Track, t: Time, k: nat)
    requires s.list == Copies(t, k) && Stepped(s, op, ip, s')
    requires Prunes(op, ip) ==> op.now - s.window < t && (op.AllowOp? ==> s.limit <= 0)
    ensures s'.list == Copies(t, k)
  {
    if Prunes(op, ip) {
      AboveAll(t, k, op.now - s.window);
    }
  }

  /** Until a first undercutting request, a list of entries at the cutoff itself stays as it is, and so does none. */
  lemma {:induction false} ListKept(l: Limiter, t: Time, k: nat, ops: seq<Op>, ip: string, n: nat)
    requires n <= |ops| && ListOf(l, ip) == Copies(t, k)
    requires PrunesBelow(Settings(l.limit, l.window), ops, ip, n, t)
    requires NoneAdmitted(Settings(l.limit, l.window), ops, ip, n)
    ensures After(l, ops, ip, n).list == Copies(t, k)
  {
    if n > 0 {
      ListKept(l, t, k, ops, ip, n - 1);
      InForceIs(l, ops, ip, n - 1);
      var s := After(l, ops, ip, n - 1);
      StepFacts(s, ops[n - 1], ip);
      CopiesStep(s, ops[n - 1], ip, After(l, ops, ip, n), t, k);
    }
  }

  lemma FirstAdmitsNone(start: Settings, c: Time, ops: seq<Op>, ip: string, j: nat)
    requires j < |ops| && PrunesBelow(start, ops, ip, j, c - start.window)
    requires forall i: nat | i < j :: !Undercuts(start, c, ops, ip, i)
    ensures NoneAdmitted(start, ops, ip, j)
  {
    forall i: nat | i < j && Prunes(ops[i], ip) && ops[i].AllowOp?
      ensures InForce(start, ops, i).limit <= 0
    {
      assert PrunesBelow(start, ops, ip, i, c - start.window);
      assert !Undercuts(start, c, ops, ip, i);
    }
  }

  /** What a list of k entries at one instant comes to, and what is decided from it. */
  lemma DecidedFrom(l: Limiter, t: Time, k: nat, ops: seq<Op>, ip: string, j: nat)
    requires j < |ops| && ops[j].AllowOp? && ListOf(l, ip) == Copies(t, k)
    requires PrunesBelow(Settings(l.limit, l.window), ops, ip, j, t) && CutoffAt(Settings(l.limit, l.window), ops, j) < t
    requires NoneAdmitted(Settings(l.limit, l.window), ops, ip, j)
    ensures Accepts(Exec(l, ops, j), ip, ops[j].now) <==> k < InForce(Settings(l.limit, l.window), ops, j).limit
  {
    ListKept(l, t, k, ops, ip, j);
    InForceIs(l, ops, ip, j);
    TrackIsExec(l, ops, ip, j);
    CopiesDecide(After(l, ops, ip, j), t, k, ops[j].now);
  }

  lemma CopiesDecide(s: Track, t: Time, k: nat, now: Time)
    requires s.list == Copies(t, k) && now - s.window < t
    ensures Decides(s, now) <==> k < s.limit
  {
    AboveAll(t, k, now - s.window);
  }

  /** The first undercutting request tells a cleanup from none, when the list held `limit` entries made at the
      cleanup's cutoff. */
  lemma UndercutTells(l: Limiter, c: Time, ops: seq<Op>, ip: string, j: nat)
    requires j < |ops| && Undercuts(Settings(l.limit, l.window), c, ops, ip, j)
    requires forall i: nat | i < j :: !Undercuts(Settings(l.limit, l.window), c, ops, ip, i)
    requires l.windows == map[ip := Copies(c - l.window, InForce(Settings(l.limit, l.window), ops, j).limit)]
    ensures !DecidedAlike(l, c, ops, ip, j)
  {
    var start := Settings(l.limit, l.window);
    var t, k := c - l.window, InForce(start, ops, j).limit;
    FirstAdmitsNone(start, c, ops, ip, j);
    AboveAll(t, k, t);
    assert ListOf(Cleanup(l, c), ip) == Copies(t, 0);
    DecidedFrom(l, t, k, ops, ip, j);
    DecidedFrom(Cleanup(l, c), t, 0, ops, ip, j);
  }

  /** Exactly when a cleanup at instant c, made before some run of operations, changes none of the run's decisions
      about an address, whatever the lists were: when no request in the run undercuts it. */
  lemma CleanupHarmlessIff(start: Settings, c: Time, ops: seq<Op>, ip: string)
    ensures (forall windows: map<string, seq<Time>>, n: nat | n < |ops| ::
              DecidedAlike(Limiter(windows, start.limit, start.window), c, ops, ip, n))
      <==> forall j: nat | j < |ops| :: !Undercuts(start, c, ops, ip, j)
  {
    if forall j: nat | j < |ops| :: !Undercuts(start, c, ops, ip, j) {
      forall windows: map<string, seq<Time>>, n: nat | n < |ops|
        ensures DecidedAlike(Limiter(windows, start.limit, start.window), c, ops, ip, n)
      {
        AlikeUnlessUndercut(Limiter(windows, start.limit, start.window), c, ops, ip, n);
      }
    } else {
      var j := FirstUndercut(start, c, ops, ip);
      var windows := map[ip := Copies(c - start.window, InForce(start, ops, j).limit)];
      UndercutTells(Limiter(windows, start.limit, start.window), c, ops, ip, j);
    }
  }

  lemma FirstUndercut(start: Settings, c: Time, ops: seq<Op>, ip: string) returns (j: nat)
    requires exists i: nat :: i < |ops| && Undercuts(start, c, ops, ip, i)
    ensures j < |ops| && Undercuts(start, c, ops, ip, j)
    ensures forall i: nat | i < j :: !Undercuts(start, c, ops, ip, i)
  {
    j := 0;
    while !Undercuts(start, c, ops, ip, j)
      invariant j < |ops| && forall i: nat | i < j :: !Undercuts(start, c, ops, ip, i)
      invariant exists i: nat :: i < |ops| && Undercuts(start, c, ops, ip, i)
      decreases |ops| - j
    {
      j := j + 1;
    }
  }

  function Repeated(ip: string, t: Time, n: nat): seq<Op> {
    seq(n, _ => AllowOp(ip, t))
  }

  lemma RepeatedOnce(l: Limiter, ip: string, t: Time, ops: seq<Op>, n: nat)
    requires n < |ops| <= l.limit && l.window > 0 && ops[n] == AllowOp(ip, t)
    requires Holds(After(l, ops, ip, n), l, Copies(t, n))
    ensures Holds(After(l, ops, ip, n + 1), l, Copies(t, n + 1))
  {
    StepFacts(After(l, ops, ip, n), ops[n], ip);
    CopyStep(l, After(l, ops, ip, n), ops[n], ip, t, n, After(l, ops, ip, n + 1));
  }

  lemma {:induction false} ListRepeated(l: Limiter, ip: string, t: Time, ops: seq<Op>, n: nat)
    requires l.windows == map[] && n <= |ops| <= l.limit && l.window > 0
    requires forall i | 0 <= i < |ops| :: ops[i] == AllowOp(ip, t)
    ensures Holds(After(l, ops, ip, n), l, Copies(t, n))
  {
    if n > 0 {
      ListRepeated(l, ip, t, ops, n - 1);
      RepeatedOnce(l, ip, t, ops, n - 1);
    }
  }

  predicate Holds(s: Track, l: Limiter, list: seq<Time>) {
    s.list == list && s.limit == l.limit && s.window == l.window
  }

  lemma CopyStep(l: Limiter, s: Track, op: Op, ip: string, t: Time, n: nat, s': Track)
    requires Holds(s, l, Copies(t, n)) && op == AllowOp(ip, t) && Stepped(s, op, ip, s') && n < l.limit && l.window > 0
    ensures Holds(s', l, Copies(t, n + 1))
  {
    NextCopy(t, n, op, t - l.window, l.limit);
  }

  lemma NextCopy(t: Time, n: nat, op: Op, cutoff: Time, limit: int)
    requires op.AllowOp? && op.now == t && cutoff < t && n < limit
    ensures NextList(Copies(t, n), op, cutoff, limit) == Copies(t, n + 1)
  {
    AboveAll(t, n, cutoff);
  }

  /** The telling list is one that a limiter started empty comes to hold: n requests at one instant. */
  lemma ListReached(l: Limiter, ip: string, t: Time, n: nat)
    requires l.windows == map[] && n <= l.limit && l.window > 0
    ensures Sane(l, Repeated(ip, t, n)) && ListOf(Exec(l, Repeated(ip, t, n), n), ip) == Copies(t, n)
  {
    ListRepeated(l, ip, t, Repeated(ip, t, n), n);
    TrackIsExec(l, Repeated(ip, t, n), ip, n);
  }

  /** A concrete run: with limit 1, a request accepted at 10 and cleaned away at 30 under window 10 no longer
      blocks a request at 40 once the window is widened to 60; without the cleanup it would. */
  lemma WideningAfterCleanup(ip: string)
    ensures var l := Limiter(map[], 1, 10);
      var ops := [AllowOp(ip, 10), CleanupOp(30), ReconfigureOp(1, 60)];
      var k := [AllowOp(ip, 10), ReconfigureOp(1, 60)];
      k == Kept(ops, 3) && Accepts(Exec(l, ops, 3), ip, 40) && !Accepts(Exec(l, k, 2), ip, 40)
  {
    var l := Limiter(map[], 1, 10);
    var ops := [AllowOp(ip, 10), CleanupOp(30), ReconfigureOp(1, 60)];
    var k := [AllowOp(ip, 10), ReconfigureOp(1, 60)];
    assert Kept(ops, 1) == [ops[0]] && Kept(ops, 2) == [ops[0]] && Kept(ops, 3) == k;
    CleanedAccepts(l, ops, ip);
    KeptRefuses(l, k, ip);
  }

  lemma FirstAccepted(l: Limiter, ops: seq<Op>, ip: string)
    requires |ops| > 0 && ops[0] == AllowOp(ip, 10) && l == Limiter(map[], 1, 10)
    ensures var s := After(l, ops, ip, 1); s.list == [10] && s.limit == 1 && s.window == 10
  {
    assert After(l, ops, ip, 0) == Track([], [], None, [], 1, 10);
  }

  lemma CleanedAccepts(l: Limiter, ops: seq<Op>, ip: string)
    requires ops == [AllowOp(ip, 10), CleanupOp(30), ReconfigureOp(1, 60)] && l == Limiter(map[], 1, 10)
    ensures Accepts(Exec(l, ops, 3), ip, 40)
  {
    FirstAccepted(l, ops, ip);
    AboveSnoc([], 10, 20);
    assert [] + [10] == [10];
    var s1 := After(l, ops, ip, 1);
    assert After(l, ops, ip, 2) == Step(s1, CleanupOp(30), ip);
    assert After(l, ops, ip, 2).list == [];
    assert After(l, ops, ip, 3).list == [] && After(l, ops, ip, 3).limit == 1;
    TrackIsExec(l, ops, ip, 3);
    assert Decides(After(l, ops, ip, 3), 40);
  }

  lemma KeptRefuses(l: Limiter, k: seq<Op>, ip: string)
    requires k == [AllowOp(ip, 10), ReconfigureOp(1, 60)] && l == Limiter(map[], 1, 10)
    ensures !Accepts(Exec(l, k, 2), ip, 40)
  {
    FirstAccepted(l, k, ip);
    AboveSnoc([], 10, -20);
    assert [] + [10] == [10];
    var s1 := After(l, k, ip, 1);
    assert After(l, k, ip, 2) == Step(s1, ReconfigureOp(1, 60), ip);
    TrackIsExec(l, k, ip, 2);
    assert !Decides(After(l, k, ip, 2), 40);
  }
}
