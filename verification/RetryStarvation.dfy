/** When retries starve for good.
 *
 * An undecodable message is never acknowledged, so it stays at the low end of the pending list and
 * every claim that takes it is wasted.  One process claims once per tick of its retry interval.
 */
module RetryStarvation {
  import opened Wrappers
  import opened Broker
  import opened StreamRetry
  import opened RetryTheorems
  import opened AttemptBudget

  /** One tick of the retry handler, and the wait for the next one. */
  function Round(interval: nat): seq<Action> {
    [Begin(0, Retry), Claim(0, true), Info(0, true), Start(0), Advance(interval)]
  }

  function Rounds(interval: nat, n: nat): seq<Action> {
    if n == 0 then [] else Rounds(interval, n - 1) + Round(interval)
  }

  // ----- What a run claims, in parts -----

  lemma {:induction false} ClaimedAppends(cfg: Config, s: State, a: seq<Action>, b: seq<Action>)
    ensures ClaimedIn(cfg, s, a + b) == ClaimedIn(cfg, s, a) + ClaimedIn(cfg, Run(cfg, s, a), b)
    ensures CallsIn(cfg, s, a + b) == CallsIn(cfg, s, a) + CallsIn(cfg, Run(cfg, s, a), b)
    decreases |a|
  {
    if a == [] {
      assert a + b == b;
    } else {
      assert (a + b)[1..] == a[1..] + b;
      ClaimedAppends(cfg, Step(cfg, s, a[0]), a[1..], b);
    }
  }

  lemma ClaimedInOne(cfg: Config, s: State, a: Action)
    ensures var target := ClaimTarget(s.broker, s.clock, cfg.minIdle);
            ClaimedIn(cfg, s, [a]) == if Calls(s, a) && target.Some? then [target.value] else []
    ensures CallsIn(cfg, s, [a]) == Bit(Calls(s, a))
  {
    assert [a][1..] == [];
  }

  function First(): seq<Action> { [Begin(0, Retry), Claim(0, true)] }

  function Last(interval: nat): seq<Action> { [Info(0, true), Start(0), Advance(interval)] }

  /** The claim is the only call of a round. */
  lemma ClaimedInFirst(cfg: Config, s: State)
    requires s.handlers == map[] && cfg.minIdle > 0
    ensures var target := ClaimTarget(s.broker, s.clock, cfg.minIdle);
            && ClaimedIn(cfg, s, First()) == (if target.Some? then [target.value] else [])
            && CallsIn(cfg, s, First()) == 1
            && Run(cfg, s, First()) == Step(cfg, Step(cfg, s, Begin(0, Retry)), Claim(0, true))
  {
    var t := Step(cfg, s, Begin(0, Retry));
    assert [Begin(0, Retry)] + [Claim(0, true)] == First();
    ClaimedAppends(cfg, s, [Begin(0, Retry)], [Claim(0, true)]);
    RunAppends(cfg, s, [Begin(0, Retry)], [Claim(0, true)]);
    RunOfOne(cfg, s, Begin(0, Retry));
    RunOfOne(cfg, t, Claim(0, true));
    ClaimedInOne(cfg, s, Begin(0, Retry));
    ClaimedInOne(cfg, t, Claim(0, true));
  }

  lemma {:induction false} NothingClaimed(cfg: Config, s: State, acts: seq<Action>)
    requires forall i | 0 <= i < |acts| :: !acts[i].Claim?
    ensures ClaimedIn(cfg, s, acts) == [] && CallsIn(cfg, s, acts) == 0
    decreases |acts|
  {
    if acts != [] {
      NothingClaimed(cfg, Step(cfg, s, acts[0]), acts[1..]);
    }
  }

  lemma ClaimedInRound(cfg: Config, s: State, interval: nat)
    requires s.handlers == map[] && cfg.minIdle > 0
    ensures var target := ClaimTarget(s.broker, s.clock, cfg.minIdle);
            && ClaimedIn(cfg, s, Round(interval)) == (if target.Some? then [target.value] else [])
            && CallsIn(cfg, s, Round(interval)) == 1
  {
    assert First() + Last(interval) == Round(interval);
    ClaimedAppends(cfg, s, First(), Last(interval));
    ClaimedInFirst(cfg, s);
    NothingClaimed(cfg, Run(cfg, s, First()), Last(interval));
  }

  // ----- A round that is wasted -----

  /** Nobody is at work, `m` is idle, and no message pending below it can be decoded. */
  ghost predicate Blocked(cfg: Config, s: State, m: nat) {
    && Inv(cfg, s) && s.handlers == map[] && IsIdle(cfg, s, m)
    && forall i | i in Below(s.broker, m) :: i !in s.broker.decodable
  }

  function AfterWaste(cfg: Config, s: State, interval: nat): State {
    var target := ClaimTarget(s.broker, s.clock, cfg.minIdle);
    State(s.clock + interval, if target.Some? then Reclaim(s.broker, target.value, s.clock) else s.broker,
          map[], s.ledger)
  }

  lemma WastedRound(cfg: Config, s: State, interval: nat)
    requires s.handlers == map[] && cfg.minIdle > 0
    requires var target := ClaimTarget(s.broker, s.clock, cfg.minIdle);
             target.Some? ==> target.value !in s.broker.decodable
    ensures Run(cfg, s, Round(interval)) == AfterWaste(cfg, s, interval)
  {
    RunOfFive(cfg, s, Begin(0, Retry), Claim(0, true), Info(0, true), Start(0), Advance(interval));
    var s1 := Step(cfg, s, Begin(0, Retry));
    var s2 := Step(cfg, s1, Claim(0, true));
    var target := ClaimTarget(s.broker, s.clock, cfg.minIdle);
    assert s1.handlers - {0} == map[];
    if target.Some? {
      var s4 := Step(cfg, Step(cfg, s2, Info(0, true)), Start(0));
      assert s4.handlers == map[];
    }
  }

  /** Whatever is claimed instead of `m` lies below it. */
  lemma TargetIsBelow(cfg: Config, s: State, m: nat)
    requires IsIdle(cfg, s, m)
    ensures var target := ClaimTarget(s.broker, s.clock, cfg.minIdle);
            target.Some? && target.value != m ==> target.value in Below(s.broker, m)
  {
    var target := ClaimTarget(s.broker, s.clock, cfg.minIdle);
    if target.Some? {
      ScanExact(s.broker.pending, 0, s.broker.added, SCAN_LIMIT, s.clock, cfg.minIdle, target.value);
    }
  }

  lemma WasteKeepsBlocked(cfg: Config, s: State, m: nat, interval: nat)
    requires Blocked(cfg, s, m) && cfg.minIdle > 0 && ClaimTarget(s.broker, s.clock, cfg.minIdle) != Some(m)
    ensures var t := Run(cfg, s, Round(interval));
            && t == AfterWaste(cfg, s, interval) && Blocked(cfg, t, m) && Below(t.broker, m) == Below(s.broker, m)
            && m !in ClaimedIn(cfg, s, Round(interval)) && CallsIn(cfg, s, Round(interval)) == 1
  {
    TargetIsBelow(cfg, s, m);
    TargetIsIdle(s.broker, s.clock, cfg.minIdle);
    WastedRound(cfg, s, interval);
    ClaimedInRound(cfg, s, interval);
    RunKeepsInv(cfg, s, Round(interval));
  }

  /** The state after `n` rounds, as long as `m` has not been claimed. */
  lemma {:induction false} WastedRounds(cfg: Config, s: State, m: nat, interval: nat, n: nat)
    requires Blocked(cfg, s, m) && cfg.minIdle > 0 && m !in ClaimedIn(cfg, s, Rounds(interval, n))
    ensures var t := Run(cfg, s, Rounds(interval, n));
            && Blocked(cfg, t, m) && Below(t.broker, m) == Below(s.broker, m)
            && t.clock == s.clock + n * interval && t.broker.acked == s.broker.acked
            && CallsIn(cfg, s, Rounds(interval, n)) == n
  {
    if n > 0 {
      var before := Rounds(interval, n - 1);
      var u := Run(cfg, s, before);
      ClaimedAppends(cfg, s, before, Round(interval));
      RunAppends(cfg, s, before, Round(interval));
      WastedRounds(cfg, s, m, interval, n - 1);
      OneRoundMore(n - 1, interval);
      ClaimedInRound(cfg, u, interval);
      WasteKeepsBlocked(cfg, u, m, interval);
    }
  }

  // ----- Too few undecodable messages: `m` gets its turn -----

  lemma GetsItsTurn(cfg: Config, s: State, m: nat, interval: nat)
    requires Blocked(cfg, s, m)
    requires |Below(s.broker, m)| < SCAN_LIMIT && |Below(s.broker, m)| * interval < cfg.minIdle
    ensures m in ClaimedIn(cfg, s, Rounds(interval, |Below(s.broker, m)| + 1))
  {
    var u := |Below(s.broker, m)|;
    var before := Rounds(interval, u);
    ClaimedAppends(cfg, s, before, Round(interval));
    if m !in ClaimedIn(cfg, s, before) {
      WastedRounds(cfg, s, m, interval, u);
      var t := Run(cfg, s, before);
      ClaimedAppends(cfg, s, before, First());
      RunAppends(cfg, s, before, First());
      ClaimedInFirst(cfg, t);
      ClaimedInRound(cfg, t, interval);
      RetryDoesNotStarve(cfg, s, before + First(), m);
    }
  }

  // ----- Enough of them: it never does -----

  /** A message below `m` that is not idle was claimed `ages` rounds ago, and no two in one round. */
  ghost predicate Staggered(cfg: Config, s: State, m: nat, interval: nat, ages: map<nat, nat>) {
    && (forall i | i in Below(s.broker, m) && !IsIdle(cfg, s, i) ::
          i in ages && ages[i] >= 1 && s.broker.pending[i].at + ages[i] * interval == s.clock)
    && (forall i, j | i in Below(s.broker, m) && j in Below(s.broker, m) && i != j
                      && !IsIdle(cfg, s, i) && !IsIdle(cfg, s, j) :: ages[i] != ages[j])
  }

  lemma {:induction false} Pigeonhole(a: set<nat>, f: nat -> int, n: nat)
    requires forall i | i in a :: 1 <= f(i) <= n
    requires forall i, j | i in a && j in a && i != j :: f(i) != f(j)
    ensures |a| <= n
    decreases n
  {
    if n == 0 {
      assert a == {};
    } else if i :| i in a && f(i) == n {
      Pigeonhole(a - {i}, f, n - 1);
    } else {
      Pigeonhole(a, f, n - 1);
    }
  }

  lemma MoreRoundsTakeLonger(n: nat, age: nat, interval: nat)
    ensures n <= age ==> n * interval <= age * interval
  {
    if n <= age {
      assert age * interval == n * interval + (age - n) * interval;
    }
  }

  lemma OneRoundMore(n: nat, interval: nat)
    ensures (n + 1) * interval == n * interval + interval
  {}

  /** So many rounds do not fit into one idle time, so somebody below `m` is idle again. */
  lemma SomeoneIsIdle(cfg: Config, s: State, m: nat, interval: nat, ages: map<nat, nat>)
    requires Staggered(cfg, s, m, interval, ages)
    requires cfg.minIdle > 0 && |Below(s.broker, m)| * interval >= cfg.minIdle
    ensures exists i :: i in Below(s.broker, m) && IsIdle(cfg, s, i)
  {
    var below := Below(s.broker, m);
    assert |below| > 0;
    if forall i | i in below :: !IsIdle(cfg, s, i) {
      forall i | i in below ensures ages[i] < |below| {
        MoreRoundsTakeLonger(|below|, ages[i], interval);
      }
      var f: nat -> int := i => if i in ages then ages[i] else 0;
      Pigeonhole(below, f, |below| - 1);
    }
  }

  lemma WasteKeepsStaggered(cfg: Config, s: State, m: nat, interval: nat, ages: map<nat, nat>)
    returns (older: map<nat, nat>)
    requires Staggered(cfg, s, m, interval, ages)
    requires Below(AfterWaste(cfg, s, interval).broker, m) == Below(s.broker, m)
    ensures Staggered(cfg, AfterWaste(cfg, s, interval), m, interval, older)
  {
    var below, target := Below(s.broker, m), ClaimTarget(s.broker, s.clock, cfg.minIdle);
    older := map i | i in below :: if target == Some(i) then 1 else if i in ages then ages[i] + 1 else 1;
    var t := AfterWaste(cfg, s, interval);
    forall i | i in below && !IsIdle(cfg, t, i)
      ensures t.broker.pending[i].at + older[i] * interval == t.clock
      ensures target == Some(i) || (!IsIdle(cfg, s, i) && older[i] == ages[i] + 1)
    {
      if target != Some(i) {
        assert !IsIdle(cfg, s, i);
        OneRoundMore(ages[i], interval);
      }
    }
  }

  /** Ten pending messages hide `m`, or somebody below it is idle whenever a round begins. */
  ghost predicate Shadowed(cfg: Config, s: State, m: nat, interval: nat) {
    || |Below(s.broker, m)| >= SCAN_LIMIT
    || (|Below(s.broker, m)| * interval >= cfg.minIdle && exists ages :: Staggered(cfg, s, m, interval, ages))
  }

  lemma ShadowedIsNotTaken(cfg: Config, s: State, m: nat, interval: nat)
    requires Shadowed(cfg, s, m, interval) && cfg.minIdle > 0
    ensures ClaimTarget(s.broker, s.clock, cfg.minIdle) != Some(m)
  {
    ScanExact(s.broker.pending, 0, s.broker.added, SCAN_LIMIT, s.clock, cfg.minIdle, m);
    if |Below(s.broker, m)| < SCAN_LIMIT {
      var ages :| Staggered(cfg, s, m, interval, ages);
      SomeoneIsIdle(cfg, s, m, interval, ages);
    }
  }

  lemma ShadowedAfterWaste(cfg: Config, s: State, m: nat, interval: nat)
    requires Shadowed(cfg, s, m, interval)
    requires Below(AfterWaste(cfg, s, interval).broker, m) == Below(s.broker, m)
    ensures Shadowed(cfg, AfterWaste(cfg, s, interval), m, interval)
  {
    if |Below(s.broker, m)| < SCAN_LIMIT {
      var ages :| Staggered(cfg, s, m, interval, ages);
      ages := WasteKeepsStaggered(cfg, s, m, interval, ages);
    }
  }

  lemma {:induction false} ShadowedForGood(cfg: Config, s: State, m: nat, interval: nat, n: nat)
    requires Blocked(cfg, s, m) && Shadowed(cfg, s, m, interval) && cfg.minIdle > 0
    ensures m !in ClaimedIn(cfg, s, Rounds(interval, n))
    ensures var t := Run(cfg, s, Rounds(interval, n)); Blocked(cfg, t, m) && Shadowed(cfg, t, m, interval)
  {
    if n > 0 {
      var before := Rounds(interval, n - 1);
      var u := Run(cfg, s, before);
      ShadowedForGood(cfg, s, m, interval, n - 1);
      ClaimedAppends(cfg, s, before, Round(interval));
      RunAppends(cfg, s, before, Round(interval));
      ShadowedIsNotTaken(cfg, u, m, interval);
      WasteKeepsBlocked(cfg, u, m, interval);
      ShadowedAfterWaste(cfg, u, m, interval);
    }
  }

  /** Without an idle time to work in, a retry handler never gets to claim. */
  lemma {:induction false} NoTimeNoClaim(cfg: Config, s: State, acts: seq<Action>)
    requires Inv(cfg, s) && cfg.minIdle == 0
    ensures ClaimedIn(cfg, s, acts) == []
    decreases |acts|
  {
    if acts != [] {
      forall h | h in s.handlers && s.handlers[h].kind.Retry? ensures s.handlers[h].deadline <= s.clock {
        assert HolderOk(cfg, s.clock, s.broker, s.handlers[h]);
      }
      StepKeepsInv(cfg, s, acts[0]);
      NoTimeNoClaim(cfg, Step(cfg, s, acts[0]), acts[1..]);
    }
  }

  /** With u undecodable messages pending below it, all of them idle, an idle message is never retried
    * if and only if u is at least ten or u retry intervals are at least as long as the idle time.
    */
  lemma StarvesExactly(cfg: Config, s: State, m: nat, interval: nat)
    requires Blocked(cfg, s, m) && forall i | i in Below(s.broker, m) :: IsIdle(cfg, s, i)
    ensures (forall n: nat :: m !in ClaimedIn(cfg, s, Rounds(interval, n)))
        <==> |Below(s.broker, m)| >= SCAN_LIMIT || |Below(s.broker, m)| * interval >= cfg.minIdle
  {
    var u := |Below(s.broker, m)|;
    if u < SCAN_LIMIT && u * interval < cfg.minIdle {
      GetsItsTurn(cfg, s, m, interval);
    } else {
      forall n: nat ensures m !in ClaimedIn(cfg, s, Rounds(interval, n)) {
        if cfg.minIdle == 0 {
          NoTimeNoClaim(cfg, s, Rounds(interval, n));
        } else {
          assert u < SCAN_LIMIT ==> Staggered(cfg, s, m, interval, map[]);
          ShadowedForGood(cfg, s, m, interval, n);
        }
      }
    }
  }

  // ----- How such a state comes about -----

  /** A message is added and delivered; undecodable, it is left pending, and otherwise its handler dies. */
  function Delivery(ok: bool): seq<Action> {
    [Add(ok), Begin(1, FirstDelivery), Read(1, true), Start(1), Abandon(1)]
  }

  function Numbers(lo: nat, hi: nat): (r: set<nat>)
    ensures forall i :: i in r <==> lo <= i < hi
    ensures |r| == Max(0, hi - lo)
  {
    if lo >= hi then {} else Numbers(lo, hi - 1) + {hi - 1}
  }

  /** Messages delivered at time zero, the first `bad` of them undecodable. */
  function Backlog(bad: nat, all: nat): State {
    var added := Numbers(0, all);
    State(0, Broker(all, Numbers(bad, all), added, all, map i | i in added :: Pending(1, 0), {}), map[], INIT.ledger)
  }

  function Held(bad: nat, all: nat, x: Handler): State { Backlog(bad, all).(handlers := map[1 := x]) }

  lemma BacklogGrows(bad: nat, all: nat)
    ensures var b := XAdd(Backlog(bad, all).broker, all >= bad);
            NextNew(b) == Some(all) && Deliver(b, all, 0) == Backlog(bad, all + 1).broker
  {
    var b, t := XAdd(Backlog(bad, all).broker, all >= bad), Backlog(bad, all + 1).broker;
    FirstFromIsNext(b.entries, all, all + 1);
    assert b.entries == t.entries;
    assert b.decodable == t.decodable;
    assert Deliver(b, all, 0).pending == t.pending;
  }

  lemma DeliveryReads(cfg: Config, bad: nat, all: nat)
    requires cfg.firstTimeout > 0
    ensures var x := Handler(FirstDelivery, cfg.firstTimeout, Ready(all, 1));
            Step(cfg, Step(cfg, Step(cfg, Backlog(bad, all), Add(all >= bad)), Begin(1, FirstDelivery)), Read(1, true))
              == Held(bad, all + 1, x)
  {
    BacklogGrows(bad, all);
    var x := Handler(FirstDelivery, cfg.firstTimeout, Reading);
    var s := Backlog(bad, all);
    var t := State(0, XAdd(s.broker, all >= bad), map[1 := x], s.ledger);
    assert Step(cfg, Step(cfg, s, Add(all >= bad)), Begin(1, FirstDelivery)) == t;
    assert t.handlers[1 := x.(phase := Ready(all, 1))] == map[1 := x.(phase := Ready(all, 1))];
  }

  lemma HandlerDies(cfg: Config, s: State, x: Handler)
    requires s.handlers == map[1 := x] && x.phase.Ready?
    ensures Step(cfg, Step(cfg, s, Start(1)), Abandon(1)) == s.(handlers := map[])
  {
    assert Step(cfg, Step(cfg, s, Start(1)), Abandon(1)).handlers == map[];
  }

  lemma DeliveryGrows(cfg: Config, bad: nat, all: nat)
    requires cfg.firstTimeout > 0
    ensures Run(cfg, Backlog(bad, all), Delivery(all >= bad)) == Backlog(bad, all + 1)
  {
    RunOfFive(cfg, Backlog(bad, all), Add(all >= bad), Begin(1, FirstDelivery), Read(1, true), Start(1), Abandon(1));
    DeliveryReads(cfg, bad, all);
    var x := Handler(FirstDelivery, cfg.firstTimeout, Ready(all, 1));
    HandlerDies(cfg, Held(bad, all + 1, x), x);
  }

  lemma {:induction false} BacklogRun(cfg: Config, bad: nat, all: nat) returns (acts: seq<Action>)
    requires cfg.firstTimeout > 0
    ensures Run(cfg, INIT, acts) == Backlog(bad, all)
  {
    if all == 0 {
      acts := [];
      assert Backlog(bad, 0) == INIT;
    } else {
      var before := BacklogRun(cfg, bad, all - 1);
      acts := before + Delivery(all - 1 >= bad);
      RunAppends(cfg, INIT, before, Delivery(all - 1 >= bad));
      DeliveryGrows(cfg, bad, all - 1);
    }
  }

  /** After `acts` a decodable message is idle and, from then on, no number of ticks retries it. */
  ghost predicate Starved(cfg: Config, acts: seq<Action>, m: nat, interval: nat) {
    var s := Run(cfg, INIT, acts);
    && IsIdle(cfg, s, m) && m in s.broker.decodable
    && forall n: nat :: m !in ClaimedIn(cfg, s, Rounds(interval, n))
  }

  /** A good message `u` is idle behind `u` idle messages that cannot be decoded. */
  ghost predicate Behind(cfg: Config, s: State, u: nat) {
    && Blocked(cfg, s, u) && u in s.broker.decodable && |Below(s.broker, u)| == u
    && forall i | i in Below(s.broker, u) :: IsIdle(cfg, s, i)
  }

  /** The same, before the idle time has passed. */
  ghost predicate Queued(s: State, u: nat) {
    && s.clock == 0 && s.handlers == map[]
    && u in s.broker.pending && u in s.broker.decodable && |Below(s.broker, u)| == u
    && (forall i | i in Below(s.broker, u) :: i !in s.broker.decodable)
    && (forall i | i in s.broker.pending :: s.broker.pending[i].at == 0)
  }

  lemma BacklogIsQueued(u: nat)
    ensures Queued(Backlog(u, u + 1), u)
  {
    assert Below(Backlog(u, u + 1).broker, u) == Numbers(0, u);
  }

  lemma WaitingMakesIdle(cfg: Config, acts: seq<Action>, u: nat)
    requires Queued(Run(cfg, INIT, acts), u)
    ensures Behind(cfg, Run(cfg, INIT, acts + [Advance(cfg.minIdle)]), u)
  {
    RunAppends(cfg, INIT, acts, [Advance(cfg.minIdle)]);
    RunOfOne(cfg, Run(cfg, INIT, acts), Advance(cfg.minIdle));
    RunKeepsInv(cfg, INIT, acts + [Advance(cfg.minIdle)]);
  }

  lemma BehindIsReachable(cfg: Config, u: nat) returns (acts: seq<Action>)
    requires cfg.firstTimeout > 0
    ensures Behind(cfg, Run(cfg, INIT, acts), u)
  {
    var before := BacklogRun(cfg, u, u + 1);
    BacklogIsQueued(u);
    WaitingMakesIdle(cfg, before, u);
    acts := before + [Advance(cfg.minIdle)];
  }

  /** With enough undecodable messages in front of it, a good message can be left to starve. */
  lemma StarvationIsReachable(cfg: Config, u: nat, interval: nat)
    requires cfg.firstTimeout > 0 && (u >= SCAN_LIMIT || u * interval >= cfg.minIdle)
    ensures exists acts :: Starved(cfg, acts, u, interval)
  {
    var acts := BehindIsReachable(cfg, u);
    StarvesExactly(cfg, Run(cfg, INIT, acts), u, interval);
    assert Starved(cfg, acts, u, interval);
  }

  /** As shipped, two undecodable messages starve the position monitor's retries, and five the analyzer's. */
  lemma ShippedRetriesStarve()
    ensures exists acts :: Starved(MONITOR, acts, 2, 30)
    ensures exists acts :: Starved(ANALYZER, acts, 5, 60)
  {
    StarvationIsReachable(MONITOR, 2, 30);
    StarvationIsReachable(ANALYZER, 5, 60);
  }

  // ----- When a claim is certain -----

  /** After `before` message `m` is idle, and `acts` are enough turns for it within one idle time. */
  ghost predicate DueForRetry(cfg: Config, before: seq<Action>, acts: seq<Action>, m: nat) {
    var s := Run(cfg, INIT, before);
    IsIdle(cfg, s, m) && Run(cfg, s, acts).clock < s.clock + cfg.minIdle && EnoughTurns(cfg, s, acts, m)
  }

  /** The first delivery outlives the idle time, succeeds, and the retry finds nothing left. */
  function Overtaken(): seq<Action> { [Finish(1, true), Ack(1, true, true), Del(1, true)] + First() }

  function Overdue(cfg: Config, p: Phase, b: Broker, l: Ledger): State {
    State(cfg.minIdle, b, map[1 := Handler(FirstDelivery, cfg.firstTimeout, p)], l)
  }

  lemma FirstDeliveryEnds(cfg: Config, s: State)
    requires s == Overdue(cfg, Executing(0, 1), Lone(1, 0), INIT.ledger)
    ensures var t := Run(cfg, s, [Finish(1, true), Ack(1, true, true), Del(1, true)]);
            t.handlers == map[] && t.broker == Broker(1, {0}, {}, 1, map[], {0}) && t.clock == cfg.minIdle
  {
    var l := INIT.ledger.Record(0, Attempt(FirstDelivery, 1, true));
    var q: seq<Action> := [Finish(1, true), Ack(1, true, true), Del(1, true)];
    var s1 := Overdue(cfg, Acking(0), Lone(1, 0), l);
    var s2 := Overdue(cfg, Deleting(0), Broker(1, {0}, {0}, 1, map[], {0}), l);
    assert Step(cfg, s, q[0]) == s1;
    assert Lone(1, 0).pending - {0} == map[];
    assert Step(cfg, s1, q[1]) == s2;
    var t := Step(cfg, s2, q[2]);
    assert s2.handlers - {1} == map[] && s2.broker.entries - {0} == {};
    assert q[1..][1..] == q[2..] && q[2..][1..] == [];
    assert Run(cfg, s, q) == Run(cfg, s1, q[1..]) == Run(cfg, s2, q[2..]) == Run(cfg, t, []);
  }

  lemma RetryIsOvertaken(cfg: Config)
    requires 0 < cfg.minIdle < cfg.firstTimeout
    ensures var before := FirstActs() + [Advance(cfg.minIdle)];
            DueForRetry(cfg, before, Overtaken(), 0) && 0 !in ClaimedIn(cfg, Run(cfg, INIT, before), Overtaken())
  {
    var before := FirstActs() + [Advance(cfg.minIdle)];
    RunAppends(cfg, INIT, FirstActs(), [Advance(cfg.minIdle)]);
    FirstRun(cfg);
    RunOfOne(cfg, Run(cfg, INIT, FirstActs()), Advance(cfg.minIdle));
    var s := Run(cfg, INIT, before);
    assert s == Overdue(cfg, Executing(0, 1), Lone(1, 0), INIT.ledger);
    var q: seq<Action> := [Finish(1, true), Ack(1, true, true), Del(1, true)];
    FirstDeliveryEnds(cfg, s);
    NothingClaimed(cfg, s, q);
    ClaimedAppends(cfg, s, q, First());
    RunAppends(cfg, s, q, First());
    TargetIsIdle(Run(cfg, s, q).broker, cfg.minIdle, cfg.minIdle);
    ClaimedInFirst(cfg, Run(cfg, s, q));
    assert Below(s.broker, 0) == {};
  }

  /** Enough turns within one idle time are certain to retry an idle message exactly when a first
    * delivery cannot outlive the idle time.
    */
  lemma RetryIsCertainExactly(cfg: Config)
    requires cfg.minIdle > 0
    ensures (forall before, acts, m | DueForRetry(cfg, before, acts, m) ::
               m in ClaimedIn(cfg, Run(cfg, INIT, before), acts))
        <==> cfg.firstTimeout <= cfg.minIdle
  {
    if cfg.firstTimeout <= cfg.minIdle {
      forall before, acts, m | DueForRetry(cfg, before, acts, m)
        ensures m in ClaimedIn(cfg, Run(cfg, INIT, before), acts)
      {
        RunKeepsInv(cfg, INIT, before);
        RetryDoesNotStarve(cfg, Run(cfg, INIT, before), acts, m);
      }
    } else {
      RetryIsOvertaken(cfg);
    }
  }
}
