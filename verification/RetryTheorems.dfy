/** What the retry protocol promises over whole runs. */
module RetryTheorems {
  import opened Wrappers
  import opened Broker
  import opened StreamRetry

  // ----- The idle time is a lease -----

  /** No message is being executed by two handlers. */
  ghost predicate Exclusive(s: State) {
    forall h, g | h in s.handlers && g in s.handlers && h != g
                  && s.handlers[h].phase.Executing? && s.handlers[g].phase.Executing?
      :: s.handlers[h].phase.msg != s.handlers[g].phase.msg
  }

  /** No message is in the hands of two live handlers, whatever they are doing with it. */
  ghost predicate OneHolder(s: State) {
    forall h, g | h in s.handlers && g in s.handlers && h != g :: Disjoint(s.handlers[h], s.handlers[g])
  }

  ghost predicate Disjoint(x: Handler, y: Handler) {
    !x.phase.Reading? && !y.phase.Reading? ==> x.phase.msg != y.phase.msg
  }

  /** Either no retry ever starts in time to claim, or a first delivery ends within the idle time. */
  predicate LeaseCoversWork(cfg: Config) { cfg.minIdle == 0 || cfg.firstTimeout <= cfg.minIdle }

  lemma StepKeepsDisjoint(cfg: Config, s: State, a: Action, h: nat, g: nat)
    requires LeaseCoversWork(cfg) && Conserved(s.broker) && h != g
    requires h in s.handlers ==> HolderOk(cfg, s.clock, s.broker, s.handlers[h])
    requires g in s.handlers ==> HolderOk(cfg, s.clock, s.broker, s.handlers[g])
    requires h in s.handlers && g in s.handlers ==> Disjoint(s.handlers[h], s.handlers[g])
    ensures var t := Step(cfg, s, a);
            h in t.handlers && g in t.handlers ==> Disjoint(t.handlers[h], t.handlers[g])
  {
    NextNewIsCursor(s.broker);
    TargetIsIdle(s.broker, s.clock, cfg.minIdle);
  }

  lemma {:induction false} RunKeepsOneHolder(cfg: Config, s: State, acts: seq<Action>)
    requires LeaseCoversWork(cfg) && Inv(cfg, s) && OneHolder(s)
    ensures OneHolder(Run(cfg, s, acts))
    decreases |acts|
  {
    if acts != [] {
      var t := Step(cfg, s, acts[0]);
      StepKeepsInv(cfg, s, acts[0]);
      forall h, g | h in t.handlers && g in t.handlers && h != g ensures Disjoint(t.handlers[h], t.handlers[g]) {
        StepKeepsDisjoint(cfg, s, acts[0], h, g);
      }
      RunKeepsOneHolder(cfg, t, acts[1..]);
    }
  }

  lemma {:induction false} RunAppends(cfg: Config, s: State, a: seq<Action>, b: seq<Action>)
    ensures Run(cfg, s, a + b) == Run(cfg, Run(cfg, s, a), b)
    decreases |a|
  {
    if a == [] {
      assert a + b == b;
    } else {
      assert (a + b)[1..] == a[1..] + b;
      RunAppends(cfg, Step(cfg, s, a[0]), a[1..], b);
    }
  }

  lemma RunOfOne(cfg: Config, s: State, a: Action)
    ensures Run(cfg, s, [a]) == Step(cfg, s, a)
  {
    assert Run(cfg, s, [a]) == Run(cfg, Step(cfg, s, a), []);
  }

  /** Five actions, one after the other. */
  lemma RunOfFive(cfg: Config, s: State, a: Action, b: Action, c: Action, d: Action, e: Action)
    ensures Run(cfg, s, [a, b, c, d, e])
         == Step(cfg, Step(cfg, Step(cfg, Step(cfg, Step(cfg, s, a), b), c), d), e)
  {
    assert [a, b, c, d, e] == [a] + ([b] + ([c] + ([d] + [e])));
    RunAppends(cfg, s, [a], [b] + ([c] + ([d] + [e])));
    RunOfOne(cfg, s, a);
    var s1 := Step(cfg, s, a);
    RunAppends(cfg, s1, [b], [c] + ([d] + [e]));
    RunOfOne(cfg, s1, b);
    var s2 := Step(cfg, s1, b);
    RunAppends(cfg, s2, [c], [d] + [e]);
    RunOfOne(cfg, s2, c);
    var s3 := Step(cfg, s2, c);
    RunAppends(cfg, s3, [d], [e]);
    RunOfOne(cfg, s3, d);
    RunOfOne(cfg, Step(cfg, s3, d), e);
  }

  /** One message, delivered `count` times, the last at `at`. */
  function Lone(count: nat, at: nat): Broker { Broker(1, {0}, {0}, 1, map[0 := Pending(count, at)], {}) }

  /** Add a message, deliver it, and start to execute it. */
  function FirstActs(): seq<Action> {
    [Add(true), Begin(1, FirstDelivery), Read(1, true), Start(1), Advance(0)]
  }

  lemma FirstRun(cfg: Config)
    requires cfg.firstTimeout > 0
    ensures Run(cfg, INIT, FirstActs())
         == State(0, Lone(1, 0), map[1 := Handler(FirstDelivery, cfg.firstTimeout, Executing(0, 1))], INIT.ledger)
  {
    RunOfFive(cfg, INIT, Add(true), Begin(1, FirstDelivery), Read(1, true), Start(1), Advance(0));
    NextNewIsCursor(XAdd(EMPTY, true));
  }

  /** Wait out the idle time, claim the message for a retry, and start to execute it. */
  function RetryActs(cfg: Config): seq<Action> {
    [Advance(cfg.minIdle), Begin(2, Retry), Claim(2, true), Info(2, true), Start(2)]
  }

  function Retried(cfg: Config, s: State, count: nat, now: nat): State {
    State(now, Lone(count + 1, now),
          s.handlers[2 := Handler(Retry, now + cfg.minIdle, Executing(0, count + 1))], s.ledger)
  }

  lemma RetryClaims(cfg: Config, s: State, count: nat, at: nat)
    requires cfg.minIdle > 0
    requires s.broker == Lone(count, at) && s.clock == at && 2 !in s.handlers
    requires forall h | h in s.handlers :: at + cfg.minIdle < s.handlers[h].deadline
    ensures var now := at + cfg.minIdle;
            Step(cfg, Step(cfg, Step(cfg, s, Advance(cfg.minIdle)), Begin(2, Retry)), Claim(2, true))
              == State(now, Lone(count + 1, now),
                       s.handlers[2 := Handler(Retry, now + cfg.minIdle, Claimed(0))], s.ledger)
  {
    var now := at + cfg.minIdle;
    assert ClaimTarget(Lone(count, at), now, cfg.minIdle) == Some(0);
    assert Reclaim(Lone(count, at), 0, now) == Lone(count + 1, now);
    var s2 := Step(cfg, Step(cfg, s, Advance(cfg.minIdle)), Begin(2, Retry));
    assert s2 == State(now, Lone(count, at), s.handlers[2 := Handler(Retry, now + cfg.minIdle, Reading)], s.ledger);
  }

  lemma RetryStarts(cfg: Config, s: State, count: nat, now: nat)
    requires s.handlers.Keys !! {2} && s.clock == now
    ensures var s3 := State(now, Lone(count + 1, now),
                            s.handlers[2 := Handler(Retry, now + cfg.minIdle, Claimed(0))], s.ledger);
            Step(cfg, Step(cfg, s3, Info(2, true)), Start(2)) == Retried(cfg, s, count, now)
  {
    var x := Handler(Retry, now + cfg.minIdle, Ready(0, count + 1));
    var s4 := State(now, Lone(count + 1, now), s.handlers[2 := x], s.ledger);
    assert Step(cfg, s4, Start(2)) == Retried(cfg, s, count, now);
  }

  lemma RetryRun(cfg: Config, s: State, count: nat, at: nat)
    requires cfg.minIdle > 0
    requires s.broker == Lone(count, at) && s.clock == at && 2 !in s.handlers
    requires forall h | h in s.handlers :: at + cfg.minIdle < s.handlers[h].deadline
    ensures Run(cfg, s, RetryActs(cfg)) == Retried(cfg, s, count, at + cfg.minIdle)
  {
    RunOfFive(cfg, s, Advance(cfg.minIdle), Begin(2, Retry), Claim(2, true), Info(2, true), Start(2));
    RetryClaims(cfg, s, count, at);
    RetryStarts(cfg, s.(clock := at + cfg.minIdle), count, at + cfg.minIdle);
  }

  /** Executions never overlap in any run exactly when the configuration makes the idle time a lease. */
  lemma LeaseExact(cfg: Config)
    ensures (forall acts :: Exclusive(Run(cfg, INIT, acts))) <==> LeaseCoversWork(cfg)
  {
    if LeaseCoversWork(cfg) {
      forall acts ensures Exclusive(Run(cfg, INIT, acts)) { RunKeepsOneHolder(cfg, INIT, acts); }
    } else {
      RunAppends(cfg, INIT, FirstActs(), RetryActs(cfg));
      FirstRun(cfg);
      RetryRun(cfg, Run(cfg, INIT, FirstActs()), 1, 0);
      var t := Run(cfg, INIT, FirstActs() + RetryActs(cfg));
      assert t.handlers[1].phase == Executing(0, 1) && t.handlers[2].phase == Executing(0, 2);
    }
  }

  // ----- Conservation -----

  /** Every ID ever added is in exactly one place, and whoever is not acked is still in the stream. */
  lemma EveryMessageHasOnePlace(cfg: Config, acts: seq<Action>, i: nat)
    requires i < Run(cfg, INIT, acts).broker.added
    ensures var b := Run(cfg, INIT, acts).broker;
            && Bit(i >= b.cursor) + Bit(i in b.pending) + Bit(i in b.acked) == 1
            && (i in b.entries || i in b.acked)
  {
    RunKeepsInv(cfg, INIT, acts);
  }

  lemma StepKeepsAcked(cfg: Config, s: State, a: Action, m: nat)
    requires m in s.broker.acked
    ensures m in Step(cfg, s, a).broker.acked
  {
  }

  lemma {:induction false} AckedForever(cfg: Config, s: State, acts: seq<Action>, m: nat)
    requires Inv(cfg, s) && m in s.broker.acked
    ensures var b := Run(cfg, s, acts).broker; m in b.acked && m !in b.pending
    decreases |acts|
  {
    if acts != [] {
      StepKeepsInv(cfg, s, acts[0]);
      StepKeepsAcked(cfg, s, acts[0], m);
      AckedForever(cfg, Step(cfg, s, acts[0]), acts[1..], m);
    }
  }

  /** An ack needs a success, or a failed retry whose delivery count had reached the limit. */
  lemma AckIsJustified(cfg: Config, acts: seq<Action>, m: nat)
    requires m in Run(cfg, INIT, acts).broker.acked
    ensures var s := Run(cfg, INIT, acts);
            && m in s.broker.decodable
            && exists i | 0 <= i < |s.ledger.Of(m)| ::
                 var a := s.ledger.Of(m)[i]; a.ok || (a.kind.Retry? && a.count + 1 >= cfg.maxRetry)
  {
    RunKeepsInv(cfg, INIT, acts);
    var runs := Run(cfg, INIT, acts).ledger.Of(m);
    assert Settled(cfg, runs);
    var i :| 0 <= i < |runs| && SettledBy(cfg, runs[i]);
    assert runs[i].ok || (runs[i].kind.Retry? && runs[i].count + 1 >= cfg.maxRetry);
  }

  // ----- Retries do not starve -----

  predicate Calls(s: State, a: Action) { a.Claim? && CanRead(s, a.h, Retry) }

  /** The messages XAUTOCLAIM hands over along a run, in order. */
  function ClaimedIn(cfg: Config, s: State, acts: seq<Action>): seq<nat>
    decreases |acts|
  {
    if acts == [] then []
    else
      var rest := ClaimedIn(cfg, Step(cfg, s, acts[0]), acts[1..]);
      var target := ClaimTarget(s.broker, s.clock, cfg.minIdle);
      if Calls(s, acts[0]) && target.Some? then [target.value] + rest else rest
  }

  /** How often XAUTOCLAIM is called along a run. */
  function CallsIn(cfg: Config, s: State, acts: seq<Action>): nat
    decreases |acts|
  {
    if acts == [] then 0
    else Bit(Calls(s, acts[0])) + CallsIn(cfg, Step(cfg, s, acts[0]), acts[1..])
  }

  function Below(b: Broker, m: nat): set<nat> { PendingBetween(b.pending, 0, m) }

  lemma {:induction false} ClockGrows(cfg: Config, s: State, acts: seq<Action>)
    ensures s.clock <= Run(cfg, s, acts).clock
    decreases |acts|
  {
    if acts != [] { ClockGrows(cfg, Step(cfg, s, acts[0]), acts[1..]); }
  }

  /** Messages claimed since `since`, as far as they are still pending. */
  ghost predicate ClaimedSince(s: State, since: nat, gone: set<nat>) {
    forall i | i in gone && i in s.broker.pending :: s.broker.pending[i].at >= since
  }

  lemma StepClaimsAnother(cfg: Config, s: State, a: Action, since: nat, gone: set<nat>)
    requires ClaimedSince(s, since, gone) && since <= s.clock < since + cfg.minIdle
    ensures var target, t := ClaimTarget(s.broker, s.clock, cfg.minIdle), Step(cfg, s, a);
            if Calls(s, a) && target.Some?
            then target.value !in gone && ClaimedSince(t, since, gone + {target.value})
            else ClaimedSince(t, since, gone)
  {
    TargetIsIdle(s.broker, s.clock, cfg.minIdle);
  }

  /** Within one idle time no message is claimed twice, whatever else happens. */
  lemma {:induction false} ClaimsAreDistinct(cfg: Config, s: State, acts: seq<Action>, since: nat, gone: set<nat>)
    requires ClaimedSince(s, since, gone) && since <= s.clock
    requires Run(cfg, s, acts).clock < since + cfg.minIdle
    ensures Distinct(ClaimedIn(cfg, s, acts))
    ensures forall c | c in ClaimedIn(cfg, s, acts) :: c !in gone
    decreases |acts|
  {
    if acts != [] {
      var t := Step(cfg, s, acts[0]);
      var target := ClaimTarget(s.broker, s.clock, cfg.minIdle);
      ClockGrows(cfg, s, acts);
      ClockGrows(cfg, s, [acts[0]]);
      RunOfOne(cfg, s, acts[0]);
      StepClaimsAnother(cfg, s, acts[0], since, gone);
      if Calls(s, acts[0]) && target.Some? {
        ClaimsAreDistinct(cfg, t, acts[1..], since, gone + {target.value});
      } else {
        ClaimsAreDistinct(cfg, t, acts[1..], since, gone);
      }
    }
  }

  predicate IsIdle(cfg: Config, s: State, m: nat) {
    m in s.broker.pending && Idle(s.broker.pending, m, s.clock, cfg.minIdle)
  }

  /** Whatever a handler of a first delivery may do to an idle message, it has not acknowledged it. */
  ghost predicate Unacked(cfg: Config, s: State, acts: seq<Action>, m: nat) {
    cfg.firstTimeout <= cfg.minIdle || m !in Run(cfg, s, acts).broker.acked
  }

  predicate PassesOver(cfg: Config, s: State, a: Action, m: nat) {
    Calls(s, a) ==> ClaimTarget(s.broker, s.clock, cfg.minIdle) != Some(m)
  }

  /** With the idle time a lease, nobody still holds an idle message, so only a claim can touch it. */
  lemma IdleStaysPending(cfg: Config, s: State, a: Action, m: nat)
    requires cfg.firstTimeout <= cfg.minIdle && Inv(cfg, s) && IsIdle(cfg, s, m)
    ensures m in Step(cfg, s, a).broker.pending
  {
    forall h | h in s.handlers ensures !s.handlers[h].Holds(m) {
      assert HolderOk(cfg, s.clock, s.broker, s.handlers[h]);
    }
  }

  lemma StaysPending(cfg: Config, s: State, acts: seq<Action>, m: nat)
    requires Inv(cfg, s) && acts != [] && IsIdle(cfg, s, m) && Unacked(cfg, s, acts, m)
    ensures m in Step(cfg, s, acts[0]).broker.pending
  {
    var t := Step(cfg, s, acts[0]);
    if cfg.firstTimeout <= cfg.minIdle {
      IdleStaysPending(cfg, s, acts[0], m);
    } else {
      StepKeepsInv(cfg, s, acts[0]);
      if m in t.broker.acked { AckedForever(cfg, t, acts[1..], m); }
      NextNewIsCursor(s.broker);
      assert m < t.broker.cursor;
    }
  }

  /** A step that does not claim `m` leaves its entry alone, and nothing joins the queue below it. */
  lemma StepLeavesPending(cfg: Config, s: State, a: Action, m: nat)
    requires Conserved(s.broker) && m in s.broker.pending && m in Step(cfg, s, a).broker.pending
    requires PassesOver(cfg, s, a, m)
    ensures Step(cfg, s, a).broker.pending[m] == s.broker.pending[m]
    ensures forall i | i in Step(cfg, s, a).broker.pending && i < m :: i in s.broker.pending
  {
    NextNewIsCursor(s.broker);
    TargetIsIdle(s.broker, s.clock, cfg.minIdle);
  }

  lemma StaysIdle(cfg: Config, s: State, acts: seq<Action>, m: nat)
    requires Inv(cfg, s) && acts != [] && IsIdle(cfg, s, m) && Unacked(cfg, s, acts, m)
    requires PassesOver(cfg, s, acts[0], m)
    ensures var t := Step(cfg, s, acts[0]);
            && Inv(cfg, t) && IsIdle(cfg, t, m) && Unacked(cfg, t, acts[1..], m)
            && Below(t.broker, m) <= Below(s.broker, m)
  {
    StepKeepsInv(cfg, s, acts[0]);
    StaysPending(cfg, s, acts, m);
    StepLeavesPending(cfg, s, acts[0], m);
    ClockGrows(cfg, s, [acts[0]]);
    RunOfOne(cfg, s, acts[0]);
  }

  /** Claims that pass over an idle message go to messages below it. */
  lemma {:induction false} ClaimsAreBelow(cfg: Config, s: State, acts: seq<Action>, m: nat)
    requires Inv(cfg, s) && IsIdle(cfg, s, m) && Unacked(cfg, s, acts, m) && m !in ClaimedIn(cfg, s, acts)
    ensures m in Run(cfg, s, acts).broker.pending
    ensures forall c | c in ClaimedIn(cfg, s, acts) :: c in Below(s.broker, m)
    decreases |acts|
  {
    if acts != [] {
      var target := ClaimTarget(s.broker, s.clock, cfg.minIdle);
      StaysIdle(cfg, s, acts, m);
      ClaimsAreBelow(cfg, Step(cfg, s, acts[0]), acts[1..], m);
      if target.Some? {
        ScanExact(s.broker.pending, 0, s.broker.added, SCAN_LIMIT, s.clock, cfg.minIdle, target.value);
      }
    }
  }

  /** With an idle message that has fewer than ten pending below it, every call claims something. */
  lemma {:induction false} EveryCallClaims(cfg: Config, s: State, acts: seq<Action>, m: nat)
    requires Inv(cfg, s) && IsIdle(cfg, s, m) && Unacked(cfg, s, acts, m) && m !in ClaimedIn(cfg, s, acts)
    requires |Below(s.broker, m)| < SCAN_LIMIT
    ensures CallsIn(cfg, s, acts) == |ClaimedIn(cfg, s, acts)|
    decreases |acts|
  {
    if acts != [] {
      StaysIdle(cfg, s, acts, m);
      SubsetIsSmaller(Below(Step(cfg, s, acts[0]).broker, m), Below(s.broker, m));
      IdleIsFound(s.broker, s.clock, cfg.minIdle, m);
      EveryCallClaims(cfg, Step(cfg, s, acts[0]), acts[1..], m);
    }
  }

  /** More claims than there are pending messages below `m`; within reach of the scan, more calls. */
  ghost predicate EnoughTurns(cfg: Config, s: State, acts: seq<Action>, m: nat) {
    var p := |Below(s.broker, m)|;
    |ClaimedIn(cfg, s, acts)| > p || (p < SCAN_LIMIT && CallsIn(cfg, s, acts) > p)
  }

  /** An idle message with p pending messages below it is taken by one of p + 1 claims within one
    * idle time, and while p is below ten by one of p + 1 calls, whether or not they find anything.
    * Where the idle time is no lease, its first delivery may get there first and acknowledge it.
    */
  lemma RetryDoesNotStarve(cfg: Config, s: State, acts: seq<Action>, m: nat)
    requires Inv(cfg, s) && IsIdle(cfg, s, m)
    requires Run(cfg, s, acts).clock < s.clock + cfg.minIdle && EnoughTurns(cfg, s, acts, m)
    ensures m in ClaimedIn(cfg, s, acts) || m in Run(cfg, s, acts).broker.acked
    ensures cfg.firstTimeout <= cfg.minIdle ==> m in ClaimedIn(cfg, s, acts)
  {
    if m !in ClaimedIn(cfg, s, acts) && Unacked(cfg, s, acts, m) {
      ClaimsAreDistinct(cfg, s, acts, s.clock, {});
      ClaimsAreBelow(cfg, s, acts, m);
      DistinctFits(ClaimedIn(cfg, s, acts), Below(s.broker, m));
      if |Below(s.broker, m)| < SCAN_LIMIT { EveryCallClaims(cfg, s, acts, m); }
    }
  }
}
