/** The two stream services as the code writes them: one call after the other, early
  * returns, and anything at all happening elsewhere between any two calls.
  *
  * `Deployment` is what every process acts on.  An `Oracle` decides how the outside world
  * answers one handler: which calls fail, and what the other handlers and the clock do
  * meanwhile.  Every method is verified for every oracle.
  */
module RetryService {
  import opened Wrappers
  import opened Broker
  import opened StreamRetry
  import opened RetryTheorems

  datatype Oracle = Oracle(
    readFails: bool, readReplied: bool,
    infoReplied: bool,
    execOk: bool,
    ackApplied: bool, ackReplied: bool,
    delApplied: bool, delReplied: bool,
    gaps: seq<seq<Action>>)
  {
    function Gap(i: nat): seq<Action> { if i < |gaps| then gaps[i] else [] }
  }

  /** How a handler ended, and for which message. */
  datatype Result =
    | Nothing
    | Undecodable(msg: nat)
    | Failed(msg: nat)
    | AckFailed(msg: nat)
    | Done(msg: nat)

  /** How handling message `m`, delivered `count` times, has to end. */
  function Verdict(cfg: Config, o: Oracle, k: Kind, count: nat, m: nat, decodable: bool): Result {
    if !decodable then Undecodable(m)
    else if !SettledBy(cfg, Attempt(k, count, o.execOk)) then Failed(m)
    else if o.ackApplied && o.ackReplied && o.delApplied && o.delReplied then Done(m)
    else AckFailed(m)
  }

  /** A message that does not decode is left alone.  One that does is acknowledged and deleted if its
    * execution succeeded, or if it failed as a retry whose delivery count plus one has reached the limit.
    */
  lemma VerdictSpelledOut(cfg: Config, o: Oracle, k: Kind, count: nat, m: nat, decodable: bool)
    ensures var r := Verdict(cfg, o, k, count, m, decodable);
            var settled := o.execOk || (k.Retry? && count + 1 >= cfg.maxRetry);
            var acked := o.ackApplied && o.ackReplied && o.delApplied && o.delReplied;
            && r != Nothing && r.msg == m
            && (r.Undecodable? <==> !decodable)
            && (r.Failed? <==> decodable && !settled)
            && (r.Done? <==> decodable && settled && acked)
            && (r.AckFailed? <==> decodable && settled && !acked)
            && (SettledBy(cfg, Attempt(k, count, o.execOk)) <==> settled)
  {}

  function Actor(a: Action): int {
    match a
    case Begin(h, _) => h
    case Read(h, _) => h
    case Claim(h, _) => h
    case Info(h, _) => h
    case Start(h) => h
    case Finish(h, _) => h
    case Ack(h, _, _) => h
    case Del(h, _) => h
    case Abandon(h) => h
    case _ => -1
  }

  /** What later steps never take back: executions, acks, deletions, and how a payload decodes. */
  ghost predicate Grown(s: State, t: State) {
    && (forall m :: s.ledger.Of(m) <= t.ledger.Of(m))
    && s.broker.acked <= t.broker.acked
    && s.broker.added <= t.broker.added
    && s.broker.cursor <= t.broker.cursor
    && (forall m | m < s.broker.added :: m in s.broker.decodable <==> m in t.broker.decodable)
    && (forall m | m < s.broker.added && m !in s.broker.entries :: m !in t.broker.entries)
  }

  lemma StepGrows(cfg: Config, s: State, a: Action)
    ensures Grown(s, Step(cfg, s, a))
  {
    FirstFromAtLeast(s.broker.entries, s.broker.cursor, s.broker.added);
  }

  lemma FirstFromAtLeast(entries: set<nat>, i: nat, n: nat)
    ensures FirstFrom(entries, i, n).Some? ==> i <= FirstFrom(entries, i, n).value < n
    decreases n - i
  {
  }

  lemma GrownTransitive(s: State, t: State, u: State)
    requires Grown(s, t) && Grown(t, u)
    ensures Grown(s, u)
  {
    forall m ensures s.ledger.Of(m) <= u.ledger.Of(m) {
      assert s.ledger.Of(m) <= t.ledger.Of(m);
    }
  }

  lemma {:induction false} RunGrows(cfg: Config, s: State, acts: seq<Action>)
    ensures Grown(s, Run(cfg, s, acts))
    decreases |acts|
  {
    if acts != [] {
      StepGrows(cfg, s, acts[0]);
      RunGrows(cfg, Step(cfg, s, acts[0]), acts[1..]);
      GrownTransitive(s, Step(cfg, s, acts[0]), Run(cfg, s, acts));
    }
  }

  /** Between two moments of one run nothing is taken back. */
  lemma TraceGrows(cfg: Config, earlier: seq<Action>, later: seq<Action>)
    requires earlier <= later
    ensures Grown(Run(cfg, INIT, earlier), Run(cfg, INIT, later))
  {
    assert later == earlier + later[|earlier|..];
    RunAppends(cfg, INIT, earlier, later[|earlier|..]);
    RunGrows(cfg, Run(cfg, INIT, earlier), later[|earlier|..]);
  }

  lemma OthersLeaveHandler(cfg: Config, s: State, a: Action, h: nat)
    requires Actor(a) != h
    ensures h in s.handlers <==> h in Step(cfg, s, a).handlers
    ensures h in s.handlers ==> Step(cfg, s, a).handlers[h] == s.handlers[h]
  {
  }

  /** What Redis says about the message that retry handler `h` holds has not changed from `s` to `t`,
    * unless it has been acknowledged.
    */
  ghost predicate LeaseKept(s: State, t: State, h: nat) {
    h in s.handlers && s.handlers[h].kind.Retry? && !s.handlers[h].phase.Reading? ==>
      var m := s.handlers[h].phase.msg;
      m in t.broker.pending ==> m in s.broker.pending && t.broker.pending[m] == s.broker.pending[m]
  }

  lemma OthersLeaveLease(cfg: Config, s: State, a: Action, h: nat)
    requires Inv(cfg, s) && Actor(a) != h
    ensures LeaseKept(s, Step(cfg, s, a), h)
  {
    if h in s.handlers {
      assert HolderOk(cfg, s.clock, s.broker, s.handlers[h]);
      NextNewIsCursor(s.broker);
      TargetIsIdle(s.broker, s.clock, cfg.minIdle);
    }
  }

  /** An applied XACK leaves the message acknowledged, whether or not it was still pending. */
  lemma AckIsApplied(cfg: Config, trace: seq<Action>, h: nat, replied: bool)
    requires var s := Run(cfg, INIT, trace); h in s.handlers && s.handlers[h].phase.Acking?
    ensures var s := Run(cfg, INIT, trace);
            s.handlers[h].phase.msg in Step(cfg, s, Ack(h, true, replied)).broker.acked
  {
    var s := Run(cfg, INIT, trace);
    RunKeepsInv(cfg, INIT, trace);
    assert HolderOk(cfg, s.clock, s.broker, s.handlers[h]);
  }

  lemma HeldIsAdded(cfg: Config, trace: seq<Action>, h: nat)
    requires var s := Run(cfg, INIT, trace); h in s.handlers && !s.handlers[h].phase.Reading?
    ensures var s := Run(cfg, INIT, trace); s.handlers[h].phase.msg < s.broker.added
  {
    RunKeepsInv(cfg, INIT, trace);
    assert HolderOk(cfg, Run(cfg, INIT, trace).clock, Run(cfg, INIT, trace).broker, Run(cfg, INIT, trace).handlers[h]);
  }

  lemma MalformedIsNotAcked(cfg: Config, trace: seq<Action>, m: nat)
    ensures var b := Run(cfg, INIT, trace).broker; m !in b.decodable ==> m !in b.acked
  {
    RunKeepsInv(cfg, INIT, trace);
  }

  class Deployment {
    const cfg: Config
    var s: State
    ghost var trace: seq<Action>

    ghost predicate Valid()
      reads this
    {
      s == Run(cfg, INIT, trace)
    }

    constructor (cfg: Config)
      ensures Valid() && this.cfg == cfg && s == INIT
    {
      this.cfg := cfg;
      s := INIT;
      trace := [];
    }

    method Do(a: Action)
      requires Valid()
      modifies this
      ensures Valid() && s == Step(cfg, old(s), a) && trace == old(trace) + [a]
    {
      RunAppends(cfg, INIT, trace, [a]);
      RunOfOne(cfg, s, a);
      s := Step(cfg, s, a);
      trace := trace + [a];
    }

    /** Other handlers act and time passes; handler `h` is left alone. */
    method Elsewhere(h: nat, acts: seq<Action>)
      requires Valid()
      modifies this
      ensures Valid() && old(trace) <= trace
      ensures h in s.handlers <==> h in old(s).handlers
      ensures h in s.handlers ==> s.handlers[h] == old(s).handlers[h]
      ensures acts == [] ==> s == old(s) && trace == old(trace)
      ensures LeaseKept(old(s), s, h)
    {
      for i := 0 to |acts|
        invariant Valid() && old(trace) <= trace
        invariant h in s.handlers <==> h in old(s).handlers
        invariant h in s.handlers ==> s.handlers[h] == old(s).handlers[h]
        invariant i == 0 ==> s == old(s) && trace == old(trace)
        invariant LeaseKept(old(s), s, h)
      {
        if Actor(acts[i]) != h {
          RunKeepsInv(cfg, INIT, trace);
          OthersLeaveLease(cfg, s, acts[i], h);
          OthersLeaveHandler(cfg, s, acts[i], h);
          Do(acts[i]);
        }
      }
    }

    /** Other things happen, and then handler `h` does `a`. */
    method Act(h: nat, gap: seq<Action>, a: Action)
      returns (ghost before: seq<Action>, ghost mid: State)
      requires Valid()
      modifies this
      ensures Valid() && s == Step(cfg, mid, a) && old(trace) < trace
      ensures h in mid.handlers <==> h in old(s).handlers
      ensures h in mid.handlers ==> mid.handlers[h] == old(s).handlers[h]
      ensures gap == [] ==> mid == old(s) && before == old(trace)
      ensures LeaseKept(old(s), mid, h)
      ensures old(trace) <= before && trace == before + [a] && mid == Run(cfg, INIT, before)
    {
      Elsewhere(h, gap);
      mid := s;
      before := trace;
      Do(a);
    }

    method AckNDel(h: nat, o: Oracle) returns (ok: bool)
      requires Valid() && h in s.handlers && s.handlers[h].phase.Acking?
      modifies this
      ensures Valid() && old(trace) <= trace && h !in s.handlers
      ensures ok <==> o.ackApplied && o.ackReplied && o.delApplied && o.delReplied
      ensures o.ackApplied ==> old(s).handlers[h].phase.msg in s.broker.acked
      ensures o.ackApplied && o.ackReplied && o.delApplied ==> old(s).handlers[h].phase.msg !in s.broker.entries
      ensures old(s).handlers[h].phase.msg < s.broker.added
    {
      HeldIsAdded(cfg, trace, h);
      ghost var start := trace;
      ghost var before, mid := Act(h, o.Gap(3), Ack(h, o.ackApplied, o.ackReplied));
      AckIsApplied(cfg, before, h, o.ackReplied);
      TraceGrows(cfg, start, trace);
      if !(o.ackApplied && o.ackReplied) {
        return false;
      }
      ghost var sent := trace;
      before, mid := Act(h, o.Gap(4), Del(h, o.delApplied));
      TraceGrows(cfg, sent, trace);
      return o.delApplied && o.delReplied;
    }

    /** What a returned result says about the message, in the state it was returned in. */
    ghost predicate Reported(k: Kind, r: Result)
      reads this
    {
      match r
      case Nothing => true
      case Undecodable(m) => m !in s.broker.decodable && m !in s.broker.acked
      case Failed(m) => exists a :: a in s.ledger.Of(m) && a.kind == k && !SettledBy(cfg, a)
      case AckFailed(m) => exists a :: a in s.ledger.Of(m) && a.kind == k && SettledBy(cfg, a)
      case Done(m) =>
        && m in s.broker.acked && m !in s.broker.entries
        && exists a :: a in s.ledger.Of(m) && a.kind == k && SettledBy(cfg, a)
    }

    /** The part both handlers share: decode, execute, acknowledge. */
    method Handle(h: nat, k: Kind, o: Oracle) returns (r: Result)
      requires Valid() && h in s.handlers && s.handlers[h].kind == k && s.handlers[h].phase.Ready?
      modifies this
      ensures Valid() && old(trace) <= trace && h !in s.handlers
      ensures Reported(k, r)
      ensures var p := old(s).handlers[h].phase;
              r == Verdict(cfg, o, k, p.count, p.msg, p.msg in s.broker.decodable)
      ensures var p := old(s).handlers[h].phase;
              && (p.msg in s.broker.decodable && (o.execOk || (k.Retry? && p.count + 1 >= cfg.maxRetry)) && o.ackApplied
                  ==> p.msg in s.broker.acked)
              && (p.msg in s.broker.decodable ==> Attempt(k, p.count, o.execOk) in s.ledger.Of(p.msg))
    {
      var m, c := s.handlers[h].phase.msg, s.handlers[h].phase.count;
      ghost var start, mid := Act(h, o.Gap(1), Start(h));
      HeldIsAdded(cfg, start, h);
      if h !in s.handlers {
        MalformedIsNotAcked(cfg, trace, m);
        return Undecodable(m);
      }
      ghost var before;
      before, mid := Act(h, o.Gap(2), Finish(h, o.execOk));
      ghost var last, n, finished := Attempt(k, c, o.execOk), |mid.ledger.Of(m)|, trace;
      assert s.ledger.Of(m) == mid.ledger.Of(m) + [last];
      TraceGrows(cfg, start, trace);
      if h !in s.handlers {
        assert last in s.ledger.Of(m);
        return Failed(m);
      }
      var ok := AckNDel(h, o);
      TraceGrows(cfg, finished, trace);
      assert s.ledger.Of(m)[n] == last && last in s.ledger.Of(m);
      return if ok then Done(m) else AckFailed(m);
    }

    method ProcessTask(h: nat, o: Oracle) returns (r: Result)
      requires Valid() && h !in s.handlers
      modifies this
      ensures Valid() && old(trace) <= trace && h !in s.handlers
      ensures Reported(FirstDelivery, r)
      ensures r != Nothing ==> old(s).broker.cursor <= r.msg < s.broker.cursor
      ensures r != Nothing ==> r == Verdict(cfg, o, FirstDelivery, 1, r.msg, r.msg in s.broker.decodable)
      ensures o.Gap(0) == [] && !o.readFails && o.readReplied && cfg.firstTimeout > 0
              && NextNew(old(s).broker).Some?
              ==> r != Nothing && r.msg == NextNew(old(s).broker).value
    {
      Do(Begin(h, FirstDelivery));
      if o.readFails {
        Do(Abandon(h));
        return Nothing;
      }
      ghost var before, mid := Act(h, o.Gap(0), Read(h, o.readReplied));
      TraceGrows(cfg, old(trace), before);
      FirstFromAtLeast(mid.broker.entries, mid.broker.cursor, mid.broker.added);
      if h in s.handlers && s.handlers[h].phase.Ready? {
        ghost var delivered := trace;
        r := Handle(h, FirstDelivery, o);
        TraceGrows(cfg, delivered, trace);
        return;
      }
      // Nothing new, the reply was lost, or the context is already over.
      Do(Abandon(h));
      return Nothing;
    }

    /** Message `m` was claimed in the state after `at`, and this was its `count`-th delivery. */
    ghost predicate ClaimedAt(at: seq<Action>, m: nat, count: nat) {
      var c := Run(cfg, INIT, at);
      ClaimTarget(c.broker, c.clock, cfg.minIdle) == Some(m) && count == CountOf(c.broker, m) + 1
    }

    /** XAUTOCLAIM and XPENDING: the handler ends up with a message and its count, or is over. */
    method ClaimOne(h: nat, o: Oracle) returns (ghost at: seq<Action>)
      requires Valid() && h in s.handlers && s.handlers[h].phase.Reading? && s.handlers[h].kind.Retry?
      modifies this
      ensures Valid() && old(trace) <= at <= trace
      ensures h in s.handlers ==>
                && s.handlers[h].kind.Retry? && s.handlers[h].phase.Ready?
                && ClaimedAt(at, s.handlers[h].phase.msg, s.handlers[h].phase.count)
      ensures o.Gap(0) == [] && o.Gap(5) == [] && o.readReplied && o.infoReplied && CanRead(old(s), h, Retry)
              && ClaimTarget(old(s).broker, old(s).clock, cfg.minIdle).Some?
              ==> h in s.handlers && at == old(trace)
    {
      ghost var before, mid := Act(h, o.Gap(0), Claim(h, o.readReplied));
      at := before;
      if h !in s.handlers || !s.handlers[h].phase.Claimed? {
        Do(Abandon(h));
      } else {
        before, mid := Act(h, o.Gap(5), Info(h, o.infoReplied));
      }
    }

    /** `at` is the moment of the claim: the verdict goes by the delivery count it produced. */
    method ProcessRetries(h: nat, o: Oracle) returns (r: Result, ghost at: seq<Action>)
      requires Valid() && h !in s.handlers
      modifies this
      ensures Valid() && old(trace) <= at <= trace && h !in s.handlers
      ensures Reported(Retry, r)
      ensures r != Nothing ==>
                var count := CountOf(Run(cfg, INIT, at).broker, r.msg) + 1;
                && ClaimedAt(at, r.msg, count)
                && r == Verdict(cfg, o, Retry, count, r.msg, r.msg in s.broker.decodable)
      ensures o.Gap(0) == [] && o.Gap(5) == [] && !o.readFails && o.readReplied && o.infoReplied
              && cfg.minIdle > 0 && ClaimTarget(old(s).broker, old(s).clock, cfg.minIdle).Some?
              ==> r != Nothing && at == old(trace) + [Begin(h, Retry)]
    {
      Do(Begin(h, Retry));
      at := trace;
      if o.readFails {
        Do(Abandon(h));
        return Nothing, at;
      }
      at := ClaimOne(h, o);
      if h !in s.handlers {
        return Nothing, at;
      }
      r := Handle(h, Retry, o);
    }
  }
}
