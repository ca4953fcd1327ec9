/** The handler loops of an executor process, and how they stop.
 *
 * A stream handler calls its function again and again; a ticker handler calls it at every tick.
 * Both look at the stop channel and at the context between calls.  A call runs under a context with
 * the loop's timeout; a panic in it ends its loop.
 */
module ConsumerLoops {
  import opened Wrappers
  import StreamRetry

  datatype Kind = StreamHandler | TickerHandler

  datatype Phase = Selecting | Calling | Ended

  datatype Loop = Loop(kind: Kind, timeout: nat, phase: Phase, calls: nat)

  datatype Stopping = NotStopping | Waiting | Stopped

  /** `group` is the wait group's counter, `closed` the stop channel, `cancelled` the context. */
  datatype Consumer = Consumer(loops: seq<Loop>, group: int, closed: bool, cancelled: bool, stopping: Stopping)

  /** `tick`: among the ready cases, the select takes the ticker's. */
  datatype Action =
    | Register(kind: Kind, timeout: nat)
    | Turn(i: nat, tick: bool)
    | Return(i: nat)
    | Panic(i: nat)
    | Cancel
    | Close
    | WaitOver

  const IDLE := Consumer([], 0, false, false, NotStopping)

  function SetPhase(c: Consumer, i: nat, p: Phase): Consumer
    requires i < |c.loops|
  {
    c.(loops := c.loops[i := c.loops[i].(phase := p)])
  }

  function Call(c: Consumer, i: nat): Consumer
    requires i < |c.loops|
  {
    c.(loops := c.loops[i := c.loops[i].(phase := Calling, calls := c.loops[i].calls + 1)])
  }

  /** The deferred Done runs however the loop ends. */
  function End(c: Consumer, i: nat): Consumer
    requires i < |c.loops|
  {
    SetPhase(c, i, Ended).(group := c.group - 1)
  }

  /** A stream handler has a default case, taken only if it has not been told to stop; a ticker handler
    * may take a tick even then.
    */
  function StepTurn(c: Consumer, i: nat, tick: bool): Consumer {
    if i >= |c.loops| || !c.loops[i].phase.Selecting? then c
    else
      var told := c.closed || c.cancelled;
      match c.loops[i].kind
      case StreamHandler => if told then End(c, i) else Call(c, i)
      case TickerHandler => if tick then Call(c, i) else if told then End(c, i) else c
  }

  function Step(c: Consumer, a: Action): Consumer {
    match a
    case Register(kind, timeout) =>
      c.(loops := c.loops + [Loop(kind, timeout, Selecting, 0)], group := c.group + 1)
    case Turn(i, tick) => StepTurn(c, i, tick)
    case Return(i) => if i < |c.loops| && c.loops[i].phase.Calling? then SetPhase(c, i, Selecting) else c
    case Panic(i) => if i < |c.loops| && c.loops[i].phase.Calling? then End(c, i) else c
    case Cancel => c.(cancelled := true)
    case Close => if c.closed then c else c.(closed := true, stopping := Waiting)
    case WaitOver => if c.stopping.Waiting? && c.group == 0 then c.(stopping := Stopped) else c
  }

  function Run(c: Consumer, acts: seq<Action>): Consumer
    decreases |acts|
  {
    if acts == [] then c else Run(Step(c, acts[0]), acts[1..])
  }

  /** Between two calls, a stream handler begins another one unless it has been told to stop, and then it
    * ends; a ticker handler begins one at a tick, and otherwise ends if it has been told to.
    */
  lemma TurnDecides(c: Consumer, i: nat, tick: bool)
    requires i < |c.loops| && c.loops[i].phase.Selecting?
    ensures var d, l := Step(c, Turn(i, tick)), c.loops[i];
            var calls := if l.kind.StreamHandler? then !c.closed && !c.cancelled else tick;
            var ends := !calls && (c.closed || c.cancelled);
            && d.loops == c.loops[i := if calls then l.(phase := Calling, calls := l.calls + 1)
                                       else if ends then l.(phase := Ended) else l]
            && d.group == c.group - (if ends then 1 else 0)
            && d.closed == c.closed && d.cancelled == c.cancelled && d.stopping == c.stopping
  {}

  /** A call that returns leaves its loop selecting, and one that panics ends it. */
  lemma CallEnds(c: Consumer, i: nat)
    requires i < |c.loops| && c.loops[i].phase.Calling?
    ensures Step(c, Return(i)) == c.(loops := c.loops[i := c.loops[i].(phase := Selecting)])
    ensures Step(c, Panic(i)) == c.(loops := c.loops[i := c.loops[i].(phase := Ended)], group := c.group - 1)
  {}

  // ----- The wait group counts the loops -----

  function Live(loops: seq<Loop>): nat {
    if loops == [] then 0
    else Live(loops[..|loops| - 1]) + Bit(!loops[|loops| - 1].phase.Ended?)
  }

  lemma {:induction false} LiveOfUpdate(loops: seq<Loop>, i: nat, l: Loop)
    requires i < |loops|
    ensures Live(loops[i := l]) == Live(loops) - Bit(!loops[i].phase.Ended?) + Bit(!l.phase.Ended?)
  {
    var n := |loops| - 1;
    if i < n {
      assert loops[i := l][..n] == loops[..n][i := l];
      LiveOfUpdate(loops[..n], i, l);
    } else {
      assert loops[i := l][..n] == loops[..n];
    }
  }

  lemma StepCounts(c: Consumer, a: Action)
    requires c.group == Live(c.loops)
    ensures Step(c, a).group == Live(Step(c, a).loops)
  {
    var d := Step(c, a);
    if a.Register? {
      assert d.loops[..|c.loops|] == c.loops;
    } else if (a.Turn? || a.Return? || a.Panic?) && a.i < |c.loops| && d != c {
      LiveOfUpdate(c.loops, a.i, d.loops[a.i]);
      assert d.loops == c.loops[a.i := d.loops[a.i]];
    }
  }

  lemma {:induction false} RunCounts(c: Consumer, acts: seq<Action>)
    requires c.group == Live(c.loops)
    ensures Run(c, acts).group == Live(Run(c, acts).loops)
    decreases |acts|
  {
    if acts != [] {
      StepCounts(c, acts[0]);
      RunCounts(Step(c, acts[0]), acts[1..]);
    }
  }

  ghost predicate AllEnded(c: Consumer) { forall i | 0 <= i < |c.loops| :: c.loops[i].phase.Ended? }

  lemma {:induction false} NoneLive(loops: seq<Loop>)
    ensures Live(loops) == 0 <==> forall i | 0 <= i < |loops| :: loops[i].phase.Ended?
  {
    if loops != [] {
      NoneLive(loops[..|loops| - 1]);
    }
  }

  predicate NoRegister(acts: seq<Action>) { forall i | 0 <= i < |acts| :: !acts[i].Register? }

  lemma {:induction false} EndedStays(c: Consumer, acts: seq<Action>, i: nat)
    requires i < |c.loops| && c.loops[i].phase.Ended?
    ensures var d := Run(c, acts); i < |d.loops| && d.loops[i] == c.loops[i]
    decreases |acts|
  {
    if acts != [] {
      EndedStays(Step(c, acts[0]), acts[1..], i);
    }
  }

  lemma {:induction false} SameLoops(c: Consumer, acts: seq<Action>)
    requires NoRegister(acts)
    ensures |Run(c, acts).loops| == |c.loops|
    decreases |acts|
  {
    if acts != [] {
      SameLoops(Step(c, acts[0]), acts[1..]);
    }
  }

  /** In every run, `Stop` returns exactly when every loop has ended, so that no call is in progress,
    * and without new registrations none begins any more.
    */
  lemma StopWaitsForCalls(acts: seq<Action>, more: seq<Action>)
    requires Run(IDLE, acts).stopping.Waiting? && NoRegister(more)
    ensures var c := Run(IDLE, acts);
            && (Step(c, WaitOver).stopping.Stopped? <==> AllEnded(c))
            && (AllEnded(c) ==> Run(Step(c, WaitOver), more).loops == c.loops)
  {
    var c := Run(IDLE, acts);
    RunCounts(IDLE, acts);
    NoneLive(c.loops);
    if AllEnded(c) {
      SameLoops(Step(c, WaitOver), more);
      forall i | 0 <= i < |c.loops| ensures Run(Step(c, WaitOver), more).loops[i] == c.loops[i] {
        EndedStays(Step(c, WaitOver), more, i);
      }
    }
  }

  /** Once the stop channel is closed, no stream handler begins another call. */
  lemma {:induction false} NoReadAfterClose(c: Consumer, acts: seq<Action>, i: nat)
    requires c.closed && i < |c.loops| && c.loops[i].kind.StreamHandler?
    ensures var d := Run(c, acts);
            d.closed && i < |d.loops| && d.loops[i].kind.StreamHandler? && d.loops[i].calls == c.loops[i].calls
    decreases |acts|
  {
    if acts != [] {
      NoReadAfterClose(Step(c, acts[0]), acts[1..], i);
    }
  }

  lemma RunOfTwo(c: Consumer, a: Action, b: Action, more: seq<Action>)
    ensures Run(c, [a, b] + more) == Run(Step(Step(c, a), b), more)
  {
    assert ([a, b] + more)[1..] == [b] + more;
    assert ([b] + more)[1..] == more;
  }

  /** A ticker handler may begin any number: its select is free to keep taking ticks. */
  lemma {:induction false} RetriesAfterClose(c: Consumer, i: nat, n: nat) returns (acts: seq<Action>)
    requires c.closed && i < |c.loops| && c.loops[i].kind.TickerHandler? && c.loops[i].phase.Selecting?
    ensures i < |Run(c, acts).loops| && Run(c, acts).loops[i].calls == c.loops[i].calls + n
    decreases n
  {
    if n == 0 {
      acts := [];
    } else {
      var rest := RetriesAfterClose(Step(Step(c, Turn(i, true)), Return(i)), i, n - 1);
      acts := [Turn(i, true), Return(i)] + rest;
      RunOfTwo(c, Turn(i, true), Return(i), rest);
    }
  }

  /** What the loops and whoever registers more of them may do; only `Stop` itself ends its wait. */
  predicate ByOthers(acts: seq<Action>) { forall i | 0 <= i < |acts| :: !acts[i].WaitOver? }

  lemma {:induction false} StaysWaiting(c: Consumer, acts: seq<Action>)
    requires c.closed && c.stopping.Waiting? && ByOthers(acts)
    ensures Run(c, acts).closed && Run(c, acts).stopping.Waiting?
    decreases |acts|
  {
    if acts != [] {
      StaysWaiting(Step(c, acts[0]), acts[1..]);
    }
  }

  // ----- The code -----

  /** The timeouts and idle times of one executor. */
  datatype Settings = Settings(taskTimeout: nat, analyzer: StreamRetry.Config, monitor: StreamRetry.Config)

  class RedisConsumer {
    var c: Consumer

    /** The wait group counts the loops that have not ended. */
    ghost predicate Valid()
      reads this
    {
      c.group == Live(c.loops)
    }

    constructor ()
      ensures Valid() && c == IDLE
    {
      c := IDLE;
    }

    method RegisterHandler(kind: Kind, timeout: nat)
      requires Valid()
      modifies this
      ensures Valid() && c == Step(old(c), Register(kind, timeout))
    {
      StepCounts(c, Register(kind, timeout));
      c := c.(group := c.group + 1);
      c := c.(loops := c.loops + [Loop(kind, timeout, Selecting, 0)]);
    }

    /** A retry handler gets as its timeout the very idle time its claims ask for. */
    method Start(cfg: Settings)
      requires Valid()
      modifies this
      ensures Valid()
      ensures c.loops == old(c).loops + [
          Loop(StreamHandler, cfg.taskTimeout, Selecting, 0),
          Loop(StreamHandler, StreamRetry.Timeout(cfg.analyzer, StreamRetry.FirstDelivery), Selecting, 0),
          Loop(StreamHandler, StreamRetry.Timeout(cfg.monitor, StreamRetry.FirstDelivery), Selecting, 0),
          Loop(TickerHandler, StreamRetry.Timeout(cfg.analyzer, StreamRetry.Retry), Selecting, 0),
          Loop(TickerHandler, StreamRetry.Timeout(cfg.monitor, StreamRetry.Retry), Selecting, 0)]
      ensures c == old(c).(loops := c.loops, group := old(c).group + 5)
    {
      RegisterHandler(StreamHandler, cfg.taskTimeout);
      RegisterHandler(StreamHandler, cfg.analyzer.firstTimeout);
      RegisterHandler(StreamHandler, cfg.monitor.firstTimeout);
      RegisterHandler(TickerHandler, cfg.analyzer.minIdle);
      RegisterHandler(TickerHandler, cfg.monitor.minIdle);
    }

    /** The loops go on while `Stop` waits; it returns exactly if `others` end them all.  Closing a
      * closed channel panics.
      */
    method Stop(others: seq<Action>) returns (panicked: bool, stopped: bool)
      requires Valid() && ByOthers(others)
      modifies this
      ensures Valid() && panicked == old(c).closed
      ensures panicked ==> c == old(c) && !stopped
      ensures !panicked ==> c == Step(Run(Step(old(c), Close), others), WaitOver) && (stopped <==> AllEnded(c))
    {
      if c.closed {
        return true, false;
      }
      c := c.(closed := true, stopping := Waiting);
      RunCounts(c, others);
      StaysWaiting(c, others);
      c := Run(c, others);
      NoneLive(c.loops);
      c := Step(c, WaitOver);
      return false, c.stopping.Stopped?;
    }
  }
}
