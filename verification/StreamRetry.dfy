/** The delivery and retry protocol of the `stock.analyzer` and `stock.position.monitor` streams.
 *
 * Both services run the same code over their own stream with their own configuration:
 * first deliveries come from XREADGROUP, retries from XAUTOCLAIM with a minimum idle
 * time, and XACK precedes XDEL.  The state is what Redis holds, the clock, every live
 * handler of every executor process, and a record of finished executions.
 *
 * An action that is not enabled leaves the state alone, so a run is any sequence of
 * actions at all.
 */
module StreamRetry {
  import opened Broker

  /** `minIdle` is both the idle time XAUTOCLAIM asks for and the retry handler's timeout. */
  datatype Config = Config(firstTimeout: nat, minIdle: nat, maxRetry: int)

  datatype Kind = FirstDelivery | Retry

  /** Where a handler is: `count` is the delivery count it works with. */
  datatype Phase =
    | Reading
    | Claimed(msg: nat)
    | Ready(msg: nat, count: nat)
    | Executing(msg: nat, count: nat)
    | Acking(msg: nat)
    | Deleting(msg: nat)

  datatype Handler = Handler(kind: Kind, deadline: nat, phase: Phase) {
    predicate Holds(m: nat) { !phase.Reading? && phase.msg == m }

    /** It has a message and its execution is not over. */
    predicate Open() { phase.Claimed? || phase.Ready? || phase.Executing? }
  }

  datatype Attempt = Attempt(kind: Kind, count: nat, ok: bool)

  /** Finished executions of each message, and the decided acks that never reached Redis. */
  datatype Ledger = Ledger(attempts: map<nat, seq<Attempt>>, lost: map<nat, nat>) {
    function Of(m: nat): seq<Attempt> { if m in attempts then attempts[m] else [] }

    function LostOf(m: nat): nat { if m in lost then lost[m] else 0 }

    function Record(m: nat, a: Attempt): Ledger { this.(attempts := attempts[m := Of(m) + [a]]) }

    function LoseAck(m: nat): Ledger { this.(lost := lost[m := LostOf(m) + 1]) }
  }

  datatype State = State(clock: nat, broker: Broker, handlers: map<nat, Handler>, ledger: Ledger)

  /** `applied`: Redis carried the command out.  `replied`: the handler learned of it. */
  datatype Action =
    | Add(ok: bool)
    | Begin(h: nat, kind: Kind)
    | Read(h: nat, replied: bool)
    | Claim(h: nat, replied: bool)
    | Info(h: nat, replied: bool)
    | Start(h: nat)
    | Finish(h: nat, ok: bool)
    | Ack(h: nat, applied: bool, replied: bool)
    | Del(h: nat, applied: bool)
    | Abandon(h: nat)
    | Advance(d: nat)

  const INIT: State := State(0, EMPTY, map[], Ledger(map[], map[]))

  function Timeout(cfg: Config, k: Kind): nat { if k.FirstDelivery? then cfg.firstTimeout else cfg.minIdle }

  // ----- One step -----

  function SetPhase(s: State, h: nat, p: Phase): State
    requires h in s.handlers
  {
    s.(handlers := s.handlers[h := s.handlers[h].(phase := p)])
  }

  function End(s: State, h: nat): State { s.(handlers := s.handlers - {h}) }

  predicate CanRead(s: State, h: nat, k: Kind) {
    && h in s.handlers
    && s.handlers[h].kind == k
    && s.handlers[h].phase.Reading?
    && s.clock < s.handlers[h].deadline
  }

  function StepRead(s: State, h: nat, replied: bool): State {
    if !CanRead(s, h, FirstDelivery) then s
    else match NextNew(s.broker)
      case None => End(s, h)
      case Some(m) =>
        var t := s.(broker := Deliver(s.broker, m, s.clock));
        if replied then SetPhase(t, h, Ready(m, 1)) else End(t, h)
  }

  function StepClaim(cfg: Config, s: State, h: nat, replied: bool): State {
    if !CanRead(s, h, Retry) then s
    else match ClaimTarget(s.broker, s.clock, cfg.minIdle)
      case None => End(s, h)
      case Some(m) =>
        var t := s.(broker := Reclaim(s.broker, m, s.clock));
        if replied then SetPhase(t, h, Claimed(m)) else End(t, h)
  }

  function StepInfo(s: State, h: nat, replied: bool): State {
    if h !in s.handlers || !s.handlers[h].phase.Claimed? then s
    else
      var m := s.handlers[h].phase.msg;
      if replied && m in s.broker.pending then SetPhase(s, h, Ready(m, CountOf(s.broker, m))) else End(s, h)
  }

  function StepStart(s: State, h: nat): State {
    if h !in s.handlers || !s.handlers[h].phase.Ready? then s
    else
      var p := s.handlers[h].phase;
      if p.msg in s.broker.decodable then SetPhase(s, h, Executing(p.msg, p.count)) else End(s, h)
  }

  /** Only a retry gives up, and only when the count it read plus one reaches the limit. */
  predicate Exhausted(cfg: Config, k: Kind, count: nat) { k.Retry? && count + 1 >= cfg.maxRetry }

  function StepFinish(cfg: Config, s: State, h: nat, ok: bool): State {
    if h !in s.handlers || !s.handlers[h].phase.Executing? then s
    else
      var m, c, k := s.handlers[h].phase.msg, s.handlers[h].phase.count, s.handlers[h].kind;
      var t := s.(ledger := s.ledger.Record(m, Attempt(k, c, ok)));
      if ok || Exhausted(cfg, k, c) then SetPhase(t, h, Acking(m)) else End(t, h)
  }

  function StepAck(s: State, h: nat, applied: bool, replied: bool): State {
    if h !in s.handlers || !s.handlers[h].phase.Acking? then s
    else
      var m := s.handlers[h].phase.msg;
      var t := if applied then s.(broker := XAck(s.broker, m)) else s.(ledger := s.ledger.LoseAck(m));
      if applied && replied then SetPhase(t, h, Deleting(m)) else End(t, h)
  }

  function StepDel(s: State, h: nat, applied: bool): State {
    if h !in s.handlers || !s.handlers[h].phase.Deleting? then s
    else
      var m := s.handlers[h].phase.msg;
      End(if applied then s.(broker := XDel(s.broker, m)) else s, h)
  }

  /** A crash, a panic, or a return without any further command. */
  function StepAbandon(s: State, h: nat): State {
    if h !in s.handlers then s
    else
      var p := s.handlers[h].phase;
      End(if p.Acking? then s.(ledger := s.ledger.LoseAck(p.msg)) else s, h)
  }

  /** Time passes no live handler's deadline: every call returns once its context is over. */
  function StepAdvance(s: State, d: nat): State {
    if forall h | h in s.handlers :: s.clock + d < s.handlers[h].deadline
    then s.(clock := s.clock + d)
    else s
  }

  function StepBegin(cfg: Config, s: State, h: nat, k: Kind): State {
    if h in s.handlers then s
    else s.(handlers := s.handlers[h := Handler(k, s.clock + Timeout(cfg, k), Reading)])
  }

  function Step(cfg: Config, s: State, a: Action): State {
    match a
    case Add(ok) => s.(broker := XAdd(s.broker, ok))
    case Begin(h, k) => StepBegin(cfg, s, h, k)
    case Read(h, replied) => StepRead(s, h, replied)
    case Claim(h, replied) => StepClaim(cfg, s, h, replied)
    case Info(h, replied) => StepInfo(s, h, replied)
    case Start(h) => StepStart(s, h)
    case Finish(h, ok) => StepFinish(cfg, s, h, ok)
    case Ack(h, applied, replied) => StepAck(s, h, applied, replied)
    case Del(h, applied) => StepDel(s, h, applied)
    case Abandon(h) => StepAbandon(s, h)
    case Advance(d) => StepAdvance(s, d)
  }

  function Run(cfg: Config, s: State, acts: seq<Action>): State
    decreases |acts|
  {
    if acts == [] then s else Run(cfg, Step(cfg, s, acts[0]), acts[1..])
  }

  // ----- The invariant -----

  /** What Redis still says about a message bounds the lease of whoever holds it. */
  ghost predicate MessageOk(cfg: Config, b: Broker, x: Handler, m: nat) {
    && m < b.cursor
    && (x.phase.Executing? || x.phase.Acking? || x.phase.Deleting? ==> m in b.decodable)
    && (x.phase.Deleting? ==> m in b.acked)
    && (x.kind.FirstDelivery? ==> !x.phase.Claimed?)
    && (m in b.pending ==> x.deadline <= b.pending[m].at + Timeout(cfg, x.kind))
    && (m in b.pending && x.kind.Retry? && (x.phase.Ready? || x.phase.Executing?)
        ==> x.phase.count == b.pending[m].count)
  }

  ghost predicate HolderOk(cfg: Config, now: nat, b: Broker, x: Handler) {
    && x.deadline <= now + Timeout(cfg, x.kind)
    && (!x.phase.Reading? ==> now < x.deadline && MessageOk(cfg, b, x, x.phase.msg))
  }

  ghost predicate HoldersOk(cfg: Config, s: State) {
    forall h | h in s.handlers :: HolderOk(cfg, s.clock, s.broker, s.handlers[h])
  }

  /** Two live handlers of one kind never hold the same message. */
  ghost predicate Apart(x: Handler, y: Handler) {
    x.kind == y.kind && !x.phase.Reading? && !y.phase.Reading? ==> x.phase.msg != y.phase.msg
  }

  ghost predicate OnePerKind(s: State) {
    forall h, g | h in s.handlers && g in s.handlers && h != g :: Apart(s.handlers[h], s.handlers[g])
  }

  predicate SettledBy(cfg: Config, a: Attempt) { a.ok || Exhausted(cfg, a.kind, a.count) }

  /** Some finished execution was a reason to acknowledge the message. */
  ghost predicate Settled(cfg: Config, runs: seq<Attempt>) {
    exists i | 0 <= i < |runs| :: SettledBy(cfg, runs[i])
  }

  ghost predicate AcksJustified(cfg: Config, s: State) {
    && (forall m | m in s.broker.acked :: m in s.broker.decodable && Settled(cfg, s.ledger.Of(m)))
    && (forall h | h in s.handlers && s.handlers[h].phase.Acking? :: Settled(cfg, s.ledger.Of(s.handlers[h].phase.msg)))
  }

  ghost predicate Inv(cfg: Config, s: State) {
    Conserved(s.broker) && HoldersOk(cfg, s) && OnePerKind(s) && AcksJustified(cfg, s)
  }

  // ----- Every step keeps it -----

  lemma StepConserves(cfg: Config, s: State, a: Action)
    requires Conserved(s.broker) && HoldersOk(cfg, s)
    ensures Conserved(Step(cfg, s, a).broker)
  {
    match a
    case Add(ok) => CommandsConserve(s.broker, 0, 0);
    case Read(h, _) => CommandsConserve(s.broker, s.broker.cursor, s.clock); NextNewIsCursor(s.broker);
    case Claim(h, _) =>
      var m := ClaimTarget(s.broker, s.clock, cfg.minIdle);
      TargetIsIdle(s.broker, s.clock, cfg.minIdle);
      if m.Some? { CommandsConserve(s.broker, m.value, s.clock); }
    case Ack(h, _, _) =>
      if h in s.handlers && s.handlers[h].phase.Acking? { CommandsConserve(s.broker, s.handlers[h].phase.msg, 0); }
    case Del(h, _) =>
      if h in s.handlers && s.handlers[h].phase.Deleting? { CommandsConserve(s.broker, s.handlers[h].phase.msg, 0); }
    case _ =>
  }

  /** A claim finds no live retry handler on its message: that handler's lease has run out. */
  lemma ClaimFindsNoRetry(cfg: Config, now: nat, b: Broker, x: Handler)
    requires HolderOk(cfg, now, b, x) && x.kind.Retry? && ClaimTarget(b, now, cfg.minIdle).Some?
    ensures !x.Holds(ClaimTarget(b, now, cfg.minIdle).value)
  {
    TargetIsIdle(b, now, cfg.minIdle);
  }

  lemma StepKeepsHolder(cfg: Config, s: State, a: Action, g: nat)
    requires Conserved(s.broker)
    requires g in s.handlers ==> HolderOk(cfg, s.clock, s.broker, s.handlers[g])
    requires g in Step(cfg, s, a).handlers
    ensures var t := Step(cfg, s, a); HolderOk(cfg, t.clock, t.broker, t.handlers[g])
  {
    NextNewIsCursor(s.broker);
    TargetIsIdle(s.broker, s.clock, cfg.minIdle);
  }

  lemma StepKeepsApart(cfg: Config, s: State, a: Action, h: nat, g: nat)
    requires Conserved(s.broker) && h != g
    requires h in s.handlers ==> HolderOk(cfg, s.clock, s.broker, s.handlers[h])
    requires g in s.handlers ==> HolderOk(cfg, s.clock, s.broker, s.handlers[g])
    requires h in s.handlers && g in s.handlers ==> Apart(s.handlers[h], s.handlers[g])
    ensures var t := Step(cfg, s, a);
            h in t.handlers && g in t.handlers ==> Apart(t.handlers[h], t.handlers[g])
  {
    NextNewIsCursor(s.broker);
    TargetIsIdle(s.broker, s.clock, cfg.minIdle);
  }

  /** A finished execution justifies an ack exactly when the handler goes on to send one. */
  lemma FinishKeepsJustified(cfg: Config, s: State, h: nat, ok: bool)
    requires AcksJustified(cfg, s)
    ensures AcksJustified(cfg, StepFinish(cfg, s, h, ok))
  {
    if h in s.handlers && s.handlers[h].phase.Executing? {
      var a := Attempt(s.handlers[h].kind, s.handlers[h].phase.count, ok);
      var n := s.handlers[h].phase.msg;
      var l := s.ledger.Record(n, a);
      assert l.Of(n)[|s.ledger.Of(n)|] == a;
      forall m | Settled(cfg, s.ledger.Of(m)) ensures Settled(cfg, l.Of(m)) {
        var i :| 0 <= i < |s.ledger.Of(m)| && SettledBy(cfg, s.ledger.Of(m)[i]);
        assert SettledBy(cfg, l.Of(m)[i]);
      }
    }
  }

  /** A finished execution goes into the ledger, and its handler goes on to acknowledge the message exactly
    * if it succeeded, or is a retry whose delivery count plus one has reached the limit; otherwise it ends.
    */
  lemma FinishDecides(cfg: Config, s: State, h: nat, ok: bool)
    requires h in s.handlers && s.handlers[h].phase.Executing?
    ensures var x, t := s.handlers[h], Step(cfg, s, Finish(h, ok));
            var m, count := x.phase.msg, x.phase.count;
            && t.broker == s.broker && t.ledger.Of(m) == s.ledger.Of(m) + [Attempt(x.kind, count, ok)]
            && (h in t.handlers <==> ok || (x.kind.Retry? && count + 1 >= cfg.maxRetry))
            && (h in t.handlers ==> t.handlers[h] == x.(phase := Acking(m)))
  {}

  lemma StepKeepsJustified(cfg: Config, s: State, a: Action)
    requires Conserved(s.broker) && HoldersOk(cfg, s) && AcksJustified(cfg, s)
    ensures AcksJustified(cfg, Step(cfg, s, a))
  {
    match a
    case Finish(h, ok) => FinishKeepsJustified(cfg, s, h, ok);
    case Ack(h, _, _) => assert h in s.handlers ==> HolderOk(cfg, s.clock, s.broker, s.handlers[h]);
    case _ =>
  }

  lemma StepKeepsInv(cfg: Config, s: State, a: Action)
    requires Inv(cfg, s)
    ensures Inv(cfg, Step(cfg, s, a))
  {
    var t := Step(cfg, s, a);
    StepConserves(cfg, s, a);
    StepKeepsJustified(cfg, s, a);
    forall g | g in t.handlers ensures HolderOk(cfg, t.clock, t.broker, t.handlers[g]) {
      StepKeepsHolder(cfg, s, a, g);
    }
    forall h, g | h in t.handlers && g in t.handlers && h != g ensures Apart(t.handlers[h], t.handlers[g]) {
      StepKeepsApart(cfg, s, a, h, g);
    }
  }

  /** Every state of every run from the empty stream is sound. */
  lemma {:induction false} RunKeepsInv(cfg: Config, s: State, acts: seq<Action>)
    requires Inv(cfg, s)
    ensures Inv(cfg, Run(cfg, s, acts))
    decreases |acts|
  {
    if acts != [] {
      StepKeepsInv(cfg, s, acts[0]);
      RunKeepsInv(cfg, Step(cfg, s, acts[0]), acts[1..]);
    }
  }
}
