/** The price-alert job: scan the candles of every watched position and consider its alerts. */
module PriceAlertStrategy {
  import opened Wrappers
  import opened PriceAlert

  datatype Candle = Candle(timestamp: int, high: real, low: real)

  datatype Market = Market(price: real, candles: seq<Candle>)

  datatype Position = Position(stock: string, takeProfit: real, stopLoss: real)

  /** A decoded job: candles older than `windowStart` are ignored. */
  datatype Job = Job(windowStart: int, cacheDuration: int, threshold: real)

  /** Where a target was reached; a price of zero means that it was not. */
  datatype Hit = Hit(price: real, timestamp: int)

  const NO_HIT := Hit(0.0, 0)

  // ----- The scan -----

  predicate Reaches(side: Side, price: real, target: real) {
    if side.TakeProfit? then price >= target else price <= target
  }

  function Extreme(side: Side, c: Candle): real { if side.TakeProfit? then c.high else c.low }

  predicate Counts(side: Side, c: Candle, windowStart: int, target: real) {
    c.timestamp >= windowStart && Reaches(side, Extreme(side, c), target)
  }

  function LastHit(side: Side, candles: seq<Candle>, windowStart: int, target: real): Hit {
    if candles == [] then NO_HIT
    else
      var c := candles[|candles| - 1];
      if Counts(side, c, windowStart, target) then Hit(Extreme(side, c), c.timestamp)
      else LastHit(side, candles[..|candles| - 1], windowStart, target)
  }

  predicate MarketReaches(side: Side, m: Market, target: real) {
    m.price != 0.0 && Reaches(side, m.price, target)
  }

  /** A market price that has reached the target overrides the candles. */
  function Reached(side: Side, m: Market, windowStart: int, target: real, now: int): Hit {
    if MarketReaches(side, m, target) then Hit(m.price, now) else LastHit(side, m.candles, windowStart, target)
  }

  function Target(side: Side, p: Position): real { if side.TakeProfit? then p.takeProfit else p.stopLoss }

  ghost predicate LastHighAt(cs: seq<Candle>, windowStart: int, target: real, i: nat) {
    && i < |cs| && cs[i].timestamp >= windowStart && cs[i].high >= target
    && forall j | i < j < |cs| && cs[j].timestamp >= windowStart :: cs[j].high < target
  }

  /** The last candle of the window at or above the target, or no hit if there is none. */
  ghost predicate LastHigh(cs: seq<Candle>, windowStart: int, target: real, h: Hit) {
    || (h == Hit(0.0, 0) && forall i | 0 <= i < |cs| && cs[i].timestamp >= windowStart :: cs[i].high < target)
    || exists i: nat :: LastHighAt(cs, windowStart, target, i) && h == Hit(cs[i].high, cs[i].timestamp)
  }

  lemma {:induction false} LastHitIsHigh(cs: seq<Candle>, windowStart: int, target: real)
    ensures LastHigh(cs, windowStart, target, LastHit(TakeProfit, cs, windowStart, target))
  {
    if cs != [] {
      var n := |cs| - 1;
      var h := LastHit(TakeProfit, cs[..n], windowStart, target);
      LastHitIsHigh(cs[..n], windowStart, target);
      assert forall i | 0 <= i < n :: cs[..n][i] == cs[i];
      if cs[n].timestamp >= windowStart && cs[n].high >= target {
        assert LastHighAt(cs, windowStart, target, n);
      } else if i: nat :| LastHighAt(cs[..n], windowStart, target, i) && h == Hit(cs[i].high, cs[i].timestamp) {
        assert LastHighAt(cs, windowStart, target, i);
      }
    }
  }

  ghost predicate LastLowAt(cs: seq<Candle>, windowStart: int, target: real, i: nat) {
    && i < |cs| && cs[i].timestamp >= windowStart && cs[i].low <= target
    && forall j | i < j < |cs| && cs[j].timestamp >= windowStart :: cs[j].low > target
  }

  /** The last candle of the window at or below the target, or no hit if there is none. */
  ghost predicate LastLow(cs: seq<Candle>, windowStart: int, target: real, h: Hit) {
    || (h == Hit(0.0, 0) && forall i | 0 <= i < |cs| && cs[i].timestamp >= windowStart :: cs[i].low > target)
    || exists i: nat :: LastLowAt(cs, windowStart, target, i) && h == Hit(cs[i].low, cs[i].timestamp)
  }

  lemma {:induction false} LastHitIsLow(cs: seq<Candle>, windowStart: int, target: real)
    ensures LastLow(cs, windowStart, target, LastHit(StopLoss, cs, windowStart, target))
  {
    if cs != [] {
      var n := |cs| - 1;
      var h := LastHit(StopLoss, cs[..n], windowStart, target);
      LastHitIsLow(cs[..n], windowStart, target);
      assert forall i | 0 <= i < n :: cs[..n][i] == cs[i];
      if cs[n].timestamp >= windowStart && cs[n].low <= target {
        assert LastLowAt(cs, windowStart, target, n);
      } else if i: nat :| LastLowAt(cs[..n], windowStart, target, i) && h == Hit(cs[i].low, cs[i].timestamp) {
        assert LastLowAt(cs, windowStart, target, i);
      }
    }
  }

  method Scan(m: Market, p: Position, windowStart: int, now: int) returns (profit: Hit, loss: Hit)
    ensures profit == Reached(TakeProfit, m, windowStart, p.takeProfit, now)
    ensures loss == Reached(StopLoss, m, windowStart, p.stopLoss, now)
    ensures if m.price != 0.0 && m.price >= p.takeProfit then profit == Hit(m.price, now)
            else LastHigh(m.candles, windowStart, p.takeProfit, profit)
    ensures if m.price != 0.0 && m.price <= p.stopLoss then loss == Hit(m.price, now)
            else LastLow(m.candles, windowStart, p.stopLoss, loss)
  {
    LastHitIsHigh(m.candles, windowStart, p.takeProfit);
    LastHitIsLow(m.candles, windowStart, p.stopLoss);
    profit, loss := NO_HIT, NO_HIT;
    for i := 0 to |m.candles|
      invariant profit == LastHit(TakeProfit, m.candles[..i], windowStart, p.takeProfit)
      invariant loss == LastHit(StopLoss, m.candles[..i], windowStart, p.stopLoss)
    {
      var c := m.candles[i];
      assert m.candles[..i + 1][..i] == m.candles[..i];
      if c.timestamp < windowStart {
        continue;
      }
      if c.high >= p.takeProfit {
        profit := Hit(c.high, c.timestamp);
      }
      if c.low <= p.stopLoss {
        loss := Hit(c.low, c.timestamp);
      }
    }
    assert m.candles[..|m.candles|] == m.candles;
    if m.price != 0.0 && m.price >= p.takeProfit {
      profit := Hit(m.price, now);
    }
    if m.price != 0.0 && m.price <= p.stopLoss {
      loss := Hit(m.price, now);
    }
  }

  /** Candle `i` reaches the target, at a positive price, and no later one reaches it at all. */
  ghost predicate LastAndPositive(side: Side, candles: seq<Candle>, windowStart: int, target: real, i: nat) {
    && i < |candles| && Counts(side, candles[i], windowStart, target) && Extreme(side, candles[i]) > 0.0
    && forall j | i < j < |candles| :: !Counts(side, candles[j], windowStart, target)
  }

  /** The scan keeps the last candle that reaches the target, and an alert is considered only if its
    * price is positive: with a last one that is not, an earlier hit is lost.
    */
  lemma {:induction false} LastHitIsLast(side: Side, candles: seq<Candle>, windowStart: int, target: real)
    ensures LastHit(side, candles, windowStart, target).price > 0.0
        <==> exists i :: LastAndPositive(side, candles, windowStart, target, i)
  {
    if candles != [] {
      var n := |candles| - 1;
      var rest := candles[..n];
      LastHitIsLast(side, rest, windowStart, target);
      if Counts(side, candles[n], windowStart, target) {
        assert Extreme(side, candles[n]) > 0.0 ==> LastAndPositive(side, candles, windowStart, target, n);
      } else {
        forall i: nat
          ensures LastAndPositive(side, rest, windowStart, target, i)
              <==> LastAndPositive(side, candles, windowStart, target, i)
        {
          assert forall j | i < j < |rest| :: rest[j] == candles[j];
        }
      }
    }
  }

  /** With positive candle prices, as the market data repository delivers them, an alert is considered
    * exactly when the market price, if positive, or failing a market hit some candle of the window
    * has reached the target.
    */
  lemma AlertIsConsidered(side: Side, m: Market, windowStart: int, target: real, now: int)
    requires forall i | 0 <= i < |m.candles| :: m.candles[i].high > 0.0 && m.candles[i].low > 0.0
    ensures Reached(side, m, windowStart, target, now).price > 0.0
        <==> if MarketReaches(side, m, target) then m.price > 0.0
             else exists i :: 0 <= i < |m.candles| && Counts(side, m.candles[i], windowStart, target)
  {
    SomeHitIsLast(side, m.candles, windowStart, target);
  }

  lemma {:induction false} SomeHitIsLast(side: Side, candles: seq<Candle>, windowStart: int, target: real)
    requires forall i | 0 <= i < |candles| :: Extreme(side, candles[i]) > 0.0
    ensures LastHit(side, candles, windowStart, target).price > 0.0
        <==> exists i :: 0 <= i < |candles| && Counts(side, candles[i], windowStart, target)
  {
    if candles != [] {
      var rest := candles[..|candles| - 1];
      SomeHitIsLast(side, rest, windowStart, target);
      assert forall i | 0 <= i < |rest| :: rest[i] == candles[i];
    }
  }

  /** A candle without a low price hides an earlier one that went through the stop loss. */
  lemma ZeroLowHidesStopLoss()
    ensures var candles := [Candle(0, 90.0, 70.0), Candle(1, 90.0, 0.0)];
            Counts(StopLoss, candles[0], 0, 80.0) && LastHit(StopLoss, candles, 0, 80.0).price == 0.0
  {}

  // ----- The job -----

  datatype Status = Success | Failed | Skipped

  datatype Outcome = Outcome(stock: string, status: Status)

  /** What the outside world does while one position is processed. */
  datatype PositionIo = PositionIo(
    before: nat, market: Option<Market>, profit: CheckIo, loss: CheckIo, updateFails: bool)

  function CheckOf(side: Side, job: Job, p: Position, m: Market, now: int, io: CheckIo): Action {
    Consider(Key(side, p.stock), Reached(side, m, job.windowStart, Target(side, p), now).price,
             job.threshold, job.cacheDuration, io)
  }

  /** A position, as the state machine of the cache sees it. */
  function Checks(s: State, job: Job, p: Position, io: PositionIo): seq<Action> {
    if io.market.None? then [Advance(io.before)]
    else
      var now := s.now + io.before;
      [Advance(io.before),
       CheckOf(TakeProfit, job, p, io.market.value, now, io.profit),
       CheckOf(StopLoss, job, p, io.market.value, now, io.loss)]
  }

  predicate Hits(a: Action) { a.Consider? && a.price > 0.0 }

  /** The error left over: the stop-loss check, if there is one, overwrites the other's. */
  function Errs(s: State, profit: Action, loss: Action): bool
    requires profit.Consider? && loss.Consider?
  {
    if Hits(loss) then Considered(Step(s, profit), loss).1
    else Hits(profit) && Considered(s, profit).1
  }

  function Outcomes(s: State, job: Job, p: Position, io: PositionIo): seq<Outcome> {
    if io.market.None? then [Outcome(p.stock, Failed)]
    else
      var now := s.now + io.before;
      var profit := CheckOf(TakeProfit, job, p, io.market.value, now, io.profit);
      var loss := CheckOf(StopLoss, job, p, io.market.value, now, io.loss);
      var hit := Hits(profit) || Hits(loss);
      (if hit && io.updateFails then [Outcome(p.stock, Failed)] else [])
      + [Outcome(p.stock, if Errs(Step(s, Advance(io.before)), profit, loss) then Failed
                          else if hit then Success else Skipped)]
  }

  function AllChecks(s: State, job: Job, ps: seq<Position>, ios: seq<PositionIo>): seq<Action>
    requires |ps| == |ios|
    decreases |ps|
  {
    if ps == [] then []
    else
      var c := Checks(s, job, ps[0], ios[0]);
      c + AllChecks(Run(s, c), job, ps[1..], ios[1..])
  }

  function AllOutcomes(s: State, job: Job, ps: seq<Position>, ios: seq<PositionIo>): seq<Outcome>
    requires |ps| == |ios|
    decreases |ps|
  {
    if ps == [] then []
    else
      Outcomes(s, job, ps[0], ios[0])
      + AllOutcomes(Run(s, Checks(s, job, ps[0], ios[0])), job, ps[1..], ios[1..])
  }

  /** Nothing is cached for the key, or it has expired, or the price is `threshold` percent away from it. */
  predicate Due(cache: map<Key, Entry>, now: int, key: Key, price: real, threshold: real) {
    || key !in cache
    || (cache[key].expires.Some? && cache[key].expires.value <= now)
    || (price - cache[key].price) * 100.0 >= threshold * cache[key].price
    || (cache[key].price - price) * 100.0 >= threshold * cache[key].price
  }

  /** The strategy's Redis keys; `log` records the checks it made. */
  class StockPriceAlertStrategy {
    var cache: map<Key, Entry>
    var now: int
    ghost var log: seq<Check>

    ghost function View(): State
      reads this
    {
      State(now, cache, log)
    }

    /** The cache holds the last recorded alert of each key. */
    ghost predicate Valid()
      reads this
    {
      Inv(View())
    }

    constructor (now: int)
      ensures Valid() && View() == Start(now)
    {
      cache, this.now, log := map[], now, [];
    }

    method GetLastAlertPrice(key: Key) returns (last: real)
      ensures last == LastAlertPrice(View(), key)
      ensures last == if key in cache && (cache[key].expires.None? || now < cache[key].expires.value)
                      then cache[key].price else 0.0
    {
      if key !in cache {
        return 0.0;
      }
      var e := cache[key];
      if e.expires.Some? && e.expires.value <= now {
        return 0.0;
      }
      return e.price;
    }

    method SendAlert(key: Key, price: real, threshold: real, duration: int, io: CheckIo) returns (failed: bool)
      requires Valid() && price > 0.0
      modifies this
      ensures Valid() && View() == Step(old(View()), Consider(key, price, threshold, duration, io))
      ensures failed == Considered(old(View()), Consider(key, price, threshold, duration, io)).1
      ensures var due := !io.readFails && Due(old(cache), old(now), key, price, threshold);
              && failed == (io.readFails || (due && io.setFails))
              && now == old(now) + (if due then io.lag else 0)
              && cache == if !due || io.setFails then old(cache)
                          else old(cache)[key := Entry(price, if duration > 0 then Some(now + duration) else None)]
    {
      StepKeepsInv(View(), Consider(key, price, threshold, duration, io));
      assert Mirrors(View(), key);
      if key in cache {
        TriggerIsNotNear(cache[key].price, price, threshold);
      }
      ghost var c := Considered(View(), Consider(key, price, threshold, duration, io)).0;
      log := log + [c];
      if io.readFails {
        return true;
      }
      var last := GetLastAlertPrice(key);
      if last != 0.0 {
        var diff := if price < last then last - price else price - last;
        var percentChange := diff / last * 100.0;
        if percentChange < threshold {
          return false;
        }
      }
      now := now + io.lag;
      if io.setFails {
        return true;
      }
      cache := cache[key := Entry(price, if duration > 0 then Some(now + duration) else None)];
      return false;
    }

    method Process(job: Job, p: Position, io: PositionIo) returns (outcomes: seq<Outcome>)
      requires Valid()
      modifies this
      ensures Valid() && View() == Run(old(View()), Checks(old(View()), job, p, io))
      ensures outcomes == Outcomes(old(View()), job, p, io)
    {
      ghost var s := View();
      StepKeepsInv(s, Advance(io.before));
      now := now + io.before;
      if io.market.None? {
        ProcessedIsRun(s, job, p, io);
        return [Outcome(p.stock, Failed)];
      }
      outcomes := [];
      var profit, loss := Scan(io.market.value, p, job.windowStart, now);
      var failed := false;
      if profit.price > 0.0 {
        failed := SendAlert(Key(TakeProfit, p.stock), profit.price, job.threshold, job.cacheDuration, io.profit);
      }
      if loss.price > 0.0 {
        failed := SendAlert(Key(StopLoss, p.stock), loss.price, job.threshold, job.cacheDuration, io.loss);
      }
      if (profit.price > 0.0 || loss.price > 0.0) && io.updateFails {
        outcomes := outcomes + [Outcome(p.stock, Failed)];
      }
      if failed {
        outcomes := outcomes + [Outcome(p.stock, Failed)];
      } else if profit.price > 0.0 || loss.price > 0.0 {
        outcomes := outcomes + [Outcome(p.stock, Success)];
      } else {
        outcomes := outcomes + [Outcome(p.stock, Skipped)];
      }
      ProcessedIsRun(s, job, p, io);
    }

    method Execute(job: Job, ps: seq<Position>, ios: seq<PositionIo>) returns (outcomes: seq<Outcome>)
      requires Valid() && |ps| == |ios|
      modifies this
      ensures Valid() && View() == Run(old(View()), AllChecks(old(View()), job, ps, ios))
      ensures outcomes == AllOutcomes(old(View()), job, ps, ios)
    {
      outcomes := [];
      ghost var s := View();
      for i := 0 to |ps|
        invariant Valid()
        invariant Run(View(), AllChecks(View(), job, ps[i..], ios[i..])) == Run(s, AllChecks(s, job, ps, ios))
        invariant outcomes + AllOutcomes(View(), job, ps[i..], ios[i..]) == AllOutcomes(s, job, ps, ios)
      {
        ghost var t := View();
        assert ps[i..][1..] == ps[i + 1..] && ios[i..][1..] == ios[i + 1..];
        var o := Process(job, ps[i], ios[i]);
        RunAppends(t, Checks(t, job, ps[i], ios[i]), AllChecks(View(), job, ps[i + 1..], ios[i + 1..]));
        outcomes := outcomes + o;
      }
    }
  }

  lemma ProcessedIsRun(s: State, job: Job, p: Position, io: PositionIo)
    ensures var t := Step(s, Advance(io.before));
            Run(s, Checks(s, job, p, io)) ==
            if io.market.None? then t
            else Step(Step(t, CheckOf(TakeProfit, job, p, io.market.value, t.now, io.profit)),
                      CheckOf(StopLoss, job, p, io.market.value, t.now, io.loss))
  {
    var cs := Checks(s, job, p, io);
    var t := Step(s, cs[0]);
    if io.market.None? {
      assert Run(t, cs[1..]) == t;
    } else {
      var u := Step(t, cs[1]);
      assert cs[1..][1..] == cs[2..] && cs[2..][1..] == [];
      assert Run(s, cs) == Run(t, cs[1..]) == Run(u, cs[2..]) == Run(Step(u, cs[2]), []);
    }
  }

  function PriceOf(side: Side, s: State, job: Job, p: Position, io: PositionIo): real
    requires io.market.Some?
  {
    var target := if side.TakeProfit? then p.takeProfit else p.stopLoss;
    Reached(side, io.market.value, job.windowStart, target, s.now + io.before).price
  }

  /** A check of this position, as the log has it. */
  ghost predicate Logged(c: Check, side: Side, job: Job, p: Position, price: real, io: CheckIo) {
    && c.key == Key(side, p.stock) && c.price == price && c.threshold == job.threshold
    && (c.recorded <==> c.sent && !io.setFails) && (c.delivered <==> c.sent && !io.sendFails)
    && c.readFailed == io.readFails
    && c.expires == if job.cacheDuration > 0 then Some(c.at + io.lag + job.cacheDuration) else None
  }

  /** The take profit is checked before the stop loss, each under its own key, at the price reached, and
    * only if that is positive; a position without market data is not checked at all.
    */
  lemma ChecksOfPosition(s: State, job: Job, p: Position, io: PositionIo)
    ensures var log := Run(s, Checks(s, job, p, io)).log;
            if io.market.None? then log == s.log
            else
              var profit, loss := PriceOf(TakeProfit, s, job, p, io), PriceOf(StopLoss, s, job, p, io);
              && |log| == |s.log| + Bit(profit > 0.0) + Bit(loss > 0.0) && s.log <= log
              && (profit > 0.0 ==> Logged(log[|s.log|], TakeProfit, job, p, profit, io.profit))
              && (loss > 0.0 ==> Logged(log[|log| - 1], StopLoss, job, p, loss, io.loss))
  {
    ProcessedIsRun(s, job, p, io);
  }

  /** Without market data the position has failed; with no target reached it is skipped; and otherwise it
    * has failed exactly if the last check made returned an error, after a first report if it could not
    * be saved.
    */
  lemma OutcomesOfPosition(s: State, job: Job, p: Position, io: PositionIo)
    ensures var os := Outcomes(s, job, p, io);
            if io.market.None? then os == [Outcome(p.stock, Failed)]
            else
              var t := Step(s, Advance(io.before));
              var profit, loss := PriceOf(TakeProfit, s, job, p, io), PriceOf(StopLoss, s, job, p, io);
              if profit <= 0.0 && loss <= 0.0 then os == [Outcome(p.stock, Skipped)]
              else
                var first := CheckOf(TakeProfit, job, p, io.market.value, t.now, io.profit);
                var failed := if loss > 0.0
                              then CheckErrs(Step(t, first), Key(StopLoss, p.stock), loss, job.threshold, io.loss)
                              else CheckErrs(t, Key(TakeProfit, p.stock), profit, job.threshold, io.profit);
                os == (if io.updateFails then [Outcome(p.stock, Failed)] else [])
                      + [Outcome(p.stock, if failed then Failed else Success)]
  {
  }

  /** The cache cannot be read, or an alert is due and cannot be recorded. */
  predicate CheckErrs(s: State, key: Key, price: real, threshold: real, io: CheckIo) {
    io.readFails || (ShouldTrigger(LastAlertPrice(s, key), price, threshold) && io.setFails)
  }

  /** The job goes through the positions in order, each in the state the ones before it have left. */
  lemma {:induction false} PositionsInOrder(s: State, job: Job, ps: seq<Position>, ios: seq<PositionIo>, i: nat)
    requires i < |ps| == |ios|
    ensures var t := Run(s, AllChecks(s, job, ps[..i], ios[..i]));
            && AllOutcomes(s, job, ps[..i + 1], ios[..i + 1])
               == AllOutcomes(s, job, ps[..i], ios[..i]) + Outcomes(t, job, ps[i], ios[i])
            && AllChecks(s, job, ps[..i + 1], ios[..i + 1])
               == AllChecks(s, job, ps[..i], ios[..i]) + Checks(t, job, ps[i], ios[i])
    decreases i
  {
    var c := Checks(s, job, ps[0], ios[0]);
    var u := Run(s, c);
    if i == 0 {
      assert ps[..1][1..] == [] && ios[..1][1..] == [];
      assert AllOutcomes(u, job, ps[..1][1..], ios[..1][1..]) == [];
    } else {
      assert ps[..i + 1][1..] == ps[1..][..i] && ios[..i + 1][1..] == ios[1..][..i];
      assert ps[..i][1..] == ps[1..][..i - 1] && ios[..i][1..] == ios[1..][..i - 1];
      PositionsInOrder(u, job, ps[1..], ios[1..], i - 1);
      RunAppends(s, c, AllChecks(u, job, ps[1..][..i - 1], ios[1..][..i - 1]));
    }
  }

  /** Every position is reported, and twice exactly when a reached target could not be saved. */
  lemma {:induction false} EveryPositionIsReported(s: State, job: Job, ps: seq<Position>, ios: seq<PositionIo>)
    requires |ps| == |ios|
    ensures |AllOutcomes(s, job, ps, ios)| == |ps| + UnsavedHits(s, job, ps, ios)
    decreases |ps|
  {
    if ps != [] {
      EveryPositionIsReported(Run(s, Checks(s, job, ps[0], ios[0])), job, ps[1..], ios[1..]);
    }
  }

  function UnsavedHits(s: State, job: Job, ps: seq<Position>, ios: seq<PositionIo>): nat
    requires |ps| == |ios|
    decreases |ps|
  {
    if ps == [] then 0
    else
      var io, now := ios[0], s.now + ios[0].before;
      Bit(io.updateFails && io.market.Some?
          && (Reached(TakeProfit, io.market.value, job.windowStart, ps[0].takeProfit, now).price > 0.0
              || Reached(StopLoss, io.market.value, job.windowStart, ps[0].stopLoss, now).price > 0.0))
      + UnsavedHits(Run(s, Checks(s, job, ps[0], io)), job, ps[1..], ios[1..])
  }

  predicate ProfitCheckFails(s: State, job: Job, p: Position, io: PositionIo) {
    io.market.Some? &&
    var t := Step(s, Advance(io.before));
    var profit := CheckOf(TakeProfit, job, p, io.market.value, t.now, io.profit);
    Hits(profit) && Considered(t, profit).1
  }

  /** The status that is reported last, and so the one that stands for the position. */
  function FinalStatus(s: State, job: Job, p: Position, io: PositionIo): Status {
    var os := Outcomes(s, job, p, io);
    os[|os| - 1].status
  }

  ghost predicate EveryFailureIsReported(s: State, job: Job, p: Position, m: Market, before: nat) {
    forall io: PositionIo | io.before == before && io.market == Some(m) && ProfitCheckFails(s, job, p, io) ::
      FinalStatus(s, job, p, io) == Failed
  }

  /** Once the take profit has been reached, a failed check of it is certain to be reported exactly if
    * the stop loss has not been reached as well.
    */
  lemma FailedCheckIsReported(s: State, job: Job, p: Position, m: Market, before: nat)
    requires Reached(TakeProfit, m, job.windowStart, p.takeProfit, s.now + before).price > 0.0
    ensures EveryFailureIsReported(s, job, p, m, before)
        <==> Reached(StopLoss, m, job.windowStart, p.stopLoss, s.now + before).price <= 0.0
  {
    var unread, fine := CheckIo(true, false, 0, false), CheckIo(false, false, 0, false);
    var io := PositionIo(before, Some(m), unread, fine, false);
    assert ProfitCheckFails(s, job, p, io);
    if Reached(StopLoss, m, job.windowStart, p.stopLoss, s.now + before).price > 0.0 {
      assert FinalStatus(s, job, p, io) == Success;
    }
  }

  const WATCHED := Position("BBCA", 110.0, 80.0)

  /** A rise to the take profit, and then a fall through the stop loss, within one window. */
  const SWING := Market(0.0, [Candle(0, 120.0, 100.0), Candle(1, 90.0, 70.0)])

  lemma SwingReachesBoth()
    ensures Reached(TakeProfit, SWING, 0, 110.0, 0) == Hit(120.0, 0)
    ensures Reached(StopLoss, SWING, 0, 80.0, 0) == Hit(70.0, 1)
  {
    var cs := SWING.candles;
    assert cs[..1] == [cs[0]];
    assert LastHit(TakeProfit, cs[..1], 0, 110.0) == Hit(120.0, 0);
    assert !Counts(TakeProfit, cs[1], 0, 110.0) && Counts(StopLoss, cs[1], 0, 80.0);
  }

  /** Here the unread take-profit cache goes unreported: the position counts as a success. */
  lemma SwingHidesFailure(s: State, job: Job, io: PositionIo)
    requires s.now == 0 && job.windowStart == 0 && s.cache == map[]
    requires io == PositionIo(0, Some(SWING), CheckIo(true, false, 0, false), CheckIo(false, false, 0, false), false)
    ensures ProfitCheckFails(s, job, WATCHED, io)
    ensures Outcomes(s, job, WATCHED, io) == [Outcome(WATCHED.stock, Success)]
  {
    SwingReachesBoth();
  }
}
