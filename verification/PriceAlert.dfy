/** Price alerts on watched positions, and the cache that keeps them from being repeated.
 *
 * The cache key is (alert type, stock code), so every position on a stock shares it.  Prices and
 * percentages are reals.
 */
module PriceAlert {
  import opened Wrappers

  datatype Side = TakeProfit | StopLoss

  datatype Key = Key(side: Side, stock: string)

  /** A cached alert price; without an expiry it never goes away. */
  datatype Entry = Entry(price: real, expires: Option<int>)

  /** How the external calls of one check end, and how long sending takes. */
  datatype CheckIo = CheckIo(readFails: bool, sendFails: bool, lag: nat, setFails: bool)

  /** One check of a reached price: whether an alert was due, and whether it was recorded. */
  datatype Check = Check(
    key: Key, price: real, threshold: real, at: int, readFailed: bool, sent: bool, delivered: bool,
    recorded: bool, expires: Option<int>)

  datatype State = State(now: int, cache: map<Key, Entry>, log: seq<Check>)

  datatype Action =
    | Advance(d: nat)
    | Consider(key: Key, price: real, threshold: real, duration: int, io: CheckIo)

  function Start(now: int): State { State(now, map[], []) }

  function Abs(x: real): real { if x < 0.0 then -x else x }

  predicate Expired(expires: Option<int>, now: int) { expires.Some? && expires.value <= now }

  /** A positive duration is a time to live; any other leaves the entry without one. */
  function Expiry(now: int, duration: int): Option<int> { if duration > 0 then Some(now + duration) else None }

  /** Zero stands for "no alert so far". */
  function LastAlertPrice(s: State, key: Key): real {
    if key in s.cache && !Expired(s.cache[key].expires, s.now) then s.cache[key].price else 0.0
  }

  predicate ShouldTrigger(last: real, price: real, threshold: real) {
    last == 0.0 || Abs(price - last) / last * 100.0 >= threshold
  }

  /** Read the cache, send, record; sending may fail without keeping the alert from being recorded. */
  function Considered(s: State, a: Action): (Check, bool)
    requires a.Consider?
  {
    var sent := !a.io.readFails && ShouldTrigger(LastAlertPrice(s, a.key), a.price, a.threshold);
    var recorded := sent && !a.io.setFails;
    (Check(a.key, a.price, a.threshold, s.now, a.io.readFails, sent, sent && !a.io.sendFails, recorded,
           Expiry(s.now + a.io.lag, a.duration)),
     a.io.readFails || (sent && a.io.setFails))
  }

  /** Prices that are not positive are never checked. */
  function Step(s: State, a: Action): State {
    match a
    case Advance(d) => s.(now := s.now + d)
    case Consider(key, price, threshold, duration, io) =>
      if price <= 0.0 then s
      else
        var c := Considered(s, a).0;
        State(
          if c.sent then s.now + io.lag else s.now,
          if c.recorded then s.cache[key := Entry(price, c.expires)] else s.cache,
          s.log + [c])
  }

  function Run(s: State, acts: seq<Action>): State
    decreases |acts|
  {
    if acts == [] then s else Run(Step(s, acts[0]), acts[1..])
  }

  lemma {:induction false} RunAppends(s: State, a: seq<Action>, b: seq<Action>)
    ensures Run(s, a + b) == Run(Run(s, a), b)
    decreases |a|
  {
    if a == [] {
      assert a + b == b;
    } else {
      assert (a + b)[1..] == a[1..] + b;
      RunAppends(Step(s, a[0]), a[1..], b);
    }
  }

  // ----- The cache holds the last recorded alert -----

  function LastRecord(log: seq<Check>, key: Key): Option<Check> {
    if log == [] then None
    else
      var c := log[|log| - 1];
      if c.key == key && c.recorded then Some(c) else LastRecord(log[..|log| - 1], key)
  }

  ghost predicate Mirrors(s: State, key: Key) {
    match LastRecord(s.log, key)
    case None => key !in s.cache
    case Some(c) => key in s.cache && s.cache[key] == Entry(c.price, c.expires) && c.price > 0.0
  }

  /** Less than `threshold` percent of `last` away from it, upwards and downwards. */
  predicate Near(last: real, price: real, threshold: real) {
    (price - last) * 100.0 < threshold * last && (last - price) * 100.0 < threshold * last
  }

  lemma TriggerIsNotNear(last: real, price: real, threshold: real)
    requires last > 0.0
    ensures ShouldTrigger(last, price, threshold) <==> !Near(last, price, threshold)
  {
    var d := Abs(price - last);
    assert d / last * 100.0 * last == d * 100.0 by {
      assert d / last * last == d;
    }
    if d / last * 100.0 >= threshold {
      assert d / last * 100.0 * last >= threshold * last;
    } else {
      assert d / last * 100.0 * last < threshold * last;
    }
  }

  /** The last recorded alert of the key has not expired, and the price is still near it. */
  predicate Suppressed(before: seq<Check>, c: Check) {
    var last := LastRecord(before, c.key);
    && last.Some?
    && (last.value.expires.None? || c.at < last.value.expires.value)
    && Near(last.value.price, c.price, c.threshold)
  }

  /** An alert goes out exactly when the cache could be read and nothing suppresses it. */
  predicate Explained(before: seq<Check>, c: Check) {
    && c.price > 0.0
    && (c.sent <==> !c.readFailed && !Suppressed(before, c))
    && (c.recorded ==> c.sent) && (c.delivered ==> c.sent)
  }

  ghost predicate AllExplained(log: seq<Check>) {
    forall m | 0 <= m < |log| :: Explained(log[..m], log[m])
  }

  ghost predicate Inv(s: State) {
    && AllExplained(s.log)
    && forall key :: Mirrors(s, key)
  }

  lemma CheckIsExplained(s: State, a: Action)
    requires a.Consider? && a.price > 0.0 && Mirrors(s, a.key)
    ensures Explained(s.log, Considered(s, a).0)
  {
    var last := LastRecord(s.log, a.key);
    if last.Some? {
      TriggerIsNotNear(last.value.price, a.price, a.threshold);
    }
  }

  lemma StepKeepsInv(s: State, a: Action)
    requires Inv(s)
    ensures Inv(Step(s, a))
  {
    var t := Step(s, a);
    if a.Consider? && a.price > 0.0 {
      var c := Considered(s, a).0;
      assert Mirrors(s, a.key);
      CheckIsExplained(s, a);
      assert t.log[..|s.log|] == s.log;
      forall m | 0 <= m < |t.log| ensures Explained(t.log[..m], t.log[m]) {
        if m < |s.log| { assert t.log[..m] == s.log[..m]; }
      }
      forall key ensures Mirrors(t, key) { assert Mirrors(s, key); }
    } else {
      forall key ensures Mirrors(t, key) { assert Mirrors(s, key); }
    }
  }

  /** In every run, an unexpired cache entry is the last recorded alert of its key, and every check
    * was decided by it.
    */
  lemma {:induction false} RunKeepsInv(s: State, acts: seq<Action>)
    requires Inv(s)
    ensures Inv(Run(s, acts))
    decreases |acts|
  {
    if acts != [] {
      StepKeepsInv(s, acts[0]);
      RunKeepsInv(Step(s, acts[0]), acts[1..]);
    }
  }

  lemma EveryCheckIsExplained(now: int, acts: seq<Action>, key: Key)
    ensures var s := Run(Start(now), acts);
            && AllExplained(s.log)
            && (LastRecord(s.log, key).Some? && !Expired(LastRecord(s.log, key).value.expires, s.now)
                ==> LastAlertPrice(s, key) == LastRecord(s.log, key).value.price > 0.0)
            && (LastRecord(s.log, key).None? || Expired(LastRecord(s.log, key).value.expires, s.now)
                ==> LastAlertPrice(s, key) == 0.0)
  {
    RunKeepsInv(Start(now), acts);
    assert Mirrors(Run(Start(now), acts), key);
  }

  /** In every run, a check whose cache read succeeds sends an alert exactly if its key has no unexpired
    * recorded alert, or the price is `threshold` percent or more above or below that alert's.
    */
  lemma ResentExactly(now: int, acts: seq<Action>, m: nat)
    requires m < |Run(Start(now), acts).log| && !Run(Start(now), acts).log[m].readFailed
    ensures var log := Run(Start(now), acts).log;
            var c, last := log[m], LastRecord(log[..m], log[m].key);
            if last.None? || (last.value.expires.Some? && last.value.expires.value <= c.at) then c.sent
            else
              var r := last.value.price;
              c.sent <==> (c.price - r) * 100.0 >= c.threshold * r || (r - c.price) * 100.0 >= c.threshold * r
  {
    RunKeepsInv(Start(now), acts);
    assert Explained(Run(Start(now), acts).log[..m], Run(Start(now), acts).log[m]);
  }

  // ----- How many alerts a moving price can cause -----

  function Alerts(log: seq<Check>, key: Key): nat {
    if log == [] then 0
    else
      var c := log[|log| - 1];
      Alerts(log[..|log| - 1], key) + Bit(c.key == key && c.sent)
  }

  function LastPrice(log: seq<Check>, key: Key): Option<real> {
    if log == [] then None
    else
      var c := log[|log| - 1];
      if c.key == key then Some(c.price) else LastPrice(log[..|log| - 1], key)
  }

  /** The total variation of the prices checked for the key. */
  function Variation(log: seq<Check>, key: Key): (v: real)
    ensures v >= 0.0
  {
    if log == [] then 0.0
    else
      var c := log[|log| - 1];
      var rest := log[..|log| - 1];
      var last := LastPrice(rest, key);
      Variation(rest, key) + if c.key == key && last.Some? then Abs(c.price - last.value) else 0.0
  }

  /** Alerts of the key are recorded, each before the one it follows expires, at prices of at least
    * `lowest`, and no check of the key asks for less than `threshold` percent.
    */
  predicate Chain(log: seq<Check>, key: Key, threshold: real, lowest: real) {
    log == [] ||
    var c := log[|log| - 1];
    var rest := log[..|log| - 1];
    && Chain(rest, key, threshold, lowest)
    && (c.key == key ==> c.threshold >= threshold)
    && (c.key == key && c.sent ==>
          && c.recorded && c.price >= lowest
          && (LastRecord(rest, key).Some? ==> !Expired(LastRecord(rest, key).value.expires, c.at)))
  }

  /** `n` times `step`. */
  function Owed(n: nat, step: real): real {
    if n == 0 then 0.0 else Owed(n - 1, step) + step
  }

  lemma {:induction false} OwedIsProduct(n: nat, step: real)
    ensures Owed(n, step) == n as real * step
  {
    if n > 0 {
      OwedIsProduct(n - 1, step);
      OneMore((n - 1) as real, step);
    }
  }

  lemma OneMore(x: real, step: real)
    ensures (x + 1.0) * step == x * step + step
  {}

  lemma Product(a: real, b: real, c: real, d: real)
    requires a >= b >= 0.0 && c >= d >= 0.0
    ensures a * c >= b * d
  {
    assert a * c >= b * c;
    assert b * c >= b * d;
  }

  /** What the price has moved since the last alert is still in hand for the next one. */
  ghost predicate PaidFor(log: seq<Check>, key: Key, step: real) {
    var n := Alerts(log, key);
    n > 0 ==>
      && LastRecord(log, key).Some? && LastPrice(log, key).Some?
      && 100.0 * Variation(log, key)
         >= Owed(n - 1, step) + 100.0 * Abs(LastPrice(log, key).value - LastRecord(log, key).value.price)
  }

  lemma {:induction false} RecordInWindow(log: seq<Check>, i: nat, j: nat, key: Key)
    requires i <= j <= |log| && LastRecord(log[i..j], key).Some?
    ensures LastRecord(log[..j], key) == LastRecord(log[i..j], key)
  {
    assert log[..j][..j - 1] == log[..j - 1];
    assert log[i..j][..j - 1 - i] == log[i..j - 1];
    var c := log[j - 1];
    if !(c.key == key && c.recorded) {
      RecordInWindow(log, i, j - 1, key);
    }
  }

  lemma MovedFar(last: real, price: real, threshold: real, least: real, lowest: real)
    requires last >= lowest >= 0.0 && last > 0.0 && threshold >= least >= 0.0
    requires !Near(last, price, threshold)
    ensures 100.0 * Abs(price - last) >= least * lowest
  {
    Product(threshold, least, last, lowest);
  }

  lemma AlertPays(log: seq<Check>, c: Check, step: real)
    requires Alerts(log, c.key) > 0 && PaidFor(log, c.key, step) && c.sent && c.recorded
    requires 100.0 * Abs(c.price - LastRecord(log, c.key).value.price) >= step
    ensures PaidFor(log + [c], c.key, step)
  {
    assert (log + [c])[..|log|] == log;
    Triangle(c.price, LastPrice(log, c.key).value, LastRecord(log, c.key).value.price);
    assert LastRecord(log + [c], c.key) == Some(c) && LastPrice(log + [c], c.key) == Some(c.price);
  }

  lemma Triangle(a: real, b: real, c: real)
    ensures Abs(a - c) <= Abs(a - b) + Abs(b - c)
  {}

  /** Recorded alerts in a chain keep to the lowest price. */
  lemma {:induction false} RecordIsHigh(log: seq<Check>, key: Key, threshold: real, lowest: real)
    requires Chain(log, key, threshold, lowest) && LastRecord(log, key).Some?
    requires forall m | 0 <= m < |log| :: log[m].recorded ==> log[m].sent
    ensures LastRecord(log, key).value.price >= lowest
    ensures LastRecord(log, key).value in log
  {
    var c := log[|log| - 1];
    if !(c.key == key && c.recorded) {
      RecordIsHigh(log[..|log| - 1], key, threshold, lowest);
    }
  }

  lemma {:induction false} ChainIsPaidFor(
    log: seq<Check>, i: nat, j: nat, key: Key, threshold: real, lowest: real, step: real)
    requires i <= j <= |log| && AllExplained(log) && threshold >= 0.0 && lowest >= 0.0
    requires Chain(log[i..j], key, threshold, lowest) && step == threshold * lowest
    ensures PaidFor(log[i..j], key, step)
    decreases j
  {
    if i < j {
      var w, c := log[i..j - 1], log[j - 1];
      assert log[i..j] == w + [c];
      ChainPrefix(w, c, key, threshold, lowest);
      ChainIsPaidFor(log, i, j - 1, key, threshold, lowest, step);
      RecordedIsSent(log, j - 1);
      if Alerts(w, key) == 0 {
        FirstAlertPays(w, c, key, threshold, lowest, step);
      } else if c.key == key && c.sent {
        LaterAlertMoved(log, i, j - 1, key, threshold, lowest, step);
        ChainRecords(w, c, threshold, lowest);
        AlertPays(w, c, step);
      } else {
        QuietCheckPays(w, c, key, step);
      }
    }
  }

  lemma ChainPrefix(log: seq<Check>, c: Check, key: Key, threshold: real, lowest: real)
    requires Chain(log + [c], key, threshold, lowest)
    ensures Chain(log, key, threshold, lowest)
  {
    assert (log + [c])[..|log|] == log;
  }

  lemma ChainRecords(log: seq<Check>, c: Check, threshold: real, lowest: real)
    requires Chain(log + [c], c.key, threshold, lowest) && c.sent
    ensures c.recorded
  {
    assert (log + [c])[..|log|] == log;
  }

  lemma RecordedIsSent(log: seq<Check>, j: nat)
    requires j < |log| && AllExplained(log)
    ensures (log[j].recorded ==> log[j].sent) && log[j].price > 0.0
  {
    assert Explained(log[..j], log[j]);
  }

  lemma LaterAlertMoved(log: seq<Check>, i: nat, j: nat, key: Key, threshold: real, lowest: real, step: real)
    requires i <= j < |log| && AllExplained(log) && threshold >= 0.0 && lowest >= 0.0
    requires log[j].key == key && log[j].sent && Chain(log[i..j] + [log[j]], key, threshold, lowest)
    requires LastRecord(log[i..j], key).Some? && step == threshold * lowest
    ensures 100.0 * Abs(log[j].price - LastRecord(log[i..j], key).value.price) >= step
  {
    var w, c := log[i..j], log[j];
    assert (w + [c])[..|w|] == w;
    RecordInWindow(log, i, j, key);
    forall m | 0 <= m < |w| ensures w[m].recorded ==> w[m].sent && w[m].price > 0.0 {
      RecordedIsSent(log, i + m);
    }
    RecordIsHigh(w, key, threshold, lowest);
    assert Explained(log[..j], c);
    MovedFar(LastRecord(w, key).value.price, c.price, c.threshold, threshold, lowest);
  }

  lemma QuietCheckPays(log: seq<Check>, c: Check, key: Key, step: real)
    requires Alerts(log, key) > 0 && PaidFor(log, key, step)
    requires (c.key == key ==> !c.sent) && (c.recorded ==> c.sent)
    ensures PaidFor(log + [c], key, step)
  {
    assert (log + [c])[..|log|] == log;
    if c.key == key {
      Triangle(c.price, LastPrice(log, key).value, LastRecord(log, key).value.price);
    }
  }

  lemma FirstAlertPays(log: seq<Check>, c: Check, key: Key, threshold: real, lowest: real, step: real)
    requires Alerts(log, key) == 0 && Chain(log + [c], key, threshold, lowest)
    ensures PaidFor(log + [c], key, step)
  {
    var w := log + [c];
    assert w[..|log|] == log;
    if c.key == key && c.sent {
      assert Alerts(w, key) == 1;
      assert LastRecord(w, key) == Some(c) && LastPrice(w, key) == Some(c.price);
    }
  }

  /** All alerts but the first are paid for by the price moving, `step` hundredths each. */
  predicate Bounded(w: seq<Check>, key: Key, step: real) {
    Alerts(w, key) > 0 ==> (Alerts(w, key) - 1) as real * step <= 100.0 * Variation(w, key)
  }

  lemma PaidForIsBounded(w: seq<Check>, key: Key, step: real)
    requires PaidFor(w, key, step)
    ensures Bounded(w, key, step)
  {
    if Alerts(w, key) > 0 {
      var moved := Abs(LastPrice(w, key).value - LastRecord(w, key).value.price);
      PaysOwed(Alerts(w, key) - 1, step, Variation(w, key), moved);
    }
  }

  lemma PaysOwed(n: nat, step: real, variation: real, moved: real)
    requires moved >= 0.0 && 100.0 * variation >= Owed(n, step) + 100.0 * moved
    ensures n as real * step <= 100.0 * variation
  {
    OwedIsProduct(n, step);
  }

  lemma NegativeIsBounded(w: seq<Check>, key: Key, step: real)
    requires step <= 0.0
    ensures Bounded(w, key, step)
  {
    if Alerts(w, key) > 0 {
      assert (Alerts(w, key) - 1) as real * step <= 0.0;
    }
  }

  /** In every run, and in every stretch of its checks in which alerts of a key are recorded and each
    * comes before the previous one expires, there are at most 1 + 100 V / (threshold * lowest) alerts,
    * V being the total variation of the prices checked.
    */
  lemma AlertBound(now: int, acts: seq<Action>, i: nat, j: nat, key: Key, threshold: real, lowest: real)
    requires i <= j <= |Run(Start(now), acts).log| && lowest >= 0.0
    requires Chain(Run(Start(now), acts).log[i..j], key, threshold, lowest)
    ensures Bounded(Run(Start(now), acts).log[i..j], key, threshold * lowest)
  {
    var w, step := Run(Start(now), acts).log[i..j], threshold * lowest;
    if threshold < 0.0 {
      assert step <= 0.0;
      NegativeIsBounded(w, key, step);
    } else {
      RunKeepsInv(Start(now), acts);
      ChainIsPaidFor(Run(Start(now), acts).log, i, j, key, threshold, lowest, step);
      PaidForIsBounded(w, key, step);
    }
  }

  /** Two alerts that meet the bound exactly, so it cannot be lowered. */
  lemma AlertBoundIsReached(key: Key, io: CheckIo)
    requires io == CheckIo(false, false, 0, false)
    ensures var s := Run(Start(0), [Consider(key, 100.0, 10.0, 60, io), Consider(key, 110.0, 10.0, 60, io)]);
            && Chain(s.log, key, 10.0, 100.0)
            && Alerts(s.log, key) == 2
            && (Alerts(s.log, key) - 1) as real * (10.0 * 100.0) == 100.0 * Variation(s.log, key)
  {
    var a, b := Consider(key, 100.0, 10.0, 60, io), Consider(key, 110.0, 10.0, 60, io);
    var s := Step(Start(0), a);
    var t := Step(s, b);
    assert Run(Start(0), [a, b]) == Run(s, [b]) == Run(t, []) by {
      assert [a, b][1..] == [b] && [b][1..] == [];
    }
    var first, second := Considered(Start(0), a).0, Considered(s, b).0;
    assert s.log == [first] && t.log == [first, second];
    assert t.log[..1] == [first] && [first][..0] == [];
    assert second.sent by {
      assert Abs(110.0 - 100.0) / 100.0 * 100.0 == 10.0;
    }
    assert Alerts([first], key) == 1 && Variation([first], key) == 0.0 && LastPrice([first], key) == Some(100.0);
  }

  /** Positions on one stock share the key: once an alert is recorded, the next position at the same
    * price, `gap` later, is told only if the resend threshold is not positive or the alert has expired.
    */
  lemma SharedAlert(s: State, c: Action, gap: nat, d: Action)
    requires c.Consider? && d.Consider? && c.key == d.key && c.price == d.price > 0.0 && !d.io.readFails
    requires Considered(s, c).0.recorded
    ensures Considered(Step(Step(s, c), Advance(gap)), d).0.sent <==> d.threshold <= 0.0 || 0 < c.duration <= gap
  {
    assert Abs(d.price - c.price) / c.price * 100.0 == 0.0;
  }
}
