/** The token limiter in front of the AI provider: a fixed window that a waiter refills and
  * then, in a second critical section, takes from.  Any number of waiters interleave.
  */
module TokenLimiter {
  import opened Wrappers

  /** One minute, in nanoseconds. */
  const PERIOD: nat := 60_000_000_000

  datatype Grant = Grant(at: nat, tokens: int)

  /** The limiter's fields, the clock, a log of grants and of refills that fired, and how many grants
    * had been logged when the last of those fired.
    */
  datatype State = State(
    capacity: int, remaining: int, lastRefill: nat, now: nat, grants: seq<Grant>, refills: seq<nat>, mark: nat)

  /** `Refill` and `Take` are the two critical sections; a refused `Take` changes nothing. */
  datatype Action = Advance(d: nat) | Refill | Take(tokens: int)

  function Fresh(capacity: int, now: nat): State { State(capacity, capacity, now, now, [], [], 0) }

  function Step(s: State, a: Action): State {
    match a
    case Advance(d) => s.(now := s.now + d)
    case Refill =>
      if s.now - s.lastRefill >= PERIOD
      then s.(remaining := s.capacity, lastRefill := s.now, refills := s.refills + [s.now], mark := |s.grants|)
      else s
    case Take(n) =>
      if s.remaining >= n then s.(remaining := s.remaining - n, grants := s.grants + [Grant(s.now, n)]) else s
  }

  function Run(s: State, acts: seq<Action>): State
    decreases |acts|
  {
    if acts == [] then s else Run(Step(s, acts[0]), acts[1..])
  }

  // ----- What is counted -----

  /** Tokens granted at times in `[a, b]`. */
  function Granted(grants: seq<Grant>, a: nat, b: nat): int {
    if grants == [] then 0
    else
      var last := grants[|grants| - 1];
      Granted(grants[..|grants| - 1], a, b) + if a <= last.at <= b then last.tokens else 0
  }

  /** Refills that fired at times in `[a, b]`. */
  function Refills(refills: seq<nat>, a: nat, b: nat): nat {
    if refills == [] then 0
    else
      var last := refills[|refills| - 1];
      Refills(refills[..|refills| - 1], a, b) + Bit(a <= last <= b)
  }

  // ----- Invariants of every run with non-negative requests -----

  predicate NonNegative(acts: seq<Action>) { forall i | 0 <= i < |acts| :: acts[i].Take? ==> acts[i].tokens >= 0 }

  /** Refills fire at least one period after the start and after each other. */
  ghost predicate Spaced(refills: seq<nat>, start: nat) {
    && (forall i | 0 <= i < |refills| - 1 :: refills[i] + PERIOD <= refills[i + 1])
    && (refills != [] ==> start + PERIOD <= refills[0])
  }

  ghost predicate Sound(s: State, start: nat) {
    && s.lastRefill <= s.now && start <= s.now
    && s.lastRefill == (if s.refills == [] then start else s.refills[|s.refills| - 1])
    && Spaced(s.refills, start)
    && (forall i | 0 <= i < |s.grants| :: s.grants[i].at <= s.now && s.grants[i].tokens <= s.capacity)
    && s.remaining <= s.capacity && (s.capacity >= 0 ==> 0 <= s.remaining)
  }

  /** In a window `[a, b]`: one bucket to begin with, and one for every refill inside it. */
  ghost predicate Metered(s: State, a: nat, b: nat) {
    && Granted(s.grants, a, b) + (if s.now <= b then s.remaining else 0) <= s.capacity * (Refills(s.refills, a, b) + 1)
    && (s.now < a ==> Granted(s.grants, a, b) == 0 && Refills(s.refills, a, b) == 0)
  }

  lemma StepSound(s: State, a: Action, start: nat)
    requires Sound(s, start) && (a.Take? ==> a.tokens >= 0)
    ensures Sound(Step(s, a), start)
  {
  }

  lemma Distribute(c: int, n: int)
    ensures c * (n + 1) == c * n + c
  {
  }

  lemma StepMetered(s: State, act: Action, start: nat, a: nat, b: nat)
    requires Sound(s, start) && Metered(s, a, b) && s.capacity >= 0 && (act.Take? ==> act.tokens >= 0)
    ensures Metered(Step(s, act), a, b)
  {
    var t := Step(s, act);
    match act
    case Take(n) => assert s.remaining >= n ==> t.grants[..|t.grants| - 1] == s.grants;
    case Refill =>
      assert t.refills != s.refills ==> t.refills[..|t.refills| - 1] == s.refills;
      Distribute(s.capacity, Refills(s.refills, a, b) + 1);
    case Advance(_) =>
  }

  lemma {:induction false} RunKeeps(s: State, acts: seq<Action>, start: nat, a: nat, b: nat)
    requires Sound(s, start) && Metered(s, a, b) && s.capacity >= 0 && NonNegative(acts)
    ensures Sound(Run(s, acts), start) && Metered(Run(s, acts), a, b) && Run(s, acts).capacity == s.capacity
    decreases |acts|
  {
    if acts != [] {
      StepSound(s, acts[0], start);
      StepMetered(s, acts[0], start, a, b);
      RunKeeps(Step(s, acts[0]), acts[1..], start, a, b);
    }
  }

  // ----- What remains -----

  function Total(grants: seq<Grant>): int {
    if grants == [] then 0 else Total(grants[..|grants| - 1]) + grants[|grants| - 1].tokens
  }

  /** Tokens granted since the last refill that fired. */
  function Spent(s: State): int
    requires s.mark <= |s.grants|
  {
    Total(s.grants[s.mark..])
  }

  /** The mark parts the grants before the last refill from those after it. */
  ghost predicate Parted(s: State) {
    && s.mark <= |s.grants| && s.lastRefill <= s.now
    && (forall i | 0 <= i < s.mark :: s.grants[i].at <= s.lastRefill)
    && (forall i | s.mark <= i < |s.grants| :: s.lastRefill <= s.grants[i].at <= s.now)
  }

  ghost predicate Unspent(s: State, capacity: int) {
    s.capacity == capacity && Parted(s) && s.remaining == capacity - Spent(s)
  }

  lemma StepKeepsUnspent(s: State, a: Action, capacity: int)
    requires Unspent(s, capacity)
    ensures Unspent(Step(s, a), capacity)
  {
    var t := Step(s, a);
    match a
    case Take(n) =>
      if t != s {
        assert t.grants[s.mark..][..|s.grants| - s.mark] == s.grants[s.mark..];
      }
    case _ => assert s.grants[|s.grants|..] == [];
  }

  lemma {:induction false} RunKeepsUnspent(s: State, acts: seq<Action>, capacity: int)
    requires Unspent(s, capacity)
    ensures Unspent(Run(s, acts), capacity)
    decreases |acts|
  {
    if acts != [] {
      StepKeepsUnspent(s, acts[0], capacity);
      RunKeepsUnspent(Step(s, acts[0]), acts[1..], capacity);
    }
  }

  /** In every run, with any capacity and any requests, what remains is the capacity less the tokens
    * granted since the last refill that fired.
    */
  lemma RemainingIsUnspent(capacity: int, start: nat, acts: seq<Action>)
    ensures var s := Run(Fresh(capacity, start), acts);
            Parted(s) && s.remaining == capacity - Spent(s)
  {
    RunKeepsUnspent(Fresh(capacity, start), acts, capacity);
  }

  // ----- How many refills fit -----

  lemma {:induction false} RefillsFit(q: seq<nat>, start: nat, a: nat, b: nat)
    requires Spaced(q, start)
    ensures var n := Refills(q, a, b);
            n >= 1 ==> a + (n - 1) * PERIOD <= b && a + (n - 1) * PERIOD <= q[|q| - 1]
    decreases |q|
  {
    if q != [] {
      var p := q[..|q| - 1];
      RefillsFit(p, start, a, b);
    }
  }

  /** The k-th refill comes no earlier than k periods after the start. */
  lemma {:induction false} RefillsSinceStart(q: seq<nat>, start: nat, b: nat)
    requires Spaced(q, start)
    ensures var n := Refills(q, 0, b);
            n >= 1 ==> start + n * PERIOD <= b && start + n * PERIOD <= q[|q| - 1]
    decreases |q|
  {
    if q != [] {
      var p := q[..|q| - 1];
      RefillsSinceStart(p, start, b);
    }
  }

  lemma MultiplyUp(c: int, m: int, n: int)
    requires c >= 0 && m <= n
    ensures c * m <= c * n
  {
  }

  lemma AtMost(n: nat, length: nat)
    requires n * PERIOD <= length
    ensures n <= length / PERIOD
  {
  }

  /** Tokens granted in any window of length `length`, whatever the waiters do. */
  lemma WindowBound(capacity: nat, start: nat, acts: seq<Action>, a: nat, length: nat)
    requires NonNegative(acts)
    ensures Granted(Run(Fresh(capacity, start), acts).grants, a, a + length) <= capacity * (length / PERIOD + 2)
  {
    var s := Run(Fresh(capacity, start), acts);
    RunKeeps(Fresh(capacity, start), acts, start, a, a + length);
    RefillsFit(s.refills, start, a, a + length);
    var n := Refills(s.refills, a, a + length);
    if n >= 1 { AtMost(n - 1, length); }
    MultiplyUp(capacity, n + 1, length / PERIOD + 2);
  }

  /** Tokens granted until the limiter is `age` old. */
  lemma AgeBound(capacity: nat, start: nat, acts: seq<Action>, age: nat)
    requires NonNegative(acts)
    ensures Granted(Run(Fresh(capacity, start), acts).grants, 0, start + age) <= capacity * (age / PERIOD + 1)
  {
    var s := Run(Fresh(capacity, start), acts);
    RunKeeps(Fresh(capacity, start), acts, start, 0, start + age);
    RefillsSinceStart(s.refills, start, start + age);
    var n := Refills(s.refills, 0, start + age);
    AtMost(n, age);
    MultiplyUp(capacity, n + 1, age / PERIOD + 1);
  }

  /** One waiter empties the old bucket and the next one the new, at one instant. */
  function Burst(capacity: nat): seq<Action> { [Advance(PERIOD), Take(capacity), Refill, Take(capacity)] }

  /** Then every bucket is emptied as soon as it has been filled. */
  function Drain(capacity: nat, n: nat): seq<Action> {
    if n == 0 then [] else Drain(capacity, n - 1) + [Advance(PERIOD), Refill, Take(capacity)]
  }

  lemma GrantedAppends(grants: seq<Grant>, g: Grant, a: nat, b: nat)
    ensures Granted(grants + [g], a, b) == Granted(grants, a, b) + if a <= g.at <= b then g.tokens else 0
  {
    assert (grants + [g])[..|grants|] == grants;
  }

  lemma BurstGrants(capacity: nat, start: nat, a: nat, b: nat)
    requires a <= start + PERIOD <= b
    ensures var s := Run(Fresh(capacity, start), Burst(capacity));
            s.now == s.lastRefill == start + PERIOD && s.capacity == capacity && Granted(s.grants, a, b) == capacity * 2
  {
    var s, half := Fresh(capacity, start), [Advance(PERIOD), Take(capacity)];
    RunOfTwo(s, Advance(PERIOD), Take(capacity));
    RunOfTwo(Run(s, half), Refill, Take(capacity));
    RunAppends(s, half, [Refill, Take(capacity)]);
    assert half + [Refill, Take(capacity)] == Burst(capacity);
    var g := Grant(start + PERIOD, capacity);
    assert Run(s, Burst(capacity)).grants == [] + [g] + [g];
    GrantedAppends([], g, a, b);
    GrantedAppends([] + [g], g, a, b);
  }

  lemma RoundGrants(s: State, a: nat, b: nat)
    requires s.lastRefill == s.now && a <= s.now + PERIOD <= b && s.capacity >= 0
    ensures var t := Run(s, [Advance(PERIOD), Refill, Take(s.capacity)]);
            t.now == t.lastRefill == s.now + PERIOD && t.capacity == s.capacity
            && Granted(t.grants, a, b) == Granted(s.grants, a, b) + s.capacity
  {
    var u := Step(Step(s, Advance(PERIOD)), Refill);
    RunOfTwo(s, Advance(PERIOD), Refill);
    RunAppends(s, [Advance(PERIOD), Refill], [Take(s.capacity)]);
    assert [Advance(PERIOD), Refill] + [Take(s.capacity)] == [Advance(PERIOD), Refill, Take(s.capacity)];
    RunOfOne(u, Take(s.capacity));
    GrantedAppends(s.grants, Grant(u.now, s.capacity), a, b);
  }

  lemma {:induction false} DrainGrants(s: State, n: nat, a: nat, b: nat)
    requires s.lastRefill == s.now && a <= s.now && s.now + n * PERIOD <= b && s.capacity >= 0
    ensures var t := Run(s, Drain(s.capacity, n));
            t.now == t.lastRefill == s.now + n * PERIOD && t.capacity == s.capacity
            && Granted(t.grants, a, b) == Granted(s.grants, a, b) + s.capacity * n
  {
    if n > 0 {
      DrainGrants(s, n - 1, a, b);
      var round := [Advance(PERIOD), Refill, Take(s.capacity)];
      RunAppends(s, Drain(s.capacity, n - 1), round);
      RoundGrants(Run(s, Drain(s.capacity, n - 1)), a, b);
      Distribute(s.capacity, n - 1);
    }
  }

  lemma {:induction false} DrainIsNonNegative(capacity: nat, n: nat)
    ensures NonNegative(Drain(capacity, n))
  {
    if n > 0 {
      DrainIsNonNegative(capacity, n - 1);
    }
  }

  /** For every window length some run of non-negative requests reaches the window bound. */
  lemma WindowBoundIsReached(capacity: nat, start: nat, length: nat)
    ensures exists acts ::
              && NonNegative(acts)
              && Granted(Run(Fresh(capacity, start), acts).grants, start + PERIOD, start + PERIOD + length)
                 == capacity * (length / PERIOD + 2)
  {
    var n, a := length / PERIOD, start + PERIOD;
    var burst, drain := Burst(capacity), Drain(capacity, n);
    BurstGrants(capacity, start, a, a + length);
    var s := Run(Fresh(capacity, start), burst);
    DrainGrants(s, n, a, a + length);
    DrainIsNonNegative(capacity, n);
    RunAppends(Fresh(capacity, start), burst, drain);
    Distribute(capacity, n);
    Distribute(capacity, n + 1);
    assert NonNegative(burst + drain);
    assert Granted(Run(Fresh(capacity, start), burst + drain).grants, a, a + length) == capacity * (n + 2);
  }

  lemma RunOfTwo(s: State, a: Action, b: Action)
    ensures Run(s, [a, b]) == Step(Step(s, a), b)
  {
    RunAppends(s, [a], [b]);
    RunOfOne(s, a);
    RunOfOne(Step(s, a), b);
    assert [a] + [b] == [a, b];
  }

  /** A request larger than the bucket is never granted; its waiter can only be cancelled. */
  lemma OversizedIsNeverGranted(capacity: nat, start: nat, acts: seq<Action>, i: nat)
    requires NonNegative(acts) && i < |Run(Fresh(capacity, start), acts).grants|
    ensures Run(Fresh(capacity, start), acts).grants[i].tokens <= capacity
  {
    RunKeeps(Fresh(capacity, start), acts, start, 0, 0);
  }

  predicate RequestsIn(acts: seq<Action>, allowed: int -> bool) {
    forall i | 0 <= i < |acts| && acts[i].Take? :: allowed(acts[i].tokens)
  }

  ghost predicate NeverOverfilled(capacity: nat, start: nat, allowed: int -> bool) {
    forall acts | RequestsIn(acts, allowed) :: Run(Fresh(capacity, start), acts).remaining <= capacity
  }

  /** The code accepts any request.  The bucket never holds more than its capacity, in any run, exactly
    * if no request may be negative.
    */
  lemma NegativeRequestOverfills(capacity: nat, start: nat, allowed: int -> bool)
    ensures NeverOverfilled(capacity, start, allowed) <==> forall n | n < 0 :: !allowed(n)
  {
    if n :| n < 0 && allowed(n) {
      var acts := [Take(n)];
      RunOfOne(Fresh(capacity, start), Take(n));
      assert RequestsIn(acts, allowed) && Run(Fresh(capacity, start), acts).remaining > capacity;
    } else {
      forall acts | RequestsIn(acts, allowed) ensures Run(Fresh(capacity, start), acts).remaining <= capacity {
        RunKeeps(Fresh(capacity, start), acts, start, 0, 0);
      }
    }
  }

  // ----- The limiter as the code writes it -----

  /** One turn of a waiter's loop: what others do between its refill and its take, and while it sleeps. */
  datatype Turn = Turn(between: seq<Action>, asleep: seq<Action>)

  /** The state after waiting through `turns`, and whether the tokens were granted before they ran out. */
  function Waited(s: State, tokens: int, turns: seq<Turn>): (State, bool)
    decreases |turns|
  {
    if turns == [] then (s, false)
    else
      var t := Run(Step(s, Refill), turns[0].between);
      if t.remaining >= tokens then (Step(t, Take(tokens)), true)
      else Waited(Run(t, turns[0].asleep), tokens, turns[1..])
  }

  /** Everything that happened while a waiter waited, in order. */
  function Woven(s: State, tokens: int, turns: seq<Turn>): seq<Action>
    decreases |turns|
  {
    if turns == [] then []
    else
      var t := Run(Step(s, Refill), turns[0].between);
      if t.remaining >= tokens then [Refill] + turns[0].between + [Take(tokens)]
      else [Refill] + turns[0].between + turns[0].asleep + Woven(Run(t, turns[0].asleep), tokens, turns[1..])
  }

  lemma {:induction false} RunAppends(s: State, a: seq<Action>, b: seq<Action>)
    ensures Run(s, a + b) == Run(Run(s, a), b)
    decreases |a|
  {
    if a == [] {
      assert a + b == b;
    } else {
      assert (a + b)[1..] == a[1..] + b;
      RunAppends(Step(s, a[0]), a[1..], b);
    }
  }

  lemma RunOfOne(s: State, a: Action)
    ensures Run(s, [a]) == Step(s, a)
  {
    assert Run(s, [a]) == Run(Step(s, a), []);
  }

  /** Waiting is a run like any other, so every bound above covers it; and a granted waiter
    * took its tokens in the last step, from a bucket that held them. */
  lemma {:induction false} WaitingIsARun(s: State, tokens: int, turns: seq<Turn>)
    ensures Waited(s, tokens, turns).0 == Run(s, Woven(s, tokens, turns))
    ensures var (t, granted) := Waited(s, tokens, turns);
            granted ==> t.grants != [] && t.grants[|t.grants| - 1] == Grant(t.now, tokens)
                        && t.remaining >= 0
    decreases |turns|
  {
    if turns != [] {
      var head := [Refill] + turns[0].between;
      RunAppends(s, [Refill], turns[0].between);
      RunOfOne(s, Refill);
      var t := Run(s, head);
      if t.remaining >= tokens {
        RunAppends(s, head, [Take(tokens)]);
        RunOfOne(t, Take(tokens));
      } else {
        var u := Run(t, turns[0].asleep);
        RunAppends(s, head, turns[0].asleep);
        RunAppends(s, head + turns[0].asleep, Woven(u, tokens, turns[1..]));
        WaitingIsARun(u, tokens, turns[1..]);
      }
    }
  }

  /** What a waiter finds at its `i`-th look, if it was refused at all earlier ones. */
  function Look(s: State, turns: seq<Turn>, i: nat): State
    requires i < |turns|
    decreases |turns|
  {
    var t := Run(Step(s, Refill), turns[0].between);
    if i == 0 then t else Look(Run(t, turns[0].asleep), turns[1..], i - 1)
  }

  /** At that look, its request fits into what has not been granted since the last refill. */
  ghost predicate FitsAt(s: State, tokens: int, turns: seq<Turn>, i: nat) {
    i < |turns| && var t := Look(s, turns, i); t.mark <= |t.grants| && Spent(t) + tokens <= t.capacity
  }

  ghost predicate ExceedsAt(s: State, tokens: int, turns: seq<Turn>, i: nat, capacity: int) {
    i < |turns| && var t := Look(s, turns, i); t.mark <= |t.grants| && Spent(t) + tokens > capacity
  }

  lemma {:induction false} WaitIsGranted(s: State, tokens: int, turns: seq<Turn>, capacity: int)
    requires Unspent(s, capacity)
    ensures Waited(s, tokens, turns).1 <==> exists i :: FitsAt(s, tokens, turns, i)
    decreases |turns|
  {
    if turns != [] {
      var t := Run(Step(s, Refill), turns[0].between);
      StepKeepsUnspent(s, Refill, capacity);
      RunKeepsUnspent(Step(s, Refill), turns[0].between, capacity);
      assert FitsAt(s, tokens, turns, 0) <==> t.remaining >= tokens;
      var u := Run(t, turns[0].asleep);
      RunKeepsUnspent(t, turns[0].asleep, capacity);
      WaitIsGranted(u, tokens, turns[1..], capacity);
      forall i: nat ensures FitsAt(s, tokens, turns, i + 1) <==> FitsAt(u, tokens, turns[1..], i) {}
      if i: nat :| FitsAt(s, tokens, turns, i) && i > 0 {
        assert FitsAt(u, tokens, turns[1..], i - 1);
      }
      if i: nat :| FitsAt(u, tokens, turns[1..], i) {
        assert FitsAt(s, tokens, turns, i + 1);
      }
    }
  }

  /** In every run, a waiter is refused exactly if at each of its looks the tokens granted since the last
    * refill and its own request together exceed the capacity.
    */
  lemma RefusedOnlyIfSpent(capacity: int, start: nat, acts: seq<Action>, tokens: int, turns: seq<Turn>)
    ensures var s := Run(Fresh(capacity, start), acts);
            !Waited(s, tokens, turns).1 <==>
            forall i: nat | i < |turns| :: ExceedsAt(s, tokens, turns, i, capacity)
  {
    var s := Run(Fresh(capacity, start), acts);
    RunKeepsUnspent(Fresh(capacity, start), acts, capacity);
    WaitIsGranted(s, tokens, turns, capacity);
    forall i: nat | i < |turns| ensures ExceedsAt(s, tokens, turns, i, capacity) <==> !FitsAt(s, tokens, turns, i) {
      LookIsUnspent(s, turns, i, capacity);
    }
  }

  lemma {:induction false} LookIsUnspent(s: State, turns: seq<Turn>, i: nat, capacity: int)
    requires i < |turns| && Unspent(s, capacity)
    ensures Unspent(Look(s, turns, i), capacity)
    decreases |turns|
  {
    var t := Run(Step(s, Refill), turns[0].between);
    StepKeepsUnspent(s, Refill, capacity);
    RunKeepsUnspent(Step(s, Refill), turns[0].between, capacity);
    if i > 0 {
      RunKeepsUnspent(t, turns[0].asleep, capacity);
      LookIsUnspent(Run(t, turns[0].asleep), turns[1..], i - 1, capacity);
    }
  }

  class TokenLimiter {
    var capacity: int
    var remaining: int
    var lastRefill: nat
    var now: nat
    ghost var grants: seq<Grant>
    ghost var refills: seq<nat>
    ghost var mark: nat
    ghost const start: nat
    ghost var trace: seq<Action>

    ghost function View(): State
      reads this
    {
      State(capacity, remaining, lastRefill, now, grants, refills, mark)
    }

    /** The limiter is where the critical sections in `trace` have led it. */
    ghost predicate Valid()
      reads this
    {
      View() == Run(Fresh(capacity, start), trace)
    }

    constructor (tokensPerMinute: int, now: nat)
      ensures Valid() && View() == Fresh(tokensPerMinute, now) && trace == []
    {
      capacity, remaining, lastRefill := tokensPerMinute, tokensPerMinute, now;
      this.now, start := now, now;
      grants, refills, mark, trace := [], [], 0, [];
    }

    ghost method Record(a: Action, before: State)
      requires before == Run(Fresh(capacity, start), trace) && View() == Step(before, a)
      modifies this`trace
      ensures Valid() && trace == old(trace) + [a]
    {
      RunAppends(Fresh(capacity, start), trace, [a]);
      RunOfOne(before, a);
      trace := trace + [a];
    }

    method DoRefill()
      requires Valid()
      modifies this
      ensures Valid() && View() == Step(old(View()), Refill) && trace == old(trace) + [Refill]
      ensures capacity == old(capacity) && now == old(now) && grants == old(grants)
      ensures if old(now - lastRefill) >= PERIOD then remaining == capacity && lastRefill == now
              else remaining == old(remaining) && lastRefill == old(lastRefill)
    {
      if now - lastRefill >= PERIOD {
        remaining := capacity;
        lastRefill := now;
        refills := refills + [now];
        mark := |grants|;
      }
      Record(Refill, old(View()));
    }

    method TryTake(tokens: int) returns (ok: bool)
      requires Valid()
      modifies this
      ensures Valid() && View() == Step(old(View()), Take(tokens)) && trace == old(trace) + [Take(tokens)]
      ensures old(mark) <= |old(grants)| && (ok <==> Total(old(grants)[old(mark)..]) + tokens <= old(capacity))
      ensures capacity == old(capacity) && lastRefill == old(lastRefill) && now == old(now)
      ensures remaining == if ok then old(remaining) - tokens else old(remaining)
      ensures grants == if ok then old(grants) + [Grant(now, tokens)] else old(grants)
    {
      RunKeepsUnspent(Fresh(capacity, start), trace, capacity);
      ok := remaining >= tokens;
      if ok {
        remaining := remaining - tokens;
        grants := grants + [Grant(now, tokens)];
      }
      Record(Take(tokens), old(View()));
    }

    /** Other waiters run their critical sections, and time passes. */
    method Others(acts: seq<Action>)
      requires Valid()
      modifies this
      ensures Valid() && View() == Run(old(View()), acts) && trace == old(trace) + acts
    {
      for i := 0 to |acts|
        invariant Valid() && View() == Run(old(View()), acts[..i]) && trace == old(trace) + acts[..i]
      {
        ghost var before := View();
        match acts[i] {
          case Advance(d) =>
            now := now + d;
            Record(acts[i], before);
          case Refill => DoRefill();
          case Take(n) => var _ := TryTake(n);
        }
        RunAppends(old(View()), acts[..i], [acts[i]]);
        RunOfOne(before, acts[i]);
        assert acts[..i + 1] == acts[..i] + [acts[i]];
      }
      assert acts[..|acts|] == acts;
    }

    /** The context is cancelled when the turns run out. */
    method Wait(tokens: int, turns: seq<Turn>) returns (granted: bool)
      requires Valid()
      modifies this
      ensures Valid() && (View(), granted) == Waited(old(View()), tokens, turns)
      ensures granted <==> exists i :: FitsAt(old(View()), tokens, turns, i)
      ensures granted ==> grants != [] && grants[|grants| - 1] == Grant(now, tokens)
    {
      RunKeepsUnspent(Fresh(capacity, start), trace, capacity);
      WaitIsGranted(View(), tokens, turns, capacity);
      WaitingIsARun(View(), tokens, turns);
      for i := 0 to |turns|
        invariant Valid()
        invariant Waited(View(), tokens, turns[i..]) == Waited(old(View()), tokens, turns)
      {
        DoRefill();
        Others(turns[i].between);
        var ok := TryTake(tokens);
        if ok {
          return true;
        }
        Others(turns[i].asleep);
      }
      return false;
    }

    /** Exactly the requests up to the result would be granted at once.  If none was ever negative, the
      * result lies between zero and the capacity.
      */
    method GetRemaining() returns (n: int)
      requires Valid()
      ensures forall tokens ::
                tokens <= n <==> Step(View(), Take(tokens)).grants == View().grants + [Grant(now, tokens)]
      ensures mark <= |grants| && n == capacity - Total(grants[mark..])
      ensures NonNegative(trace) && capacity >= 0 ==> 0 <= n <= capacity
    {
      RunKeepsUnspent(Fresh(capacity, start), trace, capacity);
      if NonNegative(trace) && capacity >= 0 {
        RunKeeps(Fresh(capacity, start), trace, start, 0, 0);
      }
      return remaining;
    }
  }
}
