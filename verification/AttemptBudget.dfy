/** How often a message is executed: the budget that the retry limit really gives. */
module AttemptBudget {
  import opened Wrappers
  import opened Broker
  import opened StreamRetry
  import opened RetryTheorems

  /** Executions that need no ack: the first delivery's, and every retry too early to give up. */
  function Free(cfg: Config, count: nat): int { Min(count, Max(1, cfg.maxRetry - 2)) }

  function Budget(cfg: Config): int { Max(2, cfg.maxRetry - 1) }

  ghost predicate Has(s: State, m: nat, k: Kind, acking: bool) {
    exists h :: h in s.handlers && IsHolder(s.handlers[h], m, k, acking)
  }

  ghost predicate IsHolder(x: Handler, m: nat, k: Kind, acking: bool) {
    x.kind == k && x.Holds(m) && (if acking then x.phase.Acking? else x.Open())
  }

  /** What has been executed, and may still be by live handlers, against deliveries and lost acks. */
  ghost predicate Accounted(cfg: Config, s: State, m: nat) {
    var done, lost := |s.ledger.Of(m)|, s.ledger.LostOf(m);
    var firstOpen, retryOpen := Has(s, m, FirstDelivery, false), Has(s, m, Retry, false);
    if m >= s.broker.cursor then done == 0
    else if m in s.broker.pending then
      var early := s.broker.pending[m].count <= cfg.maxRetry - 2;
      done + Bit(firstOpen) + Bit(retryOpen && early)
        <= Free(cfg, s.broker.pending[m].count) + lost + Bit(!early && Has(s, m, Retry, true))
    else done + Bit(firstOpen) + Bit(retryOpen) <= Budget(cfg) + lost
  }

  /** Steps that neither deliver, finish nor acknowledge add no holder and lose no pending ack. */
  lemma QuietKeepsHolders(cfg: Config, s: State, a: Action, m: nat, k: Kind)
    requires a.Info? || a.Start? || a.Del? || a.Begin? || a.Add? || a.Advance?
    ensures Has(Step(cfg, s, a), m, k, false) ==> Has(s, m, k, false)
    ensures Has(s, m, k, true) ==> Has(Step(cfg, s, a), m, k, true)
  {
    if Has(s, m, k, true) {
      var h :| h in s.handlers && IsHolder(s.handlers[h], m, k, true);
      assert IsHolder(Step(cfg, s, a).handlers[h], m, k, true);
    }
  }

  lemma QuietAccounts(cfg: Config, s: State, a: Action, m: nat)
    requires Accounted(cfg, s, m)
    requires a.Info? || a.Start? || a.Del? || a.Begin? || a.Add? || a.Advance?
    ensures Accounted(cfg, Step(cfg, s, a), m)
  {
    QuietKeepsHolders(cfg, s, a, m, FirstDelivery);
    QuietKeepsHolders(cfg, s, a, m, Retry);
  }

  ghost predicate OnlyMoves(s: State, t: State, h: nat) {
    && h in s.handlers
    && (forall g | g in s.handlers && g != h :: g in t.handlers && t.handlers[g] == s.handlers[g])
    && (forall g | g in t.handlers && g != h :: g in s.handlers)
  }

  ghost predicate Now(t: State, h: nat, m: nat, k: Kind, acking: bool) {
    h in t.handlers && IsHolder(t.handlers[h], m, k, acking)
  }

  /** When only handler `h` moves, holders come and go only through `h`. */
  ghost predicate Through(s: State, t: State, h: nat, m: nat, k: Kind, acking: bool) {
    && (Has(t, m, k, acking) ==> Has(s, m, k, acking) || Now(t, h, m, k, acking))
    && (Has(s, m, k, acking) ==> Has(t, m, k, acking) || Now(s, h, m, k, acking))
    && (Now(t, h, m, k, acking) ==> Has(t, m, k, acking))
  }

  lemma OthersStay(s: State, t: State, h: nat, m: nat)
    requires OnlyMoves(s, t, h)
    ensures Through(s, t, h, m, FirstDelivery, false)
    ensures Through(s, t, h, m, Retry, false)
    ensures Through(s, t, h, m, Retry, true)
  {
    forall k, acking ensures Through(s, t, h, m, k, acking) {
      if Has(s, m, k, acking) {
        var g :| g in s.handlers && IsHolder(s.handlers[g], m, k, acking);
        assert g != h ==> IsHolder(t.handlers[g], m, k, acking);
      }
    }
  }

  /** The message a handler holds has no other live holder of the same kind. */
  lemma OnlyHolder(s: State, h: nat, m: nat, acking: bool)
    requires OnePerKind(s) && h in s.handlers && s.handlers[h].Holds(m)
    ensures Has(s, m, s.handlers[h].kind, acking) <==> IsHolder(s.handlers[h], m, s.handlers[h].kind, acking)
  {
    forall g | g in s.handlers && g != h ensures !IsHolder(s.handlers[g], m, s.handlers[h].kind, acking) {
      assert Apart(s.handlers[h], s.handlers[g]);
    }
  }

  /** A step of a handler that has nothing to do with `m`. */
  lemma BystanderAccounts(cfg: Config, s: State, t: State, h: nat, m: nat)
    requires Accounted(cfg, s, m) && OnlyMoves(s, t, h)
    requires !s.handlers[h].Holds(m) && (h in t.handlers ==> !t.handlers[h].Holds(m))
    requires m < s.broker.cursor <==> m < t.broker.cursor
    requires m in s.broker.pending <==> m in t.broker.pending
    requires m in s.broker.pending ==> s.broker.pending[m] == t.broker.pending[m]
    requires s.ledger.Of(m) == t.ledger.Of(m) && s.ledger.LostOf(m) == t.ledger.LostOf(m)
    ensures Accounted(cfg, t, m)
  {
    OthersStay(s, t, h, m);
  }

  lemma ReadAccounts(cfg: Config, s: State, h: nat, replied: bool, m: nat)
    requires Conserved(s.broker) && HoldersOk(cfg, s) && Accounted(cfg, s, m) && CanRead(s, h, FirstDelivery)
    ensures Accounted(cfg, StepRead(s, h, replied), m)
  {
    NextNewIsCursor(s.broker);
    OthersStay(s, StepRead(s, h, replied), h, m);
    forall g | g in s.handlers ensures !s.handlers[g].Holds(s.broker.cursor) {
      assert HolderOk(cfg, s.clock, s.broker, s.handlers[g]);
    }
  }

  lemma ClaimAccounts(cfg: Config, s: State, h: nat, replied: bool, m: nat)
    requires HoldersOk(cfg, s) && Accounted(cfg, s, m) && CanRead(s, h, Retry)
    ensures Accounted(cfg, StepClaim(cfg, s, h, replied), m)
  {
    var target := ClaimTarget(s.broker, s.clock, cfg.minIdle);
    TargetIsIdle(s.broker, s.clock, cfg.minIdle);
    if target == Some(m) {
      OthersStay(s, StepClaim(cfg, s, h, replied), h, m);
      forall g | g in s.handlers && s.handlers[g].kind.Retry? ensures !s.handlers[g].Holds(m) {
        ClaimFindsNoRetry(cfg, s.clock, s.broker, s.handlers[g]);
      }
    } else {
      BystanderAccounts(cfg, s, StepClaim(cfg, s, h, replied), h, m);
    }
  }

  lemma FinishAccounts(cfg: Config, s: State, h: nat, ok: bool, m: nat)
    requires OnePerKind(s) && Accounted(cfg, s, m)
    requires h in s.handlers && s.handlers[h].phase.Executing?
    requires HolderOk(cfg, s.clock, s.broker, s.handlers[h])
    ensures Accounted(cfg, StepFinish(cfg, s, h, ok), m)
  {
    var x, t := s.handlers[h], StepFinish(cfg, s, h, ok);
    if x.Holds(m) {
      OthersStay(s, t, h, m);
      OnlyHolder(s, h, m, false);
      OnlyHolder(s, h, m, true);
      assert t.broker == s.broker && t.ledger.LostOf(m) == s.ledger.LostOf(m);
      if x.kind.Retry? {
        assert !Has(t, m, Retry, false) && (Has(t, m, FirstDelivery, false) ==> Has(s, m, FirstDelivery, false));
        assert Has(t, m, Retry, true) <==> ok || Exhausted(cfg, Retry, x.phase.count);
      } else {
        assert !Has(t, m, FirstDelivery, false) && (Has(t, m, Retry, false) ==> Has(s, m, Retry, false));
        assert Has(s, m, Retry, true) ==> Has(t, m, Retry, true);
      }
    } else {
      BystanderAccounts(cfg, s, StepFinish(cfg, s, h, ok), h, m);
    }
  }

  lemma AckAccounts(cfg: Config, s: State, h: nat, applied: bool, replied: bool, m: nat)
    requires OnePerKind(s) && Accounted(cfg, s, m)
    requires h in s.handlers && s.handlers[h].phase.Acking?
    requires HolderOk(cfg, s.clock, s.broker, s.handlers[h])
    ensures Accounted(cfg, StepAck(s, h, applied, replied), m)
  {
    if s.handlers[h].Holds(m) {
      OthersStay(s, StepAck(s, h, applied, replied), h, m);
      OnlyHolder(s, h, m, false);
      OnlyHolder(s, h, m, true);
      forall g | g in s.handlers && IsHolder(s.handlers[g], m, Retry, true) ensures !Has(s, m, Retry, false) {
        OnlyHolder(s, g, m, false);
      }
    } else {
      BystanderAccounts(cfg, s, StepAck(s, h, applied, replied), h, m);
    }
  }

  lemma AbandonAccounts(cfg: Config, s: State, h: nat, m: nat)
    requires OnePerKind(s) && Accounted(cfg, s, m) && h in s.handlers
    ensures Accounted(cfg, StepAbandon(s, h), m)
  {
    if s.handlers[h].Holds(m) {
      OthersStay(s, StepAbandon(s, h), h, m);
    } else {
      BystanderAccounts(cfg, s, StepAbandon(s, h), h, m);
    }
  }

  lemma StepAccounts(cfg: Config, s: State, a: Action, m: nat)
    requires Inv(cfg, s) && Accounted(cfg, s, m)
    ensures Accounted(cfg, Step(cfg, s, a), m)
  {
    match a
    case Read(h, replied) => if CanRead(s, h, FirstDelivery) { ReadAccounts(cfg, s, h, replied, m); }
    case Claim(h, replied) => if CanRead(s, h, Retry) { ClaimAccounts(cfg, s, h, replied, m); }
    case Finish(h, ok) =>
      if h in s.handlers && s.handlers[h].phase.Executing? { FinishAccounts(cfg, s, h, ok, m); }
    case Ack(h, applied, replied) =>
      if h in s.handlers && s.handlers[h].phase.Acking? { AckAccounts(cfg, s, h, applied, replied, m); }
    case Abandon(h) => if h in s.handlers { AbandonAccounts(cfg, s, h, m); }
    case _ => QuietAccounts(cfg, s, a, m);
  }

  lemma {:induction false} RunAccounts(cfg: Config, s: State, acts: seq<Action>, m: nat)
    requires Inv(cfg, s) && Accounted(cfg, s, m)
    ensures Accounted(cfg, Run(cfg, s, acts), m)
    decreases |acts|
  {
    if acts != [] {
      StepKeepsInv(cfg, s, acts[0]);
      StepAccounts(cfg, s, acts[0], m);
      RunAccounts(cfg, Step(cfg, s, acts[0]), acts[1..], m);
    }
  }

  /** In every run, whatever fails and wherever handlers die, with any timeouts. */
  lemma AttemptBound(cfg: Config, acts: seq<Action>, m: nat)
    ensures var l := Run(cfg, INIT, acts).ledger; |l.Of(m)| <= Budget(cfg) + l.LostOf(m)
  {
    RunAccounts(cfg, INIT, acts, m);
  }

  /** One retry that claims the lone message, executes it and fails. */
  lemma FailedRetry(cfg: Config, s: State, count: nat, at: nat)
    requires cfg.minIdle > 0
    requires s.broker == Lone(count, at) && s.clock == at && s.handlers == map[]
    ensures var t := Run(cfg, s, RetryActs(cfg) + [Finish(2, false)]);
            && t.broker == Lone(count + 1, at + cfg.minIdle) && t.clock == at + cfg.minIdle
            && |t.ledger.Of(0)| == |s.ledger.Of(0)| + 1 && t.ledger.LostOf(0) == s.ledger.LostOf(0)
            && (count + 2 < cfg.maxRetry ==> t.handlers == map[])
  {
    RunAppends(cfg, s, RetryActs(cfg), [Finish(2, false)]);
    RetryRun(cfg, s, count, at);
    RunOfOne(cfg, Run(cfg, s, RetryActs(cfg)), Finish(2, false));
  }

  lemma {:induction false} FailedRetries(cfg: Config, s: State, count: nat, at: nat, n: nat) returns (acts: seq<Action>)
    requires cfg.minIdle > 0 && (n <= 1 || count + n < cfg.maxRetry)
    requires s.broker == Lone(count, at) && s.clock == at && s.handlers == map[]
    ensures var t := Run(cfg, s, acts);
            |t.ledger.Of(0)| == |s.ledger.Of(0)| + n && t.ledger.LostOf(0) == s.ledger.LostOf(0)
    decreases n
  {
    if n == 0 {
      acts := [];
    } else {
      var once := RetryActs(cfg) + [Finish(2, false)];
      FailedRetry(cfg, s, count, at);
      if n == 1 {
        acts := once;
      } else {
        var rest := FailedRetries(cfg, Run(cfg, s, once), count + 1, at + cfg.minIdle, n - 1);
        RunAppends(cfg, s, once, rest);
        acts := once + rest;
      }
    }
  }

  /** The bound is exact: some run without a lost ack spends the whole budget on one message. */
  lemma BudgetIsSpent(cfg: Config)
    requires cfg.firstTimeout > 0 && cfg.minIdle > 0
    ensures exists acts :: var l := Run(cfg, INIT, acts).ledger; |l.Of(0)| == Budget(cfg) && l.LostOf(0) == 0
  {
    var head := FirstActs() + [Finish(1, false)];
    RunAppends(cfg, INIT, FirstActs(), [Finish(1, false)]);
    FirstRun(cfg);
    RunOfOne(cfg, Run(cfg, INIT, FirstActs()), Finish(1, false));
    var s := Run(cfg, INIT, head);
    var rest := FailedRetries(cfg, s, 1, 0, Budget(cfg) - 1);
    RunAppends(cfg, INIT, head, rest);
    assert Run(cfg, INIT, head + rest) == Run(cfg, s, rest);
  }

  /** As shipped, in seconds. */
  const ANALYZER := Config(60, 300, 3)
  const MONITOR := Config(60, 60, 3)

  /** With either shipped configuration executions never overlap, and a message is executed at most
    * twice, and once more for every ack that was lost.
    */
  lemma ShippedConfigurations(cfg: Config, acts: seq<Action>, m: nat)
    requires cfg in {ANALYZER, MONITOR}
    ensures Exclusive(Run(cfg, INIT, acts))
    ensures var l := Run(cfg, INIT, acts).ledger; |l.Of(m)| <= 2 + l.LostOf(m)
  {
    RunKeepsOneHolder(cfg, INIT, acts);
    AttemptBound(cfg, acts, m);
  }
}
