/** What a final status says: how the history's one strategy call returned. */
module TaskOutcomes {
  import opened Wrappers
  import opened Lifecycle
  import opened TaskAccounting

  /** The strategy call of history `h` has come back, and this is how. */
  predicate Came(b: Books, h: nat, r: Returned) { h in b.returned && b.returned[h] == r }

  /** A goroutine about to write knows how its strategy returned; before that nothing has. */
  ghost predicate TaskTold(b: Books, k: Task) {
    if k.stage.Writing? then k.hist in b.returned && (k.stage.ok <==> Came(b, k.hist, Succeeded))
    else k.hist !in b.returned
  }

  ghost predicate TasksTold(w: World, h: nat) {
    forall t | t in w.pool.tasks && w.pool.tasks[t].hist == h :: TaskTold(w.books, w.pool.tasks[t])
  }

  ghost predicate StatusTold(b: Books, h: nat)
    requires b.WellFormed()
  {
    h < |b.status| ==>
      && (b.status[h] == Completed ==> Came(b, h, Succeeded))
      && (b.status[h] == Failed ==> !Came(b, h, Succeeded))
      && (Came(b, h, Succeeded) || Came(b, h, Erred) ==> b.ran[h] == 1)
  }

  ghost predicate Told(w: World, h: nat)
    requires w.books.WellFormed()
  {
    && TasksTold(w, h) && StatusTold(w.books, h)
    && (h >= |w.books.status| || Publishing(w, h) || InQueue(w, h) ==> h !in w.books.returned)
  }

  lemma SchedulerKeepsTold(cfg: Config, w: World, a: Action, h: nat)
    requires Shape(w) && Accounted(w, h) && Told(w, h) && BooksOk(Step(cfg, w, a).books) && ByScheduler(a)
    ensures Told(Step(cfg, w, a), h)
  {}

  /** Goroutines that come no further, or end, leave the outcome of `h` alone. */
  lemma PoolKeepsTold(cfg: Config, w: World, a: Action, h: nat)
    requires Shape(w) && Accounted(w, h) && Told(w, h) && BooksOk(Step(cfg, w, a).books)
    requires a.Decode? || a.FindJob? || a.Acquire? || a.Panic? || a.CrashExecutor?
    ensures Told(Step(cfg, w, a), h)
  {}

  lemma StreamKeepsTold(cfg: Config, w: World, a: Action, h: nat)
    requires Shape(w) && Honest(a) && Accounted(w, h) && Told(w, h) && BooksOk(Step(cfg, w, a).books)
    requires a.Enqueue? || a.Take? || a.Remove?
    ensures Told(Step(cfg, w, a), h)
  {
    match a
    case Enqueue(_, _) =>
      if w.scheduler.stage.Created? { AppendKeeps(cfg.maxLen, w.stream, w.scheduler.stage.hist); }
    case Take(_, _, _) => HeadIsFirst(w.stream.entries, w.stream.cursor);
    case Remove(e) => WithoutKeeps(w.stream.entries, e);
  }

  lemma ExecuteKeepsTold(w: World, t: nat, known: bool, ok: bool, h: nat)
    requires Shape(w) && Accounted(w, h) && Told(w, h)
    ensures StepExecute(w, t, known, ok).books.WellFormed() && Told(StepExecute(w, t, known, ok), h)
  {
    if t in w.pool.tasks && w.pool.tasks[t].hist == h {
      assert InFlight(w.pool, h);
    }
  }

  lemma WriteKeepsTold(w: World, t: nat, applied: bool, h: nat)
    requires Shape(w) && Accounted(w, h) && Told(w, h)
    ensures StepWrite(w, t, applied).books.WellFormed() && Told(StepWrite(w, t, applied), h)
  {
    if t in w.pool.tasks && w.pool.tasks[t].hist == h {
      assert InFlight(w.pool, h);
    }
  }

  lemma StepKeepsTold(cfg: Config, w: World, a: Action, h: nat)
    requires Shape(w) && Honest(a) && Accounted(w, h) && Told(w, h)
    ensures Shape(Step(cfg, w, a)) && Accounted(Step(cfg, w, a), h) && Told(Step(cfg, w, a), h)
  {
    StepKeepsAccount(cfg, w, a, h);
    match a
    case Execute(t, known, ok) => ExecuteKeepsTold(w, t, known, ok, h);
    case Write(t, applied) => WriteKeepsTold(w, t, applied, h);
    case Enqueue(_, _) => StreamKeepsTold(cfg, w, a, h);
    case Take(_, _, _) => StreamKeepsTold(cfg, w, a, h);
    case Remove(_) => StreamKeepsTold(cfg, w, a, h);
    case _ => if ByScheduler(a) { SchedulerKeepsTold(cfg, w, a, h); } else { PoolKeepsTold(cfg, w, a, h); }
  }

  lemma {:induction false} RunKeepsTold(cfg: Config, w: World, acts: seq<Action>, h: nat)
    requires Shape(w) && AllHonest(acts) && Accounted(w, h) && Told(w, h)
    ensures Shape(Run(cfg, w, acts)) && Told(Run(cfg, w, acts), h)
    decreases |acts|
  {
    if acts != [] {
      StepKeepsTold(cfg, w, acts[0], h);
      RunKeepsTold(cfg, Step(cfg, w, acts[0]), acts[1..], h);
    }
  }

  /** In every run a final history is completed exactly if its one strategy call returned no error, and
    * failed if it returned one, found no strategy, or was never made.
    */
  lemma StatusIsOutcome(cfg: Config, rows: seq<Schedule>, acts: seq<Action>, h: nat)
    requires AllHonest(acts) && h < |Run(cfg, Init(rows), acts).books.status|
    ensures var b := Run(cfg, Init(rows), acts).books;
            && b.WellFormed()
            && (b.status[h] == Completed <==> b.status[h] != Running && Came(b, h, Succeeded))
            && (b.status[h] == Failed <==> b.status[h] != Running && !Came(b, h, Succeeded))
            && (Came(b, h, Succeeded) || Came(b, h, Erred) ==> b.ran[h] == 1)
  {
    RunKeepsTold(cfg, Init(rows), acts, h);
  }
}
