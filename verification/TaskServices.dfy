/** The scheduler service and the executor service as the code writes them, with anything
  * the other side does happening between any two calls.
  */
module TaskServices {
  import opened Wrappers
  import opened Lifecycle
  import opened TaskAccounting

  datatype PublishOracle = PublishOracle(
    createApplied: bool, createReplied: bool, marshals: bool, enqueued: bool, recorded: bool, saved: bool,
    gaps: seq<seq<Action>>)
  {
    function Gap(i: nat): seq<Action> { if i < |gaps| then gaps[i] else [] }
  }

  datatype TaskOracle = TaskOracle(
    replied: bool, decodes: bool, jobFound: bool, removed: bool,
    panics: bool, known: bool, succeeds: bool, written: bool,
    gaps: seq<seq<Action>>)
  {
    function Gap(i: nat): seq<Action> { if i < |gaps| then gaps[i] else [] }
  }

  predicate ByExecutor(a: Action) {
    a.Advance? || a.Take? || a.Decode? || a.FindJob? || a.Remove? || a.Acquire? || a.Execute? || a.Panic?
    || a.Write? || a.CrashExecutor?
  }

  lemma ExecutorsLeaveScheduler(cfg: Config, w: World, a: Action)
    requires ByExecutor(a)
    ensures Step(cfg, w, a).scheduler == w.scheduler && w.clock <= Step(cfg, w, a).clock
    ensures |Step(cfg, w, a).books.status| == |w.books.status|
  {
  }

  /** Neither a step of task `t` nor the death of its process. */
  predicate Spares(w: World, a: Action, t: nat)
    requires t in w.pool.tasks
  {
    match a
    case Take(u, _, _) => u != t
    case Decode(u) => u != t
    case FindJob(u, _) => u != t
    case Acquire(u) => u != t
    case Execute(u, _, _) => u != t
    case Panic(u) => u != t
    case Write(u, _) => u != t
    case CrashExecutor(p) => p != w.pool.tasks[t].process
    case _ => Honest(a)
  }

  /** The row of the history that task `t` works on. */
  datatype Row = Row(status: Status, ran: nat, writes: nat, dropped: Option<Reason>, returned: Option<Returned>)

  function RowOf(b: Books, h: nat): Row
    requires b.WellFormed() && h < |b.status|
  {
    Row(b.status[h], b.ran[h], b.writes[h], if h in b.dropped then Some(b.dropped[h]) else None,
        if h in b.returned then Some(b.returned[h]) else None)
  }

  predicate HasRow(b: Books, h: nat) { b.WellFormed() && h < |b.status| }

  predicate SameRow(b: Books, c: Books, h: nat) { HasRow(b, h) && HasRow(c, h) && RowOf(b, h) == RowOf(c, h) }

  /** What one execution leaves in the history's row. */
  function AfterRun(r: Row, o: TaskOracle): Row {
    if o.panics then r.(ran := r.ran + 1, dropped := Some(Panicked))
    else AfterWrite(AfterExecute(r, o.known, o.succeeds), o.known && o.succeeds, o.written)
  }

  function AfterExecute(r: Row, known: bool, ok: bool): Row {
    r.(ran := r.ran + Bit(known), returned := Some(if !known then NoStrategy else if ok then Succeeded else Erred))
  }

  function AfterWrite(r: Row, ok: bool, written: bool): Row {
    if !written then r.(dropped := Some(WriteFailed))
    else r.(status := if ok then Completed else Failed, writes := r.writes + 1)
  }

  predicate RanTo(b: Books, c: Books, h: nat, o: TaskOracle) {
    HasRow(b, h) && HasRow(c, h) && RowOf(c, h) == AfterRun(RowOf(b, h), o)
  }

  lemma PanicRow(w: World, t: nat)
    requires t in w.pool.tasks && w.pool.tasks[t].stage.Holding? && HasRow(w.books, w.pool.tasks[t].hist)
    ensures var h, b := w.pool.tasks[t].hist, StepPanic(w, t).books;
            HasRow(b, h) && RowOf(b, h) == RowOf(w.books, h).(ran := w.books.ran[h] + 1, dropped := Some(Panicked))
    ensures t !in StepPanic(w, t).pool.tasks
  {
  }

  lemma ExecuteRow(w: World, t: nat, known: bool, ok: bool)
    requires t in w.pool.tasks && w.pool.tasks[t].stage.Holding? && HasRow(w.books, w.pool.tasks[t].hist)
    ensures var h, b := w.pool.tasks[t].hist, StepExecute(w, t, known, ok).books;
            HasRow(b, h) && RowOf(b, h) == AfterExecute(RowOf(w.books, h), known, ok)
    ensures StepExecute(w, t, known, ok).pool == SetTask(w.pool, t, Writing(known && ok))
  {
  }

  lemma WriteRow(w: World, t: nat, applied: bool)
    requires t in w.pool.tasks && w.pool.tasks[t].stage.Writing? && HasRow(w.books, w.pool.tasks[t].hist)
    ensures var h, b := w.pool.tasks[t].hist, StepWrite(w, t, applied).books;
            HasRow(b, h) && RowOf(b, h) == AfterWrite(RowOf(w.books, h), w.pool.tasks[t].stage.ok, applied)
    ensures t !in StepWrite(w, t, applied).pool.tasks
  {
  }

  lemma OthersLeaveTask(cfg: Config, w: World, a: Action, t: nat)
    requires Shape(w) && t in w.pool.tasks && Spares(w, a, t)
    ensures t in Step(cfg, w, a).pool.tasks && Step(cfg, w, a).pool.tasks[t] == w.pool.tasks[t]
  {
  }

  lemma OthersLeaveRow(cfg: Config, w: World, a: Action, t: nat)
    requires Shape(w) && t in w.pool.tasks && Spares(w, a, t)
    requires BooksOk(Step(cfg, w, a).books)
    ensures SameRow(w.books, Step(cfg, w, a).books, w.pool.tasks[t].hist)
  {
    match a
    case Enqueue(_, _) =>
      if w.scheduler.stage.Created? { AppendKeeps(cfg.maxLen, w.stream, w.scheduler.stage.hist); }
    case Take(_, _, _) => HeadIsFirst(w.stream.entries, w.stream.cursor);
    case _ =>
  }

  lemma ReachableShape(cfg: Config, rows: seq<Schedule>, trace: seq<Action>)
    requires AllHonest(trace)
    ensures Shape(Run(cfg, Init(rows), trace))
  {
    RunKeepsAccount(cfg, Init(rows), trace, 0);
  }

  datatype Published = NotCreated | NotMarshalled | NotEnqueued | Enqueued(saved: bool)

  /** How one publish has to end. */
  function Outcome(o: PublishOracle, parsable: bool): Published {
    if !(o.createApplied && o.createReplied) then NotCreated
    else if !o.marshals then NotMarshalled
    else if !o.enqueued then NotEnqueued
    else Enqueued(o.saved && parsable)
  }

  /** The scheduler's tables after one publish of `sid` at `now` ended as `r`. */
  function AfterPublish(
    cfg: Config, s: Scheduler, todo: seq<nat>, sid: nat, now: nat, hist: nat, r: Published): Scheduler
    requires sid < |s.rows| == |s.pubs|
  {
    Scheduler(Batch(todo),
      if r == Enqueued(true) then s.rows[sid := s.rows[sid].(next := Some(cfg.cron(sid, now)))] else s.rows,
      if r.Enqueued? then s.pubs[sid := s.pubs[sid] + [Pub(hist, now, r.saved)]] else s.pubs)
  }

  /** The history is created, marshalled and enqueued or the publish ends there; only an accepted one is
    * entered, under its history and time; and only if its row was saved, which takes a cron expression
    * that parses, does the row move, to the next instant.  No other schedule is touched.
    */
  lemma PublishSpelledOut(
    cfg: Config, s: Scheduler, todo: seq<nat>, sid: nat, now: nat, hist: nat, o: PublishOracle)
    requires sid < |s.rows| == |s.pubs|
    ensures var r := Outcome(o, s.rows[sid].parsable);
            var t := AfterPublish(cfg, s, todo, sid, now, hist, r);
            var enqueued := o.createApplied && o.createReplied && o.marshals && o.enqueued;
            var moved := enqueued && o.saved && s.rows[sid].parsable;
            && (r.NotCreated? <==> !o.createApplied || !o.createReplied)
            && (r.NotMarshalled? <==> o.createApplied && o.createReplied && !o.marshals)
            && (r.NotEnqueued? <==> o.createApplied && o.createReplied && o.marshals && !o.enqueued)
            && t.pubs[sid] == s.pubs[sid] + (if enqueued then [Pub(hist, now, moved)] else [])
            && t.rows[sid] == (if moved then s.rows[sid].(next := Some(cfg.cron(sid, now))) else s.rows[sid])
            && |t.rows| == |t.pubs| == |s.rows|
            && (forall k | 0 <= k < |s.rows| && k != sid :: t.rows[k] == s.rows[k] && t.pubs[k] == s.pubs[k])
  {
    if o.createApplied && o.createReplied && o.marshals && o.enqueued {
      var q := s.pubs[sid] + [Pub(hist, now, o.saved && s.rows[sid].parsable)];
      assert s.pubs[sid := q][sid] == q;
    }
  }

  lemma SaveEnds(
    cfg: Config, s: Scheduler, todo: seq<nat>, sid: nat, now: nat, hist: nat, w: World, applied: bool)
    requires sid < |s.rows| == |s.pubs|
    requires w.scheduler
          == Scheduler(Queued(todo, sid, now), s.rows, s.pubs[sid := s.pubs[sid] + [Pub(hist, now, false)]])
    ensures StepSave(cfg, w, applied).scheduler
         == AfterPublish(cfg, s, todo, sid, now, hist, Enqueued(applied && s.rows[sid].parsable))
  {
    var q := s.pubs[sid] + [Pub(hist, now, false)];
    assert q[|s.pubs[sid]| := q[|s.pubs[sid]|].(saved := true)] == s.pubs[sid] + [Pub(hist, now, true)];
    var pubs := w.scheduler.pubs;
    assert pubs[sid := s.pubs[sid] + [Pub(hist, now, true)]] == s.pubs[sid := s.pubs[sid] + [Pub(hist, now, true)]];
  }

  /** A refused history is marked failed, or abandoned if even that fails. */
  predicate RefusalRecorded(b: Books, h: nat, recorded: bool) {
    h < |b.status| && if recorded then b.status[h] == Failed else h in b.dropped && b.dropped[h] == Abandoned
  }

  ghost predicate Round(s: Scheduler, t: Scheduler, order: seq<nat>, outcomes: seq<PublishOracle>) {
    && |order| == |outcomes| && |s.rows| == |s.pubs| == |t.rows| == |t.pubs|
    && (forall k | 0 <= k < |s.rows| && k !in order :: t.rows[k] == s.rows[k] && t.pubs[k] == s.pubs[k])
    && (forall i | 0 <= i < |order| :: order[i] < |s.rows| && FiredOnce(s, t, order[i], outcomes[i]))
  }

  /** An accepted publish adds one entry, anything else adds none; the row moves only with a saved one. */
  ghost predicate FiredOnce(s: Scheduler, t: Scheduler, k: nat, o: PublishOracle)
    requires k < |s.rows| == |s.pubs| == |t.rows| == |t.pubs|
  {
    var r := Outcome(o, s.rows[k].parsable);
    && (r.Enqueued? ==>
          |t.pubs[k]| == |s.pubs[k]| + 1 && s.pubs[k] < t.pubs[k] && t.pubs[k][|s.pubs[k]|].saved == r.saved)
    && (!r.Enqueued? ==> t.pubs[k] == s.pubs[k])
    && (r != Enqueued(true) ==> t.rows[k] == s.rows[k])
  }

  lemma RoundGrows(s0: Scheduler, s: Scheduler, t: Scheduler, order: seq<nat>, outcomes: seq<PublishOracle>, i: nat)
    requires Distinct(order) && i < |order| == |outcomes| && order[i] < |s0.rows|
    requires Round(s0, s, order[..i], outcomes[..i])
    requires |t.rows| == |t.pubs| == |s.rows| && FiredOnce(s, t, order[i], outcomes[i])
    requires forall k | 0 <= k < |s.rows| && k != order[i] :: t.rows[k] == s.rows[k] && t.pubs[k] == s.pubs[k]
    ensures Round(s0, t, order[..i + 1], outcomes[..i + 1])
  {
    assert order[..i + 1] == order[..i] + [order[i]];
    assert order[i] !in order[..i];
    forall j | 0 <= j < i ensures FiredOnce(s0, t, order[j], outcomes[j]) {
      assert order[..i][j] == order[j] && outcomes[..i][j] == outcomes[j];
      assert FiredOnce(s0, s, order[..i][j], outcomes[..i][j]);
    }
  }

  class System {
    const cfg: Config
    const rows: seq<Schedule>
    var w: World
    ghost var trace: seq<Action>

    ghost predicate Valid()
      reads this
    {
      w == Run(cfg, Init(rows), trace) && AllHonest(trace)
    }

    constructor (cfg: Config, rows: seq<Schedule>)
      ensures Valid() && this.cfg == cfg && this.rows == rows && w == Init(rows)
    {
      this.cfg := cfg;
      this.rows := rows;
      w := Init(rows);
      trace := [];
    }

    method Do(a: Action)
      requires Valid() && Honest(a)
      modifies this
      ensures Valid() && w == Step(cfg, old(w), a) && trace == old(trace) + [a]
    {
      RunAppends(cfg, Init(rows), trace, [a]);
      RunOfOne(cfg, w, a);
      w := Step(cfg, w, a);
      trace := trace + [a];
    }

    // ----- schedulerService -----

    /** Executors act and time passes while the scheduler waits for a call. */
    method Executors(acts: seq<Action>)
      requires Valid()
      modifies this
      ensures Valid() && w.scheduler == old(w).scheduler && old(w).clock <= w.clock
      ensures |w.books.status| == |old(w).books.status|
    {
      for i := 0 to |acts|
        invariant Valid() && w.scheduler == old(w).scheduler && old(w).clock <= w.clock
        invariant |w.books.status| == |old(w).books.status|
      {
        if ByExecutor(acts[i]) {
          ExecutorsLeaveScheduler(cfg, w, acts[i]);
          Do(acts[i]);
        }
      }
    }

    method SchedulerDoes(gap: seq<Action>, a: Action) returns (ghost mid: World)
      requires Valid() && Honest(a)
      modifies this
      ensures Valid() && w == Step(cfg, mid, a) && mid.scheduler == old(w).scheduler && old(w).clock <= mid.clock
      ensures |mid.books.status| == |old(w).books.status|
      ensures exists before :: AllHonest(before) && mid == Run(cfg, Init(rows), before)
    {
      Executors(gap);
      mid := w;
      ghost var before := trace;
      assert AllHonest(before) && mid == Run(cfg, Init(rows), before);
      Do(a);
    }

    method PublishTask(o: PublishOracle) returns (r: Published)
      requires Valid() && w.scheduler.stage.Batch? && w.scheduler.stage.todo != []
      requires w.scheduler.stage.todo[0] < |w.scheduler.rows| == |w.scheduler.pubs|
      modifies this
      ensures Valid()
      ensures var s, todo := old(w).scheduler, old(w).scheduler.stage.todo;
              && r == Outcome(o, s.rows[todo[0]].parsable)
              && w.scheduler == AfterPublish(cfg, s, todo[1..], todo[0], old(w).clock, |old(w).books.status|, r)
      ensures |w.books.status| == |old(w).books.status| + Bit(o.createApplied)
      ensures r.NotEnqueued? ==> RefusalRecorded(w.books, |old(w).books.status|, o.recorded)
    {
      var s := w.scheduler;
      Do(Next);
      ghost var mid := SchedulerDoes(o.Gap(0), Create(o.createApplied, o.createReplied));
      if !(o.createApplied && o.createReplied) {
        return NotCreated;
      }
      if !o.marshals {
        mid := SchedulerDoes(o.Gap(1), Marshal);
        return NotMarshalled;
      }
      mid := SchedulerDoes(o.Gap(1), Enqueue(o.enqueued, o.enqueued));
      if !o.enqueued {
        RefuseTask(o);
        return NotEnqueued;
      }
      var sid := w.scheduler.stage.sid;
      mid := SchedulerDoes(o.Gap(2), Save(o.saved));
      SaveEnds(cfg, s, s.stage.todo[1..], sid, old(w).clock, |old(w).books.status|, mid, o.saved);
      return Enqueued(o.saved && s.rows[sid].parsable);
    }

    /** After a refused XADD the history is marked failed. */
    method RefuseTask(o: PublishOracle)
      requires Valid() && w.scheduler.stage.Refused?
      modifies this
      ensures Valid() && w.scheduler == old(w).scheduler.(stage := Batch(old(w).scheduler.stage.todo))
      ensures |w.books.status| == |old(w).books.status|
      ensures RefusalRecorded(w.books, old(w).scheduler.stage.hist, o.recorded)
    {
      ghost var mid := SchedulerDoes(o.Gap(2), RecordFailure(o.recorded));
      ghost var before :| AllHonest(before) && mid == Run(cfg, Init(rows), before);
      ReachableShape(cfg, rows, before);
    }

    /** One round: what is due is published, each schedule at most once, and nothing else is touched. */
    method ProcessJobs(order: seq<nat>, outcomes: seq<PublishOracle>)
      requires Valid() && w.scheduler.stage.Polling?
      requires IsDueList(w.scheduler.rows, w.clock, order) && |outcomes| == |order|
      requires |w.scheduler.rows| == |w.scheduler.pubs|
      modifies this
      ensures Valid() && w.scheduler.stage.Polling?
      ensures Round(old(w).scheduler, w.scheduler, order, outcomes)
    {
      Do(Poll(order));
      assert order == order[0..];
      for i := 0 to |order|
        invariant Valid() && w.scheduler.stage == Batch(order[i..])
        invariant Round(old(w).scheduler, w.scheduler, order[..i], outcomes[..i])
      {
        ghost var s := w.scheduler;
        var r := PublishTask(outcomes[i]);
        RoundGrows(old(w).scheduler, s, w.scheduler, order, outcomes, i);
        assert order[i..][1..] == order[i + 1..];
      }
      assert order[..|order|] == order && outcomes[..|order|] == outcomes;
      Do(Next);
    }

    // ----- executorService -----

    /** Everything else goes on while task `t` waits for a call. */
    method Elsewhere(t: nat, acts: seq<Action>)
      requires Valid() && t in w.pool.tasks
      modifies this
      ensures Valid() && Shape(w) && t in w.pool.tasks && w.pool.tasks[t] == old(w).pool.tasks[t]
      ensures SameRow(old(w).books, w.books, w.pool.tasks[t].hist)
    {
      ReachableShape(cfg, rows, trace);
      for i := 0 to |acts|
        invariant Valid() && Shape(w) && t in w.pool.tasks && w.pool.tasks[t] == old(w).pool.tasks[t]
        invariant SameRow(old(w).books, w.books, w.pool.tasks[t].hist)
      {
        if Spares(w, acts[i], t) && Honest(acts[i]) {
          StepKeepsShape(cfg, w, acts[i]);
          OthersLeaveTask(cfg, w, acts[i], t);
          OthersLeaveRow(cfg, w, acts[i], t);
          Do(acts[i]);
        }
      }
    }

    /** Run the strategy and write the outcome; a panic unwinds through the deferred release. */
    method ExecuteAndUpdate(t: nat, o: TaskOracle)
      requires Valid() && t in w.pool.tasks && w.pool.tasks[t].stage.Holding?
      modifies this
      ensures Valid() && t !in w.pool.tasks
      ensures RanTo(old(w).books, w.books, old(w).pool.tasks[t].hist, o)
      ensures var b, c, h := old(w).books, w.books, old(w).pool.tasks[t].hist;
              && h < |b.status| == |b.ran| == |b.writes| && h < |c.status| == |c.ran| == |c.writes|
              && c.status[h] == (if o.panics || !o.written then b.status[h]
                                 else if o.known && o.succeeds then Completed else Failed)
              && c.ran[h] == b.ran[h] + (if o.panics || o.known then 1 else 0)
              && c.writes[h] == b.writes[h] + (if o.panics || !o.written then 0 else 1)
              && (o.panics ==> h in c.dropped && c.dropped[h] == Panicked)
              && (!o.panics && !o.written ==> h in c.dropped && c.dropped[h] == WriteFailed)
    {
      Elsewhere(t, o.Gap(3));
      if o.panics {
        PanicRow(w, t);
        Do(Panic(t));
        return;
      }
      ExecuteRow(w, t, o.known, o.succeeds);
      Do(Execute(t, o.known, o.succeeds));
      UpdateHistory(t, o);
    }

    method UpdateHistory(t: nat, o: TaskOracle)
      requires Valid() && t in w.pool.tasks && w.pool.tasks[t].stage.Writing?
      modifies this
      ensures Valid() && t !in w.pool.tasks
      ensures var v, h := old(w), old(w).pool.tasks[t].hist;
              HasRow(v.books, h) && HasRow(w.books, h)
              && RowOf(w.books, h) == AfterWrite(RowOf(v.books, h), v.pool.tasks[t].stage.ok, o.written)
              && w.books.status[h] == (if !o.written then v.books.status[h]
                                       else if v.pool.tasks[t].stage.ok then Completed else Failed)
              && w.books.writes[h] == v.books.writes[h] + (if o.written then 1 else 0)
              && (!o.written ==> h in w.books.dropped && w.books.dropped[h] == WriteFailed)
    {
      Elsewhere(t, o.Gap(4));
      WriteRow(w, t, o.written);
      Do(Write(t, o.written));
    }

    /** The goroutine: wait for a permit while others run, then execute. */
    method Goroutine(t: nat, waits: seq<seq<Action>>, o: TaskOracle) returns (ran: bool)
      requires Valid() && t in w.pool.tasks && w.pool.tasks[t].stage.Waiting?
      modifies this
      ensures Valid()
      ensures ran ==> t !in w.pool.tasks && RanTo(old(w).books, w.books, old(w).pool.tasks[t].hist, o)
      ensures !ran ==> t in w.pool.tasks && w.pool.tasks[t] == old(w).pool.tasks[t]
    {
      Elsewhere(t, []);
      for i := 0 to |waits|
        invariant Valid() && t in w.pool.tasks && w.pool.tasks[t] == old(w).pool.tasks[t]
        invariant SameRow(old(w).books, w.books, w.pool.tasks[t].hist)
      {
        Elsewhere(t, waits[i]);
        Do(Acquire(t));
        if w.pool.tasks[t].stage.Holding? {
          ExecuteAndUpdate(t, o);
          return true;
        }
      }
      return false;
    }

    /** Unmarshal the payload and find the job; either failure ends the task. */
    method Lookup(t: nat, o: TaskOracle)
      requires Valid() && t in w.pool.tasks && w.pool.tasks[t].stage.Taken?
      modifies this
      ensures Valid()
      ensures t in w.pool.tasks <==> o.decodes && o.jobFound
      ensures t in w.pool.tasks ==> w.pool.tasks[t] == old(w).pool.tasks[t].(stage := Waiting)
      ensures t !in w.pool.tasks ==>
                var h := old(w).pool.tasks[t].hist;
                h in w.books.dropped && w.books.dropped[h] == if o.decodes then JobNotFound else Undecodable
      ensures old(w).pool.tasks[t].hist < w.stream.cursor
    {
      ReachableShape(cfg, rows, trace);
      if !o.decodes {
        Do(Decode(t));
      } else {
        Elsewhere(t, o.Gap(0));
        Do(FindJob(t, o.jobFound));
      }
    }

    /** Dequeue one entry and hand it to a goroutine; the entry is acked and deleted either way. */
    method ProcessTask(t: nat, process: nat, o: TaskOracle) returns (spawned: bool)
      requires Valid() && t !in w.pool.tasks
      modifies this
      ensures Valid()
      ensures spawned <==>
                Head(old(w).stream.entries, old(w).stream.cursor).Some? && o.replied && o.decodes && o.jobFound
      ensures spawned <==> t in w.pool.tasks
      ensures spawned ==>
                w.pool.tasks[t] == Task(process, Head(old(w).stream.entries, old(w).stream.cursor).value, Waiting)
      ensures var head := Head(old(w).stream.entries, old(w).stream.cursor);
              && (head.Some? && o.replied && o.removed ==> head.value !in w.stream.entries)
              && (head.Some? && !spawned ==> head.value in w.books.dropped)
    {
      Do(Take(t, process, o.replied));
      if t !in w.pool.tasks {
        return false;
      }
      var h := w.pool.tasks[t].hist;
      Lookup(t, o);
      if o.removed {
        ReachableShape(cfg, rows, trace);
        WithoutKeeps(w.stream.entries, h);
        Do(Remove(h));
      }
      return t in w.pool.tasks;
    }
  }
}
