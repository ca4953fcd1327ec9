/** From a due schedule to a finished run: the scheduler, its stream, and the executors.
 *
 * One scheduler polls, creates a history row, enqueues it on a stream capped by MAXLEN and
 * then advances the schedule.  Any number of executor processes take entries, run them in
 * goroutines under a semaphore and write the final status.  Every external call can fail,
 * and any goroutine or process can die between two steps.
 *
 * A history is enqueued at most once, so its number also names its stream entry.
 */
module Lifecycle {
  import opened Wrappers

  /** `maxLen` zero leaves the stream uncapped; `cron(sid, t)` is the first instant after `t`. */
  datatype Config = Config(maxLen: nat, permits: nat, cron: (nat, nat) -> nat)

  datatype Status = Running | Completed | Failed

  datatype Schedule = Schedule(active: bool, parsable: bool, next: Option<nat>)

  /** One accepted XADD: its history, the time it was published for, and whether the row was then saved. */
  datatype Pub = Pub(hist: nat, at: nat, saved: bool)

  /** What the scheduler is doing; `todo` are the due schedules it has still to publish. */
  datatype Stage =
    | Polling
    | Batch(todo: seq<nat>)
    | Starting(todo: seq<nat>, sid: nat, now: nat)
    | Created(todo: seq<nat>, sid: nat, now: nat, hist: nat)
    | Refused(todo: seq<nat>, hist: nat)
    | Queued(todo: seq<nat>, sid: nat, now: nat)

  datatype Scheduler = Scheduler(stage: Stage, rows: seq<Schedule>, pubs: seq<seq<Pub>>)

  /** Entries in the stream, oldest first; those from `cursor` on are undelivered. */
  datatype Stream = Stream(entries: seq<nat>, cursor: nat)

  datatype TaskStage = Taken | Waiting | Holding | Writing(ok: bool)

  datatype Task = Task(process: nat, hist: nat, stage: TaskStage) {
    predicate HasPermit() { stage.Holding? || stage.Writing? }
  }

  /** The goroutines of all processes, and how many slots of each semaphore are taken. */
  datatype Pool = Pool(tasks: map<nat, Task>, used: map<nat, nat>) {
    function UsedBy(p: nat): nat { if p in used then used[p] else 0 }
  }

  /** Why a history stays `running` for good. */
  datatype Reason = Abandoned | Trimmed | ReplyLost | Undecodable | JobNotFound | Panicked | WriteFailed | Crashed

  /** How a strategy call came back; without a strategy for the job's type there is none. */
  datatype Returned = NoStrategy | Erred | Succeeded

  /** The history table, with how often each was run, how often its status was written, and how its
    * strategy returned.
    */
  datatype Books = Books(
    status: seq<Status>, ran: seq<nat>, writes: seq<nat>, dropped: map<nat, Reason>, returned: map<nat, Returned>)
  {
    predicate WellFormed() { |status| == |ran| == |writes| }

    function Drop(h: nat, r: Reason): Books { this.(dropped := dropped[h := r]) }

    function Write(h: nat, s: Status): Books
      requires WellFormed() && h < |status|
    {
      this.(status := status[h := s], writes := writes[h := writes[h] + 1])
    }
  }

  datatype World = World(clock: nat, scheduler: Scheduler, stream: Stream, pool: Pool, books: Books)

  datatype Action =
    | Advance(d: nat)
    // scheduler
    | Poll(order: seq<nat>)
    | Next
    | Create(applied: bool, replied: bool)
    | Marshal                                // fails; success is silent
    | Enqueue(applied: bool, replied: bool)
    | RecordFailure(applied: bool)
    | Save(applied: bool)
    | CrashScheduler
    // executors
    | Take(t: nat, process: nat, replied: bool)
    | Decode(t: nat)                         // fails; success is silent
    | FindJob(t: nat, found: bool)
    | Remove(hist: nat)
    | Acquire(t: nat)
    | Execute(t: nat, known: bool, ok: bool)
    | Panic(t: nat)
    | Write(t: nat, applied: bool)
    | CrashExecutor(process: nat)

  function Init(rows: seq<Schedule>): World {
    var pubs := seq(|rows|, i => []);
    World(0, Scheduler(Polling, rows, pubs), Stream([], 0), Pool(map[], map[]), Books([], [], [], map[], map[]))
  }

  // ----- The scheduler's steps -----

  predicate Due(r: Schedule, now: nat) { r.active && (r.next.None? || r.next.value <= now) }

  /** FindJobsToSchedule returns each active schedule that is due, once, in some order. */
  predicate IsDueList(rows: seq<Schedule>, now: nat, order: seq<nat>) {
    && Distinct(order)
    && (forall i | 0 <= i < |order| :: order[i] < |rows| && Due(rows[order[i]], now))
    && (forall k | 0 <= k < |rows| && Due(rows[k], now) :: k in order)
  }

  function SetStage(w: World, g: Stage): World { w.(scheduler := w.scheduler.(stage := g)) }

  function StepPoll(w: World, order: seq<nat>): World {
    if w.scheduler.stage.Polling? && IsDueList(w.scheduler.rows, w.clock, order) then SetStage(w, Batch(order)) else w
  }

  function StepNext(w: World): World {
    var g := w.scheduler.stage;
    if !g.Batch? then w
    else if g.todo == [] then SetStage(w, Polling)
    else SetStage(w, Starting(g.todo[1..], g.todo[0], w.clock))
  }

  function StepCreate(w: World, applied: bool, replied: bool): World {
    var g, b := w.scheduler.stage, w.books;
    if !g.Starting? then w
    else
      var h := |b.status|;
      var c := if applied then b.(status := b.status + [Running], ran := b.ran + [0], writes := b.writes + [0]) else b;
      if applied && replied then SetStage(w.(books := c), Created(g.todo, g.sid, g.now, h))
      else SetStage(w.(books := if applied then c.Drop(h, Abandoned) else c), Batch(g.todo))
  }

  function StepMarshal(w: World): World {
    var g := w.scheduler.stage;
    if !g.Created? then w
    else SetStage(w.(books := w.books.Drop(g.hist, Abandoned)), Batch(g.todo))
  }

  /** How many of the oldest entries a stream capped at `maxLen` loses. */
  function Excess(maxLen: nat, n: nat): nat { if maxLen == 0 || n <= maxLen then 0 else n - maxLen }

  /** XADD with MAXLEN appends and then keeps the newest `maxLen` entries. */
  function Append(maxLen: nat, entries: seq<nat>, h: nat): seq<nat> {
    (entries + [h])[Excess(maxLen, |entries| + 1)..]
  }

  function Cut(maxLen: nat, q: Stream, h: nat): set<nat> {
    var all := q.entries + [h];
    var lost := all[..Excess(maxLen, |all|)];
    set e | e in lost && e >= q.cursor
  }

  function DropAll(b: Books, hs: set<nat>, r: Reason): Books {
    b.(dropped := b.dropped + map h | h in hs :: r)
  }

  function StepEnqueue(cfg: Config, w: World, applied: bool, replied: bool): World {
    var g := w.scheduler.stage;
    if !g.Created? || g.sid >= |w.scheduler.pubs| then w
    else
      var k := if applied && replied then Queued(g.todo, g.sid, g.now) else Refused(g.todo, g.hist);
      if !applied then SetStage(w, k)
      else
        var pubs := w.scheduler.pubs;
        w.(scheduler := w.scheduler.(stage := k, pubs := pubs[g.sid := pubs[g.sid] + [Pub(g.hist, g.now, false)]]),
           stream := w.stream.(entries := Append(cfg.maxLen, w.stream.entries, g.hist)),
           books := DropAll(w.books, Cut(cfg.maxLen, w.stream, g.hist), Trimmed))
  }

  function StepRecordFailure(w: World, applied: bool): World {
    var g := w.scheduler.stage;
    if !g.Refused? || !w.books.WellFormed() || g.hist >= |w.books.status| then w
    else
      SetStage(w.(books := if applied then w.books.Write(g.hist, Failed) else w.books.Drop(g.hist, Abandoned)),
               Batch(g.todo))
  }

  function StepSave(cfg: Config, w: World, applied: bool): World {
    var g, s := w.scheduler.stage, w.scheduler;
    if !g.Queued? || g.sid >= |s.rows| || g.sid >= |s.pubs| || s.pubs[g.sid] == [] then w
    else if !applied || !s.rows[g.sid].parsable then SetStage(w, Batch(g.todo))
    else
      var last := |s.pubs[g.sid]| - 1;
      w.(scheduler := Scheduler(Batch(g.todo),
           s.rows[g.sid := s.rows[g.sid].(next := Some(cfg.cron(g.sid, g.now)))],
           s.pubs[g.sid := s.pubs[g.sid][last := s.pubs[g.sid][last].(saved := true)]]))
  }

  function StepCrashScheduler(w: World): World {
    var g := w.scheduler.stage;
    SetStage(if g.Created? || g.Refused? then w.(books := w.books.Drop(g.hist, Abandoned)) else w, Polling)
  }

  // ----- The executors' steps -----

  /** The oldest undelivered entry. */
  function Head(entries: seq<nat>, cursor: nat): Option<nat> {
    if entries == [] then None
    else if entries[0] >= cursor then Some(entries[0])
    else Head(entries[1..], cursor)
  }

  function SetTask(p: Pool, t: nat, g: TaskStage): Pool
    requires t in p.tasks
  {
    p.(tasks := p.tasks[t := p.tasks[t].(stage := g)])
  }

  function EndTask(p: Pool, t: nat): Pool { p.(tasks := p.tasks - {t}) }

  /** A goroutine that held a permit ends, and its deferred receive frees the slot. */
  function Release(p: Pool, t: nat): Pool
    requires t in p.tasks
  {
    var q := p.tasks[t].process;
    Pool(p.tasks - {t}, p.used[q := if p.UsedBy(q) > 0 then p.UsedBy(q) - 1 else 0])
  }

  function StepTake(w: World, t: nat, process: nat, replied: bool): World {
    if t in w.pool.tasks then w
    else match Head(w.stream.entries, w.stream.cursor)
      case None => w
      case Some(h) =>
        var v := w.(stream := w.stream.(cursor := h + 1));
        if replied then v.(pool := v.pool.(tasks := v.pool.tasks[t := Task(process, h, Taken)]))
        else v.(books := v.books.Drop(h, ReplyLost))
  }

  function Lose(w: World, t: nat, r: Reason): World
    requires t in w.pool.tasks
  {
    var p := if w.pool.tasks[t].HasPermit() then Release(w.pool, t) else EndTask(w.pool, t);
    w.(pool := p, books := w.books.Drop(w.pool.tasks[t].hist, r))
  }

  function StepDecode(w: World, t: nat): World {
    if t in w.pool.tasks && w.pool.tasks[t].stage.Taken? then Lose(w, t, Undecodable) else w
  }

  function StepFindJob(w: World, t: nat, found: bool): World {
    if t !in w.pool.tasks || !w.pool.tasks[t].stage.Taken? then w
    else if found then w.(pool := SetTask(w.pool, t, Waiting))
    else Lose(w, t, JobNotFound)
  }

  /** The deferred XACK and XDEL of a delivered entry; both errors are ignored. */
  function StepRemove(w: World, h: nat): World {
    if h < w.stream.cursor then w.(stream := w.stream.(entries := Without(w.stream.entries, h))) else w
  }

  function Without(q: seq<nat>, h: nat): seq<nat> {
    if q == [] then [] else if q[0] == h then q[1..] else [q[0]] + Without(q[1..], h)
  }

  /** Sending on the semaphore channel blocks while its buffer is full. */
  function StepAcquire(cfg: Config, w: World, t: nat): World {
    if t !in w.pool.tasks || !w.pool.tasks[t].stage.Waiting? then w
    else
      var q := w.pool.tasks[t].process;
      if w.pool.UsedBy(q) >= cfg.permits then w
      else w.(pool := SetTask(w.pool, t, Holding).(used := w.pool.used[q := w.pool.UsedBy(q) + 1]))
  }

  /** Without a strategy for its type the job fails unrun. */
  function StepExecute(w: World, t: nat, known: bool, ok: bool): World {
    if t !in w.pool.tasks || !w.pool.tasks[t].stage.Holding? || w.pool.tasks[t].hist >= |w.books.ran| then w
    else
      var h := w.pool.tasks[t].hist;
      var outcome := if !known then NoStrategy else if ok then Succeeded else Erred;
      var b := w.books.(returned := w.books.returned[h := outcome]);
      w.(pool := SetTask(w.pool, t, Writing(known && ok)),
         books := if known then b.(ran := b.ran[h := b.ran[h] + 1]) else b)
  }

  /** A panic in the strategy counts as a run; GoSafe recovers and nothing is written. */
  function StepPanic(w: World, t: nat): World {
    if t !in w.pool.tasks || !w.pool.tasks[t].stage.Holding? || w.pool.tasks[t].hist >= |w.books.ran| then w
    else
      var h := w.pool.tasks[t].hist;
      Lose(w.(books := w.books.(ran := w.books.ran[h := w.books.ran[h] + 1])), t, Panicked)
  }

  /** The final write uses the job's own context, so a job that used up its time leaves no status. */
  function StepWrite(w: World, t: nat, applied: bool): World {
    if t !in w.pool.tasks || !w.pool.tasks[t].stage.Writing? then w
    else
      var h := w.pool.tasks[t].hist;
      if !applied then Lose(w, t, WriteFailed)
      else if !w.books.WellFormed() || h >= |w.books.status| then w
      else
        var status := if w.pool.tasks[t].stage.ok then Completed else Failed;
        w.(pool := Release(w.pool, t), books := w.books.Write(h, status))
  }

  function TasksOf(p: Pool, process: nat): set<nat> {
    set t | t in p.tasks && p.tasks[t].process == process
  }

  function StepCrashExecutor(w: World, process: nat): World {
    var gone := TasksOf(w.pool, process);
    w.(pool := Pool(w.pool.tasks - gone, w.pool.used - {process}),
       books := DropAll(w.books, set t | t in gone :: w.pool.tasks[t].hist, Crashed))
  }

  function Step(cfg: Config, w: World, a: Action): World {
    match a
    case Advance(d) => w.(clock := w.clock + d)
    case Poll(order) => StepPoll(w, order)
    case Next => StepNext(w)
    case Create(applied, replied) => StepCreate(w, applied, replied)
    case Marshal => StepMarshal(w)
    case Enqueue(applied, replied) => StepEnqueue(cfg, w, applied, replied)
    case RecordFailure(applied) => StepRecordFailure(w, applied)
    case Save(applied) => StepSave(cfg, w, applied)
    case CrashScheduler => StepCrashScheduler(w)
    case Take(t, process, replied) => StepTake(w, t, process, replied)
    case Decode(t) => StepDecode(w, t)
    case FindJob(t, found) => StepFindJob(w, t, found)
    case Remove(h) => StepRemove(w, h)
    case Acquire(t) => StepAcquire(cfg, w, t)
    case Execute(t, known, ok) => StepExecute(w, t, known, ok)
    case Panic(t) => StepPanic(w, t)
    case Write(t, applied) => StepWrite(w, t, applied)
    case CrashExecutor(p) => StepCrashExecutor(w, p)
  }

  function Run(cfg: Config, w: World, acts: seq<Action>): World
    decreases |acts|
  {
    if acts == [] then w else Run(cfg, Step(cfg, w, acts[0]), acts[1..])
  }

  lemma {:induction false} RunAppends(cfg: Config, w: World, a: seq<Action>, b: seq<Action>)
    ensures Run(cfg, w, a + b) == Run(cfg, Run(cfg, w, a), b)
    decreases |a|
  {
    if a == [] {
      assert a + b == b;
    } else {
      assert (a + b)[1..] == a[1..] + b;
      RunAppends(cfg, Step(cfg, w, a[0]), a[1..], b);
    }
  }

  lemma RunOfOne(cfg: Config, w: World, a: Action)
    ensures Run(cfg, w, [a]) == Step(cfg, w, a)
  {
    assert Run(cfg, w, [a]) == Run(cfg, Step(cfg, w, a), []);
  }
}
