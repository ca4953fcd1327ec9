/** Where every unfinished history is, and that it is run and finished at most once. */
module TaskAccounting {
  import opened Wrappers
  import opened Lifecycle

  // ----- Where a history can be -----

  predicate Publishing(w: World, h: nat) {
    var g := w.scheduler.stage; (g.Created? || g.Refused?) && g.hist == h
  }

  predicate InQueue(w: World, h: nat) { h in w.stream.entries && h >= w.stream.cursor }

  ghost predicate InFlight(p: Pool, h: nat) { exists t :: t in p.tasks && p.tasks[t].hist == h }

  ghost function Places(w: World, h: nat): nat {
    Bit(Publishing(w, h)) + Bit(InQueue(w, h)) + Bit(InFlight(w.pool, h)) + Bit(h in w.books.dropped)
  }

  /** An XADD that reports an error enqueued nothing. */
  predicate Honest(a: Action) { a.Enqueue? && a.applied ==> a.replied }

  // ----- The invariant -----

  ghost predicate Ascending(q: seq<nat>) { forall i, j | 0 <= i < j < |q| :: q[i] < q[j] }

  /** Entries come in the order of their histories, all below `limit`. */
  ghost predicate StreamOk(q: Stream, limit: nat) {
    Ascending(q.entries) && q.cursor <= limit && forall e | e in q.entries :: e < limit
  }

  /** The history being published is younger than everything in the stream. */
  function Limit(w: World): nat {
    var g := w.scheduler.stage; if g.Created? || g.Refused? then g.hist else |w.books.status|
  }

  ghost predicate TasksOk(p: Pool, cursor: nat) {
    && (forall t | t in p.tasks :: p.tasks[t].hist < cursor)
    && (forall t, u | t in p.tasks && u in p.tasks && t != u :: p.tasks[t].hist != p.tasks[u].hist)
  }

  ghost predicate BooksOk(b: Books) { b.WellFormed() && forall h | h in b.dropped :: h < |b.status| }

  /** Rows are dropped, and published, only once they are there. */
  ghost predicate RowsExist(w: World) {
    && BooksOk(w.books) && Limit(w) <= |w.books.status|
    && (var g := w.scheduler.stage; g.Created? || g.Refused? ==> g.hist < |w.books.status|)
  }

  ghost predicate Shape(w: World) {
    StreamOk(w.stream, Limit(w)) && TasksOk(w.pool, w.stream.cursor) && RowsExist(w)
  }

  /** A running history is in exactly one place, a finished one in none, and nothing happens twice. */
  ghost predicate Accounted(w: World, h: nat)
    requires w.books.WellFormed()
  {
    h < |w.books.status| ==>
      && Places(w, h) == Bit(w.books.status[h] == Running)
      && w.books.writes[h] == Bit(w.books.status[h] != Running)
      && w.books.ran[h] <= 1
      && (Publishing(w, h) || InQueue(w, h) ==> w.books.ran[h] == 0)
      && (forall t | t in w.pool.tasks && w.pool.tasks[t].hist == h && !w.pool.tasks[t].stage.Writing?
          :: w.books.ran[h] == 0)
  }

  lemma {:induction false} HeadIsFirst(q: seq<nat>, cursor: nat)
    requires Ascending(q)
    ensures var r := Head(q, cursor);
            && (r.Some? ==> r.value in q && r.value >= cursor && forall e | e in q && e >= cursor :: r.value <= e)
            && (r.None? ==> forall e | e in q :: e < cursor)
  {
    if q != [] && q[0] < cursor {
      HeadIsFirst(q[1..], cursor);
      assert forall e | e in q :: e == q[0] || e in q[1..];
    }
  }

  lemma AscendingCons(x: nat, q: seq<nat>)
    requires Ascending(q) && forall e | e in q :: x < e
    ensures Ascending([x] + q)
  {
    forall i, j | 0 <= i < j < |q| + 1 ensures ([x] + q)[i] < ([x] + q)[j] {
      assert q[j - 1] in q;
    }
  }

  lemma {:induction false} WithoutKeeps(q: seq<nat>, h: nat)
    requires Ascending(q)
    ensures Ascending(Without(q, h))
    ensures forall e :: e in Without(q, h) <==> e in q && e != h
  {
    if q != [] {
      assert q == [q[0]] + q[1..];
      assert forall e | e in q[1..] :: q[0] < e;
      if q[0] != h {
        WithoutKeeps(q[1..], h);
        AscendingCons(q[0], Without(q[1..], h));
      }
    }
  }

  lemma AscendingAppend(q: seq<nat>, h: nat)
    requires Ascending(q) && forall e | e in q :: e < h
    ensures Ascending(q + [h])
  {
    forall i, j | 0 <= i < j < |q| + 1 ensures (q + [h])[i] < (q + [h])[j] {
      assert q[i] in q;
    }
  }

  /** The two halves of an ascending sequence share nothing. */
  lemma AscendingSplit(q: seq<nat>, k: nat)
    requires Ascending(q) && k <= |q|
    ensures Ascending(q[k..])
    ensures forall e :: e in q <==> e in q[..k] || e in q[k..]
    ensures forall e, f | e in q[..k] && f in q[k..] :: e < f
  {
    assert q == q[..k] + q[k..];
  }

  lemma AppendKeeps(maxLen: nat, q: Stream, h: nat)
    requires StreamOk(q, h)
    ensures StreamOk(q.(entries := Append(maxLen, q.entries, h)), h + 1)
    ensures forall e | e >= q.cursor ::
      (e in Append(maxLen, q.entries, h) <==> (e in q.entries || e == h) && e !in Cut(maxLen, q, h))
    ensures forall e | e in Cut(maxLen, q, h) :: e >= q.cursor && (e in q.entries || e == h)
  {
    AscendingAppend(q.entries, h);
    AscendingSplit(q.entries + [h], Excess(maxLen, |q.entries| + 1));
  }

  /** MAXLEN costs an entry its place only when `maxLen` newer ones are in the stream. */
  lemma TrimmedIsOld(cfg: Config, w: World, e: nat, replied: bool)
    requires Shape(w) && e in w.stream.entries
    requires e !in StepEnqueue(cfg, w, true, replied).stream.entries
    ensures var left := StepEnqueue(cfg, w, true, replied).stream.entries;
            cfg.maxLen > 0 && Ascending(left) && |left| == cfg.maxLen && forall f | f in left :: e < f
  {
    var all := w.stream.entries + [w.scheduler.stage.hist];
    AscendingAppend(w.stream.entries, w.scheduler.stage.hist);
    AscendingSplit(all, Excess(cfg.maxLen, |all|));
    assert e in all;
  }

  /** An XADD appends the history being published and leaves the newest `maxLen` entries, or all of them if
    * the stream has no cap.
    */
  lemma StreamIsCapped(cfg: Config, w: World, replied: bool)
    requires w.scheduler.stage.Created? && w.scheduler.stage.sid < |w.scheduler.pubs|
    ensures var all := w.stream.entries + [w.scheduler.stage.hist];
            var left := StepEnqueue(cfg, w, true, replied).stream.entries;
            && |left| == (if cfg.maxLen == 0 || |all| <= cfg.maxLen then |all| else cfg.maxLen)
            && left == all[|all| - |left|..]
            && StepEnqueue(cfg, w, true, replied).stream.cursor == w.stream.cursor
            && StepEnqueue(cfg, w, false, replied).stream == w.stream
  {}

  lemma StepKeepsStream(cfg: Config, w: World, a: Action)
    requires Shape(w) && Honest(a)
    ensures StreamOk(Step(cfg, w, a).stream, Limit(Step(cfg, w, a)))
  {
    match a
    case Enqueue(_, _) =>
      if w.scheduler.stage.Created? { AppendKeeps(cfg.maxLen, w.stream, w.scheduler.stage.hist); }
    case Take(_, _, _) => HeadIsFirst(w.stream.entries, w.stream.cursor);
    case Remove(h) => WithoutKeeps(w.stream.entries, h);
    case _ =>
  }

  predicate ByScheduler(a: Action) {
    a.Advance? || a.Poll? || a.Next? || a.Create? || a.Marshal? || a.RecordFailure? || a.Save? || a.CrashScheduler?
  }

  lemma PoolKeepsTasks(cfg: Config, w: World, a: Action)
    requires Shape(w) && !ByScheduler(a) && !a.Take?
    ensures TasksOk(Step(cfg, w, a).pool, Step(cfg, w, a).stream.cursor)
  {}

  lemma TakeKeepsTasks(w: World, t: nat, process: nat, replied: bool)
    requires Shape(w)
    ensures TasksOk(StepTake(w, t, process, replied).pool, StepTake(w, t, process, replied).stream.cursor)
  {
    HeadIsFirst(w.stream.entries, w.stream.cursor);
  }

  lemma StepKeepsTasks(cfg: Config, w: World, a: Action)
    requires Shape(w)
    ensures TasksOk(Step(cfg, w, a).pool, Step(cfg, w, a).stream.cursor)
  {
    match a
    case Take(t, process, replied) => TakeKeepsTasks(w, t, process, replied);
    case _ => if !ByScheduler(a) { PoolKeepsTasks(cfg, w, a); }
  }

  lemma SchedulerKeepsBooks(cfg: Config, w: World, a: Action)
    requires RowsExist(w) && ByScheduler(a)
    ensures RowsExist(Step(cfg, w, a))
  {}

  lemma EnqueueKeepsBooks(cfg: Config, w: World, applied: bool, replied: bool)
    requires Shape(w)
    ensures RowsExist(StepEnqueue(cfg, w, applied, replied))
  {
    if w.scheduler.stage.Created? { AppendKeeps(cfg.maxLen, w.stream, w.scheduler.stage.hist); }
  }

  lemma TakeKeepsBooks(w: World, t: nat, process: nat, replied: bool)
    requires Shape(w)
    ensures RowsExist(StepTake(w, t, process, replied))
  {
    HeadIsFirst(w.stream.entries, w.stream.cursor);
  }

  lemma PoolKeepsBooks(cfg: Config, w: World, a: Action)
    requires Shape(w) && !ByScheduler(a) && !a.Enqueue? && !a.Take?
    ensures RowsExist(Step(cfg, w, a))
  {}

  lemma StepKeepsBooks(cfg: Config, w: World, a: Action)
    requires Shape(w)
    ensures RowsExist(Step(cfg, w, a))
  {
    match a
    case Enqueue(applied, replied) => EnqueueKeepsBooks(cfg, w, applied, replied);
    case Take(t, process, replied) => TakeKeepsBooks(w, t, process, replied);
    case _ => if ByScheduler(a) { SchedulerKeepsBooks(cfg, w, a); } else { PoolKeepsBooks(cfg, w, a); }
  }

  lemma StepKeepsShape(cfg: Config, w: World, a: Action)
    requires Shape(w) && Honest(a)
    ensures Shape(Step(cfg, w, a))
  {
    StepKeepsStream(cfg, w, a);
    StepKeepsTasks(cfg, w, a);
    StepKeepsBooks(cfg, w, a);
  }

  // ----- Every step keeps the account of every history -----

  lemma SchedulerKeepsAccount(cfg: Config, w: World, a: Action, h: nat)
    requires StreamOk(w.stream, Limit(w)) && w.books.WellFormed() && Accounted(w, h) && ByScheduler(a)
    requires BooksOk(w.books) && BooksOk(Step(cfg, w, a).books) && Limit(w) <= |w.books.status|
    requires h >= |w.books.status| ==> !InFlight(w.pool, h)
    ensures Accounted(Step(cfg, w, a), h)
  {
  }

  lemma EnqueueKeepsAccount(cfg: Config, w: World, applied: bool, replied: bool, h: nat)
    requires Shape(w) && Accounted(w, h) && (applied ==> replied)
    requires BooksOk(StepEnqueue(cfg, w, applied, replied).books)
    ensures Accounted(StepEnqueue(cfg, w, applied, replied), h)
  {
    if w.scheduler.stage.Created? { AppendKeeps(cfg.maxLen, w.stream, w.scheduler.stage.hist); }
  }

  lemma RemoveKeepsAccount(w: World, e: nat, h: nat)
    requires Shape(w) && Accounted(w, h)
    ensures Accounted(StepRemove(w, e), h)
  {
    WithoutKeeps(w.stream.entries, e);
  }

  lemma TakeKeepsAccount(w: World, t: nat, p: nat, replied: bool, h: nat)
    requires Shape(w) && Accounted(w, h) && BooksOk(StepTake(w, t, p, replied).books)
    ensures Accounted(StepTake(w, t, p, replied), h)
  {
    HeadIsFirst(w.stream.entries, w.stream.cursor);
    var v := StepTake(w, t, p, replied);
    forall u | u in w.pool.tasks ensures u in v.pool.tasks && v.pool.tasks[u] == w.pool.tasks[u] {}
    assert InFlight(w.pool, h) ==> InFlight(v.pool, h);
    assert t in v.pool.tasks && t !in w.pool.tasks ==> InFlight(v.pool, v.pool.tasks[t].hist);
  }

  lemma StageKeepsFlight(p: Pool, t: nat, g: TaskStage, h: nat)
    requires t in p.tasks
    ensures InFlight(SetTask(p, t, g), h) <==> InFlight(p, h)
  {
    var q := SetTask(p, t, g);
    forall u | u in p.tasks ensures u in q.tasks && q.tasks[u].hist == p.tasks[u].hist {}
  }

  lemma AdvanceTaskKeepsAccount(cfg: Config, w: World, a: Action, h: nat)
    requires Shape(w) && Accounted(w, h) && (a.Acquire? || a.Execute? || (a.FindJob? && a.found))
    ensures Accounted(Step(cfg, w, a), h)
  {
    if a.t in w.pool.tasks {
      StageKeepsFlight(w.pool, a.t, Waiting, h);
      StageKeepsFlight(w.pool, a.t, Holding, h);
      StageKeepsFlight(w.pool, a.t, Writing(true), h);
      StageKeepsFlight(w.pool, a.t, Writing(false), h);
    }
  }

  /** When goroutines end, exactly their histories are no longer in flight. */
  lemma EndingFlight(p: Pool, gone: set<nat>, q: Pool, cursor: nat, h: nat)
    requires TasksOk(p, cursor) && q.tasks == p.tasks - gone
    ensures InFlight(q, h) <==> InFlight(p, h) && !(exists t :: t in gone && t in p.tasks && p.tasks[t].hist == h)
  {
    forall t | t in p.tasks && t !in gone ensures t in q.tasks && q.tasks[t] == p.tasks[t] {}
    assert forall t | t in q.tasks :: t in p.tasks && t !in gone;
  }

  lemma LoseKeepsAccount(w: World, t: nat, r: Reason, h: nat)
    requires Shape(w) && Accounted(w, h) && t in w.pool.tasks
    requires BooksOk(Lose(w, t, r).books)
    ensures Accounted(Lose(w, t, r), h)
  {
    EndingFlight(w.pool, {t}, Lose(w, t, r).pool, w.stream.cursor, h);
    assert InFlight(w.pool, w.pool.tasks[t].hist);
  }

  lemma PanicKeepsAccount(w: World, t: nat, h: nat)
    requires Shape(w) && Accounted(w, h) && BooksOk(StepPanic(w, t).books)
    ensures Accounted(StepPanic(w, t), h)
  {
    if t in w.pool.tasks && w.pool.tasks[t].stage.Holding? {
      EndingFlight(w.pool, {t}, Release(w.pool, t), w.stream.cursor, h);
      assert InFlight(w.pool, w.pool.tasks[t].hist);
    }
  }

  lemma WriteKeepsAccount(w: World, t: nat, h: nat)
    requires Shape(w) && Accounted(w, h) && BooksOk(StepWrite(w, t, true).books)
    ensures Accounted(StepWrite(w, t, true), h)
  {
    if t in w.pool.tasks && w.pool.tasks[t].stage.Writing? {
      EndingFlight(w.pool, {t}, Release(w.pool, t), w.stream.cursor, h);
      assert InFlight(w.pool, w.pool.tasks[t].hist);
    }
  }

  lemma CrashKeepsAccount(w: World, p: nat, h: nat)
    requires Shape(w) && Accounted(w, h) && BooksOk(StepCrashExecutor(w, p).books)
    ensures Accounted(StepCrashExecutor(w, p), h)
  {
    var gone := TasksOf(w.pool, p);
    EndingFlight(w.pool, gone, StepCrashExecutor(w, p).pool, w.stream.cursor, h);
    assert (exists t :: t in gone && t in w.pool.tasks && w.pool.tasks[t].hist == h)
           <==> h in (set t | t in gone :: w.pool.tasks[t].hist);
  }

  lemma StepKeepsAccount(cfg: Config, w: World, a: Action, h: nat)
    requires Shape(w) && Honest(a) && Accounted(w, h)
    ensures Shape(Step(cfg, w, a)) && Accounted(Step(cfg, w, a), h)
  {
    StepKeepsShape(cfg, w, a);
    match a
    case Take(t, p, replied) => TakeKeepsAccount(w, t, p, replied, h);
    case Decode(t) => if t in w.pool.tasks { LoseKeepsAccount(w, t, Undecodable, h); }
    case FindJob(t, found) =>
      if found { AdvanceTaskKeepsAccount(cfg, w, a, h); }
      else if t in w.pool.tasks { LoseKeepsAccount(w, t, JobNotFound, h); }
    case Acquire(_) => AdvanceTaskKeepsAccount(cfg, w, a, h);
    case Execute(_, _, _) => AdvanceTaskKeepsAccount(cfg, w, a, h);
    case Panic(t) => PanicKeepsAccount(w, t, h);
    case Write(t, applied) =>
      if applied { WriteKeepsAccount(w, t, h); } else if t in w.pool.tasks { LoseKeepsAccount(w, t, WriteFailed, h); }
    case CrashExecutor(p) => CrashKeepsAccount(w, p, h);
    case Enqueue(applied, replied) => EnqueueKeepsAccount(cfg, w, applied, replied, h);
    case Remove(e) => RemoveKeepsAccount(w, e, h);
    case _ => SchedulerKeepsAccount(cfg, w, a, h);
  }

  // ----- Whole runs -----

  predicate AllHonest(acts: seq<Action>) { forall i | 0 <= i < |acts| :: Honest(acts[i]) }

  lemma {:induction false} RunKeepsAccount(cfg: Config, w: World, acts: seq<Action>, h: nat)
    requires Shape(w) && AllHonest(acts) && Accounted(w, h)
    ensures Shape(Run(cfg, w, acts)) && Accounted(Run(cfg, w, acts), h)
    decreases |acts|
  {
    if acts != [] {
      StepKeepsAccount(cfg, w, acts[0], h);
      RunKeepsAccount(cfg, Step(cfg, w, acts[0]), acts[1..], h);
    }
  }

  /** Exact accounting: a history is `running` if and only if it is in exactly one of the four
    * places, and a finished history is in none of them. */
  lemma RunningMeansOnePlace(cfg: Config, rows: seq<Schedule>, acts: seq<Action>, h: nat)
    requires AllHonest(acts) && h < |Run(cfg, Init(rows), acts).books.status|
    ensures var w := Run(cfg, Init(rows), acts);
            Places(w, h) == Bit(w.books.status[h] == Running)
  {
    RunKeepsAccount(cfg, Init(rows), acts, h);
  }

  /** No history is run twice or has its status written twice. */
  lemma AtMostOnce(cfg: Config, rows: seq<Schedule>, acts: seq<Action>, h: nat)
    requires AllHonest(acts) && h < |Run(cfg, Init(rows), acts).books.status|
    ensures var b := Run(cfg, Init(rows), acts).books;
            b.WellFormed() && b.ran[h] <= 1 && b.writes[h] == Bit(b.status[h] != Running)
  {
    RunKeepsAccount(cfg, Init(rows), acts, h);
  }

  lemma {:induction false} FinalIsFinal(cfg: Config, w: World, acts: seq<Action>, h: nat)
    requires Shape(w) && AllHonest(acts) && Accounted(w, h)
    requires h < |w.books.status| && w.books.status[h] != Running
    ensures h < |Run(cfg, w, acts).books.status| && Run(cfg, w, acts).books.status[h] == w.books.status[h]
    ensures Run(cfg, w, acts).books.WellFormed() && Run(cfg, w, acts).books.ran[h] == w.books.ran[h]
    decreases |acts|
  {
    if acts != [] {
      StepKeepsAccount(cfg, w, acts[0], h);
      FinishedStays(cfg, w, acts[0], h);
      FinalIsFinal(cfg, Step(cfg, w, acts[0]), acts[1..], h);
    }
  }

  lemma FinishedStays(cfg: Config, w: World, a: Action, h: nat)
    requires BooksOk(w.books) && Accounted(w, h)
    requires h < |w.books.status| && w.books.status[h] != Running
    ensures var b := Step(cfg, w, a).books;
            h < |b.status| && b.status[h] == w.books.status[h] && h < |b.ran| && b.ran[h] == w.books.ran[h]
  {
    forall t | t in w.pool.tasks ensures w.pool.tasks[t].hist != h {
      assert w.pool.tasks[t].hist == h ==> InFlight(w.pool, h);
    }
    assert !Publishing(w, h);
    Untouched(cfg, w, a, h);
  }

  /** Only publishing a history or running it changes its row. */
  lemma Untouched(cfg: Config, w: World, a: Action, h: nat)
    requires w.books.WellFormed() && h < |w.books.status|
    requires !Publishing(w, h) && forall t | t in w.pool.tasks :: w.pool.tasks[t].hist != h
    ensures var b := Step(cfg, w, a).books;
            h < |b.status| && b.status[h] == w.books.status[h] && h < |b.ran| && b.ran[h] == w.books.ran[h]
  {
  }

  /** One active schedule whose publish was refused after all the stream had taken it. */
  const LONE: seq<Schedule> := [Schedule(true, true, None)]

  const REFUSED: seq<Action> := [Poll([0]), Next, Create(true, true), Enqueue(true, false), RecordFailure(true)]

  const EXECUTED: seq<Action> :=
    [Take(0, 0, true), FindJob(0, true), Acquire(0), Execute(0, true, true), Write(0, true)]

  function Reopened(): World {
    World(0, Scheduler(Batch([]), LONE, [[Pub(0, 0, false)]]), Stream([0], 0), Pool(map[], map[]),
          Books([Failed], [0], [1], map[], map[]))
  }

  function Lone(g: Stage, pubs: seq<Pub>, entries: seq<nat>, b: Books): World {
    World(0, Scheduler(g, LONE, [pubs]), Stream(entries, 0), Pool(map[], map[]), b)
  }

  lemma LonePolls(cfg: Config)
    ensures Step(cfg, Init(LONE), Poll([0])) == Lone(Batch([0]), [], [], Books([], [], [], map[], map[]))
  {
    assert Init(LONE).scheduler.pubs == [[]];
    assert IsDueList(LONE, 0, [0]);
  }

  lemma LoneEnqueues(cfg: Config)
    ensures var b := Books([Running], [0], [0], map[], map[]);
            Step(cfg, Lone(Created([], 0, 0, 0), [], [], b), Enqueue(true, false))
            == Lone(Refused([], 0), [Pub(0, 0, false)], [0], b)
  {
    var b := Books([Running], [0], [0], map[], map[]);
    var none: seq<Pub>, one := [], [Pub(0, 0, false)];
    assert none + one == one && [none][0 := one] == [one];
    assert Append(cfg.maxLen, [], 0) == [0] && Cut(cfg.maxLen, Stream([], 0), 0) == {};
    assert DropAll(b, {}, Trimmed) == b;
  }

  lemma LoneStarts(cfg: Config)
    ensures Step(cfg, Lone(Batch([0]), [], [], Books([], [], [], map[], map[])), Next)
         == Lone(Starting([], 0, 0), [], [], Books([], [], [], map[], map[]))
  {
    var due: seq<nat> := [0];
    assert due[1..] == [];
  }

  lemma LoneCreates(cfg: Config)
    ensures Step(cfg, Lone(Starting([], 0, 0), [], [], Books([], [], [], map[], map[])), Create(true, true))
         == Lone(Created([], 0, 0, 0), [], [], Books([Running], [0], [0], map[], map[]))
  {
  }

  lemma LoneFails(cfg: Config)
    ensures var w := Lone(Refused([], 0), [Pub(0, 0, false)], [0], Books([Running], [0], [0], map[], map[]));
            Step(cfg, w, RecordFailure(true)) == Reopened()
  {
  }

  lemma RefusedRun(cfg: Config)
    ensures Run(cfg, Init(LONE), REFUSED) == Reopened()
  {
    RunOfFive(cfg, Init(LONE), REFUSED);
    LonePolls(cfg);
    LoneStarts(cfg);
    LoneCreates(cfg);
    LoneEnqueues(cfg);
    LoneFails(cfg);
  }

  function Loose(g: TaskStage, used: map<nat, nat>, b: Books): World {
    Reopened().(stream := Stream([0], 1), pool := Pool(map[0 := Task(0, 0, g)], used), books := b)
  }

  lemma LoneRuns(cfg: Config)
    requires cfg.permits > 0
    ensures var b := Reopened().books;
            && Step(cfg, Reopened(), Take(0, 0, true)) == Loose(Taken, map[], b)
            && Step(cfg, Loose(Taken, map[], b), FindJob(0, true)) == Loose(Waiting, map[], b)
            && Step(cfg, Loose(Waiting, map[], b), Acquire(0)) == Loose(Holding, map[0 := 1], b)
  {
  }

  lemma ExecutedRun(cfg: Config)
    requires cfg.permits > 0
    ensures Run(cfg, Reopened(), EXECUTED).books == Books([Completed], [1], [2], map[], map[0 := Succeeded])
  {
    RunOfFive(cfg, Reopened(), EXECUTED);
    LoneRuns(cfg);
    LoneExecutes(cfg);
  }

  lemma LoneExecutes(cfg: Config)
    ensures var b := Books([Failed], [1], [1], map[], map[0 := Succeeded]);
            && Step(cfg, Loose(Holding, map[0 := 1], Reopened().books), Execute(0, true, true))
               == Loose(Writing(true), map[0 := 1], b)
            && Step(cfg, Loose(Writing(true), map[0 := 1], b), Write(0, true)).books
               == Books([Completed], [1], [2], map[], map[0 := Succeeded])
  {
  }

  /** With an XADD that enqueues and still reports an error, a failed history is run and completed. */
  lemma DishonestEnqueueReopens(cfg: Config)
    requires cfg.permits > 0
    ensures exists acts, more ::
      && Run(cfg, Init(LONE), acts).books.status == [Failed]
      && Run(cfg, Init(LONE), acts + more).books.status == [Completed]
      && Run(cfg, Init(LONE), acts + more).books.writes == [2]
  {
    RefusedRun(cfg);
    ExecutedRun(cfg);
    RunAppends(cfg, Init(LONE), REFUSED, EXECUTED);
  }

  lemma RunOfFive(cfg: Config, w: World, q: seq<Action>)
    requires |q| == 5
    ensures Run(cfg, w, q) == Step(cfg, Step(cfg, Step(cfg, Step(cfg, Step(cfg, w, q[0]), q[1]), q[2]), q[3]), q[4])
  {
    assert q == [q[0]] + ([q[1]] + ([q[2]] + ([q[3]] + [q[4]])));
    var w1 := Step(cfg, w, q[0]);
    var w2 := Step(cfg, w1, q[1]);
    var w3 := Step(cfg, w2, q[2]);
    RunAppends(cfg, w, [q[0]], [q[1]] + ([q[2]] + ([q[3]] + [q[4]])));
    RunAppends(cfg, w1, [q[1]], [q[2]] + ([q[3]] + [q[4]]));
    RunAppends(cfg, w2, [q[2]], [q[3]] + [q[4]]);
    RunAppends(cfg, w3, [q[3]], [q[4]]);
    RunOfOne(cfg, w, q[0]);
    RunOfOne(cfg, w1, q[1]);
    RunOfOne(cfg, w2, q[2]);
    RunOfOne(cfg, w3, q[3]);
    RunOfOne(cfg, Step(cfg, w3, q[3]), q[4]);
  }
}
