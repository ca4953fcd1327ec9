/** The executor's semaphore: a buffered channel with one slot per concurrent task. */
module Semaphore {
  import opened Lifecycle

  /** The goroutines of a process between sending on the channel and receiving from it. */
  function Holders(p: Pool, process: nat): set<nat> {
    set t | t in p.tasks && p.tasks[t].process == process && p.tasks[t].HasPermit()
  }

  /** The slots taken are exactly the goroutines that took them, and there are never too many. */
  ghost predicate Sound(cfg: Config, p: Pool) {
    forall q :: |Holders(p, q)| == p.UsedBy(q) <= cfg.permits
  }

  lemma ReleaseKeeps(cfg: Config, p: Pool, t: nat)
    requires Sound(cfg, p) && t in p.tasks && p.tasks[t].HasPermit()
    ensures Sound(cfg, Release(p, t))
  {
    var r := Release(p, t);
    forall q ensures |Holders(r, q)| == r.UsedBy(q) <= cfg.permits {
      assert Holders(r, q) == Holders(p, q) - {t};
      assert |Holders(p, q)| == p.UsedBy(q);
    }
  }

  lemma EndKeeps(cfg: Config, p: Pool, t: nat)
    requires Sound(cfg, p) && t in p.tasks && !p.tasks[t].HasPermit()
    ensures Sound(cfg, EndTask(p, t))
  {
    forall q ensures Holders(EndTask(p, t), q) == Holders(p, q) && |Holders(p, q)| == p.UsedBy(q) <= cfg.permits {}
  }

  lemma StageKeeps(cfg: Config, p: Pool, t: nat, g: TaskStage)
    requires Sound(cfg, p) && t in p.tasks && p.tasks[t].HasPermit() == (g.Holding? || g.Writing?)
    ensures Sound(cfg, SetTask(p, t, g))
  {
    forall q ensures Holders(SetTask(p, t, g), q) == Holders(p, q) && |Holders(p, q)| == p.UsedBy(q) <= cfg.permits {}
  }

  lemma AcquireKeeps(cfg: Config, w: World, t: nat)
    requires Sound(cfg, w.pool)
    ensures Sound(cfg, StepAcquire(cfg, w, t).pool)
  {
    var p := w.pool;
    if t in p.tasks && p.tasks[t].stage.Waiting? && p.UsedBy(p.tasks[t].process) < cfg.permits {
      var r := StepAcquire(cfg, w, t).pool;
      forall q ensures |Holders(r, q)| == r.UsedBy(q) <= cfg.permits {
        AcquireCounts(cfg, w, t, q);
      }
    }
  }

  lemma AcquireCounts(cfg: Config, w: World, t: nat, q: nat)
    requires t in w.pool.tasks && w.pool.tasks[t].stage.Waiting?
    requires w.pool.UsedBy(w.pool.tasks[t].process) < cfg.permits
    requires |Holders(w.pool, q)| == w.pool.UsedBy(q) <= cfg.permits
    ensures var r := StepAcquire(cfg, w, t).pool;
            |Holders(r, q)| == r.UsedBy(q) <= cfg.permits
  {
    var r := StepAcquire(cfg, w, t).pool;
    if q == w.pool.tasks[t].process {
      assert Holders(r, q) == Holders(w.pool, q) + {t};
    } else {
      assert Holders(r, q) == Holders(w.pool, q);
    }
  }

  lemma CrashKeeps(cfg: Config, w: World, process: nat)
    requires Sound(cfg, w.pool)
    ensures Sound(cfg, StepCrashExecutor(w, process).pool)
  {
    var r := StepCrashExecutor(w, process).pool;
    forall q ensures |Holders(r, q)| == r.UsedBy(q) <= cfg.permits {
      assert Holders(r, q) == if q == process then {} else Holders(w.pool, q);
      assert |Holders(w.pool, q)| == w.pool.UsedBy(q) <= cfg.permits;
    }
  }

  lemma TakeKeeps(cfg: Config, w: World, t: nat, process: nat, replied: bool)
    requires Sound(cfg, w.pool)
    ensures Sound(cfg, StepTake(w, t, process, replied).pool)
  {
    var r := StepTake(w, t, process, replied).pool;
    forall q ensures Holders(r, q) == Holders(w.pool, q) && |Holders(w.pool, q)| == w.pool.UsedBy(q) <= cfg.permits {}
  }

  lemma LoseKeeps(cfg: Config, w: World, t: nat, r: Reason)
    requires Sound(cfg, w.pool) && t in w.pool.tasks
    ensures Sound(cfg, Lose(w, t, r).pool)
  {
    if w.pool.tasks[t].HasPermit() { ReleaseKeeps(cfg, w.pool, t); } else { EndKeeps(cfg, w.pool, t); }
  }

  lemma StepKeepsSound(cfg: Config, w: World, a: Action)
    requires Sound(cfg, w.pool)
    ensures Sound(cfg, Step(cfg, w, a).pool)
  {
    match a
    case Take(t, p, replied) => TakeKeeps(cfg, w, t, p, replied);
    case Decode(t) => if t in w.pool.tasks { LoseKeeps(cfg, w, t, Undecodable); }
    case FindJob(t, found) =>
      if t in w.pool.tasks && w.pool.tasks[t].stage.Taken? {
        LoseKeeps(cfg, w, t, JobNotFound);
        StageKeeps(cfg, w.pool, t, Waiting);
      }
    case Acquire(t) => AcquireKeeps(cfg, w, t);
    case Execute(t, known, ok) =>
      if t in w.pool.tasks && w.pool.tasks[t].stage.Holding? { StageKeeps(cfg, w.pool, t, Writing(known && ok)); }
    case Panic(t) =>
      if t in w.pool.tasks && w.pool.tasks[t].stage.Holding? { ReleaseKeeps(cfg, w.pool, t); }
    case Write(t, applied) =>
      if t in w.pool.tasks && w.pool.tasks[t].stage.Writing? { ReleaseKeeps(cfg, w.pool, t); }
    case CrashExecutor(p) => CrashKeeps(cfg, w, p);
    case _ =>
  }

  lemma {:induction false} RunKeepsSound(cfg: Config, w: World, acts: seq<Action>)
    requires Sound(cfg, w.pool)
    ensures Sound(cfg, Run(cfg, w, acts).pool)
    decreases |acts|
  {
    if acts != [] {
      StepKeepsSound(cfg, w, acts[0]);
      RunKeepsSound(cfg, Step(cfg, w, acts[0]), acts[1..]);
    }
  }

  /** In every run, however tasks end: success, error, panic, lost write or crash. */
  lemma PermitsAreAccountedFor(cfg: Config, rows: seq<Schedule>, acts: seq<Action>, process: nat)
    ensures var p := Run(cfg, Init(rows), acts).pool;
            |Holders(p, process)| == p.UsedBy(process) <= cfg.permits
  {
    assert Sound(cfg, Init(rows).pool);
    RunKeepsSound(cfg, Init(rows), acts);
  }

  /** In every run a goroutine that waits for a permit gets one exactly if fewer than MaxConcurrentTasks
    * goroutines of its process hold one.
    */
  lemma FreeSlotIsTaken(cfg: Config, rows: seq<Schedule>, acts: seq<Action>, t: nat)
    requires var p := Run(cfg, Init(rows), acts).pool; t in p.tasks && p.tasks[t].stage.Waiting?
    ensures var p := Run(cfg, Init(rows), acts).pool;
            var q := Step(cfg, Run(cfg, Init(rows), acts), Acquire(t)).pool;
            && t in q.tasks && q.tasks[t].process == p.tasks[t].process && q.tasks[t].hist == p.tasks[t].hist
            && (q.tasks[t].stage.Holding? <==> |Holders(p, p.tasks[t].process)| < cfg.permits)
            && (!q.tasks[t].stage.Holding? ==> q == p)
  {
    PermitsAreAccountedFor(cfg, rows, acts, Run(cfg, Init(rows), acts).pool.tasks[t].process);
  }
}
