/** When a schedule fires: publishes are spaced by the schedule's own cron instants. */
module Firing {
  import opened Wrappers
  import opened Lifecycle

  // ----- Cron -----

  /** `Next` is later than its argument, and there is no instant strictly between the two. */
  ghost predicate IsCron(cron: (nat, nat) -> nat, k: nat) {
    && (forall t: nat :: cron(k, t) > t)
    && (forall t: nat, u: nat | t <= u < cron(k, t) :: cron(k, u) == cron(k, t))
  }

  predicate IsInstant(cron: (nat, nat) -> nat, k: nat, t: nat) { t > 0 && cron(k, t - 1) == t }

  /** The instants of schedule `k` after `a`, up to `b`. */
  function Instants(cron: (nat, nat) -> nat, k: nat, a: nat, b: nat): set<nat> {
    set t | a < t <= b && IsInstant(cron, k, t)
  }

  lemma NextIsInstant(cron: (nat, nat) -> nat, k: nat, t: nat)
    requires IsCron(cron, k)
    ensures cron(k, t) > t && IsInstant(cron, k, cron(k, t))
  {
    assert cron(k, t) > t;
    assert t <= cron(k, t) - 1 < cron(k, t);
  }

  // ----- The invariant -----

  predicate DueBy(r: Schedule, t: nat) { r.next.None? || r.next.value <= t }

  function Last(q: seq<Pub>): Pub
    requires q != []
  {
    q[|q| - 1]
  }

  /** Publishes follow each other, and after a saved one the next instant comes first. */
  ghost predicate Spaced(cfg: Config, k: nat, q: seq<Pub>) {
    forall i | 0 <= i < |q| - 1 :: q[i].at <= q[i + 1].at && (q[i].saved ==> cfg.cron(k, q[i].at) <= q[i + 1].at)
  }

  ghost predicate RowOk(cfg: Config, k: nat, r: Schedule, q: seq<Pub>, now: nat) {
    && Spaced(cfg, k, q)
    && (q != [] ==> Last(q).at <= now && (Last(q).saved ==> r.next == Some(cfg.cron(k, Last(q).at))))
  }

  /** What the scheduler works on was due when it was polled, and has not been touched since. */
  ghost predicate TodoOk(s: Scheduler, todo: seq<nat>, now: nat) {
    Distinct(todo) && forall i | 0 <= i < |todo| :: todo[i] < |s.rows| && DueBy(s.rows[todo[i]], now)
  }

  ghost predicate StageOk(s: Scheduler, now: nat)
    requires |s.rows| == |s.pubs|
  {
    var g := s.stage;
    && (!g.Polling? ==> TodoOk(s, g.todo, now))
    && (g.Starting? || g.Created? || g.Queued? ==> g.sid < |s.rows| && g.sid !in g.todo && g.now <= now)
    && (g.Starting? || g.Created? ==>
          DueBy(s.rows[g.sid], g.now) && (s.pubs[g.sid] != [] ==> Last(s.pubs[g.sid]).at <= g.now))
    && (g.Queued? ==> s.pubs[g.sid] != [] && Last(s.pubs[g.sid]).at == g.now && !Last(s.pubs[g.sid]).saved)
  }

  ghost predicate FiringOk(cfg: Config, w: World) {
    var s := w.scheduler;
    && |s.rows| == |s.pubs|
    && (forall k | 0 <= k < |s.rows| :: RowOk(cfg, k, s.rows[k], s.pubs[k], w.clock))
    && StageOk(s, w.clock)
  }

  lemma EnqueueFires(cfg: Config, w: World, applied: bool, replied: bool)
    requires FiringOk(cfg, w)
    ensures FiringOk(cfg, StepEnqueue(cfg, w, applied, replied))
  {
  }

  lemma SaveFires(cfg: Config, w: World, applied: bool)
    requires FiringOk(cfg, w)
    ensures FiringOk(cfg, StepSave(cfg, w, applied))
  {
  }

  lemma NextFires(cfg: Config, w: World)
    requires FiringOk(cfg, w)
    ensures FiringOk(cfg, StepNext(w))
  {
    var g := w.scheduler.stage;
    if g.Batch? && g.todo != [] {
      var s := w.scheduler;
      assert g.todo[0] < |s.rows| && RowOk(cfg, g.todo[0], s.rows[g.todo[0]], s.pubs[g.todo[0]], w.clock);
    }
  }

  lemma StepFires(cfg: Config, w: World, a: Action)
    requires FiringOk(cfg, w)
    ensures FiringOk(cfg, Step(cfg, w, a))
  {
    match a
    case Enqueue(applied, replied) => EnqueueFires(cfg, w, applied, replied);
    case Save(applied) => SaveFires(cfg, w, applied);
    case Next => NextFires(cfg, w);
    case _ =>
  }

  lemma {:induction false} RunFires(cfg: Config, w: World, acts: seq<Action>)
    requires FiringOk(cfg, w)
    ensures FiringOk(cfg, Run(cfg, w, acts))
    decreases |acts|
  {
    if acts != [] {
      StepFires(cfg, w, acts[0]);
      RunFires(cfg, Step(cfg, w, acts[0]), acts[1..]);
    }
  }

  // ----- What it gives -----

  function Pubs(cfg: Config, rows: seq<Schedule>, acts: seq<Action>, k: nat): seq<Pub> {
    var s := Run(cfg, Init(rows), acts).scheduler; if k < |s.pubs| then s.pubs[k] else []
  }

  /** Between a publish whose row was saved and the next one lies an instant of the schedule. */
  lemma FiringSpacing(cfg: Config, rows: seq<Schedule>, acts: seq<Action>, k: nat, i: nat)
    requires i + 1 < |Pubs(cfg, rows, acts, k)|
    ensures var q := Pubs(cfg, rows, acts, k);
            q[i].at <= q[i + 1].at && (q[i].saved ==> cfg.cron(k, q[i].at) <= q[i + 1].at)
  {
    RunFires(cfg, Init(rows), acts);
    var w := Run(cfg, Init(rows), acts);
    assert RowOk(cfg, k, w.scheduler.rows[k], w.scheduler.pubs[k], w.clock);
  }

  lemma {:induction false} GapsHoldInstants(cfg: Config, k: nat, q: seq<Pub>, i: nat, j: nat)
    requires IsCron(cfg.cron, k) && Spaced(cfg, k, q)
    requires i <= j < |q| && forall n | i <= n < j :: q[n].saved
    ensures q[i].at <= q[j].at && j - i <= |Instants(cfg.cron, k, q[i].at, q[j].at)|
  {
    if i < j {
      GapsHoldInstants(cfg, k, q, i, j - 1);
      assert q[j - 1].saved && cfg.cron(k, q[j - 1].at) <= q[j].at;
      NextInstantCounts(cfg.cron, k, q[i].at, q[j - 1].at, q[j].at);
    }
  }

  lemma NextInstantCounts(cron: (nat, nat) -> nat, k: nat, a: nat, b: nat, c: nat)
    requires IsCron(cron, k) && a <= b && cron(k, b) <= c
    ensures b <= c && |Instants(cron, k, a, b)| + 1 <= |Instants(cron, k, a, c)|
  {
    var next := cron(k, b);
    NextIsInstant(cron, k, b);
    var before, after := Instants(cron, k, a, b), Instants(cron, k, a, c);
    assert before + {next} <= after && next !in before;
    SubsetIsSmaller(before + {next}, after);
  }

  /** The publishes from `i` to `j`, all saved and all in `[a, b]`, are at most one more than its instants. */
  lemma PublishesPerInterval(
    cfg: Config, rows: seq<Schedule>, acts: seq<Action>, k: nat, i: nat, j: nat, a: nat, b: nat)
    requires IsCron(cfg.cron, k)
    requires i <= j < |Pubs(cfg, rows, acts, k)|
    requires var q := Pubs(cfg, rows, acts, k); a <= q[i].at && q[j].at <= b && forall n | i <= n < j :: q[n].saved
    ensures j - i + 1 <= 1 + |Instants(cfg.cron, k, a, b)|
  {
    var q := Pubs(cfg, rows, acts, k);
    RunFires(cfg, Init(rows), acts);
    var w := Run(cfg, Init(rows), acts);
    assert RowOk(cfg, k, w.scheduler.rows[k], w.scheduler.pubs[k], w.clock);
    GapsHoldInstants(cfg, k, q, i, j);
    SubsetIsSmaller(Instants(cfg.cron, k, q[i].at, q[j].at), Instants(cfg.cron, k, a, b));
  }

  /** No tick is lost: in every run, when the scheduler polls, a schedule is in the round exactly if it is
    * active and has no next execution yet or one that is due; and after a publish whose row was saved,
    * exactly if it is active and the next instant after that publish has come.
    */
  lemma NoTickIsLost(cfg: Config, rows: seq<Schedule>, acts: seq<Action>, order: seq<nat>, k: nat)
    requires var w := Run(cfg, Init(rows), acts);
             k < |w.scheduler.rows| && IsDueList(w.scheduler.rows, w.clock, order)
    ensures var w := Run(cfg, Init(rows), acts);
            var r, q := w.scheduler.rows[k], Pubs(cfg, rows, acts, k);
            && (k in order <==> r.active && (r.next.None? || r.next.value <= w.clock))
            && (q != [] && q[|q| - 1].saved ==> (k in order <==> r.active && cfg.cron(k, q[|q| - 1].at) <= w.clock))
  {
    RunFires(cfg, Init(rows), acts);
    var w := Run(cfg, Init(rows), acts);
    assert RowOk(cfg, k, w.scheduler.rows[k], w.scheduler.pubs[k], w.clock);
  }

  // ----- Every publish has a history of its own -----

  /** All histories published so far are older than `limit`, and no two publishes share one. */
  ghost predicate FreshPubs(pubs: seq<seq<Pub>>, limit: nat) {
    && (forall k, i | 0 <= k < |pubs| && 0 <= i < |pubs[k]| :: pubs[k][i].hist < limit)
    && (forall k, i, l, j | 0 <= k < |pubs| && 0 <= i < |pubs[k]| && 0 <= l < |pubs| && 0 <= j < |pubs[l]|
                            && (k != l || i != j) :: pubs[k][i].hist != pubs[l][j].hist)
  }

  /** The history that the next XADD will carry, or a later one. */
  function NextHistory(w: World): nat {
    if w.scheduler.stage.Created? then w.scheduler.stage.hist else |w.books.status|
  }

  ghost predicate Fresh(w: World) {
    && FreshPubs(w.scheduler.pubs, NextHistory(w))
    && (w.scheduler.stage.Created? ==> w.scheduler.stage.hist < |w.books.status|)
  }

  lemma EnqueueKeepsFresh(cfg: Config, w: World, applied: bool, replied: bool)
    requires Fresh(w)
    ensures Fresh(StepEnqueue(cfg, w, applied, replied))
  {
    var g, t := w.scheduler.stage, StepEnqueue(cfg, w, applied, replied).scheduler;
    if g.Created? && g.sid < |w.scheduler.pubs| && applied {
      forall k, i | 0 <= k < |t.pubs| && 0 <= i < |t.pubs[k]|
        ensures (i < |w.scheduler.pubs[k]| && t.pubs[k][i] == w.scheduler.pubs[k][i])
                || (k == g.sid && i == |w.scheduler.pubs[k]| && t.pubs[k][i].hist == g.hist) {}
    }
  }

  lemma SaveKeepsFresh(cfg: Config, w: World, applied: bool)
    requires Fresh(w)
    ensures Fresh(StepSave(cfg, w, applied))
  {
    var p: seq<seq<Pub>>, q: seq<seq<Pub>> := w.scheduler.pubs, StepSave(cfg, w, applied).scheduler.pubs;
    forall k, i | 0 <= k < |q| && 0 <= i < |q[k]| ensures i < |p[k]| && q[k][i].hist == p[k][i].hist {}
  }

  lemma StepKeepsFresh(cfg: Config, w: World, a: Action)
    requires Fresh(w)
    ensures Fresh(Step(cfg, w, a))
  {
    match a
    case Enqueue(applied, replied) => EnqueueKeepsFresh(cfg, w, applied, replied);
    case Save(applied) => SaveKeepsFresh(cfg, w, applied);
    case _ => OthersKeepPubs(cfg, w, a);
  }

  lemma OthersKeepPubs(cfg: Config, w: World, a: Action)
    requires !a.Enqueue? && !a.Save?
    requires w.scheduler.stage.Created? ==> w.scheduler.stage.hist < |w.books.status|
    ensures var t := Step(cfg, w, a);
            && t.scheduler.pubs == w.scheduler.pubs && NextHistory(w) <= NextHistory(t)
            && (t.scheduler.stage.Created? ==> t.scheduler.stage.hist < |t.books.status|)
  {}

  lemma {:induction false} RunKeepsFresh(cfg: Config, w: World, acts: seq<Action>)
    requires Fresh(w)
    ensures Fresh(Run(cfg, w, acts))
    decreases |acts|
  {
    if acts != [] {
      StepKeepsFresh(cfg, w, acts[0]);
      RunKeepsFresh(cfg, Step(cfg, w, acts[0]), acts[1..]);
    }
  }

  /** In every run, whatever fails, the publishes of all schedules carry different histories. */
  lemma PublishesAreFresh(cfg: Config, rows: seq<Schedule>, acts: seq<Action>)
    ensures var w := Run(cfg, Init(rows), acts); FreshPubs(w.scheduler.pubs, |w.books.status|)
  {
    RunKeepsFresh(cfg, Init(rows), acts);
  }

  function RowAt(w: World, k: nat): Option<Schedule> {
    if k < |w.scheduler.rows| then Some(w.scheduler.rows[k]) else None
  }

  /** In every run, `next_execution` moves only to pay for the publish just accepted, whose history no
    * other publish carries, and pays for it once.
    */
  lemma AdvanceIsPaidFor(cfg: Config, rows: seq<Schedule>, acts: seq<Action>, a: Action, k: nat)
    requires var w := Run(cfg, Init(rows), acts); RowAt(Step(cfg, w, a), k) != RowAt(w, k)
    ensures var w := Run(cfg, Init(rows), acts);
            var s, t := w.scheduler, Step(cfg, w, a).scheduler;
            && k < |s.pubs| == |s.rows| == |t.rows| == |t.pubs| && s.pubs[k] != [] && !Last(s.pubs[k]).saved
            && t.pubs[k] == s.pubs[k][..|s.pubs[k]| - 1] + [Last(s.pubs[k]).(saved := true)]
            && t.rows[k] == s.rows[k].(next := Some(cfg.cron(k, Last(s.pubs[k]).at)))
            && FreshPubs(s.pubs, |w.books.status|)
  {
    RunFires(cfg, Init(rows), acts);
    PublishesAreFresh(cfg, rows, acts);
    OnlySaveMoves(cfg, Run(cfg, Init(rows), acts), a);
  }

  lemma OnlySaveMoves(cfg: Config, w: World, a: Action)
    ensures |Step(cfg, w, a).scheduler.rows| == |w.scheduler.rows|
    ensures !a.Save? ==> Step(cfg, w, a).scheduler.rows == w.scheduler.rows
  {}
}
