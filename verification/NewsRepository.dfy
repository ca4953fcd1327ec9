/** `CreateIgnoreConflict`, statement by statement, with other transactions in between. */
module NewsRepository {
  import opened Wrappers
  import opened NewsStore

  /** How the statements of one call end, and what other transactions do between them. */
  datatype CreateIo = CreateIo(
    waits: seq<seq<Action>>, insertFails: bool, afterInsert: seq<Action>, mentionsFail: bool,
    afterMentions: seq<Action>, commit: CommitIo)

  function Owner(a: Action): nat { a.t }

  predicate Foreign(acts: seq<Action>, t: nat) {
    forall i | 0 <= i < |acts| :: Owner(acts[i]) != t
  }

  predicate AllForeign(io: CreateIo, t: nat) {
    && (forall i | 0 <= i < |io.waits| :: Foreign(io.waits[i], t))
    && Foreign(io.afterInsert, t) && Foreign(io.afterMentions, t)
  }

  /** Wait while another transaction holds the hash; the context ends the wait when it runs out. */
  function Waited(s: State, t: nat, waits: seq<seq<Action>>): State
    decreases |waits|
  {
    if !Blocked(s, t) || waits == [] then s else Waited(Run(s, waits[0]), t, waits[1..])
  }

  /** Where a call leads, whether it returns an error, and the number of the row it inserted. */
  datatype Created = Created(state: State, failed: bool, id: Option<nat>)

  function Create(s: State, t: nat, news: News, io: CreateIo): Created
    requires t !in s.txs && AllForeign(io, t)
  {
    var w := Waited(Step(s, Begin(t, news)), t, io.waits);
    if Blocked(w, t) then Created(Step(w, Abort(t)), true, None)
    else
      var u := Step(w, InsertNews(t, io.insertFails));
      if io.insertFails then Created(u, true, None)
      else
        InsertDecides(s, t, news, io);
        Resume(u, t, news, io)
  }

  /** The insert has either found a conflict or made a row. */
  function Resume(u: State, t: nat, news: News, io: CreateIo): Created
    requires t in u.txs && (u.txs[t].stage.Conflicted? || u.txs[t].stage.Inserted?)
  {
    var v := Run(u, io.afterInsert);
    if u.txs[t].stage.Conflicted? then Created(Step(v, Commit(t, io.commit)), !io.commit.Committed?, None)
    else Finish(v, t, news, io, u.txs[t].stage.id)
  }

  /** The second half, once the row has been inserted. */
  function Finish(v: State, t: nat, news: News, io: CreateIo, id: nat): Created {
    if news.mentions == [] then Created(Step(v, Commit(t, io.commit)), !io.commit.Committed?, Some(id))
    else
      var x := Step(v, InsertMentions(t, io.mentionsFail));
      if io.mentionsFail then Created(x, true, Some(id))
      else Created(Step(Run(x, io.afterMentions), Commit(t, io.commit)), !io.commit.Committed?, Some(id))
  }

  // ----- Other transactions leave this one alone -----

  lemma {:induction false} ForeignKeepsTx(s: State, acts: seq<Action>, t: nat)
    requires Foreign(acts, t)
    ensures t in s.txs <==> t in Run(s, acts).txs
    ensures t in s.txs ==> Run(s, acts).txs[t] == s.txs[t]
    decreases |acts|
  {
    if acts != [] {
      assert Owner(acts[0]) != t;
      assert forall i | 0 <= i < |acts[1..]| :: acts[1..][i] == acts[i + 1];
      ForeignKeepsTx(Step(s, acts[0]), acts[1..], t);
    }
  }

  lemma {:induction false} WaitKeepsTx(s: State, t: nat, waits: seq<seq<Action>>)
    requires forall i | 0 <= i < |waits| :: Foreign(waits[i], t)
    requires t in s.txs
    ensures t in Waited(s, t, waits).txs && Waited(s, t, waits).txs[t] == s.txs[t]
    decreases |waits|
  {
    if waits != [] {
      ForeignKeepsTx(s, waits[0], t);
      WaitKeepsTx(Run(s, waits[0]), t, waits[1..]);
    }
  }

  lemma {:induction false} WaitKeepsInv(s: State, t: nat, waits: seq<seq<Action>>)
    requires Inv(s)
    ensures Inv(Waited(s, t, waits))
    decreases |waits|
  {
    if waits != [] {
      RunKeepsInv(s, waits[0]);
      WaitKeepsInv(Run(s, waits[0]), t, waits[1..]);
    }
  }

  lemma InsertDecides(s: State, t: nat, news: News, io: CreateIo)
    requires t !in s.txs && AllForeign(io, t)
    ensures var w := Waited(Step(s, Begin(t, news)), t, io.waits);
            !Blocked(w, t) && !io.insertFails ==>
              var u := Step(w, InsertNews(t, false));
              t in u.txs && u.txs[t].news == news
              && u.txs[t].stage == if Taken(w.tables.rows, news.hash) then Conflicted else Inserted(w.nextId)
  {
    WaitKeepsTx(Step(s, Begin(t, news)), t, io.waits);
  }

  // ----- What a call achieves -----

  ghost predicate Stores(s: State, id: nat, news: News) {
    id in s.tables.rows && s.tables.rows[id] == news.hash && MentionsOf(s.tables.mentions, id) == news.mentions
  }

  ghost predicate Achieves(r: Created, t: nat, news: News) {
    && Inv(r.state) && t !in r.state.txs
    && (!r.failed ==> Taken(r.state.tables.rows, news.hash) && news.hash in r.state.stored)
    && (!r.failed && r.id.Some? ==> Stores(r.state, r.id.value, news))
  }

  lemma CommitStores(s: State, t: nat, io: CommitIo, id: nat)
    requires Inv(s) && t in s.txs && Ready(s.txs[t]) && !s.txs[t].stage.Conflicted? && s.txs[t].stage.id == id
    ensures Achieves(Created(Step(s, Commit(t, io)), !io.Committed?, Some(id)), t, s.txs[t].news)
  {
    StepKeepsInv(s, Commit(t, io));
    var r := Step(s, Commit(t, io));
    if !io.Refused? {
      assert id in r.tables.rows && r.creators[id] == s.txs[t].news;
    }
  }

  lemma ConflictStores(s: State, t: nat, io: CommitIo)
    requires Inv(s) && t in s.txs && s.txs[t].stage.Conflicted?
    ensures Achieves(Created(Step(s, Commit(t, io)), !io.Committed?, None), t, s.txs[t].news)
  {
    StepKeepsInv(s, Commit(t, io));
    assert Taken(s.tables.rows, s.txs[t].news.hash);
  }

  lemma FinishStores(v: State, t: nat, news: News, io: CreateIo, id: nat)
    requires Inv(v) && t in v.txs && v.txs[t] == Tx(news, Inserted(id), []) && AllForeign(io, t)
    ensures Achieves(Finish(v, t, news, io, id), t, news)
  {
    if news.mentions == [] {
      CommitStores(v, t, io.commit, id);
    } else {
      var x := Step(v, InsertMentions(t, io.mentionsFail));
      StepKeepsInv(v, InsertMentions(t, io.mentionsFail));
      if !io.mentionsFail {
        ForeignKeepsTx(x, io.afterMentions, t);
        RunKeepsInv(x, io.afterMentions);
        CommitStores(Run(x, io.afterMentions), t, io.commit, id);
      }
    }
  }

  lemma ResumeStores(u: State, t: nat, news: News, io: CreateIo)
    requires Inv(u) && t in u.txs && u.txs[t].news == news && AllForeign(io, t)
    requires u.txs[t].stage.Conflicted? || u.txs[t].stage.Inserted?
    ensures Achieves(Resume(u, t, news, io), t, news)
  {
    ForeignKeepsTx(u, io.afterInsert, t);
    RunKeepsInv(u, io.afterInsert);
    var v := Run(u, io.afterInsert);
    if u.txs[t].stage.Conflicted? {
      ConflictStores(v, t, io.commit);
    } else {
      FinishStores(v, t, news, io, u.txs[t].stage.id);
    }
  }

  lemma WaitIsSound(s: State, t: nat, news: News, io: CreateIo)
    requires Inv(s) && t !in s.txs && AllForeign(io, t)
    ensures var w := Waited(Step(s, Begin(t, news)), t, io.waits);
            && Inv(w) && t in w.txs && w.txs[t] == Tx(news, Begun, [])
            && forall hash :: Taken(s.tables.rows, hash) ==> Taken(w.tables.rows, hash)
  {
    var b := Step(s, Begin(t, news));
    StepKeepsInv(s, Begin(t, news));
    WaitKeepsTx(b, t, io.waits);
    WaitKeepsInv(b, t, io.waits);
    forall hash | Taken(s.tables.rows, hash) ensures Taken(Waited(b, t, io.waits).tables.rows, hash) {
      var id :| id in s.tables.rows && s.tables.rows[id] == hash;
      WaitKeepsRow(b, t, io.waits, id);
    }
  }

  /** A call that returns no error leaves exactly one row with its hash: either its own, holding the
    * mentions it supplied, or one that was there before it, which it leaves alone.
    */
  lemma CreateStores(s: State, t: nat, news: News, io: CreateIo)
    requires Inv(s) && t !in s.txs && AllForeign(io, t)
    ensures Achieves(Create(s, t, news, io), t, news)
    ensures Create(s, t, news, io).id.Some? ==> !Taken(s.tables.rows, news.hash)
  {
    var w := Waited(Step(s, Begin(t, news)), t, io.waits);
    WaitIsSound(s, t, news, io);
    if Blocked(w, t) {
      EndKeepsInv(w, t);
    } else if io.insertFails {
      EndKeepsInv(w, t);
    } else {
      InsertNewsKeepsInv(w, t, false);
      ResumeStores(Step(w, InsertNews(t, false)), t, news, io);
    }
  }

  // ----- What a call reports -----

  /** The state after the first `i` stretches of waiting. */
  function After(s: State, waits: seq<seq<Action>>, i: nat): State
    requires i <= |waits|
    decreases i
  {
    if i == 0 then s else Run(After(s, waits, i - 1), waits[i - 1])
  }

  /** Some other transaction has inserted the same hash and has not ended, each time the insert is tried. */
  ghost predicate AlwaysHeld(s: State, t: nat, hash: string, waits: seq<seq<Action>>) {
    forall i | 0 <= i <= |waits| :: HeldByOther(After(s, waits, i), t, hash)
  }

  ghost predicate HeldByOther(s: State, t: nat, hash: string) {
    exists u ::
      && u in s.txs && u != t && s.txs[u].news.hash == hash
      && (s.txs[u].stage.Inserted? || s.txs[u].stage.Mentioned?)
  }

  lemma {:induction false} AfterFirst(s: State, waits: seq<seq<Action>>, i: nat)
    requires 1 <= i <= |waits|
    ensures After(s, waits, i) == After(Run(s, waits[0]), waits[1..], i - 1)
    decreases i
  {
    if i > 1 {
      AfterFirst(s, waits, i - 1);
      assert waits[1..][i - 2] == waits[i - 1];
    }
  }

  lemma {:induction false} StillBlocked(s: State, t: nat, waits: seq<seq<Action>>)
    requires forall i | 0 <= i < |waits| :: Foreign(waits[i], t)
    requires t in s.txs
    ensures Blocked(Waited(s, t, waits), t) <==> AlwaysHeld(s, t, s.txs[t].news.hash, waits)
    decreases |waits|
  {
    var hash := s.txs[t].news.hash;
    assert After(s, waits, 0) == s;
    assert Blocked(s, t) <==> HeldByOther(s, t, hash);
    if Blocked(s, t) && waits != [] {
      var u := Run(s, waits[0]);
      ForeignKeepsTx(s, waits[0], t);
      StillBlocked(u, t, waits[1..]);
      forall i | 1 <= i <= |waits| ensures After(s, waits, i) == After(u, waits[1..], i - 1) {
        AfterFirst(s, waits, i);
      }
      assert forall i | 0 <= i <= |waits[1..]| :: After(u, waits[1..], i) == After(s, waits, i + 1);
    }
  }

  /** The call returns an error exactly if the insert was blocked to the end, failed, or found the hash free
    * and then could not insert the mentions there were, or if the commit was not confirmed; and it inserts
    * a row exactly if it was not blocked, did not fail, and found the hash free.
    */
  lemma CreateReports(s: State, t: nat, news: News, io: CreateIo)
    requires t !in s.txs && AllForeign(io, t)
    ensures var b := Step(s, Begin(t, news));
            var r, free := Create(s, t, news, io), !Taken(Waited(b, t, io.waits).tables.rows, news.hash);
            && (r.failed <==>
                  || AlwaysHeld(b, t, news.hash, io.waits)
                  || io.insertFails
                  || (free && news.mentions != [] && io.mentionsFail)
                  || !io.commit.Committed?)
            && (r.id.Some? <==> !AlwaysHeld(b, t, news.hash, io.waits) && !io.insertFails && free)
  {
    var b := Step(s, Begin(t, news));
    StillBlocked(b, t, io.waits);
    InsertDecides(s, t, news, io);
  }

  /** A duplicate is no error: with the hash taken, the call fails only if a statement or the commit does,
    * inserts nothing, and by itself changes nothing but what has been reported as stored.
    */
  lemma DuplicateIsNoError(s: State, t: nat, news: News, io: CreateIo)
    requires Inv(s) && t !in s.txs && AllForeign(io, t) && Taken(s.tables.rows, news.hash)
    ensures var r := Create(s, t, news, io);
            && (r.failed <==> io.insertFails || !io.commit.Committed?) && r.id.None?
            && (io.afterInsert == [] ==>
                  r.state.tables == s.tables && r.state.txs == s.txs && r.state.creators == s.creators)
  {
    var b := Step(s, Begin(t, news));
    StepKeepsInv(s, Begin(t, news));
    NotBlockedIfTaken(b, t);
    InsertDecides(s, t, news, io);
    assert b.txs - {t} == s.txs;
    if io.afterInsert == [] && !io.insertFails {
      var u := Step(b, InsertNews(t, false));
      assert u.txs - {t} == s.txs;
    }
  }

  lemma NotBlockedIfTaken(s: State, t: nat)
    requires Inv(s) && t in s.txs && Taken(s.tables.rows, s.txs[t].news.hash)
    ensures !Blocked(s, t)
  {
    forall u | u in s.txs && u != t ensures !Holds(s.txs[u], s.txs[t].news.hash) {
      assert Owns(s, u);
    }
  }

  /** A free hash that nobody holds is stored, under the next number, by a call in which nothing fails. */
  lemma FreeHashIsStored(s: State, t: nat, news: News, io: CreateIo)
    requires Inv(s) && t !in s.txs && AllForeign(io, t)
    requires !Taken(s.tables.rows, news.hash) && !HeldByOther(s, t, news.hash)
    requires !io.insertFails && !io.mentionsFail && io.commit.Committed?
    ensures var r := Create(s, t, news, io);
            !r.failed && r.id == Some(s.nextId) && Stores(r.state, s.nextId, news)
  {
    var b := Step(s, Begin(t, news));
    forall u | u in b.txs && u != t ensures !Holds(b.txs[u], news.hash) {
      assert u in s.txs && b.txs[u] == s.txs[u];
    }
    assert !Blocked(b, t);
    InsertDecides(s, t, news, io);
    CreateStores(s, t, news, io);
  }

  /** Rows only accumulate. */
  lemma {:induction false} WaitKeepsRow(s: State, t: nat, waits: seq<seq<Action>>, id: nat)
    requires Inv(s) && id in s.tables.rows
    ensures id in Waited(s, t, waits).tables.rows && Waited(s, t, waits).tables.rows[id] == s.tables.rows[id]
    decreases |waits|
  {
    if waits != [] {
      RowsAreFinal(s, waits[0], id);
      WaitKeepsRow(Run(s, waits[0]), t, waits[1..], id);
    }
  }

  // ----- The code -----

  /** The record a caller passes; an insert clears its mentions and fills in its row number. */
  class StockNews {
    var id: nat
    const hash: string
    var mentions: seq<Mention>

    constructor (hash: string, mentions: seq<Mention>)
      ensures id == 0 && this.hash == hash && this.mentions == mentions
    {
      id, this.hash, this.mentions := 0, hash, mentions;
    }
  }

  class StockNewsRepository {
    var s: State

    ghost predicate Valid()
      reads this
    {
      Inv(s)
    }

    constructor ()
      ensures Valid() && s == EMPTY
    {
      s := EMPTY;
    }

    /** `t` names the call's own transaction. */
    method CreateIgnoreConflict(news: StockNews, t: nat, io: CreateIo) returns (failed: bool)
      requires Valid() && t !in s.txs && AllForeign(io, t)
      modifies this, news
      ensures Valid() && t !in s.txs
      ensures !failed ==> Taken(s.tables.rows, news.hash) && news.hash in s.stored
      ensures !failed && news.id != old(news.id) ==> Stores(s, news.id, News(news.hash, old(news.mentions)))
      ensures Taken(old(s).tables.rows, news.hash) ==>
                (failed <==> io.insertFails || !io.commit.Committed?) && news.id == old(news.id)
      ensures var r := Create(old(s), t, News(news.hash, old(news.mentions)), io);
              && s == r.state && failed == r.failed
              && news.id == (if r.id.Some? then r.id.value else old(news.id))
              && news.mentions == []
    {
      var mentions := news.mentions;
      var record := News(news.hash, mentions);
      CreateStores(s, t, record, io);
      if Taken(s.tables.rows, news.hash) {
        DuplicateIsNoError(s, t, record, io);
      }
      s := Step(s, Begin(t, record));
      news.mentions := [];
      ghost var begun := s;
      var i := 0;
      assert io.waits[0..] == io.waits;
      while Blocked(s, t) && i < |io.waits|
        invariant i <= |io.waits|
        invariant Waited(s, t, io.waits[i..]) == Waited(begun, t, io.waits)
        invariant news.mentions == [] && news.id == old(news.id)
      {
        assert io.waits[i..][1..] == io.waits[i + 1..];
        s := Run(s, io.waits[i]);
        i := i + 1;
      }
      if Blocked(s, t) {
        s := Step(s, Abort(t));
        return true;
      }
      InsertDecides(old(s), t, record, io);
      s := Step(s, InsertNews(t, io.insertFails));
      if io.insertFails {
        return true;
      }
      var stage := s.txs[t].stage;
      s := Run(s, io.afterInsert);
      if stage.Conflicted? {
        s := Step(s, Commit(t, io.commit));
        return !io.commit.Committed?;
      }
      news.id := stage.id;
      if |mentions| > 0 {
        s := Step(s, InsertMentions(t, io.mentionsFail));
        if io.mentionsFail {
          return true;
        }
        s := Run(s, io.afterMentions);
      }
      s := Step(s, Commit(t, io.commit));
      return !io.commit.Committed?;
    }
  }
}
