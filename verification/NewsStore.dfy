/** Storing news: transactions that insert a row unless its hash is taken, and then its mentions.
 *
 * Only what the code relies on is modelled of the database: the unique index on the hash, under
 * which an insert waits for an unfinished one of the same hash; row numbers that are never reused;
 * and transactions that take effect at their commit, or not at all.
 */
module NewsStore {
  datatype Mention = Mention(stock: string, sentiment: string)

  /** What the caller of an insert supplies. */
  datatype News = News(hash: string, mentions: seq<Mention>)

  datatype MentionRow = MentionRow(newsId: nat, mention: Mention)

  /** The committed tables. */
  datatype Tables = Tables(rows: map<nat, string>, mentions: seq<MentionRow>)

  datatype Stage = Begun | Conflicted | Inserted(id: nat) | Mentioned(id: nat)

  /** A transaction in progress, with the mention rows that only it can see until its commit. */
  datatype Tx = Tx(news: News, stage: Stage, mentionRows: seq<MentionRow>)

  /** `creators` remembers, for every committed row, the insert that created it, and `stored` the
    * hashes whose insert was reported to have succeeded.
    */
  datatype State = State(
    tables: Tables, txs: map<nat, Tx>, nextId: nat, creators: map<nat, News>, stored: set<string>)

  /** A commit may fail, or succeed without the caller hearing of it. */
  datatype CommitIo = Committed | Refused | ReplyLost

  datatype Action =
    | Begin(t: nat, news: News)
    | InsertNews(t: nat, fails: bool)
    | InsertMentions(t: nat, fails: bool)
    | Commit(t: nat, io: CommitIo)
    | Abort(t: nat)

  const EMPTY := State(Tables(map[], []), map[], 1, map[], {})

  predicate Holds(tx: Tx, hash: string) {
    (tx.stage.Inserted? || tx.stage.Mentioned?) && tx.news.hash == hash
  }

  /** Another transaction has inserted the same hash and has not ended. */
  predicate Blocked(s: State, t: nat) {
    t in s.txs && exists u :: u in s.txs && u != t && Holds(s.txs[u], s.txs[t].news.hash)
  }

  predicate Taken(rows: map<nat, string>, hash: string) { exists id :: id in rows && rows[id] == hash }

  function End(s: State, t: nat): State { s.(txs := s.txs - {t}) }

  function SetStage(s: State, t: nat, stage: Stage): State
    requires t in s.txs
  {
    s.(txs := s.txs[t := s.txs[t].(stage := stage)])
  }

  function RowsOf(id: nat, ms: seq<Mention>): (rs: seq<MentionRow>)
    ensures |rs| == |ms| && forall i | 0 <= i < |ms| :: rs[i] == MentionRow(id, ms[i])
  {
    seq(|ms|, i requires 0 <= i < |ms| => MentionRow(id, ms[i]))
  }

  function StepInsertNews(s: State, t: nat, fails: bool): State {
    if t !in s.txs || !s.txs[t].stage.Begun? || Blocked(s, t) then s
    else if fails then End(s, t)
    else if Taken(s.tables.rows, s.txs[t].news.hash) then SetStage(s, t, Conflicted)
    else SetStage(s, t, Inserted(s.nextId)).(nextId := s.nextId + 1)
  }

  function StepInsertMentions(s: State, t: nat, fails: bool): State {
    if t !in s.txs || !s.txs[t].stage.Inserted? then s
    else if fails then End(s, t)
    else
      var id := s.txs[t].stage.id;
      s.(txs := s.txs[t := Tx(s.txs[t].news, Mentioned(id), RowsOf(id, s.txs[t].news.mentions))])
  }

  /** A transaction that supplies mentions commits a row only after they are inserted. */
  predicate Ready(tx: Tx) {
    match tx.stage
    case Begun => false
    case Conflicted => true
    case Inserted(_) => tx.news.mentions == []
    case Mentioned(_) => true
  }

  function Heard(stored: set<string>, hash: string, io: CommitIo): set<string> {
    if io.Committed? then stored + {hash} else stored
  }

  /** The tables with the row and the mention rows of a transaction merged in. */
  function Merge(tables: Tables, id: nat, hash: string, mentionRows: seq<MentionRow>): Tables {
    Tables(tables.rows[id := hash], tables.mentions + mentionRows)
  }

  function StepCommit(s: State, t: nat, io: CommitIo): State {
    if t !in s.txs || !Ready(s.txs[t]) then s
    else if io.Refused? then End(s, t)
    else
      var n := s.txs[t].news;
      var stored := Heard(s.stored, n.hash, io);
      if s.txs[t].stage.Conflicted? then End(s, t).(stored := stored)
      else
        var id := s.txs[t].stage.id;
        State(Merge(s.tables, id, n.hash, s.txs[t].mentionRows), s.txs - {t}, s.nextId, s.creators[id := n], stored)
  }

  function Step(s: State, a: Action): State {
    match a
    case Begin(t, news) => if t in s.txs then s else s.(txs := s.txs[t := Tx(news, Begun, [])])
    case InsertNews(t, fails) => StepInsertNews(s, t, fails)
    case InsertMentions(t, fails) => StepInsertMentions(s, t, fails)
    case Commit(t, io) => StepCommit(s, t, io)
    case Abort(t) => End(s, t)
  }

  function Run(s: State, acts: seq<Action>): State
    decreases |acts|
  {
    if acts == [] then s else Run(Step(s, acts[0]), acts[1..])
  }

  // ----- Invariants -----

  /** The mentions of one row, in order. */
  function MentionsOf(ms: seq<MentionRow>, id: nat): seq<Mention> {
    if ms == [] then []
    else
      var last := ms[|ms| - 1];
      MentionsOf(ms[..|ms| - 1], id) + if last.newsId == id then [last.mention] else []
  }

  /** Mention rows carry the number of the row their transaction has inserted; that number is its own,
    * and its hash is free.
    */
  ghost predicate Owns(s: State, t: nat)
    requires t in s.txs
  {
    var tx := s.txs[t];
    && tx.mentionRows == (if tx.stage.Mentioned? then RowsOf(tx.stage.id, tx.news.mentions) else [])
    && (tx.stage.Inserted? || tx.stage.Mentioned? ==>
      && tx.stage.id < s.nextId && tx.stage.id !in s.tables.rows
      && (forall id | id in s.tables.rows :: s.tables.rows[id] != tx.news.hash)
      && (forall u | u in s.txs && u != t ::
            !Holds(s.txs[u], tx.news.hash)
            && (s.txs[u].stage.Inserted? || s.txs[u].stage.Mentioned? ==> s.txs[u].stage.id != tx.stage.id)))
  }

  ghost predicate Locked(s: State) { forall t | t in s.txs :: Owns(s, t) }

  ghost predicate Unique(s: State) {
    && (forall i, j | i in s.tables.rows && j in s.tables.rows :: s.tables.rows[i] == s.tables.rows[j] ==> i == j)
    && (forall i | i in s.tables.rows :: i < s.nextId)
  }

  ghost predicate Pointing(ms: seq<MentionRow>, rows: map<nat, string>) {
    forall i | 0 <= i < |ms| :: ms[i].newsId in rows
  }

  ghost predicate Attributed(tables: Tables, creators: map<nat, News>) {
    && creators.Keys == tables.rows.Keys
    && Pointing(tables.mentions, tables.rows)
    && (forall id | id in tables.rows ::
          creators[id].hash == tables.rows[id] && MentionsOf(tables.mentions, id) == creators[id].mentions)
  }

  ghost predicate Reported(s: State) {
    && (forall h | h in s.stored :: Taken(s.tables.rows, h))
    && (forall t | t in s.txs && s.txs[t].stage.Conflicted? :: Taken(s.tables.rows, s.txs[t].news.hash))
  }

  ghost predicate Inv(s: State) {
    Locked(s) && Unique(s) && Attributed(s.tables, s.creators) && Reported(s)
  }

  lemma EndKeepsInv(s: State, t: nat)
    requires Inv(s)
    ensures Inv(End(s, t))
  {
    forall u | u in End(s, t).txs ensures Owns(End(s, t), u) {
      assert Owns(s, u);
    }
  }

  lemma BeginKeepsInv(s: State, t: nat, news: News)
    requires Inv(s)
    ensures Inv(Step(s, Begin(t, news)))
  {
    var r := Step(s, Begin(t, news));
    forall u | u in r.txs ensures Owns(r, u) {
      if u in s.txs { assert Owns(s, u); }
    }
  }

  lemma ConflictKeepsInv(s: State, t: nat)
    requires Inv(s) && t in s.txs && s.txs[t].stage.Begun? && Taken(s.tables.rows, s.txs[t].news.hash)
    ensures Inv(SetStage(s, t, Conflicted))
  {
    forall u | u in s.txs ensures Owns(SetStage(s, t, Conflicted), u) {
      assert Owns(s, u);
    }
  }

  lemma NewRowKeepsInv(s: State, t: nat)
    requires Inv(s) && t in s.txs && s.txs[t].stage.Begun? && !Blocked(s, t)
    requires !Taken(s.tables.rows, s.txs[t].news.hash)
    ensures Inv(SetStage(s, t, Inserted(s.nextId)).(nextId := s.nextId + 1))
  {
    var r := SetStage(s, t, Inserted(s.nextId)).(nextId := s.nextId + 1);
    forall u | u in r.txs ensures Owns(r, u) {
      assert Owns(s, u);
    }
  }

  lemma InsertNewsKeepsInv(s: State, t: nat, fails: bool)
    requires Inv(s)
    ensures Inv(StepInsertNews(s, t, fails))
  {
    if t in s.txs && s.txs[t].stage.Begun? && !Blocked(s, t) {
      if fails {
        EndKeepsInv(s, t);
      } else if Taken(s.tables.rows, s.txs[t].news.hash) {
        ConflictKeepsInv(s, t);
      } else {
        NewRowKeepsInv(s, t);
      }
    }
  }

  lemma InsertMentionsKeepsInv(s: State, t: nat, fails: bool)
    requires Inv(s)
    ensures Inv(StepInsertMentions(s, t, fails))
  {
    var r := StepInsertMentions(s, t, fails);
    if r == End(s, t) {
      EndKeepsInv(s, t);
    } else if r != s {
      forall u | u in r.txs ensures Owns(r, u) {
        assert Owns(s, u);
      }
    }
  }

  lemma {:induction false} MentionsOfAppended(a: seq<MentionRow>, b: seq<MentionRow>, id: nat)
    ensures MentionsOf(a + b, id) == MentionsOf(a, id) + MentionsOf(b, id)
    decreases |b|
  {
    if b == [] {
      assert a + b == a;
    } else {
      var n := |b| - 1;
      assert (a + b)[..|a| + n] == a + b[..n];
      MentionsOfAppended(a, b[..n], id);
    }
  }

  lemma {:induction false} MentionsOfRows(id: nat, ms: seq<Mention>, other: nat)
    ensures MentionsOf(RowsOf(id, ms), other) == if other == id then ms else []
  {
    if ms != [] {
      var n := |ms| - 1;
      assert RowsOf(id, ms)[..n] == RowsOf(id, ms[..n]);
      MentionsOfRows(id, ms[..n], other);
      assert ms == ms[..n] + [ms[n]];
    }
  }

  lemma {:induction false} NoMentions(ms: seq<MentionRow>, id: nat)
    requires forall i | 0 <= i < |ms| :: ms[i].newsId != id
    ensures MentionsOf(ms, id) == []
  {
    if ms != [] {
      NoMentions(ms[..|ms| - 1], id);
    }
  }

  lemma MentionsAfterMerge(ms: seq<MentionRow>, id: nat, mentions: seq<Mention>, k: nat)
    requires forall i | 0 <= i < |ms| :: ms[i].newsId != id
    ensures MentionsOf(ms + RowsOf(id, mentions), k) == if k == id then mentions else MentionsOf(ms, k)
  {
    NoMentions(ms, id);
    MentionsOfAppended(ms, RowsOf(id, mentions), k);
    MentionsOfRows(id, mentions, k);
  }

  lemma MergeKeepsPointers(ms: seq<MentionRow>, rows: map<nat, string>, id: nat, hash: string, mentions: seq<Mention>)
    requires Pointing(ms, rows)
    ensures Pointing(ms + RowsOf(id, mentions), rows[id := hash])
  {
    var all := ms + RowsOf(id, mentions);
    forall i | 0 <= i < |all| ensures all[i].newsId in rows[id := hash] {
      assert all[i] == if i < |ms| then ms[i] else RowsOf(id, mentions)[i - |ms|];
    }
  }

  lemma NewRowIsAttributed(tables: Tables, creators: map<nat, News>, id: nat, n: News)
    requires Attributed(tables, creators) && id !in tables.rows
    ensures Attributed(Merge(tables, id, n.hash, RowsOf(id, n.mentions)), creators[id := n])
  {
    var merged := Merge(tables, id, n.hash, RowsOf(id, n.mentions));
    MergeKeepsPointers(tables.mentions, tables.rows, id, n.hash, n.mentions);
    forall k | k in merged.rows
      ensures MentionsOf(merged.mentions, k) == if k == id then n.mentions else MentionsOf(tables.mentions, k)
    {
      MentionsAfterMerge(tables.mentions, id, n.mentions, k);
    }
  }

  lemma TakenGrows(rows: map<nat, string>, id: nat, hash: string, h: string)
    requires id !in rows
    ensures Taken(rows[id := hash], h) <==> h == hash || Taken(rows, h)
  {
    var r := rows[id := hash];
    assert r[id] == hash;
    if Taken(rows, h) {
      var i :| i in rows && rows[i] == h;
      assert r[i] == h;
    }
  }

  lemma RowKeepsReported(s: State, t: nat, io: CommitIo)
    requires Reported(s) && t in s.txs && (s.txs[t].stage.Inserted? || s.txs[t].stage.Mentioned?)
    requires s.txs[t].stage.id !in s.tables.rows && Ready(s.txs[t]) && !io.Refused?
    ensures Reported(StepCommit(s, t, io))
  {
    var rows, id, hash := s.tables.rows, s.txs[t].stage.id, s.txs[t].news.hash;
    var r := StepCommit(s, t, io);
    assert r.tables.rows == rows[id := hash];
    forall h | h in r.stored ensures Taken(r.tables.rows, h) {
      TakenGrows(rows, id, hash, h);
      assert h in s.stored ==> Taken(rows, h);
    }
    forall u | u in r.txs && r.txs[u].stage.Conflicted? ensures Taken(r.tables.rows, r.txs[u].news.hash) {
      assert r.txs[u] == s.txs[u];
      TakenGrows(rows, id, hash, r.txs[u].news.hash);
    }
  }

  lemma RowKeepsLocks(s: State, t: nat, io: CommitIo)
    requires Locked(s) && Unique(s) && t in s.txs && (s.txs[t].stage.Inserted? || s.txs[t].stage.Mentioned?)
    ensures Locked(StepCommit(s, t, io)) && Unique(StepCommit(s, t, io))
  {
    var r := StepCommit(s, t, io);
    assert Owns(s, t);
    forall u | u in r.txs ensures Owns(r, u) {
      assert Owns(s, u);
    }
  }

  lemma CommitKeepsInv(s: State, t: nat, io: CommitIo)
    requires Inv(s)
    ensures Inv(StepCommit(s, t, io))
  {
    if t in s.txs && Ready(s.txs[t]) {
      EndKeepsInv(s, t);
      if !io.Refused? {
        if s.txs[t].stage.Conflicted? {
          assert Taken(s.tables.rows, s.txs[t].news.hash);
          assert forall u | u in End(s, t).txs :: Owns(End(s, t), u) ==> Owns(StepCommit(s, t, io), u);
        } else {
          assert Owns(s, t);
          RowKeepsLocks(s, t, io);
          RowKeepsReported(s, t, io);
          NewRowIsAttributed(s.tables, s.creators, s.txs[t].stage.id, s.txs[t].news);
        }
      }
    }
  }

  lemma StepKeepsInv(s: State, a: Action)
    requires Inv(s)
    ensures Inv(Step(s, a))
  {
    match a {
      case Begin(t, news) => BeginKeepsInv(s, t, news);
      case InsertNews(t, fails) => InsertNewsKeepsInv(s, t, fails);
      case InsertMentions(t, fails) => InsertMentionsKeepsInv(s, t, fails);
      case Commit(t, io) => CommitKeepsInv(s, t, io);
      case Abort(t) => EndKeepsInv(s, t);
    }
  }

  lemma {:induction false} RunKeepsInv(s: State, acts: seq<Action>)
    requires Inv(s)
    ensures Inv(Run(s, acts))
    decreases |acts|
  {
    if acts != [] {
      StepKeepsInv(s, acts[0]);
      RunKeepsInv(Step(s, acts[0]), acts[1..]);
    }
  }

  /** Whatever the interleaving of transactions: a hash has at most one row, and exactly one once an
    * insert of it was reported to succeed; every mention points to a row; and the mentions of a row
    * are those of the insert that created it.
    */
  lemma FirstWriterWins(acts: seq<Action>)
    ensures var s := Run(EMPTY, acts);
            && (forall i, j | i in s.tables.rows && j in s.tables.rows ::
                  s.tables.rows[i] == s.tables.rows[j] ==> i == j)
            && (forall h | h in s.stored :: Taken(s.tables.rows, h))
            && Attributed(s.tables, s.creators)
  {
    RunKeepsInv(EMPTY, acts);
  }

  lemma StepKeepsRows(s: State, a: Action, id: nat)
    requires Inv(s) && id in s.tables.rows
    ensures var r := Step(s, a);
            id in r.tables.rows && r.tables.rows[id] == s.tables.rows[id] && r.creators[id] == s.creators[id]
  {
    StepKeepsInv(s, a);
    if a.Commit? && a.t in s.txs {
      assert Owns(s, a.t);
    }
  }

  /** A committed row is final: no later insert changes it, or its mentions. */
  lemma {:induction false} RowsAreFinal(s: State, acts: seq<Action>, id: nat)
    requires Inv(s) && id in s.tables.rows
    ensures var r := Run(s, acts);
            && Inv(r) && id in r.tables.rows && r.tables.rows[id] == s.tables.rows[id]
            && MentionsOf(r.tables.mentions, id) == MentionsOf(s.tables.mentions, id)
            && r.creators[id] == s.creators[id]
    decreases |acts|
  {
    if acts != [] {
      StepKeepsInv(s, acts[0]);
      StepKeepsRows(s, acts[0], id);
      RowsAreFinal(Step(s, acts[0]), acts[1..], id);
    }
  }
}
