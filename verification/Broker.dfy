/** What Redis holds for one stream read by one consumer group, and the commands used on it.
 *
 * A stream ID is the position at which the entry was added, so IDs grow and are never
 * reused.  These two streams have no length cap: entries leave only through XDEL.
 */
module Broker {
  import opened Wrappers

  datatype Pending = Pending(count: nat, at: nat)

  datatype Broker = Broker(
    added: nat,                  // entries ever added; the next ID
    decodable: set<nat>,         // IDs whose payload unmarshals
    entries: set<nat>,           // IDs still in the stream
    cursor: nat,                 // one past the last delivered ID
    pending: map<nat, Pending>,  // the group's pending entries list
    acked: set<nat>)             // IDs the group has acknowledged

  const EMPTY: Broker := Broker(0, {}, {}, 0, map[], {})

  /** XAUTOCLAIM with COUNT 1 looks at no more than ten pending entries. */
  const SCAN_LIMIT: nat := 10

  function XAdd(b: Broker, ok: bool): Broker {
    b.(added := b.added + 1,
       entries := b.entries + {b.added},
       decodable := if ok then b.decodable + {b.added} else b.decodable)
  }

  /** The lowest ID from `i` on that is still in the stream. */
  function FirstFrom(entries: set<nat>, i: nat, n: nat): Option<nat>
    decreases n - i
  {
    if i >= n then None
    else if i in entries then Some(i)
    else FirstFrom(entries, i + 1, n)
  }

  function NextNew(b: Broker): Option<nat> { FirstFrom(b.entries, b.cursor, b.added) }

  /** XREADGROUP with the ID `>` and COUNT 1 delivers entry `m`. */
  function Deliver(b: Broker, m: nat, now: nat): Broker {
    b.(cursor := m + 1, pending := b.pending[m := Pending(1, now)])
  }

  predicate Idle(pending: map<nat, Pending>, i: nat, now: nat, minIdle: nat)
    requires i in pending
  {
    pending[i].at + minIdle <= now
  }

  /** The pending entry XAUTOCLAIM takes, looking at IDs `i..n` and at most `budget` entries. */
  function Scan(pending: map<nat, Pending>, i: nat, n: nat, budget: nat, now: nat, minIdle: nat): Option<nat>
    decreases n - i
  {
    if i >= n || budget == 0 then None
    else if i !in pending then Scan(pending, i + 1, n, budget, now, minIdle)
    else if Idle(pending, i, now, minIdle) then Some(i)
    else Scan(pending, i + 1, n, budget - 1, now, minIdle)
  }

  function ClaimTarget(b: Broker, now: nat, minIdle: nat): Option<nat> {
    Scan(b.pending, 0, b.added, SCAN_LIMIT, now, minIdle)
  }

  function CountOf(b: Broker, m: nat): nat { if m in b.pending then b.pending[m].count else 0 }

  /** XAUTOCLAIM hands `m` over: one more delivery, idle time back to zero. */
  function Reclaim(b: Broker, m: nat, now: nat): Broker {
    b.(pending := b.pending[m := Pending(CountOf(b, m) + 1, now)])
  }

  /** XACK is harmless on an entry that is no longer pending. */
  function XAck(b: Broker, m: nat): Broker {
    if m in b.pending then b.(pending := b.pending - {m}, acked := b.acked + {m}) else b
  }

  function XDel(b: Broker, m: nat): Broker { b.(entries := b.entries - {m}) }

  // ----- Conservation -----

  /** Every ID is undelivered, pending or acked, and only acked entries have left the stream. */
  ghost predicate Conserved(b: Broker) {
    && b.cursor <= b.added
    && (forall i | i in b.entries :: i < b.added)
    && (forall i | i in b.decodable :: i < b.added)
    && (forall i | b.cursor <= i < b.added :: i in b.entries)
    && (forall i | i in b.pending :: i < b.cursor && i in b.entries && i !in b.acked)
    && (forall i | i in b.acked :: i < b.cursor)
    && (forall i | 0 <= i < b.cursor :: i in b.pending || i in b.acked)
  }

  lemma {:induction false} FirstFromIsNext(entries: set<nat>, i: nat, n: nat)
    requires i < n ==> i in entries
    ensures FirstFrom(entries, i, n) == if i < n then Some(i) else None
  {
  }

  lemma NextNewIsCursor(b: Broker)
    requires Conserved(b)
    ensures NextNew(b) == if b.cursor < b.added then Some(b.cursor) else None
  {
    FirstFromIsNext(b.entries, b.cursor, b.added);
  }

  lemma CommandsConserve(b: Broker, m: nat, now: nat)
    requires Conserved(b)
    ensures forall ok :: Conserved(XAdd(b, ok))
    ensures NextNew(b) == Some(m) ==> Conserved(Deliver(b, m, now))
    ensures m in b.pending ==> Conserved(Reclaim(b, m, now))
    ensures Conserved(XAck(b, m))
    ensures m in b.acked ==> Conserved(XDel(b, m))
  {
    NextNewIsCursor(b);
  }

  // ----- XAUTOCLAIM, exactly -----

  function PendingBetween(pending: map<nat, Pending>, lo: nat, hi: nat): set<nat> {
    set j | j in pending && lo <= j < hi
  }

  /** An idle entry, nothing idle below it, fewer than `budget` pending below it. */
  ghost predicate IsTarget(pending: map<nat, Pending>, i: nat, n: nat, budget: nat, now: nat, minIdle: nat, m: nat) {
    && i <= m < n && m in pending && Idle(pending, m, now, minIdle)
    && (forall j | i <= j < m && j in pending :: !Idle(pending, j, now, minIdle))
    && |PendingBetween(pending, i, m)| < budget
  }

  lemma {:induction false} ScanExact(
    pending: map<nat, Pending>, i: nat, n: nat, budget: nat, now: nat, minIdle: nat, m: nat)
    ensures Scan(pending, i, n, budget, now, minIdle) == Some(m) <==> IsTarget(pending, i, n, budget, now, minIdle, m)
    decreases n - i
  {
    if i < n && budget > 0 && i <= m {
      if i !in pending {
        ScanExact(pending, i + 1, n, budget, now, minIdle, m);
        assert PendingBetween(pending, i, m) == PendingBetween(pending, i + 1, m);
      } else if Idle(pending, i, now, minIdle) {
        assert i == m ==> PendingBetween(pending, i, m) == {};
      } else {
        ScanExact(pending, i + 1, n, budget - 1, now, minIdle, m);
        if i < m {
          assert PendingBetween(pending, i, m) == PendingBetween(pending, i + 1, m) + {i};
        }
      }
    } else if i < n && budget > 0 {
      ScanInRange(pending, i, n, budget, now, minIdle);
    }
  }

  lemma {:induction false} ScanReaches(
    pending: map<nat, Pending>, i: nat, n: nat, budget: nat, now: nat, minIdle: nat, m: nat)
    requires i <= m < n && m in pending && Idle(pending, m, now, minIdle)
    requires |PendingBetween(pending, i, m)| < budget
    ensures Scan(pending, i, n, budget, now, minIdle).Some? && Scan(pending, i, n, budget, now, minIdle).value <= m
    decreases n - i
  {
    if i !in pending {
      assert PendingBetween(pending, i, m) == PendingBetween(pending, i + 1, m);
      ScanReaches(pending, i + 1, n, budget, now, minIdle, m);
    } else if !Idle(pending, i, now, minIdle) {
      assert PendingBetween(pending, i, m) == PendingBetween(pending, i + 1, m) + {i};
      ScanReaches(pending, i + 1, n, budget - 1, now, minIdle, m);
    }
  }

  /** XAUTOCLAIM takes the lowest entry that has been idle long enough, unless ten are pending below it. */
  lemma ClaimExact(b: Broker, now: nat, minIdle: nat, m: nat)
    ensures ClaimTarget(b, now, minIdle) == Some(m) <==>
              && m < b.added && m in b.pending && b.pending[m].at + minIdle <= now
              && (forall j | 0 <= j < m && j in b.pending :: now < b.pending[j].at + minIdle)
              && |PendingBetween(b.pending, 0, m)| < 10
  {
    ScanExact(b.pending, 0, b.added, SCAN_LIMIT, now, minIdle, m);
  }

  /** Something is claimed whenever an idle entry has fewer than ten pending below it. */
  lemma IdleIsFound(b: Broker, now: nat, minIdle: nat, m: nat)
    requires Conserved(b) && m in b.pending && Idle(b.pending, m, now, minIdle)
    requires |PendingBetween(b.pending, 0, m)| < SCAN_LIMIT
    ensures ClaimTarget(b, now, minIdle).Some? && ClaimTarget(b, now, minIdle).value <= m
  {
    ScanReaches(b.pending, 0, b.added, SCAN_LIMIT, now, minIdle, m);
  }

  lemma ScanInRange(pending: map<nat, Pending>, i: nat, n: nat, budget: nat, now: nat, minIdle: nat)
    ensures var r := Scan(pending, i, n, budget, now, minIdle);
            r.Some? ==> i <= r.value < n && r.value in pending && Idle(pending, r.value, now, minIdle)
    decreases n - i
  {
  }

  lemma TargetIsIdle(b: Broker, now: nat, minIdle: nat)
    ensures var r := ClaimTarget(b, now, minIdle);
            r.Some? ==> r.value < b.added && r.value in b.pending && Idle(b.pending, r.value, now, minIdle)
  {
    ScanInRange(b.pending, 0, b.added, SCAN_LIMIT, now, minIdle);
  }
}
