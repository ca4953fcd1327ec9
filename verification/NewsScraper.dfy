/** Scraping one feed: work through the selected items until enough have succeeded. */
module NewsScraper {
  import opened Wrappers
  import opened NewsSelection

  // ----- One item -----

  datatype Analysis = NotAnalyzed | EmptyAnalysis | Analyzed

  /** How the external calls for one item end. */
  datatype ItemIo = ItemIo(
    decoded: Option<string>, host: Option<string>, fetched: bool, analysis: Analysis, insertFails: bool)

  /** A failure carries the link that is reported for it. */
  datatype Outcome = Success | Blacklisted | Failed(link: string) | Panics

  /** An item without a source panics once its link has been decoded.  A failure names its link only
    * when the insert is what failed.
    */
  function ProcessNewsItem(x: Item, blacklist: seq<string>, io: ItemIo): (r: Outcome)
    ensures r.Failed? && r.link != "" ==> io.insertFails && io.decoded == Some(r.link)
  {
    if io.decoded.None? then Failed("")
    else if x.published.None? then Failed("")
    else if x.source.None? then Panics
    else if io.host.None? then Failed("")
    else if io.host.value in blacklist then Blacklisted
    else if !io.fetched then Failed("")
    else if !io.analysis.Analyzed? then Failed("")
    else if io.insertFails then Failed(io.decoded.value)
    else Success
  }

  /** The URL decodes, and the item, as the filter delivers it, is dated and has a source. */
  predicate Opens(x: Item, io: ItemIo) { io.decoded.Some? && x.published.Some? && x.source.Some? && io.host.Some? }

  /** When an item is stored, skipped for its domain, or panics; and which link a failure reports. */
  lemma WhatBecomesOfItem(x: Item, blacklist: seq<string>, io: ItemIo)
    ensures var r := ProcessNewsItem(x, blacklist, io);
            && (r.Success? <==>
                  && Opens(x, io) && io.host.value !in blacklist
                  && io.fetched && io.analysis.Analyzed? && !io.insertFails)
            && (r.Blacklisted? <==> Opens(x, io) && io.host.value in blacklist)
            && (r.Panics? <==> io.decoded.Some? && x.published.Some? && x.source.None?)
            && (r.Failed? ==>
                  r.link == if Opens(x, io) && io.host.value !in blacklist && io.fetched && io.analysis.Analyzed?
                            then io.decoded.value else "")
  {}

  // ----- The loop -----

  datatype End = Finished | Cancelled | Aborted

  /** Items handled so far, how many of them counted, and the links of the others. */
  datatype Tally = Tally(handled: nat, count: nat, failed: seq<string>, end: End)

  const START := Tally(0, 0, [], Finished)

  /** What the loop meets at one item: whether the context is cancelled there, and the outcome. */
  datatype Turn = Turn(cancelled: bool, outcome: Outcome)

  function Work(turns: seq<Turn>, quota: int, t: Tally): Tally
    decreases |turns|
  {
    if turns == [] then t
    else if turns[0].cancelled then t.(end := Cancelled)
    else if t.count >= quota then t
    else
      match turns[0].outcome
      case Panics => t.(end := Aborted)
      case Failed(link) => Work(turns[1..], quota, t.(handled := t.handled + 1, failed := t.failed + [link]))
      case _ => Work(turns[1..], quota, t.(handled := t.handled + 1, count := t.count + 1))
  }

  /** A blacklisted item counts as much as a stored one. */
  function Successes(turns: seq<Turn>): nat {
    if turns == [] then 0
    else
      var o := turns[|turns| - 1].outcome;
      Successes(turns[..|turns| - 1]) + Bit(o.Success? || o.Blacklisted?)
  }

  function FailedLinks(turns: seq<Turn>): seq<string> {
    if turns == [] then []
    else
      var o := turns[|turns| - 1].outcome;
      FailedLinks(turns[..|turns| - 1]) + if o.Failed? then [o.link] else []
  }

  /** The first `k` turns are within the quota and undisturbed. */
  ghost predicate Undisturbed(turns: seq<Turn>, quota: int, k: nat)
    requires k <= |turns|
  {
    forall j | 0 <= j < k ::
      Successes(turns[..j]) < quota && !turns[j].cancelled && !turns[j].outcome.Panics?
  }

  function EndAt(turns: seq<Turn>, quota: int, k: nat): Option<End>
    requires k <= |turns|
  {
    if k == |turns| then Some(Finished)
    else if turns[k].cancelled then Some(Cancelled)
    else if Successes(turns[..k]) >= quota then Some(Finished)
    else if turns[k].outcome.Panics? then Some(Aborted)
    else None
  }

  function SoFar(turns: seq<Turn>, k: nat): Tally
    requires k <= |turns|
  {
    Tally(k, Successes(turns[..k]), FailedLinks(turns[..k]), Finished)
  }

  lemma NextTurn(turns: seq<Turn>, quota: int, k: nat)
    requires k < |turns| && EndAt(turns, quota, k).None?
    ensures Work(turns[k..], quota, SoFar(turns, k)) == Work(turns[k + 1..], quota, SoFar(turns, k + 1))
  {
    assert turns[k..][1..] == turns[k + 1..];
    assert turns[..k + 1][..k] == turns[..k];
    var o := turns[k].outcome;
    assert FailedLinks(turns[..k + 1]) == FailedLinks(turns[..k]) + if o.Failed? then [o.link] else [];
    if !o.Failed? {
      assert FailedLinks(turns[..k + 1]) == FailedLinks(turns[..k]);
    }
  }

  lemma StopsHere(turns: seq<Turn>, quota: int, k: nat)
    requires k <= |turns| && EndAt(turns, quota, k).Some?
    ensures Work(turns[k..], quota, SoFar(turns, k)) == SoFar(turns, k).(end := EndAt(turns, quota, k).value)
  {}

  ghost predicate EndsWell(turns: seq<Turn>, quota: int, t: Tally) {
    && t.handled <= |turns| && Undisturbed(turns, quota, t.handled)
    && t == SoFar(turns, t.handled).(end := t.end)
    && EndAt(turns, quota, t.handled) == Some(t.end)
  }

  lemma {:induction false} WorkFrom(turns: seq<Turn>, quota: int, k: nat)
    requires k <= |turns| && Undisturbed(turns, quota, k)
    ensures EndsWell(turns, quota, Work(turns[k..], quota, SoFar(turns, k)))
    decreases |turns| - k
  {
    if k < |turns| && EndAt(turns, quota, k).None? {
      NextTurn(turns, quota, k);
      WorkFrom(turns, quota, k + 1);
    } else {
      StopsHere(turns, quota, k);
    }
  }

  lemma {:induction false} QuotaIsKept(turns: seq<Turn>, quota: int, k: nat)
    requires k <= |turns| && Undisturbed(turns, quota, k)
    ensures Successes(turns[..k]) <= Max(0, quota)
  {
    if k > 0 {
      QuotaIsKept(turns, quota, k - 1);
      assert turns[..k][..k - 1] == turns[..k - 1];
      assert Successes(turns[..k - 1]) < quota;
    }
  }

  /** The loop handles a prefix of the items: it goes on exactly until the items run out, the context
    * is cancelled, the quota is met or an item panics, whichever comes first, and at most the quota
    * of the prefix has counted.
    */
  lemma WorkTakesPrefix(turns: seq<Turn>, quota: int)
    ensures var t := Work(turns, quota, START);
            && t.handled <= |turns| && Undisturbed(turns, quota, t.handled)
            && EndAt(turns, quota, t.handled) == Some(t.end)
            && t.count == Successes(turns[..t.handled]) <= Max(0, quota)
            && t.failed == FailedLinks(turns[..t.handled])
  {
    assert turns[0..] == turns && turns[..0] == [];
    WorkFrom(turns, quota, 0);
    QuotaIsKept(turns, quota, Work(turns, quota, START).handled);
  }

  /** Stored and blacklisted items are what counts. */
  lemma {:induction false} SuccessesCount(turns: seq<Turn>)
    ensures Successes(turns)
         == |set i | 0 <= i < |turns| && (turns[i].outcome.Success? || turns[i].outcome.Blacklisted?)|
  {
    if turns != [] {
      var n := |turns| - 1;
      var rest := turns[..n];
      SuccessesCount(rest);
      var before := set i | 0 <= i < |rest| && (rest[i].outcome.Success? || rest[i].outcome.Blacklisted?);
      var all := set i | 0 <= i < |turns| && (turns[i].outcome.Success? || turns[i].outcome.Blacklisted?);
      assert forall i | 0 <= i < n :: rest[i] == turns[i];
      assert all == if turns[n].outcome.Success? || turns[n].outcome.Blacklisted? then before + {n} else before;
    }
  }

  /** `at` lists the failed turns in order, and `links` the links they report. */
  ghost predicate FailuresAt(turns: seq<Turn>, at: seq<nat>, links: seq<string>) {
    && |at| == |links|
    && (forall j | 0 <= j < |at| :: at[j] < |turns| && turns[at[j]].outcome == Failed(links[j]))
    && (forall j | 0 <= j < |at| - 1 :: at[j] < at[j + 1])
    && (forall i | 0 <= i < |turns| && turns[i].outcome.Failed? :: i in at)
  }

  function FailedAt(turns: seq<Turn>): seq<nat> {
    if turns == [] then []
    else
      var n := |turns| - 1;
      FailedAt(turns[..n]) + if turns[n].outcome.Failed? then [n] else []
  }

  /** Every failure leaves its link, in the order of the items, and nothing else does. */
  lemma {:induction false} FailedLinksInOrder(turns: seq<Turn>)
    ensures FailuresAt(turns, FailedAt(turns), FailedLinks(turns))
  {
    if turns != [] {
      var n := |turns| - 1;
      FailedLinksInOrder(turns[..n]);
      assert forall i | 0 <= i < n :: turns[..n][i] == turns[i];
      var before, at := FailedAt(turns[..n]), FailedAt(turns);
      assert forall i | i in before :: i in at;
      if turns[n].outcome.Failed? {
        assert at[|before|] == n;
      }
    }
  }

  // ----- The report -----

  datatype Status = SUCCESS | FAILED | SKIPPED

  datatype ScrapeResult = ScrapeResult(status: Status, failedLinks: seq<string>, errors: nat, query: string)

  function StatusOf(t: Tally): Status {
    if t.failed == [] then SUCCESS else if t.count == 0 then SKIPPED else FAILED
  }

  lemma {:induction false} LinksCount(turns: seq<Turn>)
    requires forall i | 0 <= i < |turns| :: !turns[i].outcome.Panics?
    ensures |FailedLinks(turns)| + Successes(turns) == |turns|
  {
    if turns != [] {
      LinksCount(turns[..|turns| - 1]);
    }
  }

  /** The report says SUCCESS when every handled item counted, SKIPPED when none did, although some were
    * handled, and FAILED when the outcome was mixed.
    */
  lemma StatusTellsOutcome(turns: seq<Turn>, quota: int)
    ensures var t := Work(turns, quota, START);
            && (StatusOf(t) == SUCCESS <==> t.count == t.handled)
            && (StatusOf(t) == SKIPPED <==> t.count == 0 < t.handled)
            && (StatusOf(t) == FAILED <==> 0 < t.count < t.handled)
  {
    WorkTakesPrefix(turns, quota);
    LinksCount(turns[..Work(turns, quota, START).handled]);
  }

  datatype Payload = Payload(maxNews: int, maxNewsAgeInDays: int, blacklist: seq<string>, priorities: map<string, int>)

  /** What happens at the i-th item of the sorted selection. */
  datatype TurnIo = TurnIo(cancelled: bool, io: ItemIo)

  function Turns(items: seq<Item>, blacklist: seq<string>, io: nat -> TurnIo): (ts: seq<Turn>)
    ensures |ts| == |items|
    ensures forall i | 0 <= i < |items| ::
              ts[i] == Turn(io(i).cancelled, ProcessNewsItem(items[i], blacklist, io(i).io))
  {
    seq(|items|, i requires 0 <= i < |items| =>
      Turn(io(i).cancelled, ProcessNewsItem(items[i], blacklist, io(i).io)))
  }

  /** The result of the loop, if it gets as far as reporting one. */
  function Reported(items: seq<Item>, query: string, p: Payload, errors: nat, io: nat -> TurnIo): seq<ScrapeResult> {
    var t := Work(Turns(SortItems(items, p.priorities), p.blacklist, io), p.maxNews, START);
    if t.end.Finished? then [ScrapeResult(StatusOf(t), t.failed, errors + |t.failed|, query)] else []
  }

  /** A failed lookup of the stored hashes is reported, and then the empty selection is as well. */
  function FeedResults(
    filtered: Option<Filtered>, query: string, p: Payload, io: nat -> TurnIo): seq<ScrapeResult>
  {
    if filtered.None? then [ScrapeResult(FAILED, [], 1, query)]
    else
      match filtered.value
      case Panicked => []
      case QueryFailed => [ScrapeResult(FAILED, [], 1, query)] + Reported([], query, p, 1, io)
      case Kept(items) => Reported(items, query, p, 0, io)
  }

  /** What the filter hands on, if there is a feed. */
  function Selection(
    f: Formats, feed: Option<seq<Item>>, order: seq<string>, stored: Option<set<string>>, now: int, p: Payload)
    : Option<Filtered>
  {
    if feed.None? then None
    else if !AllDated(feed.value) then Some(Panicked)
    else if feed.value == [] then Some(Kept([]))
    else if stored.None? then Some(QueryFailed)
    else Some(Kept(Survivors(LastPerHash(f, feed.value), order, stored.value, now, p.maxNewsAgeInDays)))
  }

  /** A loop that finishes reports its query, the links of the failures among the items it handled, and an
    * error for each, after those there were before.
    */
  lemma ReportTells(items: seq<Item>, query: string, p: Payload, errors: nat, io: nat -> TurnIo)
    ensures var turns := Turns(SortItems(items, p.priorities), p.blacklist, io);
            var t := Work(turns, p.maxNews, START);
            t.end.Finished? && t.handled <= |turns| ==>
              var links := FailedLinks(turns[..t.handled]);
              var rs := Reported(items, query, p, errors, io);
              |rs| == 1 && rs[0].query == query && rs[0].failedLinks == links && rs[0].errors == errors + |links|
              && rs[0].status == StatusOf(t)
  {
    WorkTakesPrefix(Turns(SortItems(items, p.priorities), p.blacklist, io), p.maxNews);
  }

  class StockNewsScraper {
    var results: seq<ScrapeResult>

    constructor ()
      ensures results == []
    {
      results := [];
    }

    /** The loop over the sorted items. */
    method Process(items: seq<Item>, query: string, p: Payload, errors: nat, io: nat -> TurnIo)
      modifies this
      ensures results == old(results) + Reported(items, query, p, errors, io)
    {
      var sorted := SortItems(items, p.priorities);
      ghost var turns := Turns(sorted, p.blacklist, io);
      var countSuccess := 0;
      var failedLinks: seq<string> := [];
      var i := 0;
      assert turns[0..] == turns;
      while i < |sorted|
        invariant i <= |sorted| && results == old(results)
        invariant Work(turns[i..], p.maxNews, Tally(i, countSuccess, failedLinks, Finished))
               == Work(turns, p.maxNews, START)
        invariant |failedLinks| + countSuccess == i
      {
        if io(i).cancelled {
          return;
        }
        if countSuccess >= p.maxNews {
          break;
        }
        var outcome := ProcessNewsItem(sorted[i], p.blacklist, io(i).io);
        assert turns[i..][1..] == turns[i + 1..];
        if outcome.Panics? {
          return;
        }
        if outcome.Failed? {
          failedLinks := failedLinks + [outcome.link];
        } else {
          countSuccess := countSuccess + 1;
        }
        i := i + 1;
      }
      var status := FAILED;
      if |failedLinks| == 0 {
        status := SUCCESS;
      } else if countSuccess == 0 {
        status := SKIPPED;
      }
      results := results + [ScrapeResult(status, failedLinks, errors + |failedLinks|, query)];
    }

    /** One goroutine; `feed` is absent when it could not be fetched or parsed. */
    method ScrapeFeed(
      f: Formats, feed: Option<seq<Item>>, order: seq<string>, stored: Option<set<string>>, now: int,
      query: string, p: Payload, io: nat -> TurnIo)
      requires feed.Some? && AllDated(feed.value) ==> Walks(order, LastPerHash(f, feed.value))
      modifies this
      ensures results == old(results) + FeedResults(Selection(f, feed, order, stored, now, p), query, p, io)
    {
      if feed.None? {
        results := results + [ScrapeResult(FAILED, [], 1, query)];
        return;
      }
      var r := FilterExistingNewsItems(f, feed.value, order, stored, now, p.maxNewsAgeInDays);
      match r {
        case Panicked =>
        case QueryFailed =>
          results := results + [ScrapeResult(FAILED, [], 1, query)];
          Process([], query, p, 1, io);
        case Kept(items) =>
          Process(items, query, p, 0, io);
      }
    }
  }

  /** The goroutine panics, in the filter or at an item, or its context is cancelled before the loop is
    * over: at some item, with the quota not met by the ones before it in the case of a panic.
    */
  ghost predicate Interrupted(turns: seq<Turn>, quota: int) {
    exists k ::
      && 0 <= k < |turns| && Undisturbed(turns, quota, k)
      && (turns[k].cancelled || (Successes(turns[..k]) < quota && turns[k].outcome.Panics?))
  }

  lemma InterruptedIsNotFinished(turns: seq<Turn>, quota: int)
    ensures Interrupted(turns, quota) <==> !Work(turns, quota, START).end.Finished?
  {
    WorkTakesPrefix(turns, quota);
    var h := Work(turns, quota, START).handled;
    forall k | 0 <= k < |turns| && Undisturbed(turns, quota, k) && EndAt(turns, quota, k).Some?
      ensures k == h
    {
      EndIsUnique(turns, quota, k, h);
    }
  }

  lemma EndIsUnique(turns: seq<Turn>, quota: int, j: nat, k: nat)
    requires j <= |turns| && Undisturbed(turns, quota, j) && EndAt(turns, quota, j).Some?
    requires k <= |turns| && Undisturbed(turns, quota, k) && EndAt(turns, quota, k).Some?
    ensures j == k
  {}

  /** What the outside world makes of the items selected from a dated feed, in the order of the sort. */
  function SelectedTurns(
    f: Formats, items: seq<Item>, order: seq<string>, stored: set<string>, now: int, p: Payload,
    io: nat -> TurnIo): seq<Turn>
    requires AllDated(items)
  {
    var kept := if items == [] then [] else Survivors(LastPerHash(f, items), order, stored, now, p.maxNewsAgeInDays);
    Turns(SortItems(kept, p.priorities), p.blacklist, io)
  }

  /** A feed that cannot be read leaves one result; one with an undated item none; a failed lookup of the
    * hashes two, the second a success; and otherwise there is one unless the loop is interrupted.
    */
  lemma HowManyResults(
    f: Formats, feed: Option<seq<Item>>, order: seq<string>, stored: Option<set<string>>, now: int,
    query: string, p: Payload, io: nat -> TurnIo)
    ensures var rs := FeedResults(Selection(f, feed, order, stored, now, p), query, p, io);
            if feed.None? then rs == [ScrapeResult(FAILED, [], 1, query)]
            else if !AllDated(feed.value) then rs == []
            else if feed.value != [] && stored.None? then
              rs == [ScrapeResult(FAILED, [], 1, query), ScrapeResult(SUCCESS, [], 1, query)]
            else
              var known := if stored.Some? then stored.value else {};
              |rs| == if Interrupted(SelectedTurns(f, feed.value, order, known, now, p, io), p.maxNews) then 0 else 1
  {
    if feed.Some? && AllDated(feed.value) {
      var known := if stored.Some? then stored.value else {};
      InterruptedIsNotFinished(SelectedTurns(f, feed.value, order, known, now, p, io), p.maxNews);
    }
    var none: seq<Item> := [];
    assert Turns(SortItems(none, p.priorities), p.blacklist, io) == [];
  }
}
