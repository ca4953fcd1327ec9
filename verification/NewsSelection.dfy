/** Choosing which items of a news feed to process, and in what order. */
module NewsSelection {
  import opened Wrappers

  datatype Source = Source(url: string, name: string)

  /** Times are instants; an item without a publication date makes the filter panic. */
  datatype Item = Item(title: string, link: string, published: Option<int>, source: Option<Source>)

  /** The two date layouts, in the time zone of Jakarta.  SHA-256 is taken to be injective, so the
    * hashed string stands for its hash.
    */
  datatype Formats = Formats(rfc1123: int -> string, rfc3339: int -> string)

  /** RFC 3339 ends in an offset such as +07:00, the other layout in a zone name such as WIB. */
  ghost predicate Jakarta(f: Formats) {
    && (forall t :: |f.rfc3339(t)| >= 3 && f.rfc3339(t)[|f.rfc3339(t)| - 3] == ':')
    && (forall t :: |f.rfc1123(t)| >= 3 && f.rfc1123(t)[|f.rfc1123(t)| - 3] != ':')
  }

  /** What the filter looks up. */
  function FilterHash(f: Formats, link: string, t: int): string { link + "|" + f.rfc1123(t) }

  /** What an insert stores. */
  function StoredHash(f: Formats, link: string, t: int): string { link + "|" + f.rfc3339(t) }

  // ----- The filter -----

  predicate AllDated(items: seq<Item>) { forall i | 0 <= i < |items| :: items[i].published.Some? }

  function HashOf(f: Formats, x: Item): string
    requires x.published.Some?
  {
    FilterHash(f, x.link, x.published.value)
  }

  /** The last item of each hash. */
  function LastPerHash(f: Formats, items: seq<Item>): map<string, Item>
    requires AllDated(items)
  {
    if items == [] then map[]
    else
      var n := |items| - 1;
      LastPerHash(f, items[..n])[HashOf(f, items[n]) := items[n]]
  }

  const SECONDS_PER_DAY: int := 86_400

  predicate TooOld(x: Item, now: int, maxAgeInDays: int) {
    x.published.Some? && x.published.value < now - maxAgeInDays * SECONDS_PER_DAY
  }

  predicate Survives(m: map<string, Item>, h: string, stored: set<string>, now: int, maxAgeInDays: int) {
    h in m && h !in stored && m[h].published.Some? && !TooOld(m[h], now, maxAgeInDays)
  }

  /** The survivors, in the order in which the map happens to be walked. */
  function Survivors(m: map<string, Item>, order: seq<string>, stored: set<string>, now: int, maxAgeInDays: int)
    : seq<Item>
  {
    if order == [] then []
    else
      var n := |order| - 1;
      Survivors(m, order[..n], stored, now, maxAgeInDays)
      + if Survives(m, order[n], stored, now, maxAgeInDays) then [m[order[n]]] else []
  }

  /** A walk over the map visits every key once. */
  ghost predicate Walks(order: seq<string>, m: map<string, Item>) {
    Distinct(order) && forall h :: h in order <==> h in m
  }

  datatype Filtered = Kept(items: seq<Item>) | QueryFailed | Panicked

  /** `order` is the order in which the map is walked, `stored` the hashes in the table. */
  method FilterExistingNewsItems(
    f: Formats, items: seq<Item>, order: seq<string>, stored: Option<set<string>>, now: int, maxAgeInDays: int)
    returns (r: Filtered)
    requires AllDated(items) ==> Walks(order, LastPerHash(f, items))
    ensures r.Panicked? <==> !AllDated(items)
    ensures r.QueryFailed? <==> items != [] && AllDated(items) && stored.None?
    ensures r.Kept? ==>
              r.items == if items == [] then []
                         else Survivors(LastPerHash(f, items), order, stored.value, now, maxAgeInDays)
  {
    if |items| == 0 {
      return Kept(items);
    }
    var hashMap: map<string, Item> := map[];
    for i := 0 to |items|
      invariant AllDated(items[..i])
      invariant hashMap == LastPerHash(f, items[..i])
    {
      assert items[..i + 1][..i] == items[..i];
      if items[i].published.None? {
        return Panicked;
      }
      hashMap := hashMap[HashOf(f, items[i]) := items[i]];
    }
    assert items[..|items|] == items;
    if stored.None? {
      return QueryFailed;
    }
    var kept: seq<Item> := [];
    for i := 0 to |order|
      invariant kept == Survivors(hashMap, order[..i], stored.value, now, maxAgeInDays)
    {
      assert order[..i + 1][..i] == order[..i];
      assert order[i] in order;
      var item := hashMap[order[i]];
      if order[i] in stored.value {
        continue;
      }
      if item.published.None? {
        continue;
      }
      if item.published.value < now - maxAgeInDays * SECONDS_PER_DAY {
        continue;
      }
      kept := kept + [item];
    }
    assert order[..|order|] == order;
    return Kept(kept);
  }

  /** Every entry is an item of the feed under its own hash, and no later item has that hash. */
  lemma {:induction false} LastPerHashIsLast(f: Formats, items: seq<Item>, h: string)
    requires AllDated(items)
    ensures h in LastPerHash(f, items) <==> exists i :: 0 <= i < |items| && HashOf(f, items[i]) == h
    ensures h in LastPerHash(f, items) ==>
              exists i ::
                && 0 <= i < |items| && HashOf(f, items[i]) == h && LastPerHash(f, items)[h] == items[i]
                && forall j | i < j < |items| :: HashOf(f, items[j]) != h
  {
    if items != [] {
      var n := |items| - 1;
      LastPerHashIsLast(f, items[..n], h);
      if HashOf(f, items[n]) != h && h in LastPerHash(f, items[..n]) {
        var i :| 0 <= i < n && HashOf(f, items[..n][i]) == h && LastPerHash(f, items[..n])[h] == items[..n][i]
                 && forall j | i < j < n :: HashOf(f, items[..n][j]) != h;
        assert forall j | i < j < n :: items[..n][j] == items[j];
      }
      if i :| 0 <= i < n && HashOf(f, items[i]) == h {
        assert HashOf(f, items[..n][i]) == h;
      }
    }
  }

  /** What the filter hashes: the link, a bar and the date in the layout of `PubDate.String`. */
  ghost predicate HasHash(f: Formats, x: Item, h: string) {
    x.published.Some? && h == x.link + "|" + f.rfc1123(x.published.value)
  }

  /** Items of a feed are taken for the same exactly if link and formatted date spell the same string, and
    * then the last of them is kept.
    */
  lemma SameHashKeepsLast(f: Formats, items: seq<Item>, h: string)
    requires AllDated(items)
    ensures h in LastPerHash(f, items) <==> exists i :: 0 <= i < |items| && HasHash(f, items[i], h)
    ensures h in LastPerHash(f, items) ==>
              exists i ::
                && 0 <= i < |items| && HasHash(f, items[i], h) && LastPerHash(f, items)[h] == items[i]
                && forall j | i < j < |items| :: !HasHash(f, items[j], h)
  {
    LastPerHashIsLast(f, items, h);
    forall i | 0 <= i < |items| ensures HasHash(f, items[i], h) <==> HashOf(f, items[i]) == h {}
  }

  lemma HashesDiffer(f: Formats, link: string, t: int, a: string, u: int)
    requires Jakarta(f)
    ensures FilterHash(f, link, t) != StoredHash(f, a, u)
  {
    var x, y := FilterHash(f, link, t), StoredHash(f, a, u);
    assert x[|x| - 3] == f.rfc1123(t)[|f.rfc1123(t)| - 3];
    assert y[|y| - 3] == f.rfc3339(u)[|f.rfc3339(u)| - 3];
  }

  /** The filter never finds a stored item: it looks for a hash that no insert writes.  De-duplication
    * is left to the table's unique index.
    */
  lemma FilterNeverFindsStored(
    f: Formats, items: seq<Item>, order: seq<string>, stored: set<string>, now: int, maxAgeInDays: int)
    requires Jakarta(f) && AllDated(items)
    requires forall h | h in stored :: exists link, t :: h == link + "|" + f.rfc3339(t)
    requires forall i | 0 <= i < |order| :: order[i] in LastPerHash(f, items)
    ensures forall i | 0 <= i < |items| :: HashOf(f, items[i]) !in stored
    ensures Survivors(LastPerHash(f, items), order, stored, now, maxAgeInDays)
         == Survivors(LastPerHash(f, items), order, {}, now, maxAgeInDays)
  {
    forall link, t ensures FilterHash(f, link, t) !in stored {
      forall a, u ensures FilterHash(f, link, t) != a + "|" + f.rfc3339(u) {
        HashesDiffer(f, link, t, a, u);
      }
    }
    forall h | h in LastPerHash(f, items) ensures h !in stored {
      LastPerHashIsLast(f, items, h);
    }
    SurvivorsIgnore(LastPerHash(f, items), order, stored, now, maxAgeInDays);
  }

  lemma {:induction false} SurvivorsIgnore(
    m: map<string, Item>, order: seq<string>, stored: set<string>, now: int, maxAgeInDays: int)
    requires forall h | h in m :: h !in stored
    ensures Survivors(m, order, stored, now, maxAgeInDays) == Survivors(m, order, {}, now, maxAgeInDays)
  {
    if order != [] {
      SurvivorsIgnore(m, order[..|order| - 1], stored, now, maxAgeInDays);
    }
  }

  /** An item is kept if its hash is not stored and it is dated, no more than `maxAgeInDays` days ago. */
  predicate Recent(x: Item, now: int, maxAgeInDays: int) {
    x.published.Some? && x.published.value >= now - maxAgeInDays * 24 * 60 * 60
  }

  lemma SurvivesMeans(m: map<string, Item>, h: string, stored: set<string>, now: int, maxAgeInDays: int)
    ensures Survives(m, h, stored, now, maxAgeInDays)
        <==> h in m && h !in stored && Recent(m[h], now, maxAgeInDays)
  {}

  function KeptHashes(m: map<string, Item>, order: seq<string>, stored: set<string>, now: int, maxAgeInDays: int)
    : set<string>
  {
    set h | h in order && h in m && h !in stored && Recent(m[h], now, maxAgeInDays)
  }

  /** Whatever the order of the walk, the survivors are the entries of the map that are not stored and
    * recent, each of them once.
    */
  lemma {:induction false} SurvivorsAreRecent(
    m: map<string, Item>, order: seq<string>, stored: set<string>, now: int, maxAgeInDays: int)
    requires Distinct(order)
    ensures var kept := Survivors(m, order, stored, now, maxAgeInDays);
            && |kept| == |KeptHashes(m, order, stored, now, maxAgeInDays)|
            && forall x :: x in kept <==>
                 exists h :: h in order && h in m && m[h] == x && h !in stored && Recent(x, now, maxAgeInDays)
  {
    if order != [] {
      var n := |order| - 1;
      var h, rest := order[n], order[..n];
      SurvivorsAreRecent(m, rest, stored, now, maxAgeInDays);
      SurvivesMeans(m, h, stored, now, maxAgeInDays);
      assert order == rest + [h] && h !in rest;
      var before := KeptHashes(m, rest, stored, now, maxAgeInDays);
      assert KeptHashes(m, order, stored, now, maxAgeInDays)
             == if Survives(m, h, stored, now, maxAgeInDays) then before + {h} else before;
    }
  }

  // ----- The order -----

  datatype Rank = Rank(priority: int, published: int)

  const NO_PRIORITY: int := 999

  function RankOf(x: Item, priorities: map<string, int>): Rank {
    var url := if x.source.Some? then x.source.value.url else "Unknown";
    Rank(if url in priorities then priorities[url] else NO_PRIORITY,
         if x.published.Some? then x.published.value else 0)
  }

  /** More important sources first, then newer items. */
  predicate Before(a: Rank, b: Rank) {
    if a.priority != b.priority then a.priority < b.priority else a.published > b.published
  }

  lemma BeforeIsStrictWeakOrder(a: Rank, b: Rank, c: Rank)
    ensures !Before(a, a)
    ensures Before(a, b) && Before(b, c) ==> Before(a, c)
    ensures !Before(a, b) && !Before(b, a) && !Before(b, c) && !Before(c, b) ==> !Before(a, c) && !Before(c, a)
    ensures !Before(a, b) && !Before(b, a) ==> a == b
    ensures Before(a, b) <==> a.priority < b.priority || (a.priority == b.priority && a.published > b.published)
  {}

  function Ranks(xs: seq<Item>, p: map<string, int>): (rs: seq<Rank>)
    ensures |rs| == |xs|
    ensures forall i | 0 <= i < |xs| :: rs[i] == RankOf(xs[i], p)
  {
    seq(|xs|, i requires 0 <= i < |xs| => RankOf(xs[i], p))
  }

  ghost predicate Sorted(rs: seq<Rank>) {
    forall i, j | 0 <= i < j < |rs| :: !Before(rs[j], rs[i])
  }

  ghost predicate InOrder(xs: seq<Item>, p: map<string, int>) {
    forall i, j | 0 <= i < j < |xs| :: !Before(RankOf(xs[j], p), RankOf(xs[i], p))
  }

  function OfRank(xs: seq<Item>, p: map<string, int>, r: Rank): seq<Item> {
    if xs == [] then [] else (if RankOf(xs[0], p) == r then [xs[0]] else []) + OfRank(xs[1..], p, r)
  }

  /** What a stable sort returns: in order, and items of one rank keep their order. */
  ghost predicate StablySorted(ys: seq<Item>, xs: seq<Item>, p: map<string, int>) {
    InOrder(ys, p) && forall r :: OfRank(ys, p, r) == OfRank(xs, p, r)
  }

  function Insert(x: Item, ys: seq<Item>, p: map<string, int>): seq<Item> {
    if ys == [] then [x]
    else if Before(RankOf(x, p), RankOf(ys[0], p)) then [x] + ys
    else [ys[0]] + Insert(x, ys[1..], p)
  }

  function SortItems(xs: seq<Item>, p: map<string, int>): seq<Item> {
    if xs == [] then []
    else
      var n := |xs| - 1;
      Insert(xs[n], SortItems(xs[..n], p), p)
  }

  lemma {:induction false} InsertAdds(x: Item, ys: seq<Item>, p: map<string, int>)
    ensures multiset(Insert(x, ys, p)) == multiset(ys) + multiset{x}
  {
    if ys != [] && !Before(RankOf(x, p), RankOf(ys[0], p)) {
      assert ys == [ys[0]] + ys[1..];
      InsertAdds(x, ys[1..], p);
    }
  }

  lemma {:induction false} InsertKeepsOrder(x: Item, ys: seq<Item>, p: map<string, int>)
    requires InOrder(ys, p)
    ensures InOrder(Insert(x, ys, p), p)
  {
    if ys != [] && !Before(RankOf(x, p), RankOf(ys[0], p)) {
      InsertKeepsOrder(x, ys[1..], p);
      InsertAdds(x, ys[1..], p);
      HeadStaysFirst(ys[0], Insert(x, ys[1..], p), x, ys[1..], p);
    }
  }

  lemma HeadStaysFirst(y: Item, ws: seq<Item>, x: Item, ys: seq<Item>, p: map<string, int>)
    requires multiset(ws) == multiset(ys) + multiset{x} && InOrder(ws, p)
    requires !Before(RankOf(x, p), RankOf(y, p))
    requires forall i | 0 <= i < |ys| :: !Before(RankOf(ys[i], p), RankOf(y, p))
    ensures InOrder([y] + ws, p)
  {
    forall i | 0 <= i < |ws| ensures !Before(RankOf(ws[i], p), RankOf(y, p)) {
      assert ws[i] in multiset(ws);
      assert ws[i] == x || ws[i] in ys;
    }
  }

  lemma {:induction false} OfRankAppends(xs: seq<Item>, x: Item, p: map<string, int>, r: Rank)
    ensures OfRank(xs + [x], p, r) == OfRank(xs, p, r) + if RankOf(x, p) == r then [x] else []
  {
    if xs == [] {
      assert [x][1..] == [];
    } else {
      assert (xs + [x])[1..] == xs[1..] + [x];
      OfRankAppends(xs[1..], x, p, r);
    }
  }

  lemma {:induction false} NoneOfRank(xs: seq<Item>, p: map<string, int>, r: Rank)
    requires forall i | 0 <= i < |xs| :: RankOf(xs[i], p) != r
    ensures OfRank(xs, p, r) == []
  {
    if xs != [] {
      NoneOfRank(xs[1..], p, r);
    }
  }

  lemma OfRankPrepends(x: Item, ys: seq<Item>, p: map<string, int>, r: Rank)
    ensures OfRank([x] + ys, p, r) == if RankOf(x, p) == r then [x] + OfRank(ys, p, r) else OfRank(ys, p, r)
  {
    assert ([x] + ys)[1..] == ys;
  }

  /** An item that comes before all others of a list in order is the only one of its rank. */
  lemma InsertFirstIsStable(x: Item, ys: seq<Item>, p: map<string, int>, r: Rank)
    requires ys != [] && InOrder(ys, p) && Before(RankOf(x, p), RankOf(ys[0], p))
    ensures OfRank([x] + ys, p, r) == OfRank(ys, p, r) + if RankOf(x, p) == r then [x] else []
  {
    OfRankPrepends(x, ys, p, r);
    if RankOf(x, p) == r {
      NoneOfRank(ys, p, r);
    }
  }

  lemma {:induction false} InsertIsStable(x: Item, ys: seq<Item>, p: map<string, int>, r: Rank)
    requires InOrder(ys, p)
    ensures OfRank(Insert(x, ys, p), p, r) == OfRank(ys, p, r) + if RankOf(x, p) == r then [x] else []
  {
    if ys == [] {
      assert [x][1..] == [];
    } else if Before(RankOf(x, p), RankOf(ys[0], p)) {
      InsertFirstIsStable(x, ys, p, r);
    } else {
      InsertIsStable(x, ys[1..], p, r);
      OfRankPrepends(ys[0], Insert(x, ys[1..], p), p, r);
      OfRankPrepends(ys[0], ys[1..], p, r);
      assert ys == [ys[0]] + ys[1..];
    }
  }

  lemma {:induction false} SortItemsIsStable(xs: seq<Item>, p: map<string, int>)
    ensures StablySorted(SortItems(xs, p), xs, p)
    ensures multiset(SortItems(xs, p)) == multiset(xs)
  {
    if xs != [] {
      var n := |xs| - 1;
      var rest := SortItems(xs[..n], p);
      assert xs == xs[..n] + [xs[n]];
      SortItemsIsStable(xs[..n], p);
      InsertKeepsOrder(xs[n], rest, p);
      InsertAdds(xs[n], rest, p);
      forall r ensures OfRank(SortItems(xs, p), p, r) == OfRank(xs, p, r) {
        InsertIsStable(xs[n], rest, p, r);
        OfRankAppends(xs[..n], xs[n], p, r);
      }
    }
  }

  lemma {:induction false} OfRankHolds(xs: seq<Item>, p: map<string, int>, r: Rank)
    ensures OfRank(xs, p, r) != [] <==> exists i :: 0 <= i < |xs| && RankOf(xs[i], p) == r
  {
    if xs != [] {
      OfRankHolds(xs[1..], p, r);
      if i :| 0 <= i < |xs| && RankOf(xs[i], p) == r {
        assert i > 0 ==> xs[1..][i - 1] == xs[i];
      }
    }
  }

  /** There is only one stable sort, so any implementation of it gives this result. */
  lemma {:induction false} StableSortIsUnique(ys: seq<Item>, xs: seq<Item>, p: map<string, int>)
    requires StablySorted(ys, xs, p)
    ensures ys == SortItems(xs, p)
  {
    SortItemsIsStable(xs, p);
    SameClasses(ys, SortItems(xs, p), p);
  }

  lemma FirstIsLeast(ys: seq<Item>, zs: seq<Item>, p: map<string, int>)
    requires InOrder(ys, p) && zs != []
    requires forall r :: OfRank(ys, p, r) == OfRank(zs, p, r)
    ensures ys != [] && !Before(RankOf(zs[0], p), RankOf(ys[0], p))
  {
    var r := RankOf(zs[0], p);
    OfRankHolds(zs, p, r);
    OfRankHolds(ys, p, r);
    var i :| 0 <= i < |ys| && RankOf(ys[i], p) == r;
    assert i > 0 ==> !Before(RankOf(ys[i], p), RankOf(ys[0], p));
  }

  lemma SameTailClass(x: Item, ys: seq<Item>, zs: seq<Item>, p: map<string, int>, r: Rank)
    requires OfRank([x] + ys, p, r) == OfRank([x] + zs, p, r)
    ensures OfRank(ys, p, r) == OfRank(zs, p, r)
  {
    OfRankPrepends(x, ys, p, r);
    OfRankPrepends(x, zs, p, r);
    assert ([x] + OfRank(ys, p, r))[1..] == OfRank(ys, p, r);
    assert ([x] + OfRank(zs, p, r))[1..] == OfRank(zs, p, r);
  }

  lemma {:induction false} SameClasses(ys: seq<Item>, zs: seq<Item>, p: map<string, int>)
    requires InOrder(ys, p) && InOrder(zs, p)
    requires forall r :: OfRank(ys, p, r) == OfRank(zs, p, r)
    ensures ys == zs
    decreases |ys|
  {
    if ys != [] { FirstIsLeast(zs, ys, p); }
    if zs != [] { FirstIsLeast(ys, zs, p); }
    if ys != [] {
      var r := RankOf(ys[0], p);
      assert RankOf(zs[0], p) == r;
      assert ys == [ys[0]] + ys[1..] && zs == [zs[0]] + zs[1..];
      OfRankPrepends(ys[0], ys[1..], p, r);
      OfRankPrepends(zs[0], zs[1..], p, r);
      assert ys[0] == OfRank(ys, p, r)[0] == OfRank(zs, p, r)[0] == zs[0];
      forall q ensures OfRank(ys[1..], p, q) == OfRank(zs[1..], p, q) {
        SameTailClass(ys[0], ys[1..], zs[1..], p, q);
      }
      SameClasses(ys[1..], zs[1..], p);
    }
  }

  // ----- Map order does not matter -----

  lemma {:induction false} SurvivorsOfOne(
    m: map<string, Item>, a: seq<string>, b: seq<string>, stored: set<string>, now: int, maxAgeInDays: int)
    ensures Survivors(m, a + b, stored, now, maxAgeInDays)
         == Survivors(m, a, stored, now, maxAgeInDays) + Survivors(m, b, stored, now, maxAgeInDays)
    decreases |b|
  {
    if b == [] {
      assert a + b == a;
    } else {
      var n := |b| - 1;
      assert (a + b)[..|a| + n] == a + b[..n];
      SurvivorsOfOne(m, a, b[..n], stored, now, maxAgeInDays);
    }
  }

  lemma {:induction false} SurvivorsOfWalks(
    m: map<string, Item>, a: seq<string>, b: seq<string>, stored: set<string>, now: int, maxAgeInDays: int)
    requires Distinct(a) && Distinct(b) && forall h :: h in a <==> h in b
    ensures multiset(Survivors(m, a, stored, now, maxAgeInDays))
         == multiset(Survivors(m, b, stored, now, maxAgeInDays))
    decreases |a|
  {
    assert b == [] || b[0] in b;
    if a == [] {
      assert b == [];
    } else {
      var n := |a| - 1;
      var h := a[n];
      var i := IndexOf(b, h);
      var rest := b[..i] + b[i + 1..];
      assert a == a[..n] + [h];
      assert b == b[..i] + ([h] + b[i + 1..]);
      SameKeysWithout(a, b, i);
      SurvivorsOfWalks(m, a[..n], rest, stored, now, maxAgeInDays);
      SurvivorsOfOne(m, a[..n], [h], stored, now, maxAgeInDays);
      SurvivorsOfOne(m, b[..i], [h] + b[i + 1..], stored, now, maxAgeInDays);
      SurvivorsOfOne(m, [h], b[i + 1..], stored, now, maxAgeInDays);
      SurvivorsOfOne(m, b[..i], b[i + 1..], stored, now, maxAgeInDays);
    }
  }

  lemma IndexOf(b: seq<string>, h: string) returns (i: nat)
    requires h in b
    ensures i < |b| && b[i] == h
  {
    i :| i < |b| && b[i] == h;
  }

  lemma SameKeysWithout(a: seq<string>, b: seq<string>, i: nat)
    requires a != [] && i < |b| && b[i] == a[|a| - 1]
    requires Distinct(a) && Distinct(b) && forall h :: h in a <==> h in b
    ensures var rest := b[..i] + b[i + 1..];
            Distinct(rest) && Distinct(a[..|a| - 1]) && forall h :: h in a[..|a| - 1] <==> h in rest
  {
    var n := |a| - 1;
    var rest := b[..i] + b[i + 1..];
    assert forall k | 0 <= k < |rest| :: rest[k] == if k < i then b[k] else b[k + 1];
    forall h ensures h in a[..n] <==> h in rest {
      if h in a[..n] {
        assert h in a && h != a[n];
        var k := IndexOf(b, h);
        assert rest[if k < i then k else k - 1] == h;
      }
      if h in rest {
        assert h in b && h in a;
        var k := IndexOf(a, h);
        assert k < n;
        assert a[..n][k] == h;
      }
    }
  }

  lemma WithoutOne<T>(xs: seq<T>, ys: seq<T>, i: nat)
    requires xs != [] && i < |ys| && ys[i] == xs[|xs| - 1] && multiset(xs) == multiset(ys)
    ensures multiset(xs[..|xs| - 1]) == multiset(ys[..i] + ys[i + 1..])
  {
    var n := |xs| - 1;
    assert xs == xs[..n] + [xs[n]];
    assert ys == ys[..i] + [ys[i]] + ys[i + 1..];
    assert multiset(xs) == multiset(xs[..n]) + multiset{xs[n]};
    assert multiset(ys) == multiset(ys[..i]) + multiset{ys[i]} + multiset(ys[i + 1..]);
    assert multiset(ys[..i] + ys[i + 1..]) == multiset(ys) - multiset{ys[i]};
    assert multiset(xs[..n]) == multiset(xs) - multiset{xs[n]};
  }

  lemma {:induction false} RanksOfSame(xs: seq<Item>, ys: seq<Item>, p: map<string, int>)
    requires multiset(xs) == multiset(ys)
    ensures multiset(Ranks(xs, p)) == multiset(Ranks(ys, p))
    decreases |xs|
  {
    assert |multiset(xs)| == |xs| && |multiset(ys)| == |ys|;
    if xs != [] {
      var n := |xs| - 1;
      assert xs[n] in multiset(ys);
      var i :| 0 <= i < |ys| && ys[i] == xs[n];
      WithoutOne(xs, ys, i);
      RanksOfSame(xs[..n], ys[..i] + ys[i + 1..], p);
      RanksOfParts(xs, n, p);
      RanksOfParts(ys, i, p);
      assert xs[..n] + xs[n + 1..] == xs[..n];
    }
  }

  lemma RanksOfParts(xs: seq<Item>, i: nat, p: map<string, int>)
    requires i < |xs|
    ensures multiset(Ranks(xs, p)) == multiset(Ranks(xs[..i] + xs[i + 1..], p)) + multiset{RankOf(xs[i], p)}
  {
    var before, after := Ranks(xs[..i], p), Ranks(xs[i + 1..], p);
    assert Ranks(xs, p) == before + [RankOf(xs[i], p)] + after;
    assert Ranks(xs[..i] + xs[i + 1..], p) == before + after;
  }

  lemma {:induction false} SortedIsUnique(a: seq<Rank>, b: seq<Rank>)
    requires Sorted(a) && Sorted(b) && multiset(a) == multiset(b)
    ensures a == b
    decreases |a|
  {
    assert |multiset(a)| == |a| && |multiset(b)| == |b|;
    if a != [] {
      LeastIsFirst(a, b);
      LeastIsFirst(b, a);
      assert a == [a[0]] + a[1..] && b == [b[0]] + b[1..];
      assert multiset(a) == multiset{a[0]} + multiset(a[1..]);
      assert multiset(b) == multiset{b[0]} + multiset(b[1..]);
      assert multiset(a[1..]) == multiset(a) - multiset{a[0]};
      assert multiset(b[1..]) == multiset(b) - multiset{b[0]};
      SortedIsUnique(a[1..], b[1..]);
    }
  }

  lemma LeastIsFirst(a: seq<Rank>, b: seq<Rank>)
    requires a != [] && b != [] && Sorted(a) && multiset(a) == multiset(b)
    ensures !Before(b[0], a[0])
  {
    assert b[0] in multiset(a);
    var i :| 0 <= i < |a| && a[i] == b[0];
  }

  /** The priority given to the URL of the item's source, or to "Unknown" if it has none; 999 by default. */
  function SourcePriority(x: Item, p: map<string, int>): int {
    if x.source.Some? && x.source.value.url in p then p[x.source.value.url]
    else if x.source.None? && "Unknown" in p then p["Unknown"]
    else 999
  }

  /** More important sources come first, and newer items before older ones of the same importance. */
  lemma ImportantThenNewest(xs: seq<Item>, p: map<string, int>, i: nat, j: nat)
    requires AllDated(xs) && i < j < |SortItems(xs, p)|
    ensures var x, y := SortItems(xs, p)[i], SortItems(xs, p)[j];
            && x in xs && y in xs
            && SourcePriority(x, p) <= SourcePriority(y, p)
            && (SourcePriority(x, p) == SourcePriority(y, p) ==> x.published.value >= y.published.value)
  {
    SortItemsIsStable(xs, p);
    var x, y := SortItems(xs, p)[i], SortItems(xs, p)[j];
    assert x in multiset(SortItems(xs, p)) && y in multiset(SortItems(xs, p));
    assert !Before(RankOf(y, p), RankOf(x, p));
  }

  /** However the hash map is walked, the ranks of the items to process come out the same: they are
    * those of the survivors, sorted.
    */
  lemma SelectionIgnoresMapOrder(
    f: Formats, items: seq<Item>, a: seq<string>, b: seq<string>, stored: set<string>, now: int,
    maxAgeInDays: int, p: map<string, int>)
    requires AllDated(items) && Walks(a, LastPerHash(f, items)) && Walks(b, LastPerHash(f, items))
    ensures var m := LastPerHash(f, items);
            var xs, ys := Survivors(m, a, stored, now, maxAgeInDays), Survivors(m, b, stored, now, maxAgeInDays);
            && Ranks(SortItems(xs, p), p) == Ranks(SortItems(ys, p), p)
            && Sorted(Ranks(SortItems(xs, p), p))
            && multiset(SortItems(xs, p)) == multiset(xs) == multiset(ys)
  {
    var m := LastPerHash(f, items);
    var xs, ys := Survivors(m, a, stored, now, maxAgeInDays), Survivors(m, b, stored, now, maxAgeInDays);
    SurvivorsOfWalks(m, a, b, stored, now, maxAgeInDays);
    SortItemsIsStable(xs, p);
    SortItemsIsStable(ys, p);
    RanksOfSame(SortItems(xs, p), SortItems(ys, p), p);
    SortedIsUnique(Ranks(SortItems(xs, p), p), Ranks(SortItems(ys, p), p));
  }
}
