/** Packing entries greedily, in order, into messages that start with a header naming their part, for any
 * headers that do not get shorter.
 */
module Packing {
  import opened Wrappers

  type Text = Bytes

  /** The header of each part. */
  type Headers = nat -> Text

  const MAX_LEN: nat := 4090

  ghost predicate Growing(h: Headers) { forall p, q: nat | 1 <= p <= q :: |h(p)| <= |h(q)| }

  // ----- The greedy loop -----

  /** The messages still to come, with `current` being built as part `part`. */
  function Split(h: Headers, part: nat, current: Text, rest: seq<Text>): seq<Text>
    decreases |rest|
  {
    if rest == [] then [current]
    else if |current| + |rest[0]| > MAX_LEN
    then [current] + Split(h, part + 1, h(part + 1) + rest[0], rest[1..])
    else Split(h, part, current + rest[0], rest[1..])
  }

  // ----- Splits in general -----

  function Join(gs: seq<seq<Text>>): seq<Text> {
    if gs == [] then [] else gs[0] + Join(gs[1..])
  }

  function Flatten(q: seq<Text>): Text {
    if q == [] then [] else q[0] + Flatten(q[1..])
  }

  /** Group `i` becomes message `part + i`, behind that part's header. */
  function Render(h: Headers, part: nat, gs: seq<seq<Text>>): seq<Text>
    decreases |gs|
  {
    if gs == [] then [] else [h(part) + Flatten(gs[0])] + Render(h, part + 1, gs[1..])
  }

  ghost predicate WithinLimit(messages: seq<Text>) {
    forall i | 0 <= i < |messages| :: |messages[i]| <= MAX_LEN
  }

  // ----- Nothing is lost -----

  /** The groups the greedy loop forms, the first being `open` plus what still fits. */
  function Groups(h: Headers, part: nat, current: Text, open: seq<Text>, rest: seq<Text>): seq<seq<Text>>
    decreases |rest|
  {
    if rest == [] then [open]
    else if |current| + |rest[0]| > MAX_LEN
    then [open] + Groups(h, part + 1, h(part + 1) + rest[0], [rest[0]], rest[1..])
    else Groups(h, part, current + rest[0], open + [rest[0]], rest[1..])
  }

  lemma FlattenAppends(q: seq<Text>, t: Text)
    ensures Flatten(q + [t]) == Flatten(q) + t
  {
    if q == [] {
      assert [t][1..] == [];
    } else {
      assert (q + [t])[1..] == q[1..] + [t];
      FlattenAppends(q[1..], t);
    }
  }

  lemma FlattenOne(e: Text)
    ensures Flatten([e]) == e
  {
    assert Flatten([e]) == e + Flatten([]);
  }

  lemma Extended(header: Text, open: seq<Text>, e: Text)
    ensures header + Flatten(open) + e == header + Flatten(open + [e])
  {
    FlattenAppends(open, e);
  }

  ghost predicate RendersTo(h: Headers, part: nat, current: Text, open: seq<Text>, rest: seq<Text>) {
    && Split(h, part, current, rest) == Render(h, part, Groups(h, part, current, open, rest))
    && Join(Groups(h, part, current, open, rest)) == open + rest
  }

  lemma {:induction false} SplitRendersGroups(h: Headers, part: nat, current: Text, open: seq<Text>, rest: seq<Text>)
    requires current == h(part) + Flatten(open)
    ensures RendersTo(h, part, current, open, rest)
    decreases |rest|
  {
    if rest == [] {
      assert Render(h, part, [open]) == [current] + Render(h, part + 1, []);
      assert Join([open]) == open + Join([]);
    } else {
      var e := rest[0];
      if |current| + |e| > MAX_LEN {
        FlattenOne(e);
        SplitRendersGroups(h, part + 1, h(part + 1) + e, [e], rest[1..]);
        ClosedGroup(h, part, current, open, rest);
      } else {
        Extended(h(part), open, e);
        SplitRendersGroups(h, part, current + e, open + [e], rest[1..]);
        OpenGroup(h, part, current, open, rest);
      }
    }
  }

  lemma OpenGroup(h: Headers, part: nat, current: Text, open: seq<Text>, rest: seq<Text>)
    requires rest != [] && |current| + |rest[0]| <= MAX_LEN
    requires RendersTo(h, part, current + rest[0], open + [rest[0]], rest[1..])
    ensures RendersTo(h, part, current, open, rest)
  {
    assert open + [rest[0]] + rest[1..] == open + rest;
  }

  lemma ClosedGroup(h: Headers, part: nat, current: Text, open: seq<Text>, rest: seq<Text>)
    requires current == h(part) + Flatten(open)
    requires rest != [] && |current| + |rest[0]| > MAX_LEN
    requires RendersTo(h, part + 1, h(part + 1) + rest[0], [rest[0]], rest[1..])
    ensures RendersTo(h, part, current, open, rest)
  {
    var gs := Groups(h, part + 1, h(part + 1) + rest[0], [rest[0]], rest[1..]);
    assert ([open] + gs)[1..] == gs;
    assert [rest[0]] + rest[1..] == rest;
  }

  // ----- The limit, and staying ahead -----

  function Size(q: seq<Text>): nat {
    if q == [] then 0 else |q[0]| + Size(q[1..])
  }

  lemma {:induction false} FlattenSize(q: seq<Text>)
    ensures |Flatten(q)| == Size(q)
  {
    if q != [] {
      FlattenSize(q[1..]);
    }
  }

  lemma {:induction false} TailIsSmaller(q: seq<Text>, d: nat)
    requires d <= |q|
    ensures Size(q[d..]) <= Size(q)
  {
    if d == 0 {
      assert q[0..] == q;
    } else {
      assert q[1..][d - 1..] == q[d..];
      TailIsSmaller(q[1..], d - 1);
    }
  }

  ghost predicate Fits(h: Headers, part: nat, gs: seq<seq<Text>>) {
    forall i | 0 <= i < |gs| :: |h(part + i)| + Size(gs[i]) <= MAX_LEN
  }

  lemma {:induction false} RenderFits(h: Headers, part: nat, gs: seq<seq<Text>>)
    ensures |Render(h, part, gs)| == |gs|
    ensures WithinLimit(Render(h, part, gs)) <==> Fits(h, part, gs)
    decreases |gs|
  {
    if gs != [] {
      var ms := Render(h, part, gs);
      FlattenSize(gs[0]);
      RenderFits(h, part + 1, gs[1..]);
      assert ms[1..] == Render(h, part + 1, gs[1..]);
      assert Fits(h, part, gs) ==> Fits(h, part + 1, gs[1..]) by {
        assert forall i | 0 <= i < |gs[1..]| :: gs[1..][i] == gs[i + 1] && part + 1 + i == part + (i + 1);
      }
      if WithinLimit(ms) {
        assert forall i | 0 <= i < |ms[1..]| :: ms[1..][i] == ms[i + 1];
        assert |ms[0]| == |h(part)| + Size(gs[0]);
        assert forall i | 1 <= i < |gs| :: gs[i] == gs[1..][i - 1] && part + i == part + 1 + (i - 1);
      }
      if Fits(h, part, gs) {
        assert |h(part + 0)| + Size(gs[0]) <= MAX_LEN;
        assert forall i | 1 <= i < |ms| :: ms[i] == ms[1..][i - 1];
      }
    }
  }

  /** An entry that fits behind a later header fits behind an earlier one. */
  lemma {:induction false} EntryFits(h: Headers, part: nat, gs: seq<seq<Text>>, i: nat)
    requires part >= 1 && Growing(h) && Fits(h, part, gs) && i < |Join(gs)|
    ensures |h(part)| + |Join(gs)[i]| <= MAX_LEN
    decreases |gs|
  {
    if i < |gs[0]| {
      EntryIsSmaller(gs[0], i);
      assert |h(part + 0)| + Size(gs[0]) <= MAX_LEN;
    } else {
      LaterGroupsFit(h, part, gs);
      EntryFits(h, part + 1, gs[1..], i - |gs[0]|);
    }
  }

  lemma {:induction false} EntryIsSmaller(q: seq<Text>, i: nat)
    requires i < |q|
    ensures |q[i]| <= Size(q)
  {
    if i > 0 {
      EntryIsSmaller(q[1..], i - 1);
    }
  }

  lemma LaterGroupsFit(h: Headers, part: nat, gs: seq<seq<Text>>)
    requires gs != [] && Fits(h, part, gs)
    ensures Fits(h, part + 1, gs[1..])
  {
    assert forall i | 0 <= i < |gs[1..]| :: gs[1..][i] == gs[i + 1] && part + 1 + i == part + (i + 1);
  }

  /** How many entries the loop packs behind `used` bytes before it opens a new part. */
  function Packed(used: nat, rest: seq<Text>): (n: nat)
    ensures n <= |rest|
    decreases |rest|
  {
    if rest == [] || used + |rest[0]| > MAX_LEN then 0 else 1 + Packed(used + |rest[0]|, rest[1..])
  }

  /** The loop packs every prefix that fits. */
  lemma {:induction false} PacksWhatFits(used: nat, rest: seq<Text>, n: nat)
    requires n <= |rest| && used + Size(rest[..n]) <= MAX_LEN
    ensures Packed(used, rest) >= n
    decreases n
  {
    if n > 0 {
      assert rest[..n][1..] == rest[1..][..n - 1];
      PacksWhatFits(used + |rest[0]|, rest[1..], n - 1);
    }
  }

  /** One message is closed within the limit; the next starts as if the entry that did not fit were
    * still to come, provided that entry fits behind the next header.
    */
  lemma {:induction false} SplitAfterPacking(h: Headers, part: nat, current: Text, rest: seq<Text>)
    requires |current| <= MAX_LEN
    requires var n := Packed(|current|, rest);
             n < |rest| ==> |h(part + 1)| + |rest[n]| <= MAX_LEN
    ensures var n := Packed(|current|, rest);
            var ms := Split(h, part, current, rest);
            |ms| >= 1 && |ms[0]| <= MAX_LEN
            && ms[1..] == if n == |rest| then [] else Split(h, part + 1, h(part + 1), rest[n..])
    decreases |rest|
  {
    if rest != [] && |current| + |rest[0]| <= MAX_LEN {
      var m := Packed(|current + rest[0]|, rest[1..]);
      assert rest[1..][m..] == rest[m + 1..];
      SplitAfterPacking(h, part, current + rest[0], rest[1..]);
    } else if rest != [] {
      assert rest[0..] == rest;
    }
  }

  ghost predicate NoWorse(ms: seq<Text>, most: nat) {
    |ms| <= most && WithinLimit(ms)
  }

  lemma OneMoreMessage(h: Headers, part: nat, current: Text, rest: seq<Text>, most: nat)
    requires |current| <= MAX_LEN
    requires var n := Packed(|current|, rest);
             n < |rest| ==>
               && |h(part + 1)| + |rest[n]| <= MAX_LEN
               && NoWorse(Split(h, part + 1, h(part + 1), rest[n..]), most)
    ensures NoWorse(Split(h, part, current, rest), most + 1)
  {
    SplitAfterPacking(h, part, current, rest);
    var ms := Split(h, part, current, rest);
    assert forall i | 1 <= i < |ms| :: ms[i] == ms[1..][i - 1];
  }

  /** The greedy loop has never packed less than another split `gs` of the same entries: it starts
    * part `part` with the first `d` of them already sent, so it stays ahead to the end.
    */
  lemma {:induction false} GreedyStaysAhead(h: Headers, part: nat, gs: seq<seq<Text>>, d: nat, rest: seq<Text>)
    requires part >= 1 && Growing(h) && gs != [] && Fits(h, part, gs) && d <= |Join(gs)| && rest == Join(gs)[d..]
    ensures NoWorse(Split(h, part, h(part), rest), |gs|)
    decreases |gs|
  {
    var n := Packed(|h(part)|, rest);
    assert |h(part + 0)| + Size(gs[0]) <= MAX_LEN;
    if n < |rest| {
      FirstGroupIsPacked(h, part, gs, d);
      var e := NextPartFits(h, part, gs, d, n);
      GreedyStaysAhead(h, part + 1, gs[1..], e, rest[n..]);
    }
    OneMoreMessage(h, part, h(part), rest, |gs| - 1);
  }

  lemma SuffixOfJoin(gs: seq<seq<Text>>, d: nat, n: nat)
    requires gs != [] && |gs[0]| <= d + n < |Join(gs)| && d <= |Join(gs)|
    ensures gs[1..] != [] && d + n - |gs[0]| < |Join(gs[1..])|
    ensures Join(gs[1..])[d + n - |gs[0]|..] == Join(gs)[d..][n..]
    ensures Join(gs[1..])[d + n - |gs[0]|] == Join(gs)[d..][n]
  {
    var later := Join(gs[1..]);
    assert Join(gs) == gs[0] + later;
    assert gs[1..] == [] ==> later == [];
  }

  /** What is left when the greedy loop opens the next part is a suffix of the other split's later groups. */
  lemma NextPartFits(h: Headers, part: nat, gs: seq<seq<Text>>, d: nat, n: nat) returns (e: nat)
    requires part >= 1 && Growing(h) && gs != [] && Fits(h, part, gs)
    requires |gs[0]| <= d + n < |Join(gs)|
    ensures gs[1..] != [] && Fits(h, part + 1, gs[1..])
    ensures e < |Join(gs[1..])| && Join(gs[1..])[e..] == Join(gs)[d..][n..]
    ensures |h(part + 1)| + |Join(gs)[d..][n]| <= MAX_LEN
  {
    e := d + n - |gs[0]|;
    SuffixOfJoin(gs, d, n);
    LaterGroupsFit(h, part, gs);
    EntryFits(h, part + 1, gs[1..], e);
  }

  lemma FirstGroupIsPacked(h: Headers, part: nat, gs: seq<seq<Text>>, d: nat)
    requires gs != [] && Fits(h, part, gs) && d <= |Join(gs)|
    ensures d + Packed(|h(part)|, Join(gs)[d..]) >= |gs[0]|
  {
    if d < |gs[0]| {
      var k := |gs[0]| - d;
      assert Join(gs)[d..][..k] == gs[0][d..];
      TailIsSmaller(gs[0], d);
      assert |h(part + 0)| + Size(gs[0]) <= MAX_LEN;
      PacksWhatFits(|h(part)|, Join(gs)[d..], k);
    }
  }
}
