/** Splitting the daily news summary into Telegram messages.
 *
 * Entries are packed greedily, in order, into messages that start with a header naming
 * their part.  Lengths are bytes, as Go's `len` counts them.
 */
module MessageSplitter {
  import opened Wrappers
  import opened Packing

  // ----- Headers -----

  function Ascii(s: string): (t: Text)
    ensures |t| == |s|
  {
    seq(|s|, i requires 0 <= i < |s| => (s[i] as int % 128) as byte)
  }

  /** U+1F4F0, the newspaper. */
  const NEWSPAPER: Text := [0xF0, 0x9F, 0x93, 0xB0]

  function Digits(n: nat): (t: Text)
    ensures |t| >= 1
  {
    var last := [(48 + n % 10) as byte];
    if n < 10 then last else Digits(n / 10) + last
  }

  function Header(part: nat): Text {
    if part == 1 then NEWSPAPER + Ascii(" *Summary Berita Saham Harian* ") + NEWSPAPER + Ascii("\n\n")
    else Ascii("---*Lanjutan Summary Berita Saham Harian Part ") + Digits(part) + Ascii("*---\n\n")
  }

  const EMPTY_NOTICE: Text := Ascii("Tidak ada ringkasan berita saham untuk hari ini.")

  lemma HeaderLength(part: nat)
    ensures |Header(part)| == if part == 1 then 41 else 52 + |Digits(part)|
  {
    assert |" *Summary Berita Saham Harian* "| == 31;
    assert |"---*Lanjutan Summary Berita Saham Harian Part "| == 46;
  }

  /** The number that decimal digits spell. */
  function Spelled(t: Text): int {
    if t == [] then 0 else Spelled(t[..|t| - 1]) * 10 + (t[|t| - 1] as int - 48)
  }

  /** A header's part number is spelled in decimal digits, without a leading zero. */
  lemma {:induction false} DigitsSpell(n: nat)
    ensures Spelled(Digits(n)) == n
    ensures forall i | 0 <= i < |Digits(n)| :: 48 <= Digits(n)[i] <= 57
    ensures n > 0 ==> Digits(n)[0] != 48
  {
    var last := [(48 + n % 10) as byte];
    if n < 10 {
      assert Spelled(last) == Spelled(last[..0]) * 10 + n;
    } else {
      DigitsSpell(n / 10);
      assert Digits(n)[..|Digits(n)| - 1] == Digits(n / 10);
    }
  }

  // ----- What the loop computes -----

  function Messages(entries: seq<Text>): seq<Text> {
    if entries == [] then [EMPTY_NOTICE] else Split(Header, 1, Header(1), entries)
  }

  method FormatNewsSummaries(entries: seq<Text>) returns (messages: seq<Text>)
    ensures messages == Messages(entries)
  {
    if |entries| == 0 {
      return [EMPTY_NOTICE];
    }
    messages := [];
    var part := 1;
    var current := Header(part);
    for i := 0 to |entries|
      invariant messages + Split(Header, part, current, entries[i..]) == Split(Header, 1, Header(1), entries)
    {
      var e := entries[i];
      assert entries[i..][1..] == entries[i + 1..];
      if |current| + |e| > MAX_LEN {
        messages := messages + [current];
        part := part + 1;
        current := Header(part);
      }
      current := current + e;
    }
    messages := messages + [current];
  }

  /** The messages are the headers, in order, followed by exactly the entries, in order. */
  lemma MessagesKeepEntries(entries: seq<Text>)
    requires entries != []
    ensures exists gs :: Messages(entries) == Render(Header, 1, gs) && Join(gs) == entries
  {
    assert Header(1) + Flatten([]) == Header(1) && [] + entries == entries;
    SplitRendersGroups(Header, 1, Header(1), [], entries);
  }

  lemma {:induction false} DigitsGrow(n: nat)
    ensures |Digits(n)| <= |Digits(n + 1)|
  {
    if n >= 10 {
      if n % 10 == 9 {
        DigitsGrow(n / 10);
        assert (n + 1) / 10 == n / 10 + 1;
      } else {
        assert (n + 1) / 10 == n / 10;
      }
    }
  }

  lemma HeadersGrow(part: nat)
    requires part >= 1
    ensures |Header(part)| <= |Header(part + 1)|
  {
    HeaderLength(part);
    HeaderLength(part + 1);
    DigitsGrow(part);
  }

  lemma {:induction false} HeadersGrowTo(p: nat, q: nat)
    requires 1 <= p <= q
    ensures |Header(p)| <= |Header(q)|
    decreases q
  {
    if p < q {
      HeadersGrowTo(p, q - 1);
      HeadersGrow(q - 1);
    }
  }

  lemma HeaderGrows()
    ensures Growing(Header)
  {
    forall p, q: nat | 1 <= p <= q ensures |Header(p)| <= |Header(q)| {
      HeadersGrowTo(p, q);
    }
  }

  // ----- Greedy is optimal -----

  /** Of all ways to cut the entries, in order, into messages of at most 4090 bytes behind those
    * headers, the splitter finds one with the fewest messages.
    */
  lemma GreedyIsOptimal(entries: seq<Text>, gs: seq<seq<Text>>)
    requires entries != [] && Join(gs) == entries && WithinLimit(Render(Header, 1, gs))
    ensures |Messages(entries)| <= |Render(Header, 1, gs)| && WithinLimit(Messages(entries))
  {
    RenderFits(Header, 1, gs);
    assert entries[0..] == entries;
    HeaderGrows();
    GreedyStaysAhead(Header, 1, gs, 0, entries);
  }

  /** The splitter respects the limit exactly when some split does. */
  lemma WithinLimitIfPossible(entries: seq<Text>)
    requires entries != []
    ensures WithinLimit(Messages(entries))
        <==> exists gs :: Join(gs) == entries && WithinLimit(Render(Header, 1, gs))
  {
    MessagesKeepEntries(entries);
    forall gs | Join(gs) == entries && WithinLimit(Render(Header, 1, gs))
      ensures WithinLimit(Messages(entries))
    {
      GreedyIsOptimal(entries, gs);
    }
  }

  // ----- When the limit can be respected at all -----

  /** An entry of more than 4049 bytes breaks the limit: it is sent behind some header all the same. */
  lemma LongEntryBreaksLimit(entries: seq<Text>, i: nat)
    requires i < |entries| && WithinLimit(Messages(entries))
    ensures |entries[i]| <= MAX_LEN - 41
  {
    MessagesKeepEntries(entries);
    var gs :| Messages(entries) == Render(Header, 1, gs) && Join(gs) == entries;
    RenderFits(Header, 1, gs);
    HeaderGrows();
    EntryFits(Header, 1, gs, i);
    HeaderLength(1);
  }

  function OneEach(entries: seq<Text>): seq<seq<Text>> {
    if entries == [] then [] else [[entries[0]]] + OneEach(entries[1..])
  }

  lemma {:induction false} OneEachIsSplit(entries: seq<Text>)
    ensures Join(OneEach(entries)) == entries
    ensures |OneEach(entries)| == |entries|
    ensures forall i | 0 <= i < |entries| :: OneEach(entries)[i] == [entries[i]]
  {
    if entries != [] {
      OneEachIsSplit(entries[1..]);
      var os := OneEach(entries[1..]);
      assert ([[entries[0]]] + os)[1..] == os;
    }
  }

  /** If every entry fits behind the header of its own number, the limit is respected. */
  lemma ShortEntriesKeepLimit(entries: seq<Text>)
    requires entries != []
    requires forall i | 0 <= i < |entries| :: |Header(1 + i)| + |entries[i]| <= MAX_LEN
    ensures WithinLimit(Messages(entries)) && |Messages(entries)| <= |entries|
  {
    OneEachIsSplit(entries);
    var gs := OneEach(entries);
    forall i | 0 <= i < |gs|
      ensures |Header(1 + i)| + Size(gs[i]) <= MAX_LEN
    {
      assert Size([entries[i]]) == |entries[i]| + Size([entries[i]][1..]);
    }
    RenderFits(Header, 1, gs);
    GreedyIsOptimal(entries, gs);
  }
}
