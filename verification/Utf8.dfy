/** Cleaning text to valid UTF-8: bytes at which no character can be decoded are dropped. */
module Utf8 {
  import opened Wrappers

  /** U+FFFD, which decoding also returns, with a size of one, for a byte it cannot make sense of. */
  const RUNE_ERROR: int := 0xFFFD

  // ----- Decoding and encoding one character -----

  predicate Scalar(r: int) { 0 <= r < 0xD800 || 0xE000 <= r < 0x11_0000 }

  predicate Tail(b: byte) { 0x80 <= b < 0xC0 }

  predicate Tails(s: Bytes, n: nat)
    requires 1 <= n
  {
    n <= |s| && forall i | 1 <= i < n :: Tail(s[i])
  }

  function Six(b: byte): int
    requires Tail(b)
  {
    b as int - 0x80
  }

  /** The shortest form is the only one accepted, and only for scalar values. */
  function Checked(r: int, size: nat, least: int): (int, nat) {
    if r >= least && Scalar(r) then (r, size) else (RUNE_ERROR, 1)
  }

  /** The rune at the start of `s` and its size, as the Go standard library reports them. */
  function DecodeRune(s: Bytes): (int, nat)
    requires s != []
  {
    var b := s[0] as int;
    if b < 0x80 then (b, 1)
    else if 0xC0 <= b < 0xE0 && Tails(s, 2) then Checked((b - 0xC0) * 0x40 + Six(s[1]), 2, 0x80)
    else if 0xE0 <= b < 0xF0 && Tails(s, 3) then
      Checked((b - 0xE0) * 0x1000 + Six(s[1]) * 0x40 + Six(s[2]), 3, 0x800)
    else if 0xF0 <= b < 0xF8 && Tails(s, 4) then
      Checked((b - 0xF0) * 0x4_0000 + Six(s[1]) * 0x1000 + Six(s[2]) * 0x40 + Six(s[3]), 4, 0x1_0000)
    else (RUNE_ERROR, 1)
  }

  predicate Broken(s: Bytes)
    requires s != []
  {
    DecodeRune(s) == (RUNE_ERROR, 1)
  }

  function TailOf(x: int): byte { (0x80 + x % 0x40) as byte }

  function EncodeRune(r: int): Bytes
    requires Scalar(r)
  {
    if r < 0x80 then [r as byte]
    else if r < 0x800 then [(0xC0 + r / 0x40) as byte, TailOf(r)]
    else if r < 0x1_0000 then [(0xE0 + r / 0x1000) as byte, TailOf(r / 0x40), TailOf(r)]
    else [(0xF0 + r / 0x4_0000) as byte, TailOf(r / 0x1000), TailOf(r / 0x40), TailOf(r)]
  }

  lemma Parts(a: int, b: int, c: int, d: int)
    requires 0 <= b < 0x40 && 0 <= c < 0x40 && 0 <= d < 0x40
    ensures var r := a * 0x4_0000 + b * 0x1000 + c * 0x40 + d;
            r / 0x4_0000 == a && r / 0x1000 % 0x40 == b && r / 0x40 % 0x40 == c && r % 0x40 == d
            && r / 0x1000 == a * 0x40 + b && r / 0x40 == a * 0x1000 + b * 0x40 + c
  {
    var r := a * 0x4_0000 + b * 0x1000 + c * 0x40 + d;
    assert r / 0x40 == a * 0x1000 + b * 0x40 + c;
    assert r / 0x1000 == a * 0x40 + b;
  }

  lemma Whole(r: int)
    ensures r == r / 0x4_0000 * 0x4_0000 + r / 0x1000 % 0x40 * 0x1000 + r / 0x40 % 0x40 * 0x40 + r % 0x40
    ensures r < 0x1_0000 ==> r / 0x4_0000 <= 0 && r / 0x1000 == r / 0x4_0000 * 0x40 + r / 0x1000 % 0x40
    ensures r / 0x40 == r / 0x1000 * 0x40 + r / 0x40 % 0x40
  {
    assert r / 0x1000 == r / 0x4_0000 * 0x40 + r / 0x1000 % 0x40;
    assert r / 0x40 == r / 0x1000 * 0x40 + r / 0x40 % 0x40;
  }

  /** Whatever decodes is the encoding of what it decodes to. */
  lemma EncodeUndoesDecode(s: Bytes)
    requires s != [] && !Broken(s)
    ensures var (r, n) := DecodeRune(s);
            Scalar(r) && 1 <= n <= |s| && EncodeRune(r) == s[..n]
  {
    var n := DecodeRune(s).1;
    if n == 2 {
      EncodeUndoesDecode2(s);
    } else if n == 3 {
      EncodeUndoesDecode3(s);
    } else if n == 4 {
      EncodeUndoesDecode4(s);
    }
  }

  lemma EncodeUndoesDecode2(s: Bytes)
    requires s != [] && !Broken(s) && DecodeRune(s).1 == 2
    ensures |s| >= 2 && Scalar(DecodeRune(s).0) && EncodeRune(DecodeRune(s).0) == s[..2]
  {
    Parts(0, 0, s[0] as int - 0xC0, Six(s[1]));
    assert s[..2] == [s[0], s[1]];
  }

  lemma EncodeUndoesDecode3(s: Bytes)
    requires s != [] && !Broken(s) && DecodeRune(s).1 == 3
    ensures |s| >= 3 && Scalar(DecodeRune(s).0) && EncodeRune(DecodeRune(s).0) == s[..3]
  {
    Parts(0, s[0] as int - 0xE0, Six(s[1]), Six(s[2]));
    assert s[..3] == [s[0], s[1], s[2]];
  }

  lemma EncodeUndoesDecode4(s: Bytes)
    requires s != [] && !Broken(s) && DecodeRune(s).1 == 4
    ensures |s| >= 4 && Scalar(DecodeRune(s).0) && EncodeRune(DecodeRune(s).0) == s[..4]
  {
    Parts(s[0] as int - 0xF0, Six(s[1]), Six(s[2]), Six(s[3]));
    assert s[..4] == [s[0], s[1], s[2], s[3]];
  }

  /** And every encoding decodes, whatever follows it. */
  lemma DecodeUndoesEncode(r: int, rest: Bytes)
    requires Scalar(r)
    ensures DecodeRune(EncodeRune(r) + rest) == (r, |EncodeRune(r)|)
  {
    var s := EncodeRune(r) + rest;
    Whole(r);
    if r < 0x80 {
    } else if r < 0x800 {
      assert Tails(s, 2);
    } else if r < 0x1_0000 {
      assert Tails(s, 3);
    } else {
      assert Tails(s, 4);
    }
  }

  // ----- The grammar of section 4 of RFC 3629 -----

  predicate In(b: byte, lo: byte, hi: byte) { lo <= b <= hi }

  /** UTF8-char. */
  predicate Utf8Char(c: Bytes) {
    match |c|
    case 1 => In(c[0], 0x00, 0x7F)
    case 2 => In(c[0], 0xC2, 0xDF) && Tail(c[1])
    case 3 =>
      && Tail(c[2])
      && (|| (c[0] == 0xE0 && In(c[1], 0xA0, 0xBF))
          || (In(c[0], 0xE1, 0xEC) && Tail(c[1]))
          || (c[0] == 0xED && In(c[1], 0x80, 0x9F))
          || (In(c[0], 0xEE, 0xEF) && Tail(c[1])))
    case 4 =>
      && Tail(c[2]) && Tail(c[3])
      && (|| (c[0] == 0xF0 && In(c[1], 0x90, 0xBF))
          || (In(c[0], 0xF1, 0xF3) && Tail(c[1]))
          || (c[0] == 0xF4 && In(c[1], 0x80, 0x8F)))
    case _ => false
  }

  function Concat(cs: seq<Bytes>): Bytes {
    if cs == [] then [] else cs[0] + Concat(cs[1..])
  }

  ghost predicate Octets(cs: seq<Bytes>, s: Bytes) {
    Concat(cs) == s && forall i | 0 <= i < |cs| :: Utf8Char(cs[i])
  }

  /** UTF8-octets: some sequence of characters spells the string. */
  ghost predicate WellFormed(s: Bytes) { exists cs :: Octets(cs, s) }

  /** The decoder accepts exactly the characters of the grammar. */
  lemma DecoderMeetsGrammar(s: Bytes)
    requires s != []
    ensures Broken(s) <==> forall n | 1 <= n <= |s| :: !Utf8Char(s[..n])
    ensures !Broken(s) ==> Utf8Char(s[..DecodeRune(s).1])
    ensures forall n | 1 <= n <= |s| && Utf8Char(s[..n]) :: !Broken(s) && DecodeRune(s).1 == n
  {
    if !Broken(s) {
      EncodeUndoesDecode(s);
      DecodedIsChar(s);
    }
    forall n | 1 <= n <= |s| && Utf8Char(s[..n])
      ensures !Broken(s) && DecodeRune(s).1 == n
    {
      CharIsDecoded(s, n);
    }
  }

  lemma DecodedIsChar(s: Bytes)
    requires s != [] && !Broken(s) && DecodeRune(s).1 <= |s|
    ensures Utf8Char(s[..DecodeRune(s).1])
  {}

  lemma CharIsDecoded(s: Bytes, n: nat)
    requires 1 <= n <= |s| && Utf8Char(s[..n])
    ensures !Broken(s) && DecodeRune(s).1 == n
  {
    assert forall i | 0 <= i < n :: s[..n][i] == s[i];
    if n == 2 {
      assert Tails(s, 2);
    } else if n == 3 {
      assert Tails(s, 3);
    } else if n == 4 {
      assert Tails(s, 4);
    }
  }

  // ----- Cleaning -----

  function Clean(s: Bytes): Bytes {
    if s == [] then []
    else if Broken(s) then Clean(s[1..])
    else
      EncodeUndoesDecode(s);
      var n := DecodeRune(s).1;
      s[..n] + Clean(s[n..])
  }

  lemma CleanAfter(buf: Bytes, s: Bytes, i: nat, whole: Bytes)
    requires i < |s| && buf + Clean(s[i..]) == whole
    ensures Broken(s[i..]) ==> buf + Clean(s[i + 1..]) == whole
    ensures !Broken(s[i..]) ==>
              var (r, size) := DecodeRune(s[i..]);
              1 <= size <= |s| - i && Scalar(r) && buf + EncodeRune(r) + Clean(s[i + size..]) == whole
  {
    var rest := s[i..];
    assert rest[1..] == s[i + 1..];
    if !Broken(rest) {
      EncodeUndoesDecode(rest);
      var size := DecodeRune(rest).1;
      assert rest[size..] == s[i + size..];
    }
  }

  method CleanToValidUTF8(s: Bytes) returns (buf: Bytes)
    ensures buf == Clean(s)
  {
    buf := [];
    var i := 0;
    while i < |s|
      invariant i <= |s|
      invariant buf + Clean(s[i..]) == Clean(s)
    {
      CleanAfter(buf, s, i, Clean(s));
      var (r, size) := DecodeRune(s[i..]);
      if r == RUNE_ERROR && size == 1 {
        i := i + 1;
        continue;
      }
      buf := buf + EncodeRune(r);
      i := i + size;
    }
  }

  /** Whatever comes in, what comes out is well-formed. */
  lemma {:induction false} CleanIsWellFormed(s: Bytes)
    ensures WellFormed(Clean(s))
    decreases |s|
  {
    if s == [] {
      assert Octets([], []);
    } else if Broken(s) {
      CleanIsWellFormed(s[1..]);
    } else {
      EncodeUndoesDecode(s);
      DecoderMeetsGrammar(s);
      var (r, n) := DecodeRune(s);
      CleanIsWellFormed(s[n..]);
      var cs :| Octets(cs, Clean(s[n..]));
      assert ([s[..n]] + cs)[1..] == cs;
      assert Octets([s[..n]] + cs, Clean(s));
    }
  }

  lemma CleanPassesChar(c: Bytes, rest: Bytes)
    requires Utf8Char(c)
    ensures Clean(c + rest) == c + Clean(rest)
  {
    var s := c + rest;
    assert s[..|c|] == c && s[|c|..] == rest;
    CharIsDecoded(s, |c|);
    EncodeUndoesDecode(s);
  }

  /** A function that passes any one character in front passes a whole sequence of them. */
  lemma {:induction false} PassesAll(f: Bytes -> Bytes, cs: seq<Bytes>, b: Bytes)
    requires forall i | 0 <= i < |cs| :: Utf8Char(cs[i])
    requires forall c, rest | Utf8Char(c) :: f(c + rest) == c + f(rest)
    ensures f(Concat(cs) + b) == Concat(cs) + f(b)
  {
    if cs == [] {
      assert [] + b == b;
    } else {
      PassesAll(f, cs[1..], b);
      assert Concat(cs) + b == cs[0] + (Concat(cs[1..]) + b);
    }
  }

  /** Well-formed text at the front passes unchanged, a genuine U+FFFD included. */
  lemma CleanPassesWellFormed(a: Bytes, b: Bytes)
    requires WellFormed(a)
    ensures Clean(a + b) == a + Clean(b)
  {
    forall c, rest | Utf8Char(c) ensures Clean(c + rest) == c + Clean(rest) {
      CleanPassesChar(c, rest);
    }
    var cs :| Octets(cs, a);
    PassesAll(Clean, cs, b);
  }

  /** Text is left as it is exactly when it is well-formed. */
  lemma CleanKeepsExactlyWellFormed(s: Bytes)
    ensures Clean(s) == s <==> WellFormed(s)
  {
    CleanIsWellFormed(s);
    if WellFormed(s) {
      CleanPassesWellFormed(s, []);
      assert s + [] == s;
    }
  }

  lemma CleanIsIdempotent(s: Bytes)
    ensures Clean(Clean(s)) == Clean(s)
  {
    CleanIsWellFormed(s);
    CleanKeepsExactlyWellFormed(Clean(s));
  }

  /** No character of the grammar starts the string. */
  ghost predicate NoCharAhead(s: Bytes) { forall n | 1 <= n <= |s| :: !Utf8Char(s[..n]) }

  lemma CleanDropsOne(s: Bytes)
    requires s != [] && NoCharAhead(s)
    ensures Clean(s) == Clean(s[1..])
  {
    DecoderMeetsGrammar(s);
  }

  /** Characters pass, and where none starts a single byte is dropped. */
  ghost predicate Cleans(f: Bytes -> Bytes) {
    && f([]) == []
    && (forall c, rest | Utf8Char(c) :: f(c + rest) == c + f(rest))
    && (forall s | s != [] && NoCharAhead(s) :: f(s) == f(s[1..]))
  }

  /** The cleaner does that, and nothing else does. */
  lemma CleanIsTheOnly(f: Bytes -> Bytes)
    ensures Cleans(Clean)
    ensures Cleans(f) ==> forall s :: f(s) == Clean(s)
  {
    forall c, rest | Utf8Char(c) ensures Clean(c + rest) == c + Clean(rest) {
      CleanPassesChar(c, rest);
    }
    forall s | s != [] && NoCharAhead(s) ensures Clean(s) == Clean(s[1..]) {
      CleanDropsOne(s);
    }
    if Cleans(f) {
      forall s ensures f(s) == Clean(s) {
        SameAsClean(f, s);
      }
    }
  }

  lemma {:induction false} SameAsClean(f: Bytes -> Bytes, s: Bytes)
    requires Cleans(f)
    ensures f(s) == Clean(s)
    decreases |s|
  {
    if s != [] && NoCharAhead(s) {
      CleanDropsOne(s);
      SameAsClean(f, s[1..]);
    } else if s != [] {
      var n :| 1 <= n <= |s| && Utf8Char(s[..n]);
      assert s == s[..n] + s[n..];
      CleanPassesChar(s[..n], s[n..]);
      SameAsClean(f, s[n..]);
    }
  }

  /** The positions of `s` whose bytes are kept, counted from `from`. */
  function Kept(s: Bytes, from: nat): seq<nat> {
    if s == [] then []
    else if Broken(s) then Kept(s[1..], from + 1)
    else
      EncodeUndoesDecode(s);
      var n := DecodeRune(s).1;
      seq(n, i requires 0 <= i < n => from + i) + Kept(s[n..], from + n)
  }

  ghost predicate Picks(at: seq<nat>, a: Bytes, b: Bytes, from: nat) {
    && |at| == |a|
    && (forall i | 0 <= i < |at| :: from <= at[i] < from + |b| && a[i] == b[at[i] - from])
    && (forall i | 0 <= i < |at| - 1 :: at[i] < at[i + 1])
  }

  lemma {:induction false} KeptPicks(s: Bytes, from: nat)
    ensures Picks(Kept(s, from), Clean(s), s, from)
    decreases |s|
  {
    if s != [] {
      if Broken(s) {
        KeptPicks(s[1..], from + 1);
      } else {
        EncodeUndoesDecode(s);
        var n := DecodeRune(s).1;
        KeptPicks(s[n..], from + n);
        PicksPrefix(n, Kept(s[n..], from + n), Clean(s[n..]), s, from);
      }
    }
  }

  lemma PicksPrefix(n: nat, at: seq<nat>, a: Bytes, b: Bytes, from: nat)
    requires n <= |b| && Picks(at, a, b[n..], from + n)
    ensures Picks(seq(n, i requires 0 <= i < n => from + i) + at, b[..n] + a, b, from)
  {}

  /** The output is the input with bytes left out, in order. */
  lemma CleanIsSubsequence(s: Bytes)
    ensures exists at :: Picks(at, Clean(s), s, 0)
  {
    KeptPicks(s, 0);
  }
}
