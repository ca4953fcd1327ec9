/** Escaping text for Telegram's MarkdownV2: a backslash goes in front of each of eighteen special
 * characters, and nothing else changes, not even a backslash.  Characters stand for bytes.
 */
module Markdown {

  const SPECIALS: string := "_*[]()~`>#+-=|{}.!"

  predicate Special(c: char) { c in SPECIALS }

  /** The characters that MarkdownV2 reserves. */
  lemma SpecialsSpelledOut(c: char)
    ensures Special(c) <==>
      || c == '_' || c == '*' || c == '[' || c == ']' || c == '(' || c == ')' || c == '~' || c == '`' || c == '>'
      || c == '#' || c == '+' || c == '-' || c == '=' || c == '|' || c == '{' || c == '}' || c == '.' || c == '!'
  {
    assert forall i | 0 <= i < |SPECIALS| :: SPECIALS[i] in SPECIALS;
    assert SPECIALS[0] == '_' && SPECIALS[17] == '!';
  }

  function Escape(x: string): string {
    if x == "" then "" else (if Special(x[0]) then ['\\', x[0]] else [x[0]]) + Escape(x[1..])
  }

  function Specials(x: string): nat {
    if x == "" then 0 else (if Special(x[0]) then 1 else 0) + Specials(x[1..])
  }

  /** Drop the character in front of every special one. */
  function Strip(y: string): string {
    if y == "" then ""
    else if |y| >= 2 && Special(y[1]) then Strip(y[1..])
    else [y[0]] + Strip(y[1..])
  }

  /** What Telegram does: a backslash makes the next character an ordinary one. */
  function Decode(y: string): string {
    if y == "" then ""
    else if y[0] == '\\' && |y| >= 2 then [y[1]] + Decode(y[2..])
    else [y[0]] + Decode(y[1..])
  }

  lemma BackslashIsOrdinary()
    ensures !Special('\\')
  {
    assert forall i | 0 <= i < |SPECIALS| :: SPECIALS[i] != '\\';
  }

  lemma EscapeOf(c: char, rest: string)
    ensures Escape([c] + rest) == (if Special(c) then ['\\', c] else [c]) + Escape(rest)
  {
    assert ([c] + rest)[1..] == rest;
  }

  /** Escaped text never starts with a special character. */
  lemma HeadIsOrdinary(x: string)
    ensures Escape(x) != "" ==> !Special(Escape(x)[0])
  {
    BackslashIsOrdinary();
  }

  lemma {:induction false} EscapedLength(x: string)
    ensures |Escape(x)| == |x| + Specials(x)
  {
    if x != "" {
      EscapedLength(x[1..]);
    }
  }

  ghost predicate Guarded(y: string) {
    forall i | 0 <= i < |y| && Special(y[i]) :: i > 0 && y[i - 1] == '\\'
  }

  lemma GuardedPrefixed(p: string, y: string)
    requires (|p| == 1 && !Special(p[0])) || (|p| == 2 && p[0] == '\\')
    requires Guarded(y)
    ensures Guarded(p + y)
  {
    BackslashIsOrdinary();
    forall i | 0 <= i < |p + y| && Special((p + y)[i])
      ensures i > 0 && (p + y)[i - 1] == '\\'
    {
      if i >= |p| {
        assert Special(y[i - |p|]) && y[i - |p| - 1] == '\\';
      }
    }
  }

  /** Every special character of the output has a backslash in front of it. */
  lemma {:induction false} EscapeGuards(x: string)
    ensures Guarded(Escape(x))
  {
    if x != "" {
      EscapeGuards(x[1..]);
      GuardedPrefixed(if Special(x[0]) then ['\\', x[0]] else [x[0]], Escape(x[1..]));
    }
  }

  lemma StripKeeps(c: char, y: string)
    requires y == "" || !Special(y[0])
    ensures Strip([c] + y) == [c] + Strip(y)
  {
    assert ([c] + y)[1..] == y;
  }

  /** Dropping the character in front of every special one undoes the escape. */
  lemma {:induction false} StripUndoesEscape(x: string)
    ensures Strip(Escape(x)) == x
  {
    if x != "" {
      var rest := Escape(x[1..]);
      StripUndoesEscape(x[1..]);
      HeadIsOrdinary(x[1..]);
      StripKeeps(x[0], rest);
      if Special(x[0]) {
        assert Escape(x)[1..] == [x[0]] + rest;
      }
      assert x == [x[0]] + x[1..];
    }
  }

  /** Different texts have different escapes. */
  lemma EscapeIsInjective(x: string, y: string)
    ensures Escape(x) == Escape(y) <==> x == y
  {
    StripUndoesEscape(x);
    StripUndoesEscape(y);
  }

  /** Exactly the texts whose specials are all guarded are escapes. */
  lemma {:induction false} EscapeUndoesStrip(y: string)
    ensures Escape(Strip(y)) == y <==> Guarded(y)
    decreases |y|
  {
    EscapeGuards(Strip(y));
    if Guarded(y) {
      GuardedIsEscape(y);
    }
  }

  lemma {:induction false} GuardedIsEscape(y: string)
    requires Guarded(y)
    ensures Escape(Strip(y)) == y
    decreases |y|
  {
    BackslashIsOrdinary();
    if |y| >= 2 && Special(y[1]) {
      var rest := y[2..];
      assert forall i | 0 <= i < |rest| :: rest[i] == y[i + 2];
      assert rest != "" ==> !Special(rest[0]);
      assert Guarded(rest);
      GuardedIsEscape(rest);
      StripKeeps(y[1], rest);
      assert y[1..] == [y[1]] + rest;
      EscapeOf(y[1], Strip(rest));
    } else if y != "" {
      var rest := y[1..];
      assert forall i | 0 <= i < |rest| :: rest[i] == y[i + 1];
      assert Guarded(rest);
      GuardedIsEscape(rest);
      assert !Special(y[0]);
      EscapeOf(y[0], Strip(rest));
    }
  }

  // ----- What Telegram shows -----

  /** Every backslash is the last character or stands right in front of a special one. */
  ghost predicate BackslashesAreSafe(x: string) {
    forall i | 0 <= i < |x| - 1 && x[i] == '\\' :: Special(x[i + 1])
  }

  lemma DecodeEscaped(c: char, y: string)
    ensures Decode(['\\', c] + y) == [c] + Decode(y)
  {
    assert (['\\', c] + y)[2..] == y;
  }

  lemma DecodePlain(c: char, y: string)
    requires c != '\\' || y == ""
    ensures Decode([c] + y) == [c] + Decode(y)
  {
    assert ([c] + y)[1..] == y;
  }

  lemma DecodeOfEscape(c: char, x: string)
    requires c != '\\' || x == ""
    ensures Decode(Escape([c] + x)) == [c] + Decode(Escape(x))
  {
    EscapeOf(c, x);
    if Special(c) {
      DecodeEscaped(c, Escape(x));
    } else {
      DecodePlain(c, Escape(x));
    }
  }

  lemma EscapeOfBackslash(c: char, x: string)
    ensures Escape(['\\', c] + x) == (if Special(c) then ['\\', '\\', c] else ['\\', c]) + Escape(x)
  {
    BackslashIsOrdinary();
    assert ['\\', c] + x == ['\\'] + ([c] + x);
    EscapeOf('\\', [c] + x);
    EscapeOf(c, x);
  }

  lemma DecodePair(c: char, y: string)
    requires c != '\\'
    ensures Decode(['\\', '\\', c] + y) == ['\\', c] + Decode(y)
  {
    assert ['\\', '\\', c] + y == ['\\', '\\'] + ([c] + y);
    DecodeEscaped('\\', [c] + y);
    DecodePlain(c, y);
  }

  lemma DecodeOfBackslash(c: char, x: string)
    ensures Decode(Escape(['\\', c] + x)) == (if Special(c) then ['\\', c] else [c]) + Decode(Escape(x))
  {
    BackslashIsOrdinary();
    EscapeOfBackslash(c, x);
    if Special(c) {
      DecodePair(c, Escape(x));
    } else {
      DecodeEscaped(c, Escape(x));
    }
  }

  lemma {:induction false} DecodedIsNoLonger(x: string)
    ensures |Decode(Escape(x))| <= |x|
    decreases |x|
  {
    if |x| >= 2 && x[0] == '\\' {
      assert x == ['\\', x[1]] + x[2..];
      DecodeOfBackslash(x[1], x[2..]);
      DecodedIsNoLonger(x[2..]);
    } else if x != "" {
      assert x == [x[0]] + x[1..];
      DecodeOfEscape(x[0], x[1..]);
      DecodedIsNoLonger(x[1..]);
    }
  }

  /** Telegram shows the text that was escaped exactly when every backslash in it is last or stands
    * right in front of a special character; in particular whenever it has none.
    */
  lemma {:induction false} TelegramShowsText(x: string)
    ensures Decode(Escape(x)) == x <==> BackslashesAreSafe(x)
    decreases |x|
  {
    if |x| >= 2 && x[0] == '\\' {
      var c, rest := x[1], x[2..];
      assert x == ['\\', c] + rest;
      DecodeOfBackslash(c, rest);
      if Special(c) {
        BackslashIsOrdinary();
        TelegramShowsText(rest);
        SafeSuffix(x, 2);
        assert (['\\', c] + Decode(Escape(rest)))[2..] == Decode(Escape(rest));
      } else {
        DecodedIsNoLonger(rest);
      }
    } else if x != "" {
      assert x == [x[0]] + x[1..];
      DecodeOfEscape(x[0], x[1..]);
      TelegramShowsText(x[1..]);
      SafeSuffix(x, 1);
      assert ([x[0]] + Decode(Escape(x[1..])))[1..] == Decode(Escape(x[1..]));
    }
  }

  lemma SafeSuffix(x: string, k: nat)
    requires 1 <= k <= |x|
    requires forall i | 0 <= i < k && i < |x| - 1 && x[i] == '\\' :: Special(x[i + 1])
    ensures BackslashesAreSafe(x) <==> BackslashesAreSafe(x[k..])
  {
    assert forall i | 0 <= i < |x| - k :: x[k..][i] == x[i + k];
    forall i | k <= i < |x| - 1 && x[i] == '\\'
      ensures BackslashesAreSafe(x[k..]) ==> Special(x[i + 1])
    {
      assert x[k..][i - k] == '\\';
    }
  }
}
