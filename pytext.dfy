/** The parts of Python's `str` and `int` behaviour the core relies on:
    `str(n)`, `int(s)`, `format(n, "02d")`, `split`, `strip`, `lower`,
    `in` on strings, `endswith` and `sorted` on a list of strings. */
module PyText {
  import opened Common

  // ---------------------------------------------------------------- digits

  predicate IsDigit(c: char) { '0' <= c <= '9' }

  predicate AllDigits(s: string) { forall i :: 0 <= i < |s| ==> IsDigit(s[i]) }

  function DigitChar(d: nat): (c: char)
    requires d < 10
    ensures IsDigit(c) && c as int - '0' as int == d
  {
    ('0' as int + d) as char
  }

  /** The value of a run of decimal digits (leading zeros allowed). */
  function DigitsValue(s: string): nat
    requires AllDigits(s)
    decreases |s|
  {
    if s == [] then 0 else DigitsValue(s[..|s| - 1]) * 10 + (s[|s| - 1] as int - '0' as int)
  }

  /** `str(n)` for a non-negative int. */
  function NatToString(n: nat): (s: string)
    ensures AllDigits(s)
    ensures |s| == 1 <==> n < 10
    ensures 1 <= |s| && (n < 100 ==> |s| <= 2)
    decreases n
  {
    if n < 10 then [DigitChar(n)] else NatToString(n / 10) + [DigitChar(n % 10)]
  }

  lemma {:induction false} NatToStringValue(n: nat)
    ensures DigitsValue(NatToString(n)) == n
    decreases n
  {
    if n >= 10 {
      NatToStringValue(n / 10);
      var s := NatToString(n);
      assert s[..|s| - 1] == NatToString(n / 10);
    }
  }

  lemma {:induction false} LeadingZeroValue(s: string)
    requires AllDigits(s)
    ensures AllDigits("0" + s) && DigitsValue("0" + s) == DigitsValue(s)
    decreases |s|
  {
    if s != [] {
      var t := "0" + s;
      assert t[..|t| - 1] == "0" + s[..|s| - 1];
      LeadingZeroValue(s[..|s| - 1]);
    }
  }

  /** `str(i)` for any int. */
  function IntToString(i: int): (s: string)
    ensures |s| >= 1
    ensures i >= 0 ==> s == NatToString(i)
    ensures i < 0 ==> s == "-" + NatToString(-i)
  {
    if i < 0 then "-" + NatToString(-i) else NatToString(i)
  }

  /** `f"{n:02d}"` for a non-negative int: at least two digits, zero-padded. */
  function ZeroPad2(n: nat): (s: string)
    ensures |s| >= 2 && AllDigits(s) && DigitsValue(s) == n
    ensures n < 100 ==> |s| == 2
  {
    var d := NatToString(n);
    NatToStringValue(n);
    if |d| < 2 then LeadingZeroValue(d); "0" + d else d
  }

  // ------------------------------------------------------------ whitespace

  /** Python's `str.isspace()` on one character: what `strip()` removes. */
  predicate IsSpace(c: char)
  {
    c == ' ' || '\t' <= c <= '\r' || '\U{1c}' <= c <= '\U{1f}' || c == '\U{85}' || c == '\U{a0}'
    || c == '\U{1680}' || '\U{2000}' <= c <= '\U{200a}' || c == '\U{2028}' || c == '\U{2029}'
    || c == '\U{202f}' || c == '\U{205f}' || c == '\U{3000}'
  }

  function StripLeft(s: string): (r: string)
    ensures |r| <= |s| && r == s[|s| - |r|..]
    ensures forall i :: 0 <= i < |s| - |r| ==> IsSpace(s[i])
    ensures r != [] ==> !IsSpace(r[0])
  {
    if s != [] && IsSpace(s[0]) then StripLeft(s[1..]) else s
  }

  function StripRight(s: string): (r: string)
    ensures |r| <= |s| && r == s[..|r|]
    ensures forall i :: |r| <= i < |s| ==> IsSpace(s[i])
    ensures r != [] ==> !IsSpace(r[|r| - 1])
  {
    if s != [] && IsSpace(s[|s| - 1]) then StripRight(s[..|s| - 1]) else s
  }

  /** `s.strip()`: drops the leading and trailing whitespace and nothing else. */
  function Strip(s: string): (r: string)
    ensures r != [] ==> !IsSpace(r[0]) && !IsSpace(r[|r| - 1])
  {
    StripRight(StripLeft(s))
  }

  /** Stripping removes whitespace only, and adds nothing. */
  lemma StripContents(s: string)
    ensures forall i :: 0 <= i < |s| ==> IsSpace(s[i]) || s[i] in Strip(s)
    ensures forall i :: 0 <= i < |Strip(s)| ==> Strip(s)[i] in s
  {
    var l := StripLeft(s);
    assert forall i :: |s| - |l| <= i < |s| ==> s[i] == l[i - (|s| - |l|)];
  }

  /** Text with no whitespace at either end is left as it is. */
  lemma StripTrimmed(s: string)
    requires s == [] || (!IsSpace(s[0]) && !IsSpace(s[|s| - 1]))
    ensures Strip(s) == s
  {
    assert StripLeft(s) == s;
  }

  lemma StripIdempotent(s: string)
    ensures Strip(Strip(s)) == Strip(s)
  {
    StripTrimmed(Strip(s));
  }

  lemma DigitNotSpace(c: char)
    requires IsDigit(c) || c == '-'
    ensures !IsSpace(c)
  {
  }

  // ----------------------------------------------------------------- int()

  /** Every character is an ASCII digit or an underscore. */
  predicate DigitsOrUnderscores(b: string)
  {
    forall i :: 0 <= i < |b| ==> IsDigit(b[i]) || b[i] == '_'
  }

  /** Position `i` lies strictly inside `b`, between two digits. */
  predicate BetweenDigits(b: string, i: int)
  {
    0 < i < |b| - 1 && IsDigit(b[i - 1]) && IsDigit(b[i + 1])
  }

  /** The digits of `int()`'s base-10 syntax: ASCII digits, where a single
      `_` may stand between two of them (`1_000`). */
  predicate GroupedDigits(b: string)
  {
    && |b| > 0
    && DigitsOrUnderscores(b)
    && forall i :: 0 <= i < |b| && b[i] == '_' ==> BetweenDigits(b, i)
  }

  /** The text without its underscores. */
  function DropUnderscores(b: string): string
  {
    if b == [] then []
    else DropUnderscores(b[..|b| - 1]) + (if b[|b| - 1] == '_' then [] else [b[|b| - 1]])
  }

  /** Without its underscores, a text of digits and underscores is all digits. */
  lemma {:induction false} DropUnderscoresDigits(b: string)
    requires DigitsOrUnderscores(b)
    ensures AllDigits(DropUnderscores(b))
  {
    if b != [] {
      assert DigitsOrUnderscores(b[..|b| - 1]);
      DropUnderscoresDigits(b[..|b| - 1]);
    }
  }

  /** The value of grouped digits: the underscores are ignored. */
  function GroupedValue(b: string): nat
    requires GroupedDigits(b)
  {
    DropUnderscoresDigits(b);
    DigitsValue(DropUnderscores(b))
  }

  /** `int(s)` with base 10: surrounding whitespace, an optional sign and
      grouped ASCII digits; `None` where Python raises ValueError. */
  function ParseInt(s: string): Option<int>
  {
    ParseStripped(Strip(s))
  }

  function ParseStripped(t: string): Option<int>
  {
    if |t| > 0 && (t[0] == '-' || t[0] == '+') then
      if GroupedDigits(t[1..]) then
        var v: int := GroupedValue(t[1..]);
        Some(if t[0] == '-' then -v else v)
      else None
    else if GroupedDigits(t) then Some(GroupedValue(t))
    else None
  }

  /** int() refuses any text holding a character that is neither whitespace,
      a sign, a digit nor an underscore (a `:` for one). */
  lemma ParseIntRejects(s: string, i: nat)
    requires i < |s| && !IsDigit(s[i]) && s[i] != '-' && s[i] != '+' && s[i] != '_' && !IsSpace(s[i])
    ensures ParseInt(s) == None
  {
    var t := Strip(s);
    StripContents(s);
    assert s[i] in t;
    var k :| 0 <= k < |t| && t[k] == s[i];
    if |t| > 0 && (t[0] == '-' || t[0] == '+') {
      assert k > 0 && t[1..][k - 1] == t[k];
    }
  }

  /** Removing underscores distributes over concatenation. */
  lemma {:induction false} DropUnderscoresAppend(x: string, y: string)
    ensures DropUnderscores(x + y) == DropUnderscores(x) + DropUnderscores(y)
  {
    if y == [] {
      assert x + y == x;
    } else {
      var n := |y| - 1;
      DropUnderscoresAppend(x, y[..n]);
      assert (x + y)[..|x + y| - 1] == x + y[..n];
      assert (x + y)[|x + y| - 1] == y[n];
      var tail: string := if y[n] == '_' then [] else [y[n]];
      calc {
        DropUnderscores(x + y);
        DropUnderscores(x + y[..n]) + tail;
        DropUnderscores(x) + DropUnderscores(y[..n]) + tail;
        DropUnderscores(x) + (DropUnderscores(y[..n]) + tail);
        DropUnderscores(x) + DropUnderscores(y);
      }
    }
  }

  /** Text without underscores is left as it is. */
  lemma {:induction false} DropUnderscoresNone(b: string)
    requires AllDigits(b)
    ensures DropUnderscores(b) == b
  {
    if b != [] {
      DropUnderscoresNone(b[..|b| - 1]);
    }
  }

  /** Plain digits are grouped digits of the same value. */
  lemma GroupedOfDigits(b: string)
    requires |b| > 0 && AllDigits(b)
    ensures GroupedDigits(b) && GroupedValue(b) == DigitsValue(b)
  {
    DropUnderscoresNone(b);
  }

  /** Two digit runs joined by an underscore read as the two runs written
      together: `int("1_000") == 1000`. */
  lemma ParseIntGrouped(a: string, b: string)
    requires |a| > 0 && AllDigits(a) && |b| > 0 && AllDigits(b)
    ensures ParseInt(a + "_" + b) == Some(DigitsValue(a + b))
  {
    JoinGrouped(a, b);
    GroupedText(a + "_" + b);
    DropJoin(a, b);
  }

  /** Removing the underscore that joins two digit runs concatenates them. */
  lemma DropJoin(a: string, b: string)
    requires AllDigits(a) && AllDigits(b)
    ensures DropUnderscores(a + "_" + b) == a + b
  {
    var u: string := "_";
    assert u[..0] == [];
    assert DropUnderscores(u) == [];
    DropUnderscoresAppend(a + u, b);
    DropUnderscoresAppend(a, u);
    DropUnderscoresNone(a);
    DropUnderscoresNone(b);
    calc {
      DropUnderscores(a + u + b);
      DropUnderscores(a + u) + DropUnderscores(b);
      DropUnderscores(a) + DropUnderscores(u) + DropUnderscores(b);
      a + [] + b;
    }
    assert a + [] + b == a + b;
  }

  /** Two digit runs joined by one underscore are grouped digits. */
  lemma JoinGrouped(a: string, b: string)
    requires |a| > 0 && AllDigits(a) && |b| > 0 && AllDigits(b)
    ensures GroupedDigits(a + "_" + b)
  {
    var t := a + "_" + b;
    forall i | 0 <= i < |t|
      ensures IsDigit(t[i]) || t[i] == '_'
      ensures t[i] == '_' ==> BetweenDigits(t, i)
    {
      if i < |a| {
        assert t[i] == a[i];
      } else if i == |a| {
        assert t[i - 1] == a[|a| - 1] && t[i + 1] == b[0];
      } else {
        assert t[i] == b[i - |a| - 1];
      }
    }
  }

  /** Grouped digits are read as they stand: no whitespace to strip, no sign. */
  lemma GroupedText(t: string)
    requires GroupedDigits(t)
    ensures ParseInt(t) == Some(GroupedValue(t))
  {
    assert !BetweenDigits(t, 0) && !BetweenDigits(t, |t| - 1);
    DigitNotSpace(t[0]);
    DigitNotSpace(t[|t| - 1]);
    StripTrimmed(t);
  }

  lemma ParseIntOfIntToString(i: int)
    ensures ParseInt(IntToString(i)) == Some(i)
  {
    var d := NatToString(if i < 0 then -i else i);
    NatToStringValue(if i < 0 then -i else i);
    if i < 0 {
      var s := "-" + d;
      DigitNotSpace(s[0]);
      DigitNotSpace(s[|s| - 1]);
      StripTrimmed(s);
      assert s[1..] == d;
      GroupedOfDigits(d);
      assert ParseStripped(s) == Some(i);
    } else {
      ParseIntOfDigits(d);
    }
  }

  lemma ParseIntOfDigits(s: string)
    requires |s| > 0 && AllDigits(s)
    ensures ParseInt(s) == Some(DigitsValue(s))
  {
    DigitNotSpace(s[0]);
    DigitNotSpace(s[|s| - 1]);
    StripTrimmed(s);
    GroupedOfDigits(s);
  }

  // ---------------------------------------------------------------- split

  /** Index of the first occurrence of `c` in `s`. */
  function IndexOf(s: string, c: char): (i: nat)
    requires c in s
    ensures i < |s| && s[i] == c && c !in s[..i]
  {
    if s[0] == c then 0 else
      var j := IndexOf(s[1..], c);
      assert s[..j + 1] == [s[0]] + s[1..][..j];
      1 + j
  }

  /** `s.split(sep)` for a one-character separator. */
  function Split(s: string, sep: char): (parts: seq<string>)
    ensures |parts| >= 1
    decreases |s|
  {
    if sep !in s then [s]
    else
      var i := IndexOf(s, sep);
      [s[..i]] + Split(s[i + 1..], sep)
  }

  /** No part holds the separator. */
  lemma {:induction false} SplitParts(s: string, sep: char)
    ensures forall k :: 0 <= k < |Split(s, sep)| ==> sep !in Split(s, sep)[k]
    decreases |s|
  {
    if sep in s {
      var i := IndexOf(s, sep);
      SplitParts(s[i + 1..], sep);
    }
  }

  /** `sep.join(parts)`. */
  function JoinWith(parts: seq<string>, sep: string): string
  {
    if |parts| == 0 then ""
    else if |parts| == 1 then parts[0]
    else parts[0] + sep + JoinWith(parts[1..], sep)
  }

  /** Splitting undoes joining with the same separator: every split piece
      is a verbatim slice of the input. */
  lemma {:induction false} JoinSplit(s: string, sep: char)
    ensures JoinWith(Split(s, sep), [sep]) == s
    decreases |s|
  {
    if sep in s {
      var i := IndexOf(s, sep);
      var parts, rest := Split(s, sep), Split(s[i + 1..], sep);
      SplitFirst(s, sep);
      assert parts[0] == s[..i] && parts[1..] == rest;
      assert JoinWith(parts, [sep]) == s[..i] + [sep] + JoinWith(rest, [sep]);
      JoinSplit(s[i + 1..], sep);
      assert s == s[..i] + [sep] + s[i + 1..];
    }
  }

  /** The position of the first separator, when `x` holds none. */
  lemma IndexOfAfter(x: string, y: string, sep: char)
    requires sep !in x
    ensures IndexOf(x + [sep] + y, sep) == |x|
  {
    var s := x + [sep] + y;
    assert forall k :: 0 <= k < |x| ==> s[k] == x[k];
    assert s[|x|] == sep;
  }

  /** The position of the first separator, when `x` holds one. */
  lemma IndexOfWithin(x: string, y: string, sep: char)
    requires sep in x
    ensures IndexOf(x + [sep] + y, sep) == IndexOf(x, sep)
  {
    var s := x + [sep] + y;
    var j := IndexOf(x, sep);
    assert forall k :: 0 <= k <= j ==> s[k] == x[k];
  }

  /** Splitting at a separator placed after a string holding none. */
  lemma SplitAroundFirst(x: string, y: string, sep: char)
    requires sep !in x
    ensures Split(x + [sep] + y, sep) == [x] + Split(y, sep)
  {
    var s := x + [sep] + y;
    IndexOfAfter(x, y, sep);
    assert s[..|x|] == x && s[|x| + 1..] == y;
  }

  /** Splitting at a separator placed after a string holding one: the first
      piece is the same, and the rest is split as before. */
  lemma SplitAroundWithin(x: string, y: string, sep: char)
    requires sep in x
    ensures var j := IndexOf(x, sep);
      Split(x + [sep] + y, sep) == [x[..j]] + Split(x[j + 1..] + [sep] + y, sep)
  {
    var s := x + [sep] + y;
    var j := IndexOf(x, sep);
    IndexOfWithin(x, y, sep);
    assert s[..j] == x[..j];
    assert s[j + 1..] == x[j + 1..] + [sep] + y;
  }

  /** The first piece of a string holding the separator, and the rest. */
  lemma SplitFirst(s: string, sep: char)
    requires sep in s
    ensures var j := IndexOf(s, sep);
      Split(s, sep) == [s[..j]] + Split(s[j + 1..], sep)
  {
  }

  /** The inductive step of SplitAround. */
  lemma SplitAroundStep(x: string, y: string, sep: char)
    requires sep in x
    requires var j := IndexOf(x, sep);
      Split(x[j + 1..] + [sep] + y, sep) == Split(x[j + 1..], sep) + Split(y, sep)
    ensures Split(x + [sep] + y, sep) == Split(x, sep) + Split(y, sep)
  {
    var j := IndexOf(x, sep);
    SplitAroundWithin(x, y, sep);
    SplitFirst(x, sep);
    ConsAppend(x[..j], Split(x[j + 1..], sep), Split(y, sep));
  }

  lemma ConsAppend<T>(h: T, t: seq<T>, u: seq<T>)
    ensures [h] + (t + u) == [h] + t + u
  {
  }

  /** Splitting distributes over a separator placed between two strings. */
  lemma {:induction false} SplitAround(x: string, y: string, sep: char)
    ensures Split(x + [sep] + y, sep) == Split(x, sep) + Split(y, sep)
    decreases |x|
  {
    if sep !in x {
      SplitAroundFirst(x, y, sep);
      assert Split(x, sep) == [x];
    } else {
      var j := IndexOf(x, sep);
      SplitAround(x[j + 1..], y, sep);
      SplitAroundStep(x, y, sep);
    }
  }

  lemma SplitNoSep(s: string, sep: char)
    requires sep !in s
    ensures Split(s, sep) == [s]
  {
  }

  /** Joining pieces that hold no separator and splitting again gives the
      pieces back. */
  lemma {:induction false} SplitJoin(parts: seq<string>, sep: char)
    requires |parts| > 0
    requires forall i :: 0 <= i < |parts| ==> sep !in parts[i]
    ensures Split(JoinWith(parts, [sep]), sep) == parts
  {
    if |parts| == 1 {
      SplitNoSep(parts[0], sep);
    } else {
      SplitJoin(parts[1..], sep);
      SplitAround(parts[0], JoinWith(parts[1..], [sep]), sep);
      SplitNoSep(parts[0], sep);
      assert [parts[0]] + parts[1..] == parts;
    }
  }

  /** Each line followed by a line break, as a loop appending `line + "\n"`
      builds it. */
  function Terminated(lines: seq<string>): string
  {
    if lines == [] then "" else Terminated(lines[..|lines| - 1]) + (lines[|lines| - 1] + "\n")
  }

  /** Terminating one more line appends it and its line break. */
  lemma TerminatedStep(lines: seq<string>, line: string)
    ensures Terminated(lines + [line]) == Terminated(lines) + (line + "\n")
  {
    assert (lines + [line])[..|lines|] == lines;
  }

  /** Splitting at line breaks gives back the lines, when none holds a line
      break itself. */
  lemma {:induction false} SplitTerminated(lines: seq<string>, tail: string)
    requires forall i :: 0 <= i < |lines| ==> '\n' !in lines[i]
    ensures Split(Terminated(lines) + tail, '\n') == lines + Split(tail, '\n')
  {
    if lines != [] {
      var n := |lines| - 1;
      var init, line := lines[..n], lines[n];
      var rest := line + "\n" + tail;
      assert Terminated(lines) + tail == Terminated(init) + rest by {
        assert Terminated(lines) == Terminated(init) + (line + "\n");
      }
      assert Split(Terminated(init) + rest, '\n') == init + Split(rest, '\n') by {
        SplitTerminated(init, rest);
      }
      assert Split(rest, '\n') == [line] + Split(tail, '\n') by {
        SplitAround(line, tail, '\n');
        SplitNoSep(line, '\n');
      }
      assert init + ([line] + Split(tail, '\n')) == lines + Split(tail, '\n');
    } else {
      assert Terminated(lines) + tail == tail;
    }
  }

  /** Each line preceded by a line break, as a loop appending `"\n" + line`
      builds it. */
  function Led(lines: seq<string>): string
  {
    if lines == [] then "" else Led(lines[..|lines| - 1]) + ("\n" + lines[|lines| - 1])
  }

  lemma LedOne(line: string)
    ensures Led([line]) == "\n" + line
  {
    assert [line][..0] == [];
  }

  /** Splitting at line breaks gives an empty first piece and then the
      lines, when none holds a line break itself. */
  lemma {:induction false} SplitLed(lines: seq<string>)
    requires forall i :: 0 <= i < |lines| ==> '\n' !in lines[i]
    ensures Split(Led(lines), '\n') == [""] + lines
  {
    if lines != [] {
      var n := |lines| - 1;
      var init, line := lines[..n], lines[n];
      assert Led(lines) == Led(init) + ['\n'] + line;
      SplitLed(init);
      SplitAround(Led(init), line, '\n');
      SplitNoSep(line, '\n');
      assert [""] + init + [line] == [""] + lines;
    }
  }

  /** Splitting at a blank line: the text before it, an empty piece, then
      the pieces after it. */
  lemma SplitBlank(x: string, y: string)
    requires '\n' !in x
    ensures Split(x + "\n\n" + y, '\n') == [x, ""] + Split(y, '\n')
  {
    var nl := '\n';
    var t := [nl] + y;
    var e: string := [];
    assert x + "\n\n" + y == x + [nl] + t;
    assert t == e + [nl] + y;
    assert Split(t, nl) == [e] + Split(y, nl) by {
      SplitAround(e, y, nl);
      SplitNoSep(e, nl);
    }
    assert Split(x + [nl] + t, nl) == [x] + Split(t, nl) by {
      SplitAround(x, t, nl);
      SplitNoSep(x, nl);
    }
  }

  /** The same after a first line: splitting gives that line, then the
      lines, when none of them holds a line break. */
  lemma {:induction false} SplitLedAfter(head: string, lines: seq<string>)
    requires '\n' !in head
    requires forall i :: 0 <= i < |lines| ==> '\n' !in lines[i]
    ensures Split(head + Led(lines), '\n') == [head] + lines
  {
    if lines == [] {
      assert head + Led(lines) == head;
      SplitNoSep(head, '\n');
    } else {
      var n := |lines| - 1;
      var init, line := lines[..n], lines[n];
      assert head + Led(lines) == (head + Led(init)) + ['\n'] + line;
      SplitLedAfter(head, init);
      SplitAround(head + Led(init), line, '\n');
      SplitNoSep(line, '\n');
      assert [head] + init + [line] == [head] + lines;
    }
  }

  /** A run of digits holds no other character. */
  lemma DigitsExclude(s: string, c: char)
    requires AllDigits(s) && !IsDigit(c)
    ensures c !in s
  {
  }

  // ---------------------------------------------------------------- lower

  /** The lowercase form of one character, as far as it can contain an ASCII
      letter: `A`-`Z`, the Kelvin sign (lowercased to `k`) and capital I with
      a dot above (lowercased to `i` and a combining dot). Every other
      character's lowercase form holds no ASCII letter, so keeping it as it is
      does not change which ASCII words the lowered text contains. */
  function LowerChar(c: char): string
  {
    if 'A' <= c <= 'Z' then [(c as int + 32) as char]
    else if c == '\U{212a}' then "k"
    else if c == '\U{130}' then "i\U{307}"
    else [c]
  }

  /** `s.lower()` (see LowerChar). */
  function Lower(s: string): string
  {
    if s == [] then [] else LowerChar(s[0]) + Lower(s[1..])
  }

  // ------------------------------------------------------ substring tests

  predicate OccursAt(s: string, sub: string, i: nat)
  {
    i + |sub| <= |s| && s[i..i + |sub|] == sub
  }

  /** `sub in s`. */
  predicate Contains(s: string, sub: string)
  {
    exists i :: 0 <= i <= |s| && OccursAt(s, sub, i)
  }

  lemma ContainsMiddle(a: string, b: string, c: string)
    ensures Contains(a + b + c, b)
  {
    assert OccursAt(a + b + c, b, |a|);
  }

  /** `s.endswith(suffix)`. */
  predicate EndsWith(s: string, suffix: string)
  {
    |suffix| <= |s| && s[|s| - |suffix|..] == suffix
  }

  // --------------------------------------------------------------- sorted

  /** Python's `<=` on strings: code point by code point, a prefix first. */
  predicate LexLe(a: string, b: string)
    decreases |a|
  {
    a == [] || (b != [] && (a[0] < b[0] || (a[0] == b[0] && LexLe(a[1..], b[1..]))))
  }

  lemma {:induction false} LexLeTotal(a: string, b: string)
    ensures LexLe(a, b) || LexLe(b, a)
    decreases |a|
  {
    if a != [] && b != [] && a[0] == b[0] {
      LexLeTotal(a[1..], b[1..]);
    }
  }

  lemma {:induction false} LexLeTrans(a: string, b: string, c: string)
    requires LexLe(a, b) && LexLe(b, c)
    ensures LexLe(a, c)
    decreases |a|
  {
    if a != [] && a[0] == b[0] && b[0] == c[0] {
      LexLeTrans(a[1..], b[1..], c[1..]);
    }
  }

  predicate SortedLex(s: seq<string>)
  {
    forall i, j :: 0 <= i < j < |s| ==> LexLe(s[i], s[j])
  }

  function InsertLex(x: string, s: seq<string>): (r: seq<string>)
    requires SortedLex(s)
    ensures SortedLex(r)
    ensures multiset(r) == multiset(s) + multiset{x}
  {
    if s == [] then [x]
    else if LexLe(x, s[0]) then
      forall j | 0 <= j < |s| ensures LexLe(x, s[j]) {
        if j > 0 { LexLeTrans(x, s[0], s[j]); }
      }
      [x] + s
    else
      LexLeTotal(x, s[0]);
      var rest := InsertLex(x, s[1..]);
      assert s == [s[0]] + s[1..];
      forall j | 0 <= j < |rest| ensures LexLe(s[0], rest[j]) {
        assert rest[j] in multiset(rest);
      }
      [s[0]] + rest
  }

  /** `sorted(s)` for a list of strings: the same elements, in ascending order. */
  function SortLex(s: seq<string>): (r: seq<string>)
    ensures SortedLex(r)
    ensures multiset(r) == multiset(s)
  {
    if s == [] then [] else
      assert s == [s[0]] + s[1..];
      InsertLex(s[0], SortLex(s[1..]))
  }
}
