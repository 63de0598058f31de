/**
 * The Python string primitives the editor leans on (`find`, `rfind`,
 * `strip`, `split`, `splitlines`, `replace`, `lower`, `str(int)`, `int(str)`),
 * restricted to ASCII text.
 */
module PyText {
  import opened Wrappers

  /** `str.isspace()` (and regex `\s`) on an ASCII character: tab, newline,
      vertical tab, form feed, carriage return, the separators 0x1C-0x1F, space. */
  predicate IsSpace(c: char) {
    c == ' ' || ('\t' <= c <= '\r') || (28 <= c as int <= 31)
  }

  predicate IsDigit(c: char) { '0' <= c <= '9' }

  predicate NoSpace(s: string) { forall i :: 0 <= i < |s| ==> !IsSpace(s[i]) }

  predicate AllSpace(s: string) { forall i :: 0 <= i < |s| ==> IsSpace(s[i]) }

  /** `p` occurs in `s` at index `j`. */
  predicate OccursAt(s: string, p: string, j: int) {
    0 <= j && j + |p| <= |s| && s[j..j + |p|] == p
  }

  /** `s.find(p, from)`: the lowest index at or after `from` where `p` occurs, or -1. */
  function Find(s: string, p: string, from: nat): (r: int)
    ensures r == -1 || (from <= r && OccursAt(s, p, r))
    ensures forall j :: from <= j && (r == -1 || j < r) ==> !OccursAt(s, p, j)
    decreases |s| - from
  {
    if from + |p| > |s| then -1
    else if s[from..from + |p|] == p then from
    else Find(s, p, from + 1)
  }

  /** A character that does not occur is not found. */
  lemma {:induction false} FindAbsent(s: string, c: char, from: nat)
    requires forall j :: from <= j < |s| ==> s[j] != c
    ensures Find(s, [c], from) == -1
    decreases |s| - from
  {
    if from + 1 <= |s| {
      assert s[from..from + 1][0] == s[from];
      FindAbsent(s, c, from + 1);
    }
  }

  /** `s.endswith(p)`. */
  predicate EndsWith(s: string, p: string) { |p| <= |s| && s[|s| - |p|..] == p }

  /** `p in s`. */
  predicate Contains(s: string, p: string) { Find(s, p, 0) != -1 }

  lemma ContainsIff(s: string, p: string, j: nat)
    requires OccursAt(s, p, j)
    ensures Contains(s, p)
  {
  }

  /** Index just past the last newline before `pos`, that is `s.rfind("\n", 0, pos) + 1`. */
  function LineStart(s: string, pos: nat): (r: nat)
    requires pos <= |s|
    ensures r <= pos
    ensures r == 0 || s[r - 1] == '\n'
    ensures forall j :: r <= j < pos ==> s[j] != '\n'
  {
    if pos == 0 then 0 else if s[pos - 1] == '\n' then pos else LineStart(s, pos - 1)
  }

  /** End of the whitespace run that starts at `i`. */
  function WsRun(s: string, i: nat): (r: nat)
    requires i <= |s|
    ensures i <= r <= |s|
    ensures forall j :: i <= j < r ==> IsSpace(s[j])
    ensures r == |s| || !IsSpace(s[r])
    decreases |s| - i
  {
    if i < |s| && IsSpace(s[i]) then WsRun(s, i + 1) else i
  }

  /** `s.lstrip()`. */
  function TrimLeft(s: string): (r: string)
    ensures |r| <= |s| && r == s[|s| - |r|..]
    ensures r == [] || !IsSpace(r[0])
    ensures forall j :: 0 <= j < |s| - |r| ==> IsSpace(s[j])
  {
    if s != [] && IsSpace(s[0]) then TrimLeft(s[1..]) else s
  }

  /** `s.rstrip()`. */
  function TrimRight(s: string): (r: string)
    ensures |r| <= |s| && r == s[..|r|]
    ensures r == [] || !IsSpace(r[|r| - 1])
    ensures forall j :: |r| <= j < |s| ==> IsSpace(s[j])
  {
    if s != [] && IsSpace(s[|s| - 1]) then TrimRight(s[..|s| - 1]) else s
  }

  /** `s.strip()`: both ends lose their whitespace and nothing else changes. */
  function Strip(s: string): (r: string)
    ensures |r| <= |s|
    ensures r == [] || (!IsSpace(r[0]) && !IsSpace(r[|r| - 1]))
    ensures (r == []) == AllSpace(s)
  {
    var l := TrimLeft(s);
    var r := TrimRight(l);
    assert r == [] ==> l == [];
    r
  }

  /** A string with no space at either end is its own strip. */
  lemma StripUnpadded(s: string)
    requires s == [] || (!IsSpace(s[0]) && !IsSpace(s[|s| - 1]))
    ensures Strip(s) == s
  {
  }

  /** The leading run of spaces and tabs, the `[ \t]*` an indent is made of. */
  function Indent(s: string): (r: string)
    ensures r <= s
    ensures forall j :: 0 <= j < |r| ==> r[j] == ' ' || r[j] == '\t'
    ensures |r| == |s| || (s[|r|] != ' ' && s[|r|] != '\t')
  {
    if s != [] && (s[0] == ' ' || s[0] == '\t') then [s[0]] + Indent(s[1..]) else []
  }

  function LowerChar(c: char): char {
    if 'A' <= c <= 'Z' then (c as int + 32) as char else c
  }

  function UpperChar(c: char): char {
    if 'a' <= c <= 'z' then (c as int - 32) as char else c
  }

  /** `s.lower()` and, on ASCII, `s.casefold()`. */
  function Lower(s: string): (r: string)
    ensures |r| == |s|
    ensures forall i :: 0 <= i < |s| ==> r[i] == LowerChar(s[i])
  {
    seq(|s|, i requires 0 <= i < |s| => LowerChar(s[i]))
  }

  /** Folding case twice is folding it once. */
  lemma LowerIdempotent(s: string)
    ensures Lower(Lower(s)) == Lower(s)
  {
  }

  /** Every occurrence of `c` in `s` replaced by `rep`: `s.replace(c, rep)`. */
  function ReplaceChar(s: string, c: char, rep: string): (r: string)
    ensures c !in rep ==> c !in r
    ensures c !in s ==> r == s
  {
    if s == [] then [] else (if s[0] == c then rep else [s[0]]) + ReplaceChar(s[1..], c, rep)
  }

  lemma {:induction false} ReplaceCharConcat(a: string, b: string, c: char, rep: string)
    ensures ReplaceChar(a + b, c, rep) == ReplaceChar(a, c, rep) + ReplaceChar(b, c, rep)
  {
    if a == [] {
      assert a + b == b;
    } else {
      assert (a + b)[0] == a[0];
      assert (a + b)[1..] == a[1..] + b;
      ReplaceCharConcat(a[1..], b, c, rep);
    }
  }

  /** End of the run of non-space characters that starts at `i`. */
  function WordEnd(s: string, i: nat): (r: nat)
    requires i <= |s|
    ensures i <= r <= |s|
    ensures forall j :: i <= j < r ==> !IsSpace(s[j])
    ensures r == |s| || IsSpace(s[r])
    decreases |s| - i
  {
    if i < |s| && !IsSpace(s[i]) then WordEnd(s, i + 1) else i
  }

  /** The words of `s[i..]`, as `split()` finds them. */
  function SplitWsFrom(s: string, i: nat): (parts: seq<string>)
    requires i <= |s|
    ensures forall k :: 0 <= k < |parts| ==> parts[k] != [] && NoSpace(parts[k])
    decreases |s| - i
  {
    var a := WsRun(s, i);
    if a == |s| then []
    else
      var w := WordEnd(s, a);
      [s[a..w]] + SplitWsFrom(s, w)
  }

  /** `s.split()`: the maximal runs of non-space characters, in order. */
  function SplitWs(s: string): (parts: seq<string>)
    ensures forall k :: 0 <= k < |parts| ==> parts[k] != [] && NoSpace(parts[k])
  {
    SplitWsFrom(s, 0)
  }

  /** Concatenate the pieces with `sep` between them: `sep.join(parts)`. */
  function JoinWith(parts: seq<string>, sep: string): (r: string)
    ensures parts == [] ==> r == []
    ensures |parts| == 1 ==> r == parts[0]
  {
    if parts == [] then [] else if |parts| == 1 then parts[0] else parts[0] + sep + JoinWith(parts[1..], sep)
  }

  /** `s.split(sep)` for a one-character separator. */
  function SplitOn(s: string, sep: char): (parts: seq<string>)
    ensures |parts| >= 1
    ensures forall i :: 0 <= i < |parts| ==> sep !in parts[i]
    decreases |s|
  {
    var k := Find(s, [sep], 0);
    if k == -1 then
      assert sep !in s by {
        forall j | 0 <= j < |s| ensures s[j] != sep { assert !OccursAt(s, [sep], j); }
      }
      [s]
    else
      assert s[k] == sep && forall j :: 0 <= j < k ==> s[j] != sep by {
        assert OccursAt(s, [sep], k);
        forall j | 0 <= j < k ensures s[j] != sep { assert !OccursAt(s, [sep], j); }
      }
      [s[..k]] + SplitOn(s[k + 1..], sep)
  }

  /** Splitting on a separator and joining back with it gives the text back. */
  lemma JoinCons(head: string, tail: seq<string>, sep: string)
    requires |tail| >= 1
    ensures JoinWith([head] + tail, sep) == head + sep + JoinWith(tail, sep)
  {
    var parts := [head] + tail;
    assert parts[0] == head && parts[1..] == tail;
  }

  lemma {:induction false} SplitOnJoin(s: string, sep: char)
    ensures JoinWith(SplitOn(s, sep), [sep]) == s
    decreases |s|
  {
    var k := Find(s, [sep], 0);
    if k != -1 {
      SplitOnUnfold(s, sep, k);
      SplitOnJoin(s[k + 1..], sep);
      JoinCons(s[..k], SplitOn(s[k + 1..], sep), [sep]);
    } else {
      assert SplitOn(s, sep) == [s];
    }
  }

  /** One step of `split`, with the first separator at `k`. */
  lemma SplitOnUnfold(s: string, sep: char, k: int)
    requires k == Find(s, [sep], 0) && k != -1
    ensures SplitOn(s, sep) == [s[..k]] + SplitOn(s[k + 1..], sep)
    ensures s == s[..k] + [sep] + s[k + 1..]
  {
    assert OccursAt(s, [sep], k);
    assert s[k..k + 1] == [sep];
  }

  /** Text without the separator splits into itself. */
  lemma SplitOnNoSep(s: string, sep: char)
    requires sep !in s
    ensures SplitOn(s, sep) == [s]
  {
    forall j | 0 <= j && j + 1 <= |s| ensures !OccursAt(s, [sep], j) {
      assert s[j..j + 1] == [s[j]];
    }
  }

  /** The first piece ends at the first separator. */
  lemma SplitOnCons(a: string, rest: string, sep: char)
    requires sep !in a
    ensures SplitOn(a + [sep] + rest, sep) == [a] + SplitOn(rest, sep)
  {
    var s := a + [sep] + rest;
    forall j | 0 <= j < |a| ensures !OccursAt(s, [sep], j) {
      assert s[j..j + 1] == [a[j]];
    }
    assert s[|a|..|a| + 1] == [sep];
    assert OccursAt(s, [sep], |a|);
    var k := Find(s, [sep], 0);
    assert k == |a|;
    SplitOnUnfold(s, sep, k);
    assert s[..k] == a;
    assert s[k + 1..] == rest;
  }

  /** `split()` skips the whitespace on `[i, k)` and takes the word on `[k, e)`. */
  lemma SplitWsStep(s: string, i: nat, k: nat, e: nat)
    requires i <= k < e <= |s|
    requires AllSpace(s[i..k]) && NoSpace(s[k..e])
    requires e == |s| || IsSpace(s[e])
    ensures SplitWsFrom(s, i) == [s[k..e]] + SplitWsFrom(s, e)
  {
    forall j | i <= j < k ensures IsSpace(s[j]) { assert s[j] == s[i..k][j - i]; }
    forall j | k <= j < e ensures !IsSpace(s[j]) { assert s[j] == s[k..e][j - k]; }
    WsRunIs(s, i, k);
    WordEndIs(s, k, e);
  }

  /** The space run from `i` stops at the first non-space `k`. */
  lemma WsRunIs(s: string, i: nat, k: nat)
    requires i <= k < |s| && !IsSpace(s[k])
    requires forall j :: i <= j < k ==> IsSpace(s[j])
    ensures WsRun(s, i) == k
  {
  }

  /** The word from `k` ends at `e` when `[k, e)` has no space and a space or
      the end follows. */
  lemma WordEndIs(s: string, k: nat, e: nat)
    requires k <= e <= |s| && (e == |s| || IsSpace(s[e]))
    requires forall j :: k <= j < e ==> !IsSpace(s[j])
    ensures WordEnd(s, k) == e
  {
  }

  /** The three words on `[0, e0)`, `[i1, j1)` and `[i2, |s|)`, with
      whitespace between them, are all `split()` finds. */
  lemma SplitWsThreeAt(s: string, e0: nat, i1: nat, j1: nat, i2: nat)
    requires 0 < e0 < i1 < j1 < i2 < |s|
    requires NoSpace(s[0..e0]) && AllSpace(s[e0..i1]) && NoSpace(s[i1..j1])
    requires AllSpace(s[j1..i2]) && NoSpace(s[i2..|s|])
    ensures SplitWs(s) == [s[0..e0], s[i1..j1], s[i2..|s|]]
  {
    assert s[0..0] == [];
    assert s[e0] == s[e0..i1][0] && s[j1] == s[j1..i2][0];
    assert SplitWsFrom(s, |s|) == [];
    SplitWsStep(s, j1, i2, |s|);
    SplitWsStep(s, e0, i1, j1);
    SplitWsStep(s, 0, 0, e0);
  }

  /** Three words with whitespace between them split into those words. */
  lemma SplitWsThree(a: string, w1: string, b: string, w2: string, c: string)
    requires a != [] && b != [] && c != [] && NoSpace(a) && NoSpace(b) && NoSpace(c)
    requires w1 != [] && w2 != [] && AllSpace(w1) && AllSpace(w2)
    ensures SplitWs(a + w1 + b + w2 + c) == [a, b, c]
  {
    var s := a + w1 + b + w2 + c;
    var i1 := |a| + |w1|;
    var j1 := i1 + |b|;
    var i2 := j1 + |w2|;
    assert s[0..|a|] == a by {
      assert s == a + (w1 + b + w2 + c);
    }
    assert s[|a|..i1] == w1 && s[i1..j1] == b by {
      assert s == a + w1 + b + (w2 + c);
    }
    assert s[j1..i2] == w2 && s[i2..|s|] == c by {
      assert s == (a + w1 + b) + w2 + c;
    }
    SplitWsThreeAt(s, |a|, i1, j1, i2);
  }

  /** Leading whitespace is all `strip()` takes off an unpadded string. */
  lemma StripLeading(w: string, y: string)
    requires AllSpace(w) && y != [] && !IsSpace(y[0]) && !IsSpace(y[|y| - 1])
    ensures Strip(w + y) == y
  {
    var s := w + y;
    var l := TrimLeft(s);
    assert s[|w|] == y[0];
    assert forall j :: 0 <= j < |w| ==> s[j] == w[j];
    assert |s| - |l| == |w|;
    assert l == y;
    StripUnpadded(y);
  }

  /** Commas turned into spaces leave a separator of commas and spaces all
      whitespace, and as long. */
  lemma {:induction false} ReplaceCommas(s: string)
    requires forall i :: 0 <= i < |s| ==> s[i] == ',' || IsSpace(s[i])
    ensures |ReplaceChar(s, ',', " ")| == |s| && AllSpace(ReplaceChar(s, ',', " "))
  {
    if s != [] {
      ReplaceCommas(s[1..]);
    }
  }

  /** A line boundary of `str.splitlines()` among ASCII characters. */
  predicate IsLineBreak(c: char) {
    c == '\n' || c == '\r' || c as int == 11 || c as int == 12 || (28 <= c as int <= 30)
  }

  /** Lines of `s[start..]` where the current line began at `start` and
      the scan has reached `i`. */
  function SplitLinesFrom(s: string, start: nat, i: nat): (lines: seq<string>)
    requires start <= i <= |s|
    requires forall j :: start <= j < i ==> !IsLineBreak(s[j])
    ensures forall k :: 0 <= k < |lines| ==> forall j :: 0 <= j < |lines[k]| ==> !IsLineBreak(lines[k][j])
    decreases |s| - i
  {
    if i == |s| then (if start < |s| then [s[start..]] else [])
    else if IsLineBreak(s[i]) then
      var next := if s[i] == '\r' && i + 1 < |s| && s[i + 1] == '\n' then i + 2 else i + 1;
      [s[start..i]] + SplitLinesFrom(s, next, next)
    else SplitLinesFrom(s, start, i + 1)
  }

  /** `s.splitlines()`: the lines without their terminators; a final
      terminator does not start an extra empty line. */
  function SplitLines(s: string): (lines: seq<string>)
    ensures forall k :: 0 <= k < |lines| ==> forall j :: 0 <= j < |lines[k]| ==> !IsLineBreak(lines[k][j])
  {
    SplitLinesFrom(s, 0, 0)
  }

  /** A text with a newline in it has at least one line. */
  lemma NewlineHasLines(s: string)
    requires '\n' in s
    ensures SplitLines(s) != []
  {
    var nl :| 0 <= nl < |s| && s[nl] == '\n';
    SplitLinesFromNonEmpty(s, 0, 0, nl);
  }

  lemma {:induction false} SplitLinesFromNonEmpty(s: string, start: nat, i: nat, nl: nat)
    requires start <= i <= nl < |s| && s[nl] == '\n'
    requires forall j :: start <= j < i ==> !IsLineBreak(s[j])
    ensures SplitLinesFrom(s, start, i) != []
    decreases |s| - i
  {
    if !IsLineBreak(s[i]) {
      SplitLinesFromNonEmpty(s, start, i + 1, nl);
    }
  }

  function DigitChar(d: nat): char
    requires d < 10
  {
    ('0' as int + d) as char
  }

  /** `str(n)` for a natural number. */
  function NatToString(n: nat): (r: string)
    ensures r != [] && forall i :: 0 <= i < |r| ==> IsDigit(r[i])
  {
    if n < 10 then [DigitChar(n)] else NatToString(n / 10) + [DigitChar(n % 10)]
  }

  /** `str(n)` for an integer. */
  function IntToString(n: int): (r: string)
    ensures r != [] && !IsSpace(r[0]) && !IsSpace(r[|r| - 1])
  {
    if n < 0 then "-" + NatToString(-n) else NatToString(n)
  }

  /** The digits of `int()`'s argument after the sign: digits, with single
      underscores allowed between two digits. */
  function DigitsValue(d: string): Option<nat>
  {
    if d == [] || !IsDigit(d[|d| - 1]) then None
    else
      var last := d[|d| - 1] as int - '0' as int;
      if |d| == 1 then Some(last)
      else
        var init := d[..|d| - 1];
        var init' := if init[|init| - 1] == '_' then init[..|init| - 1] else init;
        match DigitsValue(init')
        case None => None
        case Some(v) => Some(v * 10 + last)
  }

  /** `int(s)`: surrounding whitespace, an optional sign and the digits;
      None where Python raises ValueError. */
  function ParseInt(s: string): Option<int>
  {
    var t := Strip(s);
    if t == [] then None
    else if t[0] == '-' || t[0] == '+' then
      match DigitsValue(t[1..])
      case None => None
      case Some(v) =>
        var n: int := if t[0] == '-' then 0 - v else v;
        Some(n)
    else
      match DigitsValue(t)
      case None => None
      case Some(v) => Some(v)
  }

  lemma {:induction false} DigitsOfNat(n: nat)
    ensures DigitsValue(NatToString(n)) == Some(n)
  {
    if n >= 10 {
      DigitsOfNat(n / 10);
      var d := NatToString(n);
      assert d[..|d| - 1] == NatToString(n / 10);
      assert d[|d| - 1] == DigitChar(n % 10);
    }
  }

  /** `int(str(n)) == n`. */
  lemma IntRoundTrip(n: int)
    ensures ParseInt(IntToString(n)) == Some(n)
  {
    var s := IntToString(n);
    StripUnpadded(s);
    if n < 0 {
      DigitsOfNat(-n);
      assert s[1..] == NatToString(-n);
      ParseNegative(s, -n);
    } else {
      DigitsOfNat(n);
      ParseUnsigned(s, n);
    }
  }

  lemma ParseNegative(t: string, v: nat)
    requires Strip(t) == t && t != [] && t[0] == '-' && DigitsValue(t[1..]) == Some(v)
    ensures ParseInt(t) == Some(0 - v)
  {
  }

  lemma ParseUnsigned(t: string, v: nat)
    requires Strip(t) == t && t != [] && IsDigit(t[0]) && DigitsValue(t) == Some(v)
    ensures ParseInt(t) == Some(v)
  {
  }
}
