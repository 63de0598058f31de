/**
 * The editor's dialogs with their widgets taken away: the beam and exhaust
 * dialogs' clipboard position parsers, the row lists in which a removed row
 * becomes a `None` tombstone, the `on_ok` validations of the torpedo,
 * beam-port and exhaust-port dialogs, and the new-ship dialog's key
 * generation and required-field check. Text fields are strings; `float()`
 * on an entry is the parameter `float`, since floats are not modelled.
 */
module Dialogs {
  import opened Wrappers
  import opened PyText
  import opened Records

  // ---------------------------------------------------------------------
  // Clipboard positions

  /** The message `paste_position` shows when the clipboard cannot be read
      or the row is gone (the exception's own text is not modelled). */
  const PasteFailed := "Error pasting position"
  const NotThreeXyz := "Clipboard does not contain three numbers (x, y, z)."
  const NotThree := "Clipboard does not contain three numbers."
  const NotBracketed := "Clipboard content not in expected format (e.g. [ x, y, z ])."

  /** `s[:-1]`. */
  function DropLast(s: string): (r: string)
    ensures s != [] ==> s == r + [s[|s| - 1]]
  {
    if s == [] then [] else s[..|s| - 1]
  }

  /** `s[1:-1]`, which is empty when `s` has fewer than two characters. */
  function Inner(s: string): (r: string)
    ensures |s| >= 2 ==> s == [s[0]] + r + [s[|s| - 1]]
    ensures |s| < 2 ==> r == []
  {
    if |s| < 2 then [] else s[1..|s| - 1]
  }

  predicate StartsWithChar(s: string, c: char) { s != [] && s[0] == c }

  predicate EndsWithChar(s: string, c: char) { s != [] && s[|s| - 1] == c }

  /** `s.startswith('[') and s.endswith(']')`. */
  predicate Bracketed(s: string) { StartsWithChar(s, '[') && EndsWithChar(s, ']') }

  /** `if s.endswith(','): s = s[:-1].strip()`. */
  function DropComma(s: string): string {
    if EndsWithChar(s, ',') then Strip(DropLast(s)) else s
  }

  /** The beam dialog's clipboard text with one trailing comma and one pair
      of surrounding brackets taken off. */
  function BeamText(clip: string): string {
    var c := DropComma(Strip(clip));
    if Bracketed(c) then Strip(Inner(c)) else c
  }

  /** The words of the beam dialog's clipboard text, commas read as spaces. */
  function BeamWords(clip: string): seq<string> {
    SplitWs(ReplaceChar(BeamText(clip), ',', " "))
  }

  /** The words are non-empty and hold neither whitespace nor a comma. */
  lemma BeamWordsShape(clip: string)
    ensures forall i :: 0 <= i < |BeamWords(clip)| ==>
      BeamWords(clip)[i] != [] && NoSpace(BeamWords(clip)[i]) && ',' !in BeamWords(clip)[i]
  {
    var spaced := ReplaceChar(BeamText(clip), ',', " ");
    assert ',' !in spaced;
    forall i | 0 <= i < |SplitWs(spaced)| ensures ',' !in SplitWs(spaced)[i] {
      SplitWsInside(spaced, i);
    }
  }

  /** A piece of `split()`'s output is made of characters of its input. */
  lemma SplitWsInside(s: string, k: nat)
    requires k < |SplitWs(s)|
    ensures forall c :: c in SplitWs(s)[k] ==> c in s
  {
    SplitWsFromInside(s, 0, k);
  }

  lemma {:induction false} SplitWsFromInside(s: string, i: nat, k: nat)
    requires i <= |s| && k < |SplitWsFrom(s, i)|
    ensures forall c :: c in SplitWsFrom(s, i)[k] ==> c in s
    decreases |s| - i
  {
    var a := WsRun(s, i);
    var w := WordEnd(s, a);
    assert SplitWsFrom(s, i) == [s[a..w]] + SplitWsFrom(s, w);
    if k > 0 {
      SplitWsFromInside(s, w, k - 1);
    } else {
      forall c | c in s[a..w] ensures c in s {
        var j :| 0 <= j < w - a && s[a..w][j] == c;
        assert s[a + j] == c;
      }
    }
  }

  /** Beam `paste_position`: the three words become x, y and z; anything
      other than exactly three words is refused. `None` is a clipboard that
      cannot be read. */
  function BeamPaste(clip: Option<string>): (r: Result<(string, string, string)>)
    ensures clip.None? ==> r == Err(PasteFailed)
    ensures clip.Some? && |BeamWords(clip.value)| != 3 ==> r == Err(NotThreeXyz)
    ensures clip.Some? && |BeamWords(clip.value)| == 3 ==>
      r == Ok((BeamWords(clip.value)[0], BeamWords(clip.value)[1], BeamWords(clip.value)[2]))
  {
    match clip
    case None => Err(PasteFailed)
    case Some(text) =>
      var parts := BeamWords(text);
      if |parts| != 3 then Err(NotThreeXyz) else Ok((parts[0], parts[1], parts[2]))
  }

  /** What a coordinate's text looks like here: a non-empty run with no
      space, no comma and no closing bracket. */
  predicate Number(t: string) {
    t != [] && NoSpace(t) && ',' !in t && t[|t| - 1] != ']'
  }

  /** A separator of commas and whitespace, as the beam dialog accepts. */
  predicate Separator(s: string) {
    s != [] && forall i :: 0 <= i < |s| ==> s[i] == ',' || IsSpace(s[i])
  }

  /** Commas read as spaces split three numbers with separators into those numbers. */
  lemma BeamSplit(x: string, y: string, z: string, s1: string, s2: string)
    requires Number(x) && Number(y) && Number(z) && Separator(s1) && Separator(s2)
    ensures SplitWs(ReplaceChar(x + s1 + y + s2 + z, ',', " ")) == [x, y, z]
  {
    var r1, r2 := ReplaceChar(s1, ',', " "), ReplaceChar(s2, ',', " ");
    ReplaceCommas(s1);
    ReplaceCommas(s2);
    ReplaceCharConcat(x + s1 + y + s2, z, ',', " ");
    ReplaceCharConcat(x + s1 + y, s2, ',', " ");
    ReplaceCharConcat(x + s1, y, ',', " ");
    ReplaceCharConcat(x, s1, ',', " ");
    assert ReplaceChar(x + s1 + y + s2 + z, ',', " ") == x + r1 + y + r2 + z;
    SplitWsThree(x, r1, y, r2, z);
  }

  /** An unpadded text that ends in neither a bracket nor a comma is
      split as it stands. */
  lemma BeamWordsPlain(t: string)
    requires t != [] && !IsSpace(t[0]) && !IsSpace(t[|t| - 1])
    requires t[|t| - 1] != ']' && t[|t| - 1] != ','
    ensures BeamText(t) == t
  {
    StripUnpadded(t);
  }

  /** `[t],` loses its comma and its brackets. */
  lemma BeamWordsLegacy(t: string)
    requires t != [] && !IsSpace(t[0]) && !IsSpace(t[|t| - 1])
    ensures BeamText("[" + t + "],") == t
  {
    var b := "[" + t + "]";
    var raw := b + ",";
    assert "[" + t + "]," == raw;
    assert raw[0] == '[' && raw[|raw| - 1] == ',';
    StripUnpadded(raw);
    assert DropLast(raw) == b;
    StripUnpadded(b);
    assert Bracketed(b);
    assert Inner(b) == t;
    StripUnpadded(t);
  }

  /** A clipboard whose text splits into three words pastes as those words. */
  lemma BeamPasteText(clip: string, t: string, x: string, y: string, z: string)
    requires BeamText(clip) == t && SplitWs(ReplaceChar(t, ',', " ")) == [x, y, z]
    ensures BeamPaste(Some(clip)) == Ok((x, y, z))
  {
  }

  /** The plain forms `x, y, z`, `x y z` and `x,y,z` (any mix of commas and
      whitespace between the numbers) paste as x, y and z. */
  lemma BeamPastePlain(x: string, y: string, z: string, s1: string, s2: string)
    requires Number(x) && Number(y) && Number(z) && Separator(s1) && Separator(s2)
    ensures BeamPaste(Some(x + s1 + y + s2 + z)) == Ok((x, y, z))
  {
    var t := x + s1 + y + s2 + z;
    assert t[0] == x[0] && t[|t| - 1] == z[|z| - 1];
    BeamWordsPlain(t);
    BeamSplit(x, y, z, s1, s2);
    BeamPasteText(t, t, x, y, z);
  }

  /** The legacy form `[x,y,z],` pastes as x, y and z. */
  lemma BeamPasteLegacy(x: string, y: string, z: string, s1: string, s2: string)
    requires Number(x) && Number(y) && Number(z) && Separator(s1) && Separator(s2)
    ensures BeamPaste(Some("[" + x + s1 + y + s2 + z + "],")) == Ok((x, y, z))
  {
    var t := x + s1 + y + s2 + z;
    var clip := "[" + x + s1 + y + s2 + z + "],";
    assert clip == "[" + t + "],";
    assert t[0] == x[0] && t[|t| - 1] == z[|z| - 1];
    BeamWordsLegacy(t);
    BeamSplit(x, y, z, s1, s2);
    BeamPasteText(clip, t, x, y, z);
  }

  /** The comma-separated parts that are not blank:
      `[p for p in parts if p.strip() != ""]` (a part strips to nothing
      exactly when it is all whitespace). */
  function NonBlank(parts: seq<string>): seq<string> {
    if parts == [] then []
    else (if !AllSpace(parts[0]) then [parts[0]] else []) + NonBlank(parts[1..])
  }

  /** The parts kept are parts of the input, and none of them is blank. */
  lemma {:induction false} NonBlankKeeps(parts: seq<string>)
    ensures |NonBlank(parts)| <= |parts|
    ensures forall i :: 0 <= i < |NonBlank(parts)| ==> !AllSpace(NonBlank(parts)[i]) && NonBlank(parts)[i] in parts
  {
    if parts != [] {
      NonBlankKeeps(parts[1..]);
      var head := if !AllSpace(parts[0]) then [parts[0]] else [];
      assert NonBlank(parts) == head + NonBlank(parts[1..]);
      forall i | 0 <= i < |NonBlank(parts)| ensures !AllSpace(NonBlank(parts)[i]) && NonBlank(parts)[i] in parts {
        if i >= |head| {
          assert NonBlank(parts)[i] == NonBlank(parts[1..])[i - |head|];
        }
      }
    }
  }

  /** The parts of the exhaust dialog's bracketed clipboard text: the text
      inside the brackets, stripped, loses one trailing comma and is split
      on commas only. */
  function ExhaustParts(c: string): seq<string> {
    NonBlank(SplitOn(DropComma(Strip(Inner(c))), ','))
  }

  /** Exhaust `paste_position`: only a bracketed clipboard is accepted, and
      it must hold exactly three non-blank comma-separated parts, which are
      stripped into x, y and z. */
  function ExhaustPaste(clip: Option<string>): (r: Result<(string, string, string)>)
    ensures clip.None? ==> r == Err(PasteFailed)
    ensures clip.Some? && !Bracketed(DropComma(Strip(clip.value))) ==> r == Err(NotBracketed)
    ensures clip.Some? && Bracketed(DropComma(Strip(clip.value))) ==>
      var parts := ExhaustParts(DropComma(Strip(clip.value)));
      (r.Ok? <==> |parts| == 3)
      && (r.Err? ==> r == Err(NotThree))
    ensures r.Ok? ==> (
      var (x, y, z) := r.value;
      x != [] && y != [] && z != [] && ',' !in x && ',' !in y && ',' !in z
      && Strip(x) == x && Strip(y) == y && Strip(z) == z)
  {
    match clip
    case None => Err(PasteFailed)
    case Some(text) =>
      var c := DropComma(Strip(text));
      if !Bracketed(c) then Err(NotBracketed)
      else
        var parts := ExhaustParts(c);
        if |parts| != 3 then Err(NotThree)
        else
          NonBlankKeeps(SplitOn(DropComma(Strip(Inner(c))), ','));
          assert forall i :: 0 <= i < 3 ==> ',' !in Strip(parts[i]) && Strip(Strip(parts[i])) == Strip(parts[i]) by {
            forall i | 0 <= i < 3 ensures ',' !in Strip(parts[i]) && Strip(Strip(parts[i])) == Strip(parts[i]) {
              StripInside(parts[i]);
              StripUnpadded(Strip(parts[i]));
            }
          }
          Ok((Strip(parts[0]), Strip(parts[1]), Strip(parts[2])))
  }

  /** `strip()` only takes characters away. */
  lemma StripInside(s: string)
    ensures forall c :: c in Strip(s) ==> c in s
  {
    var l := TrimLeft(s);
    var r := Strip(s);
    assert r == TrimRight(l);
    forall c | c in r ensures c in s {
      var j :| 0 <= j < |r| && r[j] == c;
      assert l[j] == c;
      assert s[|s| - |l| + j] == c;
    }
  }

  lemma TrimLeftSpaces(w: string, y: string)
    requires AllSpace(w) && (y == [] || !IsSpace(y[0]))
    ensures TrimLeft(w + y) == y
  {
    var s := w + y;
    var l := TrimLeft(s);
    assert forall j :: 0 <= j < |w| ==> s[j] == w[j];
    assert y != [] ==> s[|w|] == y[0];
    assert |s| - |l| == |w|;
  }

  lemma TrimRightSpaces(y: string, w: string)
    requires AllSpace(w) && (y == [] || !IsSpace(y[|y| - 1]))
    ensures TrimRight(y + w) == y
  {
    var s := y + w;
    var r := TrimRight(s);
    assert forall j :: |y| <= j < |s| ==> s[j] == w[j - |y|];
    assert y != [] ==> s[|y| - 1] == y[|y| - 1];
    assert |r| == |y|;
  }

  /** Whitespace on either side is all `strip()` takes off an unpadded string. */
  lemma StripAround(l: string, y: string, r: string)
    requires AllSpace(l) && AllSpace(r) && y != [] && !IsSpace(y[0]) && !IsSpace(y[|y| - 1])
    ensures Strip(l + y + r) == y
  {
    assert l + y + r == l + (y + r);
    assert (y + r)[0] == y[0];
    TrimLeftSpaces(l, y + r);
    TrimRightSpaces(y, r);
  }

  /** Inside `[ ... ]`, the whitespace next to the brackets goes. */
  lemma ExhaustInner(w0: string, content: string, w3: string)
    requires AllSpace(w0) && AllSpace(w3)
    requires content != [] && !IsSpace(content[0]) && !IsSpace(content[|content| - 1])
    requires content[|content| - 1] != ','
    ensures var b := "[" + (w0 + content + w3) + "]";
      Bracketed(b) && DropComma(Strip(b)) == b && DropComma(Strip(Inner(b))) == content
  {
    var b := "[" + (w0 + content + w3) + "]";
    assert b[0] == '[' && b[|b| - 1] == ']';
    StripUnpadded(b);
    assert Inner(b) == w0 + content + w3;
    StripAround(w0, content, w3);
  }

  /** Splitting `x,<w1>y,<w2>z` on commas gives `x`, `<w1>y` and `<w2>z`. */
  lemma SplitCommas(x: string, p1: string, p2: string)
    requires ',' !in x && ',' !in p1 && ',' !in p2
    ensures SplitOn(x + "," + p1 + "," + p2, ',') == [x, p1, p2]
  {
    assert x + "," + p1 + "," + p2 == x + [','] + (p1 + [','] + p2);
    SplitOnCons(x, p1 + [','] + p2, ',');
    SplitOnCons(p1, p2, ',');
    SplitOnNoSep(p2, ',');
  }

  lemma NonBlankThree(a: string, b: string, c: string)
    requires !AllSpace(a) && !AllSpace(b) && !AllSpace(c)
    ensures NonBlank([a, b, c]) == [a, b, c]
  {
    var l3, l2, l1 := [c], [b, c], [a, b, c];
    assert l3[1..] == [] && l2[1..] == l3 && l1[1..] == l2;
    assert NonBlank(l3) == [c] + NonBlank([]);
    assert NonBlank(l2) == [b] + NonBlank(l3);
    assert NonBlank(l1) == [a] + NonBlank(l2);
  }

  /** Three non-blank parts without commas, joined by commas, are what
      the exhaust dialog splits back out. */
  lemma ExhaustSplit(a: string, b: string, c: string)
    requires ',' !in a && ',' !in b && ',' !in c
    requires !AllSpace(a) && !AllSpace(b) && !AllSpace(c)
    ensures NonBlank(SplitOn(a + "," + b + "," + c, ',')) == [a, b, c]
  {
    SplitCommas(a, b, c);
    NonBlankThree(a, b, c);
  }

  /** A number after some whitespace is a non-blank part without commas
      that strips to the number. */
  lemma SpacedNumber(w: string, y: string)
    requires AllSpace(w) && Number(y)
    ensures ',' !in w + y && !AllSpace(w + y) && Strip(w + y) == y
  {
    assert ',' !in w;
    assert (w + y)[|w|] == y[0];
    assert w + y + [] == w + y;
    StripAround(w, y, []);
  }

  /** `x,<w1>y,<w2>z` splits into three parts that strip to x, y and z. */
  lemma ExhaustNumbers(x: string, w1: string, y: string, w2: string, z: string)
    requires Number(x) && Number(y) && Number(z) && AllSpace(w1) && AllSpace(w2)
    ensures NonBlank(SplitOn(x + "," + (w1 + y) + "," + (w2 + z), ',')) == [x, w1 + y, w2 + z]
    ensures Strip(x) == x && Strip(w1 + y) == y && Strip(w2 + z) == z
  {
    SpacedNumber([], x);
    SpacedNumber(w1, y);
    SpacedNumber(w2, z);
    assert [] + x == x;
    ExhaustSplit(x, w1 + y, w2 + z);
  }

  /** A bracketed clipboard whose three parts strip to x, y and z pastes as them. */
  lemma ExhaustPasteOf(b: string, p0: string, p1: string, p2: string)
    requires Bracketed(b) && DropComma(Strip(b)) == b
    requires ExhaustParts(b) == [p0, p1, p2]
    ensures ExhaustPaste(Some(b)) == Ok((Strip(p0), Strip(p1), Strip(p2)))
  {
    var parts := ExhaustParts(DropComma(Strip(b)));
    assert parts == [p0, p1, p2];
    assert parts[0] == p0 && parts[1] == p1 && parts[2] == p2;
  }

  /** The documented form `[ x, y, z ]` (any whitespace inside the brackets
      and after each comma) pastes as x, y and z. */
  lemma ExhaustPasteBracketed(x: string, y: string, z: string, w0: string, w1: string, w2: string, w3: string)
    requires Number(x) && Number(y) && Number(z)
    requires AllSpace(w0) && AllSpace(w1) && AllSpace(w2) && AllSpace(w3)
    ensures ExhaustPaste(Some("[" + w0 + x + "," + w1 + y + "," + w2 + z + w3 + "]")) == Ok((x, y, z))
  {
    var p1, p2 := w1 + y, w2 + z;
    var content := x + "," + p1 + "," + p2;
    var b := "[" + (w0 + content + w3) + "]";
    assert "[" + w0 + x + "," + w1 + y + "," + w2 + z + w3 + "]" == b;
    assert content[0] == x[0] && content[|content| - 1] == z[|z| - 1];
    ExhaustInner(w0, content, w3);
    ExhaustNumbers(x, w1, y, w2, z);
    ExhaustPasteOf(b, x, p1, p2);
  }

  /** The plain form that the beam dialog accepts is refused here. */
  lemma ExhaustRefusesPlain(x: string, y: string, z: string, s1: string, s2: string)
    requires Number(x) && Number(y) && Number(z) && Separator(s1) && Separator(s2)
    ensures ExhaustPaste(Some(x + s1 + y + s2 + z)) == Err(NotBracketed)
    ensures BeamPaste(Some(x + s1 + y + s2 + z)) == Ok((x, y, z))
  {
    var t := x + s1 + y + s2 + z;
    assert t[0] == x[0] && t[|t| - 1] == z[|z| - 1];
    StripUnpadded(t);
    assert !EndsWithChar(t, ',') && !EndsWithChar(t, ']');
    BeamPastePlain(x, y, z, s1, s2);
  }

  // ---------------------------------------------------------------------
  // Row lists with tombstones

  /** The rows still present, in order: `on_ok` skips the `None` left by
      `remove_row`. */
  function Live<R>(rows: seq<Option<R>>): (r: seq<R>)
    ensures |r| <= |rows|
  {
    if rows == [] then []
    else
      var last := rows[|rows| - 1];
      Live(rows[..|rows| - 1]) + (if last.Some? then [last.value] else [])
  }

  /** The live rows of two row lists laid end to end. */
  lemma {:induction false} LiveConcat<R>(a: seq<Option<R>>, b: seq<Option<R>>)
    ensures Live(a + b) == Live(a) + Live(b)
    decreases |b|
  {
    if b == [] {
      assert a + b == a;
    } else {
      var b' := b[..|b| - 1];
      assert (a + b)[..|a + b| - 1] == a + b';
      LiveConcat(a, b');
    }
  }

  /** Tombstoning row `idx` takes exactly that row out of the live rows and
      leaves every other row where it was. */
  lemma LiveRemove<R>(rows: seq<Option<R>>, idx: nat)
    requires idx < |rows|
    ensures Live(rows) == Live(rows[..idx]) + Live([rows[idx]]) + Live(rows[idx + 1..])
    ensures Live(rows[idx := None]) == Live(rows[..idx]) + Live(rows[idx + 1..])
  {
    assert rows == rows[..idx] + [rows[idx]] + rows[idx + 1..];
    LiveConcat(rows[..idx] + [rows[idx]], rows[idx + 1..]);
    LiveConcat(rows[..idx], [rows[idx]]);
    var gone := rows[idx := None];
    var none: seq<Option<R>> := [None];
    assert gone == rows[..idx] + none + rows[idx + 1..];
    LiveConcat(rows[..idx] + none, rows[idx + 1..]);
    LiveConcat(rows[..idx], none);
    assert none[..0] == [];
    assert Live(none) == [];
  }

  /** The live rows of a prefix and of the rest. */
  lemma LiveSplit<R>(rows: seq<Option<R>>, i: nat)
    requires i <= |rows|
    ensures Live(rows) == Live(rows[..i]) + Live(rows[i..])
  {
    assert rows == rows[..i] + rows[i..];
    LiveConcat(rows[..i], rows[i..]);
  }

  /** A row appended at the end is live. */
  lemma LiveSnoc<R>(rows: seq<Option<R>>, i: nat)
    requires i < |rows|
    ensures Live(rows[..i + 1]) == Live(rows[..i]) + (if rows[i].Some? then [rows[i].value] else [])
  {
    assert rows[..i + 1][..i] == rows[..i];
  }

  /** Every row present. */
  function Present<R>(rows: seq<R>): (r: seq<Option<R>>)
    ensures |r| == |rows| && forall i :: 0 <= i < |rows| ==> r[i] == Some(rows[i])
  {
    seq(|rows|, i requires 0 <= i < |rows| => Some(rows[i]))
  }

  /** One more row of the opened dialog. */
  lemma PresentSnoc<R>(rows: seq<R>, i: nat, rs: seq<Option<R>>)
    requires i < |rows| && rs == Present(rows)[..i]
    ensures rs + [Some(rows[i])] == Present(rows)[..i + 1]
  {
  }

  lemma {:induction false} LivePresent<R>(rows: seq<R>)
    ensures Live(Present(rows)) == rows
    decreases |rows|
  {
    if rows != [] {
      var init := rows[..|rows| - 1];
      assert Present(rows)[..|rows| - 1] == Present(init);
      LivePresent(init);
      assert rows == init + [rows[|rows| - 1]];
    }
  }

  /** Every row converted, or `None` when some row does not convert: the
      all-or-nothing loop of the beam and exhaust `on_ok`. */
  function ConvertAll<R, E>(rows: seq<R>, conv: R -> Option<E>): (r: Option<seq<E>>)
    ensures r.None? <==> exists i :: 0 <= i < |rows| && conv(rows[i]).None?
    ensures r.Some? ==> |r.value| == |rows| && forall i :: 0 <= i < |rows| ==> Some(r.value[i]) == conv(rows[i])
  {
    if rows == [] then Some([])
    else
      var init := rows[..|rows| - 1];
      var last := rows[|rows| - 1];
      match ConvertAll(init, conv)
      case None =>
        assert exists i :: 0 <= i < |rows| && conv(rows[i]).None? by {
          var i :| 0 <= i < |init| && conv(init[i]).None?;
          assert rows[i] == init[i];
        }
        None
      case Some(es) =>
        if conv(last).None? then None
        else
          assert forall i :: 0 <= i < |init| ==> rows[i] == init[i];
          Some(es + [conv(last).value])
  }

  /** Rows that all convert, to the values given, convert to exactly those values. */
  lemma ConvertAllOf<R, E>(rows: seq<R>, conv: R -> Option<E>, es: seq<E>)
    requires |es| == |rows| && forall i :: 0 <= i < |rows| ==> conv(rows[i]) == Some(es[i])
    ensures ConvertAll(rows, conv) == Some(es)
  {
    var r := ConvertAll(rows, conv);
    assert r.Some?;
    assert forall i :: 0 <= i < |rows| ==> r.value[i] == es[i];
    assert r.value == es;
  }

  /** Converting one more row. */
  lemma ConvertSnoc<R, E>(rows: seq<R>, row: R, conv: R -> Option<E>)
    ensures ConvertAll(rows + [row], conv) ==
      if ConvertAll(rows, conv).None? || conv(row).None? then None
      else Some(ConvertAll(rows, conv).value + [conv(row).value])
  {
    assert (rows + [row])[..|rows|] == rows;
  }

  /** A row that does not convert makes the whole list fail. */
  lemma ConvertFails<R, E>(rows: seq<R>, i: nat, conv: R -> Option<E>)
    requires i < |rows| && conv(rows[i]).None?
    ensures ConvertAll(rows, conv).None?
  {
  }

  /** A removed row in the beam and exhaust `on_ok` loop changes nothing. */
  lemma ConvertSkips<R, E>(rows: seq<Option<R>>, i: nat, conv: R -> Option<E>)
    requires i < |rows| && rows[i].None?
    ensures ConvertAll(Live(rows[..i + 1]), conv) == ConvertAll(Live(rows[..i]), conv)
  {
    LiveSnoc(rows, i);
    assert Live(rows[..i + 1]) == Live(rows[..i]);
  }

  /** A live row in the beam and exhaust `on_ok` loop that converts is appended. */
  lemma ConvertStep<R, E>(rows: seq<Option<R>>, i: nat, conv: R -> Option<E>)
    requires i < |rows| && rows[i].Some?
    ensures ConvertAll(Live(rows[..i + 1]), conv) ==
      if ConvertAll(Live(rows[..i]), conv).None? || conv(rows[i].value).None? then None
      else Some(ConvertAll(Live(rows[..i]), conv).value + [conv(rows[i].value).value])
  {
    LiveSnoc(rows, i);
    ConvertSnoc(Live(rows[..i]), rows[i].value, conv);
  }

  /** A live row that does not convert makes the whole beam or exhaust
      `on_ok` fail, whatever the rows after it. */
  lemma ConvertStops<R, E>(rows: seq<Option<R>>, i: nat, conv: R -> Option<E>)
    requires i < |rows| && rows[i].Some? && conv(rows[i].value).None?
    ensures ConvertAll(Live(rows), conv).None?
  {
    LiveRemove(rows, i);
    var one: seq<Option<R>> := [rows[i]];
    assert one[..0] == [];
    assert Live(one) == [rows[i].value];
    var before := Live(rows[..i]);
    var all := Live(rows);
    assert all == before + [rows[i].value] + Live(rows[i + 1..]);
    assert all[|before|] == rows[i].value;
    ConvertFails(all, |before|, conv);
  }

  /** The beam and exhaust `on_ok` loop: the live rows converted one by
      one, stopping at the first that does not convert. */
  method ConvertLive<R, E>(rows: seq<Option<R>>, read: R -> Option<E>) returns (r: Option<seq<E>>)
    ensures r == ConvertAll(Live(rows), read)
  {
    var es: seq<E> := [];
    var i := 0;
    while i < |rows|
      invariant 0 <= i <= |rows|
      invariant ConvertAll(Live(rows[..i]), read) == Some(es)
    {
      if rows[i].None? {
        ConvertSkips(rows, i, read);
      } else {
        var e := read(rows[i].value);
        if e.None? {
          ConvertStops(rows, i, read);
          return None;
        }
        ConvertStep(rows, i, read);
        es := es + [e.value];
      }
      i := i + 1;
    }
    assert rows[..|rows|] == rows;
    return Some(es);
  }

  /** Where `paste_position` puts parsed numbers: into row `idx`'s x, y and
      z when that row is still there; otherwise the message shown, with the
      rows unchanged. */
  function PasteAt<R>(rows: seq<Option<R>>, idx: nat, parsed: Result<(string, string, string)>,
                      place: (R, (string, string, string)) -> R): (r: (Option<string>, seq<Option<R>>))
    ensures parsed.Err? ==> r == (Some(parsed.error), rows)
    ensures parsed.Ok? && (idx >= |rows| || rows[idx].None?) ==> r == (Some(PasteFailed), rows)
    ensures parsed.Ok? && idx < |rows| && rows[idx].Some? ==>
      r == (None, rows[idx := Some(place(rows[idx].value, parsed.value))])
  {
    if parsed.Err? then (Some(parsed.error), rows)
    else if idx >= |rows| || rows[idx].None? then (Some(PasteFailed), rows)
    else (None, rows[idx := Some(place(rows[idx].value, parsed.value))])
  }

  // ---------------------------------------------------------------------
  // Torpedo start list

  datatype TorpedoRow = TorpedoRow(ttype: string, count: string)

  /** A row as `on_ok` reads it: the stripped type, and the stripped count
      through `int()`. */
  datatype TorpedoCell = TorpedoCell(ttype: string, count: Option<int>)

  function ReadTorpedoRow(row: TorpedoRow): TorpedoCell {
    TorpedoCell(Strip(row.ttype), ParseInt(Strip(row.count)))
  }

  /** `f` applied to each element, in order. */
  function MapSeq<A, B>(f: A -> B, xs: seq<A>): (r: seq<B>)
    ensures |r| == |xs| && forall i :: 0 <= i < |xs| ==> r[i] == f(xs[i])
  {
    if xs == [] then [] else MapSeq(f, xs[..|xs| - 1]) + [f(xs[|xs| - 1])]
  }

  lemma {:induction false} MapSeqConcat<A, B>(f: A -> B, a: seq<A>, b: seq<A>)
    ensures MapSeq(f, a + b) == MapSeq(f, a) + MapSeq(f, b)
    decreases |b|
  {
    if b == [] {
      assert a + b == a;
    } else {
      var b' := b[..|b| - 1];
      assert (a + b)[..|a + b| - 1] == a + b';
      MapSeqConcat(f, a, b');
    }
  }

  /** The rows as `on_ok` reads them. */
  function Cells(rows: seq<TorpedoRow>): (cells: seq<TorpedoCell>)
    ensures |cells| == |rows| && forall i :: 0 <= i < |rows| ==> cells[i] == ReadTorpedoRow(rows[i])
  {
    MapSeq(ReadTorpedoRow, rows)
  }

  /** The outcome of the torpedo `on_ok`: the type/count pairs, or the
      error it stops at. */
  datatype TorpedoCheck =
    | Torpedoes(entries: seq<(string, int)>)
    | DuplicateType(ttype: string)
    | InvalidCount(ttype: string)

  /** `types_seen`. */
  function TypesOf(entries: seq<(string, int)>): set<string> {
    set i | 0 <= i < |entries| :: entries[i].0
  }

  /** The torpedo `on_ok` loop over the live rows: a row whose type strips
      to nothing is skipped; a type seen before stops the loop, and so does
      a count that `int()` refuses. */
  function TorpedoScan(cells: seq<TorpedoCell>): TorpedoCheck {
    if cells == [] then Torpedoes([])
    else TorpedoNext(TorpedoScan(cells[..|cells| - 1]), cells[|cells| - 1])
  }

  /** One row of that loop, given how the rows before it ended. */
  function TorpedoNext(sofar: TorpedoCheck, cell: TorpedoCell): TorpedoCheck {
    match sofar
    case Torpedoes(es) =>
      if cell.ttype == [] then Torpedoes(es)
      else if cell.ttype in TypesOf(es) then DuplicateType(cell.ttype)
      else if cell.count.None? then InvalidCount(cell.ttype)
      else Torpedoes(es + [(cell.ttype, cell.count.value)])
    case err => err
  }

  /** The rows with a non-blank type. */
  function Named(cells: seq<TorpedoCell>): (r: seq<TorpedoCell>)
    ensures |r| <= |cells|
  {
    if cells == [] then []
    else
      var last := cells[|cells| - 1];
      Named(cells[..|cells| - 1]) + (if last.ttype != [] then [last] else [])
  }

  predicate DistinctTypes(cells: seq<TorpedoCell>) {
    forall i, j :: 0 <= i < j < |cells| ==> cells[i].ttype != cells[j].ttype
  }

  predicate CountsParse(cells: seq<TorpedoCell>) {
    forall i :: 0 <= i < |cells| ==> cells[i].count.Some?
  }

  /** `entries` is the type and the count of each row, in order. */
  predicate EntriesOf(entries: seq<(string, int)>, cells: seq<TorpedoCell>) {
    |entries| == |cells|
    && forall i :: 0 <= i < |cells| ==> entries[i].0 == cells[i].ttype && Some(entries[i].1) == cells[i].count
  }

  /** One more named row on the scan. */
  lemma TorpedoStep(named: seq<TorpedoCell>, es: seq<(string, int)>, last: TorpedoCell)
    requires DistinctTypes(named) && CountsParse(named) && EntriesOf(es, named)
    ensures var n' := named + [last];
      (last.ttype in TypesOf(es) <==> !DistinctTypes(n'))
      && (last.ttype !in TypesOf(es) ==>
        (last.count.None? <==> !CountsParse(n'))
        && (last.count.Some? ==> EntriesOf(es + [(last.ttype, last.count.value)], n')))
  {
    var n' := named + [last];
    assert forall i :: 0 <= i < |named| ==> n'[i] == named[i];
    assert n'[|named|] == last;
    if last.ttype in TypesOf(es) {
      var i :| 0 <= i < |es| && es[i].0 == last.ttype;
      assert n'[i].ttype == n'[|named|].ttype;
    } else {
      forall i, j | 0 <= i < j < |n'| ensures n'[i].ttype != n'[j].ttype {
        if j == |named| {
          assert es[i].0 in TypesOf(es);
        }
      }
      if last.count.Some? {
        var es' := es + [(last.ttype, last.count.value)];
        assert forall i :: 0 <= i < |es| ==> es'[i] == es[i];
        assert es'[|es|] == (last.ttype, last.count.value);
      }
    }
  }

  /** A prefix of an accepted list of named rows is accepted too. */
  lemma AcceptedPrefix(named: seq<TorpedoCell>, last: TorpedoCell)
    requires DistinctTypes(named + [last]) && CountsParse(named + [last])
    ensures DistinctTypes(named) && CountsParse(named)
  {
    var n' := named + [last];
    assert forall i :: 0 <= i < |named| ==> n'[i] == named[i];
  }

  /** Once the scan has stopped at an error, more rows do not change it. */
  lemma {:induction false} TorpedoErrorStays(a: seq<TorpedoCell>, b: seq<TorpedoCell>)
    requires !TorpedoScan(a).Torpedoes?
    ensures TorpedoScan(a + b) == TorpedoScan(a)
    decreases |b|
  {
    if b == [] {
      assert a + b == a;
    } else {
      var b' := b[..|b| - 1];
      assert (a + b)[..|a + b| - 1] == a + b';
      TorpedoErrorStays(a, b');
    }
  }

  /** The torpedo `on_ok` succeeds exactly when the non-blank types are
      pairwise different and every one of their counts is an integer, and
      then it lists each such row's type and count, in row order. */
  lemma {:induction false} TorpedoScanSpec(cells: seq<TorpedoCell>)
    ensures TorpedoScan(cells).Torpedoes? <==> DistinctTypes(Named(cells)) && CountsParse(Named(cells))
    ensures TorpedoScan(cells).Torpedoes? ==> EntriesOf(TorpedoScan(cells).entries, Named(cells))
    decreases |cells|
  {
    if cells != [] {
      var init := cells[..|cells| - 1];
      var last := cells[|cells| - 1];
      TorpedoScanSpec(init);
      var named := Named(init);
      if last.ttype == [] {
        assert Named(cells) == named;
        assert TorpedoScan(cells) == TorpedoScan(init);
      } else {
        var n' := named + [last];
        assert Named(cells) == n';
        if TorpedoScan(init).Torpedoes? {
          TorpedoStep(named, TorpedoScan(init).entries, last);
        } else {
          assert TorpedoScan(cells) == TorpedoScan(init);
          if DistinctTypes(n') && CountsParse(n') {
            AcceptedPrefix(named, last);
          }
        }
      }
    }
  }

  /** Rows with a blank type play no part in the torpedo `on_ok`. */
  lemma {:induction false} TorpedoIgnoresBlank(cells: seq<TorpedoCell>)
    ensures TorpedoScan(Named(cells)) == TorpedoScan(cells)
    decreases |cells|
  {
    if cells != [] {
      var init := cells[..|cells| - 1];
      var last := cells[|cells| - 1];
      TorpedoIgnoresBlank(init);
      if last.ttype == [] {
        assert Named(cells) == Named(init);
        assert TorpedoScan(cells) == TorpedoScan(init);
      } else {
        var n' := Named(init) + [last];
        assert Named(cells) == n';
        assert n'[..|n'| - 1] == Named(init) && n'[|n'| - 1] == last;
        assert TorpedoScan(n') == TorpedoNext(TorpedoScan(Named(init)), last);
      }
    }
  }

  /** The rows the torpedo dialog starts with: one per current entry, the
      count written out with `str()`, or a single blank row. */
  function InitialTorpedoRows(current: seq<(string, int)>): (rows: seq<TorpedoRow>)
    ensures |rows| == if current == [] then 1 else |current|
  {
    if current == [] then [TorpedoRow("", "0")]
    else seq(|current|, i requires 0 <= i < |current| => TorpedoRow(current[i].0, IntToString(current[i].1)))
  }

  /** A start list whose types are non-empty, already stripped and pairwise
      different, the way `on_ok` writes one. */
  predicate CanonicalTorpedoes(current: seq<(string, int)>) {
    (forall i :: 0 <= i < |current| ==> current[i].0 != [] && Strip(current[i].0) == current[i].0)
    && forall i, j :: 0 <= i < j < |current| ==> current[i].0 != current[j].0
  }

  /** A row written from an entry reads back as that entry. */
  lemma ReadWrittenRow(k: string, n: int)
    requires Strip(k) == k
    ensures ReadTorpedoRow(TorpedoRow(k, IntToString(n))) == TorpedoCell(k, Some(n))
  {
    var s := IntToString(n);
    StripUnpadded(s);
    IntRoundTrip(n);
    assert ParseInt(Strip(s)) == Some(n);
  }

  /** The cells of entries read back as the entries themselves. */
  function EntryCells(current: seq<(string, int)>): (cells: seq<TorpedoCell>)
    ensures |cells| == |current| && forall i :: 0 <= i < |current| ==> cells[i] == TorpedoCell(current[i].0, Some(current[i].1))
  {
    seq(|current|, i requires 0 <= i < |current| => TorpedoCell(current[i].0, Some(current[i].1)))
  }

  lemma {:induction false} EntryCellsScan(current: seq<(string, int)>)
    requires forall i :: 0 <= i < |current| ==> current[i].0 != []
    requires forall i, j :: 0 <= i < j < |current| ==> current[i].0 != current[j].0
    ensures TorpedoScan(EntryCells(current)) == Torpedoes(current)
    decreases |current|
  {
    if current != [] {
      var init := current[..|current| - 1];
      var cells := EntryCells(current);
      assert cells[..|cells| - 1] == EntryCells(init);
      EntryCellsScan(init);
      var k := current[|current| - 1].0;
      assert k !in TypesOf(init) by {
        forall i | 0 <= i < |init| ensures init[i].0 != k {
          assert current[i].0 != current[|current| - 1].0;
        }
      }
      assert current == init + [current[|current| - 1]];
    }
  }

  /** Opening the torpedo dialog on a canonical start list and pressing OK
      gives the same list back. */
  lemma TorpedoRoundTrip(current: seq<(string, int)>)
    requires CanonicalTorpedoes(current)
    ensures TorpedoScan(Cells(InitialTorpedoRows(current))) == Torpedoes(current)
  {
    if current == [] {
      BlankStartRow();
    } else {
      WrittenCells(current);
      EntryCellsScan(current);
    }
  }

  /** The rows written from a non-empty canonical list read back as its entries. */
  lemma WrittenCells(current: seq<(string, int)>)
    requires current != [] && CanonicalTorpedoes(current)
    ensures Cells(InitialTorpedoRows(current)) == EntryCells(current)
  {
    var rows := InitialTorpedoRows(current);
    var cells := Cells(rows);
    forall i | 0 <= i < |current| ensures cells[i] == EntryCells(current)[i] {
      assert rows[i] == TorpedoRow(current[i].0, IntToString(current[i].1));
      ReadWrittenRow(current[i].0, current[i].1);
    }
  }

  /** The single blank row of an empty start list gives an empty list back. */
  lemma BlankStartRow()
    ensures TorpedoScan(Cells([TorpedoRow("", "0")])) == Torpedoes([])
  {
    var cells := Cells([TorpedoRow("", "0")]);
    assert cells[0].ttype == Strip("") == [];
    assert cells[..0] == [];
    assert TorpedoScan(cells) == TorpedoNext(Torpedoes([]), cells[0]);
  }

  /** The scan of one more row is one more step of the scan. */
  lemma TorpedoScanSnoc(cells: seq<TorpedoCell>, c: TorpedoCell)
    ensures TorpedoScan(cells + [c]) == TorpedoNext(TorpedoScan(cells), c)
  {
    assert (cells + [c])[..|cells|] == cells;
  }

  /** One row of the torpedo `on_ok` loop: a live row is one more step of
      the scan, and a removed one changes nothing. (`read` is the row
      reader, `ReadTorpedoRow`, kept abstract here.) */
  lemma OnOkStep(rows: seq<Option<TorpedoRow>>, i: nat, read: TorpedoRow -> TorpedoCell)
    requires i < |rows|
    ensures TorpedoScan(MapSeq(read, Live(rows[..i + 1]))) ==
      if rows[i].Some? then TorpedoNext(TorpedoScan(MapSeq(read, Live(rows[..i]))), read(rows[i].value))
      else TorpedoScan(MapSeq(read, Live(rows[..i])))
  {
    LiveSnoc(rows, i);
    var tail: seq<TorpedoRow> := if rows[i].Some? then [rows[i].value] else [];
    MapSeqConcat(read, Live(rows[..i]), tail);
    if rows[i].Some? {
      TorpedoScanSnoc(MapSeq(read, Live(rows[..i])), read(rows[i].value));
    } else {
      assert MapSeq(read, Live(rows[..i])) + [] == MapSeq(read, Live(rows[..i]));
    }
  }

  /** An error the torpedo `on_ok` loop reaches at row `i` is the answer for
      the whole list. */
  lemma OnOkStops(rows: seq<Option<TorpedoRow>>, i: nat, read: TorpedoRow -> TorpedoCell)
    requires i < |rows| && !TorpedoScan(MapSeq(read, Live(rows[..i + 1]))).Torpedoes?
    ensures TorpedoScan(MapSeq(read, Live(rows))) == TorpedoScan(MapSeq(read, Live(rows[..i + 1])))
  {
    LiveSplit(rows, i + 1);
    var a, b := Live(rows[..i + 1]), Live(rows[i + 1..]);
    MapSeqConcat(read, a, b);
    TorpedoErrorStays(MapSeq(read, a), MapSeq(read, b));
  }

  /** The types seen grow by the type just added. */
  lemma TypesSnoc(entries: seq<(string, int)>, e: (string, int))
    ensures TypesOf(entries + [e]) == TypesOf(entries) + {e.0}
  {
    var es' := entries + [e];
    assert forall j :: 0 <= j < |entries| ==> es'[j] == entries[j];
    assert es'[|entries|] == e;
  }

  class TorpedoDialog {
    var rows: seq<Option<TorpedoRow>>
    /** `self.result`: set by a successful OK. */
    var result: Option<seq<(string, int)>>

    /** The dialog opened on the ship's current start list. */
    constructor (current: seq<(string, int)>)
      ensures rows == Present(InitialTorpedoRows(current)) && result == None
    {
      var rs: seq<Option<TorpedoRow>> := [];
      if current == [] {
        rs := [Some(TorpedoRow("", "0"))];
      } else {
        ghost var want := InitialTorpedoRows(current);
        var i := 0;
        while i < |current|
          invariant 0 <= i <= |current|
          invariant rs == Present(want)[..i]
        {
          PresentSnoc(want, i, rs);
          rs := rs + [Some(TorpedoRow(current[i].0, IntToString(current[i].1)))];
          i := i + 1;
        }
        assert Present(want)[..i] == Present(want);
      }
      rows := rs;
      result := None;
    }

    /** `add_row`. */
    method AddRow(ttype: string, count: string)
      modifies this
      ensures rows == old(rows) + [Some(TorpedoRow(ttype, count))] && result == old(result)
    {
      rows := rows + [Some(TorpedoRow(ttype, count))];
    }

    /** `remove_row`: the row becomes a tombstone, so every other row keeps
        its index; a row already removed stays as it is. */
    method RemoveRow(idx: nat)
      requires idx < |rows|
      modifies this
      ensures rows == old(rows)[idx := None] && result == old(result)
    {
      if rows[idx].None? {
        return;
      }
      rows := rows[idx := None];
    }

    /** `on_ok`: on success `result` is set; on an error it is left alone. */
    method OnOk() returns (check: TorpedoCheck)
      modifies this
      ensures check == TorpedoScan(Cells(Live(rows)))
      ensures rows == old(rows)
      ensures result == if check.Torpedoes? then Some(check.entries) else old(result)
    {
      var entries: seq<(string, int)> := [];
      var seen: set<string> := {};
      var i := 0;
      while i < |rows|
        invariant 0 <= i <= |rows|
        invariant TorpedoScan(Cells(Live(rows[..i]))) == Torpedoes(entries)
        invariant seen == TypesOf(entries)
        invariant rows == old(rows) && result == old(result)
      {
        OnOkStep(rows, i, ReadTorpedoRow);
        if rows[i].Some? {
          var cell := ReadTorpedoRow(rows[i].value);
          if cell.ttype != [] {
            if cell.ttype in seen {
              OnOkStops(rows, i, ReadTorpedoRow);
              check := DuplicateType(cell.ttype);
              return;
            }
            seen := seen + {cell.ttype};
            if cell.count.None? {
              OnOkStops(rows, i, ReadTorpedoRow);
              check := InvalidCount(cell.ttype);
              return;
            }
            TypesSnoc(entries, (cell.ttype, cell.count.value));
            entries := entries + [(cell.ttype, cell.count.value)];
          }
        }
        i := i + 1;
      }
      assert rows[..|rows|] == rows;
      check := Torpedoes(entries);
      result := Some(entries);
    }
  }

  // ---------------------------------------------------------------------
  // Beam and exhaust ports

  const BeamNumbersInvalid := "Numeric values in beam ports must be valid numbers."
  const ExhaustNumbersInvalid := "Position values in exhaust ports must be valid numbers."

  /** `float()` on a field's stripped text: `None` where it raises. */
  type FloatParser = string -> Option<real>

  /** `int()` on a field's stripped text: `ParseInt` wherever the dialogs
      run, a parameter here so that reading a row does not unfold it. */
  type IntParser = string -> Option<int>

  /** `str()` of a float, as the dialogs write a stored number into a field. */
  type FloatFormatter = real -> string

  /** A beam-port row: the text of its ten fields. */
  datatype BeamRow = BeamRow(
    x: string, y: string, z: string, color: string, arccolor: string,
    cycleTime: string, damageCoeff: string, range: string, arcwidth: string, barrelAngle: string)

  /** The row `add_row` makes when it is given none. */
  const DefaultBeamRow := BeamRow("0", "0", "0", "", "red", "0", "0", "0", "0", "0")

  /** A beam port as the beam `on_ok` writes it. */
  datatype BeamPort = BeamPort(
    position: (real, real, real), color: string, arccolor: string,
    cycleTime: int, damageCoeff: real, range: int, arcwidth: int, barrelAngle: int)

  /** One row as the beam `on_ok` reads it: every field stripped, the
      positions and the damage coefficient through `float()`, the other
      numbers through `int()`; `None` when any of them is refused. */
  function ReadBeamRow(float: FloatParser, parseInt: IntParser, row: BeamRow): Option<BeamPort> {
    var x, y, z := float(Strip(row.x)), float(Strip(row.y)), float(Strip(row.z));
    var cycleTime := parseInt(Strip(row.cycleTime));
    var damageCoeff := float(Strip(row.damageCoeff));
    var range := parseInt(Strip(row.range));
    var arcwidth := parseInt(Strip(row.arcwidth));
    var barrelAngle := parseInt(Strip(row.barrelAngle));
    if x.None? || y.None? || z.None? || cycleTime.None? || damageCoeff.None?
      || range.None? || arcwidth.None? || barrelAngle.None?
    then None
    else Some(BeamPort((x.value, y.value, z.value), Strip(row.color), Strip(row.arccolor),
      cycleTime.value, damageCoeff.value, range.value, arcwidth.value, barrelAngle.value))
  }

  /** The pasted numbers as a beam row's x, y and z. */
  function PlaceBeam(row: BeamRow, p: (string, string, string)): BeamRow {
    row.(x := p.0, y := p.1, z := p.2)
  }

  function BeamReader(float: FloatParser): BeamRow -> Option<BeamPort> {
    row => ReadBeamRow(float, ParseInt, row)
  }

  /** The row the beam dialog writes for a stored port. */
  function WriteBeamRow(str: FloatFormatter, p: BeamPort): BeamRow {
    BeamRow(str(p.position.0), str(p.position.1), str(p.position.2), p.color, p.arccolor,
      IntToString(p.cycleTime), str(p.damageCoeff), IntToString(p.range),
      IntToString(p.arcwidth), IntToString(p.barrelAngle))
  }

  /** `float()` reads back what `str()` wrote for `v`. */
  predicate FloatReadsBack(float: FloatParser, str: FloatFormatter, v: real) {
    float(Strip(str(v))) == Some(v)
  }

  /** A stored port whose numbers survive `str()` and whose colours are already stripped. */
  predicate BeamWritable(float: FloatParser, str: FloatFormatter, p: BeamPort) {
    FloatReadsBack(float, str, p.position.0) && FloatReadsBack(float, str, p.position.1)
    && FloatReadsBack(float, str, p.position.2) && FloatReadsBack(float, str, p.damageCoeff)
    && Strip(p.color) == p.color && Strip(p.arccolor) == p.arccolor
  }

  /** `int()` of the stripped `str(n)` is `n`. */
  lemma IntReadsBack(n: int)
    ensures ParseInt(Strip(IntToString(n))) == Some(n)
  {
    StripUnpadded(IntToString(n));
    IntRoundTrip(n);
  }

  /** A row written from a port reads back as that port. */
  lemma BeamRowRoundTrip(float: FloatParser, str: FloatFormatter, p: BeamPort)
    requires BeamWritable(float, str, p)
    ensures ReadBeamRow(float, ParseInt, WriteBeamRow(str, p)) == Some(p)
  {
    IntReadsBack(p.cycleTime);
    IntReadsBack(p.range);
    IntReadsBack(p.arcwidth);
    IntReadsBack(p.barrelAngle);
  }

  /** The default row reads as a red-arced port at the origin with every
      number zero. */
  lemma DefaultBeamPort(float: FloatParser)
    requires float("0") == Some(0.0)
    ensures ReadBeamRow(float, ParseInt, DefaultBeamRow) == Some(BeamPort((0.0, 0.0, 0.0), "", "red", 0, 0.0, 0, 0, 0))
  {
    DefaultFields();
  }

  /** The stripped text of the default fields, and `int("0")`. */
  lemma DefaultFields()
    ensures Strip("0") == "0" && Strip("red") == "red" && Strip("") == ""
    ensures ParseInt("0") == Some(0)
  {
    StripUnpadded("0");
    StripUnpadded("red");
    IntReadsBack(0);
    assert IntToString(0) == "0";
  }

  /** The rows the beam dialog starts with: one per stored port, or the
      default row. */
  function InitialBeamRows(str: FloatFormatter, current: seq<BeamPort>): (rows: seq<BeamRow>)
    ensures |rows| == if current == [] then 1 else |current|
  {
    if current == [] then [DefaultBeamRow]
    else seq(|current|, i requires 0 <= i < |current| => WriteBeamRow(str, current[i]))
  }

  /** Opening the beam dialog on stored ports and pressing OK gives them back. */
  lemma BeamRoundTrip(float: FloatParser, str: FloatFormatter, current: seq<BeamPort>)
    requires current != [] && forall i :: 0 <= i < |current| ==> BeamWritable(float, str, current[i])
    ensures ConvertAll(Live(Present(InitialBeamRows(str, current))), BeamReader(float)) == Some(current)
  {
    var rows := InitialBeamRows(str, current);
    LivePresent(rows);
    forall i | 0 <= i < |rows| ensures BeamReader(float)(rows[i]) == Some(current[i]) {
      BeamRowRoundTrip(float, str, current[i]);
    }
    ConvertAllOf(rows, BeamReader(float), current);
  }

  class BeamPortsDialog {
    var rows: seq<Option<BeamRow>>
    /** `self.result`: set by a successful OK. */
    var result: Option<seq<BeamPort>>

    /** The dialog opened on the ship's stored beam ports. */
    constructor (str: FloatFormatter, current: seq<BeamPort>)
      ensures rows == Present(InitialBeamRows(str, current)) && result == None
    {
      var rs: seq<Option<BeamRow>> := [];
      if current == [] {
        rs := [Some(DefaultBeamRow)];
      } else {
        ghost var want := InitialBeamRows(str, current);
        var i := 0;
        while i < |current|
          invariant 0 <= i <= |current|
          invariant rs == Present(want)[..i]
        {
          PresentSnoc(want, i, rs);
          rs := rs + [Some(WriteBeamRow(str, current[i]))];
          i := i + 1;
        }
        assert Present(want)[..i] == Present(want);
      }
      rows := rs;
      result := None;
    }

    /** `add_row`: the given row, or the default when there is none. */
    method AddRow(row: Option<BeamRow>)
      modifies this
      ensures rows == old(rows) + [Some(if row.Some? then row.value else DefaultBeamRow)]
      ensures result == old(result)
    {
      var data := if row.Some? then row.value else DefaultBeamRow;
      rows := rows + [Some(data)];
    }

    /** `remove_row`. */
    method RemoveRow(idx: nat)
      requires idx < |rows|
      modifies this
      ensures rows == old(rows)[idx := None] && result == old(result)
    {
      if rows[idx].None? {
        return;
      }
      rows := rows[idx := None];
    }

    /** `paste_position`: the parsed numbers go to the row's x, y and z and
        nothing else changes; a refused clipboard, or a row that is no
        longer there, changes nothing and gives the message shown. */
    method PastePosition(idx: nat, clip: Option<string>) returns (err: Option<string>)
      modifies this
      ensures BeamPaste(clip).Err? ==> err == Some(BeamPaste(clip).error) && rows == old(rows)
      ensures BeamPaste(clip).Ok? && (idx >= |old(rows)| || old(rows)[idx].None?) ==>
        err == Some(PasteFailed) && rows == old(rows)
      ensures BeamPaste(clip).Ok? && idx < |old(rows)| && old(rows)[idx].Some? ==>
        var (x, y, z) := BeamPaste(clip).value;
        err == None && rows == old(rows)[idx := Some(old(rows)[idx].value.(x := x, y := y, z := z))]
      ensures result == old(result)
    {
      var pasted := PasteAt(rows, idx, BeamPaste(clip), PlaceBeam);
      err, rows := pasted.0, pasted.1;
    }

    /** `on_ok`: every live row converted, in order, or the error message
        when some row's number is refused; `result` is set only on success. */
    method OnOk(float: FloatParser) returns (r: Result<seq<BeamPort>>)
      modifies this
      ensures rows == old(rows)
      ensures ConvertAll(Live(rows), BeamReader(float)).None? ==> r == Err(BeamNumbersInvalid) && result == old(result)
      ensures ConvertAll(Live(rows), BeamReader(float)).Some? ==>
        r == Ok(ConvertAll(Live(rows), BeamReader(float)).value) && result == Some(r.value)
    {
      var ports := ConvertLive(rows, BeamReader(float));
      if ports.None? {
        return Err(BeamNumbersInvalid);
      }
      r := Ok(ports.value);
      result := ports;
    }
  }

  /** An exhaust-port row: the text of its four fields. */
  datatype ExhaustRow = ExhaustRow(x: string, y: string, z: string, color: string)

  const DefaultExhaustRow := ExhaustRow("0", "0", "0", "")

  datatype ExhaustPort = ExhaustPort(position: (real, real, real), color: string)

  /** One row as the exhaust `on_ok` reads it. */
  function ReadExhaustRow(float: FloatParser, row: ExhaustRow): Option<ExhaustPort> {
    var x, y, z := float(Strip(row.x)), float(Strip(row.y)), float(Strip(row.z));
    if x.None? || y.None? || z.None? then None
    else Some(ExhaustPort((x.value, y.value, z.value), Strip(row.color)))
  }

  /** The pasted numbers as an exhaust row's x, y and z. */
  function PlaceExhaust(row: ExhaustRow, p: (string, string, string)): ExhaustRow {
    row.(x := p.0, y := p.1, z := p.2)
  }

  function ExhaustReader(float: FloatParser): ExhaustRow -> Option<ExhaustPort> {
    row => ReadExhaustRow(float, row)
  }

  function WriteExhaustRow(str: FloatFormatter, p: ExhaustPort): ExhaustRow {
    ExhaustRow(str(p.position.0), str(p.position.1), str(p.position.2), p.color)
  }

  predicate ExhaustWritable(float: FloatParser, str: FloatFormatter, p: ExhaustPort) {
    FloatReadsBack(float, str, p.position.0) && FloatReadsBack(float, str, p.position.1)
    && FloatReadsBack(float, str, p.position.2) && Strip(p.color) == p.color
  }

  function InitialExhaustRows(str: FloatFormatter, current: seq<ExhaustPort>): (rows: seq<ExhaustRow>)
    ensures |rows| == if current == [] then 1 else |current|
  {
    if current == [] then [DefaultExhaustRow]
    else seq(|current|, i requires 0 <= i < |current| => WriteExhaustRow(str, current[i]))
  }

  /** A row written from an exhaust port reads back as that port. */
  lemma ExhaustRowRoundTrip(float: FloatParser, str: FloatFormatter, p: ExhaustPort)
    requires ExhaustWritable(float, str, p)
    ensures ReadExhaustRow(float, WriteExhaustRow(str, p)) == Some(p)
  {
  }

  /** Opening the exhaust dialog on stored ports and pressing OK gives them back. */
  lemma ExhaustRoundTrip(float: FloatParser, str: FloatFormatter, current: seq<ExhaustPort>)
    requires current != [] && forall i :: 0 <= i < |current| ==> ExhaustWritable(float, str, current[i])
    ensures ConvertAll(Live(Present(InitialExhaustRows(str, current))), ExhaustReader(float)) == Some(current)
  {
    var rows := InitialExhaustRows(str, current);
    LivePresent(rows);
    forall i | 0 <= i < |rows| ensures ExhaustReader(float)(rows[i]) == Some(current[i]) {
      ExhaustRowRoundTrip(float, str, current[i]);
    }
    ConvertAllOf(rows, ExhaustReader(float), current);
  }

  class ExhaustPortsDialog {
    var rows: seq<Option<ExhaustRow>>
    /** `self.result`: set by a successful OK. */
    var result: Option<seq<ExhaustPort>>

    /** The dialog opened on the ship's stored exhaust ports. */
    constructor (str: FloatFormatter, current: seq<ExhaustPort>)
      ensures rows == Present(InitialExhaustRows(str, current)) && result == None
    {
      var rs: seq<Option<ExhaustRow>> := [];
      if current == [] {
        rs := [Some(DefaultExhaustRow)];
      } else {
        ghost var want := InitialExhaustRows(str, current);
        var i := 0;
        while i < |current|
          invariant 0 <= i <= |current|
          invariant rs == Present(want)[..i]
        {
          PresentSnoc(want, i, rs);
          rs := rs + [Some(WriteExhaustRow(str, current[i]))];
          i := i + 1;
        }
        assert Present(want)[..i] == Present(want);
      }
      rows := rs;
      result := None;
    }

    /** `add_row`: the given row, or the default when there is none. */
    method AddRow(row: Option<ExhaustRow>)
      modifies this
      ensures rows == old(rows) + [Some(if row.Some? then row.value else DefaultExhaustRow)]
      ensures result == old(result)
    {
      var data := if row.Some? then row.value else DefaultExhaustRow;
      rows := rows + [Some(data)];
    }

    /** `remove_row`. */
    method RemoveRow(idx: nat)
      requires idx < |rows|
      modifies this
      ensures rows == old(rows)[idx := None] && result == old(result)
    {
      if rows[idx].None? {
        return;
      }
      rows := rows[idx := None];
    }

    /** `paste_position`: as the beam one, with the exhaust parser. */
    method PastePosition(idx: nat, clip: Option<string>) returns (err: Option<string>)
      modifies this
      ensures ExhaustPaste(clip).Err? ==> err == Some(ExhaustPaste(clip).error) && rows == old(rows)
      ensures ExhaustPaste(clip).Ok? && (idx >= |old(rows)| || old(rows)[idx].None?) ==>
        err == Some(PasteFailed) && rows == old(rows)
      ensures ExhaustPaste(clip).Ok? && idx < |old(rows)| && old(rows)[idx].Some? ==>
        var (x, y, z) := ExhaustPaste(clip).value;
        err == None && rows == old(rows)[idx := Some(old(rows)[idx].value.(x := x, y := y, z := z))]
      ensures result == old(result)
    {
      var pasted := PasteAt(rows, idx, ExhaustPaste(clip), PlaceExhaust);
      err, rows := pasted.0, pasted.1;
    }

    /** `on_ok`: every live row converted, in order, or the error message. */
    method OnOk(float: FloatParser) returns (r: Result<seq<ExhaustPort>>)
      modifies this
      ensures rows == old(rows)
      ensures ConvertAll(Live(rows), ExhaustReader(float)).None? ==> r == Err(ExhaustNumbersInvalid) && result == old(result)
      ensures ConvertAll(Live(rows), ExhaustReader(float)).Some? ==>
        r == Ok(ConvertAll(Live(rows), ExhaustReader(float)).value) && result == Some(r.value)
    {
      var ports := ConvertLive(rows, ExhaustReader(float));
      if ports.None? {
        return Err(ExhaustNumbersInvalid);
      }
      r := Ok(ports.value);
      result := ports;
    }
  }

  /** Pasting into a live row keeps the same rows live, with only that one's
      position changed. */
  lemma LiveReplace<R>(rows: seq<Option<R>>, idx: nat, v: R)
    requires idx < |rows| && rows[idx].Some?
    ensures Live(rows[idx := Some(v)]) == Live(rows[..idx]) + [v] + Live(rows[idx + 1..])
    ensures |Live(rows[idx := Some(v)])| == |Live(rows)|
  {
    LiveRemove(rows, idx);
    var rows' := rows[idx := Some(v)];
    LiveRemove(rows', idx);
    assert rows'[..idx] == rows[..idx] && rows'[idx + 1..] == rows[idx + 1..];
    var one: seq<Option<R>> := [Some(v)];
    var was: seq<Option<R>> := [rows[idx]];
    assert one[..0] == [] && was[..0] == [];
    assert Live(one) == [v] && Live(was) == [rows[idx].value];
  }

  // ---------------------------------------------------------------------
  // New ship

  // The two messages are written in pieces: the verifier does not look
  // inside a string literal of 45 characters or more.
  const RequiredMissing := "Side, Name, Key, " + "and ArtFileRoot are required."
  const ScalesInvalid := "MeshScale, RadarScale, " + "and ExclusionRadius must be numbers."

  lemma MessagesDiffer()
    ensures RequiredMissing != ScalesInvalid
  {
    assert RequiredMissing[0] == 'S' && ScalesInvalid[0] == 'M';
  }

  /** No upper-case ASCII letter: what `lower()` leaves. */
  predicate Folded(s: string) {
    forall i :: 0 <= i < |s| ==> !('A' <= s[i] <= 'Z')
  }

  lemma LowerFolded(s: string)
    ensures Folded(Lower(s))
  {
  }

  /** Folded text is its own lower case. */
  lemma FoldedLower(s: string)
    requires Folded(s)
    ensures Lower(s) == s
  {
  }

  lemma LowerConcat(a: string, b: string)
    ensures Lower(a + b) == Lower(a) + Lower(b)
  {
  }

  lemma {:induction false} ReplaceFolded(s: string, c: char, rep: string)
    requires Folded(s) && Folded(rep)
    ensures Folded(ReplaceChar(s, c, rep))
    decreases |s|
  {
    if s != [] {
      ReplaceFolded(s[1..], c, rep);
      var head := if s[0] == c then rep else [s[0]];
      var r := ReplaceChar(s, c, rep);
      assert r == head + ReplaceChar(s[1..], c, rep);
      forall i | 0 <= i < |r| ensures !('A' <= r[i] <= 'Z') {
        if i >= |head| {
          assert r[i] == ReplaceChar(s[1..], c, rep)[i - |head|];
        }
      }
    }
  }

  /** Replacing a character by one character keeps the length. */
  lemma {:induction false} ReplaceLength(s: string, c: char, rep: string)
    requires |rep| == 1
    ensures |ReplaceChar(s, c, rep)| == |s|
    decreases |s|
  {
    if s != [] {
      ReplaceLength(s[1..], c, rep);
    }
  }

  /** One part of a generated key: lower case, spaces as underscores. */
  function Slug(s: string): string {
    ReplaceChar(Lower(s), ' ', "_")
  }

  /** The key `update_key` makes: `f"{side}_{name}".lower().replace(" ", "_")`. */
  function GeneratedKey(side: string, name: string): string {
    ReplaceChar(Lower(side + "_" + name), ' ', "_")
  }

  /** A generated key is the side's slug and the name's slug joined by an
      underscore, as long as the two put together, with no space and no
      upper-case letter, and it never strips to nothing. */
  lemma GeneratedKeyShape(side: string, name: string)
    ensures GeneratedKey(side, name) == Slug(side) + "_" + Slug(name)
    ensures |GeneratedKey(side, name)| == |side| + 1 + |name|
    ensures ' ' !in GeneratedKey(side, name)
    ensures Lower(GeneratedKey(side, name)) == GeneratedKey(side, name)
    ensures Strip(GeneratedKey(side, name)) != []
  {
    var k := GeneratedKey(side, name);
    LowerConcat(side + "_", name);
    LowerConcat(side, "_");
    assert Lower("_") == "_";
    ReplaceCharConcat(Lower(side) + "_", Lower(name), ' ', "_");
    ReplaceCharConcat(Lower(side), "_", ' ', "_");
    assert ReplaceChar("_", ' ', "_") == "_";
    assert k == Slug(side) + "_" + Slug(name);
    ReplaceLength(Lower(side), ' ', "_");
    ReplaceLength(Lower(name), ' ', "_");
    LowerFolded(side + "_" + name);
    ReplaceFolded(Lower(side + "_" + name), ' ', "_");
    FoldedLower(k);
    assert k[|Slug(side)|] == '_';
    assert !IsSpace(k[|Slug(side)|]);
  }

  /** `update_key`, run when the side or the name changes: with both
      non-blank the key is generated from their stripped text, otherwise it
      stays as it was. */
  function UpdateKey(side: string, name: string, key: string): string {
    var s, n := Strip(side), Strip(name);
    if s != [] && n != [] then GeneratedKey(s, n) else key
  }

  /** With side and name both non-blank the key no longer depends on what
      it was, and it does not strip to nothing; with either blank it is left
      as it was; running `update_key` again changes nothing. */
  lemma UpdateKeyStable(side: string, name: string, key: string, other: string)
    ensures Strip(side) != [] && Strip(name) != [] ==>
      UpdateKey(side, name, key) == UpdateKey(side, name, other) && Strip(UpdateKey(side, name, key)) != []
    ensures Strip(side) == [] || Strip(name) == [] ==> UpdateKey(side, name, key) == key
    ensures UpdateKey(side, name, UpdateKey(side, name, key)) == UpdateKey(side, name, key)
  {
    GeneratedKeyShape(Strip(side), Strip(name));
  }

  /** A ship as the new-ship `on_ok` builds it from the dialog's fields. */
  datatype NewShip = NewShip(
    key: string, name: string, side: string, artfileroot: string,
    meshscale: real, radarscale: real, exclusionradius: real)

  /** The new-ship `on_ok`: the four names must not strip to nothing, then
      the three scales must go through `float()`. */
  function NewShipCheck(float: FloatParser, key: string, name: string, side: string, artfileroot: string,
                        meshscale: string, radarscale: string, exclusionradius: string): Result<NewShip>
  {
    var k, n, s, a := Strip(key), Strip(name), Strip(side), Strip(artfileroot);
    if k == [] || n == [] || s == [] || a == [] then Err(RequiredMissing)
    else
      var m, r, e := float(Strip(meshscale)), float(Strip(radarscale)), float(Strip(exclusionradius));
      if m.None? || r.None? || e.None? then Err(ScalesInvalid)
      else Ok(NewShip(k, n, s, a, m.value, r.value, e.value))
  }

  /** The required-field message comes exactly when one of key, name, side
      and art file root strips to nothing; the scales message exactly when
      those are all there and a scale is not a number; a new ship holds the
      stripped names, none of them empty, and the three numbers. */
  lemma NewShipCheckSpec(float: FloatParser, key: string, name: string, side: string, artfileroot: string,
                         meshscale: string, radarscale: string, exclusionradius: string)
    ensures var r := NewShipCheck(float, key, name, side, artfileroot, meshscale, radarscale, exclusionradius);
      (r == Err(RequiredMissing) <==>
        Strip(key) == [] || Strip(name) == [] || Strip(side) == [] || Strip(artfileroot) == [])
      && (r == Err(ScalesInvalid) <==>
        Strip(key) != [] && Strip(name) != [] && Strip(side) != [] && Strip(artfileroot) != []
        && (float(Strip(meshscale)).None? || float(Strip(radarscale)).None? || float(Strip(exclusionradius)).None?))
      && (r.Ok? ==>
        r.value.key == Strip(key) && r.value.name == Strip(name) && r.value.side == Strip(side)
        && r.value.artfileroot == Strip(artfileroot) && r.value.key != [] && r.value.name != []
        && r.value.side != [] && r.value.artfileroot != []
        && float(Strip(meshscale)) == Some(r.value.meshscale) && float(Strip(radarscale)) == Some(r.value.radarscale)
        && float(Strip(exclusionradius)) == Some(r.value.exclusionradius))
  {
    MessagesDiffer();
  }

  /** The fields every new ship starts with besides the dialog's. */
  const NewShipDefaults: Record := [
    ("hullpoints", VInt(0)), ("long_desc", VStr("")), ("tubecount", VInt(0)), ("baycount", VInt(0)),
    ("internalmapscale", VFloat("1.0")), ("internalmapw", VInt(0)), ("internalmaph", VInt(0)),
    ("internalsymmetry", VInt(1)), ("turn_rate", VFloat("0.0")), ("speed_coeff", VFloat("1.0")),
    ("scan_strength_coeff", VFloat("1.0")), ("ship_energy_cost", VFloat("1.0")),
    ("warp_energy_cost", VFloat("1.0")), ("jump_energy_cost", VFloat("1.0")), ("roles", VStr("")),
    ("drone_launch_timer", VInt(0))]

  /** `self.result` of the new-ship dialog as a dict, the floats written with `str`. */
  function ShipRecord(ship: NewShip, str: FloatFormatter): Record {
    [("key", VStr(ship.key)), ("name", VStr(ship.name)), ("side", VStr(ship.side)),
     ("artfileroot", VStr(ship.artfileroot)), ("meshscale", VFloat(str(ship.meshscale))),
     ("radarscale", VFloat(str(ship.radarscale))), ("exclusionradius", VFloat(str(ship.exclusionradius)))]
    + NewShipDefaults
  }

  /** The dict holds the dialog's seven fields and, after them, the defaults. */
  lemma ShipRecordFields(ship: NewShip, str: FloatFormatter)
    ensures var r := ShipRecord(ship, str);
      Get(r, "key") == Some(VStr(ship.key)) && Get(r, "name") == Some(VStr(ship.name))
      && Get(r, "side") == Some(VStr(ship.side)) && Get(r, "artfileroot") == Some(VStr(ship.artfileroot))
      && Get(r, "meshscale") == Some(VFloat(str(ship.meshscale)))
      && Get(r, "radarscale") == Some(VFloat(str(ship.radarscale)))
      && Get(r, "exclusionradius") == Some(VFloat(str(ship.exclusionradius)))
      && Get(r, "hullpoints") == Some(VInt(0)) && Get(r, "drone_launch_timer") == Some(VInt(0))
  {
    var r := ShipRecord(ship, str);
    assert "name"[0] != "side"[0] && "radarscale"[0] != "hullpoints"[0];
    GetFirst(r, 0, "key");
    GetFirst(r, 1, "name");
    GetFirst(r, 2, "side");
    GetFirst(r, 3, "artfileroot");
    GetFirst(r, 4, "meshscale");
    GetFirst(r, 5, "radarscale");
    GetFirst(r, 6, "exclusionradius");
    GetFirst(r, 7, "hullpoints");
    assert r[|r| - 1].0 == "drone_launch_timer";
    GetFirst(r, |r| - 1, "drone_launch_timer");
  }

  class NewShipDialog {
    var side: string
    var name: string
    var key: string
    var artfileroot: string
    var meshscale: string
    var radarscale: string
    var exclusionradius: string
    /** `self.result`: set by a successful OK. */
    var result: Option<NewShip>

    /** The fields as the dialog opens: the first known side (or `Unknown`)
        and fixed defaults; the key is empty, since `update_key` is only
        attached after the fields are set. */
    constructor (existingSides: seq<string>)
      ensures side == if existingSides == [] then "Unknown" else existingSides[0]
      ensures name == "New Ship" && key == "" && artfileroot == "unknown"
      ensures meshscale == "1" && radarscale == "1" && exclusionradius == "0" && result == None
    {
      side := if existingSides == [] then "Unknown" else existingSides[0];
      name := "New Ship";
      key := "";
      artfileroot := "unknown";
      meshscale, radarscale, exclusionradius := "1", "1", "0";
      result := None;
    }

    /** Typing a side: its trace runs `update_key`. */
    method SetSide(s: string)
      modifies this
      ensures side == s && key == UpdateKey(s, old(name), old(key))
      ensures name == old(name) && artfileroot == old(artfileroot) && meshscale == old(meshscale)
      ensures radarscale == old(radarscale) && exclusionradius == old(exclusionradius) && result == old(result)
    {
      side := s;
      key := UpdateKey(side, name, key);
    }

    /** Typing a name: its trace runs `update_key`. */
    method SetName(n: string)
      modifies this
      ensures name == n && key == UpdateKey(old(side), n, old(key))
      ensures side == old(side) && artfileroot == old(artfileroot) && meshscale == old(meshscale)
      ensures radarscale == old(radarscale) && exclusionradius == old(exclusionradius) && result == old(result)
    {
      name := n;
      key := UpdateKey(side, name, key);
    }

    /** `on_ok`: the check's message on an error, with `result` left alone;
        otherwise the new ship becomes `result`. */
    method OnOk(float: FloatParser) returns (err: Option<string>)
      modifies this
      ensures var c := NewShipCheck(float, key, name, side, artfileroot, meshscale, radarscale, exclusionradius);
        (c.Err? ==> err == Some(c.error) && result == old(result))
        && (c.Ok? ==> err == None && result == Some(c.value))
      ensures side == old(side) && name == old(name) && key == old(key) && artfileroot == old(artfileroot)
      ensures meshscale == old(meshscale) && radarscale == old(radarscale) && exclusionradius == old(exclusionradius)
    {
      var c := NewShipCheck(float, key, name, side, artfileroot, meshscale, radarscale, exclusionradius);
      if c.Err? {
        return Some(c.error);
      }
      result := Some(c.value);
      err := None;
    }
  }
}
