/**
 * The editor banner: a `"#OrionShipEditor": "…"` entry that the saver
 * replaces wherever it sits on a line of its own, or inserts right after
 * the first `{` of the file.
 */
module Banner {
  import opened Wrappers
  import opened PyText
  import opened Pattern
  import opened Render
  import opened Patcher

  const EditorVersion := "0.9.5"
  const GameVersion := "Artemis Cosmos v1.2.1"

  /** `_format_editor_banner_value`, with the time stamp passed in. */
  function BannerValue(timestamp: string): (r: string)
    ensures OccursAt(r, timestamp, 21)
  {
    var head := " This file edited on ";
    assert |head| == 21;
    head + timestamp + " by the Orion Ship Editor Program Version  "
      + EditorVersion + " for " + GameVersion
  }

  /** The key literal of the banner pattern, closing quote included. */
  const BannerKey := "#OrionShipEditor\""

  predicate IsEol(t: string, e: nat) { e == |t| || (e < |t| && t[e] == '\n') }

  /** The greedy `\s*` before `$` under MULTILINE: the last position in
      `[lo, hi]` that is the end of the text or sits before a newline. */
  function LastEolIn(t: string, lo: nat, hi: nat): (r: Option<nat>)
    requires lo <= hi <= |t|
    ensures r.Some? ==> lo <= r.value <= hi && IsEol(t, r.value) && forall e :: r.value < e <= hi ==> !IsEol(t, e)
    ensures r.None? ==> forall e :: lo <= e <= hi ==> !IsEol(t, e)
    decreases hi
  {
    if IsEol(t, hi) then Some(hi)
    else if hi == lo then None
    else LastEolIn(t, lo, hi - 1)
  }

  /** The tail `\s*,?\s*$` from `p`: the comma alternative is tried first,
      and a match without the comma must end in the first run of spaces. */
  function BannerTail(t: string, p: nat): (r: Option<nat>)
    requires p <= |t|
    ensures r.Some? ==> p <= r.value <= |t| && IsEol(t, r.value)
    ensures r.Some? ==> forall j :: p <= j < r.value ==> IsSpace(t[j]) || t[j] == ','
  {
    var w0 := WsRun(t, p);
    var withComma := if w0 < |t| && t[w0] == ',' then LastEolIn(t, w0 + 1, WsRun(t, w0 + 1)) else None;
    if withComma.Some? then withComma else LastEolIn(t, p, w0)
  }

  /** The quoted value from its opening quote at `m` and the tail after it:
      `"(?:\\.|[^"\\])*"\s*,?\s*$` without DOTALL. */
  function QuotedValueThenTail(t: string, m: nat): (r: Option<nat>)
    requires m < |t|
    ensures r.Some? ==> m < r.value <= |t| && IsEol(t, r.value)
  {
    match QuotedEnd(t, m + 1, '"', false)
    case None => None
    case Some(c) => BannerTail(t, c + 1)
  }

  /** From just after the key literal at `p`: `\s*:\s*` and the quoted value. */
  function ColonThenQuoted(t: string, p: nat): (r: Option<nat>)
    requires p <= |t|
    ensures r.Some? ==> p < r.value <= |t| && IsEol(t, r.value)
  {
    var k := WsRun(t, p);
    if k >= |t| || t[k] != ':' then None
    else
      var m := WsRun(t, k + 1);
      if m >= |t| || t[m] != '"' then None
      else QuotedValueThenTail(t, m)
  }

  /** After the indent at `i`: `"?#OrionShipEditor"` and the rest. */
  function KeyThenValue(t: string, i: nat): (r: Option<nat>)
    requires i <= |t|
    ensures r.Some? ==> i < r.value <= |t| && IsEol(t, r.value)
  {
    var j := if i < |t| && t[i] == '"' then i + 1 else i;
    if !OccursAt(t, BannerKey, j) then None
    else ColonThenQuoted(t, j + |BannerKey|)
  }

  /** The banner pattern
      `^(?P<indent>[ \t]*)"?#OrionShipEditor"\s*:\s*"(?:\\.|[^"\\])*"\s*,?\s*$`
      with MULTILINE tried at `s`: the end of the indent and of the match. */
  function BannerMatchAt(t: string, s: nat): (r: Option<(nat, nat)>)
    requires s <= |t|
    ensures r.Some? ==> (s == 0 || t[s - 1] == '\n') && s <= r.value.0 < r.value.1 <= |t|
    ensures r.Some? ==> r.value.0 == IndentEnd(t, s) && IsEol(t, r.value.1)
  {
    if !(s == 0 || t[s - 1] == '\n') then None
    else
      var i := IndentEnd(t, s);
      match KeyThenValue(t, i)
      case None => None
      case Some(e) => Some((i, e))
  }

  /** The greedy `[ \t]*` from `s`: the first position that is not a space
      or a tab. */
  function IndentEnd(t: string, s: nat): (r: nat)
    requires s <= |t|
    ensures s <= r <= |t| && (r == |t| || (t[r] != ' ' && t[r] != '\t'))
    ensures forall j :: s <= j < r ==> t[j] == ' ' || t[j] == '\t'
    decreases |t| - s
  {
    if s < |t| && (t[s] == ' ' || t[s] == '\t') then IndentEnd(t, s + 1) else s
  }

  /** An indent of spaces and tabs followed by anything else ends where the
      indent does. */
  lemma {:induction false} IndentEndAfter(t: string, s: nat, n: nat)
    requires s + n <= |t|
    requires forall j :: s <= j < s + n ==> t[j] == ' ' || t[j] == '\t'
    requires s + n == |t| || (t[s + n] != ' ' && t[s + n] != '\t')
    ensures IndentEnd(t, s) == s + n
    decreases n
  {
    if n > 0 {
      IndentEndAfter(t, s + 1, n - 1);
    }
  }

  /** `rx.search(text)`: the leftmost banner line at or after `s`. */
  function BannerSearch(t: string, s: nat): (r: Option<(nat, (nat, nat))>)
    requires s <= |t|
    ensures r.Some? ==> s <= r.value.0 <= |t| && BannerMatchAt(t, r.value.0) == Some(r.value.1)
    ensures r.Some? ==> forall s' :: s <= s' < r.value.0 ==> BannerMatchAt(t, s').None?
    ensures r.None? ==> forall s' :: s <= s' <= |t| ==> BannerMatchAt(t, s').None?
    decreases |t| - s
  {
    var here := BannerMatchAt(t, s);
    if here.Some? then Some((s, here.value))
    else if s == |t| then None
    else
      var r := BannerSearch(t, s + 1);
      assert forall s' :: s <= s' < s + 1 ==> BannerMatchAt(t, s').None? by {
        forall s' | s <= s' < s + 1 ensures BannerMatchAt(t, s').None? { assert s' == s; }
      }
      r
  }

  /** The banner entry the saver writes, with `banner` already escaped. */
  function BannerLine(indent: string, banner: string): string {
    indent + BannerOpen + banner + "\","
  }

  /** `_upsert_editor_banner_simple`: replace the first banner line, keeping
      its indent, or insert one after the first `{` in the file's line-break
      style; a text without `{` is left alone. */
  function UpsertBanner(text: string, value: string): string
  {
    var lb := if Contains(text, "\r\n") then "\r\n" else "\n";
    var banner := Escape(value);
    match BannerSearch(text, 0)
    case Some((s, m)) =>
      text[..s] + BannerLine(text[s..m.0], banner) + text[m.1..]
    case None =>
      var brace := Find(text, "{", 0);
      if brace == -1 then text
      else text[..brace + 1] + lb + BannerLine("  ", banner) + text[brace + 1..]
  }

  /** The fixed text of a banner line up to the opening quote of its value. */
  const BannerOpen := "\"" + BannerKey + ": \""

  lemma LineLayout(t: string, i: nat, banner: string, post: string)
    requires i <= |t| && t[i..] == BannerOpen + banner + "\"," + post
    ensures i + 23 + |banner| <= |t|
    ensures t[i] == '"' && OccursAt(t, BannerKey, i + 1) && t[i + 18] == ':' && t[i + 19] == ' ' && t[i + 20] == '"'
    ensures t[i + 21..i + 21 + |banner|] == banner && t[i + 21 + |banner|] == '"' && t[i + 22 + |banner|] == ','
    ensures t[i + 23 + |banner|..] == post
  {
    var rest := t[i..];
    var tail := banner + "\"," + post;
    assert rest == BannerOpen + tail;
    assert |BannerKey| == 17 && |BannerOpen| == 21;
    assert rest[..21] == BannerOpen;
    assert BannerOpen[1..18] == BannerKey;
    assert rest[1..18] == BannerKey;
    assert t[i + 1..i + 18] == rest[1..18];
    assert rest[21..] == tail;
    assert tail[..|banner|] == banner && tail[|banner|] == '"' && tail[|banner| + 1] == ',';
    assert tail[|banner| + 2..] == post;
  }

  /** After the closing quote at `c`, a comma and a line break (or the end
      of the text) complete the tail. */
  lemma TailAfterComma(t: string, c: nat, post: string)
    requires c + 2 <= |t| && t[c + 1] == ',' && t[c + 2..] == post
    requires post == [] || post[0] == '\n' || (|post| >= 2 && post[0] == '\r' && post[1] == '\n')
    ensures BannerTail(t, c + 1).Some?
  {
    assert WsRun(t, c + 1) == c + 1;
    var w1 := WsRun(t, c + 2);
    if post == [] {
      assert IsEol(t, c + 2);
    } else if post[0] == '\n' {
      assert t[c + 2] == '\n' && IsSpace(t[c + 2]);
      assert IsEol(t, c + 2);
    } else {
      assert t[c + 2] == '\r' && t[c + 3] == '\n' && IsSpace(t[c + 2]) && IsSpace(t[c + 3]);
      assert IsEol(t, c + 3) && c + 3 <= w1;
    }
  }

  /** The pattern tried at a line start `s` whose indent ends at `i`,
      where a banner entry the saver wrote begins. */
  lemma MatchAtLine(t: string, s: nat, i: nat, value: string, post: string)
    requires s <= i <= |t| && (s == 0 || t[s - 1] == '\n') && IndentEnd(t, s) == i
    requires t[i..] == BannerOpen + Escape(value) + "\"," + post
    requires post == [] || post[0] == '\n' || (|post| >= 2 && post[0] == '\r' && post[1] == '\n')
    ensures BannerMatchAt(t, s).Some?
  {
    KeyAfterIndent(t, i, value, post);
    LineStep(t, s, i);
  }

  /** From the end of the indent, a banner entry the saver wrote matches the
      key, the colon, the quoted value and the tail. */
  lemma KeyAfterIndent(t: string, i: nat, value: string, post: string)
    requires i <= |t| && t[i..] == BannerOpen + Escape(value) + "\"," + post
    requires post == [] || post[0] == '\n' || (|post| >= 2 && post[0] == '\r' && post[1] == '\n')
    ensures KeyThenValue(t, i).Some?
  {
    LineLayout(t, i, Escape(value), post);
    ColonAt(t, i + 18, value, post);
    KeyStep(t, i);
  }

  /** From the colon: `\s*:\s*`, then the quoted value and the tail. */
  lemma ColonAt(t: string, k: nat, value: string, post: string)
    requires k + 5 + |Escape(value)| <= |t|
    requires t[k] == ':' && t[k + 1] == ' ' && t[k + 2] == '"'
    requires t[k + 3..k + 3 + |Escape(value)|] == Escape(value) && t[k + 3 + |Escape(value)|] == '"'
    requires t[k + 4 + |Escape(value)|] == ',' && t[k + 5 + |Escape(value)|..] == post
    requires post == [] || post[0] == '\n' || (|post| >= 2 && post[0] == '\r' && post[1] == '\n')
    ensures ColonThenQuoted(t, k).Some?
  {
    assert WsRun(t, k) == k;
    assert WsRun(t, k + 2) == k + 2;
    assert WsRun(t, k + 1) == k + 2;
    EscapedEnd(t, k + 3, value);
    QuotedAfter(t, k + 2, |Escape(value)|, post);
  }

  /** The walk without DOTALL crosses the escaped value to its closing quote. */
  lemma EscapedEnd(t: string, i: nat, value: string)
    requires i + |Escape(value)| < |t|
    requires t[i..i + |Escape(value)|] == Escape(value) && t[i + |Escape(value)|] == '"'
    ensures QuotedEnd(t, i, '"', false) == Some(i + |Escape(value)|)
  {
    EscapeIsOnePass(value);
    QuotedEndEscaped(t, i, value, false);
  }

  /** From the opening quote of the value: a body of `n` characters, its
      closing quote, a comma and the tail. */
  lemma QuotedAfter(t: string, m: nat, n: nat, post: string)
    requires m + 3 + n <= |t| && QuotedEnd(t, m + 1, '"', false) == Some(m + 1 + n)
    requires t[m + 2 + n] == ',' && t[m + 3 + n..] == post
    requires post == [] || post[0] == '\n' || (|post| >= 2 && post[0] == '\r' && post[1] == '\n')
    ensures QuotedValueThenTail(t, m).Some?
  {
    TailAfterComma(t, m + 1 + n, post);
  }

  lemma KeyStep(t: string, i: nat)
    requires i + 18 <= |t| && t[i] == '"' && OccursAt(t, BannerKey, i + 1) && ColonThenQuoted(t, i + 18).Some?
    ensures KeyThenValue(t, i).Some?
  {
  }

  lemma LineStep(t: string, s: nat, i: nat)
    requires s <= i <= |t| && (s == 0 || t[s - 1] == '\n') && IndentEnd(t, s) == i
    requires KeyThenValue(t, i).Some?
    ensures BannerMatchAt(t, s).Some?
  {
    var e := KeyThenValue(t, i).value;
    assert BannerMatchAt(t, s) == Some((i, e));
  }

  /** A banner line the saver wrote, on a line of its own, matches the
      banner pattern again. */
  lemma BannerLineRecognized(pre: string, indent: string, value: string, post: string)
    requires pre == [] || pre[|pre| - 1] == '\n'
    requires forall j :: 0 <= j < |indent| ==> indent[j] == ' ' || indent[j] == '\t'
    requires post == [] || post[0] == '\n' || (|post| >= 2 && post[0] == '\r' && post[1] == '\n')
    ensures var t := pre + BannerLine(indent, Escape(value)) + post;
      BannerMatchAt(t, |pre|).Some?
  {
    var banner := Escape(value);
    var t := pre + BannerLine(indent, banner) + post;
    Splice(pre, BannerLine(indent, banner), post);
    BannerLineSplit(indent, banner, post);
    LineAt(t, |pre|, indent, value, post);
  }

  /** Where the middle of `pre + mid + post` starts, and what precedes it. */
  lemma Splice<T>(pre: seq<T>, mid: seq<T>, post: seq<T>)
    ensures var t := pre + mid + post;
      t[|pre|..] == mid + post && (|pre| > 0 ==> t[|pre| - 1] == pre[|pre| - 1])
  {
    var t := pre + mid + post;
    assert t[|pre|..] == mid + post;
  }

  lemma BannerLineSplit(indent: string, banner: string, post: string)
    ensures BannerLine(indent, banner) + post == indent + (BannerOpen + banner + "\"," + post)
    ensures (BannerOpen + banner + "\"," + post)[0] == '"'
  {
  }

  /** A line start `s` followed by an indent and a banner entry the saver
      wrote. */
  lemma LineAt(t: string, s: nat, indent: string, value: string, post: string)
    requires s <= |t| && (s == 0 || t[s - 1] == '\n')
    requires forall j :: 0 <= j < |indent| ==> indent[j] == ' ' || indent[j] == '\t'
    requires t[s..] == indent + (BannerOpen + Escape(value) + "\"," + post)
    requires (BannerOpen + Escape(value) + "\"," + post)[0] == '"'
    requires post == [] || post[0] == '\n' || (|post| >= 2 && post[0] == '\r' && post[1] == '\n')
    ensures BannerMatchAt(t, s).Some?
  {
    var rest := BannerOpen + Escape(value) + "\"," + post;
    assert t[s + |indent|..] == t[s..][|indent|..] == rest;
    forall j | s <= j < s + |indent| ensures t[j] == ' ' || t[j] == '\t' {
      assert t[j] == t[s..][j - s] == indent[j - s];
    }
    assert t[s + |indent|] == rest[0];
    IndentEndAfter(t, s, |indent|);
    MatchAtLine(t, s, s + |indent|, value, post);
  }

  /** Where the search finds a banner line: the first match, on a line of
      its own, after an indent of spaces and tabs. */
  lemma FoundLine(text: string, s: nat, i: nat, e: nat)
    requires BannerSearch(text, 0) == Some((s, (i, e)))
    ensures forall s' :: 0 <= s' < s ==> BannerMatchAt(text, s').None?
    ensures s <= i < e <= |text|
    ensures (s == 0 || text[s - 1] == '\n') && (e == |text| || text[e] == '\n')
    ensures forall j :: s <= j < i ==> text[j] == ' ' || text[j] == '\t'
  {
    var m := BannerMatchAt(text, s);
    assert m == Some((i, e));
    assert i == IndentEnd(text, s) && IsEol(text, e);
  }

  /** An existing banner line is replaced in place: the first one, on a
      line of its own, keeps its indent of spaces and tabs, and the text
      before and after it is kept byte for byte. */
  lemma UpsertReplacesFirst(text: string, value: string, s: nat, i: nat, e: nat)
    requires BannerSearch(text, 0) == Some((s, (i, e)))
    ensures forall s' :: 0 <= s' < s ==> BannerMatchAt(text, s').None?
    ensures s <= i < e <= |text|
    ensures (s == 0 || text[s - 1] == '\n') && (e == |text| || text[e] == '\n')
    ensures forall j :: s <= j < i ==> text[j] == ' ' || text[j] == '\t'
    ensures UpsertBanner(text, value) == text[..s] + BannerLine(text[s..i], Escape(value)) + text[e..]
  {
    FoundLine(text, s, i, e);
    assert UpsertBanner(text, value) == text[..s] + BannerLine(text[s..i], Escape(value)) + text[e..];
  }

  /** Without a banner line, one is inserted right after the first `{`, in
      the text's line-break style: CRLF exactly when the text has one. */
  lemma UpsertInsertsAfterBrace(text: string, value: string)
    requires BannerSearch(text, 0).None? && Find(text, "{", 0) != -1
    ensures var b := Find(text, "{", 0);
      var lb := if Contains(text, "\r\n") then "\r\n" else "\n";
      text[b] == '{' && (forall j :: 0 <= j < b ==> text[j] != '{')
      && UpsertBanner(text, value) == text[..b + 1] + lb + BannerLine("  ", Escape(value)) + text[b + 1..]
  {
    var b := Find(text, "{", 0);
    assert text[b..b + 1] == "{";
    forall j | 0 <= j < b ensures text[j] != '{' {
      if text[j] == '{' {
        assert text[j..j + 1] == "{";
        assert OccursAt(text, "{", j);
      }
    }
  }

  /** A text with neither a banner line nor a `{` is left alone. */
  lemma UpsertLeavesBraceless(text: string, value: string)
    requires BannerSearch(text, 0).None?
    requires forall j :: 0 <= j < |text| ==> text[j] != '{'
    ensures UpsertBanner(text, value) == text
  {
    FindAbsent(text, '{', 0);
    assert UpsertBanner(text, value) == text;
  }


  /** After a replacement the next save finds the banner line again and
      replaces it, instead of inserting a second one. */
  lemma UpsertReplacedIsFound(text: string, value: string)
    requires BannerSearch(text, 0).Some?
    ensures BannerSearch(UpsertBanner(text, value), 0).Some?
  {
    var found := BannerSearch(text, 0).value;
    var s, m := found.0, found.1;
    MatchParts(text, s, m.0, m.1);
    var t' := text[..s] + BannerLine(text[s..m.0], Escape(value)) + text[m.1..];
    BannerLineRecognized(text[..s], text[s..m.0], value, text[m.1..]);
    assert |text[..s]| == s;
    SearchFinds(t', s);
    assert UpsertBanner(text, value) == t';
  }

  /** What surrounds a match: a line break before it, an indent of spaces
      and tabs, and a line break or the end of the text after it. */
  lemma MatchParts(t: string, s: nat, i: nat, e: nat)
    requires s <= |t| && BannerMatchAt(t, s) == Some((i, e))
    ensures var pre, indent, post := t[..s], t[s..i], t[e..];
      (pre == [] || pre[|pre| - 1] == '\n')
      && (forall j :: 0 <= j < |indent| ==> indent[j] == ' ' || indent[j] == '\t')
      && (post == [] || post[0] == '\n')
  {
    assert forall j :: 0 <= j < i - s ==> t[s..i][j] == t[s + j];
    if s > 0 {
      assert t[..s][s - 1] == t[s - 1];
    }
    if e < |t| {
      assert t[e..][0] == t[e];
    }
  }

  /** A match anywhere means the search from the start finds one. */
  lemma SearchFinds(t: string, s: nat)
    requires s <= |t| && BannerMatchAt(t, s).Some?
    ensures BannerSearch(t, 0).Some?
  {
  }

  /** After an insertion right before a line break, the next save finds the
      inserted banner line and replaces it. */
  lemma UpsertInsertedIsFound(text: string, value: string)
    requires BannerSearch(text, 0).None? && Find(text, "{", 0) != -1
    requires var post := text[Find(text, "{", 0) + 1..];
      post == [] || post[0] == '\n' || (|post| >= 2 && post[0] == '\r' && post[1] == '\n')
    ensures BannerSearch(UpsertBanner(text, value), 0).Some?
  {
    var b := Find(text, "{", 0);
    var lb := if Contains(text, "\r\n") then "\r\n" else "\n";
    var pre := text[..b + 1] + lb;
    var t' := pre + BannerLine("  ", Escape(value)) + text[b + 1..];
    InsertedLine(text[..b + 1], lb, value, text[b + 1..]);
    assert UpsertBanner(text, value) == t';
  }

  /** The banner line inserted after a line break is found by the search. */
  lemma InsertedLine(head: string, lb: string, value: string, post: string)
    requires lb == "\r\n" || lb == "\n"
    requires post == [] || post[0] == '\n' || (|post| >= 2 && post[0] == '\r' && post[1] == '\n')
    ensures BannerSearch(head + lb + BannerLine("  ", Escape(value)) + post, 0).Some?
  {
    var pre := head + lb;
    assert pre[|pre| - 1] == lb[|lb| - 1] == '\n';
    BannerLineRecognized(pre, "  ", value, post);
    SearchFinds(pre + BannerLine("  ", Escape(value)) + post, |pre|);
  }
}
