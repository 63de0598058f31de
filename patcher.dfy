/**
 * The two patch primitives of the surgical saver: replace the scalar value
 * of the first matching key in a `{ … }` block, or the whole bracketed
 * list of the first matching key.
 */
module Patcher {
  import opened Wrappers
  import opened PyText
  import opened Records
  import opened Scanner
  import opened Pattern
  import opened Render

  /** `_patch_scalar_in_block`: the block with the value token of the first
      match replaced by `value`, and the number of replacements (`subn`
      with `count=1`). Everything before the token, the key, colon and
      comments included, and everything after it is kept. */
  function PatchScalar(block: string, keys: seq<string>, value: string): (r: (string, nat))
    ensures r.1 <= 1
    ensures r.1 == 0 <==> PatchSearch(block, keys, 0).None?
    ensures r.1 == 0 ==> r.0 == block
    ensures r.1 == 1 ==>
      var tok := PatchSearch(block, keys, 0).value.1;
      |r.0| == |block| - (tok.end - tok.start) + |value|
      && r.0[..tok.start] == block[..tok.start]
      && r.0[tok.start..tok.start + |value|] == value
      && r.0[tok.start + |value|..] == block[tok.end..]
  {
    match PatchSearch(block, keys, 0)
    case None => (block, 0)
    case Some((_, tok)) => (block[..tok.start] + value + block[tok.end..], 1)
  }

  /** A string rendered by `_repr_hjson_scalar` and spliced in at `q` is read
      back whole as the value token there, and its capture unescapes to the
      original string. */
  lemma RenderedStringReadWhole(pre: string, s: string, post: string, v: string)
    requires ReprScalar(VStr(s)) == Some(v)
    ensures |v| >= 2 && ValueAt(PatchValue, pre + v + post, |pre|) == Some(Token(|pre|, |pre| + |v|, v[1..|v| - 1]))
    ensures Unescape(v[1..|v| - 1]) == Some(s)
  {
    ReprString(s, v);
    EscapedReadWhole(pre, s, post, v);
  }

  /** `_repr_hjson_scalar` of a string is its one-pass escape in double
      quotes, and the body between the quotes unescapes to the string. */
  lemma ReprString(s: string, v: string)
    requires v == ReprScalar(VStr(s)).value
    ensures v == "\"" + EscapeOnePass(s) + "\"" && Unescape(v[1..|v| - 1]) == Some(s)
  {
    EscapeIsOnePass(s);
    QuotedInner(EscapeOnePass(s));
    UnescapeEscape(s);
  }

  /** The escaped body of `s`, quoted and spliced in after `pre`, is read
      back as one double-quoted token. */
  lemma EscapedReadWhole(pre: string, s: string, post: string, v: string)
    requires v == "\"" + EscapeOnePass(s) + "\""
    ensures ValueAt(PatchValue, pre + v + post, |pre|) == Some(Token(|pre|, |pre| + |v|, v[1..|v| - 1]))
  {
    var e := EscapeOnePass(s);
    SpliceQuoted(pre, e, post);
    QuotedInner(e);
    EscapedTokenAt(pre + v + post, |pre|, s, e);
  }

  /** An opening quote at `q`, the escaped body `e` of `s` and a closing
      quote make one double-quoted token. */
  lemma EscapedTokenAt(t: string, q: nat, s: string, e: string)
    requires e == EscapeOnePass(s)
    requires q + 1 + |e| < |t| && t[q] == '"' && t[q + 1..q + 1 + |e|] == e && t[q + 1 + |e|] == '"'
    ensures ValueAt(PatchValue, t, q) == Some(Token(q, q + |e| + 2, e))
  {
    QuotedEndEscaped(t, q + 1, s, true);
    ValueAtDoubleQuoted(t, q, |e|, e);
  }

  /** The body of a quoted string is what lies between its quotes. */
  lemma QuotedInner(e: string)
    ensures var v := "\"" + e + "\""; |v| == |e| + 2 && v[1..|v| - 1] == e
  {
    var v := "\"" + e + "\"";
    assert v[1..|v| - 1] == e;
  }

  /** Where a quoted string spliced in after `pre` puts its quotes and body. */
  lemma SpliceQuoted(pre: string, e: string, post: string)
    ensures var t := pre + ("\"" + e + "\"") + post;
      |pre| + 1 + |e| < |t| && t[|pre|] == '"' && t[|pre| + 1..|pre| + 1 + |e|] == e && t[|pre| + 1 + |e|] == '"'
  {
    var t := pre + ("\"" + e + "\"") + post;
    assert t[|pre| + 1..|pre| + 1 + |e|] == e;
  }

  /** A double-quoted token whose closing quote is `n` characters on, and
      whose body spells `c`. */
  lemma ValueAtDoubleQuoted(t: string, q: nat, n: nat, c: string)
    requires q + 1 + n < |t| && t[q] == '"' && QuotedEnd(t, q + 1, '"', true) == Some(q + 1 + n)
    requires t[q + 1..q + 1 + n] == c
    ensures ValueAt(PatchValue, t, q) == Some(Token(q, q + n + 2, c))
  {
  }

  /** The quoted-string walk crosses an escaped body to its closing quote. */
  lemma QuotedEndEscaped(t: string, i: nat, s: string, dotAll: bool)
    requires i + |EscapeOnePass(s)| < |t|
    requires t[i..i + |EscapeOnePass(s)|] == EscapeOnePass(s) && t[i + |EscapeOnePass(s)|] == '"'
    ensures QuotedEnd(t, i, '"', dotAll) == Some(i + |EscapeOnePass(s)|)
  {
    WalkableEscape(s);
    QuotedEndWalk(t, i, EscapeOnePass(s), dotAll);
  }

  /** A string body the quoted-string walk crosses without stopping: no bare
      quote, and every backslash followed by a character other than a newline. */
  predicate Walkable(e: string)
  {
    if e == [] then true
    else if e[0] == '\\' then |e| >= 2 && e[1] != '\n' && Walkable(e[2..])
    else e[0] != '"' && Walkable(e[1..])
  }

  lemma {:induction false} WalkableEscape(s: string)
    ensures Walkable(EscapeOnePass(s))
  {
    if s != [] {
      var c := EscapeChar(s[0]);
      var rest := EscapeOnePass(s[1..]);
      assert EscapeOnePass(s) == c + rest;
      WalkableEscape(s[1..]);
      assert (c + rest)[|c|..] == rest;
    }
  }

  lemma {:induction false} QuotedEndWalk(t: string, i: nat, e: string, dotAll: bool)
    requires Walkable(e) && i + |e| < |t| && t[i..i + |e|] == e && t[i + |e|] == '"'
    ensures QuotedEnd(t, i, '"', dotAll) == Some(i + |e|)
    decreases |e|
  {
    if e != [] {
      var k := if e[0] == '\\' then 2 else 1;
      assert t[i] == e[0];
      if k == 2 {
        assert t[i + 1] == e[1];
      }
      assert t[i + k..i + |e|] == e[k..];
      QuotedEndWalk(t, i + k, e[k..], dotAll);
    }
  }

  /** What the list patcher puts in place of the old list: the caller's
      literal text, or a list of values to render with the file's indent. */
  datatype NewList = NewList(str: Option<string>, obj: Option<seq<Value>>)

  /** The list rendered in the file's indentation, `_repr_hjson_list_pretty`
      with the default two-space step. */
  function RenderObj(items: seq<Value>, baseIndent: string): string {
    ListPretty(VList(items), baseIndent, "  ")
  }

  /** The replacement for a balanced list: the rendered object when only an
      object was given, otherwise the text, `[]` when there is none. */
  function ListReplacement(nl: NewList, baseIndent: string): string {
    if nl.str.None? && nl.obj.Some? then RenderObj(nl.obj.value, baseIndent)
    else if nl.str.Some? then nl.str.value
    else "[]"
  }

  /** The scalar fallback's value: the rendered object when only an object
      was given, otherwise the text, `[]` when it is missing or empty. */
  function FallbackValue(nl: NewList, baseIndent: string): string {
    if nl.str.None? && nl.obj.Some? then RenderObj(nl.obj.value, baseIndent)
    else if nl.str.None? || nl.str.value == "" then "[]"
    else nl.str.value
  }

  /** Where the list patcher stands after the head match: the end of the
      head, the indent of its line, and the first significant position. */
  datatype ListSite = ListSite(pos: nat, baseIndent: string, open: nat)

  function FindListSite(block: string, keys: seq<string>): (r: Option<ListSite>)
    ensures r.Some? <==> HeadSearch(block, keys, 0).Some?
    ensures r.Some? ==>
      var pos := HeadSearch(block, keys, 0).value.1;
      r.value.pos == pos && r.value.open == NextSignificant(block, pos)
      && r.value.baseIndent == Indent(block[LineStart(block, pos)..pos])
  {
    match HeadSearch(block, keys, 0)
    case None => None
    case Some((_, pos)) =>
      Some(ListSite(pos, Indent(block[LineStart(block, pos)..pos]), NextSignificant(block, pos)))
  }

  /** `_patch_list_in_block`: the block with the bracketed list after the
      first matching key replaced, and the number of replacements. A value
      that is not a list falls back to the scalar patcher. */
  function PatchList(block: string, keys: seq<string>, nl: NewList): (r: (string, nat))
    ensures r.1 <= 1
    ensures r.1 == 0 ==> r.0 == block
  {
    match FindListSite(block, keys)
    case None => (block, 0)
    case Some(site) =>
      var i := site.open;
      if i < |block| && block[i] != '[' then PatchScalar(block, keys, FallbackValue(nl, site.baseIndent))
      else if i >= |block| then (block, 0)
      else
        match Balance(ListDialect, block, i)
        case None => (block, 0)
        case Some(end) => (block[..i] + ListReplacement(nl, site.baseIndent) + block[end..], 1)
  }

  /** When the first matching key holds a list, exactly that list is
      replaced: the text before its `[`, where only whitespace and comments
      follow the head, and the text after its balancing `]` are kept. */
  lemma PatchListReplacesBracketed(block: string, keys: seq<string>, nl: NewList)
    requires FindListSite(block, keys).Some?
    requires var i := FindListSite(block, keys).value.open; i < |block| && block[i] == '['
    requires var i := FindListSite(block, keys).value.open; Balance(ListDialect, block, i).Some?
    ensures var site := FindListSite(block, keys).value;
      var i := site.open;
      var end := Balance(ListDialect, block, i).value;
      var rep := ListReplacement(nl, site.baseIndent);
      var r := PatchList(block, keys, nl);
      r.1 == 1 && site.pos <= i < end <= |block| && block[end - 1] == ']'
      && r.0[..i] == block[..i] && r.0[i..i + |rep|] == rep && r.0[i + |rep|..] == block[end..]
      && NextSignificant(block, site.pos) == i
  {
  }

  /** The other outcomes: no head match or a `[` that never balances leave
      the block alone with no replacement, and a value that is not a list
      is handed to the scalar patcher with the fallback text. */
  lemma PatchListOtherCases(block: string, keys: seq<string>, nl: NewList)
    ensures HeadSearch(block, keys, 0).None? ==> PatchList(block, keys, nl) == (block, 0)
    ensures FindListSite(block, keys).Some? ==>
      var site := FindListSite(block, keys).value;
      (site.open >= |block| ==> PatchList(block, keys, nl) == (block, 0))
      && (site.open < |block| && block[site.open] == '[' && Balance(ListDialect, block, site.open).None?
          ==> PatchList(block, keys, nl) == (block, 0))
      && (site.open < |block| && block[site.open] != '['
          ==> PatchList(block, keys, nl) == PatchScalar(block, keys, FallbackValue(nl, site.baseIndent)))
  {
  }

  /** A rendered object list is itself bracketed and ends at the file's
      indent: it opens with `[` and its last line is `baseIndent]`. */
  lemma RenderObjBracketed(items: seq<Value>, baseIndent: string)
    ensures var s := RenderObj(items, baseIndent);
      |s| >= |baseIndent| + 2 && s[0] == '[' && EndsWith(s, baseIndent + "]")
  {
    ListLinesShape(VList(items), baseIndent, "  ");
    var ls := ListLines(VList(items), baseIndent, "  ");
    JoinFirstLast(ls, "\n");
  }

  /** The first and last lines of a joined text are its ends. */
  lemma {:induction false} JoinFirstLast(ls: seq<string>, sep: string)
    requires |ls| >= 2 && ls[0] != []
    ensures var s := JoinWith(ls, sep);
      |s| >= |ls[0]| + |ls[|ls| - 1]| && s[0] == ls[0][0] && s[|s| - |ls[|ls| - 1]|..] == ls[|ls| - 1]
  {
    JoinCons(ls[0], ls[1..], sep);
    assert ls == [ls[0]] + ls[1..];
    JoinLast(ls[1..], sep);
  }

  lemma {:induction false} JoinLast(ls: seq<string>, sep: string)
    requires |ls| >= 1
    ensures var s := JoinWith(ls, sep);
      |s| >= |ls[|ls| - 1]| && s[|s| - |ls[|ls| - 1]|..] == ls[|ls| - 1]
  {
    if |ls| > 1 {
      JoinCons(ls[0], ls[1..], sep);
      assert ls == [ls[0]] + ls[1..];
      JoinLast(ls[1..], sep);
    }
  }

  /** `_patch_list_in_block` as the source runs it: the skipping loop after
      the head, then the bracket balance. */
  method PatchListInBlock(block: string, keys: seq<string>, nl: NewList) returns (r: (string, nat))
    ensures r == PatchList(block, keys, nl)
  {
    var mh := HeadSearch(block, keys, 0);
    if mh.None? {
      return (block, 0);
    }
    var pos := mh.value.1;
    var n := |block|;
    var lineStart := LineStart(block, pos);
    var baseIndent := Indent(block[lineStart..pos]);
    var i := SkipAfterHead(block, pos);
    ghost var site := ListSite(pos, baseIndent, i);
    assert FindListSite(block, keys) == Some(site);
    if i < n && block[i] != '[' {
      var value: string;
      if nl.str.None? && nl.obj.Some? {
        value := RenderListPretty(VList(nl.obj.value), baseIndent, "  ");
      } else if nl.str.None? || nl.str.value == "" {
        value := "[]";
      } else {
        value := nl.str.value;
      }
      assert value == FallbackValue(nl, baseIndent);
      return PatchScalar(block, keys, value);
    }
    if i >= n {
      return (block, 0);
    }
    var end := BalanceScan(ListDialect, block, i);
    if end.None? {
      return (block, 0);
    }
    var rendered: string;
    if nl.str.None? && nl.obj.Some? {
      rendered := RenderListPretty(VList(nl.obj.value), baseIndent, "  ");
    } else {
      rendered := if nl.str.Some? then nl.str.value else "[]";
    }
    assert rendered == ListReplacement(nl, baseIndent);
    return (block[..i] + rendered + block[end.value..], 1);
  }

  /** The loop of `_patch_list_in_block` that steps over comments and
      whitespace after the head; a line comment is left at its newline,
      which the next turn skips as whitespace. It stops at the first other
      character. */
  method SkipAfterHead(block: string, pos: nat) returns (i: nat)
    requires pos <= |block|
    ensures i == NextSignificant(block, pos)
  {
    i := pos;
    while i < |block|
      invariant pos <= i <= |block|
      invariant NextSignificant(block, i) == NextSignificant(block, pos)
    {
      if LineCommentAt(block, i) {
        SkipPastLineComment(block, i);
        i := LineCommentEnd(block, i);
        continue;
      }
      if BlockCommentAt(block, i) {
        i := AfterBlockComment(block, i);
        continue;
      }
      if IsSpace(block[i]) {
        i := i + 1;
        continue;
      }
      break;
    }
  }

  /** Stopping a line comment at its newline and skipping that newline as
      whitespace leads to the same significant position. */
  lemma SkipPastLineComment(t: string, i: nat)
    requires LineCommentAt(t, i)
    ensures NextSignificant(t, LineCommentEnd(t, i)) == NextSignificant(t, i)
  {
    var e := LineCommentEnd(t, i);
    if e < |t| {
      assert IsSpace(t[e]);
    }
  }
}
