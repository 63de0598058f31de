/**
 * The HJSON renderers of the surgical patcher: one-line scalars and lists,
 * and the multi-line pretty printers for maps and lists used for new ship
 * blocks and for list fields that hold maps.
 */
module Render {
  import opened Wrappers
  import opened PyText
  import opened Records

  /** `str(s).replace("\\", "\\\\").replace('"', '\\"')`. */
  function Escape(s: string): string {
    ReplaceChar(ReplaceChar(s, '\\', "\\\\"), '"', "\\\"")
  }

  function EscapeChar(c: char): string {
    if c == '\\' then "\\\\" else if c == '"' then "\\\"" else [c]
  }

  /** The same escaping as one pass over the characters. */
  function EscapeOnePass(s: string): string {
    if s == [] then [] else EscapeChar(s[0]) + EscapeOnePass(s[1..])
  }

  /** The two `replace` calls in a row escape each character independently. */
  lemma {:induction false} EscapeIsOnePass(s: string)
    ensures Escape(s) == EscapeOnePass(s)
  {
    if s != [] {
      EscapeIsOnePass(s[1..]);
      var first := if s[0] == '\\' then "\\\\" else [s[0]];
      assert ReplaceChar(s, '\\', "\\\\") == first + ReplaceChar(s[1..], '\\', "\\\\");
      ReplaceCharConcat(first, ReplaceChar(s[1..], '\\', "\\\\"), '"', "\\\"");
      assert ReplaceChar(first, '"', "\\\"") == EscapeChar(s[0]) by {
        if s[0] == '\\' {
          assert ReplaceChar("\\\\", '"', "\\\"") == "\\" + ReplaceChar("\\", '"', "\\\"");
        } else {
          assert ReplaceChar([s[0]], '"', "\\\"") == (if s[0] == '"' then "\\\"" else [s[0]]) + ReplaceChar([], '"', "\\\"");
        }
      }
    }
  }

  /** Reading a JSON string body back: a backslash stands for the character
      after it. None when a backslash ends the body. */
  function Unescape(s: string): Option<string>
  {
    if s == [] then Some([])
    else if s[0] == '\\' then
      if |s| < 2 then None
      else match Unescape(s[2..]) case None => None case Some(r) => Some([s[1]] + r)
    else match Unescape(s[1..]) case None => None case Some(r) => Some([s[0]] + r)
  }

  lemma {:induction false} UnescapeEscape(s: string)
    ensures Unescape(EscapeOnePass(s)) == Some(s)
  {
    if s != [] {
      UnescapeEscape(s[1..]);
      var e := EscapeOnePass(s);
      assert e == EscapeChar(s[0]) + EscapeOnePass(s[1..]);
      if s[0] == '\\' || s[0] == '"' {
        assert e[0] == '\\' && e[1] == s[0];
        assert e[2..] == EscapeOnePass(s[1..]);
        assert s == [s[0]] + s[1..];
      } else {
        assert e[0] == s[0];
        assert e[1..] == EscapeOnePass(s[1..]);
        assert s == [s[0]] + s[1..];
      }
    }
  }

  /** `_repr_hjson_scalar`: `true`/`false`, `str()` of a number, and any
      other value as a quoted, escaped `str()`; None (TypeError) for a
      list or a map. */
  function ReprScalar(v: Value): (r: Option<string>)
    ensures r.None? <==> v.VList? || v.VMap?
    ensures r.Some? ==> r.value != []
  {
    match v
    case VList(_) => None
    case VMap(_) => None
    case VBool(b) => Some(if b then "true" else "false")
    case VInt(i) => Some(IntToString(i))
    case VFloat(repr) => Some(if repr == [] then "0.0" else repr)
    case VStr(s) => Some("\"" + Escape(s) + "\"")
    case VNull => Some("\"" + Escape("None") + "\"")
  }

  /** A rendered string or None is a quoted JSON string that reads back as
      the value's `str()`; a rendered integer reads back as the integer. */
  lemma ReprScalarRoundTrip(v: Value)
    requires v.VStr? || v.VNull? || v.VInt?
    ensures v.VInt? ==> ParseInt(ReprScalar(v).value) == Some(v.i)
    ensures !v.VInt? ==> var r := ReprScalar(v).value;
      |r| >= 2 && r[0] == '"' && r[|r| - 1] == '"' && Unescape(r[1..|r| - 1]) == Some(PyStr(v))
  {
    if v.VInt? {
      IntRoundTrip(v.i);
    } else {
      var s := PyStr(v);
      EscapeIsOnePass(s);
      UnescapeEscape(s);
      var r := ReprScalar(v).value;
      assert r[1..|r| - 1] == Escape(s);
    }
  }

  /** The scalar renderings of `items`, None if any of them is a container. */
  function ReprItems(items: seq<Value>): (r: Option<seq<string>>)
    ensures r.Some? <==> forall i :: 0 <= i < |items| ==> !items[i].VList? && !items[i].VMap?
    ensures r.Some? ==> |r.value| == |items| && forall i :: 0 <= i < |items| ==> Some(r.value[i]) == ReprScalar(items[i])
  {
    if items == [] then Some([])
    else
      match (ReprScalar(items[0]), ReprItems(items[1..]))
      case (Some(h), Some(t)) =>
        assert forall i :: 1 <= i < |items| ==> items[i] == items[1..][i - 1];
        Some([h] + t)
      case (None, _) => None
      case (_, None) =>
        assert forall i :: 1 <= i < |items| ==> items[i] == items[1..][i - 1];
        None
  }

  /** `_repr_hjson_list`: `[a, b, c]` of scalar renderings; None (TypeError)
      when an element is a container. */
  function ReprList(items: seq<Value>): (r: Option<string>)
    ensures r.Some? <==> forall i :: 0 <= i < |items| ==> !items[i].VList? && !items[i].VMap?
    ensures r.Some? ==> |r.value| >= 2 && r.value[0] == '[' && r.value[|r.value| - 1] == ']'
  {
    match ReprItems(items)
    case None => None
    case Some(parts) => Some("[" + JoinWith(parts, ", ") + "]")
  }

  /** A string value renders as one quoted token. */
  function KeyStr(k: string): string {
    "\"" + ReplaceChar(k, '"', "\\\"") + "\""
  }

  function Indented(inner: string, rs: seq<string>): (r: seq<string>)
    ensures |r| == |rs| && forall i :: 0 <= i < |rs| ==> r[i] == inner + rs[i]
  {
    seq(|rs|, i requires 0 <= i < |rs| => inner + rs[i])
  }

  function AppendComma(lines: seq<string>): (r: seq<string>)
    requires lines != []
    ensures |r| == |lines| && r[..|r| - 1] == lines[..|lines| - 1] && r[|r| - 1] == lines[|lines| - 1] + ","
  {
    lines[..|lines| - 1] + [lines[|lines| - 1] + ","]
  }

  /** The lines of one map entry or list element before its comma: a
      single-line value goes on the prefix line; a multi-line value has its
      first line there and the rest indented by `inner`. */
  function BareBlockLines(inner: string, prefix: string, valStr: string): (ls: seq<string>)
    ensures ls != []
  {
    if '\n' in valStr then
      NewlineHasLines(valStr);
      var vl := SplitLines(valStr);
      [inner + prefix + vl[0]] + Indented(inner, vl[1..])
    else [inner + prefix + valStr]
  }

  /** The element's lines with the comma after the value. */
  function BlockLines(inner: string, prefix: string, valStr: string): (ls: seq<string>)
    ensures ls != [] && EndsWith(ls[|ls| - 1], ",")
  {
    AppendComma(BareBlockLines(inner, prefix, valStr))
  }

  /** `_repr_hjson_value_pretty`. */
  function ValuePretty(v: Value, indent: string, step: string): string
    decreases v, 2, 0
  {
    match v
    case VMap(_) => MapPretty(v, indent, step)
    case VList(_) => ListPretty(v, indent, step)
    case _ => ReprScalar(v).value
  }

  /** The entry lines of the first `n` entries of a map. */
  function MapBody(v: Value, n: nat, inner: string, step: string): seq<string>
    requires v.VMap? && n <= |v.entries|
    decreases v, 0, n
  {
    if n == 0 then []
    else
      var e := v.entries[n - 1];
      assert e in v.entries;
      MapBody(v, n - 1, inner, step) + BlockLines(inner, KeyStr(e.0) + ": ", ValuePretty(e.1, inner, step))
  }

  /** Drop the comma after the last entry, when there is one. */
  function StripFinalComma(lines: seq<string>): seq<string>
  {
    if |lines| > 1 && EndsWith(lines[|lines| - 1], ",") then
      lines[..|lines| - 1] + [lines[|lines| - 1][..|lines[|lines| - 1]| - 1]]
    else lines
  }

  function MapLines(v: Value, indent: string, step: string): seq<string>
    requires v.VMap?
    decreases v, 1, 0
  {
    StripFinalComma(["{"] + MapBody(v, |v.entries|, indent + step, step)) + [indent + "}"]
  }

  /** `_repr_hjson_map_pretty`. */
  function MapPretty(v: Value, indent: string, step: string): string
    requires v.VMap?
    decreases v, 1, 1
  {
    JoinWith(MapLines(v, indent, step), "\n")
  }

  /** The element lines of the first `n` elements of a list. */
  function ListBody(v: Value, n: nat, inner: string, step: string): seq<string>
    requires v.VList? && n <= |v.items|
    decreases v, 0, n
  {
    if n == 0 then []
    else
      var it := v.items[n - 1];
      assert it in v.items;
      ListBody(v, n - 1, inner, step) + BlockLines(inner, "", ValuePretty(it, inner, step))
  }

  function ListLines(v: Value, indent: string, step: string): seq<string>
    requires v.VList?
    decreases v, 1, 0
  {
    ["["] + ListBody(v, |v.items|, indent + step, step) + [indent + "]"]
  }

  /** `_repr_hjson_list_pretty`. */
  function ListPretty(v: Value, indent: string, step: string): string
    requires v.VList?
    decreases v, 1, 1
  {
    JoinWith(ListLines(v, indent, step), "\n")
  }

  /** The pretty map opens with `{`, closes with the indent and `}`, and its
      last entry loses exactly the comma that was added after it. */
  lemma MapLinesShape(v: Value, indent: string, step: string)
    requires v.VMap?
    ensures var ls := MapLines(v, indent, step);
      |ls| >= 2 && ls[0] == "{" && ls[|ls| - 1] == indent + "}"
      && (v.entries != [] ==>
            var e := v.entries[|v.entries| - 1];
            var inner := indent + step;
            var last := BareBlockLines(inner, KeyStr(e.0) + ": ", ValuePretty(e.1, inner, step));
            ls[|ls| - 2] == last[|last| - 1])
  {
    var inner := indent + step;
    var body := MapBody(v, |v.entries|, inner, step);
    var pre := ["{"] + body;
    if v.entries != [] {
      var e := v.entries[|v.entries| - 1];
      var bl := BlockLines(inner, KeyStr(e.0) + ": ", ValuePretty(e.1, inner, step));
      assert pre[|pre| - 1] == bl[|bl| - 1];
      var bare := BareBlockLines(inner, KeyStr(e.0) + ": ", ValuePretty(e.1, inner, step));
      assert bl[|bl| - 1] == bare[|bare| - 1] + ",";
      var stripped := StripFinalComma(pre);
      assert stripped[|stripped| - 1] == bare[|bare| - 1];
    }
  }

  /** The pretty list keeps the comma after its last element. */
  lemma ListLinesShape(v: Value, indent: string, step: string)
    requires v.VList?
    ensures var ls := ListLines(v, indent, step);
      |ls| >= 2 && ls[0] == "[" && ls[|ls| - 1] == indent + "]"
      && (v.items != [] ==> EndsWith(ls[|ls| - 2], ","))
  {
    var inner := indent + step;
    var body := ListBody(v, |v.items|, inner, step);
    if v.items != [] {
      var it := v.items[|v.items| - 1];
      var bl := BlockLines(inner, "", ValuePretty(it, inner, step));
      var ls := ListLines(v, indent, step);
      assert ls[|ls| - 2] == bl[|bl| - 1];
    }
  }

  /** `_repr_hjson_value_pretty`, as the recursive methods run it. */
  method RenderValuePretty(v: Value, indent: string, step: string) returns (s: string)
    ensures s == ValuePretty(v, indent, step)
    decreases v, 2
  {
    match v {
      case VMap(_) =>
        s := RenderMapPretty(v, indent, step);
      case VList(_) =>
        s := RenderListPretty(v, indent, step);
      case _ =>
        s := ReprScalar(v).value;
    }
  }

  lemma IndentedSnoc(inner: string, rest: seq<string>, j: nat)
    requires j < |rest|
    ensures Indented(inner, rest[..j + 1]) == Indented(inner, rest[..j]) + [inner + rest[j]]
  {
  }

  /** Append the lines of one element to `lines`, as the printers' loop bodies do. */
  method AppendBlock(lines: seq<string>, inner: string, prefix: string, valStr: string) returns (out: seq<string>)
    ensures out == lines + BlockLines(inner, prefix, valStr)
  {
    if '\n' in valStr {
      NewlineHasLines(valStr);
      var vl := SplitLines(valStr);
      var acc := [inner + prefix + vl[0]];
      var rest := vl[1..];
      for j := 0 to |rest|
        invariant acc == [inner + prefix + vl[0]] + Indented(inner, rest[..j])
      {
        IndentedSnoc(inner, rest, j);
        acc := acc + [inner + rest[j]];
      }
      assert rest[..|rest|] == rest;
      assert acc == BareBlockLines(inner, prefix, valStr);
      out := lines + (acc[..|acc| - 1] + [acc[|acc| - 1] + ","]);
    } else {
      out := lines + [inner + prefix + valStr + ","];
    }
  }

  lemma MapBodySnoc(head: seq<string>, v: Value, i: nat, inner: string, step: string)
    requires v.VMap? && i < |v.entries|
    ensures head + MapBody(v, i + 1, inner, step)
      == head + MapBody(v, i, inner, step) + BlockLines(inner, KeyStr(v.entries[i].0) + ": ", ValuePretty(v.entries[i].1, inner, step))
  {
  }

  lemma ListBodySnoc(head: seq<string>, v: Value, i: nat, inner: string, step: string)
    requires v.VList? && i < |v.items|
    ensures head + ListBody(v, i + 1, inner, step)
      == head + ListBody(v, i, inner, step) + BlockLines(inner, "", ValuePretty(v.items[i], inner, step))
  {
  }

  /** One map entry: `inner`, the quoted key, `: `, the value's lines and a comma. */
  method AppendEntry(lines: seq<string>, e: (string, Value), inner: string, step: string) returns (out: seq<string>)
    ensures out == lines + BlockLines(inner, KeyStr(e.0) + ": ", ValuePretty(e.1, inner, step))
    decreases e, 3
  {
    var valStr := RenderValuePretty(e.1, inner, step);
    out := AppendBlock(lines, inner, KeyStr(e.0) + ": ", valStr);
  }

  /** The printers' loop over the entries of a map: each entry's lines
      are appended to `head`. */
  method AppendMapEntries(head: seq<string>, v: Value, inner: string, step: string) returns (lines: seq<string>)
    requires v.VMap?
    ensures lines == head + MapBody(v, |v.entries|, inner, step)
    decreases v, 0, 1
  {
    lines := head;
    assert lines == head + MapBody(v, 0, inner, step);
    var i := 0;
    while i < |v.entries|
      invariant 0 <= i <= |v.entries|
      invariant lines == head + MapBody(v, i, inner, step)
    {
      lines := AppendEntryAt(lines, head, v, i, inner, step);
      i := i + 1;
    }
  }

  /** One turn of the entries loop: entry `i` joins the lines of those before it. */
  method AppendEntryAt(lines: seq<string>, head: seq<string>, v: Value, i: nat, inner: string, step: string)
    returns (out: seq<string>)
    requires v.VMap? && i < |v.entries| && lines == head + MapBody(v, i, inner, step)
    ensures out == head + MapBody(v, i + 1, inner, step)
    decreases v, 0, 0
  {
    var e := v.entries[i];
    assert e in v.entries;
    MapBodySnoc(head, v, i, inner, step);
    out := AppendEntry(lines, e, inner, step);
  }

  /** `_repr_hjson_map_pretty`. */
  method RenderMapPretty(v: Value, indent: string, step: string) returns (s: string)
    requires v.VMap?
    ensures s == MapPretty(v, indent, step)
    decreases v, 1
  {
    var lines := AppendMapEntries(["{"], v, indent + step, step);
    ghost var body := lines;
    if |lines| > 1 && EndsWith(lines[|lines| - 1], ",") {
      lines := lines[..|lines| - 1] + [lines[|lines| - 1][..|lines[|lines| - 1]| - 1]];
    }
    assert lines == StripFinalComma(body);
    lines := lines + [indent + "}"];
    s := JoinWith(lines, "\n");
  }

  /** The printers' loop over the elements of a list. */
  method AppendListItems(head: seq<string>, v: Value, inner: string, step: string) returns (lines: seq<string>)
    requires v.VList?
    ensures lines == head + ListBody(v, |v.items|, inner, step)
    decreases v, 0
  {
    lines := head;
    assert lines == head + ListBody(v, 0, inner, step);
    var i := 0;
    while i < |v.items|
      invariant 0 <= i <= |v.items|
      invariant lines == head + ListBody(v, i, inner, step)
    {
      var it := v.items[i];
      assert it in v.items;
      var vStr := RenderValuePretty(it, inner, step);
      ListBodySnoc(head, v, i, inner, step);
      lines := AppendBlock(lines, inner, "", vStr);
      i := i + 1;
    }
  }

  /** `_repr_hjson_list_pretty`. */
  method RenderListPretty(v: Value, indent: string, step: string) returns (s: string)
    requires v.VList?
    ensures s == ListPretty(v, indent, step)
    decreases v, 1
  {
    var lines := AppendListItems(["["], v, indent + step, step);
    lines := lines + [indent + "]"];
    s := JoinWith(lines, "\n");
  }
}
