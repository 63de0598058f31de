/**
 * `_postprocess_hjson_text`: inside each `#ship-list`/`ship-list` array of
 * dumped text, every `{ … }` (up to its first `}`) is rewritten by
 * `fix_flow_map`, which puts a line break after each top-level comma; the
 * array itself is laid out as `key: [\n…\n]`.
 *
 * `fix_flow_map` as written drops the character after a backslash inside
 * a quoted string (`keepEscaped == false` below); the corrected walk keeps
 * it (`keepEscaped == true`), and then the whole pass changes whitespace
 * and nothing else.
 */
module PostProcess {
  import opened Wrappers
  import opened PyText

  // ---------- what "only layout changes" means ----------

  /** The text with every whitespace character removed. */
  function Visible(s: string): (r: string)
    ensures NoSpace(r) && |r| <= |s|
  {
    if s == [] then [] else (if IsSpace(s[0]) then [] else [s[0]]) + Visible(s[1..])
  }

  lemma {:induction false} VisibleConcat(a: string, b: string)
    ensures Visible(a + b) == Visible(a) + Visible(b)
  {
    if a != [] {
      var h := if IsSpace(a[0]) then [] else [a[0]];
      assert (a + b)[0] == a[0];
      assert (a + b)[1..] == a[1..] + b;
      VisibleConcat(a[1..], b);
      assert Visible(a) == h + Visible(a[1..]);
      assert Visible(a + b) == h + Visible((a + b)[1..]);
      calc {
        Visible(a + b);
        h + Visible(a[1..] + b);
        h + (Visible(a[1..]) + Visible(b));
        (h + Visible(a[1..])) + Visible(b);
      }
    } else {
      assert a + b == b;
    }
  }

  lemma {:induction false} VisibleAllSpace(s: string)
    requires AllSpace(s)
    ensures Visible(s) == []
  {
    if s != [] {
      VisibleAllSpace(s[1..]);
    }
  }

  lemma {:induction false} VisibleUnspaced(s: string)
    requires NoSpace(s)
    ensures Visible(s) == s
  {
    if s != [] {
      VisibleUnspaced(s[1..]);
    }
  }

  /** `strip()` only removes whitespace. */
  lemma VisibleStrip(s: string)
    ensures Visible(Strip(s)) == Visible(s)
  {
    VisibleTrimLeft(s);
    VisibleTrimRight(TrimLeft(s));
  }

  lemma VisibleTrimLeft(s: string)
    ensures Visible(TrimLeft(s)) == Visible(s)
  {
    var l := TrimLeft(s);
    var pad := s[..|s| - |l|];
    assert s == pad + l;
    VisibleConcat(pad, l);
    VisibleAllSpace(pad);
  }

  lemma VisibleTrimRight(s: string)
    ensures Visible(TrimRight(s)) == Visible(s)
  {
    var r := TrimRight(s);
    var pad := s[|r|..];
    assert s == r + pad;
    VisibleConcat(r, pad);
    VisibleAllSpace(pad);
  }

  /** Splitting a slice in two splits what is visible in it. */
  lemma VisibleSplit(s: string, i: nat, j: nat, k: nat)
    requires i <= j <= k <= |s|
    ensures Visible(s[i..k]) == Visible(s[i..j]) + Visible(s[j..k])
  {
    assert s[i..k] == s[i..j] + s[j..k];
    VisibleConcat(s[i..j], s[j..k]);
  }

  // ---------- fix_flow_map ----------

  /** The inner loop over a quoted string, from just after its opening quote
      `q` at `i`: the text copied and the index after the closing quote.
      After a backslash the index moves by two; the as-written loop copies
      only the backslash, the corrected one copies the escaped character too.
      The index can end one past the text when a backslash is last. */
  function QuotedCopy(inner: string, i: nat, q: char, keepEscaped: bool): (r: (string, nat))
    requires i <= |inner| + 1
    ensures i <= r.1 <= |inner| + 1
    decreases |inner| + 1 - i
  {
    if i >= |inner| then ([], i)
    else if inner[i] == '\\' then
      var c := if keepEscaped && i + 1 < |inner| then inner[i..i + 2] else [inner[i]];
      var rest := QuotedCopy(inner, i + 2, q, keepEscaped);
      (c + rest.0, rest.1)
    else if inner[i] == q then ([inner[i]], i + 1)
    else
      var rest := QuotedCopy(inner, i + 1, q, keepEscaped);
      ([inner[i]] + rest.0, rest.1)
  }

  /** The outer loop of `fix_flow_map` from index `i` at bracket depth `depth`. */
  function FixFrom(inner: string, i: nat, depth: nat, keepEscaped: bool): (r: string)
    requires i <= |inner| + 1
    decreases |inner| + 1 - i
  {
    if i >= |inner| then []
    else
      var ch := inner[i];
      if ch == '"' || ch == '\'' then
        var (c, j) := QuotedCopy(inner, i + 1, ch, keepEscaped);
        [ch] + c + FixFrom(inner, j, depth, keepEscaped)
      else if ch == '{' || ch == '[' then [ch] + FixFrom(inner, i + 1, depth + 1, keepEscaped)
      else if ch == '}' || ch == ']' then [ch] + FixFrom(inner, i + 1, if depth == 0 then 0 else depth - 1, keepEscaped)
      else if ch == ',' && depth == 0 then
        ",\n" + FixFrom(inner, if i + 1 < |inner| && inner[i + 1] == ' ' then i + 2 else i + 1, depth, keepEscaped)
      else [ch] + FixFrom(inner, i + 1, depth, keepEscaped)
  }

  /** `fix_flow_map` on the capture `inner` of one `{(.*?)}` match. */
  function FlowMapText(inner: string, keepEscaped: bool): (r: string)
    ensures |r| >= 2 && r[0] == '{' && r[|r| - 1] == '}'
  {
    "{" + Strip(FixFrom(inner, 0, 0, keepEscaped)) + "}"
  }

  /** The as-written walk turns the quoted `"a\"b"` into `"a\b"`: the
      escaped quote is lost, so more than layout changes. */
  lemma FixFlowMapDropsEscaped()
    ensures FlowMapText("\"a\\\"b\"", false) == "{\"a\\b\"}"
    ensures Visible(FlowMapText("\"a\\\"b\"", false)) != Visible("{\"a\\\"b\"}")
  {
    FlowMapDropsEscaped();
    ExampleUnspaced();
    assert |"{\"a\\b\"}"| != |"{\"a\\\"b\"}"|;
  }

  lemma FlowMapDropsEscaped()
    ensures FlowMapText("\"a\\\"b\"", false) == "{\"a\\b\"}"
  {
    var f := "\"a\\b\"";
    FixFromDropsEscaped();
    FlowMapOfFix("\"a\\\"b\"", false, f);
  }

  /** A walk that leaves nothing to strip is wrapped as it is. */
  lemma FlowMapOfFix(inner: string, keepEscaped: bool, f: string)
    requires FixFrom(inner, 0, 0, keepEscaped) == f
    requires f != [] && f[0] == '"' && f[|f| - 1] == '"'
    ensures FlowMapText(inner, keepEscaped) == "{" + f + "}"
  {
    StripUnpadded(f);
  }

  /** The walk itself on the example: the quote is copied, then the
      as-written quoted copy, then nothing is left. */
  lemma FixFromDropsEscaped()
    ensures FixFrom("\"a\\\"b\"", 0, 0, false) == "\"a\\b\""
  {
    var inner := "\"a\\\"b\"";
    QuotedCopyDropsEscaped();
    assert FixFrom(inner, 6, 0, false) == [];
    assert FixFrom(inner, 0, 0, false) == [inner[0]] + "a\\b\"" + [];
  }

  lemma ExampleUnspaced()
    ensures Visible("{\"a\\b\"}") == "{\"a\\b\"}"
    ensures Visible("{\"a\\\"b\"}") == "{\"a\\\"b\"}"
  {
    var out := "{\"a\\b\"}";
    var whole := "{\"a\\\"b\"}";
    forall i | 0 <= i < |out| ensures !IsSpace(out[i]) {
      assert i == 0 || i == 1 || i == 2 || i == 3 || i == 4 || i == 5 || i == 6;
    }
    forall i | 0 <= i < |whole| ensures !IsSpace(whole[i]) {
      assert i == 0 || i == 1 || i == 2 || i == 3 || i == 4 || i == 5 || i == 6 || i == 7;
    }
    VisibleUnspaced(out);
    VisibleUnspaced(whole);
  }

  lemma QuotedCopyDropsEscaped()
    ensures QuotedCopy("\"a\\\"b\"", 1, '"', false) == ("a\\b\"", 6)
  {
    var inner := "\"a\\\"b\"";
    assert inner[1] == 'a' && inner[2] == '\\' && inner[4] == 'b' && inner[5] == '"';
    var r5 := QuotedCopy(inner, 5, '"', false);
    assert r5 == ([inner[5]], 6);
    var r4 := QuotedCopy(inner, 4, '"', false);
    assert r4 == ([inner[4]] + r5.0, 6);
    var r2 := QuotedCopy(inner, 2, '"', false);
    assert r2 == ([inner[2]] + r4.0, 6);
    var r1 := QuotedCopy(inner, 1, '"', false);
    assert r1 == ([inner[1]] + r2.0, 6);
    assert r1.0 == [inner[1], inner[2], inner[4], inner[5]];
  }

  function Min(a: nat, b: nat): nat { if a <= b then a else b }

  /** The corrected quoted copy is the input up to the index it stops at. */
  lemma {:induction false} QuotedCopyVerbatim(inner: string, i: nat, q: char)
    requires i <= |inner| + 1
    ensures var qc := QuotedCopy(inner, i, q, true);
      Min(i, |inner|) <= Min(qc.1, |inner|) && qc.0 == inner[Min(i, |inner|)..Min(qc.1, |inner|)]
    decreases |inner| + 1 - i
  {
    if i < |inner| {
      if inner[i] == '\\' {
        QuotedCopyVerbatim(inner, i + 2, q);
        VerbatimAfterEscape(inner, i, q, QuotedCopy(inner, i + 2, q, true));
      } else if inner[i] != q {
        QuotedCopyVerbatim(inner, i + 1, q);
        VerbatimAfterPlain(inner, i, q, QuotedCopy(inner, i + 1, q, true));
      }
    }
  }

  /** The plain-character step of `QuotedCopyVerbatim`. */
  lemma VerbatimAfterPlain(inner: string, i: nat, q: char, rest: (string, nat))
    requires i < |inner| && inner[i] != '\\' && inner[i] != q
    requires rest == QuotedCopy(inner, i + 1, q, true)
    requires i + 1 <= Min(rest.1, |inner|) && rest.0 == inner[i + 1..Min(rest.1, |inner|)]
    ensures var qc := QuotedCopy(inner, i, q, true);
      i <= Min(qc.1, |inner|) && qc.0 == inner[i..Min(qc.1, |inner|)]
  {
    var k := Min(rest.1, |inner|);
    assert inner[i..i + 1] == [inner[i]];
    SliceSplit(inner, i, i + 1, k);
  }

  /** The backslash step of `QuotedCopyVerbatim`: the pair is copied as it is. */
  lemma VerbatimAfterEscape(inner: string, i: nat, q: char, rest: (string, nat))
    requires i < |inner| && inner[i] == '\\'
    requires rest == QuotedCopy(inner, i + 2, q, true)
    requires Min(i + 2, |inner|) <= Min(rest.1, |inner|) && rest.0 == inner[Min(i + 2, |inner|)..Min(rest.1, |inner|)]
    ensures var qc := QuotedCopy(inner, i, q, true);
      i <= Min(qc.1, |inner|) && qc.0 == inner[i..Min(qc.1, |inner|)]
  {
    var k := Min(rest.1, |inner|);
    if i + 1 < |inner| {
      SliceSplit(inner, i, i + 2, k);
    } else {
      assert inner[i..k] == [inner[i]];
    }
  }

  lemma SliceCons(s: string, i: nat, k: nat)
    requires i < k <= |s|
    ensures s[i..k] == [s[i]] + s[i + 1..k]
  {
  }

  lemma SliceSnoc(s: string, i: nat, k: nat)
    requires i < k <= |s|
    ensures s[i..k] == s[i..k - 1] + [s[k - 1]]
  {
  }

  lemma SliceSplit(s: string, i: nat, j: nat, k: nat)
    requires i <= j <= k <= |s|
    ensures s[i..k] == s[i..j] + s[j..k]
  {
  }

  /** The corrected walk only adds line breaks and drops single spaces. */
  lemma {:induction false} FixFromVisible(inner: string, i: nat, depth: nat)
    requires i <= |inner| + 1
    ensures Visible(FixFrom(inner, i, depth, true)) == Visible(inner[Min(i, |inner|)..])
    decreases |inner| + 1 - i, 1
  {
    if i < |inner| {
      if inner[i] == '"' || inner[i] == '\'' {
        FixFromVisibleQuoted(inner, i, depth);
      } else {
        FixFromVisibleUnquoted(inner, i, depth);
      }
    }
  }

  /** `FixFromVisible` for a step that copies a quoted string. */
  lemma {:induction false} FixFromVisibleQuoted(inner: string, i: nat, depth: nat)
    requires i < |inner| && (inner[i] == '"' || inner[i] == '\'')
    ensures Visible(FixFrom(inner, i, depth, true)) == Visible(inner[i..])
    decreases |inner| + 1 - i, 0
  {
    var ch := inner[i];
    var qc := QuotedCopy(inner, i + 1, ch, true);
    var j := qc.1;
    FixFromQuoted(inner, i, depth);
    QuotedCopyVerbatim(inner, i + 1, ch);
    FixFromVisible(inner, j, depth);
    SliceCons(inner, i, Min(j, |inner|));
    VisibleStep(inner, i, Min(j, |inner|), [ch] + qc.0, FixFrom(inner, j, depth, true));
  }

  /** `FixFromVisible` for a step that is not a quoted string. */
  lemma {:induction false} FixFromVisibleUnquoted(inner: string, i: nat, depth: nat)
    requires i < |inner| && inner[i] != '"' && inner[i] != '\''
    ensures Visible(FixFrom(inner, i, depth, true)) == Visible(inner[i..])
    decreases |inner| + 1 - i, 0
  {
    var ch := inner[i];
    var j := if ch == ',' && depth == 0 && i + 1 < |inner| && inner[i + 1] == ' ' then i + 2 else i + 1;
    var d := if ch == '{' || ch == '[' then depth + 1
      else if ch == '}' || ch == ']' then (if depth == 0 then 0 else depth - 1)
      else depth;
    var head := if ch == ',' && depth == 0 then ",\n" else [ch];
    if ch == ',' && depth == 0 {
      FixFromComma(inner, i);
    } else {
      FixFromOther(inner, i, depth);
    }
    FixFromVisible(inner, j, d);
    assert Visible(head) == Visible(inner[i..j]) by {
      if ch == ',' && depth == 0 {
        CommaVisible(inner[i..j]);
      } else {
        SliceCons(inner, i, i + 1);
      }
    }
    VisibleStep(inner, i, j, head, FixFrom(inner, j, d, true));
  }

  /** What one step of the walk emits, followed by the rest of it. */
  lemma VisibleStep(inner: string, i: nat, j: nat, head: string, rest: string)
    requires i <= j <= |inner|
    requires Visible(head) == Visible(inner[i..j]) && Visible(rest) == Visible(inner[j..])
    ensures Visible(head + rest) == Visible(inner[i..])
  {
    VisibleConcat(head, rest);
    VisibleSplit(inner, i, j, |inner|);
    assert inner[i..] == inner[i..|inner|] && inner[j..] == inner[j..|inner|];
  }

  /** `","` and `", "` look like the `",\n"` the walk writes for them. */
  lemma CommaVisible(s: string)
    requires s == "," || s == ", "
    ensures Visible(",\n") == Visible(s)
  {
    assert Visible("\n") == [];
    assert Visible(" ") == [];
    assert ",\n" == "," + "\n";
    VisibleConcat(",", "\n");
    if s == ", " {
      assert s == "," + " ";
      VisibleConcat(",", " ");
    }
  }

  /** `fix_flow_map`, corrected, keeps every visible character of `{inner}`. */
  lemma FlowMapTextVisible(inner: string)
    ensures Visible(FlowMapText(inner, true)) == "{" + Visible(inner) + "}"
  {
    var f := FixFrom(inner, 0, 0, true);
    FixFromVisible(inner, 0, 0);
    assert inner[0..] == inner;
    VisibleStrip(f);
    VisibleWrap('{', Strip(f), '}');
  }

  /** A body between two visible characters. */
  lemma VisibleWrap(open: char, body: string, close: char)
    requires !IsSpace(open) && !IsSpace(close)
    ensures Visible([open] + body + [close]) == [open] + Visible(body) + [close]
  {
    VisibleConcat([open] + body, [close]);
    VisibleConcat([open], body);
    assert Visible([open]) == [open] && Visible([close]) == [close];
  }

  /** The inner loop of `fix_flow_map`, on the corrected walk: copies the
      quoted string that starts at `start` (just after the quote `q`). */
  method CopyQuoted(inner: string, start: nat, q: char) returns (copied: string, i: nat)
    requires start <= |inner| + 1
    ensures (copied, i) == QuotedCopy(inner, start, q, true)
  {
    ghost var whole := QuotedCopy(inner, start, q, true);
    copied, i := [], start;
    while i < |inner|
      invariant start <= i <= |inner| + 1
      invariant copied + QuotedCopy(inner, i, q, true).0 == whole.0
      invariant QuotedCopy(inner, i, q, true).1 == whole.1
      decreases |inner| + 1 - i
    {
      ghost var here := QuotedCopy(inner, i, q, true);
      if inner[i] == '\\' {
        var c := if i + 1 < |inner| then inner[i..i + 2] else [inner[i]];
        ghost var rest := QuotedCopy(inner, i + 2, q, true);
        assert here == (c + rest.0, rest.1);
        assert copied + c + rest.0 == copied + here.0;
        copied := copied + c;
        i := i + 2;
        continue;
      }
      if inner[i] == q {
        assert here == ([inner[i]], i + 1);
        copied := copied + [inner[i]];
        i := i + 1;
        return;
      }
      ghost var rest := QuotedCopy(inner, i + 1, q, true);
      assert here == ([inner[i]] + rest.0, rest.1);
      assert copied + [inner[i]] + rest.0 == copied + here.0;
      copied := copied + [inner[i]];
      i := i + 1;
    }
    assert QuotedCopy(inner, i, q, true) == ([], i);
    assert copied + [] == copied;
  }

  /** The outer loop of `fix_flow_map`, on the corrected walk. */
  method FixFlowMap(inner: string) returns (r: string)
    ensures r == FlowMapText(inner, true)
  {
    ghost var whole := FixFrom(inner, 0, 0, true);
    var out: string := [];
    var depth: nat := 0;
    var i: nat := 0;
    while i < |inner|
      invariant i <= |inner| + 1
      invariant out + FixFrom(inner, i, depth, true) == whole
      decreases |inner| + 1 - i
    {
      var ch := inner[i];
      if ch == '"' || ch == '\'' {
        FixFromQuoted(inner, i, depth);
        var copied, j := CopyQuoted(inner, i + 1, ch);
        Appended(out, [ch] + copied, FixFrom(inner, j, depth, true), FixFrom(inner, i, depth, true));
        out := out + ([ch] + copied);
        i := j;
      } else if ch == ',' && depth == 0 {
        FixFromComma(inner, i);
        var j := if i + 1 < |inner| && inner[i + 1] == ' ' then i + 2 else i + 1;
        Appended(out, ",\n", FixFrom(inner, j, depth, true), FixFrom(inner, i, depth, true));
        out := out + ",\n";
        i := i + 1;
        if i < |inner| && inner[i] == ' ' {
          i := i + 1;
        }
      } else {
        FixFromOther(inner, i, depth);
        var d := if ch == '{' || ch == '[' then depth + 1
                 else if ch == '}' || ch == ']' then (if depth == 0 then 0 else depth - 1)
                 else depth;
        Appended(out, [ch], FixFrom(inner, i + 1, d, true), FixFrom(inner, i, depth, true));
        if ch == '{' || ch == '[' {
          depth := depth + 1;
        } else if ch == '}' || ch == ']' {
          depth := if depth == 0 then 0 else depth - 1;
        }
        out := out + [ch];
        i := i + 1;
      }
    }
    assert FixFrom(inner, i, depth, true) == [];
    assert out + [] == out;
    r := "{" + Strip(out) + "}";
  }

  /** Moving a piece from the rest of the walk to the output. */
  lemma Appended(out: string, piece: string, rest: string, here: string)
    requires here == piece + rest
    ensures out + piece + rest == out + here
  {
  }

  lemma FixFromQuoted(inner: string, i: nat, depth: nat)
    requires i < |inner| && (inner[i] == '"' || inner[i] == '\'')
    ensures var qc := QuotedCopy(inner, i + 1, inner[i], true);
      FixFrom(inner, i, depth, true) == [inner[i]] + qc.0 + FixFrom(inner, qc.1, depth, true)
  {
  }

  lemma FixFromComma(inner: string, i: nat)
    requires i < |inner| && inner[i] == ','
    ensures FixFrom(inner, i, 0, true)
         == ",\n" + FixFrom(inner, if i + 1 < |inner| && inner[i + 1] == ' ' then i + 2 else i + 1, 0, true)
  {
  }

  lemma FixFromOther(inner: string, i: nat, depth: nat)
    requires i < |inner| && inner[i] != '"' && inner[i] != '\'' && (inner[i] != ',' || depth != 0)
    ensures var ch := inner[i];
      FixFrom(inner, i, depth, true) == [ch] + FixFrom(inner, i + 1,
        if ch == '{' || ch == '[' then depth + 1
        else if ch == '}' || ch == ']' then (if depth == 0 then 0 else depth - 1)
        else depth, true)
  {
  }

  // ---------- the two substitutions ----------

  /** `re.sub(r'\{(.*?)\}', fix, body, flags=re.DOTALL)`: each `{` up to
      the first `}` after it, left to right, replaced by `fix` of what lies
      between them. */
  function SubMaps(s: string, fix: string -> string): (r: string)
    decreases |s|
  {
    var b := Find(s, "{", 0);
    if b == -1 then s
    else
      var c := Find(s, "}", b + 1);
      if c == -1 then s
      else s[..b] + fix(s[b + 1..c]) + SubMaps(s[c + 1..], fix)
  }

  /** The callback `per_ship_fix` hands to that substitution. */
  function MapFixer(keepEscaped: bool): string -> string {
    inner => FlowMapText(inner, keepEscaped)
  }

  /** A callback whose replacement looks like the braced match it replaces. */
  ghost predicate KeepsLook(fix: string -> string) {
    forall x :: Visible(fix(x)) == "{" + Visible(x) + "}"
  }

  /** With `fix_flow_map` corrected, the callback only changes whitespace. */
  lemma MapFixerKeepsLook()
    ensures KeepsLook(MapFixer(true))
  {
    forall x ensures Visible(MapFixer(true)(x)) == "{" + Visible(x) + "}" {
      FlowMapTextVisible(x);
    }
  }

  /** Start of the whitespace run that ends at `r`, not before `n`. */
  function SpaceBefore(t: string, n: nat, r: nat): (e: nat)
    requires n <= r <= |t|
    ensures n <= e <= r && AllSpace(t[e..r]) && (e == n || !IsSpace(t[e - 1]))
    decreases r
  {
    if r > n && IsSpace(t[r - 1]) then
      var e := SpaceBefore(t, n, r - 1);
      SliceSnoc(t, e, r);
      e
    else r
  }

  /** One match of `(#ship-list|ship-list)\s*:\s*\[\s*(.*?)\s*\]` (DOTALL)
      at `p`: the key alternative, where its colon and bracket are, the
      capture `t[n..e]` and the closing bracket. */
  datatype ListMatch = ListMatch(key: string, colon: nat, bracket: nat, n: nat, e: nat, close: nat)

  function ListMatchAt(t: string, p: nat): (r: Option<ListMatch>)
    requires p <= |t|
    ensures r.Some? ==> p + |r.value.key| <= r.value.colon < r.value.bracket < r.value.n <= r.value.e <= r.value.close < |t|
  {
    if OccursAt(t, "#ship-list", p) then KeyedMatch(t, p, "#ship-list")
    else if OccursAt(t, "ship-list", p) then KeyedMatch(t, p, "ship-list")
    else None
  }

  /** The rest of the pattern, once the key is known to be at `p`. */
  function KeyedMatch(t: string, p: nat, key: string): (r: Option<ListMatch>)
    requires OccursAt(t, key, p)
    ensures r.Some? ==> r.value.key == key && p + |key| <= r.value.colon < r.value.bracket < r.value.n <= r.value.e <= r.value.close < |t|
  {
    ListAfterKey(t, p, key)
  }

  /** The rest of the pattern after the key `t[p..p + |key|]`. */
  function ListAfterKey(t: string, p: nat, key: string): (r: Option<ListMatch>)
    requires p + |key| <= |t|
    ensures r.Some? ==> r.value.key == key && p + |key| <= r.value.colon < r.value.bracket < r.value.n <= r.value.e <= r.value.close < |t|
  {
    var k := WsRun(t, p + |key|);
    if k == |t| || t[k] != ':' then None
    else
      var m := WsRun(t, k + 1);
      if m == |t| || t[m] != '[' then None
      else ListBody(t, key, k, m)
  }

  /** The array body after the bracket at `m`, up to the first `]`. */
  function ListBody(t: string, key: string, k: nat, m: nat): (r: Option<ListMatch>)
    requires k < m < |t|
    ensures r.Some? ==> (r.value.key == key && r.value.colon == k && r.value.bracket == m
                         && m < r.value.n <= r.value.e <= r.value.close < |t|)
  {
    var n := WsRun(t, m + 1);
    var c := Find(t, "]", n);
    if c == -1 then None
    else Some(ListMatch(key, k, m, n, SpaceBefore(t, n, c), c))
  }

  /** A match found at `p` has the pattern's shape: one of the two keys,
      blanks around its colon and bracket, and a closing bracket with only
      blanks between it and the capture. */
  lemma ListMatchShape(t: string, p: nat, v: ListMatch)
    requires p <= |t| && ListMatchAt(t, p) == Some(v)
    ensures v.key == "#ship-list" || v.key == "ship-list"
    ensures t[p..p + |v.key|] == v.key
    ensures t[v.colon] == ':' && t[v.bracket] == '[' && t[v.close] == ']'
    ensures forall j :: p + |v.key| <= j < v.colon ==> IsSpace(t[j])
    ensures forall j :: v.colon + 1 <= j < v.bracket ==> IsSpace(t[j])
    ensures forall j :: v.bracket + 1 <= j < v.n ==> IsSpace(t[j])
    ensures AllSpace(t[v.e..v.close])
  {
    if OccursAt(t, "#ship-list", p) {
      AfterKeyShape(t, p, "#ship-list", v);
    } else {
      AfterKeyShape(t, p, "ship-list", v);
    }
  }

  lemma AfterKeyShape(t: string, p: nat, key: string, v: ListMatch)
    requires p + |key| <= |t| && ListAfterKey(t, p, key) == Some(v)
    ensures t[v.colon] == ':' && t[v.bracket] == '[' && t[v.close] == ']'
    ensures forall j :: p + |key| <= j < v.colon ==> IsSpace(t[j])
    ensures forall j :: v.colon + 1 <= j < v.bracket ==> IsSpace(t[j])
    ensures forall j :: v.bracket + 1 <= j < v.n ==> IsSpace(t[j])
    ensures AllSpace(t[v.e..v.close])
  {
    var k := WsRun(t, p + |key|);
    var m := WsRun(t, k + 1);
    BodyShape(t, key, k, m, v);
  }

  lemma BodyShape(t: string, key: string, k: nat, m: nat, v: ListMatch)
    requires k < m < |t| && ListBody(t, key, k, m) == Some(v)
    ensures t[v.close] == ']'
    ensures forall j :: m + 1 <= j < v.n ==> IsSpace(t[j])
    ensures AllSpace(t[v.e..v.close])
  {
    FoundChar(t, ']', v.n);
  }

  /** What `per_ship_fix` puts in place of one array. */
  function ListText(key: string, body: string): string {
    key + ": [\n" + body + "\n]"
  }

  /** What the substitution writes for the text at `p`: the rewritten array
      when the pattern matches there, the character itself otherwise. */
  function Piece(t: string, p: nat, keepEscaped: bool): string
    requires p < |t|
  {
    match ListMatchAt(t, p)
    case None => [t[p]]
    case Some(lm) => ListText(lm.key, SubMaps(t[lm.n..lm.e], MapFixer(keepEscaped)))
  }

  /** Where the scan for the next match resumes after `p`. */
  function Resume(t: string, p: nat): (r: nat)
    requires p < |t|
    ensures p < r <= |t|
  {
    match ListMatchAt(t, p)
    case None => p + 1
    case Some(lm) => lm.close + 1
  }

  /** `ship_list_pattern.sub(per_ship_fix, text)` from `p` on. */
  function SubListsFrom(t: string, p: nat, keepEscaped: bool): (r: string)
    requires p <= |t|
    decreases |t| - p
  {
    if p == |t| then [] else Piece(t, p, keepEscaped) + SubListsFrom(t, Resume(t, p), keepEscaped)
  }

  /** `_postprocess_hjson_text` with the corrected `fix_flow_map`. */
  function PostprocessHjsonText(text: string): string {
    SubListsFrom(text, 0, true)
  }

  /** `_postprocess_hjson_text` exactly as written. */
  function PostprocessAsWritten(text: string): string {
    SubListsFrom(text, 0, false)
  }

  // ---------- what the pass keeps ----------

  /** Outside the arrays nothing is touched: a text without `ship-list`
      comes back unchanged. */
  lemma {:induction false} SubListsNoMatch(t: string, p: nat, keepEscaped: bool)
    requires p <= |t|
    requires forall j :: p <= j <= |t| ==> !OccursAt(t, "ship-list", j) && !OccursAt(t, "#ship-list", j)
    ensures SubListsFrom(t, p, keepEscaped) == t[p..]
    decreases |t| - p
  {
    if p < |t| {
      SubListsStep(t, p, keepEscaped);
      PieceNoMatch(t, p, keepEscaped);
      SubListsNoMatch(t, p + 1, keepEscaped);
      assert t[p..] == [t[p]] + t[p + 1..];
    }
  }

  lemma PostprocessNoList(text: string)
    requires !Contains(text, "ship-list")
    ensures PostprocessHjsonText(text) == text
  {
    forall j | 0 <= j <= |text|
      ensures !OccursAt(text, "ship-list", j) && !OccursAt(text, "#ship-list", j)
    {
      HashKeyHasKey(text, j);
    }
    SubListsNoMatch(text, 0, true);
  }

  /** `#ship-list` at `j` has `ship-list` at `j + 1`. */
  lemma HashKeyHasKey(text: string, j: nat)
    ensures OccursAt(text, "#ship-list", j) ==> OccursAt(text, "ship-list", j + 1)
  {
    if OccursAt(text, "#ship-list", j) {
      assert text[j + 1..j + 10] == text[j..j + 10][1..];
    }
  }

  /** The flow-map substitution, corrected, only changes whitespace. */
  lemma {:induction false} SubMapsVisible(s: string, fix: string -> string)
    requires KeepsLook(fix)
    ensures Visible(SubMaps(s, fix)) == Visible(s)
    decreases |s|
  {
    var b := Find(s, "{", 0);
    if b != -1 {
      var c := Find(s, "}", b + 1);
      if c != -1 {
        FoundChar(s, '{', 0);
        FoundChar(s, '}', b + 1);
        var now := fix(s[b + 1..c]);
        assert Visible(now) == "{" + Visible(s[b + 1..c]) + "}";
        var rest' := SubMaps(s[c + 1..], fix);
        SubMapsUnfold(s, b, c, fix);
        SubMapsVisible(s[c + 1..], fix);
        MapSpliceVisible(s, b, c, now, rest');
      }
    }
  }

  /** Where `find` of one character succeeds, that character is there. */
  lemma FoundChar(s: string, ch: char, from: nat)
    ensures Find(s, [ch], from) != -1 ==> s[Find(s, [ch], from)] == ch
  {
    var f := Find(s, [ch], from);
    if f != -1 {
      assert s[f..f + 1][0] == s[f];
    }
  }

  /** One step of the substitution, with the two brace positions given. */
  lemma SubMapsUnfold(s: string, b: int, c: int, fix: string -> string)
    requires b == Find(s, "{", 0) && b != -1 && c == Find(s, "}", b + 1) && c != -1
    ensures SubMaps(s, fix) == s[..b] + fix(s[b + 1..c]) + SubMaps(s[c + 1..], fix)
  {
  }

  /** One flow map replaced, and a tail that looks the same as the rest. */
  lemma MapSpliceVisible(s: string, b: nat, c: nat, now: string, rest': string)
    requires b < c < |s| && s[b] == '{' && s[c] == '}'
    requires Visible(now) == "{" + Visible(s[b + 1..c]) + "}"
    requires Visible(rest') == Visible(s[c + 1..])
    ensures Visible(s[..b] + now + rest') == Visible(s)
  {
    var inner := s[b + 1..c];
    var rest := s[c + 1..];
    SliceAround(s, b, c);
    VisibleWrap('{', inner, '}');
    VisibleSpliced(s[..b], [s[b]] + inner + [s[c]], now, rest, rest');
  }

  /** Replacing a piece by one that looks the same, and the tail by one
      that looks the same, keeps what the whole text looks like. */
  lemma VisibleSpliced(pre: string, was: string, now: string, rest: string, rest': string)
    requires Visible(was) == Visible(now) && Visible(rest) == Visible(rest')
    ensures Visible(pre + now + rest') == Visible(pre + was + rest)
  {
    VisibleConcat(pre + now, rest');
    VisibleConcat(pre, now);
    VisibleConcat(pre + was, rest);
    VisibleConcat(pre, was);
  }

  /** The same with nothing before the replaced piece. */
  lemma VisibleHeadSpliced(was: string, now: string, rest: string, rest': string)
    requires Visible(was) == Visible(now) && Visible(rest) == Visible(rest')
    ensures Visible(now + rest') == Visible(was + rest)
  {
    VisibleConcat(now, rest');
    VisibleConcat(was, rest);
  }

  /** The tail from `p` cut at `q`. */
  lemma SplitTail(t: string, p: nat, q: nat)
    requires p <= q <= |t|
    ensures t[p..] == t[p..q] + t[q..]
  {
  }

  /** Both spellings of the array key have no whitespace. */
  lemma KeysUnspaced(key: string)
    requires key == "#ship-list" || key == "ship-list"
    ensures Visible(key) == key
  {
    forall i | 0 <= i < |key| ensures !IsSpace(key[i]) {
      assert i == 0 || i == 1 || i == 2 || i == 3 || i == 4 || i == 5 || i == 6 || i == 7 || i == 8 || i == 9;
    }
    VisibleUnspaced(key);
  }

  /** What the matched array text and its replacement have in common. */
  lemma VisibleListShape(key: string, w1: string, w2: string, w3: string, body: string, w4: string)
    requires Visible(key) == key
    requires Visible(w1) == [] && Visible(w2) == [] && Visible(w3) == [] && Visible(w4) == []
    ensures Visible(key + w1 + ":" + w2 + "[" + w3 + body + w4 + "]") == key + ":[" + Visible(body) + "]"
  {
    var a := key + w1 + ":" + w2 + "[" + w3;
    var b := body + w4 + "]";
    assert key + w1 + ":" + w2 + "[" + w3 + body + w4 + "]" == a + b;
    VisibleConcat(a, b);
    VisibleOpening(key, w1, w2, w3);
    VisibleClosing(body, w4);
  }

  lemma VisibleOpening(key: string, w1: string, w2: string, w3: string)
    requires Visible(key) == key
    requires Visible(w1) == [] && Visible(w2) == [] && Visible(w3) == []
    ensures Visible(key + w1 + ":" + w2 + "[" + w3) == key + ":["
  {
    var a := key + w1;
    VisibleAppendBlank(key, w1);
    var b := a + ":";
    VisibleAppendMark(a, ':');
    var c := b + w2;
    VisibleAppendBlank(b, w2);
    var d := c + "[";
    VisibleAppendMark(c, '[');
    VisibleAppendBlank(d, w3);
  }

  lemma VisibleAppendBlank(x: string, w: string)
    requires Visible(w) == []
    ensures Visible(x + w) == Visible(x)
  {
    VisibleConcat(x, w);
  }

  lemma VisibleAppendMark(x: string, c: char)
    requires !IsSpace(c)
    ensures Visible(x + [c]) == Visible(x) + [c]
  {
    VisibleConcat(x, [c]);
    assert Visible([c]) == [c];
  }

  lemma VisibleClosing(body: string, w4: string)
    requires Visible(w4) == []
    ensures Visible(body + w4 + "]") == Visible(body) + "]"
  {
    VisibleConcat(body, w4);
    VisibleConcat(body + w4, "]");
    assert Visible("]") == "]";
  }

  lemma VisibleListText(key: string, body: string)
    requires Visible(key) == key
    ensures Visible(ListText(key, body)) == key + ":[" + Visible(body) + "]"
  {
    assert key + ": [\n" + body + "\n]" == key + "" + ":" + " " + "[" + "\n" + body + "\n" + "]";
    assert Visible("") == [] && Visible(" ") == [] && Visible("\n") == [];
    VisibleListShape(key, "", " ", "\n", body, "\n");
  }

  /** What is visible in one whole array match, given its positions. */
  lemma ListPiecesVisible(t: string, p: nat, key: string, k: nat, m: nat, n: nat, e: nat, c: nat)
    requires p + |key| <= k < m < n <= e <= c < |t|
    requires key == "#ship-list" || key == "ship-list"
    requires t[p..p + |key|] == key && t[k] == ':' && t[m] == '[' && t[c] == ']'
    requires forall j :: p + |key| <= j < k ==> IsSpace(t[j])
    requires forall j :: k + 1 <= j < m ==> IsSpace(t[j])
    requires forall j :: m + 1 <= j < n ==> IsSpace(t[j])
    requires AllSpace(t[e..c])
    ensures Visible(t[p..c + 1]) == key + ":[" + Visible(t[n..e]) + "]"
  {
    VisibleOpeningSlice(t, p, key, k, m, n);
    VisibleClosingSlice(t, n, e, c);
    VisibleAround(t, p, n, e, c, key + ":[");
  }

  /** The visible text of a match is that of its head, of its body and the
      closing bracket. */
  lemma VisibleAround(t: string, p: nat, n: nat, e: nat, c: nat, head: string)
    requires p <= n <= e <= c < |t|
    requires Visible(t[p..n]) == head && Visible(t[n..c + 1]) == Visible(t[n..e]) + "]"
    ensures Visible(t[p..c + 1]) == head + Visible(t[n..e]) + "]"
  {
    VisibleSplit(t, p, n, c + 1);
  }

  lemma VisibleOpeningSlice(t: string, p: nat, key: string, k: nat, m: nat, n: nat)
    requires p + |key| <= k < m < n <= |t|
    requires key == "#ship-list" || key == "ship-list"
    requires t[p..p + |key|] == key && t[k] == ':' && t[m] == '['
    requires forall j :: p + |key| <= j < k ==> IsSpace(t[j])
    requires forall j :: k + 1 <= j < m ==> IsSpace(t[j])
    requires forall j :: m + 1 <= j < n ==> IsSpace(t[j])
    ensures Visible(t[p..n]) == key + ":["
  {
    var w1, w2, w3 := t[p + |key|..k], t[k + 1..m], t[m + 1..n];
    OpeningSlice(t, p, key, k, m, n);
    KeysUnspaced(key);
    VisibleAllSpace(w1);
    VisibleAllSpace(w2);
    VisibleAllSpace(w3);
    VisibleOpening(key, w1, w2, w3);
  }

  lemma VisibleClosingSlice(t: string, n: nat, e: nat, c: nat)
    requires n <= e <= c < |t| && t[c] == ']' && AllSpace(t[e..c])
    ensures Visible(t[n..c + 1]) == Visible(t[n..e]) + "]"
  {
    ClosingSlice(t, n, e, c);
    VisibleAllSpace(t[e..c]);
    VisibleClosing(t[n..e], t[e..c]);
  }

  lemma OpeningSlice(t: string, p: nat, key: string, k: nat, m: nat, n: nat)
    requires p + |key| <= k < m < n <= |t|
    requires t[p..p + |key|] == key && t[k] == ':' && t[m] == '['
    ensures t[p..n] == key + t[p + |key|..k] + ":" + t[k + 1..m] + "[" + t[m + 1..n]
  {
  }

  lemma ClosingSlice(t: string, n: nat, e: nat, c: nat)
    requires n <= e <= c < |t| && t[c] == ']'
    ensures t[n..c + 1] == t[n..e] + t[e..c] + "]"
  {
  }

  /** The array substitution, corrected, only changes whitespace. */
  lemma {:induction false} SubListsVisible(t: string, p: nat)
    requires p <= |t|
    ensures Visible(SubListsFrom(t, p, true)) == Visible(t[p..])
    decreases |t| - p
  {
    if p < |t| {
      var q := Resume(t, p);
      SubListsStep(t, p, true);
      SubListsVisible(t, q);
      PieceVisible(t, p, q, SubListsFrom(t, q, true));
    }
  }

  /** What the substitution writes at `p`, followed by a tail that looks
      like the rest of the text, looks like the text from `p` on. */
  lemma PieceVisible(t: string, p: nat, q: nat, rest': string)
    requires p < |t| && q == Resume(t, p) && Visible(rest') == Visible(t[q..])
    ensures Visible(Piece(t, p, true) + rest') == Visible(t[p..])
  {
    match ListMatchAt(t, p)
    case None =>
      PieceNoMatch(t, p, true);
      CharSpliceVisible(t, p, rest');
    case Some(v) =>
      PieceAtMatch(t, p, v, true);
      ListMatchShape(t, p, v);
      ListPiecesVisible(t, p, v.key, v.colon, v.bracket, v.n, v.e, v.close);
      ListSpliceVisible(t, p, v, rest');
  }

  /** A text cut into what precedes `b`, `s[b..c + 1]` and what follows `c`. */
  lemma SliceAround(s: string, b: nat, c: nat)
    requires b < c < |s|
    ensures s == s[..b] + ([s[b]] + s[b + 1..c] + [s[c]]) + s[c + 1..]
  {
    assert s[b..c + 1] == [s[b]] + s[b + 1..c] + [s[c]];
    assert s == s[..b] + s[b..c + 1] + s[c + 1..];
  }

  /** One character kept, and a tail that looks the same as the rest. */
  lemma CharSpliceVisible(t: string, p: nat, rest': string)
    requires p < |t| && Visible(rest') == Visible(t[p + 1..])
    ensures Visible([t[p]] + rest') == Visible(t[p..])
  {
    SplitTail(t, p, p + 1);
    assert t[p..p + 1] == [t[p]];
    VisibleHeadSpliced([t[p]], [t[p]], t[p + 1..], rest');
  }

  /** One array match rewritten, and a tail that looks the same as the rest. */
  lemma ListSpliceVisible(t: string, p: nat, v: ListMatch, rest': string)
    requires p <= v.n <= v.e <= v.close < |t|
    requires v.key == "#ship-list" || v.key == "ship-list"
    requires Visible(t[p..v.close + 1]) == v.key + ":[" + Visible(t[v.n..v.e]) + "]"
    requires Visible(rest') == Visible(t[v.close + 1..])
    ensures Visible(ListText(v.key, SubMaps(t[v.n..v.e], MapFixer(true))) + rest') == Visible(t[p..])
  {
    var body := SubMaps(t[v.n..v.e], MapFixer(true));
    MapFixerKeepsLook();
    SubMapsVisible(t[v.n..v.e], MapFixer(true));
    KeysUnspaced(v.key);
    VisibleListText(v.key, body);
    SplitTail(t, p, v.close + 1);
    VisibleHeadSpliced(t[p..v.close + 1], ListText(v.key, body), t[v.close + 1..], rest');
  }

  /** The whole pass, with `fix_flow_map` corrected, changes layout only. */
  lemma PostprocessKeepsVisible(text: string)
    ensures Visible(PostprocessHjsonText(text)) == Visible(text)
  {
    SubListsVisible(text, 0);
    assert text[0..] == text;
  }

  /** As written it does not: the escaped quote in a ship's string is lost. */
  lemma PostprocessAsWrittenLosesEscape()
    ensures Visible(PostprocessAsWritten("ship-list:[{\"a\\\"b\"}]")) != Visible("ship-list:[{\"a\\\"b\"}]")
  {
    var fixed := "{\"a\\b\"}";
    ExampleOutput();
    KeysUnspaced("ship-list");
    VisibleListText("ship-list", fixed);
    ExampleUnspaced();
    ExampleTextUnspaced();
  }

  /** The as-written pass on the example text. */
  lemma ExampleOutput()
    ensures PostprocessAsWritten("ship-list:[{\"a\\\"b\"}]") == ListText("ship-list", "{\"a\\b\"}")
  {
    var t := "ship-list:[{\"a\\\"b\"}]";
    var lm := ListMatch("ship-list", 9, 10, 11, 19, 19);
    ExampleListMatch();
    SubListsMatchUnfold(t, 0, lm, false);
    ExampleBody();
    ExampleSubMaps();
    assert SubListsFrom(t, 20, false) == [];
    EmptyAfter(ListText("ship-list", "{\"a\\b\"}"));
  }

  lemma ExampleBody()
    ensures "ship-list:[{\"a\\\"b\"}]"[11..19] == "{\"a\\\"b\"}"
  {
  }

  lemma EmptyAfter(f: string)
    ensures f + [] == f
  {
  }

  /** One step of the array substitution at a match. */
  lemma SubListsMatchUnfold(t: string, p: nat, lm: ListMatch, keepEscaped: bool)
    requires p < |t| && ListMatchAt(t, p) == Some(lm)
    ensures SubListsFrom(t, p, keepEscaped)
         == ListText(lm.key, SubMaps(t[lm.n..lm.e], MapFixer(keepEscaped))) + SubListsFrom(t, lm.close + 1, keepEscaped)
  {
    SubListsStep(t, p, keepEscaped);
    PieceAtMatch(t, p, lm, keepEscaped);
  }

  /** One step of the array substitution. */
  lemma SubListsStep(t: string, p: nat, keepEscaped: bool)
    requires p < |t|
    ensures SubListsFrom(t, p, keepEscaped) == Piece(t, p, keepEscaped) + SubListsFrom(t, Resume(t, p), keepEscaped)
  {
  }

  /** Where the pattern matches, the array is rewritten and the scan resumes after its `]`. */
  lemma PieceAtMatch(t: string, p: nat, lm: ListMatch, keepEscaped: bool)
    requires p < |t| && ListMatchAt(t, p) == Some(lm)
    ensures Piece(t, p, keepEscaped) == ListText(lm.key, SubMaps(t[lm.n..lm.e], MapFixer(keepEscaped)))
    ensures Resume(t, p) == lm.close + 1
  {
  }

  /** Elsewhere one character is copied and the scan moves on by one. */
  lemma PieceNoMatch(t: string, p: nat, keepEscaped: bool)
    requires p < |t| && ListMatchAt(t, p).None?
    ensures Piece(t, p, keepEscaped) == [t[p]] && Resume(t, p) == p + 1
  {
  }

  /** The example text has no whitespace. */
  lemma ExampleTextUnspaced()
    ensures Visible("ship-list:[{\"a\\\"b\"}]") == "ship-list:[{\"a\\\"b\"}]"
  {
    var t := "ship-list:[{\"a\\\"b\"}]";
    forall i | 0 <= i < |t| ensures !IsSpace(t[i]) {
      assert i == 0 || i == 1 || i == 2 || i == 3 || i == 4 || i == 5 || i == 6 || i == 7 || i == 8 || i == 9
          || i == 10 || i == 11 || i == 12 || i == 13 || i == 14 || i == 15 || i == 16 || i == 17 || i == 18 || i == 19;
    }
    VisibleUnspaced(t);
  }

  /** The array pattern on the example text. */
  lemma ExampleListMatch()
    ensures ListMatchAt("ship-list:[{\"a\\\"b\"}]", 0) == Some(ListMatch("ship-list", 9, 10, 11, 19, 19))
  {
    var t := "ship-list:[{\"a\\\"b\"}]";
    assert t[0] == 's' && t[9] == ':' && t[10] == '[' && t[11] == '{' && t[18] == '}' && t[19] == ']';
    assert t[0..10][0] != "#ship-list"[0];
    assert t[0..9] == "ship-list";
    assert WsRun(t, 9) == 9 && WsRun(t, 10) == 10 && WsRun(t, 11) == 11;
    forall j | 11 <= j < 19 ensures t[j] != ']' {
      assert j == 11 || j == 12 || j == 13 || j == 14 || j == 15 || j == 16 || j == 17 || j == 18;
    }
    FindChar(t, ']', 11, 19);
    assert SpaceBefore(t, 11, 19) == 19;
  }

  /** The map pattern on the example array body, as written. */
  lemma ExampleSubMaps()
    ensures SubMaps("{\"a\\\"b\"}", MapFixer(false)) == "{\"a\\b\"}"
  {
    var body := "{\"a\\\"b\"}";
    assert body[1..7] == "\"a\\\"b\"";
    assert body[0] == '{' && body[7] == '}';
    forall j | 1 <= j < 7 ensures body[j] != '}' {
      assert j == 1 || j == 2 || j == 3 || j == 4 || j == 5 || j == 6;
    }
    SubMapsSingle(body, MapFixer(false));
    FixFlowMapDropsEscaped();
  }

  /** A body that is one flow map and nothing else. */
  lemma SubMapsSingle(body: string, fix: string -> string)
    requires |body| >= 2 && body[0] == '{' && body[|body| - 1] == '}'
    requires forall j :: 1 <= j < |body| - 1 ==> body[j] != '}'
    ensures SubMaps(body, fix) == fix(body[1..|body| - 1])
  {
    var c := |body| - 1;
    FindChar(body, '{', 0, 0);
    FindChar(body, '}', 1, c);
    SubMapsUnfold(body, 0, c, fix);
    assert body[..0] == [] && body[c + 1..] == [];
    assert SubMaps([], fix) == [];
    EmptyAround(fix(body[1..c]));
  }

  lemma EmptyAround(f: string)
    ensures [] + f + [] == f
  {
  }

  /** `find` of one character, given where it first occurs. */
  lemma FindChar(s: string, ch: char, from: nat, r: nat)
    requires from <= r < |s| && s[r] == ch
    requires forall j :: from <= j < r ==> s[j] != ch
    ensures Find(s, [ch], from) == r
  {
    var f := Find(s, [ch], from);
    assert s[r..r + 1] == [ch];
    assert OccursAt(s, [ch], r);
    if f != -1 {
      assert s[f..f + 1][0] == s[f];
    }
  }
}
