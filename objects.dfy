/**
 * `_iter_object_spans_for_key`: every match of the key search whose value
 * equals the wanted key, resolved to the `{…}` object around it by
 * `find_object_bounds`.
 */
module ObjectFinder {
  import opened Wrappers
  import opened PyText
  import opened Scanner
  import opened Pattern

  /** The backward walk of `find_object_bounds` from `i` down to 0: strings
      are tracked (a backslash escapes while walking backwards too), `}`
      deepens, and the first `{` met at depth zero is the start. */
  function BackwardOpen(t: string, i: int, q: Quote, esc: bool, depth: int): (r: Option<nat>)
    requires -1 <= i < |t|
    ensures r.Some? ==> r.value <= i && t[r.value] == '{'
    decreases i + 1
  {
    if i < 0 then None
    else
      var ch := t[i];
      if q != Unquoted then
        if esc then BackwardOpen(t, i - 1, q, false, depth)
        else if ch == '\\' then BackwardOpen(t, i - 1, q, true, depth)
        else if (q == Double && ch == '"') || (q == Single && ch == '\'') then BackwardOpen(t, i - 1, Unquoted, esc, depth)
        else BackwardOpen(t, i - 1, q, esc, depth)
      else if ch == '"' then BackwardOpen(t, i - 1, Double, esc, depth)
      else if ch == '\'' then BackwardOpen(t, i - 1, Single, esc, depth)
      else if ch == '}' then BackwardOpen(t, i - 1, q, esc, depth + 1)
      else if ch == '{' then
        if depth == 0 then Some(i) else BackwardOpen(t, i - 1, q, esc, depth - 1)
      else BackwardOpen(t, i - 1, q, esc, depth)
  }

  /** A `{` preceded on its line only by whitespace. */
  predicate LineAnchoredBrace(t: string, b: nat)
    requires b < |t|
  {
    t[b] == '{' && AllSpace(t[LineStart(t, b)..b])
  }

  /** The fallback of `find_object_bounds`: the brace of the last match of
      `^\s*\{` (MULTILINE) in `t[..b + 1]`, which is the greatest position
      at most `b` holding a line-anchored brace. */
  function LastAnchoredBrace(t: string, b: int): (r: Option<nat>)
    requires b < |t|
    ensures r.Some? ==> r.value <= b && LineAnchoredBrace(t, r.value)
    ensures r.Some? ==> forall j :: r.value < j <= b ==> !LineAnchoredBrace(t, j)
    ensures r.None? ==> forall j :: 0 <= j <= b ==> !LineAnchoredBrace(t, j)
    decreases b + 1
  {
    if b < 0 then None
    else if LineAnchoredBrace(t, b) then Some(b)
    else LastAnchoredBrace(t, b - 1)
  }

  /** `find_object_bounds(anchor)`: the opening brace from the backward walk,
      or else the fallback, balanced forwards with comments and strings
      respected. */
  function ObjectBounds(t: string, anchor: nat): (r: Option<(nat, nat)>)
    requires anchor < |t|
    ensures r.Some? ==> r.value.0 <= anchor && r.value.0 < r.value.1 <= |t|
    ensures r.Some? ==> t[r.value.0] == '{' && t[r.value.1 - 1] == '}'
  {
    var open := match BackwardOpen(t, anchor, Unquoted, false, 0)
      case Some(b) => Some(b)
      case None => LastAnchoredBrace(t, anchor - 1);
    match open
    case None => None
    case Some(b) =>
      match Balance(ObjectDialect, t, b)
      case None => None
      case Some(e) => Some((b, e))
  }

  /** The backward walk of `find_object_bounds`. */
  method WalkBack(raw: string, anchor: nat) returns (start: Option<nat>)
    requires anchor < |raw|
    ensures start == BackwardOpen(raw, anchor, Unquoted, false, 0)
  {
    var i: int := anchor;
    var depth := 0;
    var q := Unquoted;
    var esc := false;
    while i >= 0
      invariant -1 <= i <= anchor
      invariant BackwardOpen(raw, i, q, esc, depth) == BackwardOpen(raw, anchor, Unquoted, false, 0)
    {
      var ch := raw[i];
      if q != Unquoted {
        if esc {
          esc := false;
        } else if ch == '\\' {
          esc := true;
        } else if (q == Double && ch == '"') || (q == Single && ch == '\'') {
          q := Unquoted;
        }
      } else {
        if ch == '"' {
          q := Double;
        } else if ch == '\'' {
          q := Single;
        } else if ch == '}' {
          depth := depth + 1;
        } else if ch == '{' {
          if depth == 0 {
            return Some(i);
          }
          depth := depth - 1;
        }
      }
      i := i - 1;
    }
    return None;
  }

  /** `find_object_bounds`. */
  method FindObjectBounds(raw: string, anchor: nat) returns (r: Option<(nat, nat)>)
    requires anchor < |raw|
    ensures r == ObjectBounds(raw, anchor)
    ensures r.Some? ==> raw[r.value.0] == '{' && raw[r.value.1 - 1] == '}' && r.value.0 <= anchor
  {
    var start := WalkBack(raw, anchor);
    if start.None? {
      start := LastAnchoredBrace(raw, anchor - 1);
      if start.None? {
        return None;
      }
    }
    var end := BalanceScan(ObjectDialect, raw, start.value);
    if end.None? {
      return None;
    }
    return Some((start.value, end.value));
  }

  /** The spans for the key matches in `ms` whose value is `wanted` and
      whose enclosing object resolves, in match order. */
  function SpansFor(raw: string, ms: seq<(nat, Token)>, wanted: string): (spans: seq<(nat, nat)>)
    requires forall k :: 0 <= k < |ms| ==> ms[k].0 < |raw|
    ensures forall j :: 0 <= j < |spans| ==> spans[j].0 < spans[j].1 <= |raw| && raw[spans[j].0] == '{' && raw[spans[j].1 - 1] == '}'
  {
    if ms == [] then []
    else
      var here := if ms[0].1.content == wanted then ObjectBounds(raw, ms[0].0) else None;
      var rest := SpansFor(raw, ms[1..], wanted);
      if here.Some? then [here.value] + rest else rest
  }

  /** `_iter_object_spans_for_key(raw, wanted)`, every span it yields. */
  function ObjectSpansForKey(raw: string, wanted: string): (spans: seq<(nat, nat)>)
    ensures forall j :: 0 <= j < |spans| ==> spans[j].0 < spans[j].1 <= |raw| && raw[spans[j].0] == '{' && raw[spans[j].1 - 1] == '}'
  {
    SpansFor(raw, KeyMatches(raw), wanted)
  }

  lemma {:induction false} SpansForSound(raw: string, ms: seq<(nat, Token)>, wanted: string, sp: (nat, nat))
    requires forall k :: 0 <= k < |ms| ==> ms[k].0 < |raw|
    requires sp in SpansFor(raw, ms, wanted)
    ensures exists k :: 0 <= k < |ms| && ms[k].1.content == wanted && ObjectBounds(raw, ms[k].0) == Some(sp)
  {
    var here := if ms[0].1.content == wanted then ObjectBounds(raw, ms[0].0) else None;
    if here != Some(sp) {
      SpansForSound(raw, ms[1..], wanted, sp);
      var k :| 0 <= k < |ms[1..]| && ms[1..][k].1.content == wanted && ObjectBounds(raw, ms[1..][k].0) == Some(sp);
      assert ms[1..][k] == ms[k + 1];
    }
  }

  /** Each yielded span comes from a key match whose value is exactly
      `wanted`. */
  lemma ObjectSpansSound(raw: string, wanted: string, sp: (nat, nat))
    requires sp in ObjectSpansForKey(raw, wanted)
    ensures exists k :: 0 <= k < |KeyMatches(raw)| && KeyMatches(raw)[k].1.content == wanted
                        && ObjectBounds(raw, KeyMatches(raw)[k].0) == Some(sp)
  {
    SpansForSound(raw, KeyMatches(raw), wanted, sp);
  }

  /** Conversely, a key match for `wanted` whose object resolves yields
      that object's span. */
  lemma {:induction false} SpansForComplete(raw: string, ms: seq<(nat, Token)>, wanted: string, k: nat)
    requires forall j :: 0 <= j < |ms| ==> ms[j].0 < |raw|
    requires k < |ms| && ms[k].1.content == wanted && ObjectBounds(raw, ms[k].0).Some?
    ensures ObjectBounds(raw, ms[k].0).value in SpansFor(raw, ms, wanted)
  {
    if k > 0 {
      SpansForComplete(raw, ms[1..], wanted, k - 1);
      assert ms[1..][k - 1] == ms[k];
    }
  }

  /** The loop of `_iter_object_spans_for_key` over the key matches `ms`. */
  method CollectSpans(raw: string, ms: seq<(nat, Token)>, wanted: string) returns (spans: seq<(nat, nat)>)
    requires forall k :: 0 <= k < |ms| ==> ms[k].0 < |raw|
    ensures spans == SpansFor(raw, ms, wanted)
  {
    spans := [];
    var i := 0;
    while i < |ms|
      invariant 0 <= i <= |ms|
      invariant spans + SpansFor(raw, ms[i..], wanted) == SpansFor(raw, ms, wanted)
    {
      assert ms[i..][1..] == ms[i + 1..] && ms[i..][0] == ms[i];
      var (start, tok) := ms[i];
      if tok.content == wanted {
        var bounds := FindObjectBounds(raw, start);
        if bounds.Some? {
          spans := spans + [bounds.value];
        }
      }
      i := i + 1;
    }
    assert ms[|ms|..] == [];
  }

  /** `_iter_object_spans_for_key`, collecting what it yields. */
  method IterObjectSpansForKey(raw: string, wanted: string) returns (spans: seq<(nat, nat)>)
    ensures spans == ObjectSpansForKey(raw, wanted)
  {
    var ms := KeyMatches(raw);
    spans := CollectSpans(raw, ms, wanted);
  }
}
