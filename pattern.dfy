// Hand-written matchers for the regular expressions the patcher relies
// on, following the backtracking order of Python's `re`: alternatives left
// to right, greedy repetition longest first, lazy repetition shortest
// first, and the leftmost match start.
//
// Shared tail after a key: `\s*:\s*`, then the comment run
// `(?:\s*(?://[^\n]*|#[^\n]*|/\*.*?\*/))*` (with DOTALL), then a value.
module Pattern {
  import opened Wrappers
  import opened PyText
  import opened Scanner

  /** The alternatives for the value after the comment run. */
  datatype ValueKind =
    | KeyValue    // `"(…)"`, `'(…)'` or a bare run of `[A-Za-z0-9_\-\.]`, as in the key search
    | PatchValue  // `"(…)"`, `'(…)'+` or a bare run of `[^,\r\n}\]]`, as in the scalar patcher

  /** A matched value: where it starts and ends, and the text its group captures. */
  datatype Token = Token(start: nat, end: nat, content: string)

  /** Index of the quote that closes a string whose body starts at `i`:
      a backslash takes the next character with it (not a newline unless
      `dotAll`), None if the text ends first. */
  function QuotedEnd(t: string, i: nat, quote: char, dotAll: bool): (r: Option<nat>)
    requires i <= |t|
    ensures r.Some? ==> i <= r.value < |t| && t[r.value] == quote
    decreases |t| - i
  {
    if i >= |t| then None
    else if t[i] == '\\' then
      if i + 1 < |t| && (dotAll || t[i + 1] != '\n') then QuotedEnd(t, i + 2, quote, dotAll) else None
    else if t[i] == quote then Some(i)
    else QuotedEnd(t, i + 1, quote, dotAll)
  }

  predicate BareKeyChar(c: char) {
    ('A' <= c <= 'Z') || ('a' <= c <= 'z') || IsDigit(c) || c == '_' || c == '-' || c == '.'
  }

  predicate BarePatchChar(c: char) {
    c != ',' && c != '\r' && c != '\n' && c != '}' && c != ']'
  }

  /** End of the run of `kind`'s bare characters starting at `i`. */
  function BareRun(kind: ValueKind, t: string, i: nat): (r: nat)
    requires i <= |t|
    ensures i <= r <= |t|
    decreases |t| - i
  {
    if i < |t| && (if kind == KeyValue then BareKeyChar(t[i]) else BarePatchChar(t[i])) then BareRun(kind, t, i + 1)
    else i
  }

  /** End of the run of single quotes starting at `i`. */
  function QuoteRun(t: string, i: nat): (r: nat)
    requires i <= |t|
    ensures i <= r <= |t|
    decreases |t| - i
  {
    if i < |t| && t[i] == '\'' then QuoteRun(t, i + 1) else i
  }

  /** The value alternatives of `kind` tried at `q`, first success wins. */
  function ValueAt(kind: ValueKind, t: string, q: nat): (r: Option<Token>)
    requires q <= |t|
    ensures r.Some? ==> r.value.start == q < r.value.end <= |t|
  {
    var dq := if q < |t| && t[q] == '"' then QuotedEnd(t, q + 1, '"', true) else None;
    var sq := if q < |t| && t[q] == '\'' then QuotedEnd(t, q + 1, '\'', true) else None;
    if dq.Some? then Some(Token(q, dq.value + 1, t[q + 1..dq.value]))
    else if sq.Some? then
      var e := if kind == PatchValue then QuoteRun(t, sq.value) else sq.value + 1;
      Some(Token(q, e, t[q + 1..sq.value]))
    else if kind == KeyValue && q < |t| && (t[q] == '"' || t[q] == '\'') then None
    else
      var e := BareRun(kind, t, q);
      if e > q then Some(Token(q, e, t[q..e])) else None
  }

  // The comment run and the value after it, explored in the order the
  // regex engine explores them. Each function returns the first token
  // found on the first path that succeeds.

  /** `\s*` then the comment run then the value, from `p`. */
  function AfterColon(kind: ValueKind, t: string, p: nat): (r: Option<Token>)
    requires p <= |t|
    ensures r.Some? ==> p <= r.value.start < r.value.end <= |t|
    decreases |t| - p + 1, 5, 0
  {
    GreedyThenStar(kind, t, p, WsRun(t, p))
  }

  /** A greedy run having taken `t[p..q]` (the `\s*` before the comment run,
      or the `[^\n]*` of a line comment), then the comment run; shorter runs
      are tried when the rest fails. */
  function GreedyThenStar(kind: ValueKind, t: string, p: nat, q: nat): (r: Option<Token>)
    requires p <= q <= |t|
    ensures r.Some? ==> p <= r.value.start < r.value.end <= |t|
    decreases |t| - p + 1, 4, q - p
  {
    match CommentStar(kind, t, q)
    case Some(x) => Some(x)
    case None => if q > p then GreedyThenStar(kind, t, p, q - 1) else None
  }

  /** The comment run at `p` (another comment first, greedily) then the value. */
  function CommentStar(kind: ValueKind, t: string, p: nat): (r: Option<Token>)
    requires p <= |t|
    ensures r.Some? ==> p <= r.value.start < r.value.end <= |t|
    decreases |t| - p + 1, 3, 0
  {
    match CommentIter(kind, t, p)
    case Some(x) => Some(x)
    case None => ValueAt(kind, t, p)
  }

  /** One more iteration of the comment run at `p`: `\s*` then a comment. */
  function CommentIter(kind: ValueKind, t: string, p: nat): (r: Option<Token>)
    requires p <= |t|
    ensures r.Some? ==> p <= r.value.start < r.value.end <= |t|
    decreases |t| - p + 1, 2, 0
  {
    WsThenComment(kind, t, p, WsRun(t, p))
  }

  function WsThenComment(kind: ValueKind, t: string, p: nat, q: nat): (r: Option<Token>)
    requires p <= q <= |t|
    ensures r.Some? ==> p <= r.value.start < r.value.end <= |t|
    decreases |t| - p + 1, 1, q - p
  {
    match CommentThenStar(kind, t, q)
    case Some(x) => Some(x)
    case None => if q > p then WsThenComment(kind, t, p, q - 1) else None
  }

  /** A comment at `q` (`//…`, `#…` or slash-star), then the rest of the run. */
  function CommentThenStar(kind: ValueKind, t: string, q: nat): (r: Option<Token>)
    requires q <= |t|
    ensures r.Some? ==> q <= r.value.start < r.value.end <= |t|
    decreases |t| - q + 1, 0, 0
  {
    if q + 1 < |t| && t[q] == '/' && t[q + 1] == '/' then GreedyThenStar(kind, t, q + 2, LineCommentEnd(t, q))
    else if q < |t| && t[q] == '#' then GreedyThenStar(kind, t, q + 1, LineCommentEnd(t, q))
    else if q + 1 < |t| && t[q] == '/' && t[q + 1] == '*' then BlockTail(kind, t, q + 2, q + 2)
    else None
  }

  /** `.*?` then the closing star-slash, trying each closer from `m` upwards. */
  function BlockTail(kind: ValueKind, t: string, lo: nat, m: nat): (r: Option<Token>)
    requires lo <= m <= |t|
    ensures r.Some? ==> lo <= r.value.start < r.value.end <= |t|
    decreases |t| - lo + 1, 6, |t| - m
  {
    if m + 1 >= |t| then None
    else if t[m] == '*' && t[m + 1] == '/' then
      match CommentStar(kind, t, m + 2)
      case Some(x) => Some(x)
      case None => BlockTail(kind, t, lo, m + 1)
    else BlockTail(kind, t, lo, m + 1)
  }

  /** `\s*:` at `p`, then the tail. */
  function ColonThenValue(kind: ValueKind, t: string, p: nat): (r: Option<Token>)
    requires p <= |t|
    ensures r.Some? ==> p < r.value.start < r.value.end <= |t|
  {
    var c := WsRun(t, p);
    if c < |t| && t[c] == ':' then AfterColon(kind, t, c + 1) else None
  }

  // ---- The key search of `_iter_object_spans_for_key` ----
  // `(?:"?[Kk]ey"?)\s*:\s*{comment}(?P<val>…)`, DOTALL | MULTILINE.

  /** A match of the key search starting exactly at `s`. The optional
      quotes are taken when present; giving them back cannot help. */
  function KeyMatchAt(t: string, s: nat): (r: Option<Token>)
    requires s <= |t|
    ensures r.Some? ==> s < r.value.start < r.value.end <= |t|
  {
    var a := if s < |t| && t[s] == '"' then s + 1 else s;
    if a + 3 <= |t| && (t[a] == 'K' || t[a] == 'k') && t[a + 1] == 'e' && t[a + 2] == 'y' then
      var b := if a + 3 < |t| && t[a + 3] == '"' then a + 4 else a + 3;
      ColonThenValue(KeyValue, t, b)
    else None
  }

  /** `finditer` from `s`: each match's start and value; the search resumes
      where the previous match ended. */
  function KeyMatchesFrom(t: string, s: nat): (ms: seq<(nat, Token)>)
    requires s <= |t|
    ensures forall k :: 0 <= k < |ms| ==> s <= ms[k].0 < |t| && KeyMatchAt(t, ms[k].0) == Some(ms[k].1)
    decreases |t| - s
  {
    if s == |t| then []
    else
      match KeyMatchAt(t, s)
      case Some(tok) => [(s, tok)] + KeyMatchesFrom(t, tok.end)
      case None => KeyMatchesFrom(t, s + 1)
  }

  function KeyMatches(t: string): (ms: seq<(nat, Token)>)
    ensures forall k :: 0 <= k < |ms| ==> ms[k].0 < |t| && KeyMatchAt(t, ms[k].0) == Some(ms[k].1)
  {
    KeyMatchesFrom(t, 0)
  }

  /** The key search has no prefix constraint: the tail of a longer word
      such as `monkey` matches. */
  lemma NoPrefixConstraint()
    ensures KeyMatchAt("monkey: x", 3) == Some(Token(8, 9, "x"))
  {
    var t := "monkey: x";
    assert WsRun(t, 6) == 6;
    assert WsRun(t, 7) == 8;
    assert WsRun(t, 8) == 8;
    assert CommentIter(KeyValue, t, 8) == None;
    assert BareRun(KeyValue, t, 9) == 9;
    assert BareRun(KeyValue, t, 8) == 9;
    assert t[8..9] == "x";
    assert ValueAt(KeyValue, t, 8) == Some(Token(8, 9, "x"));
    assert CommentStar(KeyValue, t, 8) == Some(Token(8, 9, "x"));
  }

  // ---- The block patterns of the scalar and list patchers ----
  // `(?:"(?:k1|k2…)"|(?:k1|k2…))\s*:\s*{comment}` followed, for the scalar
  // patcher, by the value token.

  /** The key alternatives at `s`: each key in order, quoted when `quoted`;
      the first whose continuation `then` succeeds gives the result. */
  function KeyAltValue(t: string, keys: seq<string>, s: nat, quoted: bool): (r: Option<Token>)
    requires s <= |t|
    ensures r.Some? ==> s < r.value.start < r.value.end <= |t|
    decreases |keys|
  {
    if keys == [] then None
    else
      var lit := if quoted then "\"" + keys[0] + "\"" else keys[0];
      var here := if OccursAt(t, lit, s) then ColonThenValue(PatchValue, t, s + |lit|) else None;
      if here.Some? then here else KeyAltValue(t, keys[1..], s, quoted)
  }

  /** The scalar patcher's pattern matched at `s`: the whole quoted
      alternative before the bare one. */
  function PatchMatchAt(t: string, keys: seq<string>, s: nat): (r: Option<Token>)
    requires s <= |t|
    ensures r.Some? ==> s < r.value.start < r.value.end <= |t|
  {
    var quoted := KeyAltValue(t, keys, s, true);
    if quoted.Some? then quoted else KeyAltValue(t, keys, s, false)
  }

  /** The leftmost match of the scalar patcher's pattern at or after `s`:
      its start and its value token. */
  function PatchSearch(t: string, keys: seq<string>, s: nat): (r: Option<(nat, Token)>)
    requires s <= |t|
    ensures r.Some? ==> s <= r.value.0 < r.value.1.start < r.value.1.end <= |t|
    ensures r.Some? ==> PatchMatchAt(t, keys, r.value.0) == Some(r.value.1)
    ensures r.Some? ==> forall s' :: s <= s' < r.value.0 ==> PatchMatchAt(t, keys, s').None?
    ensures r.None? ==> forall s' :: s <= s' <= |t| ==> PatchMatchAt(t, keys, s').None?
    decreases |t| - s
  {
    match PatchMatchAt(t, keys, s)
    case Some(tok) => Some((s, tok))
    case None => if s == |t| then None else PatchSearch(t, keys, s + 1)
  }

  /** The head pattern of the list patcher (no value): with nothing after the
      comment run, every repetition is as long as it can be. End of the
      comment run that starts at `p`. */
  function GreedyCommentRun(t: string, p: nat): (r: nat)
    requires p <= |t|
    ensures p <= r <= |t|
    decreases |t| - p
  {
    var q := WsRun(t, p);
    if q + 1 < |t| && t[q] == '/' && t[q + 1] == '/' then GreedyCommentRun(t, LineCommentEnd(t, q))
    else if q < |t| && t[q] == '#' then GreedyCommentRun(t, LineCommentEnd(t, q))
    else if q + 1 < |t| && t[q] == '/' && t[q + 1] == '*' then
      var e := Find(t, "*/", q + 2);
      if e == -1 then p else GreedyCommentRun(t, e + 2)
    else p
  }

  /** End of a head match whose key (quoted when `quoted`) is tried at `s`. */
  function KeyAltHead(t: string, keys: seq<string>, s: nat, quoted: bool): (r: Option<nat>)
    requires s <= |t|
    ensures r.Some? ==> s < r.value <= |t|
    decreases |keys|
  {
    if keys == [] then None
    else
      var lit := if quoted then "\"" + keys[0] + "\"" else keys[0];
      var c := if OccursAt(t, lit, s) then WsRun(t, s + |lit|) else |t|;
      if OccursAt(t, lit, s) && c < |t| && t[c] == ':' then Some(GreedyCommentRun(t, WsRun(t, c + 1)))
      else KeyAltHead(t, keys[1..], s, quoted)
  }

  function HeadMatchAt(t: string, keys: seq<string>, s: nat): (r: Option<nat>)
    requires s <= |t|
    ensures r.Some? ==> s < r.value <= |t|
  {
    var quoted := KeyAltHead(t, keys, s, true);
    if quoted.Some? then quoted else KeyAltHead(t, keys, s, false)
  }

  /** `head_rx.search(block)`: start and end of the leftmost head match. */
  function HeadSearch(t: string, keys: seq<string>, s: nat): (r: Option<(nat, nat)>)
    requires s <= |t|
    ensures r.Some? ==> s <= r.value.0 < r.value.1 <= |t| && HeadMatchAt(t, keys, r.value.0) == Some(r.value.1)
    ensures r.Some? ==> forall s' :: s <= s' < r.value.0 ==> HeadMatchAt(t, keys, s').None?
    ensures r.None? ==> forall s' :: s <= s' <= |t| ==> HeadMatchAt(t, keys, s').None?
    decreases |t| - s
  {
    match HeadMatchAt(t, keys, s)
    case Some(e) => Some((s, e))
    case None => if s == |t| then None else HeadSearch(t, keys, s + 1)
  }
}
