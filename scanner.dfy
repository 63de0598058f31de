/**
 * The index scanners of the surgical patcher: skipping whitespace and
 * comments (`//` and `#` to end of line, slash-star block comments), sniffing whether the
 * ship list is a bracketed array, balancing brackets or braces while
 * tracking quotes, and listing the top-level `{…}` blocks of the array.
 */
module Scanner {
  import opened Wrappers
  import opened PyText

  /** The spellings of the ship-list key, tried in this order. */
  const ShipListKeys: seq<string> :=
    ["\"#ship-list\"", "'#ship-list'", "#ship-list", "\"ship-list\"", "'ship-list'", "ship-list"]

  /** A `//` or `#` comment starts at `i`. */
  predicate LineCommentAt(t: string, i: nat) {
    i < |t| && (t[i] == '#' || (t[i] == '/' && i + 1 < |t| && t[i + 1] == '/'))
  }

  /** A block comment (slash, star) starts at `i`. */
  predicate BlockCommentAt(t: string, i: nat) {
    i + 1 < |t| && t[i] == '/' && t[i + 1] == '*'
  }

  /** Where a line comment starting at `i` stops: its newline, or the end of the text. */
  function LineCommentEnd(t: string, i: nat): (r: nat)
    requires i < |t|
    ensures i < r <= |t| || (r == i && t[i] == '\n')
    ensures r == |t| || t[r] == '\n'
    ensures forall j :: i <= j < r ==> t[j] != '\n'
  {
    var nl := Find(t, "\n", i);
    if nl == -1 then
      assert forall j :: i <= j < |t| ==> t[j] != '\n' by {
        forall j | i <= j < |t| ensures t[j] != '\n' { assert !OccursAt(t, "\n", j); }
      }
      |t|
    else
      assert OccursAt(t, "\n", nl);
      assert forall j :: i <= j < nl ==> t[j] != '\n' by {
        forall j | i <= j < nl ensures t[j] != '\n' { assert !OccursAt(t, "\n", j); }
      }
      nl
  }

  /** Just past a line comment starting at `i`: after its newline, or the end of the text. */
  function AfterLineComment(t: string, i: nat): (r: nat)
    requires i < |t|
    ensures i < r <= |t|
    ensures r == |t| || t[r - 1] == '\n'
    ensures forall j :: i <= j < r - 1 ==> t[j] != '\n'
  {
    var e := LineCommentEnd(t, i);
    if e == |t| then e else e + 1
  }

  /** Just past the star-slash that closes a block comment opened at `i`; an
      unterminated comment runs to the end of the text. */
  function AfterBlockComment(t: string, i: nat): (r: nat)
    requires BlockCommentAt(t, i)
    ensures i + 2 <= r <= |t|
    ensures (r == |t| && forall j :: i + 2 <= j ==> !OccursAt(t, "*/", j))
         || (i + 4 <= r && OccursAt(t, "*/", r - 2) && forall j :: i + 2 <= j < r - 2 ==> !OccursAt(t, "*/", j))
  {
    var e := Find(t, "*/", i + 2);
    if e == -1 then |t| else e + 2
  }

  /** The first significant position at or after `i`: not whitespace and
      not the start of a comment; `|t|` when the rest is insignificant. */
  function NextSignificant(t: string, i: nat): (r: nat)
    requires i <= |t|
    ensures i <= r <= |t|
    ensures r < |t| ==> !IsSpace(t[r]) && !LineCommentAt(t, r) && !BlockCommentAt(t, r)
    decreases |t| - i
  {
    if i == |t| then i
    else if IsSpace(t[i]) then NextSignificant(t, i + 1)
    else if LineCommentAt(t, i) then NextSignificant(t, AfterLineComment(t, i))
    else if BlockCommentAt(t, i) then NextSignificant(t, AfterBlockComment(t, i))
    else i
  }

  /** Where the value after the first occurrence of `key` begins: the first
      significant position after the next `:`. None when the key or the
      colon is missing or nothing significant follows. */
  function ValueStartAfterKey(t: string, key: string): (r: Option<nat>)
    ensures r.Some? ==> r.value < |t| && !IsSpace(t[r.value])
  {
    var p := Find(t, key, 0);
    if p == -1 then None
    else
      var c := Find(t, ":", p + |key|);
      if c == -1 then None
      else
        assert OccursAt(t, ":", c);
        ValueAfterColon(t, c)
  }

  /** The first significant position after the colon at `c`, if any. */
  function ValueAfterColon(t: string, c: nat): (r: Option<nat>)
    requires c < |t|
    ensures r.Some? ==> c < r.value < |t| && !IsSpace(t[r.value])
  {
    var j := NextSignificant(t, c + 1);
    if j < |t| then Some(j) else None
  }

  /** The sniffing rule over the keys still to try: the first key whose
      scan reaches a significant character decides, by whether that
      character is `[`. */
  function BracketedFrom(t: string, keys: seq<string>): bool
  {
    if keys == [] then false
    else
      match ValueStartAfterKey(t, keys[0])
      case Some(j) => t[j] == '['
      case None => BracketedFrom(t, keys[1..])
  }

  /** The ship list is a bracketed array. */
  predicate Bracketed(t: string) { BracketedFrom(t, ShipListKeys) }

  /** The rule read the other way: the answer is true exactly when some key
      reaches `[` and every key before it finds nothing to decide on. */
  lemma {:induction false} BracketedFromIff(t: string, keys: seq<string>)
    ensures BracketedFrom(t, keys) <==>
      exists m :: 0 <= m < |keys| && (forall l :: 0 <= l < m ==> ValueStartAfterKey(t, keys[l]).None?)
        && ValueStartAfterKey(t, keys[m]).Some? && t[ValueStartAfterKey(t, keys[m]).value] == '['
  {
    if keys != [] {
      BracketedFromIff(t, keys[1..]);
      if ValueStartAfterKey(t, keys[0]).None? {
        if BracketedFrom(t, keys) {
          var m :| 0 <= m < |keys[1..]| && (forall l :: 0 <= l < m ==> ValueStartAfterKey(t, keys[1..][l]).None?)
            && ValueStartAfterKey(t, keys[1..][m]).Some? && t[ValueStartAfterKey(t, keys[1..][m]).value] == '[';
          assert forall l :: 0 <= l < m + 1 ==> ValueStartAfterKey(t, keys[l]).None? by {
            forall l | 0 <= l < m + 1 ensures ValueStartAfterKey(t, keys[l]).None? {
              if l > 0 { assert keys[l] == keys[1..][l - 1]; }
            }
          }
          assert keys[m + 1] == keys[1..][m];
        } else {
          forall m | 0 <= m < |keys| && (forall l :: 0 <= l < m ==> ValueStartAfterKey(t, keys[l]).None?)
              && ValueStartAfterKey(t, keys[m]).Some?
            ensures t[ValueStartAfterKey(t, keys[m]).value] != '['
          {
            assert m > 0;
            assert keys[m] == keys[1..][m - 1];
            assert forall l :: 0 <= l < m - 1 ==> ValueStartAfterKey(t, keys[1..][l]).None? by {
              forall l | 0 <= l < m - 1 ensures ValueStartAfterKey(t, keys[1..][l]).None? {
                assert keys[1..][l] == keys[l + 1];
              }
            }
          }
        }
      }
    }
  }

  /** The skipping loop of `_looks_hjsonish` and `_extract_ship_list_region`:
      step over whitespace, line comments and block comments from `i`. */
  method SkipToSignificant(text: string, i0: nat) returns (i: nat)
    requires i0 <= |text|
    ensures i == NextSignificant(text, i0)
  {
    var n := |text|;
    i := i0;
    while i < n
      invariant i0 <= i <= n
      invariant NextSignificant(text, i) == NextSignificant(text, i0)
    {
      var ch := text[i];
      if IsSpace(ch) {
        i := i + 1;
      } else if LineCommentAt(text, i) {
        i := AfterLineComment(text, i);
      } else if BlockCommentAt(text, i) {
        i := AfterBlockComment(text, i);
      } else {
        return;
      }
    }
  }

  /** One key's turn in `_looks_hjsonish`: find the key, find the colon
      after it, and skip whitespace and comments. */
  method ScanAfterKey(text: string, k: string) returns (r: Option<nat>)
    ensures r == ValueStartAfterKey(text, k)
  {
    var p := Find(text, k, 0);
    if p == -1 {
      return None;
    }
    var c := Find(text, ":", p + |k|);
    if c == -1 {
      return None;
    }
    assert OccursAt(text, ":", c);
    r := ScanAfterColon(text, c);
  }

  /** The whitespace and comment skip after the colon at `c`. */
  method ScanAfterColon(text: string, c: nat) returns (r: Option<nat>)
    requires c < |text|
    ensures r == ValueAfterColon(text, c)
  {
    var i := SkipToSignificant(text, c + 1);
    if i < |text| {
      return Some(i);
    }
    return None;
  }

  /** The key loop of `_looks_hjsonish`: the first key whose scan reaches a
      significant character decides. */
  method SniffKeys(text: string, keys: seq<string>) returns (r: bool)
    ensures r == BracketedFrom(text, keys)
  {
    for ki := 0 to |keys|
      invariant BracketedFrom(text, keys[ki..]) == BracketedFrom(text, keys)
    {
      assert keys[ki..][1..] == keys[ki + 1..];
      var j := ScanAfterKey(text, keys[ki]);
      if j.Some? {
        return text[j.value] == '[';
      }
    }
    assert keys[|keys|..] == [];
    return false;
  }

  /** `_looks_hjsonish`: true when the ship list is a bracketed array. */
  method LooksHjsonish(text: string) returns (r: bool)
    ensures r == Bracketed(text)
  {
    r := SniffKeys(text, ShipListKeys);
  }

  /** The first-key loop of `_extract_ship_list_region`. */
  method FindFirstKey(text: string, keys: seq<string>) returns (r: Option<(nat, nat)>)
    ensures r == FirstKeyHit(text, keys)
  {
    var ki := 0;
    while ki < |keys|
      invariant 0 <= ki <= |keys|
      invariant FirstKeyHit(text, keys[ki..]) == FirstKeyHit(text, keys)
    {
      assert keys[ki..][1..] == keys[ki + 1..];
      var p := Find(text, keys[ki], 0);
      if p != -1 {
        return Some((p, |keys[ki]|));
      }
      ki := ki + 1;
    }
    assert keys[ki..] == [];
    return None;
  }

  /** The first key of `keys` that occurs anywhere in `t`, as (position, length). */
  function FirstKeyHit(t: string, keys: seq<string>): (r: Option<(nat, nat)>)
    ensures r.Some? ==> exists m :: 0 <= m < |keys| && OccursAt(t, keys[m], r.value.0) && |keys[m]| == r.value.1
  {
    if keys == [] then None
    else
      var p := Find(t, keys[0], 0);
      if p != -1 then Some((p, |keys[0]|)) else FirstKeyHit(t, keys[1..])
  }

  /** Quote state of a scanner. */
  datatype Quote = Unquoted | Double | Single

  /** What a bracket balancer counts and how it treats its input: the
      bracket pair, whether a backslash escapes inside strings, and whether
      a line comment is skipped past its newline or up to it. */
  datatype Dialect = Dialect(open: char, close: char, escapes: bool, skipsNewline: bool)

  /** `_extract_ship_list_region`: `[`/`]`; its escape test compares one
      character with a two-character string and so never fires. */
  const RegionDialect := Dialect('[', ']', false, true)
  /** The forward balance of `find_object_bounds`. */
  const ObjectDialect := Dialect('{', '}', true, false)
  /** The bracket balance of `_patch_list_in_block`. */
  const ListDialect := Dialect('[', ']', true, false)

  function SkipLineComment(d: Dialect, t: string, k: nat): (r: nat)
    requires LineCommentAt(t, k)
    ensures k < r <= |t|
  {
    if d.skipsNewline then AfterLineComment(t, k) else LineCommentEnd(t, k)
  }

  /** A balancer's state: position, quote state, escape flag and depth. */
  datatype BalState = BalState(k: nat, q: Quote, esc: bool, depth: int)

  /** One turn of a balancing loop: skip a comment (outside strings only),
      or consume one character. The flag reports a closing bracket that
      brought the depth back to zero. */
  function BalanceStep(d: Dialect, t: string, s: BalState): (r: (BalState, bool))
    requires s.k < |t|
    ensures s.k < r.0.k <= |t|
    ensures r.1 ==> r.0.k == s.k + 1 && t[s.k] == d.close
  {
    var k := s.k;
    if s.q == Unquoted && LineCommentAt(t, k) then (s.(k := SkipLineComment(d, t, k)), false)
    else if s.q == Unquoted && BlockCommentAt(t, k) then (s.(k := AfterBlockComment(t, k)), false)
    else
      var ch := t[k];
      if s.q != Unquoted then
        if s.esc then (s.(k := k + 1, esc := false), false)
        else if d.escapes && ch == '\\' then (s.(k := k + 1, esc := true), false)
        else if (s.q == Double && ch == '"') || (s.q == Single && ch == '\'') then (s.(k := k + 1, q := Unquoted), false)
        else (s.(k := k + 1), false)
      else if ch == '"' then (s.(k := k + 1, q := Double), false)
      else if ch == '\'' then (s.(k := k + 1, q := Single), false)
      else if ch == d.open then (s.(k := k + 1, depth := s.depth + 1), false)
      else if ch == d.close then (s.(k := k + 1, depth := s.depth - 1), s.depth - 1 == 0)
      else (s.(k := k + 1), false)
  }

  /** The balancer's scan from state `s`: the position just past the closing
      bracket that brings the depth back to zero, or None at end of text. */
  function BalanceFrom(d: Dialect, t: string, s: BalState): (r: Option<nat>)
    requires s.k <= |t|
    ensures r.Some? ==> s.k < r.value <= |t| && t[r.value - 1] == d.close
    decreases |t| - s.k
  {
    if s.k == |t| then None
    else
      var (s', hit) := BalanceStep(d, t, s);
      if hit then Some(s'.k) else BalanceFrom(d, t, s')
  }

  /** Balance from `start`, outside any string at depth zero. */
  function Balance(d: Dialect, t: string, start: nat): (r: Option<nat>)
    requires start <= |t|
    ensures r.Some? ==> start < r.value <= |t| && t[r.value - 1] == d.close
  {
    BalanceFrom(d, t, BalState(start, Unquoted, false, 0))
  }

  /** The balancing loop shared by the region finder, the object finder
      and the list patcher. */
  method BalanceScan(d: Dialect, t: string, start: nat) returns (r: Option<nat>)
    requires start <= |t|
    ensures r == Balance(d, t, start)
    ensures r.Some? ==> start < r.value <= |t| && t[r.value - 1] == d.close
  {
    var n := |t|;
    var k := start;
    var q := Unquoted;
    var esc := false;
    var depth := 0;
    while k < n
      invariant start <= k <= n
      invariant BalanceFrom(d, t, BalState(k, q, esc, depth)) == Balance(d, t, start)
    {
      ghost var next := BalanceStep(d, t, BalState(k, q, esc, depth));
      var ch := t[k];
      if q == Unquoted {
        if LineCommentAt(t, k) {
          k := SkipLineComment(d, t, k);
          continue;
        }
        if BlockCommentAt(t, k) {
          k := AfterBlockComment(t, k);
          continue;
        }
      }
      if q != Unquoted {
        if esc {
          esc := false;
        } else if d.escapes && ch == '\\' {
          esc := true;
        } else if (q == Double && ch == '"') || (q == Single && ch == '\'') {
          q := Unquoted;
        }
      } else {
        if ch == '"' {
          q := Double;
        } else if ch == '\'' {
          q := Single;
        } else if ch == d.open {
          depth := depth + 1;
        } else if ch == d.close {
          depth := depth - 1;
          if depth == 0 {
            return Some(k + 1);
          }
        }
      }
      k := k + 1;
      assert next.0 == BalState(k, q, esc, depth) && !next.1;
    }
    return None;
  }

  /** Bracket depth of a text free of strings and comments: opens minus closes. */
  function Depth(d: Dialect, s: string): int
  {
    if s == [] then 0
    else Depth(d, s[..|s| - 1]) + (if s[|s| - 1] == d.open then 1 else if s[|s| - 1] == d.close then -1 else 0)
  }

  /** Independent reference: the least `m` in `(k, |t|]` at which the bracket
      count of `t[start..m]` is zero. */
  function FirstZero(d: Dialect, t: string, start: nat, k: nat): Option<nat>
    requires start <= k <= |t|
    decreases |t| - k
  {
    if k == |t| then None
    else if Depth(d, t[start..k + 1]) == 0 then Some(k + 1)
    else FirstZero(d, t, start, k + 1)
  }

  /** The text from `start` has no quote and no comment marker. */
  predicate PlainFrom(t: string, start: nat) {
    forall j :: start <= j < |t| ==> t[j] != '"' && t[j] != '\'' && t[j] != '#' && t[j] != '/'
  }

  predicate PlainDialect(d: Dialect) {
    d.open != d.close && d.open != '"' && d.open != '\'' && d.open != '#' && d.open != '/'
    && d.close != '"' && d.close != '\'' && d.close != '#' && d.close != '/'
  }

  lemma DepthSnoc(d: Dialect, t: string, start: nat, k: nat)
    requires start <= k < |t|
    ensures Depth(d, t[start..k + 1]) == Depth(d, t[start..k]) + (if t[k] == d.open then 1 else if t[k] == d.close then -1 else 0)
  {
    assert t[start..k + 1][..k - start] == t[start..k];
  }

  lemma {:induction false} BalanceFromPlain(d: Dialect, t: string, start: nat, k: nat)
    requires start < k <= |t| && PlainDialect(d) && PlainFrom(t, start)
    requires Depth(d, t[start..k]) >= 1
    ensures BalanceFrom(d, t, BalState(k, Unquoted, false, Depth(d, t[start..k]))) == FirstZero(d, t, start, k)
    decreases |t| - k
  {
    if k < |t| {
      DepthSnoc(d, t, start, k);
      if Depth(d, t[start..k + 1]) != 0 {
        BalanceFromPlain(d, t, start, k + 1);
      }
    }
  }

  /** On text without strings or comments, balancing from an opening
      bracket stops exactly where the bracket count first returns to zero. */
  lemma BalancePlain(d: Dialect, t: string, start: nat)
    requires start < |t| && t[start] == d.open && PlainDialect(d) && PlainFrom(t, start)
    ensures Balance(d, t, start) == FirstZero(d, t, start, start)
  {
    DepthSnoc(d, t, start, start);
    assert t[start..start] == [];
    BalanceFromPlain(d, t, start, start + 1);
  }

  /** The bracketed ship-list array as `_extract_ship_list_region` finds it:
      the first key (in order) found anywhere, the next colon, the first
      significant character after it, which must be `[`, and the `]` that
      balances it. */
  function ShipListRegion(t: string): (r: Option<(nat, nat)>)
    ensures r.Some? ==> r.value.0 < r.value.1 <= |t| && t[r.value.0] == '[' && t[r.value.1 - 1] == ']'
  {
    RegionForKeys(t, ShipListKeys)
  }

  /** The region search for the key spellings `keys`. */
  function RegionForKeys(t: string, keys: seq<string>): (r: Option<(nat, nat)>)
    ensures r.Some? ==> r.value.0 < r.value.1 <= |t| && t[r.value.0] == '[' && t[r.value.1 - 1] == ']'
  {
    RegionAfterHit(t, FirstKeyHit(t, keys))
  }

  /** The rest of the region search from a key hit at `p` of length `len`. */
  function RegionAfterHit(t: string, hit: Option<(nat, nat)>): (r: Option<(nat, nat)>)
    ensures r.Some? ==> r.value.0 < r.value.1 <= |t| && t[r.value.0] == '[' && t[r.value.1 - 1] == ']'
  {
    match hit
    case None => None
    case Some((p, len)) =>
      var c := Find(t, ":", p + len);
      if c == -1 then None
      else
        assert OccursAt(t, ":", c);
        RegionAfterColon(t, c)
  }

  /** The list that must open at the first significant character after
      the colon at `c`, up to the `]` that balances it. */
  function RegionAfterColon(t: string, c: nat): (r: Option<(nat, nat)>)
    requires c < |t|
    ensures r.Some? ==> c < r.value.0 < r.value.1 <= |t| && t[r.value.0] == '[' && t[r.value.1 - 1] == ']'
  {
    var i := NextSignificant(t, c + 1);
    if i >= |t| || t[i] != '[' then None
    else
      match Balance(RegionDialect, t, i)
      case None => None
      case Some(e) => Some((i, e))
  }

  method ExtractShipListRegion(text: string) returns (r: Option<(nat, nat)>)
    ensures r == ShipListRegion(text)
  {
    var hit := FindFirstKey(text, ShipListKeys);
    r := ScanAfterHit(text, hit);
  }

  /** `_extract_ship_list_region` after the key search: the colon, the
      skipping loop and the bracket balance. */
  method ScanAfterHit(text: string, hit: Option<(nat, nat)>) returns (r: Option<(nat, nat)>)
    ensures r == RegionAfterHit(text, hit)
  {
    if hit.None? {
      return None;
    }
    var keyPos, keyLen := hit.value.0, hit.value.1;
    var colon := Find(text, ":", keyPos + keyLen);
    if colon == -1 {
      return None;
    }
    assert OccursAt(text, ":", colon);
    r := ScanRegionAfterColon(text, colon);
  }

  /** The skip to the opening `[` and the bracket balance after the colon. */
  method ScanRegionAfterColon(text: string, colon: nat) returns (r: Option<(nat, nat)>)
    requires colon < |text|
    ensures r == RegionAfterColon(text, colon)
  {
    var i := SkipToSignificant(text, colon + 1);
    if i >= |text| || text[i] != '[' {
      return None;
    }
    var end := BalanceScan(RegionDialect, text, i);
    if end.None? {
      return None;
    }
    return Some((i, end.value));
  }


  /** The spans lie inside `[lo, hi)`, each opens with `{` and closes with
      `}`, and each ends at or before the next one starts. */
  predicate SpansOk(t: string, spans: seq<(nat, nat)>, lo: nat, hi: nat) {
    (forall k :: 0 <= k < |spans| ==>
       lo <= spans[k].0 < spans[k].1 <= hi && spans[k].1 <= |t| && t[spans[k].0] == '{' && t[spans[k].1 - 1] == '}')
    && (forall k :: 0 <= k < |spans| - 1 ==> spans[k].1 <= spans[k + 1].0)
  }

  /** `_iter_top_level_flow_maps` from position `i` with quote character
      `q`, depth `depth` and the start of the open top-level block. A quote
      closes on its own character unless the character before is a backslash;
      the depth may go negative on stray closing braces. */
  function FlowMapsFrom(t: string, i: nat, end: nat, q: Option<char>, depth: int, bStart: Option<nat>): seq<(nat, nat)>
    requires i <= end <= |t| && (q.Some? ==> i >= 1)
    decreases end - i
  {
    if i == end then []
    else
      var ch := t[i];
      if q.Some? then
        FlowMapsFrom(t, i + 1, end, if ch == q.value && t[i - 1] != '\\' then None else q, depth, bStart)
      else if ch == '"' || ch == '\'' then FlowMapsFrom(t, i + 1, end, Some(ch), depth, bStart)
      else if ch == '{' then FlowMapsFrom(t, i + 1, end, None, depth + 1, if depth == 0 then Some(i) else bStart)
      else if ch == '}' then
        if depth - 1 == 0 && bStart.Some? then [(bStart.value, i + 1)] + FlowMapsFrom(t, i + 1, end, None, 0, None)
        else FlowMapsFrom(t, i + 1, end, None, depth - 1, bStart)
      else FlowMapsFrom(t, i + 1, end, None, depth, bStart)
  }

  function FlowMaps(t: string, start: nat, end: nat): seq<(nat, nat)>
    requires start <= end <= |t|
  {
    FlowMapsFrom(t, start, end, None, 0, None)
  }

  lemma SpansWeaken(t: string, spans: seq<(nat, nat)>, lo: nat, lo': nat, hi: nat)
    requires SpansOk(t, spans, lo, hi) && lo' <= lo
    ensures SpansOk(t, spans, lo', hi)
  {
  }

  lemma SpansCons(t: string, s: nat, e: nat, rest: seq<(nat, nat)>, lo: nat, hi: nat)
    requires lo <= s < e <= hi && e <= |t| && t[s] == '{' && t[e - 1] == '}'
    requires SpansOk(t, rest, e, hi)
    ensures SpansOk(t, [(s, e)] + rest, lo, hi)
  {
    var all := [(s, e)] + rest;
    assert forall k :: 1 <= k < |all| ==> all[k] == rest[k - 1];
  }

  lemma {:induction false} FlowMapsFromOk(t: string, i: nat, end: nat, q: Option<char>, depth: int, bStart: Option<nat>)
    requires i <= end <= |t| && (q.Some? ==> i >= 1)
    requires bStart.Some? ==> bStart.value < i && t[bStart.value] == '{'
    ensures SpansOk(t, FlowMapsFrom(t, i, end, q, depth, bStart), if bStart.Some? then bStart.value else i, end)
    decreases end - i
  {
    var lo := if bStart.Some? then bStart.value else i;
    if i < end {
      var ch := t[i];
      if q.None? && ch == '}' && depth - 1 == 0 && bStart.Some? {
        FlowMapsFromOk(t, i + 1, end, None, 0, None);
        SpansCons(t, bStart.value, i + 1, FlowMapsFrom(t, i + 1, end, None, 0, None), lo, end);
      } else {
        // every other character only moves the scan state on
        var q' := if q.Some? then (if ch == q.value && t[i - 1] != '\\' then None else q)
          else if ch == '"' || ch == '\'' then Some(ch) else None;
        var d' := if q.Some? || ch == '"' || ch == '\'' then depth
          else if ch == '{' then depth + 1 else if ch == '}' then depth - 1 else depth;
        var b' := if q.None? && ch == '{' && depth == 0 then Some(i) else bStart;
        assert FlowMapsFrom(t, i, end, q, depth, bStart) == FlowMapsFrom(t, i + 1, end, q', d', b');
        FlowMapsFromOk(t, i + 1, end, q', d', b');
        SpansWeaken(t, FlowMapsFrom(t, i, end, q, depth, bStart), if b'.Some? then b'.value else i + 1, lo, end);
      }
    }
  }

  /** The spans of the top-level blocks between `start` and `end`. */
  lemma FlowMapsOk(t: string, start: nat, end: nat)
    requires start <= end <= |t|
    ensures SpansOk(t, FlowMaps(t, start, end), start, end)
  {
    FlowMapsFromOk(t, start, end, None, 0, None);
  }

  /** `_iter_top_level_flow_maps`, collecting what it yields. */
  method IterTopLevelFlowMaps(text: string, start: nat, end: nat) returns (spans: seq<(nat, nat)>)
    requires start <= end <= |text|
    ensures spans == FlowMaps(text, start, end)
    ensures SpansOk(text, spans, start, end)
  {
    var i := start;
    var inQ: Option<char> := None;
    var depth := 0;
    var bStart: Option<nat> := None;
    spans := [];
    while i < end
      invariant start <= i <= end
      invariant inQ.Some? ==> i >= 1
      invariant spans + FlowMapsFrom(text, i, end, inQ, depth, bStart) == FlowMaps(text, start, end)
    {
      var ch := text[i];
      if inQ.Some? {
        if ch == inQ.value && text[i - 1] != '\\' {
          inQ := None;
        }
      } else {
        if ch == '"' || ch == '\'' {
          inQ := Some(ch);
        } else if ch == '{' {
          if depth == 0 {
            bStart := Some(i);
          }
          depth := depth + 1;
        } else if ch == '}' {
          depth := depth - 1;
          if depth == 0 && bStart.Some? {
            spans := spans + [(bStart.value, i + 1)];
            bStart := None;
          }
        }
      }
      i := i + 1;
    }
    FlowMapsOk(text, start, end);
  }
}
