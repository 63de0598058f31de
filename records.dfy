/**
 * Decoded HJSON values and the Python dicts that hold a ship's fields.
 * A dict is an association list in insertion order, which is the order
 * Python iterates it in.
 */
module Records {
  import opened Wrappers
  import opened PyText

  /** A decoded HJSON value. A float is kept as the text `str()` gives for it. */
  datatype Value =
    | VNull
    | VBool(b: bool)
    | VInt(i: int)
    | VFloat(repr: string)
    | VStr(s: string)
    | VList(items: seq<Value>)
    | VMap(entries: seq<(string, Value)>)

  /** A Python dict, entries in insertion order. */
  type Record = seq<(string, Value)>

  /** No key occurs twice in a dict, or in any list of keyed pairs. */
  predicate UniqueKeys<V>(r: seq<(string, V)>) {
    forall i, j :: 0 <= i < j < |r| ==> r[i].0 != r[j].0
  }

  /** The keys, in order. */
  function Keys<V>(r: seq<(string, V)>): (ks: seq<string>)
    ensures |ks| == |r| && forall i :: 0 <= i < |r| ==> ks[i] == r[i].0
  {
    seq(|r|, i requires 0 <= i < |r| => r[i].0)
  }

  /** `d.get(k)`: the value stored under `k`, looking at the first entry with that key. */
  function Get(r: Record, k: string): Option<Value> {
    if r == [] then None
    else if r[0].0 == k then Some(r[0].1)
    else Get(r[1..], k)
  }

  /** `d.get(k)` is None exactly when no entry has key `k`, and otherwise the
      value of an entry with key `k`. */
  lemma {:induction false} GetSpec(r: Record, k: string)
    ensures Get(r, k).None? <==> forall i :: 0 <= i < |r| ==> r[i].0 != k
    ensures Get(r, k).Some? ==> exists i :: 0 <= i < |r| && r[i] == (k, Get(r, k).value)
    decreases |r|
  {
    if r != [] && r[0].0 != k {
      GetSpec(r[1..], k);
      assert forall i :: 1 <= i < |r| ==> r[1..][i - 1] == r[i];
      if Get(r, k).Some? {
        var j :| 0 <= j < |r[1..]| && r[1..][j] == (k, Get(r, k).value);
        assert r[j + 1] == (k, Get(r, k).value);
      }
    }
  }

  /** `d[k]` is the value of the first entry with key `k`. */
  lemma {:induction false} GetFirst(r: Record, i: nat, k: string)
    requires i < |r| && r[i].0 == k
    requires forall j :: 0 <= j < i ==> r[j].0 != k
    ensures Get(r, k) == Some(r[i].1)
    decreases i
  {
    if i > 0 {
      assert r[1..][i - 1] == r[i];
      assert forall j :: 0 <= j < i - 1 ==> r[1..][j] == r[j + 1];
      GetFirst(r[1..], i - 1, k);
    }
  }

  predicate Has(r: Record, k: string) { Get(r, k).Some? }

  /** `d.pop(k, None)`: the key is gone and nothing else changes. */
  function Remove(r: Record, k: string): (r': Record)
    ensures Get(r', k) == None
    ensures forall k2 :: k2 != k ==> Get(r', k2) == Get(r, k2)
    ensures forall i :: 0 <= i < |r'| ==> r'[i] in r
  {
    if r == [] then []
    else if r[0].0 == k then Remove(r[1..], k)
    else [r[0]] + Remove(r[1..], k)
  }

  lemma {:induction false} RemoveAbsent(r: Record, k: string)
    requires !Has(r, k)
    ensures Remove(r, k) == r
  {
    if r != [] {
      RemoveAbsent(r[1..], k);
    }
  }

  /** The rest of a dict with unique keys has unique keys and lacks the
      first key. */
  lemma UniqueTail(r: Record)
    requires r != [] && UniqueKeys(r)
    ensures UniqueKeys(r[1..]) && !Has(r[1..], r[0].0)
  {
    forall i, j | 0 <= i < j < |r| - 1 ensures r[1..][i].0 != r[1..][j].0 {
      assert r[1..][i] == r[i + 1] && r[1..][j] == r[j + 1];
    }
    GetSpec(r[1..], r[0].0);
    forall i | 0 <= i < |r| - 1 ensures r[1..][i].0 != r[0].0 { assert r[1..][i] == r[i + 1]; }
  }

  lemma UniqueCons(e: (string, Value), t: Record)
    requires UniqueKeys(t) && !Has(t, e.0)
    ensures UniqueKeys([e] + t)
  {
    GetSpec(t, e.0);
    var u := [e] + t;
    forall i, j | 0 <= i < j < |u| ensures u[i].0 != u[j].0 {
      if i > 0 { assert u[i] == t[i - 1]; }
      assert u[j] == t[j - 1];
    }
  }

  /** Popping a key a dict has removes exactly one entry, and the keys stay
      unique. */
  lemma {:induction false} RemoveUnique(r: Record, k: string)
    requires UniqueKeys(r) && Has(r, k)
    ensures |Remove(r, k)| == |r| - 1 && UniqueKeys(Remove(r, k))
  {
    UniqueTail(r);
    if r[0].0 == k {
      RemoveAbsent(r[1..], k);
    } else {
      RemoveUnique(r[1..], k);
      assert Get(Remove(r[1..], k), r[0].0) == Get(r[1..], r[0].0);
      UniqueCons(r[0], Remove(r[1..], k));
    }
  }

  /** `d[k] = v`: an existing key keeps its place, a new key goes last. */
  function Put(r: Record, k: string, v: Value): (r': Record)
    ensures Get(r', k) == Some(v)
    ensures forall k2 :: k2 != k ==> Get(r', k2) == Get(r, k2)
    ensures Has(r, k) ==> Keys(r') == Keys(r)
    ensures !Has(r, k) ==> r' == r + [(k, v)]
  {
    if r == [] then [(k, v)]
    else if r[0].0 == k then [(k, v)] + r[1..]
    else
      var rest := Put(r[1..], k, v);
      assert Has(r, k) ==> Has(r[1..], k);
      assert !Has(r, k) ==> [r[0]] + rest == r + [(k, v)];
      [r[0]] + rest
  }

  /** `d.update(u)`: each entry of `u` written into `d` in order. */
  function Update(r: Record, u: Record): (r': Record)
    decreases |u|
  {
    if u == [] then r else Update(Put(r, u[0].0, u[0].1), u[1..])
  }

  /** After `d.update(u)` a key of `u` reads as in `u`, any other key as before. */
  lemma {:induction false} UpdateGet(r: Record, u: Record, k: string)
    requires UniqueKeys(u)
    ensures Get(Update(r, u), k) == if Has(u, k) then Get(u, k) else Get(r, k)
    decreases |u|
  {
    if u != [] {
      assert UniqueKeys(u[1..]) by {
        forall i, j | 0 <= i < j < |u[1..]| ensures u[1..][i].0 != u[1..][j].0 {
          assert u[1..][i] == u[i + 1] && u[1..][j] == u[j + 1];
        }
      }
      UpdateGet(Put(r, u[0].0, u[0].1), u[1..], k);
      if k == u[0].0 {
        assert !Has(u[1..], k) by {
          GetSpec(u[1..], k);
          forall i | 0 <= i < |u[1..]| ensures u[1..][i].0 != k { assert u[1..][i] == u[i + 1]; }
        }
      }
    }
  }

  /** Python truthiness of a value. A float is false exactly when it is zero. */
  predicate Truthy(v: Value) {
    match v
    case VNull => false
    case VBool(b) => b
    case VInt(i) => i != 0
    case VFloat(repr) => repr != "0.0" && repr != "-0.0"
    case VStr(s) => s != []
    case VList(items) => items != []
    case VMap(entries) => entries != []
  }

  /** `str(v)`: a string is its own text; any other value is its `repr`. */
  function PyStr(v: Value): string {
    if v.VStr? then v.s else PyRepr(v)
  }

  /** `repr(v)`: how `str()` of a list or dict writes each item. A list is
      bracketed and a dict braced, items joined by `, `, and a dict entry is
      `repr(key): repr(value)`. */
  function PyRepr(v: Value): (r: string)
    ensures v.VList? ==> |r| >= 2 && r[0] == '[' && r[|r| - 1] == ']'
    ensures v.VMap? ==> |r| >= 2 && r[0] == '{' && r[|r| - 1] == '}'
    ensures v.VStr? ==> |r| >= 2 && r[0] == r[|r| - 1] && (r[0] == '\'' || r[0] == '"')
    decreases v, 0
  {
    match v
    case VNull => "None"
    case VBool(b) => if b then "True" else "False"
    case VInt(i) => IntToString(i)
    case VFloat(repr) => repr
    case VStr(s) => StrRepr(s)
    case VList(items) => "[" + ItemsRepr(items) + "]"
    case VMap(entries) => "{" + EntriesRepr(entries) + "}"
  }

  function ItemsRepr(items: seq<Value>): string
    decreases items
  {
    if items == [] then []
    else PyRepr(items[0]) + (if |items| == 1 then [] else ", " + ItemsRepr(items[1..]))
  }

  function EntriesRepr(entries: seq<(string, Value)>): string
    decreases entries
  {
    if entries == [] then []
    else
      assert entries[0] in entries && entries[0].1 < entries[0];
      StrRepr(entries[0].0) + ": " + PyRepr(entries[0].1)
      + (if |entries| == 1 then [] else ", " + EntriesRepr(entries[1..]))
  }

  /** The quote `repr` puts around a string: `'`, unless the text has a `'`
      and no `"`. */
  function ReprQuote(s: string): char {
    if '\'' in s && '"' !in s then '"' else '\''
  }

  /** `repr(s)` for a string. */
  function StrRepr(s: string): (r: string)
    ensures |r| >= 2 && r[0] == r[|r| - 1] == ReprQuote(s)
  {
    [ReprQuote(s)] + ReprChars(s, ReprQuote(s)) + [ReprQuote(s)]
  }

  function ReprChars(s: string, q: char): string {
    if s == [] then [] else ReprChar(s[0], q) + ReprChars(s[1..], q)
  }

  function HexDigit(d: nat): char
    requires d < 16
  {
    "0123456789abcdef"[d]
  }

  /** One character inside `repr`'s quotes: the quote and the backslash get
      a backslash, tab, line feed and carriage return their letter escapes,
      other control characters `\xhh`. */
  function ReprChar(c: char, q: char): string {
    if c == q || c == '\\' then ['\\', c]
    else if c == '\t' then "\\t"
    else if c == '\n' then "\\n"
    else if c == '\r' then "\\r"
    else if c < ' ' || c as int == 127 then ['\\', 'x', HexDigit(c as int / 16), HexDigit(c as int % 16)]
    else [c]
  }

  function HexValue(c: char): (r: Option<nat>)
    ensures r.Some? ==> r.value < 16
  {
    if '0' <= c <= '9' then Some(c as int - '0' as int)
    else if 'a' <= c <= 'f' then Some(c as int - 'a' as int + 10)
    else None
  }

  /** The character one escape of a Python string literal stands for. */
  function ReadEscape(e: string): Option<char> {
    if |e| == 1 && e[0] != '\\' then Some(e[0])
    else if |e| == 2 && e[0] == '\\' && (e[1] == '\\' || e[1] == '\'' || e[1] == '"') then Some(e[1])
    else if e == "\\t" then Some('\t')
    else if e == "\\n" then Some('\n')
    else if e == "\\r" then Some('\r')
    else if |e| == 4 && e[0] == '\\' && e[1] == 'x' && HexValue(e[2]).Some? && HexValue(e[3]).Some? then
      Some((HexValue(e[2]).value * 16 + HexValue(e[3]).value) as char)
    else None
  }

  /** The length of the escape at the start of `t`. */
  function EscapeLength(t: string): nat
    requires t != []
  {
    if t[0] != '\\' then 1 else if |t| >= 2 && t[1] != 'x' then 2 else 4
  }

  /** Reads the text between the quotes of a Python string literal, as far
      as the escapes `repr` writes go; None on an escape it does not know. */
  function ReadStrBody(t: string): Option<string>
    decreases |t|
  {
    if t == [] then Some([])
    else
      var n := EscapeLength(t);
      if n > |t| then None
      else
        var c := ReadEscape(t[..n]);
        var rest := ReadStrBody(t[n..]);
        if c.Some? && rest.Some? then Some([c.value] + rest.value) else None
  }

  lemma HexRoundTrip(d: nat)
    requires d < 16
    ensures HexValue(HexDigit(d)) == Some(d)
  {
  }

  /** One written character reads back as itself, and its escape has the
      length the reader expects. */
  lemma ReprCharReadsBack(c: char, q: char, rest: string)
    requires q == '\'' || q == '"'
    ensures var e := ReprChar(c, q);
      e != [] && EscapeLength(e + rest) == |e| && ReadEscape(e) == Some(c)
  {
    var e := ReprChar(c, q);
    if !(c == q || c == '\\') && c != '\t' && c != '\n' && c != '\r' && (c < ' ' || c as int == 127) {
      HexRoundTrip(c as int / 16);
      HexRoundTrip(c as int % 16);
      assert (e + rest)[1] == 'x';
    } else if c == q || c == '\\' || c == '\t' || c == '\n' || c == '\r' {
      assert |e| == 2 && (e + rest)[1] == e[1] && e[1] != 'x';
    }
  }

  lemma {:induction false} ReprCharsReadBack(s: string, q: char)
    requires q == '\'' || q == '"'
    ensures ReadStrBody(ReprChars(s, q)) == Some(s)
  {
    if s != [] {
      var e := ReprChar(s[0], q);
      var rest := ReprChars(s[1..], q);
      ReprCharReadsBack(s[0], q, rest);
      ReprCharsReadBack(s[1..], q);
      var t := e + rest;
      assert t == ReprChars(s, q);
      assert t[..|e|] == e && t[|e|..] == rest;
      assert s == [s[0]] + s[1..];
    }
  }

  /** `repr` of a string is a quoted literal that reads back as the string,
      so two different strings never have the same `repr`. */
  lemma StrReprRoundTrip(s: string)
    ensures var r := StrRepr(s);
      |r| >= 2 && (r[0] == '\'' || r[0] == '"') && r[|r| - 1] == r[0] && ReadStrBody(r[1..|r| - 1]) == Some(s)
  {
    var r := StrRepr(s);
    assert r[1..|r| - 1] == ReprChars(s, ReprQuote(s));
    ReprCharsReadBack(s, ReprQuote(s));
  }

  /** `a <= b` on Python strings: lexicographic by code point. */
  predicate LexLeq(a: string, b: string) {
    a == [] || (b != [] && (a[0] < b[0] || (a[0] == b[0] && LexLeq(a[1..], b[1..]))))
  }

  lemma {:induction false} LexTotal(a: string, b: string)
    ensures LexLeq(a, b) || LexLeq(b, a)
  {
    if a != [] && b != [] && a[0] == b[0] { LexTotal(a[1..], b[1..]); }
  }

  lemma {:induction false} LexTrans(a: string, b: string, c: string)
    requires LexLeq(a, b) && LexLeq(b, c)
    ensures LexLeq(a, c)
  {
    if a != [] && b != [] && c != [] && a[0] == b[0] && b[0] == c[0] {
      LexTrans(a[1..], b[1..], c[1..]);
    }
  }

  predicate SortedStrings(s: seq<string>) {
    forall i, j :: 0 <= i < j < |s| ==> LexLeq(s[i], s[j])
  }

  /** `x` placed into a sorted list before the first element it is below. */
  function InsertSorted(x: string, s: seq<string>): (r: seq<string>)
    requires SortedStrings(s)
    ensures SortedStrings(r)
    ensures multiset(r) == multiset(s) + multiset{x}
  {
    if s == [] then [x]
    else if LexLeq(x, s[0]) then
      BelowAll(x, s);
      SortedCons(x, s);
      [x] + s
    else
      LexTotal(x, s[0]);
      var rest := InsertSorted(x, s[1..]);
      HeadBelowInserted(x, s, rest);
      SortedCons(s[0], rest);
      assert s == [s[0]] + s[1..];
      [s[0]] + rest
  }

  /** Below the head of a sorted list is below all of it. */
  lemma BelowAll(x: string, s: seq<string>)
    requires SortedStrings(s) && s != [] && LexLeq(x, s[0])
    ensures forall j :: 0 <= j < |s| ==> LexLeq(x, s[j])
  {
    forall j | 0 <= j < |s| ensures LexLeq(x, s[j]) {
      if j > 0 { LexTrans(x, s[0], s[j]); }
    }
  }

  /** The head of a sorted list is below `x` inserted into its tail. */
  lemma HeadBelowInserted(x: string, s: seq<string>, rest: seq<string>)
    requires SortedStrings(s) && s != [] && LexLeq(s[0], x)
    requires multiset(rest) == multiset(s[1..]) + multiset{x}
    ensures forall j :: 0 <= j < |rest| ==> LexLeq(s[0], rest[j])
  {
    forall j | 0 <= j < |rest| ensures LexLeq(s[0], rest[j]) {
      assert rest[j] in multiset(rest);
      if rest[j] != x {
        assert rest[j] in multiset(s[1..]);
        var m :| 0 <= m < |s[1..]| && s[1..][m] == rest[j];
        assert s[m + 1] == rest[j];
      }
    }
  }

  lemma SortedCons(h: string, s: seq<string>)
    requires SortedStrings(s) && forall j :: 0 <= j < |s| ==> LexLeq(h, s[j])
    ensures SortedStrings([h] + s)
  {
    forall i, j | 0 <= i < j < |s| + 1 ensures LexLeq(([h] + s)[i], ([h] + s)[j]) {
      if i > 0 { assert ([h] + s)[i] == s[i - 1]; }
      assert ([h] + s)[j] == s[j - 1];
    }
  }

  /** `sorted(ks)`: ascending and a permutation of its input. */
  function SortStrings(ks: seq<string>): (r: seq<string>)
    ensures SortedStrings(r)
    ensures multiset(r) == multiset(ks)
  {
    if ks == [] then []
    else
      assert ks == [ks[0]] + ks[1..];
      InsertSorted(ks[0], SortStrings(ks[1..]))
  }
}
