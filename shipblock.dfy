/**
 * What the surgical insert needs to build a new ship block: the key
 * spelling the file already uses, the ship's fields renamed to it and put
 * in a readable order, the indentation of the ship list, and the ship's
 * side for clustering.
 */
module ShipBlock {
  import opened Wrappers
  import opened PyText
  import opened Records
  import opened Scanner
  import opened Render

  /** The spelling chosen for each of the four identifying keys. */
  datatype KeyStyle = KeyStyle(key: string, name: string, side: string, artfileroot: string)

  /** The capitalised spelling if present, else the lower-case one if
      present, else the default. */
  function Prefer(sample: Record, upper: string, lower: string, default: string): (r: string)
    ensures r == upper <==> Has(sample, upper) || (!Has(sample, lower) && default == upper)
    requires upper != lower && (default == upper || default == lower)
    ensures r == upper || r == lower
  {
    if Has(sample, upper) then upper else if Has(sample, lower) then lower else default
  }

  /** `_deduce_key_style`: `Key` and the lower-case `name`, `side`,
      `artfileroot` unless the sample spells them otherwise. */
  function DeduceKeyStyle(sample: Record): (s: KeyStyle)
    ensures s.key == "key" <==> !Has(sample, "Key") && Has(sample, "key")
    ensures s.name == "Name" <==> Has(sample, "Name")
    ensures s.side == "Side" <==> Has(sample, "Side")
    ensures s.artfileroot == "Artfileroot" <==> Has(sample, "Artfileroot")
    ensures ValidStyle(s)
  {
    KeyStyle(Prefer(sample, "Key", "key", "Key"), Prefer(sample, "Name", "name", "name"),
             Prefer(sample, "Side", "side", "side"), Prefer(sample, "Artfileroot", "artfileroot", "artfileroot"))
  }

  predicate ValidStyle(s: KeyStyle) {
    (s.key == "Key" || s.key == "key") && (s.name == "Name" || s.name == "name")
    && (s.side == "Side" || s.side == "side") && (s.artfileroot == "Artfileroot" || s.artfileroot == "artfileroot")
  }

  /** The style used when no ship block of the file decodes. */
  const DefaultStyle := KeyStyle("Key", "name", "side", "artfileroot")

  /** The default is what an empty sample deduces. */
  lemma DefaultIsEmptySample()
    ensures DeduceKeyStyle([]) == DefaultStyle
  {
  }

  /** `s[to] = s.pop(from)` when `from` is present. */
  function Rename(s: Record, from: string, to: string): (r: Record)
    requires from != to
    ensures !Has(r, from)
    ensures Get(r, to) == if Has(s, from) then Get(s, from) else Get(s, to)
    ensures forall k :: k != from && k != to ==> Get(r, k) == Get(s, k)
  {
    if Has(s, from) then Put(Remove(s, from), to, Get(s, from).value)
    else
      assert forall k :: Get(s, k) == Get(s, k);
      s
  }

  /** One key's two renames, guarded on the style as the insert writes them. */
  function Restyle(s: Record, chosen: string, upper: string, lower: string): (r: Record)
    requires upper != lower && (chosen == upper || chosen == lower)
    ensures var other := Other(chosen, upper, lower);
      !Has(r, other) && Get(r, chosen) == (if Has(s, other) then Get(s, other) else Get(s, chosen))
    ensures forall k :: k != upper && k != lower ==> Get(r, k) == Get(s, k)
  {
    var s1 := if chosen == lower then Rename(s, upper, lower) else s;
    if chosen == upper then Rename(s1, lower, upper) else s1
  }

  /** The spelling of a key pair that `chosen` is not. */
  function Other(chosen: string, upper: string, lower: string): string {
    if chosen == upper then lower else upper
  }

  /** The eight spellings are pairwise different. */
  predicate Distinct8(a: string, b: string, c: string, d: string, e: string, f: string, g: string, h: string) {
    a != b && a != c && a != d && a != e && a != f && a != g && a != h
    && b != c && b != d && b != e && b != f && b != g && b != h
    && c != d && c != e && c != f && c != g && c != h
    && d != e && d != f && d != g && d != h
    && e != f && e != g && e != h && f != g && f != h && g != h
  }

  lemma StyledKeysDistinct()
    ensures Distinct8("Key", "key", "Name", "name", "Side", "side", "Artfileroot", "artfileroot")
  {
    assert "Key"[0] == 'K' && "key"[0] == 'k' && "Name"[0] == 'N' && "name"[0] == 'n';
    assert "Side"[0] == 'S' && "side"[0] == 's' && "Artfileroot"[0] == 'A' && "artfileroot"[0] == 'a';
  }

  /** The new ship's fields renamed to the file's style, in the insert's order. */
  function ApplyKeyStyle(s: Record, style: KeyStyle): Record
    requires ValidStyle(style)
  {
    var s1 := Restyle(s, style.key, "Key", "key");
    var s2 := Restyle(s1, style.name, "Name", "name");
    var s3 := Restyle(s2, style.side, "Side", "side");
    Restyle(s3, style.artfileroot, "Artfileroot", "artfileroot")
  }

  /** A field that is none of the eight spellings is left as it was. */
  lemma ApplyKeyStyleKeeps(s: Record, style: KeyStyle, k: string)
    requires ValidStyle(style) && !IsStyledKey(k)
    ensures Get(ApplyKeyStyle(s, style), k) == Get(s, k)
  {
  }

  /** The spelling the file does not use is gone for each of the four keys. */
  lemma ApplyKeyStyleDrops(s: Record, style: KeyStyle)
    requires ValidStyle(style)
    ensures var r := ApplyKeyStyle(s, style);
      !Has(r, Other(style.key, "Key", "key")) && !Has(r, Other(style.name, "Name", "name"))
      && !Has(r, Other(style.side, "Side", "side")) && !Has(r, Other(style.artfileroot, "Artfileroot", "artfileroot"))
  {
    StyledKeysDistinct();
  }

  /** The file's spelling of the ship's key holds the value of whichever
      spelling the ship used, the file's own taking second place. */
  lemma ApplyKeyStyleKey(s: Record, style: KeyStyle)
    requires ValidStyle(style)
    ensures var ok := Other(style.key, "Key", "key");
      Get(ApplyKeyStyle(s, style), style.key) == (if Has(s, ok) then Get(s, ok) else Get(s, style.key))
  {
    StyledKeysDistinct();
  }

  /** Likewise for the side. */
  lemma ApplyKeyStyleSide(s: Record, style: KeyStyle)
    requires ValidStyle(style)
    ensures var os := Other(style.side, "Side", "side");
      Get(ApplyKeyStyle(s, style), style.side) == (if Has(s, os) then Get(s, os) else Get(s, style.side))
  {
    StyledKeysDistinct();
    var os := Other(style.side, "Side", "side");
    var s1 := Restyle(s, style.key, "Key", "key");
    assert Get(s1, os) == Get(s, os) && Get(s1, style.side) == Get(s, style.side);
    var s2 := Restyle(s1, style.name, "Name", "name");
    assert Get(s2, os) == Get(s, os) && Get(s2, style.side) == Get(s, style.side);
    var s3 := Restyle(s2, style.side, "Side", "side");
    assert Get(ApplyKeyStyle(s, style), style.side) == Get(s3, style.side);
  }

  predicate IsStyledKey(k: string) {
    k == "Key" || k == "key" || k == "Name" || k == "name" || k == "Side" || k == "side"
    || k == "Artfileroot" || k == "artfileroot"
  }

  const StyledKeys := ["Key", "key", "Name", "name", "Side", "side", "Artfileroot", "artfileroot"]

  /** The fields that go first in a rendered ship block, in this order. */
  const ShipOrdering := StyledKeys

  /** `ordered[k] = d.pop(k)` for each present key of `ordering`, then
      `ordered.update(d)`. */
  function Reorder(d: Record, ordering: seq<string>): (r: Record)
    ensures forall k :: Get(r, k) == Get(d, k)
    decreases |ordering|
  {
    if ordering == [] then d
    else if Has(d, ordering[0]) then
      var k := ordering[0];
      var rest := Reorder(Remove(d, k), ordering[1..]);
      assert forall k2 :: k2 != k ==> Get([(k, Get(d, k).value)] + rest, k2) == Get(rest, k2) by {
        forall k2 | k2 != k ensures Get([(k, Get(d, k).value)] + rest, k2) == Get(rest, k2) {
          assert ([(k, Get(d, k).value)] + rest)[1..] == rest;
        }
      }
      [(k, Get(d, k).value)] + rest
    else Reorder(d, ordering[1..])
  }

  /** The keys of `ordering` that `d` has, in the order of `ordering`. */
  function Present(d: Record, ordering: seq<string>): (ks: seq<string>)
    ensures forall i :: 0 <= i < |ks| ==> Has(d, ks[i]) && ks[i] in ordering
  {
    if ordering == [] then []
    else (if Has(d, ordering[0]) then [ordering[0]] else []) + Present(d, ordering[1..])
  }

  predicate Distinct(ks: seq<string>) {
    forall i, j :: 0 <= i < j < |ks| ==> ks[i] != ks[j]
  }

  lemma {:induction false} PresentAfterRemove(d: Record, k: string, ordering: seq<string>)
    requires k !in ordering
    ensures Present(Remove(d, k), ordering) == Present(d, ordering)
  {
    if ordering != [] {
      PresentAfterRemove(d, k, ordering[1..]);
    }
  }

  /** The preferred keys a ship has come first, in the preferred order. */
  lemma {:induction false} ReorderPrefix(d: Record, ordering: seq<string>)
    requires Distinct(ordering)
    ensures KeysStart(Reorder(d, ordering), Present(d, ordering))
    decreases |ordering|
  {
    if ordering != [] {
      var k := ordering[0];
      DistinctTail(ordering);
      if Has(d, k) {
        PresentAfterRemove(d, k, ordering[1..]);
        ReorderPrefix(Remove(d, k), ordering[1..]);
        var rest := Reorder(Remove(d, k), ordering[1..]);
        assert Reorder(d, ordering) == [(k, Get(d, k).value)] + rest;
        assert Present(d, ordering) == [k] + Present(d, ordering[1..]);
        ConsPrefix(k, Get(d, k).value, rest, Present(d, ordering[1..]));
      } else {
        ReorderPrefix(d, ordering[1..]);
      }
    }
  }

  lemma DistinctTail(ks: seq<string>)
    requires ks != [] && Distinct(ks)
    ensures Distinct(ks[1..]) && ks[0] !in ks[1..]
  {
    forall i, j | 0 <= i < j < |ks[1..]| ensures ks[1..][i] != ks[1..][j] {
      assert ks[1..][i] == ks[i + 1];
    }
    forall i | 0 <= i < |ks[1..]| ensures ks[1..][i] != ks[0] { assert ks[1..][i] == ks[i + 1]; }
  }

  /** The fields of `d` whose keys are not in `ordering`, in `d`'s order. */
  function Unlisted(d: Record, ordering: seq<string>): (r: Record)
    ensures |r| <= |d|
    ensures forall i :: 0 <= i < |r| ==> r[i] in d && r[i].0 !in ordering
  {
    if d == [] then []
    else (if d[0].0 in ordering then [] else [d[0]]) + Unlisted(d[1..], ordering)
  }

  lemma {:induction false} UnlistedNothing(d: Record)
    ensures Unlisted(d, []) == d
  {
    if d != [] {
      UnlistedNothing(d[1..]);
    }
  }

  lemma {:induction false} UnlistedRemove(d: Record, k: string, rest: seq<string>)
    ensures Unlisted(Remove(d, k), rest) == Unlisted(d, [k] + rest)
  {
    if d != [] {
      UnlistedRemove(d[1..], k, rest);
      if d[0].0 != k {
        assert Remove(d, k) == [d[0]] + Remove(d[1..], k);
        assert Remove(d, k)[1..] == Remove(d[1..], k);
      }
    }
  }

  /** After the preferred fields come all the other fields, in the ship's own
      order: `ordered.update(d)` appends what `pop` left in `d`. */
  lemma {:induction false} ReorderRest(d: Record, ordering: seq<string>)
    requires Distinct(ordering)
    ensures var r := Reorder(d, ordering); var p := Present(d, ordering);
      |p| <= |r| && r[|p|..] == Unlisted(d, ordering)
    decreases |ordering|
  {
    if ordering == [] {
      UnlistedNothing(d);
    } else {
      var k := ordering[0];
      assert ordering == [k] + ordering[1..];
      DistinctTail(ordering);
      UnlistedRemove(d, k, ordering[1..]);
      if Has(d, k) {
        PresentAfterRemove(d, k, ordering[1..]);
        ReorderRest(Remove(d, k), ordering[1..]);
        var rest := Reorder(Remove(d, k), ordering[1..]);
        assert Reorder(d, ordering) == [(k, Get(d, k).value)] + rest;
        assert Present(d, ordering) == [k] + Present(d, ordering[1..]);
        assert ([(k, Get(d, k).value)] + rest)[|Present(d, ordering)|..] == rest[|Present(d, ordering[1..])|..];
      } else {
        RemoveAbsent(d, k);
        ReorderRest(d, ordering[1..]);
      }
    }
  }

  /** Reordering a dict neither adds nor loses an entry. */
  lemma {:induction false} ReorderLength(d: Record, ordering: seq<string>)
    requires UniqueKeys(d)
    ensures |Reorder(d, ordering)| == |d|
    decreases |ordering|
  {
    if ordering != [] {
      if Has(d, ordering[0]) {
        RemoveUnique(d, ordering[0]);
        ReorderLength(Remove(d, ordering[0]), ordering[1..]);
      } else {
        ReorderLength(d, ordering[1..]);
      }
    }
  }

  /** The first keys of `r` are `p`. */
  predicate KeysStart(r: Record, p: seq<string>) {
    |p| <= |r| && forall i :: 0 <= i < |p| ==> r[i].0 == p[i]
  }

  lemma ConsPrefix(k: string, v: Value, rest: Record, p: seq<string>)
    requires KeysStart(rest, p)
    ensures KeysStart([(k, v)] + rest, [k] + p)
  {
    var r := [(k, v)] + rest;
    forall i | 0 < i < |p| + 1 ensures r[i].0 == ([k] + p)[i] {
      assert r[i] == rest[i - 1];
    }
  }

  /** The ordering loop of `_render_ship_block`. */
  method OrderFields(d: Record, ordering: seq<string>) returns (ordered: Record)
    ensures ordered == Reorder(d, ordering)
  {
    var rest := d;
    ordered := [];
    for i := 0 to |ordering|
      invariant ordered + Reorder(rest, ordering[i..]) == Reorder(d, ordering)
    {
      var k := ordering[i];
      assert ordering[i..][1..] == ordering[i + 1..];
      if Has(rest, k) {
        ordered := ordered + [(k, Get(rest, k).value)];
        rest := Remove(rest, k);
      }
    }
    assert ordering[|ordering|..] == [];
    // the remaining keys are all new to `ordered`, so `update` appends them
    ordered := ordered + rest;
  }

  /** The indent a ship block is rendered with: the item indent less one step. */
  function BlockIndent(itemIndent: string): string {
    if |itemIndent| >= 2 then itemIndent[..|itemIndent| - 2] else ""
  }

  /** `_render_ship_block`. */
  function ShipBlockText(ship: Record, itemIndent: string): string {
    MapPretty(VMap(Reorder(ship, ShipOrdering)), BlockIndent(itemIndent), "  ")
  }

  method RenderShipBlock(ship: Record, itemIndent: string) returns (s: string)
    ensures s == ShipBlockText(ship, itemIndent)
  {
    var ordered := OrderFields(ship, ShipOrdering);
    s := RenderMapPretty(VMap(ordered), BlockIndent(itemIndent), "  ");
  }

  /** The rendered block is a map: `{` first, and its last line is the
      block indent and `}`. */
  lemma ShipBlockShape(ship: Record, itemIndent: string)
    ensures var s := ShipBlockText(ship, itemIndent);
      |s| >= 2 && s[0] == '{' && EndsWith(s, BlockIndent(itemIndent) + "}")
  {
    var v := VMap(Reorder(ship, ShipOrdering));
    MapLinesShape(v, BlockIndent(itemIndent), "  ");
    JoinEnds(MapLines(v, BlockIndent(itemIndent), "  "), "\n");
  }

  /** The ends of a joined text are the ends of its first and last lines. */
  lemma {:induction false} JoinEnds(ls: seq<string>, sep: string)
    requires |ls| >= 1 && ls[0] != []
    ensures var s := JoinWith(ls, sep);
      s != [] && s[0] == ls[0][0] && EndsWith(s, ls[|ls| - 1])
  {
    if |ls| > 1 {
      JoinCons(ls[0], ls[1..], sep);
      assert ls == [ls[0]] + ls[1..];
      JoinTail(ls[1..], sep);
    } else {
      assert JoinWith(ls, sep) == ls[0];
    }
  }

  lemma {:induction false} JoinTail(ls: seq<string>, sep: string)
    requires |ls| >= 1
    ensures EndsWith(JoinWith(ls, sep), ls[|ls| - 1])
  {
    if |ls| > 1 {
      JoinCons(ls[0], ls[1..], sep);
      assert ls == [ls[0]] + ls[1..];
      JoinTail(ls[1..], sep);
    } else {
      assert JoinWith(ls, sep) == ls[0];
    }
  }

  /** Field `k` is present and truthy, so `or` picks it. */
  predicate SideChosen(d: Record, k: string) {
    Has(d, k) && Truthy(Get(d, k).value)
  }

  /** `.casefold()` of a side value: the lower-cased text, or None when the
      value is not a string and `casefold` raises. */
  function FoldSide(v: Value): Option<string> {
    if v.VStr? then Some(Lower(v.s)) else None
  }

  /** Ships whose chosen side fields hold texts that agree ignoring case
      get the same side, so the insert clusters them together. */
  lemma SideTextIgnoresCase(d1: Record, d2: Record, s1: string, s2: string)
    requires Get(d1, "side") == Some(VStr(s1)) && Get(d2, "side") == Some(VStr(s2))
    requires s1 != [] && s2 != [] && Lower(s1) == Lower(s2)
    ensures SideText(d1) == SideText(d2) == Some(Lower(s1))
  {
  }

  /** `(d.get("side") or d.get("Side") or "").casefold()`: None when the
      chosen value is not a string, where `casefold` raises. */
  function SideText(d: Record): (r: Option<string>)
    ensures r.Some? ==> Lower(r.value) == r.value
    ensures !Has(d, "side") && !Has(d, "Side") ==> r == Some("")
    ensures SideChosen(d, "side") ==> r == FoldSide(Get(d, "side").value)
    ensures !SideChosen(d, "side") && SideChosen(d, "Side") ==> r == FoldSide(Get(d, "Side").value)
    ensures !SideChosen(d, "side") && !SideChosen(d, "Side") ==> r == Some("")
  {
    var v := if Has(d, "side") && Truthy(Get(d, "side").value) then Get(d, "side")
             else if Has(d, "Side") && Truthy(Get(d, "Side").value) then Get(d, "Side")
             else None;
    match v
    case None => Some("")
    case Some(VStr(s)) => LowerIdempotent(s); Some(Lower(s))
    case Some(_) => None
  }

  /** `_ship_list_indentation`: the indent of the line holding `[`, the
      indent of the first ship block (or that plus two spaces), and CRLF when
      the text has one. */
  datatype Layout = Layout(baseIndent: string, itemIndent: string, lb: string)

  function ShipListIndentation(raw: string, arrStart: nat, arrEnd: nat): (r: Layout)
    requires arrStart <= arrEnd <= |raw|
    ensures r.lb == "\r\n" <==> Contains(raw, "\r\n")
    ensures r.lb == "\n" || r.lb == "\r\n"
    ensures '\n' !in r.baseIndent && '\n' !in r.itemIndent
    ensures FlowMaps(raw, arrStart, arrEnd) == [] ==> r.itemIndent == r.baseIndent + "  "
    ensures exists ls: nat :: ls <= arrStart && (ls == 0 || raw[ls - 1] == '\n') && r.baseIndent == raw[ls..arrStart]
    ensures FlowMaps(raw, arrStart, arrEnd) != [] ==> var b := FlowMaps(raw, arrStart, arrEnd)[0].0;
      b <= |raw| && exists ls: nat :: ls <= b && (ls == 0 || raw[ls - 1] == '\n') && r.itemIndent == raw[ls..b]
  {
    var lb := if Contains(raw, "\r\n") then "\r\n" else "\n";
    var base := raw[LineStart(raw, arrStart)..arrStart];
    var spans := FlowMaps(raw, arrStart, arrEnd);
    FlowMapsOk(raw, arrStart, arrEnd);
    var item := if spans == [] then base + "  " else raw[LineStart(raw, spans[0].0)..spans[0].0];
    Layout(base, item, lb)
  }
}
