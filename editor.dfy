/**
 * The editor's surgical edits of the loaded ship file's text: inserting a
 * new ship block into the ship list, deleting a ship block by its key, and
 * saving a ship's changed fields in place. Everything outside the edited
 * span is kept byte for byte. The HJSON decoder is a parameter.
 */
module Editor {
  import opened Wrappers
  import opened PyText
  import opened Records
  import opened Scanner
  import opened Pattern
  import opened ObjectFinder
  import opened Render
  import opened Patcher
  import opened Banner
  import opened ShipBlock

  /** `hjson.loads` of one block as a dict; None where it raises. */
  type Decoder = string -> Option<Record>

  const NoTextForInsert := "No raw text captured for surgical insert."
  const NoShipListForInsert := "Could not find #ship-list region for insertion."
  const NoTextForSave := "No raw text captured for surgical save."
  const NotRelocated := "Inserted new ship, but could not re-locate it for patching."
  /** `casefold` on a side that is not a string raises. */
  const SideNotString := "side is not a string"
  /** `_repr_hjson_scalar` of a dict, `_repr_hjson_list` of a list holding a list. */
  const NotRenderable := "value cannot be rendered as a scalar"
  /** `str()` of a list or a dict as a search key. */

  /** The decoded block at `sp`; None when it does not decode. */
  function Decoded(raw: string, sp: (nat, nat), decode: Decoder): Option<Record> {
    if sp.0 <= sp.1 <= |raw| then decode(raw[sp.0..sp.1]) else None
  }

  // ---------- insert ----------

  /** The first block at or after `i` that decodes. */
  function FirstDecodedFrom(raw: string, spans: seq<(nat, nat)>, i: nat, decode: Decoder): (r: Option<nat>)
    requires i <= |spans|
    ensures r.Some? ==> i <= r.value < |spans| && Decoded(raw, spans[r.value], decode).Some?
    ensures r.Some? ==> forall j :: i <= j < r.value ==> Decoded(raw, spans[j], decode).None?
    ensures r.None? ==> forall j :: i <= j < |spans| ==> Decoded(raw, spans[j], decode).None?
    decreases |spans| - i
  {
    if i == |spans| then None
    else if Decoded(raw, spans[i], decode).Some? then Some(i)
    else FirstDecodedFrom(raw, spans, i + 1, decode)
  }

  /** The key style of the first ship block that decodes, else the default. */
  function SampleStyle(raw: string, spans: seq<(nat, nat)>, decode: Decoder): (s: KeyStyle)
    ensures ValidStyle(s)
  {
    match FirstDecodedFrom(raw, spans, 0, decode)
    case None => DefaultStyle
    case Some(k) => DeduceKeyStyle(Decoded(raw, spans[k], decode).value)
  }

  /** What the clustering loop learns from one block. */
  datatype Probe = Undecodable | SideNotText | SideIs(side: string)

  function ProbeSide(raw: string, sp: (nat, nat), decode: Decoder): Probe {
    match Decoded(raw, sp, decode)
    case None => Undecodable
    case Some(d) =>
      match SideText(d)
      case None => SideNotText
      case Some(s) => SideIs(s)
  }

  /** The clustering loop from block `i` on: the end of the last block whose
      side is `side`, `acc` if none is; an error at a block whose side is not
      a string. */
  function SameSideEnd(raw: string, spans: seq<(nat, nat)>, i: nat, decode: Decoder, side: string, acc: Option<nat>)
    : (r: Result<Option<nat>>)
    requires i <= |spans|
    ensures r.Err? <==> exists j :: i <= j < |spans| && ProbeSide(raw, spans[j], decode).SideNotText?
    decreases |spans| - i
  {
    if i == |spans| then Ok(acc)
    else
      match ProbeSide(raw, spans[i], decode)
      case Undecodable => SameSideEnd(raw, spans, i + 1, decode, side, acc)
      case SideNotText => Err(SideNotString)
      case SideIs(s) => SameSideEnd(raw, spans, i + 1, decode, side, if s == side then Some(spans[i].1) else acc)
  }

  /** The block the clustering loop picks lies inside the list, so its end
      is before the closing bracket. */
  lemma {:induction false} SameSideEndInList(raw: string, spans: seq<(nat, nat)>, i: nat, decode: Decoder, side: string,
                                             acc: Option<nat>, a: nat, e: nat)
    requires i <= |spans| && SpansOk(raw, spans, a, e) && 0 < e <= |raw| && raw[e - 1] == ']'
    requires acc.Some? ==> a < acc.value < e
    ensures var r := SameSideEnd(raw, spans, i, decode, side, acc);
      r.Ok? && r.value.Some? ==> a < r.value.value < e
    decreases |spans| - i
  {
    if i < |spans| {
      var p := ProbeSide(raw, spans[i], decode);
      if p.SideIs? {
        assert raw[spans[i].1 - 1] == '}';
        SameSideEndInList(raw, spans, i + 1, decode, side, if p.side == side then Some(spans[i].1) else acc, a, e);
      } else if p.Undecodable? {
        SameSideEndInList(raw, spans, i + 1, decode, side, acc, a, e);
      }
    }
  }

  /** `while i > lo and raw[i].isspace(): i -= 1`: the first position at or
      below `i`, going down, that is `lo` or below or holds a non-space. */
  function BackOverSpace(raw: string, i: int, lo: nat): (r: int)
    requires -1 <= i < |raw|
    ensures -1 <= r <= i
    ensures r < i ==> lo <= r
    ensures forall j :: r < j <= i ==> lo < j && IsSpace(raw[j])
    ensures r > lo ==> !IsSpace(raw[r])
    decreases i + 1
  {
    if i > lo && IsSpace(raw[i]) then BackOverSpace(raw, i - 1, lo) else i
  }

  /** Where the new block goes and the text that goes there. */
  datatype InsertPlan = InsertPlan(pos: nat, add: string)

  /** The text `_surgical_insert_ship_block` adds: a separating comma and
      line break when the list already has an entry before it, the item
      indent, the block (stripped by the caller), a comma when more entries
      follow, a line break. */
  function AddedText(layout: Layout, block: string, commaBefore: bool, commaAfter: bool): string {
    (if commaBefore then "," + layout.lb else "") + layout.itemIndent + block
      + (if commaAfter then "," else "") + layout.lb
  }

  /** The insert once the list `[a, e)` is found. */
  function PlanInList(raw: string, a: nat, e: nat, ship: Record, clusterBySide: bool, decode: Decoder): (r: Result<InsertPlan>)
    requires a + 2 <= e <= |raw| && raw[e - 1] == ']'
    ensures r.Ok? ==> a < r.value.pos < e
  {
    var layout := ShipListIndentation(raw, a, e);
    var spans := FlowMaps(raw, a, e);
    var s := ApplyKeyStyle(ship, SampleStyle(raw, spans, decode));
    match SideText(s)
    case None => Err(SideNotString)
    case Some(side) =>
      var same := if clusterBySide && side != "" then SameSideEnd(raw, spans, 0, decode, side, None) else Ok(None);
      match same
      case Err(m) => Err(m)
      case Ok(last) =>
        var block := Strip(ShipBlockText(s, layout.itemIndent));
        if last.Some? then
          FlowMapsOk(raw, a, e);
          SameSideEndInList(raw, spans, 0, decode, side, None, a, e);
          Ok(PlaceBlock(raw, a, e, layout, block, last))
        else Ok(PlaceBlock(raw, a, e, layout, block, last))
  }

  /** After the last same-side block, with commas on both sides; else
      before the closing bracket, with a comma before when the list already
      has an entry. */
  function PlaceBlock(raw: string, a: nat, e: nat, layout: Layout, block: string, last: Option<nat>): (r: InsertPlan)
    requires a + 2 <= e <= |raw|
    requires last.Some? ==> a < last.value < e
    ensures a < r.pos < e
  {
    if last.Some? then InsertPlan(last.value, AddedText(layout, block, true, true))
    else
      var i := BackOverSpace(raw, e - 2, a);
      InsertPlan(e - 1, AddedText(layout, block, raw[i] != '[', false))
  }

  function PlanInsert(raw: string, ship: Record, clusterBySide: bool, decode: Decoder): (r: Result<InsertPlan>)
    ensures raw == [] ==> r == Err(NoTextForInsert)
    ensures raw != [] && ShipListRegion(raw).None? ==> r == Err(NoShipListForInsert)
    ensures r.Ok? ==> ShipListRegion(raw).Some?
    ensures r.Ok? ==> ShipListRegion(raw).value.0 < r.value.pos < ShipListRegion(raw).value.1
  {
    if raw == [] then Err(NoTextForInsert)
    else
      match ShipListRegion(raw)
      case None => Err(NoShipListForInsert)
      case Some(region) =>
        assert raw[region.0] == '[' && raw[region.1 - 1] == ']';
        PlanInList(raw, region.0, region.1, ship, clusterBySide, decode)
  }

  /** `_surgical_insert_ship_block`: the new text, or the error it raises. */
  function InsertText(raw: string, ship: Record, clusterBySide: bool, decode: Decoder): (r: Result<string>)
  {
    match PlanInsert(raw, ship, clusterBySide, decode)
    case Err(m) => Err(m)
    case Ok(p) => Ok(raw[..p.pos] + p.add + raw[p.pos..])
  }

  // ---------- delete ----------

  /** `_surgical_delete_ship_by_key`: the slice `[lo, hi)` it cuts out
      (the first block that has `key` as a key or name, together with one
      separating comma and the space beside it); None where the source
      returns False. */
  function DeleteSlice(raw: string, key: string): (r: Option<(nat, nat)>)
    ensures r.Some? <==> raw != [] && ShipListRegion(raw).Some? && ObjectSpansForKey(raw, key) != []
    ensures r.Some? ==> r.value.0 <= r.value.1 <= |raw|
  {
    if raw == [] then None
    else
      match ShipListRegion(raw)
      case None => None
      case Some(region) =>
        var spans := ObjectSpansForKey(raw, key);
        if spans == [] then None
        else Some(CutAround(raw, region.0, spans[0].0, spans[0].1))
  }

  /** Case A: a comma before the block, with only space between, goes with
      it. Case B: otherwise the space after the block and at most one comma
      after that go with it. */
  function CutAround(raw: string, arrStart: nat, start: nat, end: nat): (r: (nat, nat))
    requires start < end <= |raw|
    ensures r.0 <= start && end <= r.1 <= |raw|
  {
    var i := BackOverSpace(raw, start as int - 1, arrStart);
    if i >= arrStart && raw[i] == ',' then (i as nat, end)
    else
      var j := WsRun(raw, end);
      (start, if j < |raw| && raw[j] == ',' then j + 1 else j)
  }

  function DeleteText(raw: string, key: string): (r: Option<string>)
  {
    match DeleteSlice(raw, key)
    case None => None
    case Some((lo, hi)) => Some(raw[..lo] + raw[hi..])
  }

  /** What may go with a deleted block: a comma and the space after it, or
      space and then a comma, or space alone. */
  predicate Separator(s: string) {
    AllSpace(s) || (s != [] && s[0] == ',' && AllSpace(s[1..])) || (s != [] && s[|s| - 1] == ',' && AllSpace(s[..|s| - 1]))
  }

  // ---------- save ----------

  predicate IsTruthy(v: Option<Value>) { v.Some? && Truthy(v.value) }

  /** `ship.get("Key") or ship.get("key")`. */
  function KeyValue(ship: Record): Option<Value> {
    if IsTruthy(Get(ship, "Key")) then Get(ship, "Key") else Get(ship, "key")
  }

  /** The first block found for `str(v)`. */
  function Locate(raw: string, v: Value): (r: Option<(nat, nat)>)
    ensures r.Some? ==> var sp := r.value;
      sp.0 < sp.1 <= |raw| && raw[sp.0] == '{' && raw[sp.1 - 1] == '}'
  {
    var spans := ObjectSpansForKey(raw, PyStr(v));
    if spans == [] then None else Some(spans[0])
  }

  /** The search by a field's value when the field is truthy. */
  function LocateBy(raw: string, v: Option<Value>): (r: Option<(nat, nat)>)
    ensures !IsTruthy(v) ==> r == None
    ensures IsTruthy(v) ==> r == Locate(raw, v.value)
    ensures r.Some? ==> var sp := r.value;
      sp.0 < sp.1 <= |raw| && raw[sp.0] == '{' && raw[sp.1 - 1] == '}'
  {
    if IsTruthy(v) then Locate(raw, v.value) else None
  }

  /** The ship's block, by its key and failing that by its name. */
  function FindShip(raw: string, ship: Record): (r: Option<(nat, nat)>)
    ensures r.Some? ==> var sp := r.value;
      sp.0 < sp.1 <= |raw| && raw[sp.0] == '{' && raw[sp.1 - 1] == '}'
  {
    var byKey := LocateBy(raw, KeyValue(ship));
    if byKey.None? then LocateBy(raw, Get(ship, "name"))
    else byKey
  }

  /** The search after inserting a new block: by key if the ship has one,
      else by name. */
  function Relocate(raw: string, ship: Record): (r: Option<(nat, nat)>)
    ensures r.Some? ==> var sp := r.value;
      sp.0 < sp.1 <= |raw| && raw[sp.0] == '{' && raw[sp.1 - 1] == '}'
  {
    if IsTruthy(KeyValue(ship)) then LocateBy(raw, KeyValue(ship))
    else LocateBy(raw, Get(ship, "name"))
  }

  /** The spellings a field is patched under: the key itself, then the other
      spelling for the four identifying keys. */
  function KeyForms(k: string): (r: seq<string>)
    ensures 1 <= |r| <= 2 && r[0] == k
    ensures |r| == 2 <==> k == "Key" || k == "name" || k == "side" || k == "artfileroot"
  {
    if k == "Key" then [k, "key"]
    else if k == "name" then [k, "Name"]
    else if k == "side" then [k, "Side"]
    else if k == "artfileroot" then [k, "Artfileroot"]
    else [k]
  }

  predicate HasDict(items: seq<Value>) { exists i :: 0 <= i < |items| && items[i].VMap? }

  /** One update applied to the block: lists through the list patcher (as
      objects when they hold a dict or are the torpedo start list, else as
      compact text), everything else through the scalar patcher. A value
      the renderers refuse is an error. */
  function PatchField(block: string, k: string, v: Value): (r: Result<string>)
    ensures r.Err? <==> (v.VList? && !HasDict(v.items) && k != "torpedostart" && ReprList(v.items).None?) || v.VMap?
  {
    var forms := KeyForms(k);
    var patched: Result<(string, nat)> :=
      if v.VList? then
        if HasDict(v.items) || k == "torpedostart" then Ok(PatchList(block, forms, NewList(None, Some(v.items))))
        else
          match ReprList(v.items)
          case None => Err(NotRenderable)
          case Some(s) => Ok(PatchList(block, forms, NewList(Some(s), None)))
      else
        match ReprScalar(v)
        case None => Err(NotRenderable)
        case Some(s) => Ok(PatchScalar(block, forms, s));
    match patched
    case Err(m) => Err(m)
    case Ok((nb, n)) => Ok(if n > 0 then nb else block)
  }

  /** The updates applied one after another from key `i` of `keys` on. */
  function PatchAllFrom(block: string, updates: Record, keys: seq<string>, i: nat): (r: Result<string>)
    requires i <= |keys| && forall j :: 0 <= j < |keys| ==> Has(updates, keys[j])
    decreases |keys| - i
  {
    if i == |keys| then Ok(block)
    else
      assert Has(updates, keys[i]);
      match PatchField(block, keys[i], Get(updates, keys[i]).value)
      case Err(m) => Err(m)
      case Ok(b) => PatchAllFrom(b, updates, keys, i + 1)
  }

  /** The keys of `updates` in sorted order; every one is present. */
  function SortedKeys(updates: Record): (ks: seq<string>)
    ensures forall j :: 0 <= j < |ks| ==> Has(updates, ks[j])
    ensures multiset(ks) == multiset(Keys(updates))
  {
    var ks := SortStrings(Keys(updates));
    forall j | 0 <= j < |ks| ensures Has(updates, ks[j]) {
      assert ks[j] in multiset(Keys(updates));
      var m :| 0 <= m < |Keys(updates)| && Keys(updates)[m] == ks[j];
      GetSpec(updates, ks[j]);
    }
    ks
  }

  /** The text after a save and the error it raised, if any. */
  datatype Outcome = Outcome(text: string, error: Option<string>)

  /** The updates patched into the block at `sp` of `text`, spliced back,
      and the banner stamped. */
  function PatchAndStamp(text: string, sp: (nat, nat), updates: Record, timestamp: string): (r: Outcome)
    requires sp.0 <= sp.1 <= |text|
    ensures r.error.Some? ==> r.text == text
  {
    match PatchAllFrom(text[sp.0..sp.1], updates, SortedKeys(updates), 0)
    case Err(m) => Outcome(text, Some(m))
    case Ok(b) => Outcome(UpsertBanner(text[..sp.0] + b + text[sp.1..], BannerValue(timestamp)), None)
  }

  /** `_surgical_save_current_ship`, with the file write left out. */
  function SaveText(raw: string, ship: Record, updates: Record, decode: Decoder, timestamp: string): (r: Outcome)
  {
    if raw == [] then Outcome(raw, Some(NoTextForSave))
    else
      match FindShip(raw, ship)
      case Some(sp) => PatchAndStamp(raw, sp, updates, timestamp)
      case None =>
        match InsertText(raw, Update(ship, updates), true, decode)
        case Err(m) => Outcome(raw, Some(m))
        case Ok(raw2) =>
          match Relocate(raw2, ship)
          case None => Outcome(raw2, Some(NotRelocated))
          case Some(sp) => PatchAndStamp(raw2, sp, updates, timestamp)
  }

  // ---------- what the edits promise ----------

  /** The clustering loop picks the LAST block whose side is `side`: either
      none from `i` on has it and `acc` stands, or the result is the end of
      one that has it and no later block does. */
  lemma {:induction false} SameSideEndIsLast(raw: string, spans: seq<(nat, nat)>, i: nat, decode: Decoder, side: string,
                                             acc: Option<nat>)
    requires i <= |spans|
    ensures var r := SameSideEnd(raw, spans, i, decode, side, acc);
      r.Ok? ==>
        (r.value == acc && forall j :: i <= j < |spans| ==> ProbeSide(raw, spans[j], decode) != SideIs(side))
        || (exists j :: i <= j < |spans| && ProbeSide(raw, spans[j], decode) == SideIs(side) && r.value == Some(spans[j].1)
              && forall j' :: j < j' < |spans| ==> ProbeSide(raw, spans[j'], decode) != SideIs(side))
    decreases |spans| - i
  {
    if i < |spans| {
      var p := ProbeSide(raw, spans[i], decode);
      if !p.SideNotText? {
        var acc' := if p == SideIs(side) then Some(spans[i].1) else acc;
        SameSideEndIsLast(raw, spans, i + 1, decode, side, acc');
        var r := SameSideEnd(raw, spans, i + 1, decode, side, acc');
        assert SameSideEnd(raw, spans, i, decode, side, acc) == r;
        if r.Ok? && r.value == acc' && forall j :: i + 1 <= j < |spans| ==> ProbeSide(raw, spans[j], decode) != SideIs(side) {
          if p == SideIs(side) {
            assert forall j' :: i < j' < |spans| ==> ProbeSide(raw, spans[j'], decode) != SideIs(side);
          }
        }
      }
    }
  }

  /** The rendered block is a map with nothing to strip at either end. */
  lemma BlockIsStrippedMap(ship: Record, itemIndent: string)
    ensures var b := ShipBlockText(ship, itemIndent);
      |b| >= 2 && Strip(b) == b && b[0] == '{' && b[|b| - 1] == '}'
  {
    var b := ShipBlockText(ship, itemIndent);
    ShipBlockShape(ship, itemIndent);
    assert b[|b| - 1] == (BlockIndent(itemIndent) + "}")[|BlockIndent(itemIndent) + "}"| - 1];
    StripUnpadded(b);
  }

  /** The added text is an optional separating comma, the item indent, the
      block, and an optional comma and the line break. */
  lemma AddedTextShape(layout: Layout, block: string, commaBefore: bool, commaAfter: bool)
    ensures exists before: string, after: string ::
      (before == "" || before == "," + layout.lb) && (after == layout.lb || after == "," + layout.lb)
      && AddedText(layout, block, commaBefore, commaAfter) == before + layout.itemIndent + block + after
  {
    var before: string := if commaBefore then "," + layout.lb else "";
    var c: string := if commaAfter then "," else "";
    var x := before + layout.itemIndent + block;
    assert AddedText(layout, block, commaBefore, commaAfter) == x + c + layout.lb;
    ConcatAssoc(x, c, layout.lb);
  }

  lemma ConcatAssoc(x: string, y: string, z: string)
    ensures x + y + z == x + (y + z)
  {
  }

  /** Whichever branch places it, the plan adds the rendered block. */
  lemma PlanInListAddsBlock(raw: string, a: nat, e: nat, ship: Record, clusterBySide: bool, decode: Decoder)
    requires a + 2 <= e <= |raw| && raw[e - 1] == ']'
    requires PlanInList(raw, a, e, ship, clusterBySide, decode).Ok?
    ensures var layout := ShipListIndentation(raw, a, e);
      var s := ApplyKeyStyle(ship, SampleStyle(raw, FlowMaps(raw, a, e), decode));
      exists before: string, after: string ::
        (before == "" || before == "," + layout.lb) && (after == layout.lb || after == "," + layout.lb)
        && PlanInList(raw, a, e, ship, clusterBySide, decode).value.add
           == before + layout.itemIndent + ShipBlockText(s, layout.itemIndent) + after
  {
    var layout := ShipListIndentation(raw, a, e);
    var s := ApplyKeyStyle(ship, SampleStyle(raw, FlowMaps(raw, a, e), decode));
    var block := ShipBlockText(s, layout.itemIndent);
    var spans := FlowMaps(raw, a, e);
    var side := SideText(s).value;
    var same := if clusterBySide && side != "" then SameSideEnd(raw, spans, 0, decode, side, None) else Ok(None);
    FlowMapsOk(raw, a, e);
    SameSideEndInList(raw, spans, 0, decode, side, None, a, e);
    BlockIsStrippedMap(s, layout.itemIndent);
    assert PlanInList(raw, a, e, ship, clusterBySide, decode) == Ok(PlaceBlock(raw, a, e, layout, block, same.value));
    PlaceBlockAdds(raw, a, e, layout, block, same.value);
  }

  /** Either placement adds the block between an optional separator and a
      line break. */
  lemma PlaceBlockAdds(raw: string, a: nat, e: nat, layout: Layout, block: string, last: Option<nat>)
    requires a + 2 <= e <= |raw|
    requires last.Some? ==> a < last.value < e
    ensures exists before: string, after: string ::
      (before == "" || before == "," + layout.lb) && (after == layout.lb || after == "," + layout.lb)
      && PlaceBlock(raw, a, e, layout, block, last).add == before + layout.itemIndent + block + after
  {
    if last.Some? {
      AddedTextShape(layout, block, true, true);
    } else {
      var i := BackOverSpace(raw, e - 2, a);
      AddedTextShape(layout, block, raw[i] != '[', false);
    }
  }

  /** After a same-side block the new block goes right at its end, with a
      comma on both sides. Otherwise it goes at the closing bracket, and a
      leading comma is added exactly when the last non-space character
      before that bracket (looking no further back than `a`) is not `[`. */
  lemma PlaceBlockWhere(raw: string, a: nat, e: nat, layout: Layout, block: string, last: Option<nat>)
    requires a + 2 <= e <= |raw|
    requires last.Some? ==> a < last.value < e
    ensures var r := PlaceBlock(raw, a, e, layout, block, last);
      last.Some? ==> r.pos == last.value && r.add == "," + layout.lb + layout.itemIndent + block + "," + layout.lb
    ensures var r := PlaceBlock(raw, a, e, layout, block, last);
      last.None? ==> r.pos == e - 1
    ensures var r := PlaceBlock(raw, a, e, layout, block, last);
      last.None? ==>
        exists i :: a <= i < e - 1 && (i == a || !IsSpace(raw[i])) && (forall k :: i < k < e - 1 ==> IsSpace(raw[k])) && r.add == (if raw[i] != '[' then "," + layout.lb else "") + layout.itemIndent + block + layout.lb
  {
    if last.None? {
      var i := BackOverSpace(raw, e - 2, a);
      assert a <= i < e - 1;
    }
  }

  /** `t` is `raw` with `before + itemIndent + block + after` put in at `p`,
      where `before` is nothing or a comma and a line break, and `after` a
      line break with or without a comma before it. */
  predicate SplicedAt(raw: string, t: string, p: nat, before: string, after: string, layout: Layout, block: string) {
    p <= |raw|
    && (before == "" || before == "," + layout.lb) && (after == layout.lb || after == "," + layout.lb)
    && t == raw[..p] + (before + layout.itemIndent + block + after) + raw[p..]
  }

  /** `t` is `raw` with one block spliced in strictly between `lo` and `hi`. */
  ghost predicate Spliced(raw: string, t: string, lo: nat, hi: nat, layout: Layout, block: string) {
    exists p: nat, before: string, after: string :: lo < p < hi && SplicedAt(raw, t, p, before, after, layout, block)
  }

  /** An insert keeps the whole old text: it splits it at one point inside
      the ship list and puts there the item indent and the rendered block,
      with a separating comma before it when the list already has an entry
      there, and a comma after it when it follows a block of its side. */
  lemma InsertAddsOneBlock(raw: string, ship: Record, clusterBySide: bool, decode: Decoder)
    requires InsertText(raw, ship, clusterBySide, decode).Ok?
    ensures ShipListRegion(raw).Some?
    ensures var a, e := ShipListRegion(raw).value.0, ShipListRegion(raw).value.1;
      var layout := ShipListIndentation(raw, a, e);
      var s := ApplyKeyStyle(ship, SampleStyle(raw, FlowMaps(raw, a, e), decode));
      Spliced(raw, InsertText(raw, ship, clusterBySide, decode).value, a, e, layout, ShipBlockText(s, layout.itemIndent))
  {
    assert PlanInsert(raw, ship, clusterBySide, decode).Ok?;
    var region := ShipListRegion(raw).value;
    InsertAddsAt(raw, ship, clusterBySide, decode, region.0, region.1);
  }

  /** `InsertAddsOneBlock` once the list is known to be at `[a, e)`. */
  lemma InsertAddsAt(raw: string, ship: Record, clusterBySide: bool, decode: Decoder, a: nat, e: nat)
    requires InsertText(raw, ship, clusterBySide, decode).Ok?
    requires ShipListRegion(raw) == Some((a, e))
    ensures var layout := ShipListIndentation(raw, a, e);
      var s := ApplyKeyStyle(ship, SampleStyle(raw, FlowMaps(raw, a, e), decode));
      Spliced(raw, InsertText(raw, ship, clusterBySide, decode).value, a, e, layout, ShipBlockText(s, layout.itemIndent))
  {
    InsertInRegion(raw, ship, clusterBySide, decode, a, e);
    InListAddsOneBlock(raw, a, e, ship, clusterBySide, decode);
  }

  /** A successful insert splices the plan made inside the located list. */
  lemma InsertInRegion(raw: string, ship: Record, clusterBySide: bool, decode: Decoder, a: nat, e: nat)
    requires InsertText(raw, ship, clusterBySide, decode).Ok?
    requires ShipListRegion(raw) == Some((a, e))
    ensures a + 2 <= e <= |raw| && raw[e - 1] == ']'
    ensures PlanInList(raw, a, e, ship, clusterBySide, decode).Ok?
    ensures var plan := PlanInList(raw, a, e, ship, clusterBySide, decode).value;
      InsertText(raw, ship, clusterBySide, decode).value == raw[..plan.pos] + plan.add + raw[plan.pos..]
  {
    assert raw[a] == '[' && raw[e - 1] == ']';
    PlanInsertInRegion(raw, ship, clusterBySide, decode, a, e);
  }

  /** Once the list is found, the insert plan is the one made inside it. */
  lemma PlanInsertInRegion(raw: string, ship: Record, clusterBySide: bool, decode: Decoder, a: nat, e: nat)
    requires raw != [] && ShipListRegion(raw) == Some((a, e))
    requires a + 2 <= e <= |raw| && raw[e - 1] == ']'
    ensures PlanInsert(raw, ship, clusterBySide, decode) == PlanInList(raw, a, e, ship, clusterBySide, decode)
  {
  }

  /** `InsertAddsOneBlock` for a list already located at `[a, e)`. */
  lemma InListAddsOneBlock(raw: string, a: nat, e: nat, ship: Record, clusterBySide: bool, decode: Decoder)
    requires a + 2 <= e <= |raw| && raw[e - 1] == ']'
    requires PlanInList(raw, a, e, ship, clusterBySide, decode).Ok?
    ensures var plan := PlanInList(raw, a, e, ship, clusterBySide, decode).value;
      var layout := ShipListIndentation(raw, a, e);
      var s := ApplyKeyStyle(ship, SampleStyle(raw, FlowMaps(raw, a, e), decode));
      Spliced(raw, raw[..plan.pos] + plan.add + raw[plan.pos..], a, e, layout, ShipBlockText(s, layout.itemIndent))
  {
    var layout := ShipListIndentation(raw, a, e);
    var s := ApplyKeyStyle(ship, SampleStyle(raw, FlowMaps(raw, a, e), decode));
    var plan := PlanInList(raw, a, e, ship, clusterBySide, decode).value;
    PlanInListAddsBlock(raw, a, e, ship, clusterBySide, decode);
    SplicedFrom(raw, plan.pos, plan.add, a, e, layout, ShipBlockText(s, layout.itemIndent));
  }

  lemma SplicedFrom(raw: string, pos: nat, add: string, a: nat, e: nat, layout: Layout, block: string)
    requires a < pos < e && pos <= |raw|
    requires exists before: string, after: string ::
      (before == "" || before == "," + layout.lb) && (after == layout.lb || after == "," + layout.lb)
      && add == before + layout.itemIndent + block + after
    ensures Spliced(raw, raw[..pos] + add + raw[pos..], a, e, layout, block)
  {
    var before: string, after: string :|
      (before == "" || before == "," + layout.lb) && (after == layout.lb || after == "," + layout.lb)
      && add == before + layout.itemIndent + block + after;
    assert SplicedAt(raw, raw[..pos] + add + raw[pos..], pos, before, after, layout, block);
  }

  /** What a delete cuts beside the block is a separator, on one side only,
      and a comma before the block is taken only from inside the list. */
  lemma CutAroundIsSeparator(raw: string, arrStart: nat, start: nat, end: nat)
    requires start < end <= |raw|
    ensures var (lo, hi) := CutAround(raw, arrStart, start, end);
      Separator(raw[lo..start]) && Separator(raw[end..hi]) && (lo == start || hi == end)
      && (lo < start ==> arrStart <= lo && raw[lo] == ',')
  {
    var i := BackOverSpace(raw, start as int - 1, arrStart);
    if i >= arrStart && raw[i] == ',' {
      assert raw[i..start][1..] == raw[i + 1..start];
    } else {
      var j := WsRun(raw, end);
      if j < |raw| && raw[j] == ',' {
        assert raw[end..j + 1][..j - end] == raw[end..j];
      }
    }
  }

  /** A delete removes one slice of the text: the first block found for
      the key, which holds that key as its Key or name, and around it only a
      separator on one side. */
  lemma DeleteCutsOneBlock(raw: string, key: string)
    requires DeleteText(raw, key).Some?
    ensures var sp := ObjectSpansForKey(raw, key)[0];
      exists lo: nat, hi: nat ::
        lo <= sp.0 < sp.1 <= hi <= |raw| && DeleteText(raw, key).value == raw[..lo] + raw[hi..]
        && Separator(raw[lo..sp.0]) && Separator(raw[sp.1..hi]) && (lo == sp.0 || hi == sp.1)
    ensures var sp := ObjectSpansForKey(raw, key)[0];
      exists k :: 0 <= k < |KeyMatches(raw)| && KeyMatches(raw)[k].1.content == key
        && ObjectBounds(raw, KeyMatches(raw)[k].0) == Some(sp)
  {
    var sp := ObjectSpansForKey(raw, key)[0];
    var region := ShipListRegion(raw).value;
    var cut := CutAround(raw, region.0, sp.0, sp.1);
    assert DeleteSlice(raw, key) == Some(cut);
    CutWitness(raw, region.0, sp, cut, DeleteText(raw, key).value);
    ObjectSpansSound(raw, key, sp);
  }

  /** The cut around the span `sp` is a slice of the kind the delete promises. */
  lemma CutWitness(raw: string, arrStart: nat, sp: (nat, nat), cut: (nat, nat), out: string)
    requires sp.0 < sp.1 <= |raw| && cut == CutAround(raw, arrStart, sp.0, sp.1)
    requires out == raw[..cut.0] + raw[cut.1..]
    ensures exists lo: nat, hi: nat ::
      lo <= sp.0 < sp.1 <= hi <= |raw| && out == raw[..lo] + raw[hi..]
      && Separator(raw[lo..sp.0]) && Separator(raw[sp.1..hi]) && (lo == sp.0 || hi == sp.1)
  {
    CutAroundIsSeparator(raw, arrStart, sp.0, sp.1);
  }

  /** A save that raises leaves no patch half-done: the text is as loaded,
      or as loaded plus the newly inserted block. */
  lemma SaveFailsWhole(raw: string, ship: Record, updates: Record, decode: Decoder, timestamp: string)
    ensures var o := SaveText(raw, ship, updates, decode, timestamp);
      o.error.Some? ==> o.text == raw || InsertText(raw, Update(ship, updates), true, decode) == Ok(o.text)
  {
    if raw != [] {
      var found := FindShip(raw, ship);
      if found.Some? {
        assert SaveText(raw, ship, updates, decode, timestamp) == PatchAndStamp(raw, found.value, updates, timestamp);
      } else {
        var ins := InsertText(raw, Update(ship, updates), true, decode);
        if ins.Ok? {
          var again := Relocate(ins.value, ship);
          if again.Some? {
            assert SaveText(raw, ship, updates, decode, timestamp) == PatchAndStamp(ins.value, again.value, updates, timestamp);
          }
        }
      }
    }
  }

  /** A save of a ship the text already has rewrites only that ship's block
      and then stamps the banner. */
  lemma SaveTouchesOnlyTheBlock(raw: string, ship: Record, updates: Record, decode: Decoder, timestamp: string)
    requires raw != [] && FindShip(raw, ship).Some?
    ensures var sp := FindShip(raw, ship).value;
      var o := SaveText(raw, ship, updates, decode, timestamp);
      o.error.None? ==> exists b :: o.text == UpsertBanner(raw[..sp.0] + b + raw[sp.1..], BannerValue(timestamp))
  {
    var sp := FindShip(raw, ship).value;
    var o := SaveText(raw, ship, updates, decode, timestamp);
    if o.error.None? {
      var b := PatchAllFrom(raw[sp.0..sp.1], updates, SortedKeys(updates), 0).value;
      assert o.text == UpsertBanner(raw[..sp.0] + b + raw[sp.1..], BannerValue(timestamp));
    }
  }

  /** Saving no changes to a ship the text has only stamps the banner. */
  lemma SaveNothingStampsBanner(raw: string, ship: Record, decode: Decoder, timestamp: string)
    requires raw != [] && FindShip(raw, ship).Some?
    ensures SaveText(raw, ship, [], decode, timestamp) == Outcome(UpsertBanner(raw, BannerValue(timestamp)), None)
  {
    PatchNothing(raw, FindShip(raw, ship).value, timestamp);
  }

  /** With no updates the block is put back as it was. */
  lemma PatchNothing(text: string, sp: (nat, nat), timestamp: string)
    requires sp.0 <= sp.1 <= |text|
    ensures PatchAndStamp(text, sp, [], timestamp) == Outcome(UpsertBanner(text, BannerValue(timestamp)), None)
  {
    assert SortedKeys([]) == [];
    assert PatchAllFrom(text[sp.0..sp.1], [], [], 0) == Ok(text[sp.0..sp.1]);
    assert text[..sp.0] + text[sp.0..sp.1] + text[sp.1..] == text;
  }

  // ---------- the loops, on values ----------

  /** The key-style probe: the first block that decodes gives the style. */
  method ProbeKeyStyle(raw: string, spans: seq<(nat, nat)>, decode: Decoder) returns (style: KeyStyle)
    ensures style == SampleStyle(raw, spans, decode)
  {
    style := DefaultStyle;
    var k := 0;
    var found := false;
    while k < |spans| && !found
      invariant 0 <= k <= |spans|
      invariant !found ==> style == DefaultStyle && FirstDecodedFrom(raw, spans, k, decode) == FirstDecodedFrom(raw, spans, 0, decode)
      invariant found ==> style == SampleStyle(raw, spans, decode)
      decreases |spans| - k, if found then 0 else 1
    {
      var d := Decoded(raw, spans[k], decode);
      if d.Some? {
        style := DeduceKeyStyle(d.value);
        found := true;
      } else {
        k := k + 1;
      }
    }
  }

  /** The clustering loop. */
  method FindSameSideEnd(raw: string, spans: seq<(nat, nat)>, decode: Decoder, side: string) returns (r: Result<Option<nat>>)
    ensures r == SameSideEnd(raw, spans, 0, decode, side, None)
  {
    var last: Option<nat> := None;
    var j := 0;
    while j < |spans|
      invariant 0 <= j <= |spans|
      invariant SameSideEnd(raw, spans, j, decode, side, last) == SameSideEnd(raw, spans, 0, decode, side, None)
    {
      var p := ProbeSide(raw, spans[j], decode);
      if p.SideNotText? {
        return Err(SideNotString);
      }
      if p.SideIs? && p.side == side {
        last := Some(spans[j].1);
      }
      j := j + 1;
    }
    r := Ok(last);
  }

  method ScanBackOverSpace(raw: string, i0: int, lo: nat) returns (i: int)
    requires -1 <= i0 < |raw|
    ensures i == BackOverSpace(raw, i0, lo)
  {
    i := i0;
    while i > lo && IsSpace(raw[i])
      invariant -1 <= i <= i0
      invariant BackOverSpace(raw, i, lo) == BackOverSpace(raw, i0, lo)
      decreases i
    {
      i := i - 1;
    }
  }

  method ScanSpace(raw: string, j0: nat) returns (j: nat)
    requires j0 <= |raw|
    ensures j == WsRun(raw, j0)
  {
    j := j0;
    while j < |raw| && IsSpace(raw[j])
      invariant j0 <= j <= |raw|
      invariant WsRun(raw, j) == WsRun(raw, j0)
    {
      j := j + 1;
    }
  }

  /** The insert once the list is found, step by step as the source does it. */
  method ComputePlanInList(raw: string, a: nat, e: nat, ship: Record, clusterBySide: bool, decode: Decoder)
    returns (r: Result<InsertPlan>)
    requires a + 2 <= e <= |raw| && raw[e - 1] == ']'
    ensures r == PlanInList(raw, a, e, ship, clusterBySide, decode)
  {
    var layout := ShipListIndentation(raw, a, e);
    var spans := IterTopLevelFlowMaps(raw, a, e);
    var style := ProbeKeyStyle(raw, spans, decode);
    var s := ApplyKeyStyle(ship, style);
    var side := SideText(s);
    if side.None? {
      return Err(SideNotString);
    }
    var last: Option<nat> := None;
    if clusterBySide && side.value != "" {
      var same := FindSameSideEnd(raw, spans, decode, side.value);
      if same.Err? {
        return Err(same.error);
      }
      last := same.value;
    }
    var rendered := RenderShipBlock(s, layout.itemIndent);
    var block := Strip(rendered);
    if last.Some? {
      FlowMapsOk(raw, a, e);
      SameSideEndInList(raw, spans, 0, decode, side.value, None, a, e);
    }
    var plan := ComputePlace(raw, a, e, layout, block, last);
    r := Ok(plan);
  }

  method ComputePlace(raw: string, a: nat, e: nat, layout: Layout, block: string, last: Option<nat>) returns (r: InsertPlan)
    requires a + 2 <= e <= |raw|
    requires last.Some? ==> a < last.value < e
    ensures r == PlaceBlock(raw, a, e, layout, block, last)
  {
    if last.Some? {
      r := InsertPlan(last.value, AddedText(layout, block, true, true));
    } else {
      var i := ScanBackOverSpace(raw, e - 2, a);
      assert 0 <= i < |raw|;
      var commaBefore := raw[i] != '[';
      r := InsertPlan(e - 1, AddedText(layout, block, commaBefore, false));
    }
  }

  method ComputePlan(raw: string, ship: Record, clusterBySide: bool, decode: Decoder) returns (r: Result<InsertPlan>)
    ensures r == PlanInsert(raw, ship, clusterBySide, decode)
  {
    if raw == [] {
      return Err(NoTextForInsert);
    }
    var region := ExtractShipListRegion(raw);
    if region.None? {
      return Err(NoShipListForInsert);
    }
    r := ComputePlanInList(raw, region.value.0, region.value.1, ship, clusterBySide, decode);
  }

  method ComputeDeleteSlice(raw: string, key: string) returns (r: Option<(nat, nat)>)
    ensures r == DeleteSlice(raw, key)
  {
    if raw == [] {
      return None;
    }
    var region := ExtractShipListRegion(raw);
    if region.None? {
      return None;
    }
    var matches := IterObjectSpansForKey(raw, key);
    if matches == [] {
      return None;
    }
    var cut := ComputeCut(raw, region.value.0, matches[0].0, matches[0].1);
    r := Some(cut);
  }

  method ComputeCut(raw: string, arrStart: nat, start: nat, end: nat) returns (r: (nat, nat))
    requires start < end <= |raw|
    ensures r == CutAround(raw, arrStart, start, end)
  {
    var i := ScanBackOverSpace(raw, start as int - 1, arrStart);
    if i >= arrStart && raw[i] == ',' {
      r := (i as nat, end);
    } else {
      var j := ScanSpace(raw, end);
      if j < |raw| && raw[j] == ',' {
        j := j + 1;
      }
      r := (start, j);
    }
  }

  method ComputeLocate(raw: string, v: Value) returns (r: Option<(nat, nat)>)
    ensures r == Locate(raw, v)
  {
    var matches := IterObjectSpansForKey(raw, PyStr(v));
    r := if matches == [] then None else Some(matches[0]);
  }

  method ComputeFindShip(raw: string, ship: Record) returns (r: Option<(nat, nat)>)
    ensures r == FindShip(raw, ship)
  {
    var keyVal := KeyValue(ship);
    var nameVal := Get(ship, "name");
    r := None;
    if IsTruthy(keyVal) {
      r := ComputeLocate(raw, keyVal.value);
    }
    if r.None? && IsTruthy(nameVal) {
      r := ComputeLocate(raw, nameVal.value);
    }
  }

  method ComputeRelocate(raw: string, ship: Record) returns (r: Option<(nat, nat)>)
    ensures r == Relocate(raw, ship)
  {
    var keyVal := KeyValue(ship);
    var nameVal := Get(ship, "name");
    if IsTruthy(keyVal) {
      r := ComputeLocate(raw, keyVal.value);
    } else if IsTruthy(nameVal) {
      r := ComputeLocate(raw, nameVal.value);
    } else {
      r := None;
    }
  }

  /** One field of the update loop. */
  method PatchOne(block: string, k: string, v: Value) returns (r: Result<string>)
    ensures r == PatchField(block, k, v)
  {
    var forms := KeyForms(k);
    var patched: (string, nat);
    if v.VList? {
      if HasDict(v.items) || k == "torpedostart" {
        patched := PatchListInBlock(block, forms, NewList(None, Some(v.items)));
      } else {
        var vstr := ReprList(v.items);
        if vstr.None? {
          return Err(NotRenderable);
        }
        patched := PatchListInBlock(block, forms, NewList(Some(vstr.value), None));
      }
    } else {
      var vstr := ReprScalar(v);
      if vstr.None? {
        return Err(NotRenderable);
      }
      patched := PatchScalar(block, forms, vstr.value);
    }
    r := Ok(if patched.1 > 0 then patched.0 else block);
  }

  /** The update loop, in sorted key order. */
  method PatchFields(block0: string, updates: Record) returns (r: Result<string>)
    ensures r == PatchAllFrom(block0, updates, SortedKeys(updates), 0)
  {
    var keys := SortedKeys(updates);
    var block := block0;
    for i := 0 to |keys|
      invariant PatchAllFrom(block, updates, keys, i) == PatchAllFrom(block0, updates, keys, 0)
    {
      var k := keys[i];
      var patched := PatchOne(block, k, Get(updates, k).value);
      if patched.Err? {
        return Err(patched.error);
      }
      block := patched.value;
    }
    r := Ok(block);
  }

  // ---------- the editor's text state ----------

  class ShipEditor {
    /** The ship file's text as loaded, edited in place. */
    var rawText: string

    constructor (text: string)
      ensures rawText == text
    {
      rawText := text;
    }

    /** `_surgical_insert_ship_block`. */
    method Insert(ship: Record, clusterBySide: bool, decode: Decoder) returns (err: Option<string>)
      modifies this
      ensures InsertText(old(rawText), ship, clusterBySide, decode) == (if err.None? then Ok(rawText) else Err(err.value))
      ensures err.Some? ==> rawText == old(rawText)
    {
      var plan := ComputePlan(rawText, ship, clusterBySide, decode);
      if plan.Err? {
        return Some(plan.error);
      }
      rawText := rawText[..plan.value.pos] + plan.value.add + rawText[plan.value.pos..];
      err := None;
    }

    /** `_surgical_delete_ship_by_key`. */
    method Delete(key: string) returns (removed: bool)
      modifies this
      ensures removed == DeleteText(old(rawText), key).Some?
      ensures rawText == if removed then DeleteText(old(rawText), key).value else old(rawText)
    {
      var slice := ComputeDeleteSlice(rawText, key);
      if slice.None? {
        return false;
      }
      rawText := rawText[..slice.value.0] + rawText[slice.value.1..];
      removed := true;
    }

    /** `_surgical_save_current_ship`, up to the file write. */
    method Save(ship: Record, updates: Record, decode: Decoder, timestamp: string) returns (err: Option<string>)
      modifies this
      ensures SaveText(old(rawText), ship, updates, decode, timestamp) == Outcome(rawText, err)
    {
      if rawText == [] {
        return Some(NoTextForSave);
      }
      var found := ComputeFindShip(rawText, ship);
      var span: (nat, nat);
      if found.Some? {
        span := found.value;
      } else {
        var e := Insert(Update(ship, updates), true, decode);
        if e.Some? {
          return e;
        }
        var again := ComputeRelocate(rawText, ship);
        if again.None? {
          return Some(NotRelocated);
        }
        span := again.value;
      }
      var block := PatchFields(rawText[span.0..span.1], updates);
      if block.Err? {
        return Some(block.error);
      }
      rawText := UpsertBanner(rawText[..span.0] + block.value + rawText[span.1..], BannerValue(timestamp));
      err := None;
    }
  }
}
