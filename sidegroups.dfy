/**
 * `_build_side_groups`: the ships bucketed by side, case-insensitively,
 * for the side selection list. Ships whose side is missing, blank or not a
 * string go to the "unknown" bucket and their keys are remembered.
 */
module SideGroups {
  import opened Wrappers
  import opened PyText
  import opened Records

  /** One bucket: the name shown for it and its ships in input order. */
  datatype Group = Group(display: string, ships: seq<Record>)

  /** The `groups` dict: folded side to bucket, in insertion order. */
  type Groups = seq<(string, Group)>

  datatype Grouping = Grouping(groups: Groups, invalid: set<string>)

  /** `ship.get(k, default).strip()`; None where the value is not a string,
      on which `strip` raises. */
  function StrippedField(ship: Record, k: string, default: string): Option<string> {
    match Get(ship, k)
    case None => Some(Strip(default))
    case Some(VStr(s)) => Some(Strip(s))
    case Some(_) => None
  }

  /** The ship's key as the loop computes it: `key`, else the stripped `name`,
      else "Unnamed". */
  function ShipKey(ship: Record): Option<string> {
    match StrippedField(ship, "name", "Unnamed")
    case None => None
    case Some(name) => StrippedField(ship, "key", name)
  }

  /** The side is a string that is not blank. */
  predicate SideValid(ship: Record) {
    match Get(ship, "side")
    case Some(VStr(s)) => Strip(s) != []
    case _ => false
  }

  function SideRaw(ship: Record): (raw: string)
    requires SideValid(ship)
    ensures raw != []
  {
    Strip(Get(ship, "side").value.s)
  }

  /** The display for a new bucket: a leading lower-case letter is upper-cased. */
  function Friendly(raw: string): (d: string)
    ensures |d| == |raw| && (raw != [] ==> d[1..] == raw[1..] && d[0] == UpperChar(raw[0]))
  {
    if raw != [] && 'a' <= raw[0] <= 'z' then [UpperChar(raw[0])] + raw[1..] else raw
  }

  /** The bucket a ship goes to: `norm_key` of its side, or "unknown". */
  function Bucket(ship: Record): string {
    if SideValid(ship) then Strip(Lower(SideRaw(ship))) else "unknown"
  }

  /** The display a bucket opened by this ship gets. */
  function Display(ship: Record): string {
    if SideValid(ship) then Friendly(SideRaw(ship)) else "Unknown"
  }

  /** What the loop reads off one ship. */
  datatype Info = Info(key: Option<string>, valid: bool, bucket: string, display: string)

  function Classify(ship: Record): (i: Info)
    ensures i.valid <==> SideValid(ship)
    ensures !i.valid ==> i.bucket == "unknown" && i.display == "Unknown"
  {
    Info(ShipKey(ship), SideValid(ship), Bucket(ship), Display(ship))
  }

  /** How ships are classified; the grouping is stated for any classifier. */
  type Classifier = Record -> Info

  /** Where bucket `nk` is, or -1. */
  function IndexOfKey(gs: Groups, nk: string): (r: int)
    ensures r == -1 <==> nk !in Keys(gs)
    ensures r != -1 ==> 0 <= r < |gs| && gs[r].0 == nk
    decreases |gs|
  {
    if gs == [] then -1
    else if gs[|gs| - 1].0 == nk then |gs| - 1
    else
      assert Keys(gs) == Keys(gs[..|gs| - 1]) + [gs[|gs| - 1].0];
      IndexOfKey(gs[..|gs| - 1], nk)
  }

  /** `if nk not in groups: groups[nk] = {"display": disp, "ships": []}`
      followed by `groups[nk]["ships"].append(ship)`. */
  function AddShip(gs: Groups, nk: string, disp: string, ship: Record): Groups {
    var i := IndexOfKey(gs, nk);
    if i == -1 then gs + [(nk, Group(disp, [ship]))]
    else gs[i := (nk, Group(gs[i].1.display, gs[i].1.ships + [ship]))]
  }

  /** The loop after the ships of `ships`; None where a name or key is not
      a string. */
  function GroupAll(ships: seq<Record>, cl: Classifier): Option<Grouping>
    decreases |ships|
  {
    if ships == [] then Some(Grouping([], {}))
    else
      match GroupAll(ships[..|ships| - 1], cl)
      case None => None
      case Some(g) =>
        var s := ships[|ships| - 1];
        var c := cl(s);
        match c.key
        case None => None
        case Some(k) =>
          Some(Grouping(AddShip(g.groups, c.bucket, c.display, s), if c.valid then g.invalid else g.invalid + {k}))
  }

  /** `_build_side_groups` over `ships_data`, as the source's loop builds it. */
  method BuildSideGroups(ships: seq<Record>, cl: Classifier) returns (r: Option<Grouping>)
    ensures r == GroupAll(ships, cl)
  {
    var groups: Groups := [];
    var invalid: set<string> := {};
    var i := 0;
    while i < |ships|
      invariant 0 <= i <= |ships|
      invariant GroupAll(ships[..i], cl) == Some(Grouping(groups, invalid))
    {
      var ship := ships[i];
      assert ships[..i + 1][..i] == ships[..i] && ships[..i + 1][i] == ship;
      var c := cl(ship);
      if c.key.None? {
        assert GroupAll(ships[..i + 1], cl) == None;
        GroupAllNoneStays(ships, i + 1, cl);
        assert ships[..|ships|] == ships;
        return None;
      }
      if !c.valid {
        invalid := invalid + {c.key.value};
      }
      groups := AddShip(groups, c.bucket, c.display, ship);
      i := i + 1;
    }
    assert ships[..i] == ships;
    r := Some(Grouping(groups, invalid));
  }

  /** Once a prefix fails, every longer prefix fails. */
  lemma {:induction false} GroupAllNoneStays(ships: seq<Record>, n: nat, cl: Classifier)
    requires n <= |ships| && GroupAll(ships[..n], cl) == None
    ensures GroupAll(ships[..|ships|], cl) == None
    decreases |ships| - n
  {
    if n < |ships| {
      assert ships[..n + 1][..n] == ships[..n];
      GroupAllNoneStays(ships, n + 1, cl);
    }
  }

  // ---------- what the grouping means ----------

  /** The ships of `ships` that belong in bucket `nk`, in order. */
  function ShipsIn(ships: seq<Record>, nk: string, cl: Classifier): (r: seq<Record>)
    ensures |r| <= |ships|
    decreases |ships|
  {
    if ships == [] then []
    else ShipsIn(ships[..|ships| - 1], nk, cl) + (if cl(ships[|ships| - 1]).bucket == nk then [ships[|ships| - 1]] else [])
  }

  /** The grouping fails exactly when some ship's name or key is not a string. */
  lemma {:induction false} GroupAllFails(ships: seq<Record>, cl: Classifier)
    ensures GroupAll(ships, cl).None? <==> exists j :: 0 <= j < |ships| && cl(ships[j]).key.None?
    decreases |ships|
  {
    if ships != [] {
      var n := |ships| - 1;
      var pre := ships[..n];
      GroupAllFails(pre, cl);
      assert forall j :: 0 <= j < n ==> pre[j] == ships[j];
      if GroupAll(pre, cl).None? {
        var j :| 0 <= j < |pre| && cl(pre[j]).key.None?;
        assert cl(ships[j]).key.None?;
      }
    }
  }

  /** Adding a ship keeps bucket keys distinct, appends it to exactly the
      bucket `nk`, opening that at the end when it is new, and leaves every
      other bucket as it was. */
  lemma AddShipSpec(gs: Groups, nk: string, disp: string, ship: Record)
    requires UniqueKeys(gs)
    ensures var r := AddShip(gs, nk, disp, ship);
      && UniqueKeys(r)
      && Keys(r) == (if nk in Keys(gs) then Keys(gs) else Keys(gs) + [nk])
      && (forall i :: 0 <= i < |gs| && gs[i].0 != nk ==> r[i] == gs[i])
      && (forall i :: 0 <= i < |gs| && gs[i].0 == nk ==> r[i] == (nk, Group(gs[i].1.display, gs[i].1.ships + [ship])))
      && (nk !in Keys(gs) ==> |r| == |gs| + 1 && r[|gs|] == (nk, Group(disp, [ship])))
  {
    var r := AddShip(gs, nk, disp, ship);
    if nk in Keys(gs) {
      assert |r| == |gs|;
    } else {
      assert forall i :: 0 <= i < |gs| ==> gs[i].0 == Keys(gs)[i];
    }
  }

  /** Every bucket holds exactly the ships whose side folds to its key, in
      input order; it is not empty and shows the display of the first ship
      that opened it; bucket keys are distinct and every ship's bucket is
      there. */
  predicate Grouped(ships: seq<Record>, gs: Groups, cl: Classifier) {
    && UniqueKeys(gs)
    && (forall i :: 0 <= i < |gs| ==>
          && gs[i].1.ships == ShipsIn(ships, gs[i].0, cl)
          && gs[i].1.ships != []
          && gs[i].1.display == cl(gs[i].1.ships[0]).display)
    && (forall j :: 0 <= j < |ships| ==> cl(ships[j]).bucket in Keys(gs))
  }

  /** The invalid keys are the keys of the ships with no usable side. */
  predicate InvalidOf(ships: seq<Record>, invalid: set<string>, cl: Classifier) {
    invalid == set j | 0 <= j < |ships| && !cl(ships[j]).valid && cl(ships[j]).key.Some? :: cl(ships[j]).key.value
  }

  /** What `_build_side_groups` returns, when it returns. */
  lemma {:induction false} GroupAllSpec(ships: seq<Record>, cl: Classifier, g: Grouping)
    requires GroupAll(ships, cl) == Some(g)
    ensures Grouped(ships, g.groups, cl)
    ensures InvalidOf(ships, g.invalid, cl)
    decreases |ships|
  {
    if ships == [] {
      return;
    }
    var n := |ships| - 1;
    var pre, s := ships[..n], ships[n];
    var g0, k := GroupAllLast(ships, cl, g);
    GroupAllSpec(pre, cl, g0);
    GroupedStep(pre, s, g0.groups, cl);
    InvalidStep(pre, s, k, g0.invalid, cl);
  }

  /** A grouping that succeeded is the shorter one's, with the last ship added. */
  lemma GroupAllLast(ships: seq<Record>, cl: Classifier, g: Grouping) returns (g0: Grouping, k: string)
    requires ships != [] && GroupAll(ships, cl) == Some(g)
    ensures GroupAll(ships[..|ships| - 1], cl) == Some(g0)
    ensures cl(ships[|ships| - 1]).key == Some(k)
    ensures var s := ships[|ships| - 1];
      g == Grouping(AddShip(g0.groups, cl(s).bucket, cl(s).display, s), if cl(s).valid then g0.invalid else g0.invalid + {k})
    ensures ships[..|ships| - 1] + [ships[|ships| - 1]] == ships
  {
    g0 := GroupAll(ships[..|ships| - 1], cl).value;
    k := cl(ships[|ships| - 1]).key.value;
  }

  /** One ship more keeps the buckets right. */
  lemma GroupedStep(pre: seq<Record>, s: Record, gs: Groups, cl: Classifier)
    requires Grouped(pre, gs, cl)
    ensures Grouped(pre + [s], AddShip(gs, cl(s).bucket, cl(s).display, s), cl)
  {
    var ships := pre + [s];
    var nk := cl(s).bucket;
    var r := AddShip(gs, nk, cl(s).display, s);
    AddShipSpec(gs, nk, cl(s).display, s);
    assert ships[..|ships| - 1] == pre && ships[|ships| - 1] == s;
    forall key ensures ShipsIn(ships, key, cl) == ShipsIn(pre, key, cl) + (if nk == key then [s] else []) {
    }
    forall i | 0 <= i < |r|
      ensures && r[i].1.ships == ShipsIn(ships, r[i].0, cl)
              && r[i].1.ships != []
              && r[i].1.display == cl(r[i].1.ships[0]).display
    {
      if i < |gs| {
        if gs[i].0 == nk {
          assert (gs[i].1.ships + [s])[0] == gs[i].1.ships[0];
        }
      } else {
        assert nk !in Keys(gs);
        if |ShipsIn(pre, nk, cl)| > 0 {
          ShipsInNonEmpty(pre, nk, cl);
        }
      }
    }
    forall j | 0 <= j < |ships| ensures cl(ships[j]).bucket in Keys(r) {
      if j < |pre| {
        assert ships[j] == pre[j];
      }
    }
  }

  /** A bucket with ships in it is one some ship went to. */
  lemma {:induction false} ShipsInNonEmpty(ships: seq<Record>, nk: string, cl: Classifier)
    requires ShipsIn(ships, nk, cl) != []
    ensures exists j :: 0 <= j < |ships| && cl(ships[j]).bucket == nk
    decreases |ships|
  {
    var n := |ships| - 1;
    if cl(ships[n]).bucket != nk {
      ShipsInNonEmpty(ships[..n], nk, cl);
      var j :| 0 <= j < n && cl(ships[..n][j]).bucket == nk;
      assert ships[j] == ships[..n][j];
    }
  }

  /** One ship more keeps the invalid keys right. */
  lemma InvalidStep(pre: seq<Record>, s: Record, k: string, invalid: set<string>, cl: Classifier)
    requires InvalidOf(pre, invalid, cl) && cl(s).key == Some(k)
    ensures InvalidOf(pre + [s], if cl(s).valid then invalid else invalid + {k}, cl)
  {
    var ships := pre + [s];
    var after := set j | 0 <= j < |ships| && !cl(ships[j]).valid && cl(ships[j]).key.Some? :: cl(ships[j]).key.value;
    var want := if cl(s).valid then invalid else invalid + {k};
    forall x | x in after ensures x in want {
      var j :| 0 <= j < |ships| && !cl(ships[j]).valid && cl(ships[j]).key.Some? && cl(ships[j]).key.value == x;
      if j < |pre| {
        assert ships[j] == pre[j];
      }
    }
    forall x | x in want ensures x in after {
      if x in invalid {
        var j :| 0 <= j < |pre| && !cl(pre[j]).valid && cl(pre[j]).key.Some? && cl(pre[j]).key.value == x;
        assert ships[j] == pre[j];
      } else {
        assert ships[|pre|] == s;
      }
    }
  }

  /** Sides equal up to case share a bucket. */
  lemma SameFoldSameBucket(a: Record, b: Record)
    requires SideValid(a) && SideValid(b) && Lower(SideRaw(a)) == Lower(SideRaw(b))
    ensures Classify(a).bucket == Classify(b).bucket
  {
  }

  /** The side selection's grouping: `_build_side_groups` with the ships
      classified as the source does. */
  method SideGroupsOf(ships: seq<Record>) returns (r: Option<Grouping>)
    ensures r.None? <==> exists j :: 0 <= j < |ships| && ShipKey(ships[j]).None?
    ensures r.Some? ==> Grouped(ships, r.value.groups, Classify) && InvalidOf(ships, r.value.invalid, Classify)
  {
    r := BuildSideGroups(ships, Classify);
    GroupAllFails(ships, Classify);
    if r.Some? {
      GroupAllSpec(ships, Classify, r.value);
    }
  }
}
