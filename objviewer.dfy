/**
 * The Wavefront OBJ loader of the 3D preview: fan triangulation, face
 * index resolution, the line dispatch of `ObjModel.load`, the MTL
 * `newmtl`/`map_Kd` state machine and the choice of the diffuse texture.
 * Numbers are parsed by a `float` parameter (None where Python raises);
 * files are given as their lines, keyed by the path as the OBJ names it.
 */
module ObjViewer {
  import opened Wrappers
  import opened PyText

  type Vec2 = (real, real)
  type Vec3 = (real, real, real)

  // ---------------------------------------------------------------------
  // _triangulate

  /** The fan `(p0, pi, pi+1)` for `i` in `1 .. n-2`. */
  function Fan<T>(p: seq<T>): (tris: seq<(T, T, T)>)
    ensures |tris| == if |p| < 3 then 0 else |p| - 2
    ensures forall i :: 0 <= i < |tris| ==> tris[i] == (p[0], p[i + 1], p[i + 2])
  {
    if |p| < 3 then [] else Fan(p[..|p| - 1]) + [(p[0], p[|p| - 2], p[|p| - 1])]
  }

  /** `_triangulate`: `max(0, n - 2)` triangles, triangle `i` being
      `(p[0], p[i + 1], p[i + 2])`, in order. */
  method Triangulate<T>(indices: seq<T>) returns (tris: seq<(T, T, T)>)
    ensures |tris| == if |indices| < 3 then 0 else |indices| - 2
    ensures forall i :: 0 <= i < |tris| ==> tris[i] == (indices[0], indices[i + 1], indices[i + 2])
    ensures tris == Fan(indices)
  {
    tris := [];
    var i := 1;
    while i < |indices| - 1
      invariant 1 <= i <= if |indices| < 2 then 1 else |indices| - 1
      invariant |tris| == i - 1
      invariant forall j :: 0 <= j < |tris| ==> tris[j] == (indices[0], indices[j + 1], indices[j + 2])
    {
      tris := tris + [(indices[0], indices[i], indices[i + 1])];
      i := i + 1;
    }
  }

  // ---------------------------------------------------------------------
  // _idx and the face tokens

  /** What `_idx` makes of one token: `Invalid` where `int()` raises. */
  datatype Index = Invalid | Missing | Resolved(i: int)

  /** `_idx(val, n)`: a positive index is 1-based, a negative one counts
      back from the `n` elements read so far, zero and the empty token name
      nothing. */
  function Idx(val: string, n: nat): Index
  {
    if val == [] then Missing
    else
      match ParseInt(val)
      case None => Invalid
      case Some(k) => if k > 0 then Resolved(k - 1) else if k < 0 then Resolved(n + k) else Missing
  }

  /** On the decimal text of `k`: `k - 1` for positive `k`, `n + k` for
      negative `k`, nothing for zero. */
  lemma IdxOfInt(k: int, n: nat)
    ensures Idx(IntToString(k), n) == if k > 0 then Resolved(k - 1) else if k < 0 then Resolved(n + k) else Missing
  {
    IntRoundTrip(k);
  }

  /** The 1-based index `k` and the relative index `k - n - 1` name the
      same element, the one at `k - 1`, which exists. */
  lemma IdxSameElement(k: int, n: nat)
    requires 1 <= k <= n
    ensures Idx(IntToString(k), n) == Idx(IntToString(k - n - 1), n) == Resolved(k - 1)
    ensures 0 <= k - 1 < n
  {
    IdxOfInt(k, n);
    IdxOfInt(k - n - 1, n);
  }

  /** The vertex, texture and normal indices of one face corner. */
  datatype Ref = Ref(vi: Option<int>, ti: Option<int>, ni: Option<int>)

  function Known(x: Index): Option<int> {
    if x.Resolved? then Some(x.i) else None
  }

  /** The corner, or None when one of the three tokens is not an integer. */
  function Refs(a: Index, b: Index, c: Index): Option<Ref> {
    if a.Invalid? || b.Invalid? || c.Invalid? then None else Some(Ref(Known(a), Known(b), Known(c)))
  }

  /** The pieces of a token that contains `/`: `a/b/c`, `a/b`, or more. */
  function SlashRefs(toks: seq<string>, nv: nat, nt: nat, nn: nat): Option<Ref>
    requires |toks| >= 1
  {
    if |toks| == 3 then Refs(Idx(toks[0], nv), Idx(toks[1], nt), Idx(toks[2], nn))
    else if |toks| == 2 then Refs(Idx(toks[0], nv), Idx(toks[1], nt), Missing)
    else Refs(Idx(toks[0], nv), Missing, Missing)
  }

  /** One token of an `f` line, resolved against the counts read so far. */
  function FaceToken(p: string, nv: nat, nt: nat, nn: nat): Option<Ref>
  {
    if '/' in p then SlashRefs(SplitOn(p, '/'), nv, nt, nn) else Refs(Idx(p, nv), Missing, Missing)
  }

  lemma SplitTwo(a: string, b: string)
    requires '/' !in a && '/' !in b
    ensures '/' in a + "/" + b
    ensures SplitOn(a + "/" + b, '/') == [a, b]
  {
    var p := a + "/" + b;
    assert p == a + ['/'] + b;
    assert p[|a|] == '/';
    SplitOnCons(a, b, '/');
    SplitOnNoSep(b, '/');
  }

  lemma SplitThree(a: string, b: string, c: string)
    requires '/' !in a && '/' !in b && '/' !in c
    ensures '/' in a + "/" + b + "/" + c
    ensures SplitOn(a + "/" + b + "/" + c, '/') == [a, b, c]
  {
    var p := a + "/" + b + "/" + c;
    assert p == a + ['/'] + (b + "/" + c);
    assert p[|a|] == '/';
    SplitOnCons(a, b + "/" + c, '/');
    SplitTwo(b, c);
  }

  /** `a/b/c` sets vertex, texture and normal. */
  lemma FaceTokenTriple(a: string, b: string, c: string, nv: nat, nt: nat, nn: nat)
    requires '/' !in a && '/' !in b && '/' !in c
    ensures FaceToken(a + "/" + b + "/" + c, nv, nt, nn) == Refs(Idx(a, nv), Idx(b, nt), Idx(c, nn))
  {
    SplitThree(a, b, c);
  }

  /** `a/b` sets vertex and texture only. */
  lemma FaceTokenPair(a: string, b: string, nv: nat, nt: nat, nn: nat)
    requires '/' !in a && '/' !in b
    ensures FaceToken(a + "/" + b, nv, nt, nn) == Refs(Idx(a, nv), Idx(b, nt), Missing)
  {
    SplitTwo(a, b);
  }

  /** `a//c` sets vertex and normal and leaves the texture unset. */
  lemma FaceTokenNoTexture(a: string, c: string, nv: nat, nt: nat, nn: nat)
    requires '/' !in a && '/' !in c
    ensures FaceToken(a + "//" + c, nv, nt, nn) == Refs(Idx(a, nv), Missing, Idx(c, nn))
    ensures FaceToken(a + "//" + c, nv, nt, nn).Some? ==> FaceToken(a + "//" + c, nv, nt, nn).value.ti == None
  {
    assert a + "//" + c == a + "/" + "" + "/" + c;
    FaceTokenTriple(a, "", c, nv, nt, nn);
  }

  /** A bare token sets only the vertex. */
  lemma FaceTokenBare(a: string, nv: nat, nt: nat, nn: nat)
    requires '/' !in a
    ensures FaceToken(a, nv, nt, nn) == Refs(Idx(a, nv), Missing, Missing)
  {
  }

  /** A face corner: its indices and the material active when it was read. */
  datatype Corner = Corner(ref: Ref, mtl: Option<string>)

  /** `FaceToken` against fixed element counts. */
  function Resolver(nv: nat, nt: nat, nn: nat): string -> Option<Ref> {
    p => FaceToken(p, nv, nt, nn)
  }

  /** The corners of an `f` line's tokens, each resolved by `resolve` and
      tagged with `mtl`. */
  function FaceCorners(toks: seq<string>, resolve: string -> Option<Ref>, mtl: Option<string>): (r: Option<seq<Corner>>)
    ensures r.None? <==> exists i :: 0 <= i < |toks| && resolve(toks[i]).None?
    ensures r.Some? ==> (|r.value| == |toks|
      && forall i :: 0 <= i < |toks| ==> Some(r.value[i].ref) == resolve(toks[i]) && r.value[i].mtl == mtl)
  {
    if toks == [] then Some([])
    else
      var init := toks[..|toks| - 1];
      assert forall i :: 0 <= i < |toks| - 1 ==> init[i] == toks[i];
      match FaceCorners(init, resolve, mtl)
      case None => None
      case Some(cs) =>
        match resolve(toks[|toks| - 1])
        case None => None
        case Some(c) => Some(cs + [Corner(c, mtl)])
  }

  lemma FaceCornersSnoc(pre: seq<string>, tok: string, resolve: string -> Option<Ref>, mtl: Option<string>, cs: seq<Corner>, c: Ref)
    requires FaceCorners(pre, resolve, mtl) == Some(cs) && resolve(tok) == Some(c)
    ensures FaceCorners(pre + [tok], resolve, mtl) == Some(cs + [Corner(c, mtl)])
  {
    assert (pre + [tok])[..|pre|] == pre;
  }

  /** The loop over an `f` line's tokens. */
  method ParseFace(toks: seq<string>, resolve: string -> Option<Ref>, mtl: Option<string>) returns (r: Option<seq<Corner>>)
    ensures r == FaceCorners(toks, resolve, mtl)
  {
    var cs: seq<Corner> := [];
    var i := 0;
    while i < |toks|
      invariant 0 <= i <= |toks|
      invariant FaceCorners(toks[..i], resolve, mtl) == Some(cs)
    {
      var t := resolve(toks[i]);
      if t.None? {
        FaceCornersFail(toks, resolve, mtl, i);
        return None;
      }
      FaceCornersSnoc(toks[..i], toks[i], resolve, mtl, cs, t.value);
      assert toks[..i] + [toks[i]] == toks[..i + 1];
      cs := cs + [Corner(t.value, mtl)];
      i := i + 1;
    }
    assert toks[..i] == toks;
    r := Some(cs);
  }

  lemma FaceCornersFail(toks: seq<string>, resolve: string -> Option<Ref>, mtl: Option<string>, i: nat)
    requires i < |toks| && resolve(toks[i]).None?
    ensures FaceCorners(toks, resolve, mtl).None?
  {
  }

  // ---------------------------------------------------------------------
  // ObjModel.load: the line dispatch

  /** What the loader has read so far. */
  datatype Scan = Scan(v: seq<Vec3>, vt: seq<Vec2>, vn: seq<Vec3>, faces: seq<seq<Corner>>,
                       libs: seq<string>, active: Option<string>)

  const Fresh: Scan := Scan([], [], [], [], [], None)

  /** `line.strip().split()`. */
  function Parts(line: string): seq<string> {
    SplitWs(Strip(line))
  }

  function Vec3Of(x: string, y: string, z: string, float: string -> Option<real>): Option<Vec3> {
    match (float(x), float(y), float(z))
    case (Some(a), Some(b), Some(c)) => Some((a, b, c))
    case _ => None
  }

  function Vec2Of(x: string, y: string, float: string -> Option<real>): Option<Vec2> {
    match (float(x), float(y))
    case (Some(a), Some(b)) => Some((a, b))
    case _ => None
  }

  /** A line that `load` skips before splitting it. */
  predicate Commented(line: string) {
    line == [] || line[0] == '#'
  }

  /** One line of the OBJ file; None where a number does not parse. */
  function ObjLine(st: Scan, line: string, float: string -> Option<real>): Option<Scan>
  {
    if Commented(line) then Some(st) else ObjParts(st, Parts(line), float)
  }

  /** The dispatch on the tag of a split line. */
  function ObjParts(st: Scan, parts: seq<string>, float: string -> Option<real>): Option<Scan>
  {
    if parts == [] then Some(st)
    else if parts[0] == "v" && |parts| >= 4 then
      match Vec3Of(parts[1], parts[2], parts[3], float)
      case None => None
      case Some(p) => Some(st.(v := st.v + [p]))
    else if parts[0] == "vt" && |parts| >= 3 then
      match Vec2Of(parts[1], parts[2], float)
      case None => None
      case Some(p) => Some(st.(vt := st.vt + [p]))
    else if parts[0] == "vn" && |parts| >= 4 then
      match Vec3Of(parts[1], parts[2], parts[3], float)
      case None => None
      case Some(p) => Some(st.(vn := st.vn + [p]))
    else if parts[0] == "f" && |parts| >= 4 then
      match FaceCorners(parts[1..], Resolver(|st.v|, |st.vt|, |st.vn|), st.active)
      case None => None
      case Some(cs) => Some(st.(faces := st.faces + [cs]))
    else if parts[0] == "mtllib" && |parts| >= 2 then Some(st.(libs := st.libs + parts[1..]))
    else if parts[0] == "usemtl" && |parts| >= 2 then Some(st.(active := Some(parts[1])))
    else Some(st)
  }

  /** The lines read in order; None from the first line that does not parse. */
  function ObjLines(lines: seq<string>, float: string -> Option<real>): Option<Scan>
  {
    if lines == [] then Some(Fresh)
    else
      match ObjLines(lines[..|lines| - 1], float)
      case None => None
      case Some(st) => ObjLine(st, lines[|lines| - 1], float)
  }

  lemma ObjLinesSnoc(pre: seq<string>, line: string, float: string -> Option<real>)
    ensures ObjLines(pre + [line], float) == if ObjLines(pre, float).None? then None else ObjLine(ObjLines(pre, float).value, line, float)
  {
    assert (pre + [line])[..|pre|] == pre;
  }

  /** A `usemtl` line that `load` acts on. */
  predicate IsUsemtl(line: string) {
    !Commented(line) && |Parts(line)| >= 2 && Parts(line)[0] == "usemtl"
  }

  /** The material named by the most recent `usemtl` line, if any. */
  function LastUsemtl(lines: seq<string>): Option<string>
  {
    if lines == [] then None
    else if IsUsemtl(lines[|lines| - 1]) then Some(Parts(lines[|lines| - 1])[1])
    else LastUsemtl(lines[..|lines| - 1])
  }

  lemma ObjPartsActive(st: Scan, parts: seq<string>, float: string -> Option<real>)
    requires ObjParts(st, parts, float).Some?
    ensures ObjParts(st, parts, float).value.active
      == if |parts| >= 2 && parts[0] == "usemtl" then Some(parts[1]) else st.active
  {
  }

  /** Only a `usemtl` line changes the active material. */
  lemma ObjLineActive(st: Scan, line: string, float: string -> Option<real>)
    requires ObjLine(st, line, float).Some?
    ensures ObjLine(st, line, float).value.active == if IsUsemtl(line) then Some(Parts(line)[1]) else st.active
  {
    if !Commented(line) {
      ObjPartsActive(st, Parts(line), float);
    }
  }

  /** The active material is always the one the most recent `usemtl` named. */
  lemma {:induction false} ActiveIsLastUsemtl(lines: seq<string>, float: string -> Option<real>)
    requires ObjLines(lines, float).Some?
    ensures ObjLines(lines, float).value.active == LastUsemtl(lines)
  {
    if lines != [] {
      var pre := lines[..|lines| - 1];
      ActiveIsLastUsemtl(pre, float);
      ObjLineActive(ObjLines(pre, float).value, lines[|lines| - 1], float);
    }
  }

  /** An `f` line with at least three corners appends one face: each corner
      is its token resolved against the element counts read so far and
      carries the material of the most recent `usemtl`; nothing else changes. */
  lemma FaceLineAppends(pre: seq<string>, line: string, float: string -> Option<real>, st: Scan)
    requires ObjLines(pre, float) == Some(st)
    requires !Commented(line) && |Parts(line)| >= 4 && Parts(line)[0] == "f"
    ensures ObjLines(pre + [line], float).None? <==>
      exists i :: 1 <= i < |Parts(line)| && FaceToken(Parts(line)[i], |st.v|, |st.vt|, |st.vn|).None?
    ensures ObjLines(pre + [line], float).Some? ==>
      var faces := ObjLines(pre + [line], float).value.faces;
      ObjLines(pre + [line], float).value == st.(faces := faces)
      && |faces| == |st.faces| + 1 && faces[..|st.faces|] == st.faces
      && |faces[|st.faces|]| == |Parts(line)| - 1 >= 3
      && forall i :: 0 <= i < |Parts(line)| - 1 ==>
           faces[|st.faces|][i].mtl == LastUsemtl(pre)
           && Some(faces[|st.faces|][i].ref) == FaceToken(Parts(line)[i + 1], |st.v|, |st.vt|, |st.vn|)
  {
    FaceLineStep(pre, line, float, st);
    ActiveIsLastUsemtl(pre, float);
    var parts := Parts(line);
    var toks := parts[1..];
    var fc := FaceCorners(toks, Resolver(|st.v|, |st.vt|, |st.vn|), st.active);
    if fc.None? {
      var j :| 0 <= j < |toks| && FaceToken(toks[j], |st.v|, |st.vt|, |st.vn|).None?;
      assert toks[j] == parts[j + 1];
    } else {
      forall i | 1 <= i < |parts| ensures FaceToken(parts[i], |st.v|, |st.vt|, |st.vn|).Some? {
        assert parts[i] == toks[i - 1];
      }
      var faces := st.faces + [fc.value];
      assert faces[..|st.faces|] == st.faces;
      forall i | 0 <= i < |parts| - 1
        ensures Some(faces[|st.faces|][i].ref) == FaceToken(parts[i + 1], |st.v|, |st.vt|, |st.vn|)
      {
        assert toks[i] == parts[i + 1];
      }
    }
  }

  /** The `f` branch of the dispatch, after the lines before it. */
  lemma FaceLineStep(pre: seq<string>, line: string, float: string -> Option<real>, st: Scan)
    requires ObjLines(pre, float) == Some(st)
    requires !Commented(line) && |Parts(line)| >= 4 && Parts(line)[0] == "f"
    ensures ObjLines(pre + [line], float)
      == match FaceCorners(Parts(line)[1..], Resolver(|st.v|, |st.vt|, |st.vn|), st.active)
         case None => None
         case Some(cs) => Some(st.(faces := st.faces + [cs]))
  {
    ObjLinesSnoc(pre, line, float);
  }

  /** Comment lines, blank lines and `f` lines with fewer than three
      corners are ignored. */
  lemma IgnoredLine(pre: seq<string>, line: string, float: string -> Option<real>)
    requires Commented(line) || Parts(line) == [] || (Parts(line)[0] == "f" && |Parts(line)| < 4)
    ensures ObjLines(pre + [line], float) == ObjLines(pre, float)
  {
    ObjLinesSnoc(pre, line, float);
  }

  /** One line, as the loop body of `load` dispatches it. */
  method ReadObjLine(st: Scan, line: string, float: string -> Option<real>) returns (r: Option<Scan>)
    ensures r == ObjLine(st, line, float)
  {
    if Commented(line) {
      return Some(st);
    }
    var parts := Parts(line);
    if parts == [] {
      return Some(st);
    }
    var tag := parts[0];
    if tag == "v" && |parts| >= 4 {
      var p := Vec3Of(parts[1], parts[2], parts[3], float);
      r := if p.None? then None else Some(st.(v := st.v + [p.value]));
    } else if tag == "vt" && |parts| >= 3 {
      var p := Vec2Of(parts[1], parts[2], float);
      r := if p.None? then None else Some(st.(vt := st.vt + [p.value]));
    } else if tag == "vn" && |parts| >= 4 {
      var p := Vec3Of(parts[1], parts[2], parts[3], float);
      r := if p.None? then None else Some(st.(vn := st.vn + [p.value]));
    } else if tag == "f" && |parts| >= 4 {
      var cs := ParseFace(parts[1..], Resolver(|st.v|, |st.vt|, |st.vn|), st.active);
      r := if cs.None? then None else Some(st.(faces := st.faces + [cs.value]));
    } else if tag == "mtllib" && |parts| >= 2 {
      r := Some(st.(libs := st.libs + parts[1..]));
    } else if tag == "usemtl" && |parts| >= 2 {
      r := Some(st.(active := Some(parts[1])));
    } else {
      r := Some(st);
    }
  }

  /** The `for line in f` loop of `load`. */
  /** Line `k` is the first that does not parse: the lines before it do. */
  predicate FailsAt(lines: seq<string>, float: string -> Option<real>, k: nat) {
    k < |lines| && ObjLines(lines[..k], float).Some? && ObjLine(ObjLines(lines[..k], float).value, lines[k], float).None?
  }

  /** The line loop of `load`. When a line fails, `partial` is what the
      lines before it had built and `stop` is that line. */
  method ReadObj(lines: seq<string>, float: string -> Option<real>) returns (r: Option<Scan>, partial: Scan, stop: nat)
    ensures r == ObjLines(lines, float)
    ensures r.None? ==> FailsAt(lines, float, stop) && ObjLines(lines[..stop], float) == Some(partial)
  {
    var st := Fresh;
    var i := 0;
    partial, stop := Fresh, 0;
    while i < |lines|
      invariant 0 <= i <= |lines|
      invariant ObjLines(lines[..i], float) == Some(st)
    {
      var next := ReadObjLine(st, lines[i], float);
      ReadStep(lines, i, float, st, next);
      if next.None? {
        NoneStays(lines, i + 1, float);
        return None, st, i;
      }
      st := next.value;
      i := i + 1;
    }
    assert lines[..i] == lines;
    r := Some(st);
  }

  lemma ReadStep(lines: seq<string>, i: nat, float: string -> Option<real>, st: Scan, next: Option<Scan>)
    requires i < |lines| && ObjLines(lines[..i], float) == Some(st) && next == ObjLine(st, lines[i], float)
    ensures ObjLines(lines[..i + 1], float) == next
  {
    assert lines[..i + 1][..i] == lines[..i];
  }

  /** Once a line fails, so does every longer prefix. */
  lemma {:induction false} NoneStays(lines: seq<string>, k: nat, float: string -> Option<real>)
    requires k <= |lines| && ObjLines(lines[..k], float).None?
    ensures ObjLines(lines, float).None?
    decreases |lines| - k
  {
    if k < |lines| {
      ObjLinesSnoc(lines[..k], lines[k], float);
      assert lines[..k] + [lines[k]] == lines[..k + 1];
      NoneStays(lines, k + 1, float);
    } else {
      assert lines[..k] == lines;
    }
  }

  // ---------------------------------------------------------------------
  // The MTL state machine

  /** The material being read (`name`, and the `map_Kd` of its `props`)
      and the materials already flushed to `mtl_map`; a material's props
      hold at most the `map_Kd` path. */
  datatype MtlScan = MtlScan(name: Option<string>, kd: Option<string>, mtls: map<string, Option<string>>)

  /** `mtl_map[name] = props` when a material is open. */
  function Flush(s: MtlScan): map<string, Option<string>> {
    if s.name.Some? then s.mtls[s.name.value := s.kd] else s.mtls
  }

  predicate IsNewmtl(line: string) {
    |Parts(line)| >= 2 && Parts(line)[0] == "newmtl"
  }

  predicate IsKd(line: string) {
    |Parts(line)| >= 2 && Parts(line)[0] == "map_Kd"
  }

  /** `" ".join(parts[1:])` of a `map_Kd` line. */
  function KdPath(line: string): string
    requires IsKd(line)
  {
    JoinWith(Parts(line)[1..], " ")
  }

  function MtlLine(s: MtlScan, line: string): MtlScan {
    if IsNewmtl(line) then MtlScan(Some(Parts(line)[1]), None, Flush(s))
    else if IsKd(line) then s.(kd := Some(KdPath(line)))
    else s
  }

  function MtlLines(s: MtlScan, lines: seq<string>): MtlScan {
    if lines == [] then s else MtlLine(MtlLines(s, lines[..|lines| - 1]), lines[|lines| - 1])
  }

  lemma MtlLinesSnoc(s: MtlScan, pre: seq<string>, line: string)
    ensures MtlLines(s, pre + [line]) == MtlLine(MtlLines(s, pre), line)
  {
    assert (pre + [line])[..|pre|] == pre;
  }

  /** One MTL file read into `mtl_map`, the last material flushed at the end. */
  function MtlFile(mtls: map<string, Option<string>>, lines: seq<string>): map<string, Option<string>> {
    Flush(MtlLines(MtlScan(None, None, mtls), lines))
  }

  /** The path of the last `map_Kd` line among `lines`. */
  function LastKd(lines: seq<string>): Option<string> {
    if lines == [] then None
    else if IsKd(lines[|lines| - 1]) then Some(KdPath(lines[|lines| - 1]))
    else LastKd(lines[..|lines| - 1])
  }

  /** None of the lines opens a material. */
  predicate NoNewmtl(lines: seq<string>) {
    lines == [] || (NoNewmtl(lines[..|lines| - 1]) && !IsNewmtl(lines[|lines| - 1]))
  }

  lemma {:induction false} NoNewmtlAll(lines: seq<string>)
    requires forall i :: 0 <= i < |lines| ==> !IsNewmtl(lines[i])
    ensures NoNewmtl(lines)
  {
    if lines != [] {
      var init := lines[..|lines| - 1];
      assert forall i :: 0 <= i < |init| ==> init[i] == lines[i];
      NoNewmtlAll(init);
    }
  }

  /** After `newmtl name` and lines that open no other material, the open
      material is `name` with the last `map_Kd` seen since, and every
      material before it has been flushed. */
  lemma {:induction false} MtlBlockScan(s: MtlScan, pre: seq<string>, header: string, body: seq<string>)
    requires IsNewmtl(header) && NoNewmtl(body)
    ensures MtlLines(s, pre + [header] + body) == MtlScan(Some(Parts(header)[1]), LastKd(body), Flush(MtlLines(s, pre)))
    decreases |body|
  {
    if body == [] {
      assert pre + [header] + body == pre + [header];
      MtlLinesSnoc(s, pre, header);
    } else {
      var body' := body[..|body| - 1];
      var last := body[|body| - 1];
      assert pre + [header] + body == (pre + [header] + body') + [last];
      MtlBlockScan(s, pre, header, body');
      MtlLinesSnoc(s, pre + [header] + body', last);
    }
  }

  /** The material of the last `newmtl` block gets that block's last
      `map_Kd` (or no texture), and is flushed at the end of the file. */
  lemma MaterialBlock(mtls: map<string, Option<string>>, pre: seq<string>, header: string, body: seq<string>)
    requires IsNewmtl(header)
    requires forall i :: 0 <= i < |body| ==> !IsNewmtl(body[i])
    ensures MtlFile(mtls, pre + [header] + body) == Flush(MtlLines(MtlScan(None, None, mtls), pre))[Parts(header)[1] := LastKd(body)]
  {
    NoNewmtlAll(body);
    MtlBlockScan(MtlScan(None, None, mtls), pre, header, body);
  }

  /** A file that opens no material leaves `mtl_map` as it was. */
  lemma {:induction false} NoMaterialNoChange(mtls: map<string, Option<string>>, lines: seq<string>)
    requires forall i :: 0 <= i < |lines| ==> !IsNewmtl(lines[i])
    ensures MtlLines(MtlScan(None, None, mtls), lines).name == None
    ensures MtlFile(mtls, lines) == mtls
  {
    if lines != [] {
      NoMaterialNoChange(mtls, lines[..|lines| - 1]);
    }
  }

  /** The loop over one MTL file's lines. */
  method ReadMtl(mtls: map<string, Option<string>>, lines: seq<string>) returns (r: map<string, Option<string>>)
    ensures r == MtlFile(mtls, lines)
  {
    var name: Option<string> := None;
    var props: Option<string> := None;
    r := mtls;
    var i := 0;
    while i < |lines|
      invariant 0 <= i <= |lines|
      invariant MtlLines(MtlScan(None, None, mtls), lines[..i]) == MtlScan(name, props, r)
    {
      assert lines[..i + 1][..i] == lines[..i];
      var line := lines[i];
      if IsNewmtl(line) {
        if name.Some? {
          r := r[name.value := props];
        }
        name := Some(Parts(line)[1]);
        props := None;
      } else if IsKd(line) {
        props := Some(KdPath(line));
      }
      i := i + 1;
    }
    assert lines[..i] == lines;
    if name.Some? {
      r := r[name.value := props];
    }
  }

  /** `mtl_map` after every `mtllib` file that exists, in order; a later
      file redefines a material of the same name. */
  function MtlLibs(libs: seq<string>, files: map<string, seq<string>>): map<string, Option<string>> {
    if libs == [] then map[]
    else
      var m := MtlLibs(libs[..|libs| - 1], files);
      var lib := libs[|libs| - 1];
      if lib in files then MtlFile(m, files[lib]) else m
  }

  lemma MtlLibsSnoc(libs: seq<string>, lib: string, files: map<string, seq<string>>)
    ensures MtlLibs(libs + [lib], files) == if lib in files then MtlFile(MtlLibs(libs, files), files[lib]) else MtlLibs(libs, files)
  {
    assert (libs + [lib])[..|libs|] == libs;
  }

  // ---------------------------------------------------------------------
  // Building the mesh and picking the texture

  /** A resolved corner: position, texture coordinate, normal, material. */
  datatype Vertex = Vertex(pos: Vec3, uv: Vec2, normal: Vec3, mtl: Option<string>)

  type Tri = (Vertex, Vertex, Vertex)

  /** The element an index names, or the default when it is unset or out of range. */
  function Pick<T>(xs: seq<T>, ix: Option<int>, default: T): T {
    if ix.Some? && 0 <= ix.value < |xs| then xs[ix.value] else default
  }

  function Place(c: Corner, v: seq<Vec3>, vt: seq<Vec2>, vn: seq<Vec3>): Vertex {
    Vertex(Pick(v, c.ref.vi, (0.0, 0.0, 0.0)), Pick(vt, c.ref.ti, (0.0, 0.0)), Pick(vn, c.ref.ni, (0.0, 0.0, 1.0)), c.mtl)
  }

  function PlaceTri(t: (Corner, Corner, Corner), v: seq<Vec3>, vt: seq<Vec2>, vn: seq<Vec3>): Tri {
    (Place(t.0, v, vt, vn), Place(t.1, v, vt, vn), Place(t.2, v, vt, vn))
  }

  /** All faces' fans, face by face. */
  function FanAll(faces: seq<seq<Corner>>): seq<(Corner, Corner, Corner)> {
    if faces == [] then [] else FanAll(faces[..|faces| - 1]) + Fan(faces[|faces| - 1])
  }

  lemma FanAllSnoc(faces: seq<seq<Corner>>, f: seq<Corner>)
    ensures FanAll(faces + [f]) == FanAll(faces) + Fan(f)
  {
    assert (faces + [f])[..|faces|] == faces;
  }

  /** The number of triangles: `n - 2` for each face of `n >= 3` corners. */
  function TriCount(faces: seq<seq<Corner>>): nat {
    if faces == [] then 0
    else TriCount(faces[..|faces| - 1]) + (if |faces[|faces| - 1]| < 3 then 0 else |faces[|faces| - 1]| - 2)
  }

  lemma {:induction false} FanAllCount(faces: seq<seq<Corner>>)
    ensures |FanAll(faces)| == TriCount(faces)
  {
    if faces != [] {
      FanAllCount(faces[..|faces| - 1]);
    }
  }

  function Mesh(tris: seq<(Corner, Corner, Corner)>, v: seq<Vec3>, vt: seq<Vec2>, vn: seq<Vec3>): (m: seq<Tri>)
    ensures |m| == |tris|
  {
    seq(|tris|, i requires 0 <= i < |tris| => PlaceTri(tris[i], v, vt, vn))
  }

  /** A corner whose index is unset or out of range takes the default
      position (0,0,0), texture coordinate (0,0) or normal (0,0,1). */
  lemma MeshDefaults(tris: seq<(Corner, Corner, Corner)>, v: seq<Vec3>, vt: seq<Vec2>, vn: seq<Vec3>, i: nat)
    requires i < |tris|
    ensures var c := tris[i].0; var x := Mesh(tris, v, vt, vn)[i].0;
      (c.ref.vi.Some? && 0 <= c.ref.vi.value < |v| ==> x.pos == v[c.ref.vi.value])
      && (!(c.ref.vi.Some? && 0 <= c.ref.vi.value < |v|) ==> x.pos == (0.0, 0.0, 0.0))
      && (!(c.ref.ti.Some? && 0 <= c.ref.ti.value < |vt|) ==> x.uv == (0.0, 0.0))
      && (!(c.ref.ni.Some? && 0 <= c.ref.ni.value < |vn|) ==> x.normal == (0.0, 0.0, 1.0))
      && x.mtl == c.mtl
  {
  }

  function Named(x: Vertex): seq<string> {
    if x.mtl.Some? && x.mtl.value != [] then [x.mtl.value] else []
  }

  /** `[m for tri in triangles for (_, _, _, m) in tri if m]`. */
  function UsedMtls(mesh: seq<Tri>): seq<string> {
    if mesh == [] then []
    else
      var t := mesh[|mesh| - 1];
      UsedMtls(mesh[..|mesh| - 1]) + Named(t.0) + Named(t.1) + Named(t.2)
  }

  predicate HasKd(mtls: map<string, Option<string>>, m: string) {
    m in mtls && mtls[m].Some?
  }

  /** The `map_Kd` of the first used material that has one. */
  function FirstTexture(used: seq<string>, mtls: map<string, Option<string>>): (r: Option<string>)
    ensures r.None? <==> forall i :: 0 <= i < |used| ==> !HasKd(mtls, used[i])
    ensures r.Some? ==> exists i :: (0 <= i < |used| && HasKd(mtls, used[i]) && r == mtls[used[i]]
      && forall j :: 0 <= j < i ==> !HasKd(mtls, used[j]))
  {
    if used == [] then None
    else if HasKd(mtls, used[0]) then mtls[used[0]]
    else
      var r := FirstTexture(used[1..], mtls);
      assert forall i :: 1 <= i < |used| ==> used[i] == used[1..][i - 1];
      assert r.Some? ==> exists i :: (0 <= i < |used| && HasKd(mtls, used[i]) && r == mtls[used[i]]
          && forall j :: 0 <= j < i ==> !HasKd(mtls, used[j])) by {
        if r.Some? {
          var i :| 0 <= i < |used[1..]| && HasKd(mtls, used[1..][i]) && r == mtls[used[1..][i]]
            && forall j :: 0 <= j < i ==> !HasKd(mtls, used[1..][j]);
          assert used[i + 1] == used[1..][i];
          forall j | 1 <= j < i + 1 ensures !HasKd(mtls, used[j]) {
            assert used[j] == used[1..][j - 1];
          }
        }
      }
      r
  }

  /** The loop with `break` that picks the texture. */
  method PickTexture(used: seq<string>, mtls: map<string, Option<string>>) returns (tex: Option<string>)
    ensures tex == FirstTexture(used, mtls)
  {
    var i := 0;
    while i < |used|
      invariant 0 <= i <= |used|
      invariant forall j :: 0 <= j < i ==> !HasKd(mtls, used[j])
    {
      if HasKd(mtls, used[i]) {
        tex := mtls[used[i]];
        var r := FirstTexture(used, mtls);
        assert r.Some?;
        var k :| 0 <= k < |used| && HasKd(mtls, used[k]) && r == mtls[used[k]]
          && forall j :: 0 <= j < k ==> !HasKd(mtls, used[j]);
        assert k == i;
        return;
      }
      i := i + 1;
    }
    tex := None;
  }

  /** `texture_path`: the chosen path when it is non-empty and exists. */
  function TexturePath(mesh: seq<Tri>, mtls: map<string, Option<string>>, onDisk: set<string>): Option<string> {
    var t := FirstTexture(UsedMtls(mesh), mtls);
    if t.Some? && t.value != [] && t.value in onDisk then t else None
  }

  /** The loop over the `mtllib` files that exist. */
  method ReadMtlLibs(libs: seq<string>, files: map<string, seq<string>>) returns (mtls: map<string, Option<string>>)
    ensures mtls == MtlLibs(libs, files)
  {
    mtls := map[];
    var i := 0;
    while i < |libs|
      invariant 0 <= i <= |libs|
      invariant mtls == MtlLibs(libs[..i], files)
    {
      MtlLibsSnoc(libs[..i], libs[i], files);
      assert libs[..i] + [libs[i]] == libs[..i + 1];
      if libs[i] in files {
        mtls := ReadMtl(mtls, files[libs[i]]);
      }
      i := i + 1;
    }
    assert libs[..i] == libs;
  }

  /** The loop that triangulates every face. */
  method TriangulateAll(faces: seq<seq<Corner>>) returns (tris: seq<(Corner, Corner, Corner)>)
    ensures tris == FanAll(faces)
  {
    tris := [];
    var i := 0;
    while i < |faces|
      invariant 0 <= i <= |faces|
      invariant tris == FanAll(faces[..i])
    {
      FanAllSnoc(faces[..i], faces[i]);
      assert faces[..i] + [faces[i]] == faces[..i + 1];
      var t := Triangulate(faces[i]);
      tris := tris + t;
      i := i + 1;
    }
    assert faces[..i] == faces;
  }

  /** The loop that resolves every corner of every triangle. */
  method BuildMesh(tris: seq<(Corner, Corner, Corner)>, v: seq<Vec3>, vt: seq<Vec2>, vn: seq<Vec3>) returns (out: seq<Tri>)
    ensures out == Mesh(tris, v, vt, vn)
  {
    out := [];
    var i := 0;
    while i < |tris|
      invariant 0 <= i <= |tris| && |out| == i
      invariant forall j :: 0 <= j < i ==> out[j] == PlaceTri(tris[j], v, vt, vn)
    {
      out := out + [PlaceTri(tris[i], v, vt, vn)];
      i := i + 1;
    }
  }

  class ObjModel {
    var v: seq<Vec3>
    var vt: seq<Vec2>
    var vn: seq<Vec3>
    var triangles: seq<Tri>
    var texturePath: Option<string>

    constructor ()
      ensures v == [] && vt == [] && vn == [] && triangles == [] && texturePath == None
    {
      v, vt, vn, triangles, texturePath := [], [], [], [], None;
    }

    /** `load`: read the OBJ lines, then every existing `mtllib`, build the
        triangles and pick the texture. Where a number does not parse,
        `float()` or `int()` raises out of `load` (and out of the frame's
        constructor); the model returns false instead, keeping the vertex
        lists the lines before the failing one appended, while the faces,
        kept in a local list, are lost. */
    method Load(lines: seq<string>, float: string -> Option<real>, mtlFiles: map<string, seq<string>>, onDisk: set<string>)
      returns (ok: bool)
      modifies this
      ensures ok <==> ObjLines(lines, float).Some?
      ensures !ok ==>
        exists k: nat :: FailsAt(lines, float, k) && v == ObjLines(lines[..k], float).value.v
          && vt == ObjLines(lines[..k], float).value.vt && vn == ObjLines(lines[..k], float).value.vn
      ensures !ok ==> triangles == [] && texturePath == None
      ensures ok ==>
        var st := ObjLines(lines, float).value;
        v == st.v && vt == st.vt && vn == st.vn
        && triangles == Mesh(FanAll(st.faces), st.v, st.vt, st.vn)
        && texturePath == TexturePath(triangles, MtlLibs(st.libs, mtlFiles), onDisk)
    {
      v, vt, vn, triangles, texturePath := [], [], [], [], None;
      var scan, partial, stop := ReadObj(lines, float);
      if scan.None? {
        v, vt, vn := partial.v, partial.vt, partial.vn;
        return false;
      }
      var st := scan.value;

      var mtls := ReadMtlLibs(st.libs, mtlFiles);
      var tris := TriangulateAll(st.faces);
      var out := BuildMesh(tris, st.v, st.vt, st.vn);
      var tex := PickTexture(UsedMtls(out), mtls);
      v, vt, vn, triangles := st.v, st.vt, st.vn, out;
      texturePath := if tex.Some? && tex.value != [] && tex.value in onDisk then tex else None;
      ok := true;
    }
  }
}
