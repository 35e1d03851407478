/** Filling the attribute arrays of an OBJ file in a second pass over its commands. */
module ObjAttrib {
  import opened ObjShapes

  const INVALID: int := -2147483648

  // ---------- what the arrays hold ----------

  function VertexOf(c: Command): seq<real> { match c { case V(x, y, z) => [x, y, z] case _ => [] } }

  function NormalOf(c: Command): seq<real> { match c { case VN(x, y, z) => [x, y, z] case _ => [] } }

  function TexOf(c: Command): seq<real> { match c { case VT(x, y) => [x, y] case _ => [] } }

  function SizesOf(c: Command): seq<int> { match c { case F(_, n) => n case _ => [] } }

  function CornersOf(c: Command): seq<Triple> { match c { case F(f, _) => f case _ => [] } }

  function VertexData(cs: seq<Command>): seq<real> {
    if cs == [] then []
    else VertexData(cs[..|cs| - 1]) + VertexOf(cs[|cs| - 1])
  }

  function NormalData(cs: seq<Command>): seq<real> {
    if cs == [] then []
    else NormalData(cs[..|cs| - 1]) + NormalOf(cs[|cs| - 1])
  }

  function TexData(cs: seq<Command>): seq<real> {
    if cs == [] then []
    else TexData(cs[..|cs| - 1]) + TexOf(cs[|cs| - 1])
  }

  /** `fixIndex` */
  function FixIndex(idx: int, n: nat): int {
    if idx > 0 then idx - 1 else if idx == 0 then 0 else n + idx
  }

  /** Numbers of v, vt and vn lines. */
  function Counts(cs: seq<Command>): (nat, nat, nat) {
    if cs == [] then (0, 0, 0)
    else
      var (v, t, n) := Counts(cs[..|cs| - 1]);
      match cs[|cs| - 1]
      case V(_, _, _) => (v + 1, t, n)
      case VT(_, _) => (v, t + 1, n)
      case VN(_, _, _) => (v, t, n + 1)
      case _ => (v, t, n)
  }

  /** An index, resolved against the lines that come before the face. */
  function Resolve(f: Triple, counts: (nat, nat, nat)): Triple {
    Triple(FixIndex(f.v, counts.0), FixIndex(f.vt, counts.1), FixIndex(f.vn, counts.2))
  }

  function ResolveAll(f: seq<Triple>, counts: (nat, nat, nat)): (r: seq<Triple>)
    ensures |r| == |f| && forall i :: 0 <= i < |f| ==> r[i] == Resolve(f[i], counts)
  {
    seq(|f|, i requires 0 <= i < |f| => Resolve(f[i], counts))
  }

  function FaceData(cs: seq<Command>): seq<Triple> {
    if cs == [] then []
    else
      var init := cs[..|cs| - 1];
      FaceData(init) + ResolveAll(CornersOf(cs[|cs| - 1]), Counts(init))
  }

  function FaceSizes(cs: seq<Command>): seq<int> {
    if cs == [] then []
    else FaceSizes(cs[..|cs| - 1]) + SizesOf(cs[|cs| - 1])
  }

  // ---------- counting ----------

  lemma {:induction false} Sizes(cs: seq<Command>)
    ensures |VertexData(cs)| == 3 * Counts(cs).0 && |TexData(cs)| == 2 * Counts(cs).1
    ensures |NormalData(cs)| == 3 * Counts(cs).2
  {
    if cs != [] {
      Sizes(cs[..|cs| - 1]);
    }
  }

  /** The data of a prefix is not longer than the data. */
  lemma {:induction false} Lengths(cs: seq<Command>, i: nat)
    requires i <= |cs|
    ensures |VertexData(cs[..i])| <= |VertexData(cs)| && |NormalData(cs[..i])| <= |NormalData(cs)|
    ensures |TexData(cs[..i])| <= |TexData(cs)|
    ensures |FaceData(cs[..i])| <= |FaceData(cs)| && |FaceSizes(cs[..i])| <= |FaceSizes(cs)|
    decreases |cs|
  {
    if i == |cs| {
      assert cs[..i] == cs;
    } else {
      var init := cs[..|cs| - 1];
      assert init[..i] == cs[..i];
      Lengths(init, i);
    }
  }

  /** One more line. */
  lemma DataStep(cs: seq<Command>, i: nat)
    requires i < |cs|
    ensures var a, b, c := cs[..i], cs[..i + 1], cs[i];
      && VertexData(b) == VertexData(a) + VertexOf(c) && NormalData(b) == NormalData(a) + NormalOf(c)
      && TexData(b) == TexData(a) + TexOf(c) && FaceSizes(b) == FaceSizes(a) + SizesOf(c)
      && FaceData(b) == FaceData(a) + ResolveAll(CornersOf(c), Counts(a))
      && Counts(b) == (Counts(a).0 + (if c.V? then 1 else 0), Counts(a).1 + (if c.VT? then 1 else 0),
                       Counts(a).2 + if c.VN? then 1 else 0)
  {
    assert cs[..i + 1][..i] == cs[..i];
  }

  /** What a line changes, and the room for it. */
  lemma PointStep(all: seq<Command>, i: nat)
    requires i < |all|
    ensures var a, b, c := all[..i], all[..i + 1], all[i]; var (v, t, n) := Counts(a);
      && Counts(b) == (if c.V? then v + 1 else v, if c.VT? then t + 1 else t, if c.VN? then n + 1 else n)
      && (c.V? ==> VertexData(b) == VertexData(a) + [c.x, c.y, c.z] && 3 * v + 3 <= |VertexData(all)|)
      && (c.VN? ==> NormalData(b) == NormalData(a) + [c.x, c.y, c.z] && 3 * n + 3 <= |NormalData(all)|)
      && (c.VT? ==> TexData(b) == TexData(a) + [c.x, c.y] && 2 * t + 2 <= |TexData(all)|)
      && (!c.V? ==> VertexData(b) == VertexData(a)) && (!c.VN? ==> NormalData(b) == NormalData(a))
        && (!c.VT? ==> TexData(b) == TexData(a))
  {
    hide VertexData;
    hide NormalData;
    hide TexData;
    hide Counts;
    hide FaceData;
    hide FaceSizes;
    DataStep(all, i);
    Lengths(all, i + 1);
    Sizes(all[..i + 1]);
    Sizes(all[..i]);
  }

  /** The first pass: how large the arrays must be */
  method CountAll(commands: seq<Command>) returns (nv: nat, nvn: nat, nvt: nat, nf: nat, nfaces: nat)
    ensures (nv, nvt, nvn) == Counts(commands) && nf == |FaceData(commands)| && nfaces == |FaceSizes(commands)|
  {
    nv, nvn, nvt, nf, nfaces := 0, 0, 0, 0, 0;
    var i := 0;
    while i < |commands|
      invariant 0 <= i <= |commands| && (nv, nvt, nvn) == Counts(commands[..i])
      invariant nf == |FaceData(commands[..i])| && nfaces == |FaceSizes(commands[..i])|
    {
      assert commands[..i + 1][..i] == commands[..i];
      match commands[i] {
        case V(_, _, _) => nv := nv + 1;
        case VN(_, _, _) => nvn := nvn + 1;
        case VT(_, _) => nvt := nvt + 1;
        case F(f, n) =>
          nf := nf + |f|;
          nfaces := nfaces + |n|;
        case _ =>
      }
      i := i + 1;
    }
    assert commands[..|commands|] == commands;
  }

  // ---------- filling ----------

  /** Writes data behind the first n slots. */
  method Store<T>(a: array<T>, n: nat, data: seq<T>)
    requires n + |data| <= a.Length
    modifies a
    ensures a[..n + |data|] == old(a[..n]) + data
    ensures forall i :: n + |data| <= i < a.Length ==> a[i] == old(a[i])
  {
    forall k | 0 <= k < |data| {
      a[n + k] := data[k];
    }
  }

  lemma DataNone()
    ensures VertexData([]) == [] && NormalData([]) == [] && TexData([]) == [] && FaceData([]) == []
    ensures FaceSizes([]) == []
    ensures Counts([]) == (0, 0, 0)
  {
  }

  ghost predicate Begins(a: array<real>, n: nat, data: seq<real>)
    reads a
  {
    n <= a.Length && a[..n] == data
  }

  method StoreReals(a: array<real>, n: nat, more: seq<real>, ghost data: seq<real>)
    requires Begins(a, n, data) && n + |more| <= a.Length
    modifies a
    ensures Begins(a, n + |more|, data + more)
  {
    Store(a, n, more);
  }

  /** No material is known. */
  method StoreUnknown(a: array<int>, n: nat, m: nat)
    requires n + m <= a.Length && forall i :: 0 <= i < n ==> a[i] == -1
    modifies a
    ensures forall i :: 0 <= i < n + m ==> a[i] == -1
  {
    forall k | 0 <= k < m {
      a[n + k] := -1;
    }
  }

  /** `tinyobj_attrib_t` */
  class Attrib {
    const vertices: array<real>
    const normals: array<real>
    const texcoords: array<real>
    const faces: array<Triple>
    const faceNumVerts: array<int>
    const materialIds: array<int>

    /** Arrays of the sizes that the first pass found */
    constructor (nv: nat, nvn: nat, nvt: nat, nf: nat, nfaces: nat)
      ensures vertices.Length == 3 * nv && normals.Length == 3 * nvn && texcoords.Length == 2 * nvt
      ensures faces.Length == nf && faceNumVerts.Length == materialIds.Length == nfaces
      ensures Separate()
      ensures fresh(vertices) && fresh(normals) && fresh(texcoords) && fresh(faces) && fresh(faceNumVerts)
      ensures fresh(materialIds)
    {
      vertices := new real[nv * 3];
      normals := new real[nvn * 3];
      texcoords := new real[nvt * 2];
      faces := new Triple[nf](i => Triple(0, 0, 0));
      faceNumVerts := new int[nfaces];
      materialIds := new int[nfaces];
    }

    ghost predicate Separate() {
      vertices != normals && vertices != texcoords && normals != texcoords && faceNumVerts != materialIds
    }

    /** The lines cs have been stored. */
    ghost predicate HoldsPoints(cs: seq<Command>, v: nat, t: nat, n: nat)
      reads vertices, normals, texcoords
    {
      && (v, t, n) == Counts(cs)
      && Begins(vertices, 3 * v, VertexData(cs)) && Begins(normals, 3 * n, NormalData(cs))
        && Begins(texcoords, 2 * t, TexData(cs))
    }

    ghost predicate HoldsFaces(cs: seq<Command>, f: nat, face: nat)
      reads faces, faceNumVerts, materialIds
    {
      && f <= faces.Length && faces[..f] == FaceData(cs)
      && face <= faceNumVerts.Length == materialIds.Length && faceNumVerts[..face] == FaceSizes(cs)
      && (forall k :: 0 <= k < face ==> materialIds[k] == -1)
    }

    /** Room for the whole file */
    ghost predicate Sized(all: seq<Command>) {
      && vertices.Length == |VertexData(all)| && normals.Length == |NormalData(all)|
        && texcoords.Length == |TexData(all)|
      && faces.Length == |FaceData(all)| && faceNumVerts.Length == materialIds.Length == |FaceSizes(all)|
    }

    /** A v, vn or vt line */
    method StorePoint(all: seq<Command>, i: nat, v: nat, t: nat, n: nat) returns (v': nat, t': nat, n': nat)
      requires i < |all| && Separate() && Sized(all) && HoldsPoints(all[..i], v, t, n)
      modifies vertices, normals, texcoords
      ensures HoldsPoints(all[..i + 1], v', t', n')
    {
      hide VertexData;
      hide NormalData;
      hide TexData;
      hide Counts;
      hide Begins;
      hide FaceData;
      hide FaceSizes;
      PointStep(all, i);
      v', t', n' := v, t, n;
      match all[i] {
        case V(x, y, z) =>
          StoreReals(vertices, 3 * v, [x, y, z], VertexData(all[..i]));
          v' := v + 1;
        case VN(x, y, z) =>
          StoreReals(normals, 3 * n, [x, y, z], NormalData(all[..i]));
          n' := n + 1;
        case VT(x, y) =>
          StoreReals(texcoords, 2 * t, [x, y], TexData(all[..i]));
          t' := t + 1;
        case _ =>
      }
    }

    /** An f line, its indices resolved against the lines before it */
    method StoreFace(all: seq<Command>, i: nat, v: nat, t: nat, n: nat, f: nat, face: nat) returns (f': nat, face': nat)
      requires i < |all| && Separate() && Sized(all) && (v, t, n) == Counts(all[..i]) && HoldsFaces(all[..i], f, face)
      requires f == |FaceData(all[..i])| && face == |FaceSizes(all[..i])|
      modifies faces, faceNumVerts, materialIds
      ensures HoldsFaces(all[..i + 1], f', face') && f' == |FaceData(all[..i + 1])|
      ensures face' == |FaceSizes(all[..i + 1])|
    {
      hide FaceData;
      hide FaceSizes;
      hide Counts;
      DataStep(all, i);
      Lengths(all, i + 1);
      f', face' := f, face;
      match all[i] {
        case F(corners, sizes) =>
          Store(faces, f, ResolveAll(corners, (v, t, n)));
          Store(faceNumVerts, face, sizes);
          StoreUnknown(materialIds, face, |sizes|);
          f' := f + |corners|;
          face' := face + |sizes|;
        case _ =>
      }
    }
  }

  /** The second pass: every array is filled exactly, in the order of the lines. */
  method Construct(commands: seq<Command>) returns (a: Attrib)
    ensures fresh(a) && a.vertices[..] == VertexData(commands) && a.normals[..] == NormalData(commands)
    ensures a.texcoords[..] == TexData(commands)
    ensures a.faces[..] == FaceData(commands) && a.faceNumVerts[..] == FaceSizes(commands)
    ensures a.materialIds.Length == a.faceNumVerts.Length && forall i :: 0 <= i < a.materialIds.Length ==>
      a.materialIds[i] == -1
  {
    hide VertexData;
    hide NormalData;
    hide TexData;
    hide FaceData;
    hide FaceSizes;
    hide Counts;
    var nv, nvn, nvt, nf, nfaces := CountAll(commands);
    DataNone();
    assert commands[..0] == [] && commands[..|commands|] == commands;
    Sizes(commands);
    a := new Attrib(nv, nvn, nvt, nf, nfaces);
    var v, n, t, f, face, i := 0, 0, 0, 0, 0, 0;
    while i < |commands|
      invariant 0 <= i <= |commands| && a.HoldsPoints(commands[..i], v, t, n) && a.HoldsFaces(commands[..i], f, face)
      invariant f == |FaceData(commands[..i])| && face == |FaceSizes(commands[..i])|
    {
      f, face := a.StoreFace(commands, i, v, t, n, f, face);
      v, t, n := a.StorePoint(commands, i, v, t, n);
      i := i + 1;
    }
  }

  // ---------- what the stored indices mean ----------

  /** Later lines only add data. */
  lemma {:induction false} DataPrefix(cs: seq<Command>, i: nat)
    requires i <= |cs|
    ensures VertexData(cs[..i]) <= VertexData(cs) && TexData(cs[..i]) <= TexData(cs)
    ensures NormalData(cs[..i]) <= NormalData(cs) && FaceData(cs[..i]) <= FaceData(cs)
    ensures FaceSizes(cs[..i]) <= FaceSizes(cs)
    decreases |cs|
  {
    if i == |cs| {
      assert cs[..i] == cs;
    } else {
      var init := cs[..|cs| - 1];
      assert init[..i] == cs[..i];
      DataPrefix(init, i);
    }
  }

  /** The slot of corner j of the face in line i. */
  function Slot(cs: seq<Command>, i: nat, j: nat): nat
    requires i < |cs|
  {
    |FaceData(cs[..i])| + j
  }

  lemma ResolvedThere(cs: seq<Command>, i: nat, j: nat)
    requires i < |cs| && cs[i].F? && j < |cs[i].f|
    ensures Slot(cs, i, j) < |FaceData(cs)| && FaceData(cs)[Slot(cs, i, j)] == Resolve(cs[i].f[j], Counts(cs[..i]))
  {
    hide FaceData;
    hide Counts;
    DataStep(cs, i);
    DataPrefix(cs, i + 1);
    assert FaceData(cs[..i + 1])[Slot(cs, i, j)] == ResolveAll(cs[i].f, Counts(cs[..i]))[j];
  }

  /** Every index of the corner stored there is the one written less one, or, if negative, counted
      back from the lines of its kind that come before the face. */
  lemma StoredCorner(cs: seq<Command>, i: nat, j: nat)
    requires i < |cs| && cs[i].F? && j < |cs[i].f|
    ensures Slot(cs, i, j) < |FaceData(cs)|
    ensures var raw, stored := cs[i].f[j], FaceData(cs)[Slot(cs, i, j)];
      && (raw.v > 0 ==> stored.v == raw.v - 1) && (raw.vt > 0 ==> stored.vt == raw.vt - 1)
        && (raw.vn > 0 ==> stored.vn == raw.vn - 1)
      && (raw.v == 0 ==> stored.v == 0) && (raw.vt == 0 ==> stored.vt == 0) && (raw.vn == 0 ==> stored.vn == 0)
      && (raw.v < 0 ==> 3 * (stored.v - raw.v) == |VertexData(cs[..i])|)
      && (raw.vt < 0 ==> 2 * (stored.vt - raw.vt) == |TexData(cs[..i])|)
      && (raw.vn < 0 ==> 3 * (stored.vn - raw.vn) == |NormalData(cs[..i])|)
  {
    hide FaceData;
    hide Counts;
    hide VertexData;
    hide TexData;
    hide NormalData;
    hide Slot;
    ResolvedThere(cs, i, j);
    Sizes(cs[..i]);
  }

  /** The numbers of vertices of the faces of a line are stored in order. */
  lemma StoredSizes(cs: seq<Command>, i: nat, q: nat)
    requires i < |cs| && cs[i].F? && q < |cs[i].numVerts|
    ensures var k := |FaceSizes(cs[..i])| + q; k < |FaceSizes(cs)| && FaceSizes(cs)[k] == cs[i].numVerts[q]
  {
    hide FaceSizes;
    hide FaceData;
    hide VertexData;
    hide TexData;
    hide NormalData;
    hide Counts;
    DataStep(cs, i);
    DataPrefix(cs, i + 1);
    SizesStay(FaceSizes(cs[..i]), cs[i].numVerts, FaceSizes(cs), q);
  }

  lemma SizesStay(before: seq<int>, more: seq<int>, all: seq<int>, q: nat)
    requires before + more <= all && q < |more|
    ensures |before| + q < |all| && all[|before| + q] == more[q]
  {
    assert (before + more)[|before| + q] == all[|before| + q];
  }

  lemma {:induction false} NoneCounted(cs: seq<Command>)
    ensures Counts(cs).1 == 0 <==> forall k :: 0 <= k < |cs| ==> !cs[k].VT?
    ensures Counts(cs).2 == 0 <==> forall k :: 0 <= k < |cs| ==> !cs[k].VN?
  {
    if cs != [] {
      var init, c := cs[..|cs| - 1], cs[|cs| - 1];
      NoneCounted(init);
      assert forall k :: 0 <= k < |init| ==> init[k] == cs[k];
      assert c == cs[|cs| - 1];
    }
  }

  /** A corner that is written without a texture (or normal) index is stored with the invalid
      one if and only if no vt (or vn) line comes before its face. */
  lemma MissingComponent(cs: seq<Command>, i: nat, j: nat)
    requires i < |cs| && cs[i].F? && j < |cs[i].f|
    ensures Slot(cs, i, j) < |FaceData(cs)|
    ensures var raw, stored := cs[i].f[j], FaceData(cs)[Slot(cs, i, j)];
      && (raw.vt == INVALID ==> (stored.vt == INVALID <==> forall k :: 0 <= k < i ==> !cs[k].VT?))
      && (raw.vn == INVALID ==> (stored.vn == INVALID <==> forall k :: 0 <= k < i ==> !cs[k].VN?))
  {
    hide FaceData;
    hide Counts;
    hide Slot;
    ResolvedThere(cs, i, j);
    NoneCounted(cs[..i]);
    assert forall k :: 0 <= k < i ==> cs[..i][k] == cs[k];
  }

  /** One vt line and a face that does not use it: an index that is neither valid nor the
      invalid one. */
  lemma WrongComponent()
    ensures FaceData([VT(0.0, 0.0), F([Triple(1, INVALID, INVALID)], [1])]) == [Triple(0, INVALID + 1, INVALID)]
  {
    var cs := [VT(0.0, 0.0), F([Triple(1, INVALID, INVALID)], [1])];
    assert cs[..1] == [VT(0.0, 0.0)] && cs[..1][..0] == [];
    assert Counts(cs[..1]) == (0, 1, 0);
    DataStep(cs, 0);
    DataStep(cs, 1);
    assert cs[..2] == cs && cs[..0] == [];
  }

  /** The number of a v line, counted from the first one or back from the face, is stored as the
      slot that holds the coordinates of that line. */
  lemma RelativeIndex(cs: seq<Command>, p: nat, i: nat, j: nat)
    requires p < i < |cs| && cs[p].V? && cs[i].F? && j < |cs[i].f|
    requires var k := Counts(cs[..p]).0; cs[i].f[j].v == k + 1 || cs[i].f[j].v == k - Counts(cs[..i]).0
    ensures Slot(cs, i, j) < |FaceData(cs)|
    ensures var k := FaceData(cs)[Slot(cs, i, j)].v;
      0 <= 3 * k && 3 * k + 3 <= |VertexData(cs)| && VertexData(cs)[3 * k..3 * k + 3] == [cs[p].x, cs[p].y, cs[p].z]
  {
    hide FaceData;
    hide VertexData;
    hide Counts;
    ResolvedThere(cs, i, j);
    var k := Counts(cs[..p]).0;
    Earlier(cs, p, i);
    DataStep(cs, p);
    Sizes(cs[..p]);
    DataPrefix(cs, p + 1);
    Stays(VertexData(cs[..p]), [cs[p].x, cs[p].y, cs[p].z], VertexData(cs));
  }

  /** The same for a vt line. */
  lemma RelativeTexture(cs: seq<Command>, p: nat, i: nat, j: nat)
    requires p < i < |cs| && cs[p].VT? && cs[i].F? && j < |cs[i].f|
    requires var k := Counts(cs[..p]).1; cs[i].f[j].vt == k + 1 || cs[i].f[j].vt == k - Counts(cs[..i]).1
    ensures Slot(cs, i, j) < |FaceData(cs)|
    ensures var k := FaceData(cs)[Slot(cs, i, j)].vt;
      0 <= 2 * k && 2 * k + 2 <= |TexData(cs)| && TexData(cs)[2 * k..2 * k + 2] == [cs[p].x, cs[p].y]
  {
    hide FaceData;
    hide TexData;
    hide Counts;
    ResolvedThere(cs, i, j);
    var k := Counts(cs[..p]).1;
    Earlier(cs, p, i);
    DataStep(cs, p);
    Sizes(cs[..p]);
    DataPrefix(cs, p + 1);
    Stays(TexData(cs[..p]), [cs[p].x, cs[p].y], TexData(cs));
  }

  /** The same for a vn line. */
  lemma RelativeNormal(cs: seq<Command>, p: nat, i: nat, j: nat)
    requires p < i < |cs| && cs[p].VN? && cs[i].F? && j < |cs[i].f|
    requires var k := Counts(cs[..p]).2; cs[i].f[j].vn == k + 1 || cs[i].f[j].vn == k - Counts(cs[..i]).2
    ensures Slot(cs, i, j) < |FaceData(cs)|
    ensures var k := FaceData(cs)[Slot(cs, i, j)].vn;
      0 <= 3 * k && 3 * k + 3 <= |NormalData(cs)| && NormalData(cs)[3 * k..3 * k + 3] == [cs[p].x, cs[p].y, cs[p].z]
  {
    hide FaceData;
    hide NormalData;
    hide Counts;
    ResolvedThere(cs, i, j);
    var k := Counts(cs[..p]).2;
    Earlier(cs, p, i);
    DataStep(cs, p);
    Sizes(cs[..p]);
    DataPrefix(cs, p + 1);
    Stays(NormalData(cs[..p]), [cs[p].x, cs[p].y, cs[p].z], NormalData(cs));
  }

  lemma Stays(before: seq<real>, more: seq<real>, all: seq<real>)
    requires before + more <= all
    ensures |before| + |more| <= |all| && all[|before|..|before| + |more|] == more
  {
    assert all[..|before + more|] == before + more;
    assert all[|before|..|before| + |more|] == (before + more)[|before|..];
  }

  /** A line before line i is counted there. */
  lemma {:induction false} Earlier(cs: seq<Command>, p: nat, i: nat)
    requires p < i <= |cs|
    ensures cs[p].V? ==> Counts(cs[..p]).0 < Counts(cs[..i]).0
    ensures cs[p].VT? ==> Counts(cs[..p]).1 < Counts(cs[..i]).1
    ensures cs[p].VN? ==> Counts(cs[..p]).2 < Counts(cs[..i]).2
    decreases i
  {
    hide Counts;
    DataStep(cs, i - 1);
    if p < i - 1 {
      Earlier(cs, p, i - 1);
    }
  }
}
