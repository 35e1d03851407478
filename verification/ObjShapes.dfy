/** Commands of an OBJ file, and how its faces are divided into shapes. */
module ObjShapes {

  /** Raw indices of one corner, as written; INVALID where a component is missing. */
  datatype Triple = Triple(v: int, vt: int, vn: int)

  datatype Option<T> = None | Some(value: T)

  datatype Command =
    | Empty
    | V(x: real, y: real, z: real)
    | VN(x: real, y: real, z: real)
    | VT(x: real, y: real)
    | F(f: seq<Triple>, numVerts: seq<int>)
    | G(name: string)
    | O(name: string)
    | UseMtl
    | MtlLib

  datatype Shape = Shape(name: Option<string>, offset: nat, length: nat)

  predicate Names(c: Command) {
    c.O? || c.G?
  }

  function Groups(cs: seq<Command>): nat {
    if cs == [] then 0 else Groups(cs[..|cs| - 1]) + if Names(cs[|cs| - 1]) then 1 else 0
  }

  /** The name in force at the end. */
  function LastName(cs: seq<Command>): Option<string> {
    if cs == [] then None
    else if Names(cs[|cs| - 1]) then Some(cs[|cs| - 1].name)
    else LastName(cs[..|cs| - 1])
  }

  /** For every f line, how many o and g lines come before it, and the name of the last one. */
  function FaceGroups(cs: seq<Command>): seq<(nat, Option<string>)> {
    if cs == [] then []
    else
      var init := cs[..|cs| - 1];
      FaceGroups(init) + if cs[|cs| - 1].F? then [(Groups(init), LastName(init))] else []
  }

  function End(shapes: seq<Shape>): nat {
    if shapes == [] then 0 else shapes[|shapes| - 1].offset + shapes[|shapes| - 1].length
  }

  /** The shape covers faces of one group, with its name. */
  ghost predicate Covers(s: Shape, groups: seq<(nat, Option<string>)>) {
    && s.length > 0 && s.offset + s.length <= |groups|
    && forall j :: s.offset <= j < s.offset + s.length ==> groups[j] == (groups[s.offset].0, s.name)
  }

  /** The shapes are nonempty, in order and without gaps; each has faces of one group, and the
      name that group has; a new shape starts exactly where a new group starts. */
  ghost predicate Partition(shapes: seq<Shape>, groups: seq<(nat, Option<string>)>) {
    && End(shapes) == |groups|
    && (forall k :: 0 <= k < |shapes| ==> PartAt(shapes, groups, k))
  }

  ghost predicate PartAt(shapes: seq<Shape>, groups: seq<(nat, Option<string>)>, k: nat)
    requires k < |shapes|
  {
    && Covers(shapes[k], groups) && shapes[k].offset == End(shapes[..k])
    && (k > 0 ==> shapes[k].offset > 0 && groups[shapes[k].offset - 1].0 < groups[shapes[k].offset].0)
  }

  lemma PartitionSnoc(shapes: seq<Shape>, groups: seq<(nat, Option<string>)>, s: Shape,
                      more: seq<(nat, Option<string>)>)
    requires Partition(shapes, groups) && groups <= more
    requires Covers(s, more) && s.offset == |groups| && s.offset + s.length == |more|
    requires groups != [] ==> groups[|groups| - 1].0 < more[|groups|].0
    ensures Partition(shapes + [s], more)
  {
    var all := shapes + [s];
    forall k: nat | k < |all| ensures PartAt(all, more, k) {
      if k < |shapes| {
        assert PartAt(shapes, groups, k);
        assert all[..k] == shapes[..k];
      } else {
        assert all[..k] == shapes;
        if k > 0 {
          var j: nat := k - 1;
          assert PartAt(shapes, groups, j);
        }
      }
    }
  }

  /** What the loop keeps: the shapes so far divide the faces before b, and the faces from b on
      belong to the group that is open. */
  ghost predicate Dividing(cs: seq<Command>, shapes: seq<Shape>, b: nat) {
    var groups := FaceGroups(cs);
    && b <= |groups| && Partition(shapes, groups[..b])
    && (forall j :: b <= j < |groups| ==> groups[j] == (Groups(cs), LastName(cs)))
    && (b > 0 ==> groups[b - 1].0 < Groups(cs))
    && (shapes == [] <==> b == 0) && |shapes| <= Groups(cs)
  }

  /** An o or g line closes the shape before it, unless that would be empty. */
  lemma DivideName(cs: seq<Command>, c: Command, shapes: seq<Shape>, b: nat)
    requires Dividing(cs, shapes, b) && Names(c)
    ensures var n := |FaceGroups(cs)|;
      && FaceGroups(cs + [c]) == FaceGroups(cs) && LastName(cs + [c]) == Some(c.name)
      && (if b < n then Dividing(cs + [c], shapes + [Shape(LastName(cs), b, n - b)], n)
          else Dividing(cs + [c], shapes, b))
  {
    var cs', groups := cs + [c], FaceGroups(cs);
    assert cs'[..|cs|] == cs;
    assert groups[..|groups|] == groups;
    if b < |groups| {
      PartitionSnoc(shapes, groups[..b], Shape(LastName(cs), b, |groups| - b), groups);
    }
  }

  lemma DivideFace(cs: seq<Command>, c: Command, shapes: seq<Shape>, b: nat)
    requires Dividing(cs, shapes, b) && c.F?
    ensures |FaceGroups(cs + [c])| == |FaceGroups(cs)| + 1 && Dividing(cs + [c], shapes, b)
    ensures LastName(cs + [c]) == LastName(cs)
  {
    var cs', groups := cs + [c], FaceGroups(cs);
    assert cs'[..|cs|] == cs;
    assert FaceGroups(cs')[..b] == groups[..b];
  }

  lemma DivideOther(cs: seq<Command>, c: Command, shapes: seq<Shape>, b: nat)
    requires Dividing(cs, shapes, b) && !Names(c) && !c.F?
    ensures FaceGroups(cs + [c]) == FaceGroups(cs) && Dividing(cs + [c], shapes, b)
    ensures LastName(cs + [c]) == LastName(cs)
  {
    assert (cs + [c])[..|cs|] == cs;
  }

  lemma DivideEnd(cs: seq<Command>, shapes: seq<Shape>, b: nat)
    requires Dividing(cs, shapes, b)
    ensures var n := |FaceGroups(cs)|;
      if b < n then Partition(shapes + [Shape(LastName(cs), b, n - b)], FaceGroups(cs))
        else Partition(shapes, FaceGroups(cs))
  {
    var groups := FaceGroups(cs);
    assert groups[..|groups|] == groups;
    if b < |groups| {
      PartitionSnoc(shapes, groups[..b], Shape(LastName(cs), b, |groups| - b), groups);
    }
  }

  /** The number of o and g lines */
  method CountNames(commands: seq<Command>) returns (n: nat)
    ensures n == Groups(commands)
  {
    n := 0;
    var i := 0;
    while i < |commands|
      invariant 0 <= i <= |commands| && n == Groups(commands[..i])
    {
      assert commands[..i + 1][..i] == commands[..i];
      if Names(commands[i]) {
        n := n + 1;
      }
      i := i + 1;
    }
    assert commands[..|commands|] == commands;
  }

  lemma DivideStart()
    ensures Dividing([], [], 0) && FaceGroups([]) == [] && Groups([]) == 0 && LastName([]) == None
  {
  }

  lemma DivideFacts(cs: seq<Command>, shapes: seq<Shape>, b: nat)
    requires Dividing(cs, shapes, b)
    ensures b <= |FaceGroups(cs)| && (shapes == [] <==> b == 0) && |shapes| <= Groups(cs)
  {
  }

  /** Stores the shape behind those that are there. */
  method Close(room: array<Shape>, shapeIdx: nat, s: Shape) returns (shapeIdx': nat)
    requires shapeIdx < room.Length
    modifies room
    ensures shapeIdx' == shapeIdx + 1 <= room.Length && room[..shapeIdx'] == old(room[..shapeIdx]) + [s]
  {
    room[shapeIdx] := s;
    shapeIdx' := shapeIdx + 1;
  }

  /** An o or g line behind the first face: the shape before it is closed if it has faces */
  method CloseAtName(room: array<Shape>, shapeIdx: nat, name: Option<string>, faceCount: nat, prevFaceOffset: nat)
    returns (shapeIdx': nat, prevFaceOffset': nat)
    requires shapeIdx < room.Length && prevFaceOffset <= faceCount && faceCount > 0
    requires shapeIdx == 0 <==> prevFaceOffset == 0
    modifies room
    ensures prevFaceOffset' == faceCount && room[..shapeIdx] == old(room[..shapeIdx])
    ensures if prevFaceOffset < faceCount
      then shapeIdx' == shapeIdx + 1 <= room.Length
           && room[..shapeIdx'] == old(room[..shapeIdx]) + [Shape(name, prevFaceOffset, faceCount - prevFaceOffset)]
      else shapeIdx' == shapeIdx
  {
    var first := 0;  // the offset in the zeroed prev_shape
    shapeIdx', prevFaceOffset' := shapeIdx, prevFaceOffset;
    if shapeIdx == 0 {
      shapeIdx' := Close(room, shapeIdx, Shape(name, first, faceCount - prevFaceOffset));
      prevFaceOffset' := faceCount;
    } else if faceCount - prevFaceOffset > 0 {
      shapeIdx' := Close(room, shapeIdx, Shape(name, prevFaceOffset, faceCount - prevFaceOffset));
      prevFaceOffset' := faceCount;
    }
  }

  /** Part 5 of `tinyobj_parse_obj`; `room` is the number of shapes that were allocated */
  method BuildShapes(commands: seq<Command>) returns (shapes: seq<Shape>)
    ensures Partition(shapes, FaceGroups(commands)) && |shapes| <= Groups(commands) + 1
  {
    hide Dividing;
    hide FaceGroups;
    hide Groups;
    hide LastName;
    hide Partition;
    var n := CountNames(commands);
    var i := 0;
    assert commands[..|commands|] == commands && commands[..0] == [];
    DivideStart();
    var room := new Shape[n + 1](k => Shape(None, 0, 0));
    var faceCount, shapeIdx := 0, 0;
    var prevName: Option<string> := None;
    var prevShapeFaceOffset, prevFaceOffset := 0, 0;
    while i < |commands|
      invariant 0 <= i <= |commands| && 0 <= shapeIdx <= Groups(commands[..i]) <= n
      invariant prevFaceOffset == prevShapeFaceOffset
      invariant faceCount == |FaceGroups(commands[..i])| && prevName == LastName(commands[..i])
      invariant Dividing(commands[..i], room[..shapeIdx], prevFaceOffset)
    {
      ghost var cs, done := commands[..i], room[..shapeIdx];
      var c := commands[i];
      assert commands[..i + 1] == cs + [c];
      GroupsGrow(commands, i);
      DivideFacts(cs, done, prevFaceOffset);
      if Names(c) {
        DivideName(cs, c, done, prevFaceOffset);
        if faceCount == 0 {
          prevFaceOffset := faceCount;
        } else {
          shapeIdx, prevFaceOffset := CloseAtName(room, shapeIdx, prevName, faceCount, prevFaceOffset);
        }
        prevShapeFaceOffset := faceCount;
        prevName := Some(c.name);
      } else if c.F? {
        DivideFace(cs, c, done, prevFaceOffset);
        faceCount := faceCount + 1;
      } else {
        DivideOther(cs, c, done, prevFaceOffset);
      }
      i := i + 1;
    }
    DivideFacts(commands, room[..shapeIdx], prevFaceOffset);
    DivideEnd(commands, room[..shapeIdx], prevFaceOffset);
    if faceCount - prevFaceOffset > 0 && faceCount - prevShapeFaceOffset > 0 {
      shapeIdx := Close(room, shapeIdx, Shape(prevName, prevFaceOffset, faceCount - prevFaceOffset));
    }
    return room[..shapeIdx];
  }

  lemma {:induction false} GroupsGrow(cs: seq<Command>, i: nat)
    requires i < |cs|
    ensures Groups(cs[..i + 1]) == Groups(cs[..i]) + (if Names(cs[i]) then 1 else 0) <= Groups(cs)
    decreases |cs| - i
  {
    assert cs[..i + 1][..i] == cs[..i];
    if i + 1 < |cs| {
      GroupsGrow(cs, i + 1);
    } else {
      assert cs[..i + 1] == cs;
    }
  }

  /** How many f lines there are. */
  function FaceLines(cs: seq<Command>): nat {
    if cs == [] then 0 else FaceLines(cs[..|cs| - 1]) + if cs[|cs| - 1].F? then 1 else 0
  }

  /** The line p is the last o or g line before i. */
  ghost predicate LastNamed(cs: seq<Command>, p: nat, i: nat) {
    p < i <= |cs| && (cs[p].O? || cs[p].G?) && forall q :: p < q < i ==> !cs[q].O? && !cs[q].G?
  }

  /** The group of every face has the name of the last o or g line before it, or none if there is
      no such line. */
  lemma FaceName(cs: seq<Command>, i: nat)
    requires i < |cs| && cs[i].F?
    ensures var k := FaceLines(cs[..i]);
      && k < |FaceGroups(cs)|
      && ((forall q :: 0 <= q < i ==> !cs[q].O? && !cs[q].G?) ==> FaceGroups(cs)[k].1 == None)
      && (forall p: nat :: LastNamed(cs, p, i) ==> FaceGroups(cs)[k].1 == Some(cs[p].name))
  {
    GroupAt(cs, i);
    NameAt(cs, i);
  }

  /** Two faces are in different groups if and only if an o or g line is between them. */
  lemma FaceApart(cs: seq<Command>, i: nat, j: nat)
    requires i < j < |cs| && cs[i].F? && cs[j].F?
    ensures var k, l := FaceLines(cs[..i]), FaceLines(cs[..j]);
      && k < |FaceGroups(cs)| && l < |FaceGroups(cs)|
      && (FaceGroups(cs)[k].0 != FaceGroups(cs)[l].0 <==> exists q :: i < q < j && (cs[q].O? || cs[q].G?))
  {
    GroupAt(cs, i);
    GroupAt(cs, j);
    GroupsBetween(cs, i, j);
  }

  lemma {:induction false} GroupAt(cs: seq<Command>, i: nat)
    requires i < |cs| && cs[i].F?
    ensures |FaceGroups(cs)| == FaceLines(cs)
    ensures var k := FaceLines(cs[..i]);
      k < |FaceGroups(cs)| && FaceGroups(cs)[k] == (Groups(cs[..i]), LastName(cs[..i]))
    decreases |cs|
  {
    var init := cs[..|cs| - 1];
    FaceCount(init);
    if i < |init| {
      assert init[..i] == cs[..i];
      GroupAt(init, i);
    }
  }

  lemma {:induction false} FaceCount(cs: seq<Command>)
    ensures |FaceGroups(cs)| == FaceLines(cs)
  {
    if cs != [] {
      FaceCount(cs[..|cs| - 1]);
    }
  }

  lemma {:induction false} NameAt(cs: seq<Command>, i: nat)
    requires i <= |cs|
    ensures (forall q :: 0 <= q < i ==> !cs[q].O? && !cs[q].G?) ==> LastName(cs[..i]) == None
    ensures forall p: nat :: LastNamed(cs, p, i) ==> LastName(cs[..i]) == Some(cs[p].name)
    decreases i
  {
    if i > 0 {
      assert cs[..i][..i - 1] == cs[..i - 1] && cs[..i][i - 1] == cs[i - 1];
      NameAt(cs, i - 1);
      forall p: nat | LastNamed(cs, p, i) ensures LastName(cs[..i]) == Some(cs[p].name) {
        if p < i - 1 {
          assert LastNamed(cs, p, i - 1);
        }
      }
    }
  }

  lemma {:induction false} GroupsBetween(cs: seq<Command>, i: nat, j: nat)
    requires i <= j <= |cs| && (i < |cs| ==> cs[i].F?)
    ensures Groups(cs[..i]) <= Groups(cs[..j])
    ensures Groups(cs[..i]) != Groups(cs[..j]) <==> exists q :: i < q < j && (cs[q].O? || cs[q].G?)
    decreases j - i
  {
    if i < j {
      assert cs[..j][..j - 1] == cs[..j - 1] && cs[..j][j - 1] == cs[j - 1];
      GroupsBetween(cs, i, j - 1);
      if Names(cs[j - 1]) {
        assert i < j - 1 < j && (cs[j - 1].O? || cs[j - 1].G?);
      } else if exists q :: i < q < j && (cs[q].O? || cs[q].G?) {
        var q :| i < q < j && (cs[q].O? || cs[q].G?);
        assert i < q < j - 1;
      }
    }
  }
}
