/** The sweep over the sub-scanlines: which edges are active, where they are, and what is
    painted. */
module RastSweep {
  import opened RastList

  /** `NSVGedge` */
  datatype Edge = Edge(x0: real, y0: real, x1: real, y1: real, dir: int)

  /** The centre of sub-scanline t (five to a row). */
  function Center(t: int): real {
    t as real + 0.5
  }

  function Slope(e: Edge): real
    requires e.y0 != e.y1
  {
    (e.x1 - e.x0) / (e.y1 - e.y0)
  }

  /** The step per sub-scanline, in 1/1024 pixels, rounded towards zero. */
  function StepX(e: Edge): int
    requires e.y0 != e.y1
  {
    if Slope(e) < 0.0 then -((1024.0 * -Slope(e)).Floor) else (1024.0 * Slope(e)).Floor
  }

  /** Where the edge meets sub-scanline t, in 1/1024 pixels. */
  function StartX(e: Edge, t: int): int
    requires e.y0 != e.y1
  {
    (1024.0 * (e.x0 + Slope(e) * (Center(t) - e.y0))).Floor
  }

  /** The first sub-scanline at or below the start of the edge. */
  function First(e: Edge): (t: nat)
    ensures e.y0 <= Center(t) && (t > 0 ==> Center(t - 1) < e.y0)
  {
    if e.y0 <= 0.5 then 0 else -((0.5 - e.y0).Floor)
  }

  /** The position an active edge has at sub-scanline t. */
  function XAt(e: Edge, t: int): int
    requires e.y0 != e.y1
  {
    StartX(e, First(e)) + (t - First(e)) * StepX(e)
  }

  lemma XAtStart(e: Edge)
    requires e.y0 != e.y1
    ensures XAt(e, First(e)) == StartX(e, First(e))
  {
  }

  lemma XAtNext(e: Edge, t: int)
    requires e.y0 != e.y1
    ensures XAt(e, t + 1) == XAt(e, t) + StepX(e)
  {
    hide StepX;
    hide StartX;
    hide First;
    assert (t + 1 - First(e)) * StepX(e) == (t - First(e)) * StepX(e) + StepX(e);
  }

  predicate Crosses(e: Edge, t: int) {
    e.y0 <= Center(t) < e.y1
  }

  /** What `nsvg__addEdge` makes, sorted by y0. */
  ghost predicate SortedEdges(edges: seq<Edge>) {
    && (forall k :: 0 <= k < |edges| ==> edges[k].y0 < edges[k].y1)
    && (forall j, k :: 0 <= j < k < |edges| ==> edges[j].y0 <= edges[k].y0)
  }

  /** The record is that of edge n.src, at sub-scanline t. */
  ghost predicate Tracks(edges: seq<Edge>, n: Node, t: int)
    requires SortedEdges(edges)
    reads n`x, n`dx, n`ey, n`dir, n`src
  {
    && n.src < |edges|
    && var e := edges[n.src];
      n.dir == e.dir && n.ey == e.y1 && n.dx == StepX(e) && n.x == XAt(e, t)
  }

  ghost predicate AllTrack(edges: seq<Edge>, s: set<Node>, t: int)
    requires SortedEdges(edges)
    reads s`x, s`dx, s`ey, s`dir, s`src
  {
    forall n :: n in s ==> Tracks(edges, n, t)
  }

  ghost function Sources(s: set<Node>): set<nat>
    reads s`src
  {
    set n | n in s :: n.src
  }

  ghost predicate Single(s: set<Node>)
    reads s`src
  {
    forall m, n :: m in s && n in s && m.src == n.src ==> m == n
  }

  /** The first e edges, without those that end at or before sub-scanline t. */
  function Alive(edges: seq<Edge>, e: nat, t: int): set<nat> {
    set k: nat | k < e && k < |edges| && edges[k].y1 > Center(t)
  }

  /** The records are those of exactly these edges, one each. */
  ghost predicate Records(edges: seq<Edge>, s: set<Node>, e: nat, t: int)
    requires SortedEdges(edges)
    reads s`x, s`dx, s`ey, s`dir, s`src
  {
    AllTrack(edges, s, t) && Single(s) && Sources(s) == Alive(edges, e, t)
  }

  /** The position and the step of a new record */
  method Coefficients(e: Edge, t: int) returns (dx: int, x: int)
    requires e.y0 != e.y1
    ensures dx == StepX(e) && x == StartX(e, t)
  {
    hide Slope;
    var dxdy := Slope(e);
    if dxdy < 0.0 {
      dx := -((1024.0 * -dxdy).Floor);
    } else {
      dx := (1024.0 * dxdy).Floor;
    }
    x := (1024.0 * (e.x0 + dxdy * (Center(t) - e.y0))).Floor;
  }

  class Rasterizer {
    const edges: seq<Edge>
    const width: nat
    const height: nat
    var freelist: Node?
    ghost var free: seq<Node>

    ghost predicate FreeOK()
      reads this, Set(free)`next
    {
      IsList(freelist, free)
    }

    /** `nsvg__freeActive` */
    method FreeActive(z: Node)
      requires FreeOK() && z !in Set(free)
      modifies this`freelist, this`free, z`next
      ensures FreeOK() && Set(free) == old(Set(free)) + {z}
    {
      z.next := freelist;
      freelist := z;
      ghost var f := free;
      free := [z] + f;
      SetJoin([z], f);
      DistinctJoin([z], f);
      SegSnoc([], z, Head(f, null));
      assert Seg(f, null);
      SegJoin([] + [z], f, null);
      assert [] + [z] == [z];
    }

    /** A record from the freelist, or a new one */
    method TakeNode() returns (z: Node)
      requires FreeOK()
      modifies this`freelist, this`free
      ensures FreeOK() && (fresh(z) || z in old(Set(free))) && z !in Set(free) && Set(free) == old(Set(free)) - {z}
    {
      if freelist != null {
        z := freelist;
        SegRest(free, null);
        DistinctRest(free);
        freelist := z.next;
        free := free[1..];
      } else {
        z := new Node();
      }
    }

    /** `nsvg__addActive` */
    method AddActive(k: nat, t: int) returns (z: Node)
      requires FreeOK() && SortedEdges(edges) && k < |edges| && t == First(edges[k])
      modifies this`freelist, this`free, Set(free)
      ensures FreeOK() && (fresh(z) || z in old(Set(free))) && z !in Set(free) && Set(free) == old(Set(free)) - {z}
      ensures z.next == null && z.src == k && Tracks(edges, z, t)
    {
      hide XAt;
      hide First;
      hide StepX;
      hide StartX;
      z := TakeNode();
      var e := edges[k];
      z.dx, z.x := Coefficients(e, t);
      z.ey := e.y1;
      z.next := null;
      z.dir := e.dir;
      z.src := k;
      XAtStart(e);
    }

    /** Records that are in no list but the two, and in one of them only. */
    ghost predicate Apart(l: seq<Node>)
      reads this
    {
      Set(l) !! Set(free)
    }

    /** Unlinks the next record and frees it. */
    method Drop(active: Node?, prev: Node?, z: Node, ghost done: seq<Node>, ghost rest: seq<Node>)
      returns (active': Node?, next: Node?)
      requires Walking(active, done, prev, rest) && rest != [] && z == rest[0]
      requires FreeOK() && Set(free) !! Set(done) + Set(rest)
      modifies this`freelist, this`free, Set(done)`next, z`next
      ensures Walking(active', done, prev, rest[1..]) && next == Head(rest[1..], null)
      ensures FreeOK() && Set(free) == old(Set(free)) + {z} && Set(free) !! Set(done) + Set(rest[1..])
    {
      WalkOn(active, done, prev, rest);
      next := z.next;
      active' := LinkAfter(active, prev, next, done, rest);
      assert Seg(rest[1..], null);
      FreeActive(z);
    }

    /** Moves a record to the next sub-scanline. */
    method Move(n: Node, t: int)
      requires SortedEdges(edges) && Tracks(edges, n, t - 1)
      modifies n`x
      ensures Tracks(edges, n, t)
    {
      XAtNext(edges[n.src], t - 1);
      n.x := n.x + n.dx;
    }

    /** The loop of `Expire` has dealt with the records done, and freed those gone. */
    ghost predicate Expiring(done: seq<Node>, rest: seq<Node>, gone: set<Node>, t: int)
      requires SortedEdges(edges)
      reads Set(done), Set(rest), gone
    {
      && AllTrack(edges, Set(done), t) && AllTrack(edges, Set(rest), t - 1)
      && Live(Set(done), t) && Ended(gone, t) && gone !! Set(done) + Set(rest)
    }

    /** The first loop of a sub-scanline: edges that have ended go to the freelist, the others
        move on by one step. */
    method Expire(active: Node?, ghost l: seq<Node>, ghost e: nat, t: int) returns (active': Node?, ghost l': seq<Node>)
      requires FreeOK() && IsList(active, l) && Apart(l) && SortedEdges(edges) && Records(edges, Set(l), e, t - 1)
      modifies this`freelist, this`free, Set(l)`next, Set(l)`x
      ensures FreeOK() && IsList(active', l') && Apart(l') && Records(edges, Set(l'), e, t)
      ensures Set(l') + Set(free) == old(Set(l) + Set(free))
    {
      hide IsList;
      hide SortedEdges;
      hide Walking;
      hide FreeOK;
      hide Expiring;
      var prev: Node?, cur := null, active;
      active' := active;
      ghost var done: seq<Node>, rest: seq<Node>, gone: set<Node> := [], l, {};
      WalkStart(active, l);
      EndsKnown(edges, Set(l), t - 1);
      ExpireStart(l, t);
      while cur != null
        invariant Walking(active', done, prev, rest) && cur == Head(rest, null)
        invariant FreeOK() && Set(free) !! Set(done) + Set(rest)
        invariant Set(done) + Set(rest) + gone == Set(l) && Set(free) == old(Set(free)) + gone
        invariant Expiring(done, rest, gone, t)
        decreases |rest|
      {
        active', prev, cur, done, rest, gone := ExpireStep(active', prev, cur, done, rest, gone, t);
      }
      l' := done;
      WalkList(active', done, prev, rest);
      assert done + rest == done;
      ExpireEnd(done, rest, gone, t);
      Expired(edges, Set(l), Set(l'), gone, e, t);
    }

    lemma ExpireStart(l: seq<Node>, t: int)
      requires SortedEdges(edges) && AllTrack(edges, Set(l), t - 1)
      ensures Expiring([], l, {}, t)
    {
    }

    lemma ExpireEnd(done: seq<Node>, rest: seq<Node>, gone: set<Node>, t: int)
      requires SortedEdges(edges) && Expiring(done, rest, gone, t)
      ensures AllTrack(edges, Set(done), t) && Live(Set(done), t) && Ended(gone, t)
    {
    }

    /** One turn of the loop */
    method ExpireStep(active: Node?, prev: Node?, cur: Node, ghost done: seq<Node>, ghost rest: seq<Node>,
                      ghost gone: set<Node>, t: int)
      returns (active': Node?, prev': Node?, cur': Node?, ghost done': seq<Node>, ghost rest': seq<Node>,
               ghost gone': set<Node>)
      requires SortedEdges(edges) && Walking(active, done, prev, rest) && rest != [] && cur == rest[0]
      requires FreeOK() && Set(free) !! Set(done) + Set(rest) && Expiring(done, rest, gone, t)
      modifies this`freelist, this`free, Set(done)`next, cur`next, cur`x
      ensures Walking(active', done', prev', rest') && cur' == Head(rest', null) && rest' == rest[1..]
      ensures FreeOK() && Set(free) !! Set(done') + Set(rest') && Expiring(done', rest', gone', t)
      ensures Set(done') + Set(rest') + gone' == Set(done) + Set(rest) + gone
      ensures gone <= gone' && Set(free) == old(Set(free)) + (gone' - gone)
    {
      hide Tracks;
      hide SortedEdges;
      hide Walking;
      hide FreeOK;
      WalkOn(active, done, prev, rest);
      rest' := rest[1..];
      if cur.ey <= Center(t) {
        active', cur' := Drop(active, prev, cur, done, rest);
        prev', done', gone' := prev, done, gone + {cur};
      } else {
        Move(cur, t);
        active', prev', cur' := active, cur, cur.next;
        done', gone' := done + [rest[0]], gone;
      }
    }

    /** The edges before e start at b or before, those from e on at t or later. */
    ghost predicate Reached(e: nat, b: int, t: int) {
      && e <= |edges|
      && (forall k :: 0 <= k < e ==> First(edges[k]) <= b)
      && (forall k :: e <= k < |edges| ==> First(edges[k]) >= t)
    }

    /** Every record is in exactly one of the two lists. */
    ghost predicate Pool(active: Node?, l: seq<Node>)
      reads this, Set(free)`next, Set(l)`next
    {
      FreeOK() && IsList(active, l) && Apart(l)
    }

    /** One edge that starts here: its record is put where it belongs. */
    method Start(active: Node?, ghost l: seq<Node>, e: nat, t: int) returns (active': Node?, ghost l': seq<Node>)
      requires Pool(active, l) && Ascending(Xs(l)) && SortedEdges(edges) && Records(edges, Set(l), e, t)
      requires e < |edges| && First(edges[e]) == t && edges[e].y1 > Center(t)
      modifies this`freelist, this`free, Set(free), Set(l)`next
      ensures Pool(active', l') && Ascending(Xs(l')) && Records(edges, Set(l'), e + 1, t)
      ensures Set(free) <= old(Set(free)) && Set(l) + old(Set(free)) <= Set(l') + Set(free)
      ensures fresh(Set(l') + Set(free) - old(Set(l) + Set(free)))
    {
      hide Tracks;
      hide Ascending;
      hide Seg;
      hide Distinct;
      hide SortedEdges;
      hide Single;
      hide AllTrack;
      hide Xs;
      hide Alive;
      var z := AddActive(e, t);
      ghost var f := free;
      active', l' := Insert(active, z, l);
      RecordsAdd(edges, Set(l), z, e, t);
    }

    /** The last loop before filling: the edges that start at this sub-scanline. */
    method InsertEdges(active: Node?, ghost l: seq<Node>, e: nat, t: int)
      returns (active': Node?, ghost l': seq<Node>, e': nat)
      requires Pool(active, l) && Ascending(Xs(l)) && SortedEdges(edges) && Records(edges, Set(l), e, t)
      requires Reached(e, t - 1, t) && t >= 0
      modifies this`freelist, this`free, Set(free), Set(l)`next
      ensures Pool(active', l') && Ascending(Xs(l')) && Records(edges, Set(l'), e', t) && Reached(e', t, t + 1)
      ensures Set(free) <= old(Set(free)) && Set(l) + old(Set(free)) <= Set(l') + Set(free)
      ensures fresh(Set(l') + Set(free) - old(Set(l) + Set(free)))
    {
      hide Ascending;
      hide Records;
      hide Pool;
      hide Xs;
      active', l', e' := active, l, e;
      while e' < |edges| && edges[e'].y0 <= Center(t)
        invariant Pool(active', l') && Ascending(Xs(l')) && Records(edges, Set(l'), e', t) && Reached(e', t, t)
        invariant Set(free) <= old(Set(free)) && Set(l) + old(Set(free)) <= Set(l') + Set(free)
        invariant fresh(Set(l') + Set(free) - old(Set(l) + Set(free)))
      {
        StartsHere(edges[e'], t);
        if edges[e'].y1 > Center(t) {
          active', l' := Start(active', l', e', t);
        } else {
          RecordsSkip(edges, Set(l'), e', t);
        }
        e' := e' + 1;
      }
      NoneLeft(e', t);
    }

    lemma NoneLeft(e: nat, t: int)
      requires SortedEdges(edges) && Reached(e, t, t) && (e < |edges| ==> edges[e].y0 > Center(t))
      ensures Reached(e, t, t + 1)
    {
      forall k | e <= k < |edges| ensures First(edges[k]) >= t + 1 {
        assert edges[e].y0 <= edges[k].y0;
        NotYet(edges[k], t);
      }
    }
  }

  lemma StartsHere(e: Edge, t: int)
    requires e.y0 <= Center(t) && First(e) >= t >= 0
    ensures First(e) == t
  {
  }

  lemma NotYet(e: Edge, t: int)
    requires e.y0 > Center(t)
    ensures First(e) > t
  {
  }

  lemma RecordsAdd(edges: seq<Edge>, s: set<Node>, z: Node, e: nat, t: int)
    requires SortedEdges(edges) && Records(edges, s, e, t) && Tracks(edges, z, t) && z.src == e
    requires e < |edges| && edges[e].y1 > Center(t)
    ensures Records(edges, s + {z}, e + 1, t)
  {
    assert forall n :: n in s ==> n.src in Sources(s);
    assert Alive(edges, e + 1, t) == Alive(edges, e, t) + {e};
    assert Sources(s + {z}) == Sources(s) + {e};
  }

  lemma RecordsSkip(edges: seq<Edge>, s: set<Node>, e: nat, t: int)
    requires SortedEdges(edges) && Records(edges, s, e, t) && e < |edges| && edges[e].y1 <= Center(t)
    ensures Records(edges, s, e + 1, t)
  {
    assert Alive(edges, e + 1, t) == Alive(edges, e, t);
  }

  ghost predicate Live(s: set<Node>, t: int)
    reads s`ey
  {
    forall n :: n in s ==> n.ey > Center(t)
  }

  ghost predicate Ended(s: set<Node>, t: int)
    reads s`ey
  {
    forall n :: n in s ==> n.ey <= Center(t)
  }

  ghost predicate Ends(edges: seq<Edge>, s: set<Node>)
    reads s`ey, s`src
  {
    forall n :: n in s ==> n.src < |edges| && n.ey == edges[n.src].y1
  }

  lemma EndsKnown(edges: seq<Edge>, s: set<Node>, t: int)
    requires SortedEdges(edges) && AllTrack(edges, s, t)
    ensures Ends(edges, s)
  {
    forall n | n in s ensures n.src < |edges| && n.ey == edges[n.src].y1 {
      assert Tracks(edges, n, t);
    }
  }

  lemma Expired(edges: seq<Edge>, s: set<Node>, s': set<Node>, gone: set<Node>, e: nat, t: int)
    requires SortedEdges(edges) && s == s' + gone && Live(s', t) && Ended(gone, t) && Ends(edges, s)
    requires Single(s) && Sources(s) == Alive(edges, e, t - 1) && AllTrack(edges, s', t)
    ensures Records(edges, s', e, t)
  {
    forall k | k in Alive(edges, e, t) ensures k in Sources(s') {
      assert k in Alive(edges, e, t - 1);
      var n :| n in s && n.src == k;
    }
    forall k | k in Sources(s') ensures k in Alive(edges, e, t) {
      var n :| n in s' && n.src == k;
      assert k in Sources(s);
    }
  }
}
