/** The linked list of active edges: expiring, resorting and inserting records in place. */
module RastList {

  /** `NSVGactiveEdge`; `src` is the edge it was made from. */
  class Node {
    var x: int
    var dx: int
    var ey: real
    var dir: int
    var next: Node?
    ghost var src: nat

    constructor ()
    {
      x, dx, ey, dir, next := 0, 0, 0.0, 0, null;
      src := 0;
    }
  }

  ghost function Set(l: seq<Node>): set<Node> {
    set n | n in l
  }

  ghost predicate Distinct(l: seq<Node>) {
    forall i, j :: 0 <= i < j < |l| ==> l[i] != l[j]
  }

  ghost function Head(l: seq<Node>, tail: Node?): Node? {
    if l == [] then tail else l[0]
  }

  ghost function After(l: seq<Node>, i: nat, tail: Node?): Node?
    requires i < |l|
  {
    if i + 1 < |l| then l[i + 1] else tail
  }

  /** The records of l are linked in this order and lead to tail. */
  ghost predicate Seg(l: seq<Node>, tail: Node?)
    reads Set(l)`next
  {
    forall i :: 0 <= i < |l| ==> l[i].next == After(l, i, tail)
  }

  ghost predicate IsList(head: Node?, l: seq<Node>)
    reads Set(l)`next
  {
    head == Head(l, null) && Seg(l, null) && Distinct(l)
  }

  ghost function Xs(l: seq<Node>): (r: seq<int>)
    reads Set(l)`x
    ensures |r| == |l| && forall i :: 0 <= i < |l| ==> r[i] == l[i].x
  {
    if l == [] then [] else
      assert Set(l[1..]) <= Set(l);
      [l[0].x] + Xs(l[1..])
  }

  ghost predicate Ascending(xs: seq<int>) {
    forall i, j :: 0 <= i < j < |xs| ==> xs[i] <= xs[j]
  }

  // ---------- inversions ----------

  function CountLess(xs: seq<int>, v: int): nat {
    if xs == [] then 0 else (if xs[0] < v then 1 else 0) + CountLess(xs[1..], v)
  }

  /** The number of pairs in the wrong order. */
  function Inversions(xs: seq<int>): nat {
    if xs == [] then 0 else CountLess(xs[1..], xs[0]) + Inversions(xs[1..])
  }

  lemma {:induction false} CountSwap(a: seq<int>, x: int, y: int, b: seq<int>, v: int)
    ensures CountLess(a + [x, y] + b, v) == CountLess(a + [y, x] + b, v)
  {
    var p, q := a + [x, y] + b, a + [y, x] + b;
    if a == [] {
      assert p[1..] == [y] + b && q[1..] == [x] + b;
      assert p[1..][1..] == b == q[1..][1..];
    } else {
      assert p[1..] == a[1..] + [x, y] + b && q[1..] == a[1..] + [y, x] + b;
      CountSwap(a[1..], x, y, b, v);
    }
  }

  /** Swapping two neighbours that are in the wrong order leaves fewer inversions. */
  lemma {:induction false} InversionsSwap(a: seq<int>, x: int, y: int, b: seq<int>)
    requires x > y
    ensures Inversions(a + [y, x] + b) < Inversions(a + [x, y] + b)
  {
    var p, q := a + [x, y] + b, a + [y, x] + b;
    if a == [] {
      assert p[1..] == [y] + b && q[1..] == [x] + b;
      assert p[1..][1..] == b == q[1..][1..];
    } else {
      assert p[1..] == a[1..] + [x, y] + b && q[1..] == a[1..] + [y, x] + b;
      CountSwap(a[1..], x, y, b, a[0]);
      InversionsSwap(a[1..], x, y, b);
    }
  }

  // ---------- segments ----------

  lemma SegSnoc(a: seq<Node>, n: Node, tail: Node?)
    requires Seg(a, n) && n.next == tail
    ensures Seg(a + [n], tail)
  {
    forall i: nat | i < |a + [n]| ensures (a + [n])[i].next == After(a + [n], i, tail) {
      if i < |a| {
        assert a[i].next == After(a, i, n);
      }
    }
  }

  lemma SegRest(l: seq<Node>, tail: Node?)
    requires Seg(l, tail) && l != []
    ensures Seg(l[1..], tail) && l[0].next == Head(l[1..], tail)
  {
    assert l[0].next == After(l, 0, tail);
    forall i: nat | i < |l[1..]| ensures l[1..][i].next == After(l[1..], i, tail) {
      var j := i + 1;
      assert l[j].next == After(l, j, tail);
    }
  }

  lemma SegJoin(a: seq<Node>, b: seq<Node>, tail: Node?)
    requires Seg(a, Head(b, tail)) && Seg(b, tail)
    ensures Seg(a + b, tail)
  {
    forall i: nat | i < |a + b| ensures (a + b)[i].next == After(a + b, i, tail) {
      if i < |a| {
        assert a[i].next == After(a, i, Head(b, tail));
      } else {
        var j: nat := i - |a|;
        assert b[j].next == After(b, j, tail);
      }
    }
  }

  lemma DistinctRest(l: seq<Node>)
    requires Distinct(l) && l != []
    ensures Distinct(l[1..]) && l[0] !in Set(l[1..]) && Set(l) == Set(l[1..]) + {l[0]}
  {
    forall i, j | 0 <= i < j < |l[1..]| ensures l[1..][i] != l[1..][j] {
      assert l[i + 1] != l[j + 1];
    }
    forall n | n in Set(l[1..]) ensures n != l[0] {
      var i :| 0 <= i < |l[1..]| && l[1..][i] == n;
      assert l[i + 1] == n;
    }
    forall n | n in Set(l) && n != l[0] ensures n in Set(l[1..]) {
      var i :| 0 <= i < |l| && l[i] == n;
      assert l[1..][i - 1] == n;
    }
  }

  lemma DistinctJoin(a: seq<Node>, b: seq<Node>)
    requires Distinct(a) && Distinct(b) && Set(a) !! Set(b)
    ensures Distinct(a + b)
  {
    forall i, j | 0 <= i < j < |a + b| ensures (a + b)[i] != (a + b)[j] {
      if i < |a| <= j {
        assert a[i] in Set(a) && b[j - |a|] in Set(b);
      }
    }
  }

  lemma SetJoin(a: seq<Node>, b: seq<Node>)
    ensures Set(a + b) == Set(a) + Set(b)
  {
  }

  lemma XsJoin(a: seq<Node>, b: seq<Node>)
    ensures Xs(a + b) == Xs(a) + Xs(b)
  {
    hide Xs;
    forall i | 0 <= i < |a + b| ensures Xs(a + b)[i] == (Xs(a) + Xs(b))[i] {
    }
  }

  // ---------- resorting ----------

  /** A pass has come to cur: the records before and behind it. */
  ghost predicate Passing(active: Node?, done: seq<Node>, prev: Node?, cur: Node, rest: seq<Node>)
    reads Set(done)`next, cur`next, Set(rest)`next
  {
    && active == Head(done, cur) && Seg(done, cur) && cur.next == Head(rest, null) && Seg(rest, null)
    && prev == (if done == [] then null else done[|done| - 1])
    && Distinct(done) && Distinct(rest) && Set(done) !! Set(rest) && cur !in Set(done) && cur !in Set(rest)
  }

  lemma PassingList(active: Node?, done: seq<Node>, prev: Node?, cur: Node, rest: seq<Node>)
    requires Passing(active, done, prev, cur, rest)
    ensures IsList(active, done + [cur] + rest)
  {
    SegSnoc(done, cur, Head(rest, null));
    SegJoin(done + [cur], rest, null);
    SetJoin(done, [cur]);
    DistinctJoin(done, [cur]);
    DistinctJoin(done + [cur], rest);
  }

  /** Relinking cur behind its successor. */
  method Exchange(active: Node?, prev: Node?, cur: Node, ghost done: seq<Node>, ghost rest: seq<Node>)
    returns (active': Node?, q: Node)
    requires Passing(active, done, prev, cur, rest) && rest != []
    modifies Set(done)`next, cur`next, Set(rest)`next
    ensures q == rest[0] && Passing(active', done + [q], q, cur, rest[1..])
  {
    SegRest(rest, null);
    DistinctRest(rest);
    q := cur.next;
    cur.next := q.next;
    q.next := cur;
    active' := active;
    if prev == null {
      active' := q;
    } else {
      prev.next := q;
    }
    assert Seg(rest[1..], null);
    forall i: nat | i < |done| ensures done[i].next == After(done, i, q) {
      assert old(done[i].next) == After(done, i, cur);
    }
    SegSnoc(done, q, cur);
    SetJoin(done, [q]);
    DistinctJoin(done, [q]);
  }

  lemma AscendingSnoc(xs: seq<int>, v: int)
    requires Ascending(xs) && (xs != [] ==> xs[|xs| - 1] <= v)
    ensures Ascending(xs + [v])
  {
    forall i, j | 0 <= i < j < |xs + [v]| ensures (xs + [v])[i] <= (xs + [v])[j] {
      if j == |xs| && i < j - 1 {
        assert xs[i] <= xs[|xs| - 1];
      }
    }
  }

  lemma InversionsStep(a: seq<int>, x: int, y: int, b: seq<int>)
    requires x > y
    ensures Inversions(a + [y] + [x] + b) < Inversions(a + [x] + ([y] + b))
  {
    InversionsSwap(a, x, y, b);
    assert a + [x, y] + b == a + [x] + ([y] + b) && a + [y, x] + b == a + [y] + [x] + b;
  }

  lemma XsOne(n: Node)
    ensures Xs([n]) == [n.x] && Xs([]) == []
  {
  }

  /** The x of all records during a pass. */
  ghost function PassXs(done: seq<Node>, cur: Node, rest: seq<Node>): seq<int>
    reads Set(done)`x, cur`x, Set(rest)`x
  {
    Xs(done) + [cur.x] + Xs(rest)
  }

  lemma PassSplit(done: seq<Node>, cur: Node, rest: seq<Node>)
    requires rest != []
    ensures PassXs(done, cur, rest) == Xs(done) + [cur.x] + ([rest[0].x] + Xs(rest[1..]))
    ensures PassXs(done + [cur], rest[0], rest[1..]) == PassXs(done, cur, rest)
    ensures PassXs(done + [rest[0]], cur, rest[1..]) == Xs(done) + [rest[0].x] + [cur.x] + Xs(rest[1..])
  {
    hide Xs;
    assert rest == [rest[0]] + rest[1..];
    XsJoin([rest[0]], rest[1..]);
    XsOne(rest[0]);
    XsOne(cur);
    XsJoin(done, [cur]);
    XsJoin(done, [rest[0]]);
  }

  lemma PassSets(done: seq<Node>, cur: Node, rest: seq<Node>)
    requires rest != []
    ensures var (d, c, r) := Stepped(done, cur, rest); Set(d) + {c} + Set(r) == Set(done) + {cur} + Set(rest)
  {
    assert rest == [rest[0]] + rest[1..];
    SetJoin([rest[0]], rest[1..]);
    SetJoin(done, [cur]);
    SetJoin(done, [rest[0]]);
  }

  lemma PassStart(active: Node?, l: seq<Node>)
    requires IsList(active, l) && active != null
    ensures l != [] && Passing(active, [], null, active, l[1..]) && PassXs([], active, l[1..]) == Xs(l)
    ensures {active as Node} + Set(l[1..]) == Set(l)
  {
    SegRest(l, null);
    DistinctRest(l);
    assert l == [active] + l[1..];
    XsJoin([active], l[1..]);
    XsOne(active);
  }

  lemma PassEnd(active: Node?, done: seq<Node>, prev: Node?, cur: Node)
    requires Passing(active, done, prev, cur, [])
    ensures IsList(active, done + [cur]) && Xs(done + [cur]) == PassXs(done, cur, []) == Xs(done) + [cur.x]
    ensures Set(done + [cur]) == Set(done) + {cur}
  {
    PassingList(active, done, prev, cur, []);
    assert done + [cur] + [] == done + [cur];
    XsJoin(done, [cur]);
    XsOne(cur);
    SetJoin(done, [cur]);
  }

  lemma PassNext(active: Node?, done: seq<Node>, prev: Node?, cur: Node, rest: seq<Node>)
    requires Passing(active, done, prev, cur, rest)
    ensures cur.next == Head(rest, null)
  {
  }

  /** What a step does to the order of the records. */
  lemma StepXs(done: seq<Node>, cur: Node, rest: seq<Node>)
    requires rest != []
    ensures var (d, c, r) := Stepped(done, cur, rest);
      && (cur.x > rest[0].x ==> Inversions(PassXs(d, c, r)) < Inversions(PassXs(done, cur, rest)))
      && (cur.x <= rest[0].x ==>
            && PassXs(d, c, r) == PassXs(done, cur, rest)
            && (Ascending(Xs(done) + [cur.x]) ==> Ascending(Xs(d) + [c.x])))
  {
    hide Xs;
    hide Inversions;
    PassSplit(done, cur, rest);
    if cur.x > rest[0].x {
      InversionsStep(Xs(done), cur.x, rest[0].x, Xs(rest[1..]));
    } else if Ascending(Xs(done) + [cur.x]) {
      AscendingSnoc(Xs(done) + [cur.x], rest[0].x);
      XsJoin(done, [cur]);
      XsOne(cur);
    }
  }

  /** The records before, at and behind the current position after one step. */
  ghost function Stepped(done: seq<Node>, cur: Node, rest: seq<Node>): (seq<Node>, Node, seq<Node>)
    requires rest != []
    reads cur`x, Set(rest)`x
  {
    if cur.x > rest[0].x then (done + [rest[0]], cur, rest[1..]) else (done + [cur], rest[0], rest[1..])
  }

  /** One step of a pass */
  method PassStep(active: Node?, prev: Node?, cur: Node, ghost done: seq<Node>, ghost rest: seq<Node>)
    returns (active': Node?, prev': Node?, cur': Node, swapped: bool)
    requires Passing(active, done, prev, cur, rest) && rest != []
    modifies Set(done)`next, cur`next, Set(rest)`next
    ensures swapped == (cur.x > rest[0].x)
    ensures var (d, c, r) := old(Stepped(done, cur, rest));
      && cur' == c && Passing(active', d, prev', c, r)
      && PassXs(d, c, r) == old(var (d, c, r) := Stepped(done, cur, rest); PassXs(d, c, r))
      && Xs(d) + [c.x] == old(var (d, c, r) := Stepped(done, cur, rest); Xs(d) + [c.x])
  {
    PassNext(active, done, prev, cur, rest);
    swapped := cur.x > cur.next.x;
    if swapped {
      active', prev' := Exchange(active, prev, cur, done, rest);
      cur' := cur;
    } else {
      PassingOn(active, done, prev, cur, rest);
      active', prev', cur' := active, cur, cur.next;
    }
  }

  /** One pass: neighbours in the wrong order are exchanged. */
  method BubblePass(active: Node?, ghost l: seq<Node>) returns (active': Node?, ghost l': seq<Node>, changed: bool)
    requires IsList(active, l)
    modifies Set(l)`next
    ensures IsList(active', l') && Set(l') == Set(l)
    ensures !changed ==> Ascending(Xs(l'))
    ensures changed ==> Inversions(Xs(l')) < Inversions(Xs(l))
  {
    hide Xs;
    hide Inversions;
    hide Passing;
    hide PassXs;
    hide Ascending;
    active', changed, l' := active, false, l;
    if active == null {
      NoneAscending(l);
      return;
    }
    var prev: Node?, cur: Node := null, active;
    ghost var done: seq<Node>, rest: seq<Node> := [], l[1..];
    PassStart(active, l);
    XsOne(cur);
    OneAscending(cur.x);
    while cur.next != null
      invariant Passing(active', done, prev, cur, rest)
      invariant Set(done) + {cur} + Set(rest) == Set(l)
      invariant !changed ==> Ascending(Xs(done) + [cur.x])
      invariant Inversions(PassXs(done, cur, rest)) + (if changed then 1 else 0) <= Inversions(Xs(l))
      decreases |rest|
    {
      PassNext(active', done, prev, cur, rest);
      StepXs(done, cur, rest);
      PassSets(done, cur, rest);
      ghost var (d, _, r) := Stepped(done, cur, rest);
      var swapped: bool;
      active', prev, cur, swapped := PassStep(active', prev, cur, done, rest);
      done, rest, changed := d, r, changed || swapped;
    }
    PassNext(active', done, prev, cur, rest);
    l' := done + [cur];
    PassEnd(active', done, prev, cur);
  }

  lemma OneAscending(x: int)
    ensures Ascending([] + [x])
  {
  }

  lemma NoneAscending(l: seq<Node>)
    requires l == []
    ensures Ascending(Xs(l))
  {
  }

  lemma PassingOn(active: Node?, done: seq<Node>, prev: Node?, cur: Node, rest: seq<Node>)
    requires Passing(active, done, prev, cur, rest) && rest != []
    ensures Passing(active, done + [cur], cur, rest[0], rest[1..])
  {
    SegRest(rest, null);
    DistinctRest(rest);
    SegSnoc(done, cur, rest[0]);
    SetJoin(done, [cur]);
    DistinctJoin(done, [cur]);
  }

  /** The resort loop: it ends because every pass but the last removes inversions. */
  method Resort(active: Node?, ghost l: seq<Node>) returns (active': Node?, ghost l': seq<Node>)
    requires IsList(active, l)
    modifies Set(l)`next
    ensures IsList(active', l') && Set(l') == Set(l) && Ascending(Xs(l'))
  {
    active', l' := active, l;
    while true
      invariant IsList(active', l') && Set(l') == Set(l)
      decreases Inversions(Xs(l'))
    {
      var changed: bool;
      active', l', changed := BubblePass(active', l');
      if !changed {
        break;
      }
    }
  }

  // ---------- walking ----------

  /** A walk has come between done and rest; prev is the last record of done, if any. */
  ghost predicate Walking(active: Node?, done: seq<Node>, prev: Node?, rest: seq<Node>)
    reads Set(done)`next, Set(rest)`next
  {
    && active == Head(done, Head(rest, null)) && Seg(done, Head(rest, null)) && Seg(rest, null)
    && prev == (if done == [] then null else done[|done| - 1])
    && Distinct(done) && Distinct(rest) && Set(done) !! Set(rest)
  }

  lemma WalkOn(active: Node?, done: seq<Node>, prev: Node?, rest: seq<Node>)
    requires Walking(active, done, prev, rest) && rest != []
    ensures Walking(active, done + [rest[0]], rest[0], rest[1..]) && rest[0].next == Head(rest[1..], null)
    ensures Set(done + [rest[0]]) == Set(done) + {rest[0]} && Set(rest) == Set(rest[1..]) + {rest[0]}
    ensures rest[0] !in Set(rest[1..])
    ensures done + [rest[0]] + rest[1..] == done + rest
    ensures Set(done + [rest[0]]) + Set(rest[1..]) == Set(done) + Set(rest)
  {
    SegRest(rest, null);
    DistinctRest(rest);
    SegSnoc(done, rest[0], Head(rest[1..], null));
    SetJoin(done, [rest[0]]);
    DistinctJoin(done, [rest[0]]);
  }

  lemma WalkStart(active: Node?, l: seq<Node>)
    requires IsList(active, l)
    ensures Walking(active, [], null, l) && Set(l) == Set([]) + Set(l) && [] + l == l && active == Head(l, null)
  {
  }

  lemma WalkList(active: Node?, done: seq<Node>, prev: Node?, rest: seq<Node>)
    requires Walking(active, done, prev, rest)
    ensures IsList(active, done + rest) && Set(done + rest) == Set(done) + Set(rest)
  {
    SegJoin(done, rest, null);
    SetJoin(done, rest);
    DistinctJoin(done, rest);
  }

  /** Links the record or list start `q` behind the records done. */
  method LinkAfter(active: Node?, prev: Node?, q: Node?, ghost done: seq<Node>, ghost rest: seq<Node>)
    returns (active': Node?)
    requires Walking(active, done, prev, rest)
    modifies Set(done)`next
    ensures Seg(done, q) && Seg(rest, null) && active' == Head(done, q)
    ensures forall n :: n in Set(done) && n != prev ==> n.next == old(n.next)
  {
    active' := active;
    if prev == null {
      active' := q;
    } else {
      prev.next := q;
    }
    forall i: nat | i < |done| ensures done[i].next == After(done, i, q) {
      assert old(done[i].next) == After(done, i, Head(rest, null));
    }
  }

  // ---------- inserting ----------

  lemma AscendingInsert(a: seq<int>, v: int, b: seq<int>)
    requires Ascending(a + b) && (a != [] ==> a[|a| - 1] <= v) && (b != [] ==> v <= b[0])
    ensures Ascending(a + [v] + b)
  {
    var s, t := a + [v] + b, a + b;
    forall i, j | 0 <= i < j < |s| ensures s[i] <= s[j] {
      var i', j' := if i < |a| then i else i - 1, if j < |a| then j else j - 1;
      if i != |a| && j != |a| {
        assert s[i] == t[i'] && s[j] == t[j'];
      } else if j == |a| {
        assert t[i] == a[i] && t[|a| - 1] == a[|a| - 1];
      } else {
        assert t[j'] == b[j' - |a|] && t[|a|] == b[0];
      }
    }
  }

  lemma Inserted(active: Node?, done: seq<Node>, z: Node, rest: seq<Node>)
    requires active == Head(done, z) && Seg(done, z) && z.next == Head(rest, null) && Seg(rest, null)
    requires Distinct(done) && Distinct(rest) && Set(done) !! Set(rest) && z !in Set(done) && z !in Set(rest)
    ensures IsList(active, done + [z] + rest) && Set(done + [z] + rest) == Set(done) + Set(rest) + {z}
  {
    SegSnoc(done, z, Head(rest, null));
    SegJoin(done + [z], rest, null);
    SetJoin(done, [z]);
    SetJoin(done + [z], rest);
    DistinctJoin(done, [z]);
    DistinctJoin(done + [z], rest);
  }

  lemma InsertedXs(done: seq<Node>, z: Node, rest: seq<Node>)
    requires Ascending(Xs(done + rest))
    requires (done != [] ==> done[|done| - 1].x <= z.x) && (rest != [] ==> z.x <= rest[0].x)
    ensures Ascending(Xs(done + [z] + rest))
  {
    hide Xs;
    XsJoin(done, rest);
    XsJoin(done, [z]);
    XsJoin(done + [z], rest);
    XsOne(z);
    AscendingInsert(Xs(done), z.x, Xs(rest));
  }

  /** The place for z: behind the records that are left of it. */
  method FindPlace(active: Node?, z: Node, ghost l: seq<Node>)
    returns (p: Node?, ghost done: seq<Node>, ghost rest: seq<Node>)
    requires IsList(active, l) && Ascending(Xs(l))
    ensures Walking(active, done, p, rest) && done + rest == l && Set(l) == Set(done) + Set(rest)
    ensures (done != [] ==> done[|done| - 1].x <= z.x) && (rest != [] ==> z.x <= rest[0].x)
    ensures p == null <==> active == null || z.x < active.x
  {
    hide Xs;
    hide Ascending;
    hide Distinct;
    hide Seg;
    p, done, rest := null, [], l;
    WalkStart(active, l);
    if active == null || z.x < active.x {
      return;
    }
    WalkOn(active, done, null, l);
    p, done, rest := active, [] + [l[0]], l[1..];
    while p.next != null && p.next.x < z.x
      invariant Walking(active, done, p, rest) && done + rest == l && done != [] && Set(l) == Set(done) + Set(rest)
      invariant p.next == Head(rest, null) && p.x <= z.x
      decreases |rest|
    {
      WalkOn(active, done, p, rest);
      p := p.next;
      done, rest := done + [rest[0]], rest[1..];
    }
  }

  /** Inserts z behind every record that is left of it. */
  method Insert(active: Node?, z: Node, ghost l: seq<Node>) returns (active': Node?, ghost l': seq<Node>)
    requires IsList(active, l) && z !in Set(l) && z.next == null && Ascending(Xs(l))
    modifies z`next, Set(l)`next
    ensures IsList(active', l') && Set(l') == Set(l) + {z} && Ascending(Xs(l'))
  {
    hide Xs;
    hide Ascending;
    var p: Node?;
    ghost var done: seq<Node>, rest: seq<Node>;
    p, done, rest := FindPlace(active, z, l);
    z.next := if p == null then active else p.next;
    ghost var xs := Xs(done + rest);
    active' := LinkAfter(active, p, z, done, rest);
    assert Xs(done + rest) == xs;
    Inserted(active', done, z, rest);
    InsertedXs(done, z, rest);
    l' := done + [z] + rest;
  }
}
