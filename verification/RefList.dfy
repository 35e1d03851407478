/** The references of the auxiliary library: values kept in a table, with the freed slots
    linked through the table itself. */
module RefList {

  datatype Val = Nil | Int(n: int) | Other(id: int)

  const REFNIL: int := -1
  const FREELIST: int := 0

  /** A table; what is not stored is nil. */
  type Table = map<int, Val>

  function At(t: Table, k: int): Val {
    if k in t then t[k] else Nil
  }

  function ToInteger(v: Val): int {
    if v.Int? then v.n else 0
  }

  /** What `lua_rawlen` may return: any border of the table. */
  predicate Border(t: Table, n: nat) {
    (n == 0 || At(t, n) != Nil) && At(t, n + 1) == Nil
  }

  // ---------- the operations on values ----------

  /** `luaL_ref`; `len` is what `lua_rawlen` returns. */
  function Ref(t: Table, v: Val, len: nat): (Table, int) {
    if v == Nil then (t, REFNIL)
    else
      var free := ToInteger(At(t, FREELIST));
      if free != 0 then (t[FREELIST := At(t, free)][free := v], free)
      else (t[len + 1 := v], len + 1)
  }

  /** `luaL_unref` */
  function Unref(t: Table, ref: int): Table {
    if ref >= 0 then t[ref := At(t, FREELIST)][FREELIST := Int(ref)] else t
  }

  // ---------- the invariant ----------

  ghost predicate NoDup(l: seq<int>) {
    forall i, j :: 0 <= i < j < |l| ==> l[i] != l[j]
  }

  function Link(free: seq<int>, i: int): Val
    requires -1 <= i < |free|
  {
    if i + 1 < |free| then Int(free[i + 1]) else Nil
  }

  /** Slot 0 heads the list of the freed slots, the last of which alone is nil; every other
      slot up to n is live and holds its value; nothing lies beyond. */
  ghost predicate Valid(t: Table, live: map<int, Val>, free: seq<int>, n: nat) {
    && Linked(t, free) && NoDup(free) && Holds(t, live) && Divided(live, free, n)
    && (forall k :: k < 0 || k > n ==> At(t, k) == Nil)
  }

  ghost predicate Linked(t: Table, free: seq<int>) {
    At(t, FREELIST) == Link(free, -1) && forall i :: 0 <= i < |free| ==> At(t, free[i]) == Link(free, i)
  }

  ghost predicate Holds(t: Table, live: map<int, Val>) {
    forall r :: r in live ==> live[r] != Nil && At(t, r) == live[r]
  }

  /** Slots 1 to n are live or free, and not both. */
  ghost predicate Divided(live: map<int, Val>, free: seq<int>, n: nat) {
    && (forall i :: 0 <= i < |free| ==> 1 <= free[i] <= n && free[i] !in live)
    && (forall r :: r in live ==> 1 <= r <= n)
    && (forall k :: 1 <= k <= n ==> k in live || k in free)
  }

  /** With an empty list there is one border only, and the slot behind it is fresh. */
  lemma BorderUnique(t: Table, live: map<int, Val>, n: nat, len: nat)
    requires Valid(t, live, [], n) && Border(t, len)
    ensures len == n && n + 1 !in live
  {
    assert 1 <= len + 1 <= n ==> len + 1 in live;
  }

  /** The first free slot is taken off the list. */
  lemma TakeFirst(live: map<int, Val>, free: seq<int>, n: nat, v: Val)
    requires Divided(live, free, n) && NoDup(free) && free != []
    ensures Divided(live[free[0] := v], free[1..], n) && NoDup(free[1..]) && free[0] !in free[1..]
  {
    var r, rest := free[0], free[1..];
    forall i | 0 <= i < |rest| ensures 1 <= rest[i] <= n && rest[i] !in live[r := v] {
      assert rest[i] == free[i + 1] && free[i + 1] != free[0];
    }
    forall k | 1 <= k <= n ensures k in live[r := v] || k in rest {
      if k in free && k != r {
        var i :| 0 <= i < |free| && free[i] == k;
        assert rest[i - 1] == k;
      }
    }
    forall i, j | 0 <= i < j < |rest| ensures rest[i] != rest[j] {
      assert free[i + 1] != free[j + 1];
    }
  }

  lemma LinkedRest(t: Table, free: seq<int>, v: Val)
    requires Linked(t, free) && NoDup(free) && free != [] && free[0] != FREELIST && forall i :: 0 <= i < |free| ==>
      free[i] != FREELIST
    ensures Linked(t[FREELIST := At(t, free[0])][free[0] := v], free[1..])
  {
    var t', rest := t[FREELIST := At(t, free[0])][free[0] := v], free[1..];
    assert At(t, free[0]) == Link(free, 0);
    forall i | 0 <= i < |rest| ensures At(t', rest[i]) == Link(rest, i) {
      assert rest[i] == free[i + 1] && free[i + 1] != free[0] && At(t, free[i + 1]) == Link(free, i + 1);
    }
  }

  /** Writing slot r, and slot 0, does not touch the live slots. */
  lemma HoldsSet(t: Table, live: map<int, Val>, head: Val, r: int, v: Val)
    requires Holds(t, live) && r !in live && FREELIST !in live && v != Nil && r != FREELIST
    ensures Holds(t[FREELIST := head][r := v], live[r := v]) && Holds(t[r := v], live[r := v])
    ensures forall k :: k != r && k != FREELIST ==> At(t[FREELIST := head][r := v], k) == At(t, k)
  {
  }

  lemma RefReuse(t: Table, live: map<int, Val>, free: seq<int>, n: nat, v: Val)
    requires Valid(t, live, free, n) && v != Nil && free != []
    ensures var r := free[0];
      1 <= r <= n && r !in live && At(t, FREELIST) == Int(r)
        && Valid(t[FREELIST := At(t, r)][r := v], live[r := v], free[1..], n)
  {
    var r := free[0];
    assert 1 <= r <= n && r !in live && FREELIST !in live;
    assert At(t, FREELIST) == Link(free, -1) == Int(r);
    TakeFirst(live, free, n, v);
    LinkedRest(t, free, v);
    HoldsSet(t, live, At(t, r), r, v);
    var t' := t[FREELIST := At(t, r)][r := v];
    forall k | k < 0 || k > n ensures At(t', k) == Nil {
      assert At(t', k) == At(t, k);
    }
    hide Linked;
    hide NoDup;
    hide Divided;
    hide Holds;
  }

  lemma RefGrow(t: Table, live: map<int, Val>, n: nat, v: Val)
    requires Valid(t, live, [], n) && v != Nil
    ensures n + 1 !in live && At(t, FREELIST) == Nil && Valid(t[n + 1 := v], live[n + 1 := v], [], n + 1)
  {
    assert At(t, FREELIST) == Link([], -1);
    assert n + 1 !in live && FREELIST !in live;
    HoldsSet(t, live, Nil, n + 1, v);
    var more := live[n + 1 := v];
    forall k | 1 <= k <= n + 1 ensures k in more || k in [] {
      assert k <= n ==> k in live || k in [];
    }
    assert Divided(more, [], n + 1);
    assert Linked(t[n + 1 := v], []);
    var t' := t[n + 1 := v];
    forall k | k < 0 || k > n + 1 ensures At(t', k) == Nil {
      assert At(t, k) == Nil;
    }
    hide Holds;
    hide Divided;
    hide Linked;
  }

  /** A new reference is not live, and the live ones keep their values. */
  lemma RefKeeps(t: Table, live: map<int, Val>, free: seq<int>, n: nat, v: Val, len: nat)
    requires Valid(t, live, free, n) && Border(t, len) && v != Nil
    ensures var (t', r) := Ref(t, v, len);
      && r >= 1 && r !in live
      && Valid(t', live[r := v], if free == [] then [] else free[1..], if free == [] then n + 1 else n)
  {
    hide Valid;
    if free == [] {
      BorderUnique(t, live, n, len);
      RefGrow(t, live, n, v);
    } else {
      RefReuse(t, live, free, n, v);
    }
  }

  /** The freed slot becomes the first of the list. */
  lemma PutFirst(live: map<int, Val>, free: seq<int>, n: nat, r: int)
    requires Divided(live, free, n) && NoDup(free) && r in live
    ensures Divided(live - {r}, [r] + free, n) && NoDup([r] + free)
  {
    var all := [r] + free;
    forall i | 0 <= i < |all| ensures 1 <= all[i] <= n && all[i] !in live - {r} {
      if i > 0 {
        assert all[i] == free[i - 1];
      }
    }
    forall k | 1 <= k <= n ensures k in live - {r} || k in all {
      if k in free {
        var i :| 0 <= i < |free| && free[i] == k;
        assert all[i + 1] == k;
      } else {
        assert k == r ==> all[0] == k;
      }
    }
    forall i, j | 0 <= i < j < |all| ensures all[i] != all[j] {
      if i > 0 {
        assert free[i - 1] != free[j - 1];
      } else {
        assert all[j] == free[j - 1];
      }
    }
  }

  lemma LinkedPut(t: Table, free: seq<int>, r: int)
    requires Linked(t, free) && r !in free && r != FREELIST && FREELIST !in free
    ensures Linked(Unref(t, r), [r] + free) || r < 0
  {
    var t', all := Unref(t, r), [r] + free;
    forall i | 0 <= i < |all| && r >= 0 ensures At(t', all[i]) == Link(all, i) {
      if i > 0 {
        assert all[i] == free[i - 1] && At(t, free[i - 1]) == Link(free, i - 1);
        assert free[i - 1] in free;
      } else {
        assert At(t, FREELIST) == Link(free, -1);
      }
    }
  }

  lemma HoldsWithout(t: Table, live: map<int, Val>, r: int)
    requires Holds(t, live) && FREELIST !in live && r >= 0
    ensures Holds(Unref(t, r), live - {r})
    ensures forall k :: k != r && k != FREELIST ==> At(Unref(t, r), k) == At(t, k)
  {
  }

  /** Freeing a live reference leaves the others as they are. */
  lemma UnrefKeeps(t: Table, live: map<int, Val>, free: seq<int>, n: nat, r: int)
    requires Valid(t, live, free, n) && r in live
    ensures r > 0 && Valid(Unref(t, r), live - {r}, [r] + free, n)
  {
    assert r !in free && FREELIST !in free && FREELIST !in live && 1 <= r <= n;
    PutFirst(live, free, n, r);
    LinkedPut(t, free, r);
    HoldsWithout(t, live, r);
    hide Linked;
    hide NoDup;
    hide Divided;
    hide Holds;
    hide Unref;
    hide At;
  }

  lemma FreeKnown(t: Table, live: map<int, Val>, free: seq<int>, n: nat, len: nat)
    requires Valid(t, live, free, n) && Border(t, len)
    ensures ToInteger(At(t, FREELIST)) != 0 <==> free != []
    ensures free == [] ==> len == n
  {
    if free == [] {
      BorderUnique(t, live, n, len);
    } else {
      assert free[0] >= 1;
    }
  }

  // ---------- whole runs ----------

  datatype Op = NewRef(v: Val, len: nat) | Release(r: int)

  /** The table and the live references after a run; `None` if the run frees what is not live
      or is told a length that is no border. */
  datatype Option<T> = None | Some(value: T)

  function RunOps(ops: seq<Op>): Option<(Table, map<int, Val>)>
    decreases |ops|
  {
    if ops == [] then Some((map[], map[]))
    else
      match RunOps(ops[..|ops| - 1])
      case None => None
      case Some((t, live)) =>
        match ops[|ops| - 1]
        case NewRef(v, len) =>
          if !Border(t, len) then None
          else
            var (t', r) := Ref(t, v, len);
            Some((t', if v == Nil then live else live[r := v]))
        case Release(r) => if r in live then Some((Unref(t, r), live - {r})) else None
  }

  /** Over every run, live references are positive and hold their values, and a reference is
      never handed out while it is live. */
  lemma {:induction false} RunsSafe(ops: seq<Op>) returns (free: seq<int>, n: nat)
    ensures var run := RunOps(ops); run.Some? ==> Valid(run.value.0, run.value.1, free, n)
    decreases |ops|
  {
    free, n := [], 0;
    if ops != [] {
      var before := RunOps(ops[..|ops| - 1]);
      free, n := RunsSafe(ops[..|ops| - 1]);
      if before.Some? {
        var (t, live) := before.value;
        match ops[|ops| - 1]
        case NewRef(v, len) =>
          if Border(t, len) && v != Nil {
            RefKeeps(t, live, free, n, v, len);
            free, n := if free == [] then [] else free[1..], if free == [] then n + 1 else n;
          }
        case Release(r) =>
          if r in live {
            UnrefKeeps(t, live, free, n, r);
            free := [r] + free;
          }
      }
    }
  }

  // ---------- the functions as they are written ----------

  class Registry {
    var t: Table
    ghost var live: map<int, Val>
    ghost var free: seq<int>
    ghost var n: nat

    ghost predicate Good()
      reads this
    {
      Valid(t, live, free, n)
    }

    constructor ()
      ensures Good() && live == map[]
    {
      t, live, free, n := map[], map[], [], 0;
    }

    /** `luaL_ref`; `len` is what `lua_rawlen` returns if it is asked */
    method LRef(v: Val, len: nat) returns (ref: int)
      requires Good() && Border(t, len)
      modifies this
      ensures Good() && t == Ref(old(t), v, len).0 && ref == Ref(old(t), v, len).1
      ensures v == Nil ==> ref == REFNIL && live == old(live)
      ensures v != Nil ==> ref >= 1 && ref !in old(live) && live == old(live)[ref := v]
    {
      if v == Nil {
        return REFNIL;
      }
      RefKeeps(t, live, free, n, v, len);
      FreeKnown(t, live, free, n, len);
      hide Valid;
      ref := ToInteger(At(t, FREELIST));
      if ref != 0 {
        var next := At(t, ref);
        t := t[FREELIST := next];
        free := free[1..];
      } else {
        ref := len + 1;
        n := n + 1;
      }
      t := t[ref := v];
      live := live[ref := v];
    }

    /** `luaL_unref`, of a live reference or a negative one */
    method LUnref(ref: int)
      requires Good() && (ref in live || ref < 0)
      modifies this
      ensures Good() && t == Unref(old(t), ref)
      ensures live == old(live) - {ref}
    {
      if ref >= 0 {
        UnrefKeeps(t, live, free, n, ref);
        var head := At(t, FREELIST);
        t := t[ref := head];
        t := t[FREELIST := Int(ref)];
        live := live - {ref};
        free := [ref] + free;
      }
    }
  }
}
