/**
 Building values through handles.  Every builder call moves values out of and into one handle table; the
 reference below never moves a value, it only records which handle was put into which.
 */
module EcfBuilder {
  import opened Wrappers
  import opened Cbor
  import opened HandleMap

  datatype Call =
    | Create(value: Value)
    | ArrayOf(handles: seq<Handle>)
    | MapInsert(container: Handle, key: Handle, member: Handle)
    | Free(handle: Handle)
    | Encode(handle: Handle)

  datatype Reply = Made(handle: Handle) | Done | Encoded(value: Value) | Refused

  // ---------- the table ----------

  datatype Table = Table(next: Handle, values: map<Handle, Value>)

  datatype Outcome = Outcome(table: Table, reply: Reply)

  function Inserted(t: Table, v: Value): Outcome {
    Outcome(Table(Succ(t.next), t.values[t.next := v]), Made(t.next))
  }

  /** What removing the handles one after another takes out of the table; it stops at the first that is not there. */
  function TakeAll(values: map<Handle, Value>, handles: seq<Handle>): (map<Handle, Value>, Option<seq<Value>>) {
    if handles == [] then (values, Some([]))
    else
      var last := |handles| - 1;
      var (rest, taken) := TakeAll(values, handles[..last]);
      if taken.None? || handles[last] !in rest then (rest, None)
      else (rest - {handles[last]}, Some(taken.value + [rest[handles[last]]]))
  }

  function Perform(t: Table, c: Call): Outcome {
    match c
    case Create(v) => Inserted(t, v)
    case ArrayOf(handles) =>
      var (rest, taken) := TakeAll(t.values, handles);
      if taken.None? then Outcome(t.(values := rest), Refused)
      else Inserted(t.(values := rest), Array(taken.value))
    case MapInsert(m, k, v) =>
      var (rest, taken) := TakeAll(t.values, [k, v]);
      if taken.None? || m !in rest || !rest[m].Map? || |taken.value| != 2 then Outcome(t.(values := rest), Refused)
      else
        var entry := Entry(taken.value[0], taken.value[1]);
        Outcome(t.(values := rest[m := Map(rest[m].entries + [entry])]), Done)
    case Free(h) => Outcome(t.(values := t.values - {h}), Done)
    case Encode(h) =>
      if h in t.values then Outcome(t.(values := t.values - {h}), Encoded(t.values[h]))
      else Outcome(t, Refused)
  }

  function PerformAll(t: Table, calls: seq<Call>): Table {
    if calls == [] then t else Perform(PerformAll(t, calls[..|calls| - 1]), calls[|calls| - 1]).table
  }

  const EmptyTable := Table(1, map[])

  /** The static table of the library. */
  class Builder {
    const values: HandleMap<Value>

    constructor ()
      ensures fresh(values) && Snapshot() == EmptyTable
    {
      values := new HandleMap();
    }

    ghost function Snapshot(): Table
      reads values
    {
      Table(values.next, values.table)
    }

    method CreateValue(v: Value) returns (h: Handle)
      modifies values
      ensures Outcome(Snapshot(), Made(h)) == Perform(old(Snapshot()), Create(v))
    {
      h := values.Insert(v);
    }

    /** A failed call answers with handle 0. */
    method CreateArray(handles: seq<Handle>) returns (h: Handle, ok: bool)
      modifies values
      ensures Outcome(Snapshot(), if ok then Made(h) else Refused) == Perform(old(Snapshot()), ArrayOf(handles))
      ensures !ok ==> h == 0
    {
      var items := [];
      ghost var start := values.table;
      for i := 0 to |handles|
        invariant values.next == old(values.next)
        invariant TakeAll(start, handles[..i]) == (values.table, Some(items))
      {
        assert handles[..i + 1][..i] == handles[..i];
        var removed := values.Remove(handles[i]);
        if removed.None? {
          TakeAllStops(start, handles, i + 1);
          return 0, false;
        }
        items := items + [removed.value];
      }
      assert handles[..|handles|] == handles;
      h := values.Insert(Array(items));
      ok := true;
    }

    method InsertIntoMap(m: Handle, k: Handle, v: Handle) returns (ok: bool)
      modifies values
      ensures Outcome(Snapshot(), if ok then Done else Refused) == Perform(old(Snapshot()), MapInsert(m, k, v))
    {
      TakeTwo(values.table, k, v);
      var key := values.Remove(k);
      if key.None? { return false; }
      var value := values.Remove(v);
      if value.None? { return false; }
      var entry := Entry(key.value, value.value);
      var pushed := values.WithMut(m, (c: Value) => if c.Map? then (Map(c.entries + [entry]), true) else (c, false));
      if pushed == Some(true) { return true; }
      assert pushed.Some? ==> values.table == old(values.table) - {k} - {v};
      return false;
    }

    method FreeValue(h: Handle)
      modifies values
      ensures Outcome(Snapshot(), Done) == Perform(old(Snapshot()), Free(h))
    {
      var _ := values.Remove(h);
    }

    method EncodeValue(h: Handle) returns (v: Option<Value>)
      modifies values
      ensures Outcome(Snapshot(), if v.Some? then Encoded(v.value) else Refused) == Perform(old(Snapshot()), Encode(h))
    {
      v := values.Remove(h);
      assert h !in old(values.table) ==> old(values.table) - {h} == old(values.table);
    }
  }

  lemma {:induction false} TakeAllStops(values: map<Handle, Value>, handles: seq<Handle>, n: nat)
    requires n <= |handles| && TakeAll(values, handles[..n]).1.None?
    ensures TakeAll(values, handles) == TakeAll(values, handles[..n])
    decreases |handles|
  {
    if n == |handles| {
      assert handles[..n] == handles;
    } else {
      var last := |handles| - 1;
      assert handles[..last][..n] == handles[..n];
      TakeAllStops(values, handles[..last], n);
    }
  }

  lemma TakeTwo(values: map<Handle, Value>, k: Handle, v: Handle)
    ensures TakeAll(values, [k, v]) ==
            if k !in values then (values, None)
            else if v !in values - {k} then (values - {k}, None)
            else (values - {k} - {v}, Some([values[k], values[v]]))
  {
    assert [k, v][..1] == [k] && [k][..0] == [];
    if k in values {
      assert TakeAll(values, []).1.value + [values[k]] == [values[k]];
      assert TakeAll(values, [k]) == (values - {k}, Some([values[k]]));
      if v in values - {k} {
        assert [values[k]] + [values[v]] == [values[k], values[v]];
      }
    } else {
      assert TakeAll(values, [k]) == (values, None);
    }
  }

  // ---------- the reference: who was put into whom ----------

  /** What a handle names: a value made whole, to which a map gains children in key, value pairs, or an array of its children;
      or nothing yet, between the drawing of its id and the writing of its value. */
  datatype Shape = Whole(value: Value) | Sequence | Unmade

  /** `end` is the moment the handle was taken out of circulation: here the number of the call that took it. */
  datatype Node = Node(shape: Shape, children: seq<Handle>, end: Option<nat>)

  /** Node `i` is the one of handle `i + 1`. */
  type Ledger = seq<Node>

  function NewHandle(l: Ledger): Handle {
    if |l| + 1 < U64 then |l| + 1 else 0
  }

  predicate IsLive(l: Ledger, h: Handle) {
    1 <= h <= |l| && l[h - 1].end.None? && !l[h - 1].shape.Unmade?
  }

  predicate TakesMembers(l: Ledger, h: Handle) {
    IsLive(l, h) && l[h - 1].shape.Whole? && l[h - 1].shape.value.Map?
  }

  /** The handles can be taken one after another: live, and none twice. */
  predicate Takeable(l: Ledger, handles: seq<Handle>) {
    && (forall i :: 0 <= i < |handles| ==> IsLive(l, handles[i]))
    && (forall i, j :: 0 <= i < j < |handles| ==> handles[i] != handles[j])
  }

  /** How many of the handles are taken before the first that cannot be. */
  function TakenCount(l: Ledger, handles: seq<Handle>): (n: nat)
    ensures n <= |handles| && Takeable(l, handles[..n])
    ensures n < |handles| ==> !Takeable(l, handles[..n + 1])
  {
    if handles == [] then 0
    else
      var n := TakenCount(l, handles[..|handles| - 1]);
      var front := handles[..|handles| - 1];
      assert front[..n] == handles[..n];
      assert handles[..|handles|] == handles;
      assert n < |front| ==> front[..n + 1] == handles[..n + 1];
      if n == |front| && Takeable(l, handles) then |handles| else n
  }

  /** The handles leave circulation in call `now`. */
  function Retire(l: Ledger, handles: seq<Handle>, now: nat): (r: Ledger)
    ensures |r| == |l|
    ensures forall i :: 0 <= i < |l| ==> r[i] == if i + 1 in handles then l[i].(end := Some(now)) else l[i]
  {
    seq(|l|, i requires 0 <= i < |l| => if i + 1 in handles then l[i].(end := Some(now)) else l[i])
  }

  datatype Account = Account(ledger: Ledger, reply: Reply)

  function Note(l: Ledger, c: Call, now: nat): Account {
    match c
    case Create(v) => Account(l + [Node(Whole(v), [], None)], Made(NewHandle(l)))
    case ArrayOf(handles) =>
      var n := TakenCount(l, handles);
      var l' := Retire(l, handles[..n], now);
      if n < |handles| then Account(l', Refused)
      else Account(l' + [Node(Sequence, handles, None)], Made(NewHandle(l)))
    case MapInsert(m, k, v) =>
      var n := TakenCount(l, [k, v]);
      var l' := Retire(l, [k, v][..n], now);
      if n < 2 || !TakesMembers(l', m) then Account(l', Refused)
      else Account(l'[m - 1 := l'[m - 1].(children := l'[m - 1].children + [k, v])], Done)
    case Free(h) => Account(Retire(l, if IsLive(l, h) then [h] else [], now), Done)
    case Encode(h) =>
      if IsLive(l, h) then Account(Retire(l, [h], now), Encoded(Build(l, h, now))) else Account(l, Refused)
  }

  /** The term a handle stands for at time `t`: its children are the terms their handles stood for when they were taken. */
  function Build(l: Ledger, h: Handle, t: nat): Value
    decreases t, 1
  {
    if !(1 <= h <= |l|) then Null
    else
      var parts := BuildAll(l, l[h - 1].children, t);
      match l[h - 1].shape
      case Sequence => Array(parts)
      case Whole(v) => if v.Map? then Map(v.entries + Pairs(parts)) else v
      case Unmade => Null
  }

  function BuildAll(l: Ledger, handles: seq<Handle>, t: nat): (r: seq<Value>)
    ensures |r| == |handles|
    ensures forall i :: 0 <= i < |handles| ==> r[i] == BuildTaken(l, handles[i], t)
    decreases t, 0, |handles|
  {
    if handles == [] then []
    else BuildAll(l, handles[..|handles| - 1], t) + [BuildTaken(l, handles[|handles| - 1], t)]
  }

  function BuildTaken(l: Ledger, h: Handle, t: nat): Value
    decreases t, 0, 0
  {
    if TakenBy(l, h, t) then Build(l, h, l[h - 1].end.value) else Null
  }

  function Pairs(parts: seq<Value>): seq<Entry> {
    if |parts| < 2 then [] else [Entry(parts[0], parts[1])] + Pairs(parts[2..])
  }

  // ---------- the table holds the terms of the reference ----------

  ghost predicate ChildAt(l: Ledger, i: int, a: int, c: Handle) {
    0 <= i < |l| && 0 <= a < |l[i].children| && l[i].children[a] == c
  }

  /** No handle is a child in two places. */
  ghost predicate Linear(l: Ledger) {
    forall c, i, a, j, b :: ChildAt(l, i, a, c) && ChildAt(l, j, b, c) ==> i == j && a == b
  }

  /** Handle `c` was taken in a call before `t`. */
  predicate TakenBy(l: Ledger, c: Handle, t: nat) {
    1 <= c <= |l| && l[c - 1].end.Some? && l[c - 1].end.value < t
  }

  ghost predicate ChildrenTaken(l: Ledger, n: Node, t: nat) {
    forall a :: 0 <= a < |n.children| ==> TakenBy(l, n.children[a], t)
  }

  function EndOf(n: Node, now: nat): nat {
    if n.end.Some? then n.end.value else now
  }

  /** Only maps and arrays have children, maps in pairs. */
  predicate WellShaped(n: Node) {
    match n.shape
    case Whole(v) => if v.Map? then |n.children| % 2 == 0 else n.children == []
    case Sequence => true
    case Unmade => n.children == []
  }

  /** Children were taken before their parent was. */
  ghost predicate Timed(l: Ledger, now: nat) {
    forall i :: 0 <= i < |l| ==>
      EndOf(l[i], now) <= now && (l[i].end.Some? ==> l[i].end.value < now) &&
      WellShaped(l[i]) && ChildrenTaken(l, l[i], EndOf(l[i], now))
  }

  ghost predicate SameHandles(values: map<Handle, Value>, l: Ledger) {
    forall h :: h in values <==> IsLive(l, h)
  }

  /** The live handles of the ledger with the terms they stand for. */
  function TableOf(l: Ledger, now: nat): (r: map<Handle, Value>)
    ensures SameHandles(r, l)
    ensures forall h :: h in r ==> r[h] == Build(l, h, now)
  {
    map h: Handle | 1 <= h <= |l| && IsLive(l, h) :: Build(l, h, now)
  }

  ghost predicate Agrees(values: map<Handle, Value>, l: Ledger, now: nat) {
    values == TableOf(l, now)
  }

  /** What has been taken out of circulation stays as it is. */
  ghost predicate KeepsTaken(l: Ledger, l': Ledger) {
    |l| <= |l'| && forall i :: 0 <= i < |l| && l[i].end.Some? ==> l'[i] == l[i]
  }

  lemma {:induction false} BuildFrame(l: Ledger, l': Ledger, h: Handle, t: nat, t': nat, now: nat)
    requires Timed(l, now) && KeepsTaken(l, l') && 1 <= h <= |l|
    requires l'[h - 1].shape == l[h - 1].shape && l'[h - 1].children == l[h - 1].children
    requires ChildrenTaken(l, l[h - 1], t) && t <= t'
    ensures Build(l', h, t') == Build(l, h, t)
    decreases t
  {
    var cs := l[h - 1].children;
    forall a | 0 <= a < |cs| ensures BuildTaken(l', cs[a], t') == BuildTaken(l, cs[a], t) {
      BuildTakenFrame(l, l', cs[a], t, t', now);
    }
    assert BuildAll(l', cs, t') == BuildAll(l, cs, t);
  }

  lemma {:induction false} BuildTakenFrame(l: Ledger, l': Ledger, c: Handle, t: nat, t': nat, now: nat)
    requires Timed(l, now) && KeepsTaken(l, l') && t <= t'
    requires TakenBy(l, c, t)
    ensures BuildTaken(l', c, t') == BuildTaken(l, c, t)
    decreases t, 0
  {
    var e := l[c - 1].end.value;
    BuildFrame(l, l', c, e, e, now);
  }

  /** A live handle whose node keeps its shape and children stands for the same term. */
  lemma LiveFrame(l: Ledger, l': Ledger, h: Handle, t': nat, now: nat)
    requires Timed(l, now) && KeepsTaken(l, l') && IsLive(l, h) && now <= t'
    requires l'[h - 1].shape == l[h - 1].shape && l'[h - 1].children == l[h - 1].children
    ensures Build(l', h, t') == Build(l, h, now)
  {
    BuildFrame(l, l', h, now, t', now);
  }

  // ---------- taking handles ----------

  function Without(values: map<Handle, Value>, handles: seq<Handle>): (rest: map<Handle, Value>)
    ensures forall h :: h in rest <==> h in values && h !in handles
    ensures forall h :: h in rest ==> rest[h] == values[h]
  {
    values - (set h <- handles)
  }

  function Terms(l: Ledger, handles: seq<Handle>, now: nat): (r: seq<Value>)
    ensures |r| == |handles| && forall i :: 0 <= i < |r| ==> r[i] == Build(l, handles[i], now)
  {
    seq(|handles|, i requires 0 <= i < |handles| => Build(l, handles[i], now))
  }

  lemma TakeableSnoc(l: Ledger, front: seq<Handle>, h: Handle)
    requires Takeable(l, front)
    ensures Takeable(l, front + [h]) <==> IsLive(l, h) && h !in front
  {
    var all := front + [h];
    assert all[|front|] == h;
    if h in front {
      var i :| 0 <= i < |front| && front[i] == h;
      assert all[i] == all[|front|];
    }
  }

  lemma WithoutSnoc(values: map<Handle, Value>, front: seq<Handle>, h: Handle)
    ensures Without(values, front + [h]) == Without(values, front) - {h}
    ensures Without(values, []) == values
  {}

  /** How far the taking goes, in terms of one handle fewer. */
  lemma {:induction false} TakenCountSnoc(l: Ledger, front: seq<Handle>, h: Handle)
    ensures var n := TakenCount(l, front);
            TakenCount(l, front + [h]) == if n == |front| && IsLive(l, h) && h !in front then n + 1 else n
  {
    var n := TakenCount(l, front);
    assert (front + [h])[..|front|] == front;
    if n == |front| {
      assert front[..n] == front;
      TakeableSnoc(l, front, h);
    }
  }

  function Held(values: map<Handle, Value>, handles: seq<Handle>): (r: seq<Value>)
    requires forall h :: h in handles ==> h in values
    ensures |r| == |handles| && forall i :: 0 <= i < |r| ==> r[i] == values[handles[i]]
  {
    if handles == [] then []
    else Held(values, handles[..|handles| - 1]) + [values[handles[|handles| - 1]]]
  }

  /** Moving values out one by one takes what the reference says, and each value is the one its handle held. */
  lemma {:induction false} TakeAllIs(values: map<Handle, Value>, l: Ledger, handles: seq<Handle>)
    requires SameHandles(values, l)
    ensures var n := TakenCount(l, handles);
            && (n == |handles| ==> forall h :: h in handles ==> h in values)
            && TakeAll(values, handles) == (Without(values, handles[..n]), if n == |handles| then Some(Held(values, handles)) else None)
    decreases |handles|
  {
    if handles == [] {
      assert handles[..0] == [];
      WithoutSnoc(values, [], 0);
    } else {
      var last := |handles| - 1;
      var front, h := handles[..last], handles[last];
      assert handles == front + [h];
      TakeAllIs(values, l, front);
      TakenCountSnoc(l, front, h);
      var n := TakenCount(l, front);
      assert front[..n] == handles[..n];
      assert front[..last] == front && handles[..last + 1] == handles;
      if n == last { WithoutSnoc(values, front, h); }
    }
  }

  lemma {:induction false} RetireKeeps(l: Ledger, handles: seq<Handle>, now: nat)
    requires Timed(l, now) && forall i :: 0 <= i < |handles| ==> IsLive(l, handles[i])
    ensures Timed(Retire(l, handles, now), now + 1) && KeepsTaken(l, Retire(l, handles, now))
    ensures forall h :: IsLive(Retire(l, handles, now), h) <==> IsLive(l, h) && h !in handles
  {
    var l' := Retire(l, handles, now);
    forall i | 0 <= i < |l'| ensures ChildrenTaken(l', l'[i], EndOf(l'[i], now + 1)) {
      assert ChildrenTaken(l, l[i], EndOf(l[i], now));
    }
  }

  lemma RetireLinear(l: Ledger, handles: seq<Handle>, now: nat)
    requires Linear(l)
    ensures Linear(Retire(l, handles, now))
  {
    assert forall i, a, c :: ChildAt(Retire(l, handles, now), i, a, c) ==> ChildAt(l, i, a, c);
  }

  /** Every handle the table keeps across a call that retires `handles` still holds its term. */
  lemma {:induction false} RetireAgrees(values: map<Handle, Value>, l: Ledger, handles: seq<Handle>, now: nat)
    requires Timed(l, now) && Agrees(values, l, now) && forall i :: 0 <= i < |handles| ==> IsLive(l, handles[i])
    ensures Agrees(Without(values, handles), Retire(l, handles, now), now + 1)
  {
    var l' := Retire(l, handles, now);
    RetireKeeps(l, handles, now);
    forall h | h in values && h !in handles ensures values[h] == Build(l', h, now + 1) {
      LiveFrame(l, l', h, now + 1, now);
    }
  }

  /** What a taken handle contributes to its new parent is the term it held. */
  lemma TakenTerm(l: Ledger, l': Ledger, h: Handle, now: nat)
    requires Timed(l, now) && KeepsTaken(l, l') && IsLive(l, h) && l'[h - 1] == l[h - 1].(end := Some(now))
    ensures BuildTaken(l', h, now + 1) == Build(l, h, now)
  {
    LiveFrame(l, l', h, now, now);
  }

  /** Live handles are nobody's children. */
  lemma NobodysChild(l: Ledger, i: int, a: int, c: Handle, now: nat)
    requires Timed(l, now) && ChildAt(l, i, a, c)
    ensures !IsLive(l, c)
  {
    assert ChildrenTaken(l, l[i], EndOf(l[i], now));
  }

  // ---------- new handles ----------

  lemma {:induction false} AppendTimed(l: Ledger, node: Node, now: nat)
    requires Timed(l, now) && node.end.None? && ChildrenTaken(l, node, now) && WellShaped(node)
    ensures Timed(l + [node], now) && KeepsTaken(l, l + [node])
  {
    var l' := l + [node];
    forall i | 0 <= i < |l'| ensures ChildrenTaken(l', l'[i], EndOf(l'[i], now)) {
      if i < |l| { assert ChildrenTaken(l, l[i], EndOf(l[i], now)); }
    }
  }

  lemma {:induction false} AppendAgrees(values: map<Handle, Value>, l: Ledger, node: Node, now: nat)
    requires Timed(l, now) && Agrees(values, l, now) && |l| + 1 < U64
    requires node.end.None? && !node.shape.Unmade? && ChildrenTaken(l, node, now) && WellShaped(node)
    ensures Agrees(values[|l| + 1 := Build(l + [node], |l| + 1, now)], l + [node], now)
  {
    var l' := l + [node];
    AppendTimed(l, node, now);
    assert forall h :: IsLive(l', h) <==> IsLive(l, h) || h == |l| + 1;
    forall h | h in values ensures values[h] == Build(l', h, now) {
      LiveFrame(l, l', h, now, now);
    }
  }

  /** Handles that were live and are not repeated may become the children of a new node. */
  lemma {:induction false} AppendLinear(l: Ledger, node: Node, handles: seq<Handle>, now: nat)
    requires Timed(l, now) && Linear(l) && Takeable(l, handles) && node.children == handles
    ensures Linear(Retire(l, handles, now) + [node])
  {
    var l' := Retire(l, handles, now) + [node];
    forall c, i, a, j, b | ChildAt(l', i, a, c) && ChildAt(l', j, b, c) ensures i == j && a == b {
      if i < |l| { assert ChildAt(l, i, a, c); NobodysChild(l, i, a, c, now); }
      if j < |l| { assert ChildAt(l, j, b, c); NobodysChild(l, j, b, c, now); }
      assert i == |l| ==> IsLive(l, handles[a]);
      assert j == |l| ==> IsLive(l, handles[b]);
    }
  }

  /** An array built from taken handles holds what they held. */
  lemma {:induction false} ArrayTerm(l: Ledger, handles: seq<Handle>, now: nat)
    requires Timed(l, now) && Takeable(l, handles) && |l| + 1 < U64
    ensures var l' := Retire(l, handles, now) + [Node(Sequence, handles, None)];
            Build(l', |l| + 1, now + 1) == Array(Terms(l, handles, now))
  {
    var l' := Retire(l, handles, now) + [Node(Sequence, handles, None)];
    RetireKeeps(l, handles, now);
    forall i | 0 <= i < |handles| ensures BuildTaken(l', handles[i], now + 1) == Build(l, handles[i], now) {
      assert IsLive(l, handles[i]);
      TakenTerm(l, l', handles[i], now);
    }
    assert BuildAll(l', handles, now + 1) == Terms(l, handles, now);
  }

  // ---------- growing a map ----------

  function Grow(l: Ledger, m: Handle, k: Handle, v: Handle): Ledger
    requires 1 <= m <= |l|
  {
    l[m - 1 := l[m - 1].(children := l[m - 1].children + [k, v])]
  }

  lemma {:induction false} PairsSnoc(parts: seq<Value>, k: Value, v: Value)
    requires |parts| % 2 == 0
    ensures Pairs(parts + [k, v]) == Pairs(parts) + [Entry(k, v)]
  {
    if parts == [] {
      assert parts + [k, v] == [k, v] && [k, v][2..] == [];
    } else {
      var all := parts + [k, v];
      assert all[2..] == parts[2..] + [k, v] && all[0] == parts[0] && all[1] == parts[1];
      PairsSnoc(parts[2..], k, v);
      assert Pairs(all) == [Entry(parts[0], parts[1])] + (Pairs(parts[2..]) + [Entry(k, v)]);
    }
  }

  lemma {:induction false} GrowTimed(l: Ledger, m: Handle, k: Handle, v: Handle, now: nat)
    requires Timed(l, now) && TakesMembers(l, m) && TakenBy(l, k, now) && TakenBy(l, v, now)
    ensures Timed(Grow(l, m, k, v), now) && KeepsTaken(l, Grow(l, m, k, v))
  {
    var l' := Grow(l, m, k, v);
    forall i | 0 <= i < |l'| ensures ChildrenTaken(l', l'[i], EndOf(l'[i], now)) {
      assert ChildrenTaken(l, l[i], EndOf(l[i], now));
    }
  }

  /** A child of the grown map is an old one, which is not live, or one of the pair. */
  lemma GrownChild(l: Ledger, m: Handle, k: Handle, v: Handle, now: nat, i: int, a: int, c: Handle)
    requires Timed(l, now) && 1 <= m <= |l| && ChildAt(Grow(Retire(l, [k, v], now), m, k, v), i, a, c)
    ensures || (ChildAt(l, i, a, c) && !IsLive(l, c))
            || (i == m - 1 && c == k && a == |l[i].children|)
            || (i == m - 1 && c == v && a == |l[i].children| + 1)
  {
    if a < |l[i].children| {
      assert ChildAt(l, i, a, c);
      NobodysChild(l, i, a, c, now);
    }
  }

  lemma {:induction false} GrowLinear(l: Ledger, m: Handle, k: Handle, v: Handle, now: nat)
    requires Timed(l, now) && Linear(l) && 1 <= m <= |l| && IsLive(l, k) && IsLive(l, v) && k != v
    ensures Linear(Grow(Retire(l, [k, v], now), m, k, v))
  {
    var l' := Grow(Retire(l, [k, v], now), m, k, v);
    forall c, i, a, j, b | ChildAt(l', i, a, c) && ChildAt(l', j, b, c) ensures i == j && a == b {
      GrownChild(l, m, k, v, now, i, a, c);
      GrownChild(l, m, k, v, now, j, b, c);
    }
  }

  lemma {:induction false} GrownParts(l: Ledger, m: Handle, k: Handle, v: Handle, now: nat)
    requires Timed(l, now) && TakesMembers(l, m) && TakenBy(l, k, now) && TakenBy(l, v, now)
    ensures BuildAll(Grow(l, m, k, v), l[m - 1].children + [k, v], now) ==
            BuildAll(l, l[m - 1].children, now) + [BuildTaken(l, k, now), BuildTaken(l, v, now)]
  {
    var cs, l' := l[m - 1].children, Grow(l, m, k, v);
    GrowTimed(l, m, k, v, now);
    forall a | 0 <= a < |cs| ensures BuildTaken(l', cs[a], now) == BuildTaken(l, cs[a], now) {
      BuildTakenFrame(l, l', cs[a], now, now, now);
    }
    BuildTakenFrame(l, l', k, now, now, now);
    BuildTakenFrame(l, l', v, now, now, now);
  }

  /** The map gains the pair as its last entry. */
  lemma {:induction false} GrowTerm(l: Ledger, m: Handle, k: Handle, v: Handle, now: nat)
    requires Timed(l, now) && TakesMembers(l, m) && TakenBy(l, k, now) && TakenBy(l, v, now)
    ensures var entry := Entry(BuildTaken(l, k, now), BuildTaken(l, v, now));
            Build(l, m, now).Map? && Build(Grow(l, m, k, v), m, now) == Map(Build(l, m, now).entries + [entry])
  {
    var parts := BuildAll(l, l[m - 1].children, now);
    var key, value := BuildTaken(l, k, now), BuildTaken(l, v, now);
    GrownParts(l, m, k, v, now);
    PairsSnoc(parts, key, value);
    var base := l[m - 1].shape.value.entries;
    assert base + (Pairs(parts) + [Entry(key, value)]) == base + Pairs(parts) + [Entry(key, value)];
  }

  lemma {:induction false} GrowAgrees(values: map<Handle, Value>, l: Ledger, m: Handle, k: Handle, v: Handle, now: nat)
    requires Timed(l, now) && Agrees(values, l, now) && TakesMembers(l, m) && TakenBy(l, k, now) && TakenBy(l, v, now)
    ensures Agrees(values[m := Build(Grow(l, m, k, v), m, now)], Grow(l, m, k, v), now)
  {
    var l' := Grow(l, m, k, v);
    GrowTimed(l, m, k, v, now);
    assert forall h :: IsLive(l', h) <==> IsLive(l, h);
    forall h | h in values && h != m ensures values[h] == Build(l', h, now) {
      LiveFrame(l, l', h, now, now);
    }
  }

  // ---------- every call ----------

  ghost predicate Matches(t: Table, l: Ledger, now: nat) {
    t.next == NewHandle(l) && Timed(l, now) && Linear(l) && Agrees(t.values, l, now)
  }

  lemma {:induction false} RetireStep(t: Table, l: Ledger, handles: seq<Handle>, now: nat)
    requires Matches(t, l, now) && forall i :: 0 <= i < |handles| ==> IsLive(l, handles[i])
    ensures Matches(t.(values := Without(t.values, handles)), Retire(l, handles, now), now + 1)
  {
    RetireKeeps(l, handles, now);
    RetireLinear(l, handles, now);
    RetireAgrees(t.values, l, handles, now);
  }

  lemma JustTaken(l: Ledger, handles: seq<Handle>, node: Node, now: nat)
    requires Timed(l, now) && Takeable(l, handles) && node.children == handles
    ensures Timed(Retire(l, handles, now), now + 1) && ChildrenTaken(Retire(l, handles, now), node, now + 1)
  {
    RetireKeeps(l, handles, now);
    forall a | 0 <= a < |handles| ensures TakenBy(Retire(l, handles, now), handles[a], now + 1) {
      assert IsLive(l, handles[a]);
    }
  }

  lemma {:induction false} ContainerValues(values: map<Handle, Value>, l: Ledger, handles: seq<Handle>, node: Node, now: nat)
    requires Timed(l, now) && Agrees(values, l, now) && |l| + 1 < U64 && Takeable(l, handles)
    requires node.children == handles && node.end.None? && !node.shape.Unmade? && WellShaped(node)
    ensures var l' := Retire(l, handles, now) + [node];
            && Timed(l', now + 1)
            && Agrees(Without(values, handles)[|l| + 1 := Build(l', |l| + 1, now + 1)], l', now + 1)
  {
    JustTaken(l, handles, node, now);
    AppendTimed(Retire(l, handles, now), node, now + 1);
    RetireAgrees(values, l, handles, now);
    AppendAgrees(Without(values, handles), Retire(l, handles, now), node, now + 1);
  }

  /** A new handle over handles that are all taken in the same call. */
  lemma {:induction false} ContainerStep(t: Table, l: Ledger, handles: seq<Handle>, node: Node, v: Value, now: nat)
    requires Matches(t, l, now) && |l| + 1 < U64 && Takeable(l, handles)
    requires node.children == handles && node.end.None? && !node.shape.Unmade? && WellShaped(node)
    requires v == Build(Retire(l, handles, now) + [node], |l| + 1, now + 1)
    ensures Matches(Inserted(t.(values := Without(t.values, handles)), v).table, Retire(l, handles, now) + [node], now + 1)
  {
    assert t.next == |l| + 1;
    AppendLinear(l, node, handles, now);
    ContainerValues(t.values, l, handles, node, now);
  }

  lemma {:induction false} CreateStep(t: Table, l: Ledger, v: Value, now: nat)
    requires Matches(t, l, now) && |l| + 1 < U64
    ensures Matches(Perform(t, Create(v)).table, Note(l, Create(v), now).ledger, now + 1)
  {
    var node := Node(Whole(v), [], None);
    assert Retire(l, [], now) == l && Without(t.values, []) == t.values;
    assert v.Map? ==> v.entries + Pairs([]) == v.entries;
    ContainerStep(t, l, [], node, v, now);
  }

  lemma {:induction false} ArrayMade(t: Table, l: Ledger, handles: seq<Handle>, now: nat)
    requires Matches(t, l, now) && |l| + 1 < U64 && Takeable(l, handles)
    ensures forall h :: h in handles ==> h in t.values
    ensures var rest := Without(t.values, handles);
            Matches(Inserted(t.(values := rest), Array(Held(t.values, handles))).table,
                    Retire(l, handles, now) + [Node(Sequence, handles, None)], now + 1)
  {
    var l' := Retire(l, handles, now) + [Node(Sequence, handles, None)];
    forall i | 0 <= i < |handles| ensures handles[i] in t.values && t.values[handles[i]] == Build(l, handles[i], now) {
      assert IsLive(l, handles[i]);
    }
    assert Build(l', |l| + 1, now + 1) == Array(Held(t.values, handles)) by {
      ArrayTerm(l, handles, now);
      assert Held(t.values, handles) == Terms(l, handles, now);
    }
    ContainerStep(t, l, handles, Node(Sequence, handles, None), Array(Held(t.values, handles)), now);
  }

  lemma {:induction false} ArrayStep(t: Table, l: Ledger, handles: seq<Handle>, now: nat)
    requires Matches(t, l, now) && |Note(l, ArrayOf(handles), now).ledger| < U64
    ensures Perform(t, ArrayOf(handles)).reply == Note(l, ArrayOf(handles), now).reply
    ensures Matches(Perform(t, ArrayOf(handles)).table, Note(l, ArrayOf(handles), now).ledger, now + 1)
  {
    TakeAllIs(t.values, l, handles);
    var n := TakenCount(l, handles);
    if n == |handles| {
      assert handles[..n] == handles;
      ArrayMade(t, l, handles, now);
    } else {
      RetireStep(t, l, handles[..n], now);
    }
  }

  lemma TakenPair(l: Ledger, k: Handle, v: Handle, now: nat)
    requires Timed(l, now) && Takeable(l, [k, v])
    ensures IsLive(l, k) && IsLive(l, v)
    ensures var l' := Retire(l, [k, v], now);
            && Timed(l', now + 1) && TakenBy(l', k, now + 1) && TakenBy(l', v, now + 1)
            && BuildTaken(l', k, now + 1) == Build(l, k, now) && BuildTaken(l', v, now + 1) == Build(l, v, now)
  {
    var l' := Retire(l, [k, v], now);
    assert [k, v][0] == k && [k, v][1] == v;
    RetireKeeps(l, [k, v], now);
    TakenTerm(l, l', k, now);
    TakenTerm(l, l', v, now);
  }

  /** The table after a map gained the pair. */
  function WithEntry(values: map<Handle, Value>, m: Handle, k: Handle, v: Handle): map<Handle, Value>
    requires m in values && k in values && v in values && values[m].Map?
  {
    (values - {k} - {v})[m := Map(values[m].entries + [Entry(values[k], values[v])])]
  }

  lemma PairRemoved(values: map<Handle, Value>, k: Handle, v: Handle)
    ensures Without(values, [k, v]) == values - {k} - {v}
  {
    assert (set h <- [k, v]) == {k, v} by { assert [k, v][0] == k && [k, v][1] == v; }
  }

  lemma RestAgrees(values: map<Handle, Value>, l: Ledger, m: Handle, k: Handle, v: Handle, now: nat)
    requires Timed(l, now) && Agrees(values, l, now) && Takeable(l, [k, v]) && TakesMembers(Retire(l, [k, v], now), m)
    ensures m in values && k in values && v in values && m != k && m != v
    ensures Agrees(values - {k} - {v}, Retire(l, [k, v], now), now + 1)
    ensures values[m] == Build(Retire(l, [k, v], now), m, now + 1)
    ensures values[k] == Build(l, k, now) && values[v] == Build(l, v, now)
  {
    assert [k, v][0] == k && [k, v][1] == v && k in [k, v] && v in [k, v];
    RetireAgrees(values, l, [k, v], now);
    PairRemoved(values, k, v);
    assert IsLive(Retire(l, [k, v], now), m);
  }

  lemma {:induction false} GrowValues(values: map<Handle, Value>, l: Ledger, m: Handle, k: Handle, v: Handle, now: nat)
    requires Timed(l, now) && Agrees(values, l, now) && Takeable(l, [k, v]) && TakesMembers(Retire(l, [k, v], now), m)
    ensures m in values && values[m].Map? && k in values && v in values && m != k && m != v
    ensures Agrees(WithEntry(values, m, k, v), Grow(Retire(l, [k, v], now), m, k, v), now + 1)
  {
    var l' := Retire(l, [k, v], now);
    RestAgrees(values, l, m, k, v, now);
    TakenPair(l, k, v, now);
    GrowTerm(l', m, k, v, now + 1);
    GrowAgrees(values - {k} - {v}, l', m, k, v, now + 1);
  }

  lemma {:induction false} GrowShape(l: Ledger, m: Handle, k: Handle, v: Handle, now: nat)
    requires Timed(l, now) && Linear(l) && Takeable(l, [k, v]) && TakesMembers(Retire(l, [k, v], now), m)
    ensures Timed(Grow(Retire(l, [k, v], now), m, k, v), now + 1)
    ensures Linear(Grow(Retire(l, [k, v], now), m, k, v))
  {
    assert k != v by { assert [k, v][0] == k && [k, v][1] == v; }
    TakenPair(l, k, v, now);
    GrowTimed(Retire(l, [k, v], now), m, k, v, now + 1);
    GrowLinear(l, m, k, v, now);
  }

  lemma {:induction false} GrowStep(t: Table, l: Ledger, m: Handle, k: Handle, v: Handle, now: nat)
    requires Matches(t, l, now) && Takeable(l, [k, v]) && TakesMembers(Retire(l, [k, v], now), m)
    ensures m in t.values && t.values[m].Map? && k in t.values && v in t.values && m != k && m != v
    ensures Matches(t.(values := WithEntry(t.values, m, k, v)), Grow(Retire(l, [k, v], now), m, k, v), now + 1)
  {
    GrowShape(l, m, k, v, now);
    GrowValues(t.values, l, m, k, v, now);
  }

  lemma {:induction false} TakenCountTwo(l: Ledger, k: Handle, v: Handle)
    ensures TakenCount(l, [k, v]) == if !IsLive(l, k) then 0 else if !IsLive(l, v) || v == k then 1 else 2
  {
    TakenCountSnoc(l, [], k);
    assert [] + [k] == [k];
    TakenCountSnoc(l, [k], v);
    assert [k] + [v] == [k, v];
  }

  lemma {:induction false} PerformMapInsert(t: Table, m: Handle, k: Handle, v: Handle)
    ensures Perform(t, MapInsert(m, k, v)) ==
            if k !in t.values then Outcome(t, Refused)
            else if v !in t.values || v == k then Outcome(t.(values := t.values - {k}), Refused)
            else if m in t.values && m != k && m != v && t.values[m].Map?
            then Outcome(t.(values := WithEntry(t.values, m, k, v)), Done)
            else Outcome(t.(values := t.values - {k} - {v}), Refused)
  {
    TakeTwo(t.values, k, v);
  }

  lemma {:induction false} NoteMapInsert(l: Ledger, m: Handle, k: Handle, v: Handle, now: nat)
    ensures Note(l, MapInsert(m, k, v), now) ==
            if !IsLive(l, k) then Account(l, Refused)
            else if !IsLive(l, v) || v == k then Account(Retire(l, [k], now), Refused)
            else if TakesMembers(Retire(l, [k, v], now), m) then Account(Grow(Retire(l, [k, v], now), m, k, v), Done)
            else Account(Retire(l, [k, v], now), Refused)
  {
    TakenCountTwo(l, k, v);
    PairPrefixes(k, v);
    if !IsLive(l, k) {
      assert Retire(l, [k, v][..0], now) == l;
    } else if !IsLive(l, v) || v == k {
      assert Retire(l, [k, v][..1], now) == Retire(l, [k], now);
    } else {
      assert Retire(l, [k, v][..2], now) == Retire(l, [k, v], now);
    }
  }

  lemma PairPrefixes(k: Handle, v: Handle)
    ensures [k, v][..0] == [] && [k, v][..1] == [k] && [k, v][..2] == [k, v]
  {}

  lemma TakeablePair(l: Ledger, k: Handle, v: Handle)
    requires IsLive(l, k) && IsLive(l, v) && k != v
    ensures Takeable(l, [k, v])
  {}

  /** After the pair is taken, a handle takes members exactly when it is another one and holds a map. */
  lemma StillTakesMembers(values: map<Handle, Value>, l: Ledger, m: Handle, k: Handle, v: Handle, now: nat)
    requires Agrees(values, l, now)
    ensures TakesMembers(Retire(l, [k, v], now), m) <==> m in values && m != k && m != v && values[m].Map?
  {
    assert m in values ==> values[m] == Build(l, m, now);
    assert k in [k, v] && v in [k, v];
  }

  lemma {:induction false} MapInsertStep(t: Table, l: Ledger, m: Handle, k: Handle, v: Handle, now: nat)
    requires Matches(t, l, now)
    ensures Perform(t, MapInsert(m, k, v)).reply == Note(l, MapInsert(m, k, v), now).reply
    ensures Matches(Perform(t, MapInsert(m, k, v)).table, Note(l, MapInsert(m, k, v), now).ledger, now + 1)
  {
    PerformMapInsert(t, m, k, v);
    NoteMapInsert(l, m, k, v, now);
    DiscardStep(t, l, k, now);
    if IsLive(l, k) && IsLive(l, v) && v != k {
      TakeablePair(l, k, v);
      StillTakesMembers(t.values, l, m, k, v, now);
      if TakesMembers(Retire(l, [k, v], now), m) {
        GrowStep(t, l, m, k, v, now);
      } else {
        RetireStep(t, l, [k, v], now);
        PairRemoved(t.values, k, v);
      }
    }
  }

  lemma DiscardLive(t: Table, l: Ledger, h: Handle, now: nat)
    requires Matches(t, l, now) && IsLive(l, h)
    ensures Matches(t.(values := t.values - {h}), Retire(l, [h], now), now + 1)
  {
    WithoutSnoc(t.values, [], h);
    assert [] + [h] == [h];
    RetireStep(t, l, [h], now);
  }

  lemma TimePasses(t: Table, l: Ledger, now: nat)
    requires Matches(t, l, now)
    ensures Matches(t, l, now + 1)
  {
    WithoutSnoc(t.values, [], 0);
    assert Retire(l, [], now) == l;
    RetireStep(t, l, [], now);
  }

  lemma {:induction false} DiscardStep(t: Table, l: Ledger, h: Handle, now: nat)
    requires Matches(t, l, now)
    ensures h in t.values <==> IsLive(l, h)
    ensures h in t.values ==> t.values[h] == Build(l, h, now)
    ensures h in t.values ==> Matches(t.(values := t.values - {h}), Retire(l, [h], now), now + 1)
    ensures h !in t.values ==> t.values - {h} == t.values && Matches(t, l, now + 1)
  {
    if h in t.values {
      DiscardLive(t, l, h, now);
    } else {
      TimePasses(t, l, now);
    }
  }

  /** Each call does to the table and answers exactly what the reference says. */
  lemma {:induction false} CallStep(t: Table, l: Ledger, c: Call, now: nat)
    requires Matches(t, l, now) && |Note(l, c, now).ledger| < U64
    ensures Perform(t, c).reply == Note(l, c, now).reply
    ensures Matches(Perform(t, c).table, Note(l, c, now).ledger, now + 1)
  {
    match c
    case Create(v) => CreateStep(t, l, v, now);
    case ArrayOf(handles) => ArrayStep(t, l, handles, now);
    case MapInsert(m, k, v) => MapInsertStep(t, l, m, k, v, now);
    case Free(h) =>
      DiscardStep(t, l, h, now);
      assert Retire(l, [], now) == l;
    case Encode(h) => DiscardStep(t, l, h, now);
  }

  function LedgerAfter(calls: seq<Call>): Ledger {
    if calls == [] then []
    else Note(LedgerAfter(calls[..|calls| - 1]), calls[|calls| - 1], |calls| - 1).ledger
  }

  lemma NoteGrows(l: Ledger, c: Call, now: nat)
    ensures |l| <= |Note(l, c, now).ledger| <= |l| + 1
  {}

  lemma CallStepTo(t: Table, l: Ledger, c: Call, now: nat, t': Table, l': Ledger)
    requires Matches(t, l, now) && t' == Perform(t, c).table && l' == Note(l, c, now).ledger && |l'| < U64
    ensures Matches(t', l', now + 1)
  {
    CallStep(t, l, c, now);
  }

  lemma EmptyMatches()
    ensures Matches(EmptyTable, [], 0)
  {}

  lemma {:induction false} TableMatchesAt(calls: seq<Call>, t: Table, l: Ledger)
    requires t == PerformAll(EmptyTable, calls) && l == LedgerAfter(calls) && |l| < U64
    ensures Matches(t, l, |calls|)
    decreases |calls|
  {
    if calls == [] {
      EmptyMatches();
    } else {
      var before := calls[..|calls| - 1];
      var t0, l0 := PerformAll(EmptyTable, before), LedgerAfter(before);
      assert |l0| < U64 by { NoteGrows(l0, calls[|calls| - 1], |before|); }
      TableMatchesAt(before, t0, l0);
      CallStepTo(t0, l0, calls[|calls| - 1], |before|, t, l);
    }
  }

  lemma TableMatches(calls: seq<Call>)
    requires |LedgerAfter(calls)| < U64
    ensures Matches(PerformAll(EmptyTable, calls), LedgerAfter(calls), |calls|)
  {
    TableMatchesAt(calls, PerformAll(EmptyTable, calls), LedgerAfter(calls));
  }

  /** For every trace of builder calls, with stale, repeated and self-referencing handles and partial failures, as long as at most
      2^64 - 1 handles were given out: the handles in the table are exactly the live ones, and
      each holds exactly the term the trace gives it. */
  lemma TableHoldsTerms(calls: seq<Call>)
    requires |LedgerAfter(calls)| < U64
    ensures var values := PerformAll(EmptyTable, calls).values;
            var l := LedgerAfter(calls);
            forall h :: At(values, h) == if IsLive(l, h) then Some(Build(l, h, |calls|)) else None
  {
    TableMatches(calls);
  }

  /** Every answer, the encoded value included, is the one the reference gives. */
  lemma RepliesAgree(calls: seq<Call>, c: Call)
    requires |LedgerAfter(calls + [c])| < U64
    ensures Perform(PerformAll(EmptyTable, calls), c).reply == Note(LedgerAfter(calls), c, |calls|).reply
  {
    assert (calls + [c])[..|calls|] == calls;
    NoteGrows(LedgerAfter(calls), c, |calls|);
    TableMatches(calls);
    CallStep(PerformAll(EmptyTable, calls), LedgerAfter(calls), c, |calls|);
  }

  /** Linearity: whatever the trace, a handle is a child in at most one place of one container, and never while it is still in
      the table; so no value is reachable from two handles or two containers. */
  lemma NothingIsSharedTwice(calls: seq<Call>)
    requires |LedgerAfter(calls)| < U64
    ensures Linear(LedgerAfter(calls))
    ensures forall i, a, c :: ChildAt(LedgerAfter(calls), i, a, c) ==> c !in PerformAll(EmptyTable, calls).values
  {
    TableMatches(calls);
    forall i, a, c | ChildAt(LedgerAfter(calls), i, a, c) ensures c !in PerformAll(EmptyTable, calls).values {
      NobodysChild(LedgerAfter(calls), i, a, c, |calls|);
    }
  }
}
