/**
 The table of opaque handles.  `insert` is two atomic steps, drawing an id from a wrapping 64-bit
 counter and then writing the map, with no lock held in between.
 */
module HandleMap {
  import opened Wrappers

  const U64 := 0x1_0000_0000_0000_0000

  type Handle = h: int | 0 <= h < U64

  /** `fetch_add` wraps around. */
  function Succ(h: Handle): Handle {
    if h + 1 < U64 then h + 1 else 0
  }

  /** The table as one thread uses it. */
  class HandleMap<T> {
    var next: Handle
    var table: map<Handle, T>

    constructor ()
      ensures next == 1 && table == map[]
    {
      next, table := 1, map[];
    }

    method Insert(value: T) returns (id: Handle)
      modifies this
      ensures id == old(next) && next == Succ(old(next))
      ensures table == old(table)[id := value]
    {
      id := next;
      next := Succ(next);
      table := table[id := value];
    }

    /** `f` gives the new value and the closure's result. */
    method WithMut<R>(handle: Handle, f: T -> (T, R)) returns (r: Option<R>)
      modifies this`table
      ensures r == if handle in old(table) then Some(f(old(table)[handle]).1) else None
      ensures table == if handle in old(table) then old(table)[handle := f(old(table)[handle]).0] else old(table)
    {
      if handle in table {
        var (value, result) := f(table[handle]);
        table := table[handle := value];
        r := Some(result);
      } else {
        r := None;
      }
    }

    method Remove(handle: Handle) returns (r: Option<T>)
      modifies this`table
      ensures r == At(old(table), handle) && table == old(table) - {handle}
    {
      r := if handle in table then Some(table[handle]) else None;
      table := table - {handle};
    }
  }

  // ---------- any number of threads ----------

  datatype Stage = Reserved | Live | Removed

  /** One call of `insert`: the id it drew, its argument, and the mutations made under its handle since. */
  datatype Ticket<!V> = Ticket(id: Handle, inserted: V, edits: seq<V -> V>, stage: Stage)

  datatype State<!V> = State(next: Handle, table: map<Handle, V>, tickets: seq<Ticket<V>>)

  datatype Step<!V> =
    | Reserve(value: V)
    | Publish(k: nat)
    | Mutate(h: Handle, f: V -> V)
    | Remove(h: Handle)

  function Empty<V>(): State<V> {
    State(1, map[], [])
  }

  predicate Enabled<V(!new)>(s: State<V>, step: Step<V>) {
    step.Publish? ==> step.k < |s.tickets| && s.tickets[step.k].stage.Reserved?
  }

  /** The history of every live ticket of a handle, brought up to date. */
  function Note<V>(tickets: seq<Ticket<V>>, h: Handle, update: Ticket<V> -> Ticket<V>): (r: seq<Ticket<V>>)
    ensures |r| == |tickets|
    ensures forall k :: 0 <= k < |r| ==>
              r[k] == if tickets[k].id == h && tickets[k].stage.Live? then update(tickets[k]) else tickets[k]
  {
    seq(|tickets|, k requires 0 <= k < |tickets| =>
      if tickets[k].id == h && tickets[k].stage.Live? then update(tickets[k]) else tickets[k])
  }

  function Next<V(!new)>(s: State<V>, step: Step<V>): State<V>
    requires Enabled(s, step)
  {
    match step
    case Reserve(v) => s.(next := Succ(s.next), tickets := s.tickets + [Ticket(s.next, v, [], Reserved)])
    case Publish(k) =>
      var t := s.tickets[k];
      s.(table := s.table[t.id := t.inserted], tickets := s.tickets[k := t.(stage := Live)])
    case Mutate(h, f) =>
      if h in s.table
      then s.(table := s.table[h := f(s.table[h])],
              tickets := Note(s.tickets, h, (t: Ticket<V>) => t.(edits := t.edits + [f])))
      else s
    case Remove(h) =>
      s.(table := s.table - {h}, tickets := Note(s.tickets, h, (t: Ticket<V>) => t.(stage := Removed)))
  }

  function Exec<V(!new)>(s: State<V>, steps: seq<Step<V>>): Option<State<V>>
    decreases |steps|
  {
    if steps == [] then Some(s)
    else if Enabled(s, steps[0]) then Exec(Next(s, steps[0]), steps[1..])
    else None
  }

  /** A value after a series of mutations. */
  function Edited<V>(v: V, edits: seq<V -> V>): V {
    if edits == [] then v else edits[|edits| - 1](Edited(v, edits[..|edits| - 1]))
  }

  ghost predicate Counted<V>(s: State<V>) {
    && s.next == (1 + |s.tickets|) % U64
    && forall k :: 0 <= k < |s.tickets| ==>
         s.tickets[k].id == (1 + k) % U64 && (s.tickets[k].stage.Reserved? ==> s.tickets[k].edits == [])
  }

  ghost predicate LiveAt<V>(s: State<V>, h: Handle, k: int) {
    0 <= k < |s.tickets| && s.tickets[k].stage.Live? && s.tickets[k].id == h
  }

  /** The table holds the live tickets and nothing else, each with its own value as mutated through its handle. */
  ghost predicate TableIsLive<V(!new)>(s: State<V>) {
    && (forall h :: h in s.table ==> exists k :: LiveAt(s, h, k))
    && (forall h, k :: LiveAt(s, h, k) ==> h in s.table && s.table[h] == Edited(s.tickets[k].inserted, s.tickets[k].edits))
  }

  lemma {:induction false} CountedStep<V(!new)>(s: State<V>, step: Step<V>)
    requires Counted(s) && Enabled(s, step)
    ensures Counted(Next(s, step)) && |s.tickets| <= |Next(s, step).tickets|
  {}

  /** Below the wrap-around, different insertions have different ids. */
  lemma IdsDiffer<V>(s: State<V>, j: nat, k: nat)
    requires Counted(s) && |s.tickets| < U64 && j < |s.tickets| && k < |s.tickets| && s.tickets[j].id == s.tickets[k].id
    ensures j == k && s.tickets[j].id != 0
  {}

  lemma {:induction false} TableIsLivePublish<V(!new)>(s: State<V>, k: nat)
    requires Counted(s) && TableIsLive(s) && Enabled(s, Publish(k)) && |s.tickets| < U64
    ensures TableIsLive(Next(s, Publish(k)))
  {
    var s' := Next(s, Publish(k));
    CountedStep(s, Publish(k));
    assert LiveAt(s', s.tickets[k].id, k);
    forall h | h in s'.table ensures exists j :: LiveAt(s', h, j) {
      if h != s.tickets[k].id {
        var j :| LiveAt(s, h, j);
        assert LiveAt(s', h, j);
      }
    }
    forall h, j | LiveAt(s', h, j)
      ensures h in s'.table && s'.table[h] == Edited(s'.tickets[j].inserted, s'.tickets[j].edits)
    {
      if j != k {
        assert LiveAt(s, h, j);
        assert s.tickets[j].id != s.tickets[k].id by {
          if s.tickets[j].id == s.tickets[k].id { IdsDiffer(s, j, k); }
        }
      }
    }
  }

  lemma {:induction false} EditedMore<V>(v: V, edits: seq<V -> V>, f: V -> V)
    ensures Edited(v, edits + [f]) == f(Edited(v, edits))
  {
    assert (edits + [f])[..|edits|] == edits;
  }

  lemma {:induction false} TableIsLiveMutate<V(!new)>(s: State<V>, h: Handle, f: V -> V)
    requires Counted(s) && TableIsLive(s)
    ensures TableIsLive(Next(s, Mutate(h, f)))
  {
    var s' := Next(s, Mutate(h, f));
    assert forall g, k :: LiveAt(s', g, k) <==> LiveAt(s, g, k);
    forall g, k | LiveAt(s', g, k)
      ensures g in s'.table && s'.table[g] == Edited(s'.tickets[k].inserted, s'.tickets[k].edits)
    {
      EditedMore(s.tickets[k].inserted, s.tickets[k].edits, f);
    }
  }

  lemma {:induction false} TableIsLiveStep<V(!new)>(s: State<V>, step: Step<V>)
    requires Counted(s) && TableIsLive(s) && Enabled(s, step) && |s.tickets| < U64
    ensures TableIsLive(Next(s, step))
  {
    var s' := Next(s, step);
    match step
    case Publish(k) => TableIsLivePublish(s, k);
    case Mutate(h, f) => TableIsLiveMutate(s, h, f);
    case Reserve(_) =>
      assert forall g, k :: LiveAt(s', g, k) <==> LiveAt(s, g, k);
    case Remove(h) =>
      assert forall g, k :: LiveAt(s', g, k) <==> LiveAt(s, g, k) && g != h;
  }

  lemma {:induction false} KeptByRun<V(!new)>(s: State<V>, steps: seq<Step<V>>)
    requires Counted(s) && TableIsLive(s) && Exec(s, steps).Some? && |Exec(s, steps).value.tickets| < U64
    ensures Counted(Exec(s, steps).value) && TableIsLive(Exec(s, steps).value)
    ensures |s.tickets| <= |Exec(s, steps).value.tickets|
    decreases |steps|
  {
    TicketsGrow(s, steps);
    if steps != [] {
      CountedStep(s, steps[0]);
      TableIsLiveStep(s, steps[0]);
      KeptByRun(Next(s, steps[0]), steps[1..]);
    }
  }

  lemma {:induction false} TicketsGrow<V(!new)>(s: State<V>, steps: seq<Step<V>>)
    requires Counted(s) && Exec(s, steps).Some?
    ensures |s.tickets| <= |Exec(s, steps).value.tickets| && Counted(Exec(s, steps).value)
    decreases |steps|
  {
    if steps != [] {
      CountedStep(s, steps[0]);
      TicketsGrow(Next(s, steps[0]), steps[1..]);
    }
  }

  /** For any interleaving of at most 2^64 - 1 insertions with removals and mutations: a handle is in the table exactly when
      the insertion that drew it is published and not removed, and it then holds the value that insertion brought,
      as mutated through that handle and no other. */
  lemma {:induction false} TableHoldsLiveValues<V(!new)>(steps: seq<Step<V>>)
    requires Exec(Empty<V>(), steps).Some? && |Exec(Empty<V>(), steps).value.tickets| < U64
    ensures TableIsLive(Exec(Empty<V>(), steps).value)
  {
    KeptByRun(Empty<V>(), steps);
  }

  /** What reading through a handle sees: its own insertion's value as mutated through it while that is live, and nothing before it is
      published or after it is removed. */
  lemma {:induction false} HandleReadsItsTicket<V(!new)>(steps: seq<Step<V>>, k: nat)
    requires Exec(Empty<V>(), steps).Some? && |Exec(Empty<V>(), steps).value.tickets| < U64
    requires k < |Exec(Empty<V>(), steps).value.tickets|
    ensures var s := Exec(Empty<V>(), steps).value;
            var t := s.tickets[k];
            At(s.table, t.id) == if t.stage.Live? then Some(Edited(t.inserted, t.edits)) else None
  {
    var s := Exec(Empty<V>(), steps).value;
    KeptByRun(Empty<V>(), steps);
    var t := s.tickets[k];
    if t.stage.Live? {
      assert LiveAt(s, t.id, k);
    } else if t.id in s.table {
      var j :| LiveAt(s, t.id, j);
      IdsDiffer(s, j, k);
    }
  }

  // ---------- the object's calls are steps ----------

  lemma {:induction false} Cons<V(!new)>(s: State<V>, step: Step<V>, rest: seq<Step<V>>)
    requires Enabled(s, step)
    ensures Exec(s, [step] + rest) == Exec(Next(s, step), rest)
  {
    assert ([step] + rest)[1..] == rest;
  }

  /** An undisturbed call of `Insert` is the reservation and the publication of one ticket: it leaves the same counter and table. */
  lemma {:induction false} InsertIsTwoSteps<V(!new)>(s: State<V>, v: V)
    ensures var k := |s.tickets|;
            Exec(s, [Reserve(v)] + ([Publish(k)] + [])) ==
            Some(State(Succ(s.next), s.table[s.next := v], s.tickets + [Ticket(s.next, v, [], Live)]))
  {
    var k := |s.tickets|;
    var s1 := Next(s, Reserve(v));
    Cons(s1, Publish(k), []);
    Cons(s, Reserve(v), [Publish(k)] + []);
    assert s1.tickets[k := s1.tickets[k].(stage := Live)] == s.tickets + [Ticket(s.next, v, [], Live)];
  }

  /** The object holds the counter and the table of the machine's state. */
  ghost predicate Represents<V(!new)>(m: HandleMap<V>, s: State<V>)
    reads m
  {
    m.next == s.next && m.table == s.table
  }

  /** An undisturbed call of `Insert` runs as the reservation and the publication of one new ticket, and returns that ticket's id. */
  method InsertCall<V(!new)>(m: HandleMap<V>, value: V, ghost s: State<V>) returns (id: Handle, ghost s': State<V>)
    requires Represents(m, s)
    modifies m
    ensures Represents(m, s') && Exec(s, [Reserve(value)] + ([Publish(|s.tickets|)] + [])) == Some(s')
    ensures s'.tickets == s.tickets + [Ticket(id, value, [], Live)]
  {
    InsertIsTwoSteps(s, value);
    id := m.Insert(value);
    s' := State(Succ(s.next), s.table[s.next := value], s.tickets + [Ticket(s.next, value, [], Live)]);
  }

  /** A call of `WithMut` runs as one mutation, and answers exactly when the handle is live. */
  method MutateCall<V(!new), R>(m: HandleMap<V>, h: Handle, f: V -> (V, R), ghost s: State<V>) returns (r: Option<R>, ghost s': State<V>)
    requires Represents(m, s) && TableIsLive(s)
    modifies m
    ensures Represents(m, s') && Exec(s, [Mutate(h, (v: V) => f(v).0)] + []) == Some(s')
    ensures r.Some? <==> exists k :: LiveAt(s, h, k)
    ensures forall k :: LiveAt(s, h, k) ==> r == Some(f(Edited(s.tickets[k].inserted, s.tickets[k].edits)).1)
  {
    s' := MutationRuns(s, h, f);
    r := m.WithMut(h, f);
    assert h in s.table <==> exists k :: LiveAt(s, h, k);
  }

  lemma {:induction false} MutationRuns<V(!new), R>(s: State<V>, h: Handle, f: V -> (V, R)) returns (s': State<V>)
    ensures Exec(s, [Mutate(h, (v: V) => f(v).0)] + []) == Some(s')
    ensures s'.next == s.next && s'.table == if h in s.table then s.table[h := f(s.table[h]).0] else s.table
  {
    var step := Mutate(h, (v: V) => f(v).0);
    Cons(s, step, []);
    s' := Next(s, step);
  }

  /** A call of `Remove` runs as one removal, and hands over the live ticket's value. */
  method RemoveCall<V(!new)>(m: HandleMap<V>, h: Handle, ghost s: State<V>) returns (r: Option<V>, ghost s': State<V>)
    requires Represents(m, s) && TableIsLive(s)
    modifies m
    ensures Represents(m, s') && Exec(s, [Remove(h)] + []) == Some(s')
    ensures r.Some? <==> exists k :: LiveAt(s, h, k)
    ensures |s'.tickets| == |s.tickets|
    ensures forall k :: LiveAt(s, h, k) ==>
              r == Some(Edited(s.tickets[k].inserted, s.tickets[k].edits)) && s'.tickets[k].stage.Removed?
  {
    Cons(s, Remove(h), []);
    s' := Next(s, Remove(h));
    r := m.Remove(h);
  }

  /** Handles are all nonzero and different exactly as long as there were at most 2^64 - 1 insertions. */
  lemma {:induction false} HandlesUniqueExactlyBelowWrap<V(!new)>(steps: seq<Step<V>>)
    requires Exec(Empty<V>(), steps).Some?
    ensures var ts := Exec(Empty<V>(), steps).value.tickets;
            |ts| < U64 <==>
            (forall k :: 0 <= k < |ts| ==> ts[k].id != 0) && (forall j, k :: 0 <= j < k < |ts| ==> ts[j].id != ts[k].id)
  {
    TicketsGrow(Empty<V>(), steps);
    var ts := Exec(Empty<V>(), steps).value.tickets;
    if |ts| >= U64 {
      assert ts[U64 - 1].id == 0;
    }
  }

  lemma {:induction false} RemovedStays<V(!new)>(s: State<V>, steps: seq<Step<V>>, k: nat)
    requires Exec(s, steps).Some? && k < |s.tickets| && s.tickets[k].stage.Removed?
    ensures var s' := Exec(s, steps).value; k < |s'.tickets| && s'.tickets[k] == s.tickets[k]
    decreases |steps|
  {
    if steps != [] {
      RemovedStays(Next(s, steps[0]), steps[1..], k);
    }
  }

  /** A removed handle is never valid again, whatever is inserted, published or mutated afterwards. */
  lemma {:induction false} RemovedNeverValidAgain<V(!new)>(before: seq<Step<V>>, s: State<V>, after: seq<Step<V>>, k: nat)
    requires Exec(Empty<V>(), before) == Some(s) && k < |s.tickets| && s.tickets[k].stage.Removed?
    requires Exec(s, after).Some? && |Exec(s, after).value.tickets| < U64
    ensures s.tickets[k].id !in Exec(s, after).value.table
  {
    var s' := Exec(s, after).value;
    TicketsGrow(Empty<V>(), before);
    TicketsGrow(s, after);
    KeptByRun(Empty<V>(), before);
    KeptByRun(s, after);
    RemovedStays(s, after, k);
    if s.tickets[k].id in s'.table {
      var j :| LiveAt(s', s.tickets[k].id, j);
      IdsDiffer(s', j, k);
    }
  }
}
