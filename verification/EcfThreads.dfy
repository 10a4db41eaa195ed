/**
 Builder calls of several threads on the one static table.  Each call takes its handles one lock at a time, and an insertion
 draws its id before it writes the table, so calls interleave inside each other.  The reference keeps the ledger of who was
 put into whom, and never moves a value.
 */
module EcfThreads {
  import opened Wrappers
  import opened Cbor
  import B = EcfBuilder
  import H = HandleMap

  type Handle = H.Handle

  datatype Plan =
    | MakeWhole(value: Value)
    | MakeArray(handles: seq<Handle>)
    | InsertPair(container: Handle, key: Handle, member: Handle)
    | Discard(handle: Handle)

  /** A call that makes a value draws ticket `k` of the table before it writes. */
  datatype Stage = Taking | Drawn(k: nat) | Finished

  /** A call under way and what it holds in its hands: values, or in the reference the handles they were taken under. */
  datatype Call<T> = Call(plan: Plan, taken: seq<T>, stage: Stage)

  /** `Discard` frees or encodes, and ends with the value out of circulation. */
  datatype Step = Begin(plan: Plan) | Take(c: nat) | Draw(c: nat) | Publish(c: nat) | Push(c: nat) | Drop(c: nat)

  function Handles(plan: Plan): seq<Handle> {
    match plan
    case MakeWhole(_) => []
    case MakeArray(handles) => handles
    case InsertPair(_, key, member) => [key, member]
    case Discard(h) => [h]
  }

  /** The call has everything it set out to take. */
  predicate Ready<T>(c: Call<T>) {
    c.stage.Taking? && |c.taken| == |Handles(c.plan)|
  }

  predicate Enabled<T>(calls: seq<Call<T>>, step: Step) {
    match step
    case Begin(_) => true
    case Take(c) => c < |calls| && calls[c].stage.Taking? && |calls[c].taken| < |Handles(calls[c].plan)|
    case Draw(c) => c < |calls| && Ready(calls[c]) && (calls[c].plan.MakeWhole? || calls[c].plan.MakeArray?)
    case Publish(c) => c < |calls| && calls[c].stage.Drawn?
    case Push(c) => c < |calls| && Ready(calls[c]) && calls[c].plan.InsertPair?
    case Drop(c) => c < |calls| && Ready(calls[c]) && calls[c].plan.Discard?
  }

  function Holding<T>(call: Call<T>, x: T): Call<T> {
    Call(call.plan, call.taken + [x], call.stage)
  }

  function Drew<T>(call: Call<T>, k: nat): Call<T> {
    Call(call.plan, call.taken, Drawn(k))
  }

  function Ended<T>(call: Call<T>): Call<T> {
    Call(call.plan, [], Finished)
  }

  // ---------- the threads ----------

  datatype State = State(table: H.State<Value>, calls: seq<Call<Value>>)

  function Initial(): State {
    State(H.Empty(), [])
  }

  function NextHandle<T>(call: Call<T>): Handle
    requires |call.taken| < |Handles(call.plan)|
  {
    Handles(call.plan)[|call.taken|]
  }

  function Product(plan: Plan, taken: seq<Value>): Value {
    if plan.MakeWhole? then plan.value else Array(taken)
  }

  /** What the closure of a map insertion makes of the value under the handle. */
  function Pushed(v: Value, pair: seq<Value>): Value
    requires |pair| == 2
  {
    if v.Map? then Map(v.entries + [Entry(pair[0], pair[1])]) else v
  }

  function Pushing(pair: seq<Value>): Value -> Value
    requires |pair| == 2
  {
    (v: Value) => Pushed(v, pair)
  }

  /** The one access to the table that a step makes. */
  function Access(calls: seq<Call<Value>>, step: Step): Option<H.Step<Value>>
    requires Enabled(calls, step)
  {
    match step
    case Begin(_) => None
    case Take(c) => Some(H.Remove(NextHandle(calls[c])))
    case Draw(c) => Some(H.Reserve(Product(calls[c].plan, calls[c].taken)))
    case Publish(c) => Some(H.Publish(calls[c].stage.k))
    case Push(c) => Some(H.Mutate(calls[c].plan.container, Pushing(calls[c].taken)))
    case Drop(_) => None
  }

  predicate CanStep(s: State, step: Step) {
    Enabled(s.calls, step) && (Access(s.calls, step).Some? ==> H.Enabled(s.table, Access(s.calls, step).value))
  }

  /** A call that misses a handle ends, and loses what it holds. */
  function CallsAfter(s: State, step: Step): seq<Call<Value>>
    requires CanStep(s, step)
  {
    match step
    case Begin(plan) => s.calls + [Call(plan, [], Taking)]
    case Take(c) =>
      var call, h := s.calls[c], NextHandle(s.calls[c]);
      s.calls[c := if h in s.table.table then Holding(call, s.table.table[h]) else Ended(call)]
    case Draw(c) => s.calls[c := Drew(s.calls[c], |s.table.tickets|)]
    case Publish(c) => s.calls[c := Ended(s.calls[c])]
    case Push(c) => s.calls[c := Ended(s.calls[c])]
    case Drop(c) => s.calls[c := Ended(s.calls[c])]
  }

  function Next(s: State, step: Step): State
    requires CanStep(s, step)
  {
    var access := Access(s.calls, step);
    State(if access.Some? then H.Next(s.table, access.value) else s.table, CallsAfter(s, step))
  }

  function Exec(s: State, steps: seq<Step>): Option<State>
    decreases |steps|
  {
    if steps == [] then Some(s)
    else if CanStep(s, steps[0]) then Exec(Next(s, steps[0]), steps[1..])
    else None
  }

  // ---------- the reference ----------

  /** `bin` is what was freed, encoded or lost; `now` counts the handles taken. */
  datatype Record = Record(ledger: B.Ledger, calls: seq<Call<Handle>>, bin: seq<Handle>, now: nat)

  const NoRecord := Record([], [], [], 0)

  const Slot := B.Node(B.Unmade, [], None)

  /** What a call publishes: its members are the handles it took. */
  function Built(call: Call<Handle>): B.Node {
    B.Node(if call.plan.MakeWhole? then B.Whole(call.plan.value) else B.Sequence, call.taken, None)
  }

  function LetGo(r: Record, c: nat): Record
    requires c < |r.calls|
  {
    r.(calls := r.calls[c := Ended(r.calls[c])], bin := r.bin + r.calls[c].taken)
  }

  predicate CanNote(r: Record, step: Step) {
    Enabled(r.calls, step) && (step.Publish? ==> r.calls[step.c].stage.k < |r.ledger|)
  }

  function Note(r: Record, step: Step): Record
    requires CanNote(r, step)
  {
    match step
    case Begin(plan) => r.(calls := r.calls + [Call(plan, [], Taking)])
    case Take(c) =>
      var call, h := r.calls[c], NextHandle(r.calls[c]);
      if B.IsLive(r.ledger, h)
      then Record(B.Retire(r.ledger, [h], r.now), r.calls[c := Holding(call, h)], r.bin, r.now + 1)
      else LetGo(r, c)
    case Draw(c) => r.(ledger := r.ledger + [Slot], calls := r.calls[c := Drew(r.calls[c], |r.ledger|)])
    case Publish(c) =>
      r.(ledger := r.ledger[r.calls[c].stage.k := Built(r.calls[c])], calls := r.calls[c := Ended(r.calls[c])])
    case Push(c) =>
      var m, pair := r.calls[c].plan.container, r.calls[c].taken;
      if B.TakesMembers(r.ledger, m)
      then r.(ledger := B.Grow(r.ledger, m, pair[0], pair[1]), calls := r.calls[c := Ended(r.calls[c])])
      else LetGo(r, c)
    case Drop(c) => LetGo(r, c)
  }

  function NoteAll(r: Record, steps: seq<Step>): Option<Record>
    decreases |steps|
  {
    if steps == [] then Some(r)
    else if CanNote(r, steps[0]) then NoteAll(Note(r, steps[0]), steps[1..])
    else None
  }

  // ---------- the table holds the terms of the reference at every moment ----------

  /** The values in a call's hands are the terms their handles stood for when they were taken. */
  ghost predicate SameCall(call: Call<Value>, noted: Call<Handle>, l: B.Ledger, now: nat) {
    && noted.plan == call.plan && noted.stage == call.stage
    && |noted.taken| == |call.taken| <= |Handles(call.plan)|
    && forall a :: 0 <= a < |call.taken| ==> B.TakenBy(l, noted.taken[a], now) && call.taken[a] == B.BuildTaken(l, noted.taken[a], now)
  }

  ghost predicate SameCalls(calls: seq<Call<Value>>, noted: seq<Call<Handle>>, l: B.Ledger, now: nat) {
    |noted| == |calls| && forall c :: 0 <= c < |calls| ==> SameCall(calls[c], noted[c], l, now)
  }

  /** Ids that were drawn and not yet published are distinct, and their nodes are empty. */
  ghost predicate SlotsFree(l: B.Ledger, calls: seq<Call<Handle>>) {
    && (forall c :: 0 <= c < |calls| && calls[c].stage.Drawn? ==> calls[c].stage.k < |l| && l[calls[c].stage.k] == Slot)
    && (forall c, d :: 0 <= c < d < |calls| && calls[c].stage.Drawn? && calls[d].stage.Drawn? ==> calls[c].stage.k != calls[d].stage.k)
  }

  /** Tickets waiting to be published are the empty nodes, and the drawn ones carry their call's product. */
  ghost predicate TicketsWait(table: H.State<Value>, l: B.Ledger, calls: seq<Call<Value>>) {
    && |table.tickets| == |l| < H.U64 && H.Counted(table)
    && (forall k :: 0 <= k < |l| ==> (table.tickets[k].stage.Reserved? <==> l[k].shape.Unmade?))
    && (forall c :: 0 <= c < |calls| && calls[c].stage.Drawn? && calls[c].stage.k < |l| ==>
          table.tickets[calls[c].stage.k].inserted == Product(calls[c].plan, calls[c].taken))
  }

  ghost predicate Matches(s: State, r: Record) {
    && B.Timed(r.ledger, r.now) && B.Agrees(s.table.table, r.ledger, r.now)
    && SameCalls(s.calls, r.calls, r.ledger, r.now)
    && SlotsFree(r.ledger, r.calls)
    && TicketsWait(s.table, r.ledger, s.calls)
  }

  /** What is in hands stays the same while what was taken out of circulation does. */
  lemma {:induction false} HandsKept(call: Call<Value>, noted: Call<Handle>, l: B.Ledger, l': B.Ledger, now: nat, now': nat)
    requires B.Timed(l, now) && B.KeepsTaken(l, l') && now <= now' && SameCall(call, noted, l, now)
    ensures SameCall(call, noted, l', now')
  {
    forall a | 0 <= a < |call.taken|
      ensures B.TakenBy(l', noted.taken[a], now') && call.taken[a] == B.BuildTaken(l', noted.taken[a], now')
    {
      B.BuildTakenFrame(l, l', noted.taken[a], now, now', now);
    }
  }

  /** The same for all calls but one that moves on. */
  lemma {:induction false} OthersKept(calls: seq<Call<Value>>, noted: seq<Call<Handle>>, l: B.Ledger, now: nat, l': B.Ledger, now': nat,
                                      c: nat, call: Call<Value>, moved: Call<Handle>)
    requires SameCalls(calls, noted, l, now) && B.Timed(l, now) && B.KeepsTaken(l, l') && now <= now' && c < |calls|
    requires SameCall(call, moved, l', now')
    ensures SameCalls(calls[c := call], noted[c := moved], l', now')
  {
    forall d | 0 <= d < |calls| && d != c ensures SameCall(calls[d], noted[d], l', now') {
      HandsKept(calls[d], noted[d], l, l', now, now');
    }
  }

  /** The table's history of reservations is as it was. */
  ghost predicate SameTickets(table: H.State<Value>, table': H.State<Value>) {
    && table'.next == table.next && |table'.tickets| == |table.tickets|
    && forall k :: 0 <= k < |table.tickets| ==>
         && table'.tickets[k].id == table.tickets[k].id && table'.tickets[k].inserted == table.tickets[k].inserted
         && (table'.tickets[k].stage.Reserved? <==> table.tickets[k].stage.Reserved?)
         && (table.tickets[k].stage.Reserved? ==> table'.tickets[k].edits == table.tickets[k].edits)
  }

  ghost predicate SameShapes(l: B.Ledger, l': B.Ledger) {
    |l'| == |l| && forall i :: 0 <= i < |l| ==> l'[i].shape == l[i].shape && (l[i] == Slot ==> l'[i] == Slot)
  }

  ghost predicate IdsInOrder(s: State, r: Record) {
    SlotsFree(r.ledger, r.calls) && TicketsWait(s.table, r.ledger, s.calls)
  }

  /** Removals and mutations leave what was drawn alone. */
  lemma {:induction false} IdsKept(s: State, r: Record, table: H.State<Value>, l: B.Ledger, c: nat, call: Call<Value>, noted: Call<Handle>)
    requires IdsInOrder(s, r) && SameTickets(s.table, table) && SameShapes(r.ledger, l)
    requires c < |s.calls| && c < |r.calls| && !call.stage.Drawn? && !noted.stage.Drawn?
    ensures SlotsFree(l, r.calls[c := noted]) && TicketsWait(table, l, s.calls[c := call])
  {}

  /** What an access does to the values. */
  lemma {:induction false} AccessValues(table: H.State<Value>, step: H.Step<Value>, values: map<Handle, Value>, l: B.Ledger, now: nat)
    requires step.Remove? ==> values == table.table - {step.h}
    requires step.Mutate? ==> values == if step.h in table.table then table.table[step.h := step.f(table.table[step.h])] else table.table
    requires step.Reserve? ==> values == table.table
    requires !step.Publish? && B.Agrees(values, l, now)
    ensures B.Agrees(H.Next(table, step).table, l, now)
  {
    assert H.Next(table, step).table == values;
  }

  lemma {:induction false} TicketsKept(table: H.State<Value>, step: H.Step<Value>)
    requires step.Remove? || step.Mutate?
    ensures SameTickets(table, H.Next(table, step))
  {}

  lemma {:induction false} TakeLive(values: map<Handle, Value>, l: B.Ledger, h: Handle, now: nat)
    requires B.Timed(l, now) && B.Agrees(values, l, now) && B.IsLive(l, h)
    ensures var l' := B.Retire(l, [h], now);
            && B.Timed(l', now + 1) && B.KeepsTaken(l, l') && B.Agrees(values - {h}, l', now + 1)
            && B.TakenBy(l', h, now + 1) && h in values && values[h] == B.BuildTaken(l', h, now + 1)
  {
    assert [h][0] == h;
    B.RetireKeeps(l, [h], now);
    B.RetireAgrees(values, l, [h], now);
    B.WithoutSnoc(values, [], h);
    assert [] + [h] == [h];
    B.TakenTerm(l, B.Retire(l, [h], now), h, now);
  }

  /** One call moved on by a removal, a mutation or nothing at all. */
  lemma {:induction false} Moved(s: State, r: Record, table: H.State<Value>, l: B.Ledger, now: nat, c: nat, call: Call<Value>, noted: Call<Handle>,
                                 bin: seq<Handle>)
    requires Matches(s, r) && SameTickets(s.table, table) && SameShapes(r.ledger, l) && B.KeepsTaken(r.ledger, l) && r.now <= now
    requires B.Timed(l, now) && B.Agrees(table.table, l, now)
    requires c < |s.calls| && SameCall(call, noted, l, now) && !call.stage.Drawn?
    ensures Matches(State(table, s.calls[c := call]), Record(l, r.calls[c := noted], bin, now))
  {
    OthersKept(s.calls, r.calls, r.ledger, r.now, l, now, c, call, noted);
    IdsKept(s, r, table, l, c, call, noted);
  }

  lemma {:induction false} TakeValues(table: H.State<Value>, l: B.Ledger, h: Handle, now: nat)
    requires B.Timed(l, now) && B.Agrees(table.table, l, now) && B.IsLive(l, h)
    ensures var l', table' := B.Retire(l, [h], now), H.Next(table, H.Remove(h));
            && B.Timed(l', now + 1) && B.KeepsTaken(l, l') && B.Agrees(table'.table, l', now + 1)
            && SameTickets(table, table') && SameShapes(l, l')
            && B.TakenBy(l', h, now + 1) && h in table.table && table.table[h] == B.BuildTaken(l', h, now + 1)
  {
    TakeLive(table.table, l, h, now);
    AccessValues(table, H.Remove(h), table.table - {h}, B.Retire(l, [h], now), now + 1);
    TicketsKept(table, H.Remove(h));
    RetireShapes(l, h, now);
  }

  lemma {:induction false} TakeMoves(s: State, r: Record, c: nat, h: Handle)
    requires Matches(s, r) && c < |s.calls| && |s.calls[c].taken| < |Handles(s.calls[c].plan)| && B.IsLive(r.ledger, h)
    requires h in s.table.table && s.calls[c].stage.Taking?
    ensures Matches(State(H.Next(s.table, H.Remove(h)), s.calls[c := Holding(s.calls[c], s.table.table[h])]),
                    Record(B.Retire(r.ledger, [h], r.now), r.calls[c := Holding(r.calls[c], h)], r.bin, r.now + 1))
  {
    TakeValues(s.table, r.ledger, h, r.now);
    TakenInHand(s.calls[c], r.calls[c], r.ledger, h, s.table.table[h], r.now);
    Moved(s, r, H.Next(s.table, H.Remove(h)), B.Retire(r.ledger, [h], r.now), r.now + 1, c,
          Holding(s.calls[c], s.table.table[h]), Holding(r.calls[c], h), r.bin);
  }

  lemma {:induction false} SameHandle(s: State, r: Record, c: nat)
    requires Matches(s, r) && CanStep(s, Take(c)) && CanNote(r, Take(c))
    ensures NextHandle(r.calls[c]) == NextHandle(s.calls[c])
    ensures NextHandle(s.calls[c]) in s.table.table <==> B.IsLive(r.ledger, NextHandle(s.calls[c]))
  {
    assert SameCall(s.calls[c], r.calls[c], r.ledger, r.now);
  }

  lemma TakeIs(s: State, c: nat, h: Handle)
    requires CanStep(s, Take(c)) && NextHandle(s.calls[c]) == h && h in s.table.table
    ensures Next(s, Take(c)) == State(H.Next(s.table, H.Remove(h)), s.calls[c := Holding(s.calls[c], s.table.table[h])])
  {}

  lemma TakeNotes(r: Record, c: nat, h: Handle)
    requires CanNote(r, Take(c)) && NextHandle(r.calls[c]) == h && B.IsLive(r.ledger, h)
    ensures Note(r, Take(c)) == Record(B.Retire(r.ledger, [h], r.now), r.calls[c := Holding(r.calls[c], h)], r.bin, r.now + 1)
  {}

  lemma {:induction false} TakeSome(s: State, r: Record, c: nat)
    requires Matches(s, r) && CanStep(s, Take(c)) && CanNote(r, Take(c)) && B.IsLive(r.ledger, NextHandle(s.calls[c]))
    ensures Matches(Next(s, Take(c)), Note(r, Take(c)))
  {
    var h := NextHandle(s.calls[c]);
    SameHandle(s, r, c);
    TakeMoves(s, r, c, h);
    TakeIs(s, c, h);
    TakeNotes(r, c, h);
  }

  lemma RetireShapes(l: B.Ledger, h: Handle, now: nat)
    requires B.IsLive(l, h)
    ensures SameShapes(l, B.Retire(l, [h], now))
  {}

  lemma {:induction false} TakenInHand(call: Call<Value>, noted: Call<Handle>, l: B.Ledger, h: Handle, v: Value, now: nat)
    requires SameCall(call, noted, l, now) && B.Timed(l, now) && |call.taken| < |Handles(call.plan)| && B.IsLive(l, h)
    requires B.KeepsTaken(l, B.Retire(l, [h], now))
    requires B.TakenBy(B.Retire(l, [h], now), h, now + 1) && v == B.BuildTaken(B.Retire(l, [h], now), h, now + 1)
    ensures SameCall(Holding(call, v), Holding(noted, h), B.Retire(l, [h], now), now + 1)
  {
    HandsKept(call, noted, l, B.Retire(l, [h], now), now, now + 1);
  }

  /** A call that ends leaves the table and the ledger to the others. */
  lemma {:induction false} CallEnds(s: State, r: Record, c: nat)
    requires Matches(s, r) && c < |s.calls|
    ensures Matches(s.(calls := s.calls[c := Ended(s.calls[c])]), r.(calls := r.calls[c := Ended(r.calls[c])]))
  {
    OthersKept(s.calls, r.calls, r.ledger, r.now, r.ledger, r.now, c, Ended(s.calls[c]), Ended(r.calls[c]));
  }

  lemma {:induction false} TakeNone(s: State, r: Record, c: nat)
    requires Matches(s, r) && CanStep(s, Take(c)) && CanNote(r, Take(c)) && !B.IsLive(r.ledger, NextHandle(s.calls[c]))
    ensures Matches(Next(s, Take(c)), Note(r, Take(c)))
  {
    var h := NextHandle(s.calls[c]);
    assert SameCall(s.calls[c], r.calls[c], r.ledger, r.now);
    assert h !in s.table.table;
    assert s.table.table - {h} == s.table.table;
    TicketsKept(s.table, H.Remove(h));
    Moved(s, r, H.Next(s.table, H.Remove(h)), r.ledger, r.now, c, Ended(s.calls[c]), Ended(r.calls[c]), r.bin + r.calls[c].taken);
  }

  lemma {:induction false} DrawStep(s: State, r: Record, c: nat)
    requires Matches(s, r) && CanStep(s, Draw(c)) && CanNote(r, Draw(c)) && |r.ledger| + 1 < H.U64
    ensures Matches(Next(s, Draw(c)), Note(r, Draw(c)))
  {
    var l, l' := r.ledger, r.ledger + [Slot];
    var call, noted := Drew(s.calls[c], |l|), Drew(r.calls[c], |l|);
    B.AppendTimed(l, Slot, r.now);
    SlotHidden(s.table.table, l, r.now);
    HandsKept(s.calls[c], r.calls[c], l, l', r.now, r.now);
    OthersKept(s.calls, r.calls, l, r.now, l', r.now, c, call, noted);
  }

  /** An id that was only drawn is not in the table. */
  lemma {:induction false} SlotHidden(values: map<Handle, Value>, l: B.Ledger, now: nat)
    requires B.Timed(l, now) && B.Agrees(values, l, now) && |l| + 1 < H.U64
    ensures B.Agrees(values, l + [Slot], now)
  {
    var l' := l + [Slot];
    B.AppendTimed(l, Slot, now);
    assert forall h :: B.IsLive(l', h) <==> B.IsLive(l, h);
    forall h | h in values ensures values[h] == B.Build(l', h, now) {
      B.LiveFrame(l, l', h, now, now);
    }
  }

  lemma {:induction false} FillTimed(l: B.Ledger, k: nat, node: B.Node, now: nat)
    requires B.Timed(l, now) && k < |l| && l[k] == Slot && node.end.None? && B.ChildrenTaken(l, node, now) && B.WellShaped(node)
    ensures B.Timed(l[k := node], now) && B.KeepsTaken(l, l[k := node])
  {
    var l' := l[k := node];
    forall i | 0 <= i < |l'| ensures B.ChildrenTaken(l', l'[i], B.EndOf(l'[i], now)) {
      if i != k { assert B.ChildrenTaken(l, l[i], B.EndOf(l[i], now)); }
    }
  }

  /** Writing a drawn id adds its term and leaves the others. */
  lemma {:induction false} FillAgrees(values: map<Handle, Value>, l: B.Ledger, k: nat, node: B.Node, now: nat)
    requires B.Timed(l, now) && B.Agrees(values, l, now) && |l| < H.U64 && k < |l| && l[k] == Slot
    requires node.end.None? && !node.shape.Unmade? && B.ChildrenTaken(l, node, now) && B.WellShaped(node)
    ensures B.Agrees(values[k + 1 := B.Build(l[k := node], k + 1, now)], l[k := node], now)
  {
    var l' := l[k := node];
    FillTimed(l, k, node, now);
    assert forall h :: B.IsLive(l', h) <==> B.IsLive(l, h) || h == k + 1;
    forall h | h in values ensures values[h] == B.Build(l', h, now) {
      B.LiveFrame(l, l', h, now, now);
    }
  }

  /** The term of what a call publishes is the value it drew its id for. */
  lemma {:induction false} BuiltTerm(call: Call<Value>, noted: Call<Handle>, l: B.Ledger, k: nat, now: nat)
    requires B.Timed(l, now) && |l| < H.U64 && k < |l| && l[k] == Slot && SameCall(call, noted, l, now)
    ensures B.ChildrenTaken(l, Built(noted), now) && B.WellShaped(Built(noted))
    ensures B.Build(l[k := Built(noted)], k + 1, now) == Product(call.plan, call.taken)
  {
    var l' := l[k := Built(noted)];
    FillTimed(l, k, Built(noted), now);
    HandsKept(call, noted, l, l', now, now);
    if call.plan.MakeWhole? {
      assert call.plan.value.Map? ==> call.plan.value.entries + B.Pairs([]) == call.plan.value.entries;
    } else {
      assert B.BuildAll(l', noted.taken, now) == call.taken;
    }
  }

  lemma SlotFilled(l: B.Ledger, calls: seq<Call<Handle>>, c: nat, node: B.Node)
    requires SlotsFree(l, calls) && c < |calls| && calls[c].stage.Drawn?
    ensures SlotsFree(l[calls[c].stage.k := node], calls[c := Ended(calls[c])])
  {}

  lemma TicketPublished(table: H.State<Value>, l: B.Ledger, calls: seq<Call<Value>>, c: nat, node: B.Node)
    requires TicketsWait(table, l, calls) && c < |calls| && calls[c].stage.Drawn? && calls[c].stage.k < |l| && !node.shape.Unmade?
    requires H.Enabled(table, H.Publish(calls[c].stage.k))
    ensures TicketsWait(H.Next(table, H.Publish(calls[c].stage.k)), l[calls[c].stage.k := node], calls[c := Ended(calls[c])])
  {
    H.CountedStep(table, H.Publish(calls[c].stage.k));
  }

  lemma {:induction false} PublishValues(table: H.State<Value>, l: B.Ledger, k: nat, call: Call<Value>, noted: Call<Handle>, now: nat)
    requires B.Timed(l, now) && B.Agrees(table.table, l, now) && |l| < H.U64 && k < |l| && l[k] == Slot && SameCall(call, noted, l, now)
    requires H.Enabled(table, H.Publish(k)) && table.tickets[k].id == k + 1 && table.tickets[k].inserted == Product(call.plan, call.taken)
    ensures var l' := l[k := Built(noted)];
            B.Timed(l', now) && B.KeepsTaken(l, l') && B.Agrees(H.Next(table, H.Publish(k)).table, l', now)
  {
    BuiltTerm(call, noted, l, k, now);
    FillTimed(l, k, Built(noted), now);
    FillAgrees(table.table, l, k, Built(noted), now);
  }

  lemma {:induction false} PublishStep(s: State, r: Record, c: nat)
    requires Matches(s, r) && CanStep(s, Publish(c)) && CanNote(r, Publish(c))
    ensures Matches(Next(s, Publish(c)), Note(r, Publish(c)))
  {
    assert SameCall(s.calls[c], r.calls[c], r.ledger, r.now);
    SlotFilled(r.ledger, r.calls, c, Built(r.calls[c]));
    TicketPublished(s.table, r.ledger, s.calls, c, Built(r.calls[c]));
    PublishValues(s.table, r.ledger, r.calls[c].stage.k, s.calls[c], r.calls[c], r.now);
    OthersKept(s.calls, r.calls, r.ledger, r.now, r.ledger[r.calls[c].stage.k := Built(r.calls[c])], r.now, c,
               Ended(s.calls[c]), Ended(r.calls[c]));
  }

  /** A push onto a map grows its term; on anything else it changes nothing. */
  lemma {:induction false} PushAgrees(values: map<Handle, Value>, l: B.Ledger, m: Handle, pair: seq<Value>, k: Handle, v: Handle, now: nat)
    requires B.Timed(l, now) && B.Agrees(values, l, now) && B.TakenBy(l, k, now) && B.TakenBy(l, v, now)
    requires |pair| == 2 && pair[0] == B.BuildTaken(l, k, now) && pair[1] == B.BuildTaken(l, v, now) && B.TakesMembers(l, m)
    ensures m in values && B.Agrees(values[m := Pushed(values[m], pair)], B.Grow(l, m, k, v), now)
  {
    B.GrowTerm(l, m, k, v, now);
    B.GrowAgrees(values, l, m, k, v, now);
  }

  lemma {:induction false} PushValues(table: H.State<Value>, l: B.Ledger, m: Handle, pair: seq<Value>, k: Handle, v: Handle, now: nat)
    requires B.Timed(l, now) && B.Agrees(table.table, l, now) && B.TakenBy(l, k, now) && B.TakenBy(l, v, now)
    requires |pair| == 2 && pair[0] == B.BuildTaken(l, k, now) && pair[1] == B.BuildTaken(l, v, now) && B.TakesMembers(l, m)
    ensures var l', table' := B.Grow(l, m, k, v), H.Next(table, H.Mutate(m, Pushing(pair)));
            && B.Timed(l', now) && B.KeepsTaken(l, l') && B.Agrees(table'.table, l', now)
            && SameTickets(table, table') && SameShapes(l, l')
  {
    PushAgrees(table.table, l, m, pair, k, v, now);
    B.GrowTimed(l, m, k, v, now);
    AccessValues(table, H.Mutate(m, Pushing(pair)), table.table[m := Pushed(table.table[m], pair)], B.Grow(l, m, k, v), now);
    TicketsKept(table, H.Mutate(m, Pushing(pair)));
  }

  lemma {:induction false} PushMoves(s: State, r: Record, c: nat, m: Handle, pair: seq<Value>, hs: seq<Handle>)
    requires Matches(s, r) && c < |s.calls| && B.TakesMembers(r.ledger, m)
    requires s.calls[c].taken == pair && |pair| == 2 && r.calls[c].taken == hs && |hs| == 2
    ensures Matches(State(H.Next(s.table, H.Mutate(m, Pushing(pair))), s.calls[c := Ended(s.calls[c])]),
                    Record(B.Grow(r.ledger, m, hs[0], hs[1]), r.calls[c := Ended(r.calls[c])], r.bin, r.now))
  {
    assert SameCall(s.calls[c], r.calls[c], r.ledger, r.now);
    PushValues(s.table, r.ledger, m, pair, hs[0], hs[1], r.now);
    Moved(s, r, H.Next(s.table, H.Mutate(m, Pushing(pair))), B.Grow(r.ledger, m, hs[0], hs[1]), r.now, c,
          Ended(s.calls[c]), Ended(r.calls[c]), r.bin);
  }

  lemma {:induction false} PushSome(s: State, r: Record, c: nat)
    requires Matches(s, r) && CanStep(s, Push(c)) && CanNote(r, Push(c)) && B.TakesMembers(r.ledger, r.calls[c].plan.container)
    ensures Matches(Next(s, Push(c)), Note(r, Push(c)))
  {
    assert SameCall(s.calls[c], r.calls[c], r.ledger, r.now);
    PushMoves(s, r, c, r.calls[c].plan.container, s.calls[c].taken, r.calls[c].taken);
  }

  lemma {:induction false} PushNone(s: State, r: Record, c: nat)
    requires Matches(s, r) && CanStep(s, Push(c)) && CanNote(r, Push(c)) && !B.TakesMembers(r.ledger, r.calls[c].plan.container)
    ensures Matches(Next(s, Push(c)), Note(r, Push(c)))
  {
    var m, pair := r.calls[c].plan.container, s.calls[c].taken;
    assert SameCall(s.calls[c], r.calls[c], r.ledger, r.now);
    PushMisses(s.table.table, r.ledger, m, pair, r.now);
    var step := H.Mutate(m, Pushing(pair));
    TicketsKept(s.table, step);
    Moved(s, r, H.Next(s.table, step), r.ledger, r.now, c, Ended(s.calls[c]), Ended(r.calls[c]), r.bin + r.calls[c].taken);
  }

  lemma PushMisses(values: map<Handle, Value>, l: B.Ledger, m: Handle, pair: seq<Value>, now: nat)
    requires B.Agrees(values, l, now) && !B.TakesMembers(l, m) && |pair| == 2
    ensures m in values ==> values[m := Pushed(values[m], pair)] == values
  {
    assert m in values ==> values[m] == B.Build(l, m, now);
  }

  lemma {:induction false} OtherStep(s: State, r: Record, step: Step)
    requires Matches(s, r) && CanStep(s, step) && CanNote(r, step) && (step.Begin? || step.Drop?)
    ensures Matches(Next(s, step), Note(r, step))
  {
    if step.Drop? { CallEnds(s, r, step.c); }
  }

  lemma {:induction false} MatchesStep(s: State, r: Record, step: Step)
    requires Matches(s, r) && CanStep(s, step) && |Next(s, step).table.tickets| < H.U64
    ensures CanNote(r, step) && Matches(Next(s, step), Note(r, step))
  {
    assert forall c :: 0 <= c < |s.calls| ==> SameCall(s.calls[c], r.calls[c], r.ledger, r.now);
    match step
    case Take(c) => if B.IsLive(r.ledger, NextHandle(s.calls[c])) { TakeSome(s, r, c); } else { TakeNone(s, r, c); }
    case Draw(c) => DrawStep(s, r, c);
    case Publish(c) => PublishStep(s, r, c);
    case Push(c) => if B.TakesMembers(r.ledger, r.calls[c].plan.container) { PushSome(s, r, c); } else { PushNone(s, r, c); }
    case _ => OtherStep(s, r, step);
  }

  lemma {:induction false} TicketsGrow(s: State, steps: seq<Step>)
    requires Exec(s, steps).Some?
    ensures |s.table.tickets| <= |Exec(s, steps).value.table.tickets|
    decreases |steps|
  {
    if steps != [] { TicketsGrow(Next(s, steps[0]), steps[1..]); }
  }

  lemma {:induction false} MatchesRun(s: State, r: Record, steps: seq<Step>)
    requires Matches(s, r) && Exec(s, steps).Some? && |Exec(s, steps).value.table.tickets| < H.U64
    ensures NoteAll(r, steps).Some? && Matches(Exec(s, steps).value, NoteAll(r, steps).value)
    decreases |steps|
  {
    if steps != [] {
      TicketsGrow(Next(s, steps[0]), steps[1..]);
      MatchesStep(s, r, steps[0]);
      MatchesRun(Next(s, steps[0]), Note(r, steps[0]), steps[1..]);
    }
  }

  lemma RunMatches(steps: seq<Step>)
    requires Exec(Initial(), steps).Some? && |Exec(Initial(), steps).value.table.tickets| < H.U64
    ensures NoteAll(NoRecord, steps).Some? && Matches(Exec(Initial(), steps).value, NoteAll(NoRecord, steps).value)
  {
    MatchesRun(Initial(), NoRecord, steps);
  }

  /** The term law over every interleaving of any number of calls, lock by lock, as long as at most 2^64 - 1 ids were drawn:
      the handles in the table are exactly the live ones of the record, each holding the term the record gives it, and every
      value in the hands of a call under way is the term its handle stood for when it was taken. */
  lemma TermsHoldAcrossThreads(steps: seq<Step>)
    requires Exec(Initial(), steps).Some? && |Exec(Initial(), steps).value.table.tickets| < H.U64
    ensures NoteAll(NoRecord, steps).Some?
    ensures var s, r := Exec(Initial(), steps).value, NoteAll(NoRecord, steps).value;
            && (forall h :: At(s.table.table, h) == if B.IsLive(r.ledger, h) then Some(B.Build(r.ledger, h, r.now)) else None)
            && |r.calls| == |s.calls|
            && (forall c :: 0 <= c < |s.calls| ==> |r.calls[c].taken| == |s.calls[c].taken|)
            && (forall c, a :: 0 <= c < |s.calls| && 0 <= a < |s.calls[c].taken| ==>
                  s.calls[c].taken[a] == B.BuildTaken(r.ledger, r.calls[c].taken[a], r.now))
  {
    RunMatches(steps);
    var s, r := Exec(Initial(), steps).value, NoteAll(NoRecord, steps).value;
    assert forall c :: 0 <= c < |s.calls| ==> SameCall(s.calls[c], r.calls[c], r.ledger, r.now);
  }

  // ---------- every value is in one place ----------

  /** How often a handle occurs in some lists of handles. */
  function CountIn(lists: seq<seq<Handle>>, h: Handle): nat {
    if lists == [] then 0 else CountIn(lists[..|lists| - 1], h) + multiset(lists[|lists| - 1])[h]
  }

  function Members(l: B.Ledger): (r: seq<seq<Handle>>)
    ensures |r| == |l| && forall i :: 0 <= i < |l| ==> r[i] == l[i].children
  {
    seq(|l|, i requires 0 <= i < |l| => l[i].children)
  }

  function Hands(calls: seq<Call<Handle>>): (r: seq<seq<Handle>>)
    ensures |r| == |calls| && forall c :: 0 <= c < |calls| ==> r[c] == calls[c].taken
  {
    seq(|calls|, c requires 0 <= c < |calls| => calls[c].taken)
  }

  function InTable(l: B.Ledger, h: Handle): nat {
    if B.IsLive(l, h) then 1 else 0
  }

  /** Over the table, the members of all containers, the hands of every call under way, and the bin. */
  function Places(r: Record, h: Handle): nat {
    InTable(r.ledger, h) + CountIn(Members(r.ledger), h) + CountIn(Hands(r.calls), h) + multiset(r.bin)[h]
  }

  predicate Made(l: B.Ledger, h: Handle) {
    1 <= h <= |l| && !l[h - 1].shape.Unmade?
  }

  ghost predicate OnceEach(r: Record) {
    forall h :: Places(r, h) == if Made(r.ledger, h) then 1 else 0
  }

  lemma {:induction false} CountSnoc(lists: seq<seq<Handle>>, x: seq<Handle>, h: Handle)
    ensures CountIn(lists + [x], h) == CountIn(lists, h) + multiset(x)[h]
  {
    assert (lists + [x])[..|lists|] == lists;
  }

  lemma {:induction false} CountUpdate(lists: seq<seq<Handle>>, i: nat, x: seq<Handle>, h: Handle)
    requires i < |lists|
    ensures CountIn(lists[i := x], h) + multiset(lists[i])[h] == CountIn(lists, h) + multiset(x)[h]
    decreases |lists|
  {
    var n := |lists| - 1;
    if i < n {
      assert lists[i := x][..n] == lists[..n][i := x];
      CountUpdate(lists[..n], i, x, h);
    } else {
      assert lists[i := x][..n] == lists[..n];
    }
  }

  lemma HandsUpdate(calls: seq<Call<Handle>>, c: nat, call: Call<Handle>, h: Handle)
    requires c < |calls|
    ensures CountIn(Hands(calls[c := call]), h) + multiset(calls[c].taken)[h] == CountIn(Hands(calls), h) + multiset(call.taken)[h]
  {
    assert Hands(calls[c := call]) == Hands(calls)[c := call.taken];
    CountUpdate(Hands(calls), c, call.taken, h);
  }

  lemma MembersUpdate(l: B.Ledger, i: nat, node: B.Node, h: Handle)
    requires i < |l|
    ensures CountIn(Members(l[i := node]), h) + multiset(l[i].children)[h] == CountIn(Members(l), h) + multiset(node.children)[h]
  {
    assert Members(l[i := node]) == Members(l)[i := node.children];
    CountUpdate(Members(l), i, node.children, h);
  }

  lemma LetGoConserves(r: Record, c: nat, h: Handle)
    requires c < |r.calls|
    ensures Places(LetGo(r, c), h) == Places(r, h)
  {
    HandsUpdate(r.calls, c, Ended(r.calls[c]), h);
  }

  lemma RetireInTable(l: B.Ledger, g: Handle, now: nat, h: Handle)
    requires B.IsLive(l, g)
    ensures InTable(B.Retire(l, [g], now), h) + multiset([g])[h] == InTable(l, h)
  {}

  lemma RetireMembers(l: B.Ledger, g: Handle, now: nat)
    ensures Members(B.Retire(l, [g], now)) == Members(l)
  {}

  lemma TakeConserves(r: Record, c: nat, h: Handle)
    requires CanNote(r, Take(c))
    ensures Places(Note(r, Take(c)), h) == Places(r, h)
  {
    var call, g := r.calls[c], NextHandle(r.calls[c]);
    if B.IsLive(r.ledger, g) {
      RetireInTable(r.ledger, g, r.now, h);
      RetireMembers(r.ledger, g, r.now);
      HandsUpdate(r.calls, c, Holding(call, g), h);
      TakeNotes(r, c, g);
    } else {
      LetGoConserves(r, c, h);
    }
  }

  function Grown(node: B.Node, k: Handle, v: Handle): B.Node {
    node.(children := node.children + [k, v])
  }

  lemma GrowInTable(l: B.Ledger, m: Handle, k: Handle, v: Handle, h: Handle)
    requires B.TakesMembers(l, m)
    ensures InTable(B.Grow(l, m, k, v), h) == InTable(l, h)
  {}

  lemma GrowConserves(l: B.Ledger, m: Handle, k: Handle, v: Handle, h: Handle)
    requires B.TakesMembers(l, m)
    ensures CountIn(Members(B.Grow(l, m, k, v)), h) == CountIn(Members(l), h) + multiset([k, v])[h]
  {
    MembersUpdate(l, m - 1, Grown(l[m - 1], k, v), h);
    assert multiset(Grown(l[m - 1], k, v).children) == multiset(l[m - 1].children) + multiset([k, v]);
    assert B.Grow(l, m, k, v) == l[m - 1 := Grown(l[m - 1], k, v)];
  }

  lemma PushConserves(r: Record, c: nat, h: Handle)
    requires CanNote(r, Push(c))
    ensures Places(Note(r, Push(c)), h) == Places(r, h)
  {
    var m, pair := r.calls[c].plan.container, r.calls[c].taken;
    if B.TakesMembers(r.ledger, m) {
      assert pair == [pair[0], pair[1]];
      GrowInTable(r.ledger, m, pair[0], pair[1], h);
      GrowConserves(r.ledger, m, pair[0], pair[1], h);
      HandsUpdate(r.calls, c, Ended(r.calls[c]), h);
    } else {
      LetGoConserves(r, c, h);
    }
  }

  /** The only step that adds a value, and the only one it adds. */
  lemma PublishAdds(r: Record, c: nat, h: Handle)
    requires CanNote(r, Publish(c)) && r.ledger[r.calls[c].stage.k] == Slot
    ensures Places(Note(r, Publish(c)), h) == Places(r, h) + if h == r.calls[c].stage.k + 1 then 1 else 0
  {
    MembersUpdate(r.ledger, r.calls[c].stage.k, Built(r.calls[c]), h);
    HandsUpdate(r.calls, c, Ended(r.calls[c]), h);
  }

  lemma DrawConserves(r: Record, c: nat, h: Handle)
    requires CanNote(r, Draw(c))
    ensures Places(Note(r, Draw(c)), h) == Places(r, h)
  {
    assert Members(r.ledger + [Slot]) == Members(r.ledger) + [[]];
    CountSnoc(Members(r.ledger), [], h);
    HandsUpdate(r.calls, c, Drew(r.calls[c], |r.ledger|), h);
  }

  lemma BeginConserves(r: Record, plan: Plan, h: Handle)
    ensures Places(Note(r, Begin(plan)), h) == Places(r, h)
  {
    assert Hands(r.calls + [Call(plan, [], Taking)]) == Hands(r.calls) + [[]];
    CountSnoc(Hands(r.calls), [], h);
  }

  predicate Publishes(r: Record, step: Step, h: Handle)
    requires CanNote(r, step)
  {
    step.Publish? && h == r.calls[step.c].stage.k + 1
  }

  lemma {:induction false} PlacesStep(r: Record, step: Step, h: Handle)
    requires SlotsFree(r.ledger, r.calls) && CanNote(r, step)
    ensures Places(Note(r, step), h) == Places(r, h) + if Publishes(r, step, h) then 1 else 0
  {
    match step
    case Begin(plan) => BeginConserves(r, plan, h);
    case Take(c) => TakeConserves(r, c, h);
    case Draw(c) => DrawConserves(r, c, h);
    case Publish(c) => PublishAdds(r, c, h);
    case Push(c) => PushConserves(r, c, h);
    case Drop(c) => LetGoConserves(r, c, h);
  }

  lemma {:induction false} MadeStep(r: Record, step: Step, h: Handle)
    requires SlotsFree(r.ledger, r.calls) && CanNote(r, step)
    ensures Publishes(r, step, h) ==> !Made(r.ledger, h)
    ensures Made(Note(r, step).ledger, h) <==> Made(r.ledger, h) || Publishes(r, step, h)
  {}

  lemma {:induction false} OnceEachStep(r: Record, step: Step)
    requires SlotsFree(r.ledger, r.calls) && OnceEach(r) && CanNote(r, step)
    ensures OnceEach(Note(r, step))
  {
    forall h ensures Places(Note(r, step), h) == if Made(Note(r, step).ledger, h) then 1 else 0 {
      PlacesStep(r, step, h);
      MadeStep(r, step, h);
    }
  }

  lemma {:induction false} OnceEachRun(s: State, r: Record, steps: seq<Step>)
    requires Matches(s, r) && OnceEach(r) && Exec(s, steps).Some? && |Exec(s, steps).value.table.tickets| < H.U64
    ensures NoteAll(r, steps).Some? && OnceEach(NoteAll(r, steps).value)
    decreases |steps|
  {
    if steps != [] {
      TicketsGrow(Next(s, steps[0]), steps[1..]);
      MatchesStep(s, r, steps[0]);
      OnceEachStep(r, steps[0]);
      OnceEachRun(Next(s, steps[0]), Note(r, steps[0]), steps[1..]);
    }
  }

  /** Conservation over every interleaving: each value ever published is in exactly one place, be it in the table, a member of one
      container, in the hands of one call, or in the bin, and nothing that was not published is anywhere; members were taken
      before their container was, so no chain of containers closes.  No two handles, containers or threads ever share a value. */
  lemma {:induction false} EveryValueIsInOnePlace(steps: seq<Step>)
    requires Exec(Initial(), steps).Some? && |Exec(Initial(), steps).value.table.tickets| < H.U64
    ensures NoteAll(NoRecord, steps).Some?
    ensures var s, r := Exec(Initial(), steps).value, NoteAll(NoRecord, steps).value;
            && OnceEach(r) && |r.ledger| == |s.table.tickets|
            && (forall k :: 0 <= k < |r.ledger| ==> (Made(r.ledger, k + 1) <==> !s.table.tickets[k].stage.Reserved?))
            && (forall i, a, h :: B.ChildAt(r.ledger, i, a, h) ==> B.TakenBy(r.ledger, h, B.EndOf(r.ledger[i], r.now)))
  {
    RunMatches(steps);
    OnceEachRun(Initial(), NoRecord, steps);
  }

  // ---------- the table alone, and a call alone ----------

  /** The accesses a run makes to the table. */
  function Accesses(s: State, steps: seq<Step>): seq<H.Step<Value>>
    requires Exec(s, steps).Some?
    decreases |steps|
  {
    if steps == [] then []
    else
      var access, rest := Access(s.calls, steps[0]), Accesses(Next(s, steps[0]), steps[1..]);
      if access.Some? then [access.value] + rest else rest
  }

  /** Every run of the builder threads is a run of the handle table's own machine. */
  lemma {:induction false} TableRuns(s: State, steps: seq<Step>)
    requires Exec(s, steps).Some?
    ensures H.Exec(s.table, Accesses(s, steps)) == Some(Exec(s, steps).value.table)
    decreases |steps|
  {
    if steps != [] {
      var access := Access(s.calls, steps[0]);
      TableRuns(Next(s, steps[0]), steps[1..]);
      if access.Some? { H.Cons(s.table, access.value, Accesses(Next(s, steps[0]), steps[1..])); }
    }
  }

  /** The table as the one-call-at-a-time model sees it. */
  function Snapshot(s: State): B.Table {
    B.Table(s.table.next, s.table.table)
  }

  function PlanOf(call: B.Call): Plan {
    match call
    case Create(v) => MakeWhole(v)
    case ArrayOf(handles) => MakeArray(handles)
    case MapInsert(m, k, v) => InsertPair(m, k, v)
    case Free(h) => Discard(h)
    case Encode(h) => Discard(h)
  }

  lemma {:induction false} Snoc(s: State, steps: seq<Step>, step: Step)
    requires Exec(s, steps).Some? && CanStep(Exec(s, steps).value, step)
    ensures Exec(s, steps + [step]) == Some(Next(Exec(s, steps).value, step))
    decreases |steps|
  {
    if steps == [] {
      assert ([] + [step])[1..] == [];
    } else {
      assert (steps + [step])[1..] == steps[1..] + [step];
      Snoc(Next(s, steps[0]), steps[1..], step);
    }
  }

  /** Taking undisturbed takes what removing the handles in turn takes. */
  ghost predicate TookAll(s: State, c: nat, handles: seq<Handle>, s': State) {
    && c < |s'.calls| && s'.table.next == s.table.next && !s'.calls[c].stage.Drawn?
    && B.TakeAll(s.table.table, handles) == (s'.table.table, if s'.calls[c].stage.Taking? then Some(s'.calls[c].taken) else None)
  }

  lemma {:induction false} TakesInTurn(s: State, plan: Plan, n: nat) returns (steps: seq<Step>, s': State)
    requires n <= |Handles(plan)|
    ensures Exec(s, steps) == Some(s') && TookAll(s, |s.calls|, Handles(plan)[..n], s') && s'.calls[|s.calls|].plan == plan
    ensures s'.calls[|s.calls|].stage.Taking? ==> |s'.calls[|s.calls|].taken| == n
    decreases n
  {
    var c := |s.calls|;
    if n == 0 {
      steps, s' := [Begin(plan)], Next(s, Begin(plan));
      Snoc(s, [], Begin(plan));
      assert [] + [Begin(plan)] == [Begin(plan)];
    } else {
      var handles := Handles(plan)[..n];
      assert handles[..n - 1] == Handles(plan)[..n - 1];
      steps, s' := TakesInTurn(s, plan, n - 1);
      if s'.calls[c].stage.Taking? {
        Snoc(s, steps, Take(c));
        assert handles[n - 1] !in s'.table.table ==> s'.table.table - {handles[n - 1]} == s'.table.table;
        steps, s' := steps + [Take(c)], Next(s', Take(c));
      }
    }
  }

  lemma {:induction false} MakesValue(s: State, steps: seq<Step>, c: nat) returns (steps': seq<Step>, s': State)
    requires Exec(s, steps).Some? && Enabled(Exec(s, steps).value.calls, Draw(c))
    ensures Exec(s, steps') == Some(s')
    ensures var s1 := Exec(s, steps).value;
            Snapshot(s') == B.Inserted(Snapshot(s1), Product(s1.calls[c].plan, s1.calls[c].taken)).table
  {
    var s1 := Exec(s, steps).value;
    Snoc(s, steps, Draw(c));
    var s2 := Next(s1, Draw(c));
    Snoc(s, steps + [Draw(c)], Publish(c));
    steps', s' := steps + [Draw(c)] + [Publish(c)], Next(s2, Publish(c));
  }

  lemma TakeOne(values: map<Handle, Value>, h: Handle)
    ensures B.TakeAll(values, [h]) == if h in values then (values - {h}, Some([values[h]])) else (values, None)
    ensures h !in values ==> values - {h} == values
  {
    assert [h][..0] == [];
    if h in values { assert [] + [values[h]] == [values[h]]; }
  }

  /** An undisturbed run of a call's steps leaves the table that the one-call-at-a-time model, and so the object's method, leaves. */
  lemma {:induction false} CallAlone(s: State, call: B.Call) returns (steps: seq<Step>, s': State)
    ensures Exec(s, steps) == Some(s') && Snapshot(s') == B.Perform(Snapshot(s), call).table
  {
    var c, plan := |s.calls|, PlanOf(call);
    var handles := Handles(plan);
    assert handles[..|handles|] == handles;
    if plan.Discard? { TakeOne(s.table.table, plan.handle); }
    steps, s' := TakesInTurn(s, plan, |handles|);
    if s'.calls[c].stage.Taking? {
      if call.Create? || call.ArrayOf? {
        steps, s' := MakesValue(s, steps, c);
      } else if call.MapInsert? {
        var m := call.container;
        Snoc(s, steps, Push(c));
        assert m in s'.table.table && !s'.table.table[m].Map? ==> s'.table.table[m := s'.table.table[m]] == s'.table.table;
        steps, s' := steps + [Push(c)], Next(s', Push(c));
      } else {
        Snoc(s, steps, Drop(c));
        steps, s' := steps + [Drop(c)], Next(s', Drop(c));
      }
    }
  }
}
