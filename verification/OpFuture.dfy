/**
 One-shot futures for asynchronous peer operations.  A worker thread fills a future's slot; the
 main thread polls its pending futures on every frame, and force-completes them on stop.
 */
module OpFuture {
  import opened Wrappers

  datatype Raw = Done(payload: seq<nat>) | Failed(message: string)

  datatype Variant = Nil | Value(payload: seq<nat>)

  type Conversion = Raw -> Variant

  /** A future as the main thread sees it; `emits` are the `completed` signals queued for it. */
  datatype Fut = Fut(slot: Option<Raw>, emitted: bool, cached: Option<Variant>, emits: seq<Variant>)

  const Fresh := Fut(None, false, None, [])

  /** Emitted once, what is cached, or not at all. */
  predicate Settled(f: Fut) {
    (f.emitted <==> f.cached.Some?) && f.emits == if f.cached.Some? then [f.cached.value] else []
  }

  /** `try_complete`. */
  function Polled(convert: Conversion, f: Fut): Fut {
    if f.emitted || f.slot.None? then f
    else var v := convert(f.slot.value); Fut(None, true, Some(v), f.emits + [v])
  }

  /** `fail_with`. */
  function Forced(f: Fut): Fut {
    if f.emitted then f else f.(emitted := true, cached := Some(Nil), emits := f.emits + [Nil])
  }

  // ---------- the objects ----------

  class PeerOpFuture {
    var slot: Option<Raw>
    var emitted: bool
    var cached: Option<Variant>
    var emits: seq<Variant>

    ghost predicate Valid()
      reads this
    {
      Settled(View())
    }

    constructor ()
      ensures Valid() && View() == Fresh
    {
      slot, emitted, cached, emits := None, false, None, [];
    }

    function View(): Fut
      reads this
    {
      Fut(slot, emitted, cached, emits)
    }

    method TryComplete(convert: Conversion) returns (done: bool)
      requires Valid()
      modifies this
      ensures Valid()
      ensures View() == Polled(convert, old(View()))
      ensures done == emitted
    {
      if emitted { return true; }
      var raw := slot;
      slot := None;
      if raw.None? { return false; }
      var variant := convert(raw.value);
      emitted := true;
      cached := Some(variant);
      emits := emits + [variant];
      return true;
    }

    method FailWith()
      requires Valid()
      modifies this
      ensures Valid() && emitted
      ensures View() == Forced(old(View()))
    {
      if emitted { return; }
      emitted := true;
      cached := Some(Nil);
      emits := emits + [Nil];
    }

    /** What a late caller reads is what was emitted. */
    method Result() returns (v: Variant)
      requires Valid()
      ensures emitted ==> emits == [v]
      ensures !emitted ==> emits == [] && v == Nil
    {
      if cached.Some? { v := cached.value; } else { v := Nil; }
    }
  }

  /** The futures of a list that have not emitted, in order. */
  ghost function Unemitted(fs: seq<PeerOpFuture>): (r: seq<PeerOpFuture>)
    reads fs
    decreases |fs|
    ensures forall i :: 0 <= i < |r| ==> r[i] in fs && !r[i].emitted
  {
    if fs == [] then []
    else
      var last := fs[|fs| - 1];
      Unemitted(fs[..|fs| - 1]) + if last.emitted then [] else [last]
  }

  ghost function PolledViews(convert: Conversion, fs: seq<PeerOpFuture>): (r: seq<Fut>)
    reads fs
    ensures |r| == |fs| && forall k :: 0 <= k < |fs| ==> r[k] == Polled(convert, fs[k].View())
  {
    seq(|fs|, k requires 0 <= k < |fs| reads fs => Polled(convert, fs[k].View()))
  }

  /** The futures whose given views have not emitted, in order. */
  ghost function Kept(fs: seq<PeerOpFuture>, views: seq<Fut>): seq<PeerOpFuture>
    requires |fs| == |views|
  {
    if fs == [] then []
    else
      var n := |fs| - 1;
      Kept(fs[..n], views[..n]) + if views[n].emitted then [] else [fs[n]]
  }

  /** The loop of the drain. */
  method PollEach(convert: Conversion, all: seq<PeerOpFuture>) returns (kept: seq<PeerOpFuture>)
    requires forall i, j :: 0 <= i < j < |all| ==> all[i] != all[j]
    requires forall k :: 0 <= k < |all| ==> all[k].Valid()
    modifies all
    ensures forall k :: 0 <= k < |all| ==> all[k].View() == Polled(convert, old(all[k].View()))
    ensures kept == Kept(all, old(PolledViews(convert, all)))
  {
    kept := [];
    ghost var polled := PolledViews(convert, all);
    for i := 0 to |all|
      invariant forall k :: 0 <= k < i ==> all[k].View() == polled[k]
      invariant forall k :: i <= k < |all| ==> all[k].View() == old(all[k].View())
      invariant kept == Kept(all[..i], polled[..i])
    {
      var done := all[i].TryComplete(convert);
      assert all[..i + 1][..i] == all[..i] && polled[..i + 1][..i] == polled[..i];
      if !done {
        kept := kept + [all[i]];
      }
    }
    assert all[..|all|] == all && polled[..|all|] == polled;
  }

  class EntityPeer {
    const convert: Conversion
    var pending: seq<PeerOpFuture>

    constructor (convert: Conversion)
      ensures pending == [] && this.convert == convert
    {
      this.convert, pending := convert, [];
    }

    /** The drain of one frame: each pending future is polled once, and those that have not emitted are kept in order. */
    method Process()
      requires forall i, j :: 0 <= i < j < |pending| ==> pending[i] != pending[j]
      requires forall k :: 0 <= k < |pending| ==> pending[k].Valid()
      modifies this`pending, pending
      ensures forall f :: f in old(pending) ==> f.Valid()
      ensures forall f :: f in old(pending) ==> f.View() == Polled(convert, old(f.View()))
      ensures pending == Unemitted(old(pending))
    {
      ghost var polled := PolledViews(convert, pending);
      var kept := PollEach(convert, pending);
      KeptAreUnemitted(pending, polled);
      pending := kept;
    }

    /** The drain of a stop: every pending future is force-completed. */
    method Stop()
      requires forall i, j :: 0 <= i < j < |pending| ==> pending[i] != pending[j]
      requires forall k :: 0 <= k < |pending| ==> pending[k].Valid()
      modifies this`pending, pending
      ensures forall f :: f in old(pending) ==> f.Valid()
      ensures forall f :: f in old(pending) ==> f.View() == Forced(old(f.View()))
      ensures pending == []
    {
      for i := 0 to |pending|
        invariant pending == old(pending)
        invariant forall k :: 0 <= k < i ==> pending[k].View() == Forced(old(pending[k].View()))
        invariant forall k :: i <= k < |pending| ==> pending[k].View() == old(pending[k].View())
      {
        pending[i].FailWith();
      }
      pending := [];
    }
  }

  lemma {:induction false} KeptAreUnemitted(fs: seq<PeerOpFuture>, views: seq<Fut>)
    requires |fs| == |views| && forall k :: 0 <= k < |fs| ==> fs[k].emitted == views[k].emitted
    ensures Kept(fs, views) == Unemitted(fs)
    decreases |fs|
  {
    if fs != [] {
      KeptAreUnemitted(fs[..|fs| - 1], views[..|fs| - 1]);
    }
  }

  // ---------- every interleaving of workers, frames and stops ----------

  /** A frame and a stop go through the pending list one future at a time, and workers may fill slots in between. */
  datatype Phase = Idle(pending: seq<nat>) | Ticking(kept: seq<nat>, rest: seq<nat>) | Stopping(rest: seq<nat>)

  datatype State = State(convert: Conversion, futs: seq<Fut>, filled: seq<Option<Raw>>, phase: Phase)

  datatype Step = Push | Fill(i: nat, raw: Raw) | BeginTick | PollNext | EndTick | BeginStop | FailNext | EndStop

  function Initial(convert: Conversion): State {
    State(convert, [], [], Idle([]))
  }

  predicate Enabled(s: State, step: Step) {
    match step
    case Push => s.phase.Idle?
    case Fill(i, _) => i < |s.futs| && i < |s.filled| && s.filled[i].None?
    case BeginTick => s.phase.Idle?
    case PollNext => s.phase.Ticking? && s.phase.rest != [] && s.phase.rest[0] < |s.futs|
    case EndTick => s.phase.Ticking? && s.phase.rest == []
    case BeginStop => s.phase.Idle?
    case FailNext => s.phase.Stopping? && s.phase.rest != [] && s.phase.rest[0] < |s.futs|
    case EndStop => s.phase.Stopping? && s.phase.rest == []
  }

  function Next(s: State, step: Step): State
    requires Enabled(s, step)
  {
    match step
    case Push => s.(futs := s.futs + [Fresh], filled := s.filled + [None], phase := Idle(s.phase.pending + [|s.futs|]))
    case Fill(i, raw) => s.(filled := s.filled[i := Some(raw)], futs := s.futs[i := s.futs[i].(slot := Some(raw))])
    case BeginTick => s.(phase := Ticking([], s.phase.pending))
    case PollNext =>
      var i := s.phase.rest[0];
      var f := Polled(s.convert, s.futs[i]);
      s.(futs := s.futs[i := f],
         phase := Ticking(if f.emitted then s.phase.kept else s.phase.kept + [i], s.phase.rest[1..]))
    case EndTick => s.(phase := Idle(s.phase.kept))
    case BeginStop => s.(phase := Stopping(s.phase.pending))
    case FailNext =>
      var i := s.phase.rest[0];
      s.(futs := s.futs[i := Forced(s.futs[i])], phase := Stopping(s.phase.rest[1..]))
    case EndStop => s.(phase := Idle([]))
  }

  function Exec(s: State, steps: seq<Step>): Option<State>
    decreases |steps|
  {
    if steps == [] then Some(s)
    else if Enabled(s, steps[0]) then Exec(Next(s, steps[0]), steps[1..])
    else None
  }

  /** The futures the peer still holds. */
  function Held(p: Phase): seq<nat> {
    match p
    case Idle(pending) => pending
    case Ticking(kept, rest) => kept + rest
    case Stopping(rest) => rest
  }

  /** Held and silent, or let go of with exactly one emit, the cached one. */
  ghost predicate ExactlyOnce(s: State, i: int)
    requires 0 <= i < |s.futs|
  {
    var f := s.futs[i];
    if i in Held(s.phase)
    then !f.emitted && f.cached.None? && f.emits == []
    else f.emitted && f.cached.Some? && f.emits == [f.cached.value]
  }

  ghost predicate Inv(s: State) {
    && |s.filled| == |s.futs|
    && (forall k :: 0 <= k < |Held(s.phase)| ==> Held(s.phase)[k] < |s.futs|)
    && (forall j, k :: 0 <= j < k < |Held(s.phase)| ==> Held(s.phase)[j] != Held(s.phase)[k])
    && (forall i :: 0 <= i < |s.futs| ==> ExactlyOnce(s, i))
    && (forall i :: 0 <= i < |s.futs| && !s.futs[i].emitted ==> s.futs[i].slot == s.filled[i])
  }

  /** A polled future that has nothing to emit stays where it is. */
  lemma {:induction false} InvPollKept(s: State)
    requires Inv(s) && Enabled(s, PollNext) && !Polled(s.convert, s.futs[s.phase.rest[0]]).emitted
    ensures Inv(Next(s, PollNext))
  {
    var i, s' := s.phase.rest[0], Next(s, PollNext);
    assert Polled(s.convert, s.futs[i]) == s.futs[i];
    assert s'.futs == s.futs;
    assert Held(s'.phase) == Held(s.phase);
    InvPhase(s, s'.phase);
  }

  lemma {:induction false} InvPollDone(s: State)
    requires Inv(s) && Enabled(s, PollNext) && Polled(s.convert, s.futs[s.phase.rest[0]]).emitted
    ensures Inv(Next(s, PollNext))
  {
    var i, s' := s.phase.rest[0], Next(s, PollNext);
    assert ExactlyOnce(s, i);
    var before, n := Held(s.phase), |s.phase.kept|;
    assert before[n] == i;
    assert Held(s'.phase) == before[..n] + before[n + 1..];
    RemovedOne(s, n, Polled(s.convert, s.futs[i]), s'.phase);
  }

  /** A future that emits leaves the list and nothing else changes. */
  lemma {:induction false} RemovedOne(s: State, n: nat, f: Fut, phase: Phase)
    requires Inv(s) && n < |Held(s.phase)| && Held(phase) == Held(s.phase)[..n] + Held(s.phase)[n + 1..]
    requires f.emitted && f.cached.Some? && f.emits == [f.cached.value]
    ensures Inv(s.(futs := s.futs[Held(s.phase)[n] := f], phase := phase))
  {
    var before := Held(s.phase);
    var s' := s.(futs := s.futs[before[n] := f], phase := phase);
    forall k | 0 <= k < |s'.futs| ensures ExactlyOnce(s', k) {
      assert ExactlyOnce(s, k);
      WithoutOne(before, n, k);
    }
  }

  lemma {:induction false} InvPoll(s: State)
    requires Inv(s) && Enabled(s, PollNext)
    ensures Inv(Next(s, PollNext))
  {
    assert ExactlyOnce(s, s.phase.rest[0]);
    if Polled(s.convert, s.futs[s.phase.rest[0]]).emitted { InvPollDone(s); } else { InvPollKept(s); }
  }

  /** Taking position `n` out of a list without repeats. */
  lemma {:induction false} WithoutOne(held: seq<nat>, n: nat, k: nat)
    requires n < |held| && forall i, j :: 0 <= i < j < |held| ==> held[i] != held[j]
    ensures k in held[..n] + held[n + 1..] <==> k in held && k != held[n]
  {
    var rest := held[..n] + held[n + 1..];
    if j :| 0 <= j < |held| && held[j] == k && j != n {
      assert if j < n then rest[j] == k else rest[j - 1] == k;
    }
  }

  lemma {:induction false} InvFail(s: State)
    requires Inv(s) && Enabled(s, FailNext)
    ensures Inv(Next(s, FailNext))
  {
    var i, s' := s.phase.rest[0], Next(s, FailNext);
    assert ExactlyOnce(s, i);
    assert Held(s'.phase) == Held(s.phase)[..0] + Held(s.phase)[1..];
    RemovedOne(s, 0, Forced(s.futs[i]), s'.phase);
  }

  lemma {:induction false} InvPush(s: State)
    requires Inv(s) && s.phase.Idle?
    ensures Inv(Next(s, Push))
  {
    var s' := Next(s, Push);
    var before, after := Held(s.phase), Held(s'.phase);
    assert after == before + [|s.futs|];
    forall i | 0 <= i < |s'.futs| ensures ExactlyOnce(s', i) {
      if i < |s.futs| {
        assert ExactlyOnce(s, i);
      } else {
        assert after[|before|] == i;
      }
    }
  }

  lemma {:induction false} InvFill(s: State, i: nat, raw: Raw)
    requires Inv(s) && Enabled(s, Fill(i, raw))
    ensures Inv(Next(s, Fill(i, raw)))
  {
    forall k | 0 <= k < |s.futs| ensures ExactlyOnce(Next(s, Fill(i, raw)), k) {
      assert ExactlyOnce(s, k);
    }
  }

  lemma {:induction false} InvPhase(s: State, phase: Phase)
    requires Inv(s) && Held(phase) == Held(s.phase)
    ensures Inv(s.(phase := phase))
  {
    forall k | 0 <= k < |s.futs| ensures ExactlyOnce(s.(phase := phase), k) {
      assert ExactlyOnce(s, k);
    }
  }

  lemma {:induction false} InvStep(s: State, step: Step)
    requires Inv(s) && Enabled(s, step)
    ensures Inv(Next(s, step))
  {
    match step
    case PollNext => InvPoll(s);
    case FailNext => InvFail(s);
    case Push => InvPush(s);
    case Fill(i, raw) => InvFill(s, i, raw);
    case _ => InvPhase(s, Next(s, step).phase);
  }

  lemma {:induction false} InvRun(s: State, steps: seq<Step>)
    requires Inv(s) && Exec(s, steps).Some?
    ensures Inv(Exec(s, steps).value)
    decreases |steps|
  {
    if steps != [] {
      InvStep(s, steps[0]);
      InvRun(Next(s, steps[0]), steps[1..]);
    }
  }

  /** Over every interleaving each pushed future is either still held and silent, or it has been let
      go of having queued exactly one `completed` emit, of the value it caches. */
  lemma {:induction false} CompletionIsExactlyOnce(convert: Conversion, steps: seq<Step>)
    requires Exec(Initial(convert), steps).Some?
    ensures forall i :: 0 <= i < |Exec(Initial(convert), steps).value.futs| ==> ExactlyOnce(Exec(Initial(convert), steps).value, i)
  {
    InvRun(Initial(convert), steps);
  }

  /** No future is left waiting by a stop: when a stop ends, everything pushed so far has emitted. */
  lemma {:induction false} StopCompletesAll(convert: Conversion, steps: seq<Step>)
    requires Exec(Initial(convert), steps).Some? && Enabled(Exec(Initial(convert), steps).value, EndStop)
    ensures var s := Exec(Initial(convert), steps).value;
            forall i :: 0 <= i < |s.futs| ==> |s.futs[i].emits| == 1
  {
    InvRun(Initial(convert), steps);
    var s := Exec(Initial(convert), steps).value;
    forall i | 0 <= i < |s.futs| ensures |s.futs[i].emits| == 1 {
      assert ExactlyOnce(s, i);
    }
  }

  lemma EmittedStep(s: State, step: Step, i: nat)
    requires Enabled(s, step) && i < |s.futs| && s.futs[i].emitted
    ensures var f := Next(s, step).futs[i]; f.emitted && f.emits == s.futs[i].emits && f.cached == s.futs[i].cached
  {}

  /** Once emitted, a future never changes what it emitted or caches. */
  lemma {:induction false} ResultNeverChanges(s: State, steps: seq<Step>, i: nat)
    requires Exec(s, steps).Some? && i < |s.futs| && s.futs[i].emitted
    ensures i < |Exec(s, steps).value.futs|
    ensures var f := Exec(s, steps).value.futs[i]; f.emitted && f.emits == s.futs[i].emits && f.cached == s.futs[i].cached
    decreases |steps|
  {
    if steps != [] {
      EmittedStep(s, steps[0], i);
      ResultNeverChanges(Next(s, steps[0]), steps[1..], i);
    }
  }

  /** In this run some frame polled future `i` when its worker had filled the slot, no stop having come first. */
  predicate Seen(s: State, steps: seq<Step>, i: nat)
    decreases |steps|
  {
    && steps != [] && Enabled(s, steps[0])
    && (|| Sees(s, steps[0], i)
        || (!(steps[0].FailNext? && s.phase.rest[0] == i) && Seen(Next(s, steps[0]), steps[1..], i)))
  }

  predicate Sees(s: State, step: Step, i: nat) {
    step.PollNext? && Enabled(s, step) && s.phase.rest[0] == i && i < |s.filled| && s.filled[i].Some?
  }

  ghost predicate Worker(s: State, i: nat, f: Fut) {
    i < |s.filled| && s.filled[i].Some? && f.emits == [s.convert(s.filled[i].value)]
  }

  /** A worker's result is final once it is in. */
  lemma {:induction false} FilledStays(s: State, steps: seq<Step>, i: nat)
    requires Exec(s, steps).Some? && i < |s.filled| && s.filled[i].Some?
    ensures i < |Exec(s, steps).value.filled| && Exec(s, steps).value.filled[i] == s.filled[i]
    ensures Exec(s, steps).value.convert == s.convert
    decreases |steps|
  {
    if steps != [] {
      FilledStays(Next(s, steps[0]), steps[1..], i);
    }
  }

  lemma {:induction false} EmittedValueFrom(s: State, steps: seq<Step>, i: nat)
    requires Inv(s) && Exec(s, steps).Some? && (i < |s.futs| ==> !s.futs[i].emitted)
    requires i < |Exec(s, steps).value.futs| && Exec(s, steps).value.futs[i].emitted
    ensures if Seen(s, steps, i) then Worker(Exec(s, steps).value, i, Exec(s, steps).value.futs[i])
            else Exec(s, steps).value.futs[i].emits == [Nil]
    decreases |steps|
  {
    if steps != [] {
      var next := Next(s, steps[0]);
      InvStep(s, steps[0]);
      if i < |next.futs| && next.futs[i].emitted {
        assert ExactlyOnce(s, i);
        ResultNeverChanges(next, steps[1..], i);
        if Sees(s, steps[0], i) { FilledStays(next, steps[1..], i); }
      } else {
        EmittedValueFrom(next, steps[1..], i);
      }
    }
  }

  /** What a completed future emitted is the worker's result if a frame saw it before any stop reached the future, and
      `Nil` otherwise, even when the worker had finished by then. */
  lemma {:induction false} EmittedValueIsWorkersIffSeen(convert: Conversion, steps: seq<Step>, i: nat)
    requires var r := Exec(Initial(convert), steps); r.Some? && i < |r.value.futs| && r.value.futs[i].emitted
    ensures var s := Exec(Initial(convert), steps).value;
            if Seen(Initial(convert), steps, i) then Worker(s, i, s.futs[i]) else s.futs[i].emits == [Nil]
  {
    EmittedValueFrom(Initial(convert), steps, i);
  }

  lemma {:induction false} SeenEmitsFrom(s: State, steps: seq<Step>, i: nat)
    requires Inv(s) && Exec(s, steps).Some? && Seen(s, steps, i)
    ensures i < |Exec(s, steps).value.futs| && Exec(s, steps).value.futs[i].emitted
    decreases |steps|
  {
    InvStep(s, steps[0]);
    if Sees(s, steps[0], i) {
      assert ExactlyOnce(s, i) && i in Held(s.phase) by { assert Held(s.phase)[|s.phase.kept|] == i; }
      assert s.futs[i].slot.Some?;
      ResultNeverChanges(Next(s, steps[0]), steps[1..], i);
    } else {
      SeenEmitsFrom(Next(s, steps[0]), steps[1..], i);
    }
  }

  /** No worker's result is lost: once a frame has polled a future whose worker had filled the slot, no stop having come first, the
      future has emitted that result. */
  lemma {:induction false} SeenResultIsEmitted(convert: Conversion, steps: seq<Step>, i: nat)
    requires Exec(Initial(convert), steps).Some? && Seen(Initial(convert), steps, i)
    ensures var s := Exec(Initial(convert), steps).value; i < |s.futs| && s.futs[i].emitted && Worker(s, i, s.futs[i])
  {
    SeenEmitsFrom(Initial(convert), steps, i);
    EmittedValueFrom(Initial(convert), steps, i);
  }

  // ---------- the objects' frames and stops are runs ----------

  /** The futures at the given positions, changed. */
  function ChangedAt(futs: seq<Fut>, idx: seq<nat>, change: Fut -> Fut): (r: seq<Fut>)
    ensures |r| == |futs| && forall i :: 0 <= i < |r| ==> r[i] == if i in idx then change(futs[i]) else futs[i]
  {
    seq(|futs|, i requires 0 <= i < |futs| => if i in idx then change(futs[i]) else futs[i])
  }

  /** The positions of futures that have not emitted. */
  function Silent(futs: seq<Fut>, idx: seq<nat>): (r: seq<nat>)
    requires forall k :: 0 <= k < |idx| ==> idx[k] < |futs|
  {
    if idx == [] then [] else (if futs[idx[0]].emitted then [] else [idx[0]]) + Silent(futs, idx[1..])
  }

  function Polling(convert: Conversion): Fut -> Fut {
    f => Polled(convert, f)
  }

  function Forcing(): Fut -> Fut {
    f => Forced(f)
  }

  /** One whole frame, with nothing filled meanwhile. */
  function Ticked(s: State): State
    requires s.phase.Idle? && forall k :: 0 <= k < |s.phase.pending| ==> s.phase.pending[k] < |s.futs|
  {
    var futs := ChangedAt(s.futs, s.phase.pending, Polling(s.convert));
    s.(futs := futs, phase := Idle(Silent(futs, s.phase.pending)))
  }

  /** One whole stop. */
  function Stopped(s: State): State
    requires s.phase.Idle?
  {
    s.(futs := ChangedAt(s.futs, s.phase.pending, Forcing()), phase := Idle([]))
  }

  function Repeat(step: Step, n: nat): seq<Step> {
    if n == 0 then [] else [step] + Repeat(step, n - 1)
  }

  ghost predicate Positions(idx: seq<nat>, n: nat) {
    && (forall k :: 0 <= k < |idx| ==> idx[k] < n)
    && (forall j, k :: 0 <= j < k < |idx| ==> idx[j] != idx[k])
  }

  lemma {:induction false} Cons(s: State, step: Step, rest: seq<Step>)
    requires Enabled(s, step)
    ensures Exec(s, [step] + rest) == Exec(Next(s, step), rest)
  {
    assert ([step] + rest)[1..] == rest;
  }

  /** Changing the first position and then the others comes to changing them all. */
  lemma {:induction false} ChangeFirst(futs: seq<Fut>, idx: seq<nat>, change: Fut -> Fut)
    requires idx != [] && Positions(idx, |futs|)
    ensures Positions(idx[1..], |futs|)
    ensures ChangedAt(futs[idx[0] := change(futs[idx[0]])], idx[1..], change) == ChangedAt(futs, idx, change)
  {
    assert idx == [idx[0]] + idx[1..];
  }

  lemma {:induction false} PollsRun(s: State)
    requires s.phase.Ticking? && Positions(s.phase.rest, |s.futs|)
    ensures var futs := ChangedAt(s.futs, s.phase.rest, Polling(s.convert));
            Exec(s, Repeat(PollNext, |s.phase.rest|) + [EndTick]) ==
            Some(s.(futs := futs, phase := Idle(s.phase.kept + Silent(futs, s.phase.rest))))
    decreases |s.phase.rest|
  {
    var idx := s.phase.rest;
    if idx == [] {
      assert ChangedAt(s.futs, idx, Polling(s.convert)) == s.futs && s.phase.kept + Silent(s.futs, []) == s.phase.kept;
      assert Repeat(PollNext, 0) + [EndTick] == [EndTick] + [];
      Cons(s, EndTick, []);
    } else {
      var next := Next(s, PollNext);
      ChangeFirst(s.futs, idx, Polling(s.convert));
      PollsRun(next);
      KeptFirst(s, ChangedAt(s.futs, idx, Polling(s.convert)));
      assert Repeat(PollNext, |idx|) + [EndTick] == [PollNext] + (Repeat(PollNext, |idx| - 1) + [EndTick]);
      Cons(s, PollNext, Repeat(PollNext, |idx| - 1) + [EndTick]);
    }
  }

  /** The first position is kept exactly when its future, polled, has not emitted. */
  lemma {:induction false} KeptFirst(s: State, futs: seq<Fut>)
    requires s.phase.Ticking? && s.phase.rest != [] && Positions(s.phase.rest, |futs|) && |futs| == |s.futs|
    requires futs[s.phase.rest[0]] == Polled(s.convert, s.futs[s.phase.rest[0]])
    ensures Positions(s.phase.rest[1..], |futs|)
    ensures Next(s, PollNext).phase.kept + Silent(futs, s.phase.rest[1..]) == s.phase.kept + Silent(futs, s.phase.rest)
  {
    var kept, i, rest := s.phase.kept, s.phase.rest[0], s.phase.rest[1..];
    assert kept + ([i] + Silent(futs, rest)) == kept + [i] + Silent(futs, rest);
    assert kept + ([] + Silent(futs, rest)) == kept + Silent(futs, rest);
  }

  lemma {:induction false} ForcesRun(s: State)
    requires s.phase.Stopping? && Positions(s.phase.rest, |s.futs|)
    ensures Exec(s, Repeat(FailNext, |s.phase.rest|) + [EndStop]) ==
            Some(s.(futs := ChangedAt(s.futs, s.phase.rest, Forcing()), phase := Idle([])))
    decreases |s.phase.rest|
  {
    var idx := s.phase.rest;
    if idx == [] {
      assert ChangedAt(s.futs, idx, Forcing()) == s.futs;
      assert Repeat(FailNext, 0) + [EndStop] == [EndStop] + [];
      Cons(s, EndStop, []);
    } else {
      ChangeFirst(s.futs, idx, Forcing());
      ForcesRun(Next(s, FailNext));
      assert Repeat(FailNext, |idx|) + [EndStop] == [FailNext] + (Repeat(FailNext, |idx| - 1) + [EndStop]);
      Cons(s, FailNext, Repeat(FailNext, |idx| - 1) + [EndStop]);
    }
  }

  function TickSteps(s: State): seq<Step>
    requires s.phase.Idle?
  {
    [BeginTick] + (Repeat(PollNext, |s.phase.pending|) + [EndTick])
  }

  function StopSteps(s: State): seq<Step>
    requires s.phase.Idle?
  {
    [BeginStop] + (Repeat(FailNext, |s.phase.pending|) + [EndStop])
  }

  /** The list of objects stands for the machine's futures, and the peer's list for its pending ones. */
  ghost predicate Represents(peer: EntityPeer, all: seq<PeerOpFuture>, s: State)
    reads peer, all
  {
    && s.phase.Idle? && peer.convert == s.convert && |all| == |s.futs| && Positions(s.phase.pending, |all|)
    && (forall i, j :: 0 <= i < j < |all| ==> all[i] != all[j])
    && (forall i :: 0 <= i < |all| ==> all[i].View() == s.futs[i] && all[i].Valid())
    && peer.pending == Selected(all, s.phase.pending)
  }

  function Selected<T>(all: seq<T>, idx: seq<nat>): (r: seq<T>)
    requires forall k :: 0 <= k < |idx| ==> idx[k] < |all|
    ensures |r| == |idx| && forall k :: 0 <= k < |idx| ==> r[k] == all[idx[k]]
  {
    seq(|idx|, k requires 0 <= k < |idx| => all[idx[k]])
  }

  lemma {:induction false} SilentAre(futs: seq<Fut>, idx: seq<nat>)
    requires Positions(idx, |futs|)
    ensures Positions(Silent(futs, idx), |futs|)
    ensures forall i :: i in Silent(futs, idx) <==> i in idx && !futs[i].emitted
    decreases |idx|
  {
    if idx != [] {
      assert idx == [idx[0]] + idx[1..];
      SilentAre(futs, idx[1..]);
    }
  }

  lemma {:induction false} SilentSnoc(futs: seq<Fut>, idx: seq<nat>, i: nat)
    requires i < |futs| && forall k :: 0 <= k < |idx| ==> idx[k] < |futs|
    ensures Silent(futs, idx + [i]) == Silent(futs, idx) + if futs[i].emitted then [] else [i]
    decreases |idx|
  {
    if idx == [] {
      assert idx + [i] == [i] && [i][1..] == [];
    } else {
      assert (idx + [i])[1..] == idx[1..] + [i];
      SilentSnoc(futs, idx[1..], i);
    }
  }

  lemma {:induction false} SelectedSnoc(all: seq<PeerOpFuture>, idx: seq<nat>, i: nat)
    requires i < |all| && forall k :: 0 <= k < |idx| ==> idx[k] < |all|
    ensures Selected(all, idx + [i]) == Selected(all, idx) + [all[i]]
  {}

  lemma {:induction false} UnemittedSnoc(fs: seq<PeerOpFuture>, f: PeerOpFuture)
    ensures Unemitted(fs + [f]) == Unemitted(fs) + if f.emitted then [] else [f]
  {
    assert (fs + [f])[..|fs|] == fs;
  }

  /** Dropping the futures that have emitted, as objects and as positions. */
  lemma {:induction false} UnemittedSelected(all: seq<PeerOpFuture>, futs: seq<Fut>, idx: seq<nat>)
    requires |all| == |futs| && Positions(idx, |futs|) && forall i :: 0 <= i < |all| ==> all[i].emitted == futs[i].emitted
    ensures Positions(Silent(futs, idx), |futs|)
    ensures Unemitted(Selected(all, idx)) == Selected(all, Silent(futs, idx))
    decreases |idx|
  {
    SilentAre(futs, idx);
    if idx != [] {
      var n := |idx| - 1;
      var front, last := idx[..n], idx[n];
      assert idx == front + [last];
      UnemittedSelected(all, futs, front);
      assert Silent(futs, idx) == Silent(futs, front) + (if futs[last].emitted then [] else [last]) by { SilentSnoc(futs, front, last); }
      assert Selected(all, idx) == Selected(all, front) + [all[last]] by { SelectedSnoc(all, front, last); }
      UnemittedSnoc(Selected(all, front), all[last]);
      if futs[last].emitted {
        assert Silent(futs, idx) == Silent(futs, front);
      } else {
        SelectedSnoc(all, Silent(futs, front), last);
      }
    }
  }

  /** A frame of the peer is the run of the machine that begins a tick, polls every pending future and ends it. */
  method Frame(peer: EntityPeer, ghost all: seq<PeerOpFuture>, ghost s: State) returns (ghost s': State)
    requires Represents(peer, all, s)
    modifies peer`pending, all
    ensures Represents(peer, all, s') && Exec(s, TickSteps(s)) == Some(s')
  {
    ghost var idx := s.phase.pending;
    s' := Ticked(s);
    FrameSteps(s);
    peer.Process();
    forall i | 0 <= i < |all| ensures all[i].View() == s'.futs[i] && all[i].Valid() {
      SelectedMember(all, idx, i);
    }
    UnemittedSelected(all, s'.futs, idx);
  }

  /** A stop of the peer is the run that begins a stop, force-completes every pending future and ends it. */
  method StopNow(peer: EntityPeer, ghost all: seq<PeerOpFuture>, ghost s: State) returns (ghost s': State)
    requires Represents(peer, all, s)
    modifies peer`pending, all
    ensures Represents(peer, all, s') && Exec(s, StopSteps(s)) == Some(s')
  {
    ghost var idx := s.phase.pending;
    s' := Stopped(s);
    Cons(s, BeginStop, Repeat(FailNext, |idx|) + [EndStop]);
    ForcesRun(Next(s, BeginStop));
    peer.Stop();
    forall i | 0 <= i < |all| ensures all[i].View() == s'.futs[i] && all[i].Valid() {
      SelectedMember(all, idx, i);
    }
  }

  lemma {:induction false} FrameSteps(s: State)
    requires s.phase.Idle? && Positions(s.phase.pending, |s.futs|)
    ensures Exec(s, TickSteps(s)) == Some(Ticked(s))
  {
    var idx := s.phase.pending;
    Cons(s, BeginTick, Repeat(PollNext, |idx|) + [EndTick]);
    PollsRun(Next(s, BeginTick));
    var futs := ChangedAt(s.futs, idx, Polling(s.convert));
    assert [] + Silent(futs, idx) == Silent(futs, idx);
  }

  /** An object is in the selection exactly when its position is. */
  lemma {:induction false} SelectedMember(all: seq<PeerOpFuture>, idx: seq<nat>, i: nat)
    requires i < |all| && Positions(idx, |all|) && forall a, b :: 0 <= a < b < |all| ==> all[a] != all[b]
    ensures all[i] in Selected(all, idx) <==> i in idx
  {
    if i in idx {
      var k :| 0 <= k < |idx| && idx[k] == i;
      assert Selected(all, idx)[k] == all[i];
    }
    if all[i] in Selected(all, idx) {
      var k :| 0 <= k < |idx| && Selected(all, idx)[k] == all[i];
      assert idx[k] == i;
    }
  }
}
