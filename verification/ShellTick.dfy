/** One tick of the shell: every active stream is drained, and closed ones are swap-removed on the way. */
module ShellTick {

  datatype Chunk = Dispatched(text: string) | Line(text: string) | Progress(text: string) | Complete(text: string) | Failed(message: string)

  /** What a receiver has to give: the chunks that reach it before it reports empty or disconnected. */
  datatype Stream = Stream(queue: seq<Chunk>, closed: bool)

  function Render(c: Chunk): string {
    if c.Failed? then "error: " + c.message else c.text
  }

  function RenderAll(cs: seq<Chunk>): seq<string> {
    if cs == [] then [] else RenderAll(cs[..|cs| - 1]) + [Render(cs[|cs| - 1])]
  }

  /** The rendered chunks of streams drained one after another. */
  function Output(ss: seq<Stream>): seq<string> {
    if ss == [] then [] else Output(ss[..|ss| - 1]) + RenderAll(ss[|ss| - 1].queue)
  }

  function Drained(s: Stream): Stream {
    s.(queue := [])
  }

  /** The open streams of a list, drained, in order. */
  function StillOpen(ss: seq<Stream>): seq<Stream> {
    if ss == [] then []
    else
      var last := ss[|ss| - 1];
      StillOpen(ss[..|ss| - 1]) + if last.closed then [] else [Drained(last)]
  }

  /** What a swap-remove at the front leaves: the last one has come to the front. */
  function LastToFront<T>(rest: seq<T>): (r: seq<T>)
    ensures |r| == |rest|
  {
    if rest == [] then [] else [rest[|rest| - 1]] + rest[..|rest| - 1]
  }

  /** The streams in the order the loop comes to them. */
  function Visited(ss: seq<Stream>): seq<Stream>
    decreases |ss|
  {
    if ss == [] then []
    else [ss[0]] + if ss[0].closed then Visited(LastToFront(ss[1..])) else Visited(ss[1..])
  }

  /** `drain_stream`. */
  method DrainStream(s: Stream, out: seq<string>) returns (rest: Stream, out': seq<string>, done: bool)
    ensures rest == Drained(s) && out' == out + RenderAll(s.queue) && done == s.closed
  {
    rest, out' := s, out;
    ghost var n := 0;
    while rest.queue != []
      invariant n <= |s.queue| && rest == s.(queue := s.queue[n..])
      invariant out' == out + RenderAll(s.queue[..n])
      decreases |rest.queue|
    {
      out' := out' + [Render(rest.queue[0])];
      rest := rest.(queue := rest.queue[1..]);
      assert s.queue[..n + 1][..n] == s.queue[..n];
      n := n + 1;
    }
    assert s.queue[..|s.queue|] == s.queue;
    done := rest.closed;
  }

  method SwapRemove(ss: seq<Stream>, i: nat) returns (r: seq<Stream>)
    requires i < |ss|
    ensures |r| == |ss| - 1 && r[..i] == ss[..i] && r[i..] == LastToFront(ss[i + 1..])
  {
    var last := |ss| - 1;
    if i == last {
      r := ss[..i];
    } else {
      r := ss[..i] + [ss[last]] + ss[i + 1..last];
      assert ss[i + 1..][..last - i - 1] == ss[i + 1..last];
    }
  }

  /** One turn of the loop: the stream at the cursor is drained, and removed if it has closed. */
  method Turn(ss: seq<Stream>, i: nat, out: seq<string>) returns (ss': seq<Stream>, i': nat, out': seq<string>)
    requires i < |ss|
    ensures i' <= |ss'| && |ss'| - i' < |ss| - i && out' == out + RenderAll(ss[i].queue)
    ensures ss'[..i'] == ss[..i] + if ss[i].closed then [] else [Drained(ss[i])]
    ensures ss'[i'..] == if ss[i].closed then LastToFront(ss[i + 1..]) else ss[i + 1..]
  {
    var rest, done;
    rest, out', done := DrainStream(ss[i], out);
    ss', i' := ss[i := rest], i;
    if done {
      ss' := SwapRemove(ss', i);
    } else {
      i' := i + 1;
    }
  }

  class EntityShell {
    var activeStreams: seq<Stream>

    constructor ()
      ensures activeStreams == []
    {
      activeStreams := [];
    }

    method Tick() returns (out: seq<string>)
      modifies this
      ensures out == Output(Visited(old(activeStreams)))
      ensures activeStreams == StillOpen(Visited(old(activeStreams)))
    {
      out := [];
      var i: nat := 0;
      ghost var all, seen := Visited(activeStreams), [];
      assert activeStreams[0..] == activeStreams;
      while i < |activeStreams|
        invariant i <= |activeStreams|
        invariant all == seen + Visited(activeStreams[i..])
        invariant out == Output(seen) && activeStreams[..i] == StillOpen(seen)
        decreases |activeStreams| - i
      {
        ghost var ahead := activeStreams[i..];
        assert ahead[0] == activeStreams[i] && ahead[1..] == activeStreams[i + 1..];
        VisitStep(ahead, seen);
        SeenMore(seen, ahead[0]);
        activeStreams, i, out := Turn(activeStreams, i, out);
        seen := seen + [ahead[0]];
      }
      assert activeStreams[..i] == activeStreams && activeStreams[i..] == [];
      assert all == seen;
    }
  }

  lemma {:induction false} Regroup(a: seq<Stream>, b: seq<Stream>, c: seq<Stream>)
    ensures a + (b + c) == a + b + c
  {}

  lemma {:induction false} SeenMore(seen: seq<Stream>, s: Stream)
    ensures Output(seen + [s]) == Output(seen) + RenderAll(s.queue)
    ensures StillOpen(seen + [s]) == StillOpen(seen) + if s.closed then [] else [Drained(s)]
  {
    assert (seen + [s])[..|seen|] == seen;
  }

  /** One turn of the loop: the stream at the cursor is the next to be visited. */
  lemma {:induction false} VisitStep(ahead: seq<Stream>, seen: seq<Stream>)
    requires ahead != []
    ensures var next := if ahead[0].closed then LastToFront(ahead[1..]) else ahead[1..];
            seen + Visited(ahead) == (seen + [ahead[0]]) + Visited(next)
  {
    var next := if ahead[0].closed then LastToFront(ahead[1..]) else ahead[1..];
    Regroup(seen, [ahead[0]], Visited(next));
  }

  // ---------- what the order of visits comes to ----------

  /** Each stream is drained exactly once, whatever the swaps do to the order. */
  lemma {:induction false} EachStreamDrainedOnce(ss: seq<Stream>)
    ensures multiset(Visited(ss)) == multiset(ss)
    decreases |ss|
  {
    if ss != [] {
      var rest := ss[1..];
      assert ss == [ss[0]] + rest;
      if ss[0].closed {
        LastToFrontPermutes(rest);
        EachStreamDrainedOnce(LastToFront(rest));
      } else {
        EachStreamDrainedOnce(rest);
      }
    }
  }

  lemma {:induction false} LastToFrontPermutes<T>(rest: seq<T>)
    ensures multiset(LastToFront(rest)) == multiset(rest)
  {
    if rest != [] {
      assert rest == rest[..|rest| - 1] + [rest[|rest| - 1]];
    }
  }

  /** How often a stream occurs among those still open, counted from the list itself. */
  function OpenCount(ss: seq<Stream>, x: Stream): nat {
    if ss == [] then 0
    else OpenCount(ss[..|ss| - 1], x) + if !ss[|ss| - 1].closed && Drained(ss[|ss| - 1]) == x then 1 else 0
  }

  lemma {:induction false} StillOpenCounts(ss: seq<Stream>, x: Stream)
    ensures multiset(StillOpen(ss))[x] == OpenCount(ss, x)
    decreases |ss|
  {
    if ss != [] { StillOpenCounts(ss[..|ss| - 1], x); }
  }

  lemma {:induction false} OpenCountConcat(a: seq<Stream>, b: seq<Stream>, x: Stream)
    ensures OpenCount(a + b, x) == OpenCount(a, x) + OpenCount(b, x)
    decreases |b|
  {
    if b == [] {
      assert a + b == a;
    } else {
      assert (a + b)[..|a + b| - 1] == a + b[..|b| - 1];
      OpenCountConcat(a, b[..|b| - 1], x);
    }
  }

  lemma {:induction false} VisitedOpenCount(ss: seq<Stream>, x: Stream)
    ensures OpenCount(Visited(ss), x) == OpenCount(ss, x)
    decreases |ss|
  {
    if ss != [] {
      var rest := ss[1..];
      assert ss == [ss[0]] + rest;
      OpenCountConcat([ss[0]], rest, x);
      if ss[0].closed {
        var swapped := LastToFront(rest);
        if rest != [] {
          var front, last := rest[..|rest| - 1], [rest[|rest| - 1]];
          assert rest == front + last && swapped == last + front;
          OpenCountConcat(front, last, x);
          OpenCountConcat(last, front, x);
        }
        VisitedOpenCount(swapped, x);
        OpenCountConcat([ss[0]], Visited(swapped), x);
      } else {
        VisitedOpenCount(rest, x);
        OpenCountConcat([ss[0]], Visited(rest), x);
      }
    }
  }

  /** What is left after a tick is exactly the streams that are still open, each of them emptied. */
  lemma {:induction false} OpenStreamsRemain(ss: seq<Stream>)
    ensures multiset(StillOpen(Visited(ss))) == multiset(StillOpen(ss))
  {
    forall x ensures multiset(StillOpen(Visited(ss)))[x] == multiset(StillOpen(ss))[x] {
      StillOpenCounts(Visited(ss), x);
      StillOpenCounts(ss, x);
      VisitedOpenCount(ss, x);
    }
  }

  ghost predicate NoneClosed(ss: seq<Stream>) {
    forall i :: 0 <= i < |ss| ==> !ss[i].closed
  }

  /** Where nothing has closed, the streams are drained in their order. */
  lemma {:induction false} OpenStreamsInOrder(ss: seq<Stream>)
    requires NoneClosed(ss)
    ensures Visited(ss) == ss
    decreases |ss|
  {
    if ss != [] {
      OpenStreamsInOrder(ss[1..]);
      assert ss == [ss[0]] + ss[1..];
    }
  }

  /** When a stream has closed, the last one takes its turn next, and the others follow in their order. */
  lemma {:induction false} LastFollowsClosed(before: seq<Stream>, closed: Stream, between: seq<Stream>, last: Stream)
    requires NoneClosed(before) && closed.closed && NoneClosed(between) && !last.closed
    ensures Visited(before + [closed] + between + [last]) == before + [closed] + [last] + between
    decreases |before|
  {
    var ss := before + [closed] + between + [last];
    if before == [] {
      var rest := between + [last];
      assert ss[0] == closed && ss[1..] == rest;
      assert LastToFront(rest) == [last] + between;
      OpenStreamsInOrder([last] + between);
    } else {
      assert ss[1..] == before[1..] + [closed] + between + [last] && ss[0] == before[0];
      LastFollowsClosed(before[1..], closed, between, last);
      assert [before[0]] + (before[1..] + [closed] + [last] + between) == before + [closed] + [last] + between;
    }
  }

  // ---------- the output ----------

  /** The positions of a list. */
  function Positions(n: nat): (r: seq<nat>)
    ensures |r| == n && forall i :: 0 <= i < n ==> r[i] == i
  {
    seq(n, i => i)
  }

  predicate InRange(order: seq<nat>, n: nat) {
    forall i :: 0 <= i < |order| ==> order[i] < n
  }

  function Chosen(ss: seq<Stream>, order: seq<nat>): (r: seq<Stream>)
    requires InRange(order, |ss|)
    ensures |r| == |order| && forall i :: 0 <= i < |r| ==> r[i] == ss[order[i]]
  {
    seq(|order|, i requires 0 <= i < |order| => ss[order[i]])
  }

  /** The whole rendered queues of the streams at these positions, one after another. */
  function Blocks(ss: seq<Stream>, order: seq<nat>): seq<string>
    requires InRange(order, |ss|)
  {
    if order == [] then [] else Blocks(ss, order[..|order| - 1]) + RenderAll(ss[order[|order| - 1]].queue)
  }

  lemma {:induction false} OutputOfChosen(ss: seq<Stream>, order: seq<nat>)
    requires InRange(order, |ss|)
    ensures Output(Chosen(ss, order)) == Blocks(ss, order)
    decreases |order|
  {
    if order != [] {
      var n := |order| - 1;
      OutputOfChosen(ss, order[..n]);
      assert Chosen(ss, order)[..n] == Chosen(ss, order[..n]);
    }
  }

  lemma {:induction false} LastToFrontInRange(idx: seq<nat>, n: nat)
    requires InRange(idx, n)
    ensures InRange(LastToFront(idx), n)
  {}

  /** The order of visits, by position. */
  function VisitOrder(ss: seq<Stream>, idx: seq<nat>): seq<nat>
    requires InRange(idx, |ss|)
    decreases |idx|
  {
    if idx == [] then []
    else
      LastToFrontInRange(idx[1..], |ss|);
      [idx[0]] + VisitOrder(ss, if ss[idx[0]].closed then LastToFront(idx[1..]) else idx[1..])
  }

  lemma {:induction false} VisitOrderInRange(ss: seq<Stream>, idx: seq<nat>)
    requires InRange(idx, |ss|)
    ensures InRange(VisitOrder(ss, idx), |ss|)
    decreases |idx|
  {
    if idx != [] {
      LastToFrontInRange(idx[1..], |ss|);
      VisitOrderInRange(ss, if ss[idx[0]].closed then LastToFront(idx[1..]) else idx[1..]);
    }
  }

  lemma {:induction false} VisitOrderPermutes(ss: seq<Stream>, idx: seq<nat>)
    requires InRange(idx, |ss|)
    ensures multiset(VisitOrder(ss, idx)) == multiset(idx)
    decreases |idx|
  {
    if idx != [] {
      var rest := idx[1..];
      LastToFrontInRange(rest, |ss|);
      LastToFrontPermutes(rest);
      VisitOrderPermutes(ss, if ss[idx[0]].closed then LastToFront(rest) else rest);
      assert idx == [idx[0]] + rest;
    }
  }

  lemma {:induction false} ChosenLastToFront(ss: seq<Stream>, idx: seq<nat>)
    requires InRange(idx, |ss|) && InRange(LastToFront(idx), |ss|)
    ensures Chosen(ss, LastToFront(idx)) == LastToFront(Chosen(ss, idx))
  {}

  lemma {:induction false} ChosenCons(ss: seq<Stream>, i: nat, rest: seq<nat>)
    requires i < |ss| && InRange(rest, |ss|)
    ensures InRange([i] + rest, |ss|) && Chosen(ss, [i] + rest) == [ss[i]] + Chosen(ss, rest)
  {}

  lemma {:induction false} VisitCons(s: Stream, rest: seq<Stream>)
    ensures Visited([s] + rest) == [s] + Visited(if s.closed then LastToFront(rest) else rest)
  {
    assert ([s] + rest)[1..] == rest;
  }

  lemma {:induction false} VisitOrderVisits(ss: seq<Stream>, idx: seq<nat>)
    requires InRange(idx, |ss|) && InRange(VisitOrder(ss, idx), |ss|)
    ensures Visited(Chosen(ss, idx)) == Chosen(ss, VisitOrder(ss, idx))
    decreases |idx|
  {
    if idx != [] {
      var i, rest := idx[0], idx[1..];
      LastToFrontInRange(rest, |ss|);
      var next := if ss[i].closed then LastToFront(rest) else rest;
      VisitOrderInRange(ss, next);
      VisitOrderVisits(ss, next);
      assert idx == [i] + rest;
      ChosenCons(ss, i, rest);
      ChosenCons(ss, i, VisitOrder(ss, next));
      VisitCons(ss[i], Chosen(ss, rest));
      if ss[i].closed { ChosenLastToFront(ss, rest); }
    }
  }

  /** The output of a tick is the rendered queues of the streams, each complete, in order and in one piece, every position exactly once. */
  lemma {:induction false} OutputHoldsEachQueueOnce(ss: seq<Stream>) returns (order: seq<nat>)
    ensures multiset(order) == multiset(Positions(|ss|)) && InRange(order, |ss|)
    ensures Output(Visited(ss)) == Blocks(ss, order)
  {
    var idx := Positions(|ss|);
    order := VisitOrder(ss, idx);
    VisitOrderInRange(ss, idx);
    VisitOrderPermutes(ss, idx);
    VisitOrderVisits(ss, idx);
    assert Chosen(ss, idx) == ss;
    OutputOfChosen(ss, order);
  }
}
