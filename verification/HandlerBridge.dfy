/**
 The handler bridge of a Godot peer.  A dispatch runs on a worker thread: it takes a request id,
 parks the sending half of a one-shot channel in the shared map, announces itself over the
 request channel and awaits the one-shot.  The main thread answers by id, or stops
 the peer: it drops the request channel, then clears the map.  One step here is one stretch
 that no other thread can split, so every interleaving is a run.
 */
module HandlerBridge {
  import opened Wrappers

  const U64 := 0x1_0000_0000_0000_0000
  const I64_MAX := 0x7fff_ffff_ffff_ffff

  datatype Outcome = Answer(status: nat, resultType: string, data: seq<nat>) | Refusal(kind: string, message: string)

  datatype Reply = Responded(outcome: Outcome) | BridgeDropped | ChannelDropped

  datatype Pc = Allocated | Inserted | Sent | SendFailed | Resolved(reply: Reply) | Cancelled

  /** Where the sending half of the one-shot is. */
  datatype Sender = NotMade | InMap | Delivered(outcome: Outcome) | Dropped

  /** `ordinal` counts the invocations of one handler; `rid` is what its counter gave out. */
  datatype Invocation = Invocation(handler: nat, ordinal: nat, rid: nat, channel: nat, pc: Pc, sender: Sender)

  datatype Handler = Handler(channel: nat, invoked: nat)

  /** A response that was accepted: the id it named and the invocation it went to. */
  datatype Delivery = Delivery(rid: nat, to: nat, outcome: Outcome)

  datatype State = State(
    handlers: seq<Handler>,
    invocations: seq<Invocation>,
    pending: map<nat, nat>,
    closed: seq<bool>,
    current: Option<nat>,
    stopping: bool,
    accepted: seq<Delivery>)

  datatype Step =
    | Register
    | Begin(h: nat)
    | Insert(i: nat)
    | Send(i: nat)
    | CleanUp(i: nat)
    | Await(i: nat)
    | Cancel(i: nat)
    | Respond(id: int, outcome: Outcome)
    | StopChannel
    | StopClear

  const FIRST_ID := 1

  const Initial := State([], [], map[], [], None, false, [])

  /** Ids travel to the script as signed integers and come back the same way. */
  function AsI64(u: nat): int {
    if u <= I64_MAX then u else u - U64
  }

  function AsU64(i: int): nat {
    i % U64
  }

  lemma IdSurvivesScript(u: nat)
    requires u < U64
    ensures AsU64(AsI64(u)) == u
  {}

  predicate Enabled(s: State, step: Step) {
    match step
    case Register => !s.stopping
    case Begin(h) => h < |s.handlers|
    case Insert(i) => i < |s.invocations| && s.invocations[i].pc.Allocated?
    case Send(i) => i < |s.invocations| && s.invocations[i].pc.Inserted? && s.invocations[i].channel < |s.closed|
    case CleanUp(i) => i < |s.invocations| && s.invocations[i].pc.SendFailed?
    case Await(i) => i < |s.invocations| && s.invocations[i].pc.Sent? &&
                     (s.invocations[i].sender.Delivered? || s.invocations[i].sender.Dropped?)
    case Cancel(i) => i < |s.invocations| && (s.invocations[i].pc.Sent? || s.invocations[i].pc.SendFailed?)
    case Respond(_, _) => !s.stopping
    case StopChannel => !s.stopping
    case StopClear => s.stopping
  }

  function SetPc(s: State, i: nat, pc: Pc): State
    requires i < |s.invocations|
  {
    s.(invocations := s.invocations[i := s.invocations[i].(pc := pc)])
  }

  function SetSender(invocations: seq<Invocation>, i: nat, sender: Sender): seq<Invocation> {
    if i < |invocations| then invocations[i := invocations[i].(sender := sender)] else invocations
  }

  /** Taking an id out of the map drops the sender it held. */
  function DropSender(s: State, rid: nat): State {
    if rid in s.pending
    then s.(pending := s.pending - {rid}, invocations := SetSender(s.invocations, s.pending[rid], Dropped))
    else s
  }

  function Cleared(inv: Invocation): Invocation {
    if inv.sender.InMap? then inv.(sender := Dropped) else inv
  }

  function ClearedAll(invocations: seq<Invocation>): (r: seq<Invocation>)
    ensures |r| == |invocations| && forall i :: 0 <= i < |r| ==> r[i] == Cleared(invocations[i])
  {
    seq(|invocations|, i requires 0 <= i < |invocations| => Cleared(invocations[i]))
  }

  function Next(s: State, step: Step): State
    requires Enabled(s, step)
  {
    match step
    case Register =>
      var s' := if s.current.Some? then s else s.(current := Some(|s.closed|), closed := s.closed + [false]);
      s'.(handlers := s'.handlers + [Handler(s'.current.value, 0)])
    case Begin(h) =>
      var n := s.handlers[h].invoked;
      var inv := Invocation(h, n, (FIRST_ID + n) % U64, s.handlers[h].channel, Allocated, NotMade);
      s.(invocations := s.invocations + [inv], handlers := s.handlers[h := s.handlers[h].(invoked := n + 1)])
    case Insert(i) =>
      // an older sender under the same id is replaced, and dropped
      var s' := SetPc(DropSender(s, s.invocations[i].rid), i, Inserted);
      s'.(invocations := SetSender(s'.invocations, i, InMap), pending := s'.pending[s.invocations[i].rid := i])
    case Send(i) => SetPc(s, i, if s.closed[s.invocations[i].channel] then SendFailed else Sent)
    case CleanUp(i) => SetPc(DropSender(s, s.invocations[i].rid), i, Resolved(BridgeDropped))
    case Await(i) =>
      var sender := s.invocations[i].sender;
      SetPc(s, i, Resolved(if sender.Delivered? then Responded(sender.outcome) else ChannelDropped))
    case Cancel(i) => SetPc(s, i, Cancelled)
    case Respond(id, outcome) =>
      var rid := AsU64(id);
      if rid in s.pending then
        s.(pending := s.pending - {rid},
           invocations := SetSender(s.invocations, s.pending[rid], Delivered(outcome)),
           accepted := s.accepted + [Delivery(rid, s.pending[rid], outcome)])
      else s
    case StopChannel =>
      s.(stopping := true, current := None,
         closed := if s.current.Some? && s.current.value < |s.closed| then s.closed[s.current.value := true] else s.closed)
    case StopClear =>
      s.(stopping := false, pending := map[], invocations := ClearedAll(s.invocations))
  }

  function Exec(s: State, steps: seq<Step>): Option<State>
    decreases |steps|
  {
    if steps == [] then Some(s)
    else if Enabled(s, steps[0]) then Exec(Next(s, steps[0]), steps[1..])
    else None
  }

  // ---------- what every step keeps ----------

  /** The map and the parked senders mirror each other. */
  ghost predicate MapMirrors(s: State) {
    && (forall r :: r in s.pending ==>
          s.pending[r] < |s.invocations| && s.invocations[s.pending[r]].rid == r && s.invocations[s.pending[r]].sender.InMap?)
    && (forall i :: 0 <= i < |s.invocations| && s.invocations[i].sender.InMap? ==>
          s.invocations[i].rid in s.pending && s.pending[s.invocations[i].rid] == i)
    && (forall i :: 0 <= i < |s.invocations| ==> (s.invocations[i].sender.NotMade? <==> s.invocations[i].pc.Allocated?))
  }

  /** Only the current channel is open, and on a closed one a sender waits only while a stop is under way. */
  ghost predicate ChannelsOk(s: State) {
    && (s.current.Some? ==> s.current.value < |s.closed|)
    && (forall c :: 0 <= c < |s.closed| && !s.closed[c] ==> s.current == Some(c))
    && (forall c :: 0 <= c < |s.closed| && s.closed[c] ==> s.current != Some(c))
    && (forall h :: 0 <= h < |s.handlers| ==> s.handlers[h].channel < |s.closed|)
    && (forall i :: 0 <= i < |s.invocations| ==> s.invocations[i].channel < |s.closed|)
  }

  /** Invocation `i` was announced and still waits for an answer. */
  predicate Waits(s: State, i: int) {
    0 <= i < |s.invocations| && s.invocations[i].pc.Sent? && s.invocations[i].sender.InMap?
  }

  ghost predicate WaitersLive(s: State) {
    forall i :: Waits(s, i) && s.invocations[i].channel < |s.closed| && s.closed[s.invocations[i].channel] ==> s.stopping
  }

  ghost predicate Numbered(s: State) {
    && (forall i :: 0 <= i < |s.invocations| ==>
          && s.invocations[i].handler < |s.handlers|
          && s.invocations[i].channel == s.handlers[s.invocations[i].handler].channel
          && s.invocations[i].ordinal < s.handlers[s.invocations[i].handler].invoked
          && s.invocations[i].rid == (FIRST_ID + s.invocations[i].ordinal) % U64)
    && (forall i, j :: 0 <= i < j < |s.invocations| && s.invocations[i].handler == s.invocations[j].handler ==>
          s.invocations[i].ordinal != s.invocations[j].ordinal)
  }

  ghost predicate IsOrdinal(s: State, i: int, h: int, n: int) {
    0 <= i < |s.invocations| && s.invocations[i].handler == h && s.invocations[i].ordinal == n
  }

  ghost predicate HasOrdinal(s: State, h: int, n: int) {
    exists i :: IsOrdinal(s, i, h, n)
  }

  /** Every ordinal a handler has given out belongs to an invocation. */
  ghost predicate Covered(s: State) {
    forall h, n :: 0 <= h < |s.handlers| && 0 <= n < s.handlers[h].invoked ==> HasOrdinal(s, h, n)
  }

  ghost predicate Received(s: State, d: Delivery) {
    d.to < |s.invocations| && s.invocations[d.to].rid == d.rid && s.invocations[d.to].sender == Delivered(d.outcome)
  }

  /** Each accepted response is the one and only delivery of its invocation. */
  ghost predicate DeliveriesOk(s: State) {
    && (forall k :: 0 <= k < |s.accepted| ==> Received(s, s.accepted[k]))
    && (forall j, k :: 0 <= j < k < |s.accepted| ==> s.accepted[j].to != s.accepted[k].to)
    && (forall i :: 0 <= i < |s.invocations| && s.invocations[i].sender.Delivered? ==>
          exists k :: 0 <= k < |s.accepted| && s.accepted[k].to == i)
    && (forall i :: 0 <= i < |s.invocations| && s.invocations[i].pc.Resolved? && s.invocations[i].pc.reply.Responded? ==>
          s.invocations[i].sender == Delivered(s.invocations[i].pc.reply.outcome))
  }

  /** A body reports a dropped one-shot only if its sender was dropped, and a dropped bridge only if its request channel is closed. */
  ghost predicate FailuresOk(s: State) {
    && (forall i :: 0 <= i < |s.invocations| && s.invocations[i].pc == Resolved(ChannelDropped) ==> s.invocations[i].sender.Dropped?)
    && (forall i :: 0 <= i < |s.invocations| && FoundNoBridge(s.invocations[i].pc) ==> OnClosedChannel(s, i))
  }

  predicate FoundNoBridge(pc: Pc) {
    pc.SendFailed? || pc == Resolved(BridgeDropped)
  }

  predicate OnClosedChannel(s: State, i: int)
    requires 0 <= i < |s.invocations|
  {
    s.invocations[i].channel < |s.closed| && s.closed[s.invocations[i].channel]
  }

  ghost predicate Inv(s: State) {
    MapMirrors(s) && ChannelsOk(s) && WaitersLive(s) && Numbered(s) && Covered(s) && DeliveriesOk(s) && FailuresOk(s)
  }

  lemma {:induction false} DropKeepsMirror(s: State, rid: nat)
    requires MapMirrors(s)
    ensures MapMirrors(DropSender(s, rid)) && rid !in DropSender(s, rid).pending
  {}

  lemma {:induction false} MapMirrorsInsert(s: State, i: nat)
    requires MapMirrors(s) && Enabled(s, Insert(i))
    ensures MapMirrors(Next(s, Insert(i)))
  {
    var d := DropSender(s, s.invocations[i].rid);
    DropKeepsMirror(s, s.invocations[i].rid);
    var s' := Next(s, Insert(i));
    assert s'.invocations == d.invocations[i := d.invocations[i].(pc := Inserted, sender := InMap)];
    assert forall k :: 0 <= k < |s'.invocations| && k != i ==> s'.invocations[k] == d.invocations[k];
  }

  lemma {:induction false} PcKeepsMirror(s: State, i: nat, pc: Pc)
    requires MapMirrors(s) && i < |s.invocations| && !s.invocations[i].pc.Allocated? && !pc.Allocated?
    ensures MapMirrors(SetPc(s, i, pc))
  {}

  lemma {:induction false} MapMirrorsMainThread(s: State, step: Step)
    requires MapMirrors(s) && Enabled(s, step) && (step.Respond? || step.StopClear? || step.Begin?)
    ensures MapMirrors(Next(s, step))
  {}

  lemma {:induction false} MapMirrorsStep(s: State, step: Step)
    requires MapMirrors(s) && Enabled(s, step)
    ensures MapMirrors(Next(s, step))
  {
    match step
    case Insert(i) => MapMirrorsInsert(s, i);
    case CleanUp(i) =>
      DropKeepsMirror(s, s.invocations[i].rid);
      PcKeepsMirror(DropSender(s, s.invocations[i].rid), i, Resolved(BridgeDropped));
    case Send(i) => PcKeepsMirror(s, i, Next(s, step).invocations[i].pc);
    case Await(i) => PcKeepsMirror(s, i, Next(s, step).invocations[i].pc);
    case Cancel(i) => PcKeepsMirror(s, i, Cancelled);
    case Register => assert Next(s, step).invocations == s.invocations && Next(s, step).pending == s.pending;
    case StopChannel => assert Next(s, step).invocations == s.invocations && Next(s, step).pending == s.pending;
    case _ => MapMirrorsMainThread(s, step);
  }

  /** No step changes who an existing invocation is. */
  lemma {:induction false} IdentityKept(s: State, step: Step, i: nat)
    requires Enabled(s, step) && i < |s.invocations|
    ensures var s' := Next(s, step);
            && i < |s'.invocations|
            && s'.invocations[i].handler == s.invocations[i].handler
            && s'.invocations[i].ordinal == s.invocations[i].ordinal
            && s'.invocations[i].rid == s.invocations[i].rid
            && s'.invocations[i].channel == s.invocations[i].channel
  {}

  /** An invocation comes to wait only by sending over an open channel, or waited before. */
  lemma {:induction false} WaitsBefore(s: State, step: Step, i: nat)
    requires MapMirrors(s) && Enabled(s, step) && Waits(Next(s, step), i)
    ensures i < |s.invocations| && !step.StopClear?
    ensures Waits(s, i) || (step == Send(i) && s.invocations[i].channel < |s.closed| && !s.closed[s.invocations[i].channel])
  {}

  lemma {:induction false} WaitersStep(s: State, step: Step)
    requires MapMirrors(s) && ChannelsOk(s) && WaitersLive(s) && Enabled(s, step)
    ensures WaitersLive(Next(s, step))
  {
    var s' := Next(s, step);
    forall i | Waits(s', i) && s'.invocations[i].channel < |s'.closed| && s'.closed[s'.invocations[i].channel] ensures s'.stopping {
      WaitsBefore(s, step, i);
      IdentityKept(s, step, i);
    }
  }

  lemma {:induction false} ChannelsStep(s: State, step: Step)
    requires ChannelsOk(s) && Enabled(s, step)
    ensures ChannelsOk(Next(s, step))
  {
    var s' := Next(s, step);
    forall i | 0 <= i < |s.invocations| ensures s'.invocations[i].channel == s.invocations[i].channel {
      IdentityKept(s, step, i);
    }
    assert !step.Begin? ==> |s'.invocations| == |s.invocations|;
    assert !step.Register? && !step.StopChannel? ==> s'.closed == s.closed && s'.current == s.current;
  }

  lemma {:induction false} NumberedBegin(s: State, h: nat)
    requires Numbered(s) && Enabled(s, Begin(h))
    ensures Numbered(Next(s, Begin(h)))
  {
    var s' := Next(s, Begin(h));
    assert forall i :: 0 <= i < |s.invocations| ==> s'.invocations[i] == s.invocations[i];
  }

  lemma {:induction false} NumberedStep(s: State, step: Step)
    requires Numbered(s) && Enabled(s, step)
    ensures Numbered(Next(s, step))
  {
    if step.Begin? {
      NumberedBegin(s, step.h);
    } else {
      var s' := Next(s, step);
      assert |s'.invocations| == |s.invocations| && s.handlers <= s'.handlers;
      forall i | 0 <= i < |s.invocations|
        ensures s'.invocations[i].handler == s.invocations[i].handler && s'.invocations[i].ordinal == s.invocations[i].ordinal
             && s'.invocations[i].rid == s.invocations[i].rid && s'.invocations[i].channel == s.invocations[i].channel
      {
        IdentityKept(s, step, i);
      }
    }
  }

  lemma {:induction false} CoveredStep(s: State, step: Step)
    requires Covered(s) && Enabled(s, step)
    ensures Covered(Next(s, step))
  {
    var s' := Next(s, step);
    forall h, n | 0 <= h < |s'.handlers| && 0 <= n < s'.handlers[h].invoked ensures HasOrdinal(s', h, n) {
      if h < |s.handlers| && n < s.handlers[h].invoked {
        assert HasOrdinal(s, h, n);
        var i :| IsOrdinal(s, i, h, n);
        IdentityKept(s, step, i);
        assert IsOrdinal(s', i, h, n);
      } else {
        assert IsOrdinal(s', |s.invocations|, h, n);
      }
    }
  }

  lemma {:induction false} DeliveriesRespond(s: State, id: int, outcome: Outcome)
    requires MapMirrors(s) && DeliveriesOk(s) && !s.stopping
    ensures DeliveriesOk(Next(s, Respond(id, outcome)))
  {
    var s' := Next(s, Respond(id, outcome));
    var rid := AsU64(id);
    if rid in s.pending {
      assert forall i :: 0 <= i < |s.invocations| && i != s.pending[rid] ==> s'.invocations[i] == s.invocations[i];
      assert s'.accepted[|s.accepted|].to == s.pending[rid];
      forall i | 0 <= i < |s'.invocations| && s'.invocations[i].sender.Delivered?
        ensures exists k :: 0 <= k < |s'.accepted| && s'.accepted[k].to == i
      {
        if i != s.pending[rid] {
          var k :| 0 <= k < |s.accepted| && s.accepted[k].to == i;
          assert s'.accepted[k].to == i;
        }
      }
    }
  }

  /** No step but a response touches a delivered one-shot. */
  lemma {:induction false} DeliveredStays(s: State, step: Step, i: nat)
    requires MapMirrors(s) && Enabled(s, step) && !step.Respond? && i < |s.invocations|
    ensures var s' := Next(s, step);
            && i < |s'.invocations|
            && (s.invocations[i].sender.Delivered? ==> s'.invocations[i].sender == s.invocations[i].sender)
            && (s'.invocations[i].sender.Delivered? ==> s'.invocations[i].sender == s.invocations[i].sender)
            && var pc := s'.invocations[i].pc;
            (pc != s.invocations[i].pc && pc.Resolved? && pc.reply.Responded? ==>
               s.invocations[i].sender == Delivered(pc.reply.outcome))
  {}

  lemma {:induction false} DeliveriesStep(s: State, step: Step)
    requires MapMirrors(s) && DeliveriesOk(s) && Enabled(s, step)
    ensures DeliveriesOk(Next(s, step))
  {
    if step.Respond? {
      DeliveriesRespond(s, step.id, step.outcome);
    } else {
      var s' := Next(s, step);
      assert s'.accepted == s.accepted;
      forall k | 0 <= k < |s.accepted| ensures Received(s', s.accepted[k]) {
        DeliveredStays(s, step, s.accepted[k].to);
        IdentityKept(s, step, s.accepted[k].to);
      }
      forall i | 0 <= i < |s'.invocations|
        ensures s'.invocations[i].sender.Delivered? ==> exists k :: 0 <= k < |s'.accepted| && s'.accepted[k].to == i
        ensures s'.invocations[i].pc.Resolved? && s'.invocations[i].pc.reply.Responded? ==>
                  s'.invocations[i].sender == Delivered(s'.invocations[i].pc.reply.outcome)
      {
        if i < |s.invocations| { DeliveredStays(s, step, i); }
      }
    }
  }

  lemma {:induction false} ClosedStep(s: State, step: Step, i: nat)
    requires Enabled(s, step) && i < |Next(s, step).invocations| && FoundNoBridge(Next(s, step).invocations[i].pc)
    requires i < |s.invocations| && FoundNoBridge(s.invocations[i].pc) ==> OnClosedChannel(s, i)
    ensures OnClosedChannel(Next(s, step), i)
  {
    if i < |s.invocations| { IdentityKept(s, step, i); }
  }

  lemma {:induction false} DroppedStep(s: State, step: Step, i: nat)
    requires MapMirrors(s) && Enabled(s, step) && i < |Next(s, step).invocations| && Next(s, step).invocations[i].pc == Resolved(ChannelDropped)
    requires i < |s.invocations| && s.invocations[i].pc == Resolved(ChannelDropped) ==> s.invocations[i].sender.Dropped?
    ensures Next(s, step).invocations[i].sender.Dropped?
  {}

  lemma {:induction false} FailuresStep(s: State, step: Step)
    requires MapMirrors(s) && FailuresOk(s) && Enabled(s, step)
    ensures FailuresOk(Next(s, step))
  {
    var s' := Next(s, step);
    forall i: nat | i < |s'.invocations| && s'.invocations[i].pc == Resolved(ChannelDropped) ensures s'.invocations[i].sender.Dropped? {
      DroppedStep(s, step, i);
    }
    forall i: nat | i < |s'.invocations| && FoundNoBridge(s'.invocations[i].pc) ensures OnClosedChannel(s', i) {
      ClosedStep(s, step, i);
    }
  }

  lemma {:induction false} InvStep(s: State, step: Step)
    requires Inv(s) && Enabled(s, step)
    ensures Inv(Next(s, step))
  {
    MapMirrorsStep(s, step);
    ChannelsStep(s, step);
    WaitersStep(s, step);
    NumberedStep(s, step);
    CoveredStep(s, step);
    DeliveriesStep(s, step);
    FailuresStep(s, step);
  }

  lemma {:induction false} InvRun(s: State, steps: seq<Step>)
    requires Inv(s) && Exec(s, steps).Some?
    ensures Inv(Exec(s, steps).value)
    decreases |steps|
  {
    if steps != [] {
      InvStep(s, steps[0]);
      InvRun(Next(s, steps[0]), steps[1..]);
    }
  }

  // ---------- no invocation outlives stop ----------

  /** How many steps of its own an invocation has left. */
  function StepsLeft(pc: Pc): nat {
    match pc
    case Allocated => 3
    case Inserted => 2
    case Sent => 1
    case SendFailed => 1
    case Resolved(_) => 0
    case Cancelled => 0
  }

  predicate IsStepOf(step: Step, i: nat) {
    (step.Insert? || step.Send? || step.CleanUp? || step.Await? || step.Cancel?) && step.i == i
  }

  function OwnSteps(steps: seq<Step>, i: nat): nat {
    if steps == [] then 0 else (if IsStepOf(steps[0], i) then 1 else 0) + OwnSteps(steps[1..], i)
  }

  /** The next step of an invocation that is not cancelled. */
  function OwnStep(inv: Invocation, i: nat): Step {
    match inv.pc
    case Allocated => Insert(i)
    case Inserted => Send(i)
    case SendFailed => CleanUp(i)
    case _ => Await(i)
  }

  lemma {:induction false} OwnStepsCount(s: State, steps: seq<Step>, i: nat)
    requires Exec(s, steps).Some? && i < |s.invocations|
    ensures var s' := Exec(s, steps).value;
            && i < |s'.invocations|
            && StepsLeft(s'.invocations[i].pc) + OwnSteps(steps, i) == StepsLeft(s.invocations[i].pc)
    decreases |steps|
  {
    if steps != [] {
      IdentityKept(s, steps[0], i);
      OwnStepsCount(Next(s, steps[0]), steps[1..], i);
    }
  }

  lemma {:induction false} ClosedStays(s: State, steps: seq<Step>, c: nat)
    requires Inv(s) && Exec(s, steps).Some? && c < |s.closed| && s.closed[c]
    ensures var s' := Exec(s, steps).value; c < |s'.closed| && s'.closed[c]
    decreases |steps|
  {
    if steps != [] {
      InvStep(s, steps[0]);
      ClosedStays(Next(s, steps[0]), steps[1..], c);
    }
  }

  /** Invocation `i` belongs to a request channel that a completed stop has dropped. */
  predicate Stopped(s: State, i: nat) {
    && i < |s.invocations| && !s.stopping
    && s.invocations[i].channel < |s.closed| && s.closed[s.invocations[i].channel]
  }

  lemma {:induction false} ChannelKept(s: State, steps: seq<Step>, i: nat)
    requires Exec(s, steps).Some? && i < |s.invocations|
    ensures var s' := Exec(s, steps).value;
            i < |s'.invocations| && s'.invocations[i].channel == s.invocations[i].channel
    decreases |steps|
  {
    if steps != [] {
      IdentityKept(s, steps[0], i);
      ChannelKept(Next(s, steps[0]), steps[1..], i);
    }
  }

  /** After a stop nothing of the stopped bridge waits for anybody. */
  lemma StoppedNeverWaits(s: State, i: nat)
    requires Inv(s) && Stopped(s, i)
    ensures StepsLeft(s.invocations[i].pc) == 0 || Enabled(s, OwnStep(s.invocations[i], i))
  {
    assert !Waits(s, i);
  }

  lemma StoppedStays(s: State, steps: seq<Step>, i: nat)
    requires Inv(s) && Exec(s, steps).Some? && Stopped(s, i) && !Exec(s, steps).value.stopping
    ensures Stopped(Exec(s, steps).value, i)
  {
    ClosedStays(s, steps, s.invocations[i].channel);
    ChannelKept(s, steps, i);
  }

  lemma InitialInv()
    ensures Inv(Initial)
  {}

  lemma {:induction false} AfterStop(s: State, after: seq<Step>, i: nat)
    requires Inv(s) && Stopped(s, i) && Exec(s, after).Some?
    ensures var s' := Exec(s, after).value;
            && i < |s'.invocations|
            && StepsLeft(s'.invocations[i].pc) + OwnSteps(after, i) == StepsLeft(s.invocations[i].pc) <= 3
            && (!s'.stopping ==> || StepsLeft(s'.invocations[i].pc) == 0
                                 || Enabled(s', OwnStep(s'.invocations[i], i)))
  {
    var s' := Exec(s, after).value;
    InvRun(s, after);
    OwnStepsCount(s, after, i);
    if !s'.stopping {
      StoppedStays(s, after, i);
      StoppedNeverWaits(s', i);
    }
  }

  /** Whatever happened before the stop and whatever follows it, an invocation of the stopped bridge has at most three
      steps of its own to go, each of its own steps uses one up, nothing undoes them, and at
      every later moment outside a further stop it is either over or able to take its next step
      without waiting for anybody. */
  lemma {:induction false} NoInvocationOutlivesStop(before: seq<Step>, s: State, after: seq<Step>, i: nat)
    requires Exec(Initial, before) == Some(s) && Stopped(s, i) && Exec(s, after).Some?
    ensures var s' := Exec(s, after).value;
            && i < |s'.invocations|
            && StepsLeft(s'.invocations[i].pc) + OwnSteps(after, i) == StepsLeft(s.invocations[i].pc) <= 3
            && (!s'.stopping ==> || StepsLeft(s'.invocations[i].pc) == 0
                                 || Enabled(s', OwnStep(s'.invocations[i], i)))
  {
    InitialInv();
    InvRun(Initial, before);
    AfterStop(s, after, i);
  }

  lemma {:induction false} Cons(s: State, step: Step, rest: seq<Step>)
    requires Enabled(s, step)
    ensures Exec(s, [step] + rest) == Exec(Next(s, step), rest)
  {
    assert ([step] + rest)[1..] == rest;
  }

  lemma {:induction false} ExecConcat(s: State, a: seq<Step>, b: seq<Step>)
    requires Exec(s, a).Some?
    ensures Exec(s, a + b) == Exec(Exec(s, a).value, b)
    decreases |a|
  {
    if a == [] {
      assert a + b == b;
    } else {
      assert (a + b)[1..] == a[1..] + b;
      ExecConcat(Next(s, a[0]), a[1..], b);
    }
  }

  // ---------- who gets a response ----------

  /** Every accepted response reached an invocation holding the id it named, no invocation accepted
      two, and a body returns a response only if that very response was delivered to it. */
  lemma {:induction false} ResponsesAreDeliveredOnce(steps: seq<Step>)
    requires Exec(Initial, steps).Some?
    ensures DeliveriesOk(Exec(Initial, steps).value)
  {
    InitialInv();
    InvRun(Initial, steps);
  }

  /** The response was accepted for the invocation. */
  ghost predicate Answered(s: State, i: nat, outcome: Outcome) {
    i < |s.invocations| && Delivery(s.invocations[i].rid, i, outcome) in s.accepted
  }

  lemma {:induction false} AnsweredIsDelivered(s: State, i: nat, outcome: Outcome)
    requires DeliveriesOk(s) && i < |s.invocations|
    ensures Answered(s, i, outcome) <==> s.invocations[i].sender == Delivered(outcome)
  {
    if s.invocations[i].sender == Delivered(outcome) {
      var k :| 0 <= k < |s.accepted| && s.accepted[k].to == i;
      assert Received(s, s.accepted[k]);
    }
    if Answered(s, i, outcome) {
      var k :| 0 <= k < |s.accepted| && s.accepted[k] == Delivery(s.invocations[i].rid, i, outcome);
      assert Received(s, s.accepted[k]);
    }
  }

  lemma {:induction false} ReachableInv(steps: seq<Step>)
    requires Exec(Initial, steps).Some?
    ensures Inv(Exec(Initial, steps).value)
  {
    InitialInv();
    InvRun(Initial, steps);
  }

  lemma {:induction false} AwaitReturns(s: State, i: nat, outcome: Outcome)
    requires i < |s.invocations| && s.invocations[i].pc.Sent? && s.invocations[i].sender == Delivered(outcome)
    ensures Enabled(s, Await(i)) && Next(s, Await(i)).invocations[i].pc == Resolved(Responded(outcome))
  {}

  /** Over every run, what a body whose request was sent returns: a response if and only if that very response was accepted for it, and a waiting body
      whose response was accepted can return it at once.  A body reports a dropped bridge only on a closed request channel. */
  lemma {:induction false} AnswersAreReturned(steps: seq<Step>, s: State, i: nat, outcome: Outcome)
    requires Exec(Initial, steps) == Some(s) && i < |s.invocations|
    ensures s.invocations[i].pc.Resolved? && !s.invocations[i].pc.reply.BridgeDropped? ==>
              (s.invocations[i].pc.reply == Responded(outcome) <==> Answered(s, i, outcome))
    ensures s.invocations[i].pc.Sent? && Answered(s, i, outcome) ==>
              Enabled(s, Await(i)) && Next(s, Await(i)).invocations[i].pc == Resolved(Responded(outcome))
    ensures FoundNoBridge(s.invocations[i].pc) ==> OnClosedChannel(s, i)
  {
    ReachableInv(steps);
    AnsweredIsDelivered(s, i, outcome);
    if s.invocations[i].pc.Sent? && Answered(s, i, outcome) { AwaitReturns(s, i, outcome); }
  }

  /** Handler `h` is registered on a request channel that is open. */
  predicate Serves(s: State, h: nat) {
    h < |s.handlers| && s.handlers[h].channel < |s.closed| && !s.closed[s.handlers[h].channel]
  }

  lemma {:induction false} ServesRun(s: State, steps: seq<Step>, h: nat)
    requires Serves(s, h) && Exec(s, steps).Some? && StopChannel !in steps
    ensures Serves(Exec(s, steps).value, h)
    decreases |steps|
  {
    if steps != [] {
      assert steps[0] != StopChannel;
      ServesRun(Next(s, steps[0]), steps[1..], h);
    }
  }

  /** A handler serves from its registration until the next stop, and until then none of its bodies reports a dropped bridge. */
  lemma {:induction false} HandlerServesUntilStop(before: seq<Step>, s: State, after: seq<Step>, t: State)
    requires Exec(Initial, before) == Some(s) && Enabled(s, Register)
    requires Exec(Next(s, Register), after) == Some(t) && StopChannel !in after
    ensures Serves(t, |s.handlers|)
    ensures forall i :: 0 <= i < |t.invocations| && t.invocations[i].handler == |s.handlers| ==> !FoundNoBridge(t.invocations[i].pc)
  {
    ReachableInv(before);
    InvStep(s, Register);
    InvRun(Next(s, Register), after);
    ServesRun(Next(s, Register), after, |s.handlers|);
    assert forall i :: 0 <= i < |t.invocations| && FoundNoBridge(t.invocations[i].pc) ==> OnClosedChannel(t, i);
  }

  /** The step takes the sender of invocation `i` away without an answer: the end of a stop, or another invocation using the same id. */
  predicate Drops(s: State, step: Step, i: nat) {
    match step
    case StopClear => true
    case Insert(j) => j != i && i < |s.invocations| && j < |s.invocations| && s.invocations[j].rid == s.invocations[i].rid
    case CleanUp(j) => j != i && i < |s.invocations| && j < |s.invocations| && s.invocations[j].rid == s.invocations[i].rid
    case _ => false
  }

  predicate DropsAt(s: State, steps: seq<Step>, k: nat, i: nat) {
    k < |steps| && Exec(s, steps[..k]).Some? && Drops(Exec(s, steps[..k]).value, steps[k], i)
  }

  predicate LostSender(s: State, i: nat) {
    i < |s.invocations| && s.invocations[i].sender.Dropped? && s.invocations[i].pc != Resolved(BridgeDropped)
  }

  lemma {:induction false} LostStep(s: State, step: Step, i: nat)
    requires MapMirrors(s) && Enabled(s, step) && LostSender(Next(s, step), i)
    ensures LostSender(s, i) || Drops(s, step, i)
  {}

  lemma {:induction false} DropsLater(s: State, step: Step, rest: seq<Step>, j: nat, i: nat)
    requires Enabled(s, step) && DropsAt(Next(s, step), rest, j, i)
    ensures DropsAt(s, [step] + rest, j + 1, i)
  {
    assert ([step] + rest)[..j + 1] == [step] + rest[..j];
    Cons(s, step, rest[..j]);
  }

  lemma {:induction false} DropsNow(s: State, step: Step, rest: seq<Step>, i: nat)
    requires Drops(s, step, i)
    ensures DropsAt(s, [step] + rest, 0, i)
  {
    assert ([step] + rest)[..0] == [];
  }

  lemma {:induction false} LostBecause(s: State, steps: seq<Step>, i: nat) returns (k: nat)
    requires Inv(s) && Exec(s, steps).Some? && LostSender(Exec(s, steps).value, i)
    ensures LostSender(s, i) || DropsAt(s, steps, k, i)
    decreases |steps|
  {
    k := 0;
    if steps != [] {
      var step, rest := steps[0], steps[1..];
      assert steps == [step] + rest;
      InvStep(s, step);
      var j := LostBecause(Next(s, step), rest, i);
      if LostSender(Next(s, step), i) {
        LostStep(s, step, i);
        if !LostSender(s, i) { DropsNow(s, step, rest, i); }
      } else {
        k := j + 1;
        DropsLater(s, step, rest, j, i);
      }
    }
  }

  /** Why a body reports a dropped one-shot: some step of the run was the end of a stop, or another invocation's use of its id. */
  lemma {:induction false} ChannelDropsHaveACause(steps: seq<Step>, s: State, i: nat) returns (k: nat)
    requires Exec(Initial, steps) == Some(s) && i < |s.invocations| && s.invocations[i].pc == Resolved(ChannelDropped)
    ensures DropsAt(Initial, steps, k, i)
  {
    InitialInv();
    ReachableInv(steps);
    k := LostBecause(Initial, steps, i);
  }

  /** The step puts a sender under the id or takes one away. */
  predicate Touches(s: State, step: Step, rid: nat) {
    match step
    case Insert(i) => i < |s.invocations| && s.invocations[i].rid == rid
    case CleanUp(i) => i < |s.invocations| && s.invocations[i].rid == rid
    case Respond(id, _) => AsU64(id) == rid
    case StopClear => true
    case _ => false
  }

  /** No step of the run touches the id. */
  predicate Quiet(s: State, steps: seq<Step>, rid: nat)
    decreases |steps|
  {
    steps != [] && Enabled(s, steps[0]) ==> !Touches(s, steps[0], rid) && Quiet(Next(s, steps[0]), steps[1..], rid)
  }

  /** Step `k` of the run parks the sender of `i` under the id, and no later step touches the id. */
  predicate ParkedLast(s: State, steps: seq<Step>, k: nat, rid: nat, i: nat) {
    && k < |steps| && steps[k] == Insert(i) && Exec(s, steps[..k]).Some?
    && var t := Exec(s, steps[..k]).value;
    && Enabled(t, Insert(i)) && t.invocations[i].rid == rid && Quiet(Next(t, Insert(i)), steps[k + 1..], rid)
  }

  /** What one step leaves under an id. */
  lemma {:induction false} PendingStep(s: State, step: Step, rid: nat)
    requires MapMirrors(s) && Enabled(s, step)
    ensures At(Next(s, step).pending, rid) ==
            if !Touches(s, step, rid) then At(s.pending, rid) else if step.Insert? then Some(step.i) else None
  {}

  lemma {:induction false} QuietKeeps(s: State, steps: seq<Step>, rid: nat)
    requires Inv(s) && Exec(s, steps).Some? && Quiet(s, steps, rid)
    ensures At(Exec(s, steps).value.pending, rid) == At(s.pending, rid)
    decreases |steps|
  {
    if steps != [] {
      InvStep(s, steps[0]);
      PendingStep(s, steps[0], rid);
      QuietKeeps(Next(s, steps[0]), steps[1..], rid);
    }
  }

  /** The one parked last is under the id. */
  lemma {:induction false} ParkedIsPending(s: State, steps: seq<Step>, k: nat, rid: nat, i: nat)
    requires Inv(s) && Exec(s, steps).Some? && ParkedLast(s, steps, k, rid, i)
    ensures At(Exec(s, steps).value.pending, rid) == Some(i)
  {
    var t := Exec(s, steps[..k]).value;
    assert steps == steps[..k] + steps[k..] && steps[k..] == [Insert(i)] + steps[k + 1..];
    ExecConcat(s, steps[..k], steps[k..]);
    InvRun(s, steps[..k]);
    Cons(t, Insert(i), steps[k + 1..]);
    InvStep(t, Insert(i));
    PendingStep(t, Insert(i), rid);
    QuietKeeps(Next(t, Insert(i)), steps[k + 1..], rid);
  }

  lemma {:induction false} ParkedLater(s: State, step: Step, rest: seq<Step>, j: nat, rid: nat, i: nat)
    requires Enabled(s, step) && ParkedLast(Next(s, step), rest, j, rid, i)
    ensures ParkedLast(s, [step] + rest, j + 1, rid, i)
  {
    var steps := [step] + rest;
    assert steps[..j + 1] == [step] + rest[..j] && steps[j + 2..] == rest[j + 1..];
    Cons(s, step, rest[..j]);
  }

  lemma {:induction false} ParkedNow(s: State, rest: seq<Step>, rid: nat, i: nat)
    requires Enabled(s, Insert(i)) && s.invocations[i].rid == rid && Quiet(Next(s, Insert(i)), rest, rid)
    ensures ParkedLast(s, [Insert(i)] + rest, 0, rid, i)
  {
    assert ([Insert(i)] + rest)[..0] == [] && ([Insert(i)] + rest)[1..] == rest;
  }

  /** Whatever is under the id was parked last, or was there from the start and left alone. */
  lemma {:induction false} PendingWasParked(s: State, steps: seq<Step>, rid: nat, i: nat) returns (k: nat)
    requires Inv(s) && Exec(s, steps).Some? && At(Exec(s, steps).value.pending, rid) == Some(i)
    ensures ParkedLast(s, steps, k, rid, i) || (Quiet(s, steps, rid) && At(s.pending, rid) == Some(i))
    decreases |steps|
  {
    k := 0;
    if steps != [] {
      var step, rest := steps[0], steps[1..];
      assert steps == [step] + rest;
      InvStep(s, step);
      PendingStep(s, step, rid);
      var j := PendingWasParked(Next(s, step), rest, rid, i);
      if ParkedLast(Next(s, step), rest, j, rid, i) {
        k := j + 1;
        ParkedLater(s, step, rest, j, rid, i);
      } else if Touches(s, step, rid) {
        ParkedNow(s, rest, rid, i);
      }
    }
  }

  /** After the run, `i` was the last to park its sender under the id, and no step has touched the id since. */
  ghost predicate Holds(steps: seq<Step>, rid: nat, i: nat) {
    exists k :: ParkedLast(Initial, steps, k, rid, i)
  }

  lemma {:induction false} HolderIsPending(steps: seq<Step>, rid: nat, i: nat)
    requires Exec(Initial, steps).Some?
    ensures Holds(steps, rid, i) <==> At(Exec(Initial, steps).value.pending, rid) == Some(i)
  {
    InitialInv();
    if Holds(steps, rid, i) {
      var k :| ParkedLast(Initial, steps, k, rid, i);
      ParkedIsPending(Initial, steps, k, rid, i);
    }
    if At(Exec(Initial, steps).value.pending, rid) == Some(i) {
      var k := PendingWasParked(Initial, steps, rid, i);
      assert ParkedLast(Initial, steps, k, rid, i);
    }
  }

  lemma {:induction false} RespondAccepts(s: State, id: int, outcome: Outcome, i: nat)
    requires !s.stopping
    ensures Next(s, Respond(id, outcome)).accepted == s.accepted + [Delivery(AsU64(id), i, outcome)] <==> At(s.pending, AsU64(id)) == Some(i)
    ensures Next(s, Respond(id, outcome)).accepted == s.accepted <==> AsU64(id) !in s.pending
  {
    var rid := AsU64(id);
    if rid in s.pending {
      var more := s.accepted + [Delivery(rid, s.pending[rid], outcome)];
      assert more[|s.accepted|] == Delivery(rid, s.pending[rid], outcome);
      assert (s.accepted + [Delivery(rid, i, outcome)])[|s.accepted|] == Delivery(rid, i, outcome);
    } else {
      assert |s.accepted + [Delivery(rid, i, outcome)]| == |s.accepted| + 1;
    }
  }

  /** Where every response goes, with any number of handlers: after any run, outside a stop, a response is accepted if and only if some invocation holds
      the id it names, and it is that invocation it goes to. */
  lemma {:induction false} ResponseGoesToHolder(steps: seq<Step>, s: State, id: int, outcome: Outcome, i: nat)
    requires Exec(Initial, steps) == Some(s) && !s.stopping
    ensures Next(s, Respond(id, outcome)).accepted == s.accepted + [Delivery(AsU64(id), i, outcome)] <==> Holds(steps, AsU64(id), i)
    ensures Next(s, Respond(id, outcome)).accepted == s.accepted <==> forall j: nat :: !Holds(steps, AsU64(id), j)
  {
    var rid := AsU64(id);
    RespondAccepts(s, id, outcome, i);
    forall j: nat ensures Holds(steps, rid, j) <==> At(s.pending, rid) == Some(j) { HolderIsPending(steps, rid, j); }
    assert rid in s.pending ==> Holds(steps, rid, s.pending[rid]);
  }

  lemma OrdinalsDecideIds(m: nat, n: nat)
    requires m < U64 && n < U64 && (FIRST_ID + m) % U64 == (FIRST_ID + n) % U64
    ensures m == n
  {}

  /** Within one handler, below 2^64 invocations, an id names one invocation, whatever other handlers do. */
  lemma {:induction false} HandlerIdsDiffer(s: State, i: nat, j: nat)
    requires Inv(s) && i < |s.invocations| && j < |s.invocations|
    requires s.invocations[i].handler == s.invocations[j].handler && s.invocations[i].rid == s.invocations[j].rid
    requires s.handlers[s.invocations[i].handler].invoked <= U64
    ensures i == j
  {
    OrdinalsDecideIds(s.invocations[i].ordinal, s.invocations[j].ordinal);
  }

  /** All invocations so far carry different ids. */
  ghost predicate IdsDiffer(s: State) {
    forall i, j :: 0 <= i < j < |s.invocations| ==> s.invocations[i].rid != s.invocations[j].rid
  }

  /** At most one handler was ever invoked, and that one at most 2^64 times. */
  ghost predicate OneHandlerInvoked(s: State) {
    && (forall g, h :: 0 <= g < h < |s.handlers| ==> s.handlers[g].invoked == 0 || s.handlers[h].invoked == 0)
    && (forall h :: 0 <= h < |s.handlers| ==> s.handlers[h].invoked <= U64)
  }

  lemma {:induction false} OneHandlerDiffers(s: State, i: nat, j: nat)
    requires Inv(s) && OneHandlerInvoked(s) && i < |s.invocations| && j < |s.invocations|
    requires s.invocations[i].rid == s.invocations[j].rid
    ensures i == j
  {
    var a, b := s.invocations[i], s.invocations[j];
    assert s.handlers[a.handler].invoked > 0 && s.handlers[b.handler].invoked > 0;
    assert a.handler == b.handler;
    HandlerIdsDiffer(s, i, j);
  }

  /** Ordinals with the same id, of two handlers or one, clash. */
  lemma {:induction false} OrdinalsClash(s: State, g: nat, m: nat, h: nat, n: nat)
    requires Inv(s) && g < |s.handlers| && h < |s.handlers| && m < s.handlers[g].invoked && n < s.handlers[h].invoked
    requires (g != h || m != n) && (FIRST_ID + m) % U64 == (FIRST_ID + n) % U64
    ensures !IdsDiffer(s)
  {
    assert HasOrdinal(s, g, m) && HasOrdinal(s, h, n);
    var i :| IsOrdinal(s, i, g, m);
    var j :| IsOrdinal(s, j, h, n);
    assert i != j && s.invocations[i].rid == s.invocations[j].rid;
  }

  lemma {:induction false} OneHandlerSuffices(s: State)
    requires Inv(s) && OneHandlerInvoked(s)
    ensures IdsDiffer(s)
  {
    forall i, j | 0 <= i < j < |s.invocations| ensures s.invocations[i].rid != s.invocations[j].rid {
      if s.invocations[i].rid == s.invocations[j].rid { OneHandlerDiffers(s, i, j); }
    }
  }

  lemma {:induction false} OneHandlerNeeded(s: State)
    requires Inv(s) && !OneHandlerInvoked(s)
    ensures !IdsDiffer(s)
  {
    if g, h :| 0 <= g < h < |s.handlers| && s.handlers[g].invoked > 0 && s.handlers[h].invoked > 0 {
      OrdinalsClash(s, g, 0, h, 0);
    } else {
      var h :| 0 <= h < |s.handlers| && s.handlers[h].invoked > U64;
      OrdinalsClash(s, h, 0, h, U64);
    }
  }

  /** Exactly when an id names one invocation: over every run, all invocations carry different ids if and only if at most one
      handler was ever invoked, and that one at most 2^64 times. */
  lemma {:induction false} IdsDifferExactly(steps: seq<Step>)
    requires Exec(Initial, steps).Some?
    ensures IdsDiffer(Exec(Initial, steps).value) <==> OneHandlerInvoked(Exec(Initial, steps).value)
  {
    var s := Exec(Initial, steps).value;
    InitialInv();
    InvRun(Initial, steps);
    if OneHandlerInvoked(s) { OneHandlerSuffices(s); } else { OneHandlerNeeded(s); }
  }

  /** Under that condition an accepted response naming the id under which `i` was announced, as the script returns it, went to `i`. */
  lemma {:induction false} ResponseReachesAnnounced(steps: seq<Step>, i: nat, k: nat)
    requires Exec(Initial, steps).Some? && OneHandlerInvoked(Exec(Initial, steps).value)
    requires var s := Exec(Initial, steps).value;
             i < |s.invocations| && k < |s.accepted| && s.accepted[k].rid == AsU64(AsI64(s.invocations[i].rid))
    ensures Exec(Initial, steps).value.accepted[k].to == i
  {
    var s := Exec(Initial, steps).value;
    InitialInv();
    InvRun(Initial, steps);
    IdSurvivesScript(s.invocations[i].rid);
    assert Received(s, s.accepted[k]);
    OneHandlerDiffers(s, s.accepted[k].to, i);
  }

  // ---------- what happens otherwise ----------

  /** The state after handler `h` was invoked and the invocation announced. */
  function Announced(s: State, h: nat): State
    requires Serves(s, h)
  {
    var a, n := |s.invocations|, s.handlers[h].invoked;
    var rid := (FIRST_ID + n) % U64;
    var older := DropSender(s, rid);
    older.(invocations := older.invocations + [Invocation(h, n, rid, s.handlers[h].channel, Sent, InMap)],
           pending := older.pending[rid := a],
           handlers := s.handlers[h := s.handlers[h].(invoked := n + 1)])
  }

  lemma {:induction false} BeginInsert(s: State, h: nat)
    requires MapMirrors(s) && Serves(s, h)
    ensures Enabled(s, Begin(h)) && Enabled(Next(s, Begin(h)), Insert(|s.invocations|))
    ensures var t := Next(Next(s, Begin(h)), Insert(|s.invocations|));
            var a := |s.invocations|;
            && |t.invocations| == a + 1 && t.invocations[..a] == Announced(s, h).invocations[..a]
            && t.invocations[a] == Announced(s, h).invocations[a].(pc := Inserted)
            && t == Announced(s, h).(invocations := t.invocations)
  {
    var a, t1 := |s.invocations|, Next(s, Begin(h));
    var rid := t1.invocations[a].rid;
    var d := DropSender(t1, rid);
    assert rid in s.pending ==> s.pending[rid] < a;
    assert d.invocations == DropSender(s, rid).invocations + [t1.invocations[a]];
    var t := Next(t1, Insert(a));
    assert t.invocations == d.invocations[a := d.invocations[a].(pc := Inserted, sender := InMap)];
  }

  lemma {:induction false} AnnounceRuns(s: State, h: nat)
    requires MapMirrors(s) && Serves(s, h)
    ensures var a := |s.invocations|;
            Exec(s, [Begin(h)] + ([Insert(a)] + ([Send(a)] + []))) == Some(Announced(s, h))
  {
    var a := |s.invocations|;
    var t1 := Next(s, Begin(h));
    BeginInsert(s, h);
    var t2 := Next(t1, Insert(a));
    assert Next(t2, Send(a)).invocations == Announced(s, h).invocations;
    Cons(t2, Send(a), []);
    Cons(t1, Insert(a), [Send(a)] + []);
    Cons(s, Begin(h), [Insert(a)] + ([Send(a)] + []));
  }

  /** Where invocation `i` of `g` and invocation `j` of `h`, both announced under the same id, end: the answer to the id lands in the
      later one, and the earlier reports a dropped channel. */
  ghost predicate Misdelivered(s: State, t: State, i: nat, j: nat, g: nat, h: nat, outcome: Outcome) {
    && |s.invocations| <= i < j < |t.invocations| && t.closed == s.closed && !t.stopping
    && t.invocations[i].handler == g && t.invocations[j].handler == h
    && t.invocations[i].rid == t.invocations[j].rid
    && t.invocations[i].pc == Resolved(ChannelDropped) && t.invocations[j].pc == Resolved(Responded(outcome))
    && t.accepted == s.accepted + [Delivery(t.invocations[i].rid, j, outcome)]
  }

  /** What an announcement does to the invocation that held its id, and leaves of everything else. */
  lemma {:induction false} AnnouncedFacts(s: State, h: nat)
    requires MapMirrors(s) && Serves(s, h)
    ensures var t, a := Announced(s, h), |s.invocations|;
            var rid := (FIRST_ID + s.handlers[h].invoked) % U64;
            && |t.invocations| == a + 1 && At(t.pending, rid) == Some(a)
            && t.invocations[a] == Invocation(h, s.handlers[h].invoked, rid, s.handlers[h].channel, Sent, InMap)
            && (rid in s.pending ==> s.pending[rid] < a && t.invocations[s.pending[rid]] == s.invocations[s.pending[rid]].(sender := Dropped))
            && t.closed == s.closed && t.stopping == s.stopping && t.accepted == s.accepted
            && t.handlers == s.handlers[h := s.handlers[h].(invoked := s.handlers[h].invoked + 1)]
  {}

  lemma {:induction false} AnnouncedInv(s: State, h: nat)
    requires Inv(s) && Serves(s, h)
    ensures Inv(Announced(s, h))
  {
    var a := |s.invocations|;
    AnnounceRuns(s, h);
    InvRun(s, [Begin(h)] + ([Insert(a)] + ([Send(a)] + [])));
  }

  /** Two announcements under one id, before the script answers. */
  lemma {:induction false} BothAnnounced(s: State, g: nat, h: nat)
    requires Inv(s) && !s.stopping && g != h && Serves(s, g) && Serves(s, h) && s.handlers[g].invoked == s.handlers[h].invoked
    ensures Serves(Announced(s, g), h) && MapMirrors(Announced(s, g))
    ensures var t, a := Announced(Announced(s, g), h), |s.invocations|;
            var n := s.handlers[g].invoked;
            var rid := (FIRST_ID + n) % U64;
            && |t.invocations| == a + 2 && t.closed == s.closed && !t.stopping && t.accepted == s.accepted
            && t.invocations[a] == Invocation(g, n, rid, s.handlers[g].channel, Sent, Dropped)
            && t.invocations[a + 1] == Invocation(h, n, rid, s.handlers[h].channel, Sent, InMap)
            && At(t.pending, rid) == Some(a + 1)
  {
    AnnouncedFacts(s, g);
    assert MapMirrors(Announced(s, g)) by { AnnouncedInv(s, g); }
    AnnouncedFacts(Announced(s, g), h);
  }

  lemma {:induction false} AnswerLandsLate(s: State, g: nat, h: nat, outcome: Outcome) returns (run: seq<Step>)
    requires Inv(s) && !s.stopping && g != h && Serves(s, g) && Serves(s, h) && s.handlers[g].invoked == s.handlers[h].invoked
    ensures Exec(s, run).Some? && Misdelivered(s, Exec(s, run).value, |s.invocations|, |s.invocations| + 1, g, h, outcome)
  {
    var a := |s.invocations|;
    var rid := (FIRST_ID + s.handlers[g].invoked) % U64;
    var s1 := Announced(s, g);
    var s2 := Announced(s1, h);
    BothAnnounced(s, g, h);
    AnnounceRuns(s, g);
    AnnounceRuns(s1, h);
    IdSurvivesScript(rid);
    var s3 := Next(s2, Respond(AsI64(rid), outcome));
    assert s3.invocations[a] == s2.invocations[a] && s3.invocations[a + 1] == s2.invocations[a + 1].(sender := Delivered(outcome));
    var s4 := Next(s3, Await(a));
    Cons(s4, Await(a + 1), []);
    Cons(s3, Await(a), [Await(a + 1)] + []);
    var tail := [Await(a)] + ([Await(a + 1)] + []);
    Cons(s2, Respond(AsI64(rid), outcome), tail);
    var first := [Begin(g)] + ([Insert(a)] + ([Send(a)] + []));
    var second := [Begin(h)] + ([Insert(a + 1)] + ([Send(a + 1)] + []));
    ExecConcat(s1, second, [Respond(AsI64(rid), outcome)] + tail);
    ExecConcat(s, first, second + ([Respond(AsI64(rid), outcome)] + tail));
    run := first + (second + ([Respond(AsI64(rid), outcome)] + tail));
  }

  /** Invoking a handler over and over brings its counter to any higher number. */
  lemma {:induction false} CountUp(s: State, h: nat, n: nat) returns (run: seq<Step>)
    requires h < |s.handlers| && s.handlers[h].invoked <= n
    ensures Exec(s, run).Some?
    ensures var t := Exec(s, run).value;
            && t.handlers == s.handlers[h := s.handlers[h].(invoked := n)] && t.closed == s.closed
            && t.stopping == s.stopping && t.accepted == s.accepted && |t.invocations| >= |s.invocations|
    decreases n - s.handlers[h].invoked
  {
    if s.handlers[h].invoked == n {
      run := [];
    } else {
      var rest := CountUp(Next(s, Begin(h)), h, n);
      Cons(s, Begin(h), rest);
      run := [Begin(h)] + rest;
    }
  }

  /** With two handlers on an open channel the clash is always ahead: from every reachable state that is not in the middle of a
      stop, some run makes the script's answer to a request of `g` land in an invocation of `h`, while the
      body that was asked reports a dropped channel although nothing was stopped. */
  lemma {:induction false} SharedIdsMisdeliver(before: seq<Step>, s: State, g: nat, h: nat, outcome: Outcome)
    returns (run: seq<Step>, i: nat, j: nat)
    requires Exec(Initial, before) == Some(s) && !s.stopping && g != h && Serves(s, g) && Serves(s, h)
    ensures Exec(s, run).Some? && Misdelivered(s, Exec(s, run).value, i, j, g, h, outcome)
  {
    InitialInv();
    InvRun(Initial, before);
    var m, n := s.handlers[g].invoked, s.handlers[h].invoked;
    var level := CountUp(s, if m <= n then g else h, if m <= n then n else m);
    var t := Exec(s, level).value;
    InvRun(s, level);
    var tail := AnswerLandsLate(t, g, h, outcome);
    ExecConcat(s, level, tail);
    run, i, j := level + tail, |t.invocations|, |t.invocations| + 1;
  }
}
