/**
 Continuation-mode follow: install the merge step, install the extract step, subscribe, then run
 one extract and merge by hand.  From the subscription on, every remote change triggers a
 re-extract of the whole prefix whose envelope is later merged into the local tree.
 Remote writes may fall between any two of these steps.
 */
module ContinuationFollow {
  import opened Wrappers
  import opened Substrate

  type Tree = map<Path, Entity>

  datatype Phase = Begun | MergeInstalled | ExtractInstalled | Subscribed | Followed

  datatype Fate = Waiting | Merged | Lost

  /** One extract: the bindings relative to the prefix, and how many subtree writes it saw. */
  datatype Envelope = Envelope(bindings: Tree, seen: nat, fate: Fate)

  datatype State = State(
    prefix: Path,
    readable: Path -> bool,
    phase: Phase,
    remote: Tree,
    writes: nat,
    triggers: nat,
    envelopes: seq<Envelope>,
    local: Tree)

  datatype Step =
    | InstallMerge
    | InstallExtract
    | Subscribe
    | Bootstrap(ok: bool)
    | RemoteWrite(path: Path, value: Option<Entity>)
    | Extract(consumed: nat, ok: bool)
    | Merge(k: nat, ok: bool)

  /** `tree:extract`, as the follow requests it: every binding under the prefix that the remote lets the caller read, by its path
      relative to the prefix. */
  function ExtractBindings(remote: Tree, prefix: Path, readable: Path -> bool): Tree {
    assert forall p :: prefix <= p ==> prefix + p[|prefix|..] == p;
    map p | p in remote && prefix <= p && readable(p) :: p[|prefix|..] := remote[p]
  }

  lemma {:induction false} ExtractAt(remote: Tree, prefix: Path, readable: Path -> bool, rel: Path)
    ensures At(ExtractBindings(remote, prefix, readable), rel) == if readable(prefix + rel) then At(remote, prefix + rel) else None
  {
    assert (prefix + rel)[|prefix|..] == rel;
    assert forall p :: prefix <= p ==> prefix + p[|prefix|..] == p;
  }

  /** `tree:merge` under `source-wins`: each binding is written at prefix plus relative path,
      nothing is removed. */
  function MergeBindings(local: Tree, prefix: Path, bindings: Tree): Tree {
    assert forall rel :: (prefix + rel)[|prefix|..] == rel;
    local + map rel | rel in bindings :: prefix + rel := bindings[rel]
  }

  lemma {:induction false} MergeAt(local: Tree, prefix: Path, bindings: Tree, p: Path)
    ensures At(MergeBindings(local, prefix, bindings), p) ==
            if prefix <= p && p[|prefix|..] in bindings then Some(bindings[p[|prefix|..]]) else At(local, p)
  {
    assert forall rel :: (prefix + rel)[|prefix|..] == rel;
    assert prefix <= p ==> prefix + p[|prefix|..] == p;
  }

  predicate Enabled(s: State, step: Step) {
    match step
    case InstallMerge => s.phase.Begun?
    case InstallExtract => s.phase.MergeInstalled?
    case Subscribe => s.phase.ExtractInstalled?
    case Bootstrap(_) => s.phase.Subscribed?
    case RemoteWrite(_, _) => true
    case Extract(n, _) => 1 <= n <= s.triggers
    case Merge(k, _) => k < |s.envelopes| && s.envelopes[k].fate.Waiting?
  }

  function Take(s: State, ok: bool): State {
    s.(envelopes := s.envelopes + [Envelope(ExtractBindings(s.remote, s.prefix, s.readable), s.writes, if ok then Waiting else Lost)])
  }

  function Next(s: State, step: Step): State
    requires Enabled(s, step)
  {
    match step
    case InstallMerge => s.(phase := MergeInstalled)
    case InstallExtract => s.(phase := ExtractInstalled)
    case Subscribe => s.(phase := Subscribed)
    case Bootstrap(ok) => Take(s, ok).(phase := Followed)
    case RemoteWrite(p, v) =>
      var s' := s.(remote := match v case Some(e) => s.remote[p := e] case None => s.remote - {p});
      if s.prefix <= p then
        s'.(writes := s.writes + 1,
            triggers := if s.phase.Subscribed? || s.phase.Followed? then s.triggers + 1 else s.triggers)
      else s'
    case Extract(n, ok) => Take(s, ok).(triggers := s.triggers - n)
    case Merge(k, ok) =>
      var e := s.envelopes[k];
      if ok then
        s.(envelopes := s.envelopes[k := e.(fate := Merged)], local := MergeBindings(s.local, s.prefix, e.bindings))
      else
        s.(envelopes := s.envelopes[k := e.(fate := Lost)])
  }

  function Exec(s: State, steps: seq<Step>): Option<State>
    decreases |steps|
  {
    if steps == [] then Some(s)
    else if Enabled(s, steps[0]) then Exec(Next(s, steps[0]), steps[1..])
    else None
  }

  /** What the remote lets the follower read of a path. */
  function Visible(s: State, p: Path): Option<Entity> {
    if s.readable(p) then At(s.remote, p) else None
  }

  function Start(prefix: Path, readable: Path -> bool, remote: Tree, local: Tree): State {
    State(prefix, readable, Begun, remote, 0, 0, [], local)
  }

  ghost predicate NoLaterMerge(s: State, k: int) {
    0 <= k < |s.envelopes| && forall j :: k < j < |s.envelopes| ==> !s.envelopes[j].fate.Merged?
  }

  /** The scheduling hypothesis: envelopes are merged in the order they were extracted. */
  ghost predicate InExtractOrder(s: State, steps: seq<Step>)
    decreases |steps|
  {
    steps != [] && Enabled(s, steps[0]) ==>
      && (steps[0].Merge? && steps[0].ok ==> NoLaterMerge(s, steps[0].k))
      && InExtractOrder(Next(s, steps[0]), steps[1..])
  }

  /** Envelope `k` saw the subtree as it is now. */
  ghost predicate UpToDate(s: State, k: int) {
    0 <= k < |s.envelopes| && s.envelopes[k].seen == s.writes
  }

  ghost predicate Inv(s: State) {
    // an envelope that saw all the writes holds the present subtree
    && (forall k :: 0 <= k < |s.envelopes| ==> s.envelopes[k].seen <= s.writes)
    && (forall k, rel :: UpToDate(s, k) ==> At(s.envelopes[k].bindings, rel) == Visible(s, s.prefix + rel))
    // a subtree write the newest envelope missed has a trigger waiting
    && (s.phase.Followed? && s.triggers == 0 ==> UpToDate(s, |s.envelopes| - 1))
    // triggers come from the subscription only
    && (s.triggers > 0 ==> s.phase.Subscribed? || s.phase.Followed?)
  }

  /** What the newest merged envelope brought is still in the local tree. */
  ghost predicate LastMergeWins(s: State) {
    forall k, rel :: NoLaterMerge(s, k) && s.envelopes[k].fate.Merged? && rel in s.envelopes[k].bindings ==>
                       At(s.local, s.prefix + rel) == At(s.envelopes[k].bindings, rel)
  }

  lemma {:induction false} InvStep(s: State, step: Step)
    requires Inv(s) && Enabled(s, step)
    ensures Inv(Next(s, step))
  {
    var s' := Next(s, step);
    forall k, rel | UpToDate(s', k)
      ensures At(s'.envelopes[k].bindings, rel) == Visible(s', s'.prefix + rel)
    {
      if k < |s.envelopes| {
        assert s'.envelopes[k].bindings == s.envelopes[k].bindings && s'.envelopes[k].seen == s.envelopes[k].seen;
        assert step.RemoteWrite? && s.prefix <= step.path ==> !UpToDate(s', k);
        assert UpToDate(s, k);
      } else {
        ExtractAt(s.remote, s.prefix, s.readable, rel);
      }
    }
  }

  lemma {:induction false} LastMergeStep(s: State, step: Step)
    requires LastMergeWins(s) && Enabled(s, step) && (step.Merge? && step.ok ==> NoLaterMerge(s, step.k))
    ensures LastMergeWins(Next(s, step))
  {
    var s' := Next(s, step);
    forall k, rel | NoLaterMerge(s', k) && s'.envelopes[k].fate.Merged? && rel in s'.envelopes[k].bindings
      ensures At(s'.local, s'.prefix + rel) == At(s'.envelopes[k].bindings, rel)
    {
      assert k < |s.envelopes|;
      assert (s.prefix + rel)[|s.prefix|..] == rel;
      if step.Merge? && step.ok {
        assert s'.envelopes[step.k].fate.Merged?;
        assert k == step.k;
        MergeAt(s.local, s.prefix, s.envelopes[k].bindings, s.prefix + rel);
      } else {
        assert forall j :: k < j < |s.envelopes| && s.envelopes[j].fate.Merged? ==> s'.envelopes[j].fate.Merged?;
        assert NoLaterMerge(s, k);
      }
    }
  }

  lemma {:induction false} KeptByRun(s: State, steps: seq<Step>)
    requires Inv(s) && LastMergeWins(s) && Exec(s, steps).Some? && InExtractOrder(s, steps)
    ensures Inv(Exec(s, steps).value) && LastMergeWins(Exec(s, steps).value)
    ensures Exec(s, steps).value.prefix == s.prefix && Exec(s, steps).value.readable == s.readable
    decreases |steps|
  {
    if steps != [] {
      InvStep(s, steps[0]);
      LastMergeStep(s, steps[0]);
      KeptByRun(Next(s, steps[0]), steps[1..]);
    }
  }

  // ---------- where what the mirror holds comes from ----------

  /** Some merged envelope bound this path. */
  ghost predicate Brought(s: State, p: Path) {
    s.prefix <= p && exists k :: BroughtBy(s, k, p[|s.prefix|..])
  }

  ghost predicate BroughtBy(s: State, k: int, rel: Path) {
    0 <= k < |s.envelopes| && s.envelopes[k].fate.Merged? && rel in s.envelopes[k].bindings
  }

  /** The mirror's paths are those it started with and those merged envelopes brought, and what lies outside the prefix is untouched. */
  ghost predicate Provenance(s0: State, s: State) {
    && s.prefix == s0.prefix
    && (forall p :: p in s.local <==> p in s0.local || Brought(s, p))
    && (forall p :: !(s.prefix <= p) ==> At(s.local, p) == At(s0.local, p))
  }

  lemma {:induction false} BroughtStep(s: State, step: Step, p: Path)
    requires Enabled(s, step)
    ensures Brought(Next(s, step), p) <==>
            || Brought(s, p)
            || (step.Merge? && step.ok && s.prefix <= p && p[|s.prefix|..] in s.envelopes[step.k].bindings)
  {
    var s' := Next(s, step);
    if s.prefix <= p {
      var rel := p[|s.prefix|..];
      if k :| BroughtBy(s, k, rel) { assert BroughtBy(s', k, rel); }
      if k :| BroughtBy(s', k, rel) {
        assert k < |s.envelopes|;
        assert !(step.Merge? && step.ok && step.k == k) ==> BroughtBy(s, k, rel);
      }
      if step.Merge? && step.ok && rel in s.envelopes[step.k].bindings { assert BroughtBy(s', step.k, rel); }
    }
  }

  lemma {:induction false} MergedLocal(s: State, k: nat)
    requires Enabled(s, Merge(k, true))
    ensures Next(s, Merge(k, true)).local == MergeBindings(s.local, s.prefix, s.envelopes[k].bindings)
  {}

  lemma {:induction false} ProvenanceStep(s0: State, s: State, step: Step)
    requires Provenance(s0, s) && Enabled(s, step)
    ensures Provenance(s0, Next(s, step))
  {
    var s' := Next(s, step);
    forall p
      ensures p in s'.local <==> p in s0.local || Brought(s', p)
      ensures !(s'.prefix <= p) ==> At(s'.local, p) == At(s0.local, p)
    {
      BroughtStep(s, step, p);
      if step.Merge? && step.ok {
        MergeAt(s.local, s.prefix, s.envelopes[step.k].bindings, p);
        MergedLocal(s, step.k);
        assert p in s'.local <==> At(s'.local, p).Some?;
        assert p in s.local <==> At(s.local, p).Some?;
      }
    }
  }

  lemma {:induction false} ProvenanceRun(s0: State, s: State, steps: seq<Step>)
    requires Provenance(s0, s) && Exec(s, steps).Some?
    ensures Provenance(s0, Exec(s, steps).value)
    decreases |steps|
  {
    if steps != [] {
      ProvenanceStep(s0, s, steps[0]);
      ProvenanceRun(s0, Next(s, steps[0]), steps[1..]);
    }
  }

  /** Over every run, in whatever order envelopes are merged: a path is in the mirror if and only if it was there at the start or some
      merged envelope brought it, and nothing outside the prefix changes. */
  lemma {:induction false} MirrorGrowsByMergesOnly(s0: State, steps: seq<Step>)
    requires s0.envelopes == [] && Exec(s0, steps).Some?
    ensures Provenance(s0, Exec(s0, steps).value)
  {
    ProvenanceRun(s0, s0, steps);
  }

  // ---------- triggers ----------

  predicate Listening(s: State) {
    s.phase.Subscribed? || s.phase.Followed?
  }

  /** How many subtree writes of the run fell after its subscription. */
  function Raised(prefix: Path, listening: bool, steps: seq<Step>): nat
    decreases |steps|
  {
    if steps == [] then 0
    else
      (if listening && steps[0].RemoteWrite? && prefix <= steps[0].path then 1 else 0)
      + Raised(prefix, listening || steps[0].Subscribe?, steps[1..])
  }

  function Consumed(steps: seq<Step>): nat {
    if steps == [] then 0 else (if steps[0].Extract? then steps[0].consumed else 0) + Consumed(steps[1..])
  }

  lemma {:induction false} TriggersRun(s: State, steps: seq<Step>)
    requires Exec(s, steps).Some?
    ensures Exec(s, steps).value.triggers + Consumed(steps) == s.triggers + Raised(s.prefix, Listening(s), steps)
    decreases |steps|
  {
    if steps != [] { TriggersRun(Next(s, steps[0]), steps[1..]); }
  }

  /** Every subtree write after the subscription leaves a trigger waiting until a triggered extract consumes it, whether the bootstrap succeeds, fails
      or has not run yet. */
  lemma {:induction false} TriggersWait(prefix: Path, readable: Path -> bool, remote: Tree, local: Tree, steps: seq<Step>, n: nat, ok: bool)
    requires Exec(Start(prefix, readable, remote, local), steps).Some?
    ensures Enabled(Exec(Start(prefix, readable, remote, local), steps).value, Extract(n, ok)) <==>
            1 <= n <= Raised(prefix, false, steps) - Consumed(steps)
  {
    TriggersRun(Start(prefix, readable, remote, local), steps);
  }

  // ---------- envelopes ----------

  /** Whether the bootstrap and the triggered extracts of the run succeeded, in order. */
  function Pulls(steps: seq<Step>): seq<bool> {
    if steps == [] then []
    else
      (match steps[0] case Bootstrap(ok) => [ok] case Extract(_, ok) => [ok] case _ => []) + Pulls(steps[1..])
  }

  predicate MergeTried(steps: seq<Step>, k: nat) {
    Merge(k, true) in steps || Merge(k, false) in steps
  }

  lemma {:induction false} FateStep(s: State, step: Step, k: nat)
    requires Enabled(s, step) && k < |s.envelopes|
    ensures var s' := Next(s, step);
            && k < |s'.envelopes|
            && (s'.envelopes[k].fate.Waiting? <==> s.envelopes[k].fate.Waiting? && step != Merge(k, true) && step != Merge(k, false))
            && (s'.envelopes[k].fate.Merged? <==> s.envelopes[k].fate.Merged? || step == Merge(k, true))
  {}

  lemma {:induction false} FatesRun(s: State, steps: seq<Step>, k: nat)
    requires Exec(s, steps).Some?
    ensures var s' := Exec(s, steps).value;
            && |s'.envelopes| == |s.envelopes| + |Pulls(steps)|
            && (k < |s'.envelopes| ==>
                  && (s'.envelopes[k].fate.Waiting? <==>
                        && (if k < |s.envelopes| then s.envelopes[k].fate.Waiting? else Pulls(steps)[k - |s.envelopes|])
                        && !MergeTried(steps, k))
                  && (s'.envelopes[k].fate.Merged? <==> (k < |s.envelopes| && s.envelopes[k].fate.Merged?) || Merge(k, true) in steps))
    decreases |steps|
  {
    if steps != [] {
      FatesRun(Next(s, steps[0]), steps[1..], k);
      if k < |s.envelopes| { FateStep(s, steps[0], k); }
      assert forall m :: m in steps <==> m == steps[0] || m in steps[1..];
    }
  }

  /** An envelope can be merged if and only if its extract succeeded and no merge of it has been tried; it is merged if and only if that succeeded. */
  lemma {:induction false} EnvelopesAreToldBySteps(prefix: Path, readable: Path -> bool, remote: Tree, local: Tree, steps: seq<Step>, k: nat)
    requires Exec(Start(prefix, readable, remote, local), steps).Some?
    ensures var s := Exec(Start(prefix, readable, remote, local), steps).value;
            && |s.envelopes| == |Pulls(steps)|
            && (k < |Pulls(steps)| ==>
                  && (Enabled(s, Merge(k, true)) <==> Pulls(steps)[k] && !MergeTried(steps, k))
                  && (s.envelopes[k].fate.Merged? <==> Merge(k, true) in steps))
  {
    FatesRun(Start(prefix, readable, remote, local), steps, k);
  }

  // ---------- quiescence ----------

  /** The follow is set up, no trigger is waiting, and the newest envelope has been merged. */
  predicate Quiescent(s: State) {
    s.phase.Followed? && s.triggers == 0 && (s.envelopes != [] ==> s.envelopes[|s.envelopes| - 1].fate.Merged?)
  }

  /** No gap: however remote writes fall between the installs, the subscription, the bootstrap and
      the triggered extracts, at quiescence every path of the remote subtree that the follower may
      read is bound to the same entity at the same local path. */
  lemma {:induction false} FollowLeavesNoGap(prefix: Path, readable: Path -> bool, remote: Tree, local: Tree, steps: seq<Step>)
    requires var r := Exec(Start(prefix, readable, remote, local), steps); r.Some? && Quiescent(r.value)
    requires InExtractOrder(Start(prefix, readable, remote, local), steps)
    ensures var s := Exec(Start(prefix, readable, remote, local), steps).value;
            forall p :: prefix <= p && Visible(s, p).Some? ==> At(s.local, p) == Visible(s, p)
  {
    var s := Exec(Start(prefix, readable, remote, local), steps).value;
    KeptByRun(Start(prefix, readable, remote, local), steps);
    var k := |s.envelopes| - 1;
    assert UpToDate(s, k) && NoLaterMerge(s, k);
    forall p | prefix <= p && Visible(s, p).Some?
      ensures At(s.local, p) == Visible(s, p)
    {
      var rel := p[|prefix|..];
      assert prefix + rel == p;
      assert At(s.envelopes[k].bindings, rel) == Visible(s, s.prefix + rel);
    }
  }

  /** Exactly when the mirror equals the readable remote subtree at quiescence: if and only if every path under the prefix that the starting mirror
      or a merged envelope bound is still bound, and readable, remotely. */
  lemma {:induction false} SubtreesEqualExactly(prefix: Path, readable: Path -> bool, remote: Tree, local: Tree, steps: seq<Step>)
    requires var r := Exec(Start(prefix, readable, remote, local), steps); r.Some? && Quiescent(r.value)
    requires InExtractOrder(Start(prefix, readable, remote, local), steps)
    ensures var s := Exec(Start(prefix, readable, remote, local), steps).value;
            (forall p :: prefix <= p ==> At(s.local, p) == Visible(s, p)) <==>
            (forall p :: prefix <= p && (p in local || Brought(s, p)) ==> Visible(s, p).Some?)
  {
    var s0 := Start(prefix, readable, remote, local);
    var s := Exec(s0, steps).value;
    FollowLeavesNoGap(prefix, readable, remote, local, steps);
    MirrorGrowsByMergesOnly(s0, steps);
    assert forall p :: p in s.local <==> At(s.local, p).Some?;
    if forall p :: prefix <= p && (p in local || Brought(s, p)) ==> Visible(s, p).Some? {
      forall p | prefix <= p ensures At(s.local, p) == Visible(s, p) {}
    }
    if forall p :: prefix <= p ==> At(s.local, p) == Visible(s, p) {
      forall p | prefix <= p && (p in local || Brought(s, p)) ensures Visible(s, p).Some? {
        assert p in s.local;
      }
    }
  }

  /** The run is possible, in extract order, and ends in `last`. */
  ghost predicate Reaches(s: State, steps: seq<Step>, last: State) {
    Exec(s, steps) == Some(last) && InExtractOrder(s, steps)
  }

  lemma {:induction false} Then(s: State, step: Step, rest: seq<Step>, last: State)
    requires Enabled(s, step) && (step.Merge? && step.ok ==> NoLaterMerge(s, step.k))
    requires Reaches(Next(s, step), rest, last)
    ensures Reaches(s, [step] + rest, last)
  {
    assert ([step] + rest)[1..] == rest;
  }

  lemma {:induction false} Stay(s: State)
    ensures Reaches(s, [], s)
  {}

  /** The last envelope can always be merged in order. */
  lemma {:induction false} MergeNewest(s: State) returns (last: State)
    requires s.envelopes != [] && s.envelopes[|s.envelopes| - 1].fate.Waiting?
    ensures Reaches(s, [Merge(|s.envelopes| - 1, true)] + [], last)
    ensures last == Next(s, Merge(|s.envelopes| - 1, true))
  {
    last := Next(s, Merge(|s.envelopes| - 1, true));
    Stay(last);
    Then(s, Merge(|s.envelopes| - 1, true), [], last);
  }

  /** What merging the envelope of a prefix without `p` leaves at `p`. */
  lemma {:induction false} MissingIsKept(local: Tree, prefix: Path, readable: Path -> bool, bindings: Tree, remote: Tree, p: Path)
    requires bindings == ExtractBindings(remote, prefix, readable) && prefix <= p && p !in remote
    ensures At(MergeBindings(local, prefix, bindings), p) == At(local, p)
  {
    assert prefix + p[|prefix|..] == p;
    ExtractAt(remote, prefix, readable, p[|prefix|..]);
    MergeAt(local, prefix, bindings, p);
  }

  lemma {:induction false} PresentIsCopied(local: Tree, prefix: Path, readable: Path -> bool, bindings: Tree, remote: Tree, p: Path)
    requires bindings == ExtractBindings(remote, prefix, readable) && prefix <= p && p in remote && readable(p)
    ensures At(MergeBindings(local, prefix, bindings), p) == Some(remote[p])
  {
    assert prefix + p[|prefix|..] == p;
    ExtractAt(remote, prefix, readable, p[|prefix|..]);
    MergeAt(local, prefix, bindings, p);
  }

  /** An extract and the merge of its envelope leave a path the remote does not hold. */
  lemma {:induction false} PulledNewest(s: State, p: Path)
    requires s.triggers >= 1 && s.prefix <= p && p !in s.remote
    ensures var s2 := Next(s, Extract(1, true));
            && s2.envelopes != [] && s2.envelopes[|s2.envelopes| - 1].fate.Waiting?
            && At(Next(s2, Merge(|s2.envelopes| - 1, true)).local, p) == At(s.local, p)
  {
    var s2 := Next(s, Extract(1, true));
    var n := |s2.envelopes| - 1;
    MissingIsKept(s2.local, s2.prefix, s2.readable, s2.envelopes[n].bindings, s.remote, p);
    MergedLocal(s2, n);
  }

  /** A deletion that is extracted and merged in order leaves the path in the mirror. */
  lemma {:induction false} MergeKeepsDeleted(s: State, p: Path) returns (steps: seq<Step>, last: State)
    requires s.triggers == 0 && s.phase.Followed? && s.prefix <= p
    ensures Reaches(s, steps, last) && Quiescent(last)
    ensures p !in last.remote && At(last.local, p) == At(s.local, p)
  {
    var s1 := Next(s, RemoteWrite(p, None));
    var s2 := Next(s1, Extract(1, true));
    last := MergeNewest(s2);
    assert At(last.local, p) == At(s.local, p) by {
      PulledNewest(s1, p);
    }
    steps := [Merge(|s2.envelopes| - 1, true)] + [];
    Then(s1, Extract(1, true), steps, last);
    steps := [Extract(1, true)] + steps;
    Then(s, RemoteWrite(p, None), steps, last);
    steps := [RemoteWrite(p, None)] + steps;
  }

  /** The law cannot be strengthened to equality of the subtrees: a deletion that follows the
      bootstrap is extracted and merged in order, and the path stays in the mirror. */
  lemma {:induction false} DeletionIsNotMirrored(prefix: Path, readable: Path -> bool, e: Entity) returns (steps: seq<Step>, last: State)
    requires readable(prefix + "x")
    ensures Reaches(Start(prefix, readable, map[prefix + "x" := e], map[]), steps, last)
    ensures Quiescent(last)
    ensures prefix + "x" !in last.remote && At(last.local, prefix + "x") == Some(e)
  {
    var p := prefix + "x";
    var s0 := Start(prefix, readable, map[p := e], map[]);
    var s1, s2, s3 := s0.(phase := MergeInstalled), s0.(phase := ExtractInstalled), s0.(phase := Subscribed);
    var s4 := Next(s3, Bootstrap(true));
    var s5 := Next(s4, Merge(0, true));
    PresentIsCopied(s4.local, prefix, readable, s4.envelopes[0].bindings, s4.remote, p);
    MergedLocal(s4, 0);
    steps, last := MergeKeepsDeleted(s5, p);
    Then(s4, Merge(0, true), steps, last);
    steps := [Merge(0, true)] + steps;
    Then(s3, Bootstrap(true), steps, last);
    steps := [Bootstrap(true)] + steps;
    Then(s2, Subscribe, steps, last);
    steps := [Subscribe] + steps;
    Then(s1, InstallExtract, steps, last);
    steps := [InstallExtract] + steps;
    Then(s0, InstallMerge, steps, last);
    steps := [InstallMerge] + steps;
  }
}
