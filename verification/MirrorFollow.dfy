/**
 Payload-mode follow: every change event of a remote subtree becomes its own
 spawned task, and the tasks interleave freely with each other and with further
 remote writes.  The state machine below has one step per stretch between two
 awaits, so any scheduling of the tasks is a run of it.
 */
module MirrorFollow {
  import opened Wrappers
  import opened Substrate

  /** One remote write under the prefix together with the event it causes.  A missing
      value is a deletion; `payload` says whether the event carries the entity. */
  datatype Write = Write(path: Path, value: Option<Entity>, payload: bool)

  /** Where the task of one event stands.  `Writing` holds what the local put is
      about to store, absence meaning a remove. */
  datatype Task =
    | Undelivered
    | Fetching
    | Writing(value: Option<Entity>)
    | Applied(value: Option<Entity>)
    | PutFailed
    | Missed

  /** `log[i]`, the event it caused and `tasks[i]` share the index `i`. */
  datatype State = State(
    prefix: Path,
    remote: map<Path, Entity>,
    log: seq<Write>,
    tasks: seq<Task>,
    local: map<Path, Entity>,
    generation: nat)

  datatype Step =
    | RemoteWrite(write: Write)
    | Deliver(i: nat)
    | Fetch(i: nat, answered: bool)
    | LocalPut(i: nat, ok: bool)

  function Store(m: map<Path, Entity>, p: Path, v: Option<Entity>): map<Path, Entity> {
    match v
    case Some(e) => m[p := e]
    case None => m - {p}
  }

  lemma StoreAt(m: map<Path, Entity>, p: Path, v: Option<Entity>, q: Path)
    ensures At(Store(m, p, v), q) == if q == p then v else At(m, q)
  {}

  function EnsureTrailingSlash(prefix: Path): Path {
    if prefix != [] && prefix[|prefix| - 1] == '/' then prefix else prefix + "/"
  }

  /** A follow starts with no event seen; the two trees are arbitrary. */
  function Start(prefix: Path, remote: map<Path, Entity>, local: map<Path, Entity>, generation: nat): State {
    State(EnsureTrailingSlash(prefix), remote, [], [], local, generation)
  }

  /** A follow watches what lies below the prefix as a directory, with or without the slash, and no path that merely starts with its letters. */
  lemma {:induction false} WatchedPaths(prefix: Path, remote: map<Path, Entity>, local: map<Path, Entity>, p: Path)
    ensures Start(prefix, remote, local, 0).prefix <= p <==>
            if prefix != [] && prefix[|prefix| - 1] == '/' then prefix <= p
            else |p| > |prefix| && prefix <= p && p[|prefix|] == '/'
  {
    var dir := prefix + "/";
    assert dir[..|prefix|] == prefix && dir[|prefix|] == '/';
    if |p| > |prefix| && prefix <= p && p[|prefix|] == '/' { assert dir == p[..|prefix| + 1]; }
  }

  predicate Enabled(s: State, step: Step) {
    match step
    case RemoteWrite(_) => true
    case Deliver(i) => i < |s.tasks| && s.tasks[i].Undelivered?
    case Fetch(i, _) => i < |s.tasks| && |s.log| == |s.tasks| && s.tasks[i].Fetching?
    case LocalPut(i, _) => i < |s.tasks| && |s.log| == |s.tasks| && s.tasks[i].Writing?
  }

  function SetTask(s: State, i: nat, t: Task): State
    requires i < |s.tasks|
  {
    s.(tasks := s.tasks[i := t])
  }

  function Next(s: State, step: Step): State
    requires |s.log| == |s.tasks| && Enabled(s, step)
  {
    match step
    case RemoteWrite(w) =>
      var s' := s.(remote := Store(s.remote, w.path, w.value));
      // only paths under the subscribed pattern raise an event
      if s.prefix <= w.path then s'.(log := s.log + [w], tasks := s.tasks + [Undelivered]) else s'
    case Deliver(i) =>
      var w := s.log[i];
      SetTask(s, i, if w.value.None? then Writing(None) else if w.payload then Writing(w.value) else Fetching)
    case Fetch(i, answered) =>
      var found := At(s.remote, s.log[i].path);
      SetTask(s, i, if answered && found.Some? then Writing(found) else Missed)
    case LocalPut(i, ok) =>
      var v := s.tasks[i].value;
      if ok then
        SetTask(s, i, Applied(v)).(local := Store(s.local, s.log[i].path, v), generation := s.generation + 1)
      else
        SetTask(s, i, PutFailed)
  }

  /** The state a run of steps ends in, if every step was possible. */
  function Exec(s: State, steps: seq<Step>): (r: Option<State>)
    requires |s.log| == |s.tasks|
    ensures r.Some? ==> |r.value.log| == |r.value.tasks| && r.value.prefix == s.prefix
    decreases |steps|
  {
    if steps == [] then Some(s)
    else if Enabled(s, steps[0]) then Exec(Next(s, steps[0]), steps[1..])
    else None
  }

  /** No event of this path was raised after event `i`. */
  ghost predicate Latest(s: State, i: int) {
    0 <= i < |s.log| && forall k :: i < k < |s.log| ==> s.log[k].path != s.log[i].path
  }

  /** No task of a later event of the same path has applied its put. */
  ghost predicate NotOvertaken(s: State, i: int) {
    |s.log| == |s.tasks| && 0 <= i < |s.log| &&
    forall k :: i < k < |s.log| && s.log[k].path == s.log[i].path ==> !s.tasks[k].Applied?
  }

  /** A successful put at this path. */
  predicate PutsAt(s: State, step: Step, p: Path) {
    step.LocalPut? && step.ok && step.i < |s.log| && s.log[step.i].path == p
  }

  /** The scheduling hypothesis for one path: none of its tasks puts after the task of a later event of the path has applied its put. */
  ghost predicate InEventOrderAt(s: State, steps: seq<Step>, p: Path)
    requires |s.log| == |s.tasks|
    decreases |steps|
  {
    steps != [] && Enabled(s, steps[0]) ==>
      && (PutsAt(s, steps[0], p) ==> NotOvertaken(s, steps[0].i))
      && InEventOrderAt(Next(s, steps[0]), steps[1..], p)
  }

  /** What the last successful put at this path carried, if the run has one. */
  function LastPut(s: State, steps: seq<Step>, p: Path): Option<Option<Entity>>
    requires |s.log| == |s.tasks|
    decreases |steps|
  {
    if steps == [] || !Enabled(s, steps[0]) then None
    else
      var later := LastPut(Next(s, steps[0]), steps[1..], p);
      if later.Some? then later
      else if PutsAt(s, steps[0], p) then Some(s.tasks[steps[0].i].value)
      else None
  }

  // ---------- what every run keeps ----------

  ghost predicate Carries(t: Task) {
    t.Writing? || t.Applied?
  }

  /** Event `j` is a write of `v` to the path of event `i`, no earlier than `i`. */
  ghost predicate WroteSince(s: State, i: int, j: int, v: Option<Entity>) {
    0 <= i <= j < |s.log| && s.log[j].path == s.log[i].path && s.log[j].value == v
  }

  /** The remote tree is what the log says; what a task carries was written at its path no
      earlier than its event. */
  ghost predicate Sound(s0: State, s: State) {
    && |s.log| == |s.tasks|
    && (forall i :: 0 <= i < |s.log| ==> s.prefix <= s.log[i].path)
    && (forall i :: Latest(s, i) ==> At(s.remote, s.log[i].path) == s.log[i].value)
    && (forall i :: 0 <= i < |s.tasks| && Carries(s.tasks[i]) ==>
          exists j :: WroteSince(s, i, j, s.tasks[i].value))
    && (forall p :: s.prefix <= p && (forall i :: 0 <= i < |s.log| ==> s.log[i].path != p) ==>
          At(s.remote, p) == At(s0.remote, p))
  }

  ghost predicate WroteAt(s: State, j: int, p: Path, v: Option<Entity>) {
    0 <= j < |s.log| && s.log[j].path == p && s.log[j].value == v
  }

  /** Every local value that differs from the starting one was written by the remote at that path. */
  ghost predicate Provenance(s0: State, s: State) {
    forall p :: At(s.local, p) == At(s0.local, p) || exists j :: WroteAt(s, j, p, At(s.local, p))
  }

  ghost predicate Untouched(s0: State, s: State) {
    forall p :: (forall i :: 0 <= i < |s.log| ==> s.log[i].path != p) ==> At(s.local, p) == At(s0.local, p)
  }

  lemma LatestWrite(s: State, i: nat) returns (j: nat)
    requires i < |s.log|
    ensures i <= j && Latest(s, j) && s.log[j].path == s.log[i].path
  {
    j := i;
    for k := i to |s.log|
      invariant i <= j < |s.log| && s.log[j].path == s.log[i].path
      invariant forall m :: j < m < k ==> s.log[m].path != s.log[i].path
    {
      if s.log[k].path == s.log[i].path { j := k; }
    }
  }

  lemma {:induction false} SoundRemoteWrite(s0: State, s: State, w: Write)
    requires Sound(s0, s) && s.prefix == s0.prefix
    ensures Sound(s0, Next(s, RemoteWrite(w)))
  {
    var s' := Next(s, RemoteWrite(w));
    assert s.log <= s'.log;
    assert s.prefix <= w.path ==> s'.log[|s.log|] == w;
    forall i | Latest(s', i)
      ensures At(s'.remote, s'.log[i].path) == s'.log[i].value
    {
      if i < |s.log| {
        assert Latest(s, i);
        StoreAt(s.remote, w.path, w.value, s.log[i].path);
      }
    }
    forall i | 0 <= i < |s'.tasks| && Carries(s'.tasks[i])
      ensures exists j :: WroteSince(s', i, j, s'.tasks[i].value)
    {
      var j :| WroteSince(s, i, j, s.tasks[i].value);
      assert WroteSince(s', i, j, s'.tasks[i].value);
    }
  }

  lemma {:induction false} CarriedStep(s0: State, s: State, step: Step, k: nat)
    requires Sound(s0, s) && Enabled(s, step) && !step.RemoteWrite?
    requires k < |s.tasks| && Carries(Next(s, step).tasks[k])
    ensures exists j :: WroteSince(s, k, j, Next(s, step).tasks[k].value)
  {
    if k != step.i || step.LocalPut? {
      var j :| WroteSince(s, k, j, s.tasks[k].value);
    } else if step.Fetch? {
      var j := LatestWrite(s, k);
      assert WroteSince(s, k, j, At(s.remote, s.log[k].path));
    } else {
      assert WroteSince(s, k, k, s.log[k].value);
    }
  }

  lemma {:induction false} SoundTaskStep(s0: State, s: State, step: Step)
    requires Sound(s0, s) && Enabled(s, step) && !step.RemoteWrite?
    ensures Sound(s0, Next(s, step))
  {
    var s' := Next(s, step);
    assert s'.log == s.log && s'.remote == s.remote && s'.prefix == s.prefix;
    forall k | 0 <= k < |s'.tasks| && Carries(s'.tasks[k])
      ensures exists j :: WroteSince(s', k, j, s'.tasks[k].value)
    {
      CarriedStep(s0, s, step, k);
      var j :| WroteSince(s, k, j, s'.tasks[k].value);
      assert WroteSince(s', k, j, s'.tasks[k].value);
    }
    forall i | Latest(s', i) ensures At(s'.remote, s'.log[i].path) == s'.log[i].value {
      assert Latest(s, i);
    }
  }

  lemma SoundStep(s0: State, s: State, step: Step)
    requires Sound(s0, s) && Enabled(s, step) && s.prefix == s0.prefix
    ensures Sound(s0, Next(s, step))
  {
    if step.RemoteWrite? {
      SoundRemoteWrite(s0, s, step.write);
    } else {
      SoundTaskStep(s0, s, step);
    }
  }

  lemma {:induction false} SoundRun(s0: State, s: State, steps: seq<Step>)
    requires Sound(s0, s) && s.prefix == s0.prefix && Exec(s, steps).Some?
    ensures Sound(s0, Exec(s, steps).value)
    decreases |steps|
  {
    if steps != [] {
      SoundStep(s0, s, steps[0]);
      SoundRun(s0, Next(s, steps[0]), steps[1..]);
    }
  }

  lemma {:induction false} ProvenanceStep(s0: State, s: State, step: Step)
    requires Sound(s0, s) && Enabled(s, step) && Provenance(s0, s)
    ensures Provenance(s0, Next(s, step))
  {
    var s' := Next(s, step);
    assert s.log <= s'.log;
    forall p
      ensures At(s'.local, p) == At(s0.local, p) || exists j :: WroteAt(s', j, p, At(s'.local, p))
    {
      ProvenanceAt(s0, s, step, p);
    }
  }

  lemma {:induction false} ProvenanceAt(s0: State, s: State, step: Step, p: Path)
    requires Sound(s0, s) && Enabled(s, step) && s.log <= Next(s, step).log
    requires At(s.local, p) == At(s0.local, p) || exists j :: WroteAt(s, j, p, At(s.local, p))
    ensures At(Next(s, step).local, p) == At(s0.local, p) ||
            exists j :: WroteAt(Next(s, step), j, p, At(Next(s, step).local, p))
  {
    var s' := Next(s, step);
    if step.LocalPut? && step.ok && s.log[step.i].path == p {
      var j :| WroteSince(s, step.i, j, s.tasks[step.i].value);
      assert WroteAt(s', j, p, s.tasks[step.i].value);
    } else if At(s.local, p) != At(s0.local, p) {
      var j :| WroteAt(s, j, p, At(s.local, p));
      assert WroteAt(s', j, p, At(s.local, p));
    }
  }

  lemma {:induction false} UntouchedStep(s0: State, s: State, step: Step)
    requires |s.log| == |s.tasks| && Enabled(s, step) && Untouched(s0, s)
    ensures Untouched(s0, Next(s, step))
  {
    var s' := Next(s, step);
    assert forall k :: 0 <= k < |s.log| ==> s'.log[k] == s.log[k];
  }

  lemma GenerationStep(s: State, step: Step)
    requires |s.log| == |s.tasks| && Enabled(s, step)
    ensures Next(s, step).generation - s.generation == AppliedCount(Next(s, step).tasks) - AppliedCount(s.tasks)
  {
    var s' := Next(s, step);
    if step.RemoteWrite? {
      AppliedCountAppend(s.tasks, Undelivered);
    } else {
      AppliedCountUpdate(s.tasks, step.i, s'.tasks[step.i]);
    }
  }

  lemma {:induction false} MirrorRun(s0: State, s: State, steps: seq<Step>)
    requires Sound(s0, s) && s.prefix == s0.prefix && Provenance(s0, s) && Untouched(s0, s) && Exec(s, steps).Some?
    ensures Provenance(s0, Exec(s, steps).value) && Untouched(s0, Exec(s, steps).value)
    ensures Exec(s, steps).value.generation - s.generation
         == AppliedCount(Exec(s, steps).value.tasks) - AppliedCount(s.tasks)
    decreases |steps|
  {
    if steps != [] {
      SoundStep(s0, s, steps[0]);
      ProvenanceStep(s0, s, steps[0]);
      UntouchedStep(s0, s, steps[0]);
      GenerationStep(s, steps[0]);
      MirrorRun(s0, Next(s, steps[0]), steps[1..]);
    }
  }

  /** With no scheduling assumption at all: what the mirror holds anywhere is either its starting
      value or a value (or absence) the remote wrote at that very path; a path without an
      event is untouched; and the generation counter moved once per applied put. */
  lemma {:induction false} MirrorHoldsOnlyRemoteValues(s0: State, steps: seq<Step>)
    requires s0.log == [] && s0.tasks == [] && Exec(s0, steps).Some?
    ensures var s := Exec(s0, steps).value;
            && Provenance(s0, s)
            && Untouched(s0, s)
            && s.generation == s0.generation + AppliedCount(s.tasks)
  {
    MirrorRun(s0, s0, steps);
  }

  function AppliedCount(ts: seq<Task>): nat {
    if ts == [] then 0 else AppliedCount(ts[1..]) + if ts[0].Applied? then 1 else 0
  }

  lemma AppliedCountAppend(ts: seq<Task>, t: Task)
    ensures AppliedCount(ts + [t]) == AppliedCount(ts) + if t.Applied? then 1 else 0
  {
    if ts != [] {
      assert (ts + [t])[1..] == ts[1..] + [t];
    }
  }

  lemma AppliedCountUpdate(ts: seq<Task>, i: nat, t: Task)
    requires i < |ts|
    ensures AppliedCount(ts[i := t]) + (if ts[i].Applied? then 1 else 0)
         == AppliedCount(ts) + if t.Applied? then 1 else 0
  {
    if i > 0 {
      assert ts[i := t][1..] == ts[1..][i - 1 := t];
      AppliedCountUpdate(ts[1..], i - 1, t);
    } else {
      assert ts[i := t][1..] == ts[1..];
    }
  }

  // ---------- convergence ----------

  /** With no scheduling assumption at all: in every reachable state the mirror holds at each path what the last successful put of the run
      carried there, or what it held at the start if there was none. */
  lemma {:induction false} MirrorIsLastPut(s: State, steps: seq<Step>, p: Path)
    requires |s.log| == |s.tasks| && Exec(s, steps).Some?
    ensures At(Exec(s, steps).value.local, p) ==
            match LastPut(s, steps, p) case Some(v) => v case None => At(s.local, p)
    decreases |steps|
  {
    if steps != [] {
      MirrorIsLastPut(Next(s, steps[0]), steps[1..], p);
      if steps[0].LocalPut? && steps[0].ok {
        StoreAt(s.local, s.log[steps[0].i].path, s.tasks[steps[0].i].value, p);
      }
    }
  }

  /** The exact law: for a path whose latest event is `i`, the mirror agrees with the remote if and only if the last put of the run
      at that path carried what that event wrote (or, without any put, the starting value was that already). */
  lemma {:induction false} PathConvergedExactly(s0: State, steps: seq<Step>, i: nat)
    requires s0.log == [] && s0.tasks == [] && Exec(s0, steps).Some? && Latest(Exec(s0, steps).value, i)
    ensures var s := Exec(s0, steps).value;
            var p := s.log[i].path;
            At(s.local, p) == At(s.remote, p) <==>
            match LastPut(s0, steps, p) case Some(v) => v == s.log[i].value case None => At(s0.local, p) == s.log[i].value
  {
    SoundRun(s0, s0, steps);
    MirrorIsLastPut(s0, steps, Exec(s0, steps).value.log[i].path);
  }

  // ---------- when an event gets applied ----------

  /** The writes of the run that raise an event, in order. */
  function Subscribed(prefix: Path, steps: seq<Step>): seq<Write>
    decreases |steps|
  {
    if steps == [] then []
    else
      var rest := Subscribed(prefix, steps[1..]);
      if steps[0].RemoteWrite? && prefix <= steps[0].write.path then [steps[0].write] + rest else rest
  }

  /** What the remote holds at a path after the run's writes: the last of them there, if any. */
  function LastWrite(steps: seq<Step>, p: Path): Option<Option<Entity>>
    decreases |steps|
  {
    if steps == [] then None
    else
      var later := LastWrite(steps[1..], p);
      if later.Some? then later
      else if steps[0].RemoteWrite? && steps[0].write.path == p then Some(steps[0].write.value)
      else None
  }

  /** The log and the remote tree are what the writes of the run make them. */
  lemma {:induction false} WritesAreRecorded(s: State, steps: seq<Step>, p: Path)
    requires |s.log| == |s.tasks| && Exec(s, steps).Some?
    ensures Exec(s, steps).value.log == s.log + Subscribed(s.prefix, steps)
    ensures At(Exec(s, steps).value.remote, p) == match LastWrite(steps, p) case Some(v) => v case None => At(s.remote, p)
    decreases |steps|
  {
    if steps != [] {
      WritesAreRecorded(Next(s, steps[0]), steps[1..], p);
      if steps[0].RemoteWrite? { StoreAt(s.remote, steps[0].write.path, steps[0].write.value, p); }
    }
  }

  /** This step makes `v` ready to be put for event `i`: the delivery of a deletion or of an event that carries its entity, or an answered
      fetch while the path is bound remotely. */
  predicate Obtains(s: State, step: Step, i: nat, v: Option<Entity>) {
    && i < |s.log|
    && match step
       case Deliver(k) => k == i && (s.log[i].value.None? || s.log[i].payload) && v == s.log[i].value
       case Fetch(k, answered) => k == i && answered && v.Some? && v == At(s.remote, s.log[i].path)
       case _ => false
  }

  /** Step `k` of the run does. */
  predicate ObtainedAt(s: State, steps: seq<Step>, k: nat, i: nat, v: Option<Entity>)
    requires |s.log| == |s.tasks|
  {
    k < |steps| && Exec(s, steps[..k]).Some? && Obtains(Exec(s, steps[..k]).value, steps[k], i, v)
  }

  /** Some step of the run does. */
  ghost predicate Given(s: State, steps: seq<Step>, i: nat, v: Option<Entity>)
    requires |s.log| == |s.tasks|
  {
    exists k: nat :: ObtainedAt(s, steps, k, i, v)
  }

  function TaskOf(s: State, i: nat): Task {
    if i < |s.tasks| then s.tasks[i] else Undelivered
  }

  /** Where the task of an event stands, told from the steps of the run alone. */
  ghost predicate TaskTold(s0: State, steps: seq<Step>, i: nat, t: Task)
    requires |s0.log| == |s0.tasks|
  {
    && (t.Undelivered? <==> Deliver(i) !in steps)
    && (forall v :: t == Writing(v) <==> Given(s0, steps, i, v) && LocalPut(i, true) !in steps && LocalPut(i, false) !in steps)
    && (forall v :: t == Applied(v) <==> Given(s0, steps, i, v) && LocalPut(i, true) in steps)
    && (t.Applied? <==> LocalPut(i, true) in steps)
    && (t.PutFailed? <==> LocalPut(i, false) in steps)
  }

  lemma {:induction false} ExecSnoc(s: State, steps: seq<Step>)
    requires |s.log| == |s.tasks| && steps != [] && Exec(s, steps).Some?
    ensures var front, last := steps[..|steps| - 1], steps[|steps| - 1];
            && Exec(s, front).Some? && Enabled(Exec(s, front).value, last)
            && Exec(s, steps) == Some(Next(Exec(s, front).value, last))
    decreases |steps|
  {
    if |steps| > 1 {
      ExecSnoc(Next(s, steps[0]), steps[1..]);
      assert steps[1..][..|steps| - 2] == steps[..|steps| - 1][1..];
    }
  }

  /** An event was given a value before the last step, or is given it by that. */
  lemma {:induction false} GivenSnoc(s: State, steps: seq<Step>, i: nat, v: Option<Entity>)
    requires |s.log| == |s.tasks| && steps != [] && Exec(s, steps).Some?
    ensures var front, last := steps[..|steps| - 1], steps[|steps| - 1];
            && Exec(s, front).Some?
            && (Given(s, steps, i, v) <==> Given(s, front, i, v) || Obtains(Exec(s, front).value, last, i, v))
  {
    var n := |steps| - 1;
    var front := steps[..n];
    ExecSnoc(s, steps);
    forall k: nat | k < n ensures ObtainedAt(s, steps, k, i, v) <==> ObtainedAt(s, front, k, i, v) {
      assert front[..k] == steps[..k];
    }
    assert ObtainedAt(s, steps, n, i, v) <==> Obtains(Exec(s, front).value, steps[n], i, v);
    if k: nat :| ObtainedAt(s, front, k, i, v) { assert ObtainedAt(s, steps, k, i, v); }
    if k: nat :| ObtainedAt(s, steps, k, i, v) { assert k < n ==> ObtainedAt(s, front, k, i, v); }
  }

  /** The event names an update without its entity. */
  predicate NeedsFetch(log: seq<Write>, i: nat) {
    i < |log| && log[i].value.Some? && !log[i].payload
  }

  predicate Fetched(steps: seq<Step>, i: nat) {
    Fetch(i, true) in steps || Fetch(i, false) in steps
  }

  /** The stages before a task is given its value. */
  predicate StageTold(steps: seq<Step>, i: nat, log: seq<Write>, t: Task) {
    && (t.Undelivered? <==> Deliver(i) !in steps)
    && (Fetched(steps, i) ==> Deliver(i) in steps)
    && (t.Fetching? <==> Deliver(i) in steps && NeedsFetch(log, i) && !Fetched(steps, i))
  }

  lemma {:induction false} StageToldSnoc(s0: State, steps: seq<Step>, i: nat)
    requires |s0.log| == |s0.tasks| && steps != [] && Exec(s0, steps).Some?
    requires var front := steps[..|steps| - 1];
             Exec(s0, front).Some? && StageTold(front, i, Exec(s0, front).value.log, TaskOf(Exec(s0, front).value, i))
    ensures StageTold(steps, i, Exec(s0, steps).value.log, TaskOf(Exec(s0, steps).value, i))
  {
    ExecSnoc(s0, steps);
    assert steps == steps[..|steps| - 1] + [steps[|steps| - 1]];
  }

  lemma {:induction false} StageIsTold(s0: State, steps: seq<Step>, i: nat)
    requires s0.log == [] && s0.tasks == [] && Exec(s0, steps).Some?
    ensures StageTold(steps, i, Exec(s0, steps).value.log, TaskOf(Exec(s0, steps).value, i))
    decreases |steps|
  {
    if steps != [] {
      ExecSnoc(s0, steps);
      StageIsTold(s0, steps[..|steps| - 1], i);
      StageToldSnoc(s0, steps, i);
    }
  }

  /** One more step tells where the task stands next. */
  lemma {:induction false} TaskToldSnoc(s0: State, steps: seq<Step>, i: nat)
    requires |s0.log| == |s0.tasks| && steps != [] && Exec(s0, steps).Some?
    requires var front := steps[..|steps| - 1];
             Exec(s0, front).Some? && TaskTold(s0, front, i, TaskOf(Exec(s0, front).value, i))
    ensures TaskTold(s0, steps, i, TaskOf(Exec(s0, steps).value, i))
  {
    var front, last := steps[..|steps| - 1], steps[|steps| - 1];
    ExecSnoc(s0, steps);
    assert steps == front + [last];
    forall v ensures Given(s0, steps, i, v) <==> Given(s0, front, i, v) || Obtains(Exec(s0, front).value, last, i, v) {
      GivenSnoc(s0, steps, i, v);
    }
  }

  lemma {:induction false} TaskIsTold(s0: State, steps: seq<Step>, i: nat)
    requires s0.log == [] && s0.tasks == [] && Exec(s0, steps).Some?
    ensures TaskTold(s0, steps, i, TaskOf(Exec(s0, steps).value, i))
    decreases |steps|
  {
    if steps != [] {
      ExecSnoc(s0, steps);
      TaskIsTold(s0, steps[..|steps| - 1], i);
      TaskToldSnoc(s0, steps, i);
    }
  }

  /** When an event is put, from the steps of the run alone.  A delivered deletion, a delivered payload and a fetch that was answered while the path
      was bound each leave the event with a put as its one next step; that put, if it succeeds, makes the mirror hold the deletion, the
      payload or what the remote held at the fetch; and events are applied in no other way.  Until then its delivery, and the fetch of an
      update without its entity, are possible. */
  lemma {:induction false} EventIsPutExactly(s0: State, steps: seq<Step>, i: nat)
    requires s0.log == [] && s0.tasks == [] && Exec(s0, steps).Some? && i < |Exec(s0, steps).value.log|
    ensures var s := Exec(s0, steps).value;
            && s.log == Subscribed(s0.prefix, steps)
            && (Deliver(i) !in steps ==> Enabled(s, Deliver(i)))
            && (Deliver(i) in steps && NeedsFetch(s.log, i) && !Fetched(steps, i) ==>
                  Enabled(s, Fetch(i, true)) && Enabled(s, Fetch(i, false)))
            && (forall v :: Given(s0, steps, i, v) && LocalPut(i, true) !in steps && LocalPut(i, false) !in steps ==>
                  && Enabled(s, LocalPut(i, true)) && Enabled(s, LocalPut(i, false))
                  && !Enabled(s, Deliver(i)) && !Enabled(s, Fetch(i, true)) && !Enabled(s, Fetch(i, false))
                  && At(Next(s, LocalPut(i, true)).local, s.log[i].path) == v)
            && (forall v :: s.tasks[i] == Applied(v) <==> Given(s0, steps, i, v) && LocalPut(i, true) in steps)
  {
    TaskIsTold(s0, steps, i);
    StageIsTold(s0, steps, i);
    WritesAreRecorded(s0, steps, "");
    var s := Exec(s0, steps).value;
    forall v | s.tasks[i] == Writing(v) ensures At(Next(s, LocalPut(i, true)).local, s.log[i].path) == v {
      StoreAt(s.local, s.log[i].path, v, s.log[i].path);
    }
  }

  /** Event `i` was given a value, and its put succeeded. */
  ghost predicate Put(s0: State, steps: seq<Step>, i: nat)
    requires |s0.log| == |s0.tasks|
  {
    (exists v :: Given(s0, steps, i, v)) && LocalPut(i, true) in steps
  }

  /** The latest applied event of the path put what the mirror holds there. */
  ghost predicate LastPutWins(s: State, p: Path) {
    && |s.log| == |s.tasks|
    && (forall i :: NotOvertaken(s, i) && s.log[i].path == p && s.tasks[i].Applied? ==> At(s.local, p) == s.tasks[i].value)
  }

  lemma {:induction false} LastPutWinsStep(s: State, step: Step, p: Path)
    requires LastPutWins(s, p) && Enabled(s, step) && (PutsAt(s, step, p) ==> NotOvertaken(s, step.i))
    ensures LastPutWins(Next(s, step), p)
  {
    var s' := Next(s, step);
    forall i | NotOvertaken(s', i) && s'.log[i].path == p && s'.tasks[i].Applied?
      ensures At(s'.local, p) == s'.tasks[i].value
    {
      if PutsAt(s, step, p) { LastPutByPut(s, step, p, i); } else { LastPutByOther(s, step, p, i); }
    }
  }

  /** A put at the path, in order: no later event of the path had been applied. */
  lemma {:induction false} LastPutByPut(s: State, step: Step, p: Path, i: int)
    requires |s.log| == |s.tasks| && Enabled(s, step) && PutsAt(s, step, p) && NotOvertaken(s, step.i)
    requires NotOvertaken(Next(s, step), i) && Next(s, step).log[i].path == p && Next(s, step).tasks[i].Applied?
    ensures At(Next(s, step).local, p) == Next(s, step).tasks[i].value
  {
    var s' := Next(s, step);
    assert s'.log == s.log && s'.tasks[step.i].Applied?;
    assert step.i == i;
    StoreAt(s.local, p, s.tasks[step.i].value, p);
  }

  /** Any other step leaves the path, and what was applied stays applied. */
  lemma {:induction false} LastPutByOther(s: State, step: Step, p: Path, i: int)
    requires LastPutWins(s, p) && Enabled(s, step) && !PutsAt(s, step, p)
    requires NotOvertaken(Next(s, step), i) && Next(s, step).log[i].path == p && Next(s, step).tasks[i].Applied?
    ensures At(Next(s, step).local, p) == Next(s, step).tasks[i].value
  {
    var s' := Next(s, step);
    assert s.log <= s'.log && i < |s.log|;
    if step.LocalPut? && step.ok { StoreAt(s.local, s.log[step.i].path, s.tasks[step.i].value, p); }
    assert s'.tasks[i] == s.tasks[i];
    assert forall k :: i < k < |s.log| && s.tasks[k].Applied? ==> s'.tasks[k].Applied?;
    assert NotOvertaken(s, i);
  }

  lemma {:induction false} LastPutWinsRun(s: State, steps: seq<Step>, p: Path)
    requires LastPutWins(s, p) && Exec(s, steps).Some? && InEventOrderAt(s, steps, p)
    ensures LastPutWins(Exec(s, steps).value, p)
    decreases |steps|
  {
    if steps != [] {
      LastPutWinsStep(s, steps[0], p);
      LastPutWinsRun(Next(s, steps[0]), steps[1..], p);
    }
  }

  /** The convergence law, path by path: if the puts of one path were in event order, whatever happened at the others, and its latest event
      was given its value (deletion, payload or fetch hit) and put, the mirror holds there exactly what the
      remote holds, value or absence. */
  lemma {:induction false} AppliedPathConverged(s0: State, steps: seq<Step>, i: nat)
    requires s0.log == [] && s0.tasks == [] && Exec(s0, steps).Some?
    requires Latest(Exec(s0, steps).value, i) && Put(s0, steps, i)
    requires InEventOrderAt(s0, steps, Exec(s0, steps).value.log[i].path)
    ensures var s := Exec(s0, steps).value;
            At(s.local, s.log[i].path) == At(s.remote, s.log[i].path)
  {
    var s := Exec(s0, steps).value;
    SoundRun(s0, s0, steps);
    EventIsPutExactly(s0, steps, i);
    LastPutWinsRun(s0, steps, s.log[i].path);
    var j :| WroteSince(s, i, j, s.tasks[i].value);
    assert j == i;
  }

  /** Whole-subtree convergence: a mirror that agreed with the remote when the follow began, whose puts were in event order path by path and
      all of whose latest events were given their value and put, agrees with it on every path of the subtree. */
  lemma {:induction false} SubtreeConverged(s0: State, steps: seq<Step>)
    requires s0.log == [] && s0.tasks == [] && Exec(s0, steps).Some?
    requires forall p :: s0.prefix <= p ==> InEventOrderAt(s0, steps, p)
    requires forall p :: s0.prefix <= p ==> At(s0.local, p) == At(s0.remote, p)
    requires forall i :: Latest(Exec(s0, steps).value, i) ==> Put(s0, steps, i)
    ensures forall p :: s0.prefix <= p ==>
              At(Exec(s0, steps).value.local, p) == At(Exec(s0, steps).value.remote, p)
  {
    var s := Exec(s0, steps).value;
    SoundRun(s0, s0, steps);
    MirrorHoldsOnlyRemoteValues(s0, steps);
    forall p | s0.prefix <= p
      ensures At(s.local, p) == At(s.remote, p)
    {
      if i :| 0 <= i < |s.log| && s.log[i].path == p {
        var j := LatestWrite(s, i);
        AppliedPathConverged(s0, steps, j);
      }
    }
  }

  /** Why the hypothesis is needed: two updates of one path, both delivered with payload and both
      put successfully, leave the mirror at the older value when the tasks overtake each other. */
  lemma {:induction false} OvertakingTasksDiverge(prefix: Path, older: Entity, newer: Entity) returns (run: seq<Step>)
    requires older != newer
    ensures var p := EnsureTrailingSlash(prefix) + "x";
            var s0 := Start(prefix, map[], map[], 0);
            && !InEventOrderAt(s0, run, p)
            && Exec(s0, run).Some?
            && Exec(s0, run).value.tasks == [Applied(Some(older)), Applied(Some(newer))]
            && At(Exec(s0, run).value.local, p) == Some(older)
            && At(Exec(s0, run).value.remote, p) == Some(newer)
  {
    var p := EnsureTrailingSlash(prefix) + "x";
    var w0, w1 := Write(p, Some(older), true), Write(p, Some(newer), true);
    var s0 := Start(prefix, map[], map[], 0);
    var s1 := Next(s0, RemoteWrite(w0));
    var s2 := Next(s1, RemoteWrite(w1));
    assert s2.log == [w0, w1] && s2.tasks == [Undelivered, Undelivered];
    var s3 := Next(s2, Deliver(0));
    var s4 := Next(s3, Deliver(1));
    assert s4.tasks == [Writing(Some(older)), Writing(Some(newer))];
    var s5 := Next(s4, LocalPut(1, true));
    assert !NotOvertaken(s5, 0) by { assert s5.tasks[1].Applied?; }
    Cons(s5, LocalPut(0, true), []);
    Cons(s4, LocalPut(1, true), [LocalPut(0, true)]);
    Cons(s3, Deliver(1), [LocalPut(1, true)] + [LocalPut(0, true)]);
    var r3 := [Deliver(1)] + ([LocalPut(1, true)] + [LocalPut(0, true)]);
    Cons(s2, Deliver(0), r3);
    Cons(s1, RemoteWrite(w1), [Deliver(0)] + r3);
    Cons(s0, RemoteWrite(w0), [RemoteWrite(w1)] + ([Deliver(0)] + r3));
    run := [RemoteWrite(w0)] + ([RemoteWrite(w1)] + ([Deliver(0)] + r3));
    assert [LocalPut(0, true)] + [] == [LocalPut(0, true)];
  }

  lemma {:induction false} Cons(s: State, step: Step, rest: seq<Step>)
    requires |s.log| == |s.tasks| && Enabled(s, step)
    ensures Exec(s, [step] + rest) == Exec(Next(s, step), rest)
    ensures forall p :: InEventOrderAt(s, [step] + rest, p) ==
                        ((PutsAt(s, step, p) ==> NotOvertaken(s, step.i)) && InEventOrderAt(Next(s, step), rest, p))
  {
    assert ([step] + rest)[1..] == rest;
  }
}
