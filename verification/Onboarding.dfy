/**
 * Onboarding: one person's walk through a flow whose step list may be edited meanwhile.
 *
 * Flows, steps and assignments are known by number. Each service call is one atomic step, and time passes between them;
 * `calls` is how many storage calls succeed before one fails, and `loads` or `stores` stand for a whole group.
 */
module Onboarding {
  import opened Wrappers

  datatype Flow = Flow(organization: string, deleted: bool)

  datatype StepRow = StepRow(flow: nat, required: bool, verified: bool)

  datatype StepInput = StepInput(id: Option<nat>, required: bool, verified: bool)

  datatype Status = Pending | InProgress | Completed | Abandoned

  datatype StepStatus = StepDone | StepSkipped

  datatype Assignment = Assignment(organization: string, flow: nat, user: string, status: Status,
                                   startedAt: Option<int>, completedAt: Option<int>)
  {
    predicate IsLive() {
      !status.Abandoned?
    }

    function MarkStarted(now: int): Assignment {
      this.(status := if status.Pending? then InProgress else status, startedAt := if startedAt.None? then Some(now) else startedAt)
    }

    function MarkCompleted(now: int): Assignment {
      this.(status := Completed, completedAt := Some(now), startedAt := if startedAt.None? then Some(now) else startedAt)
    }
  }

  datatype Progress = Progress(status: StepStatus, completedAt: int)

  datatype State = State(flows: seq<Flow>, steps: map<nat, StepRow>, nextStep: nat, assignments: seq<Assignment>,
                         progress: map<(nat, nat), Progress>, clock: int)

  datatype Event =
    | CreateFlow(organization: string)
    | DeleteFlow(organization: string, flow: nat)
    | ReplaceSteps(organization: string, flow: nat, inputs: seq<StepInput>, wellFormed: bool, stores: bool)
    | Assign(organization: string, flow: nat, user: string, loads: bool, stores: bool)
    | MarkStep(organization: string, user: string, step: nat, status: Option<StepStatus>, resolves: bool, calls: nat)
    | Verify(organization: string, user: string, step: nat, passed: Option<bool>, calls: nat)
    | Wait(tick: nat)

  predicate LiveFlow(s: State, organization: string, flow: nat) {
    flow < |s.flows| && !s.flows[flow].deleted && s.flows[flow].organization == organization
  }

  // ── editing a flow ─────────────────────────────────────────────────────────

  function Named(inputs: seq<StepInput>): set<nat> {
    set i | 0 <= i < |inputs| && inputs[i].id.Some? :: inputs[i].id.value
  }

  /** Every id a list names is a step this flow already has. */
  predicate Belongs(s: State, flow: nat, inputs: seq<StepInput>) {
    forall id :: id in Named(inputs) ==> id in s.steps && s.steps[id].flow == flow
  }

  /** The table once each input has updated the step it names, or created one. */
  function Saved(steps: map<nat, StepRow>, next: nat, flow: nat, inputs: seq<StepInput>): (map<nat, StepRow>, nat) {
    if inputs == [] then (steps, next)
    else
      var (table, fresher) := Saved(steps, next, flow, inputs[..|inputs| - 1]);
      var input := inputs[|inputs| - 1];
      var row := StepRow(flow, input.required, input.verified);
      match input.id
      case Some(id) => (table[id := row], fresher)
      case None => (table[fresher := row], fresher + 1)
  }

  function Kept(s: State, flow: nat, inputs: seq<StepInput>): map<nat, StepRow> {
    map id | id in s.steps && (s.steps[id].flow != flow || id in Named(inputs)) :: s.steps[id]
  }

  /** Progress on a step goes with the step; progress on every other step stays. */
  function Surviving(progress: map<(nat, nat), Progress>, steps: map<nat, StepRow>): map<(nat, nat), Progress> {
    map key | key in progress && key.1 in steps :: progress[key]
  }

  function Replaced(s: State, organization: string, flow: nat, inputs: seq<StepInput>, wellFormed: bool,
                    stores: bool): State
  {
    if !LiveFlow(s, organization, flow) || !wellFormed || !stores || !Belongs(s, flow, inputs) then s
    else
      var kept := Kept(s, flow, inputs);
      var (steps, next) := Saved(kept, s.nextStep, flow, inputs);
      s.(steps := steps, nextStep := next, progress := Surviving(s.progress, kept))
  }

  // ── walking it ─────────────────────────────────────────────────────────────

  predicate Walks(a: Assignment, organization: string, user: string, flow: nat) {
    a.organization == organization && a.user == user && a.IsLive() && a.flow == flow
  }

  /** The newest live assignment of the flow to the user. */
  function Find(assignments: seq<Assignment>, organization: string, user: string, flow: nat): (r: Option<nat>)
    ensures r.Some? ==> r.value < |assignments| && Walks(assignments[r.value], organization, user, flow)
    ensures r.None? ==> forall i :: 0 <= i < |assignments| ==> !Walks(assignments[i], organization, user, flow)
  {
    if assignments == [] then None
    else if Walks(assignments[|assignments| - 1], organization, user, flow) then Some(|assignments| - 1)
    else Find(assignments[..|assignments| - 1], organization, user, flow)
  }

  function Own(s: State, organization: string, user: string, step: nat): Option<nat> {
    if step in s.steps then Find(s.assignments, organization, user, s.steps[step].flow) else None
  }

  function Assigned(s: State, organization: string, flow: nat, user: string, loads: bool, stores: bool): State {
    if !loads || !LiveFlow(s, organization, flow) || Find(s.assignments, organization, user, flow).Some? then s
    else if !stores || (exists a :: a in s.assignments && a.flow == flow && a.user == user && a.IsLive()) then s
    else s.(assignments := s.assignments + [Assignment(organization, flow, user, Pending, None, None)])
  }

  /** A required step of the assignment's flow with no outcome recorded. */
  predicate Outstanding(s: State, a: nat, id: nat) {
    a < |s.assignments| && id in s.steps && s.steps[id].flow == s.assignments[a].flow && s.steps[id].required && (a, id) !in s.progress
  }

  function OutstandingOf(s: State, a: nat): set<nat> {
    set id | id in s.steps && Outstanding(s, a, id)
  }

  function Recorded(s: State, a: nat, step: nat, status: StepStatus): State {
    s.(progress := s.progress[(a, step) := Progress(status, s.clock)])
  }

  function Started(s: State, a: nat): State
    requires a < |s.assignments|
  {
    s.(assignments := s.assignments[a := s.assignments[a].MarkStarted(s.clock)])
  }

  function Finished(s: State, a: nat): State
    requires a < |s.assignments|
  {
    s.(assignments := s.assignments[a := s.assignments[a].MarkCompleted(s.clock)])
  }

  /** Recording an outcome: the progress row, then the assignment, then whether the walk is over. */
  function Marked(s: State, organization: string, user: string, step: nat, status: StepStatus, resolves: bool,
                  calls: nat): State
  {
    var own := Own(s, organization, user, step);
    if own.None? || calls < 3 then s
    else
      var a := own.value;
      var recorded := Recorded(s, a, step, status);
      if calls == 3 then recorded
      else
        var started := Started(recorded, a);
        if calls < 8 || !resolves || !LiveFlow(s, organization, s.assignments[a].flow) || OutstandingOf(started, a) != {}
           || started.assignments[a].status.Completed?
        then started
        else Finished(started, a)
  }

  /** Checking a verified step: a pass is recorded like any outcome, but nothing asks whether the walk is over. */
  function Verified(s: State, organization: string, user: string, step: nat, passed: Option<bool>, calls: nat): State {
    var own := Own(s, organization, user, step);
    if own.None? || calls < 3 || !s.steps[step].verified || passed != Some(true) then s
    else if calls == 3 then Recorded(s, own.value, step, StepDone)
    else Started(Recorded(s, own.value, step, StepDone), own.value)
  }

  function Step(s: State, e: Event): State {
    match e
    case CreateFlow(organization) => s.(flows := s.flows + [Flow(organization, false)])
    case DeleteFlow(organization, flow) =>
      if LiveFlow(s, organization, flow) then s.(flows := s.flows[flow := s.flows[flow].(deleted := true)]) else s
    case ReplaceSteps(organization, flow, inputs, wellFormed, stores) => Replaced(s, organization, flow, inputs, wellFormed, stores)
    case Assign(organization, flow, user, loads, stores) => Assigned(s, organization, flow, user, loads, stores)
    case MarkStep(organization, user, step, status, resolves, calls) =>
      if status.None? then s else Marked(s, organization, user, step, status.value, resolves, calls)
    case Verify(organization, user, step, passed, calls) => Verified(s, organization, user, step, passed, calls)
    case Wait(tick) => s.(clock := s.clock + tick)
  }

  function Exec(s: State, events: seq<Event>): State {
    if events == [] then s else Step(Exec(s, events[..|events| - 1]), events[|events| - 1])
  }

  class OnboardingService {
    var flows: seq<Flow>
    var steps: map<nat, StepRow>
    var nextStep: nat
    var assignments: seq<Assignment>
    var progress: map<(nat, nat), Progress>
    var clock: int

    ghost function Model(): State
      reads this
    {
      State(flows, steps, nextStep, assignments, progress, clock)
    }

    method FindAssignment(organization: string, user: string, flow: nat) returns (found: Option<nat>)
      ensures found == Find(assignments, organization, user, flow)
    {
      var n := |assignments|;
      assert assignments[..n] == assignments;
      while n > 0
        invariant 0 <= n <= |assignments|
        invariant Find(assignments, organization, user, flow) == Find(assignments[..n], organization, user, flow)
      {
        assert assignments[..n][..n - 1] == assignments[..n - 1];
        if Walks(assignments[n - 1], organization, user, flow) {
          return Some(n - 1);
        }
        n := n - 1;
      }
      return None;
    }

    method BuildRun(a: nat) returns (requiredRemaining: nat)
      requires a < |assignments| && forall id :: id in steps ==> id < nextStep
      ensures requiredRemaining == |OutstandingOf(Model(), a)|
    {
      requiredRemaining := 0;
      var n := 0;
      ghost var counted: set<nat> := {};
      while n < nextStep
        invariant n <= nextStep
        invariant forall id: nat :: id in counted <==> id < n && Outstanding(Model(), a, id)
        invariant requiredRemaining == |counted|
      {
        if n in steps && steps[n].flow == assignments[a].flow && (a, n) !in progress && steps[n].required {
          requiredRemaining := requiredRemaining + 1;
          counted := counted + {n};
        }
        n := n + 1;
      }
      assert counted == OutstandingOf(Model(), a);
    }

    method AssignFlow(organization: string, flow: nat, user: string, loads: bool, stores: bool)
      modifies `assignments
      ensures Model() == Assigned(old(Model()), organization, flow, user, loads, stores)
    {
      if !loads || flow >= |flows| || flows[flow].deleted || flows[flow].organization != organization {
        return;
      }
      var found := FindAssignment(organization, user, flow);
      if found.Some? {
        return;
      }
      if !stores || exists a :: a in assignments && a.flow == flow && a.user == user && a.IsLive() {
        return;
      }
      assignments := assignments + [Assignment(organization, flow, user, Pending, None, None)];
    }

    method ReplaceFlowSteps(organization: string, flow: nat, inputs: seq<StepInput>, wellFormed: bool, stores: bool)
      modifies `steps, `nextStep, `progress
      ensures Model() == Replaced(old(Model()), organization, flow, inputs, wellFormed, stores)
    {
      if flow >= |flows| || flows[flow].deleted || flows[flow].organization != organization || !wellFormed || !stores {
        return;
      }
      var keep := Named(inputs);
      var kept := map id | id in steps && (steps[id].flow != flow || id in keep) :: steps[id];
      assert kept == Kept(Model(), flow, inputs);
      var table, next, n := kept, nextStep, 0;
      while n < |inputs|
        invariant n <= |inputs|
        invariant (table, next) == Saved(kept, nextStep, flow, inputs[..n])
        invariant forall i :: 0 <= i < n && inputs[i].id.Some? ==> inputs[i].id.value in steps && steps[inputs[i].id.value].flow == flow
      {
        assert inputs[..n + 1][..n] == inputs[..n];
        var row := StepRow(flow, inputs[n].required, inputs[n].verified);
        match inputs[n].id {
          case None =>
            table, next := table[next := row], next + 1;
          case Some(id) =>
            if id !in steps || steps[id].flow != flow {
              assert id in Named(inputs);
              return;
            }
            table := table[id := row];
        }
        n := n + 1;
      }
      assert inputs[..n] == inputs;
      steps, nextStep, progress := table, next, map key | key in progress && key.1 in kept :: progress[key];
    }

    method Mark(organization: string, user: string, step: nat, status: StepStatus, resolves: bool, calls: nat)
      requires forall id :: id in steps ==> id < nextStep
      modifies `assignments, `progress
      ensures Model() == Marked(old(Model()), organization, user, step, status, resolves, calls)
    {
      if calls < 3 || step !in steps {
        return;
      }
      var own := FindAssignment(organization, user, steps[step].flow);
      if own.None? {
        return;
      }
      var a := own.value;
      progress := progress[(a, step) := Progress(status, clock)];
      if calls == 3 {
        return;
      }
      assignments := assignments[a := assignments[a].MarkStarted(clock)];
      var flow := assignments[a].flow;
      if calls < 7 || !resolves || flow >= |flows| || flows[flow].deleted || flows[flow].organization != organization {
        return;
      }
      var requiredRemaining := BuildRun(a);
      if requiredRemaining == 0 && !assignments[a].status.Completed? && calls >= 8 {
        assignments := assignments[a := assignments[a].MarkCompleted(clock)];
      }
    }

    method VerifyStep(organization: string, user: string, step: nat, passed: Option<bool>, calls: nat)
      modifies `assignments, `progress
      ensures Model() == Verified(old(Model()), organization, user, step, passed, calls)
    {
      if calls < 3 || step !in steps {
        return;
      }
      var own := FindAssignment(organization, user, steps[step].flow);
      if own.None? || !steps[step].verified || passed != Some(true) {
        return;
      }
      var a := own.value;
      progress := progress[(a, step) := Progress(StepDone, clock)];
      if calls >= 4 {
        assignments := assignments[a := assignments[a].MarkStarted(clock)];
      }
    }
  }

  // ── what every run keeps ───────────────────────────────────────────────────

  /** Rows refer to rows that exist. */
  ghost predicate Wired(s: State) {
    && (forall id :: id in s.steps ==> id < s.nextStep && s.steps[id].flow < |s.flows|)
    && (forall key :: key in s.progress ==> key.0 < |s.assignments| && key.1 in s.steps)
    && (forall i :: 0 <= i < |s.assignments| ==>
          s.assignments[i].flow < |s.flows| && s.assignments[i].organization == s.flows[s.assignments[i].flow].organization)
  }

  predicate SameWalk(a: Assignment, b: Assignment) {
    a.flow == b.flow && a.user == b.user
  }

  /** A user has at most one live assignment per flow. */
  ghost predicate OneWalk(assignments: seq<Assignment>) {
    forall i, j :: 0 <= i < j < |assignments| && SameWalk(assignments[i], assignments[j]) ==> !assignments[i].IsLive() || !assignments[j].IsLive()
  }

  /** The times say what the status says, in order. */
  predicate Timed(a: Assignment, clock: int) {
    && (a.completedAt.Some? <==> a.status.Completed?)
    && (a.startedAt.Some? <==> !a.status.Pending?)
    && (a.startedAt.Some? ==> a.startedAt.value <= clock)
    && (a.completedAt.Some? ==> a.startedAt.value <= a.completedAt.value <= clock)
  }

  ghost predicate Valid(s: State) {
    && Wired(s)
    && OneWalk(s.assignments)
    && forall i :: 0 <= i < |s.assignments| ==> !s.assignments[i].status.Abandoned? && Timed(s.assignments[i], s.clock)
  }

  function Rank(status: Status): nat {
    match status
    case Pending => 0
    case InProgress => 1
    case Completed => 2
    case Abandoned => 3
  }

  /** The same walk, no earlier in its life, with every time already written left alone. */
  predicate Onward(a: Assignment, b: Assignment) {
    && a.organization == b.organization && a.flow == b.flow && a.user == b.user
    && Rank(a.status) <= Rank(b.status)
    && (a.startedAt.Some? ==> b.startedAt == a.startedAt)
    && (a.completedAt.Some? ==> b.completedAt == a.completedAt)
  }

  ghost predicate AllOnward(a: seq<Assignment>, b: seq<Assignment>) {
    |a| <= |b| && forall i :: 0 <= i < |a| ==> Onward(a[i], b[i])
  }

  lemma LaterKeepsValid(s: State, tick: nat)
    requires Valid(s)
    ensures Valid(s.(clock := s.clock + tick))
  {
  }

  lemma SavedIsWired(steps: map<nat, StepRow>, next: nat, flow: nat, inputs: seq<StepInput>, bound: nat)
    requires flow < bound && forall id :: id in steps ==> id < next && steps[id].flow < bound
    requires forall i :: 0 <= i < |inputs| && inputs[i].id.Some? ==> inputs[i].id.value < next
    ensures var (table, fresher) := Saved(steps, next, flow, inputs);
            && next <= fresher && (forall id :: id in steps ==> id in table)
            && (forall id :: id in table ==> id < fresher && table[id].flow < bound)
  {
    if inputs != [] {
      SavedIsWired(steps, next, flow, inputs[..|inputs| - 1], bound);
    }
  }

  lemma ReplacingKeepsValid(s: State, organization: string, flow: nat, inputs: seq<StepInput>, wellFormed: bool,
                            stores: bool)
    requires Valid(s)
    ensures Valid(Replaced(s, organization, flow, inputs, wellFormed, stores))
  {
    if LiveFlow(s, organization, flow) && Belongs(s, flow, inputs) {
      assert forall i :: 0 <= i < |inputs| && inputs[i].id.Some? ==> inputs[i].id.value in Named(inputs);
      SavedIsWired(Kept(s, flow, inputs), s.nextStep, flow, inputs, |s.flows|);
    }
  }

  /** The two writes of `MarkStep` and `Verify` that come before anything is derived. */
  lemma WalkingKeepsValid(s: State, a: nat, step: nat, status: StepStatus)
    requires Valid(s) && a < |s.assignments| && step in s.steps
    ensures Valid(Recorded(s, a, step, status)) && Valid(Started(Recorded(s, a, step, status), a))
    ensures AllOnward(s.assignments, Started(Recorded(s, a, step, status), a).assignments)
  {
    RecordingKeepsValid(s, a, step, status);
    StartingKeepsValid(Recorded(s, a, step, status), a);
  }

  lemma RecordingKeepsValid(s: State, a: nat, step: nat, status: StepStatus)
    requires Valid(s) && a < |s.assignments| && step in s.steps
    ensures Valid(Recorded(s, a, step, status))
  {
  }

  /** A walk that has begun is under way or done. */
  lemma StartingKeepsValid(s: State, a: nat)
    requires Valid(s) && a < |s.assignments|
    ensures Valid(Started(s, a)) && AllOnward(s.assignments, Started(s, a).assignments)
    ensures Started(s, a).assignments[a].status.InProgress? || Started(s, a).assignments[a].status.Completed?
  {
  }

  lemma FinishingKeepsValid(s: State, a: nat)
    requires Valid(s) && a < |s.assignments| && s.assignments[a].status.InProgress?
    ensures Valid(Finished(s, a)) && AllOnward(s.assignments, Finished(s, a).assignments)
  {
  }

  lemma OnwardAndOnward(a: seq<Assignment>, b: seq<Assignment>, c: seq<Assignment>)
    requires AllOnward(a, b) && AllOnward(b, c)
    ensures AllOnward(a, c)
  {
    forall i | 0 <= i < |a|
      ensures Onward(a[i], c[i])
    {
      assert Onward(a[i], b[i]) && Onward(b[i], c[i]);
    }
  }

  lemma MarkingKeepsValid(s: State, organization: string, user: string, step: nat, status: StepStatus, resolves: bool,
                          calls: nat)
    requires Valid(s)
    ensures var after := Marked(s, organization, user, step, status, resolves, calls);
            Valid(after) && AllOnward(s.assignments, after.assignments)
  {
    hide Valid, AllOnward, OutstandingOf, Finished, Started, LiveFlow;
    NobodyMovesBack(s.assignments);
    var own := Own(s, organization, user, step);
    if own.Some? {
      var started := Started(Recorded(s, own.value, step, status), own.value);
      WalkingKeepsValid(s, own.value, step, status);
      StartingKeepsValid(Recorded(s, own.value, step, status), own.value);
      if started.assignments[own.value].status.InProgress? {
        FinishingKeepsValid(started, own.value);
        OnwardAndOnward(s.assignments, started.assignments, Finished(started, own.value).assignments);
      }
    }
  }

  lemma VerifyingKeepsValid(s: State, organization: string, user: string, step: nat, passed: Option<bool>, calls: nat)
    requires Valid(s)
    ensures var after := Verified(s, organization, user, step, passed, calls);
            Valid(after) && AllOnward(s.assignments, after.assignments)
  {
    var own := Own(s, organization, user, step);
    if own.Some? {
      WalkingKeepsValid(s, own.value, step, StepDone);
    }
  }

  lemma AssigningKeepsValid(s: State, organization: string, flow: nat, user: string, loads: bool, stores: bool)
    requires Valid(s)
    ensures var after := Assigned(s, organization, flow, user, loads, stores);
            Valid(after) && AllOnward(s.assignments, after.assignments)
  {
    hide Valid, AllOnward;
    NobodyMovesBack(s.assignments);
    if !(exists a :: a in s.assignments && a.flow == flow && a.user == user && a.IsLive()) && LiveFlow(s, organization, flow) {
      JoiningKeepsValid(s, organization, flow, user);
    }
  }

  /** A walk nobody is on may begin. */
  lemma JoiningKeepsValid(s: State, organization: string, flow: nat, user: string)
    requires Valid(s) && LiveFlow(s, organization, flow)
    requires !exists a :: a in s.assignments && a.flow == flow && a.user == user && a.IsLive()
    ensures var joined := s.assignments + [Assignment(organization, flow, user, Pending, None, None)];
            Valid(s.(assignments := joined)) && AllOnward(s.assignments, joined)
  {
    var joined := s.assignments + [Assignment(organization, flow, user, Pending, None, None)];
    assert forall i :: 0 <= i < |s.assignments| ==> s.assignments[i] in s.assignments && joined[i] == s.assignments[i];
  }

  lemma FlowsKeepValid(s: State, organization: string, flow: nat)
    requires Valid(s)
    ensures Valid(Step(s, CreateFlow(organization))) && Valid(Step(s, DeleteFlow(organization, flow)))
  {
  }

  lemma NobodyMovesBack(assignments: seq<Assignment>)
    ensures AllOnward(assignments, assignments)
  {
  }

  lemma StepKeepsValid(s: State, e: Event)
    requires Valid(s)
    ensures Valid(Step(s, e)) && AllOnward(s.assignments, Step(s, e).assignments)
  {
    hide Valid, AllOnward, Marked, Assigned, Verified;
    NobodyMovesBack(s.assignments);
    match e
    case CreateFlow(organization) => FlowsKeepValid(s, organization, 0);
    case DeleteFlow(organization, flow) => FlowsKeepValid(s, organization, flow);
    case ReplaceSteps(organization, flow, inputs, wellFormed, stores) =>
      ReplacingKeepsValid(s, organization, flow, inputs, wellFormed, stores);
    case Assign(organization, flow, user, loads, stores) => AssigningKeepsValid(s, organization, flow, user, loads, stores);
    case MarkStep(organization, user, step, status, resolves, calls) =>
      if status.Some? {
        MarkingKeepsValid(s, organization, user, step, status.value, resolves, calls);
      }
    case Verify(organization, user, step, passed, calls) => VerifyingKeepsValid(s, organization, user, step, passed, calls);
    case Wait(tick) => LaterKeepsValid(s, tick);
  }

  /**
   * In every run a user has at most one live assignment per flow, its times agree with its status and with each
   * other, each time is written once, and the status never moves back.
   */
  lemma {:induction false} EveryRunMovesOnward(s: State, events: seq<Event>)
    requires Valid(s)
    ensures Valid(Exec(s, events)) && AllOnward(s.assignments, Exec(s, events).assignments)
  {
    if events != [] {
      var before := Exec(s, events[..|events| - 1]);
      EveryRunMovesOnward(s, events[..|events| - 1]);
      StepKeepsValid(before, events[|events| - 1]);
      OnwardAndOnward(s.assignments, before.assignments, Exec(s, events).assignments);
    }
  }

  // ── when a walk is over ────────────────────────────────────────────────────

  /** Recording an outcome in time to finish the walk: every other required step of the flow is already recorded. */
  predicate Concludes(s: State, e: Event, a: nat)
    requires a < |s.assignments|
  {
    && e.MarkStep? && e.status.Some? && e.resolves && e.calls >= 8
    && e.step in s.steps && IsWalkOf(s.assignments[a], e.organization, e.user, s.steps[e.step].flow)
    && s.assignments[a].flow < |s.flows| && s.flows[s.assignments[a].flow] == Flow(e.organization, false)
    && forall id :: id in s.steps && id != e.step && s.steps[id].flow == s.assignments[a].flow && s.steps[id].required ==>
                      (a, id) in s.progress
  }

  /** A live assignment of the flow to the user in the organization. */
  predicate IsWalkOf(a: Assignment, organization: string, user: string, flow: nat) {
    a.organization == organization && a.user == user && a.flow == flow && a.status in {Pending, InProgress, Completed}
  }

  /** The walk a call acts on is the only one there is. */
  lemma OwnIsTheOnlyWalk(s: State, organization: string, user: string, step: nat, a: nat)
    requires Valid(s) && a < |s.assignments|
    ensures Own(s, organization, user, step) == Some(a)
            <==> step in s.steps && IsWalkOf(s.assignments[a], organization, user, s.steps[step].flow)
  {
    if step in s.steps && IsWalkOf(s.assignments[a], organization, user, s.steps[step].flow) {
      var found := Find(s.assignments, organization, user, s.steps[step].flow);
      assert Walks(s.assignments[a], organization, user, s.steps[step].flow);
      assert SameWalk(s.assignments[found.value], s.assignments[a]) && SameWalk(s.assignments[a], s.assignments[found.value]);
    }
  }

  /** A walk becomes complete by marking its last required step or one after it, and in no other way. */
  lemma CompletesIff(s: State, e: Event, a: nat)
    requires Valid(s) && a < |s.assignments|
    ensures a < |Step(s, e).assignments|
    ensures Step(s, e).assignments[a].status.Completed? <==> s.assignments[a].status.Completed? || Concludes(s, e, a)
    ensures Step(s, e).assignments[a].status.Completed? && !s.assignments[a].status.Completed? ==>
              && OutstandingOf(Step(s, e), a) == {}
              && Step(s, e).assignments[a].completedAt == Some(s.clock)
  {
    if e.MarkStep? && e.status.Some? {
      MarkingConcludes(s, e, a);
    } else {
      OnlyMarkingConcludes(s, e, a);
    }
  }

  lemma OnlyMarkingConcludes(s: State, e: Event, a: nat)
    requires a < |s.assignments| && !(e.MarkStep? && e.status.Some?)
    ensures a < |Step(s, e).assignments| && (Step(s, e).assignments[a].status.Completed? <==> s.assignments[a].status.Completed?)
  {
  }

  lemma MarkingConcludes(s: State, e: Event, a: nat)
    requires Valid(s) && a < |s.assignments| && e.MarkStep? && e.status.Some?
    ensures var after := Marked(s, e.organization, e.user, e.step, e.status.value, e.resolves, e.calls);
            && a < |after.assignments|
            && (after.assignments[a].status.Completed? <==> s.assignments[a].status.Completed? || Concludes(s, e, a))
            && (after.assignments[a].status.Completed? && !s.assignments[a].status.Completed? ==>
                  OutstandingOf(after, a) == {} && after.assignments[a].completedAt == Some(s.clock))
  {
    OwnIsTheOnlyWalk(s, e.organization, e.user, e.step, a);
    var own := Own(s, e.organization, e.user, e.step);
    if own == Some(a) && e.calls >= 3 {
      var started := Started(Recorded(s, a, e.step, e.status.value), a);
      assert forall id :: id in s.steps ==> (Outstanding(started, a, id) <==> Outstanding(s, a, id) && id != e.step);
      assert OutstandingOf(started, a) == {} <==> forall id :: id in s.steps ==> !Outstanding(started, a, id) by {
        assert forall id :: id in OutstandingOf(started, a) <==> id in s.steps && Outstanding(started, a, id);
      }
      assert OutstandingOf(Finished(started, a), a) == OutstandingOf(started, a);
    }
  }

  /** Verifying the last required step leaves the walk open with nothing outstanding. */
  lemma VerifyingNeverConcludes(s: State, organization: string, user: string, step: nat, calls: nat, a: nat)
    requires Valid(s) && Own(s, organization, user, step) == Some(a) && s.steps[step].verified && calls >= 4
    requires !s.assignments[a].status.Completed? && forall id :: id in s.steps && Outstanding(s, a, id) ==> id == step
    ensures var after := Step(s, Verify(organization, user, step, Some(true), calls));
            OutstandingOf(after, a) == {} && after.assignments[a].status.InProgress?
  {
    var after := Step(s, Verify(organization, user, step, Some(true), calls));
    assert forall id :: id in s.steps ==> (Outstanding(after, a, id) <==> Outstanding(s, a, id) && id != step);
  }

  /** Adding a required step to a finished walk leaves it finished, with that step outstanding. */
  lemma AddingAStepReopensNothing(s: State, organization: string, flow: nat, inputs: seq<StepInput>, a: nat)
    requires Valid(s) && LiveFlow(s, organization, flow) && Belongs(s, flow, inputs)
    requires a < |s.assignments| && s.assignments[a].flow == flow && s.assignments[a].status.Completed?
    ensures var after := Step(s, ReplaceSteps(organization, flow, inputs + [StepInput(None, true, false)], true, true));
            after.assignments == s.assignments && OutstandingOf(after, a) != {}
  {
    var extended := inputs + [StepInput(None, true, false)];
    var after := Step(s, ReplaceSteps(organization, flow, extended, true, true));
    assert extended[..|extended| - 1] == inputs;
    assert Named(extended) == Named(inputs) by {
      assert forall i :: 0 <= i < |inputs| ==> extended[i] == inputs[i];
    }
    assert forall i :: 0 <= i < |inputs| && inputs[i].id.Some? ==> inputs[i].id.value in Named(inputs);
    var kept := Kept(s, flow, extended);
    SavedIsWired(kept, s.nextStep, flow, inputs, |s.flows|);
    var added := Saved(kept, s.nextStep, flow, inputs).1;
    assert added in after.steps && after.steps[added] == StepRow(flow, true, false);
    assert (a, added) !in after.progress;
    assert added in OutstandingOf(after, a);
  }

  /** Saving a list forgets progress only on the steps it drops, and a list naming a foreign step changes nothing. */
  lemma EditingKeepsProgress(s: State, organization: string, flow: nat, inputs: seq<StepInput>, wellFormed: bool,
                             stores: bool, a: nat, id: nat)
    requires Valid(s) && (a, id) in s.progress
    ensures var after := Step(s, ReplaceSteps(organization, flow, inputs, wellFormed, stores));
            var saved := LiveFlow(s, organization, flow) && wellFormed && stores && Belongs(s, flow, inputs);
            && ((a, id) in after.progress <==> !saved || s.steps[id].flow != flow || id in Named(inputs))
            && ((a, id) in after.progress ==> after.progress[(a, id)] == s.progress[(a, id)])
            && (!saved ==> after == s)
  {
  }

  function StatusOf(e: Event): StepStatus
    requires e.MarkStep?
  {
    if e.status.Some? then e.status.value else StepDone
  }

  /**
   * A call writes at most one progress row: for the step it names, in the caller's own live assignment of the flow
   * that has the step, saying what the caller marked or that a verified step passed.
   */
  lemma OnlyOwnProgressIsWritten(s: State, e: Event, key: (nat, nat))
    requires e.MarkStep? || e.Verify?
    ensures var after := Step(s, e);
            (key in after.progress && (key in s.progress ==> after.progress[key] != s.progress[key])) ==>
              && key.1 == e.step && e.step in s.steps && key.0 < |s.assignments|
              && Walks(s.assignments[key.0], e.organization, e.user, s.steps[e.step].flow)
              && (e.Verify? ==> s.steps[e.step].verified && e.passed == Some(true))
              && after.progress[key] == Progress(if e.Verify? then StepDone else StatusOf(e), s.clock)
    ensures key in s.progress ==> key in Step(s, e).progress
  {
  }
}
