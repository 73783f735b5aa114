/**
 * Onboarding call by call: what an assignment starts, what saving a flow leaves, and what recording an outcome
 * writes.
 */
module Walks {
  import opened Wrappers
  import opened Onboarding

  // ── assigning ──────────────────────────────────────────────────────────────

  /** The user already has a live assignment of the flow. */
  ghost predicate Walking(s: State, flow: nat, user: string) {
    exists i :: 0 <= i < |s.assignments| && s.assignments[i].flow == flow && s.assignments[i].user == user && !s.assignments[i].status.Abandoned?
  }

  /** The flow exists, is not deleted and belongs to the organization. */
  predicate HasFlow(s: State, organization: string, flow: nat) {
    flow < |s.flows| && s.flows[flow] == Flow(organization, false)
  }

  /**
   * Assigning starts one walk, not begun and without times, exactly when the flow is the organization's and the user
   * has no live walk of it; every other assignment, step and outcome stays as it is.
   */
  lemma AssigningStartsOneIff(s: State, organization: string, flow: nat, user: string, loads: bool, stores: bool)
    requires Valid(s)
    ensures var after := Step(s, Assign(organization, flow, user, loads, stores));
            var starts := loads && stores && HasFlow(s, organization, flow) && !Walking(s, flow, user);
            && (!starts ==> after == s)
            && (starts ==> after == s.(assignments := after.assignments) && |after.assignments| == |s.assignments| + 1
                           && after.assignments[..|s.assignments|] == s.assignments
                           && var begun := after.assignments[|s.assignments|];
                           && begun.organization == organization && begun.flow == flow && begun.user == user
                           && begun.status == Pending && begun.startedAt.None? && begun.completedAt.None?)
  {
    var found := Find(s.assignments, organization, user, flow);
    if found.Some? {
      assert Walks(s.assignments[found.value], organization, user, flow);
    }
    if Walking(s, flow, user) {
      var i :| 0 <= i < |s.assignments| && s.assignments[i].flow == flow && s.assignments[i].user == user && !s.assignments[i].status.Abandoned?;
      assert s.assignments[i] in s.assignments && s.assignments[i].IsLive();
    }
  }

  // ── saving a list of steps ─────────────────────────────────────────────────

  /**
   * The save goes through: the flow is the organization's, the list is well formed and names only the flow's own
   * steps.
   */
  ghost predicate Saves(s: State, e: Event)
    requires e.ReplaceSteps?
  {
    && e.wellFormed && e.stores && HasFlow(s, e.organization, e.flow)
    && forall i :: 0 <= i < |e.inputs| && e.inputs[i].id.Some? ==> e.inputs[i].id.value in s.steps && s.steps[e.inputs[i].id.value].flow == e.flow
  }

  /** How many of the first `n` inputs create a step. */
  function Created(inputs: seq<StepInput>, n: nat): nat
    requires n <= |inputs|
  {
    if n == 0 then 0 else Created(inputs, n - 1) + if inputs[n - 1].id.None? then 1 else 0
  }

  /** The step the `n`-th input is saved as: the one it names, or the next number nobody has used. */
  function SavedAs(s: State, inputs: seq<StepInput>, n: nat): nat
    requires n < |inputs|
  {
    if inputs[n].id.Some? then inputs[n].id.value else s.nextStep + Created(inputs, n)
  }

  lemma {:induction false} CreatedGrows(inputs: seq<StepInput>, a: nat, b: nat)
    requires a <= b <= |inputs|
    ensures Created(inputs, a) <= Created(inputs, b)
    ensures a < b && inputs[a].id.None? ==> Created(inputs, a) < Created(inputs, b)
    decreases b
  {
    if a < b {
      CreatedGrows(inputs, a, b - 1);
    }
  }

  lemma {:induction false} CreatedOfPrefix(inputs: seq<StepInput>, m: nat, n: nat)
    requires n <= m <= |inputs|
    ensures Created(inputs[..m], n) == Created(inputs, n)
  {
    if n > 0 {
      CreatedOfPrefix(inputs, m, n - 1);
    }
  }

  lemma SavedAsOfPrefix(s: State, inputs: seq<StepInput>, m: nat, n: nat)
    requires n < m <= |inputs|
    ensures SavedAs(s, inputs[..m], n) == SavedAs(s, inputs, n)
  {
    CreatedOfPrefix(inputs, m, n);
  }

  ghost predicate SomeSavedAs(s: State, inputs: seq<StepInput>, id: nat) {
    exists n :: 0 <= n < |inputs| && SavedAs(s, inputs, n) == id
  }

  lemma SomeSavedOneMore(s: State, inputs: seq<StepInput>, id: nat)
    requires inputs != []
    ensures var last := |inputs| - 1;
            SomeSavedAs(s, inputs, id) <==> SomeSavedAs(s, inputs[..last], id) || SavedAs(s, inputs, last) == id
  {
    var last := |inputs| - 1;
    hide SavedAs;
    forall n | 0 <= n < last
      ensures SavedAs(s, inputs[..last], n) == SavedAs(s, inputs, n)
    {
      SavedAsOfPrefix(s, inputs, last, n);
    }
  }

  lemma SavedUnfolds(table: map<nat, StepRow>, next: nat, flow: nat, inputs: seq<StepInput>)
    requires inputs != []
    ensures var last := |inputs| - 1;
            var before, after := Saved(table, next, flow, inputs[..last]), Saved(table, next, flow, inputs);
            var row := StepRow(flow, inputs[last].required, inputs[last].verified);
            && (inputs[last].id.Some? ==> after == (before.0[inputs[last].id.value := row], before.1))
            && (inputs[last].id.None? ==> after == (before.0[before.1 := row], before.1 + 1))
  {
  }

  /** One more input: the table so far, with the row the input says under the number it is saved as. */
  lemma SavedOneMore(s: State, table: map<nat, StepRow>, flow: nat, inputs: seq<StepInput>)
    requires inputs != []
    requires Saved(table, s.nextStep, flow, inputs[..|inputs| - 1]).1 == s.nextStep + Created(inputs, |inputs| - 1)
    ensures var last := |inputs| - 1;
            && Saved(table, s.nextStep, flow, inputs).1 == s.nextStep + Created(inputs, |inputs|)
            && Saved(table, s.nextStep, flow, inputs).0
               == Saved(table, s.nextStep, flow, inputs[..last]).0[SavedAs(s, inputs, last) := StepRow(flow, inputs[last].required, inputs[last].verified)]
  {
    hide Saved;
    SavedUnfolds(table, s.nextStep, flow, inputs);
  }

  lemma {:induction false} SavedNext(s: State, table: map<nat, StepRow>, flow: nat, inputs: seq<StepInput>)
    ensures Saved(table, s.nextStep, flow, inputs).1 == s.nextStep + Created(inputs, |inputs|)
  {
    if inputs != [] {
      var last := |inputs| - 1;
      SavedNext(s, table, flow, inputs[..last]);
      CreatedOfPrefix(inputs, last, last);
      SavedOneMore(s, table, flow, inputs);
    }
  }

  lemma SavedStepByStep(s: State, table: map<nat, StepRow>, flow: nat, inputs: seq<StepInput>)
    requires inputs != []
    ensures var last := |inputs| - 1;
            Saved(table, s.nextStep, flow, inputs).0
            == Saved(table, s.nextStep, flow, inputs[..last]).0[SavedAs(s, inputs, last) := StepRow(flow, inputs[last].required, inputs[last].verified)]
  {
    hide Saved, SavedAs;
    SavedNext(s, table, flow, inputs[..|inputs| - 1]);
    CreatedOfPrefix(inputs, |inputs| - 1, |inputs| - 1);
    SavedOneMore(s, table, flow, inputs);
  }

  lemma SavedNothing(s: State, table: map<nat, StepRow>, flow: nat)
    ensures Saved(table, s.nextStep, flow, []).0 == table
  {
  }

  lemma {:induction false} SavedTable(s: State, table: map<nat, StepRow>, flow: nat, inputs: seq<StepInput>, id: nat)
    ensures id in Saved(table, s.nextStep, flow, inputs).0 <==> id in table || SomeSavedAs(s, inputs, id)
  {
    hide Saved, SavedAs;
    SavedNothing(s, table, flow);
    if inputs != [] {
      SavedTable(s, table, flow, inputs[..|inputs| - 1], id);
      SavedStepByStep(s, table, flow, inputs);
      SomeSavedOneMore(s, inputs, id);
    }
  }

  lemma {:induction false} SavedLast(s: State, table: map<nat, StepRow>, flow: nat, inputs: seq<StepInput>, n: nat,
                                     id: nat)
    requires LastSaying(s, inputs, n, id)
    ensures id in Saved(table, s.nextStep, flow, inputs).0
    ensures Saved(table, s.nextStep, flow, inputs).0[id] == StepRow(flow, inputs[n].required, inputs[n].verified)
    decreases |inputs|
  {
    hide Saved, SavedAs;
    var last := |inputs| - 1;
    SavedStepByStep(s, table, flow, inputs);
    if n < last {
      forall m | n <= m < last
        ensures SavedAs(s, inputs[..last], m) == SavedAs(s, inputs, m)
      {
        SavedAsOfPrefix(s, inputs, last, m);
      }
      SavedLast(s, table, flow, inputs[..last], n, id);
    }
  }

  lemma {:induction false} SavedKeeps(s: State, table: map<nat, StepRow>, flow: nat, inputs: seq<StepInput>, id: nat)
    requires id in table && !SomeSavedAs(s, inputs, id)
    ensures id in Saved(table, s.nextStep, flow, inputs).0 && Saved(table, s.nextStep, flow, inputs).0[id] == table[id]
  {
    hide Saved, SavedAs;
    SavedNothing(s, table, flow);
    if inputs != [] {
      SomeSavedOneMore(s, inputs, id);
      SavedStepByStep(s, table, flow, inputs);
      assert SavedAs(s, inputs, |inputs| - 1) != id;
      SavedKeeps(s, table, flow, inputs[..|inputs| - 1], id);
    }
  }

  /** What some input of the list says about a step: the last one saved as it. */
  ghost predicate LastSaying(s: State, inputs: seq<StepInput>, n: nat, id: nat) {
    && n < |inputs| && SavedAs(s, inputs, n) == id
    && forall m :: n < m < |inputs| ==> SavedAs(s, inputs, m) != id
  }

  lemma {:induction false} SomeSaysLast(s: State, inputs: seq<StepInput>, bound: nat, id: nat) returns (n: nat)
    requires bound <= |inputs| && exists k :: 0 <= k < bound && SavedAs(s, inputs, k) == id
    requires forall m :: bound <= m < |inputs| ==> SavedAs(s, inputs, m) != id
    ensures LastSaying(s, inputs, n, id)
  {
    if SavedAs(s, inputs, bound - 1) == id {
      n := bound - 1;
    } else {
      n := SomeSaysLast(s, inputs, bound - 1, id);
    }
  }

  /**
   * A save that goes through leaves the flow with exactly the steps of the list: every input is the step it names or
   * a new one, each new one with its own number, and a step says what the last input for it says. Steps of other flows
   * stay as they are. A save that does not go through changes nothing.
   */
  lemma SavingLeavesTheList(s: State, e: Event, id: nat) returns (n: nat)
    requires Valid(s) && e.ReplaceSteps?
    ensures !Saves(s, e) ==> Step(s, e) == s
    ensures Saves(s, e) ==>
              var after := Step(s, e);
              && after.assignments == s.assignments && after.flows == s.flows
              && (id in after.steps && after.steps[id].flow == e.flow ==>
                    LastSaying(s, e.inputs, n, id) && after.steps[id] == StepRow(e.flow, e.inputs[n].required, e.inputs[n].verified))
              && (forall k :: 0 <= k < |e.inputs| && SavedAs(s, e.inputs, k) == id ==> id in after.steps && after.steps[id].flow == e.flow)
              && (id in s.steps && s.steps[id].flow != e.flow ==> id in after.steps && after.steps[id] == s.steps[id])
              && (id in after.steps && after.steps[id].flow != e.flow ==> id in s.steps && after.steps[id] == s.steps[id])
  {
    n := 0;
    var named := forall i :: 0 <= i < |e.inputs| && e.inputs[i].id.Some? ==> e.inputs[i].id.value in Named(e.inputs);
    assert named;
    assert Belongs(s, e.flow, e.inputs) <==> forall i :: 0 <= i < |e.inputs| && e.inputs[i].id.Some? ==>
                                                             e.inputs[i].id.value in s.steps && s.steps[e.inputs[i].id.value].flow == e.flow;
    if Saves(s, e) {
      n := SavedStep(s, e, id);
    }
  }

  lemma SavedStep(s: State, e: Event, id: nat) returns (n: nat)
    requires Valid(s) && e.ReplaceSteps? && Saves(s, e)
    ensures var table := Saved(Kept(s, e.flow, e.inputs), s.nextStep, e.flow, e.inputs).0;
            && (id in table && table[id].flow == e.flow ==>
                  LastSaying(s, e.inputs, n, id) && table[id] == StepRow(e.flow, e.inputs[n].required,
                                                                         e.inputs[n].verified))
            && (forall k :: 0 <= k < |e.inputs| && SavedAs(s, e.inputs, k) == id ==> id in table && table[id].flow == e.flow)
            && (id in s.steps && s.steps[id].flow != e.flow ==> id in table && table[id] == s.steps[id])
            && (id in table && table[id].flow != e.flow ==> id in s.steps && table[id] == s.steps[id])
  {
    n := 0;
    var kept := Kept(s, e.flow, e.inputs);
    var table := Saved(kept, s.nextStep, e.flow, e.inputs).0;
    hide Saved, Belongs;
    SavedTable(s, kept, e.flow, e.inputs, id);
    if SomeSavedAs(s, e.inputs, id) {
      n := SomeSaysLast(s, e.inputs, |e.inputs|, id);
      SavedLast(s, kept, e.flow, e.inputs, n, id);
      NewNumbersAreNew(s, e);
    } else if id in kept {
      SavedKeeps(s, kept, e.flow, e.inputs, id);
      NamedAreSaved(s, e.inputs, id);
    }
  }

  /** A step of another flow is nobody's number. */
  lemma NewNumbersAreNew(s: State, e: Event)
    requires Valid(s) && e.ReplaceSteps? && Saves(s, e)
    ensures forall id :: id in s.steps && s.steps[id].flow != e.flow ==> !SomeSavedAs(s, e.inputs, id)
  {
  }

  lemma NamedAreSaved(s: State, inputs: seq<StepInput>, id: nat)
    ensures id in Named(inputs) ==> SomeSavedAs(s, inputs, id)
  {
    if id in Named(inputs) {
      var k :| 0 <= k < |inputs| && inputs[k].id.Some? && inputs[k].id.value == id;
      assert SavedAs(s, inputs, k) == id;
    }
  }

  // ── recording an outcome ───────────────────────────────────────────────────

  /** The caller's live walk of the flow that has the step. */
  ghost predicate IsOwn(s: State, e: Event, a: nat)
    requires e.MarkStep? || e.Verify?
  {
    && e.step in s.steps && a < |s.assignments| && s.assignments[a].organization == e.organization && s.assignments[a].user == e.user
    && s.assignments[a].flow == s.steps[e.step].flow && !s.assignments[a].status.Abandoned?
  }

  /**
   * The outcome the call records, if it records one: what the caller marked, or done for a verified step that passed.
   */
  function Outcome(s: State, e: Event): Option<StepStatus>
    requires e.MarkStep? || e.Verify?
  {
    if e.MarkStep? then e.status
    else if e.step in s.steps && s.steps[e.step].verified && e.passed == Some(true) then Some(StepDone)
    else None
  }

  /**
   * A call records its outcome, at that moment and on the caller's own walk, exactly when there is one to record and
   * storage lasts that long; one more call to storage and the walk has begun. Progress on everything else stays.
   */
  lemma OutcomeIsRecordedIff(s: State, e: Event, a: nat)
    requires Valid(s) && (e.MarkStep? || e.Verify?) && IsOwn(s, e, a)
    ensures var after := Step(s, e);
            && (Outcome(s, e).Some? && e.calls >= 3 ==>
                  after.progress == s.progress[(a, e.step) := Progress(Outcome(s, e).value, s.clock)])
            && (Outcome(s, e).None? || e.calls < 3 ==> after == s)
            && (Outcome(s, e).Some? && e.calls >= 4 ==>
                  && |after.assignments| == |s.assignments| && after.assignments[a].status in {InProgress, Completed}
                  && after.assignments[a].startedAt == (if s.assignments[a].startedAt.Some? then s.assignments[a].startedAt else Some(s.clock)))
            && forall i :: 0 <= i < |s.assignments| && i != a ==> i < |after.assignments| && after.assignments[i] == s.assignments[i]
  {
    var found := Find(s.assignments, e.organization, e.user, s.steps[e.step].flow);
    assert Walks(s.assignments[a], e.organization, e.user, s.steps[e.step].flow);
    assert found.Some? && Walks(s.assignments[found.value], e.organization, e.user, s.steps[e.step].flow);
    assert SameWalk(s.assignments[found.value], s.assignments[a]) && SameWalk(s.assignments[a], s.assignments[found.value]);
    assert found.value == a;
  }

  /** Without a walk of one's own there is nothing to record. */
  lemma NoWalkNoRecord(s: State, e: Event)
    requires (e.MarkStep? || e.Verify?) && forall a :: !IsOwn(s, e, a)
    ensures Step(s, e) == s
  {
    var own := Own(s, e.organization, e.user, e.step);
    assert own.Some? ==> IsOwn(s, e, own.value);
  }

  // ── flows ──────────────────────────────────────────────────────────────────

  /** Creating adds one live flow of the organization, and nothing else. */
  lemma CreatingAddsOne(s: State, organization: string)
    ensures var after := Step(s, CreateFlow(organization));
            && after == s.(flows := after.flows) && |after.flows| == |s.flows| + 1 && after.flows[..|s.flows|] == s.flows
            && HasFlow(after, organization, |s.flows|)
  {
  }

  /** Deleting takes exactly the organization's own flow, and its steps, walks and outcomes stay. */
  lemma DeletingExactly(s: State, organization: string, flow: nat)
    ensures var after := Step(s, DeleteFlow(organization, flow));
            && (!HasFlow(s, organization, flow) ==> after == s)
            && (HasFlow(s, organization, flow) ==> after == s.(flows := s.flows[flow := Flow(organization, true)]))
  {
  }
}
