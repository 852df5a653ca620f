/**
 * The stage's step roster built in pkg/drone/exec.go after selection: one
 * pending roster entry per step that is not skipped, numbered on from the
 * roster's current length.
 */
module Roster {
  import opened Steps

  /** The build statuses a roster entry can carry. */
  datatype Status = Skipped | Blocked | Declined | Waiting | Pending | Running | Success | Failure | Killed | Error

  /** One roster entry (the fields of the stage's step record that the core sets). */
  datatype DroneStep = DroneStep(stageId: int, number: int, name: string, status: Status, errIgnore: bool)

  /** The stage whose roster the core extends and the log streamer reads. */
  class Stage {
    const id: int
    var steps: seq<DroneStep>

    constructor (id: int, steps: seq<DroneStep>)
      ensures this.id == id && this.steps == steps
    {
      this.id := id;
      this.steps := steps;
    }
  }

  /**
   * The positions of the steps that are not skipped: exactly the j with
   * s[j].runPolicy != RunNever, in increasing order.
   */
  function RunnableIndices(s: seq<StepSpec>): (idx: seq<nat>)
    ensures |idx| <= |s|
    ensures forall k :: 0 <= k < |idx| ==> idx[k] < |s| && s[idx[k]].runPolicy != RunNever
    ensures forall j, k :: 0 <= j < k < |idx| ==> idx[j] < idx[k]
    ensures forall j :: 0 <= j < |s| && s[j].runPolicy != RunNever ==> j in idx
    decreases |s|
  {
    if |s| == 0 then []
    else
      var front := s[..|s| - 1];
      RunnableIndices(front) + (if s[|s| - 1].runPolicy == RunNever then [] else [|s| - 1])
  }

  /** The roster entry for the step `spec` with the given number. */
  function Entry(stageId: int, number: int, spec: StepSpec): (e: DroneStep)
    ensures e.stageId == stageId && e.number == number && e.name == spec.name
    ensures e.status == Pending
    ensures e.errIgnore <==> spec.errPolicy == ErrIgnore
  {
    DroneStep(stageId, number, spec.name, Pending, spec.errPolicy == ErrIgnore)
  }

  /**
   * The entries appended for `s` to a roster of length `start`, step by step:
   * a skipped step adds nothing, any other step adds its entry numbered after
   * the entries before it. Every entry is a pending entry of the stage, and
   * the k-th is numbered start + k + 1.
   */
  function RosterEntries(stageId: int, start: nat, s: seq<StepSpec>): (r: seq<DroneStep>)
    ensures |r| <= |s|
    ensures forall k :: 0 <= k < |r| ==> r[k].stageId == stageId && r[k].number == start + k + 1 && r[k].status == Pending
    decreases |s|
  {
    if |s| == 0 then []
    else
      var front := RosterEntries(stageId, start, s[..|s| - 1]);
      var last := s[|s| - 1];
      front + (if last.runPolicy == RunNever then [] else [Entry(stageId, start + |front| + 1, last)])
  }

  /** Extending the step list by one step extends the entries by at most one, numbered next. */
  lemma RosterEntriesSnoc(stageId: int, start: nat, s: seq<StepSpec>, i: nat)
    requires i < |s|
    ensures RosterEntries(stageId, start, s[..i + 1])
            == RosterEntries(stageId, start, s[..i])
               + (if s[i].runPolicy == RunNever then []
                  else [Entry(stageId, start + |RosterEntries(stageId, start, s[..i])| + 1, s[i])])
  {
    assert s[..i + 1][..i] == s[..i];
  }

  /**
   * The entries are exactly those of the runnable steps, in step order: the
   * k-th entry is the entry for the k-th step that is not RunNever, numbered
   * start + k + 1.
   */
  lemma {:induction false} RosterEntriesRunnable(stageId: int, start: nat, s: seq<StepSpec>)
    ensures |RosterEntries(stageId, start, s)| == |RunnableIndices(s)|
    ensures forall k :: 0 <= k < |RunnableIndices(s)| ==>
              RosterEntries(stageId, start, s)[k] == Entry(stageId, start + k + 1, s[RunnableIndices(s)[k]])
    decreases |s|
  {
    if |s| > 0 {
      var front := s[..|s| - 1];
      RosterEntriesRunnable(stageId, start, front);
      var idx := RunnableIndices(front);
      var r := RosterEntries(stageId, start, s);
      forall k | 0 <= k < |RunnableIndices(s)|
        ensures r[k] == Entry(stageId, start + k + 1, s[RunnableIndices(s)[k]])
      {
        if k < |idx| {
          assert RunnableIndices(s)[k] == idx[k] && s[idx[k]] == front[idx[k]];
        }
      }
    }
  }

  /**
   * The roster loop (exec.go, `for _, step := range spec.Steps { ... append ... }`):
   * the stage's roster gains exactly the entries for its runnable steps, in
   * step order, numbered consecutively from the old roster length plus one;
   * the entries already there stay as they were.
   */
  method AppendRoster(stage: Stage, steps: seq<Step>)
    modifies stage
    ensures stage.steps == old(stage.steps) + RosterEntries(stage.id, |old(stage.steps)|, Snapshot(steps))
  {
    ghost var s := Snapshot(steps);
    ghost var before := stage.steps;
    ghost var start := |stage.steps|;
    var i := 0;
    while i < |steps|
      invariant 0 <= i <= |steps|
      invariant stage.steps == before + RosterEntries(stage.id, start, s[..i])
    {
      var step := steps[i];
      RosterEntriesSnoc(stage.id, start, s, i);
      if step.runPolicy != RunNever {
        stage.steps := stage.steps + [DroneStep(stage.id, |stage.steps| + 1, step.name, Pending,
                                                step.errPolicy == ErrIgnore)];
      }
      i := i + 1;
    }
    assert s[..i] == s;
  }
}
