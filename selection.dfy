/**
 * Step selection in pkg/drone/exec.go: the include, exclude and resume-at
 * passes that rewrite a compiled step's run policy to RunNever in place.
 * The step called "clone" is exempt from every pass.
 */
module Selection {
  import opened Strings
  import opened Steps

  /** The implicit checkout step. */
  const Clone: string := "clone"

  /**
   * The include rule: with a non-empty include list, a step other than
   * "clone" that is not listed is skipped; a listed step keeps its policy.
   */
  function IncludeRule(includes: seq<string>, name: string, p: RunPolicy): (q: RunPolicy)
    ensures q == p || q == RunNever
    ensures q != p <==> p != RunNever && |includes| > 0 && name != Clone && name !in includes
  {
    if |includes| > 0 && name != Clone && name !in includes then RunNever else p
  }

  /** The exclude rule: a step other than "clone" that is listed is skipped. */
  function ExcludeRule(excludes: seq<string>, name: string, p: RunPolicy): (q: RunPolicy)
    ensures q == p || q == RunNever
    ensures q != p <==> p != RunNever && name != Clone && name in excludes
  {
    if name != Clone && name in excludes then RunNever else p
  }

  /**
   * The resume-at rule: a step scanned before the resume point re-checks
   * the exclude list; one at or after the resume point is left alone.
   */
  function ResumeRule(excludes: seq<string>, name: string, beforeResume: bool, p: RunPolicy): (q: RunPolicy)
    ensures q == p || q == RunNever
    ensures !beforeResume ==> q == p
    ensures beforeResume ==> q == ExcludeRule(excludes, name, p)
  {
    if beforeResume && name != Clone && name in excludes then RunNever else p
  }

  /** The policy a step ends with after all three passes, given its policy before them. */
  function Selected(includes: seq<string>, excludes: seq<string>, name: string, p: RunPolicy): (q: RunPolicy)
    ensures q == p || q == RunNever
    ensures p == RunNever ==> q == RunNever
    ensures name == Clone ==> q == p
    ensures name != Clone && name in excludes ==> q == RunNever
    ensures name != Clone && |includes| > 0 && name !in includes ==> q == RunNever
    ensures (name == Clone || ((|includes| == 0 || name in includes) && name !in excludes)) ==> q == p
  {
    ExcludeRule(excludes, name, IncludeRule(includes, name, p))
  }

  /**
   * Where the resume-at scan stops: the first step named `resumeAt`, or the
   * end of the list when there is none. An empty `resumeAt` disables the pass.
   */
  function ResumeScope(steps: seq<Step>, resumeAt: string): (stop: nat)
    ensures stop <= |steps|
    ensures resumeAt == "" ==> stop == 0
    ensures resumeAt != "" ==> forall k :: 0 <= k < stop ==> steps[k].name != resumeAt
    ensures resumeAt != "" && stop < |steps| ==> steps[stop].name == resumeAt
  {
    if resumeAt == "" then 0 else IndexOf(Names(steps), resumeAt)
  }

  /** A re-check of the exclude rule cannot change a policy the exclude pass produced. */
  lemma ResumeAtRedundant(includes: seq<string>, excludes: seq<string>, name: string, beforeResume: bool, p: RunPolicy)
    ensures ResumeRule(excludes, name, beforeResume, Selected(includes, excludes, name, p))
            == Selected(includes, excludes, name, p)
  {
  }

  /** The include pass (exec.go, `if len(commy.Include) > 0 { I: for ... }`). */
  method IncludePass(steps: seq<Step>, includes: seq<string>)
    modifies steps
    ensures forall k :: 0 <= k < |steps| ==>
              steps[k].runPolicy == IncludeRule(includes, steps[k].name, old(steps[k].runPolicy))
  {
    if |includes| > 0 {
      var i := 0;
      while i < |steps|
        invariant 0 <= i <= |steps|
        invariant forall k :: 0 <= k < |steps| ==>
                    steps[k].runPolicy == old(steps[k].runPolicy)
                    || (steps[k].runPolicy == RunNever
                        && IncludeRule(includes, steps[k].name, old(steps[k].runPolicy)) == RunNever)
        invariant forall k :: 0 <= k < i ==>
                    steps[k].runPolicy == IncludeRule(includes, steps[k].name, old(steps[k].runPolicy))
      {
        var step := steps[i];
        if step.name != Clone {
          var listed := Contains(includes, step.name);
          if !listed {
            step.runPolicy := RunNever;
          }
        }
        i := i + 1;
      }
    }
  }

  /** The exclude pass (exec.go, `if len(commy.Exclude) > 0 { E: for ... }`). */
  method ExcludePass(steps: seq<Step>, excludes: seq<string>)
    modifies steps
    ensures forall k :: 0 <= k < |steps| ==>
              steps[k].runPolicy == ExcludeRule(excludes, steps[k].name, old(steps[k].runPolicy))
  {
    if |excludes| > 0 {
      var i := 0;
      while i < |steps|
        invariant 0 <= i <= |steps|
        invariant forall k :: 0 <= k < |steps| ==>
                    steps[k].runPolicy == old(steps[k].runPolicy)
                    || (steps[k].runPolicy == RunNever
                        && ExcludeRule(excludes, steps[k].name, old(steps[k].runPolicy)) == RunNever)
        invariant forall k :: 0 <= k < i ==>
                    steps[k].runPolicy == ExcludeRule(excludes, steps[k].name, old(steps[k].runPolicy))
      {
        var step := steps[i];
        if step.name != Clone {
          var listed := Contains(excludes, step.name);
          if listed {
            step.runPolicy := RunNever;
          }
        }
        i := i + 1;
      }
    }
  }

  /**
   * The resume-at pass (exec.go, `if cliContext.String("resume-at") != ""`).
   * A step object is re-checked when it occurs before the resume point; the
   * scan breaks at the first step named `resumeAt`.
   */
  method ResumeAtPass(steps: seq<Step>, excludes: seq<string>, resumeAt: string)
    modifies steps
    ensures forall k :: 0 <= k < |steps| ==>
              steps[k].runPolicy
              == ResumeRule(excludes, steps[k].name, steps[k] in steps[..ResumeScope(steps, resumeAt)],
                            old(steps[k].runPolicy))
  {
    if resumeAt != "" {
      var i := 0;
      while i < |steps|
        invariant 0 <= i <= |steps|
        invariant forall m :: 0 <= m < i ==> steps[m].name != resumeAt
        invariant forall k :: 0 <= k < |steps| ==>
                    steps[k].runPolicy
                    == ResumeRule(excludes, steps[k].name, steps[k] in steps[..i], old(steps[k].runPolicy))
      {
        var step := steps[i];
        if step.name == resumeAt {
          break;
        }
        assert steps[..i + 1] == steps[..i] + [step];
        if step.name != Clone {
          // The source keeps scanning the list after a match; every match
          // assigns the same value, so one membership test is equivalent.
          var listed := Contains(excludes, step.name);
          if listed {
            step.runPolicy := RunNever;
          }
        }
        i := i + 1;
      }
      assert i == ResumeScope(steps, resumeAt);
    }
  }

  /**
   * The three passes in the order the source runs them. The final policy of
   * every step depends only on its name and its policy before selection:
   * the resume-at directive never changes the outcome.
   */
  method Select(steps: seq<Step>, includes: seq<string>, excludes: seq<string>, resumeAt: string)
    modifies steps
    ensures forall k :: 0 <= k < |steps| ==>
              steps[k].runPolicy == Selected(includes, excludes, steps[k].name, old(steps[k].runPolicy))
  {
    IncludePass(steps, includes);
    ExcludePass(steps, excludes);
    label excluded:
    ResumeAtPass(steps, excludes, resumeAt);
    forall k | 0 <= k < |steps|
      ensures steps[k].runPolicy == old@excluded(steps[k].runPolicy)
    {
      var b := steps[k] in steps[..ResumeScope(steps, resumeAt)];
      ResumeAtRedundant(includes, excludes, steps[k].name, b, old(steps[k].runPolicy));
    }
  }

  /** Selection example: with include list ["build"], "clone" and "build" run and "test" is skipped. */
  method IncludeExample()
  {
    var clone := new Step("clone", "drone/git", RunOnSuccess, ErrFail);
    var build := new Step("build", "golang", RunOnSuccess, ErrFail);
    var test := new Step("test", "golang", RunOnSuccess, ErrFail);
    var steps := [clone, build, test];
    Select(steps, ["build"], [], "");
    assert "test" != Clone && "test" !in ["build"];
    assert steps[0].runPolicy == RunOnSuccess && steps[1].runPolicy == RunOnSuccess;
    assert steps[2].runPolicy == RunNever;
  }

  /** Selection example: with exclude list ["test"], only "test" is skipped. */
  method ExcludeExample()
  {
    var clone := new Step("clone", "drone/git", RunOnSuccess, ErrFail);
    var build := new Step("build", "golang", RunOnSuccess, ErrFail);
    var test := new Step("test", "golang", RunOnSuccess, ErrFail);
    var steps := [clone, build, test];
    Select(steps, [], ["test"], "");
    assert "build" !in ["test"] && "test" != Clone;
    assert steps[0].runPolicy == RunOnSuccess && steps[1].runPolicy == RunOnSuccess;
    assert steps[2].runPolicy == RunNever;
  }

  /** Selection example: resuming at "test" with "build" excluded skips "build" only. */
  method ResumeAtExample()
  {
    var clone := new Step("clone", "drone/git", RunOnSuccess, ErrFail);
    var build := new Step("build", "golang", RunOnSuccess, ErrFail);
    var test := new Step("test", "golang", RunOnSuccess, ErrFail);
    var deploy := new Step("deploy", "plugins/docker", RunOnSuccess, ErrFail);
    var steps := [clone, build, test, deploy];
    Select(steps, [], ["build"], "test");
    assert "build" != Clone && "test" !in ["build"] && "deploy" !in ["build"];
    assert steps[0].runPolicy == RunOnSuccess && steps[1].runPolicy == RunNever;
    assert steps[2].runPolicy == RunOnSuccess && steps[3].runPolicy == RunOnSuccess;
  }
}
