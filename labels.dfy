/**
 * The extra labels pkg/drone/exec.go attaches to every compiled step so that
 * the step's container can be found again by stage, step, number, selection
 * and service. Merging them into the step's own labels is done by a library
 * and is not part of this model: these members compute the extra map only.
 */
module Labels {
  import opened Strings
  import opened Steps

  const LabelIncludes: string := "io.drone.desktop.pipeline.includes"
  const LabelExcludes: string := "io.drone.desktop.pipeline.excludes"
  const LabelStageName: string := "io.drone.stage.name"
  const LabelStepName: string := "io.drone.step.name"
  const LabelStepNumber: string := "io.drone.step.number"
  const LabelService: string := "io.drone.desktop.pipeline.service"

  /** The six label keys are pairwise distinct, so no label overwrites another. */
  lemma LabelKeysDistinct()
    ensures LabelStageName != LabelStepName && LabelStageName != LabelStepNumber
    ensures LabelStepName != LabelStepNumber
    ensures LabelIncludes != LabelExcludes && LabelIncludes != LabelService && LabelExcludes != LabelService
    ensures LabelStageName != LabelIncludes && LabelStageName != LabelExcludes && LabelStageName != LabelService
    ensures LabelStepName != LabelIncludes && LabelStepName != LabelExcludes && LabelStepName != LabelService
    ensures LabelStepNumber != LabelIncludes && LabelStepNumber != LabelExcludes && LabelStepNumber != LabelService
  {
    assert |LabelStageName| == 19 && |LabelStepName| == 18 && |LabelStepNumber| == 20;
    assert |LabelIncludes| == 34 && |LabelExcludes| == 34 && |LabelService| == 33;
    assert LabelIncludes[26] != LabelExcludes[26];
  }

  /** The names of the pipeline's services. */
  function ServiceNames(p: Pipeline): (names: seq<string>)
    ensures |names| == |p.services|
    ensures forall k :: 0 <= k < |names| ==> names[k] == p.services[k].name
  {
    seq(|p.services|, k requires 0 <= k < |p.services| => p.services[k].name)
  }

  /** Three fixed elements and up to three flagged ones, all distinct, make a set of three plus one per flag set. */
  lemma FlaggedCount<T>(a: T, b: T, c: T, x: T, y: T, z: T, fx: bool, fy: bool, fz: bool)
    requires a != b && a != c && b != c
    requires x != y && x != z && y != z
    requires a != x && a != y && a != z && b != x && b != y && b != z && c != x && c != y && c != z
    ensures |{a, b, c} + (if fx then {x} else {}) + (if fy then {y} else {}) + (if fz then {z} else {})|
            == 3 + (if fx then 1 else 0) + (if fy then 1 else 0) + (if fz then 1 else 0)
  {
    var k0 := {a, b, c};
    assert |k0| == 3 by {
      assert k0 == {a} + {b} + {c};
    }
    var k1 := k0 + (if fx then {x} else {});
    assert x !in k0;
    var k2 := k1 + (if fy then {y} else {});
    assert y !in k1;
    assert z !in k2;
  }

  /**
   * What the extra label map of the step at 0-based position `i` holds: the
   * trimmed stage and step names and the decimal position always; the
   * comma-joined include and exclude lists exactly when they are non-empty;
   * the service flag "true" exactly when the step is named like a service.
   */
  ghost predicate IsExtraLabels(m: map<string, string>, i: nat, p: Pipeline, stepName: string,
                                includes: seq<string>, excludes: seq<string>)
  {
    && m.Keys == {LabelStageName, LabelStepName, LabelStepNumber}
                 + (if |includes| > 0 then {LabelIncludes} else {})
                 + (if |excludes| > 0 then {LabelExcludes} else {})
                 + (if stepName in ServiceNames(p) then {LabelService} else {})
    && m[LabelStageName] == TrimSpace(p.name)
    && m[LabelStepName] == TrimSpace(stepName)
    && m[LabelStepNumber] == DecimalString(i)
    && (|includes| > 0 ==> m[LabelIncludes] == Join(includes, ','))
    && (|excludes| > 0 ==> m[LabelExcludes] == Join(excludes, ','))
    && (stepName in ServiceNames(p) ==> m[LabelService] == "true")
  }

  /** The description above fixes the map: two maps that both meet it are equal. */
  lemma ExtraLabelsUnique(m1: map<string, string>, m2: map<string, string>, i: nat, p: Pipeline,
                          stepName: string, includes: seq<string>, excludes: seq<string>)
    requires IsExtraLabels(m1, i, p, stepName, includes, excludes)
    requires IsExtraLabels(m2, i, p, stepName, includes, excludes)
    ensures m1 == m2
  {
    LabelKeysDistinct();
    forall key | key in m1.Keys
      ensures m1[key] == m2[key]
    {
      assert key == LabelStageName || key == LabelStepName || key == LabelStepNumber
          || key == LabelIncludes || key == LabelExcludes || key == LabelService;
    }
  }

  /**
   * No extra label overwrites another: the map holds three labels, plus one
   * for each non-empty selection list and one when the step is a service.
   */
  lemma ExtraLabelsCount(m: map<string, string>, i: nat, p: Pipeline, stepName: string,
                         includes: seq<string>, excludes: seq<string>)
    requires IsExtraLabels(m, i, p, stepName, includes, excludes)
    ensures |m| == 3 + (if |includes| > 0 then 1 else 0) + (if |excludes| > 0 then 1 else 0)
                     + (if stepName in ServiceNames(p) then 1 else 0)
  {
    LabelKeysDistinct();
    FlaggedCount(LabelStageName, LabelStepName, LabelStepNumber, LabelIncludes, LabelExcludes, LabelService,
                 |includes| > 0, |excludes| > 0, stepName in ServiceNames(p));
  }

  /** The body of the label loop for one step (exec.go, `extraLabels := map[string]string{} ...`). */
  method ExtraLabels(i: nat, p: Pipeline, stepName: string, includes: seq<string>, excludes: seq<string>)
    returns (m: map<string, string>)
    ensures IsExtraLabels(m, i, p, stepName, includes, excludes)
  {
    LabelKeysDistinct();
    m := map[];
    m := m[LabelStageName := TrimSpace(p.name)];
    m := m[LabelStepName := TrimSpace(stepName)];
    m := m[LabelStepNumber := DecimalString(i)];
    if |includes| > 0 {
      m := m[LabelIncludes := Join(includes, ',')];
    }
    if |excludes| > 0 {
      m := m[LabelExcludes := Join(excludes, ',')];
    }
    ghost var m0 := m;
    assert m0.Keys == {LabelStageName, LabelStepName, LabelStepNumber}
                      + (if |includes| > 0 then {LabelIncludes} else {})
                      + (if |excludes| > 0 then {LabelExcludes} else {});
    assert LabelService !in m0;
    var j := 0;
    while j < |p.services|
      invariant 0 <= j <= |p.services|
      invariant forall q :: 0 <= q < j ==> p.services[q].name != stepName
      invariant m == m0
    {
      if stepName == p.services[j].name {
        m := m[LabelService := "true"];
        break;
      }
      j := j + 1;
    }
    assert stepName in ServiceNames(p) <==> j < |p.services|;
  }

  /** The label loop over all compiled steps: one extra map per step, numbered by position from 0. */
  method StepLabels(p: Pipeline, steps: seq<Step>, includes: seq<string>, excludes: seq<string>)
    returns (extras: seq<map<string, string>>)
    ensures |extras| == |steps|
    ensures forall i :: 0 <= i < |steps| ==> IsExtraLabels(extras[i], i, p, steps[i].name, includes, excludes)
  {
    extras := [];
    var i := 0;
    while i < |steps|
      invariant 0 <= i <= |steps|
      invariant |extras| == i
      invariant forall k :: 0 <= k < i ==> IsExtraLabels(extras[k], k, p, steps[k].name, includes, excludes)
    {
      var m := ExtraLabels(i, p, steps[i].name, includes, excludes);
      extras := extras + [m];
      i := i + 1;
    }
  }
}
