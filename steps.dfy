/**
 * The engine data that pkg/drone/exec.go reads: the compiled steps (the
 * compiler allocates them; the core only ever reassigns their run policy)
 * and the parsed pipeline resource.
 */
module Steps {

  /** The run policies of the engine's runtime. */
  datatype RunPolicy = RunOnSuccess | RunOnFailure | RunAlways | RunNever

  /** The error policies of the engine's runtime. */
  datatype ErrPolicy = ErrFail | ErrFailFast | ErrIgnore

  /** One compiled step, shared by reference between the passes that read it. */
  class Step {
    const name: string
    const image: string
    var runPolicy: RunPolicy
    const errPolicy: ErrPolicy

    constructor (name: string, image: string, runPolicy: RunPolicy, errPolicy: ErrPolicy)
      ensures this.name == name && this.image == image
      ensures this.runPolicy == runPolicy && this.errPolicy == errPolicy
    {
      this.name := name;
      this.image := image;
      this.runPolicy := runPolicy;
      this.errPolicy := errPolicy;
    }
  }

  /** The value of one step at one moment, as it would be serialized. */
  datatype StepSpec = StepSpec(name: string, image: string, runPolicy: RunPolicy, errPolicy: ErrPolicy)

  /** The current values of a step list, in order. */
  function Snapshot(steps: seq<Step>): (s: seq<StepSpec>)
    reads steps
    ensures |s| == |steps|
    ensures forall k :: 0 <= k < |steps| ==>
              s[k] == StepSpec(steps[k].name, steps[k].image, steps[k].runPolicy, steps[k].errPolicy)
  {
    seq(|steps|, k requires 0 <= k < |steps| reads steps =>
      StepSpec(steps[k].name, steps[k].image, steps[k].runPolicy, steps[k].errPolicy))
  }

  /** The step names, in order. */
  function Names(steps: seq<Step>): (names: seq<string>)
    ensures |names| == |steps|
    ensures forall k :: 0 <= k < |steps| ==> names[k] == steps[k].name
  {
    seq(|steps|, k requires 0 <= k < |steps| => steps[k].name)
  }

  /** A service declared by the pipeline; it matches the step of the same name. */
  datatype Service = Service(name: string)

  /** The parsed pipeline resource, as far as the core reads it. */
  datatype Pipeline = Pipeline(kind: string, pipelineType: string, name: string, services: seq<Service>)
}
