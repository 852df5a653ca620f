# drone-provenance core, modelled in Dafny

This project models the core of drone-provenance. The tool runs a Drone
pipeline on the local Docker host. It can skip steps by name: an include
list, an exclude list and a resume-at step, with the implicit "clone" step
always kept. It labels every step container. It builds the stage's roster of
pending steps. The package also provides a `pipeline.Streamer`
(pkg/drone/pipeline_logger.go) that writes each line a step prints as a
structured record, tagged with the step's roster number and name, to a
per-run log file; the `exec` command itself hands the runtime the console
streamer instead (pkg/drone/exec.go:385-391), so nothing shown calls it.
At the end of a successful run it assembles an in-toto Statement (v0.1) whose
predicate is a SLSA Provenance (v0.2), with one material per compiled step.

Modules:

- `Steps`: the compiled step objects and the parsed pipeline.
- `Selection`: the include, exclude and resume-at passes.
- `Roster`: the stage's step roster.
- `Labels`: the extra step labels.
- `Substitution`: the `subf` variable callback.
- `Provenance`: the statement, its materials and where it is written.
- `Sequences`: the `sequence` counter.
- `JsonLogging`: the per-step log writer and its line splitting.
- `PipelineLogging`: the per-run streamer.
- `Strings`, `Paths` and `Wrappers`: the Go library routines and the option type these rely on.

Compiled steps are class objects held in a `seq<Step>`. The core aliases them
and reassigns their run policy in place. Only the run policy is a `var`; the
other fields are `const`.

The selection contracts do not assume the step objects are distinct.

The log file is a `FileWriter` object holding the records appended so far. Two
inputs from the environment decide what happens to it:

- `canOpen` says whether the file opens.
- `rejects` says whether an append fails.

Three things the Go code does that a reader might not expect, and that the
model keeps:

- `Write` never calls `seq.next()`, so records carry only the step number,
  the step name and the line. `JsonLogging.JsonLogger.Write` states that the
  sequence is left unchanged.
- The resume-at pass only re-applies the exclude list to the steps before the
  named step, after the exclude pass has already applied it.
  `Selection.Select` proves that it never changes a final policy.
- The code tries to create the statement file under the pipeline file's own
  path, as if that file were a directory. The pipeline file has already been
  read as a regular file (pkg/drone/exec.go:153), so the create always fails,
  and the error is only logged: the statement is never written (see Findings).

## Model

| member | source | states |
|---|---|---|
| Selection.IncludeRule | pkg/drone/exec.go:286-301 | with a non-empty include list, a step other than "clone" that is not listed becomes RunNever; every other step keeps its policy (both directions) |
| Selection.ExcludeRule | pkg/drone/exec.go:302-316 | a step other than "clone" that is on the exclude list becomes RunNever; every other step keeps its policy (both directions) |
| Selection.ResumeRule | pkg/drone/exec.go:317-333 | a step scanned before the resume point gets the exclude rule again; a step at or after it is untouched |
| Selection.Selected | pkg/drone/exec.go:286-333 | final policy after selection: RunNever or unchanged; RunNever stays RunNever; "clone" is never touched; excluded steps and, with a non-empty include list, unlisted steps are skipped; all others keep their policy |
| Selection.ResumeScope | pkg/drone/exec.go:318-322 | the resume scan stops at the first step named `resumeAt`, or at the end when no step has that name; an empty `resumeAt` disables the pass |
| Selection.ResumeAtRedundant | pkg/drone/exec.go:317-333 | re-applying the exclude rule to a policy that selection already produced changes nothing |
| Selection.IncludePass | pkg/drone/exec.go:286-301 | every step object's new policy is the include rule applied to its old policy |
| Selection.ExcludePass | pkg/drone/exec.go:302-316 | every step object's new policy is the exclude rule applied to its old policy |
| Selection.ResumeAtPass | pkg/drone/exec.go:317-333 | every step object occurring before the first step named `resumeAt` gets the exclude rule; all other steps keep their policy |
| Selection.Select | pkg/drone/exec.go:286-333 | after the three passes, each step's policy is `Selected` of its name and its policy before them, whatever `resumeAt` is |
| Strings.Contains | pkg/drone/exec.go:294-298 | the inline membership scan finds `x` exactly when `x` is in the list |
| Strings.IndexOf | pkg/drone/exec.go:319-322 | first position holding `x`, no earlier one does, and it is the length exactly when `x` is absent |
| Roster.RunnableIndices | pkg/drone/exec.go:335-338 | the positions of exactly the steps that are not RunNever, in increasing order, no more than there are steps |
| Roster.Entry | pkg/drone/exec.go:340-346 | a new entry carries the stage id, the given number and the step's name, is Pending, and ignores errors exactly when the step's error policy is ignore |
| Roster.RosterEntries | pkg/drone/exec.go:335-346 | at most one entry per step; every entry belongs to the stage and is Pending, and the k-th is numbered start + k + 1 |
| Roster.RosterEntriesSnoc | pkg/drone/exec.go:335-346 | one more step adds nothing when it is RunNever, and otherwise its entry numbered after the entries already there |
| Roster.RosterEntriesRunnable | pkg/drone/exec.go:335-346 | the entries are exactly those of the steps that are not RunNever, in step order: the k-th is the entry of the k-th such step, numbered start + k + 1 |
| Roster.AppendRoster | pkg/drone/exec.go:334-347 | the roster gains one pending entry per runnable step, in step order, numbered from the old length plus one, with the error-ignore flag from the step; existing entries unchanged |
| Steps.Snapshot | pkg/drone/exec.go:438-440 | the steps' current fields, position by position |
| Steps.Names | pkg/drone/exec.go:319-320 | the steps' names, position by position |
| Labels.LabelKeysDistinct | pkg/drone/exec.go:44-60 | the six label keys are pairwise distinct, so no extra label overwrites another |
| Labels.ServiceNames | pkg/drone/exec.go:274-275 | the pipeline's service names, in order |
| Labels.ExtraLabels | pkg/drone/exec.go:256-280 | the extra map for the step at position i has exactly these keys: stage name, step name and step number always; includes and excludes when their lists are non-empty; the service flag when the step is named like a service. Values: the trimmed names, the position in decimal, the comma-joined lists, "true" |
| Labels.IsExtraLabels | pkg/drone/exec.go:256-280 | the description of one step's extra map that `Labels.ExtraLabels` meets: which keys are present and with which values |
| Labels.ExtraLabelsCount | pkg/drone/exec.go:256-280 | no extra label overwrites another: the map holds three labels, plus one per non-empty selection list, plus one for a step named like a service |
| Labels.ExtraLabelsUnique | pkg/drone/exec.go:256-280 | that description of the extra map determines it uniquely |
| Labels.StepLabels | pkg/drone/exec.go:256-284 | one extra map per compiled step, numbered by 0-based position across all compiled steps |
| Strings.TrimSpace | pkg/drone/exec.go:259-260 | the trimmed name is never longer than the name (`Strings.TrimSpaceSpec` says exactly what is cut) |
| Strings.TrimSpaceSpec | pkg/drone/exec.go:259-260 | the trimmed name is an infix of the name; everything cut off on either side is white space and the result neither starts nor ends with white space |
| Strings.TrimLeftSpec | pkg/drone/exec.go:259-260 | trimming the front leaves a suffix; what was cut is white space and the rest does not start with white space |
| Strings.TrimRightSpec | pkg/drone/exec.go:259-260 | trimming the back leaves a prefix; what was cut is white space and the rest does not end with white space |
| Strings.Join | pkg/drone/exec.go:265-272 | no elements join to ""; the first element comes first, followed by the comma when more follow |
| Strings.TrimSuffix | pkg/drone/json_logger.go:40 | the input less the suffix exactly when the input ends with it; otherwise the input unchanged |
| Strings.SplitOn | pkg/drone/json_logger.go:41 | at least one piece, and no piece contains the separator |
| Strings.JoinSplitOn | pkg/drone/json_logger.go:41 | joining the pieces of a split with the separator gives the input back |
| Strings.SplitOnJoin | pkg/drone/json_logger.go:41 | splitting a join of separator-free parts gives the parts back |
| Strings.DecimalRoundTrip | pkg/drone/exec.go:261 | the decimal rendering of an integer reads back as that integer |
| Strings.DecimalInjective | pkg/drone/exec.go:433 | distinct build ids give distinct invocation ids |
| Strings.Digits | pkg/drone/exec.go:261 | decimal digits only, at least one, no leading zero |
| Strings.DecimalString | pkg/drone/exec.go:433 | at least one character; starts with '-' exactly for negative numbers |
| Substitution.Lookup | pkg/drone/exec.go:171 | a missing variable reads as "" |
| Substitution.Subf | pkg/drone/exec.go:170-176 | a single-line value is returned verbatim; a value containing a newline is returned quoted |
| Substitution.SubfSingleLine | pkg/drone/exec.go:167-176 | when quoting escapes newlines, no substituted value contains a newline |
| Provenance.DigestOf | pkg/drone/exec.go:468 | a failed digest lookup yields "", a successful one its digest |
| Provenance.MaterialFor | pkg/drone/exec.go:469-474 | a material's digest set holds exactly the sha256 entry, with the digest; its URI begins with "pkg:" |
| Provenance.MaterialRoundTrip | pkg/drone/exec.go:469-474 | a material's URI "pkg:image@digest" gives back the image and the digest, for a digest without '@' |
| Provenance.Materials | pkg/drone/exec.go:465-477 | one material per compiled step, skipped steps included, in step order, each for that step's image and its looked-up digest |
| Provenance.GenerateStatement | pkg/drone/exec.go:418-443 | in-toto v0.1 and SLSA v0.2 type tags, no subjects, build type "kind/type", the fixed builder id, the build id in decimal, the build parameters, the steps under "steps", the materials |
| Provenance.StatementMaterialsMatchSteps | pkg/drone/exec.go:438-441 | when no looked-up digest contains '@', the URI of the k-th material of a statement reads back as the k-th configured step's image and the digest in its sha256 entry |
| Provenance.ProvenancePathAsWritten | pkg/drone/exec.go:445-447 | as written, the statement's directory is the pipeline file's path put back together from its directory and base name, and the statement's base name is "-provenance.json" alone |
| Provenance.ProvenancePathOfBareFile | pkg/drone/exec.go:447 | as written, the pipeline file ".drone.yml" gives a statement path whose directory is ".drone.yml" itself |
| Provenance.ProvenancePathBeneathSource | pkg/drone/exec.go:445-447 | as written, a pipeline file `name` in directory `dir` gives "<dir>/<name>/-provenance.json" |
| Provenance.ProvenancePath | pkg/drone/exec.go:445-447 | the intended location lies in the pipeline file's directory and is named after the file's base name followed by "-provenance.json"; for the root path "/" the name is the suffix alone |
| Paths.Dir | pkg/drone/exec.go:447 | never empty: "." for a bare name; "/" when the path's only slash leads it, and "/" only for a path that starts with a slash and has none after position 1; otherwise the proper prefix of the path that its last slash follows |
| Paths.Base | pkg/drone/exec.go:447 | "." for the empty path, "/" for the root, otherwise the longest slash-free final part of the path: a slash stands right before it unless it is the whole path; a bare name is its own base |
| Paths.Join | pkg/drone/pipeline_logger.go:24 | an empty name leaves the directory; a non-empty name joined to "" or "." is the name, to "/" is "/" and the name, to any other directory is that directory, a slash and the name |
| Paths.DirOfJoin | pkg/drone/exec.go:447 | joining a directory with a slash-free name gives a path whose directory is that directory and whose base is that name |
| Sequences.Sequence.constructor | pkg/drone/sequence.go:6-9 | a new sequence starts at 0 |
| Sequences.Sequence.Next | pkg/drone/sequence.go:11-18 | the value increases by one and the new value is returned |
| Sequences.Sequence.Curr | pkg/drone/sequence.go:20-26 | returns the value, changing nothing |
| Sequences.NextCalls | pkg/drone/sequence.go:11-26 | on a new sequence, n calls of `next` return 1..n strictly increasing, and `curr` then reports n |
| JsonLogging.Split | pkg/drone/json_logger.go:38-42 | at least one line, and no line contains a newline |
| JsonLogging.SplitRoundTrip | pkg/drone/json_logger.go:38-42 | joining the lines with newlines gives the input less at most one trailing newline, less exactly one when the input ends in one |
| JsonLogging.SplitJoin | pkg/drone/json_logger.go:38-42 | newline-free lines whose last line is non-empty (or a single line) are exactly what splitting their join gives back |
| JsonLogging.SplitFinalNewline | pkg/drone/json_logger.go:38-42 | a trailing newline adds no line: an input not ending in a newline splits the same with one appended |
| JsonLogging.SplitLinesExample | pkg/drone/json_logger.go:38-42 | "a\nb\nc" gives a, b, c |
| JsonLogging.SplitTrailingNewlineExample | pkg/drone/json_logger.go:38-42 | "a\nb\nc\n" gives a, b, c too |
| JsonLogging.SplitBlankLineExample | pkg/drone/json_logger.go:38-42 | "a\n\n" gives "a" and ""; the empty input gives one empty line |
| JsonLogging.LineRecords | pkg/drone/json_logger.go:19-25 | one record per line, in order, tagged with the step number and name |
| JsonLogging.Accepted | pkg/drone/json_logger.go:19-27 | the number of appends that succeed before the first failing one: all before it succeed, and the one at it, if any, fails |
| JsonLogging.AcceptedStep | pkg/drone/json_logger.go:19-27 | an append at a position no later than the first failure either is that failure or comes before it |
| JsonLogging.FileWriter.constructor | pkg/drone/pipeline_logger.go:25 | a writer for the given path, holding no records |
| JsonLogging.FileWriter.Open | pkg/drone/pipeline_logger.go:26 | opening fails exactly when the environment does not allow it |
| JsonLogging.FileWriter.Add | pkg/drone/json_logger.go:20-25 | a failed append leaves the file as it was; a successful one appends the record |
| JsonLogging.JsonLogger.constructor | pkg/drone/pipeline_logger.go:46-51 | a logger with the given name, number, writer and sequence |
| JsonLogging.JsonLogger.Write | pkg/drone/json_logger.go:17-30 | returns the input length. The file gains the step's records for the split lines, in order, up to the first failing append. An error is reported exactly when some line was dropped. The sequence is unchanged |
| JsonLogging.JsonLogger.AddLines | pkg/drone/json_logger.go:19-28 | the file gains the records of the lines, in order, up to the first failing append; failure is reported exactly when some line was dropped |
| JsonLogging.JsonLogger.Close | pkg/drone/json_logger.go:32-36 | closing always succeeds |
| PipelineLogging.LogFilePath | pkg/drone/pipeline_logger.go:24 | with no logs directory the log file is "<pipelineID>.log" itself; for a non-empty logs directory and a pipeline id without '/', the log file lies in the logs directory and is named "<pipelineID>.log" |
| PipelineLogging.FirstNamed | pkg/drone/pipeline_logger.go:40-45 | the first roster entry with the given name, or the roster length when none has it |
| PipelineLogging.JsonFileStreamer.constructor | pkg/drone/pipeline_logger.go:29-34 | a streamer for the given file and writer, with two fresh, distinct counters at 0 |
| PipelineLogging.JsonFileStreamer.Stream | pkg/drone/pipeline_logger.go:37-52 | a logger named and numbered after the first roster entry with that name, sharing the streamer's writer and line sequence, not its column sequence |
| PipelineLogging.NewStreamer | pkg/drone/pipeline_logger.go:23-35 | fails, with no streamer, exactly when the log file "<pipelineID>.log" in the logs directory cannot be opened; otherwise returns a streamer on that file, holding no records, with both counters at 0 |

## Left out

- The command line, reading and linting the pipeline file, template evaluation, compiling, the runtime, the timeout, signals, the exit codes and the `dump` helper in pkg/drone/exec.go: these are plumbing around the core or code in libraries.
- labels.Combine: merging the extra labels into a step's own labels is library code. `Labels.StepLabels` returns the extra maps rather than merging them.
- The registry digest lookup (crane.Digest) is the `lookup` parameter. Its error is dropped exactly as the source drops it.
- The logs directory `droneCILogsDir` (pkg/drone/exec.go:66) is the `logsDir` parameter of `NewStreamer`. The code shown never assigns it, so there it is "" and the log file lands in the working directory, the case `LogFilePath` states first.
- Go's "%q" quoting is the `quote` parameter of `Substitution.Subf`.
- Encoding the statement as JSON, creating its file and the logged errors: file I/O. Only the statement value and the file's path are modelled.
- `buildConfig` in pkg/drone/exec.go:459-463 is never called. It returns an empty map.
- The mutex in pkg/drone/sequence.go: calls are modelled one at a time.
- JsonLogging.JsonLogger.Write: all loggers of one streamer share one `FileWriter`, and the runtime may run steps in parallel (`commy.Procs`, pkg/drone/exec.go:390). Write calls from different steps' loggers are modelled one at a time, so how their records interleave is not modelled; the "in order" promise is about one call.
- Sequences.Sequence.Next: Go's `int` is 64-bit. The wrap-around after 2^63 - 1 calls is not modelled.
- JSON encoding of log records and the jsons library's I/O. The `FileWriter` keeps the appended records as values. A failed append is modelled as leaving the file unchanged, so a partially written record is not modelled. No closed state is modelled, because the source never closes the writer.
- Log and trace statements (log.Infoln in `Close`, log.Tracef in the label loop), since they have no effect on the state.
- Paths: Dir, Base and Join are those of Go's path package on clean paths only: no "." or ".." segments after the first and no repeated or trailing slashes, and for Join a name without "." or ".." segments. path.Clean is not modelled, so on other paths (one with a trailing slash, say) the results differ from Go's.
- Strings are sequences of characters, and TrimSpace trims the white space of unicode.IsSpace. Invalid UTF-8 in names is not modelled.
- Step and stage fields that the core does not read or write (environment, volumes, and the like) are not part of the model.
- pkg/utils/utils.go, pkg/utils/containers.go and main.go are not part of this model.

## Findings

| source | as written | input that shows it | evidently intended | confidence | as-written member | corrected member |
|---|---|---|---|---|---|---|
| pkg/drone/exec.go:447 | `path.Join(path.Dir(pf), path.Base(pf), "-provenance.json")` joins the suffix as a separate path element, so the statement is placed inside a directory named after the pipeline file | pipeline file "ci/.drone.yml" gives "ci/.drone.yml/-provenance.json", which cannot be created because "ci/.drone.yml" is a file | the base name followed by the suffix, in the pipeline file's directory: "ci/.drone.yml-provenance.json" | not executed; high | Provenance.ProvenancePathAsWritten (Provenance.ProvenancePathBeneathSource, Provenance.ProvenancePathOfBareFile) | Provenance.ProvenancePath |
