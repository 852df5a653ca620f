/**
 * The log streamer of pkg/drone/pipeline_logger.go: one structured log file
 * per pipeline run, and for each step a logger that tags its lines with the
 * step's roster number and name.
 */
module PipelineLogging {
  import opened Sequences
  import opened Roster
  import opened JsonLogging
  import Paths

  /** The log file of a pipeline run: "<pipelineID>.log" in the logs directory. */
  function LogFilePath(logsDir: string, pipelineId: string): (f: string)
    ensures logsDir == "" ==> f == pipelineId + ".log"
    ensures logsDir != "" && '/' !in pipelineId ==> Paths.Dir(f) == logsDir && Paths.Base(f) == pipelineId + ".log"
  {
    var name := pipelineId + ".log";
    if logsDir != "" && '/' !in pipelineId then
      assert '/' !in name;
      Paths.DirOfJoin(logsDir, name);
      Paths.Join(logsDir, name)
    else Paths.Join(logsDir, name)
  }

  /** Position of the first roster entry named `name`, or |roster| when there is none. */
  function FirstNamed(roster: seq<DroneStep>, name: string): (k: nat)
    ensures k <= |roster|
    ensures forall m :: 0 <= m < k ==> roster[m].name != name
    ensures k < |roster| ==> roster[k].name == name
    ensures k == |roster| <==> forall m :: 0 <= m < |roster| ==> roster[m].name != name
    decreases |roster|
  {
    if |roster| == 0 then 0
    else if roster[0].name == name then 0
    else 1 + FirstNamed(roster[1..], name)
  }

  class JsonFileStreamer {
    const sequence: Sequence
    const col: Sequence
    const logFile: string
    const writer: FileWriter

    /** The streamer's two counters are distinct objects; only `sequence` is ever shared. */
    predicate Valid()
    {
      sequence != col
    }

    /** The struct literal of `newStreamer`: two fresh counters at 0. */
    constructor (logFile: string, writer: FileWriter)
      ensures Valid()
      ensures this.logFile == logFile && this.writer == writer
      ensures fresh(sequence) && fresh(col)
      ensures sequence.value == 0 && col.value == 0
    {
      this.logFile := logFile;
      this.writer := writer;
      sequence := new Sequence();
      col := new Sequence();
    }

    /**
     * `Stream`: a logger for the first roster entry named `name` (the scan
     * breaks there), sharing this streamer's file writer and sequence. The
     * source dereferences a missing entry, so the step must be in the roster.
     */
    method Stream(stage: Stage, name: string) returns (l: JsonLogger)
      requires Valid()
      requires exists k :: 0 <= k < |stage.steps| && stage.steps[k].name == name
      ensures var k := FirstNamed(stage.steps, name);
              k < |stage.steps| && l.name == stage.steps[k].name && l.number == stage.steps[k].number
      ensures l.writer == writer && l.sequence == sequence && l.sequence != col
    {
      var i := 0;
      while i < |stage.steps|
        invariant 0 <= i <= |stage.steps|
        invariant forall m :: 0 <= m < i ==> stage.steps[m].name != name
      {
        if stage.steps[i].name == name {
          break;
        }
        i := i + 1;
      }
      var c := stage.steps[i];
      l := new JsonLogger(c.name, c.number, writer, sequence);
    }
  }

  /**
   * `newStreamer`: opens the run's log file; when it cannot be opened there
   * is no streamer and the failure is reported, otherwise a streamer with
   * both counters at 0 writes to that file.
   */
  method NewStreamer(logsDir: string, pipelineId: string, canOpen: bool,
                     rejects: (seq<Record>, Record) -> bool)
    returns (s: JsonFileStreamer?, failed: bool)
    ensures failed == !canOpen
    ensures failed <==> s == null
    ensures s != null ==>
              && s.Valid()
              && s.logFile == LogFilePath(logsDir, pipelineId)
              && s.writer.path == s.logFile && s.writer.records == []
              && s.writer.rejects == rejects
              && s.sequence.value == 0 && s.col.value == 0
  {
    var logFile := LogFilePath(logsDir, pipelineId);
    var fw := new FileWriter(logFile, canOpen, rejects);
    var openFailed := fw.Open();
    if openFailed {
      return null, true;
    }
    s := new JsonFileStreamer(logFile, fw);
    failed := false;
  }
}
