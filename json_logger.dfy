/**
 * The per-step log writer of pkg/drone/json_logger.go: every line written
 * to it becomes one structured record {stepNumber, stepName, line} appended
 * to the run's shared log file. The writer does not number lines: the
 * sequence it holds is never advanced by writing.
 */
module JsonLogging {
  import opened Strings
  import opened Sequences

  /** The line terminator "\n". */
  const Newline: byte := 10

  /** One structured log record. */
  datatype Record = Record(stepNumber: int, stepName: string, line: seq<byte>)

  /**
   * The append-only structured log file. Whether the file opens and whether
   * an append goes through is decided by the environment: `canOpen`, and
   * `rejects(records, r)` for appending `r` to a file that holds `records`.
   * A rejected append leaves the file as it was.
   */
  class FileWriter {
    const path: string
    const canOpen: bool
    const rejects: (seq<Record>, Record) -> bool
    var records: seq<Record>

    constructor (path: string, canOpen: bool, rejects: (seq<Record>, Record) -> bool)
      ensures this.path == path && this.canOpen == canOpen && this.rejects == rejects
      ensures records == []
    {
      this.path := path;
      this.canOpen := canOpen;
      this.rejects := rejects;
      records := [];
    }

    /** Opens the file for appending; fails exactly when the environment does not let it open. */
    method Open() returns (failed: bool)
      ensures failed == !canOpen
    {
      failed := !canOpen;
    }

    /** Appends one record, unless the environment rejects it. */
    method Add(r: Record) returns (failed: bool)
      modifies this
      ensures failed == rejects(old(records), r)
      ensures records == if failed then old(records) else old(records) + [r]
    {
      failed := rejects(records, r);
      if !failed {
        records := records + [r];
      }
    }
  }

  /** `split`: drops one trailing newline, then cuts at every newline. */
  function Split(b: seq<byte>): (parts: seq<seq<byte>>)
    ensures |parts| >= 1
    ensures forall p :: p in parts ==> Newline !in p
  {
    SplitOn(TrimSuffix(b, [Newline]), Newline)
  }

  /**
   * The parts put back together with newlines give the input less at most
   * one trailing newline.
   */
  lemma SplitRoundTrip(b: seq<byte>)
    ensures Join(Split(b), Newline) == b || Join(Split(b), Newline) + [Newline] == b
    ensures |b| > 0 && b[|b| - 1] == Newline ==> Join(Split(b), Newline) + [Newline] == b
  {
    JoinSplitOn(TrimSuffix(b, [Newline]), Newline);
    if |b| > 0 && b[|b| - 1] == Newline {
      assert b[|b| - 1..] == [Newline];
    }
  }

  /** A trailing newline does not add a part: `b` and `b` followed by a newline split alike, unless `b` itself ends in one. */
  lemma SplitFinalNewline(b: seq<byte>)
    requires |b| == 0 || b[|b| - 1] != Newline
    ensures Split(b + [Newline]) == Split(b)
  {
    var c := b + [Newline];
    assert c[|c| - 1..] == [Newline] && c[..|c| - 1] == b;
    if |b| > 0 {
      assert b[|b| - 1..] != [Newline];
    }
  }

  /**
   * Newline-free parts, the last of them non-empty (or a single part), are
   * exactly what splitting their newline join gives back.
   */
  lemma SplitJoin(parts: seq<seq<byte>>)
    requires |parts| >= 1
    requires forall k :: 0 <= k < |parts| ==> Newline !in parts[k]
    requires |parts| == 1 || parts[|parts| - 1] != []
    ensures Split(Join(parts, Newline)) == parts
  {
    var s := Join(parts, Newline);
    var last := parts[|parts| - 1];
    if last != [] {
      JoinEndsWithLastPart(parts, Newline);
      assert last[|last| - 1] in last;
      assert s[|s| - 1..] != [Newline];
    } else {
      assert s == [];
    }
    assert TrimSuffix(s, [Newline]) == s;
    SplitOnJoin(parts, Newline);
  }

  /** "a\nb\nc" splits into its three lines a, b, c. */
  lemma SplitLinesExample()
    ensures Split([97, 10, 98, 10, 99]) == [[97], [98], [99]]
  {
    var abc: seq<seq<byte>> := [[97], [98], [99]];
    assert Join(abc[2..], Newline) == [99];
    assert Join(abc[1..], Newline) == [98, 10, 99];
    assert Join(abc, Newline) == [97, 10, 98, 10, 99];
    SplitJoin(abc);
  }

  /** A final newline ends the last line rather than starting an empty one: "a\nb\nc\n" splits like "a\nb\nc". */
  lemma SplitTrailingNewlineExample()
    ensures Split([97, 10, 98, 10, 99, 10]) == [[97], [98], [99]]
  {
    SplitLinesExample();
    var abc: seq<byte> := [97, 10, 98, 10, 99];
    assert abc + [Newline] == [97, 10, 98, 10, 99, 10];
    SplitFinalNewline(abc);
  }

  /** A blank line is a part of its own: "a\n\n" splits into "a" and ""; writing nothing yields one empty part. */
  lemma SplitBlankLineExample()
    ensures Split([97, 10, 10]) == [[97], []]
    ensures Split([]) == [[]]
  {
    var ab: seq<seq<byte>> := [[97], []];
    assert Join(ab, Newline) == [97, 10];
    SplitOnJoin(ab, Newline);
    assert TrimSuffix([97, 10, 10], [Newline]) == [97, 10];
  }

  /** The records for a batch of lines of one step. */
  function LineRecords(number: int, name: string, parts: seq<seq<byte>>): (recs: seq<Record>)
    ensures |recs| == |parts|
    ensures forall k :: 0 <= k < |parts| ==> recs[k] == Record(number, name, parts[k])
  {
    seq(|parts|, k requires 0 <= k < |parts| => Record(number, name, parts[k]))
  }

  /**
   * How many of `batch`, appended one after another to a file holding
   * `recs`, go through before the first rejected append: every one before
   * it is accepted, and the one at it (if any) is rejected.
   */
  function Accepted(rejects: (seq<Record>, Record) -> bool, recs: seq<Record>, batch: seq<Record>): (k: nat)
    ensures k <= |batch|
    ensures forall m :: 0 <= m < k ==> !rejects(recs + batch[..m], batch[m])
    ensures k < |batch| ==> rejects(recs + batch[..k], batch[k])
    decreases |batch|
  {
    if |batch| == 0 || rejects(recs, batch[0]) then
      assert recs + batch[..0] == recs;
      0
    else
      var rest := batch[1..];
      var k := 1 + Accepted(rejects, recs + [batch[0]], rest);
      assert recs + batch[..0] == recs;
      assert forall m :: 0 < m <= |batch| ==> recs + batch[..m] == recs + [batch[0]] + rest[..m - 1] by {
        forall m | 0 < m <= |batch| ensures recs + batch[..m] == recs + [batch[0]] + rest[..m - 1] {
          assert batch[..m] == [batch[0]] + rest[..m - 1];
        }
      }
      assert forall m :: 0 < m < |batch| ==> batch[m] == rest[m - 1];
      k
  }

  /**
   * One more append, at a position no later than the first rejection:
   * either it is that rejection, or the first rejection lies further on.
   */
  lemma AcceptedStep(rejects: (seq<Record>, Record) -> bool, recs: seq<Record>, batch: seq<Record>, i: nat)
    requires i < |batch| && i <= Accepted(rejects, recs, batch)
    ensures rejects(recs + batch[..i], batch[i]) ==> Accepted(rejects, recs, batch) == i
    ensures !rejects(recs + batch[..i], batch[i]) ==> i < Accepted(rejects, recs, batch)
  {
  }

  /** The step logger handed out by the streamer. */
  class JsonLogger {
    const name: string
    const number: int
    const writer: FileWriter
    const sequence: Sequence

    constructor (name: string, number: int, writer: FileWriter, sequence: Sequence)
      ensures this.name == name && this.number == number
      ensures this.writer == writer && this.sequence == sequence
    {
      this.name := name;
      this.number := number;
      this.writer := writer;
      this.sequence := sequence;
    }

    /**
     * `Write`: one record per part of `Split(b)`, in order, tagged with this
     * logger's number and name, until the first rejected append; the rest
     * are dropped and the failure is reported. The byte count is |b| either
     * way, and the sequence is left alone.
     */
    method Write(b: seq<byte>) returns (n: int, failed: bool)
      modifies writer
      ensures n == |b|
      ensures var batch := LineRecords(number, name, Split(b));
              var k := Accepted(writer.rejects, old(writer.records), batch);
              && writer.records == old(writer.records) + batch[..k]
              && failed == (k < |batch|)
      ensures sequence.value == old(sequence.value)
    {
      var parts := Split(b);
      failed := AddLines(parts);
      n := |b|;
    }

    /** The loop of `Write` over the lines: appends their records in order until the first rejection. */
    method AddLines(parts: seq<seq<byte>>) returns (failed: bool)
      modifies writer
      ensures var batch := LineRecords(number, name, parts);
              var k := Accepted(writer.rejects, old(writer.records), batch);
              && writer.records == old(writer.records) + batch[..k]
              && failed == (k < |batch|)
    {
      ghost var before := writer.records;
      ghost var batch := LineRecords(number, name, parts);
      ghost var k := Accepted(writer.rejects, before, batch);
      var i := 0;
      while i < |parts|
        invariant 0 <= i <= |parts|
        invariant i <= k
        invariant writer.records == before + batch[..i]
      {
        assert batch[i] == Record(number, name, parts[i]);
        AcceptedStep(writer.rejects, before, batch, i);
        var bad := writer.Add(Record(number, name, parts[i]));
        if bad {
          return true;
        }
        assert batch[..i + 1] == batch[..i] + [batch[i]];
        i := i + 1;
      }
      return false;
    }

    /** `Close`: always succeeds and changes nothing. */
    method Close() returns (failed: bool)
      ensures !failed
    {
      failed := false;
    }
  }
}
