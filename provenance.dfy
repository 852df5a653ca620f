/**
 * Provenance assembly in pkg/drone/exec.go: an in-toto Statement (v0.1)
 * whose predicate is a SLSA Provenance (v0.2), with one material per
 * compiled step. The registry lookup of an image's digest is a parameter,
 * `lookup`, that yields None when the lookup fails.
 */
module Provenance {
  import opened Wrappers
  import opened Strings
  import opened Steps
  import Paths

  const StatementInTotoV01: string := "https://in-toto.io/Statement/v0.1"
  const PredicateSlsaProvenance: string := "https://slsa.dev/provenance/v0.2"
  const BuilderId: string := "https://harness.drone.io/Attestations/DockerRunner"
  const Sha256: string := "sha256"
  const ProvenanceSuffix: string := "-provenance.json"

  datatype Material = Material(uri: string, digest: map<string, string>)
  datatype Subject = Subject(name: string, digest: map<string, string>)
  datatype Builder = Builder(id: string)
  datatype Metadata = Metadata(buildInvocationId: string)
  datatype Invocation = Invocation(parameters: map<string, string>)
  datatype Predicate = Predicate(buildType: string, builder: Builder, metadata: Metadata,
                                 invocation: Invocation, buildConfig: map<string, seq<StepSpec>>,
                                 materials: seq<Material>)
  datatype Statement = Statement(statementType: string, predicateType: string, subject: seq<Subject>,
                                 provenance: Predicate)

  /** The build the statement describes: its numeric identifier and its parameters. */
  datatype Build = Build(id: int, params: map<string, string>)

  /** The digest recorded for an image: the looked-up one, or "" when the lookup failed. */
  function DigestOf(lookup: string -> Option<string>, image: string): (dig: string)
    ensures lookup(image).None? ==> dig == ""
    ensures lookup(image).Some? ==> dig == lookup(image).value
  {
    lookup(image).GetOr("")
  }

  /** The material for one image and its digest: the digest set holds exactly the sha256 entry. */
  function MaterialFor(image: string, dig: string): (m: Material)
    ensures m.digest.Keys == {Sha256} && m.digest[Sha256] == dig
    ensures |m.uri| > 4 && m.uri[..4] == "pkg:"
  {
    Material("pkg:" + image + "@" + dig, map[Sha256 := dig])
  }

  /** Reads an image and a digest back out of a material URI; the digest follows the last '@'. */
  function ParseMaterialUri(uri: string): Option<(string, string)>
  {
    if |uri| >= 4 && uri[..4] == "pkg:" then
      var rest := uri[4..];
      var i := LastIndexOf(rest, '@');
      if i < 0 then None else Some((rest[..i], rest[i + 1..]))
    else None
  }

  /** A material names its image and its digest recoverably (digests never contain '@'). */
  lemma MaterialRoundTrip(image: string, dig: string)
    requires '@' !in dig
    ensures ParseMaterialUri(MaterialFor(image, dig).uri) == Some((image, dig))
  {
    var uri := MaterialFor(image, dig).uri;
    var rest := image + "@" + dig;
    assert uri[..4] == "pkg:" && uri[4..] == rest;
    assert rest[|image|] == '@';
    assert forall k :: |image| < k < |rest| ==> rest[k] == dig[k - |image| - 1];
    assert LastIndexOf(rest, '@') == |image|;
    assert rest[..|image|] == image && rest[|image| + 1..] == dig;
  }

  /**
   * `materials`: one material per compiled step, skipped steps included, in
   * step order; a failed lookup still yields a material, with digest "".
   */
  method Materials(steps: seq<Step>, lookup: string -> Option<string>) returns (mat: seq<Material>)
    ensures |mat| == |steps|
    ensures forall k :: 0 <= k < |steps| ==> mat[k] == MaterialFor(steps[k].image, DigestOf(lookup, steps[k].image))
  {
    mat := [];
    var i := 0;
    while i < |steps|
      invariant 0 <= i <= |steps|
      invariant |mat| == i
      invariant forall k :: 0 <= k < i ==> mat[k] == MaterialFor(steps[k].image, DigestOf(lookup, steps[k].image))
    {
      var s := steps[i];
      var dig := lookup(s.image).GetOr("");
      mat := mat + [Material("pkg:" + s.image + "@" + dig, map[Sha256 := dig])];
      i := i + 1;
    }
  }

  /**
   * The statement of `generateStatement`: fixed type tags, no subjects, the
   * pipeline's kind and type as build type, the fixed builder, the build
   * number in decimal, the build parameters verbatim, every compiled step
   * (as it stands after selection) under "steps", and the materials.
   */
  method GenerateStatement(p: Pipeline, build: Build, steps: seq<Step>, lookup: string -> Option<string>)
    returns (att: Statement)
    ensures att.statementType == StatementInTotoV01
    ensures att.predicateType == PredicateSlsaProvenance
    ensures att.subject == []
    ensures att.provenance.buildType == p.kind + "/" + p.pipelineType
    ensures att.provenance.builder.id == BuilderId
    ensures att.provenance.metadata.buildInvocationId == DecimalString(build.id)
    ensures att.provenance.invocation.parameters == build.params
    ensures att.provenance.buildConfig == map["steps" := Snapshot(steps)]
    ensures |att.provenance.materials| == |steps|
    ensures forall k :: 0 <= k < |steps| ==>
              att.provenance.materials[k] == MaterialFor(steps[k].image, DigestOf(lookup, steps[k].image))
  {
    var mat := Materials(steps, lookup);
    att := Statement(
      StatementInTotoV01,
      PredicateSlsaProvenance,
      [],
      Predicate(
        p.kind + "/" + p.pipelineType,
        Builder(BuilderId),
        Metadata(DecimalString(build.id)),
        Invocation(build.params),
        map["steps" := Snapshot(steps)],
        mat));
  }

  /**
   * The statement's materials line up with its build configuration: when no
   * looked-up digest contains '@', the k-th material's URI reads back as the
   * k-th configured step's image and the digest its sha256 entry records.
   */
  lemma StatementMaterialsMatchSteps(att: Statement, steps: seq<StepSpec>, lookup: string -> Option<string>)
    requires att.provenance.buildConfig == map["steps" := steps]
    requires |att.provenance.materials| == |steps|
    requires forall k :: 0 <= k < |steps| ==>
               att.provenance.materials[k] == MaterialFor(steps[k].image, DigestOf(lookup, steps[k].image))
    requires forall k :: 0 <= k < |steps| ==> '@' !in DigestOf(lookup, steps[k].image)
    ensures forall k :: 0 <= k < |att.provenance.buildConfig["steps"]| ==>
              var m := att.provenance.materials[k];
              && Sha256 in m.digest
              && ParseMaterialUri(m.uri) == Some((att.provenance.buildConfig["steps"][k].image, m.digest[Sha256]))
  {
    forall k | 0 <= k < |steps|
      ensures ParseMaterialUri(att.provenance.materials[k].uri)
              == Some((steps[k].image, att.provenance.materials[k].digest[Sha256]))
    {
      MaterialRoundTrip(steps[k].image, DigestOf(lookup, steps[k].image));
    }
  }

  /**
   * Where the source writes the statement:
   * path.Join(path.Dir(pf), path.Base(pf), "-provenance.json"). The suffix is
   * a path element of its own, so the statement's directory is the source
   * path put back together: the source file itself is taken for a directory.
   */
  function ProvenancePathAsWritten(source: string): (p: string)
    ensures Paths.Dir(p) == Paths.Join(Paths.Dir(source), Paths.Base(source))
    ensures Paths.Base(p) == ProvenanceSuffix
  {
    assert '/' !in ProvenanceSuffix;
    var d := Paths.Join(Paths.Dir(source), Paths.Base(source));
    Paths.DirOfJoin(d, ProvenanceSuffix);
    Paths.Join(d, ProvenanceSuffix)
  }

  /** For the conventional pipeline file, the statement's directory is the pipeline file itself. */
  lemma ProvenancePathOfBareFile()
    ensures Paths.Dir(ProvenancePathAsWritten(".drone.yml")) == ".drone.yml"
  {
    var s := ".drone.yml";
    assert '/' !in s;
    Paths.DirOfJoin(".", s);
  }

  /**
   * As written, a pipeline file `name` in directory `dir` gets the statement
   * path "<dir>/<name>/-provenance.json": a file beneath the pipeline file.
   */
  lemma ProvenancePathBeneathSource(dir: string, name: string)
    requires dir != "" && '/' !in name && name != ""
    ensures ProvenancePathAsWritten(Paths.Join(dir, name)) == Paths.Join(Paths.Join(dir, name), ProvenanceSuffix)
  {
    Paths.DirOfJoin(dir, name);
  }

  /** The root path "/" is its own directory and base, so its intended statement is "//-provenance.json": "/" and the suffix. */
  lemma RootProvenancePath()
    ensures Paths.Dir(Paths.Join("/", "/" + ProvenanceSuffix)) == "/"
    ensures Paths.Base(Paths.Join("/", "/" + ProvenanceSuffix)) == ProvenanceSuffix
  {
    var p := Paths.Join("/", "/" + ProvenanceSuffix);
    assert p == "/" + "/" + ProvenanceSuffix;
    assert forall k :: 1 < k < |p| ==> p[k] == ProvenanceSuffix[k - 2];
    Paths.LastSlashAt(p, 1);
    assert p[2..] == ProvenanceSuffix;
  }

  /**
   * The evidently intended location: beside the source, in the source's own
   * directory, its base name followed by "-provenance.json". (For the root
   * path "/", whose base is "/" itself, the name is only the suffix.)
   */
  function ProvenancePath(source: string): (p: string)
    ensures Paths.Dir(p) == Paths.Dir(source)
    ensures source != "/" ==> Paths.Base(p) == Paths.Base(source) + ProvenanceSuffix
    ensures source == "/" ==> Paths.Base(p) == ProvenanceSuffix
  {
    var d := Paths.Dir(source);
    var b := Paths.Base(source);
    if source == "/" then
      RootProvenancePath();
      Paths.Join(d, b + ProvenanceSuffix)
    else
      var name := b + ProvenanceSuffix;
      assert '/' !in name by {
        assert source == "" || '/' !in b;
        assert '/' !in ProvenanceSuffix;
      }
      Paths.DirOfJoin(d, name);
      Paths.Join(d, name)
  }
}
