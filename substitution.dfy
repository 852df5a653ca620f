/**
 * The substitution callback `subf` of pkg/drone/exec.go, handed to the
 * template evaluator: a variable's value from the environment, quoted when
 * it spans several lines. Go's "%q" quoting is a library routine and is a
 * parameter here, `quote`.
 */
module Substitution {

  /** The environment's value for `k`; a missing variable reads as "" (Go's zero value). */
  function Lookup(envs: map<string, string>, k: string): (v: string)
    ensures k !in envs ==> v == ""
    ensures k in envs ==> v == envs[k]
  {
    if k in envs then envs[k] else ""
  }

  /**
   * `subf`: a single-line value is substituted verbatim; a value holding a
   * newline is substituted only in quoted form.
   */
  function Subf(envs: map<string, string>, quote: string -> string, k: string): (r: string)
    ensures '\n' !in Lookup(envs, k) ==> r == Lookup(envs, k)
    ensures '\n' in Lookup(envs, k) ==> r == quote(Lookup(envs, k))
  {
    var v := Lookup(envs, k);
    if '\n' in v then quote(v) else v
  }

  /**
   * When the quoting escapes newlines, as "%q" does, no substituted value
   * carries a raw newline into the configuration.
   */
  lemma SubfSingleLine(envs: map<string, string>, quote: string -> string, k: string)
    requires forall v :: '\n' !in quote(v)
    ensures '\n' !in Subf(envs, quote, k)
  {
  }
}
