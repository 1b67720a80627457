/** One execution of a control, as it is kept (hotelcontrols/runner/run.py,
    hotelcontrols/kernel/verdict.py). Instants are integers. */
module Runs {
  import opened Basics
  import opened Values

  datatype Line = Line(field: string, value: Value, source: Option<string>)

  datatype Verdict = Verdict(outcome: Said, reason: string, evidence: seq<Line>, control: Option<string>,
                             record: Option<string>)

  /** A run id: one it was given, or the digest of what identifies the run. Digests of different
      things are different. */
  datatype RunId =
    | Given(text: string)
    | Digest(control: string, tenant: string, provider: string, evidenceLabel: string, asOf: string, createdAt: int)

  datatype Run = Run(
    control: string,
    controlName: string,
    naturalLanguage: string,
    tenant: string,
    provider: string,
    evidenceLabel: string,
    synthetic: bool,
    asOf: string,
    createdAt: int,
    calls: int,
    verdicts: seq<Verdict>,
    blocked: Option<string>,
    id: Option<RunId>,
    observedAt: Option<int>,
    maximumAge: string,
    version: Option<int>,
    digest: Option<string>)

  /** Whether the run concluded anything. */
  predicate Concluded(run: Run)
  {
    exists i :: 0 <= i < |run.verdicts| && (run.verdicts[i].outcome.PASS? || run.verdicts[i].outcome.FAIL?)
  }
}
