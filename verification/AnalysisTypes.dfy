/** Limits and failures shared by the analyzers and the analysis manager (src/rab/analysis.py). */
module AnalysisTypes {
  /** `AnalysisLimits`; the time limits are left to the clock readings the model takes as inputs. */
  datatype Limits = Limits(maxDepth: nat, maxFiles: nat, maxBytes: nat, maxSingleBytes: nat,
                           maxMembers: nat, maxRatio: nat, maxNested: nat)
  {
    /** `AnalysisLimits.validate`: every limit is positive. */
    predicate Valid() {
      0 < maxDepth && 0 < maxFiles && 0 < maxBytes && 0 < maxSingleBytes && 0 < maxMembers
      && 0 < maxRatio && 0 < maxNested
    }
  }

  datatype Limit = MaxDepth | MaxFiles | MaxBytes | MaxSingleBytes | MaxRatio | MaxNested

  /** The exceptions an analysis can end with. */
  datatype Failure =
    | LimitReached(limit: Limit)
    | MalformedInput
    | PolicyError
    | ToolMissing
    | Timeout
    | Unexpected
}
