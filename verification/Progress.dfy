// Reported byte counts (crates/gunda-core/src/application/transfer_progress.rs).
module Progress {

  /** Progress counts above `floor`, each above the one before. */
  predicate Rising(reports: seq<nat>, floor: nat) {
    && (forall i :: 0 <= i < |reports| ==> floor < reports[i])
    && (forall i :: 0 < i < |reports| ==> reports[i - 1] < reports[i])
  }

  predicate LastAtMost(reports: seq<nat>, ceiling: nat) {
    reports == [] || reports[|reports| - 1] <= ceiling
  }
}
