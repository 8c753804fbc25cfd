/**
  The run-state flags a command's `executePermission()` combines. Their
  numeric values are defined outside the modelled files; the model takes them
  to be two distinct single bits.
*/
module Permission {

  type Mask = bv32

  const ExecuteIfIdle: Mask := 1
  const ExecuteIfSimulating: Mask := 2

  /** A mask admits a run-state flag when it has that flag's bit. */
  predicate Admits(mask: Mask, flag: Mask) {
    mask & flag != 0
  }

  lemma FlagsAreDistinctSingleBits()
    ensures ExecuteIfIdle != ExecuteIfSimulating
    ensures ExecuteIfIdle & ExecuteIfSimulating == 0
    ensures ExecuteIfIdle & (ExecuteIfIdle - 1) == 0 && ExecuteIfSimulating & (ExecuteIfSimulating - 1) == 0
  {
  }
}
