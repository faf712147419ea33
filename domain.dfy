/**
 * The counters of one extraction run and the name of the entry that is
 * sought inside archives (src/domain.rs).
 */
module Domain {

  /** The only archive entry the run ever extracts. */
  const ModelInfoFileName: string := "model_info.json"

  /** 2^64: every counter is a `u64` in the program. */
  const U64Limit: nat := 0x1_0000_0000_0000_0000

  /**
   * The four counters of a run. A datatype value is immutable, so a snapshot
   * handed to the progress reporter is never changed by later increments,
   * which is what `Copy` gives the Rust record.
   */
  datatype ExtractStats = ExtractStats(
    directoriesScanned: nat,
    safetensorsDirectories: nat,
    zipFilesChecked: nat,
    extracted: nat)

  /** The derived `Default`: every counter at zero. */
  function Default(): ExtractStats {
    ExtractStats(0, 0, 0, 0)
  }

  /** Pointwise order on counters: `a` can evolve into `b` by increments only. */
  predicate Le(a: ExtractStats, b: ExtractStats) {
    && a.directoriesScanned <= b.directoriesScanned
    && a.safetensorsDirectories <= b.safetensorsDirectories
    && a.zipFilesChecked <= b.zipFilesChecked
    && a.extracted <= b.extracted
  }

  /** Pointwise sum of counters. */
  function Add(a: ExtractStats, b: ExtractStats): (r: ExtractStats)
    ensures Le(a, r) && Le(b, r)
  {
    ExtractStats(
      a.directoriesScanned + b.directoriesScanned,
      a.safetensorsDirectories + b.safetensorsDirectories,
      a.zipFilesChecked + b.zipFilesChecked,
      a.extracted + b.extracted)
  }

  /** The relations between counters that every snapshot of a run keeps. */
  predicate WellFormed(s: ExtractStats) {
    && s.extracted <= s.zipFilesChecked
    && s.safetensorsDirectories <= s.directoriesScanned
  }

  /** Every counter is representable as a `u64`. */
  predicate FitsU64(s: ExtractStats) {
    && s.directoriesScanned < U64Limit
    && s.safetensorsDirectories < U64Limit
    && s.zipFilesChecked < U64Limit
    && s.extracted < U64Limit
  }

  /** The default record is well formed and below every other record. */
  lemma DefaultIsLeast(s: ExtractStats)
    ensures WellFormed(Default()) && FitsU64(Default())
    ensures Le(Default(), s)
  {
  }

  /** The derived `PartialEq`: two records are equal exactly when their four counters are. */
  lemma EqualityIsFieldwise(a: ExtractStats, b: ExtractStats)
    ensures a == b <==>
      && a.directoriesScanned == b.directoriesScanned
      && a.safetensorsDirectories == b.safetensorsDirectories
      && a.zipFilesChecked == b.zipFilesChecked
      && a.extracted == b.extracted
  {
  }

  /** A record below a record whose counters fit in 64 bits fits too. */
  lemma FitsU64Below(a: ExtractStats, b: ExtractStats)
    requires Le(a, b) && FitsU64(b)
    ensures FitsU64(a)
  {
  }
}
