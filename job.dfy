/** The job taxonomy shared by producers, workers and the job-management service. */
module Job {
  import opened Ints

  /** The five sealing stages; PC is PC1 and PC2 fused into one job. */
  datatype JobType = PC1 | PC2 | C1 | C2 | PC
  {
    /** `Display for JobType`: the name used in URIs and as the envelope tag. */
    function ToString(): (name: string)
      ensures 2 <= |name| <= 3 && name[0] in "PC"
      ensures ':' !in name && '/' !in name
    {
      match this
      case PC1 => "PC1"
      case PC2 => "PC2"
      case C1 => "C1"
      case C2 => "C2"
      case PC => "PC"
    }

    /** `From<JobType> for u8`. */
    function ToU8(): (code: u8)
      ensures 1 <= code <= 5
    {
      match this
      case PC1 => 1
      case PC2 => 2
      case C1 => 3
      case C2 => 4
      case PC => 5
    }
  }

  /** No two kinds share a display name, so a substituted URI names exactly one kind. */
  lemma ToStringInjective(s: JobType, t: JobType)
    ensures s.ToString() == t.ToString() ==> s == t
  {
  }

  /** No two kinds share a code. */
  lemma ToU8Injective(s: JobType, t: JobType)
    ensures s.ToU8() == t.ToU8() ==> s == t
  {
  }
}
