/**
  The transport envelopes of job_client: tagged unions over the five job kinds
  and over their outputs. Erasing a job into its envelope is total; recovering
  a kind from an envelope is defined only for an envelope carrying that kind's
  tag (any other tag is a panic in the client, hence a precondition here).
*/
module JobEnvelope {
  import Job
  import Sealing

  /** `JobHttp`, tagged on the wire by `job_type`. */
  datatype JobHttp =
    | PC1(pc1: Sealing.PC1)
    | PC2(pc2: Sealing.PC2)
    | C1(c1: Sealing.C1)
    | C2(c2: Sealing.C2)
    | PC(pc: Sealing.PC)
  {
    /** The kind the envelope's tag names. */
    function JobType(): Job.JobType
    {
      match this
      case PC1(_) => Job.PC1
      case PC2(_) => Job.PC2
      case C1(_) => Job.C1
      case C2(_) => Job.C2
      case PC(_) => Job.PC
    }
  }

  /** `JobOutputHttp`, tagged by `job_type` with the bytes under `output`. */
  datatype JobOutputHttp =
    | PC1(pc1: Sealing.PC1Output)
    | PC2(pc2: Sealing.PC2Output)
    | C1(c1: Sealing.C1Output)
    | C2(c2: Sealing.C2Output)
    | PC(pc: Sealing.PCOutput)
  {
    function JobType(): Job.JobType
    {
      match this
      case PC1(_) => Job.PC1
      case PC2(_) => Job.PC2
      case C1(_) => Job.C1
      case C2(_) => Job.C2
      case PC(_) => Job.PC
    }
  }

  // ****** Jobs into and out of JobHttp **********

  function FromPC1(job: Sealing.PC1): (h: JobHttp)
    ensures h.JobType() == Sealing.PC1.JobType()
  {
    JobHttp.PC1(job)
  }

  function FromPC2(job: Sealing.PC2): (h: JobHttp)
    ensures h.JobType() == Sealing.PC2.JobType()
  {
    JobHttp.PC2(job)
  }

  function FromC1(job: Sealing.C1): (h: JobHttp)
    ensures h.JobType() == Sealing.C1.JobType()
  {
    JobHttp.C1(job)
  }

  function FromC2(job: Sealing.C2): (h: JobHttp)
    ensures h.JobType() == Sealing.C2.JobType()
  {
    JobHttp.C2(job)
  }

  function FromPC(job: Sealing.PC): (h: JobHttp)
    ensures h.JobType() == Sealing.PC.JobType()
  {
    JobHttp.PC(job)
  }

  function IntoPC1(h: JobHttp): (job: Sealing.PC1)
    requires h.JobType() == Sealing.PC1.JobType()
    ensures FromPC1(job) == h
  {
    h.pc1
  }

  function IntoPC2(h: JobHttp): (job: Sealing.PC2)
    requires h.JobType() == Sealing.PC2.JobType()
    ensures FromPC2(job) == h
  {
    h.pc2
  }

  function IntoC1(h: JobHttp): (job: Sealing.C1)
    requires h.JobType() == Sealing.C1.JobType()
    ensures FromC1(job) == h
  {
    h.c1
  }

  function IntoC2(h: JobHttp): (job: Sealing.C2)
    requires h.JobType() == Sealing.C2.JobType()
    ensures FromC2(job) == h
  {
    h.c2
  }

  function IntoPC(h: JobHttp): (job: Sealing.PC)
    requires h.JobType() == Sealing.PC.JobType()
    ensures FromPC(job) == h
  {
    h.pc
  }

  /** Recovering a job from its own envelope gives the job back, for all five kinds. */
  lemma JobRoundTrip(p1: Sealing.PC1, p2: Sealing.PC2, c1: Sealing.C1, c2: Sealing.C2, p: Sealing.PC)
    ensures IntoPC1(FromPC1(p1)) == p1
    ensures IntoPC2(FromPC2(p2)) == p2
    ensures IntoC1(FromC1(c1)) == c1
    ensures IntoC2(FromC2(c2)) == c2
    ensures IntoPC(FromPC(p)) == p
  {
  }

  // ****** Outputs into and out of JobOutputHttp **********

  function FromPC1Output(output: Sealing.PC1Output): (h: JobOutputHttp)
    ensures h.JobType() == Sealing.PC1.JobType()
  {
    JobOutputHttp.PC1(output)
  }

  function FromPC2Output(output: Sealing.PC2Output): (h: JobOutputHttp)
    ensures h.JobType() == Sealing.PC2.JobType()
  {
    JobOutputHttp.PC2(output)
  }

  function FromC1Output(output: Sealing.C1Output): (h: JobOutputHttp)
    ensures h.JobType() == Sealing.C1.JobType()
  {
    JobOutputHttp.C1(output)
  }

  function FromC2Output(output: Sealing.C2Output): (h: JobOutputHttp)
    ensures h.JobType() == Sealing.C2.JobType()
  {
    JobOutputHttp.C2(output)
  }

  function FromPCOutput(output: Sealing.PCOutput): (h: JobOutputHttp)
    ensures h.JobType() == Sealing.PC.JobType()
  {
    JobOutputHttp.PC(output)
  }

  // There is no recovery of a PCOutput: the client cannot fetch the output of a fused job.

  function IntoPC1Output(h: JobOutputHttp): (output: Sealing.PC1Output)
    requires h.JobType() == Sealing.PC1.JobType()
    ensures FromPC1Output(output) == h
  {
    h.pc1
  }

  function IntoPC2Output(h: JobOutputHttp): (output: Sealing.PC2Output)
    requires h.JobType() == Sealing.PC2.JobType()
    ensures FromPC2Output(output) == h
  {
    h.pc2
  }

  function IntoC1Output(h: JobOutputHttp): (output: Sealing.C1Output)
    requires h.JobType() == Sealing.C1.JobType()
    ensures FromC1Output(output) == h
  {
    h.c1
  }

  function IntoC2Output(h: JobOutputHttp): (output: Sealing.C2Output)
    requires h.JobType() == Sealing.C2.JobType()
    ensures FromC2Output(output) == h
  {
    h.c2
  }

  /** Recovering an output from its own envelope gives it back, for the four recoverable kinds. */
  lemma OutputRoundTrip(p1: Sealing.PC1Output, p2: Sealing.PC2Output, c1: Sealing.C1Output, c2: Sealing.C2Output)
    ensures IntoPC1Output(FromPC1Output(p1)) == p1
    ensures IntoPC2Output(FromPC2Output(p2)) == p2
    ensures IntoC1Output(FromC1Output(c1)) == c1
    ensures IntoC2Output(FromC2Output(c2)) == c2
  {
  }

  /** Every envelope is the erasure of exactly one kind of job: its tag names that kind. */
  lemma EnvelopeIsErasure(h: JobHttp)
    ensures h.JobType() == Job.PC1 <==> exists j :: h == FromPC1(j)
    ensures h.JobType() == Job.PC2 <==> exists j :: h == FromPC2(j)
    ensures h.JobType() == Job.C1 <==> exists j :: h == FromC1(j)
    ensures h.JobType() == Job.C2 <==> exists j :: h == FromC2(j)
    ensures h.JobType() == Job.PC <==> exists j :: h == FromPC(j)
  {
    match h
    case PC1(j) => assert h == FromPC1(j);
    case PC2(j) => assert h == FromPC2(j);
    case C1(j) => assert h == FromC1(j);
    case C2(j) => assert h == FromC2(j);
    case PC(j) => assert h == FromPC(j);
  }
}
