/**
  The five sealing job kinds. Each kind owns its input; each output wraps the
  raw bytes a worker produced (base64 on the wire). Every kind answers the
  same capability set: its job type, its input, and the provider, sector and
  proof it is about.
*/
module Sealing {
  import opened Ints
  import FilecoinSpec
  import Job
  import Base64

  // ****** PC1 **********

  datatype PC1Input = PC1Input(
    registeredProof: FilecoinSpec.RegisteredSealProof,
    storageProviderId: FilecoinSpec.StorageProviderId,
    sectorId: FilecoinSpec.SectorId,
    ticket: FilecoinSpec.Ticket,
    ticketEpoch: FilecoinSpec.ChainEpoch)

  /** `From<Vec<u8>>` is the constructor, `AsRef<[u8]>` gives the bytes back. */
  datatype PC1Output = PC1Output(bytes: Bytes)
  {
    function AsRef(): Bytes { bytes }
  }

  datatype PC1 = PC1(input: PC1Input)
  {
    static function JobType(): Job.JobType { Job.PC1 }
    function IntoInput(): PC1Input { input }
    function SectorId(): FilecoinSpec.SectorId { input.sectorId }
    function StorageProviderId(): FilecoinSpec.StorageProviderId { input.storageProviderId }
    function RegisteredProof(): FilecoinSpec.RegisteredSealProof { input.registeredProof }
  }

  // ****** PC2 **********

  datatype PC2Input = PC2Input(
    pc1Output: PC1Output,
    sectorId: FilecoinSpec.SectorId,
    storageProviderId: FilecoinSpec.StorageProviderId,
    registeredProof: FilecoinSpec.RegisteredSealProof)

  datatype PC2Output = PC2Output(bytes: Bytes)
  {
    function AsRef(): Bytes { bytes }
  }

  datatype PC2 = PC2(input: PC2Input)
  {
    static function JobType(): Job.JobType { Job.PC2 }
    function IntoInput(): PC2Input { input }
    function SectorId(): FilecoinSpec.SectorId { input.sectorId }
    function StorageProviderId(): FilecoinSpec.StorageProviderId { input.storageProviderId }
    function RegisteredProof(): FilecoinSpec.RegisteredSealProof { input.registeredProof }
  }

  // ****** PC1/PC2 **********

  /** The fused pre-commit job takes a PC1 input. */
  datatype PCOutput = PCOutput(bytes: Bytes)
  {
    function AsRef(): Bytes { bytes }
  }

  datatype PC = PC(input: PC1Input)
  {
    static function JobType(): Job.JobType { Job.PC }
    function IntoInput(): PC1Input { input }
    function SectorId(): FilecoinSpec.SectorId { input.sectorId }
    function StorageProviderId(): FilecoinSpec.StorageProviderId { input.storageProviderId }
    function RegisteredProof(): FilecoinSpec.RegisteredSealProof { input.registeredProof }
  }

  // ****** C1 **********

  datatype C1Output = C1Output(bytes: Bytes)
  {
    function AsRef(): Bytes { bytes }
  }

  datatype C1Input = C1Input(
    pc2Output: PC2Output,
    storageProviderId: FilecoinSpec.StorageProviderId,
    sectorId: FilecoinSpec.SectorId,
    ticket: FilecoinSpec.Ticket,
    seed: FilecoinSpec.Ticket,
    pieceInfos: seq<FilecoinSpec.PieceInfo>,
    registeredProof: FilecoinSpec.RegisteredSealProof)

  datatype C1 = C1(input: C1Input)
  {
    static function JobType(): Job.JobType { Job.C1 }
    function IntoInput(): C1Input { input }
    function SectorId(): FilecoinSpec.SectorId { input.sectorId }
    function StorageProviderId(): FilecoinSpec.StorageProviderId { input.storageProviderId }
    function RegisteredProof(): FilecoinSpec.RegisteredSealProof { input.registeredProof }
  }

  // ****** C2 **********

  datatype C2Input = C2Input(
    c1Output: C1Output,
    storageProviderId: FilecoinSpec.StorageProviderId,
    sectorId: FilecoinSpec.SectorId,
    registeredProof: FilecoinSpec.RegisteredSealProof)

  datatype C2Output = C2Output(bytes: Bytes)
  {
    function AsRef(): Bytes { bytes }
  }

  datatype C2 = C2(input: C2Input)
  {
    static function JobType(): Job.JobType { Job.C2 }
    function IntoInput(): C2Input { input }
    function SectorId(): FilecoinSpec.SectorId { input.sectorId }
    function StorageProviderId(): FilecoinSpec.StorageProviderId { input.storageProviderId }
    function RegisteredProof(): FilecoinSpec.RegisteredSealProof { input.registeredProof }
  }

  // ****** Properties of the capability set **********

  /** Each kind reports its own stage. */
  lemma JobTypes()
    ensures PC1.JobType() == Job.PC1 && PC2.JobType() == Job.PC2 && PC.JobType() == Job.PC
    ensures C1.JobType() == Job.C1 && C2.JobType() == Job.C2
  {
  }

  /** The five kinds report five different job types, so a job type names one kind. */
  lemma JobTypesDistinct()
    ensures |{PC1.JobType(), PC2.JobType(), PC.JobType(), C1.JobType(), C2.JobType()}| == 5
  {
  }

  /** The key and proof a job reports are those of its input, and `into_input` hands that input back unchanged. */
  lemma JobsReportTheirInput(p1: PC1, p2: PC2, p: PC, c1: C1, c2: C2)
    ensures p1.IntoInput() == p1.input && p2.IntoInput() == p2.input && p.IntoInput() == p.input
    ensures c1.IntoInput() == c1.input && c2.IntoInput() == c2.input
    ensures (p1.StorageProviderId(), p1.SectorId(), p1.RegisteredProof())
         == (p1.input.storageProviderId, p1.input.sectorId, p1.input.registeredProof)
    ensures (p2.StorageProviderId(), p2.SectorId(), p2.RegisteredProof())
         == (p2.input.storageProviderId, p2.input.sectorId, p2.input.registeredProof)
    ensures (p.StorageProviderId(), p.SectorId(), p.RegisteredProof())
         == (p.input.storageProviderId, p.input.sectorId, p.input.registeredProof)
    ensures (c1.StorageProviderId(), c1.SectorId(), c1.RegisteredProof())
         == (c1.input.storageProviderId, c1.input.sectorId, c1.input.registeredProof)
    ensures (c2.StorageProviderId(), c2.SectorId(), c2.RegisteredProof())
         == (c2.input.storageProviderId, c2.input.sectorId, c2.input.registeredProof)
  {
  }

  /** The fused job and a PC1 job built from one input are about the same sector, but are different stages. */
  lemma FusedJobMatchesPC1(input: PC1Input)
    ensures PC(input).StorageProviderId() == PC1(input).StorageProviderId()
    ensures PC(input).SectorId() == PC1(input).SectorId()
    ensures PC(input).RegisteredProof() == PC1(input).RegisteredProof()
    ensures PC(input).IntoInput() == PC1(input).IntoInput()
    ensures PC.JobType() != PC1.JobType()
  {
  }

  /** Wrapping bytes as an output and reading them back gives the same bytes. */
  lemma OutputBytesRoundTrip(value: Bytes)
    ensures PC1Output(value).AsRef() == value && PC2Output(value).AsRef() == value
    ensures PCOutput(value).AsRef() == value && C1Output(value).AsRef() == value
    ensures C2Output(value).AsRef() == value
  {
  }

  // ****** The deserialization test of sealing.rs **********

  /** The ticket text of the test's JSON: base64 of 32 bytes of 0x01. */
  const FIXTURE_TICKET: string := "AQEBAQEBAQEBAQEBAQEBAQEBAQEBAQEBAQEBAQEBAQE="

  /** The input the test expects the JSON to decode to. */
  const FIXTURE_INPUT: PC1Input := PC1Input(
    FilecoinSpec.StackedDrg2KiBV1,
    FilecoinSpec.StorageProviderId(1111),
    FilecoinSpec.SectorId(123123),
    FilecoinSpec.Ticket(seq(32, _ => 1)),
    FilecoinSpec.ChainEpoch(1100))

  /** The fixture's ticket text is exactly the padded standard base64 of the expected ticket. */
  lemma FixtureTicketEncoding()
    ensures Base64.Encode(FIXTURE_INPUT.ticket.bytes) == FIXTURE_TICKET
  {
    Base64.EncodeOnes(FIXTURE_INPUT.ticket.bytes);
    RepeatedGroups();
  }

  lemma RepeatedGroups()
    ensures Base64.Repeat("AQEB", 10) + "AQE=" == FIXTURE_TICKET
  {
    TenGroups();
    assert "AQEBAQEBAQEBAQEBAQEBAQEBAQEBAQEBAQEBAQEB" + "AQE=" == FIXTURE_TICKET;
  }

  lemma TenGroups()
    ensures Base64.Repeat("AQEB", 10) == "AQEBAQEBAQEBAQEBAQEBAQEBAQEBAQEBAQEBAQEB"
  {
    FiveGroups();
    Base64.RepeatSum("AQEB", 5, 5);
    assert "AQEBAQEBAQEBAQEBAQEB" + "AQEBAQEBAQEBAQEBAQEB" == "AQEBAQEBAQEBAQEBAQEBAQEBAQEBAQEBAQEBAQEB";
  }

  lemma FiveGroups()
    ensures Base64.Repeat("AQEB", 5) == "AQEBAQEBAQEBAQEBAQEB"
  {
    assert Base64.Repeat("AQEB", 1) == "AQEB";
    assert Base64.Repeat("AQEB", 2) == "AQEBAQEB";
    assert Base64.Repeat("AQEB", 3) == "AQEBAQEBAQEB";
    assert Base64.Repeat("AQEB", 4) == "AQEBAQEBAQEBAQEB";
  }

  /** The fixture input, taken as a PC1 job, carries provider 1111 and sector 123123. */
  lemma FixtureJobKey()
    ensures PC1(FIXTURE_INPUT).SectorId() == FilecoinSpec.SectorId(123123)
    ensures PC1(FIXTURE_INPUT).StorageProviderId() == FilecoinSpec.StorageProviderId(1111)
  {
  }
}
