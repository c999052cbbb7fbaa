/**
  Filecoin domain identifiers: proof variants with their sector sizes, the
  32-byte values (tickets, commitments, prover ids) and the conversion between
  a storage provider id and the prover id the proofs are bound to.
*/
module FilecoinSpec {
  import opened Ints
  import opened Wrappers
  import UnsignedVarint

  /** The ten registered seal proofs: five sector sizes in two proof versions. */
  datatype RegisteredSealProof =
    | StackedDrg2KiBV1
    | StackedDrg8MiBV1
    | StackedDrg512MiBV1
    | StackedDrg32GiBV1
    | StackedDrg64GiBV1
    | StackedDrg2KiBV1_1
    | StackedDrg8MiBV1_1
    | StackedDrg512MiBV1_1
    | StackedDrg32GiBV1_1
    | StackedDrg64GiBV1_1

  function Zeros(n: nat): (r: Bytes)
    ensures |r| == n
    ensures forall i :: 0 <= i < n ==> r[i] == 0
  {
    seq(n, _ => 0)
  }

  /** A `[u8; 32]`. */
  type Bytes32 = s: Bytes | |s| == 32 witness Zeros(32)

  datatype UnpaddedBytesAmount = UnpaddedBytesAmount(amount: u64)
  datatype Commitment = Commitment(bytes: Bytes32)
  datatype PieceInfo = PieceInfo(commitment: Commitment, size: UnpaddedBytesAmount)
  datatype Ticket = Ticket(bytes: Bytes32)
  datatype ChainEpoch = ChainEpoch(epoch: i64)
  datatype SectorId = SectorId(id: u64)
  datatype StorageProviderId = StorageProviderId(id: u64)

  /** `ProverId::default()` is all zeroes. */
  datatype ProverId = ProverId(bytes: Bytes32)

  /** What `From<StorageProviderId> for ProverId` produces: the id's varint, then zeroes up to 32 bytes. */
  function EncodedProverId(sp: StorageProviderId): (prover: ProverId)
  {
    UnsignedVarint.VarintFits(sp.id);
    var encoded := UnsignedVarint.Varint(sp.id as nat);
    ProverId(encoded + Zeros(32 - |encoded|))
  }

  /**
    `From<StorageProviderId> for ProverId`: a zeroed buffer whose prefix is
    overwritten (`copy_from_slice`) by the varint encoding of the id.
  */
  method ProverIdFrom(sp: StorageProviderId) returns (prover: ProverId)
    ensures prover == EncodedProverId(sp)
    ensures UnsignedVarint.DecodeU64(prover.bytes).Ok? && StorageProviderIdFrom(prover) == sp
  {
    var buf := new u8[32](_ => 0);
    var encoded := UnsignedVarint.EncodeU64(sp.id);
    forall k | 0 <= k < |encoded| {
      buf[k] := encoded[k];
    }
    assert buf[..] == encoded + Zeros(32 - |encoded|);
    prover := ProverId(buf[..]);
    ProverIdRoundTrip(sp);
  }

  /**
    `From<ProverId> for StorageProviderId` and `From<&ProverId> for
    StorageProviderId` (the two bodies are the same call): decode the varint at
    the front of the buffer. The decoder's result is unwrapped, so the buffer
    must start with a valid varint; whatever follows it is ignored.
  */
  function StorageProviderIdFrom(prover: ProverId): (sp: StorageProviderId)
    requires UnsignedVarint.DecodeU64(prover.bytes).Ok?
    ensures var k := 32 - |UnsignedVarint.DecodeU64(prover.bytes).value.1|;
      && 1 <= k <= UnsignedVarint.U64_LEN
      && UnsignedVarint.DecodeU64(prover.bytes[..k]) == Ok((sp.id, []))
  {
    UnsignedVarint.DecodePrefix(prover.bytes);
    StorageProviderId(UnsignedVarint.DecodeU64(prover.bytes).value.0)
  }

  /** Every provider id survives the trip through its prover id. */
  lemma ProverIdRoundTrip(sp: StorageProviderId)
    ensures UnsignedVarint.DecodeU64(EncodedProverId(sp).bytes).Ok?
    ensures StorageProviderIdFrom(EncodedProverId(sp)) == sp
  {
    UnsignedVarint.VarintFits(sp.id);
    var encoded := UnsignedVarint.Varint(sp.id as nat);
    UnsignedVarint.DecodeEncoded(sp.id, Zeros(32 - |encoded|));
  }

  /** The prover id is the varint (at most ten bytes) followed by nothing but zeroes. */
  lemma ProverIdLayout(sp: StorageProviderId)
    ensures var len := |UnsignedVarint.Varint(sp.id as nat)|;
      && 1 <= len <= UnsignedVarint.U64_LEN
      && EncodedProverId(sp).bytes[..len] == UnsignedVarint.Varint(sp.id as nat)
      && forall i :: len <= i < 32 ==> EncodedProverId(sp).bytes[i] == 0
  {
    UnsignedVarint.VarintFits(sp.id);
  }

  /** Distinct providers get distinct prover ids. */
  lemma ProverIdInjective(a: StorageProviderId, b: StorageProviderId)
    ensures EncodedProverId(a) == EncodedProverId(b) ==> a == b
  {
    ProverIdRoundTrip(a);
    ProverIdRoundTrip(b);
  }

  const SECTOR_SIZE_2_KIB: u64 := 0x800             // 1 << 11
  const SECTOR_SIZE_8_MIB: u64 := 0x80_0000         // 1 << 23
  const SECTOR_SIZE_512_MIB: u64 := 0x2000_0000     // 1 << 29
  const SECTOR_SIZE_32_GIB: u64 := 0x8_0000_0000    // 1 << 35
  const SECTOR_SIZE_64_GIB: u64 := 0x10_0000_0000   // 1 << 36

  /** Sector size in bytes of a proof variant. */
  function SectorSize(proof: RegisteredSealProof): (size: u64)
    ensures size in {SECTOR_SIZE_2_KIB, SECTOR_SIZE_8_MIB, SECTOR_SIZE_512_MIB, SECTOR_SIZE_32_GIB, SECTOR_SIZE_64_GIB}
  {
    match proof
    case StackedDrg2KiBV1 => SECTOR_SIZE_2_KIB
    case StackedDrg8MiBV1 => SECTOR_SIZE_8_MIB
    case StackedDrg512MiBV1 => SECTOR_SIZE_512_MIB
    case StackedDrg32GiBV1 => SECTOR_SIZE_32_GIB
    case StackedDrg64GiBV1 => SECTOR_SIZE_64_GIB
    case StackedDrg2KiBV1_1 => SECTOR_SIZE_2_KIB
    case StackedDrg8MiBV1_1 => SECTOR_SIZE_8_MIB
    case StackedDrg512MiBV1_1 => SECTOR_SIZE_512_MIB
    case StackedDrg32GiBV1_1 => SECTOR_SIZE_32_GIB
    case StackedDrg64GiBV1_1 => SECTOR_SIZE_64_GIB
  }

  /** The V1_1 proof of the same sector size as a V1 proof (and the V1_1 proof itself). */
  function V1_1Counterpart(proof: RegisteredSealProof): RegisteredSealProof
  {
    match proof
    case StackedDrg2KiBV1 => StackedDrg2KiBV1_1
    case StackedDrg8MiBV1 => StackedDrg8MiBV1_1
    case StackedDrg512MiBV1 => StackedDrg512MiBV1_1
    case StackedDrg32GiBV1 => StackedDrg32GiBV1_1
    case StackedDrg64GiBV1 => StackedDrg64GiBV1_1
    case _ => proof
  }

  /** The constants are the powers of two their names say. */
  lemma SectorSizeConstants()
    ensures SECTOR_SIZE_2_KIB as int == 2 * 1024
    ensures SECTOR_SIZE_8_MIB as int == 8 * 1024 * 1024
    ensures SECTOR_SIZE_512_MIB as int == 512 * 1024 * 1024
    ensures SECTOR_SIZE_32_GIB as int == 32 * 1024 * 1024 * 1024
    ensures SECTOR_SIZE_64_GIB as int == 64 * 1024 * 1024 * 1024
  {
  }

  /** Both proof versions of one size give the same sector size. */
  lemma SectorSizeIgnoresVersion(proof: RegisteredSealProof)
    ensures SectorSize(V1_1Counterpart(proof)) == SectorSize(proof)
  {
  }

  /** Within a version the sizes strictly increase in declaration order. */
  lemma SectorSizeIncreasing()
    ensures SectorSize(StackedDrg2KiBV1) < SectorSize(StackedDrg8MiBV1) < SectorSize(StackedDrg512MiBV1)
          < SectorSize(StackedDrg32GiBV1) < SectorSize(StackedDrg64GiBV1)
    ensures SectorSize(StackedDrg2KiBV1_1) < SectorSize(StackedDrg8MiBV1_1) < SectorSize(StackedDrg512MiBV1_1)
          < SectorSize(StackedDrg32GiBV1_1) < SectorSize(StackedDrg64GiBV1_1)
  {
  }
}
