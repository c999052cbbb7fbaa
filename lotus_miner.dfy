/**
  Lotus's wire forms for miner values: a seal proof travels as its index in
  declaration order, and a CID as a one-entry map `{"/": <cid text>}`.
*/
module LotusMiner {
  import opened Ints
  import opened Wrappers
  import opened FilecoinSpec

  // ****** Proof type as an integer **********

  /** The ten proofs in declaration order. */
  const ALL_PROOFS: seq<RegisteredSealProof> := [
    StackedDrg2KiBV1, StackedDrg8MiBV1, StackedDrg512MiBV1, StackedDrg32GiBV1, StackedDrg64GiBV1,
    StackedDrg2KiBV1_1, StackedDrg8MiBV1_1, StackedDrg512MiBV1_1, StackedDrg32GiBV1_1, StackedDrg64GiBV1_1]

  /** `proof_type_serialize`. */
  function ProofTypeSerialize(proof: RegisteredSealProof): (id: u64)
    ensures id <= 9
  {
    match proof
    case StackedDrg2KiBV1 => 0
    case StackedDrg8MiBV1 => 1
    case StackedDrg512MiBV1 => 2
    case StackedDrg32GiBV1 => 3
    case StackedDrg64GiBV1 => 4
    case StackedDrg2KiBV1_1 => 5
    case StackedDrg8MiBV1_1 => 6
    case StackedDrg512MiBV1_1 => 7
    case StackedDrg32GiBV1_1 => 8
    case StackedDrg64GiBV1_1 => 9
  }

  /** serde's `invalid_value`: the value found and what was expected instead. */
  datatype DeError = InvalidValue(unexpected: u64, expected: string)

  /** `proof_type_deserialize`, once the integer has been read. */
  function ProofTypeDeserialize(id: u64): (r: Result<RegisteredSealProof, DeError>)
    ensures r.Err? <==> id > 9
    ensures r.Err? ==> r.error == InvalidValue(id, "[0-9]")
  {
    match id
    case 0 => Ok(StackedDrg2KiBV1)
    case 1 => Ok(StackedDrg8MiBV1)
    case 2 => Ok(StackedDrg512MiBV1)
    case 3 => Ok(StackedDrg32GiBV1)
    case 4 => Ok(StackedDrg64GiBV1)
    case 5 => Ok(StackedDrg2KiBV1_1)
    case 6 => Ok(StackedDrg8MiBV1_1)
    case 7 => Ok(StackedDrg512MiBV1_1)
    case 8 => Ok(StackedDrg32GiBV1_1)
    case 9 => Ok(StackedDrg64GiBV1_1)
    case _ => Err(InvalidValue(id, "[0-9]"))
  }

  /** Each proof is written as its position in declaration order. */
  lemma SerializeFollowsDeclarationOrder()
    ensures |ALL_PROOFS| == 10
    ensures forall i :: 0 <= i < |ALL_PROOFS| ==> ProofTypeSerialize(ALL_PROOFS[i]) as int == i
    ensures forall p :: p in ALL_PROOFS
  {
    forall p
      ensures p in ALL_PROOFS
    {
      assert ALL_PROOFS[ProofTypeSerialize(p)] == p;
    }
  }

  /** Reading back a written proof gives the proof. */
  lemma ProofTypeRoundTrip(proof: RegisteredSealProof)
    ensures ProofTypeDeserialize(ProofTypeSerialize(proof)) == Ok(proof)
  {
  }

  /** Writing a proof read from any of 0..9 gives the number back: the codec is a bijection with 0..9. */
  lemma ProofTypeIdRoundTrip(id: u64)
    requires id <= 9
    ensures ProofTypeDeserialize(id).Ok? && ProofTypeSerialize(ProofTypeDeserialize(id).value) == id
  {
  }

  // ****** CID as a map **********

  /** A CID; only its text form matters to the wire shape. */
  datatype Cid = Cid(text: string)
  {
    /** `Cid::to_string`. */
    function ToString(): string { text }
  }

  /** `cid_serialize`: a map with the single entry `"/"` holding the CID's text. */
  function CidSerialize(cid: Cid): (m: map<string, string>)
    ensures m.Keys == {"/"} && m["/"] == cid.ToString()
  {
    map["/" := cid.ToString()]
  }

  /**
    `cid_deserialize`: removes the `"/"` entry and hands its text to the CID
    parser. A map without that entry is a panic, so it is required.
  */
  function CidDeserialize(m: map<string, string>): (text: string)
    requires "/" in m
    ensures text == m["/"]
  {
    m["/"]
  }

  /** Entries other than `"/"` play no part. */
  lemma CidDeserializeIgnoresOtherKeys(m: map<string, string>, k: string, v: string)
    requires "/" in m && k != "/"
    ensures CidDeserialize(m[k := v]) == CidDeserialize(m)
    ensures CidDeserialize(m - {k}) == CidDeserialize(m)
  {
  }

  /** The text a serialized CID is read back from is the CID's own text. */
  lemma CidRoundTrip(cid: Cid)
    ensures CidDeserialize(CidSerialize(cid)) == cid.text
  {
  }
}
