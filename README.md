# Sealing-job client and Filecoin value encodings, in Dafny

This project models the small, closed pieces of logic that a Filecoin sealing
pipeline shares between its producers, its workers and its job-management
service, and proves their properties:

- **Job model.** The five sealing stages (`JobType`: PC1, PC2, C1, C2 and the
  fused PC) with their display names and `u8` codes. The five job kinds with
  their inputs, their key and proof accessors, and their output byte wrappers.
  The deserialization test fixture, whose ticket is the padded standard base64
  (section 4 of RFC 4648) of 32 bytes of `0x01`.
- **Job envelopes.** `JobHttp` and `JobOutputHttp`, the tagged unions the
  client sends and receives, with their erase and recover conversions.
  Recovering with the wrong tag panics in the program, so here it is a
  precondition. `PCOutput` has no recovery.
- **Job client.** `SealingJobManagerHttpClient`: `new`, the route constants,
  the literal `replace` substitution into URIs, and the stepwise status
  handling of each of its seven operations. An HTTP reply is a parameter, as
  are the JSON decoders for the reply body. An operation's result is the
  request it sends together with its outcome: a value, an `Error`, or a panic.
- **Filecoin identifiers.** `sector_size` over the ten seal proofs, and the
  conversion from a storage provider id to a prover id. The conversion writes
  the id's unsigned varint (LEB128-style 7-bit groups with a continuation
  bit) into the front of a zeroed 32-byte buffer, in place. Decoding reads it
  back. The encoder and decoder follow the `unsigned-varint` crate's `u64`
  algorithm, including its `NotMinimal`, `Overflow` and `Insufficient` errors.
- **Lotus encodings.** The proof-type integer codec (0..9). The one-entry
  `{"/": text}` CID map, with `str2cid`, `cid2str` and `cidr2str`.
  `ChainHead::key`, which appends each CID's UTF-8 bytes in a loop and reads
  the buffer back as text. The domain separation tag codes 1..9.

Modules follow the source files:
- `Job` and `Sealing` model `job/src`.
- `JobEnvelope` and `JobClient` model `job_client/src/lib.rs`.
- `FilecoinSpec` models the Filecoin spec crate.
- `LotusMiner`, `LotusCid`, `LotusChainHead` and `LotusRandomness` model the
  Lotus type files.

`UnsignedVarint`, `Base64`, `Utf8` and `Strings` model the library behaviour
the core calls: the varint crate, serde_with's base64, `str::as_bytes` with
`String::from_utf8`, and `str::replace` with integer `to_string`. `Ints` and
`Wrappers` hold machine integers and `Option`/`Result`.

Three behaviours of the code are worth noting:
- `submit_job_output` and `fail_job` report a non-200 reply as `FetchJobs`,
  exactly like `add_job`. The `SubmitOutput`, `FailJob` and `JobNotExist`
  variants of `Error` are never produced (`JobClient.PostsShareOutcome`,
  `JobClient.UnusedErrors`).
- `get_job_output` reports a status other than 200, 204 and 424 as
  `FetchOutput(body)`, carrying the body. It is not reported as a transport
  error.
- `request_jobs` does not check that the service returned at most `count`
  jobs, so the model does not check it either.

## Model

| member | source | states |
|---|---|---|
| Job.JobType.ToString | job/src/lib.rs:32-41 | a stage's display name is two or three characters starting with P or C, and contains no `:` or `/`, so it is safe to substitute into a URI path |
| Job.JobType.ToU8 | job/src/lib.rs:44-53 | every stage code lies in 1..5, so it is never 0 |
| Job.ToStringInjective | job/src/lib.rs:32-41 | no two stages share a display name |
| Job.ToU8Injective | job/src/lib.rs:44-53 | no two stages share a code |
| Sealing.JobTypes | job/src/sealing.rs:47-316 | the kinds PC1, PC2, PC, C1 and C2 report stages PC1, PC2, PC, C1 and C2 |
| Sealing.JobTypesDistinct | job/src/sealing.rs:47-316 | the five kinds report five different stages |
| Sealing.JobsReportTheirInput | job/src/sealing.rs:47-316 | for every kind, `into_input` returns the stored input unchanged, and the provider, sector and proof accessors return that input's fields |
| Sealing.FusedJobMatchesPC1 | job/src/sealing.rs:139-185 | a PC job and a PC1 job built from the same input report the same provider, sector, proof and input, but different stages |
| Sealing.OutputBytesRoundTrip | job/src/sealing.rs:33-284 | for each of the five output wrappers, wrapping bytes and reading them back through `as_ref` gives the same bytes |
| Sealing.FixtureTicketEncoding | job/src/sealing.rs:322-339 | the test's ticket text is exactly the padded standard base64 of the expected ticket, `[1; 32]` |
| Sealing.FixtureJobKey | job/src/sealing.rs:322-339 | a PC1 job holding the expected input reports provider 1111 and sector 123123 |
| Base64.Encode | filecoin_spec/filecoin_spec/src/lib.rs:38 | padded encoding of n bytes has length 4·⌈n/3⌉ |
| Base64.EncodeOnes | job/src/sealing.rs:328 | encoding 3k+2 bytes of 0x01 gives k copies of `AQEB` followed by `AQE=` |
| JobEnvelope.FromPC1 | job_client/src/lib.rs:68-72 | the envelope of a PC1 job is tagged PC1 |
| JobEnvelope.FromPC2 | job_client/src/lib.rs:74-78 | the envelope of a PC2 job is tagged PC2 |
| JobEnvelope.FromC1 | job_client/src/lib.rs:80-84 | the envelope of a C1 job is tagged C1 |
| JobEnvelope.FromC2 | job_client/src/lib.rs:86-90 | the envelope of a C2 job is tagged C2 |
| JobEnvelope.FromPC | job_client/src/lib.rs:92-96 | the envelope of a PC job is tagged PC |
| JobEnvelope.IntoPC1 | job_client/src/lib.rs:98-105 | defined exactly on envelopes tagged PC1, where the non-panicking path runs; re-wrapping the recovered job gives the same envelope |
| JobEnvelope.IntoPC2 | job_client/src/lib.rs:107-114 | the same, for PC2 |
| JobEnvelope.IntoC1 | job_client/src/lib.rs:116-123 | the same, for C1 |
| JobEnvelope.IntoC2 | job_client/src/lib.rs:125-132 | the same, for C2 |
| JobEnvelope.IntoPC | job_client/src/lib.rs:134-141 | the same, for PC |
| JobEnvelope.JobRoundTrip | job_client/src/lib.rs:68-141 | recovering a job from its own envelope is the identity, for all five kinds |
| JobEnvelope.EnvelopeIsErasure | job_client/src/lib.rs:58-141 | an envelope's tag names a stage exactly when the envelope is the erasure of a job of that stage |
| JobEnvelope.FromPC1Output | job_client/src/lib.rs:153-157 | a PC1 output's envelope is tagged PC1 |
| JobEnvelope.FromPC2Output | job_client/src/lib.rs:159-163 | a PC2 output's envelope is tagged PC2 |
| JobEnvelope.FromC1Output | job_client/src/lib.rs:165-169 | a C1 output's envelope is tagged C1 |
| JobEnvelope.FromC2Output | job_client/src/lib.rs:171-175 | a C2 output's envelope is tagged C2 |
| JobEnvelope.FromPCOutput | job_client/src/lib.rs:177-181 | a PC output's envelope is tagged PC |
| JobEnvelope.IntoPC1Output | job_client/src/lib.rs:183-190 | defined exactly on output envelopes tagged PC1; re-wrapping gives the envelope back |
| JobEnvelope.IntoPC2Output | job_client/src/lib.rs:192-199 | the same, for PC2 |
| JobEnvelope.IntoC1Output | job_client/src/lib.rs:201-208 | the same, for C1 |
| JobEnvelope.IntoC2Output | job_client/src/lib.rs:210-217 | the same, for C2 |
| JobEnvelope.OutputRoundTrip | job_client/src/lib.rs:153-217 | the output envelope round trip holds for the four recoverable kinds; PC output has no recovery |
| JobClient.KeyedRoutes | job_client/src/lib.rs:13-24 | the input, output and state routes are a slash-led, colon-free prefix followed by the provider, sector and job-type placeholders, separated by `/` |
| JobClient.RoutesDistinct | job_client/src/lib.rs:13-24 | the seven routes the client uses, prefixed by any common base, are pairwise distinct |
| JobClient.New | job_client/src/lib.rs:318-331 | each endpoint is the base URI followed by that endpoint's route, field by field: add, request (`/job/:count/:job_type`), submit, output, input, fail and state; so every endpoint starts with the base, and the seven are pairwise distinct |
| JobClient.AddJob | job_client/src/lib.rs:335-357 | POSTs the job's envelope as JSON to the add-jobs endpoint; never panics; succeeds iff the status is 200; any other status gives `FetchJobs(body)`; a transport failure is propagated |
| JobClient.RequestJobs | job_client/src/lib.rs:359-397 | GETs the substituted URI. 204 gives `NotEnoughJobs(count)`, never an empty success. Any other non-200 gives `FetchJobs(body)`. On 200, an undecodable body is a reqwest decode error. Otherwise the call succeeds exactly when every listed job has the requested stage, returning the list in order, and panics when any job has another stage |
| JobClient.GetJobInput | job_client/src/lib.rs:399-442 | GETs the keyed URI; only stages whose output can be recovered are allowed. 204 gives `None`. Any other non-200 gives `FetchOutput(body)`. On 200 it gives `Some(job)` when the decoded job has the requested stage, and panics when it has another |
| JobClient.SubmitJobOutput | job_client/src/lib.rs:444-484 | POSTs the key with the output envelope; never panics; succeeds iff the status is 200; any other status gives `FetchJobs(body)` |
| JobClient.GetJobOutput | job_client/src/lib.rs:486-539 | checked in this order: 204 gives `None`; 424 gives `Some(Err(err))`, with `err` taken from the body; any other non-200 gives `FetchOutput(body)`; 200 gives `Some(Ok(output))` when the output has the requested stage, and panics when it has another |
| JobClient.FailJob | job_client/src/lib.rs:541-579 | POSTs the key, the requested stage and the error text; never panics; succeeds iff the status is 200; any other status gives `FetchJobs(body)` |
| JobClient.GetJobState | job_client/src/lib.rs:581-625 | never panics; 204 gives `None`; any other non-200 gives `GetState(body)`; 200 gives `Some(state)` from the decoded body |
| JobClient.KeyedUri | job_client/src/lib.rs:407-412 | the chain of three `replace` calls leaves a template holding none of the three placeholders unchanged; what it makes of a keyed route is `KeyedUriShape` |
| JobClient.JobsUri | job_client/src/lib.rs:363-367 | the two `replace` calls leave a template holding neither placeholder unchanged; what they make of the jobs route is `JobsUriShape` |
| JobClient.PostOutcome | job_client/src/lib.rs:347-356 | never panics; succeeds iff a reply arrived with status 200; a transport failure is propagated, and any other status gives `FetchJobs(body)` |
| JobClient.KeyedUriShape | job_client/src/lib.rs:407-412 | on a base URI with no `:` directly before a lower-case letter, the three `replace` calls produce `base ++ prefix ++ dec(sp) ++ "/" ++ dec(sector) ++ "/" ++ name` |
| JobClient.JobsUriShape | job_client/src/lib.rs:363-367 | on such a base, `request_jobs` asks for `base ++ "/job/" ++ dec(count) ++ "/" ++ name` |
| JobClient.SubstitutedKeyInjective | job_client/src/lib.rs:407-412 | a substituted key path determines provider, sector and stage |
| JobClient.SubstitutedCountInjective | job_client/src/lib.rs:363-367 | a substituted jobs path determines count and stage |
| JobClient.RequestUris | job_client/src/lib.rs:319-330 | for a client built by `new` on a base URI with no `:` directly before a lower-case letter, the four read URIs are exactly the base, the route's prefix and the substituted key |
| JobClient.KeyedRequestsDistinct | job_client/src/lib.rs:407-412 | through such a client (base URI with no `:` directly before a lower-case letter), two input (or output, or state) reads go to the same URI iff they ask about the same provider, sector and stage |
| JobClient.JobsRequestsDistinct | job_client/src/lib.rs:363-367 | on a base URI with no `:` directly before a lower-case letter, two `request_jobs` calls go to the same URI iff they have the same count and stage |
| JobClient.PostsShareOutcome | job_client/src/lib.rs:335-579 | `add_job`, `submit_job_output` and `fail_job` have the same outcome on every reply, and none reports `SubmitOutput` or `FailJob` |
| JobClient.UnusedErrors | job_client/src/lib.rs:26-54 | no read operation ever returns `Json` or `JobNotExist`: `request_jobs` and `get_job_state` for every stage, the fused PC stage included, and the input and output reads for every stage they accept |
| JobClient.NoContentMeansNothing | job_client/src/lib.rs:359-625 | on 204, whatever the body and the decoders: `request_jobs` gives `NotEnoughJobs(count)`, and the state read gives `Ok(None)`, for every stage; the input and output reads give `Ok(None)` for every stage they accept |
| JobClient.FailuresIgnoreDecoders | job_client/src/lib.rs:359-625 | a reply whose status is not 200, 204 or 424 is never decoded by `request_jobs` or `get_job_state` for any stage, nor by the input and output reads for the stages they accept, and those two report it as `FetchOutput(body)` |
| Strings.DecimalString | job_client/src/lib.rs:366 | `to_string` of a number is a non-empty run of decimal digits with no leading zero |
| Strings.DecimalRoundTrip | job_client/src/lib.rs:366 | the decimal text of a number reads back as that number |
| Strings.Replace | job_client/src/lib.rs:364-367 | `replace` of a pattern by itself changes nothing, and replacing a non-empty pattern by one of the same length keeps the length |
| Strings.ReplaceOnce | job_client/src/lib.rs:409-412 | `replace` puts the value in place of a placeholder that occurs once, after placeholder-free text |
| UnsignedVarint.EncodeU64 | filecoin_spec/filecoin_spec/src/lib.rs:63-64 | the in-buffer encoder returns exactly the 7-bit-group varint of the number, 1 to 10 bytes |
| UnsignedVarint.VarintFits | filecoin_spec/filecoin_spec/src/lib.rs:63 | any `u64` encodes in at most 10 bytes |
| UnsignedVarint.DecodeU64 | filecoin_spec/filecoin_spec/src/lib.rs:72 | on success the decoder has consumed 1 to 10 bytes, and the remainder is the rest of the input |
| UnsignedVarint.DecodeEncoded | filecoin_spec/filecoin_spec/src/lib.rs:72 | decoding the encoding of any `u64` followed by any bytes gives the number back, with those bytes as the remainder |
| UnsignedVarint.DecodeIgnoresTrailing | filecoin_spec/filecoin_spec/src/lib.rs:80 | appending bytes after a decodable varint changes only the remainder |
| UnsignedVarint.DecodePrefix | filecoin_spec/filecoin_spec/src/lib.rs:72 | the consumed bytes alone decode to the same value |
| FilecoinSpec.ProverIdFrom | filecoin_spec/filecoin_spec/src/lib.rs:60-67 | the in-place `copy_from_slice` into a zeroed buffer yields the id's varint followed by zeroes, and that buffer decodes back to the provider id |
| FilecoinSpec.StorageProviderIdFrom | filecoin_spec/filecoin_spec/src/lib.rs:70-84 | both decoders (by value and by reference) require a decodable buffer (the `unwrap`); the id is the value of the 1-to-10-byte varint at the front, and later bytes are not read |
| FilecoinSpec.ProverIdRoundTrip | filecoin_spec/filecoin_spec/src/lib.rs:60-76 | every `u64` provider id survives the trip through its prover id |
| FilecoinSpec.ProverIdLayout | filecoin_spec/filecoin_spec/src/lib.rs:60-67 | bytes `[0, len)` hold the varint, with 1 ≤ len ≤ 10, and all later bytes are zero |
| FilecoinSpec.ProverIdInjective | filecoin_spec/filecoin_spec/src/lib.rs:60-67 | distinct providers get distinct prover ids |
| FilecoinSpec.SectorSize | filecoin_spec/filecoin_spec/src/lib.rs:92-105 | total over the ten proofs, and always one of 2^11, 2^23, 2^29, 2^35 or 2^36 |
| FilecoinSpec.SectorSizeConstants | filecoin_spec/filecoin_spec/src/lib.rs:86-90 | the constants are 2 KiB, 8 MiB, 512 MiB, 32 GiB and 64 GiB |
| FilecoinSpec.SectorSizeIgnoresVersion | filecoin_spec/filecoin_spec/src/lib.rs:94-103 | a V1 proof and its V1_1 counterpart have the same size |
| FilecoinSpec.SectorSizeIncreasing | filecoin_spec/filecoin_spec/src/lib.rs:86-90 | within each version the sizes strictly increase, from 2 KiB to 64 GiB |
| LotusMiner.ProofTypeSerialize | lotus/src/types/miner/mod.rs:84-100 | every proof is written as a number in 0..9 |
| LotusMiner.ProofTypeDeserialize | lotus/src/types/miner/mod.rs:102-123 | fails exactly on values above 9, with `invalid_value(v, "[0-9]")` |
| LotusMiner.SerializeFollowsDeclarationOrder | lotus/src/types/miner/mod.rs:84-100 | the i-th declared proof is written as i, and the ten listed proofs are all of them |
| LotusMiner.ProofTypeRoundTrip | lotus/src/types/miner/mod.rs:84-123 | `deserialize(serialize(p)) == Ok(p)` for every proof |
| LotusMiner.ProofTypeIdRoundTrip | lotus/src/types/miner/mod.rs:84-123 | `serialize(deserialize(n)) == n` for every n ≤ 9 |
| LotusMiner.CidSerialize | lotus/src/types/miner/mod.rs:63-70 | the map has exactly one key, `"/"`, holding the CID's text |
| LotusMiner.CidDeserialize | lotus/src/types/miner/mod.rs:72-82 | the `"/"` entry must be present (its absence is the `unwrap` panic); the text parsed is that entry |
| LotusMiner.CidDeserializeIgnoresOtherKeys | lotus/src/types/miner/mod.rs:76-79 | adding or removing entries other than `"/"` does not change what is read |
| LotusMiner.CidRoundTrip | lotus/src/types/miner/mod.rs:63-82 | the text read from a serialized CID is the CID's own text |
| LotusCid.Str2Cid | lotus/src/types/chain/cid.rs:5-9 | the map has exactly one key, `"/"`, mapping to the given text |
| LotusCid.Cid2Str | lotus/src/types/chain/cid.rs:11-18 | `cid2str` and `cidr2str` yield `Some` exactly when `"/"` is a key, and then its value |
| LotusCid.Str2CidRoundTrip | lotus/src/types/chain/cid.rs:5-14 | `cid2str(str2cid(s)) == Some(s)` |
| LotusCid.Cid2StrThenStr2Cid | lotus/src/types/chain/cid.rs:5-14 | rebuilding a map from its text gives the map's `"/"` entry alone, and the map itself when `"/"` is its only key |
| LotusCid.Cid2StrIgnoresOtherKeys | lotus/src/types/chain/cid.rs:11-14 | entries other than `"/"` never change the result |
| Utf8.Encode | lotus/src/types/chain/chain_head.rs:19 | `as_bytes` gives one to four bytes per character |
| Utf8.Decode | lotus/src/types/chain/chain_head.rs:22 | a successful `from_utf8` yields at most one character per byte |
| Utf8.EncodeDecode | lotus/src/types/chain/chain_head.rs:22 | whatever `from_utf8` accepts is exactly the bytes of the text it returns, so with `DecodeEncode` the decoder accepts exactly the encodings of strings |
| Utf8.EncodeConcat | lotus/src/types/chain/chain_head.rs:19-20 | the bytes of a concatenation are the concatenated bytes |
| Utf8.DecodeEncode | lotus/src/types/chain/chain_head.rs:22 | `from_utf8` of a string's bytes gives that string back, so the final check in `key` never fails |
| LotusChainHead.ChainHead.Key | lotus/src/types/chain/chain_head.rs:15-24 | `None` iff some CID lacks `"/"`; otherwise `Some` of the CID texts concatenated in order; `Some("")` for no CIDs |
| LotusRandomness.DomainSeparationTag.ToU8 | lotus/src/types/chain/randomness.rs:17-21 | every code lies in 1..9, so it is never 0 |
| LotusRandomness.CodesFollowDeclarationOrder | lotus/src/types/chain/randomness.rs:5-21 | the i-th declared tag has code i + 1, and the nine tags are all of them |
| LotusRandomness.ToU8Injective | lotus/src/types/chain/randomness.rs:5-21 | no two tags share a code |
| LotusRandomness.SealRandomnessIsFive | lotus/src/types/chain/randomness.rs:27-30 | SealRandomness is 5, PoStChainCommit is 9 and TicketProduction is 1 |

## Left out

- HTTP transport: reqwest, hyper, async/await, the `tracing` logs and the mocked client (with its `todo!()` clone). A reply is a parameter, either a transport failure or a status with body text. A failure while reading the body text is not modelled.
- JSON: serde encoding of request bodies and decoding of replies. Request bodies are kept as typed records, and each reply decoder is a function parameter. A body that does not decode becomes a reqwest decode error, as `response.json()` reports it. Serializing these records cannot fail, so `Error::Json` never arises.
- Error messages: the `thiserror` display strings of `Error` are not modelled.
- Generic job kinds: the type parameter `SealingJobT` of each client operation is modelled by its stage value. Results are the stage-checked envelopes, and the final `.into()` is the matching `JobEnvelope.IntoX`, which those envelopes satisfy.
- The trait bound `SealingJobT::Output: From<JobOutputHttp>` rules out the fused PC stage for `get_job_input` and `get_job_output`; it is modelled as a precondition.
- JobClient.KeyedUriShape: stated only for base URIs with no `:` directly before a lower-case letter (`http://host:8080` qualifies). For other bases the substitution is modelled but its result is not described.
- JobClient.JobsUriShape: the same restriction on the base URI.
- JobClient.RequestUris: the same restriction on the base URI.
- JobClient.KeyedRequestsDistinct: the same restriction on the base URI.
- JobClient.JobsRequestsDistinct: the same restriction on the base URI.
- JobClient.KeyedUri: its own contract covers only templates without placeholders; the substituted form of a keyed route is stated by JobClient.KeyedUriShape, under the restriction above.
- JobClient.JobsUri: likewise, the substituted jobs route is stated by JobClient.JobsUriShape.
- Route constants: written in the model as their placeholders joined together. The text is identical to the source's literals. `GET_ALL_JOBS_URL`, `GENERATE_TICKET_URL` and `GET_SECTOR_PATHS_URL` are defined but no core operation uses them.
- Base64 decoding in serde_with, and JSON decoding of the test fixture, are left out. Only the encoding fact behind the fixture is proved.
- CID parsing and printing by the `cid` crate: a CID is modelled by its text.
- The `unsigned-varint` crate is a dependency whose code is not in the repository. `UnsignedVarint` reproduces its `u64` encoder and decoder from the crate's algorithm, which allows 10 bytes for a `u64`, without the 9-byte cap of the multiformats text. The round trip therefore holds for every `u64`.
- The Lotus JSON-RPC client, charset detection, CBOR marshalling, configuration loading and the data-only schema files. No core operation depends on them.
- Random job ids (UUIDs), and the `Job` trait members `Metadata`, `metadata` and `domain_id`, which have no implementation in the sealing kinds.
- Concurrency bounds (`Send`, `Sync`, `Clone`) and any server-side batching.
