# VORLATH Shield: a byte-level model and its proofs

VORLATH Shield seals messages to a recipient's hybrid identity.  A sender combines an X25519 or X448
exchange with an ML-KEM encapsulation (and, on request, a pre-shared key), derives one AES-256-GCM key
over the whole handshake transcript, and writes a `VRSH` envelope (one message, optionally signed by the
sender) or a `VRST` stream (ordered chunks with a counter and a final flag).  This project models those
procedures on the bytes they read and write, and proves what they promise: the formats have one reading,
opening inverts sealing, the two decoders agree, and, over runs of any length with an active adversary,
nothing opens but what was sealed.

Run `dafny verify dfyconfig.toml` to check the whole project.

## Layout

| file | what it holds |
|---|---|
| `Bytes.dfy`, `Framing.dfy` | bytes, big-endian integers, the errors as a `Result`; u16 and u32 framing, cursor readers and suffix parsers |
| `Primitives.dfy`, `KeyBundle.dfy` | the suite table and the primitives as parameters; `VRSK` key bundles and key-ids |
| `Combiner.dfy` | the flat transcript, the combiner, and what the KDF input determines |
| `Envelope.dfy`, `Sessions.dfy`, `Shield.dfy`, `ShieldTheorems.dfy` | `VRSH`: format, what one sealing computes, `encrypt`, `decrypt`, the pre-shared-key policy |
| `Stream.dfy`, `StreamTheorems.dfy` | `VRST`: `seal_stream`, `open_stream` |
| `AltCodec.dfy`, `Agreement.dfy`, `AltDecoder.dfy` | the second decoder, its agreement with the first, and its procedures proved against the first |
| `World.dfy`, `Runs.dfy`, `RunTheorems.dfy`, `Liveness.dfy` | runs: honest parties, an adversary, the invariant, the claims over whole runs, and what runs can do |
| `Tamper.dfy`, `Negatives.dfy` | the span walkers and tamper transforms of the test-vector generator; its structural negatives and their errors |
| `Outcomes.dfy`, `Interop.dfy` | when `encrypt` and `seal_stream` return at all; which generated identities reach each other |
| `HighAssurance.dfy`, `Signatures.dfy` | the dual and triple signature containers; when detached, dual and triple signatures are true |
| `Manifest.dfy` | the canonical release manifest |

Each procedure that the source writes with a cursor, a loop or an accumulator is a `method` that does the
same steps, proved equal (errors included) to a specification function on the remaining bytes.  The
theorems are about the specification functions, so they hold of the methods.

## How the cryptography is idealised

- X25519/X448, ML-KEM, ML-DSA, AES-256-GCM and SHAKE-256 are a record of total functions (`Prims`), any of
  which may raise.  Hypotheses on them are named predicates: `Lengths` (section 6 of RFC 7748, section 7 of
  FIPS 203), `KeysAgree` (Diffie-Hellman commutes, decapsulation returns the encapsulated secret),
  `SignaturesVerify`, `AeadOpens`.
- HKDF is a term constructor: an AEAD key is exactly the query (hash, input keying material, FixedInfo) that
  made it.  No hash is assumed injective; the two statements about key-ids carry a hypothesis that their
  own two preimages do not collide.
- In a run, the AEAD opens exactly the calls in the run's ledger of sealings, and a signature verifies
  exactly when its key signed that message under that context.  The adversary can have any leg or signing
  key exposed, learn secrets of exposed legs, derive keys from what it knows, seal under keys it derived,
  sign with exposed signing keys, and inject any bytes into any recipient with any pin and policy.  Its limits
  are guards on its steps.  Fresh randomness is a guard on sealing: no earlier session drew the same
  ephemeral key, ciphertext and nonce.
- `Outcomes.EncryptSucceeds` and `Outcomes.SealStreamSucceeds` say when sealing returns, given an AEAD that
  seals every input with a nonce of 8 to 128 bytes and adds 16 bytes (`StreamTheorems.GcmTotal`).
- Randomness (`os.urandom`, key generation, encapsulation, signing) is an argument.

## What turned out to need a condition

- FORMAT.md lines 153-155 call the flat transcript unambiguous because field lengths are fixed per suite.  The
  code pins them only through the primitives: `decrypt` never checks the nonce length, and suite 0x03 has no
  exchange that would reject an ephemeral key of another length.  `Combiner.PreAuthInjective` and
  `Combiner.DeriveKeyInjective` therefore hold in full exactly when the two ephemeral keys have one length,
  which a classical leg guarantees; `Combiner.PureSuiteTranscriptAmbiguous` exhibits two transcripts of suite
  0x03 with one byte string.  `RunTheorems.SignedBytesAgree` states sender authentication with no condition on
  lengths: the signed bytes always agree, the fields agree exactly when their lengths do.
  `RunTheorems.SenderAgreement` is its form for generated 32-byte key-ids, and `Liveness.PureSuiteReached`
  continues any run with a suite 0x03 session to a world in which `decrypt` returns on fields that no session has.
- The round trip of `encrypt` and `decrypt` holds exactly when the recipient's policy admits the pre-shared key
  at hand and the sender matches: its two bundles belong together, its suite shares the recipient suite's
  signature scheme (`encrypt` signs with the recipient suite's scheme, `decrypt` verifies with the sender's), and
  the pin names it.  `RunTheorems.HonestEnvelopesOpen` proves both directions in a run,
  `ShieldTheorems.RoundTrip` outside one (where the converse needs signatures that name their signer), and
  `RunTheorems.OtherSchemeRejected` gives the error at generated bundles of another scheme.
- A signer of one suite reaches a recipient of another exactly when both suites or neither is 0x01
  (`Interop.Delivered`, `Interop.DeliveredInRun`): 0x02 and 0x03 share ML-DSA-87, 0x01 has ML-DSA-65.
- Key-ids hash the concatenation of the parts without their framing, so equal key-ids mean equal parts exactly
  when the parts have equal lengths (`KeyBundle.KidBindsParts`); otherwise two accepted bundles can share one
  (`KeyBundle.KidIgnoresPartBoundaries`).
- A release path that holds a newline followed by the start of a manifest line (a digest and two spaces) can
  imitate a second file: `Manifest.TwoWalksOneText` gives two walks with one manifest text for any two names in
  order.  Whether a given manifest shares its text is exact: with a manifest of plain paths exactly when a path
  imitates and the lines it hides are in order (`Manifest.SharesWithPlainManifest`), and with any list exactly
  when that list groups the same lines (`Manifest.SharedText`).  Paths that imitate nothing, newlines or not, are
  unambiguous (`Manifest.CanonInjective`).
- `decrypt` raises `struct.error`, which is not one of its own errors, exactly for a pre-shared key of 2^16 bytes or
  more that it gets to frame (`Negatives.DecryptRaisesCleanly`, with an input in `Negatives.LongKeyRaises`), and
  `open_stream` exactly for more than 2^32 chunks whose first 2^32 open.
- FORMAT.md section 4.2 lists suites 0x01 and 0x02 for streams; `seal_stream` and `open_stream` also accept
  0x03, and so does the model.

## Model

| member | source | states |
|---|---|---|
| Framing.ReadTlv | vorlath_shield/shield.py:211-219 | every accepted read moves the cursor by at least two bytes and stays inside the buffer |
| Framing.ReadIsTake | vorlath_shield/shield.py:211-219 | the cursor read is the parse of the remaining bytes, errors included |
| Framing.TakeTlvIff | vorlath_shield/shield.py:205-219 | a field is read exactly from its unique encoding: `_read_tlv` and `_tlv` invert each other on all inputs |
| Framing.TakeTlvsIff | vorlath_shield/shield.py:230-249 | any number of fields up to the end of the buffer: parse and print are inverse bijections |
| Framing.TakeFieldsIff | vorlath_shield/shield.py:414-419 | exactly `n` fields and a remainder are read exactly from that list of fields followed by that remainder |
| Framing.ReadFields | vorlath_shield/shield.py:414-419 | the run of cursor reads terminates in bounds with the fields of the specification, or its error |
| Framing.FlatTlvInjective | vorlath_shield/shield.py:311-326 | length framing is injective on lists, so the combiner's input keying material determines its legs |
| Framing.TakeBlobsIff | vorlath_shield/shield.py:636-645 | the chunk walk of a stream body is a bijection with lists of chunks |
| Framing.FlatBlobsInjective | vorlath_shield/shield.py:598-602 | a stream body determines its chunks |
| KeyBundle.ParseIff | vorlath_shield/shield.py:230-262 | a bundle is accepted exactly when it is the serialisation of its fields, in the expected role, with a public key-id that is the fingerprint of the parts |
| KeyBundle.SerializeKey | vorlath_shield/shield.py:230-234 | the appending loop writes the canonical bundle, and raises exactly when a field exceeds 65535 bytes |
| KeyBundle.Shake16 | vorlath_shield/shield.py:223-227 | the incremental hash is the hash of the concatenation |
| KeyBundle.ParseKey | vorlath_shield/shield.py:237-262 | the cursor loop with the recomputed key-id accepts and rejects as specified, on every input |
| KeyBundle.KidBinding | vorlath_shield/shield.py:250-261 | absent a collision of their two fingerprints, accepted public bundles share a key-id exactly when role, suite and key material agree; KEM and signing key-ids never coincide |
| KeyBundle.KidBindsParts | vorlath_shield/shield.py:223-227 | equal key material in equally many parts means equal parts exactly when all parts but the last have equal lengths |
| KeyBundle.KidIgnoresPartBoundaries | vorlath_shield/shield.py:253-259 | for either public role two different byte strings are accepted with one key-id and different parts |
| KeyBundle.GeneratedKeysParse | vorlath_shield/shield.py:284-303 | generated bundles are accepted exactly in their own role, and both halves carry one key-id |
| KeyBundle.RecipientBytes | vorlath_shield/shield.py:284-293 | the generated recipient bundles byte by byte: "VRSK", version 2, suite, role 1 or 2, the fingerprint of label, suite and public parts, and the two parts, of which the pure suite's classical one is empty on both sides |
| KeyBundle.SigningBytes | vorlath_shield/shield.py:296-303 | the generated signing bundles byte by byte, roles 3 and 4 |
| Primitives.PureSuiteIsSuiteTwo | vorlath_shield/shield.py:178-190 | suite 0x03 is suite 0x02's algorithm set without the classical leg |
| Combiner.DeriveKeyStepwise | vorlath_shield/shield.py:307-330 | appending the legs one by one, with or without a pre-shared key, gives the KDF query of the specification |
| Combiner.PreAuthInjective | vorlath_shield/shield.py:333-335 | the unframed transcript determines suite, flags and key-id, and all fields exactly when the ephemeral keys have one length |
| Combiner.DeriveKeyInjective | vorlath_shield/shield.py:324-335 | equal derived keys force equal secrets, pre-shared-key presence and value, suite, flags and key-ids, and equal transcripts exactly when the ephemeral keys have one length |
| Combiner.PureSuiteTranscriptAmbiguous | vorlath_shield/shield.py:333-335 | suite 0x03 has two transcripts with fields of the checked lengths that concatenate to one byte string |
| Envelope.ParseIff | vorlath_shield/shield.py:405-428 | envelope parsing accepts exactly the printed envelopes of known suites and recovers their fields |
| Envelope.PrefixFree | vorlath_shield/shield.py:422-427 | cutting an envelope anywhere or appending anything to it leaves bytes that do not parse |
| Envelope.HeaderInjective | vorlath_shield/shield.py:374-379 | the associated data determines every header field |
| Envelope.ParseBlockIff | vorlath_shield/shield.py:438-442 | a sender block has exactly one encoding; trailing bytes are rejected |
| Shield.EncryptBytes | vorlath_shield/shield.py:339-380 | `encrypt`, step by step, returns the bytes of the specified session, or its error |
| Shield.SignBlock | vorlath_shield/shield.py:362-372 | the authenticated branch signs transcript and own key-id and frames the three fields |
| Shield.SealEnvelope | vorlath_shield/shield.py:374-380 | header, key and sealed bytes are assembled in order, with the length and range errors of the source |
| Shield.ReadEnvelope | vorlath_shield/shield.py:407-428 | the cursor parse finds the envelope and exactly its header bytes |
| Shield.ReadSender | vorlath_shield/shield.py:436-455 | the sender checks accept, reject and bind a key-id as specified |
| Shield.GatePpk | vorlath_shield/shield.py:457-495 | the gate passes exactly on the rows of the policy table (flag, local key, policy), with the local key as third leg exactly when the envelope is bound |
| Shield.GateErrors | vorlath_shield/shield.py:463-490 | which error the gate raises, as a condition on policy, flag and local key for each of the six |
| Shield.DecryptBytes | vorlath_shield/shield.py:383-503 | `decrypt`, step by step, equals its specification on every input |
| ShieldTheorems.RoundTrip | vorlath_shield/shield.py:339-503 | for every suite, any sender bundles and pin, with or without a pre-shared key: `decrypt(encrypt(m))` is `m` if the policy admits the key and the sender matches, it is never anything else, and it returns only then where signatures name their signer |
| Outcomes.EncryptReturns | vorlath_shield/shield.py:349-380 | to a recipient bundle that parses, with exchange and encapsulation returning, `encrypt` returns exactly when the sender arguments are absent or parse, sign and fit their frames, the pre-shared key has at most 65535 bytes and plaintext and tag fit a u32; out of range and a missing public bundle raise their own errors |
| Outcomes.EncryptSucceeds | vorlath_shield/shield.py:284-380 | to a generated recipient, `encrypt` returns exactly when the two primitives do and those conditions hold |
| Interop.GeneratedSenderMatches | vorlath_shield/shield.py:178-203 | the bundles of a generated signer match a recipient's suite exactly when both suites or neither is 0x01, under exactly the pins on that signer |
| Interop.Delivered | test_shield.py:75-83 | between generated identities, with the primitives returning and everything in range, `encrypt` returns and `decrypt` returns its plaintext if both suites or neither is 0x01, and, where signatures name their signer, only then |
| Interop.RunContinues | vorlath_shield/shield.py:339-503 | such runs exist: any run continues with an authenticated `encrypt` between generated identities that share a scheme, if its draw is fresh and its key not yet derived by the adversary, and the recipient opens what it returned |
| Interop.StreamContinues | vorlath_shield/shield.py:570-658 | likewise with a `seal_stream` |
| Interop.DeliveredInRun | vorlath_shield/shield.py:362-503 | inside a run an honest envelope from a generated signer opens to its plaintext if both suites or neither is 0x01, and is a bad signature otherwise |
| ShieldTheorems.VerifyIff | vorlath_shield/shield.py:535-542 | `verify` is true exactly when the bytes are a one-part public signing bundle of a known suite under its own fingerprint and the suite's primitive returned true on that key, message, signature and context |
| ShieldTheorems.SignIsPrimitive | vorlath_shield/shield.py:528-532 | `sign` with a generated private bundle is the suite's primitive on that key, message and context, errors included |
| Signatures.VerifiedWasSigned | vorlath_shield/shield.py:528-542 | in every run, for a key that was not exposed, `verify` is true exactly when a step of the run signed that message under that context with that key, or, under the handshake context, an `encrypt` signed it |
| Signatures.SignedThenVerified | vorlath_shield/shield.py:528-542 | any run continues with a document signature by a generated key that `sign` returns, and `verify` is then true of it |
| Signatures.ExposureForges | vorlath_shield/shield.py:535-542 | the exposure condition is needed: from any run, exposing the key leads, with nothing else changed, to a world in which `verify` is true of any message |
| Signatures.DetachedExact | test_shield.py:105-112 | where signatures bind message and context, a generated key's signature is true of its own message under its own context and of nothing else |
| ShieldTheorems.OwnEnvelopePlan | vorlath_shield/shield.py:383-499 | on its own envelope, for any sender bundles, `decrypt` reaches the sealing key exactly when the sender block is accepted and the policy admits the key, and raises the sender check's error otherwise |
| ShieldTheorems.SenderAccepted | vorlath_shield/shield.py:363-372 | the block a matching sender writes passes every sender check |
| ShieldTheorems.SenderNecessary | vorlath_shield/shield.py:436-455 | where the signature verifies for its own scheme and key alone, only a matching sender's block passes |
| ShieldTheorems.MixedIdentitiesRejected | vorlath_shield/shield.py:363-444 | the private bundle of one generated identity with the public bundle of another: what `encrypt` returns, `decrypt` rejects on the key-id, whatever pin and policy |
| ShieldTheorems.SenderKidOnOwn | vorlath_shield/shield.py:451 | whatever sender is accepted on the block, the key-id bound into the key is the one the sender sealed with |
| ShieldTheorems.SecretsAgree | vorlath_shield/shield.py:352-355 | sender and recipient reach the same two secrets |
| ShieldTheorems.PoliciesPartition | vorlath_shield/shield.py:462-499 | with a key at hand OPTIONAL accepts exactly when one and only one of REQUIRED and FORBIDDEN does, with the same plaintext; REQUIRED opens under that very key as third leg, FORBIDDEN under no third leg |
| ShieldTheorems.AcceptedIsFramed | vorlath_shield/shield.py:412-428 | an accepted byte string is in all its bytes the framing of the one AEAD call it made |
| Stream.ParseHeadIff | vorlath_shield/shield.py:610-624 | stream headers: parse and print are inverse |
| Stream.SplitPlaintext | vorlath_shield/shield.py:593 | the slicing comprehension, with its empty-plaintext fallback, is the chunk specification |
| Stream.SealAll | vorlath_shield/shield.py:596-603 | the sealing loop appends each framed chunk under its own counter and final flag |
| Stream.SealStreamBytes | vorlath_shield/shield.py:570-603 | `seal_stream`, step by step, returns the specified stream, or its error |
| Stream.ReadBlobs | vorlath_shield/shield.py:636-645 | the first pass collects exactly the framed chunks, or raises the specified error |
| Stream.OpenAll | vorlath_shield/shield.py:649-658 | the second pass opens each chunk under the counter of its position |
| Stream.ReadStreamHeader | vorlath_shield/shield.py:610-624 | the cursor parse finds the header fields and exactly the header bytes |
| Stream.OpenStreamBytes | vorlath_shield/shield.py:606-658 | `open_stream` in its two passes equals its specification on every input |
| StreamTheorems.ChunksConcat | vorlath_shield/shield.py:593 | the chunks concatenate to the plaintext and none exceeds the chunk size |
| StreamTheorems.ChunksPartition | vorlath_shield/shield.py:593 | all chunks but the last are full and the last is empty only for the empty plaintext, so there are max(1, ceil of length by size) |
| StreamTheorems.SealChunksSucceeds | vorlath_shield/shield.py:594-602 | sealing succeeds exactly when the chunk count and the longest chunk with its tag are in range |
| Outcomes.SizeRange | vorlath_shield/shield.py:577-578 | `seal_stream` raises its range error exactly for a chunk size below 1 or above 2^32 - 1 |
| Outcomes.SealStreamSucceeds | vorlath_shield/shield.py:577-603 | to a generated recipient, with exchange and encapsulation returning, `seal_stream` returns exactly for a size in range that cuts the plaintext into at most 2^32 - 1 chunks of which the longest fits a u32 with its tag |
| StreamTheorems.OpenSealed | vorlath_shield/shield.py:596-603 | opening the sealed chunks position by position returns their concatenation |
| StreamTheorems.StreamRoundTrip | test_properties.py:86-91 | `open_stream(seal_stream(m, c))` is `m` for every plaintext, the empty one included, and every chunk size |
| StreamTheorems.OpenBlobsInverts | vorlath_shield/shield.py:649-658 | every chunk of an accepted stream was opened at its own position with the right final flag |
| StreamTheorems.OwnStreamPlan | vorlath_shield/shield.py:606-634 | on its own stream `open_stream` reaches the sealing key and the sealed chunks, whatever its opening primitive is |
| AltCodec.ParseKeyBytes | interop/altcodec.py:169-198 | the second key parser's loops equal its specification |
| AltCodec.CollectChunks | interop/altcodec.py:366-377 | the second chunk walk equals its specification |
| Agreement.SameFields | interop/altcodec.py:155-163 | the second decoder's cursor reads are the field parse of the first |
| Agreement.SameKey | interop/altcodec.py:169-198 | both key parsers accept the same bundles with the same fields and raise the same errors |
| Agreement.SameSigKeyId | interop/altcodec.py:201-213 | the recomputed signing key-id is the one the reference reads back, or its error |
| Agreement.SameChunks | interop/altcodec.py:366-377 | both chunk walks agree on every body |
| Agreement.SameOpenChunks | interop/altcodec.py:379-388 | the accumulating loop and the recursion open the same chunks with the same errors |
| Agreement.EnvelopesAgree | interop/altcodec.py:240-320 | on the declared common domain both decoders return the same plaintext or raise the same error, for every byte string |
| Agreement.AcceptanceAgreesExactly | interop/altcodec.py:124-134 | the second decoder's unbound acceptances are exactly the reference's acceptances of the declared suites with a single-part pin, with equal plaintexts |
| Agreement.AltScope | interop/altcodec.py:124-128 | the second decoder opens nothing outside its suites, its part counts and its pins |
| Agreement.StreamsAgree | interop/altcodec.py:326-388 | both stream readers agree, errors included, on every byte string outside suite 0x03 |
| AltDecoder.SigKeyIdBytes | interop/altcodec.py:201-213 | the incremental recomputation returns the key-id the reference reads back from a single-part bundle, or its error |
| AltDecoder.SenderKidBytes | interop/altcodec.py:290-311 | the sender checks return the key-id the reference binds, or its error, on the common domain, and accept nothing outside it |
| AltDecoder.OpenEnvelopeBytes | interop/altcodec.py:240-320 | `open_envelope` returns what `decrypt` returns, errors included, on the common domain; what it opens lies in its suites with two private parts and a single-part pin, and is what `decrypt` opens unless PPK-bound |
| AltDecoder.DecryptChunks | interop/altcodec.py:379-388 | the chunk loop is the reference's opening, position by position |
| AltDecoder.OpenStreamBytes | interop/altcodec.py:326-388 | `open_stream` returns what the reference returns, errors included, outside suite 0x03, where it opens nothing |
| Sessions.CtrInjective | vorlath_shield/shield.py:600 | counter and final flag are determined by the five counter bytes |
| Runs.OneKeyOneDraw | vorlath_shield/shield.py:307-335 | two honest sessions with one derived key drew the same ephemeral key, ciphertext and nonce |
| Runs.EnvelopeIntegrity | vorlath_shield/shield.py:499-503 | whatever `decrypt` accepts under a key the adversary does not hold is byte for byte an honest envelope with its plaintext |
| Runs.StreamIntegrity | vorlath_shield/shield.py:636-658 | among any number of honest streams and envelopes, whatever `open_stream` accepts under a key the adversary does not hold is byte for byte one honest stream with its plaintext |
| Runs.StepKeeps | vorlath_shield/shield.py:339-658 | every step of honest parties or adversary keeps the invariant |
| Runs.RunKeeps | vorlath_shield/shield.py:339-658 | every reachable world satisfies the invariant |
| RunTheorems.NonceUniqueness | vorlath_shield/shield.py:585-602 | in any run mixing envelopes and streams, two AEAD calls that share key and nonce are the same call, and every nonce has 12 bytes |
| RunTheorems.HybridSecrecy | vorlath_shield/shield.py:307-330 | a sealed plaintext reaches the adversary only if every leg mixed into its key (classical if the suite has one, ML-KEM, any pre-shared key) was exposed, whatever it injects |
| RunTheorems.KeyNeedsEveryLeg | vorlath_shield/shield.py:324-330 | a session key in the adversary's hands has every protective leg exposed |
| RunTheorems.EnvelopesOnlyFromSenders | vorlath_shield/shield.py:412-503 | non-malleability: what `decrypt` accepts is an honest envelope in all its bytes, or was opened with a key the adversary holds |
| RunTheorems.StreamsOnlyFromSenders | vorlath_shield/shield.py:636-658 | no reordering, drop, duplicate, truncation, extension or splice of streams is accepted without the key |
| RunTheorems.AcceptedWithUnknownLeg | vorlath_shield/shield.py:324-330 | one leg the adversary lacks is enough: the accepted envelope is an honest one sealed with the same secrets |
| RunTheorems.RequiredNeedsThePpk | vorlath_shield/shield.py:398-403 | under REQUIRED, an adversary without the pre-shared key, whatever else it broke, gets no envelope of its own accepted |
| RunTheorems.SenderAgreement | vorlath_shield/shield.py:365-372 | with generated key-ids: if `decrypt` returns with a pin, of any number of parts, whose key material is trusted, that signer ran `encrypt` with the same suite, flags, recipient key-id and transcript bytes; with the same fields exactly when the ephemeral key has the suite's length; exposing recipient keys does not matter |
| RunTheorems.SignedBytesAgree | vorlath_shield/shield.py:365-372 | with no condition on lengths: if `decrypt` returns with a pin whose key signs handshakes only, that signer ran `encrypt` and signed the same bytes; fields and key-id agree exactly when the field lengths do |
| RunTheorems.PinnedEnvelopeIsSigners | vorlath_shield/shield.py:365-503 | with a trusted pin and one leg the adversary lacks, the accepted bytes are an envelope the pinned signer sealed, with the signer's plaintext |
| Liveness.PureSuiteReached | vorlath_shield/shield.py:131-154 | the length condition is needed at reachable worlds: any run with a suite 0x03 session continues, nothing newly exposed or honestly sealed or signed, to a world where `decrypt` returns with the sender's pin on a transcript that no session has |
| RunTheorems.RecutExists | vorlath_shield/shield.py:333-335 | such an envelope exists for every suite 0x03 envelope, with a nonce of eight bytes or more |
| RunTheorems.PinnedSigner | vorlath_shield/shield.py:443-453 | the embedded key that verified under a pin is the pinned key material, absent a fingerprint collision, and it verified transcript and own key-id |
| RunTheorems.SignatureIsHandshake | vorlath_shield/shield.py:365-372 | a verified handshake signature of a key that signs handshakes only comes from one of its own `encrypt` calls over the same bytes |
| RunTheorems.HonestEnvelopesOpen | vorlath_shield/shield.py:339-503 | the round trip inside a run, for any sender bundles and pin: an honest envelope opens to its plaintext if the policy admits the key and the sender matches, to nothing else, and, if the embedded key signs handshakes only, exactly then |
| RunTheorems.HandshakeExclusive | vorlath_shield/shield.py:443-449 | a signature on a handshake verifies for that handshake's signer only |
| RunTheorems.OtherSchemeRejected | vorlath_shield/shield.py:369-449 | generated sender bundles of a suite with another signature scheme: what `encrypt` returns, `decrypt` rejects on the signature, whatever pin and policy |
| Liveness.HonestStreamsOpen | vorlath_shield/shield.py:570-658 | the stream round trip inside a run: an honest stream opens to its plaintext while the adversary lacks its key |
| Liveness.StreamWithUnknownLeg | vorlath_shield/shield.py:632-658 | one leg the adversary lacks is enough: the accepted stream is an honest one sealed with the same secrets |
| Liveness.RecipientKeyGuarded | vorlath_shield/shield.py:632-634 | a stream's own recipient reads it under the session's key, which one unexposed leg keeps from the adversary |
| Liveness.SecrecyIsTight | vorlath_shield/shield.py:307-330 | from any reachable world, with nothing newly exposed, some continuation discloses a sealed plaintext exactly when every leg mixed into its key may be learnt |
| Tamper.WalkHeaderTlvs | interop/gen_pstv_vectors.py:181-193 | the header walk, which checks only the length bytes, equals its specification |
| Tamper.WalkIff | interop/gen_pstv_vectors.py:181-193 | on every buffer the walk returns exactly the chained spans, each starting where the one before ends with its two length bytes in the buffer, or the unpacking error |
| Tamper.WalkIsParse | interop/gen_pstv_vectors.py:181-193 | wherever the decoder's fields parse, the walk returns exactly their spans |
| Tamper.FieldSpansTile | interop/gen_pstv_vectors.py:181-193 | the spans hold the field values and tile the bytes: each starts where the one before ends, and the last ends where the rest begins |
| Tamper.EnvelopeSpans | interop/gen_pstv_vectors.py:196-201 | the five header spans of an envelope end where its header ends |
| Tamper.SealedRegion | interop/gen_pstv_vectors.py:196-201 | the located region is the sealed bytes `decrypt` opens, and ends the envelope |
| Tamper.SenderBlockSpan | interop/gen_pstv_vectors.py:204-208 | the located span holds the sender block `decrypt` reads |
| Tamper.SenderSubTlvs | interop/gen_pstv_vectors.py:211-220 | the loop returns the value positions and lengths of the specified walk, or its error |
| Tamper.SenderSpans | interop/gen_pstv_vectors.py:211-220 | in a canonical sender block the walk returns the three fields' spans and ends at its end |
| Tamper.StreamHeaderEnd | interop/gen_pstv_vectors.py:223-227 | the located offset is where `open_stream` starts to read chunks |
| Tamper.ChunkSpans | interop/gen_pstv_vectors.py:233-239 | the loop from an offset returns the specified walk, or its error |
| Tamper.WalkChunksIff | interop/gen_pstv_vectors.py:230-239 | on every buffer the chunk walk returns exactly the chained spans that reach its end or past it, or the unpacking error |
| Tamper.StreamChunks | interop/gen_pstv_vectors.py:230-239 | on every stream whose header and body parse, the walk returns exactly the spans of the chunks `open_stream` reads |
| Tamper.WalkChunksIsParse | interop/gen_pstv_vectors.py:230-239 | wherever the body parses, the walk returns exactly the spans `open_stream` reads |
| Tamper.DropChunk | interop/gen_pstv_vectors.py:548-551 | deleting a span removes exactly that chunk from the list and touches nothing else |
| Tamper.DuplicateChunk | interop/gen_pstv_vectors.py:558-564 | inserting a copied span repeats exactly that chunk |
| Tamper.SwapChunks | interop/gen_pstv_vectors.py:534-541 | the two slice assignments swap exactly those two chunks |
| Tamper.AlteredBodyRejected | interop/gen_pstv_vectors.py:512-570 | after an honest stream header, any body but the sealed one is rejected |
| Tamper.TamperedStreamsRejected | interop/gen_pstv_vectors.py:524-570 | dropping any chunk (the final one included), repeating any chunk, or swapping two different chunks of an honest stream is rejected under a key the adversary lacks |
| Tamper.RecipientRejectsTamperedStreams | interop/gen_pstv_vectors.py:524-570 | the stream's recipient rejects them against an active adversary as long as one KEM leg is unexposed |
| Tamper.OnlyOutputsOpen | test_properties.py:107-145 | with no key in the adversary's hands, nothing opens but honest outputs, byte for byte, whatever was flipped, cut, appended or transplanted |
| Tamper.ChangedIsNoOutput | test_properties.py:107-125 | a byte string that keeps an honest envelope's ephemeral key, ciphertext and nonce and is an honest output is that envelope |
| Tamper.TamperedEnvelopesRejected | interop/gen_pstv_vectors.py:417-498 | with one KEM leg unexposed, any change that keeps suite, ephemeral key and ciphertext (flags, sender block, sealed bytes, nonce) is rejected, against an active adversary |
| Envelope.TrailingBytes | interop/gen_pstv_vectors.py:374-385 | bytes after an envelope always fail the exact-length bound |
| Negatives.Truncated | interop/gen_pstv_vectors.py:354-365 | an envelope cut anywhere is rejected, with the error of the place of the cut |
| Negatives.InflatedHeader | interop/gen_pstv_vectors.py:387-400 | a header length that claims more than remains runs past the end |
| Negatives.SuiteMutated | interop/gen_pstv_vectors.py:344-352 | another suite byte is unknown or not the recipient's |
| Negatives.WrongKey | interop/gen_pstv_vectors.py:367-372 | another recipient's key of the same suite is the wrong recipient |
| Negatives.AuthFlagOverNothing | interop/gen_pstv_vectors.py:402-412 | setting FLAG_AUTHENTICATED on an envelope with an empty sender block makes the block under-run |
| Negatives.BlockOverwritten | interop/gen_pstv_vectors.py:440-498 | overwriting the located span, length for length, changes the sender block and nothing else |
| Negatives.BlockTransplanted | interop/gen_pstv_vectors.py:447-476 | a block the same signer wrote for another transcript passes the key-id check and fails on the signature |
| Negatives.SenderSwapped | interop/gen_pstv_vectors.py:478-498 | a claimed key-id that is not the embedded bundle's is rejected before any signature |
| Negatives.WrongPin | interop/gen_pstv_vectors.py:500-507 | a valid authenticated envelope opened with a pin on somebody else is the wrong sender |
| Negatives.StreamHeaderCut | interop/gen_pstv_vectors.py:594-611 | a stream cut inside its header is rejected, with the error of the place of the cut |
| Negatives.StreamCrossChecks | interop/gen_pstv_vectors.py:575-594 | another suite byte, or another recipient's key, on a stream is rejected with its own error |
| Negatives.DecryptRaisesCleanly | test_properties.py:148-174 | on arbitrary bytes, keys, pins and policies `decrypt` raises `struct.error` exactly when the envelope reaches the third leg and the pre-shared key exceeds 65535 bytes |
| Negatives.LongKeyRaises | vorlath_shield/shield.py:326-327 | an input on which it does: an honest bound envelope opened with a longer pre-shared key |
| Negatives.OpenStreamRaisesCleanly | test_properties.py:177-187 | on arbitrary bytes and keys `open_stream` raises it exactly for more than 2^32 chunks whose first 2^32 all open |
| HighAssurance.FramedInjective | vorlath_shield/highassurance.py:69-79 | context framing is injective for contexts up to 255 bytes |
| HighAssurance.LegAtIsBlob | vorlath_shield/highassurance.py:113-117 | a leg whose slice clipped leaves the cursor past the end; otherwise it is a framed leg |
| HighAssurance.LegsIff | vorlath_shield/highassurance.py:213-223 | legs read up to the exact end are exactly the framed legs |
| HighAssurance.ContainerUnique | vorlath_shield/highassurance.py:100-104 | a container has one reading |
| HighAssurance.DualVerify | vorlath_shield/highassurance.py:107-123 | true exactly on the bytes of a canonical container whose two legs the ML-DSA and SLH-DSA primitives accepted on this message, each under its own context; lying lengths and trailing bytes are never true |
| HighAssurance.TripleVerify | vorlath_shield/highassurance.py:204-231 | true exactly on the bytes of a canonical container whose three legs all three primitives accepted on this message |
| HighAssurance.DualIsNotTriple | vorlath_shield/highassurance.py:26-27 | no blob is valid both as a dual and as a triple signature |
| HighAssurance.ParseTaggedIff | vorlath_shield/highassurance.py:61-66 | a diversified key bundle is read exactly from its encoding, for the known parameter ids |
| HighAssurance.HaVerifyIff | vorlath_shield/highassurance.py:89-96 | true exactly when the bytes are an SLH-DSA public bundle of a known parameter set and the primitive returned true on the framed context and message |
| HighAssurance.EcVerifyIff | vorlath_shield/highassurance.py:174-181 | likewise for EdDSA |
| HighAssurance.DualValidIff | vorlath_shield/highassurance.py:107-123 | a dual signature is valid exactly when both primitives accepted its legs on the message |
| HighAssurance.TripleValidIff | vorlath_shield/highassurance.py:204-231 | a triple signature is valid exactly when all three primitives did |
| HighAssurance.ContextsSeparate | vorlath_shield/shield.py:91-92 | the document, handshake and diversified contexts are the stated labels and pairwise different |
| HighAssurance.DualSignReturns | vorlath_shield/highassurance.py:100-104 | with generated keys `dual_sign` returns exactly when both primitives do and their signatures fit a u32, and then it returns their container |
| HighAssurance.TripleSignReturns | vorlath_shield/highassurance.py:185-201 | likewise for `triple_sign` and three primitives |
| Signatures.DualWasSigned | vorlath_shield/highassurance.py:107-123 | in every run, a dual signature that verifies on an ML-DSA key that was not exposed is on a message that key signed as a document: no handshake passes for that leg |
| Signatures.TripleWasSigned | vorlath_shield/highassurance.py:208-213 | likewise for the triple: the ML-DSA leg alone forces the message |
| Signatures.HaExact | vorlath_shield/highassurance.py:69-96 | where SLH-DSA binds its message, a signature is true of its own message and context and of nothing else |
| Signatures.EcExact | vorlath_shield/highassurance.py:167-181 | likewise for EdDSA |
| Signatures.DualExact | vorlath_shield/highassurance.py:100-123 | what `dual_sign` returned verifies for its own message only, as long as one of its two primitives binds |
| Signatures.TripleExact | vorlath_shield/highassurance.py:185-231 | likewise for `triple_sign`, as long as one of the three does |
| HighAssurance.MlRoundTrip | vorlath_shield/shield.py:528-542 | with generated bundles, what `sign` returns `verify` accepts, under any context |
| HighAssurance.HaRoundTrip | vorlath_shield/highassurance.py:82-96 | likewise for generated SLH-DSA bundles |
| HighAssurance.EcRoundTrip | vorlath_shield/highassurance.py:167-181 | likewise for generated EdDSA bundles |
| HighAssurance.DualRoundTrip | vorlath_shield/highassurance.py:100-123 | with generated keys, what `dual_sign` returns is a valid dual signature |
| HighAssurance.TripleRoundTrip | vorlath_shield/highassurance.py:185-231 | with generated keys, what `triple_sign` returns is a valid triple signature |
| HighAssurance.SignThenVerify | test_highassurance.py:40-45 | sign with generated keys, then verify: each verifier returns true exactly when its signer returned |
| Manifest.LessIff | release/make_bundle.py:82 | one path comes before another exactly when, at the first place where they differ, it has ended or holds the smaller code point |
| Manifest.Insert | release/make_bundle.py:82 | sorted insertion keeps the entries, orders each path by its first difference from the next, and leaves equal paths in their order |
| Manifest.BuildManifest | release/make_bundle.py:79-85 | the collecting loop, the sort and the join give the canonical text of a stable sorted permutation of the walk, in which each path equals the next or has ended or is smaller where they first differ |
| Manifest.SortedUnique | release/make_bundle.py:82 | entries with distinct paths have one sorted order |
| Manifest.OrderDoesNotMatter | release/make_bundle.py:79-86 | the digest pre-image does not depend on the order of the directory walk |
| Manifest.CanonInjective | release/make_bundle.py:85-86 | if no path imitates a line, equal pre-images come from equal entries |
| Manifest.ImitationAmbiguous | release/make_bundle.py:85 | every list with an imitating path shares its pre-image with a second, longer list of entries |
| Manifest.TwoWalksOneText | release/make_bundle.py:79-86 | for any two paths in order, one file with an imitating path and the two files are manifests with one pre-image |
| Manifest.BuildBoth | release/make_bundle.py:79-86 | building both walks yields different manifests and one pre-image |
| Manifest.SharedText | release/make_bundle.py:85-86 | a list of entries has a manifest's pre-image exactly when it groups the lines of the pre-image's imitation-free reading |
| Manifest.SharesWithPlainManifest | release/make_bundle.py:82-86 | a manifest shares its pre-image with another manifest of plain paths exactly when one of its paths imitates and the imitation-free reading is sorted with distinct paths |
| Manifest.Reading | release/make_bundle.py:85-86 | every pre-image has a reading without imitation, and it is the list itself exactly when no path imitates a line |

## Left out

- RunTheorems.SenderAgreement: for suite 0x03 agreement on ephemeral key, ciphertext and nonce field by field is stated only where the ephemeral key has the suite's length, because `decrypt` does not check it there (Liveness.PureSuiteReached). It asks for 32-byte key-ids in the recipient's private bundle and in the signer's own handshakes, as key generation makes them: `_parse_key` does not check the key-id of a private bundle. RunTheorems.SignedBytesAgree drops both conditions and says exactly when the fields agree.
- ShieldTheorems.RoundTrip: outside a run the necessity of a matching sender rests on the hypothesis that a signature verifies for its own scheme and key alone; in a run it is proved.
- Tamper.TamperedEnvelopesRejected: changes to the ephemeral key or the ciphertext make another handshake, which an active adversary may have run itself; those are covered by Tamper.OnlyOutputsOpen and RunTheorems.EnvelopesOnlyFromSenders.
- Signatures.DetachedExact: outside a run, that a signature binds message and context is a hypothesis on the primitive; in a run it is proved (Signatures.VerifiedWasSigned).
- Signatures.DualWasSigned: the SLH-DSA and EdDSA keys are not in the run's ledger, so inside a run the theorem rests on the ML-DSA leg; that any one leg suffices is Signatures.DualExact and Signatures.TripleExact.
- Outcomes.SizeRange: that no library raises the program's own error about chunk sizes is a hypothesis.
- Negatives.DecryptRaisesCleanly: that the libraries raise no `struct.error` of their own is a hypothesis.
- Negatives.BlockTransplanted: that a signature verifies for no other message is a hypothesis on the primitive there; in a run, where a signature verifies exactly when its key signed the message, a grafted signature is caught by the AEAD instead (Tamper.TamperedEnvelopesRejected).
- The mathematics of HKDF, AES-GCM, ML-KEM, ML-DSA, SLH-DSA, EdDSA and the curves: the libraries are not part of this model.
- Computational bounds: signatures and AEAD are ideal ledgers, so negligible forgery and collision probabilities do not appear.
- Replay, freshness and recipient forward secrecy: excluded by the design (FORMAL_COVERAGE.md line 66).
- `isinstance` checks, Python types and the text of the error messages: each `raise` is an error constructor, which is finer than the vectors' categories.
- Pre-shared-key envelopes and suite 0x03 in the second decoder: it declares them out of its scope.
- In-place update of `bytearray`: the tamper transforms rebind a local byte sequence, so aliasing is not captured.
- `list.sort` is modelled as insertion into a sorted list; the directory walk, glob matching, file hashing and JSON output of the release script are not modelled.
- `encrypt_classical_only`, the command line, the passphrase wrap, `release/sign_lms.py` and the side-channel statistics.
