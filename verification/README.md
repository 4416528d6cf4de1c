# Verilore: what its memory proofs promise

This project models the parts of Verilore that make statements about a memory archive and check them again
later, and proves what those statements are worth.

A Memory Pack is a JSON artifact of claims, evidence, sources, conflicts and changes. From a pack the system mints a
*proof* for one claim key and a *receipt* that answers one question; both carry digests, and both can be verified
offline against the pack alone. The main results say exactly when such a document verifies: soundness (what a verified
document guarantees, field by field), exact completeness (when an honestly minted document verifies, with an instance
for each case in which it does not), independence of list order, and detection of alterations. SHA-256 and the reader
of ISO 8601 instants are parameters (`Library`) about which nothing is assumed: where a result rests on a digest, it
is stated as "or here are two texts with one digest".

A second ring of components is modelled in the form the source has them, as loops and stateful objects: the keyset
feed and its traversal under concurrent inserts, the chunker, the local runtime with its clients, the live end of a
supersession chain, the retry loop of the remote client and the context budget of `/ask`.

## How the files are arranged

| file | holds |
|---|---|
| `Common.dfy`, `Ordering.dfy`, `Text.dfy` | results, last-writer-wins dictionaries, `sorted`, `join`/`split`/`strip` |
| `Json.dfy`, `JsonText.dfy` | JSON values, the canonical printer and a parser for it; the text it prints, character by character |
| `Instants.dfy` | digests, instants, half-open validity intervals |
| `Pack.dfy`, `PackReading.dfy`, `PackReport.dfy` | the Memory Pack, its reader, `all_claims` and `verify`; what a pack that was read says of its document; which problems are reported |
| `Proof.dfy`, `Verifier.dfy`, `VerifierLoop.dfy`, `ProofTheorems.dfy` | minting a proof, the verifier as functions and as loops, its soundness |
| `ProofVerdict.dfy`, `ProofDocument.dfy` | what a verdict lists, over the JSON of the proof; what a minted proof says, over the JSON of the pack |
| `Completeness.dfy`, `HonestRejections.dfy`, `OrderIndependence.dfy` | when a minted proof verifies; the exceptions; list order |
| `Exceptions.dfy` | when minting and verifying raise; documents at which a caller is surprised |
| `Receipt.dfy`, `ReceiptVerifier.dfy`, `ReceiptTheorems.dfy` | the same for receipts, and the selection of the claim to answer with |
| `ReceiptReport.dfy`, `ReceiptDocument.dfy` | the four lists of a receipt's verdict, over the JSON of the receipt; what a minted receipt says, over the JSON of its proof |
| `Bundle.dfy`, `BundleReport.dfy`, `Response.dfy` | the receipts of a whole response and the text they are bound to |
| `Feed.dfy` | the change feed and its traversal |
| `Frames.dfy`, `Runtime.dfy`, `RuntimeSystem.dfy` | the local runtime: frames, one server, many clients and servers |
| `Chunker.dfy`, `Context.dfy`, `History.dfy`, `Retry.dfy` | the smaller loops |

A method with a loop is specified by a function of its inputs, and the results are then proved about that function.
The files named `…Reading`, `…Document`, `…Report` and `…Verdict` state each document and each verdict a second time, from
the JSON values by the names of their fields and without the functions that compute them, and prove the two the same.
Where the original raises, the model returns an error value. Text is a sequence of code points.

## What the proofs brought to light

* An honest proof is rejected in two cases on a well-formed pack (`HonestRejections`): a superseded claim was left
  CURRENT, or a claim under the key was observed after `as_of`. An honest receipt is rejected besides when no claim
  under the key was in force at `valid_at`. These instances start from JSON documents and also show that the
  hypotheses of the completeness theorems can be met.
* A REST body with its diagnostics does not carry the digest its receipt names: the verifier takes out `receipt`
  only (`memory_receipt.py:535`), so the bundle minted for the answer verifies against the authoritative dump, and
  against the body as it was received it gives the verdict that the digest does not match
  (`Response.WireBodyMismatch`, with an instance in `Exceptions.WireBodyRejected`). Likewise nothing is taken out of a
  pack that was read before (`Bundle.ReadyPackKeepsReceipt`). `MemoryResponse` and `MemoryWire` do have one canonical
  text. The comment at `api/models/memory.py:237` speaks of three diagnostics that are left out of it; the code leaves
  out four (`Response.OmittedByName`).
* On the read path a runtime of another build makes the client raise `build_mismatch`; the comment at
  `verilore_sdk.py:353-358` says that such a runtime is discarded and the work done in-process, and the
  documentation at line 327 that the call never raises. Only the write path falls back on another build
  (`Runtime.MismatchSettles`), and on either path a matching runtime whose operation fails makes the client raise that
  failure (`Runtime.SettlesInError` gives the exact condition).
* A write whose reply is lost, or comes too late, is done again in process (`verilore_sdk.py:746-747`): the runtime and
  the client both do the work exactly when the runtime did it and the client got no reply
  (`RuntimeSystem.DoneTwiceExactly`, with a run in `RuntimeSystem.LostReplyIsDoneTwice`).
* The shutdown request by which a client means to discard a mismatched runtime carries the client's own build and
  database, and the runtime checks those before it looks at the operation, so it refuses
  (`Runtime.ShutdownNeedsAMatch`); in no run does such a request stop a runtime
  (`RuntimeSystem.StaleProcessIsNeverDiscarded`).
* `from_dict` accepts a pack whose `evidence` or `sources` is `null`, `false` or `0`, and then neither minting nor
  verifying gets through. It accepts a `null` `state` too; then minting raises exactly when the caller does not give
  both instants, and verifying does not look at it. `Exceptions.MintRaisesExactly`,
  `Exceptions.VerifyRaisesExactly` and `Exceptions.ReceiptRaisesExactly` give the exact conditions, `Exceptions.NullRowsRaise` and
  `Exceptions.NullStateNeedsInstants` the documents.
* A proof whose `superseded_by` mixes text with numbers, or holds two nulls, loads, and verifying it raises instead of
  rejecting it, because the list is sorted first (`memory_proof.py:453`, and for receipts `memory_receipt.py:411`);
  `Exceptions.UnsortableLineageRaises` has the documents, and the condition is part of
  `Exceptions.VerifyRaisesExactly`.
* `supersedes` and `superseded_by` are inverse except at one input: a claim with the empty id, which `from_dict`
  accepts, is superseded by a claim that does not list it as replaced (`Proof.LineageIsInverse`,
  `Exceptions.EmptyIdBreaksLineage`).
* A proof reads the last source recorded for a version and the receipt verifier the first
  (`memory_proof.py:322`, `memory_receipt.py:355-358`); completeness of receipts therefore asks both to agree, and
  `Exceptions.TwoSourcesSplit` has a pack whose proof verifies and whose receipt does not.
* A timeline has no live end exactly when each of its claims replaces a claim of it, no two the same one
  (`History.NoTailExactly`). The history then closes with "nothing recorded" below the claims it has just listed
  (`cli/render.py:410-412`); two claims that name each other as replaced are enough for it.

## Model

| member | source | states |
|---|---|---|
| Json.CanonicalRoundTrip | memory_pack.py:334-342 | Reading the sorted, compact text of any value gives the value back, with string escapes as in section 7 and objects as in section 4 of RFC 8259. |
| JsonText.PlainText | memory_pack.py:334-342 | A text with no quote, no backslash and no character below U+0020 prints as itself between quotes. |
| JsonText.TextInPieces | memory_pack.py:334-342 | The text between the quotes is put together from what each character prints as alone, in order. |
| JsonText.ShortEscapes | memory_pack.py:334-342 | The quote, the backslash and the five short control escapes print as the two characters of section 7 of RFC 8259. |
| JsonText.ControlEscape | memory_pack.py:334-342 | Every other character below U+0020 prints as `\u00` and its two lower-case hexadecimal digits. |
| JsonText.ConstantText | memory_pack.py:334-342 | Null and the truth values print as `null`, `true` and `false`. |
| JsonText.IntegerText | memory_pack.py:334-342 | An integer prints as a minus sign if it is negative and then its decimal digits without a leading zero. |
| JsonText.ArrayText | memory_pack.py:334-342 | An array prints as its elements between brackets with a comma and nothing else between them. |
| JsonText.ObjectText | memory_pack.py:334-342 | An object prints as its members between braces, each name, colon and value, with nothing else between them, and the names ascend strictly by code point. |
| Json.CanonicalInjective | memory_proof.py:85-93 | Two values have the same canonical text exactly when they are the same value. |
| Json.KeyOrderIrrelevant | memory_proof.py:85-93 | The order in which an object's members were written does not show in its canonical text. |
| Json.SortableExactly | memory_proof.py:453 | A list can be sorted exactly when it has at most one element or is all text, all numbers and booleans, or lists whose first differences can be compared. |
| Json.FalsyExactly | memory_proof.py:212 | Exactly null, false, 0, the empty text, the empty list and the empty dictionary are falsy. |
| Json.PyEqExactly | memory_proof.py:349-354 | Two values are equal to Python exactly when they are the same up to writing truth values as numbers, at any depth. |
| Instants.DigestIdentifies | memory_pack.py:344-350 | Equal digests mean equal values, unless two different canonical texts are exhibited that share a digest. |
| Instants.IntervalTestsAgree | memory_proof.py:203-222 | The proof's interval test and the receipt's agree on every instant, and both mean begin <= instant < end with absent bounds open; they differ only in None against False on an unreadable instant. |
| Instants.SpellingIrrelevant | memory_proof.py:225-231 | `Z` and `+00:00` (section 5.6 of RFC 3339) spell the same instant. |
| Instants.ReplacesEveryZ | memory_proof.py:225-231 | What is parsed has every `Z` replaced by `+00:00` and is otherwise as written. |
| Instants.MomentReads | memory_receipt.py:111-125 | Anything but a non-empty text is no instant, and a text is read by the parser as written, up to `Z`. |
| Instants.AdjoiningIntervalsPartition | memory_receipt.py:128-137 | Consecutive half-open intervals contain every instant of their span exactly once. |
| Common.IndexHoldsLast | memory_pack.py:371-383 | A dictionary filled by overwriting has a key exactly when some element carries it, and holds the last such element. |
| Ordering.SortByPermutation | memory_proof.py:123-149 | Sorting by a key that identifies its elements gives one result for all permutations of the input. |
| Ordering.LessIsCodePointOrder | memory_proof.py:85-93 | The order of keys and ids is by code points: a proper beginning comes first, and otherwise the first difference decides. |
| Ordering.SortByStable | memory_proof.py:147-149 | Sorting keeps the order of elements with equal keys. |
| Pack.RawRowsAgree | memory_pack.py:259-321 | The typed evidence and source rows of a pack that was read agree one by one with the raw rows the verifiers walk. |
| PackReading.ReadPackHolds | memory_pack.py:198-321 | A pack that was read says what its document says, position by position and under the literal key of each field: all twelve fields of every claim in the three lists, in conflicts and on both sides of changes, and every field of evidence rows, sources, conflicts and changes. |
| PackReading.ReadExactly | memory_pack.py:186-321 | The reader accepts exactly the documents of version 1 with texts for `query` and `corpus` whose lists are falsy or arrays of records with the required fields of the right type. |
| Pack.CollectClaims | memory_pack.py:371-383 | The nested overwriting loops compute `AllClaims`. |
| Pack.AllClaimsAscending | memory_pack.py:371-383 | The claims of a pack come strictly ascending by id. |
| Pack.AllClaimsLastOccurrence | memory_pack.py:371-383 | They are exactly the last occurrence of each id over the five places where claims occur, and every occurring id is among them. |
| PackReport.LaterPlaceWins | memory_pack.py:371-383 | Of two occurrences of an id the later one counts: later in its list, or in a list that is walked later, in the order current, historical, uncertain, conflicts, changes. |
| Pack.CheckRows | memory_pack.py:402-436 | The loop over evidence rows reports every row problem, in row order. |
| Pack.CheckClaims | memory_pack.py:402-436 | The loop over the claims reports every reference problem, and gives up exactly on a cited id that is not text. |
| Pack.VerifyPack | memory_pack.py:402-436 | `verify` computes the list of problems of the pack. |
| Pack.NoProblemsMeansClosed | memory_pack.py:402-436 | That list is empty exactly when references are closed in both directions, offsets span their quotes, and a truncated pack keeps authoritative content. |
| PackReport.ProblemsExactly | memory_pack.py:402-436 | For every pack that was read, each of the six problems is listed exactly where its condition on the claims and rows holds, claim by claim, then row by row, then the truncation; the check raises exactly on a cited id that is not text. |
| Proof.GroupRows | memory_proof.py:129-132 | Grouping evidence rows in one pass files under each claim exactly its rows, in pack order. |
| Proof.BuildProof | memory_proof.py:111-200 | The construction loops build the document of `Mint`, or fail as it does. |
| ProofDocument.ProofTold | memory_proof.py:111-200 | From the document of a pack that was read: the head of the minted proof, and for each claim under the key, ascending by id, an entry whose claim, document, temporal, evidence and lineage fields are the named fields of that claim's row, of the last source row of its version, of all its evidence rows by id, and of the claims that replace it. |
| Proof.MintedRows | memory_proof.py:111-200 | A proof cites for a claim exactly the pack's rows for it. |
| Proof.MintedSuperseders | memory_proof.py:234-245 | A proof lists as successors exactly the other claims that name this one as replaced. |
| Proof.LineageIsInverse | memory_proof.py:234-245 | Between distinct claims, `superseded_by` of one is the inverse of `supersedes` of the other exactly unless the one has the empty id and the other names it. |
| VerifierLoop.CheckIdentity | memory_proof.py:329-374 | The identity block, including both places where it gives up on the entry, appends exactly the identity reasons and clears its flag exactly when there are any. |
| VerifierLoop.CheckEvidence | memory_proof.py:376-395 | So does the loop over cited rows with its own early continue. |
| VerifierLoop.CheckTemporal | memory_proof.py:397-435 | So does the temporal block, which also appends the notes. |
| VerifierLoop.CheckStatus | memory_proof.py:437-463 | So does the comparison of status and lineage; an entry whose lineage cannot be sorted does not get this far, because reading it already fails. |
| VerifierLoop.VerifyProof | memory_proof.py:292-470 | The loop with its four flags, reasons and notes returns the verdict of the relational verifier on every document, or fails as it does. |
| VerifierLoop.FlagsMean | memory_proof.py:326-468 | After any entries each flag is true exactly when every entry so far passed that check, or never reached it. |
| VerifierLoop.ReasonsCollected | memory_proof.py:301-463 | The reasons are the two digest reasons followed by each entry's, in order. |
| ProofVerdict.LoadsExactly | memory_proof.py:272-289 | Which documents load as proofs. |
| ProofVerdict.VerdictExactly | memory_proof.py:292-470 | Every verdict, over the JSON of the proof: each reason is listed exactly where its own condition on claim and entry holds, in order, and the notes name exactly the claims that are CURRENT, found under their key, and not valid at a readable `valid_at`. |
| ProofVerdict.FlagsByReasons | memory_proof.py:326-468 | Each check fails exactly when one of its own reasons is listed. |
| ProofTheorems.IdentityExact | memory_proof.py:333-374 | An entry passes the identity check exactly when the artifact holds a claim with its id, key, text, value and version, from the document it names. |
| ProofTheorems.RowExact | memory_proof.py:376-395 | A cited row passes exactly when the artifact's last row under its id belongs to this claim and version and has the same text. |
| ProofTheorems.StatusExact | memory_proof.py:437-463 | The status check passes exactly when the status agrees, the lineage is the artifact's as a multiset, and nothing superseded is CURRENT. |
| ProofTheorems.TemporalExact | memory_proof.py:397-435 | The temporal check passes exactly when a recorded in-force flag (an absent one passes) says whether begin <= instant < end, and the claim was observed by a readable `as_of`. |
| ProofTheorems.VerifiedIsAllChecks | memory_proof.py:465-470 | The verdict is positive exactly when all six checks are; notes never matter. |
| ProofTheorems.FlagsExact | memory_proof.py:326-468 | Each flag holds exactly when its relational condition holds of every entry that reaches the check. |
| ProofTheorems.VerifiedExactly | memory_proof.py:292-470 | Soundness and its converse: a document is verified exactly when its digest and the artifact's agree and every entry is genuine, in content, provenance, evidence, instant, status and lineage. |
| Completeness.MintedEntryRoundTrip | memory_proof.py:150-181 | Reading a minted entry back gives what was minted. |
| Completeness.MintedLoads | memory_proof.py:100-108 | The digest is the same before and after it is inserted, so a minted proof loads and is intact. |
| Completeness.ProofCompleteness | memory_proof.py:292-470 | For every pack: a proof checked against the pack it was minted from is verified exactly when no claim under the key is CURRENT yet superseded or observed after `as_of`, and the pack's own records of those claims agree. |
| Completeness.WellFormedProofCompleteness | memory_proof.py:292-470 | With unique evidence ids, matching versions and matching paths, only the first two conditions remain. |
| Completeness.MintedBindsArtifact | memory_proof.py:312-318 | A proof minted from one pack verifies against another only if they are the same value up to key order, or a digest collision is exhibited. |
| Completeness.AlterationDetected | memory_proof.py:305-310 | Two intact proofs with one digest are the same document up to key order, or a collision is exhibited. |
| HonestRejections.SupersededCurrentRejected | memory_proof.py:461-463 | A pack whose honest proof is rejected because a replaced claim was left CURRENT. |
| HonestRejections.LateObservationRejected | memory_proof.py:424-435 | For any two instants in that order, a pack whose honest proof is rejected because its claim was observed after `as_of`. |
| HonestRejections.NothingInForceRejected | memory_receipt.py:387-397 | For any two instants in that order, a pack whose honest receipt is rejected because nothing was in force at `valid_at`. |
| OrderIndependence.AllClaimsOrderFree | memory_pack.py:371-383 | Moving claims between or within the lists of a pack with unique ids changes nothing in `all_claims`. |
| OrderIndependence.ProofOrderFree | memory_proof.py:111-200 | Nor in whether a proof is minted, nor anything in it except the digest of the artifact, also when evidence and source rows are permuted. |
| OrderIndependence.AnswerOrderFree | memory_receipt.py:192-279 | Nor in whether there is a receipt, which claim it answers with and what it cites for it. |
| OrderIndependence.PermutedDocument | memory_pack.py:259-321 | Permuting the lists of a JSON document whose ids identify its records gives a pack to which these three results apply. |
| Receipt.SelectionOrder | memory_receipt.py:140-189 | The selected entry is the documented one: in force, preferring the first CURRENT entry if it is; else first among the latest observed by `as_of`; else the first CURRENT one, else the first. |
| Receipt.SelectionRaises | memory_receipt.py:140-189 | The selection raises exactly when an unreadable `as_of` has to decide between readable observations. |
| Receipt.SelectionIgnoresSpelling | memory_receipt.py:140-189 | Respelling any instant, in the entries or in the question, leaves the selected position unchanged. |
| ReceiptDocument.SelectionOnDocument | memory_receipt.py:140-189 | The same preferences, stated on the entries as the JSON of the proof carries them, select the claim to answer with. |
| ReceiptDocument.ReceiptTold | memory_receipt.py:192-279 | Every field of a minted receipt, by its key: the claim, document, quotes, lineage and validity of the selected entry, the state and digests of the proof, the ids of all entries ascending, the proof itself if asked for, and the two digests over query and body. |
| ReceiptTheorems.MintedReceiptRoundTrip | memory_receipt.py:98-108 | Reading a minted receipt back gives what was minted, with its id equal to the digest of what remains without the id. |
| ReceiptVerifier.CollectRows | memory_receipt.py:373-385 | The loop over quoted rows collects exactly the ownership flaws. |
| ReceiptVerifier.CheckReceipt | memory_receipt.py:301-432 | The collecting code returns the verdict of the relational receipt verifier on every document, or fails as it does. |
| ReceiptReport.ReceiptVerdictExactly | memory_receipt.py:301-432 | The four lists over the JSON of the receipt: each flaw is in its own list exactly where its condition holds, and `proof_verified` is the verdict on the embedded proof. |
| ReceiptReport.ListsSeparate | memory_receipt.py:301-305 | Integrity is empty exactly when id, query and artifact digests and the embedded proof hold; provenance exactly when the claim, its answer and every quote are the artifact's; temporal and supersession each exactly when their own condition holds; and they say nothing when no claim is found. |
| ReceiptTheorems.ReceiptVerifiedExactly | memory_receipt.py:301-432 | A receipt document that gets a verdict is verified exactly when it is intact, bound to query and artifact, its embedded proof verifies against the same artifact, and its answer, document, quotes, instant, status and lineage are the artifact's. |
| ReceiptTheorems.ReceiptCompleteness | memory_receipt.py:301-432 | For every pack: a minted receipt is verified exactly when its embedded proof (if included) is, the pack's own records of the answered claim agree, and no instant was asked about or some claim under the key was in force then. |
| ReceiptTheorems.WellFormedReceiptCompleteness | memory_receipt.py:301-432 | On a well-formed pack only the embedded proof and the instant decide. |
| ReceiptTheorems.ReceiptBindsArtifact | memory_receipt.py:324-328 | A receipt minted from one pack verifies against another only if they are the same value up to key order, or a digest collision is exhibited. |
| ReceiptTheorems.ReceiptAlterationDetected | memory_receipt.py:315-318 | Two intact receipts with one `receipt_id` are the same document up to key order, or a collision is exhibited. |
| Bundle.VerifyResponseReceipt | memory_receipt.py:521-552 | The loop over receipts returns the bundle verdict, or fails as it does. |
| Bundle.NoFailures | memory_receipt.py:521-552 | A bundle has no failed receipt exactly when each of its receipts verifies. |
| Bundle.StripRestores | memory_receipt.py:521-552 | Taking the receipt out of a response that carries it restores the response. |
| Bundle.BundleEndToEnd | memory_receipt.py:472-518 | The bundle minted for a response, checked against the response carrying it, has the right digest and query binding, and is verified exactly when the receipt of every current key is. |
| Bundle.BundleBindsArtifact | memory_receipt.py:538 | A bundle minted for one response verifies against another artifact only if they are the same value up to key order, or a digest collision is exhibited. |
| Bundle.ReadyPackKeepsReceipt | memory_receipt.py:532-535 | A pack that was read before is not stripped: read from a response that carries its receipt, it gets a verdict, and the digest matches exactly if a collision is exhibited. |
| BundleReport.BundleTold | memory_receipt.py:472-518 | Every field of the bundle of a response, by its key: the keys of the current claims ascending, one receipt for each in that order, their ids, both questions with their digests, the instants and the digest; and there is none exactly when no claim is current. |
| BundleReport.BundleVerdictExactly | memory_receipt.py:521-552 | The verdict on a bundle: both digest comparisons, the number of receipts, and exactly the receipts that are not verified, in order, each with its id. |
| BundleReport.ReadWithoutReceipt | memory_receipt.py:532-535 | The artifact is the document without `receipt` and with everything else, or the ready pack as it is. |
| BundleReport.BundleRaisesExactly | memory_receipt.py:521-552 | A bundle gets a verdict exactly when the artifact is read, the receipts can be walked and each gets a verdict. |
| BundleReport.AnswerRaisesExactly | memory_receipt.py:472-518 | A response that was read is answered exactly when a receipt can be minted for the key of every current claim. |
| Response.CanonicalJson | api/models/memory.py:232-253 | Popping the receipt and then the diagnostics one by one leaves the text without exactly those keys. |
| Response.OmittedByName | api/models/memory.py:225-246 | The text leaves out `receipt`, `match_status`, `match_margin`, `candidates` and `unmatched_subparts`, and nothing else. |
| Response.DumpedByName | api/models/memory.py:225-253 | Which fields each of the two dumps holds, and with which values. |
| Response.CanonicalTextIsTheAnswer | api/models/memory.py:298-320 | Response and wire form have one canonical text whatever their diagnostics, and two responses share it exactly when their answers are equal. |
| Response.StrippedDigest | memory_receipt.py:521-552 | The digest the bundle verifier computes is the digest of the response's canonical text. |
| Response.WireBodyMismatch | memory_receipt.py:535-540 | The bundle minted for a response, checked against the body with diagnostics as received, gives a verdict; the digest matches exactly if a collision is exhibited, and without it nothing is verified. |
| Exceptions.MintRaisesExactly | memory_proof.py:111-200 | On a pack that was read, minting succeeds exactly when the key is filed, `evidence` and `sources` are not null, false or 0, the snapshot can be asked for its id, and both instants are given or the state can be asked. |
| Exceptions.VerifyRaisesExactly | memory_proof.py:292-470 | On such a pack a proof that loads gets a verdict exactly when both lists can be walked and each entry has the shape that is read of it, including a `superseded_by` that can be sorted if the entry names a claim of the pack. |
| Exceptions.ReceiptRaisesExactly | memory_receipt.py:282-432 | On such a pack a receipt gets a verdict exactly when it has the required fields, what is read of it has the shape that is read, the pack's rows can be walked, and its embedded proof, if there is one, gets a verdict. |
| Exceptions.UnsortableLineageRaises | memory_proof.py:448-453 | A proof that loads and names a claim of the artifact: for any list of ids, verifying it raises exactly when the list cannot be sorted, as text beside a number or two nulls. |
| Exceptions.NullRowsRaise | memory_proof.py:131-134 | Packs with a null list of rows and a claim under the key, on which minting raises and so does verifying any proof that loads. |
| Exceptions.NullStateNeedsInstants | memory_proof.py:127-129 | A pack with a null state, from which a proof is minted exactly when both instants are given, and then gets a verdict. |
| Exceptions.EmptyIdBreaksLineage | memory_proof.py:234-245 | A pack in which a claim with the empty id is superseded by one that does not list it as replaced. |
| Exceptions.TwoSourcesSplit | memory_receipt.py:352-371 | A pack with two sources for one version: the proof minted from it verifies, the receipt that embeds this proof does not. |
| Exceptions.WireBodyRejected | memory_receipt.py:521-552 | A response whose bundle verifies against its dump and, for any diagnostics, not against its body, unless a collision is exhibited. |
| Feed.PageIsPage | api/services/memory_feed.py:163-212 | A page is in keyset order, lies beyond its cursor, is no larger than asked for and full when there is more, and whatever it leaves out comes after its last row, which is the next cursor. |
| Feed.PageUnique | api/services/memory_feed.py:126-149 | Only one page fits that description, so it determines what WHERE, ORDER BY and LIMIT return. |
| Feed.FeedExactly | api/services/memory_feed.py:126-212 | Each refusal is given exactly under its condition, with sizes from 1 to 500, and otherwise a page of the corpus's rows later than the cursor by time and then by code points of the id. |
| Feed.Traverse | scripts/m009_release_validation.py:1051-1080 | What is returned are the items and page sizes of a run of page queries; it ends with the last page, a refusal or the page guard, and never with a missing or repeated cursor. |
| Feed.CursorsAdvance | scripts/m009_release_validation.py:1057-1069 | Along every run the cursor moves strictly forward and stays in the corpus. |
| Feed.ItemsOrdered | scripts/m009_release_validation.py:520-526 | Under concurrent inserts the items delivered are strictly increasing, so none comes twice. |
| Feed.LiveKeyset | scripts/m009_release_validation.py:1193-1223 | A complete traversal delivers exactly the rows that some page query finds beyond its cursor. |
| Feed.InitialRowsDelivered | scripts/m009_release_validation.py:1193-1223 | Every row present at the start beyond the start cursor is delivered. |
| Feed.LateRowsBehindSkipped | scripts/m009_release_validation.py:1218-1221 | A row inserted at or behind the cursor is never delivered. |
| Feed.QuietTraversal | scripts/m009_release_validation.py:1196-1211 | Without inserts a traversal from a boundary delivers the archive beyond it, in keyset order, and nothing else. |
| Feed.ContinuingNeedsRows | scripts/m009_release_validation.py:1060-1072 | A run that still continues after m pages has more than m full pages of rows beyond its start. |
| Feed.TraversalFailsOnlyBySize | scripts/m009_release_validation.py:1060-1072 | A traversal whose first query is served completes, or meets the guard with more than 10000 pages of rows to deliver. |
| Frames.FrameRoundTrip | api/runtime.py:295-318 | A frame decodes to the body that was sent and leaves what follows it. |
| Frames.FrameIs | api/runtime.py:295-318 | A frame is the length in four bytes, most significant first, and the body; there is one exactly for lengths below 2^32. |
| Frames.OnlyFramesDecode | api/runtime.py:598-608 | Whatever decodes was the frame of its body. |
| Frames.CutFrameWaits | api/runtime.py:598-608 | No proper prefix of a frame decodes. |
| Frames.StreamRoundTrip | api/runtime.py:578-595 | A stream of frames decodes to the sequence of bodies. |
| Frames.ReceivesUpToLimit | api/runtime.py:601-606 | The server receives every body of up to 32 MiB and turns a larger one away as soon as it has its length. |
| Runtime.RequestArrives | api/runtime.py:601-608 | A framed request reaches the handler as it was sent, or as too large. |
| Runtime.Server.ServeOne | api/runtime.py:598-677 | One request is answered as `Respond` says and moves the counters as `AfterServing` says; only an operation counts as activity. |
| Runtime.Server.Poll | api/runtime.py:561-565 | A poll stops the server exactly when it has been idle for more than 900 seconds. |
| Runtime.RepliesExactly | api/runtime.py:598-677 | Each refusal and each reply is given exactly under its own condition on token, protocol, build, database and operation, in that order of precedence. |
| Runtime.CountersExactly | api/runtime.py:561-677 | What one request and one poll leave in the stop flag, the last activity and the count, field by field. |
| Runtime.AnswersOnlyItsOwn | api/runtime.py:610-664 | A server answers a client's request exactly when token, build and database are its own. |
| Runtime.ShutdownNeedsAMatch | api/runtime.py:669-671 | A shutdown takes effect exactly on a server of the sender's own token, build and database, and otherwise changes nothing. |
| Runtime.MismatchSettles | verilore_sdk.py:748-756 | A build or database mismatch ends a write in the in-process result; a read ends so exactly when the build matches, and in the build error otherwise. |
| Runtime.SettlesInError | verilore_sdk.py:360-374 | A call surfaces an error exactly when the token differs, a read meets another build, or a matching runtime fails with an error for which the client does not discard it. |
| RuntimeSystem.NextKeeps | api/runtime.py:568-595 | Every step of a system of many servers, clients and other peers, which may send anything, keeps the invariant. |
| RuntimeSystem.RunKeeps | api/runtime.py:469-527 | The invariant holds after every run, with servers started, killed and restarted at will. |
| RuntimeSystem.AcceptedResultsMatch | verilore_sdk.py:713-772 | In every run, a result a client accepts was computed by a server of the client's build and database, and no write ends in a mismatch error. |
| RuntimeSystem.GateBoundsService | api/runtime.py:488-494 | In every run at most four requests are in service at one server. |
| RuntimeSystem.IdleStopIsTimely | api/runtime.py:561-565 | In every run an idle stop comes after more than 900 and at most 915 seconds without an operation, and no server idles longer. |
| RuntimeSystem.StopsAreItsOwn | api/runtime.py:669-671 | In every run a server stops only when it has idled or on a shutdown request with its own token and with no other build or database than its own. |
| RuntimeSystem.StaleProcessIsNeverDiscarded | verilore_sdk.py:222-234 | In every run, a server that was stopped by a client's shutdown request has that client's token, build and database. |
| RuntimeSystem.DoneTwiceExactly | verilore_sdk.py:746-747 | In every run no two connections do one client's work, and when a runtime did it, the client does it again in process exactly if it got no reply. |
| RuntimeSystem.LostReplyIsDoneTwice | verilore_sdk.py:746-747 | A run in which a write is done by a runtime and, its reply lost, again in process. |
| History.FlattenChanges | cli/render.py:316-345 | The flattening loop lists previous and current claims of every change in order. |
| History.TimelineConcat | cli/render.py:316-345 | The timeline of some changes followed by others is the one followed by the other. |
| History.TimelineOfOne | cli/render.py:316-345 | The timeline of one change is what it replaced, followed by what it has now. |
| History.RelevantMembers | cli/render.py:316-345 | The timeline that is searched keeps exactly the claims with a listed id, or all of them if none is listed. |
| History.ChainTail | cli/render.py:316-345 | The result is the last claim of the relevant timeline that nothing in it replaces, or None if there is none. |
| History.StrictChainsHaveALiveEnd | cli/render.py:316-345 | When replacements are observed strictly later than what they replace, a non-empty timeline has a live end. |
| History.MutualReplacementHasNoTail | cli/render.py:316-345 | Two claims that replace each other leave no live end. |
| History.NoTailExactly | cli/render.py:340-345 | When ids name one claim, there is no live end exactly when each claim of the timeline replaces a claim of it, no two the same one: replacement permutes the timeline. |
| History.RootOrForkMeansLiveEnd | cli/render.py:340-345 | So a claim that replaces nothing of the timeline, or two that replace the same one, ensure a live end. |
| History.AcyclicChainsHaveALiveEnd | cli/render.py:316-345 | So does any order in which every claim comes after the one it replaces. |
| Retry.Send | verilore_sdk.py:281-321 | The call returns or raises what the deciding attempt came to, reports that attempt, and has slept backoff * (2^(a-1) - 1). |
| Retry.DecidingAttemptUnique | verilore_sdk.py:281-321 | The deciding attempt, the first final outcome or the last allowed, is unique, so the specification determines the call. |
| Chunker.ChunkByHeadings | api/services/chunker.py:11-39 | The chunks are the stripped, non-empty sections of the sectioning of the text's lines. |
| Chunker.SectioningUnique | api/services/chunker.py:23-35 | There is only one sectioning: headings open sections, sections fit, and each ends only where a heading follows or the next line does not fit. |
| Chunker.CutsExactly | api/services/chunker.py:23-35 | A section holds no heading after its first line and exceeds the limit only as a single line; it ends exactly before a line that starts with `#` or with which the joined text, one more for text before any heading, would exceed the limit. |
| Chunker.SectionsConserveText | api/services/chunker.py:21-37 | The sections joined by newlines are the text. |
| Chunker.ChunksConserveInk | api/services/chunker.py:39 | The chunks hold every character that is not whitespace once and in order. |
| Chunker.ChunkBound | api/services/chunker.py:28-35 | A chunk is trimmed and non-empty, and longer than the limit only if it is a single line. |
| Chunker.OverflowJustified | api/services/chunker.py:28-35 | A section ended by overflow could not have taken the next line and stayed below the limit. |
| Text.SplitJoins | api/services/chunker.py:21 | Joining the lines of a text gives it back, and no line holds a newline. |
| Context.Budget | api/routers/query.py:153-168 | The loop keeps, in rank order, exactly the ranks that fit when their turn comes, with their texts, the first one cut if need be, totalling at most 32000 characters. |
| Context.GreedyIsUnique | api/routers/query.py:153-168 | Only one choice of ranks is greedy. |
| Context.SkippedDoNotFit | api/routers/query.py:153-168 | No skipped text fits in what is left at the end. |
| Context.ContextBound | api/routers/query.py:173 | The joined context has at most 32000 + 7 * (n - 1) characters. |

## Left out

- SHA-256 and UTF-8: the digest is an arbitrary function on canonical text; an injective encoding in between would change nothing.
- `datetime.fromisoformat`: an arbitrary partial function to a time line, so every instant it reads is comparable. Comparing a naive with an aware instant, where Python raises, is not modelled.
- Floats and NaN in JSON: numbers are integers. Equality of values follows Python (`True == 1`), so claim values are compared up to that.
- Insignificant whitespace and surrogate escapes in the JSON reader: it reads what the canonical printer writes and rejects more than `json.loads` does elsewhere.
- The wording of reasons, problems and notes: they are data that name the check and the ids involved. Which exception class is raised, when several conditions hold at once, is one error value.
- Exceptions.VerifyRaisesExactly: where the elements of `superseded_by` are lists themselves, `sorted` is taken to raise exactly when two of them cannot be compared; which of them the sorting algorithm compares is not modelled. All other elements that cannot be compared make any comparison sort raise.
- Pack.CheckClaims: where `evidence_ids` is an object, Python walks its keys in the order of the document and the model in sorted order, which can change the order of the problems and nothing else.
- `PackState.describe`, `PackClaim.validity`, `status`, `summary`, `evidence_for`, `source_for`, `keys`, `verify_trust`, `Verdict.render` and CLI exit codes: single-branch facts.
- Response.CanonicalTextIsTheAnswer: a response is the dictionary of its answer fields, its receipt and its diagnostics; pydantic validation and field defaults are not modelled.
- Bundle.BundleEndToEnd: the current memories of a response are taken from its dump; the two ISO instants that `receipt_for_response` reads off the response object are parameters.
- Feed.Traverse: a cursor is the row it stands for; its encoding, signature and length limits are not modelled, nor are database failures and the normalisation of corpus names. The page query sees one state of the database, and rows are only added between queries.
- Frames: time limits of reads, and connections that are closed.
- Runtime.MismatchSettles: every process and client speaks the same protocol version; across versions the refusal would be `protocol_mismatch`, which is surfaced.
- Runtime.Server.Poll: a poll comes exactly every 15 seconds; scheduling delay is not modelled.
- RuntimeSystem.AcceptedResultsMatch: build and database ids are taken as memoised, one per process; the socket file, its ownership and its permissions are not modelled, nor are the warm-up task and the `state`, `model` and `detail` fields that only `status` reports.
- History.NoTailExactly: takes ids to name one claim, as ids made from a claim's content do; `History.SharedIdsNeedNoPermutation` shows a timeline with a shared id that it does not describe.
- Retry.Send: the backoff is a real number that is not negative.
- Chunker.ChunkByHeadings: `chunk_by_size` belongs to a library.
- Ingestion, ranking, retrieval, adjudication, authorisation, HTTP routes, MCP and Typer commands, migrations, benchmarks and documentation checks: outside this model.
