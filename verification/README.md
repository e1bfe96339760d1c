# A verified model of the Lifted Sign engine

Lifted Sign sends PDF documents out for electronic signature. This project models the parts of
its engine where a mistake is hard to see in any one function, and proves what they promise:

- **The draft editor** (`Csv`, `Rotation`, `Records`, `Pages`, `FieldRuns`, `EditHistory`, `Editor`). Page deletion, reordering,
  rotation, appending and text edits each rewrite three records that must agree: the pages, the
  fields placed on them and the `edited_pages` column, from which `send` decides which pages to
  rasterise. Pages carry an identity and a mark that they were edited, which no operation reads;
  `EditHistory` tells the edited pages from the calls alone.
- **The envelope** (`Envelope`, `Submission`, `Runs`, `Lease`, `Overrun`, `Replay`, `SigningOrder`,
  `Invitations`, `Stamping`, `Sealed`, `Unshown`, `SelfSigned`, `Healing`, `Progress`, `Completion`,
  `SignerRights`, `Expiry`, `FieldLog`, `EnvelopeStore`). `Envelope` has one function per database transaction. `Runs`
  interleaves them in every possible order with any number of `finalize` calls, whose count of
  unsigned signers, read, claim, final write, release and death are separate steps under a clock that never
  runs backwards. The other modules prove what every run keeps, and that every sent
  envelope with live links can be completed. `EnvelopeStore` is the imperative
  form: statements that update the stored rows, each proved to make exactly one of the transactions.
- **Counters and sessions** (`RateLimit`, `Lockout`, `ChallengeGate`, `GuessesInFlight`, `SecondLock`,
  `GuessFlood`, `Sessions`, `SessionProgress`, `SessionHandlers`). The fixed-window limiter, the failure lockout, the gate
  that uses both around the comparison of a challenge answer, and the epoch-bound envelope sessions.
  A request at the gate is three transactions (the lock is read, the guess counted, the outcome
  recorded), and `GuessesInFlight` interleaves those of any number of requests in every order.
- **The statement translator** (`SqlTranslate`), against a reader of the driver's format.
- **Text on pages** (`Anchors`, `AnchorPhrases`, `Prefill`, `PrefillLaws`, `TextLayout`, `WrapLaws`, `TextBox`) and
  **templates** (`Templates`).

The table lists the results and the methods with loops or branches of their own; handlers that make
one unconditional or singly guarded write (`Void`, `Claim`, `Complete`, `Release`, `Decline`,
`Sweep`, `Append`, `Edit`, `BumpEpoch`, `VoidEnvelope`), proved equal to their transition, are helpers of those and have no row.

Where the source works step by step, a method with loops or a class with fields does the work and
is proved equal to a specification function; the main results are lemmas about that function, over
all inputs or all runs. What the program takes from outside is a parameter: the clock, tokens, the
outcome of comparing a challenge answer, of decoding an image and of reading a checkbox
(`Records.Value` carries these), the width of a text, the character classes, the matches of a
regular expression.

Some things the source says of itself, or that one would expect of it, do not hold, and the model
follows the code:

- The required-field gate of `submit_signature` tests the value under one spelling of a field id,
  while a later, different spelling of the same id (`"7"` and `" 7"`) is what is stored.
  `Submission.TwoSpellingsStoreABlank` gives the input and `Submission.GateProtectsIffTestedLast`
  the exact condition on the keys, which the results about the values of completed envelopes ask of
  the required fields in recorded forms.
- A completed envelope need not show every required field. The gate tests the trimmed text of a
  signature while the stamp draws the text as stored, so a leading blank loses the signature
  (`Unshown.LeadingBlankLosesTheSignature`); and a field off the document or with an empty box is
  passed over (`Unshown.OffTheDocumentLosesTheField`). `Sealed.CompletedCopyIsWhatWasShown` has the
  exact condition, `Sealed.TrimmedFormsAreShown` one that is checked before submitting.
- The documentation of `finalize` says that an envelope is never stranded in `sealing`. One that
  everyone signed heals through a repeated submission, and only while the links live:
  `Healing.HealsIffLinkOutlivesClaim`, with a run that strands it, `Healing.StrandedEnvelope`.
- Text-edited pages are rasterised when `send` opens an envelope, and not when its owner opens it by
  self-signing (`SelfSigned.EditedPagesAreRasterisedIffSent`).
- The comment on `_wrap` says that nothing overflows. A word wider than the box is broken only when
  it starts a line: `TextLayout.LongSecondWordOverflows` and `TextLayout.AllLinesFitIffLongWordsComeFirst`.
- The comment on `_translate_sql` says that a `%` in a quoted string is left untouched. The code
  doubles it, which is what the driver needs, and what `SqlTranslate.TranslationSaysTheSame` relies on.

Two results have a bound that is shown to be exact: the seal lease holds for seals that end within
120 seconds and fails for any overrun (`Overrun.OverrunCompletesTwice`), and the reorder remap is
a permutation exactly when no field sits at page 100000 or above (`Pages.ReorderIsPermutation`).
The lockout table alone does not keep locks apart (`Lockout.ClearedLockSetAgainAtOnce`), and neither
does the challenge gate: requests in flight when a lock is set can clear it
(`GuessFlood.TwoLocksAtOneInstant`). Neither is five the bound on wrong guesses; it is five and those in
flight (`GuessesInFlight.WrongGuessesAtMostFiveAndInFlight`, met in `GuessFlood.FiveAndInFlightIsMet`).
Only 80 guesses an hour holds however requests interleave.

## Model

| member | source | states |
|---|---|---|
| Rotation.SeenInvertsDrawn | sign/pdf_stamp.py:239-263 | the matrix of each of the four rotations, with the pen's flip, is invertible: exactly one visual point is drawn at each point of the page |
| Rotation.CoversIffSeenInside | sign/pdf_stamp.py:223-300 | a stamped field covers a point of the unrotated page exactly when the signer sees that point inside the field's box |
| Rotation.RemapTurnsBox | sign/esign.py:601-615 | remapping a field's fractions and then scaling is the same as scaling and then turning the box clockwise in points |
| Rotation.TurnKeepsStampedRegion | sign/esign.py:601-619 | for every rotation and turn, the remapped field through the new matrix covers exactly the points that the old field covered through the old matrix |
| Rotation.TurnsCompose | sign/esign.py:606-615 | two remaps are the one remap by the sum of the angles modulo 360 |
| Rotation.TurnSequenceIsOneTurn | sign/esign.py:601-619 | any sequence of turns is one turn by the total angle; four quarter turns are the identity |
| Rotation.TurnSequenceKeepsStampedRegion | sign/esign.py:581-623 | over any sequence of turns a field keeps stamping the same region of the unrotated page |
| Csv.DecodeInvertsEncode | sign/esign.py:816-840 | what is written to the `edited_pages` column as comma-separated numbers is read back as the same set |
| Pages.ApplyInSync | sign/esign.py:511-646 | every page operation and text edit keeps the column equal to the current positions of exactly the edited pages that still exist |
| Pages.EditedInSync | sign/esign.py:511-646 | so does every sequence of them, refused calls included |
| Pages.FreezeRastersExactlyEditedPages | sign/esign.py:2346-2366 | after any sequence of editor calls the out-of-range guard of `send` does not fire, and its copy rasterises the pages ever text-edited and no others |
| Pages.FreezeRefusesIff | sign/esign.py:2352-2358 | the freeze refuses if and only if the column names a page beyond the document |
| Pages.ApplyPlacesPages | sign/esign.py:511-646 | a call is accepted exactly if its arguments are good (for a reorder: every position once), and then each position holds the page that the call is to put there, with its rotation and mark |
| EditHistory.RasterisedIffTextReplaced | sign/esign.py:920-938 | after any sequence of editor calls, `send` rasterises a page if and only if an accepted batch of text edits named it, read off the document before that batch, or it was marked at the start |
| EditHistory.SentCopyRastersReplacedText | sign/esign.py:2346-2366 | in every run of an envelope, the frozen copy rasterises exactly the pages whose text was replaced while it was a draft |
| Pages.ReorderIsPermutation | sign/esign.py:558-574 | the per-page updates with their offset equal the simultaneous permutation of all fields, in any order of update, if and only if every field's page is below 100000 |
| Pages.ApplyKeepsFieldsOnPages | sign/esign.py:511-646 | every accepted editor call leaves each in-range field on the page with the same identity, and drops a field only with its page |
| FieldRuns.EditedKeepsFieldsOnPages | sign/esign.py:511-646 | over every sequence of editor calls, with appended pages new and at most 100000 pages throughout, a field placed in range sits on its page's identity for as long as that page is there, and is still there with it |
| Pages.RotateKeepsStamps | sign/esign.py:581-623 | rotating a page moves no mark of any field in the document on its unrotated page |
| Editor.CopyWithout | sign/pdf_ops.py:220-240 | the rebuilt document is the survivors in order |
| Editor.CopyInOrder | sign/pdf_ops.py:170-189 | page k of the rebuilt document is page order[k] of the old one |
| Editor.FlattenPages | sign/pdf_editext.py:114-146 | exactly the wanted pages are rasterised, the others pass through |
| Editor.RemapReordered | sign/esign.py:558-571 | the update loop is the two-phase remap that `Pages.ReorderIsPermutation` is about |
| Editor.DraftEditor.Delete | sign/esign.py:511-542 | makes exactly the delete on pages, fields and column, or refuses and changes nothing |
| Editor.DraftEditor.Reorder | sign/esign.py:545-578 | makes exactly the reorder, or refuses anything but a permutation and changes nothing |
| Editor.DraftEditor.Rotate | sign/esign.py:581-623 | turns the page and remaps the fields on it and no others, or changes nothing |
| Editor.DraftEditor.FreezeCopy | sign/esign.py:2346-2366 | the copy made, or the refusal, at the head of `send` |
| Submission.GateProtectsIffTestedLast | sign/esign.py:2763-2809 | for given keys, passing the gate guarantees a good stored value for all values if and only if no entry after the tested one names the same field |
| Submission.TwoSpellingsStoreABlank | sign/esign.py:2763-2809 | a form with one id spelled twice passes the gate and stores a blank required signature |
| Submission.AcceptedFormStoresGoodValues | sign/esign.py:2759-2817 | every required field of the signer whose tested key is the last to name it holds, in the database, a submitted value that passes its test |
| Submission.AcceptedByKind | sign/esign.py:2768-2789 | what passes for a required field of each kind |
| Lease.NextKeepsOrderly | sign/esign.py:3335-3395 | one invariant kept by every step: no call of `finalize` exists in a draft, and each has everyone signed or the envelope past sealing |
| Lease.EveryClaimIsOfAFullySignedEnvelope | sign/esign.py:2859-2879 | whatever falls between the last count and the claim, and whatever the timing, a claim succeeds only with at least one signer and all signed |
| Lease.TerminalIsForever | sign/esign.py:3365-3371 | no run leads from a status that ends signing back to one that can be signed or sealed |
| Lease.NextKeepsLease | sign/esign.py:3362-3395 | the lease invariant survives every step while no seal has overrun its window |
| Lease.AtMostOneSealerAndOneCompletion | sign/esign.py:3362-3538 | if every seal ends or dies within its window, at most one is ever running and the completed write happens at most once in the run |
| Lease.ReleaseReopensOnlyOwnClaim | sign/esign.py:3382-3395 | under the same bound a failed seal's release returns its own claim to out_for_signature and never touches a voided, declined, expired or completed envelope |
| Overrun.OverrunCompletesTwice | sign/esign.py:66-69 | for any overrun there is a run in which two seals are live at once and the completed write happens twice |
| Healing.HealsIffLinkOutlivesClaim | sign/esign.py:3335-3395 | in every reachable state with everyone signed, the status out_for_signature or sealing and no call running, some repeated submission completes the envelope if and only if no lock is unmet and the links are alive now and, after a claim left behind, past its 120 seconds |
| Healing.StrandedEnvelope | sign/esign.py:3199-3224 | a run that ends in such a state from which no repeat completes the envelope, and which the sweep passes over at any time |
| Replay.NextKeepsFaithful | sign/esign.py:356-369 | every step writes events from which the row it leaves can be told |
| Replay.ReplayReproducesStatuses | sign/esign.py:2374-3538 | in every reachable state, replaying the audit events gives the stored status (a seal reads as out for signature) and every signer's status |
| SigningOrder.NextTurnIsEarliest | sign/esign.py:2314-2320 | there is a next order exactly when someone is unsigned, and it is the least order of the unsigned: a lower bound that one of them has |
| SigningOrder.CascadeInvitesTheNextGroup | sign/esign.py:2886-2926 | while someone is unsigned the next group is not empty; a cascade on an open envelope invites everyone in it with an address and a token, and nobody else |
| Invitations.SendInvitesTheDue | sign/esign.py:2431-2442 | `send` invites exactly the signers with an address, in sequential mode those nobody has an earlier turn than |
| Invitations.EveryoneDueIsInvited | sign/esign.py:2859-2926 | in every run in which no call dies, while a sent envelope is open, everyone unsigned with an address (in sequential mode: with all earlier turns signed) has been invited, or in sequential mode a call that will invite is under way |
| SigningOrder.SignOrdered | sign/esign.py:2738-2749 | a signature recorded in turn keeps the log of signatures in order and without repeats |
| SigningOrder.SequentialRunsSignInTurn | sign/esign.py:2308-2911 | in every run nobody signs twice; in sequential mode signatures come in nondecreasing order, and all invitations went out after everyone of lower order had signed |
| Sealed.NothingShownChanges | sign/esign.py:2333-2366 | once an envelope has left draft, in every continuation the presented bytes, signers, tokens and field layout stay, and no value of a signer who signed or withdrew changes |
| Sealed.CompletedCopyIsWhatWasShown | sign/esign.py:3401-3426 | if in recorded forms the tested key of a required field is the last to name it: an executed copy is stamped on the presented bytes; every required field owned by a signer holds an acceptable value, and is shown if and only if its page is in the document, its box is not empty and, for signature and initials, its text as stored can be drawn |
| Sealed.StampedOnlyIfPlaceable | sign/pdf_stamp.py:522-538 | in every run, whatever was submitted, nothing at all is stamped for a field off the document or with an empty box |
| Sealed.TrimmedFormsAreShown | sign/esign.py:2768-2817 | under the same condition, and with no outer white space in recorded texts, whatever decodes images, a required field is shown if and only if its page is in the document and its box is not empty |
| Unshown.LeadingBlankLosesTheSignature | sign/pdf_stamp.py:546-555 | for every data URL that is accepted only once trimmed there is a run that completes with it in a required signature, and its copy has no mark in the box |
| Unshown.OffTheDocumentLosesTheField | sign/pdf_stamp.py:527-538 | for every required field off the document or with an empty box, and every value the gate accepts, there is a run that completes without stamping it |
| Unshown.ShownInThatRun | sign/esign.py:3398-3426 | for every required field and accepted value there is a run that completes, and its copy shows the field exactly under the condition above |
| Stamping.StampFields | sign/pdf_stamp.py:522-578 | the loop stamps exactly the fields that can be placed, each with its mark |
| Stamping.BoxIsEmptyIffFractionsAre | sign/pdf_stamp.py:534-538 | the test of the box in points is a test of the stored width and height, on every page with a size |
| Stamping.MarkFollowsValue | sign/pdf_stamp.py:540-578 | when a stamped field's box holds no mark, and that any mark is of the field's kind |
| SelfSigned.EditedPagesAreRasterisedIffSent | sign/esign.py:2491-2494 | once a step of a run has taken the envelope out of draft, the presented document rasterises every text-edited page if and only if that step was `send` or there is no such page |
| SelfSigned.SelfSigningPresentsTheEditedPage | sign/esign.py:2471-2505 | a run in which a self-signed envelope presents an edited page unrasterised |
| Sealed.SentCopyRastersEditedPages | sign/esign.py:2346-2366 | in every run the freeze never refuses, and the frozen copy rasterises exactly the edited pages |
| Expiry.SweptIffSixtyDaysSinceSent | sign/esign.py:2406-2409 | while out for signature, links live for sixty days from the moment the envelope left draft; the sweep ends it at the end of that time if and only if it was sent, never if it was opened by self-signing |
| SignerRights.RecordedIff | sign/esign.py:2663-2858 | the exact condition for a submission to be recorded, as one conjunction in no order |
| SignerRights.NoConsumerSignsWithoutConsent | sign/esign.py:2750-2758 | in every run a consumer who has signed has consented |
| SignerRights.SignedMayAlwaysLook | sign/esign.py:2581-2618 | whoever has signed is shown the page in every continuation and at any time, until the envelope is voided, cancelled or declined |
| SignerRights.SignersCanLook | sign/esign.py:2581-2618 | whoever can sign can look |
| SignerRights.LookIsLogged | sign/esign.py:2611-2618 | every look of a signer who was sent the envelope is logged and the first is noted; any other look leaves no trace |
| SignerRights.NothingIsSignedOrClaimedAfterwards | sign/esign.py:3365-3371 | once an envelope has ended, in whatever way, no submission is recorded and no seal claimed in any continuation |
| SignerRights.EndingsTakeEffect | sign/esign.py:2991-3165 | when withdrawing, declining and voiding are possible, and that they end the signing |
| SignerRights.LinksArePersonal | sign/esign.py:2374-2398 | in every run in which tokens are minted fresh, no two signers share a link |
| Progress.ParallelAnswerIgnoresOthers | sign/esign.py:2738-2749 | in parallel mode the answer to a submission is the same whatever the other signers' rows, and never that it is not the signer's turn |
| Progress.SequentialAnswer | sign/esign.py:2738-2749 | sequential mode refuses, for their turn, exactly signers with an unsigned one before them, and answers everyone else as parallel mode does |
| Progress.EveryoneSubmitsCompletesIff | sign/esign.py:2738-2879 | from every state out for signature, with live links and willing signers, for every order of those remaining and all forms that pass: that all submit completes the envelope in parallel mode, and in sequential mode if and only if the order follows the turns |
| Completion.SomeContinuationCompletes | sign/esign.py:2663-2879 | from every reachable state sent and out for signature with live links, whatever calls are under way, some continuation (locks passed, consents given, everyone submitting) completes the envelope |
| Completion.CompletableIffLinksLive | sign/esign.py:2704-2717 | while someone has not signed, a completing continuation exists if and only if the links are alive |
| FieldLog.SubmissionIsLogged | sign/esign.py:2809-2858 | a recorded submission logs, in the signer's name, one signing for each named signature or initials field, one adoption for each different image among them, and last that the signer signed |
| EnvelopeStore.Store.constructor | sign/esign.py:373-410 | a new agreement is a draft with no signers, fields or frozen copy |
| EnvelopeStore.Store.Send | sign/esign.py:2323-2412 | the statements make exactly the send transaction, or none |
| EnvelopeStore.Store.DispatchAll | sign/esign.py:2374-2389 | the loop gives every signer its own token, the status sent and two events, and changes nothing else |
| EnvelopeStore.Store.SelfSign | sign/esign.py:2471-2505 | exactly the self-sign transaction |
| EnvelopeStore.Store.View | sign/esign.py:2581-2618 | exactly the view transaction: the first view stamps, every view is logged |
| EnvelopeStore.Store.Withdraw | sign/esign.py:2991-3036 | exactly the withdrawal, which after completion is only recorded |
| EnvelopeStore.Store.RequiredFieldsPresent | sign/esign.py:2759-2789 | the loop passes exactly when every required field of the signer has an acceptable value under the tested spelling |
| EnvelopeStore.Store.Clean | sign/esign.py:2800-2808 | the clean map holds each named id once, in order of first appearance, with its last value, unless some key is malformed |
| EnvelopeStore.Store.Submit | sign/esign.py:2663-2858 | the statements make exactly the check-and-write transaction: same refusals in the same order, same writes and events |
| EnvelopeStore.Store.EarlierSignerWaiting | sign/esign.py:2740-2744 | whether someone of lower order is unsigned |
| EnvelopeStore.Store.WriteId | sign/esign.py:2809-2844 | one pass of the write loop stores the value in the signer's own field and logs a signing and at most one adoption per image |
| EnvelopeStore.Store.WriteAll | sign/esign.py:2809-2844 | the whole loop stores each field's last value, in the signer's own fields only |
| EnvelopeStore.HandOver | sign/esign.py:3408-3425 | the loop collects exactly the fields with a nonblank value |
| EnvelopeStore.Stamp | sign/esign.py:3402-3426 | the copy is made from the row that was read before the claim |
| EnvelopeStore.Invite | sign/esign.py:2886-2926 | the cascade's loop mails exactly the unsigned holders of a token in the next group |
| RateLimit.RowCountsWindow | sign/db.py:646-670 | the stored row holds the number of calls since the current window was opened, and when that was |
| RateLimit.WindowAdmitsItsFirstCalls | sign/db.py:646-670 | a call is admitted if and only if it is among the first `limit` calls of its window |
| RateLimit.IntervalAdmitsAtMostTwice | sign/db.py:646-670 | any half-open interval one window long admits at most twice the limit |
| RateLimit.Limiter.Allow | sign/db.py:646-670 | the upsert changes the key's row as specified and no other, and answers from the new count |
| Lockout.CounterIsFailuresSinceReset | sign/db.py:602-643 | the stored counter is the number of unlocked failures since the last success or lock |
| Lockout.IntervalSeesAtMostLimitFailures | sign/db.py:602-643 | a half-open interval of `lock_seconds` without a success sees at most `fail_limit` unlocked failures (one, if the limit is below one) |
| Lockout.OnsetsApartUnlessCleared | sign/db.py:602-643 | two locks set less than `lock_seconds` apart have a success recorded under the first |
| Lockout.LockEndsOnTime | sign/db.py:593-599 | without a success a lock is in force exactly until `lock_seconds` after it was set |
| Lockout.SuccessUnderLockLetsItBeSetAgain | sign/db.py:602-643 | conversely, after any success recorded under a lock the next lock can be set at that very moment |
| Lockout.ClearedLockSetAgainAtOnce | sign/db.py:602-643 | with a success in between two locks can be set at the same instant |
| Lockout.Table.IsLocked | sign/db.py:593-599 | locked exactly before the stored time |
| Lockout.Table.RecordAttempt | sign/db.py:602-643 | the statements leave the specified row for the key and all others alone |
| ChallengeGate.RateKeysApart | sign/esign_access.py:125-126 | no two signers share a rate row |
| ChallengeGate.LockKeysApart | sign/esign_access.py:125-126 | no two pairs of signer and address share a lock row |
| ChallengeGate.Gate.CheckLock | sign/esign_access.py:131-132 | whether the address's lock is in force |
| ChallengeGate.Gate.CountGuess | sign/esign_access.py:136-137 | counts the guess in the signer's window and no other, and says whether it is admitted |
| ChallengeGate.Gate.RecordGuess | sign/esign_access.py:177 | records the outcome in the address's lock row and no other |
| ChallengeGate.Gate.VerifyChallenge | sign/esign_access.py:117-228 | with nothing else running, the transactions make exactly the specified request and answer |
| GuessesInFlight.UndisturbedIsVerify | sign/esign_access.py:131-177 | a request's three steps with nothing between them are that request |
| GuessesInFlight.UndisturbedAnswer | sign/esign_access.py:131-228 | the answer told by what became of the request's steps: passed if and only if its record is a success, turned away by the window if and only if it left at its guess, locked out if and only if the check turned it away or its wrong outcome was recorded and the lock stands behind it, failed otherwise |
| GuessesInFlight.AtMostEightyGuessesAnHour | sign/esign_access.py:131-138 | in every interleaving at most 80 guesses at one signer are compared in any hour, over any number of addresses |
| GuessesInFlight.WrongGuessesAtMostFiveAndInFlight | sign/esign_access.py:127-177 | in every interleaving, while no success of an address is recorded, the wrong guesses compared from it in less than 900 seconds are at most five plus its requests past the check and unrecorded when the lock is set (four plus those at the end, if none is set; with a lock at the start, those then waiting come on top) |
| GuessesInFlight.OnsetsApartUnlessInFlightSucceeds | sign/esign_access.py:131-177 | two locks of an address less than 900 seconds apart have between them a success, recorded by a request in flight when the first was set |
| GuessesInFlight.SerialAtMostFiveWrongGuesses | sign/esign_access.py:127-177 | the serial case: with one request at a time, at most five |
| GuessesInFlight.SerialOnsetsApart | sign/esign_access.py:131-177 | the serial case: with one request at a time, locks of one address are at least 900 seconds apart |
| SecondLock.SecondLockIffFiveMoreGuesses | sign/db.py:602-670 | after a success recorded under a lock, a second lock can be set before the first would have run out if and only if the wrong guesses in flight and those the signer's window still admits make five |
| SecondLock.LocksCrowdIffInFlightSucceeded | sign/esign_access.py:131-177 | while five more can come, some continuation without further success sets a second lock within 900 seconds of the first if and only if a request in flight at the first has recorded a success since |
| GuessFlood.FortyGuessesBeforeARecord | sign/esign_access.py:167-177 | forty wrong guesses of one address at one instant are compared before any is recorded |
| GuessFlood.FiveAndInFlightIsMet | sign/esign_access.py:167-177 | for any number up to 35 in flight when the lock is set, a run compares five and that many wrong guesses |
| GuessFlood.TwoLocksAtOneInstant | sign/esign_access.py:167-177 | five wrong guesses set the lock, a right one in flight clears it, and five more set a second lock at the same instant, for floods of six to 35 |
| Sessions.RevokedForever | sign/esign.py:3674-3769 | a session issued before a void, a challenge change or an epoch bump of its envelope is denied in every later state |
| Sessions.OpenSessionMetTheChallenge | sign/routers/envelope.py:302-311 | an admitted session marked as past the challenge belongs to a signer who has none or answered the one that is set, and carries that signer's address |
| Sessions.MarkerMeansAnswered | sign/esign_access.py:186-199 | the pass marker stands only on a correct answer given since the challenge was last set |
| Sessions.AnsweredMeansMarker | sign/esign_access.py:186-199 | and such an answer leaves the marker standing until the challenge is set anew |
| Sessions.ServedOnlyAfterProofAndAnswer | sign/routers/envelope.py:574-584 | content is served only on an address proved earlier in the run that is the signer's own, never for a voided envelope, and past the signer's current challenge |
| SessionProgress.AnsweredIsServed | sign/routers/envelope.py:456-467 | a correct answer on an admitted session to the challenge that is set yields a session of that signer which is served in every later state, exactly until it runs out, as long as no step revokes the envelope's sessions or replaces its signers |
| SessionProgress.IdentifiedIsLetIn | sign/routers/envelope.py:260-314 | whoever proves the address of a signer gets a session for the first one with it, admitted exactly until it runs out, and served if and only if that signer has no challenge, in every such later state |
| SessionProgress.SwitchedIsLetIn | sign/routers/envelope.py:508-571 | the same for whoever switches from an admitted session of the address |
| SessionProgress.LockedIffLastSet | sign/esign.py:3703-3751 | a signer has a challenge exactly if the last change of it since the signers were set was to set one |
| SessionProgress.VoidedAdmitsNobody | sign/esign_access.py:286-293 | a voided envelope admits nobody, whenever the session was issued |
| SessionHandlers.Handlers.MatchSigner | sign/esign_access.py:296-307 | the first signer with the address, and nobody for an empty one |
| SessionHandlers.Handlers.IdentifySigner | sign/routers/envelope.py:260-314 | once the address is proved, exactly the specified session is issued |
| SessionHandlers.Handlers.RequireSession | sign/esign_access.py:262-293 | the guard's verdict |
| SessionHandlers.Handlers.AnswerChallenge | sign/routers/envelope.py:429-469 | a correct answer to the set challenge renews the session as open, anything else changes nothing |
| SessionHandlers.Handlers.SwitchEnvelope | sign/routers/envelope.py:508-571 | a session for another envelope of the same address, open only if that signer has no challenge |
| SessionHandlers.Handlers.SetSignerChallenge | sign/esign.py:3703-3751 | sets or clears the challenge, clears the pass marker and bumps the epoch, if the signer exists |
| SqlTranslate.Translate | sign/db.py:58-99 | the scanner writes, for each token of the statement, the driver's spelling of that token |
| SqlTranslate.SkipName | sign/db.py:89-92 | the inner loop stops at the end of the name |
| SqlTranslate.TranslationSaysTheSame | sign/db.py:58-99 | decoding a translated statement by the format and pyformat rules gives the source's token sequence |
| SqlTranslate.ReadingKeepsTheText | sign/db.py:73-97 | the tokens spell the source statement, character by character |
| SqlTranslate.OneMarkerPerMark | sign/db.py:81-86 | there is one positional marker for each `?` outside quotes |
| SqlTranslate.OneNamedMarkerPerName | sign/db.py:87-95 | the named markers are, in order, the maximal names after each colon outside quotes that is in no pair and has a letter or underscore behind it |
| SqlTranslate.LexCut | sign/db.py:73-97 | a statement reads piece by piece at any place that splits no name and no cast |
| SqlTranslate.QuotedStringsAreLiteral | sign/db.py:75-80 | a quoted string, wherever it stands, is literal text, and reading goes on outside quotes after it |
| SqlTranslate.CastsAreLiteral | sign/db.py:87-89 | a `::` cast outside quotes is literal text |
| Anchors.MakeLine | sign/esign.py:1094-1115 | the loops build the specified text and character map |
| Anchors.EveryCharacterKnowsItsWord | sign/esign.py:1105-1114 | the map has the text's length, numbers exactly the characters of each word with that word, and what it leaves is a blank |
| Anchors.DocMatchesListsAll | sign/esign.py:1125-1132 | the scan meets every occurrence in the document, overlapping ones too, once and in reading order |
| Anchors.HullIsSmallest | sign/esign.py:1142-1146 | the box holds every touched word and lies inside every box that does |
| Anchors.MatchTouchesAWord | sign/esign.py:1135-1141 | the branch for a match without words is unreachable |
| Anchors.FoundIffEnoughMatches | sign/esign.py:1118-1150 | there is an answer if and only if the document has at least `index` matches and `index` is at least one |
| Anchors.AnswerFramesTheMatch | sign/esign.py:1118-1150 | the answer is on the page of the index-th match's line; scaled to the page it holds every word with a character in the match, and lies inside every box that does |
| AnchorPhrases.NeedleIsTheWords | sign/esign.py:1118-1123 | however an anchor's words are spaced, what is searched for is the words one blank apart |
| AnchorPhrases.PhraseIsFound | sign/esign.py:1094-1150 | for every run of words on a line, however the anchor spaces them, some index finds them and the answer frames exactly those words |
| Anchors.BoxOfSpan | sign/esign.py:1210-1222 | the loops compute the hull of the touched words, or nothing |
| Anchors.FindMatch | sign/esign.py:1123-1134 | the nested loops stop at the `index`-th match, or find none |
| Anchors.FindAnchor | sign/esign.py:1118-1150 | the answer is the normalised hull of the `index`-th match |
| Prefill.DetectTokens | sign/esign.py:1275-1289 | the token loop makes the specified claims on a line and emits their fields |
| Prefill.FindFit | sign/esign.py:1297-1311 | the label loop finds the first occurrence at a word boundary, on free text, over words |
| Prefill.DetectLabel | sign/esign.py:1293-1316 | one field per label and line, unless its key is out |
| Prefill.DetectLabels | sign/esign.py:1293-1316 | the labels are tried in their order and the limit stops the scan |
| Prefill.Detect | sign/esign.py:1225-1316 | the fields returned are exactly those of the specified claims |
| PrefillLaws.DetectedClaimsAreGood | sign/esign.py:1268-1316 | claimed spans are pairwise disjoint on each line, keys distinct, at most `max_fields` (at least one) claims, each a token or a label at a word boundary |
| PrefillLaws.NoTokenIsMissed | sign/esign.py:1275-1289 | short of the limit, a token is left out only for want of a key or of words under it, or because an earlier line or another token has its key, or another token of the line some of its text |
| PrefillLaws.NoLabelIsMissed | sign/esign.py:1293-1316 | short of the limit, a label at a word boundary over words is left out only because its key is out, or a token or a label tried before it has some of its text |
| PrefillLaws.BoxesStayOnThePage | sign/esign.py:1237-1258 | after rounding, no box passes a page edge by more than 0.00001 |
| PrefillLaws.TokenFieldHoldsToken | sign/esign.py:1237-1264 | after rounding, a token's field holds the token's words wherever they lie on the page, within 0.00001 |
| PrefillLaws.LabelFieldIsRightOfLabel | sign/esign.py:1243-1264 | after rounding, a label's field starts six points to its right or is pushed back to end at the page's edge, within 0.00001 |
| PrefillLaws.FieldIsLevelAndOfItsSize | sign/esign.py:1237-1264 | after rounding, every field has its due size as far as the page has it, and begins level with its token or label or ends at the foot of the page, within 0.00001 |
| Templates.SnapshotSigners | sign/esign.py:1509-1528 | the loop yields the role rows and a map from each id to its row |
| Templates.CreateTemplate | sign/esign.py:1572-1590 | fields are saved with the index of their signer |
| Templates.SetSigners | sign/esign.py:948-985 | rows are stored in order under consecutive new ids |
| Templates.FillFields | sign/esign.py:1858-1888 | fields are made with the owner of their index and the answered value |
| Templates.Instantiate | sign/esign.py:1820-1891 | the loops make the specified draft |
| Templates.TemplateRoundTrip | sign/esign.py:1572-1891 | a saved and reused agreement comes back whole, but for ids, if and only if every signer has a role and a nonzero order and every field a type and, where there are signers, one of them as owner |
| Templates.SignersComeBack | sign/esign.py:1509-1528 | a saved and reused agreement has the same signers; one is unchanged if and only if it has a role and a nonzero order, and those two are all that can change |
| Templates.FieldsComeBack | sign/esign.py:1572-1590 | a field's content is unchanged if and only if it has a type |
| Templates.OwnersComeBack | sign/esign.py:1575-1576 | a field belongs to the copy of its original signer if and only if that signer is on the agreement, or there are no signers and no owner; otherwise it goes to the first signer |
| Templates.RecipientsOverwriteTheTemplate | sign/esign.py:1822-1840 | naming recipients makes the draft that the template makes once they are written over its rows |
| Templates.StoredAuthIsKnown | sign/esign.py:948-975 | an unknown method of authentication is stored as email |
| Templates.AnswerGoesWhereItIsTaken | sign/esign.py:1858-1870 | one more answer sets the value of exactly the prefill fields that take it, by key or, for fields whose key is unanswered, by position, and changes nothing else of the draft |
| Templates.PositionsReachTheirFieldsIffNoKeyReadsAsOne | sign/esign.py:1862-1870 | since a key wins over a position, answers given by position reach their prefill fields, whatever they are, if and only if no prefill field's key reads as another's position |
| Templates.PositionNamesOneField | sign/esign.py:1869-1870 | an answer to one position leaves fields at other positions alone |
| TextLayout.BreakWord | sign/pdf_stamp.py:371-379 | the character loop breaks a word as specified |
| TextLayout.FillParagraph | sign/pdf_stamp.py:366-386 | the word loop fills a paragraph as specified |
| TextLayout.Wrap | sign/pdf_stamp.py:361-387 | the loops wrap a text as specified |
| TextLayout.WrapKeepsEveryCharacter | sign/pdf_stamp.py:361-387 | the lines hold all characters but blanks and line ends, in order, for any measure of width |
| TextLayout.LinesWithASpaceFit | sign/pdf_stamp.py:369-386 | every line that contains a space fits the width |
| TextLayout.AllLinesFitIffLongWordsComeFirst | sign/pdf_stamp.py:361-387 | for a monotone measure and a text without doubled blanks, all lines fit if and only if the empty text does, no character is wider than the box, and every word wider than the box is the first of its paragraph |
| TextLayout.NarrowWordsNeverOverflow | sign/pdf_stamp.py:361-387 | with no word wider than the box all lines fit, however the text is spaced |
| TextLayout.AllLinesFitIffNoWordIsStuck | sign/pdf_stamp.py:361-387 | for any spacing, all lines fit if and only if no word is stuck where the wrap meets it |
| TextLayout.LongSecondWordOverflows | sign/pdf_stamp.py:383-385 | a long word after a short one overflows |
| WrapLaws.WrapsEachParagraph | sign/pdf_stamp.py:361-387 | a text is wrapped paragraph by paragraph |
| WrapLaws.LinesBreakOnlyWhenFull | sign/pdf_stamp.py:366-386 | within a paragraph a line ends only where the next word, or the next character of a broken one, does not fit behind it |
| WrapLaws.FittingParagraphIsKept | sign/pdf_stamp.py:366-386 | a paragraph that fits and begins with no blank is one line, unchanged |
| TextBox.Narrow | sign/pdf_stamp.py:354-355 | the shrinking loop ends, with a size that fits or is at most six |
| TextBox.FitText | sign/pdf_stamp.py:336-358 | the single line drawn |
| TextBox.ShrinkToFit | sign/pdf_stamp.py:405-418 | the loop ends for every starting size, with the first size that fits the height, or none |
| TextBox.FitTextBox | sign/pdf_stamp.py:390-420 | what is drawn: the wrapped lines, or one fitted line |
| TextBox.LargestTriedSize | sign/pdf_stamp.py:405-418 | no larger size that was tried fits, and none is chosen only when none fits |
| TextBox.WrappedLinesLieInTheBox | sign/pdf_stamp.py:408-416 | every baseline of wrapped lines lies inside the box, one leading apart; the left margin is 1.5 points, and so at least is the right one of a line that fits the width |
| TextBox.WrappedLinesHoldTheText | sign/pdf_stamp.py:405-416 | the drawn lines hold the text's characters in order, and those with a space are no wider than the box |
| TextBox.UnwrappedIsOneLine | sign/pdf_stamp.py:400-420 | what is not wrapped is nothing for a blank text and one line otherwise |
| TextBox.FirstTried | sign/pdf_stamp.py:353-406 | the size tried first: the one given, or a share of the box's height within its limits |
| TextBox.SingleLineIsCentred | sign/pdf_stamp.py:351-358 | one line stands in the middle of the box's height, with margins of one point, or at size 6 or below |
| TextBox.LargerSizesAreTooWide | sign/pdf_stamp.py:354-355 | every larger size that was tried is above 6 and too wide |
| TextBox.OneLineHoldsTheText | sign/pdf_stamp.py:347-349 | the line holds the text's characters other than white space, in order, and no line end |

## Left out

- PDF parsing, rendering, rasterising and merging: pages are opaque values with an identity, a rotation and an edited mark; a MediaBox begins at the origin.
- Signatures, hashes, encryption and tokens: sealing the bytes, hashing them and minting tokens are not modelled; tokens are unforgeable values.
- The certificate and the drawn look of a field: the executed copy is the presented pages and the fields stamped on them.
- HTTP, cookies, OAuth, mail, webhooks and configuration: mail appears only as the set of signers invited.
- The database itself: a transaction is atomic. Reads and writes of one handler in drafts, in a submission and in the session handlers are one step.
- EnvelopeStore.Store.Submit: does not model values that are not text (refused as malformed), nor the method and time of adoption; field types are in lower case.
- EnvelopeStore.Store.WriteId: does not model the adoption time and method stored with a value.
- EnvelopeStore.Store.WriteAll: does not model them either.
- ChallengeGate.Gate.VerifyChallenge: does not model the audit events and the number of attempts left in the answer; the pass marker it sets is in module Sessions.
- GuessesInFlight.WrongGuessesAtMostFiveAndInFlight: takes the times of transactions to follow the order in which they run; a guess is timed when it is counted, and a request that dies stays in flight.
- Healing.HealsIffLinkOutlivesClaim: the repeat runs at one time and with nothing between its steps; a seal that fails is released and can be repeated.
- Invitations.EveryoneDueIsInvited: is for envelopes that were sent and for runs in which no call dies; a call that dies between the signature and the cascade takes the invitations with it, and reminders are not modelled. Delivery of mail is taken for granted.
- PrefillLaws.NoTokenIsMissed: takes lines as `_mk_line` makes them.
- PrefillLaws.NoLabelIsMissed: takes them so too.
- EditHistory.RasterisedIffTextReplaced: takes pages with identities of their own, and appended pages that are new.
- Lockout.Table.RecordAttempt: takes times from the epoch on, as the clock gives them.
- Sessions.OpenSessionMetTheChallenge: takes each handler as one step, with addresses stored stripped and in lower case, as `set_signers` stores them.
- Sealed.CompletedCopyIsWhatWasShown: an image that passes the stamp's test, or a text, is taken to be drawn; a drawing call that fails is passed over by the source. Captions under signatures are not modelled.
- SqlTranslate.TranslationSaysTheSame: is for statements run with parameters; a statement run without any is passed to the driver with its `%%` as they are.
- Prefill.Detect: the matches of the merge-token pattern, the key made of a token, its prompt and the type's default width are parameters.
- Editor.DraftEditor.Edit: does not model the refusals of the page engine (no run there, too long, rotated, characters without a glyph) or a limit on items.
- Editor.DraftEditor.Append: does not model the refusal of bytes that are not a PDF.
- Templates.CreateTemplate: does not model the layout mode, tenancy checks, the copied PDF or the JSON in between.
- Redaction, added text blocks, field placement by anchors and the automatic detection's merge into a draft: easy members beside the ones above.
- Reminders, deletion, message updates, downloads, the events of creation and of a degraded seal, and the status cancelled, which is guarded against but never written.
- Email codes and their limits, the inbox and its listing, account management, API keys, operator console and client SDKs.
- Rounding of floating point: coordinates, sizes and times are reals.
