# Keeping an agent's writes bounded and at most once

This project models the parts of the MCP server that stand between an agent and a write to the
backend: the arithmetic challenges every write must pass, the request client, the cache of board
lists, the admission limits, and the structural checks on what the backend sends back. It proves
what those parts are for, in Dafny 4.11. `dafny verify dfyconfig.toml` checks all of it.

Code that changes objects in place is modelled by classes and loops, proved against functions on
values; the properties over whole runs are then proved about those functions.

| file | what it covers |
|---|---|
| `Basics.dfy` | least values, whole-second waits, rolling windows over time stamps |
| `ChallengeTables.dfy` | the two tables of the challenge manager as values, and every operation on them |
| `ChallengeManager.dfy` | the manager itself: records and owner entries as objects changed in place |
| `ChallengeLog.dfy`, `ChallengeRuns.dfy` | a reference that deletes nothing and counts over the full event log; refinement, windows and suspensions over whole runs |
| `ChallengeLimits.dfy` | table bounds, and how long a refused caller has to wait |
| `Solver.dfy` | a reader of the prompt who answers rightly passes |
| `ChallengeIsolation.dfy`, `SharedLimits.dfy` | what one owner can learn of the others, and where the shared limits show |
| `Answers.dfy`, `Grammar.dfy` | expected answers, submitted answers and their normal form; how numbers are written |
| `Printer.dfy` | numbers in words, letter case, separators |
| `ChallengeFlow.dfy`, `KeyDrift.dfy` | issue, verify and reissue, with the idempotency key; a run that loses it |
| `WriteProtocol.dfy`, `Delivery.dfy` | the write tools as interleaved coroutines, over the board cache; what each event does to its call |
| `RequestLoop.dfy`, `BoundedReader.dfy` | the request loop and the streaming body reader of the client |
| `ResponseIds.dfy`, `Boards.dfy` | identities in responses and inputs; finding a board's URL |
| `BoardCache.dfy`, `BoardLoads.dfy` | the board cache, and overlapping loads and invalidations of it |
| `Limiter.dfy` | admission of HTTP requests and the bound on their bodies |
| `Comments.dfy`, `Pagination.dfy` | comment trees and page metadata |

## Reading the model

* Time is `real` and never runs backwards. Limits and durations are arbitrary positive integers;
  only the time to live of the board cache may be any integer.
* Digests of owner keys, payloads and tokens are injective, so the model keeps the values. Ids of
  new challenges are fresh: the manager would overwrite an existing id (`challenge.py:116-117`),
  and the flow relies on `uuid4` (`tools/challenge_flow.py:55`).
* Random draws, responses, durations and the moments at which a coroutine resumes are arbitrary
  parameters. Coroutines are state machines over events; an interleaving is any sequence of events.
  Between them time passes and other loads of board lists come and go (`Delivery.WorldMoves`).
* A decompressor is any deterministic function of the bytes of a member consumed so far, with a
  bounded output buffer, an end-of-member flag, unused data and an unconsumed tail.
* A chain of challenges links every replacement of a caller's own challenge to the challenge it
  replaces: after an expired answer, a wrong one, and one sent in another context.
* Every invalidation of the board cache outside a load is a `Forget` event of `BoardLoads`: the one
  on a 401, 403 or 404 (`client.py:285-287`) and the one after a write.
* `Answers.Beyond` names the exact bound of the range check on answers, see `RangeExact`.

## Where the code does not do what it says

`_normalize_answer` compares `abs(numeric)` with 10000 (`challenge.py:298`), but `abs` rounds to the
28 digits of the decimal context. `Answers.RangeExact` gives the bound the check really enforces,
10000 + 5*10^-24, `Grammar.AcceptedExactly` the answers it therefore accepts, and
`Answers.LooseAnswer` texts above 10000 that pass and are read as 10000. No expected answer comes
near either bound (`Answers.CalculateIsNormal`), and no right answer is lost: `Grammar.RightAnswer`
says which texts are one, and `Solver.SolverIsVerified` that they are accepted, and no others.

The key of a write is said to be bound to its challenge and kept (`README.md:677-690`), but after an
answer in another context the tools other than `create_post` issue a replacement bound to whatever
the answering call carried (`tools/challenge_flow.py:112-129`). A right answer that leaves out the key
it was shown is such an answer, since its key falls back to the challenge id
(`tools/operations.py:20-21`). `KeyDrift.KeyDrifts` shows a chain that ends in a write under another
key. `WriteProtocol.ReplacementKey` says exactly when a replacement keeps the key: if and only if the
answering call's key, the one it supplied or else the challenge id, is the key of the challenge it
answered; so always after an expired or a wrong answer, and whenever the caller supplies the key it
was shown.

Pending challenges of different owners share the record and pending limits, so what another owner
does decides whether an owner gets a challenge. `SharedLimits.SharedLimitsShow` shows how that can
reach an older challenge: the same answers pass when another owner has made room for a second
challenge, and suspend their owner when it has not.

## Model

| member | source | states |
|---|---|---|
| Basics.SecondsUntil | challenge.py:251-252 | a wait is a whole number of seconds, at least one, reaches the deadline, and is the shortest that does |
| ChallengeTables.CleanupAgain | challenge.py:235-248 | lazy cleanup is invisible: cleaning at t1 and then at t2 gives the records and owners that cleaning at t2 alone gives |
| ChallengeTables.VerifyWellFormed | challenge.py:131-202 | no verification leaves the owner of a pending record without a table slot, or a finish time on a pending record |
| ChallengeTables.IssueWellFormed | challenge.py:79-129 | nor does any issue, refused ones included |
| ChallengeManager.ChallengeRecord.Finish | challenge.py:217-220 | finishing sets status and time in place and nothing else |
| ChallengeManager.OwnerEntry.MarkFailure | challenge.py:227-233 | the failure that reaches the limit empties the list and starts the suspension, any other is appended |
| ChallengeManager.Manager.CleanupRecord | challenge.py:236-240 | an overdue pending record finishes at its own expiry, and leaves the table once retention is over |
| ChallengeManager.Manager.Cleanup | challenge.py:235-248 | the deleting loops over both tables, on objects, leave exactly the cleaned tables |
| ChallengeManager.Manager.OwnerState | challenge.py:194-202 | an owner is found or allocated, or refused when the owner table is full, and nobody else changes |
| ChallengeManager.Manager.Admit | challenge.py:92-113 | the suspension and the four limits are checked in order, each with its delay |
| ChallengeManager.Manager.IssueChallenge | challenge.py:79-129 | one issue on the objects has the outcome and the new tables of the value model, owner slot allocated by a refused issue included |
| ChallengeManager.Manager.NoteUnknown | challenge.py:145-158 | an unknown id costs the caller a failure if that can be counted, and is never refused for capacity or suspension |
| ChallengeManager.Manager.VerifyChallenge | challenge.py:131-191 | one verification on the objects has the outcome and the new tables of the value model, in every branch |
| ChallengeRuns.Refinement | challenge.py:79-248 | over every run with a clock that never runs backwards, the pruned manager answers every issue and verification exactly as a manager that deletes nothing and counts over the whole event log |
| ChallengeRuns.IssueWindow | challenge.py:98-103 | wherever it ends, no window of the issue length holds more issuances to an owner than the limit, although owner state is pruned and deleted |
| ChallengeRuns.FailureWindow | challenge.py:222-233 | failures counted against an owner since its last suspension stay below the limit in every window; the manager's next failure suspends exactly if it fills the window that ends there up to the limit, and the manager holds the owner suspended exactly while its last suspension runs |
| ChallengeRuns.SuspensionHolds | challenge.py:222-225 | once the manager has an owner suspended until some moment, nothing is issued to the owner and no answer of the owner is accepted before it, whatever happens in between |
| ChallengeLimits.RunBounded | challenge.py:93-113 | in every reachable state both tables, the pending records of everyone and of each owner, and each issue list are within their limits |
| ChallengeLimits.RetryAfter | challenge.py:204-215 | the limit that refused an issue has a deadline after now, keeps refusing an undisturbed caller exactly until then, and `retry_after` is the wait for it in whole seconds |
| ChallengeLimits.RetryAfterSuffices | challenge.py:93-113 | whoever waits `retry_after` seconds with no other calls is not refused by the same limit again |
| ChallengeIsolation.HolderHasSlot | challenge.py:241-248 | the owner of a pending challenge keeps its table slot through cleanup, with its history |
| ChallengeIsolation.ForeignStep | challenge.py:144-202 | another owner's issue, wrong-owner attempt or unknown id leaves an owner's records and history as they were |
| ChallengeIsolation.Erasure | challenge.py:131-202 | as long as a challenge stays pending, erasing everybody else's operations from a run leaves its owner the same history and the same records, but for challenges issued in only one of the two runs |
| ChallengeIsolation.NonInterference | challenge.py:131-202 | so, full shared tables or not, the verdict on it depends only on the clock and on its owner's own operations, unless the owner answered a challenge it was issued in only one of the two runs |
| SharedLimits.SharedLimitsShow | challenge.py:91-158 | that exception is real: when another owner's finished challenge makes room, an owner is issued a second one and both its right answers pass; without that, the answer to the second is a failure that suspends it, and the right answer to its first is refused |
| Answers.DoubleRounding | challenge.py:275-286 | rounding a quotient with an error below 1/(200*right) and then half up to cents equals rounding the quotient itself |
| Answers.DivisionIsExact | challenge.py:275-286 | the expected answer of a division is the true quotient rounded half up; the 28-digit division never shows |
| Answers.CalculateIsNormal | challenge.py:266-286 | every answer the generator can expect is already in the normal form submitted answers are brought into |
| Answers.HalfUpNearest | challenge.py:286-286 | rounding half up gives the nearest number of cents, the larger one on a tie |
| Answers.KeepsDigits | challenge.py:284-284 | the quotient of a division is worked out to exactly 28 significant digits |
| Answers.HalfEvenNearest | challenge.py:284-298 | the decimal context rounds to the nearest number, to the even one on a tie, in the division and in the range check |
| Grammar.ParseExactly | challenge.py:293-297 | a text is read exactly if it is blanks, perhaps a sign, digits, perhaps a point and digits, and blanks; it then denotes the whole part plus the fraction, negative exactly for a minus sign, however it is taken apart |
| Grammar.RightAnswer | challenge.py:266-305 | a text normalizes to the expected answer exactly if it is so written, in at most 64 characters, and the number rounds half up to the exact result of the drawn expression, itself rounded half up to cents |
| Solver.StaysPending | challenge.py:131-192 | whatever anybody does, a challenge stays as issued until its owner answers it or it expires |
| Solver.SolverIsVerified | challenge.py:79-192 | whoever can read the prompt, and answers it in its context, in time and while not suspended, is verified if and only if the answer rounds to the exact result of what the prompt asks, whatever happened in between |
| Answers.NormalizeFixes | challenge.py:289-305 | a canonical two-place text in range is its own normal form |
| Grammar.NormalizeByValue | challenge.py:289-305 | texts that denote the same number get the same normal form or are refused alike, except exactly when one of them alone exceeds 64 characters and the number is in range |
| Answers.NormalizeIdempotent | challenge.py:299-303 | a normal form is a fixed point, and no zero keeps its sign |
| Answers.RangeExact | challenge.py:298-298 | the range check refuses exactly the magnitudes above 10000 + 5*10^-24 |
| Grammar.AcceptedExactly | challenge.py:289-305 | an answer is accepted as a number exactly if it has at most 64 characters, is so written and denotes a number within that bound; its normal form is that number rounded half up to cents, with no sign on a zero |
| Answers.LooseAnswer | challenge.py:298-303 | ten thousand and up to five units of the 24th place, such as "10000.000000000000000000000001", passes the check for at most 10000 and becomes "10000.00"; six units do not |
| Printer.RandomJoin | challenge.py:318-324 | the loop puts a drawn separator after each word but the last, single spaces in between |
| Printer.InterleavedAt | challenge.py:318-324 | every word is in its place, followed by the separator drawn for it unless it is the last |
| Printer.SpongebobCase | challenge.py:327-336 | letters alternate in case from the drawn start, everything else is kept |
| Printer.Alternates | challenge.py:327-336 | two letters with none in between differ in case, and the first letter has the case drawn |
| Printer.JoinRoundTrip | challenge.py:318-324 | splitting and dropping separators gives back any words free of spaces and separators, whatever was drawn |
| Printer.CaseRoundTrip | challenge.py:308-336 | so does lower-casing first, whatever letter case was drawn |
| Printer.ReadNumberList | challenge.py:339-384 | reading the printed words gives the number back, for every number the printer covers |
| Printer.NumberText | challenge.py:339-384 | the recursive printer writes exactly those words, single spaces in between |
| Printer.ReadSentenceList | challenge.py:308-312 | reading the words of the sentence gives back both operands and the operation |
| Printer.ObfuscateExpression | challenge.py:308-315 | from the obfuscated text, under every draw, a reader recovers the sentence, both operands and the operation |
| ChallengeFlow.IssueChallengeResult | tools/challenge_flow.py:45-79 | an issue through the flow changes the manager's tables and reports the challenge, key and refusal of the value model |
| ChallengeFlow.VerifyOrReissue | tools/challenge_flow.py:82-130 | a verification passes, stops or is replaced by a new challenge, on the objects as in the value model |
| ChallengeFlow.NeverExtended | tools/challenge_flow.py:104-111 | a used or unknown id blocks: no record appears and no replacement is offered |
| ChallengeFlow.KeyShown | tools/challenge_flow.py:55-79 | the key shown with a challenge is the one its record is bound to: the supplied one, else the new id, and none without backend support |
| ChallengeFlow.DrawnIsValid | challenge.py:268-272 | every expression the generator can draw has an answer |
| ChallengeFlow.UuidGroups | tools/input_validation.py:61-68 | a key is one exactly if it is five groups of 8, 4, 4, 4 and 12 lower-case hexadecimal digits joined by hyphens |
| ChallengeFlow.IssueReturns | tools/challenge_flow.py:45-79 | an admitted challenge is shown under its id with the key it is bound to and is on record, pending, for its context until it expires; a refusal passes on the limit and the wait, and hands back the key supplied |
| ChallengeFlow.FlowReturns | tools/challenge_flow.py:93-130 | the write may go ahead exactly after a successful verification; late and wrong answers, and other contexts unless they block, come back as an issue for the same context with the reason; every other outcome stops the call with its reason and wait and leaves the tables as the verification left them |
| WriteProtocol.ReissuedPayload | tools/operations.py:20-21 | a replacement is bound to the very payload, key included, of the call that answered |
| WriteProtocol.ApplyKeeps | tools/activity.py:553-602 | every event of every interleaving keeps the evidence that ties tables, grants, consumed challenges, calls and requests together |
| WriteProtocol.AtMostOneWrite | tools/activity.py:646-679 | in every interleaving of any number of calls the map from HTTP create requests to challenges is injective, and each request is for a challenge issued earlier to the same owner, action and payload and consumed, before it expired, by that very call |
| Delivery.AnswerIsSent | tools/activity.py:646-679 | in every run, if a call's challenge is pending, not expired, the caller's own and for what the call would send, the answer is the expected one and the owner is not suspended, the call consumes it and then, however others interleave, sends exactly that: its challenge, owner, action, fields, board address and key |
| Delivery.SentAsAsked | tools/activity.py:553-602 | and every request sent is what its call was asked for, and what the call that was issued the challenge was asked for: owner, action, fields, board and address |
| Delivery.StartExactly | tools/activity.py:527-553 | a call gets past its first checks exactly if its target fits its action, challenge and answer come together, and every key is a UUID and supported |
| Delivery.ListArrives | tools/activity.py:1078-1088 | a post by board id gets the list that answers the load it forced |
| Delivery.AskIsIssued | tools/challenge_flow.py:45-79 | a call without a challenge ends with one issued for its own context if the limits allow it, and consumes and sends nothing |
| Delivery.AnswerIsReplaced | tools/challenge_flow.py:112-129 | a late or a wrong answer, and for all but posts one in another context, ends the call with a new challenge for its context if the limits allow one, linked to the one answered if that was the caller's own |
| Delivery.AnswerStops | tools/challenge_flow.py:102-120 | used and unknown challenges, suspensions, full tables, and for posts another context, end the call without a new challenge |
| Delivery.TargetFails | tools/activity.py:1078-1089 | a post for a board id that its fresh list does not have ends without a challenge |
| Delivery.CallEnds | tools/activity.py:673-687 | any response ends the call, a failure no less than a success, and so does an abort; nothing is undone |
| WriteProtocol.ReplacementKey | tools/challenge_flow.py:112-130 | a replacement of the caller's own challenge keeps its key if and only if the answering call's key is that key; after an expired or wrong answer it always does, with the whole payload, and also when the caller supplies the key it was shown |
| WriteProtocol.KeyConserved | tools/challenge_flow.py:93-130 | along any chain of replacements that each meet that condition a write carries the key of the first challenge, without a context mismatch its whole payload, and no earlier challenge of a chain was ever consumed |
| WriteProtocol.ChainKeyExactly | tools/challenge_flow.py:93-130 | along any chain whatever, a write carries the key of the first challenge exactly if the call that obtained the last challenge carried it |
| KeyDrift.KeyDrifts | tools/challenge_flow.py:112-130 | without the condition the key changes: a wrong answer, then a right one without the key shown, then the write goes out under the id of the second challenge |
| WriteProtocol.BoardTarget | tools/activity.py:561-602 | a post sent for a board id goes to a URL that two lists both give for that id, one of the issuing call and one of the sending call, each the answer to a load that call forced past the cache after it started |
| RequestLoop.RequestJson | client.py:91-254 | nothing is sent at or after the call's or the caller's deadline; a write is sent at most once, a read again exactly if a server error with a readable body leaves time for it, then and after the wait; otherwise the last reply decides: success exactly for a 2xx that reports no error, and each kind of failure for exactly its replies |
| RequestLoop.WritesNeverRetry | client.py:214-233 | no budget makes a write repeat |
| BoundedReader.Decompressor.Decompress | client.py:313-319 | a call returns at most its budget, and input it does not use is kept as unused data or as an unconsumed tail, the latter only when the budget is spent |
| BoundedReader.GzipIsFeed | client.py:299-324 | being one or more complete members (section 2.2 of RFC 1952) is being swallowed byte by byte up to the end of a member, so the bytes determine the body |
| BoundedReader.DecodeChunk | client.py:313-319 | the member loop ends and decodes the whole chunk across members, dropping nothing, or the bytes cannot end within the budget |
| BoundedReader.ReadBody | client.py:288-324 | a body is accepted exactly if the wire bytes are complete gzip members, or identity, within the decoded and the wire limit, and is then what they decode to; already decoded content is accepted exactly within the limit |
| BoundedReader.ReadResponse | client.py:282-324 | so for a response, whose status 401, 403 or 404 clears the token's cached board lists first, whatever becomes of the body |
| BoundedReader.ChunkingIrrelevant | client.py:303-324 | however the same bytes are cut into chunks they are accepted with the same body, rejected, or found incomplete alike |
| ResponseIds.RequireLongId | tools/response_contract.py:22-31 | an identity is accepted exactly if all its aliases carry the same positive Long, without coercion |
| ResponseIds.OptionalLongId | tools/response_contract.py:25-26 | an optional identity is absent exactly if every alias present is null |
| ResponseIds.TargetIdIsNumeric | tools/response_contract.py:39-44 | a target check succeeds exactly if the request names, in decimal, the identity returned |
| ResponseIds.LookupIdExact | tools/input_validation.py:80-87 | a board lookup accepts exactly the decimal Longs of at most 128 digits, and looks up their value |
| ResponseIds.ObservedIdCanonical | tools/input_validation.py:27-33 | exactly the positive Longs of one to nineteen digits are observed, and two get the same text exactly if they denote the same number |
| Boards.FindBoardUrl | tools/activity.py:1110-1128 | the scan succeeds exactly if every entry has a valid id, and all matching entries agree on one valid URL |
| Boards.UrlOfExactly | tools/activity.py:1117-1126 | an entry has a URL exactly if every alias it uses carries that text, of 1 to 100 lower-case letters, digits, underscores and hyphens |
| Boards.OrderIrrelevant | tools/activity.py:1110-1128 | under any permutation of the list the lookup has the same success with the same URL, or the same failure |
| BoardCache.Store.BeginLoad | cache.py:27-30 | a new valid ticket joins its key's pending set |
| BoardCache.Store.FinishLoad | cache.py:33-39 | the ticket leaves the set, an emptied set leaves the table, and the flag is cleared |
| BoardCache.Store.ExpireEntries | cache.py:46-49 | the deleting loop keeps exactly the younger entries, in order |
| BoardCache.Store.GetBoards | cache.py:52-55 | a read expires first and then looks its key up |
| BoardCache.Store.SetBoards | cache.py:58-68 | a list is stored unless its ticket was revoked or belongs to another key; entries stay in creation order and within capacity |
| BoardCache.Store.ClearBoards | cache.py:71-81 | clearing a key, or all, drops its entries and pending sets and revokes exactly its tickets |
| BoardCache.EvictsOldest | cache.py:58-68 | an insertion loses the expired entries, the old entry of its key and, only at capacity, one more, which is an oldest one |
| BoardCache.ReadIsFresh | cache.py:52-55 | what a read returns was stored for that key less than the time to live ago |
| BoardCache.ReadExactly | cache.py:46-55 | and a read returns a list exactly if an entry of that key with that list is younger than the time to live |
| BoardLoads.Fencing | tools/activity.py:1063-1075 | in every interleaving a cached entry is the response to a load begun no earlier than the last invalidation of its key |
| BoardLoads.CachedUnlessOvertaken | cache.py:58-68 | a response is cached exactly if its load is unfinished and its key was not invalidated since the load began |
| BoardLoads.PendingExact | cache.py:22-39 | the pending table holds exactly the unfinished loads no invalidation has overtaken, and no empty set |
| BoardLoads.CacheBounds | cache.py:46-68 | at every moment entries are in creation order, one a key, and within capacity |
| BoardLoads.HitIsFresh | cache.py:52-55 | a hit is a response stored less than the time to live ago by a load that no invalidation of its key has overtaken |
| BoardLoads.OpenExactly | tools/activity.py:1066-1068 | an unforced read begins a load exactly if no list of its key is younger than the time to live |
| BoardLoads.CloseEnds | tools/activity.py:1073-1074 | the end of a load takes back its own ticket and nothing else |
| BoardLoads.ForcedOpenLoads | tools/activity.py:1063-1068 | a forced refresh is never served from the cache: in every interleaving it begins a load, which stays on record under its key |
| Limiter.RequestLimiter.Enter | transport.py:42-54 | the deque loop, the two limits and the delay, in place |
| Limiter.SlotsAreCounted | transport.py:52-90 | in every interleaving the counter is the number of admitted requests that have not left, and stays within the maximum |
| Limiter.AdmissionWindow | transport.py:43-54 | wherever it ends, no window holds more admissions than the limit |
| Limiter.DequeIsWindow | transport.py:42-44 | when a request is decided, the deque is the sorted in-window suffix of all admissions ever made |
| Limiter.AdmittedExactly | transport.py:45-50 | a request is admitted exactly if a slot is free and the window that ends now is not full |
| Limiter.EntersAndLeaves | transport.py:42-90 | a request holds a slot and is logged exactly if it is admitted, and gives the slot back when it leaves |
| Limiter.SlotRefusal | transport.py:45-49 | with the window open but no slot free the wait is one second |
| Limiter.RetryAfterHolds | transport.py:45-49 | the rate-based Retry-After (section 10.2.3 of RFC 9110) counts down to the exact instant the window stops being full, which lies ahead, so waiting it is long enough |
| Limiter.ReadRequest | transport.py:104-127 | the first unacceptable declared length decides, else the receive loop does |
| Limiter.DeclaredExactly | transport.py:104-114 | every declared length must be a number from 0 to the maximum, and the first that is not decides which error it is |
| Limiter.UntilComplete | transport.py:116-127 | an incomplete body waits, or is given up when the client leaves, and is refused as soon as it is too large, whatever follows |
| Limiter.BodyBound | transport.py:116-127 | however a complete body is cut up it is forwarded whole or refused, by its size alone |
| Comments.FilterComments | tools/activity.py:940-952 | a page is accepted exactly if the identity rules hold throughout and every object converts; the result then has the shape, order and identities of the input, keeps every status, and without one is deleted exactly by the legacy flag, with text exactly if active |
| Comments.KidsAre | tools/activity.py:957-959 | the children are those under `children` if it is there, else those under `replies`, else none |
| Comments.SanitizeExactly | tools/activity.py:955-972 | so is a single tree |
| Comments.PageRooted | tools/activity.py:865-895 | in an accepted page every comment at any depth is on one post, under its tree parent, not its own parent and without text unless active; roots have the parent asked for, or none |
| Pagination.IntField | tools/pagination.py:8-16 | a field is accepted exactly if all aliases used agree on one integer in range |
| Pagination.ReadExactly | tools/pagination.py:19-57 | page metadata is accepted exactly if every field can be read and none contradicts the request or another; it is reported as it is, with each of the two flags standing in for the other |
| Pagination.HasNextExactly | tools/pagination.py:34-48 | with page, size and totals present there is a next page exactly if (page+1)*size is below the total |
| Pagination.HonestIsAccepted | tools/pagination.py:19-57 | no honest page of a finite list is refused, not even past the end, whichever fields are left out |
| Pagination.PageWalk | tools/pagination.py:34-57 | following has_next from page 0 ends after exactly max(1, total_pages) pages, which hold every element once |

## Left out

- NonInterference: an answer to a challenge that was issued in only one of the two runs is excluded, because the record storage and pending limits are shared; `SharedLimits.SharedLimitsShow` shows that it has to be.
- RetryAfter: excludes a full owner table, whose error names a fixed delay (`challenge.py:196-200`) that promises nothing about when a slot comes free.
- DoubleRounding: the working precision must represent half cents, and be exact on every quotient it can represent; otherwise a tie approximated from below would round down.
- ChunkingIrrelevant: whether a rejection reads as over the limit or as bad gzip may depend on the chunks, because the wire limit is checked a chunk at a time before decoding.
- RequestJson: the error branches below 500 are told apart by status code only.
- The conversions of display metadata in a comment (flags, counts, depth, author, times) and of its status to upper case, which enter as their outcome.
- SpongebobCase: letters are the ASCII letters, which is all the sentence contains.
- AtMostOneWrite: the awaits before a call's challenge step other than its board list (status, preflight) are one environment step that may fail or abort the call, and what the backend does with a request is outside.
- Owner keys and payloads that are refused for being blank or too long (`challenge.py:255-265`), before any state is touched.
- Payload fields are text; that an `image_alt` of `None` and of `""` share a digest (`tools/activity.py:550`) is part of the mapping to them.
- SHA-256, JSON encoding, `uuid4`, the random generator and zlib itself.
- The HTTP transport, tool registration and ASGI plumbing: only awaits, as points of interleaving, and responses, as choices of the environment, remain. The replayed receive function of the body bound and the timeout responses of the limiter are part of that.
- Parsing of the boards envelope and of read collections (`tools/parsing.py`): one check each.
- `tools/tool_contract.py`, `tools/home.py`, `tools/rules.py`, `tools/auth.py`, `tools/search.py`, `tools/read_metadata.py`, `tools/status_contract.py`, `tools/constraint_contract.py`: mappings of response fields, with single checks on them.
- `logging_utils.py` and the regular expressions of `tools/write_safety.py`: text redaction and text rules.
- `main.py`, `config.py`, `deploy/`, `scripts/`: process, file and operating system plumbing.
- Display metadata of posts, comments and notes, and the operation lookup tool.
