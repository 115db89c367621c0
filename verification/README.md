# Model of the asynchronous S3 writers, the multipart copier and the SQS sender

This project models four parts of the `cobalt-aws` crate in Dafny and proves what they promise.

* **`AsyncMultipartUpload`**, the poll-driven multipart writer. `AsyncMultipartUpload.dfy` holds it as a class
  whose operations replace and update its state, loop by loop as in the source. Each method is proved equal to a
  function on values in `Multipart.dfy` (state before, call, answers of the futures; state after and result), and
  the promises are proved about those functions: over every sequence of calls of write, flush and close, and over
  every schedule. A schedule is a function `env` from poll counts to answers: the k-th poll of any future yields
  `env(k)` (not ready, succeeded with a tag, or failed, possibly after taking effect), so a statement for all `env`
  is a statement for all orders in which uploads can finish or fail.
  * `MultipartAccounting.dfy` tracks where each issued part is; `MultipartInvariant.dfy` is what every reachable
    state satisfies; `MultipartStorage.dfy` is what the service holds and what was issued, also after failures;
    `MultipartObject.dfy` and `MultipartTheorems.dfy` are about the object a close produces;
    `MultipartBounds.dfy` is conservation, memory, numbering and flow control; `MultipartOutcomes.dfy` is what each call
    answers and when; `MultipartLiveness.dfy` is waking, termination of flush and close, delivery, and fail-stop;
    `Opening.dfy` is when opening and resuming succeed, and what the caller's limits bound; `Inventory.dfy` is which
    bytes a listing stands for, and `Resume.dfy` is interrupting and resuming; `Witnesses.dfy` holds runs that show
    which hypotheses are needed.
* **`AsyncPutObject`**, the simple writer (`PutObject.dfy`), which is the specification that the multipart writer
  refines (`Refinement.dfy`).
* **`S3MultipartCopier`**: part counting in 53-bit floating point (`Float64.dfy`), byte ranges (`CopyPlan.dfy`), the
  concurrent copy with its final sort (`CopyRun.dfy`), and how it ends (`CopyOutcomes.dfy`).
* **`send_messages_concurrently`**: ids, batches and the ordered window (`Sqs.dfy`), how sending ends
  (`SqsOutcomes.dfy`), and that it never gets stuck (`SqsLiveness.dfy`).

`Prelude.dfy`, `Arithmetic.dfy`, `Cutting.dfy`, `S3Service.dfy` and `AsyncWriting.dfy` hold what these share: lists
of pieces, integer arithmetic, the canonical cut of a content into parts, the parts a service keeps by number and
the sort by number, and the vocabulary of calls and outcomes.

## What is found about the code

* A flush that reports a failed upload leaves the writer usable, with the whole batch of results dropped. A later
  close succeeds and yields an object without those parts. The exact law: after a successful close, the object is
  the accepted bytes if and only if no flush reported a failed request (`MultipartTheorems.EndToEnd`); a run that
  loses everything is `Witnesses.FlushErrorLosesBytes`. A second flush does not show the loss: it succeeds, with
  nothing held by the service (`Witnesses.SecondFlushHidesLoss`).
* Resuming does not notice parts that the first writer lost. The exact law, for a first writer interrupted at any point
  while it accepts bytes, whatever failed before and whichever of its parts arrived: the resumed object is that
  writer's bytes cut down to whole parts, followed by the second writer's bytes, if and only if the pages read name
  every part from 1 to floor(n / size) and no flush of the second writer reported a failed request
  (`Resume.InterruptAndResume`). For a first writer that failed or began to close, the same holds of all issued parts
  (`Resume.ResumeAnywhere`); for one that itself resumed the upload, of what it found and of its own parts
  (`Resume.ResumeAgain`). After a clean flush and over a full listing nothing is lost (`Resume.FlushAndResume`).
* `from` treats a failed listing page as the end of the listing and reports nothing. The exact law, for a listing that
  is faithful but for page k: the resumed object is complete if and only if the service holds every whole part, no page
  from k on names a part, and no flush of the second writer failed (`Resume.ResumeWithFailedPage`). A resumed writer
  that starts over at part 1 and closes with an empty object is `Witnesses.ListingErrorLosesParts`.
* Writing zero bytes never yields `Ok(0)`: the call is pending however much room there is
  (`MultipartBounds.EmptyWriteIsNeverOk`).
* Writing after close has begun abandons the pending completion (`Witnesses.WriteAfterCloseAbandons`).
* A copier with a concurrency of zero is accepted and never does anything (`CopyRun.ZeroConcurrencyNeverStarts`).
* The documentation of `new` and `from` asks for a part size larger than 5 MiB and smaller than 5 GiB; the code, and
  so the model, also accepts both bounds.
* A part size equal to the source size is copied in one request by `send`, as its inline comment says, while the type's
  documentation speaks of a smaller source only.

## What is taken as given

* The service keeps parts by number, with the tag it returned for each; it assembles an object from a strictly
  ascending list of parts it holds under the listed tags and refuses any other list. A new upload id starts with no
  parts. An effect of a request on the service is seen when its answer is delivered. A page of a listing names parts
  that the service holds, each number once and with the tag it is held under.
* `conv`'s checked conversion of an integer to `f64` refuses integers beyond 2^53, and its conversion of an integral
  `f64` to `i64` refuses values out of range. Rounding follows sections 4.3.1 and 5.4.1 of IEEE 754-2019.
* Byte ranges are inclusive at both ends (section 14.1.2 of RFC 9110). The source object does not change during a copy.
* `max_uploading_parts * part_size` fits the machine's `usize`; `CapacityNeverUnderflows` bounds every intermediate
  value by that product.

## Model

| member | source | states |
|---|---|---|
| AsyncMultipart.AsyncMultipartUpload.New | src/s3/async_multipart_put_object.rs:125-167 | opening a writer fails for exactly the stated argument and response errors, and otherwise starts at part 1 with nothing in flight |
| AsyncMultipart.AsyncMultipartUpload.From | src/s3/async_multipart_put_object.rs:179-266 | resuming reads pages until one fails or is the last, and starts above the highest listed number with the listed parts completed |
| AsyncMultipart.AsyncMultipartUpload.PollAll | src/s3/async_multipart_put_object.rs:287-299 | the loop that pops from the back computes the recursive polling function, with the service's parts and the poll count |
| AsyncMultipart.AsyncMultipartUpload.CheckUploads | src/s3/async_multipart_put_object.rs:339-349 | finished uploads join the completed parts, or the batch is dropped with its first error |
| AsyncMultipart.AsyncMultipartUpload.StartFullParts | src/s3/async_multipart_put_object.rs:390-402 | the cutting loop starts exactly the full parts of the buffer, in order and consecutively numbered, and keeps the rest |
| AsyncMultipart.AsyncMultipartUpload.PollWrite | src/s3/async_multipart_put_object.rs:354-420 | a write moves the object's whole state, with its history, as the function on values does, and keeps the capacity discipline |
| AsyncMultipart.AsyncMultipartUpload.PollFlush | src/s3/async_multipart_put_object.rs:423-450 | the same for flush, which keeps the state `Writing` on an upload error |
| AsyncMultipart.AsyncMultipartUpload.PollClose | src/s3/async_multipart_put_object.rs:453-556 | the same for close, through every state of the machine |
| Multipart.CutContents | src/s3/async_multipart_put_object.rs:391-402 | cutting the buffer into parts loses and reorders nothing |
| MultipartAccounting.PollAllSorts | src/s3/async_multipart_put_object.rs:287-299 | polling sorts uploads into pending and landed ones, never duplicating or altering one; every landed part is held by the service with its own body and tag |
| MultipartAccounting.TryCollectIsAllOrNothing | src/s3/async_multipart_put_object.rs:302-317 | a batch of results is collected whole if all succeeded, and not at all otherwise |
| MultipartAccounting.CheckKeepsAccount | src/s3/async_multipart_put_object.rs:339-349 | a check keeps the account of all parts, and drops parts exactly when it reports an error |
| MultipartInvariant.StepKeepsInv | src/s3/async_multipart_put_object.rs:354-556 | every call keeps the invariant, and parts go missing in exactly one case: a flush that reports a failed request |
| MultipartInvariant.RunKeepsInv | src/s3/async_multipart_put_object.rs:354-556 | every run keeps the invariant, and parts are missing if and only if some flush reported a failed request |
| MultipartTheorems.AcceptedIsWhatCallersWereTold | src/s3/async_multipart_put_object.rs:388-413 | the bytes the writer accounts for are those its callers were told were written |
| MultipartTheorems.EndToEnd | src/s3/async_multipart_put_object.rs:354-556 | after a successful close the object is the imported bytes followed by the accepted bytes if and only if no flush reported a failed request; otherwise it is shorter; the submitted list is strictly ascending, and without such a flush complete |
| MultipartTheorems.NewWriterEndToEnd | src/s3/async_multipart_put_object.rs:125-556 | the same for a new writer: object, canonical bodies, and the submitted list exactly 1..k |
| MultipartTheorems.CuttingIgnoresSchedule | src/s3/async_multipart_put_object.rs:391-402 | two successful runs with the same accepted bytes issue the same parts, whatever the slicing, limits and schedules |
| MultipartTheorems.CanonicalRun | src/s3/async_multipart_put_object.rs:479-483 | the issued bodies are the one-shot cut of the accepted bytes, ceil(n / size) of them |
| Cutting.SplitShape | src/s3/async_multipart_put_object.rs:390-402 | the one-shot cut has ceil(n / size) bodies, all full but the last, which is not empty, and concatenates to the content |
| MultipartBounds.ConservationInEveryRun | src/s3/async_multipart_put_object.rs:364-414 | in every reachable writing state without a failed flush, in-flight and completed parts are together exactly the issued ones, and their bytes followed by the buffer are the accepted bytes |
| MultipartBounds.EveryNumberInOnePlace | src/s3/async_multipart_put_object.rs:287-299 | then every number below the next one is in flight or completed, and never both |
| MultipartBounds.ConstantMemoryInEveryRun | src/s3/async_multipart_put_object.rs:374-402 | in every reachable state in-flight uploads are at most max, and in-flight and buffered bytes at most max * part size |
| MultipartBounds.PeakInsideCalls | src/s3/async_multipart_put_object.rs:390-404 | inside a write, when the second check polls, uploads in flight are at most max and their bytes with the rest buffered at most max * part size; a close starts its last upload only with room for it |
| MultipartBounds.CapacityNeverUnderflows | src/s3/async_multipart_put_object.rs:374-376 | neither capacity subtraction goes below zero, and neither the product nor the difference exceeds max * part size |
| MultipartBounds.NextPartNumber | src/s3/async_multipart_put_object.rs:401 | the next part number and the buffered length are determined by the number of accepted bytes |
| MultipartBounds.PartNumberFitsI32 | src/s3/async_multipart_put_object.rs:401 | the 32-bit part number is in range if and only if the accepted bytes are below a stated bound |
| MultipartBounds.FlowControl | src/s3/async_multipart_put_object.rs:372-388 | without failures a write takes at least one byte and as many as fit, or is pending exactly when max uploads stay in flight, the buffer then being empty |
| MultipartBounds.EmptyWriteIsNeverOk | src/s3/async_multipart_put_object.rs:376-387 | a write of no bytes is pending or fails, and never succeeds |
| MultipartOutcomes.CheckOutcome | src/s3/async_multipart_put_object.rs:287-349 | a check polls every upload once; those not ready stay in flight whatever the others answer, and the others are completed if none failed and dropped with one error otherwise |
| MultipartOutcomes.WriteOutcome | src/s3/async_multipart_put_object.rs:354-420 | a write fails if and only if an upload it polls has failed, and only then is the writer lost; after close has begun or after a failure it polls nothing and fails |
| MultipartOutcomes.FlushOutcome | src/s3/async_multipart_put_object.rs:423-450 | a flush polls every upload once, fails if and only if one has failed, succeeds if and only if all have succeeded, and keeps the writer writing; after close has begun it fails |
| MultipartOutcomes.CloseOutcome | src/s3/async_multipart_put_object.rs:453-556 | a close fails if and only if a request it polls has failed, succeeds if and only if the completion it polls has succeeded, and otherwise is pending and closing goes on |
| MultipartOutcomes.CloseWritingOutcome | src/s3/async_multipart_put_object.rs:459-500 | closing a writer that accepts bytes starts the upload of what is buffered, unless all max uploads stay in flight, and then goes on to completing |
| MultipartLiveness.NoLostWakeUp | src/s3/async_multipart_put_object.rs:378-538 | a pending call has woken its task, or holds a future polled and found pending in that call |
| MultipartLiveness.EveryUploadIsPolled | src/s3/async_multipart_put_object.rs:378-538 | a call that does not fail has polled every upload it leaves in flight, just started ones included, and wakes its own task exactly when it is pending and nothing else will |
| MultipartLiveness.CloseTerminates | src/s3/async_multipart_put_object.rs:453-556 | if every poll is productive, close is ready within u + 2 polls with u > 0 uploads in flight, and within 3 with none, and then successful if and only if no request polled on the way has failed |
| MultipartLiveness.CloseDelivers | src/s3/async_multipart_put_object.rs:453-556 | a usable writer without a failed flush, closed by productive polls with no further failures, ends in a successful close whose object is the imported bytes followed by all accepted bytes |
| MultipartLiveness.PromptServiceDelivers | src/s3/async_multipart_put_object.rs:453-556 | with a service that answers every poll with success, whatever was accepted is delivered |
| MultipartLiveness.FlushTerminates | src/s3/async_multipart_put_object.rs:423-442 | if every poll is productive, flush is ready within u polls with u > 0 uploads in flight, and at once with none |
| MultipartLiveness.FailStop | src/s3/async_multipart_put_object.rs:362-555 | after a failed write or a ready close, every later call fails and asks nothing more of the service |
| MultipartLiveness.SingleCompletion | src/s3/async_multipart_put_object.rs:495-555 | in a whole run at most one list is submitted and close succeeds at most once |
| Opening.NewOutcome | src/s3/async_multipart_put_object.rs:125-167 | a writer is opened if and only if the part size is 5 MiB to 5 GiB, the limit is not zero and the response has an upload id; it starts fresh at part 1 with the limit asked for, or 100; otherwise the first complaint is the error |
| Opening.ImportOutcome | src/s3/async_multipart_put_object.rs:179-266 | an upload is resumed if and only if the arguments are good and every part read has a number; the parts read are completed one by one, and numbering starts above them |
| Opening.PagesRead | src/s3/async_multipart_put_object.rs:213-219 | the parts read are those of the pages up to the first that is not truncated, that could not be fetched, or that is not there |
| Resume.ToCompletedOutcome | src/s3/async_multipart_put_object.rs:221-244 | listed parts are taken over, each with its number and tag, if and only if all have a number |
| Opening.NewWriterMemory | src/s3/async_multipart_put_object.rs:159 | in every run of a new writer, uploads in flight are at most the number the caller asked for (100 by default), and in-flight and buffered bytes at most that many parts |
| Opening.ResumedWriterMemory | src/s3/async_multipart_put_object.rs:257 | the same for a resumed writer |
| Opening.NewWriterDelivers | src/s3/async_multipart_put_object.rs:125-556 | with a service that answers every poll with success, opening with good arguments, writing and flushing in any way, and closing ends with the accepted bytes as object |
| Resume.ResumedNumbering | src/s3/async_multipart_put_object.rs:246-251 | a resumed writer starts just above every listed number, gaps or not, and at 1 when nothing is listed |
| Resume.ResumedRun | src/s3/async_multipart_put_object.rs:199-265 | its submitted list is the listed parts in number order followed by the new ones, strictly ascending, and its object their bytes in that order |
| MultipartStorage.RunStoresIssued | src/s3/async_multipart_put_object.rs:287-349 | in every state of every run, failures included, the service holds nothing but what it held before and issued parts with their issued bodies |
| MultipartStorage.RunIssuesInOrder | src/s3/async_multipart_put_object.rs:388-413 | in every state of every run no issued part is empty, and the issued bytes are a beginning of the accepted ones or the other way round |
| Resume.InterruptAndResume | src/s3/async_multipart_put_object.rs:199-265 | write, interrupt at any point of writing and after any failure, resume, write, close yields the first bytes cut to whole parts followed by the second bytes if and only if the pages read name every whole part and no flush of the second writer failed |
| Resume.ResumeAnywhere | src/s3/async_multipart_put_object.rs:199-265 | the same for a first writer in any state, failed and closing ones included, about all its issued bytes |
| Resume.ResumeFromOrigin | src/s3/async_multipart_put_object.rs:199-265 | the general law, for a first writer that started over any parts it found in full: what it found, all its issued bytes and the second bytes make the object if and only if the pages read name all of the former and no flush of the second writer failed; the law then applies to the second writer in turn |
| Resume.ResumeAgain | src/s3/async_multipart_put_object.rs:199-265 | the law for a first writer that itself resumed the upload, interrupted at any point of writing, in terms of its accepted bytes |
| Resume.FlushAndResume | src/s3/async_multipart_put_object.rs:199-265 | write, flush successfully and without an earlier failed flush, resume over a full listing, write, close yields the first bytes cut to whole parts followed by the second bytes if and only if no flush of the second writer failed |
| Resume.FlushedIsStored | src/s3/async_multipart_put_object.rs:423-442 | after a successful flush the writer still accepts bytes, nothing is in flight, and the issued bodies are the accepted bytes cut to whole parts; without an earlier failed flush the service holds exactly those parts with their bodies |
| Resume.FailedPageLosesItsParts | src/s3/async_multipart_put_object.rs:213-241 | over a listing whose page k fails `from` fails for no other reason than before, and what it reads is everything held if and only if no page from k on names a part |
| Resume.ResumeWithFailedPage | src/s3/async_multipart_put_object.rs:213-265 | with page k of the listing failing, the resumed object is complete if and only if the service holds every whole part, no page from k on names a part, and no flush of the second writer failed |
| Witnesses.PendingAreReversed | src/s3/async_multipart_put_object.rs:291-297 | polling reverses the list of pending uploads |
| Witnesses.UnsortedIsRefused | src/s3/async_multipart_put_object.rs:505 | uploads that finish in one poll complete in descending order, a list the service refuses until it is sorted |
| Witnesses.FlushErrorLosesBytes | src/s3/async_multipart_put_object.rs:433 | a run whose flush fails, whose close succeeds, and whose object lacks the accepted bytes |
| Witnesses.SecondFlushHidesLoss | src/s3/async_multipart_put_object.rs:423-442 | a run whose first flush fails and whose second succeeds, with its bytes accepted and nothing held by the service |
| Witnesses.ListingErrorLosesParts | src/s3/async_multipart_put_object.rs:213-251 | part 1 is held and the listing fails: resuming succeeds at part 1, and a close succeeds with an empty object |
| Witnesses.WriteAfterCloseAbandons | src/s3/async_multipart_put_object.rs:418 | a write after close has begun fails, and no later call completes the upload |
| PutObject.AsyncPutObject.PollWrite | src/s3/async_put_object.rs:75-89 | the simple writer's write moves its whole state as the function on values does |
| PutObject.AsyncPutObject.PollFlush | src/s3/async_put_object.rs:91-98 | its flush changes nothing and fails once closing has begun |
| PutObject.AsyncPutObject.PollClose | src/s3/async_put_object.rs:100-133 | its close takes the buffer, sends it once, and moves through its three states |
| PutObject.PutEndToEnd | src/s3/async_put_object.rs:75-133 | a successful close stores all accepted bytes, sent as one body in one request |
| PutObject.PutProtocol | src/s3/async_put_object.rs:75-133 | before a close every write takes all its bytes and every flush succeeds, afterwards both fail; the first close sends the one request and is pending, later ones answer what the request answers until it has, and then fail |
| Refinement.StepRefines | src/s3/async_multipart_put_object.rs:354-556 | one call on the multipart writer is at most one call on the simple writer, with the same outcome |
| Refinement.RunRefines | src/s3/async_multipart_put_object.rs:354-556 | every usable run without a failed flush is a run of the simple writer with the same visible outcomes and final state |
| Refinement.SameObject | src/s3/async_put_object.rs:75-133 | from the same accepted bytes both writers produce the same object if and only if no flush of the multipart writer failed, whatever the slicing and schedules |
| Float64.QuotientIsNearest | src/s3/multipartcopy.rs:574 | division is correctly rounded: a 53-bit significand at most half a unit off, the even one in a tie |
| Float64.CeilOfQuotientIsExact | src/s3/multipartcopy.rs:574 | the ceiling of the correctly rounded quotient of two integers up to 2^53 is the exact ceiling |
| CopyPlan.PartCountIsExact | src/s3/multipartcopy.rs:563-575 | for all positive sizes the part count is the exact ceiling if both are at most 2^53, and a range error otherwise |
| CopyPlan.PartCountNeedsBounds | src/s3/multipartcopy.rs:563-575 | within the service's limits the count always exists; two unbounded sizes for which it does not |
| CopyPlan.RangesTile | src/s3/multipartcopy.rs:537-561 | the ranges tile the source, numbered 1..n, all but the last one part long; no conversion fails and no 64-bit operation wraps |
| CopyPlan.RangesCutCanonically | src/s3/multipartcopy.rs:550-559 | the planned ranges cut a source as the one-shot cut does |
| CopyRun.CopyIsExact | src/s3/multipartcopy.rs:492-535 | for every order of finishing or failing copies: at most max in flight, only the service's errors, the submitted list 1..n, and a completed copy equal to the source |
| CopyRun.FinishedCopyIsExact | src/s3/multipartcopy.rs:431-451 | the sorted list is 1..n and the service assembles exactly the source from it |
| CopyRun.CopyFinishes | src/s3/multipartcopy.rs:505-530 | after n landings in any order the list is submitted, and completing it yields the source |
| CopyOutcomes.CopyOutcome | src/s3/multipartcopy.rs:500-535 | for every run of events: failed if and only if a part copy or the completion failed, done if and only if the completion succeeded after n part copies, awaiting completion if and only if n have succeeded and nothing else; until then as many copies are in flight as the limit allows |
| CopyOutcomes.BeginOutcome | src/s3/multipartcopy.rs:492-504 | a multipart copy starts if and only if the part is no larger than the source and the response has an upload id; otherwise it fails with the reason |
| CopyOutcomes.EndedStays | src/s3/multipartcopy.rs:527-535 | a copy that has ended stays as it is |
| CopyRun.ZeroConcurrencyNeverStarts | src/s3/multipartcopy.rs:525 | with a concurrency of zero nothing is ever copied |
| CopyRun.SendIsTotal | src/s3/multipartcopy.rs:459-478 | for every allowed size, a single copy of at most 5 GiB or 2 to 2^20 valid parts; other lengths are refused |
| CopyOutcomes.SendOutcome | src/s3/multipartcopy.rs:459-478 | which way a source is copied, or the error, for every length reported |
| CopyOutcomes.PartSizeOutcome | src/s3/multipartcopy.rs:181-193 | part sizes are 5 MiB to 5 GiB, and others are refused with the reason |
| CopyOutcomes.RefusedRanges | src/s3/multipartcopy.rs:214-228 | a range starts at a byte and does not end before it, and an empty source has none |
| Sqs.DecimalRoundTrip | src/sqs.rs:72 | a decimal id can be read back, so that ids of different positions differ |
| Sqs.DistinctIds | src/sqs.rs:68-75 | two entries of one stream have different ids |
| Sqs.ChunksBeforeError | src/sqs.rs:76-77 | before the first bad item come exactly the full batches of the good items ahead of it |
| Sqs.SuccessSendsEverythingOnce | src/sqs.rs:66-90 | a successful run sends every message once, under its position as id, in ceil(n / 10) batches of 1 to 10 that concatenate to the input, and never holds more than `concurrency` unreturned batches |
| Sqs.ErrorStopsSending | src/sqs.rs:66-90 | with a first bad message k no run succeeds, and the requests sent are among the first floor(k / 10) full batches, each sent at most once |
| SqsOutcomes.SendingOutcome | src/sqs.rs:66-90 | sending succeeds only if every message is good and no request was answered with an error, and fails only with the error of the first bad message or because a request was |
| SqsOutcomes.StartOutcome | src/sqs.rs:56-65 | sending starts if and only if the concurrency is not zero and the lookup yields an address; otherwise it has failed with the reason and nothing is sent |
| SqsLiveness.WindowCanFill | src/sqs.rs:88 | as many requests as the concurrency allows can be in flight at once |
| SqsLiveness.NeverStuck | src/sqs.rs:76-90 | every state reached without an outcome has an event that changes it |
| SqsLiveness.SendingFinishes | src/sqs.rs:66-90 | of c batches, any 4c + 1 events that each change something lead to an outcome, which is success if and only if every message is good and no request was answered with an error |
| SqsLiveness.SendingCanSucceed | src/sqs.rs:66-90 | good messages are sent successfully by some schedule of 4 * ceil(n / 10) + 1 events |

## Left out

- The AWS SDK's requests, credentials, access control lists and tracing: a request is a future whose answers the environment chooses.
- Entity tags and checksums: one opaque tag stands for all of them.
- Server-side limits the code does not enforce, among them the limit of 10,000 parts and the refusal of an empty part list.
- The part copy response that reports success without a result: it counts as a failed part copy.
- Per-entry failures in a batch response of the queue, which the code discards.
- Wakers and pinning: a waker is the poll at which it was registered, and waking is counted.
- Wrap-around of the 32-bit part number: part numbers are integers, and `MultipartBounds.PartNumberFitsI32` says when they fit.
- The time at which a request takes effect on the service: it is the delivery of the answer. A request dropped before its answer has no effect in the runs of one writer; resuming (`Resume.ResumeFromOrigin` and what follows from it) allows the service to hold any of the issued parts by then.
- JSON serialization: a message arrives as its text or as an error.
- Readiness of the message stream: pulling an item is an event the environment may delay, so that every interleaving of pulling, starting, answering and returning is covered.
- The in-place sort of the completed parts: it is a stable insertion sort on values with the same result.
- Queue name validation, `src/s3/s3_object.rs`, `src/s3/mod.rs`, `src/lambda.rs`, `src/config.rs`, `src/athena.rs`, `src/localstack.rs`, `src/types.rs`: parsing, adapters and runtime glue.
