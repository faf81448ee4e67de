# E-mail case ingestion, modelled in Dafny

This project models the e-mail ingestion of the RH-NLP architecture. It covers two
programs.

**The back end** (`arquitetura/extract_email_be.py`) receives a job whose content is
`parameter file@output file@option`. It proceeds as follows:

1. It reads the parameter file and checks it.
2. It loads the JSON list of support cases named there.
3. It turns each case's e-mail thread into chunks. Every chunk is the case summary, a blank
   line and a run of whole rendered e-mail blocks.
4. It stores each chunk in a vector-database collection under the id
   `case_<case number>_chunk_<index>`. The chunk is stored only when that id is not stored
   yet.

The option `-r`, in either case, deletes the collection first. A case that raises while
being processed is skipped.

**The front end** (`arquitetura/extract_email_fe.py`) posts the job envelope. It then polls
for the result every two seconds, until a reply other than `'Nok'` arrives or 120 seconds
have passed.

Modules, in dependency order:

- `Text`: decimal rendering, `split`/`join`, `lower`, `count` and concatenation.
- `Json`: the values `json.load` produces, and `str()` of them.
- `CaseParser`: `_extract_case_info`.
- `Segmenter`: rendering and `_process_case_emails`.
- `SegmentProperties`: what the segmentation promises.
- `EmailCount`: what `email_count` counts.
- `VectorStore`: the collections of the database client, as a class.
- `Ingest`: the write loop and `_process_email_data`.
- `Handler`: `_extract_email_be`.
- `FrontEnd`: the envelope and the poll loop.

Each loop of the source is a method with loop invariants. It is proved equal to a
functional specification, and the properties are lemmas about that specification:

- `Segmenter.ProcessCaseEmails` against `Segmenter.CaseChunks`;
- `Ingest.StoreCaseChunks`, `Ingest.StoreCases` and `Ingest.ProcessEmailData` against
  `Ingest.StoreCase`, `Ingest.IngestCases` and `Ingest.EmailDataOutcome`;
- `FrontEnd.AwaitResult` against `FrontEnd.Await`.

What the programs get from outside becomes a parameter:

- the embedding model: `encode: string -> Embedding`;
- the failures of client start-up, of opening the collection and of loading the model: an
  `InitFault`;
- the files that exist and what `json.load` makes of them: a map from path to `FileRead`;
- the clock and the HTTP replies: a `World`;
- the time stamp of the envelope: the `moment` parameter.

Specific behaviour:

- The segmentation is pinned down completely by three rules:
  - each chunk's e-mails part is a run of whole blocks, in thread order;
  - a run of two or more blocks fits `max_chunk_size`;
  - a run is closed only when the next block does not fit behind it. The test is a strict
    `>`, and the summary does not count toward the size.

  `SegmentProperties.SegmentCharacterization` proves that these rules characterise the
  loop's output exactly.
- Ids are injective in the case number and the index (`Ingest.ChunkIdInjective`). Two cases
  that share a case number, however, share their ids. In particular, every case without a
  case number is `"unknown"`. A later case with that number finds its chunks 0 to k-1, where k is
  the earlier case's chunk count, taken for chunks that are already stored. A later case with
  no more chunks than the earlier one therefore stores nothing
  (`Ingest.LaterCaseWithSameNumberIsSkipped`); any further chunks it has are stored.
- `email_count` counts occurrences of `--- Email` in the buffer. This equals the number of
  e-mails in the chunk when no field quotes the marker
  (`EmailCount.EmailCountIsRunLength`). A body that quotes it is counted twice
  (`EmailCount.QuotedMarkerIsCounted`).
- A reply other than `'Nok'` can still be reported as a timeout. This happens when the clock
  reading after the loop has passed the deadline (`FrontEnd.DeadlineRace`).

## Model

| member | source | states |
|---|---|---|
| Text.NatToDecimal | arquitetura/extract_email_be.py:109 | the decimal text of an index is non-empty, all digits, one digit exactly for indices below 10, and starts with `0` only for 0 |
| Text.DecimalRoundTrip | arquitetura/extract_email_be.py:109 | reading the decimal text of n back gives n |
| Text.DecimalInjective | arquitetura/extract_email_be.py:109 | different indices have different decimal texts |
| Text.Split | arquitetura/extract_email_be.py:29 | `split` yields one more part than the separator occurs, and no part contains the separator |
| Text.SplitJoin | arquitetura/extract_email_be.py:29 | splitting parts without the separator, joined by it, gives the parts back |
| Text.JoinSplit | arquitetura/extract_email_be.py:29 | joining the parts of a split by the separator gives the text back |
| Text.Lower | arquitetura/extract_email_be.py:71 | `lower()` keeps the length and lowers the ASCII letters A-Z, leaving every other character as it is |
| Text.LowerIsDashR | arquitetura/extract_email_be.py:71 | the option compares equal to `-r` after `lower()` exactly when it is `-r` or `-R` |
| Text.FlattenConcat | arquitetura/extract_email_be.py:198 | concatenating two lists of pieces concatenates their concatenations |
| CaseParser.Attribute | arquitetura/extract_email_be.py:144-150 | a case attribute is the record's value when present and `""` otherwise |
| CaseParser.ExtractCaseInfo | arquitetura/extract_email_be.py:142-151 | the case number is str() of the stored value, or `"unknown"` when missing; each other attribute is the stored value or `""` |
| CaseParser.NumericCaseNumber | arquitetura/extract_email_be.py:143 | a numeric case number becomes its decimal digits, from which the number reads back |
| Segmenter.Blocks | arquitetura/extract_email_be.py:172-183 | a thread renders to one block per e-mail |
| Segmenter.BlockAt | arquitetura/extract_email_be.py:172-174 | block i renders e-mail i under the number i + 1 |
| Segmenter.RenderedBlocksNonEmpty | arquitetura/extract_email_be.py:173-183 | no rendered block is empty, so a non-empty buffer holds at least one block |
| Segmenter.EmailChunks | arquitetura/extract_email_be.py:187-195 | one e-mails chunk per run, in order, each made of the summary and that run's buffer |
| Segmenter.PackingStep | arquitetura/extract_email_be.py:186-198 | one pass either closes the buffer as a chunk and restarts it with the block, or appends the block |
| Segmenter.StopsAtNonObject | arquitetura/extract_email_be.py:172-175 | the first e-mail that is not an object makes the case raise |
| Segmenter.ProcessCaseEmails | arquitetura/extract_email_be.py:153-224 | the loop's outcome is the specified chunk list, or the exception the case raises |
| SegmentProperties.PackStateIsGreedy | arquitetura/extract_email_be.py:185-198 | after every pass, the closed runs plus the open buffer are a greedy partition of the blocks seen so far |
| SegmentProperties.SegmentIsGreedy | arquitetura/extract_email_be.py:185-210 | the runs concatenate to the blocks; each is non-empty; a run of two or more blocks fits; each closed run overflows into the next |
| SegmentProperties.GreedyPartitionUnique | arquitetura/extract_email_be.py:186-210 | any partition obeying those rules is the one the loop builds |
| SegmentProperties.SegmentCharacterization | arquitetura/extract_email_be.py:186-210 | runs are the loop's segmentation if and only if they obey the greedy rules |
| SegmentProperties.BuffersConcatenate | arquitetura/extract_email_be.py:186-210 | the chunk buffers concatenate to all blocks in thread order: nothing lost, nothing split |
| SegmentProperties.ChunksCarryCase | arquitetura/extract_email_be.py:187-222 | there is at least one chunk, and every chunk carries the case's number and account |
| SegmentProperties.ChunksOfNonEmptyThread | arquitetura/extract_email_be.py:172-210 | with e-mails, every chunk is an e-mails chunk whose content is summary, blank line and its run; email_count counts its buffer's markers |
| SegmentProperties.ChunksOfThread | arquitetura/extract_email_be.py:187-222 | the lone `case_info` chunk comes exactly when there are no e-mails; otherwise all chunks are e-mails chunks; the metadata's `chunk_type` text is `case_info` or `emails` accordingly |
| SegmentProperties.ThreeBlocksUnder700 | arquitetura/extract_email_be.py:186 | blocks of 250, 400 and 500 under a limit of 700 become the runs [250, 400] and [500] |
| SegmentProperties.OversizedBlockStaysWhole | arquitetura/extract_email_be.py:186-198 | wherever it stands in the thread, a block longer than the limit is uncut and alone in its chunk |
| SegmentProperties.OnlyBlockStaysWhole | arquitetura/extract_email_be.py:186-210 | a thread of one e-mail gives one run holding its block, however long |
| SegmentProperties.OversizedBlockClosesBuffer | arquitetura/extract_email_be.py:186-196 | an oversized block behind a non-empty buffer closes that buffer and starts its own run |
| SegmentProperties.ExactFitShares | arquitetura/extract_email_be.py:186 | two blocks that fill the limit exactly share one chunk (strict `>`) |
| EmailCount.HeadingCount | arquitetura/extract_email_be.py:174 | a block heading contains the marker exactly once |
| EmailCount.RenderedEmailCount | arquitetura/extract_email_be.py:173-183 | a block holds one marker plus those quoted in its fields |
| EmailCount.MarkerFreeBlocks | arquitetura/extract_email_be.py:172-183 | when no field quotes the marker, every block holds it exactly once |
| EmailCount.CountOfRun | arquitetura/extract_email_be.py:193 | the buffer of such blocks holds one marker per block |
| EmailCount.EmailCountIsRunLength | arquitetura/extract_email_be.py:193-208 | when no field quotes the marker, each chunk's email_count is the number of e-mails in it |
| EmailCount.EmailCountsAddUp | arquitetura/extract_email_be.py:186-210 | when no field quotes the marker, email_counts add up to the case's number of e-mails |
| EmailCount.QuotedMarkerIsCounted | arquitetura/extract_email_be.py:182-193 | one e-mail whose body is `--- Email` is counted as two |
| VectorStore.Store.constructor | arquitetura/extract_email_be.py:68 | the client starts with the collections it finds |
| VectorStore.Store.DeleteCollection | arquitetura/extract_email_be.py:71-76 | removes exactly the named collection and reports whether it existed |
| VectorStore.Store.GetOrCreateCollection | arquitetura/extract_email_be.py:79 | keeps an existing collection and creates a missing one empty |
| VectorStore.Store.GetDocuments | arquitetura/extract_email_be.py:112-113 | at most one document, and none exactly when the id is absent |
| VectorStore.Store.Add | arquitetura/extract_email_be.py:115-121 | an absent id gets the record; a present id keeps its record |
| Ingest.ChunkIdInjective | arquitetura/extract_email_be.py:109 | different (case number, index) pairs give different chunk ids |
| Ingest.StoreCaseExtends | arquitetura/extract_email_be.py:108-125 | storing a case keeps every stored record, adds exactly its missing ids, and counts one per insertion |
| Ingest.StoreAllExtends | arquitetura/extract_email_be.py:97-131 | the whole loop keeps every stored record, adds exactly the missing derived ids, and counts one per insertion |
| Ingest.StoreCaseCovered | arquitetura/extract_email_be.py:110-125 | a case whose ids are all stored changes nothing |
| Ingest.StoreAllIdempotent | arquitetura/extract_email_be.py:108-125 | re-running over the same cases adds nothing and changes nothing |
| Ingest.StoreCaseRecord | arquitetura/extract_email_be.py:108-125 | for one case, a missing id ends up holding the record of the case's first chunk with that id |
| Ingest.StoreAllRecord | arquitetura/extract_email_be.py:96-125 | over the whole loop, a missing id ends up holding the record of the first derived chunk with that id |
| Ingest.StoreCaseFresh | arquitetura/extract_email_be.py:108-125 | into free ids, chunk k is stored under its id with its own record, and every chunk is counted |
| Ingest.StoreAllConcat | arquitetura/extract_email_be.py:97-131 | the loop over two runs of cases is the loop over the second, started where the first ended |
| Ingest.SkipsFailingCase | arquitetura/extract_email_be.py:127-131 | a case that raised leaves the outcome of the other cases unchanged |
| Ingest.SkipsFailingRecord | arquitetura/extract_email_be.py:97-131 | a case record that raises is skipped; earlier and later cases are stored as without it |
| Ingest.LaterCaseWithSameNumberIsSkipped | arquitetura/extract_email_be.py:109-114 | a later case sharing the case number, with no more chunks, stores nothing |
| Ingest.Opened | arquitetura/extract_email_be.py:79 | after get_or_create the collection exists |
| Ingest.OtherCollectionsUntouched | arquitetura/extract_email_be.py:66-136 | no other collection of the store is created, deleted or changed |
| Ingest.RunKeepsRecords | arquitetura/extract_email_be.py:79-133 | without `-r`, whether or not the collection existed (get_or_create starts a missing one empty): every old record kept, the derived ids added, success message counting the new ones |
| Ingest.FirstRunCreates | arquitetura/extract_email_be.py:79-133 | without `-r` on a store lacking the collection: it is created holding exactly the derived ids, all counted as added |
| Ingest.RecreateRebuilds | arquitetura/extract_email_be.py:71-133 | with `-r` the collection ends with exactly the derived ids, all counted as added |
| Ingest.RunStoresFirstChunks | arquitetura/extract_email_be.py:71-125 | every id missing when the collection was opened (all ids, with `-r`) ends up holding the record of the first derived chunk with that id, or stays missing when no chunk has it |
| Ingest.RerunAddsNothing | arquitetura/extract_email_be.py:108-133 | a second run without `-r` reports 0 chunks added and leaves the store as it was |
| Ingest.BadDataStoresNothing | arquitetura/extract_email_be.py:88-136 | unreadable data, or data without a length, fails with the data error message, storing nothing |
| Ingest.StoreCaseChunks | arquitetura/extract_email_be.py:108-125 | the inner loop: look up, embed, add and count each chunk, as specified |
| Ingest.PrepareCaseMethod | arquitetura/extract_email_be.py:99-104 | a case's information and chunks, or the exception it raises |
| Ingest.PrepareCaseAt | arquitetura/extract_email_be.py:97-104 | the case at position i of the loop, prepared |
| Ingest.StorePrepared | arquitetura/extract_email_be.py:107-131 | a prepared case's chunks are stored; a case that raised changes nothing |
| Ingest.StoreCases | arquitetura/extract_email_be.py:97-131 | the outer loop over the cases, as specified |
| Ingest.LoadCases | arquitetura/extract_email_be.py:87-136 | loading the data and storing its cases, with the data error messages, as specified |
| Ingest.ProcessEmailData | arquitetura/extract_email_be.py:62-136 | `_process_email_data` as specified: start-up errors, `-r`, loading and storing |
| Handler.ParseMessage | arquitetura/extract_email_be.py:29 | unpacks exactly when the content has two `@`; the parts contain no `@` and rejoin to the content |
| Handler.FirstMissingKey | arquitetura/extract_email_be.py:40-42 | reports no key exactly when all are present; otherwise the first one missing |
| Handler.ConfigureAccepts | arquitetura/extract_email_be.py:31-55 | accepted iff the file exists, parses to an object with the three required keys, and names an existing data file |
| Handler.AcceptedConfig | arquitetura/extract_email_be.py:40-43 | names the data file and str() of the collection; max_chunk_size is 1000 unless given |
| Handler.MissingKeyReported | arquitetura/extract_email_be.py:40-47 | a missing key is reported by name, the first one read when several are missing |
| Handler.RejectedJobsChangeNothing | arquitetura/extract_email_be.py:29-55 | a content without two `@` raises; a rejected configuration answers (nmsg, False, message); neither touches the store |
| Handler.AnswerCarriesJobNumber | arquitetura/extract_email_be.py:22-60 | every returned answer carries the job's message number |
| Handler.UnpackJoined | arquitetura/extract_email_be.py:29 | three texts without `@`, joined by `@`, unpack into themselves |
| Handler.OptionRecreates | arquitetura/extract_email_be.py:29 | the unpacked option is the sent one, and it recreates the collection iff it is `-r` or `-R` |
| Handler.ExtractEmailBe | arquitetura/extract_email_be.py:22-60 | the handler's answer and the new state of the store, as specified |
| FrontEnd.SendMessage | arquitetura/extract_email_fe.py:22-31 | the envelope always has messagem 0, the fixed sender and receiver, control 7, log "False" and status "E" |
| FrontEnd.SeparatorsOfContent | arquitetura/extract_email_fe.py:28 | the content's `@` are the two separators plus those of the arguments |
| FrontEnd.ContentRoundTrip | arquitetura/extract_email_fe.py:28 | the back end unpacks the sent content into the same three arguments iff none contains `@` |
| FrontEnd.ContentWithSeparatorRaises | arquitetura/extract_email_fe.py:28 | an argument containing `@` makes the back end's unpacking raise |
| FrontEnd.LoopFromReading | arquitetura/extract_email_fe.py:61-68 | from any poll on, the loop's end is characterised by the readings and replies |
| FrontEnd.LoopCharacterization | arquitetura/extract_email_fe.py:61-68 | every GET follows a reading below the deadline; the loop stops at the first non-`'Nok'` reply, without sleeping after it, or at the first reading at or past the deadline; raising GETs are passed over |
| FrontEnd.ReadingsAreSpaced | arquitetura/extract_email_fe.py:68 | the reading before GET j is at least j times two seconds |
| FrontEnd.AtMostSixtyPolls | arquitetura/extract_email_fe.py:57-68 | the loop makes at most 60 GETs |
| FrontEnd.SuccessNeedsAnswer | arquitetura/extract_email_fe.py:70-78 | success is reported only after a non-`'Nok'` reply, and the result is that of a fresh GET |
| FrontEnd.NeverAnsweredTimesOut | arquitetura/extract_email_fe.py:61-81 | if every reply is `'Nok'` or raises, the wait times out |
| FrontEnd.InstantReading | arquitetura/extract_email_fe.py:68 | with instantaneous requests, the reading before GET j is j times two seconds |
| FrontEnd.AllNokPollsSixtyTimes | arquitetura/extract_email_fe.py:57-81 | instantaneous `'Nok'` replies give exactly 60 GETs, then a timeout |
| FrontEnd.FailuresArePassedOver | arquitetura/extract_email_fe.py:62-78 | after two raising GETs, the third reply ends the loop; a raising fourth GET still gives success, with no result |
| FrontEnd.DeadlineRace | arquitetura/extract_email_fe.py:70-81 | a non-`'Nok'` reply just before the deadline is reported as a timeout once the fresh reading has passed it |
| FrontEnd.AwaitResult | arquitetura/extract_email_fe.py:55-81 | the poll loop and the outcome rule, as specified |

## Left out

- Floating-point numbers are not modelled. JSON values are null, booleans, integers, texts, lists and objects. A float `max_chunk_size` or field is outside the model.
- Embedding vectors are opaque (`seq<real>` from the `encode` parameter): nothing is proved about their contents.
- Text.Lower: lowers only A-Z. Python's `str.lower` lowers every cased letter and can lengthen a text (`İ` becomes `i` and a combining dot). The `-r` test is unaffected, because no other character lowers to `-` or `r`.
- Json.PyStr: renders a list or an object as a placeholder, not as Python's repr.
- Ingest.CasesOf: for a data file holding an object, the cases are its keys. Key order is not kept, so each key is shown as the empty text. Each such case raises anyway, as a text has no `.get`.
- Handler.Configure: treats a `data_source` that is not a text as a missing data file. In the source, `os.path.exists` treats an integer as a file descriptor and raises on `None`.
- Handler.SubscriptError: follows the wording of CPython 3.11 and later, including `string indices must be integers, not 'str'`.
- Exceptions raised inside `_process_email_data` while the client, the collection and the model are set up are the `InitFault` parameter. So are invalid collection names, which the client rejects. The model does not derive them.
- Errors of `collection.get`, of `collection.add` or of the encoder inside the per-case loop are not modelled. The source would swallow them for that case and continue with the next. These include a metadata value the database refuses. All three are assumed to succeed.
- VectorStore.Store.Add: a second add of a stored id keeps the stored record. The source never does this (its lookup guards it), so the client's own behaviour does not matter.
- `local_bd` is checked for presence but does not select a store. The store is the `store` parameter.
- Printing, `traceback` and the progress messages are not modelled.
- The `moment` stamp is a parameter; `datetime.now` is not modelled.
- The front end's command-line parsing (`argparse`) is not modelled.
- The HTTP post of the envelope and the job id it returns are not modelled. The polling URL is only implied by the `World`'s replies.
- FrontEnd.Await: time is integer milliseconds and a sleep lasts exactly 2000 ms. The printed elapsed time is not part of the outcome.
- FrontEnd.Await: the clock only moves forward, by at least the 2000 ms sleep per pass (a `World`'s gaps are `nat`). `FrontEnd.ReadingsAreSpaced`, `FrontEnd.AtMostSixtyPolls` and the loop's termination rest on this. The source reads `time.time()`, the wall clock, which can be set back; the loop could then make more than 60 GETs or not end. Reading `time.monotonic()` instead would make the bound hold. Every request also ends after finitely many milliseconds: `requests.get` is called without a timeout, so in the source a GET that never answers blocks the loop forever and the deadline is never reached.
- `chatbot/app_email.py` is not part of this model.
