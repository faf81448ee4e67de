/** Loading the cases into the vector database (_process_email_data).

    Every chunk of a case is stored under the id "case_<case number>_chunk_<index>"; an id
    that is already stored is left alone, so running the ingestion again adds nothing.
    A case that raises while it is being chunked is skipped and the next case is processed. */
module Ingest {
  import opened Json
  import opened Text
  import opened CaseParser
  import opened Segmenter
  import opened VectorStore

  // ---------------------------------------------------------------------------
  // Chunk ids
  // ---------------------------------------------------------------------------

  /** The id of the chunk at zero-based position `index` of a case. */
  function ChunkId(caseNumber: string, index: nat): string {
    "case_" + caseNumber + "_chunk_" + NatToDecimal(index)
  }

  /** The number of digits at the end of a text. */
  function TrailingDigits(s: string): (n: nat)
    ensures n <= |s|
  {
    if s == [] || !IsDigit(s[|s| - 1]) then 0 else 1 + TrailingDigits(s[..|s| - 1])
  }

  /** A text ending in a non-digit, followed by digits, ends in exactly those digits. */
  lemma {:induction false} TrailingDigitsOf(a: string, d: string)
    requires |a| > 0 && !IsDigit(a[|a| - 1]) && AllDigits(d)
    ensures TrailingDigits(a + d) == |d|
    decreases |d|
  {
    if d == [] {
      assert a + d == a;
    } else {
      var shorter := d[..|d| - 1];
      assert AllDigits(shorter) by {
        forall i | 0 <= i < |shorter| ensures IsDigit(shorter[i]) {
          assert shorter[i] == d[i];
        }
      }
      assert (a + d)[..|a + d| - 1] == a + shorter;
      assert (a + d)[|a + d| - 1] == d[|d| - 1];
      TrailingDigitsOf(a, shorter);
    }
  }

  /** Two texts that each end in '_' followed by digits split the same way when their
      concatenations agree: the digits are everything after the last '_'. */
  lemma SplitAfterUnderscore(a: string, d1: string, b: string, d2: string)
    requires a + d1 == b + d2
    requires AllDigits(d1) && AllDigits(d2)
    requires |a| > 0 && a[|a| - 1] == '_' && |b| > 0 && b[|b| - 1] == '_'
    ensures a == b && d1 == d2
  {
    var s := a + d1;
    TrailingDigitsOf(a, d1);
    TrailingDigitsOf(b, d2);
    assert a == s[..|a|] && b == s[..|b|];
    assert d1 == s[|a|..] && d2 == s[|b|..];
  }

  /** Different chunks never share an id: the id determines the case number and the index. */
  lemma ChunkIdInjective(caseA: string, indexA: nat, caseB: string, indexB: nat)
    requires ChunkId(caseA, indexA) == ChunkId(caseB, indexB)
    ensures caseA == caseB && indexA == indexB
  {
    var headA, headB := "case_" + caseA + "_chunk_", "case_" + caseB + "_chunk_";
    assert ChunkId(caseA, indexA) == headA + NatToDecimal(indexA);
    assert ChunkId(caseB, indexB) == headB + NatToDecimal(indexB);
    SplitAfterUnderscore(headA, NatToDecimal(indexA), headB, NatToDecimal(indexB));
    assert caseA == headA[5..|headA| - 7];
    assert caseB == headB[5..|headB| - 7];
    DecimalInjective(indexA, indexB);
  }

  // ---------------------------------------------------------------------------
  // What the write loop does, as functions
  // ---------------------------------------------------------------------------

  /** The record of a chunk, with the embedding of its content. */
  function ChunkRecord(chunk: Chunk, encode: string -> Embedding): Record {
    Record(chunk.content, encode(chunk.content), chunk.metadata)
  }

  /** The records of the collection and chunk_count. */
  datatype Batch = Batch(records: Collection, added: nat)

  /** One pass of the inner loop: add the record and count it, unless the id is stored. */
  function StoreChunk(b: Batch, id: string, record: Record): Batch {
    if id in b.records then b else Batch(b.records[id := record], b.added + 1)
  }

  /** The inner loop over the chunks of one case. */
  function StoreCase(b: Batch, caseNumber: string, chunks: seq<Chunk>, encode: string -> Embedding): Batch {
    if chunks == [] then b
    else StoreChunk(StoreCase(b, caseNumber, chunks[..|chunks| - 1], encode),
                    ChunkId(caseNumber, |chunks| - 1), ChunkRecord(chunks[|chunks| - 1], encode))
  }

  /** A case's information and chunks, or the exception that processing it raised. */
  type PreparedCase = Result<(CaseInfo, seq<Chunk>)>

  /** The first two steps of the per-case loop of _process_email_data: _extract_case_info and
      _process_case_emails give the case's information and chunks, or the exception that
      processing the case raises. */
  function PrepareCase(record: Value, maxChunkSize: Value): PreparedCase {
    if !record.Object? then Err(CaseNotObject)
    else
      var info := ExtractCaseInfo(record.fields);
      match EmailItems(GetOr(record.fields, "emails", Array([])))
      case Err(e) => Err(e)
      case Ok(items) =>
        match CaseChunks(info, items, maxChunkSize)
        case Err(e) => Err(e)
        case Ok(chunks) => Ok((info, chunks))
  }

  /** Every case, prepared. */
  function PrepareAll(cases: seq<Value>, maxChunkSize: Value): (prepared: seq<PreparedCase>)
    ensures |prepared| == |cases|
  {
    seq(|cases|, i requires 0 <= i < |cases| => PrepareCase(cases[i], maxChunkSize))
  }

  /** One pass of the outer loop: a case that raised changes nothing. */
  function CaseBatch(b: Batch, prepared: PreparedCase, encode: string -> Embedding): Batch {
    match prepared
    case Err(_) => b
    case Ok((info, chunks)) => StoreCase(b, info.caseNumber, chunks, encode)
  }

  /** The outer loop over prepared cases. */
  function StoreAll(b: Batch, prepared: seq<PreparedCase>, encode: string -> Embedding): Batch {
    if prepared == [] then b
    else CaseBatch(StoreAll(b, prepared[..|prepared| - 1], encode), prepared[|prepared| - 1], encode)
  }

  /** The outer loop over the cases. */
  function IngestCases(b: Batch, cases: seq<Value>, maxChunkSize: Value, encode: string -> Embedding): Batch {
    StoreAll(b, PrepareAll(cases, maxChunkSize), encode)
  }

  /** The ids of the first `count` chunks of a case. */
  function CaseIds(caseNumber: string, count: nat): set<string> {
    set k | 0 <= k < count :: ChunkId(caseNumber, k)
  }

  /** The ids that a case's chunks are stored under (none if the case raised). */
  function IdsOfCase(prepared: PreparedCase): set<string> {
    match prepared
    case Err(_) => {}
    case Ok((info, chunks)) => CaseIds(info.caseNumber, |chunks|)
  }

  /** The ids derived from all the prepared cases. */
  function IdsOfAll(prepared: seq<PreparedCase>): set<string> {
    if prepared == [] then {}
    else IdsOfAll(prepared[..|prepared| - 1]) + IdsOfCase(prepared[|prepared| - 1])
  }

  /** The ids derived from all the cases. */
  function DerivedIds(cases: seq<Value>, maxChunkSize: Value): set<string> {
    IdsOfAll(PrepareAll(cases, maxChunkSize))
  }

  // ---------------------------------------------------------------------------
  // The dedup gate
  // ---------------------------------------------------------------------------

  /** Every record of `before` is in `after`, unchanged. */
  ghost predicate Keeps(before: Collection, after: Collection) {
    forall id :: id in before ==> id in after && after[id] == before[id]
  }

  /** `after` keeps every record of `before`, holds exactly the ids of `before` and `ids`,
      and its count grew by the number of ids that were not stored before. */
  ghost predicate Extends(before: Batch, after: Batch, ids: set<string>) {
    Keeps(before.records, after.records)
    && after.records.Keys == before.records.Keys + ids
    && after.added == before.added + |ids - before.records.Keys|
  }

  /** The ids new to a store, counted in two steps. */
  lemma NewIdsInTwoSteps(stored: set<string>, ids1: set<string>, ids2: set<string>)
    ensures |(ids1 + ids2) - stored| == |ids1 - stored| + |ids2 - (stored + ids1)|
  {
    var new1, new2 := ids1 - stored, ids2 - (stored + ids1);
    assert (ids1 + ids2) - stored == new1 + new2;
    assert new1 * new2 == {};
  }

  lemma ExtendsTransitive(b0: Batch, b1: Batch, b2: Batch, ids1: set<string>, ids2: set<string>)
    requires Extends(b0, b1, ids1) && Extends(b1, b2, ids2)
    ensures Extends(b0, b2, ids1 + ids2)
  {
    NewIdsInTwoSteps(b0.records.Keys, ids1, ids2);
    assert b1.records.Keys == b0.records.Keys + ids1;
  }

  lemma ExtendsReflexive(b: Batch)
    ensures Extends(b, b, {})
  {
    assert {} - b.records.Keys == {};
  }

  lemma StoreChunkExtends(b: Batch, id: string, record: Record)
    ensures Extends(b, StoreChunk(b, id, record), {id})
  {
    if id in b.records {
      assert {id} - b.records.Keys == {};
    } else {
      assert {id} - b.records.Keys == {id};
    }
  }

  lemma CaseIdsSnoc(caseNumber: string, count: nat)
    ensures CaseIds(caseNumber, count + 1) == CaseIds(caseNumber, count) + {ChunkId(caseNumber, count)}
  {
  }

  /** Storing a case's chunks keeps every stored record and adds exactly the missing ids. */
  lemma {:induction false} StoreCaseExtends(b: Batch, caseNumber: string, chunks: seq<Chunk>, encode: string -> Embedding)
    ensures Extends(b, StoreCase(b, caseNumber, chunks, encode), CaseIds(caseNumber, |chunks|))
    decreases |chunks|
  {
    if chunks == [] {
      assert CaseIds(caseNumber, 0) == {};
      ExtendsReflexive(b);
    } else {
      var n := |chunks| - 1;
      var mid := StoreCase(b, caseNumber, chunks[..n], encode);
      StoreCaseExtends(b, caseNumber, chunks[..n], encode);
      StoreChunkExtends(mid, ChunkId(caseNumber, n), ChunkRecord(chunks[n], encode));
      ExtendsTransitive(b, mid, StoreCase(b, caseNumber, chunks, encode), CaseIds(caseNumber, n), {ChunkId(caseNumber, n)});
      CaseIdsSnoc(caseNumber, n);
    }
  }

  lemma CaseBatchExtends(b: Batch, prepared: PreparedCase, encode: string -> Embedding)
    ensures Extends(b, CaseBatch(b, prepared, encode), IdsOfCase(prepared))
  {
    match prepared
    case Err(_) => ExtendsReflexive(b);
    case Ok((info, chunks)) => StoreCaseExtends(b, info.caseNumber, chunks, encode);
  }

  /** The whole write loop keeps every record that was stored, stores exactly the derived ids
      that were missing, and counts one per insertion. */
  lemma {:induction false} StoreAllExtends(b: Batch, prepared: seq<PreparedCase>, encode: string -> Embedding)
    ensures Extends(b, StoreAll(b, prepared, encode), IdsOfAll(prepared))
    decreases |prepared|
  {
    if prepared == [] {
      ExtendsReflexive(b);
    } else {
      var init, last := prepared[..|prepared| - 1], prepared[|prepared| - 1];
      var mid := StoreAll(b, init, encode);
      StoreAllExtends(b, init, encode);
      CaseBatchExtends(mid, last, encode);
      ExtendsTransitive(b, mid, StoreAll(b, prepared, encode), IdsOfAll(init), IdsOfCase(last));
    }
  }

  /** A case whose ids are all stored changes nothing. */
  lemma {:induction false} StoreCaseCovered(b: Batch, caseNumber: string, chunks: seq<Chunk>, encode: string -> Embedding)
    requires CaseIds(caseNumber, |chunks|) <= b.records.Keys
    ensures StoreCase(b, caseNumber, chunks, encode) == b
    decreases |chunks|
  {
    if chunks != [] {
      var n := |chunks| - 1;
      CaseIdsSnoc(caseNumber, n);
      StoreCaseCovered(b, caseNumber, chunks[..n], encode);
    }
  }

  /** Cases whose derived ids are all stored change nothing. */
  lemma {:induction false} StoreAllCovered(b: Batch, prepared: seq<PreparedCase>, encode: string -> Embedding)
    requires IdsOfAll(prepared) <= b.records.Keys
    ensures StoreAll(b, prepared, encode) == b
    decreases |prepared|
  {
    if prepared != [] {
      var init, last := prepared[..|prepared| - 1], prepared[|prepared| - 1];
      StoreAllCovered(b, init, encode);
      match last
      case Err(_) =>
      case Ok((info, chunks)) => StoreCaseCovered(b, info.caseNumber, chunks, encode);
    }
  }

  /** Running the write loop again over the same cases adds nothing and changes nothing. */
  lemma StoreAllIdempotent(b: Batch, prepared: seq<PreparedCase>, encode: string -> Embedding)
    ensures var first := StoreAll(b, prepared, encode);
            StoreAll(Batch(first.records, 0), prepared, encode) == Batch(first.records, 0)
  {
    var first := StoreAll(b, prepared, encode);
    StoreAllExtends(b, prepared, encode);
    StoreAllCovered(Batch(first.records, 0), prepared, encode);
  }

  /** Into ids that are all missing, a case's chunk k is stored under its id with its own
      content, and every chunk is counted. */
  lemma {:induction false} StoreCaseFresh(b: Batch, caseNumber: string, chunks: seq<Chunk>, encode: string -> Embedding)
    requires forall k :: 0 <= k < |chunks| ==> ChunkId(caseNumber, k) !in b.records
    ensures var after := StoreCase(b, caseNumber, chunks, encode);
            after.added == b.added + |chunks|
            && forall k :: 0 <= k < |chunks| ==>
                 ChunkId(caseNumber, k) in after.records && after.records[ChunkId(caseNumber, k)] == ChunkRecord(chunks[k], encode)
    decreases |chunks|
  {
    if chunks != [] {
      var n := |chunks| - 1;
      var init := chunks[..n];
      StoreCaseFresh(b, caseNumber, init, encode);
      var mid := StoreCase(b, caseNumber, init, encode);
      FreshIdStaysMissing(b, mid, caseNumber, init, encode);
      forall k | 0 <= k < n
        ensures StoreCase(b, caseNumber, chunks, encode).records[ChunkId(caseNumber, k)] == ChunkRecord(chunks[k], encode)
      {
        if ChunkId(caseNumber, k) == ChunkId(caseNumber, n) {
          ChunkIdInjective(caseNumber, k, caseNumber, n);
        }
        assert init[k] == chunks[k];
      }
    }
  }

  /** The record of the first of a case's chunks stored under `id`, if any. */
  function FirstChunkRecord(caseNumber: string, chunks: seq<Chunk>, id: string, encode: string -> Embedding): Option<Record> {
    if chunks == [] then None
    else
      var n := |chunks| - 1;
      var earlier := FirstChunkRecord(caseNumber, chunks[..n], id, encode);
      if earlier.Some? then earlier
      else if ChunkId(caseNumber, n) == id then Some(ChunkRecord(chunks[n], encode))
      else None
  }

  /** The record of the first chunk, over all prepared cases in order, stored under `id`. */
  function FirstRecord(prepared: seq<PreparedCase>, id: string, encode: string -> Embedding): Option<Record> {
    if prepared == [] then None
    else
      var earlier := FirstRecord(prepared[..|prepared| - 1], id, encode);
      if earlier.Some? then earlier
      else match prepared[|prepared| - 1]
        case Err(_) => None
        case Ok((info, chunks)) => FirstChunkRecord(info.caseNumber, chunks, id, encode)
  }

  /** An id that was missing ends up holding the record of the case's first chunk with that
      id, and stays missing when no chunk has it. */
  lemma {:induction false} StoreCaseRecord(b: Batch, caseNumber: string, chunks: seq<Chunk>, id: string,
                                           encode: string -> Embedding)
    requires id !in b.records
    ensures var after := StoreCase(b, caseNumber, chunks, encode);
            var first := FirstChunkRecord(caseNumber, chunks, id, encode);
            (id in after.records <==> first.Some?) && (first.Some? ==> after.records[id] == first.value)
    decreases |chunks|
  {
    if chunks != [] {
      StoreCaseRecord(b, caseNumber, chunks[..|chunks| - 1], id, encode);
    }
  }

  /** Over the whole loop: an id that was missing ends up holding the record of the first
      derived chunk with that id, and stays missing when no chunk has it. */
  lemma {:induction false} StoreAllRecord(b: Batch, prepared: seq<PreparedCase>, id: string, encode: string -> Embedding)
    requires id !in b.records
    ensures var after := StoreAll(b, prepared, encode);
            var first := FirstRecord(prepared, id, encode);
            (id in after.records <==> first.Some?) && (first.Some? ==> after.records[id] == first.value)
    decreases |prepared|
  {
    if prepared != [] {
      var init := prepared[..|prepared| - 1];
      var mid := StoreAll(b, init, encode);
      StoreAllRecord(b, init, id, encode);
      match prepared[|prepared| - 1]
      case Err(_) =>
      case Ok((info, chunks)) =>
        if id in mid.records {
          StoreCaseExtends(mid, info.caseNumber, chunks, encode);
        } else {
          StoreCaseRecord(mid, info.caseNumber, chunks, id, encode);
        }
    }
  }

  /** While the first n chunks are stored, the id of chunk n is still missing. */
  lemma FreshIdStaysMissing(b: Batch, mid: Batch, caseNumber: string, init: seq<Chunk>, encode: string -> Embedding)
    requires mid == StoreCase(b, caseNumber, init, encode)
    requires ChunkId(caseNumber, |init|) !in b.records
    ensures ChunkId(caseNumber, |init|) !in mid.records
  {
    StoreCaseExtends(b, caseNumber, init, encode);
    if ChunkId(caseNumber, |init|) in CaseIds(caseNumber, |init|) {
      var k :| 0 <= k < |init| && ChunkId(caseNumber, k) == ChunkId(caseNumber, |init|);
      ChunkIdInjective(caseNumber, k, caseNumber, |init|);
    }
  }

  /** Concatenated runs of cases: the loop simply carries on. */
  lemma {:induction false} StoreAllConcat(b: Batch, first: seq<PreparedCase>, second: seq<PreparedCase>, encode: string -> Embedding)
    ensures StoreAll(b, first + second, encode) == StoreAll(StoreAll(b, first, encode), second, encode)
    decreases |second|
  {
    if second == [] {
      assert first + second == first;
    } else {
      var init := second[..|second| - 1];
      StoreAllConcat(b, first, init, encode);
      assert (first + second)[..|first + second| - 1] == first + init;
    }
  }

  /** A case that raised is skipped: the outcome is that of the other cases alone, and what
      the earlier cases stored stays stored. */
  lemma SkipsFailingCase(b: Batch, before: seq<PreparedCase>, failed: PreparedCase, after: seq<PreparedCase>, encode: string -> Embedding)
    requires failed.Err?
    ensures StoreAll(b, before + [failed] + after, encode) == StoreAll(b, before + after, encode)
  {
    StoreAllConcat(b, before + [failed], after, encode);
    StoreAllConcat(b, before, after, encode);
    assert (before + [failed])[..|before|] == before;
  }

  /** Preparing a list of cases prepares each case on its own. */
  lemma PrepareAllSplits(before: seq<Value>, record: Value, after: seq<Value>, maxChunkSize: Value)
    ensures PrepareAll(before + [record] + after, maxChunkSize)
            == PrepareAll(before, maxChunkSize) + [PrepareCase(record, maxChunkSize)] + PrepareAll(after, maxChunkSize)
  {
  }

  lemma PrepareAllJoins(before: seq<Value>, after: seq<Value>, maxChunkSize: Value)
    ensures PrepareAll(before + after, maxChunkSize) == PrepareAll(before, maxChunkSize) + PrepareAll(after, maxChunkSize)
  {
  }

  /** A case record that raises is skipped: ingesting the cases is ingesting the others. */
  lemma SkipsFailingRecord(b: Batch, before: seq<Value>, record: Value, after: seq<Value>, maxChunkSize: Value, encode: string -> Embedding)
    requires PrepareCase(record, maxChunkSize).Err?
    ensures IngestCases(b, before + [record] + after, maxChunkSize, encode) == IngestCases(b, before + after, maxChunkSize, encode)
  {
    PrepareAllSplits(before, record, after, maxChunkSize);
    PrepareAllJoins(before, after, maxChunkSize);
    SkipsFailingCase(b, PrepareAll(before, maxChunkSize), PrepareCase(record, maxChunkSize), PrepareAll(after, maxChunkSize), encode);
  }

  /** A later case with the same case number and no more chunks than an earlier one stores
      nothing: its ids are taken. (Every case without a case number is "unknown".) */
  lemma LaterCaseWithSameNumberIsSkipped(b: Batch, first: PreparedCase, second: PreparedCase, encode: string -> Embedding)
    requires first.Ok? && second.Ok?
    requires first.value.0.caseNumber == second.value.0.caseNumber
    requires |second.value.1| <= |first.value.1|
    ensures StoreAll(b, [first, second], encode) == StoreAll(b, [first], encode)
  {
    var (info1, chunks1) := first.value;
    var (info2, chunks2) := second.value;
    var once := CaseBatch(b, first, encode);
    assert StoreAll(b, [first], encode) == once by {
      assert [first][..0] == [];
    }
    assert StoreAll(b, [first, second], encode) == CaseBatch(StoreAll(b, [first], encode), second, encode) by {
      assert [first, second][..1] == [first];
    }
    CaseBatchExtends(b, first, encode);
    assert CaseIds(info2.caseNumber, |chunks2|) <= once.records.Keys by {
      forall id | id in CaseIds(info2.caseNumber, |chunks2|) ensures id in CaseIds(info1.caseNumber, |chunks1|) {
        var k :| 0 <= k < |chunks2| && id == ChunkId(info2.caseNumber, k);
      }
    }
    StoreCaseCovered(once, info2.caseNumber, chunks2, encode);
  }

  // ---------------------------------------------------------------------------
  // _process_email_data as a whole
  // ---------------------------------------------------------------------------

  /** Where opening the store can fail: creating the client, getting or creating the
      collection, or loading the embedding model. */
  datatype InitFault = NoFault | ClientFault(reason: string) | CollectionFault(reason: string) | ModelFault(reason: string)

  /** The outcome: the store's collections afterwards, and the (ok, message) pair returned. */
  datatype Outcome = Outcome(collections: map<string, Collection>, ok: bool, message: string)

  function InitErrorMessage(reason: string): string {
    "Erro ao inicializar ChromaDB: " + reason
  }

  function DataErrorMessage(reason: string): string {
    "Erro ao processar dados de email: " + reason
  }

  /** The TypeError of len() on a number, a boolean or None. */
  function NoLenReason(data: Value): string {
    "object of type '" + TypeName(data) + "' has no len()"
  }

  function SuccessMessage(chunkCount: nat, collectionName: string): string {
    "Processamento concluído. " + NatToDecimal(chunkCount) + " chunks adicionados à coleção " + collectionName
  }

  /** The option that asks for the collection to be recreated. */
  predicate Recreate(option: string) {
    Lower(option) == "-r"
  }

  /** The collections after the delete that "-r" asks for. */
  function Recreated(collections: map<string, Collection>, collectionName: string, option: string): map<string, Collection> {
    if Recreate(option) then collections - {collectionName} else collections
  }

  /** get_or_create_collection */
  function Opened(collections: map<string, Collection>, collectionName: string): (after: map<string, Collection>)
    ensures collectionName in after
  {
    if collectionName in collections then collections else collections[collectionName := map[]]
  }

  /** What `enumerate(email_data)` visits, or None when len(email_data) raises: a list's
      elements; a text's characters; an object's keys (every one a text, shown here as the
      empty text because key order is not kept, and a text case always raises). */
  function CasesOf(data: Value): Option<seq<Value>> {
    match data
    case Array(items) => Some(items)
    case Str(s) => Some(seq(|s|, i requires 0 <= i < |s| => Str([s[i]])))
    case Object(fields) => Some(seq(|fields|, _ => Str("")))
    case _ => None
  }

  /** The outcome of _process_email_data on an opened store. */
  function LoadOutcome(collections: map<string, Collection>, collectionName: string, maxChunkSize: Value,
                       data: FileRead, encode: string -> Embedding): Outcome
    requires collectionName in collections
  {
    match data
    case Unreadable(reason) => Outcome(collections, false, DataErrorMessage(reason))
    case Parsed(value) =>
      match CasesOf(value)
      case None => Outcome(collections, false, DataErrorMessage(NoLenReason(value)))
      case Some(cases) =>
        var b := IngestCases(Batch(collections[collectionName], 0), cases, maxChunkSize, encode);
        Outcome(collections[collectionName := b.records], true, SuccessMessage(b.added, collectionName))
  }

  /** The outcome of _process_email_data. */
  function EmailDataOutcome(collections: map<string, Collection>, collectionName: string, maxChunkSize: Value,
                            option: string, fault: InitFault, data: FileRead, encode: string -> Embedding): Outcome
  {
    match fault
    case ClientFault(reason) => Outcome(collections, false, InitErrorMessage(reason))
    case CollectionFault(reason) => Outcome(Recreated(collections, collectionName, option), false, InitErrorMessage(reason))
    case ModelFault(reason) =>
      Outcome(Opened(Recreated(collections, collectionName, option), collectionName), false, InitErrorMessage(reason))
    case NoFault =>
      LoadOutcome(Opened(Recreated(collections, collectionName, option), collectionName), collectionName, maxChunkSize, data, encode)
  }

  // ---------------------------------------------------------------------------
  // Properties of the whole run
  // ---------------------------------------------------------------------------

  /** Only the named collection can change. */
  lemma OtherCollectionsUntouched(collections: map<string, Collection>, collectionName: string, maxChunkSize: Value,
                                  option: string, fault: InitFault, data: FileRead, encode: string -> Embedding, other: string)
    requires other != collectionName
    ensures var r := EmailDataOutcome(collections, collectionName, maxChunkSize, option, fault, data, encode);
            (other in r.collections <==> other in collections)
            && (other in collections ==> r.collections[other] == collections[other])
  {
    var ready := Opened(Recreated(collections, collectionName, option), collectionName);
    if fault.NoFault? {
      LoadTouchesOnlyTheCollection(ready, collectionName, maxChunkSize, data, encode);
    }
  }

  /** Loading the cases replaces at most the named collection. */
  lemma LoadTouchesOnlyTheCollection(collections: map<string, Collection>, collectionName: string, maxChunkSize: Value,
                                     data: FileRead, encode: string -> Embedding)
    requires collectionName in collections
    ensures var r := LoadOutcome(collections, collectionName, maxChunkSize, data, encode);
            collectionName in r.collections && r.collections == collections[collectionName := r.collections[collectionName]]
  {
  }

  /** A successful run without "-r" keeps every record the collection had (none when
      get_or_create_collection has just created it), adds one record per derived id that was
      missing, and reports how many it added. */
  lemma RunKeepsRecords(collections: map<string, Collection>, collectionName: string, maxChunkSize: Value,
                        option: string, encode: string -> Embedding, cases: seq<Value>)
    requires !Recreate(option)
    ensures var data := Parsed(Array(cases));
            var r := EmailDataOutcome(collections, collectionName, maxChunkSize, option, NoFault, data, encode);
            var before := Opened(collections, collectionName)[collectionName];
            var added := DerivedIds(cases, maxChunkSize) - before.Keys;
            r.ok && collectionName in r.collections
            && (collectionName !in collections ==> before == map[])
            && (forall id :: id in before ==> id in r.collections[collectionName] && r.collections[collectionName][id] == before[id])
            && r.collections[collectionName].Keys == before.Keys + DerivedIds(cases, maxChunkSize)
            && r.message == SuccessMessage(|added|, collectionName)
  {
    var ready := Opened(collections, collectionName);
    StoreAllExtends(Batch(ready[collectionName], 0), PrepareAll(cases, maxChunkSize), encode);
  }

  /** The first run without "-r" on a store that lacks the collection creates it holding
      exactly the derived ids, every one of them counted as added. */
  lemma FirstRunCreates(collections: map<string, Collection>, collectionName: string, maxChunkSize: Value,
                        option: string, encode: string -> Embedding, cases: seq<Value>)
    requires !Recreate(option) && collectionName !in collections
    ensures var r := EmailDataOutcome(collections, collectionName, maxChunkSize, option, NoFault, Parsed(Array(cases)), encode);
            r.ok && collectionName in r.collections
            && r.collections[collectionName].Keys == DerivedIds(cases, maxChunkSize)
            && r.message == SuccessMessage(|DerivedIds(cases, maxChunkSize)|, collectionName)
  {
    var empty: Collection := map[];
    StoreAllExtends(Batch(empty, 0), PrepareAll(cases, maxChunkSize), encode);
    assert DerivedIds(cases, maxChunkSize) - empty.Keys == DerivedIds(cases, maxChunkSize);
  }

  /** With "-r" the collection is rebuilt: afterwards it holds exactly the derived ids, and
      every one of them was counted as added. */
  lemma RecreateRebuilds(collections: map<string, Collection>, collectionName: string, maxChunkSize: Value,
                         option: string, encode: string -> Embedding, cases: seq<Value>)
    requires Recreate(option)
    ensures var r := EmailDataOutcome(collections, collectionName, maxChunkSize, option, NoFault, Parsed(Array(cases)), encode);
            r.ok && collectionName in r.collections
            && r.collections[collectionName].Keys == DerivedIds(cases, maxChunkSize)
            && r.message == SuccessMessage(|DerivedIds(cases, maxChunkSize)|, collectionName)
  {
    var empty: Collection := map[];
    StoreAllExtends(Batch(empty, 0), PrepareAll(cases, maxChunkSize), encode);
    assert DerivedIds(cases, maxChunkSize) - empty.Keys == DerivedIds(cases, maxChunkSize);
  }

  /** A successful run stores, under every id the collection lacked when it was opened (every
      id, with "-r"), the record of the first derived chunk with that id: its content, its
      embedding and its metadata. */
  lemma RunStoresFirstChunks(collections: map<string, Collection>, collectionName: string, maxChunkSize: Value,
                             option: string, encode: string -> Embedding, cases: seq<Value>, id: string)
    ensures var r := EmailDataOutcome(collections, collectionName, maxChunkSize, option, NoFault, Parsed(Array(cases)), encode);
            var before := Opened(Recreated(collections, collectionName, option), collectionName)[collectionName];
            var first := FirstRecord(PrepareAll(cases, maxChunkSize), id, encode);
            collectionName in r.collections
            && (Recreate(option) ==> before == map[])
            && (id !in before ==> (id in r.collections[collectionName] <==> first.Some?)
                                  && (first.Some? ==> r.collections[collectionName][id] == first.value))
  {
    var ready := Opened(Recreated(collections, collectionName, option), collectionName);
    if id !in ready[collectionName] {
      StoreAllRecord(Batch(ready[collectionName], 0), PrepareAll(cases, maxChunkSize), id, encode);
    }
  }

  /** A second run over the same data, without "-r", reports 0 chunks added and leaves the
      store as the first run left it. */
  lemma RerunAddsNothing(collections: map<string, Collection>, collectionName: string, maxChunkSize: Value,
                         option: string, again: string, encode: string -> Embedding, cases: seq<Value>)
    requires !Recreate(again)
    ensures var first := EmailDataOutcome(collections, collectionName, maxChunkSize, option, NoFault, Parsed(Array(cases)), encode);
            var second := EmailDataOutcome(first.collections, collectionName, maxChunkSize, again, NoFault, Parsed(Array(cases)), encode);
            second == Outcome(first.collections, true, SuccessMessage(0, collectionName))
  {
    var start := Opened(Recreated(collections, collectionName, option), collectionName);
    var b := IngestCases(Batch(start[collectionName], 0), cases, maxChunkSize, encode);
    StoreAllIdempotent(Batch(start[collectionName], 0), PrepareAll(cases, maxChunkSize), encode);
    var first := start[collectionName := b.records];
    assert first == EmailDataOutcome(collections, collectionName, maxChunkSize, option, NoFault, Parsed(Array(cases)), encode).collections;
    assert Opened(Recreated(first, collectionName, again), collectionName) == first;
    assert first[collectionName := b.records] == first;
  }

  /** Data that cannot be read, or whose length cannot be taken, fails the run without
      storing anything; the collection has nevertheless been opened (and deleted first
      if "-r" was given). */
  lemma BadDataStoresNothing(collections: map<string, Collection>, collectionName: string, maxChunkSize: Value,
                             option: string, data: FileRead, encode: string -> Embedding)
    requires data.Unreadable? || CasesOf(data.value).None?
    ensures var r := EmailDataOutcome(collections, collectionName, maxChunkSize, option, NoFault, data, encode);
            !r.ok && r.collections == Opened(Recreated(collections, collectionName, option), collectionName)
            && r.message == DataErrorMessage(if data.Unreadable? then data.reason else NoLenReason(data.value))
  {
  }

  // ---------------------------------------------------------------------------
  // The loops
  // ---------------------------------------------------------------------------

  lemma StoreCaseSnoc(b: Batch, caseNumber: string, chunks: seq<Chunk>, i: nat, encode: string -> Embedding)
    requires i < |chunks|
    ensures StoreCase(b, caseNumber, chunks[..i + 1], encode)
            == StoreChunk(StoreCase(b, caseNumber, chunks[..i], encode), ChunkId(caseNumber, i), ChunkRecord(chunks[i], encode))
  {
    assert chunks[..i + 1][..i] == chunks[..i];
  }

  /** The inner loop: each chunk is looked up by id and, when absent, embedded, added and
      counted. */
  method StoreCaseChunks(store: Store, collectionName: string, caseNumber: string, chunks: seq<Chunk>,
                         encode: string -> Embedding, chunkCount: nat) returns (newCount: nat)
    requires collectionName in store.collections
    modifies store
    ensures var b := StoreCase(Batch(old(store.collections)[collectionName], chunkCount), caseNumber, chunks, encode);
            store.collections == old(store.collections)[collectionName := b.records] && newCount == b.added
  {
    ghost var start := Batch(store.collections[collectionName], chunkCount);
    ghost var current := start;
    newCount := chunkCount;
    var i := 0;
    while i < |chunks|
      invariant 0 <= i <= |chunks|
      invariant current == StoreCase(start, caseNumber, chunks[..i], encode)
      invariant store.collections == old(store.collections)[collectionName := current.records]
      invariant newCount == current.added
    {
      var chunkId := ChunkId(caseNumber, i);
      ghost var next := StoreChunk(current, chunkId, ChunkRecord(chunks[i], encode));
      var existing := store.GetDocuments(collectionName, chunkId);
      if existing == [] {
        var embedding := encode(chunks[i].content);
        store.Add(collectionName, chunkId, Record(chunks[i].content, embedding, chunks[i].metadata));
        newCount := newCount + 1;
      }
      StoreCaseSnoc(start, caseNumber, chunks, i, encode);
      current := next;
      i := i + 1;
    }
    assert chunks[..i] == chunks;
  }

  /** The first two steps of the per-case loop of _process_email_data: extract the case's
      information and chunk its e-mails, or report the exception that raises. */
  method PrepareCaseMethod(record: Value, maxChunkSize: Value) returns (prepared: PreparedCase)
    ensures prepared == PrepareCase(record, maxChunkSize)
  {
    if !record.Object? {
      return Err(CaseNotObject);
    }
    var info := ExtractCaseInfo(record.fields);
    var items := EmailItems(GetOr(record.fields, "emails", Array([])));
    if items.Err? {
      return Err(items.error);
    }
    var chunks := ProcessCaseEmails(info, items.value, maxChunkSize);
    if chunks.Err? {
      return Err(chunks.error);
    }
    return Ok((info, chunks.value));
  }

  /** The case at position i of the loop, prepared. */
  method PrepareCaseAt(cases: seq<Value>, i: nat, maxChunkSize: Value) returns (prepared: PreparedCase)
    requires i < |cases|
    ensures prepared == PrepareAll(cases, maxChunkSize)[i]
  {
    prepared := PrepareCaseMethod(cases[i], maxChunkSize);
  }

  lemma StoreAllSnoc(b: Batch, prepared: seq<PreparedCase>, i: nat, encode: string -> Embedding)
    requires i < |prepared|
    ensures StoreAll(b, prepared[..i + 1], encode) == CaseBatch(StoreAll(b, prepared[..i], encode), prepared[i], encode)
  {
    assert prepared[..i + 1][..i] == prepared[..i];
  }

  /** The rest of the loop body: the chunks of a prepared case are stored; a case that
      raised is skipped. */
  method StorePrepared(store: Store, collectionName: string, prepared: PreparedCase,
                       encode: string -> Embedding, chunkCount: nat) returns (newCount: nat)
    requires collectionName in store.collections
    modifies store
    ensures var b := CaseBatch(Batch(old(store.collections)[collectionName], chunkCount), prepared, encode);
            store.collections == old(store.collections)[collectionName := b.records] && newCount == b.added
  {
    newCount := chunkCount;
    if prepared.Ok? {
      var (info, chunks) := prepared.value;
      newCount := StoreCaseChunks(store, collectionName, info.caseNumber, chunks, encode, chunkCount);
    } else {
      assert old(store.collections)[collectionName := store.collections[collectionName]] == store.collections;
    }
  }

  /** The outer loop: a case is chunked in full before any of its chunks is stored; a case
      that raises is skipped. */
  method StoreCases(store: Store, collectionName: string, cases: seq<Value>, maxChunkSize: Value,
                    encode: string -> Embedding) returns (chunkCount: nat)
    requires collectionName in store.collections
    modifies store
    ensures var b := IngestCases(Batch(old(store.collections)[collectionName], 0), cases, maxChunkSize, encode);
            store.collections == old(store.collections)[collectionName := b.records] && chunkCount == b.added
  {
    ghost var start := Batch(store.collections[collectionName], 0);
    ghost var all := PrepareAll(cases, maxChunkSize);
    ghost var current := start;
    chunkCount := 0;
    var i := 0;
    while i < |cases|
      invariant 0 <= i <= |cases|
      invariant current == StoreAll(start, all[..i], encode)
      invariant store.collections == old(store.collections)[collectionName := current.records]
      invariant chunkCount == current.added
    {
      var prepared := PrepareCaseAt(cases, i, maxChunkSize);
      StoreAllSnoc(start, all, i, encode);
      chunkCount := StorePrepared(store, collectionName, prepared, encode, chunkCount);
      current := CaseBatch(current, prepared, encode);
      i := i + 1;
    }
    assert all[..i] == all;
  }

  /** The part of _process_email_data after the collection and the model are ready: load the
      cases and store their chunks into the opened collection. */
  method LoadCases(store: Store, collectionName: string, maxChunkSize: Value, data: FileRead,
                   encode: string -> Embedding) returns (ok: bool, message: string)
    requires collectionName in store.collections
    modifies store
    ensures var r := LoadOutcome(old(store.collections), collectionName, maxChunkSize, data, encode);
            store.collections == r.collections && ok == r.ok && message == r.message
  {
    if data.Unreadable? {
      return false, DataErrorMessage(data.reason);
    }
    var cases := CasesOf(data.value);
    if cases.None? {
      return false, DataErrorMessage(NoLenReason(data.value));
    }
    var chunkCount := StoreCases(store, collectionName, cases.value, maxChunkSize, encode);
    return true, SuccessMessage(chunkCount, collectionName);
  }

  /** _process_email_data: open the store (deleting the collection first for "-r"), load the
      cases and store their chunks. */
  method ProcessEmailData(store: Store, collectionName: string, maxChunkSize: Value, option: string,
                          fault: InitFault, data: FileRead, encode: string -> Embedding)
    returns (ok: bool, message: string)
    modifies store
    ensures var r := EmailDataOutcome(old(store.collections), collectionName, maxChunkSize, option, fault, data, encode);
            store.collections == r.collections && ok == r.ok && message == r.message
  {
    if fault.ClientFault? {
      return false, InitErrorMessage(fault.reason);
    }
    if Lower(option) == "-r" {
      var _ := store.DeleteCollection(collectionName);
    }
    if fault.CollectionFault? {
      return false, InitErrorMessage(fault.reason);
    }
    store.GetOrCreateCollection(collectionName);
    if fault.ModelFault? {
      return false, InitErrorMessage(fault.reason);
    }
    ok, message := LoadCases(store, collectionName, maxChunkSize, data, encode);
  }
}
