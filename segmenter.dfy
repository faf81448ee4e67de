/** Turning a case's e-mail thread into an ordered list of chunks (_process_case_emails).

    Every chunk carries the case summary followed by a run of whole rendered e-mail blocks.
    Blocks are appended to a buffer in thread order; a chunk is closed when appending the
    next block to a non-empty buffer would make the buffer longer than the maximum chunk size.
    A case without e-mails yields a single chunk holding the summary alone. */
module Segmenter {
  import opened Json
  import opened Text
  import opened CaseParser

  /** The text that opens every rendered e-mail block, and that email_count counts. */
  const EmailMarker := "--- Email"

  datatype ChunkType = Emails | CaseInfoOnly

  /** The chunk_type stored in the metadata. */
  function ChunkTypeName(t: ChunkType): string {
    match t
    case Emails => "emails"
    case CaseInfoOnly => "case_info"
  }

  datatype Metadata = Metadata(caseNumber: string, accountName: Value, chunkType: ChunkType, emailCount: nat)

  datatype Chunk = Chunk(content: string, metadata: Metadata)

  /** The exceptions that processing one case can raise. */
  datatype CaseError =
    | CaseNotObject        // case.get on a record that is not an object
    | EmailsNotIterable    // for ... in emails, when emails is a number, a boolean or null
    | EmailNotObject       // email.get on an element that is not an object
    | LimitNotComparable   // len(...) > max_chunk_size, when max_chunk_size is not a number

  datatype Result<T> = Ok(value: T) | Err(error: CaseError)

  // ---------------------------------------------------------------------------
  // Rendering
  // ---------------------------------------------------------------------------

  /** Labelled lines: each label followed by str() of its value. */
  function Lines(rows: seq<(string, Value)>): string {
    if rows == [] then ""
    else Lines(rows[..|rows| - 1]) + rows[|rows| - 1].0 + PyStr(rows[|rows| - 1].1)
  }

  /** The case summary that heads every chunk of the case. */
  function RenderSummary(info: CaseInfo): string {
    "Caso: " + info.caseNumber
    + Lines([("\nEmpresa: ", info.accountName),
             ("\nUsuário: ", info.userName),
             ("\nStatus: ", info.caseStatus),
             ("\nMotivo: ", info.caseReason),
             ("\nData Criação: ", info.createdDate),
             ("\nData Fechamento: ", info.closedDate)])
  }

  /** str(email.get(key, '')) */
  function EmailField(email: map<string, Value>, key: string): string {
    PyStr(GetOr(email, key, Str("")))
  }

  /** The label of each line of an e-mail block and the e-mail field shown on it. */
  const EmailLayout: seq<(string, string)> :=
    [("\nDe: ", "from"), ("\nPara: ", "to"), ("\nAssunto: ", "subject"),
     ("\nData: ", "date"), ("\nTipo: ", "sender_type"), ("\n\nConteúdo:\n", "body")]

  /** The labelled field lines of an e-mail block. */
  function EmailLines(email: map<string, Value>, layout: seq<(string, string)>): string {
    if layout == [] then ""
    else EmailLines(email, layout[..|layout| - 1]) + layout[|layout| - 1].0 + EmailField(email, layout[|layout| - 1].1)
  }

  /** The block of the e-mail at 1-based position `position` of the thread. */
  function RenderEmail(position: nat, email: map<string, Value>): string {
    "\n--- Email " + NatToDecimal(position) + " ---" + EmailLines(email, EmailLayout) + "\n"
  }

  /** The rendered blocks of a thread, numbered from 1 in thread order. */
  function Blocks(emails: seq<map<string, Value>>): (blocks: seq<string>)
    ensures |blocks| == |emails|
  {
    if emails == [] then []
    else Blocks(emails[..|emails| - 1]) + [RenderEmail(|emails|, emails[|emails| - 1])]
  }

  predicate NonEmptyBlocks(blocks: seq<string>) {
    forall i :: 0 <= i < |blocks| ==> |blocks[i]| > 0
  }

  /** The i-th block renders the i-th e-mail under the number i + 1. */
  lemma {:induction false} BlockAt(emails: seq<map<string, Value>>, i: nat)
    requires i < |emails|
    ensures Blocks(emails)[i] == RenderEmail(i + 1, emails[i])
    decreases |emails|
  {
    if i < |emails| - 1 {
      BlockAt(emails[..|emails| - 1], i);
    }
  }

  /** A rendered block is never empty, so "the buffer is non-empty" means "the buffer holds a block". */
  lemma RenderedBlocksNonEmpty(emails: seq<map<string, Value>>)
    ensures NonEmptyBlocks(Blocks(emails))
  {
    forall i | 0 <= i < |emails| ensures |Blocks(emails)[i]| > 0 {
      BlockAt(emails, i);
    }
  }

  // ---------------------------------------------------------------------------
  // The segmentation, as a left fold over the blocks
  // ---------------------------------------------------------------------------

  /** The chunks closed so far (each a run of blocks) and the blocks of the open buffer. */
  datatype Packing = Packing(closed: seq<seq<string>>, current: seq<string>)

  /** One pass of the loop: close the buffer and start a new one holding just `block` when
      appending would exceed the limit and the buffer is non-empty; otherwise append. */
  function Step(p: Packing, block: string, maxChunkSize: int): Packing {
    var buffer := Flatten(p.current);
    if |buffer + block| > maxChunkSize && |buffer| > 0 then Packing(p.closed + [p.current], [block])
    else Packing(p.closed, p.current + [block])
  }

  /** The state of the loop after the given blocks. */
  function PackState(blocks: seq<string>, maxChunkSize: int): Packing {
    if blocks == [] then Packing([], [])
    else Step(PackState(blocks[..|blocks| - 1], maxChunkSize), blocks[|blocks| - 1], maxChunkSize)
  }

  /** The runs of blocks that become chunks: the closed ones and, if non-empty, the last buffer. */
  function Segment(blocks: seq<string>, maxChunkSize: int): seq<seq<string>> {
    var p := PackState(blocks, maxChunkSize);
    if |Flatten(p.current)| > 0 then p.closed + [p.current] else p.closed
  }

  /** The chunk for one buffer of e-mail blocks. */
  function EmailsChunk(info: CaseInfo, buffer: string): Chunk {
    Chunk(RenderSummary(info) + "\n\n" + buffer,
          Metadata(info.caseNumber, info.accountName, Emails, Count(buffer, EmailMarker)))
  }

  /** The chunk of a case without e-mails. */
  function SummaryChunk(info: CaseInfo): Chunk {
    Chunk(RenderSummary(info), Metadata(info.caseNumber, info.accountName, CaseInfoOnly, 0))
  }

  /** One e-mails chunk per run of blocks, in order. */
  function EmailChunks(info: CaseInfo, groups: seq<seq<string>>): (chunks: seq<Chunk>)
    ensures |chunks| == |groups|
    ensures forall k :: 0 <= k < |groups| ==> chunks[k] == EmailsChunk(info, Flatten(groups[k]))
  {
    if groups == [] then []
    else EmailChunks(info, groups[..|groups| - 1]) + [EmailsChunk(info, Flatten(groups[|groups| - 1]))]
  }

  /** The chunks of a case whose thread renders to `blocks`. */
  function ChunksOf(info: CaseInfo, blocks: seq<string>, maxChunkSize: int): seq<Chunk> {
    var groups := Segment(blocks, maxChunkSize);
    if groups == [] then [SummaryChunk(info)] else EmailChunks(info, groups)
  }

  // ---------------------------------------------------------------------------
  // Where processing a case raises
  // ---------------------------------------------------------------------------

  /** Python compares an int or a bool (True is 1) with an int; anything else raises. */
  predicate IsComparable(limit: Value) {
    limit.Int? || limit.Bool?
  }

  function LimitValue(limit: Value): int {
    match limit
    case Int(i) => i
    case Bool(b) => if b then 1 else 0
    case _ => 0
  }

  /** What `for email in emails` visits: a list's elements; an empty text or object visits
      nothing; a non-empty text or object visits strings, and the first has no .get; a number,
      a boolean or null is not iterable. */
  function EmailItems(emails: Value): Result<seq<Value>> {
    match emails
    case Array(items) => Ok(items)
    case Str(s) => if s == "" then Ok([]) else Err(EmailNotObject)
    case Object(m) => if m == map[] then Ok([]) else Err(EmailNotObject)
    case _ => Err(EmailsNotIterable)
  }

  predicate AllObjects(items: seq<Value>) {
    forall i :: 0 <= i < |items| ==> items[i].Object?
  }

  function FieldsOf(items: seq<Value>): (emails: seq<map<string, Value>>)
    requires AllObjects(items)
    ensures |emails| == |items|
    ensures forall k :: 0 <= k < |items| ==> emails[k] == items[k].fields
  {
    if items == [] then [] else FieldsOf(items[..|items| - 1]) + [items[|items| - 1].fields]
  }

  /** The outcome of _process_case_emails: the first e-mail must be an object, then the limit
      must be comparable (both are checked on the first pass of the loop), then every later
      e-mail must be an object. */
  function CaseChunks(info: CaseInfo, items: seq<Value>, limit: Value): Result<seq<Chunk>> {
    if items == [] then Ok([SummaryChunk(info)])
    else if !items[0].Object? then Err(EmailNotObject)
    else if !IsComparable(limit) then Err(LimitNotComparable)
    else if !AllObjects(items) then Err(EmailNotObject)
    else Ok(ChunksOf(info, Blocks(FieldsOf(items)), LimitValue(limit)))
  }

  // ---------------------------------------------------------------------------
  // The loop
  // ---------------------------------------------------------------------------

  lemma FlattenSnoc<T>(ss: seq<seq<T>>, s: seq<T>)
    ensures Flatten(ss + [s]) == Flatten(ss) + s
  {
    assert (ss + [s])[..|ss|] == ss;
  }

  lemma PackStateSnoc(blocks: seq<string>, block: string, maxChunkSize: int)
    ensures PackState(blocks + [block], maxChunkSize) == Step(PackState(blocks, maxChunkSize), block, maxChunkSize)
  {
    assert (blocks + [block])[..|blocks|] == blocks;
  }

  lemma BlocksSnoc(emails: seq<map<string, Value>>, email: map<string, Value>)
    ensures Blocks(emails + [email]) == Blocks(emails) + [RenderEmail(|emails| + 1, email)]
  {
    assert (emails + [email])[..|emails|] == emails;
  }

  lemma EmailChunksSnoc(info: CaseInfo, groups: seq<seq<string>>, group: seq<string>)
    ensures EmailChunks(info, groups + [group]) == EmailChunks(info, groups) + [EmailsChunk(info, Flatten(group))]
  {
    assert (groups + [group])[..|groups|] == groups;
  }

  lemma ObjectsSnoc(items: seq<Value>, emails: seq<map<string, Value>>, i: nat)
    requires i < |items| && |emails| == i && items[i].Object?
    requires forall k :: 0 <= k < i ==> items[k] == Object(emails[k])
    ensures forall k :: 0 <= k < i + 1 ==> items[k] == Object((emails + [items[i].fields])[k])
  {
    forall k | 0 <= k < i + 1 ensures items[k] == Object((emails + [items[i].fields])[k]) {
      if k < i {
        assert (emails + [items[i].fields])[k] == emails[k];
      }
    }
  }

  /** What one pass of the loop does to the buffer and to the closed chunks. */
  lemma PackingStep(info: CaseInfo, packing: Packing, block: string, maxChunkSize: int)
    ensures var next := Step(packing, block, maxChunkSize);
            var buffer := Flatten(packing.current);
            if |buffer + block| > maxChunkSize && |buffer| > 0 then
              Flatten(next.current) == block
              && EmailChunks(info, next.closed) == EmailChunks(info, packing.closed) + [EmailsChunk(info, buffer)]
            else
              Flatten(next.current) == buffer + block && next.closed == packing.closed
  {
    var buffer := Flatten(packing.current);
    if |buffer + block| > maxChunkSize && |buffer| > 0 {
      EmailChunksSnoc(info, packing.closed, packing.current);
      FlattenSnoc<char>([], block);
    } else {
      FlattenSnoc(packing.current, block);
    }
  }

  /** The loop stops at the first e-mail that is not an object. */
  lemma StopsAtNonObject(info: CaseInfo, items: seq<Value>, limit: Value, i: nat)
    requires i < |items| && !items[i].Object?
    requires forall k :: 0 <= k < i ==> items[k].Object?
    requires i > 0 ==> IsComparable(limit)
    ensures CaseChunks(info, items, limit) == Err(EmailNotObject)
  {
  }

  /** When every e-mail is an object the outcome is the chunks of the rendered thread. */
  lemma LoopCompleted(info: CaseInfo, items: seq<Value>, limit: Value, emails: seq<map<string, Value>>)
    requires |emails| == |items|
    requires forall k :: 0 <= k < |items| ==> items[k] == Object(emails[k])
    requires items != [] ==> IsComparable(limit)
    ensures AllObjects(items) && emails == FieldsOf(items)
    ensures CaseChunks(info, items, limit) == Ok(ChunksOf(info, Blocks(emails), LimitValue(limit)))
  {
    assert emails == FieldsOf(items);
  }

  /** The chunks left when the loop has seen every block. */
  lemma ChunksAfterLoop(info: CaseInfo, blocks: seq<string>, maxChunkSize: int)
    ensures var p := PackState(blocks, maxChunkSize);
            var emailChunks := if |Flatten(p.current)| > 0 then EmailChunks(info, p.closed) + [EmailsChunk(info, Flatten(p.current))]
                               else EmailChunks(info, p.closed);
            ChunksOf(info, blocks, maxChunkSize) == if emailChunks == [] then [SummaryChunk(info)] else emailChunks
  {
    var p := PackState(blocks, maxChunkSize);
    if |Flatten(p.current)| > 0 {
      EmailChunksSnoc(info, p.closed, p.current);
    }
  }

  /** _process_case_emails: walks the thread once, growing a buffer of rendered blocks and
      closing a chunk whenever the next block would overflow a non-empty buffer. */
  method ProcessCaseEmails(info: CaseInfo, items: seq<Value>, limit: Value) returns (result: Result<seq<Chunk>>)
    ensures result == CaseChunks(info, items, limit)
  {
    var chunks: seq<Chunk> := [];
    var buffer := "";
    ghost var packing := Packing([], []);
    ghost var emails: seq<map<string, Value>> := [];
    var i := 0;
    while i < |items|
      invariant 0 <= i <= |items|
      invariant i > 0 ==> IsComparable(limit)
      invariant |emails| == i
      invariant forall k :: 0 <= k < i ==> items[k] == Object(emails[k])
      invariant packing == PackState(Blocks(emails), LimitValue(limit))
      invariant buffer == Flatten(packing.current)
      invariant chunks == EmailChunks(info, packing.closed)
    {
      if !items[i].Object? {
        StopsAtNonObject(info, items, limit, i);
        return Err(EmailNotObject);
      }
      var email := items[i].fields;
      ObjectsSnoc(items, emails, i);
      var text := RenderEmail(i + 1, email);
      if !IsComparable(limit) {
        return Err(LimitNotComparable);
      }
      var maxChunkSize := LimitValue(limit);
      PackingStep(info, packing, text, maxChunkSize);
      if |buffer + text| > maxChunkSize && |buffer| > 0 {
        chunks := chunks + [EmailsChunk(info, buffer)];
        buffer := text;
      } else {
        buffer := buffer + text;
      }
      PackStateSnoc(Blocks(emails), text, maxChunkSize);
      BlocksSnoc(emails, email);
      packing := Step(packing, text, maxChunkSize);
      emails := emails + [email];
      i := i + 1;
    }
    LoopCompleted(info, items, limit, emails);
    ChunksAfterLoop(info, Blocks(emails), LimitValue(limit));
    if |buffer| > 0 {
      chunks := chunks + [EmailsChunk(info, buffer)];
    }
    if chunks == [] {
      chunks := [SummaryChunk(info)];
    }
    result := Ok(chunks);
  }
}
