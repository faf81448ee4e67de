/** What the email_count of a chunk counts. It is the number of occurrences of the marker
    "--- Email" in the chunk's buffer. Every rendered block opens with exactly one marker, so
    the count is the number of blocks in the chunk plus the markers that the e-mails' own
    fields happen to contain. */
module EmailCount {
  import opened Json
  import opened Text
  import opened CaseParser
  import opened Segmenter
  import SegmentProperties

  /** The markers inside the fields shown by the given layout rows. */
  function FieldMarkers(email: map<string, Value>, layout: seq<(string, string)>): nat {
    if layout == [] then 0
    else FieldMarkers(email, layout[..|layout| - 1]) + Count(EmailField(email, layout[|layout| - 1].1), EmailMarker)
  }

  /** No field of the e-mail contains the marker. */
  predicate MarkerFree(email: map<string, Value>) {
    FieldMarkers(email, EmailLayout) == 0
  }

  /** Every label opens a new line and contains no dash, so no marker can start in a label
      or run across the edge of one. */
  predicate SafeLabels(layout: seq<(string, string)>) {
    forall k :: 0 <= k < |layout| ==> |layout[k].0| > 0 && layout[k].0[0] == '\n' && '-' !in layout[k].0
  }

  lemma EmailLayoutIsSafe()
    ensures SafeLabels(EmailLayout)
  {
  }

  /** The labelled lines add exactly the markers of their fields to whatever precedes them. */
  lemma {:induction false} CountAfterLines(before: string, email: map<string, Value>, layout: seq<(string, string)>)
    requires SafeLabels(layout)
    ensures Count(before + EmailLines(email, layout), EmailMarker) == Count(before, EmailMarker) + FieldMarkers(email, layout)
    decreases |layout|
  {
    if layout == [] {
      assert before + "" == before;
    } else {
      var init, row := layout[..|layout| - 1], layout[|layout| - 1];
      assert SafeLabels(init) by {
        forall k | 0 <= k < |init| ensures |init[k].0| > 0 && init[k].0[0] == '\n' && '-' !in init[k].0 {
          assert init[k] == layout[k];
        }
      }
      var field := EmailField(email, row.1);
      CountAfterLines(before, email, init);
      assert before + EmailLines(email, layout) == (before + EmailLines(email, init)) + (row.0 + field);
      assert (row.0 + field)[0] == '\n';
      CountAppend(before + EmailLines(email, init), row.0 + field, EmailMarker);
      CountSkip(row.0, field, EmailMarker);
    }
  }

  /** The heading of a block holds exactly one marker. */
  lemma HeadingCount(position: nat)
    ensures Count("\n--- Email " + NatToDecimal(position) + " ---", EmailMarker) == 1
  {
    var digits := NatToDecimal(position);
    var tail := " " + digits + " ---";
    assert '-' !in " " + digits by {
      forall k | 0 <= k < |" " + digits| ensures (" " + digits)[k] != '-' {
        if k > 0 {
          assert (" " + digits)[k] == digits[k - 1];
        }
      }
    }
    CountSkip(" " + digits, " ---", EmailMarker);
    assert tail == (" " + digits) + " ---";
    var s := EmailMarker + tail;
    assert s[..|EmailMarker|] == EmailMarker;
    assert s[|EmailMarker|..] == tail;
    assert Count(s, EmailMarker) == 1;
    assert "\n--- Email " + digits + " ---" == "\n" + s;
    CountSkip("\n", s, EmailMarker);
  }

  /** A rendered block holds one marker of its own plus those of its fields. */
  lemma RenderedEmailCount(position: nat, email: map<string, Value>)
    ensures Count(RenderEmail(position, email), EmailMarker) == 1 + FieldMarkers(email, EmailLayout)
  {
    var heading := "\n--- Email " + NatToDecimal(position) + " ---";
    HeadingCount(position);
    EmailLayoutIsSafe();
    CountAfterLines(heading, email, EmailLayout);
    CountAppend(heading + EmailLines(email, EmailLayout), "\n", EmailMarker);
  }

  /** A block that opens a new line and holds exactly one marker. */
  predicate OneMarkerBlock(block: string) {
    |block| > 0 && block[0] == '\n' && Count(block, EmailMarker) == 1
  }

  /** The block of an e-mail whose fields hold no marker holds exactly one. */
  lemma MarkerFreeBlock(position: nat, email: map<string, Value>)
    requires MarkerFree(email)
    ensures OneMarkerBlock(RenderEmail(position, email))
  {
    RenderedEmailCount(position, email);
    assert RenderEmail(position, email)[0] == '\n';
  }

  /** The blocks of a thread whose fields hold no marker each hold exactly one. */
  lemma {:induction false} MarkerFreeBlocks(emails: seq<map<string, Value>>)
    requires forall i :: 0 <= i < |emails| ==> MarkerFree(emails[i])
    ensures forall b :: b in Blocks(emails) ==> OneMarkerBlock(b)
    decreases |emails|
  {
    if emails != [] {
      var init, last := emails[..|emails| - 1], emails[|emails| - 1];
      assert forall i :: 0 <= i < |init| ==> init[i] == emails[i];
      MarkerFreeBlocks(init);
      MarkerFreeBlock(|emails|, last);
    }
  }

  /** The buffer of a run of such blocks holds one marker per block. */
  lemma {:induction false} CountOfRun(run: seq<string>)
    requires forall b :: b in run ==> OneMarkerBlock(b)
    ensures Count(Flatten(run), EmailMarker) == |run|
    decreases |run|
  {
    if run != [] {
      var init, last := run[..|run| - 1], run[|run| - 1];
      assert forall b :: b in init ==> b in run;
      CountOfRun(init);
      assert last in run;
      CountAppend(Flatten(init), last, EmailMarker);
    }
  }

  /** Every element of a run is one of the elements that the runs concatenate to. */
  lemma {:induction false} InFlatten<T>(groups: seq<seq<T>>, k: nat, x: T)
    requires k < |groups| && x in groups[k]
    ensures x in Flatten(groups)
    decreases |groups|
  {
    if k < |groups| - 1 {
      assert groups[..|groups| - 1][k] == groups[k];
      InFlatten(groups[..|groups| - 1], k, x);
    }
  }

  /** When no field of any e-mail quotes the marker, the email_count of every chunk is the
      number of e-mails in it. */
  lemma EmailCountIsRunLength(info: CaseInfo, emails: seq<map<string, Value>>, maxChunkSize: int)
    requires emails != []
    requires forall i :: 0 <= i < |emails| ==> MarkerFree(emails[i])
    ensures var chunks := ChunksOf(info, Blocks(emails), maxChunkSize);
            var groups := Segment(Blocks(emails), maxChunkSize);
            |chunks| == |groups|
            && forall k :: 0 <= k < |chunks| ==> chunks[k].metadata.emailCount == |groups[k]|
  {
    var blocks := Blocks(emails);
    var groups := Segment(blocks, maxChunkSize);
    SegmentProperties.ChunksOfNonEmptyThread(info, emails, maxChunkSize);
    MarkerFreeBlocks(emails);
    forall k | 0 <= k < |groups| ensures Count(Flatten(groups[k]), EmailMarker) == |groups[k]| {
      forall b | b in groups[k] ensures OneMarkerBlock(b) {
        InFlatten(groups, k, b);
      }
      CountOfRun(groups[k]);
    }
  }

  /** The sum of the email counts of a list of chunks. */
  function TotalEmailCount(chunks: seq<Chunk>): nat {
    if chunks == [] then 0 else TotalEmailCount(chunks[..|chunks| - 1]) + chunks[|chunks| - 1].metadata.emailCount
  }

  /** The lengths of the runs add up to the length of their concatenation. */
  lemma {:induction false} RunLengthsAddUp(info: CaseInfo, groups: seq<seq<string>>)
    requires forall b :: b in Flatten(groups) ==> OneMarkerBlock(b)
    ensures TotalEmailCount(EmailChunks(info, groups)) == |Flatten(groups)|
    decreases |groups|
  {
    if groups != [] {
      var init, last := groups[..|groups| - 1], groups[|groups| - 1];
      assert groups == init + [last];
      FlattenSnoc(init, last);
      EmailChunksSnoc(info, init, last);
      var chunks := EmailChunks(info, groups);
      assert chunks[..|chunks| - 1] == EmailChunks(info, init);
      RunLengthsAddUp(info, init);
      CountOfRun(last);
    }
  }

  /** The chunks of a thread with e-mails are one e-mails chunk per run, and the runs
      concatenate to the blocks. */
  lemma RunsOfThread(info: CaseInfo, emails: seq<map<string, Value>>, maxChunkSize: int)
    requires emails != []
    ensures var groups := Segment(Blocks(emails), maxChunkSize);
            ChunksOf(info, Blocks(emails), maxChunkSize) == EmailChunks(info, groups)
            && Flatten(groups) == Blocks(emails)
  {
    var blocks := Blocks(emails);
    RenderedBlocksNonEmpty(emails);
    SegmentProperties.SegmentIsGreedy(blocks, maxChunkSize);
    assert blocks[0] in blocks;
  }

  lemma MarkerFreeRunsAddUp(info: CaseInfo, emails: seq<map<string, Value>>, maxChunkSize: int)
    requires emails != []
    requires forall i :: 0 <= i < |emails| ==> MarkerFree(emails[i])
    ensures TotalEmailCount(EmailChunks(info, Segment(Blocks(emails), maxChunkSize))) == |emails|
  {
    var groups := Segment(Blocks(emails), maxChunkSize);
    assert Flatten(groups) == Blocks(emails) by {
      RunsOfThread(info, emails, maxChunkSize);
    }
    MarkerFreeBlocks(emails);
    RunLengthsAddUp(info, groups);
  }

  /** When no field quotes the marker, the email counts of a case's chunks add up to the
      number of e-mails of the case. */
  lemma EmailCountsAddUp(info: CaseInfo, emails: seq<map<string, Value>>, maxChunkSize: int)
    requires emails != []
    requires forall i :: 0 <= i < |emails| ==> MarkerFree(emails[i])
    ensures TotalEmailCount(ChunksOf(info, Blocks(emails), maxChunkSize)) == |emails|
  {
    RunsOfThread(info, emails, maxChunkSize);
    MarkerFreeRunsAddUp(info, emails, maxChunkSize);
  }

  lemma FieldMarkersPrefix(email: map<string, Value>, layout: seq<(string, string)>, n: nat)
    requires n < |layout|
    ensures FieldMarkers(email, layout[..n + 1]) == FieldMarkers(email, layout[..n]) + Count(EmailField(email, layout[n].1), EmailMarker)
  {
    assert layout[..n + 1][..n] == layout[..n];
  }

  /** The fields of an e-mail whose body is the marker and which has no other field. */
  lemma QuotedBodyMarkers()
    ensures FieldMarkers(map["body" := Str(EmailMarker)], EmailLayout) == 1
  {
    var email := map["body" := Str(EmailMarker)];
    assert Count(EmailMarker, EmailMarker) == 1 by {
      assert EmailMarker[..|EmailMarker|] == EmailMarker;
      assert EmailMarker[|EmailMarker|..] == "";
    }
    var layout := EmailLayout;
    FieldMarkersPrefix(email, layout, 0);
    FieldMarkersPrefix(email, layout, 1);
    FieldMarkersPrefix(email, layout, 2);
    FieldMarkersPrefix(email, layout, 3);
    FieldMarkersPrefix(email, layout, 4);
    FieldMarkersPrefix(email, layout, 5);
    assert layout[..6] == layout;
  }

  /** A body that quotes the marker is counted as a second e-mail. */
  lemma QuotedMarkerIsCounted()
    ensures Count(RenderEmail(1, map["body" := Str("--- Email")]), EmailMarker) == 2
  {
    RenderedEmailCount(1, map["body" := Str(EmailMarker)]);
    QuotedBodyMarkers();
  }
}
