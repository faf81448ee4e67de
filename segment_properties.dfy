/** What the segmentation of a thread promises: the chunks cut the thread into runs of whole
    blocks, in order and without loss; a run of two or more blocks fits the maximum size; a
    run is closed only because the next block does not fit behind it. Those rules pin the
    segmentation down completely. */
module SegmentProperties {
  import opened Json
  import opened Text
  import opened CaseParser
  import opened Segmenter

  // ---------------------------------------------------------------------------
  // The greedy rules
  // ---------------------------------------------------------------------------

  ghost predicate RunsNonEmpty(groups: seq<seq<string>>) {
    forall k :: 0 <= k < |groups| ==> groups[k] != []
  }

  /** A run of two or more blocks fits the maximum size (a single block may not). */
  ghost predicate RunFits(run: seq<string>, maxChunkSize: int) {
    |run| >= 2 ==> |Flatten(run)| <= maxChunkSize
  }

  ghost predicate RunsFit(groups: seq<seq<string>>, maxChunkSize: int) {
    forall k :: 0 <= k < |groups| ==> RunFits(groups[k], maxChunkSize)
  }

  /** The run was closed because the first block of the next run does not fit behind it. */
  ghost predicate Overflows(run: seq<string>, next: seq<string>, maxChunkSize: int)
    requires next != []
  {
    |Flatten(run) + next[0]| > maxChunkSize
  }

  /** Every run but the last overflows into the next one (stated from the end backwards). */
  ghost predicate RunsMaximal(groups: seq<seq<string>>, maxChunkSize: int)
    requires RunsNonEmpty(groups)
  {
    |groups| <= 1
    || (RunsMaximal(groups[..|groups| - 1], maxChunkSize)
        && Overflows(groups[|groups| - 2], groups[|groups| - 1], maxChunkSize))
  }

  ghost predicate GreedyRuns(groups: seq<seq<string>>, maxChunkSize: int) {
    RunsNonEmpty(groups) && RunsFit(groups, maxChunkSize) && RunsMaximal(groups, maxChunkSize)
  }

  /** The runs concatenate to the blocks, and obey the greedy rules. */
  ghost predicate IsGreedyPartition(groups: seq<seq<string>>, blocks: seq<string>, maxChunkSize: int) {
    Flatten(groups) == blocks && GreedyRuns(groups, maxChunkSize)
  }

  /** The greedy rules, one run at a time. */
  lemma GreedyRunsSnoc(groups: seq<seq<string>>, run: seq<string>, maxChunkSize: int)
    ensures GreedyRuns(groups + [run], maxChunkSize) <==>
              GreedyRuns(groups, maxChunkSize) && run != [] && RunFits(run, maxChunkSize)
              && (groups != [] ==> Overflows(groups[|groups| - 1], run, maxChunkSize))
  {
    var next := groups + [run];
    assert next[..|groups|] == groups;
    assert forall k :: 0 <= k < |groups| ==> next[k] == groups[k];
    assert next[|groups|] == run;
    if RunsNonEmpty(next) {
      assert RunsNonEmpty(groups);
    }
  }

  /** Every run but the last overflows into the next one, read as a statement about each pair. */
  lemma {:induction false} OverflowsAt(groups: seq<seq<string>>, maxChunkSize: int, k: nat)
    requires GreedyRuns(groups, maxChunkSize) && 0 < k < |groups|
    ensures Overflows(groups[k - 1], groups[k], maxChunkSize)
    decreases |groups|
  {
    var init := groups[..|groups| - 1];
    assert groups == init + [groups[|groups| - 1]];
    GreedyRunsSnoc(init, groups[|groups| - 1], maxChunkSize);
    if k < |groups| - 1 {
      OverflowsAt(init, maxChunkSize, k);
    }
  }

  lemma FlattenLastNonEmpty<T>(ss: seq<seq<T>>)
    requires ss != [] && ss[|ss| - 1] != []
    ensures |Flatten(ss)| > 0
  {
  }

  lemma SingleBlockIsGreedy(block: string, maxChunkSize: int)
    ensures IsGreedyPartition([[block]], [block], maxChunkSize)
  {
    FlattenSnoc<string>([], [block]);
    GreedyRunsSnoc([], [block], maxChunkSize);
  }

  /** Closing the last run and starting a new one with the next block keeps the rules. */
  lemma GreedyClose(groups: seq<seq<string>>, blocks: seq<string>, block: string, maxChunkSize: int)
    requires groups != [] && IsGreedyPartition(groups, blocks, maxChunkSize)
    requires |Flatten(groups[|groups| - 1]) + block| > maxChunkSize
    ensures IsGreedyPartition(groups + [[block]], blocks + [block], maxChunkSize)
  {
    FlattenSnoc(groups, [block]);
    GreedyRunsSnoc(groups, [block], maxChunkSize);
  }

  /** Appending a block that fits to the last run keeps the rules. */
  lemma GreedyGrow(groups: seq<seq<string>>, blocks: seq<string>, block: string, maxChunkSize: int)
    requires groups != [] && IsGreedyPartition(groups, blocks, maxChunkSize)
    requires |Flatten(groups[|groups| - 1]) + block| <= maxChunkSize
    ensures IsGreedyPartition(groups[..|groups| - 1] + [groups[|groups| - 1] + [block]], blocks + [block], maxChunkSize)
  {
    var init, last := groups[..|groups| - 1], groups[|groups| - 1];
    assert groups == init + [last];
    GreedyRunsSnoc(init, last, maxChunkSize);
    GreedyRunsSnoc(init, last + [block], maxChunkSize);
    FlattenSnoc(init, last);
    FlattenSnoc(init, last + [block]);
    FlattenSnoc(last, block);
  }

  /** The state of the loop always holds a greedy partition of the blocks seen so far:
      the closed runs followed by the open buffer, which ends with the latest block. */
  lemma {:induction false} PackStateIsGreedy(blocks: seq<string>, maxChunkSize: int)
    requires NonEmptyBlocks(blocks)
    ensures var p := PackState(blocks, maxChunkSize);
            if blocks == [] then p == Packing([], [])
            else p.current != [] && p.current[|p.current| - 1] == blocks[|blocks| - 1]
                 && IsGreedyPartition(p.closed + [p.current], blocks, maxChunkSize)
    decreases |blocks|
  {
    if blocks != [] {
      var prefix, block := blocks[..|blocks| - 1], blocks[|blocks| - 1];
      assert blocks == prefix + [block];
      NonEmptyPrefix(blocks);
      PackStateIsGreedy(prefix, maxChunkSize);
      var p := PackState(prefix, maxChunkSize);
      if prefix == [] {
        SingleBlockIsGreedy(block, maxChunkSize);
      } else {
        var groups := p.closed + [p.current];
        FlattenLastNonEmpty(p.current);
        if |Flatten(p.current) + block| > maxChunkSize {
          GreedyClose(groups, prefix, block, maxChunkSize);
        } else {
          GreedyGrow(groups, prefix, block, maxChunkSize);
          assert groups[..|groups| - 1] == p.closed;
        }
      }
    }
  }

  lemma NonEmptyPrefix(blocks: seq<string>)
    requires blocks != [] && NonEmptyBlocks(blocks)
    ensures NonEmptyBlocks(blocks[..|blocks| - 1])
  {
    var prefix := blocks[..|blocks| - 1];
    forall i | 0 <= i < |prefix| ensures |prefix[i]| > 0 {
      assert prefix[i] == blocks[i];
    }
  }

  /** For a non-empty thread the runs are the closed ones plus the final buffer. */
  lemma SegmentOfNonEmpty(blocks: seq<string>, maxChunkSize: int)
    requires blocks != [] && NonEmptyBlocks(blocks)
    ensures var p := PackState(blocks, maxChunkSize);
            Segment(blocks, maxChunkSize) == p.closed + [p.current]
  {
    PackStateIsGreedy(blocks, maxChunkSize);
    FlattenLastNonEmpty(PackState(blocks, maxChunkSize).current);
  }

  /** The segmentation satisfies the greedy rules. */
  lemma SegmentIsGreedy(blocks: seq<string>, maxChunkSize: int)
    requires NonEmptyBlocks(blocks)
    ensures IsGreedyPartition(Segment(blocks, maxChunkSize), blocks, maxChunkSize)
  {
    if blocks != [] {
      SegmentOfNonEmpty(blocks, maxChunkSize);
      PackStateIsGreedy(blocks, maxChunkSize);
    }
  }

  /** A greedy partition of no blocks has no runs. */
  lemma GreedyOfNothing(groups: seq<seq<string>>, maxChunkSize: int)
    requires IsGreedyPartition(groups, [], maxChunkSize)
    ensures groups == []
  {
    if groups != [] {
      assert groups[|groups| - 1] != [];
      FlattenLastNonEmpty(groups);
      assert false;
    }
  }

  /** Dropping the last run keeps the rules; the last run is non-empty, fits, and was opened
      by an overflow. */
  lemma GreedyInit(groups: seq<seq<string>>, maxChunkSize: int)
    requires groups != [] && GreedyRuns(groups, maxChunkSize)
    ensures var init, last := groups[..|groups| - 1], groups[|groups| - 1];
            last != [] && GreedyRuns(init, maxChunkSize) && RunFits(last, maxChunkSize)
            && (init != [] ==> Overflows(init[|init| - 1], last, maxChunkSize))
  {
    var init, last := groups[..|groups| - 1], groups[|groups| - 1];
    assert groups == init + [last];
    GreedyRunsSnoc(init, last, maxChunkSize);
  }

  /** The runs before the last, followed by the last run without its last block, concatenate
      to all the blocks but the last. */
  lemma FlattenInit(groups: seq<seq<string>>, blocks: seq<string>)
    requires groups != [] && groups[|groups| - 1] != [] && Flatten(groups) == blocks
    ensures blocks != []
    ensures var init, last := groups[..|groups| - 1], groups[|groups| - 1];
            last[|last| - 1] == blocks[|blocks| - 1]
            && Flatten(init) + last[..|last| - 1] == blocks[..|blocks| - 1]
  {
    var init, last := groups[..|groups| - 1], groups[|groups| - 1];
    FlattenSnoc(init, last);
    var front, shorter := Flatten(init), last[..|last| - 1];
    assert last == shorter + [last[|last| - 1]];
    assert blocks == (front + shorter) + [last[|last| - 1]];
  }

  /** The last block of the thread closes the last run. */
  lemma GreedyLast(groups: seq<seq<string>>, blocks: seq<string>, maxChunkSize: int)
    requires blocks != [] && IsGreedyPartition(groups, blocks, maxChunkSize)
    ensures groups != []
    ensures var init, last := groups[..|groups| - 1], groups[|groups| - 1];
            last != [] && last[|last| - 1] == blocks[|blocks| - 1]
            && Flatten(init) + last[..|last| - 1] == blocks[..|blocks| - 1]
            && GreedyRuns(init, maxChunkSize) && RunFits(last, maxChunkSize)
            && (init != [] ==> Overflows(init[|init| - 1], last, maxChunkSize))
  {
    assert groups != [];
    GreedyInit(groups, maxChunkSize);
    FlattenInit(groups, blocks);
  }

  /** Appending one element is injective. */
  lemma SnocInjective<T>(a: seq<T>, x: T, b: seq<T>, y: T)
    requires a + [x] == b + [y]
    ensures a == b && x == y
  {
    assert a == (a + [x])[..|a|];
    assert b == (b + [y])[..|b|];
  }

  /** One more block that does not fit behind a non-empty buffer starts a run of its own. */
  lemma SegmentAfterOverflow(prefix: seq<string>, block: string, maxChunkSize: int)
    requires var p := PackState(prefix, maxChunkSize);
             |block| > 0 && |Flatten(p.current)| > 0 && |Flatten(p.current) + block| > maxChunkSize
    ensures var p := PackState(prefix, maxChunkSize);
            Segment(prefix + [block], maxChunkSize) == p.closed + [p.current] + [[block]]
  {
    PackStateSnoc(prefix, block, maxChunkSize);
    FlattenSnoc<char>([], block);
  }

  /** One more block that fits behind the buffer joins the last run. */
  lemma SegmentAfterFit(prefix: seq<string>, block: string, maxChunkSize: int)
    requires var p := PackState(prefix, maxChunkSize);
             |block| > 0 && |Flatten(p.current) + block| <= maxChunkSize
    ensures var p := PackState(prefix, maxChunkSize);
            Segment(prefix + [block], maxChunkSize) == p.closed + [p.current + [block]]
  {
    var p := PackState(prefix, maxChunkSize);
    PackStateSnoc(prefix, block, maxChunkSize);
    FlattenSnoc(p.current, block);
  }

  /** A last run of one block: it was started because the block did not fit behind the run before. */
  lemma UniqueWithSingleLastRun(groups: seq<seq<string>>, blocks: seq<string>, maxChunkSize: int)
    requires blocks != [] && NonEmptyBlocks(blocks)
    requires IsGreedyPartition(groups, blocks, maxChunkSize)
    requires |groups[|groups| - 1]| == 1
    requires groups[..|groups| - 1] == Segment(blocks[..|blocks| - 1], maxChunkSize)
    ensures groups == Segment(blocks, maxChunkSize)
  {
    var prefix, block := blocks[..|blocks| - 1], blocks[|blocks| - 1];
    GreedyLast(groups, blocks, maxChunkSize);
    var init, last := groups[..|groups| - 1], groups[|groups| - 1];
    assert last == [block];
    assert groups == init + [last];
    assert blocks == prefix + [block];
    NonEmptyPrefix(blocks);
    if prefix == [] {
      GreedyOfNothing(init, maxChunkSize);
      PackStateSnoc(prefix, block, maxChunkSize);
    } else {
      var p := PackState(prefix, maxChunkSize);
      SegmentOfNonEmpty(prefix, maxChunkSize);
      PackStateIsGreedy(prefix, maxChunkSize);
      SnocInjective(p.closed, p.current, init[..|init| - 1], init[|init| - 1]);
      FlattenLastNonEmpty(p.current);
      SegmentAfterOverflow(prefix, block, maxChunkSize);
    }
  }

  /** The loop state after all but the last block, when the last run has several blocks. */
  lemma StateBeforeLongerRunEnds(groups: seq<seq<string>>, blocks: seq<string>, maxChunkSize: int)
    requires blocks != [] && NonEmptyBlocks(blocks)
    requires IsGreedyPartition(groups, blocks, maxChunkSize)
    requires |groups[|groups| - 1]| >= 2
    requires var last := groups[|groups| - 1];
             groups[..|groups| - 1] + [last[..|last| - 1]] == Segment(blocks[..|blocks| - 1], maxChunkSize)
    ensures var last := groups[|groups| - 1];
            var p := PackState(blocks[..|blocks| - 1], maxChunkSize);
            p.closed == groups[..|groups| - 1] && p.current == last[..|last| - 1]
            && last == p.current + [blocks[|blocks| - 1]]
            && |blocks[|blocks| - 1]| > 0
            && |Flatten(p.current) + blocks[|blocks| - 1]| <= maxChunkSize
  {
    var prefix, block := blocks[..|blocks| - 1], blocks[|blocks| - 1];
    GreedyLast(groups, blocks, maxChunkSize);
    var init, last := groups[..|groups| - 1], groups[|groups| - 1];
    var shorter := last[..|last| - 1];
    assert last == shorter + [block];
    FlattenSnoc(shorter, block);
    NonEmptyPrefix(blocks);
    assert |prefix| >= |shorter| >= 1;
    SegmentOfNonEmpty(prefix, maxChunkSize);
    var p := PackState(prefix, maxChunkSize);
    SnocInjective(init, shorter, p.closed, p.current);
  }

  /** The segmentation after one more block that fits behind the buffer, stated on runs. */
  lemma SegmentOfGrownRun(groups: seq<seq<string>>, prefix: seq<string>, block: string, maxChunkSize: int)
    requires var p := PackState(prefix, maxChunkSize);
             groups != [] && groups[..|groups| - 1] == p.closed
             && groups[|groups| - 1] == p.current + [block]
             && |block| > 0 && |Flatten(p.current) + block| <= maxChunkSize
    ensures groups == Segment(prefix + [block], maxChunkSize)
  {
    SegmentAfterFit(prefix, block, maxChunkSize);
    assert groups == groups[..|groups| - 1] + [groups[|groups| - 1]];
  }

  /** A last run of several blocks: its last block was appended because it fit. */
  lemma UniqueWithLongerLastRun(groups: seq<seq<string>>, blocks: seq<string>, maxChunkSize: int)
    requires blocks != [] && NonEmptyBlocks(blocks)
    requires IsGreedyPartition(groups, blocks, maxChunkSize)
    requires |groups[|groups| - 1]| >= 2
    requires var last := groups[|groups| - 1];
             groups[..|groups| - 1] + [last[..|last| - 1]] == Segment(blocks[..|blocks| - 1], maxChunkSize)
    ensures groups == Segment(blocks, maxChunkSize)
  {
    var prefix, block := blocks[..|blocks| - 1], blocks[|blocks| - 1];
    StateBeforeLongerRunEnds(groups, blocks, maxChunkSize);
    assert blocks == prefix + [block];
    SegmentOfGrownRun(groups, prefix, block, maxChunkSize);
  }

  /** The greedy rules admit exactly one partition: the one the loop builds. */
  lemma {:induction false} GreedyPartitionUnique(groups: seq<seq<string>>, blocks: seq<string>, maxChunkSize: int)
    requires NonEmptyBlocks(blocks)
    requires IsGreedyPartition(groups, blocks, maxChunkSize)
    ensures groups == Segment(blocks, maxChunkSize)
    decreases |blocks|
  {
    if blocks == [] {
      GreedyOfNothing(groups, maxChunkSize);
    } else {
      NonEmptyPrefix(blocks);
      GreedyLast(groups, blocks, maxChunkSize);
      var init, last := groups[..|groups| - 1], groups[|groups| - 1];
      if |last| == 1 {
        assert last[..|last| - 1] == [];
        assert Flatten(init) == blocks[..|blocks| - 1];
        GreedyPartitionUnique(init, blocks[..|blocks| - 1], maxChunkSize);
        UniqueWithSingleLastRun(groups, blocks, maxChunkSize);
      } else {
        var shorter := last[..|last| - 1];
        GreedyRunsSnoc(init, shorter, maxChunkSize);
        FlattenSnoc(init, shorter);
        FlattenSnoc(shorter, last[|last| - 1]);
        assert last == shorter + [last[|last| - 1]];
        assert shorter[0] == last[0];
        GreedyPartitionUnique(init + [shorter], blocks[..|blocks| - 1], maxChunkSize);
        UniqueWithLongerLastRun(groups, blocks, maxChunkSize);
      }
    }
  }

  /** The segmentation is characterised by the greedy rules, in both directions. */
  lemma SegmentCharacterization(groups: seq<seq<string>>, blocks: seq<string>, maxChunkSize: int)
    requires NonEmptyBlocks(blocks)
    ensures groups == Segment(blocks, maxChunkSize) <==> IsGreedyPartition(groups, blocks, maxChunkSize)
  {
    SegmentIsGreedy(blocks, maxChunkSize);
    if IsGreedyPartition(groups, blocks, maxChunkSize) {
      GreedyPartitionUnique(groups, blocks, maxChunkSize);
    }
  }

  // ---------------------------------------------------------------------------
  // The chunks of a case
  // ---------------------------------------------------------------------------

  /** The buffer of each run of blocks. */
  function Buffers(groups: seq<seq<string>>): (buffers: seq<string>)
    ensures |buffers| == |groups|
    ensures forall k :: 0 <= k < |groups| ==> buffers[k] == Flatten(groups[k])
  {
    seq(|groups|, k requires 0 <= k < |groups| => Flatten(groups[k]))
  }

  lemma BuffersSnoc(groups: seq<seq<string>>, group: seq<string>)
    ensures Buffers(groups + [group]) == Buffers(groups) + [Flatten(group)]
  {
  }

  /** Concatenating the buffers gives the concatenation of all the blocks. */
  lemma {:induction false} BuffersConcatenate(groups: seq<seq<string>>)
    ensures Flatten(Buffers(groups)) == Flatten(Flatten(groups))
    decreases |groups|
  {
    if groups != [] {
      var prefix, group := groups[..|groups| - 1], groups[|groups| - 1];
      assert groups == prefix + [group];
      BuffersConcatenate(prefix);
      BuffersSnoc(prefix, group);
      FlattenSnoc(Buffers(prefix), Flatten(group));
      FlattenSnoc(prefix, group);
      FlattenConcat(Flatten(prefix), group);
    }
  }

  /** Every chunk of a case carries the case number and the account of that case. */
  lemma ChunksCarryCase(info: CaseInfo, blocks: seq<string>, maxChunkSize: int)
    ensures var chunks := ChunksOf(info, blocks, maxChunkSize);
            |chunks| >= 1
            && forall k :: 0 <= k < |chunks| ==>
                 chunks[k].metadata.caseNumber == info.caseNumber
                 && chunks[k].metadata.accountName == info.accountName
  {
  }

  /** A thread with e-mails: every chunk holds the summary, a blank line and one run of whole
      blocks; the runs are the greedy partition of the thread and their buffers concatenate to
      the whole thread. */
  lemma ChunksOfNonEmptyThread(info: CaseInfo, emails: seq<map<string, Value>>, maxChunkSize: int)
    requires emails != []
    ensures var chunks := ChunksOf(info, Blocks(emails), maxChunkSize);
            var groups := Segment(Blocks(emails), maxChunkSize);
            IsGreedyPartition(groups, Blocks(emails), maxChunkSize)
            && |chunks| == |groups|
            && Flatten(Buffers(groups)) == Flatten(Blocks(emails))
            && forall k :: 0 <= k < |chunks| ==>
                 chunks[k].metadata.chunkType == Emails
                 && chunks[k].content == RenderSummary(info) + "\n\n" + Flatten(groups[k])
                 && chunks[k].metadata.emailCount == Count(Flatten(groups[k]), EmailMarker)
  {
    var blocks := Blocks(emails);
    RenderedBlocksNonEmpty(emails);
    SegmentIsGreedy(blocks, maxChunkSize);
    var groups := Segment(blocks, maxChunkSize);
    SegmentOfNonEmpty(blocks, maxChunkSize);
    BuffersConcatenate(groups);
  }

  /** The chunks of a thread: the summary chunk alone exactly when there are no e-mails,
      otherwise e-mails chunks only. */
  lemma ChunksOfThread(info: CaseInfo, emails: seq<map<string, Value>>, maxChunkSize: int)
    ensures var chunks := ChunksOf(info, Blocks(emails), maxChunkSize);
            |chunks| >= 1
            && (emails == [] <==> chunks == [SummaryChunk(info)])
            && (emails != [] ==> forall k :: 0 <= k < |chunks| ==> chunks[k].metadata.chunkType == Emails)
            && forall k :: 0 <= k < |chunks| ==>
                 ChunkTypeName(chunks[k].metadata.chunkType) == (if emails == [] then "case_info" else "emails")
  {
    if emails != [] {
      ChunksOfNonEmptyThread(info, emails, maxChunkSize);
      var chunks := ChunksOf(info, Blocks(emails), maxChunkSize);
      assert chunks[0].metadata.chunkType == Emails;
    }
  }

  // ---------------------------------------------------------------------------
  // Worked cases
  // ---------------------------------------------------------------------------

  /** Blocks of 250, 400 and 500 characters under a limit of 700: the first two share a chunk
      (650 fits), the third starts a new one (1150 does not). */
  lemma ThreeBlocksUnder700(b1: string, b2: string, b3: string)
    requires |b1| == 250 && |b2| == 400 && |b3| == 500
    ensures Segment([b1, b2, b3], 700) == [[b1, b2], [b3]]
  {
    assert Flatten([b1]) == b1 by { FlattenSnoc<char>([], b1); }
    SingleBlockIsGreedy(b1, 700);
    GreedyGrow([[b1]], [b1], b2, 700);
    assert [b1] + [b2] == [b1, b2];
    assert [[b1]][..0] + [[b1] + [b2]] == [[b1, b2]];
    assert Flatten([b1, b2]) == b1 + b2 by { FlattenSnoc([b1], b2); }
    GreedyClose([[b1, b2]], [b1, b2], b3, 700);
    assert [b1, b2] + [b3] == [b1, b2, b3];
    assert forall k :: 0 <= k < 3 ==> |[b1, b2, b3][k]| > 0;
    GreedyPartitionUnique([[b1, b2], [b3]], [b1, b2, b3], 700);
  }

  /** A block longer than the limit is never cut and shares its chunk with no other block,
      wherever it stands in the thread. */
  lemma OversizedBlockStaysWhole(blocks: seq<string>, maxChunkSize: int, k: nat, block: string)
    requires NonEmptyBlocks(blocks)
    requires k < |Segment(blocks, maxChunkSize)|
    requires block in Segment(blocks, maxChunkSize)[k] && |block| > maxChunkSize
    ensures Segment(blocks, maxChunkSize)[k] == [block]
  {
    var run := Segment(blocks, maxChunkSize)[k];
    SegmentIsGreedy(blocks, maxChunkSize);
    assert RunFits(run, maxChunkSize);
    FlattenHoldsPiece(run, block);
    assert |run| == 1;
  }

  /** A thread of one e-mail gives one run holding its block, however long it is. */
  lemma OnlyBlockStaysWhole(block: string, maxChunkSize: int)
    requires |block| > 0
    ensures Segment([block], maxChunkSize) == [[block]]
  {
    SingleBlockIsGreedy(block, maxChunkSize);
    GreedyPartitionUnique([[block]], [block], maxChunkSize);
  }

  /** An oversized block behind a non-empty buffer closes that buffer and starts its own run. */
  lemma OversizedBlockClosesBuffer(before: string, block: string, maxChunkSize: int)
    requires |before| > 0 && |block| > 0 && |block| > maxChunkSize
    ensures Segment([before, block], maxChunkSize) == [[before], [block]]
  {
    assert Flatten([before]) == before by { FlattenSnoc<char>([], before); }
    SingleBlockIsGreedy(before, maxChunkSize);
    GreedyClose([[before]], [before], block, maxChunkSize);
    assert forall k :: 0 <= k < 2 ==> |[before, block][k]| > 0;
    GreedyPartitionUnique([[before], [block]], [before, block], maxChunkSize);
  }

  /** A buffer that reaches the limit exactly is not closed: the test is a strict "greater than". */
  lemma ExactFitShares(b1: string, b2: string, maxChunkSize: int)
    requires |b1| > 0 && |b2| > 0 && |b1| + |b2| == maxChunkSize
    ensures Segment([b1, b2], maxChunkSize) == [[b1, b2]]
  {
    assert Flatten([b1]) == b1 by { FlattenSnoc<char>([], b1); }
    SingleBlockIsGreedy(b1, maxChunkSize);
    GreedyGrow([[b1]], [b1], b2, maxChunkSize);
    assert [b1] + [b2] == [b1, b2];
    assert [[b1]][..0] + [[b1] + [b2]] == [[b1, b2]];
    assert forall k :: 0 <= k < 2 ==> |[b1, b2][k]| > 0;
    GreedyPartitionUnique([[b1, b2]], [b1, b2], maxChunkSize);
  }
}
