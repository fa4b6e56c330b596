/** Map-reduce consolidation (memory/memory_manager.py, `_consolidate_with_chunking`).

    Entries are texts; the model calls are an oracle from the number of calls made before to a
    reply. Lengths count characters, as the source does. */
module ConsolidationChunker {
  import opened Wrappers

  const TOKEN_BUDGET := 24_000
  const CHARS_PER_TOKEN := 4
  const CHAR_BUDGET := TOKEN_BUDGET * CHARS_PER_TOKEN
  const SEPARATOR := "\n\n"
  const TRUNC_SUFFIX := "\n...[truncated by chunker]"
  const OVERSIZE_CAP := CHAR_BUDGET - 2 - |TRUNC_SUFFIX|

  // ----- sizes --------------------------------------------------------------------------------

  function Join(texts: seq<string>, separator: string): string {
    if texts == [] then ""
    else if |texts| == 1 then texts[0]
    else texts[0] + separator + Join(texts[1..], separator)
  }

  /** What the chunker charges: every entry with one separator. */
  function Cost(entries: seq<string>): nat {
    if entries == [] then 0 else |entries[0]| + 2 + Cost(entries[1..])
  }

  function Flatten(chunks: seq<seq<string>>): seq<string> {
    if chunks == [] then [] else chunks[0] + Flatten(chunks[1..])
  }

  function Clip(entry: string): (r: string)
    ensures |r| + 2 <= CHAR_BUDGET
    ensures |entry| <= OVERSIZE_CAP ==> r == entry
  {
    if |entry| > OVERSIZE_CAP then entry[..OVERSIZE_CAP] + TRUNC_SUFFIX else entry
  }

  function ClipAll(entries: seq<string>): (r: seq<string>)
    ensures |r| == |entries|
  {
    seq(|entries|, i requires 0 <= i < |entries| => Clip(entries[i]))
  }

  lemma ClipSnoc(entries: seq<string>, i: nat)
    requires i < |entries|
    ensures ClipAll(entries)[..i + 1] == ClipAll(entries)[..i] + [Clip(entries[i])]
  {
  }

  lemma {:induction false} CostOfConcat(a: seq<string>, b: seq<string>)
    ensures Cost(a + b) == Cost(a) + Cost(b)
  {
    if a == [] {
      assert a + b == b;
    } else {
      assert (a + b)[1..] == a[1..] + b;
      CostOfConcat(a[1..], b);
    }
  }

  lemma {:induction false} FlattenOfConcat(a: seq<seq<string>>, b: seq<seq<string>>)
    ensures Flatten(a + b) == Flatten(a) + Flatten(b)
  {
    if a == [] {
      assert a + b == b;
    } else {
      assert (a + b)[1..] == a[1..] + b;
      FlattenOfConcat(a[1..], b);
    }
  }

  lemma FlattenOfOne(c: seq<string>)
    ensures Flatten([c]) == c
  {
    assert [c][1..] == [];
  }

  lemma {:induction false} JoinedLength(entries: seq<string>)
    requires entries != []
    ensures |Join(entries, SEPARATOR)| == Cost(entries) - 2
  {
    if |entries| == 1 {
      assert entries[1..] == [];
    } else {
      JoinedLength(entries[1..]);
    }
  }

  /** Where the text behind `texts` begins when they are joined by something `gap` long. */
  function Start(texts: seq<string>, gap: nat): nat {
    if texts == [] then 0 else |texts[0]| + gap + Start(texts[1..], gap)
  }

  lemma {:induction false} CostIsStart(entries: seq<string>)
    ensures Cost(entries) == Start(entries, 2)
  {
    if entries == [] {
    } else {
      CostIsStart(entries[1..]);
    }
  }

  /** The piece stands at that place of the text, with the gap behind it if more follows. */
  predicate PlacedIn(text: string, at: nat, piece: string, gap: string, more: bool) {
    && at + |piece| <= |text| && text[at..at + |piece|] == piece
    && (more ==> at + |piece| + |gap| <= |text| && text[at + |piece|..at + |piece| + |gap|] == gap)
  }

  lemma PlacedBehind(a: string, b: string, at: nat, piece: string, gap: string, more: bool)
    requires PlacedIn(b, at, piece, gap, more)
    ensures PlacedIn(a + b, |a| + at, piece, gap, more)
  {
    assert (a + b)[|a| + at..|a| + at + |piece|] == b[at..at + |piece|];
    if more {
      var end := at + |piece|;
      assert (a + b)[|a| + end..|a| + end + |gap|] == b[end..end + |gap|];
    }
  }

  lemma PlacedFirst(piece: string, gap: string, rest: string)
    ensures PlacedIn(piece + gap + rest, 0, piece, gap, true)
  {
  }

  lemma {:induction false} JoinLength(texts: seq<string>, separator: string)
    requires texts != []
    ensures |Join(texts, separator)| == Start(texts, |separator|) - |separator|
  {
    if |texts| == 1 {
      assert texts[1..] == [];
    } else {
      JoinLength(texts[1..], separator);
    }
  }

  /** A join holds every text at its place, in order, with the separator behind it unless it is the last. */
  lemma {:induction false} JoinHolds(texts: seq<string>, separator: string, i: nat)
    requires i < |texts|
    ensures PlacedIn(Join(texts, separator), Start(texts[..i], |separator|), texts[i], separator, i + 1 < |texts|)
    decreases |texts|
  {
    if |texts| == 1 {
      assert texts[..0] == [];
    } else if i == 0 {
      assert texts[..0] == [];
      PlacedFirst(texts[0], separator, Join(texts[1..], separator));
    } else {
      JoinHolds(texts[1..], separator, i - 1);
      StartOfTail(texts, |separator|, i);
      PlacedBehind(texts[0] + separator, Join(texts[1..], separator), Start(texts[1..][..i - 1], |separator|), texts[i],
                   separator, i + 1 < |texts|);
    }
  }

  lemma StartOfTail(texts: seq<string>, gap: nat, i: nat)
    requires 0 < i < |texts|
    ensures Start(texts[..i], gap) == |texts[0]| + gap + Start(texts[1..][..i - 1], gap)
    ensures texts[1..][i - 1] == texts[i]
  {
    assert texts[..i][1..] == texts[1..][..i - 1];
  }

  /** The text reads as the entries, in order, with a blank line between each two. */
  ghost predicate ReadsAs(text: string, entries: seq<string>) {
    && |text| == (if entries == [] then 0 else Cost(entries) - 2)
    && forall i :: 0 <= i < |entries| ==> StandsIn(text, entries, i)
  }

  predicate StandsIn(text: string, entries: seq<string>, i: nat)
    requires i < |entries|
  {
    PlacedIn(text, Cost(entries[..i]), entries[i], "\n\n", i + 1 < |entries|)
  }

  lemma JoinReadsAs(entries: seq<string>)
    ensures ReadsAs(Join(entries, SEPARATOR), entries)
  {
    CostIsStart(entries);
    forall i | 0 <= i < |entries| ensures StandsIn(Join(entries, SEPARATOR), entries, i) {
      JoinHolds(entries, SEPARATOR, i);
      CostIsStart(entries[..i]);
    }
    if entries != [] {
      JoinedLength(entries);
    }
  }

  /** What truncation leaves of an entry. */
  lemma ClipMeans(entry: string)
    ensures |entry| <= 95_972 ==> Clip(entry) == entry
    ensures |entry| > 95_972 ==> Clip(entry) == entry[..95_972] + "\n...[truncated by chunker]"
  {
    assert |TRUNC_SUFFIX| == 26;
  }

  lemma ClipAllMeans(entries: seq<string>)
    ensures |ClipAll(entries)| == |entries|
    ensures forall i :: 0 <= i < |entries| ==> ClipAll(entries)[i] == Clip(entries[i])
  {
  }

  // ----- contiguous partitions ------------------------------------------------------------------

  ghost predicate IsPartition(chunks: seq<seq<string>>, entries: seq<string>) {
    && Flatten(chunks) == entries
    && forall i :: 0 <= i < |chunks| ==> Cost(chunks[i]) <= CHAR_BUDGET
  }

  /** The first entry of `next` does not fit behind `chunk`. */
  predicate TooMuch(chunk: seq<string>, next: seq<string>) {
    next != [] && Cost(chunk + next[..1]) > CHAR_BUDGET
  }

  /** No chunk could have taken the first entry of the chunk after it. */
  ghost predicate Saturated(chunks: seq<seq<string>>) {
    && (forall i :: 0 <= i < |chunks| ==> chunks[i] != [])
    && (forall i, j :: 0 <= i && j == i + 1 && j < |chunks| ==> TooMuch(chunks[i], chunks[j]))
  }

  /** How many entries the first k chunks hold. */
  function Covered(chunks: seq<seq<string>>, k: nat): nat
    requires k <= |chunks|
  {
    if k == 0 then 0 else Covered(chunks, k - 1) + |chunks[k - 1]|
  }

  lemma {:induction false} CoveredIsPrefix(chunks: seq<seq<string>>, k: nat)
    requires k <= |chunks|
    ensures Covered(chunks, k) == |Flatten(chunks[..k])|
  {
    if k == 0 {
    } else {
      CoveredIsPrefix(chunks, k - 1);
      FlattenSnoc(chunks, k - 1);
    }
  }

  lemma CoveredAll(chunks: seq<seq<string>>, k: nat)
    requires k == |chunks|
    ensures Covered(chunks, k) == |Flatten(chunks)|
  {
    CoveredIsPrefix(chunks, k);
    assert chunks[..k] == chunks;
  }

  lemma ChunkIsSlice(chunks: seq<seq<string>>, entries: seq<string>, k: nat)
    requires Flatten(chunks) == entries && k < |chunks|
    ensures Covered(chunks, k + 1) == Covered(chunks, k) + |chunks[k]| <= |entries|
    ensures chunks[k] == entries[Covered(chunks, k)..Covered(chunks, k) + |chunks[k]|]
  {
    CoveredIsPrefix(chunks, k);
    FlattenSnoc(chunks, k);
    assert chunks == chunks[..k + 1] + chunks[k + 1..];
    FlattenOfConcat(chunks[..k + 1], chunks[k + 1..]);
    SliceOf(Flatten(chunks[..k]), chunks[k], Flatten(chunks[k + 1..]), entries);
  }

  lemma FlattenSnoc(chunks: seq<seq<string>>, k: nat)
    requires k < |chunks|
    ensures Flatten(chunks[..k + 1]) == Flatten(chunks[..k]) + chunks[k]
  {
    assert chunks[..k + 1] == chunks[..k] + [chunks[k]];
    FlattenOfConcat(chunks[..k], [chunks[k]]);
    FlattenOfOne(chunks[k]);
  }

  lemma SliceOf(a: seq<string>, b: seq<string>, c: seq<string>, all: seq<string>)
    requires all == a + b + c
    ensures b == all[|a|..|a| + |b|]
  {
  }

  lemma SliceCostMonotone(entries: seq<string>, lo: nat, i: nat, j: nat, hi: nat)
    requires lo <= i <= j <= hi <= |entries|
    ensures Cost(entries[i..j]) <= Cost(entries[lo..hi])
  {
    assert entries[lo..hi] == entries[lo..i] + entries[i..j] + entries[j..hi];
    CostOfConcat(entries[lo..i] + entries[i..j], entries[j..hi]);
    CostOfConcat(entries[lo..i], entries[i..j]);
  }

  lemma NextEntryWouldNotFit(chunks: seq<seq<string>>, entries: seq<string>, k: nat)
    requires Flatten(chunks) == entries && Saturated(chunks) && k + 1 < |chunks|
    ensures Covered(chunks, k) <= Covered(chunks, k + 1) < |entries|
    ensures Cost(entries[Covered(chunks, k)..Covered(chunks, k + 1) + 1]) > CHAR_BUDGET
  {
    ChunkIsSlice(chunks, entries, k);
    ChunkIsSlice(chunks, entries, k + 1);
    TooMuchInSlices(entries, chunks[k], chunks[k + 1], Covered(chunks, k), Covered(chunks, k + 1));
  }

  lemma TooMuchInSlices(entries: seq<string>, a: seq<string>, b: seq<string>, i: nat, j: nat)
    requires i <= j && j + |b| <= |entries| && a == entries[i..j] && b == entries[j..j + |b|]
    requires TooMuch(a, b)
    ensures j < |entries| && Cost(entries[i..j + 1]) > CHAR_BUDGET
  {
    assert a + b[..1] == entries[i..j + 1];
  }

  /** A saturated partition stays ahead of every other partition, chunk by chunk. */
  lemma {:induction false} SaturatedStaysAhead(chunks: seq<seq<string>>, parts: seq<seq<string>>, entries: seq<string>,
                                               k: nat)
    requires IsPartition(chunks, entries) && Saturated(chunks) && IsPartition(parts, entries)
    requires k <= |chunks| && k <= |parts|
    ensures Covered(parts, k) <= Covered(chunks, k)
  {
    if k == 0 {
    } else {
      SaturatedStaysAhead(chunks, parts, entries, k - 1);
      if k == |chunks| {
        CoveredAll(chunks, k);
        ChunkIsSlice(parts, entries, k - 1);
      } else {
        KeepsAhead(chunks, parts, entries, k - 1);
      }
    }
  }

  lemma KeepsAhead(chunks: seq<seq<string>>, parts: seq<seq<string>>, entries: seq<string>, k: nat)
    requires IsPartition(chunks, entries) && Saturated(chunks) && IsPartition(parts, entries)
    requires k + 1 < |chunks| && k < |parts| && Covered(parts, k) <= Covered(chunks, k)
    ensures Covered(parts, k + 1) <= Covered(chunks, k + 1)
  {
    NextEntryWouldNotFit(chunks, entries, k);
    ChunkIsSlice(parts, entries, k);
    assert Cost(parts[k]) <= CHAR_BUDGET;
    if Covered(chunks, k + 1) < Covered(parts, k + 1) {
      SliceCostMonotone(entries, Covered(parts, k), Covered(chunks, k), Covered(chunks, k + 1) + 1,
                        Covered(parts, k + 1));
      assert false;
    }
  }

  lemma SaturatedIsMinimal(chunks: seq<seq<string>>, parts: seq<seq<string>>, entries: seq<string>)
    requires IsPartition(chunks, entries) && Saturated(chunks) && IsPartition(parts, entries)
    ensures |chunks| <= |parts|
  {
    if |parts| < |chunks| {
      SaturatedStaysAhead(chunks, parts, entries, |parts|);
      CoveredAll(parts, |parts|);
      ChunkIsSlice(chunks, entries, |parts|);
      assert false;
    }
  }

  // ----- the chunking loop ----------------------------------------------------------------------

  /** The chunk being filled could not have been started later: its first entry did not fit. */
  ghost predicate OpenAfter(chunks: seq<seq<string>>, current: seq<string>) {
    chunks != [] ==> TooMuch(chunks[|chunks| - 1], current)
  }

  /** Where the greedy pass stands after the clipped entries `done`. */
  ghost predicate Progress(chunks: seq<seq<string>>, current: seq<string>, done: seq<string>) {
    && Flatten(chunks) + current == done
    && (forall j :: 0 <= j < |chunks| ==> Cost(chunks[j]) <= CHAR_BUDGET)
    && Cost(current) <= CHAR_BUDGET
    && Saturated(chunks)
    && OpenAfter(chunks, current)
    && (done != [] ==> current != [])
  }

  lemma CloseChunk(chunks: seq<seq<string>>, current: seq<string>, done: seq<string>)
    requires Progress(chunks, current, done) && current != []
    ensures Saturated(chunks + [current]) && IsPartition(chunks + [current], done)
  {
    FlattenOfConcat(chunks, [current]);
    FlattenOfOne(current);
  }

  lemma CostWithOneMore(current: seq<string>, entry: string)
    ensures Cost(current + [entry]) == Cost(current) + |entry| + 2
    ensures Cost([entry]) == |entry| + 2
  {
    CostOfConcat(current, [entry]);
    assert [entry][1..] == [];
  }

  lemma StartChunk(chunks: seq<seq<string>>, current: seq<string>, done: seq<string>, entry: string)
    requires Progress(chunks, current, done) && current != [] && |entry| + 2 <= CHAR_BUDGET
    requires Cost(current) + |entry| + 2 > CHAR_BUDGET
    ensures Progress(chunks + [current], [entry], done + [entry])
  {
    CloseChunk(chunks, current, done);
    CostWithOneMore(current, entry);
    assert [entry][..1] == [entry];
  }

  lemma GrowChunk(chunks: seq<seq<string>>, current: seq<string>, done: seq<string>, entry: string)
    requires Progress(chunks, current, done) && Cost(current) + |entry| + 2 <= CHAR_BUDGET
    ensures Progress(chunks, current + [entry], done + [entry])
  {
    CostWithOneMore(current, entry);
    assert current != [] ==> (current + [entry])[..1] == current[..1];
  }

  /** The greedy pass at chunk boundaries. */
  method FillChunks(entries: seq<string>) returns (chunks: seq<seq<string>>)
    ensures IsPartition(chunks, ClipAll(entries))
    ensures Saturated(chunks)
  {
    chunks := [];
    var current: seq<string> := [];
    var currentLen := 0;
    ghost var done: seq<string> := [];
    for i := 0 to |entries|
      invariant done == ClipAll(entries)[..i]
      invariant Progress(chunks, current, done)
      invariant currentLen == Cost(current)
    {
      var entry := Clip(entries[i]);
      ClipSnoc(entries, i);
      var entryLen := |entry| + 2;
      CostWithOneMore(current, entry);
      if current != [] && currentLen + entryLen > CHAR_BUDGET {
        StartChunk(chunks, current, done, entry);
        chunks := chunks + [current];
        current := [entry];
        currentLen := entryLen;
      } else {
        GrowChunk(chunks, current, done, entry);
        current := current + [entry];
        currentLen := currentLen + entryLen;
      }
      done := done + [entry];
    }
    assert done == ClipAll(entries);
    if current != [] {
      CloseChunk(chunks, current, done);
      chunks := chunks + [current];
    }
  }

  ghost predicate IsMinimalPartition(chunks: seq<seq<string>>, entries: seq<string>) {
    && IsPartition(chunks, entries)
    && forall parts :: IsPartition(parts, entries) ==> |chunks| <= |parts|
  }

  method SplitIntoChunks(entries: seq<string>) returns (chunks: seq<seq<string>>)
    // Nothing lost, nothing reordered, nothing over budget, and no contiguous partition within the
    // budget has fewer chunks.
    ensures IsMinimalPartition(chunks, ClipAll(entries))
    ensures forall i :: 0 <= i < |chunks| ==> chunks[i] != [] && |Join(chunks[i], SEPARATOR)| <= CHAR_BUDGET - 2
  {
    chunks := FillChunks(entries);
    forall i | 0 <= i < |chunks|
      ensures |Join(chunks[i], SEPARATOR)| <= CHAR_BUDGET - 2
    {
      JoinedLength(chunks[i]);
    }
    forall parts | IsPartition(parts, ClipAll(entries))
      ensures |chunks| <= |parts|
    {
      SaturatedIsMinimal(chunks, parts, ClipAll(entries));
    }
  }

  // ----- the whole map-reduce ---------------------------------------------------------------------

  const REDUCE_PREFACE :=
    "The following are sub-summaries from today's memories, produced " +
    "by consolidating each time-chunk separately. Merge them into a " +
    "single coherent daily summary. Preserve specific observations " +
    "and trends; drop duplication between chunks.\n\n"

  /** A blank reply counts as a failed call. */
  function Reply(chat: nat -> Option<string>, call: nat): (r: Option<string>)
    ensures r.Some? ==> r.value != ""
  {
    if chat(call).Some? && chat(call).value == "" then None else chat(call)
  }

  function Headed(summaries: seq<string>, number: nat -> string): (r: seq<string>)
    ensures |r| == |summaries|
  {
    seq(|summaries|, i requires 0 <= i < |summaries| =>
      "[Sub-summary " + number(i + 1) + "/" + number(|summaries|) + "]\n" + summaries[i])
  }

  /** The successful replies among calls 0 .. n-1, in call order. */
  function Successes(chat: nat -> Option<string>, n: nat): seq<string> {
    if n == 0 then []
    else if Reply(chat, n - 1).Some? then Successes(chat, n - 1) + [Reply(chat, n - 1).value]
    else Successes(chat, n - 1)
  }

  lemma {:induction false} SuccessesNeedOne(chat: nat -> Option<string>, n: nat)
    ensures Successes(chat, n) == [] <==> forall i :: 0 <= i < n ==> Reply(chat, i).None?
  {
    if n == 0 {
    } else {
      SuccessesNeedOne(chat, n - 1);
    }
  }

  function ReduceBlock(subSummaries: seq<string>, number: nat -> string): (block: string)
    ensures |block| <= |REDUCE_PREFACE| + CHAR_BUDGET
  {
    REDUCE_PREFACE + Cut(Join(Headed(subSummaries, number), RULE))
  }

  function Cut(joined: string): (r: string)
    ensures |r| <= CHAR_BUDGET
  {
    if |joined| > CHAR_BUDGET then joined[..CHAR_BUDGET] else joined
  }

  const RULE := "\n\n---\n\n"

  /** The budget is checked before the preface is put in front: the block is over budget exactly when the
      joined sub-summaries leave the preface no room. */
  lemma ReduceBlockExceedsWhen(subSummaries: seq<string>, number: nat -> string)
    ensures |ReduceBlock(subSummaries, number)| > CHAR_BUDGET <==>
      |Join(Headed(subSummaries, number), RULE)| > CHAR_BUDGET - |REDUCE_PREFACE|
  {
    assert 0 < |REDUCE_PREFACE| < CHAR_BUDGET;
  }

  /** Two sub-summaries, the first as long as the budget, make it so. */
  lemma ReduceBlockCanExceed(number: nat -> string)
    ensures |ReduceBlock([Filled(CHAR_BUDGET), "y"], number)| > CHAR_BUDGET
  {
    var headed := Headed([Filled(CHAR_BUDGET), "y"], number);
    assert |headed[0]| > CHAR_BUDGET;
    assert Join(headed, RULE) == headed[0] + RULE + Join(headed[1..], RULE);
    ReduceBlockExceedsWhen([Filled(CHAR_BUDGET), "y"], number);
  }

  function Filled(n: nat): (s: string)
    ensures |s| == n
  {
    seq(n, _ => 'x')
  }

  /** The heading of a sub-summary. */
  lemma HeadedReads(good: seq<string>, number: nat -> string, i: nat)
    requires i < |good|
    ensures Headed(good, number)[i] == "[Sub-summary " + number(i + 1) + "/" + number(|good|) + "]\n" + good[i]
  {
  }

  /** The block of the reduce call: the preface, then the sub-summaries in order, each under its heading, with
      a rule between each two, as far as the budget goes. */
  lemma ReduceBlockReads(good: seq<string>, number: nat -> string, headed: seq<string>, i: nat)
    requires i < |good| && headed == Headed(good, number)
    ensures Start(headed[..i], 7) + |headed[i]| + (if i + 1 < |good| then 7 else 0) <= 96_000 ==>
      PlacedIn(ReduceBlock(good, number), |REDUCE_PREFACE| + Start(headed[..i], 7), headed[i], "\n\n---\n\n",
               i + 1 < |good|)
  {
    var at := Start(headed[..i], 7);
    JoinHolds(headed, RULE, i);
    PlacedBehindPreface(Join(headed, RULE), at, headed[i], i + 1 < |good|);
  }

  lemma ReduceBlockSize(good: seq<string>, number: nat -> string, headed: seq<string>)
    requires good != [] && headed == Headed(good, number)
    ensures REDUCE_PREFACE <= ReduceBlock(good, number)
    ensures ReduceBlock(good, number)[|REDUCE_PREFACE|..] <= Join(headed, "\n\n---\n\n")
    ensures |ReduceBlock(good, number)| == |REDUCE_PREFACE| +
      (if Start(headed, 7) - 7 > 96_000 then 96_000 else Start(headed, 7) - 7)
  {
    JoinLength(headed, RULE);
  }

  lemma PlacedBehindPreface(joined: string, at: nat, piece: string, more: bool)
    requires PlacedIn(joined, at, piece, RULE, more)
    ensures at + |piece| + (if more then 7 else 0) <= 96_000 ==>
      PlacedIn(REDUCE_PREFACE + Cut(joined), |REDUCE_PREFACE| + at, piece, RULE, more)
  {
    if at + |piece| + (if more then 7 else 0) <= 96_000 {
      PlacedInCut(joined, at, piece, RULE, more);
      PlacedBehind(REDUCE_PREFACE, Cut(joined), at, piece, RULE, more);
    }
  }

  lemma PlacedInCut(whole: string, at: nat, piece: string, gap: string, more: bool)
    requires PlacedIn(whole, at, piece, gap, more) && at + |piece| + (if more then |gap| else 0) <= 96_000
    ensures PlacedIn(Cut(whole), at, piece, gap, more)
  {
  }

  /** The surviving sub-summaries are the replies that are not blank, each once, in call order. */
  lemma {:induction false} SuccessesInOrder(chat: nat -> Option<string>, n: nat) returns (at: seq<nat>)
    ensures |at| == |Successes(chat, n)|
    ensures forall k :: 0 <= k < |at| ==>
      at[k] < n && chat(at[k]) == Some(Successes(chat, n)[k]) && Successes(chat, n)[k] != ""
    ensures forall k, l :: 0 <= k < l < |at| ==> at[k] < at[l]
    ensures forall i: nat :: i < n && chat(i).Some? && chat(i).value != "" ==> i in at
  {
    if n == 0 {
      at := [];
    } else {
      at := SuccessesInOrder(chat, n - 1);
      if chat(n - 1).Some? && chat(n - 1).value != "" {
        at := at + [n - 1];
      }
    }
  }

  /** What a pass over n chunks answers. */
  lemma FinalSummaryMeans(chat: nat -> Option<string>, n: nat)
    ensures Successes(chat, n) == [] ==> FinalSummary(chat, n) == None
    ensures |Successes(chat, n)| == 1 ==> FinalSummary(chat, n) == Some(Successes(chat, n)[0])
    ensures |Successes(chat, n)| >= 2 ==>
      FinalSummary(chat, n) ==
        (if chat(n).Some? && chat(n).value != "" then chat(n) else Some(Successes(chat, n)[|Successes(chat, n)| - 1]))
  {
    var at := SuccessesInOrder(chat, n);
  }

  /** Where the j-th entry of a partition stands: in one block, at its place. */
  lemma {:induction false} EntryIsIn(chunks: seq<seq<string>>, entries: seq<string>, j: nat, k: nat)
    returns (c: nat, i: nat)
    requires Flatten(chunks) == entries && j < |entries| && k <= |chunks| && j < Covered(chunks, k)
    ensures c < k && i < |chunks[c]| && j == Covered(chunks, c) + i && chunks[c][i] == entries[j]
    decreases k
  {
    if j < Covered(chunks, k - 1) {
      c, i := EntryIsIn(chunks, entries, j, k - 1);
    } else {
      c, i := k - 1, j - Covered(chunks, k - 1);
      ChunkIsSlice(chunks, entries, c);
    }
  }

  /** Every entry of the day, clipped, is sent in one of the blocks. */
  lemma EveryEntryIsSent(chunks: seq<seq<string>>, entries: seq<string>, chat: nat -> Option<string>,
                         number: nat -> string, sent: seq<string>, j: nat) returns (c: nat, i: nat)
    requires Flatten(chunks) == ClipAll(entries) && MapReduceCalls(chunks, chat, number, sent) && j < |entries|
    ensures c < |chunks| && i < |chunks[c]| && j == Covered(chunks, c) + i && chunks[c][i] == Clip(entries[j])
    ensures StandsIn(sent[c], chunks[c], i)
  {
    CoveredAll(chunks, |chunks|);
    c, i := EntryIsIn(chunks, ClipAll(entries), j, |chunks|);
    assert ReadsAs(sent[c], chunks[c]);
  }

  /** What a map-reduce pass over `chunks` hands to the model, call by call: every chunk once, in
      order, within the budget, then the surviving sub-summaries when there are at least two. */
  ghost predicate MapReduceCalls(chunks: seq<seq<string>>, chat: nat -> Option<string>, number: nat -> string,
                                 sent: seq<string>)
  {
    var good := Successes(chat, |chunks|);
    && |sent| == |chunks| + (if |good| >= 2 then 1 else 0)
    && (forall i :: 0 <= i < |chunks| ==> sent[i] == Join(chunks[i], SEPARATOR) && |sent[i]| <= CHAR_BUDGET - 2)
    && (forall i :: 0 <= i < |chunks| ==> ReadsAs(sent[i], chunks[i]))
    && (|good| >= 2 ==> sent[|chunks|] == ReduceBlock(good, number))
  }

  /** What a pass over n chunks answers: the reduced text, else the last sub-summary. */
  function FinalSummary(chat: nat -> Option<string>, n: nat): Option<string> {
    var good := Successes(chat, n);
    if |good| >= 2 && Reply(chat, n).Some? then Reply(chat, n)
    else if good == [] then None
    else Some(good[|good| - 1])
  }

  /** One call per chunk; the last successful call is reported for the fallback. */
  method MapChunks(chunks: seq<seq<string>>, chat: nat -> Option<string>)
    returns (subSummaries: seq<string>, sent: seq<string>, lastGood: nat)
    ensures subSummaries == Successes(chat, |chunks|)
    ensures |sent| == |chunks| && forall j :: 0 <= j < |sent| ==> sent[j] == Join(chunks[j], SEPARATOR)
    ensures subSummaries != [] ==>
      lastGood < |chunks| && Reply(chat, lastGood) == Some(subSummaries[|subSummaries| - 1])
  {
    subSummaries, sent, lastGood := [], [], 0;
    for i := 0 to |chunks|
      invariant |sent| == i && forall j :: 0 <= j < i ==> sent[j] == Join(chunks[j], SEPARATOR)
      invariant subSummaries == Successes(chat, i)
      invariant subSummaries != [] ==>
        lastGood < i && Reply(chat, lastGood) == Some(subSummaries[|subSummaries| - 1])
    {
      var s := Reply(chat, i);
      sent := sent + [Join(chunks[i], SEPARATOR)];
      if s.Some? {
        subSummaries := subSummaries + [s.value];
        lastGood := i;
      }
    }
  }

  method MapReduce(chunks: seq<seq<string>>, chat: nat -> Option<string>, number: nat -> string)
    returns (summary: Option<string>, sent: seq<string>)
    requires forall i :: 0 <= i < |chunks| ==> |Join(chunks[i], SEPARATOR)| <= CHAR_BUDGET - 2
    ensures summary.None? <==> forall i :: 0 <= i < |sent| ==> Reply(chat, i).None?
    ensures summary.Some? ==> exists i :: 0 <= i < |sent| && summary == Reply(chat, i)
    ensures summary == FinalSummary(chat, |chunks|)
    ensures MapReduceCalls(chunks, chat, number, sent)
  {
    var subSummaries, blocks, lastGood := MapChunks(chunks, chat);
    SuccessesNeedOne(chat, |chunks|);
    BlocksRead(chunks, blocks);
    if subSummaries == [] {
      return None, blocks;
    }
    if |subSummaries| == 1 {
      return Some(subSummaries[0]), blocks;
    }
    var reduce := ReduceBlock(subSummaries, number);
    sent := blocks + [reduce];
    assert forall i :: 0 <= i < |chunks| ==> sent[i] == blocks[i];
    var final := Reply(chat, |chunks|);
    summary := if final.Some? then final else Some(subSummaries[|subSummaries| - 1]);
    assert sent[lastGood] == blocks[lastGood];
  }

  lemma BlocksRead(chunks: seq<seq<string>>, sent: seq<string>)
    requires |chunks| <= |sent| && forall j :: 0 <= j < |chunks| ==> sent[j] == Join(chunks[j], SEPARATOR)
    ensures forall i :: 0 <= i < |chunks| ==> ReadsAs(sent[i], chunks[i])
  {
    forall i | 0 <= i < |chunks| ensures ReadsAs(sent[i], chunks[i]) {
      JoinReadsAs(chunks[i]);
    }
  }

  /** `sent` is the list of blocks handed to the model, one per call. `number` renders decimals. */
  method Consolidate(entries: seq<string>, chat: nat -> Option<string>, number: nat -> string)
    returns (summary: Option<string>, sent: seq<string>)
    // Total failure is reported exactly when every call made failed.
    ensures summary.None? <==> forall i :: 0 <= i < |sent| ==> Reply(chat, i).None?
    // What comes back is a reply of the model, verbatim.
    ensures summary.Some? ==> exists i :: 0 <= i < |sent| && summary == Reply(chat, i)
    // One call with everything, untouched, when it fits.
    ensures |Join(entries, SEPARATOR)| <= CHAR_BUDGET ==>
      sent == [Join(entries, SEPARATOR)] && summary == Reply(chat, 0)
    // That is, when it takes at most 96000 characters; then every entry stands in it, in order.
    ensures |Join(entries, SEPARATOR)| <= CHAR_BUDGET <==> entries == [] || Cost(entries) - 2 <= 96_000
    ensures entries == [] || Cost(entries) - 2 <= 96_000 ==>
      && |sent| == 1 && |sent[0]| == (if entries == [] then 0 else Cost(entries) - 2)
      && (forall i :: 0 <= i < |entries| ==> StandsIn(sent[0], entries, i))
      && summary == (if chat(0).Some? && chat(0).value != "" then chat(0) else None)
    // Otherwise a map-reduce pass over as few chunks as the budget allows.
    ensures |Join(entries, SEPARATOR)| > CHAR_BUDGET ==>
      exists chunks :: IsMinimalPartition(chunks, ClipAll(entries)) &&
        MapReduceCalls(chunks, chat, number, sent) && summary == FinalSummary(chat, |chunks|)
  {
    var rawBlock := Join(entries, SEPARATOR);
    JoinReadsAs(entries);
    if |rawBlock| <= CHAR_BUDGET {
      summary, sent := Reply(chat, 0), [rawBlock];
      return;
    }
    var chunks := SplitIntoChunks(entries);
    summary, sent := MapReduce(chunks, chat, number);
  }
}
