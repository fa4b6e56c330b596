/** The recall block of a prompt (memory/memory_manager.py: `format_for_prompt` and
    `format_for_prompt_provenanced`).

    Text is a sequence of tokens: ordinary characters, and the opening and closing RECALLED tags,
    which count with their rendered length. What an opening tag says besides tier and id (age,
    timestamp, distance, provenance) is left to a parameter. */
module RecallPrompt {
  import opened Wrappers

  datatype Tier = CoreTier | DailyTier | RawTier

  datatype Tok = Ch(c: char) | Open(tier: Tier, id: string, source: string) | Close

  type Text = seq<Tok>

  const NL := Ch('\n')

  function Size(t: Tok): nat {
    match t
    case Ch(_) => 1
    case Open(_, _, source) => |source|
    case Close => |"</RECALLED>"|
  }

  function Len(t: Text): nat {
    if t == [] then 0 else Len(t[..|t| - 1]) + Size(t[|t| - 1])
  }

  lemma {:induction false} LenOfConcat(a: Text, b: Text)
    ensures Len(a + b) == Len(a) + Len(b)
  {
    if b == [] {
      assert a + b == a;
    } else {
      assert (a + b)[..|a + b| - 1] == a + b[..|b| - 1];
      LenOfConcat(a, b[..|b| - 1]);
    }
  }

  function Chars(s: string): (t: Text)
    ensures |t| == |s| && TagFree(t)
    ensures forall i :: 0 <= i < |s| ==> t[i] == Ch(s[i])
  {
    seq(|s|, i requires 0 <= i < |s| => Ch(s[i]))
  }

  predicate TagFree(t: Text) {
    forall i :: 0 <= i < |t| ==> t[i].Ch?
  }

  /** The framing tokens that stored content may hold are stripped before it is rendered. */
  function Sanitize(t: Text): (r: Text)
    ensures TagFree(r)
    ensures TagFree(t) ==> r == t
  {
    if t == [] then []
    else if t[0].Ch? then [t[0]] + Sanitize(t[1..])
    else Sanitize(t[1..])
  }

  /** Sanitizing goes token by token: characters stay, tags go. */
  lemma {:induction false} SanitizeOfConcat(a: Text, b: Text)
    ensures Sanitize(a + b) == Sanitize(a) + Sanitize(b)
  {
    if a == [] {
      assert a + b == b;
    } else {
      assert (a + b)[1..] == a[1..] + b;
      SanitizeOfConcat(a[1..], b);
    }
  }

  lemma SanitizeOfOne(t: Tok)
    ensures Sanitize([t]) == match t { case Ch(_) => [t] case Open(_, _, _) => [] case Close => [] }
  {
  }

  /** What a token costs. */
  lemma SizeMeans(c: char, tier: Tier, id: string, source: string)
    ensures Len([Ch(c)]) == 1 && Len([Open(tier, id, source)]) == |source| && Len([Close]) == 11 && Len([]) == 0
  {
    LenOfOne(Ch(c));
    LenOfOne(Open(tier, id, source));
    LenOfOne(Close);
  }

  // ----- lines --------------------------------------------------------------------------------------

  /** "\n".join(lines) */
  function JoinLines(lines: seq<Text>): Text {
    if lines == [] then []
    else if |lines| == 1 then lines[0]
    else lines[0] + [NL] + JoinLines(lines[1..])
  }

  /** Every line with its line end. */
  function Terminated(lines: seq<Text>): Text {
    if lines == [] then [] else lines[0] + [NL] + Terminated(lines[1..])
  }

  /** sum(len(s) for s in lines) + len(lines), as the budget loop counts. */
  function Weight(lines: seq<Text>): nat {
    if lines == [] then 0 else Weight(lines[..|lines| - 1]) + Len(lines[|lines| - 1]) + 1
  }

  lemma {:induction false} JoinSplits(a: seq<Text>, b: seq<Text>)
    requires b != []
    ensures JoinLines(a + b) == Terminated(a) + JoinLines(b)
  {
    if a == [] {
      assert a + b == b;
    } else {
      assert (a + b)[1..] == a[1..] + b;
      JoinSplits(a[1..], b);
    }
  }

  lemma {:induction false} WeightOfConcat(a: seq<Text>, b: seq<Text>)
    ensures Weight(a + b) == Weight(a) + Weight(b)
  {
    if b == [] {
      assert a + b == a;
    } else {
      assert (a + b)[..|a + b| - 1] == a + b[..|b| - 1];
      WeightOfConcat(a, b[..|b| - 1]);
    }
  }

  lemma {:induction false} TerminatedOfConcat(a: seq<Text>, b: seq<Text>)
    ensures Terminated(a + b) == Terminated(a) + Terminated(b)
  {
    if a == [] {
      assert a + b == b;
    } else {
      assert (a + b)[1..] == a[1..] + b;
      TerminatedOfConcat(a[1..], b);
    }
  }

  /** The joined text is one shorter than the loop's count: the last line has no line end. */
  lemma {:induction false} JoinedSize(lines: seq<Text>)
    requires lines != []
    ensures Len(JoinLines(lines)) + 1 == Weight(lines)
  {
    if |lines| == 1 {
      assert lines[..0] == [];
    } else {
      JoinedSize(lines[1..]);
      LenOfConcat(lines[0] + [NL], JoinLines(lines[1..]));
      LenOfConcat(lines[0], [NL]);
      LenOfOne(NL);
      assert lines == [lines[0]] + lines[1..];
      WeightOfConcat([lines[0]], lines[1..]);
      assert [lines[0]][..0] == [];
    }
  }

  lemma LenOfOne(t: Tok)
    ensures Len([t]) == Size(t)
  {
    assert [t][..0] == [];
  }

  // ----- rows and blocks ------------------------------------------------------------------------------

  datatype Origin = SystemBounded | Memory | OwnerAccount | Named(name: string)

  /** `origin` is the row's egress origin class, Memory when it has none. */
  datatype Row = Row(id: Option<string>, content: Text, origin: Origin)

  function Prefix16(s: string): string {
    if |s| <= 16 then s else s[..16]
  }

  /** How ages, attributes and numbers are worded. */
  datatype Wording = Wording(tag: (Tier, Row, string) -> string, number: nat -> string)

  function TierName(t: Tier): string {
    match t case CoreTier => "core" case DailyTier => "daily" case RawTier => "raw"
  }

  /** The id attribute: the row's own, or tier and number when it has none; 16 characters of it. */
  function ShortId(w: Wording, tier: Tier, row: Row, i: nat): string {
    Prefix16(if row.id.Some? then row.id.value else TierName(tier) + "-" + w.number(i + 1))
  }

  /** The id a block carries: at most 16 characters, of the row's own id, or of the tier's name and the number. */
  lemma ShortIdMeans(w: Wording, tier: Tier, row: Row, i: nat, id: string)
    requires id == ShortId(w, tier, row, i)
    ensures row.id.Some? ==> id == (if |row.id.value| <= 16 then row.id.value else row.id.value[..16])
    ensures row.id.None? && tier == CoreTier ==> id <= "core-" + w.number(i + 1)
    ensures row.id.None? && tier == DailyTier ==> id <= "daily-" + w.number(i + 1)
    ensures row.id.None? && tier == RawTier ==> id <= "raw-" + w.number(i + 1)
    ensures row.id.None? ==> |id| == 16 || (|id| < 16 && id[|TierName(tier)|..] == "-" + w.number(i + 1))
  {
    if row.id.None? {
      var made := TierName(tier) + "-" + w.number(i + 1);
      assert made[|TierName(tier)|..] == "-" + w.number(i + 1);
    }
  }

  /** One block, line by line. */
  lemma BlockMeans(w: Wording, tier: Tier, row: Row, i: nat, id: string)
    requires id == ShortId(w, tier, row, i)
    ensures BlockLines(w, tier, row, i) == [[Open(tier, id, w.tag(tier, row, id))], Sanitize(row.content), [Close], []]
  {
  }

  function OpenTag(w: Wording, tier: Tier, row: Row, i: nat): Tok {
    Open(tier, ShortId(w, tier, row, i), w.tag(tier, row, ShortId(w, tier, row, i)))
  }

  /** Every block is four lines. */
  function BlockLines(w: Wording, tier: Tier, row: Row, i: nat): (lines: seq<Text>)
    ensures |lines| == 4
  {
    [[OpenTag(w, tier, row, i)], Sanitize(row.content), [Close], []]
  }

  function Blocks(w: Wording, tier: Tier, rows: seq<Row>): (lines: seq<Text>)
    ensures |lines| == 4 * |rows|
  {
    if rows == [] then []
    else Blocks(w, tier, rows[..|rows| - 1]) + BlockLines(w, tier, rows[|rows| - 1], |rows| - 1)
  }

  datatype Recalled = Recalled(core: seq<Row>, daily: seq<Row>, raw: seq<Row>)

  /** Header, then all core, all daily and the first `kept` raw blocks. */
  function Body(w: Wording, head: seq<Text>, r: Recalled, kept: nat): seq<Text>
    requires kept <= |r.raw|
  {
    head + Blocks(w, CoreTier, r.core) + Blocks(w, DailyTier, r.daily) + Blocks(w, RawTier, r.raw[..kept])
  }

  function NoticeText(w: Wording, dropped: nat): (t: Text)
    ensures t != [] && t[0] == Ch('[') && TagFree(t)
  {
    Chars("[" + w.number(dropped) + " additional raw memory entr" + (if dropped == 1 then "y" else "ies") +
          " truncated to fit prompt budget]")
  }

  function Notice(w: Wording, dropped: nat): seq<Text> {
    if dropped == 0 then [] else [NoticeText(w, dropped)]
  }

  /** The notice tells the number of dropped entries, in the singular for one, and is left out for none. */
  lemma NoticeReads(w: Wording, dropped: nat)
    ensures dropped == 0 ==> Notice(w, dropped) == []
    ensures dropped == 1 ==>
      Notice(w, dropped) ==
        [Chars("[" + w.number(1) + " additional raw memory entr" + "y" + " truncated to fit prompt budget]")]
    ensures dropped > 1 ==>
      Notice(w, dropped) ==
        [Chars("[" + w.number(dropped) + " additional raw memory entr" + "ies" + " truncated to fit prompt budget]")]
  {
  }

  function Rendered(w: Wording, head: seq<Text>, r: Recalled, tail: seq<Text>, kept: nat): Text
    requires kept <= |r.raw|
  {
    JoinLines(Body(w, head, r, kept) + (Notice(w, |r.raw| - kept) + tail))
  }

  lemma RenderedBehind(w: Wording, head: seq<Text>, r: Recalled, tail: seq<Text>, kept: nat, body: Text)
    requires kept <= |r.raw| && tail != [] && Terminated(Body(w, head, r, kept)) == body
    ensures Rendered(w, head, r, tail, kept) == body + JoinLines(Notice(w, |r.raw| - kept) + tail)
  {
    JoinSplits(Body(w, head, r, kept), Notice(w, |r.raw| - kept) + tail);
  }

  /** What the budget loop compares with max_chars after keeping `kept` raw blocks. */
  function Counted(w: Wording, head: seq<Text>, r: Recalled, tail: seq<Text>, kept: nat): nat
    requires kept <= |r.raw|
  {
    Weight(Body(w, head, r, kept)) + Weight(tail)
  }

  /** The lines after the first n rows, and where their blocks start. */
  ghost predicate Appended(w: Wording, tier: Tier, rows: seq<Row>, n: nat, lines: seq<Text>, r: seq<Text>,
                           starts: seq<nat>) {
    && n <= |rows| && r == lines + Blocks(w, tier, rows[..n])
    && |starts| == n && forall i :: 0 <= i < n ==> starts[i] == |lines| + 4 * i
  }

  lemma AppendOne(w: Wording, tier: Tier, rows: seq<Row>, n: nat, lines: seq<Text>, r: seq<Text>, starts: seq<nat>)
    requires Appended(w, tier, rows, n, lines, r, starts) && n < |rows|
    ensures Appended(w, tier, rows, n + 1, lines, r + BlockLines(w, tier, rows[n], n), starts + [|r|])
  {
    assert rows[..n + 1][..n] == rows[..n];
  }

  method AppendBlocks(w: Wording, tier: Tier, rows: seq<Row>, lines: seq<Text>)
    returns (r: seq<Text>, starts: seq<nat>)
    ensures r == lines + Blocks(w, tier, rows)
    ensures |starts| == |rows| && forall i :: 0 <= i < |rows| ==> starts[i] == |lines| + 4 * i
  {
    r, starts := lines, [];
    assert Appended(w, tier, rows, 0, lines, r, starts);
    for i := 0 to |rows|
      invariant Appended(w, tier, rows, i, lines, r, starts)
    {
      AppendOne(w, tier, rows, i, lines, r, starts);
      starts := starts + [|r|];
      r := r + BlockLines(w, tier, rows[i], i);
    }
    assert rows[..|rows|] == rows;
  }

  method SumOfLengths(lines: seq<Text>) returns (n: nat)
    ensures n + |lines| == Weight(lines)
  {
    n := 0;
    for i := 0 to |lines|
      invariant n + i == Weight(lines[..i])
    {
      assert lines[..i + 1][..i] == lines[..i];
      n := n + Len(lines[i]);
    }
    assert lines[..|lines|] == lines;
  }

  lemma BodyDropsLast(w: Wording, head: seq<Text>, r: Recalled, kept: nat)
    requires 0 < kept <= |r.raw|
    ensures var lines := Body(w, head, r, kept);
      && |lines| >= 4
      && lines[..|lines| - 4] == Body(w, head, r, kept - 1)
  {
    assert r.raw[..kept][..kept - 1] == r.raw[..kept - 1];
  }

  lemma DropLastBlock(w: Wording, head: seq<Text>, r: Recalled, lines: seq<Text>, starts: seq<nat>, kept: nat)
    requires StillKept(w, head, r, lines, starts, kept) && kept > 0
    ensures |starts| == kept && starts[kept - 1] + 4 == |lines|
    ensures var start := starts[kept - 1];
      StillKept(w, head, r, lines[..start] + lines[start + 4..], starts[..kept - 1], kept - 1)
  {
    BodyDropsLast(w, head, r, kept);
  }

  /** Where the raw blocks begin, counted from the end of the lines. */
  ghost predicate BlockStarts(starts: seq<nat>, lines: seq<Text>, kept: nat) {
    |starts| == kept && forall i :: 0 <= i < kept ==> starts[i] == |lines| - 4 * (kept - i)
  }

  /** The lines and block starts after dropping to `kept` raw blocks. */
  ghost predicate StillKept(w: Wording, head: seq<Text>, r: Recalled, lines: seq<Text>, starts: seq<nat>, kept: int) {
    0 <= kept <= |r.raw| && lines == Body(w, head, r, kept) && BlockStarts(starts, lines, kept)
  }

  /** Every longer prefix of raw blocks would go over the budget. */
  ghost predicate MoreIsTooMuch(w: Wording, head: seq<Text>, r: Recalled, tail: seq<Text>, kept: int, maxChars: int) {
    forall k :: 0 <= kept < k <= |r.raw| ==> Counted(w, head, r, tail, k) > maxChars
  }

  lemma CountOfLines(w: Wording, head: seq<Text>, r: Recalled, tail: seq<Text>, lines: seq<Text>, starts: seq<nat>,
                     kept: nat)
    requires StillKept(w, head, r, lines, starts, kept)
    ensures |starts| == kept <= |r.raw| && Counted(w, head, r, tail, kept) == Weight(lines) + Weight(tail)
  {
  }

  lemma OneBlockLess(w: Wording, head: seq<Text>, r: Recalled, tail: seq<Text>, kept: nat, maxChars: int)
    requires 0 < kept <= |r.raw| && Counted(w, head, r, tail, kept) > maxChars
    requires MoreIsTooMuch(w, head, r, tail, kept, maxChars)
    ensures MoreIsTooMuch(w, head, r, tail, kept - 1, maxChars)
  {
  }

  /** The budget loop: whole raw blocks go, the last one first. */
  method DropOverBudget(w: Wording, head: seq<Text>, r: Recalled, tail: seq<Text>, maxChars: int,
                        all: seq<Text>, allStarts: seq<nat>)
    returns (lines: seq<Text>, kept: nat)
    requires StillKept(w, head, r, all, allStarts, |r.raw|)
    ensures kept <= |r.raw| && lines == Body(w, head, r, kept)
    ensures kept > 0 ==> Counted(w, head, r, tail, kept) <= maxChars
    ensures MoreIsTooMuch(w, head, r, tail, kept, maxChars)
  {
    lines, kept := all, |r.raw|;
    var rawBlockStarts := allStarts;
    var tailLen := SumOfLengths(tail);
    tailLen := tailLen + |tail|;
    while rawBlockStarts != []
      invariant StillKept(w, head, r, lines, rawBlockStarts, kept)
      invariant MoreIsTooMuch(w, head, r, tail, kept, maxChars)
      decreases kept
    {
      var joinedLen := SumOfLengths(lines);
      joinedLen := joinedLen + |lines| + tailLen;
      CountOfLines(w, head, r, tail, lines, rawBlockStarts, kept);
      if joinedLen <= maxChars { break; }
      DropLastBlock(w, head, r, lines, rawBlockStarts, kept);
      OneBlockLess(w, head, r, tail, kept, maxChars);
      var start := rawBlockStarts[|rawBlockStarts| - 1];
      rawBlockStarts := rawBlockStarts[..|rawBlockStarts| - 1];
      lines := lines[..start] + lines[start + 4..];
      kept := kept - 1;
    }
  }

  function LongestText(w: Wording, maxChars: int, dropped: nat): int {
    if dropped == 0 then maxChars - 1 else maxChars + Len(NoticeText(w, dropped))
  }

  lemma WithinBudget(w: Wording, head: seq<Text>, r: Recalled, tail: seq<Text>, kept: nat, maxChars: int)
    requires kept <= |r.raw| && tail != [] && Counted(w, head, r, tail, kept) <= maxChars
    ensures Len(Rendered(w, head, r, tail, kept)) <= LongestText(w, maxChars, |r.raw| - kept)
  {
    PromptLength(w, head, r, tail, kept);
  }

  /** The kept blocks are the longest prefix of raw blocks that fits (possibly none), and if any are
      kept then at most the notice exceeds the budget. */
  ghost predicate Budgeted(w: Wording, head: seq<Text>, r: Recalled, tail: seq<Text>, text: Text, kept: nat,
                           maxChars: int)
    requires kept <= |r.raw|
  {
    && (kept > 0 ==>
         Counted(w, head, r, tail, kept) <= maxChars && Len(text) <= LongestText(w, maxChars, |r.raw| - kept))
    && MoreIsTooMuch(w, head, r, tail, kept, maxChars)
  }

  /** The budget, spelled out. */
  lemma BudgetedMeans(w: Wording, head: seq<Text>, r: Recalled, tail: seq<Text>, text: Text, kept: nat, maxChars: int)
    requires kept <= |r.raw| && Budgeted(w, head, r, tail, text, kept, maxChars)
    ensures forall k :: kept < k <= |r.raw| ==> Counted(w, head, r, tail, k) > maxChars
    ensures kept > 0 ==> Counted(w, head, r, tail, kept) <= maxChars
    ensures kept > 0 && kept == |r.raw| ==> Len(text) < maxChars
    ensures 0 < kept < |r.raw| ==> Len(text) <= maxChars + Len(NoticeText(w, |r.raw| - kept))
  {
  }

  /** All blocks, tier by tier; the starts are those of the raw ones. */
  method LayOut(w: Wording, head: seq<Text>, r: Recalled) returns (lines: seq<Text>, starts: seq<nat>)
    ensures StillKept(w, head, r, lines, starts, |r.raw|)
  {
    lines, starts := AppendBlocks(w, CoreTier, r.core, head);
    lines, starts := AppendBlocks(w, DailyTier, r.daily, lines);
    lines, starts := AppendBlocks(w, RawTier, r.raw, lines);
    assert r.raw[..|r.raw|] == r.raw;
  }

  /** `head` holds the fixed header lines and the optional temporal status. */
  method FormatForPrompt(w: Wording, head: seq<Text>, r: Recalled, tail: seq<Text>, maxChars: Option<int>,
                         anyStatus: bool)
    returns (text: Text, kept: nat)
    requires tail != []
    ensures kept <= |r.raw|
    ensures r == Recalled([], [], []) && !anyStatus ==> text == []
    ensures r != Recalled([], [], []) || anyStatus ==> text == Rendered(w, head, r, tail, kept)
    // Without a budget nothing is dropped; with one, the longest prefix of raw blocks that fits stays.
    ensures maxChars.None? ==> kept == |r.raw|
    ensures maxChars.Some? && text != [] ==>
      && Budgeted(w, head, r, tail, text, kept, maxChars.value)
      && (kept > 0 && kept == |r.raw| ==> Len(text) < maxChars.value)
      && (0 < kept < |r.raw| ==> Len(text) <= maxChars.value + Len(NoticeText(w, |r.raw| - kept)))
  {
    if r == Recalled([], [], []) && !anyStatus {
      return [], |r.raw|;
    }
    text, kept := RenderRows(w, head, r, tail, maxChars);
    if maxChars.Some? {
      BudgetedMeans(w, head, r, tail, text, kept, maxChars.value);
    }
  }

  method RenderRows(w: Wording, head: seq<Text>, r: Recalled, tail: seq<Text>, maxChars: Option<int>)
    returns (text: Text, kept: nat)
    requires tail != []
    ensures kept <= |r.raw| && text == Rendered(w, head, r, tail, kept)
    ensures maxChars.None? ==> kept == |r.raw|
    ensures maxChars.Some? ==> Budgeted(w, head, r, tail, text, kept, maxChars.value)
  {
    var lines, starts := LayOut(w, head, r);
    kept := |r.raw|;
    if maxChars.Some? && starts != [] {
      lines, kept := DropOverBudget(w, head, r, tail, maxChars.value, lines, starts);
    }
    text := Finish(w, head, r, tail, lines, kept);
    if maxChars.Some? && kept > 0 {
      WithinBudget(w, head, r, tail, kept, maxChars.value);
    }
  }

  /** Append the notice, if anything was dropped, and the tail. */
  method Finish(w: Wording, head: seq<Text>, r: Recalled, tail: seq<Text>, body: seq<Text>, kept: nat)
    returns (text: Text)
    requires kept <= |r.raw| && body == Body(w, head, r, kept)
    ensures text == Rendered(w, head, r, tail, kept)
  {
    var lines, dropped := body, |r.raw| - kept;
    if dropped > 0 {
      lines := lines + [NoticeText(w, dropped)];
    }
    lines := lines + tail;
    assert lines == body + (Notice(w, dropped) + tail);
    text := JoinLines(lines);
  }

  /** How long the text can get. The notice is added after the budget was checked, so it is not part
      of what was counted. */
  lemma PromptLength(w: Wording, head: seq<Text>, r: Recalled, tail: seq<Text>, kept: nat)
    requires kept <= |r.raw| && tail != []
    ensures kept == |r.raw| ==>
      Len(Rendered(w, head, r, tail, kept)) == Counted(w, head, r, tail, kept) - 1
    ensures kept < |r.raw| ==>
      Len(Rendered(w, head, r, tail, kept)) == Counted(w, head, r, tail, kept) + Len(NoticeText(w, |r.raw| - kept))
  {
    LengthBehind(w, Body(w, head, r, kept), |r.raw| - kept, tail);
  }

  lemma LengthBehind(w: Wording, body: seq<Text>, dropped: nat, tail: seq<Text>)
    requires tail != []
    ensures Len(JoinLines(body + (Notice(w, dropped) + tail))) ==
      Weight(body) + Weight(tail) + (if dropped == 0 then -1 else Len(NoticeText(w, dropped)))
  {
    NoticeWeight(w, dropped);
    JoinedWeight(body, Notice(w, dropped), tail);
  }

  lemma NoticeWeight(w: Wording, dropped: nat)
    ensures Weight(Notice(w, dropped)) == if dropped == 0 then 0 else Len(NoticeText(w, dropped)) + 1
  {
    if dropped > 0 {
      assert Notice(w, dropped)[..0] == [];
    }
  }

  lemma JoinedWeight(a: seq<Text>, b: seq<Text>, c: seq<Text>)
    requires c != []
    ensures Len(JoinLines(a + (b + c))) + 1 == Weight(a) + Weight(b) + Weight(c)
  {
    JoinedSize(a + (b + c));
    WeightOfConcat(a, b + c);
    WeightOfConcat(b, c);
  }

  /** Fitting is monotone: every raw block adds to the count, so the kept prefix is the longest. */
  lemma MoreBlocksCountMore(w: Wording, head: seq<Text>, r: Recalled, tail: seq<Text>, kept: nat)
    requires kept < |r.raw|
    ensures Counted(w, head, r, tail, kept) < Counted(w, head, r, tail, kept + 1)
  {
    assert r.raw[..kept + 1][..kept] == r.raw[..kept];
    var block := BlockLines(w, RawTier, r.raw[kept], kept);
    assert Body(w, head, r, kept + 1) == Body(w, head, r, kept) + block;
    WeightOfConcat(Body(w, head, r, kept), block);
  }
}
