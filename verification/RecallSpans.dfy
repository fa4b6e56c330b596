/** Per-row provenance of a rendered recall block (memory/memory_manager.py,
    `format_for_prompt_provenanced`): the rendered text is split again into blocks, and every block
    is given the egress origin of the row that claims it. */
module RecallSpans {
  import opened Wrappers
  import opened RecallPrompt

  datatype Span = Framing(text: Text) | RowSpan(text: Text, origin: Origin, tier: Tier, id: string)

  /** A row still waiting for its block, with the prefix it answers to: "" when it has no id. */
  datatype Entry = Entry(short: string, row: Row)

  datatype Pool = Pool(core: seq<Entry>, daily: seq<Entry>, raw: seq<Entry>)

  function EntriesOf(rows: seq<Row>): (es: seq<Entry>)
    ensures |es| == |rows|
    ensures forall i :: 0 <= i < |rows| ==>
      es[i] == Entry(Prefix16(if rows[i].id.Some? then rows[i].id.value else ""), rows[i])
  {
    seq(|rows|, i requires 0 <= i < |rows| =>
      Entry(Prefix16(if rows[i].id.Some? then rows[i].id.value else ""), rows[i]))
  }

  function PoolOf(r: Recalled): Pool {
    Pool(EntriesOf(r.core), EntriesOf(r.daily), EntriesOf(r.raw))
  }

  function Waiting(p: Pool, t: Tier): seq<Entry> {
    match t case CoreTier => p.core case DailyTier => p.daily case RawTier => p.raw
  }

  function SetWaiting(p: Pool, t: Tier, es: seq<Entry>): Pool {
    match t
    case CoreTier => p.(core := es)
    case DailyTier => p.(daily := es)
    case RawTier => p.(raw := es)
  }

  /** First position from k on of an opening tag the expression accepts (its id is not empty). */
  function OpenFrom(t: Text, k: nat): (i: nat)
    requires k <= |t|
    ensures k <= i <= |t|
    ensures i < |t| ==> t[i].Open? && t[i].id != ""
    ensures forall j :: k <= j < i ==> !(t[j].Open? && t[j].id != "")
    decreases |t| - k
  {
    if k == |t| || (t[k].Open? && t[k].id != "") then k else OpenFrom(t, k + 1)
  }

  function CloseFrom(t: Text, k: nat): (i: nat)
    requires k <= |t|
    ensures k <= i <= |t|
    ensures i < |t| ==> t[i].Close?
    ensures forall j :: k <= j < i ==> !t[j].Close?
    decreases |t| - k
  {
    if k == |t| || t[k].Close? then k else CloseFrom(t, k + 1)
  }

  /** Past the line ends that stand from k on. */
  function PastLineEnds(t: Text, k: nat): (i: nat)
    requires k <= |t|
    ensures k <= i <= |t|
    ensures forall j :: k <= j < i ==> t[j] == NL
    ensures i < |t| ==> t[i] != NL
    decreases |t| - k
  {
    if k < |t| && t[k] == NL then PastLineEnds(t, k + 1) else k
  }

  /** The leftmost match: from an opening tag, lazily, to the next closing tag and the line ends
      behind it. */
  function Match(t: Text): (m: Option<(nat, nat)>)
    ensures m.Some? ==> m.value.0 < m.value.1 <= |t| && t[m.value.0].Open?
  {
    var i := OpenFrom(t, 0);
    if i == |t| then None
    else
      var j := CloseFrom(t, i + 1);
      if j == |t| then None else Some((i, PastLineEnds(t, j + 1)))
  }

  /** The first waiting row of the tier that answers to `id`, and the rows left waiting. */
  function Claim(es: seq<Entry>, id: string): (r: (Option<Entry>, seq<Entry>))
    ensures r.0.Some? ==> r.0.value.short == id && r.0.value in es
    ensures r.0.None? ==> r.1 == es && forall i :: 0 <= i < |es| ==> es[i].short != id
  {
    if es == [] then (None, [])
    else if es[0].short == id then (Some(es[0]), es[1..])
    else var rest := Claim(es[1..], id); (rest.0, [es[0]] + rest.1)
  }

  function Frame(t: Text): seq<Span> {
    if t == [] then [] else [Framing(t)]
  }

  /** The span of the match from s to e, with the origin of the row that claims it. */
  function BlockSpan(t: Text, pool: Pool, s: nat, e: nat): Span
    requires s < e <= |t| && t[s].Open?
  {
    var claimed := Claim(Waiting(pool, t[s].tier), t[s].id).0;
    RowSpan(t[s..e], if claimed.Some? then claimed.value.row.origin else Memory, t[s].tier, t[s].id)
  }

  function PoolAfter(t: Text, pool: Pool, s: nat): Pool
    requires s < |t| && t[s].Open?
  {
    SetWaiting(pool, t[s].tier, Claim(Waiting(pool, t[s].tier), t[s].id).1)
  }

  /** The spans of a rendered text, and the rows that no block claimed. */
  function SpansOf(t: Text, pool: Pool): (r: (seq<Span>, Pool))
    decreases |t|
  {
    match Match(t)
    case None => (Frame(t), pool)
    case Some((s, e)) =>
      var rest := SpansOf(t[e..], PoolAfter(t, pool, s));
      (Frame(t[..s]) + [BlockSpan(t, pool, s, e)] + rest.0, rest.1)
  }

  function TextOf(spans: seq<Span>): Text {
    if spans == [] then [] else spans[0].text + TextOf(spans[1..])
  }

  lemma {:induction false} TextOfConcat(a: seq<Span>, b: seq<Span>)
    ensures TextOf(a + b) == TextOf(a) + TextOf(b)
  {
    if a == [] {
      assert a + b == b;
    } else {
      assert (a + b)[1..] == a[1..] + b;
      TextOfConcat(a[1..], b);
    }
  }

  lemma TextOfFrame(t: Text)
    ensures TextOf(Frame(t)) == t
  {
    if t != [] {
      assert Frame(t)[1..] == [];
    }
  }

  /** Whatever was rendered, and whatever rows are offered: the spans put together are the text. */
  lemma {:induction false} SpansCoverText(t: Text, pool: Pool)
    ensures TextOf(SpansOf(t, pool).0) == t
    decreases |t|
  {
    match Match(t)
    case None => TextOfFrame(t);
    case Some((s, e)) =>
      SpansCoverText(t[e..], PoolAfter(t, pool, s));
      SpansStep(t, pool, s, e);
      TextOfThree(t[..s], BlockSpan(t, pool, s, e), SpansOf(t[e..], PoolAfter(t, pool, s)).0);
      ThreeParts(t, s, e);
  }

  lemma ThreeParts(t: Text, s: nat, e: nat)
    requires s <= e <= |t|
    ensures t[..s] + t[s..e] + t[e..] == t
  {
  }

  lemma TextOfThree(frame: Text, span: Span, rest: seq<Span>)
    ensures TextOf(Frame(frame) + [span] + rest) == frame + span.text + TextOf(rest)
  {
    TextOfFrame(frame);
    TextOfConcat(Frame(frame) + [span], rest);
    TextOfConcat(Frame(frame), [span]);
    assert [span][1..] == [];
  }

  datatype Provenanced = Spans(spans: seq<Span>) | OwnerRowUnmatched

  predicate OwnerRowMentioned(p: Pool, mentioned: Row -> bool) {
    || (exists i :: 0 <= i < |p.core| && p.core[i].row.origin == OwnerAccount && mentioned(p.core[i].row))
    || (exists i :: 0 <= i < |p.daily| && p.daily[i].row.origin == OwnerAccount && mentioned(p.daily[i].row))
    || (exists i :: 0 <= i < |p.raw| && p.raw[i].row.origin == OwnerAccount && mentioned(p.raw[i].row))
  }

  /** The loop over the matches. `mentioned` says whether a row's content or id prefix occurs in the
      rendered text; an owner-account row that no block claimed must not be mentioned. */
  method FormatProvenanced(rendered: Text, r: Recalled, mentioned: Row -> bool) returns (result: Provenanced)
    ensures result == Answer(rendered, r, mentioned)
    ensures result.Spans? ==> TextOf(result.spans) == rendered
    // It refuses exactly when, in any tier, a row of the owner's account was not claimed and is mentioned.
    ensures result.OwnerRowUnmatched? <==>
      rendered != [] &&
      exists e :: e in LeftOver(rendered, r) && e.row.origin == OwnerAccount && mentioned(e.row)
  {
    SpansCoverText(rendered, PoolOf(r));
    UnmatchedMeans(rendered, r, mentioned);
    if rendered == [] {
      return Spans([]);
    }
    var spans, unmatched := CollectSpans(rendered, PoolOf(r));
    if OwnerRowMentioned(unmatched, mentioned) {
      return OwnerRowUnmatched;
    }
    result := Spans(spans);
  }

  /** The rows no block of the text claims. */
  function LeftOver(rendered: Text, r: Recalled): seq<Entry> {
    var left := SpansOf(rendered, PoolOf(r)).1;
    left.core + left.daily + left.raw
  }

  lemma UnmatchedMeans(rendered: Text, r: Recalled, mentioned: Row -> bool)
    ensures OwnerRowMentioned(SpansOf(rendered, PoolOf(r)).1, mentioned) <==>
      exists e :: e in LeftOver(rendered, r) && e.row.origin == OwnerAccount && mentioned(e.row)
  {
    var left := SpansOf(rendered, PoolOf(r)).1;
    if e :| e in LeftOver(rendered, r) && e.row.origin == OwnerAccount && mentioned(e.row) {
      assert e in left.core || e in left.daily || e in left.raw;
    }
  }

  function Answer(rendered: Text, r: Recalled, mentioned: Row -> bool): Provenanced {
    if rendered == [] then Spans([])
    else if OwnerRowMentioned(SpansOf(rendered, PoolOf(r)).1, mentioned) then OwnerRowUnmatched
    else Spans(SpansOf(rendered, PoolOf(r)).0)
  }

  lemma SpansStep(t: Text, pool: Pool, s: nat, e: nat)
    requires Match(t) == Some((s, e))
    ensures s < e <= |t| && t[s].Open?
    ensures SpansOf(t, pool).0 ==
      Frame(t[..s]) + [BlockSpan(t, pool, s, e)] + SpansOf(t[e..], PoolAfter(t, pool, s)).0
    ensures SpansOf(t, pool).1 == SpansOf(t[e..], PoolAfter(t, pool, s)).1
  {
  }

  lemma Regroup<T>(a: seq<T>, b: seq<T>, c: seq<T>)
    ensures a + (b + c) == (a + b) + c
  {
  }

  method CollectSpans(rendered: Text, waiting: Pool) returns (spans: seq<Span>, pool: Pool)
    ensures spans == SpansOf(rendered, waiting).0 && pool == SpansOf(rendered, waiting).1
  {
    pool := waiting;
    spans := [];
    var rest := rendered;
    ghost var all, left := SpansOf(rendered, waiting).0, SpansOf(rendered, waiting).1;
    var m := Match(rest);
    while m.Some?
      invariant m == Match(rest)
      invariant all == spans + SpansOf(rest, pool).0 && left == SpansOf(rest, pool).1
      decreases |rest|
    {
      var (s, e) := m.value;
      SpansStep(rest, pool, s, e);
      var piece := Frame(rest[..s]) + [BlockSpan(rest, pool, s, e)];
      pool := PoolAfter(rest, pool, s);
      rest := rest[e..];
      Regroup(spans, piece, SpansOf(rest, pool).0);
      spans := spans + piece;
      m := Match(rest);
    }
    spans := spans + Frame(rest);
  }

  // ----- rendering and reading back ------------------------------------------------------------------------

  datatype Block = Block(tier: Tier, row: Row, i: nat)

  function BlockList(tier: Tier, rows: seq<Row>): (bs: seq<Block>)
    ensures |bs| == |rows| && forall i :: 0 <= i < |rows| ==> bs[i] == Block(tier, rows[i], i)
  {
    seq(|rows|, i requires 0 <= i < |rows| => Block(tier, rows[i], i))
  }

  function KeptBlocks(r: Recalled, kept: nat): seq<Block>
    requires kept <= |r.raw|
  {
    BlockList(CoreTier, r.core) + BlockList(DailyTier, r.daily) + BlockList(RawTier, r.raw[..kept])
  }

  function BlockText(w: Wording, b: Block): Text {
    [OpenTag(w, b.tier, b.row, b.i), NL] + Sanitize(b.row.content) + [NL, Close, NL, NL]
  }

  function BlocksText(w: Wording, bs: seq<Block>): Text {
    if bs == [] then [] else BlockText(w, bs[0]) + BlocksText(w, bs[1..])
  }

  lemma {:induction false} BlocksTextOfConcat(w: Wording, a: seq<Block>, b: seq<Block>)
    ensures BlocksText(w, a + b) == BlocksText(w, a) + BlocksText(w, b)
  {
    if a == [] {
      assert a + b == b;
    } else {
      assert (a + b)[1..] == a[1..] + b;
      BlocksTextOfConcat(w, a[1..], b);
    }
  }

  lemma BlocksTextOfOne(w: Wording, b: Block, id: string)
    requires id == ShortId(w, b.tier, b.row, b.i)
    ensures BlocksText(w, [b]) ==
      [Open(b.tier, id, w.tag(b.tier, b.row, id)), Ch('\n')] + Sanitize(b.row.content) +
      [Ch('\n'), Close, Ch('\n'), Ch('\n')]
  {
    assert [b][1..] == [];
    assert BlocksText(w, [b]) == BlockText(w, b) + [];
  }

  lemma FourLines(w: Wording, b: Block)
    ensures Terminated(BlockLines(w, b.tier, b.row, b.i)) == BlockText(w, b)
  {
    var open, content := [OpenTag(w, b.tier, b.row, b.i)], Sanitize(b.row.content);
    var lines := [open, content, [Close], []];
    assert lines[1..] == [content, [Close], []];
    assert lines[1..][1..] == [[Close], []];
    assert lines[1..][1..][1..] == [[]];
    assert lines[1..][1..][1..][1..] == [];
    assert Terminated([[]]) == [] + [NL] + Terminated([]);
    assert Terminated([[Close], []]) == [Close] + [NL] + Terminated([[]]);
    assert Terminated([content, [Close], []]) == content + [NL] + Terminated([[Close], []]);
  }

  lemma OneMoreBlock(w: Wording, bs: seq<Block>, b: Block, lines: seq<Text>)
    requires Terminated(lines) == BlocksText(w, bs)
    ensures Terminated(lines + BlockLines(w, b.tier, b.row, b.i)) == BlocksText(w, bs + [b])
  {
    TerminatedOfConcat(lines, BlockLines(w, b.tier, b.row, b.i));
    FourLines(w, b);
    BlocksTextOfConcat(w, bs, [b]);
    assert [b][1..] == [];
    assert BlocksText(w, [b]) == BlockText(w, b) + [];
  }

  lemma {:induction false} BlocksAreLines(w: Wording, tier: Tier, rows: seq<Row>)
    ensures Terminated(Blocks(w, tier, rows)) == BlocksText(w, BlockList(tier, rows))
  {
    if rows == [] {
    } else {
      var n := |rows| - 1;
      BlocksAreLines(w, tier, rows[..n]);
      OneMoreBlock(w, BlockList(tier, rows[..n]), Block(tier, rows[n], n), Blocks(w, tier, rows[..n]));
      assert BlockList(tier, rows) == BlockList(tier, rows[..n]) + [Block(tier, rows[n], n)];
    }
  }

  /** The rendered text, token by token: header, kept blocks, notice and tail. */
  lemma RenderedLayout(w: Wording, head: seq<Text>, r: Recalled, tail: seq<Text>, kept: nat)
    requires kept <= |r.raw| && tail != []
    ensures Rendered(w, head, r, tail, kept) ==
      Terminated(head) + BlocksText(w, KeptBlocks(r, kept)) + JoinLines(Notice(w, |r.raw| - kept) + tail)
    ensures KeptBlocks(r, kept) ==
      BlockList(CoreTier, r.core) + BlockList(DailyTier, r.daily) + BlockList(RawTier, r.raw[..kept])
  {
    BodyText(w, head, r, kept);
    RenderedBehind(w, head, r, tail, kept, Terminated(head) + BlocksText(w, KeptBlocks(r, kept)));
  }

  lemma BodyText(w: Wording, head: seq<Text>, r: Recalled, kept: nat)
    requires kept <= |r.raw|
    ensures Terminated(Body(w, head, r, kept)) == Terminated(head) + BlocksText(w, KeptBlocks(r, kept))
  {
    BodyLayout(w, head, r.core, r.daily, r.raw[..kept]);
  }

  lemma BodyLayout(w: Wording, head: seq<Text>, core: seq<Row>, daily: seq<Row>, raw: seq<Row>)
    ensures Terminated(head + Blocks(w, CoreTier, core) + Blocks(w, DailyTier, daily) + Blocks(w, RawTier, raw))
      == Terminated(head) +
         BlocksText(w, BlockList(CoreTier, core) + BlockList(DailyTier, daily) + BlockList(RawTier, raw))
  {
    var c, d, e := BlocksText(w, BlockList(CoreTier, core)), BlocksText(w, BlockList(DailyTier, daily)),
                   BlocksText(w, BlockList(RawTier, raw));
    LinesOfThree(head, Blocks(w, CoreTier, core), Blocks(w, DailyTier, daily), Blocks(w, RawTier, raw));
    BlocksAreLines(w, CoreTier, core);
    BlocksAreLines(w, DailyTier, daily);
    BlocksAreLines(w, RawTier, raw);
    BlocksTextOfConcat(w, BlockList(CoreTier, core) + BlockList(DailyTier, daily), BlockList(RawTier, raw));
    BlocksTextOfConcat(w, BlockList(CoreTier, core), BlockList(DailyTier, daily));
    RegroupFour(Terminated(head), c, d, e);
  }

  lemma LinesOfThree(h: seq<Text>, a: seq<Text>, b: seq<Text>, c: seq<Text>)
    ensures Terminated(h + a + b + c) == Terminated(h) + Terminated(a) + Terminated(b) + Terminated(c)
  {
    TerminatedOfConcat(h + a + b, c);
    TerminatedOfConcat(h + a, b);
    TerminatedOfConcat(h, a);
  }

  lemma RegroupFour<T>(h: seq<T>, a: seq<T>, b: seq<T>, c: seq<T>)
    ensures h + a + b + c == h + (a + b + c)
  {
  }

  /** `text` is a block with sanitized content. */
  predicate IsBlock(text: Text, open: Tok, content: Text) {
    text == [open, NL] + content + [NL, Close, NL, NL]
  }

  /** Nothing in it opens a block the expression accepts. */
  ghost predicate Unopened(t: Text) {
    forall k :: 0 <= k < |t| ==> !(t[k].Open? && t[k].id != "")
  }

  lemma MatchAt(t: Text, i: nat, j: nat, e: nat)
    requires i < j < e < |t| && t[i].Open? && t[i].id != "" && t[j] == Close && t[e] != NL
    requires forall k :: 0 <= k < i ==> !(t[k].Open? && t[k].id != "")
    requires forall k :: i < k < j ==> t[k].Ch?
    requires forall k :: j < k < e ==> t[k] == NL
    ensures Match(t) == Some((i, e))
  {
    assert OpenFrom(t, 0) == i;
    assert CloseFrom(t, i + 1) == j;
    assert PastLineEnds(t, j + 1) == e;
  }

  lemma BlockAt(text: Text, open: Tok, content: Text)
    requires IsBlock(text, open, content) && TagFree(content)
    ensures |text| > 4 && text[0] == open && text[|text| - 3] == Close
    ensures forall k :: 0 < k < |text| - 3 ==> text[k].Ch?
    ensures text[|text| - 2] == NL && text[|text| - 1] == NL
  {
  }

  lemma Placed(t: Text, frame: Text, text: Text, rest: Text)
    requires t == frame + text + rest
    ensures forall k :: 0 <= k < |frame| ==> t[k] == frame[k]
    ensures forall k :: |frame| <= k < |frame| + |text| ==> t[k] == text[k - |frame|]
    ensures rest != [] ==> t[|frame| + |text|] == rest[0]
  {
  }

  /** The first block with an id is matched exactly, with its two line ends and nothing more. */
  lemma MatchFindsBlock(t: Text, frame: Text, text: Text, open: Tok, content: Text, rest: Text)
    requires Unopened(frame) && TagFree(content) && open.Open? && open.id != ""
    requires IsBlock(text, open, content) && t == frame + text + rest
    requires rest != [] && rest[0] != NL
    ensures Match(t) == Some((|frame|, |frame| + |text|))
  {
    BlockAt(text, open, content);
    Placed(t, frame, text, rest);
    MatchAt(t, |frame|, |frame| + |text| - 3, |frame| + |text|);
  }

  lemma Slices(t: Text, frame: Text, text: Text, rest: Text)
    requires t == frame + text + rest
    ensures text != [] ==> |frame| < |t| && t[|frame|] == text[0]
    ensures t[..|frame|] == frame && t[|frame|..|frame| + |text|] == text && t[|frame| + |text|..] == rest
  {
  }

  lemma NoMatchUnopened(t: Text)
    requires Unopened(t)
    ensures Match(t).None?
  {
  }

  lemma BlockTextIsBlock(w: Wording, b: Block)
    ensures IsBlock(BlockText(w, b), OpenTag(w, b.tier, b.row, b.i), Sanitize(b.row.content))
    ensures |BlockText(w, b)| > 0 && BlockText(w, b)[0] == OpenTag(w, b.tier, b.row, b.i)
  {
  }

  lemma MatchFindsText(w: Wording, t: Text, frame: Text, text: Text, b: Block, rest: Text)
    requires Unopened(frame) && rest != [] && rest[0] != NL && IdOf(w, b) != ""
    requires text == BlockText(w, b) && t == frame + text + rest
    ensures Match(t) == Some((|frame|, |frame| + |text|))
    ensures |frame| < |frame| + |text| <= |t| && t[|frame|] == OpenTag(w, b.tier, b.row, b.i)
    ensures t[..|frame|] == frame && t[|frame|..|frame| + |text|] == text && t[|frame| + |text|..] == rest
  {
    BlockTextIsBlock(w, b);
    MatchFindsBlock(t, frame, text, OpenTag(w, b.tier, b.row, b.i), Sanitize(b.row.content), rest);
    Slices(t, frame, text, rest);
  }

  // ----- what every block is given ------------------------------------------------------------------------

  /** The id a block is rendered under; "" is one the expression does not accept. */
  function IdOf(w: Wording, b: Block): string {
    ShortId(w, b.tier, b.row, b.i)
  }

  function OriginOf(e: Option<Entry>): Origin {
    if e.Some? then e.value.row.origin else Memory
  }

  /** The span of a block with an id, as the waiting rows decide it. */
  function GivenSpan(w: Wording, pool: Pool, b: Block): Span {
    RowSpan(BlockText(w, b), OriginOf(Claim(Waiting(pool, b.tier), IdOf(w, b)).0), b.tier, IdOf(w, b))
  }

  function After(w: Wording, pool: Pool, b: Block): Pool {
    SetWaiting(pool, b.tier, Claim(Waiting(pool, b.tier), IdOf(w, b)).1)
  }

  /** The spans of rendered blocks behind `frame`; a block without an id is swallowed by the framing. */
  function Attributed(w: Wording, frame: Text, bs: seq<Block>, rest: Text, pool: Pool): seq<Span>
    decreases |bs|
  {
    if bs == [] then [Framing(frame + rest)]
    else if IdOf(w, bs[0]) == "" then Attributed(w, frame + BlockText(w, bs[0]), bs[1..], rest, pool)
    else Frame(frame) + [GivenSpan(w, pool, bs[0])] + Attributed(w, [], bs[1..], rest, After(w, pool, bs[0]))
  }

  function PoolLeft(w: Wording, bs: seq<Block>, pool: Pool): Pool
    decreases |bs|
  {
    if bs == [] then pool
    else PoolLeft(w, bs[1..], if IdOf(w, bs[0]) == "" then pool else After(w, pool, bs[0]))
  }

  lemma BehindBlocks(w: Wording, bs: seq<Block>, rest: Text)
    requires rest != [] && rest[0] != NL
    ensures var behind := BlocksText(w, bs) + rest; behind != [] && behind[0] != NL
  {
    if bs != [] {
      assert BlockText(w, bs[0])[0] == OpenTag(w, bs[0].tier, bs[0].row, bs[0].i);
      assert (BlocksText(w, bs) + rest)[0] == BlockText(w, bs[0])[0];
    }
  }

  lemma RegroupPair<T>(h: seq<T>, a: seq<T>, b: seq<T>, c: seq<T>)
    ensures h + (a + b) + c == h + a + (b + c)
    ensures h + (a + b) + c == (h + a) + b + c
  {
  }

  lemma StillUnopened(w: Wording, frame: Text, b: Block)
    requires Unopened(frame) && IdOf(w, b) == ""
    ensures Unopened(frame + BlockText(w, b))
  {
    BlockTextIsBlock(w, b);
    BlockAt(BlockText(w, b), OpenTag(w, b.tier, b.row, b.i), Sanitize(b.row.content));
    var text := BlockText(w, b);
    forall k | 0 <= k < |text| ensures !(text[k].Open? && text[k].id != "") {
      if 0 < k < |text| - 3 {
        assert text[k].Ch?;
      }
    }
  }

  lemma FirstBlockSpan(w: Wording, t: Text, frame: Text, b: Block, rest: Text, pool: Pool)
    requires Unopened(frame) && rest != [] && rest[0] != NL && IdOf(w, b) != ""
    requires t == frame + BlockText(w, b) + rest
    ensures SpansOf(t, pool).0 == Frame(frame) + [GivenSpan(w, pool, b)] + SpansOf(rest, After(w, pool, b)).0
    ensures SpansOf(t, pool).1 == SpansOf(rest, After(w, pool, b)).1
  {
    MatchFindsText(w, t, frame, BlockText(w, b), b, rest);
    SpansStep(t, pool, |frame|, |frame| + |BlockText(w, b)|);
  }

  /** Whatever rows are recalled: the rendered blocks are read back as `Attributed` says. */
  lemma {:induction false} BlocksReadBack(w: Wording, t: Text, frame: Text, bs: seq<Block>, rest: Text, pool: Pool)
    requires Unopened(frame) && TagFree(rest) && rest != [] && rest[0] != NL
    requires t == frame + BlocksText(w, bs) + rest
    ensures SpansOf(t, pool).0 == Attributed(w, frame, bs, rest, pool)
    ensures SpansOf(t, pool).1 == PoolLeft(w, bs, pool)
    decreases |bs|
  {
    if bs == [] {
      assert t == frame + rest;
      NoMatchUnopened(frame + rest);
    } else {
      RegroupPair(frame, BlockText(w, bs[0]), BlocksText(w, bs[1..]), rest);
      if IdOf(w, bs[0]) == "" {
        StillUnopened(w, frame, bs[0]);
        BlocksReadBack(w, t, frame + BlockText(w, bs[0]), bs[1..], rest, pool);
      } else {
        var behind := BlocksText(w, bs[1..]) + rest;
        assert behind == [] + BlocksText(w, bs[1..]) + rest;
        BehindBlocks(w, bs[1..], rest);
        FirstBlockSpan(w, t, frame, bs[0], behind, pool);
        BlocksReadBack(w, behind, [], bs[1..], rest, After(w, pool, bs[0]));
      }
    }
  }

  function RowSpans(spans: seq<Span>): seq<Span> {
    if spans == [] then []
    else if spans[0].RowSpan? then [spans[0]] + RowSpans(spans[1..])
    else RowSpans(spans[1..])
  }

  lemma {:induction false} RowSpansOfConcat(a: seq<Span>, b: seq<Span>)
    ensures RowSpans(a + b) == RowSpans(a) + RowSpans(b)
  {
    if a == [] {
      assert a + b == b;
    } else {
      assert (a + b)[1..] == a[1..] + b;
      RowSpansOfConcat(a[1..], b);
    }
  }

  /** The spans of the blocks alone, without the framing. */
  function GivenSpans(w: Wording, bs: seq<Block>, pool: Pool): seq<Span>
    decreases |bs|
  {
    if bs == [] then []
    else if IdOf(w, bs[0]) == "" then GivenSpans(w, bs[1..], pool)
    else [GivenSpan(w, pool, bs[0])] + GivenSpans(w, bs[1..], After(w, pool, bs[0]))
  }

  lemma RowSpansBehind(frame: Text, span: Span, rest: seq<Span>)
    requires span.RowSpan?
    ensures RowSpans(Frame(frame) + [span] + rest) == [span] + RowSpans(rest)
  {
    RowSpansOfConcat(Frame(frame) + [span], rest);
    RowSpansOfConcat(Frame(frame), [span]);
    assert [span][1..] == [];
    if frame != [] {
      assert Frame(frame)[1..] == [];
    }
  }

  lemma {:induction false} RowSpansOfAttributed(w: Wording, frame: Text, bs: seq<Block>, rest: Text, pool: Pool)
    ensures RowSpans(Attributed(w, frame, bs, rest, pool)) == GivenSpans(w, bs, pool)
    decreases |bs|
  {
    if bs == [] {
      assert [Framing(frame + rest)][1..] == [];
    } else if IdOf(w, bs[0]) == "" {
      RowSpansOfAttributed(w, frame + BlockText(w, bs[0]), bs[1..], rest, pool);
    } else {
      var next := After(w, pool, bs[0]);
      RowSpansOfAttributed(w, [], bs[1..], rest, next);
      RowSpansBehind(frame, GivenSpan(w, pool, bs[0]), Attributed(w, [], bs[1..], rest, next));
    }
  }

  // ----- which row a block is given, in closed form ---------------------------------------------------------

  /** The k-th waiting row that answers to `id`, counting from 0. */
  function Nth(es: seq<Entry>, id: string, k: nat): Option<Entry>
    decreases |es|
  {
    if es == [] then None
    else if es[0].short != id then Nth(es[1..], id, k)
    else if k == 0 then Some(es[0])
    else Nth(es[1..], id, k - 1)
  }

  lemma {:induction false} NobodyAnswers(es: seq<Entry>, id: string, k: nat)
    requires forall i :: 0 <= i < |es| ==> es[i].short != id
    ensures Nth(es, id, k).None?
    decreases |es|
  {
    if es == [] {
    } else {
      NobodyAnswers(es[1..], id, k);
    }
  }

  lemma {:induction false} FirstIsClaimed(es: seq<Entry>, id: string)
    ensures Claim(es, id).0 == Nth(es, id, 0)
    decreases |es|
  {
    if es == [] {
    } else {
      FirstIsClaimed(es[1..], id);
    }
  }

  /** A claim takes one row from its own id and nothing from the others. */
  lemma {:induction false} NthBehindClaim(es: seq<Entry>, id: string, x: string, k: nat)
    ensures Nth(Claim(es, id).1, x, k) == Nth(es, x, if x == id then k + 1 else k)
    decreases |es|
  {
    if es == [] {
    } else if es[0].short == id {
    } else {
      var rest := Claim(es[1..], id).1;
      assert ([es[0]] + rest)[1..] == rest;
      NthBehindClaim(es[1..], id, x, k);
      if es[0].short == x && k > 0 {
        NthBehindClaim(es[1..], id, x, k - 1);
      }
    }
  }

  /** How many of these blocks carry the id in the tier. */
  function Carriers(w: Wording, bs: seq<Block>, tier: Tier, id: string): nat
    decreases |bs|
  {
    if bs == [] then 0
    else (if bs[0].tier == tier && IdOf(w, bs[0]) == id then 1 else 0) + Carriers(w, bs[1..], tier, id)
  }

  /** The n-th block's origin: the k-th block of an id in a tier is given the k-th row of that tier that
      answers to it, and plain memory when there are not so many. */
  function OriginAt(w: Wording, pool: Pool, bs: seq<Block>, n: nat): Origin
    requires n < |bs|
  {
    OriginOf(Nth(Waiting(pool, bs[n].tier), IdOf(w, bs[n]), Carriers(w, bs[..n], bs[n].tier, IdOf(w, bs[n]))))
  }

  /** Where the n-th block's span stands: blocks without an id have none. */
  function Spot(w: Wording, bs: seq<Block>, n: nat): nat
    requires n <= |bs|
    decreases n
  {
    if n == 0 then 0 else (if IdOf(w, bs[0]) == "" then 0 else 1) + Spot(w, bs[1..], n - 1)
  }

  lemma OriginStep(w: Wording, pool: Pool, bs: seq<Block>, n: nat)
    requires 0 < n < |bs| && IdOf(w, bs[n]) != ""
    ensures OriginAt(w, pool, bs, n) ==
      OriginAt(w, if IdOf(w, bs[0]) == "" then pool else After(w, pool, bs[0]), bs[1..], n - 1)
  {
    var tier, id := bs[n].tier, IdOf(w, bs[n]);
    assert bs[1..][n - 1] == bs[n];
    assert bs[..n][1..] == bs[1..][..n - 1] && bs[..n][0] == bs[0];
    var k := Carriers(w, bs[1..][..n - 1], tier, id);
    assert Carriers(w, bs[..n], tier, id) == (if bs[0].tier == tier && IdOf(w, bs[0]) == id then 1 else 0) + k;
    NthBehindClaim(Waiting(pool, tier), IdOf(w, bs[0]), id, k);
  }

  lemma {:induction false} SpanAt(w: Wording, pool: Pool, bs: seq<Block>, n: nat)
    requires n < |bs| && IdOf(w, bs[n]) != ""
    ensures Spot(w, bs, n) < |GivenSpans(w, bs, pool)|
    ensures GivenSpans(w, bs, pool)[Spot(w, bs, n)] ==
      RowSpan(BlockText(w, bs[n]), OriginAt(w, pool, bs, n), bs[n].tier, IdOf(w, bs[n]))
    decreases n
  {
    if n == 0 {
      FirstIsClaimed(Waiting(pool, bs[0].tier), IdOf(w, bs[0]));
      assert bs[..0] == [];
    } else {
      OriginStep(w, pool, bs, n);
      SpanAt(w, if IdOf(w, bs[0]) == "" then pool else After(w, pool, bs[0]), bs[1..], n - 1);
    }
  }

  ghost predicate AllHaveSpans(w: Wording, bs: seq<Block>) {
    forall n :: 0 <= n < |bs| ==> IdOf(w, bs[n]) != ""
  }

  lemma {:induction false} SpotsOfAll(w: Wording, bs: seq<Block>, n: nat)
    requires AllHaveSpans(w, bs) && n <= |bs|
    ensures Spot(w, bs, n) == n
    decreases n
  {
    if n == 0 {
    } else {
      SpotsOfAll(w, bs[1..], n - 1);
    }
  }

  lemma {:induction false} SpansOfAll(w: Wording, bs: seq<Block>, pool: Pool)
    ensures |GivenSpans(w, bs, pool)| <= |bs|
    ensures |GivenSpans(w, bs, pool)| == |bs| <==> AllHaveSpans(w, bs)
    decreases |bs|
  {
    if bs == [] {
    } else {
      assert AllHaveSpans(w, bs) <==> IdOf(w, bs[0]) != "" && AllHaveSpans(w, bs[1..]) by {
        assert bs == [bs[0]] + bs[1..];
      }
      SpansOfAll(w, bs[1..], if IdOf(w, bs[0]) == "" then pool else After(w, pool, bs[0]));
    }
  }

  // ----- rows that answer for themselves --------------------------------------------------------------------

  /** The waiting rows of each tier stand in the order of the blocks that will claim them. */
  ghost predicate Ready(w: Wording, pool: Pool, bs: seq<Block>)
    decreases |bs|
  {
    bs == [] ||
    (FirstWaits(w, pool, bs[0]) && Ready(w, SetWaiting(pool, bs[0].tier, Waiting(pool, bs[0].tier)[1..]), bs[1..]))
  }

  function OwnSpan(w: Wording, b: Block): Span {
    RowSpan(BlockText(w, b), b.row.origin, b.tier, ShortId(w, b.tier, b.row, b.i))
  }

  /** Every block with its own row's origin. */
  function OwnSpans(w: Wording, bs: seq<Block>): seq<Span> {
    if bs == [] then [] else [OwnSpan(w, bs[0])] + OwnSpans(w, bs[1..])
  }

  function PoolBehind(w: Wording, pool: Pool, bs: seq<Block>): Pool
    requires Ready(w, pool, bs)
    decreases |bs|
  {
    if bs == [] then pool
    else PoolBehind(w, SetWaiting(pool, bs[0].tier, Waiting(pool, bs[0].tier)[1..]), bs[1..])
  }

  predicate FirstWaits(w: Wording, pool: Pool, b: Block) {
    var es := Waiting(pool, b.tier);
    es != [] && es[0] == Entry(ShortId(w, b.tier, b.row, b.i), b.row) && es[0].short != ""
  }

  lemma OwnIsClaimed(w: Wording, pool: Pool, b: Block)
    requires FirstWaits(w, pool, b)
    ensures var es := Waiting(pool, b.tier);
      Claim(es, ShortId(w, b.tier, b.row, b.i)) == (Some(es[0]), es[1..])
  {
  }

  function ReadBack(w: Wording, frame: Text, bs: seq<Block>, rest: Text): seq<Span> {
    if bs == [] then [Framing(frame + rest)] else Frame(frame) + OwnSpans(w, bs) + [Framing(rest)]
  }

  lemma ReadBackStep(w: Wording, frame: Text, bs: seq<Block>, rest: Text)
    requires bs != [] && rest != []
    ensures ReadBack(w, frame, bs, rest) == Frame(frame) + [OwnSpan(w, bs[0])] + ReadBack(w, [], bs[1..], rest)
  {
    assert [] + rest == rest;
    RegroupPair(Frame(frame), [OwnSpan(w, bs[0])], OwnSpans(w, bs[1..]), [Framing(rest)]);
    if bs[1..] == [] {
      assert OwnSpans(w, bs[1..]) + [Framing(rest)] == [Framing(rest)];
    } else {
      assert Frame([]) + OwnSpans(w, bs[1..]) == OwnSpans(w, bs[1..]);
    }
  }

  /** When the rows wait in the order of their blocks, every block is given its own. */
  lemma {:induction false} OwnWhenReady(w: Wording, frame: Text, bs: seq<Block>, rest: Text, pool: Pool)
    requires Ready(w, pool, bs) && rest != []
    ensures Attributed(w, frame, bs, rest, pool) == ReadBack(w, frame, bs, rest)
    ensures PoolLeft(w, bs, pool) == PoolBehind(w, pool, bs)
    decreases |bs|
  {
    if bs == [] {
    } else {
      OwnIsClaimed(w, pool, bs[0]);
      OwnWhenReady(w, [], bs[1..], rest, After(w, pool, bs[0]));
      ReadBackStep(w, frame, bs, rest);
    }
  }

  ghost predicate AllHaveIds(rows: seq<Row>) {
    forall i :: 0 <= i < |rows| ==> rows[i].id.Some? && rows[i].id.value != ""
  }

  /** One more waiting row in front of a ready pool. */
  lemma ReadyCons(w: Wording, pool: Pool, b: Block, bs: seq<Block>, next: Pool)
    requires FirstWaits(w, pool, b)
    requires next == SetWaiting(pool, b.tier, Waiting(pool, b.tier)[1..]) && Ready(w, next, bs)
    ensures Ready(w, pool, [b] + bs) && PoolBehind(w, pool, [b] + bs) == PoolBehind(w, next, bs)
  {
    assert ([b] + bs)[1..] == bs;
  }

  lemma TailStep<T>(list: seq<T>, i: nat, more: seq<T>)
    requires i < |list|
    ensures list[i..] + more == [list[i]] + (list[i + 1..] + more)
    ensures list[i..][1..] == list[i + 1..] && list[i..][0] == list[i]
  {
  }

  lemma SetTwice(pool: Pool, t: Tier, es: seq<Entry>, fs: seq<Entry>)
    ensures SetWaiting(SetWaiting(pool, t, es), t, fs) == SetWaiting(pool, t, fs)
    ensures Waiting(SetWaiting(pool, t, es), t) == es
    ensures Waiting(pool, t) == es ==> SetWaiting(pool, t, es) == pool
  {
  }

  /** One tier: the entries from position i on wait, the blocks of the first `kept` are to come. */
  lemma {:induction false} TierIsReady(w: Wording, tier: Tier, es: seq<Entry>, list: seq<Block>, i: nat, pool: Pool,
                                       more: seq<Block>)
    requires |list| <= |es| && i <= |list| && Waiting(pool, tier) == es[i..]
    requires forall k :: 0 <= k < |list| ==> Answers(w, tier, es[k], list[k])
    requires Ready(w, SetWaiting(pool, tier, es[|list|..]), more)
    ensures Ready(w, pool, list[i..] + more)
    ensures PoolBehind(w, pool, list[i..] + more) == PoolBehind(w, SetWaiting(pool, tier, es[|list|..]), more)
    decreases |list| - i
  {
    if i == |list| {
      assert list[i..] + more == more;
      SetTwice(pool, tier, es[i..], es[i..]);
    } else {
      var next := SetWaiting(pool, tier, es[i + 1..]);
      TailStep(es, i, []);
      TailStep(list, i, more);
      SetTwice(pool, tier, es[i + 1..], es[|list|..]);
      TierIsReady(w, tier, es, list, i + 1, next, more);
      assert Answers(w, tier, es[i], list[i]);
      ReadyCons(w, pool, list[i], list[i + 1..] + more, next);
    }
  }

  predicate Answers(w: Wording, tier: Tier, e: Entry, b: Block) {
    b.tier == tier && e == Entry(ShortId(w, tier, b.row, b.i), b.row) && e.short != ""
  }

  lemma EntryAnswers(w: Wording, tier: Tier, rows: seq<Row>, i: nat)
    requires AllHaveIds(rows) && i < |rows|
    ensures EntriesOf(rows)[i] == Entry(ShortId(w, tier, rows[i], i), rows[i]) && EntriesOf(rows)[i].short != ""
  {
  }

  lemma TierAnswers(w: Wording, tier: Tier, rows: seq<Row>, kept: nat)
    requires AllHaveIds(rows) && kept <= |rows|
    ensures forall k :: 0 <= k < kept ==> Answers(w, tier, EntriesOf(rows)[k], BlockList(tier, rows[..kept])[k])
  {
    forall k | 0 <= k < kept
      ensures Answers(w, tier, EntriesOf(rows)[k], BlockList(tier, rows[..kept])[k])
    {
      EntryAnswers(w, tier, rows, k);
    }
  }

  /** A whole tier: its first `kept` rows are claimed, the others keep waiting. */
  lemma WholeTierIsReady(w: Wording, tier: Tier, rows: seq<Row>, kept: nat, pool: Pool, more: seq<Block>)
    requires AllHaveIds(rows) && kept <= |rows| && Waiting(pool, tier) == EntriesOf(rows)
    requires Ready(w, SetWaiting(pool, tier, EntriesOf(rows)[kept..]), more)
    ensures var bs := BlockList(tier, rows[..kept]) + more;
      && Ready(w, pool, bs)
      && PoolBehind(w, pool, bs) == PoolBehind(w, SetWaiting(pool, tier, EntriesOf(rows)[kept..]), more)
  {
    var es, list := EntriesOf(rows), BlockList(tier, rows[..kept]);
    TierAnswers(w, tier, rows, kept);
    assert es[0..] == es && list[0..] == list;
    TierIsReady(w, tier, es, list, 0, pool, more);
  }

  lemma RawIsReady(w: Wording, rows: seq<Row>, kept: nat)
    requires AllHaveIds(rows) && kept <= |rows|
    ensures Ready(w, Pool([], [], EntriesOf(rows)), BlockList(RawTier, rows[..kept]))
    ensures PoolBehind(w, Pool([], [], EntriesOf(rows)), BlockList(RawTier, rows[..kept]))
      == Pool([], [], EntriesOf(rows)[kept..])
  {
    WholeTierIsReady(w, RawTier, rows, kept, Pool([], [], EntriesOf(rows)), []);
    assert BlockList(RawTier, rows[..kept]) + [] == BlockList(RawTier, rows[..kept]);
  }

  lemma FullTierIsReady(w: Wording, tier: Tier, rows: seq<Row>, pool: Pool, next: Pool, more: seq<Block>)
    requires AllHaveIds(rows) && Waiting(pool, tier) == EntriesOf(rows) && next == SetWaiting(pool, tier, [])
    requires Ready(w, next, more)
    ensures Ready(w, pool, BlockList(tier, rows) + more)
    ensures PoolBehind(w, pool, BlockList(tier, rows) + more) == PoolBehind(w, next, more)
  {
    assert rows[..|rows|] == rows;
    assert EntriesOf(rows)[|rows|..] == [];
    WholeTierIsReady(w, tier, rows, |rows|, pool, more);
  }

  lemma PoolIsReady(w: Wording, r: Recalled, kept: nat)
    requires AllHaveIds(r.core) && AllHaveIds(r.daily) && AllHaveIds(r.raw) && kept <= |r.raw|
    ensures Ready(w, PoolOf(r), KeptBlocks(r, kept))
    ensures PoolBehind(w, PoolOf(r), KeptBlocks(r, kept)) == Pool([], [], EntriesOf(r.raw)[kept..])
  {
    var core, daily := BlockList(CoreTier, r.core), BlockList(DailyTier, r.daily);
    var raw := BlockList(RawTier, r.raw[..kept]);
    var withDaily, rawOnly := Pool([], EntriesOf(r.daily), EntriesOf(r.raw)), Pool([], [], EntriesOf(r.raw));
    RawIsReady(w, r.raw, kept);
    FullTierIsReady(w, DailyTier, r.daily, withDaily, rawOnly, raw);
    FullTierIsReady(w, CoreTier, r.core, PoolOf(r), withDaily, daily + raw);
    Regroup(core, daily, raw);
  }

  /** Rendering and then splitting gives every kept block, in order, to its own row, even where id
      prefixes collide; everything else is framing; only dropped raw rows stay unclaimed. */
  lemma RenderedSpansAreOwn(w: Wording, head: seq<Text>, r: Recalled, tail: seq<Text>, kept: nat)
    requires kept <= |r.raw| && AllHaveIds(r.core) && AllHaveIds(r.daily) && AllHaveIds(r.raw)
    requires TagFree(Terminated(head)) && TagFree(JoinLines(tail))
    requires tail != [] && tail[0] != [] && tail[0][0] != NL
    ensures var t, ending := Rendered(w, head, r, tail, kept), JoinLines(Notice(w, |r.raw| - kept) + tail);
      && SpansOf(t, PoolOf(r)).0 == ReadBack(w, Terminated(head), KeptBlocks(r, kept), ending)
      && SpansOf(t, PoolOf(r)).1 == Pool([], [], EntriesOf(r.raw)[kept..])
  {
    OwnBetween(w, head, r, tail, kept, Terminated(head), JoinLines(Notice(w, |r.raw| - kept) + tail));
  }

  lemma OwnBetween(w: Wording, head: seq<Text>, r: Recalled, tail: seq<Text>, kept: nat, frame: Text, ending: Text)
    requires kept <= |r.raw| && AllHaveIds(r.core) && AllHaveIds(r.daily) && AllHaveIds(r.raw)
    requires frame == Terminated(head) && ending == JoinLines(Notice(w, |r.raw| - kept) + tail)
    requires TagFree(frame) && TagFree(JoinLines(tail)) && tail != [] && tail[0] != [] && tail[0][0] != NL
    ensures SpansOf(Rendered(w, head, r, tail, kept), PoolOf(r)).0 == ReadBack(w, frame, KeptBlocks(r, kept), ending)
    ensures SpansOf(Rendered(w, head, r, tail, kept), PoolOf(r)).1 == Pool([], [], EntriesOf(r.raw)[kept..])
  {
    EndingIsPlain(w, |r.raw| - kept, tail, ending);
    LayoutOf(w, head, r, tail, kept, frame, ending);
    KeptReadBack(w, Rendered(w, head, r, tail, kept), frame, r, kept, ending);
  }

  lemma KeptReadBack(w: Wording, t: Text, frame: Text, r: Recalled, kept: nat, ending: Text)
    requires kept <= |r.raw| && AllHaveIds(r.core) && AllHaveIds(r.daily) && AllHaveIds(r.raw)
    requires TagFree(frame) && TagFree(ending) && ending != [] && ending[0] != NL
    requires t == frame + BlocksText(w, KeptBlocks(r, kept)) + ending
    ensures SpansOf(t, PoolOf(r)).0 == ReadBack(w, frame, KeptBlocks(r, kept), ending)
    ensures SpansOf(t, PoolOf(r)).1 == Pool([], [], EntriesOf(r.raw)[kept..])
  {
    PoolIsReady(w, r, kept);
    BlocksReadBack(w, t, frame, KeptBlocks(r, kept), ending, PoolOf(r));
    OwnWhenReady(w, frame, KeptBlocks(r, kept), ending, PoolOf(r));
  }

  lemma EndingIsPlain(w: Wording, dropped: nat, tail: seq<Text>, ending: Text)
    requires tail != [] && tail[0] != [] && tail[0][0] != NL && TagFree(JoinLines(tail))
    requires ending == JoinLines(Notice(w, dropped) + tail)
    ensures TagFree(ending) && ending != [] && ending[0] != NL
  {
    JoinSplits(Notice(w, dropped), tail);
    if dropped > 0 {
      assert Notice(w, dropped)[1..] == [];
      assert Terminated(Notice(w, dropped)) == NoticeText(w, dropped) + [NL] + [];
    } else {
      assert [] + tail == tail;
    }
    assert JoinLines(tail)[0] == tail[0][0];
  }

  // ----- the owner-row guard ---------------------------------------------------------------------------------

  function TokText(t: Tok): string {
    match t
    case Ch(c) => [c]
    case Open(_, _, source) => source
    case Close => "</RECALLED>"
  }

  /** The characters of a text. */
  function Plain(t: Text): string {
    if t == [] then "" else TokText(t[0]) + Plain(t[1..])
  }

  predicate Occurs(s: string, t: string) {
    exists i :: 0 <= i <= |t| && s <= t[i..]
  }

  /** A row's content or its id prefix, unless empty, is part of the text. */
  predicate Mentioned(rendered: Text, row: Row) {
    || (Plain(row.content) != "" && Occurs(Plain(row.content), Plain(rendered)))
    || (row.id.Some? && row.id.value != "" && Occurs(Prefix16(row.id.value), Plain(rendered)))
  }

  /** What counts as a mention, in characters: the words, or the first 16 characters of the id, stand somewhere in
      the text. */
  lemma MentionedMeans(rendered: Text, row: Row, text: string, words: string)
    requires text == Plain(rendered) && words == Plain(row.content)
    ensures Mentioned(rendered, row) <==>
      || (words != "" && exists a, b :: text == a + words + b)
      || (row.id.Some? && row.id.value != "" &&
          if |row.id.value| <= 16 then exists a, b :: text == a + row.id.value + b
          else exists a, b :: text == a + row.id.value[..16] + b)
  {
    OccursMeans(words, text);
    if row.id.Some? {
      OccursMeans(Prefix16(row.id.value), text);
    }
  }

  lemma OccursMeans(s: string, t: string)
    ensures Occurs(s, t) <==> exists a, b :: t == a + s + b
  {
    if i :| 0 <= i <= |t| && s <= t[i..] {
      assert t == t[..i] + s + t[i + |s|..];
    }
    if a, b :| t == a + s + b {
      OccursBetween(a, s, b);
    }
  }

  lemma PlainOfOne(t: Tok)
    ensures Plain([t]) == match t { case Ch(c) => [c] case Open(_, _, source) => source case Close => "</RECALLED>" }
  {
  }

  /** With an id on every row, the guard refuses exactly when an owner-account row that the budget dropped is
      mentioned in what was rendered, although it is not part of it. */
  lemma GuardRefusesWhen(w: Wording, head: seq<Text>, r: Recalled, tail: seq<Text>, kept: nat)
    requires kept <= |r.raw| && AllHaveIds(r.core) && AllHaveIds(r.daily) && AllHaveIds(r.raw)
    requires PlainAround(head, tail)
    ensures var t := Rendered(w, head, r, tail, kept);
      Answer(t, r, row => Mentioned(t, row)) == OwnerRowUnmatched <==>
        exists i :: kept <= i < |r.raw| && r.raw[i].origin == OwnerAccount && Mentioned(t, r.raw[i])
  {
    var t := Rendered(w, head, r, tail, kept);
    RenderedSpansAreOwn(w, head, r, tail, kept);
    RenderedIsNotEmpty(w, head, r, tail, kept);
    LeftRowsMentioned(r.raw, kept, row => Mentioned(t, row));
  }

  lemma LeftRowsMentioned(rows: seq<Row>, kept: nat, mentioned: Row -> bool)
    requires kept <= |rows|
    ensures OwnerRowMentioned(Pool([], [], EntriesOf(rows)[kept..]), mentioned) <==>
      exists i :: kept <= i < |rows| && rows[i].origin == OwnerAccount && mentioned(rows[i])
  {
    var es := EntriesOf(rows)[kept..];
    forall k | 0 <= k < |es| ensures es[k].row == rows[kept + k] {
    }
    if i :| kept <= i < |rows| && rows[i].origin == OwnerAccount && mentioned(rows[i]) {
      assert es[i - kept].row == rows[i];
    }
  }

  lemma RenderedIsNotEmpty(w: Wording, head: seq<Text>, r: Recalled, tail: seq<Text>, kept: nat)
    requires kept <= |r.raw| && PlainAround(head, tail)
    ensures Rendered(w, head, r, tail, kept) != []
  {
    var frame, ending := RenderedParts(w, head, r, tail, kept);
  }

  lemma {:induction false} PlainOfConcat(a: Text, b: Text)
    ensures Plain(a + b) == Plain(a) + Plain(b)
  {
    if a == [] {
      assert a + b == b;
    } else {
      assert (a + b)[1..] == a[1..] + b;
      PlainOfConcat(a[1..], b);
    }
  }

  lemma OccursBetween(a: string, s: string, b: string)
    ensures Occurs(s, a + s + b)
  {
    assert (a + s + b)[|a|..] == s + b;
  }

  lemma PlainOfThree(a: Text, s: Text, b: Text)
    ensures Plain(a + s + b) == Plain(a) + Plain(s) + Plain(b)
  {
    PlainOfConcat(a + s, b);
    PlainOfConcat(a, s);
  }

  /** The blocks around the n-th one. */
  lemma {:induction false} BlockWithin(w: Wording, bs: seq<Block>, n: nat) returns (before: Text, after: Text)
    requires n < |bs|
    ensures BlocksText(w, bs) == before + Sanitize(bs[n].row.content) + after
    decreases n
  {
    if n == 0 {
      before, after := [OpenTag(w, bs[0].tier, bs[0].row, bs[0].i), NL], [NL, Close, NL, NL] + BlocksText(w, bs[1..]);
      Regroup(before + Sanitize(bs[0].row.content), [NL, Close, NL, NL], BlocksText(w, bs[1..]));
    } else {
      var inner;
      inner, after := BlockWithin(w, bs[1..], n - 1);
      before := BlockText(w, bs[0]) + inner;
      Regroup(BlockText(w, bs[0]), inner + Sanitize(bs[n].row.content), after);
      Regroup(BlockText(w, bs[0]), inner, Sanitize(bs[n].row.content));
    }
  }

  /** It does happen: a dropped owner-account row whose words a kept row repeats. */
  lemma RepeatedOwnerRowIsRefused(w: Wording, head: seq<Text>, r: Recalled, tail: seq<Text>, kept: nat, n: nat, i: nat)
    requires kept <= i < |r.raw| && AllHaveIds(r.core) && AllHaveIds(r.daily) && AllHaveIds(r.raw)
    requires PlainAround(head, tail) && n < |KeptBlocks(r, kept)|
    requires r.raw[i].origin == OwnerAccount && TagFree(r.raw[i].content) && r.raw[i].content != []
    requires KeptBlocks(r, kept)[n].row.content == r.raw[i].content
    ensures var t := Rendered(w, head, r, tail, kept);
      Answer(t, r, row => Mentioned(t, row)) == OwnerRowUnmatched
  {
    var t, bs, words := Rendered(w, head, r, tail, kept), KeptBlocks(r, kept), r.raw[i].content;
    var frame, ending := RenderedParts(w, head, r, tail, kept);
    var before, after := BlockWithin(w, bs, n);
    Nested(frame, before, words, after, ending);
    PlainOfThree(frame + before, words, after + ending);
    OccursBetween(Plain(frame + before), Plain(words), Plain(after + ending));
    assert Plain(words) != "" by {
      assert TokText(words[0]) != "";
    }
    GuardRefusesWhen(w, head, r, tail, kept);
  }

  lemma Nested<T>(a: seq<T>, b: seq<T>, s: seq<T>, c: seq<T>, d: seq<T>)
    ensures a + (b + s + c) + d == (a + b) + s + (c + d)
  {
  }

  // ----- every block, whatever the ids --------------------------------------------------------------------

  /** What the expression finds in a rendered recall, without the framing. */
  function BlockSpans(w: Wording, head: seq<Text>, r: Recalled, tail: seq<Text>, kept: nat): seq<Span>
    requires kept <= |r.raw|
  {
    RowSpans(SpansOf(Rendered(w, head, r, tail, kept), PoolOf(r)).0)
  }

  ghost predicate PlainAround(head: seq<Text>, tail: seq<Text>) {
    && TagFree(Terminated(head)) && TagFree(JoinLines(tail))
    && tail != [] && tail[0] != [] && tail[0][0] != NL
  }

  lemma BlockSpansAreGiven(w: Wording, head: seq<Text>, r: Recalled, tail: seq<Text>, kept: nat)
    requires kept <= |r.raw| && PlainAround(head, tail)
    ensures BlockSpans(w, head, r, tail, kept) == GivenSpans(w, KeptBlocks(r, kept), PoolOf(r))
  {
    var frame, ending := RenderedParts(w, head, r, tail, kept);
    GivenInText(w, Rendered(w, head, r, tail, kept), frame, KeptBlocks(r, kept), ending, PoolOf(r));
  }

  lemma RenderedParts(w: Wording, head: seq<Text>, r: Recalled, tail: seq<Text>, kept: nat)
    returns (frame: Text, ending: Text)
    requires kept <= |r.raw| && PlainAround(head, tail)
    ensures Rendered(w, head, r, tail, kept) == frame + BlocksText(w, KeptBlocks(r, kept)) + ending
    ensures Unopened(frame) && TagFree(ending) && ending != [] && ending[0] != NL
  {
    frame, ending := Terminated(head), JoinLines(Notice(w, |r.raw| - kept) + tail);
    EndingIsPlain(w, |r.raw| - kept, tail, ending);
    LayoutOf(w, head, r, tail, kept, frame, ending);
  }

  lemma LayoutOf(w: Wording, head: seq<Text>, r: Recalled, tail: seq<Text>, kept: nat, frame: Text, ending: Text)
    requires kept <= |r.raw| && tail != []
    requires frame == Terminated(head) && ending == JoinLines(Notice(w, |r.raw| - kept) + tail)
    ensures Rendered(w, head, r, tail, kept) == frame + BlocksText(w, KeptBlocks(r, kept)) + ending
  {
    RenderedLayout(w, head, r, tail, kept);
  }

  lemma GivenInText(w: Wording, t: Text, frame: Text, bs: seq<Block>, rest: Text, pool: Pool)
    requires Unopened(frame) && TagFree(rest) && rest != [] && rest[0] != NL
    requires t == frame + BlocksText(w, bs) + rest
    ensures RowSpans(SpansOf(t, pool).0) == GivenSpans(w, bs, pool)
  {
    BlocksReadBack(w, t, frame, bs, rest, pool);
    RowSpansOfAttributed(w, frame, bs, rest, pool);
  }

  /** For every recall: the n-th kept block, unless its id is empty, has its span, and the span has the
      origin of the row OriginAt names. */
  lemma EveryBlockIsAttributed(w: Wording, head: seq<Text>, r: Recalled, tail: seq<Text>, kept: nat, n: nat)
    requires kept <= |r.raw| && PlainAround(head, tail)
    requires n < |KeptBlocks(r, kept)| && IdOf(w, KeptBlocks(r, kept)[n]) != ""
    ensures var bs, spans := KeptBlocks(r, kept), BlockSpans(w, head, r, tail, kept);
      && Spot(w, bs, n) < |spans|
      && spans[Spot(w, bs, n)] ==
           RowSpan(BlockText(w, bs[n]), OriginAt(w, PoolOf(r), bs, n), bs[n].tier, IdOf(w, bs[n]))
  {
    BlockSpansAreGiven(w, head, r, tail, kept);
    SpanAt(w, PoolOf(r), KeptBlocks(r, kept), n);
  }

  /** A kept block is its row's own: it has a span, with the origin of its row. */
  ghost predicate IsOwn(w: Wording, pool: Pool, bs: seq<Block>, n: nat)
    requires n < |bs|
  {
    IdOf(w, bs[n]) != "" && OriginAt(w, pool, bs, n) == bs[n].row.origin
  }

  lemma {:induction false} OwnSpansAt(w: Wording, bs: seq<Block>, n: nat)
    requires n < |bs|
    ensures |OwnSpans(w, bs)| == |bs| && OwnSpans(w, bs)[n] == OwnSpan(w, bs[n])
  {
    if |bs| == 1 {
      assert bs[1..] == [];
    } else {
      OwnSpansAt(w, bs[1..], if n > 0 then n - 1 else 0);
    }
  }

  lemma GivenIsOwnAt(w: Wording, bs: seq<Block>, pool: Pool, n: nat)
    requires AllHaveSpans(w, bs) && n < |bs|
    ensures n < |GivenSpans(w, bs, pool)| && n < |OwnSpans(w, bs)|
    ensures GivenSpans(w, bs, pool)[n] == OwnSpans(w, bs)[n] <==> IsOwn(w, pool, bs, n)
  {
    SpanAt(w, pool, bs, n);
    SpotsOfAll(w, bs, n);
    OwnSpansAt(w, bs, n);
  }

  lemma GivenIsOwnWhen(w: Wording, bs: seq<Block>, pool: Pool)
    ensures GivenSpans(w, bs, pool) == OwnSpans(w, bs) <==> forall n :: 0 <= n < |bs| ==> IsOwn(w, pool, bs, n)
  {
    OwnSpansCount(w, bs);
    SpansOfAll(w, bs, pool);
    if AllHaveSpans(w, bs) {
      forall n | 0 <= n < |bs|
        ensures GivenSpans(w, bs, pool)[n] == OwnSpans(w, bs)[n] <==> IsOwn(w, pool, bs, n)
      {
        GivenIsOwnAt(w, bs, pool, n);
      }
    } else {
      var n :| 0 <= n < |bs| && IdOf(w, bs[n]) == "";
      assert !IsOwn(w, pool, bs, n);
    }
  }

  lemma OwnSpansCount(w: Wording, bs: seq<Block>)
    ensures |OwnSpans(w, bs)| == |bs|
  {
    if bs != [] {
      OwnSpansAt(w, bs, 0);
    }
  }

  /** Each kept block carries its own row's origin exactly when, for every kept row, the id is not empty
      and the row OriginAt names has the same origin. Ids and origins alone decide it. */
  lemma OwnExactlyWhen(w: Wording, head: seq<Text>, r: Recalled, tail: seq<Text>, kept: nat)
    requires kept <= |r.raw| && PlainAround(head, tail)
    ensures BlockSpans(w, head, r, tail, kept) == OwnSpans(w, KeptBlocks(r, kept)) <==>
      forall n :: 0 <= n < |KeptBlocks(r, kept)| ==> IsOwn(w, PoolOf(r), KeptBlocks(r, kept), n)
  {
    BlockSpansAreGiven(w, head, r, tail, kept);
    GivenIsOwnWhen(w, KeptBlocks(r, kept), PoolOf(r));
  }

  // ----- made-up ids ----------------------------------------------------------------------------------------

  /** No row of the tier answers to the id the block was rendered under. */
  ghost predicate Unanswered(w: Wording, pool: Pool, b: Block) {
    var es := Waiting(pool, b.tier); forall i :: 0 <= i < |es| ==> es[i].short != IdOf(w, b)
  }

  /** No made-up id is the id prefix of a row. */
  ghost predicate NoIdIsTaken(w: Wording, pool: Pool, bs: seq<Block>) {
    forall n :: 0 <= n < |bs| && bs[n].row.id.None? ==> Unanswered(w, pool, bs[n])
  }

  /** A row without an id is rendered under a made-up one; when no row answers to that, its block falls
      back to plain memory. */
  lemma RowWithoutIdLosesOrigin(w: Wording, head: seq<Text>, r: Recalled, tail: seq<Text>, kept: nat, n: nat)
    requires kept <= |r.raw| && PlainAround(head, tail)
    requires n < |KeptBlocks(r, kept)| && KeptBlocks(r, kept)[n].row.id.None?
    requires Unanswered(w, PoolOf(r), KeptBlocks(r, kept)[n])
    ensures var bs, spans := KeptBlocks(r, kept), BlockSpans(w, head, r, tail, kept);
      && Spot(w, bs, n) < |spans|
      && spans[Spot(w, bs, n)] == RowSpan(BlockText(w, bs[n]), Memory, bs[n].tier, IdOf(w, bs[n]))
  {
    var bs := KeptBlocks(r, kept);
    ShortIdIsNotEmpty(w, bs[n].tier, bs[n].row, bs[n].i);
    EveryBlockIsAttributed(w, head, r, tail, kept, n);
    NobodyAnswers(Waiting(PoolOf(r), bs[n].tier), IdOf(w, bs[n]), Carriers(w, bs[..n], bs[n].tier, IdOf(w, bs[n])));
  }

  function CountShort(es: seq<Entry>, id: string): nat
    decreases |es|
  {
    if es == [] then 0 else (if es[0].short == id then 1 else 0) + CountShort(es[1..], id)
  }

  lemma {:induction false} NthIsSelf(es: seq<Entry>, i: nat)
    requires i < |es|
    ensures Nth(es, es[i].short, CountShort(es[..i], es[i].short)) == Some(es[i])
    decreases |es|
  {
    if i == 0 {
      assert es[..0] == [];
    } else {
      assert es[..i][1..] == es[1..][..i - 1] && es[1..][i - 1] == es[i];
      NthIsSelf(es[1..], i - 1);
    }
  }

  lemma {:induction false} CountShortOfConcat(a: seq<Entry>, b: seq<Entry>, id: string)
    ensures CountShort(a + b, id) == CountShort(a, id) + CountShort(b, id)
  {
    if a == [] {
      assert a + b == b;
    } else {
      assert (a + b)[1..] == a[1..] + b;
      CountShortOfConcat(a[1..], b, id);
    }
  }

  lemma {:induction false} CarriersOfConcat(w: Wording, a: seq<Block>, b: seq<Block>, tier: Tier, id: string)
    ensures Carriers(w, a + b, tier, id) == Carriers(w, a, tier, id) + Carriers(w, b, tier, id)
  {
    if a == [] {
      assert a + b == b;
    } else {
      assert (a + b)[1..] == a[1..] + b;
      CarriersOfConcat(w, a[1..], b, tier, id);
    }
  }

  lemma {:induction false} NoCarriers(w: Wording, bs: seq<Block>, tier: Tier, id: string)
    requires forall i :: 0 <= i < |bs| ==> bs[i].tier != tier
    ensures Carriers(w, bs, tier, id) == 0
  {
    if bs == [] {
    } else {
      NoCarriers(w, bs[1..], tier, id);
    }
  }

  /** Rows of a tier whose made-up ids differ from `id`: as many blocks carry it as rows answer to it. */
  lemma {:induction false} CarriersAreRows(w: Wording, tier: Tier, rows: seq<Row>, i: nat, id: string)
    requires i <= |rows| && id != ""
    requires forall j :: 0 <= j < i && rows[j].id.None? ==> ShortId(w, tier, rows[j], j) != id
    ensures Carriers(w, BlockList(tier, rows[..i]), tier, id) == CountShort(EntriesOf(rows)[..i], id)
    decreases i
  {
    if i == 0 {
    } else {
      CarriersAreRows(w, tier, rows, i - 1, id);
      OneMoreCarrier(w, tier, rows, i - 1, id);
      OneMoreShort(EntriesOf(rows), i - 1, id);
    }
  }

  lemma OneMoreCarrier(w: Wording, tier: Tier, rows: seq<Row>, i: nat, id: string)
    requires i < |rows|
    ensures Carriers(w, BlockList(tier, rows[..i + 1]), tier, id) ==
      Carriers(w, BlockList(tier, rows[..i]), tier, id) + (if ShortId(w, tier, rows[i], i) == id then 1 else 0)
  {
    assert BlockList(tier, rows[..i + 1]) == BlockList(tier, rows[..i]) + [Block(tier, rows[i], i)];
    CarriersOfConcat(w, BlockList(tier, rows[..i]), [Block(tier, rows[i], i)], tier, id);
    assert [Block(tier, rows[i], i)][1..] == [];
  }

  lemma OneMoreShort(es: seq<Entry>, i: nat, id: string)
    requires i < |es|
    ensures CountShort(es[..i + 1], id) == CountShort(es[..i], id) + (if es[i].short == id then 1 else 0)
  {
    assert es[..i + 1] == es[..i] + [es[i]];
    CountShortOfConcat(es[..i], [es[i]], id);
    assert [es[i]][1..] == [];
  }

  /** Position n of the blocks: the i-th row of the tier, behind `before` from other tiers. */
  ghost predicate Stands(bs: seq<Block>, n: nat, before: seq<Block>, tier: Tier, rows: seq<Row>, i: nat) {
    && i < |rows| && |before| + i == n < |bs| && bs[n] == Block(tier, rows[i], i)
    && bs[..n] == before + BlockList(tier, rows[..i])
    && (forall j :: 0 <= j < |before| ==> before[j].tier != tier)
    && (forall j :: 0 <= j < i ==> bs[|before| + j] == Block(tier, rows[j], j))
  }

  /** A row with an id is found by its own block when no made-up id of its tier gets in between. */
  lemma RowFindsItself(w: Wording, pool: Pool, bs: seq<Block>, n: nat, before: seq<Block>, tier: Tier, rows: seq<Row>,
                       i: nat)
    requires Stands(bs, n, before, tier, rows, i)
    requires Waiting(pool, tier) == EntriesOf(rows) && rows[i].id.Some? && IdOf(w, bs[n]) != ""
    requires forall j :: 0 <= j < i && rows[j].id.None? ==> ShortId(w, tier, rows[j], j) != IdOf(w, bs[n])
    ensures OriginAt(w, pool, bs, n) == rows[i].origin
  {
    var id := IdOf(w, bs[n]);
    CarriersOfConcat(w, before, BlockList(tier, rows[..i]), tier, id);
    NoCarriers(w, before, tier, id);
    CarriersAreRows(w, tier, rows, i, id);
    NthIsSelf(EntriesOf(rows), i);
  }

  lemma KeptBlockAt(r: Recalled, kept: nat, n: nat) returns (before: seq<Block>, tier: Tier, rows: seq<Row>, i: nat)
    requires kept <= |r.raw| && n < |KeptBlocks(r, kept)|
    ensures Stands(KeptBlocks(r, kept), n, before, tier, rows, i) && Waiting(PoolOf(r), tier) == EntriesOf(rows)
  {
    var core, daily := BlockList(CoreTier, r.core), BlockList(DailyTier, r.daily);
    if n < |core| {
      before, tier, rows, i := [], CoreTier, r.core, n;
      InCore(r.core, daily + BlockList(RawTier, r.raw[..kept]), n);
    } else if n < |core| + |daily| {
      before, tier, rows, i := core, DailyTier, r.daily, n - |core|;
      InDaily(core, r.daily, BlockList(RawTier, r.raw[..kept]), i);
    } else {
      before, tier, rows, i := core + daily, RawTier, r.raw, n - |core| - |daily|;
      InRaw(core + daily, r.raw, kept, i);
    }
    Regroup(core, daily, BlockList(RawTier, r.raw[..kept]));
  }

  lemma InCore(rows: seq<Row>, after: seq<Block>, i: nat)
    requires i < |rows|
    ensures Stands(BlockList(CoreTier, rows) + after, i, [], CoreTier, rows, i)
  {
    WholeList(CoreTier, rows);
    assert BlockList(CoreTier, rows) + after == [] + BlockList(CoreTier, rows) + after;
    PartOf(BlockList(CoreTier, rows) + after, [], CoreTier, rows, |rows|, after, i);
  }

  lemma InDaily(core: seq<Block>, rows: seq<Row>, after: seq<Block>, i: nat)
    requires i < |rows| && forall j :: 0 <= j < |core| ==> core[j].tier != DailyTier
    ensures Stands(core + BlockList(DailyTier, rows) + after, |core| + i, core, DailyTier, rows, i)
  {
    WholeList(DailyTier, rows);
    PartOf(core + BlockList(DailyTier, rows) + after, core, DailyTier, rows, |rows|, after, i);
  }

  lemma InRaw(before: seq<Block>, rows: seq<Row>, kept: nat, i: nat)
    requires i < kept <= |rows| && forall j :: 0 <= j < |before| ==> before[j].tier != RawTier
    ensures Stands(before + BlockList(RawTier, rows[..kept]), |before| + i, before, RawTier, rows, i)
  {
    assert before + BlockList(RawTier, rows[..kept]) == before + BlockList(RawTier, rows[..kept]) + [];
    PartOf(before + BlockList(RawTier, rows[..kept]), before, RawTier, rows, kept, [], i);
  }

  lemma WholeList(tier: Tier, rows: seq<Row>)
    ensures BlockList(tier, rows[..|rows|]) == BlockList(tier, rows)
  {
    assert rows[..|rows|] == rows;
  }

  lemma PartOf(bs: seq<Block>, before: seq<Block>, tier: Tier, rows: seq<Row>, m: nat, after: seq<Block>, i: nat)
    requires i < m <= |rows| && bs == before + BlockList(tier, rows[..m]) + after
    requires forall j :: 0 <= j < |before| ==> before[j].tier != tier
    ensures Stands(bs, |before| + i, before, tier, rows, i)
  {
    var list := BlockList(tier, rows[..m]);
    assert list[..i] == BlockList(tier, rows[..i]);
    assert bs[..|before| + i] == before + list[..i];
  }

  lemma IdBlockIsOwn(w: Wording, r: Recalled, kept: nat, n: nat)
    requires kept <= |r.raw| && n < |KeptBlocks(r, kept)|
    requires NoIdIsTaken(w, PoolOf(r), KeptBlocks(r, kept))
    requires KeptBlocks(r, kept)[n].row.id.Some? && IdOf(w, KeptBlocks(r, kept)[n]) != ""
    ensures OriginAt(w, PoolOf(r), KeptBlocks(r, kept), n) == KeptBlocks(r, kept)[n].row.origin
  {
    var bs := KeptBlocks(r, kept);
    var before, tier, rows, i := KeptBlockAt(r, kept, n);
    forall j | 0 <= j < i && rows[j].id.None? ensures ShortId(w, tier, rows[j], j) != IdOf(w, bs[n]) {
      assert bs[|before| + j] == Block(tier, rows[j], j);
      assert Unanswered(w, PoolOf(r), bs[|before| + j]);
      assert EntriesOf(rows)[i].short == IdOf(w, bs[n]);
    }
    RowFindsItself(w, PoolOf(r), bs, n, before, tier, rows, i);
  }

  lemma IsOwnWhen(w: Wording, r: Recalled, kept: nat, n: nat)
    requires kept <= |r.raw| && n < |KeptBlocks(r, kept)|
    requires NoIdIsTaken(w, PoolOf(r), KeptBlocks(r, kept))
    ensures IsOwn(w, PoolOf(r), KeptBlocks(r, kept), n) <==> KeepsOrigin(KeptBlocks(r, kept)[n].row)
  {
    var bs := KeptBlocks(r, kept);
    if bs[n].row.id.None? {
      ShortIdIsNotEmpty(w, bs[n].tier, bs[n].row, bs[n].i);
      NobodyAnswers(Waiting(PoolOf(r), bs[n].tier), IdOf(w, bs[n]), Carriers(w, bs[..n], bs[n].tier, IdOf(w, bs[n])));
    } else if bs[n].row.id.value != "" {
      ShortIdIsNotEmpty(w, bs[n].tier, bs[n].row, bs[n].i);
      IdBlockIsOwn(w, r, kept, n);
    }
  }

  /** The id is not empty, and without any the origin is plain memory. */
  predicate KeepsOrigin(row: Row) {
    row.id != Some("") && (row.id.None? ==> row.origin == Memory)
  }

  /** When no made-up id is the id prefix of a row, the spans are own exactly when every kept row keeps
      its origin: no id is empty, and the rows without an id are plain memory anyway. */
  lemma OwnExactlyWhenNoIdIsTaken(w: Wording, head: seq<Text>, r: Recalled, tail: seq<Text>, kept: nat)
    requires kept <= |r.raw| && PlainAround(head, tail)
    requires NoIdIsTaken(w, PoolOf(r), KeptBlocks(r, kept))
    ensures BlockSpans(w, head, r, tail, kept) == OwnSpans(w, KeptBlocks(r, kept)) <==>
      forall n :: 0 <= n < |KeptBlocks(r, kept)| ==> KeepsOrigin(KeptBlocks(r, kept)[n].row)
  {
    OwnExactlyWhen(w, head, r, tail, kept);
    var bs := KeptBlocks(r, kept);
    forall n | 0 <= n < |bs|
      ensures IsOwn(w, PoolOf(r), bs, n) <==> KeepsOrigin(bs[n].row)
    {
      IsOwnWhen(w, r, kept, n);
    }
  }

  /** A made-up id that is taken: the row it belongs to answers for the block of the row without an id,
      and its own block is left with plain memory. */
  lemma TakenIdSwapsOrigins(w: Wording, head: seq<Text>, tail: seq<Text>, a: Row, b: Row)
    requires PlainAround(head, tail) && a.id.None? && b.id.Some?
    requires Prefix16(b.id.value) == ShortId(w, CoreTier, a, 0)
    ensures var id := ShortId(w, CoreTier, a, 0);
      BlockSpans(w, head, Recalled([a, b], [], []), tail, 0) ==
        [RowSpan(BlockText(w, Block(CoreTier, a, 0)), b.origin, CoreTier, id),
         RowSpan(BlockText(w, Block(CoreTier, b, 1)), Memory, CoreTier, id)]
  {
    var r := Recalled([a, b], [], []);
    var first, second := Block(CoreTier, a, 0), Block(CoreTier, b, 1);
    ShortIdIsNotEmpty(w, CoreTier, a, 0);
    BlockSpansAreGiven(w, head, r, tail, 0);
    assert KeptBlocks(r, 0) == [first, second];
    assert EntriesOf([a, b]) == [Entry("", a), Entry(IdOf(w, first), b)];
    var pool := After(w, PoolOf(r), first);
    assert Claim(EntriesOf([a, b])[1..], IdOf(w, first)) == (Some(Entry(IdOf(w, first), b)), []);
    assert Waiting(pool, CoreTier) == [Entry("", a)];
    assert [first, second][1..] == [second] && [second][1..] == [];
    assert GivenSpans(w, [second], pool) == [GivenSpan(w, pool, second)] + GivenSpans(w, [], After(w, pool, second));
  }

  lemma ShortIdIsNotEmpty(w: Wording, tier: Tier, row: Row, i: nat)
    requires row.id.None? || row.id.value != ""
    ensures ShortId(w, tier, row, i) != ""
  {
  }
}
