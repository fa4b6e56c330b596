/** Logical Telegram exchanges (memory/memory_manager.py, `get_telegram_exchanges_coalesced`).

    Timestamps are numbers (0 when missing): they are only compared and sorted. */
module CoalescedExchanges {
  import opened Wrappers
  import opened StableSort

  type Link = string

  /** Trust tiers as stored; anything outside the vocabulary ranks with `observed`. */
  datatype Tier = Untrusted | SelfObserved | Observed | Lived | Covenant | Odd(text: string)

  function Rank(t: Tier): nat {
    match t
    case Untrusted => 0
    case SelfObserved => 1
    case Observed => 2
    case Lived => 3
    case Covenant => 4
    case Odd(_) => 2
  }

  datatype Row = Row(
    id: string,
    content: string,
    link: Option<Link>,
    surface: Option<string>,
    chat: Option<string>,
    tier: Option<Tier>,
    source: string,
    stamp: nat)

  datatype Exchange =
    | Plain(row: Row)
    | Merged(owner: Row, reply: Row, content: string, tier: Tier, stamp: nat)

  function StampOf(e: Exchange): nat {
    if e.Plain? then e.row.stamp else e.stamp
  }

  // ----- scope --------------------------------------------------------------------------------------

  /** A stamp that says something else excludes; a missing stamp or an unscoped read never does. */
  predicate InScope(row: Row, surface: Option<string>, chat: Option<string>) {
    && (surface.Some? && row.surface.Some? ==> row.surface == surface)
    && (chat.Some? && row.chat.Some? ==> row.chat == chat)
  }

  function Scoped(rows: seq<Row>, surface: Option<string>, chat: Option<string>): seq<Row> {
    if rows == [] then []
    else if InScope(rows[|rows| - 1], surface, chat)
      then Scoped(rows[..|rows| - 1], surface, chat) + [rows[|rows| - 1]]
    else Scoped(rows[..|rows| - 1], surface, chat)
  }

  /** Which rows are in scope, by the laws of Scoped: each row alone, and lists put together. */
  lemma ScopedOfOne(row: Row, surface: Option<string>, chat: Option<string>)
    ensures Scoped([row], surface, chat) ==
      if surface.Some? && row.surface.Some? && row.surface.value != surface.value then []
      else if chat.Some? && row.chat.Some? && row.chat.value != chat.value then []
      else [row]
  {
    assert [row][..0] == [];
  }

  lemma {:induction false} ScopedOfConcat(a: seq<Row>, b: seq<Row>, surface: Option<string>, chat: Option<string>)
    ensures Scoped(a + b, surface, chat) == Scoped(a, surface, chat) + Scoped(b, surface, chat)
  {
    if b == [] {
      assert a + b == a;
    } else {
      assert (a + b)[..|a + b| - 1] == a + b[..|b| - 1];
      ScopedOfConcat(a, b[..|b| - 1], surface, chat);
    }
  }

  // ----- pairing ------------------------------------------------------------------------------------

  function Bucket(rows: seq<Row>, link: Link): (b: seq<Row>)
    ensures forall i :: 0 <= i < |b| ==> b[i].link == Some(link) && b[i] in rows
  {
    if rows == [] then []
    else if rows[|rows| - 1].link == Some(link) then Bucket(rows[..|rows| - 1], link) + [rows[|rows| - 1]]
    else Bucket(rows[..|rows| - 1], link)
  }

  function Unlinked(rows: seq<Row>): (b: seq<Row>)
    ensures forall i :: 0 <= i < |b| ==> b[i].link.None?
  {
    if rows == [] then []
    else if rows[|rows| - 1].link.None? then Unlinked(rows[..|rows| - 1]) + [rows[|rows| - 1]]
    else Unlinked(rows[..|rows| - 1])
  }

  const MARKER := "Maez:"

  predicate StartsWith(s: string, p: string) {
    |p| <= |s| && s[..|p|] == p
  }

  predicate Contains(s: string, p: string) {
    exists i :: 0 <= i <= |s| && StartsWith(s[i..], p)
  }

  predicate OwnerShaped(row: Row) {
    !Contains(row.content, "\n" + MARKER)
  }

  predicate ReplyShaped(row: Row) {
    StartsWith(row.content, MARKER)
  }

  function First(rows: seq<Row>, p: Row -> bool): (r: Option<Row>)
    ensures r.Some? ==> r.value in rows && p(r.value)
    ensures r.None? <==> forall i :: 0 <= i < |rows| ==> !p(rows[i])
  {
    if rows == [] then None else if p(rows[0]) then Some(rows[0]) else First(rows[1..], p)
  }

  predicate IsUtterance(row: Row) {
    row.source == "user_utterance"
  }

  /** Roles by provenance when it settles the pair, else by the shape of the text. */
  function Halves(halves: seq<Row>): Option<(Row, Row)> {
    if |halves| == 2 && IsUtterance(halves[0]) != IsUtterance(halves[1]) then
      Some(if IsUtterance(halves[0]) then (halves[0], halves[1]) else (halves[1], halves[0]))
    else
      var owner, reply := First(halves, OwnerShaped), First(halves, ReplyShaped);
      if owner.Some? && reply.Some? then Some((owner.value, reply.value)) else None
  }

  function TierOf(row: Row): Tier {
    if row.tier.Some? then row.tier.value else Lived
  }

  function Merge(owner: Row, reply: Row): Exchange {
    Merged(owner, reply, owner.content + "\n" + reply.content,
           if Rank(TierOf(reply)) < Rank(TierOf(owner)) then TierOf(reply) else TierOf(owner),
           if owner.stamp < reply.stamp then reply.stamp else owner.stamp)
  }

  function Resolve(halves: seq<Row>): Option<Exchange> {
    var h := Halves(halves);
    if h.None? then None else Some(Merge(h.value.0, h.value.1))
  }

  // ----- the list ------------------------------------------------------------------------------------

  datatype Entry = RowEntry(row: Row) | Placeholder(link: Link)

  /** One entry per unlinked row and one placeholder per link, at its first appearance. */
  function Entries(rows: seq<Row>): seq<Entry> {
    if rows == [] then []
    else
      var before, last := rows[..|rows| - 1], rows[|rows| - 1];
      if last.link.None? then Entries(before) + [RowEntry(last)]
      else if Bucket(before, last.link.value) == [] then Entries(before) + [Placeholder(last.link.value)]
      else Entries(before)
  }

  function Resolved(entries: seq<Entry>, rows: seq<Row>): seq<Exchange> {
    if entries == [] then []
    else
      var before, last := Resolved(entries[..|entries| - 1], rows), entries[|entries| - 1];
      match last
      case RowEntry(row) => before + [Plain(row)]
      case Placeholder(link) =>
        var m := Resolve(Bucket(rows, link));
        if m.Some? then before + [m.value] else before
  }

  function RowKeys(rows: seq<Row>): (keys: seq<Key>)
    ensures |keys| == |rows|
  {
    seq(|rows|, i requires 0 <= i < |rows| => Fin(rows[i].stamp as real))
  }

  function ExchangeKeys(es: seq<Exchange>): (keys: seq<Key>)
    ensures |keys| == |es|
  {
    seq(|es|, i requires 0 <= i < |es| => Fin(StampOf(es[i]) as real))
  }

  /** The rows are paired in order of time, and those of one time as they were stored. */
  lemma RowsInTimeOrder(scoped: seq<Row>, order: seq<nat>)
    requires order == SortOrder(RowKeys(scoped))
    ensures Sorted(scoped, RowKeys(scoped)) == Permute(scoped, order)
    ensures forall i, j :: 0 <= i < j < |scoped| ==>
      scoped[order[i]].stamp < scoped[order[j]].stamp ||
      (scoped[order[i]].stamp == scoped[order[j]].stamp && order[i] < order[j])
  {
    SortOrderIsStable(RowKeys(scoped));
    forall i, j | 0 <= i < j < |scoped|
      ensures scoped[order[i]].stamp < scoped[order[j]].stamp ||
        (scoped[order[i]].stamp == scoped[order[j]].stamp && order[i] < order[j])
    {
      assert Before(RowKeys(scoped), order[i], order[j]);
    }
  }

  /** And so is the finished list, by the time of the later half. */
  lemma ExchangesInTimeOrder(es: seq<Exchange>, order: seq<nat>)
    requires order == SortOrder(ExchangeKeys(es))
    ensures Sorted(es, ExchangeKeys(es)) == Permute(es, order)
    ensures forall i, j :: 0 <= i < j < |es| ==>
      StampOf(es[order[i]]) < StampOf(es[order[j]]) ||
      (StampOf(es[order[i]]) == StampOf(es[order[j]]) && order[i] < order[j])
  {
    SortOrderIsStable(ExchangeKeys(es));
    forall i, j | 0 <= i < j < |es|
      ensures StampOf(es[order[i]]) < StampOf(es[order[j]]) ||
        (StampOf(es[order[i]]) == StampOf(es[order[j]]) && order[i] < order[j])
    {
      assert Before(ExchangeKeys(es), order[i], order[j]);
    }
  }

  /** All logical exchanges of already scoped rows. */
  function Coalesced(scoped: seq<Row>): seq<Exchange> {
    var rows := Sorted(scoped, RowKeys(scoped));
    var es := Resolved(Entries(rows), rows);
    Sorted(es, ExchangeKeys(es))
  }

  function LastN<T>(xs: seq<T>, limit: Option<int>): seq<T> {
    if limit.Some? && 0 < limit.value < |xs| then xs[|xs| - limit.value..] else xs
  }

  method PairRows(rows: seq<Row>) returns (byLink: map<Link, seq<Row>>, logical: seq<Entry>)
    ensures logical == Entries(rows)
    ensures forall l :: l in byLink ==> byLink[l] == Bucket(rows, l)
    ensures forall l :: l !in byLink ==> Bucket(rows, l) == []
  {
    byLink, logical := map[], [];
    for i := 0 to |rows|
      invariant logical == Entries(rows[..i])
      invariant forall l :: l in byLink ==> byLink[l] == Bucket(rows[..i], l) && byLink[l] != []
      invariant forall l :: l !in byLink ==> Bucket(rows[..i], l) == []
    {
      assert rows[..i + 1][..i] == rows[..i];
      var row := rows[i];
      if row.link.None? {
        logical := logical + [RowEntry(row)];
      } else {
        var l := row.link.value;
        var bucket := (if l in byLink then byLink[l] else []) + [row];
        byLink := byLink[l := bucket];
        if |bucket| == 1 {
          logical := logical + [Placeholder(l)];
        }
      }
    }
    assert rows[..|rows|] == rows;
  }

  method GetExchangesCoalesced(all: seq<Row>, limit: Option<int>, surface: Option<string>, chat: Option<string>)
    returns (exchanges: seq<Exchange>)
    ensures exchanges == LastN(Coalesced(Scoped(all, surface, chat)), limit)
    ensures limit.None? || limit.value <= 0 ==> exchanges == Coalesced(Scoped(all, surface, chat))
    ensures limit.Some? && limit.value > 0 ==>
      var whole := Coalesced(Scoped(all, surface, chat));
      exchanges == (if limit.value < |whole| then whole[|whole| - limit.value..] else whole)
  {
    var rows: seq<Row> := [];
    for i := 0 to |all|
      invariant rows == Scoped(all[..i], surface, chat)
    {
      assert all[..i + 1][..i] == all[..i];
      if InScope(all[i], surface, chat) {
        rows := rows + [all[i]];
      }
    }
    assert all[..|all|] == all;
    rows := Sorted(rows, RowKeys(rows));
    var byLink, logical := PairRows(rows);
    var resolved: seq<Exchange> := [];
    for i := 0 to |logical|
      invariant resolved == Resolved(logical[..i], rows)
    {
      assert logical[..i + 1][..i] == logical[..i];
      match logical[i] {
        case RowEntry(row) =>
          resolved := resolved + [Plain(row)];
        case Placeholder(link) =>
          var merged := Resolve(if link in byLink then byLink[link] else []);
          if merged.Some? {
            resolved := resolved + [merged.value];
          }
      }
    }
    assert logical[..|logical|] == logical;
    resolved := Sorted(resolved, ExchangeKeys(resolved));
    exchanges := LastN(resolved, limit);
  }

  // ----- what the list holds ---------------------------------------------------------------------------

  function Plains(es: seq<Exchange>): seq<Row> {
    if es == [] then []
    else if es[|es| - 1].Plain? then Plains(es[..|es| - 1]) + [es[|es| - 1].row]
    else Plains(es[..|es| - 1])
  }

  /** The merged exchanges of one link; a merged exchange keeps its owner half's link. */
  function MergedWith(es: seq<Exchange>, link: Link): seq<Exchange> {
    if es == [] then []
    else if es[|es| - 1].Merged? && es[|es| - 1].owner.link == Some(link)
      then MergedWith(es[..|es| - 1], link) + [es[|es| - 1]]
    else MergedWith(es[..|es| - 1], link)
  }

  /** Filters commute with permutation, element by element. */
  lemma {:induction false} BucketCount(rows: seq<Row>, link: Link, x: Row)
    ensures multiset(Bucket(rows, link))[x] == if x.link == Some(link) then multiset(rows)[x] else 0
  {
    if rows == [] {
    } else {
      BucketCount(rows[..|rows| - 1], link, x);
      assert rows == rows[..|rows| - 1] + [rows[|rows| - 1]];
    }
  }

  lemma {:induction false} UnlinkedCount(rows: seq<Row>, x: Row)
    ensures multiset(Unlinked(rows))[x] == if x.link.None? then multiset(rows)[x] else 0
  {
    if rows == [] {
    } else {
      UnlinkedCount(rows[..|rows| - 1], x);
      assert rows == rows[..|rows| - 1] + [rows[|rows| - 1]];
    }
  }

  lemma {:induction false} PlainsCount(es: seq<Exchange>, x: Row)
    ensures multiset(Plains(es))[x] == multiset(es)[Plain(x)]
  {
    if es == [] {
    } else {
      PlainsCount(es[..|es| - 1], x);
      assert es == es[..|es| - 1] + [es[|es| - 1]];
    }
  }

  lemma {:induction false} MergedWithCount(es: seq<Exchange>, link: Link, x: Exchange)
    ensures multiset(MergedWith(es, link))[x] ==
      if x.Merged? && x.owner.link == Some(link) then multiset(es)[x] else 0
  {
    if es == [] {
    } else {
      MergedWithCount(es[..|es| - 1], link, x);
      assert es == es[..|es| - 1] + [es[|es| - 1]];
    }
  }

  lemma BucketPermuted(a: seq<Row>, b: seq<Row>, link: Link)
    requires multiset(a) == multiset(b)
    ensures multiset(Bucket(a, link)) == multiset(Bucket(b, link)) && |Bucket(a, link)| == |Bucket(b, link)|
  {
    forall x ensures multiset(Bucket(a, link))[x] == multiset(Bucket(b, link))[x] {
      BucketCount(a, link, x);
      BucketCount(b, link, x);
    }
    SameSize(Bucket(a, link), Bucket(b, link));
  }

  lemma SameSize<T>(a: seq<T>, b: seq<T>)
    requires multiset(a) == multiset(b)
    ensures |a| == |b|
  {
    assert |multiset(a)| == |a| && |multiset(b)| == |b|;
  }

  lemma UnlinkedPermuted(a: seq<Row>, b: seq<Row>)
    requires multiset(a) == multiset(b)
    ensures multiset(Unlinked(a)) == multiset(Unlinked(b))
  {
    forall x ensures multiset(Unlinked(a))[x] == multiset(Unlinked(b))[x] {
      UnlinkedCount(a, x);
      UnlinkedCount(b, x);
    }
  }

  lemma PlainsPermuted(a: seq<Exchange>, b: seq<Exchange>)
    requires multiset(a) == multiset(b)
    ensures multiset(Plains(a)) == multiset(Plains(b))
  {
    forall x ensures multiset(Plains(a))[x] == multiset(Plains(b))[x] {
      PlainsCount(a, x);
      PlainsCount(b, x);
    }
  }

  lemma MergedWithPermuted(a: seq<Exchange>, b: seq<Exchange>, link: Link)
    requires multiset(a) == multiset(b)
    ensures |MergedWith(a, link)| == |MergedWith(b, link)|
  {
    forall x ensures multiset(MergedWith(a, link))[x] == multiset(MergedWith(b, link))[x] {
      MergedWithCount(a, link, x);
      MergedWithCount(b, link, x);
    }
    SameSize(MergedWith(a, link), MergedWith(b, link));
  }

  /** The unresolved list: unlinked rows in order, one placeholder for every link that occurs. */
  lemma {:induction false} EntriesCover(rows: seq<Row>, link: Link)
    ensures PlaceholdersFor(Entries(rows), link) == if Bucket(rows, link) == [] then 0 else 1
    ensures RowsOf(Entries(rows)) == Unlinked(rows)
  {
    if rows == [] {
    } else {
      EntriesCover(rows[..|rows| - 1], link);
    }
  }

  function PlaceholdersFor(entries: seq<Entry>, link: Link): nat {
    if entries == [] then 0
    else
      PlaceholdersFor(entries[..|entries| - 1], link) +
      (if entries[|entries| - 1] == Placeholder(link) then 1 else 0)
  }

  function RowsOf(entries: seq<Entry>): seq<Row> {
    if entries == [] then []
    else if entries[|entries| - 1].RowEntry? then RowsOf(entries[..|entries| - 1]) + [entries[|entries| - 1].row]
    else RowsOf(entries[..|entries| - 1])
  }

  /** A resolved bucket merges two of its rows, so it keeps its link. */
  lemma ResolveKeepsLink(rows: seq<Row>, link: Link)
    ensures Resolve(Bucket(rows, link)).Some? ==>
      Resolve(Bucket(rows, link)).value.Merged? && Resolve(Bucket(rows, link)).value.owner.link == Some(link)
  {
    var b := Bucket(rows, link);
    var h := Halves(b);
    if h.Some? {
      assert h.value.0 in b;
    }
  }

  ghost predicate MergedFromBucket(e: Exchange, rows: seq<Row>) {
    e.Merged? ==> e.owner.link.Some? && Resolve(Bucket(rows, e.owner.link.value)) == Some(e)
  }

  lemma {:induction false} ResolvedMerges(entries: seq<Entry>, rows: seq<Row>, link: Link)
    ensures |MergedWith(Resolved(entries, rows), link)| ==
      if Resolve(Bucket(rows, link)).Some? then PlaceholdersFor(entries, link) else 0
  {
    if entries == [] {
    } else {
      var before, last := entries[..|entries| - 1], entries[|entries| - 1];
      ResolvedMerges(before, rows, link);
      if last.Placeholder? {
        ResolveKeepsLink(rows, last.link);
      }
    }
  }

  lemma {:induction false} ResolvedPlains(entries: seq<Entry>, rows: seq<Row>)
    ensures Plains(Resolved(entries, rows)) == RowsOf(entries)
  {
    if entries == [] {
    } else {
      var before, last := entries[..|entries| - 1], entries[|entries| - 1];
      ResolvedPlains(before, rows);
      if last.Placeholder? {
        ResolveKeepsLink(rows, last.link);
      }
    }
  }

  lemma ResolvedHolds(entries: seq<Entry>, rows: seq<Row>, link: Link)
    ensures |MergedWith(Resolved(entries, rows), link)| ==
      if Resolve(Bucket(rows, link)).Some? then PlaceholdersFor(entries, link) else 0
    ensures Plains(Resolved(entries, rows)) == RowsOf(entries)
  {
    ResolvedMerges(entries, rows, link);
    ResolvedPlains(entries, rows);
  }

  lemma {:induction false} ResolvedFromBuckets(entries: seq<Entry>, rows: seq<Row>)
    ensures forall i :: 0 <= i < |Resolved(entries, rows)| ==> MergedFromBucket(Resolved(entries, rows)[i], rows)
  {
    if entries == [] {
    } else {
      var before, last := entries[..|entries| - 1], entries[|entries| - 1];
      ResolvedFromBuckets(before, rows);
      if last.Placeholder? {
        ResolveKeepsLink(rows, last.link);
      }
    }
  }

  ghost predicate StampSorted(es: seq<Exchange>) {
    forall i, j :: 0 <= i <= j < |es| ==> StampOf(es[i]) <= StampOf(es[j])
  }

  lemma SortedByStamp(es: seq<Exchange>)
    ensures StampSorted(Sorted(es, ExchangeKeys(es)))
  {
    var keys := ExchangeKeys(es);
    SortOrderIsStable(keys);
    var order := SortOrder(keys);
    forall i, j | 0 <= i <= j < |es|
      ensures StampOf(Sorted(es, keys)[i]) <= StampOf(Sorted(es, keys)[j])
    {
      if i < j {
        assert Before(keys, order[i], order[j]);
      }
    }
  }

  /** For every input: the list is sorted, holds exactly the unlinked rows as they are, and exactly
      one merged exchange for every link whose rows resolve to a pair. */
  lemma CoalescedContents(scoped: seq<Row>, link: Link)
    ensures var es, rows := Coalesced(scoped), Sorted(scoped, RowKeys(scoped));
      && StampSorted(es)
      && multiset(Plains(es)) == multiset(Unlinked(scoped))
      && |MergedWith(es, link)| == (if Resolve(Bucket(rows, link)).Some? then 1 else 0)
      && (forall i :: 0 <= i < |es| ==> MergedFromBucket(es[i], rows))
  {
    var rows := Sorted(scoped, RowKeys(scoped));
    var es := Resolved(Entries(rows), rows);
    var out := Sorted(es, ExchangeKeys(es));
    SortedIsPermutation(scoped, RowKeys(scoped));
    SortedIsPermutation(es, ExchangeKeys(es));
    SortedByStamp(es);
    EntriesCover(rows, link);
    ResolvedHolds(Entries(rows), rows, link);
    ResolvedFromBuckets(Entries(rows), rows);
    UnlinkedPermuted(rows, scoped);
    PlainsPermuted(out, es);
    MergedWithPermuted(out, es, link);
    EmptyDoesNotResolve();
    forall i | 0 <= i < |out| ensures MergedFromBucket(out[i], rows) {
      assert out[i] in multiset(es);
    }
  }

  lemma EmptyDoesNotResolve()
    ensures Resolve([]).None?
  {
  }

  // ----- well-linked input --------------------------------------------------------------------------------

  /** Two halves, exactly one of them stamped as the owner's. */
  predicate IsPair(b: seq<Row>) {
    |b| == 2 && IsUtterance(b[0]) != IsUtterance(b[1])
  }

  ghost predicate WellLinked(rows: seq<Row>) {
    forall link :: WellLinkedBucket(Bucket(rows, link))
  }

  predicate WellLinkedBucket(b: seq<Row>) {
    b == [] || IsPair(b) || (|b| == 1 && !ReplyShaped(b[0]))
  }

  lemma TwoOfTwo(a: seq<Row>, b: seq<Row>)
    requires |a| == 2 && |b| == 2 && multiset(a) == multiset(b)
    ensures (a[0] == b[0] && a[1] == b[1]) || (a[0] == b[1] && a[1] == b[0])
  {
    assert a == [a[0], a[1]] && b == [b[0], b[1]];
    assert multiset(a)[a[0]] == multiset(b)[a[0]];
    assert multiset(a)[a[1]] == multiset(b)[a[1]];
    assert multiset(a)[b[0]] == multiset(b)[b[0]];
  }

  lemma OneOfOne(a: seq<Row>, b: seq<Row>)
    requires |a| == 1 && |b| == 1 && multiset(a) == multiset(b)
    ensures a == b
  {
    assert a == [a[0]] && b == [b[0]];
    assert multiset(a)[a[0]] == multiset(b)[a[0]];
  }

  lemma PairSurvivesPermutation(a: seq<Row>, b: seq<Row>)
    requires multiset(a) == multiset(b) && |a| == |b| && WellLinkedBucket(b)
    ensures WellLinkedBucket(a) && (IsPair(a) <==> IsPair(b))
  {
    if |a| == 1 {
      OneOfOne(a, b);
    } else if |a| == 2 {
      TwoOfTwo(a, b);
    }
  }

  /** A lone row stands for an exchange exactly when it passes both shape tests at once: it begins
      like a reply and quotes no marker on a later line. Then it is paired with itself. */
  lemma LoneRowResolvesWhen(row: Row)
    ensures Resolve([row]).Some? <==> ReplyShaped(row) && OwnerShaped(row)
    ensures Resolve([row]).Some? <==>
      && |row.content| >= 5 && row.content[..5] == "Maez:"
      && forall i :: 0 <= i <= |row.content| ==> !("\nMaez:" <= row.content[i..])
    ensures Resolve([row]).Some? ==> Resolve([row]).value == Merge(row, row)
  {
  }

  /** Two rows whose provenance does not settle the roles. They are rejoined, each once, exactly when one of
      them passes only the owner's test and the other the reply's: the earlier row is asked first, so it
      must fail one test and the later row pass that one. An earlier row that passes both is paired with
      itself, and the later row is lost. */
  lemma UnsettledPairResolvesWhen(a: Row, b: Row)
    requires IsUtterance(a) == IsUtterance(b)
    ensures Resolve([a, b]) ==
      if OwnerShaped(a) && ReplyShaped(a) then Some(Merge(a, a))
      else if OwnerShaped(a) then (if ReplyShaped(b) then Some(Merge(a, b)) else None)
      else if ReplyShaped(a) then (if OwnerShaped(b) then Some(Merge(b, a)) else None)
      else if OwnerShaped(b) && ReplyShaped(b) then Some(Merge(b, b))
      else None
  {
    var halves := [a, b];
    assert halves[1..] == [b] && [b][1..] == [];
    FirstOfTwo(a, b, OwnerShaped);
    FirstOfTwo(a, b, ReplyShaped);
  }

  /** Any number of rows, unless two of them are settled by provenance: the first row without a marker on a later
      line is the owner's and the first that begins with one is the reply; without either nothing is rejoined. */
  lemma ShapesDecide(halves: seq<Row>, i: nat, j: nat)
    requires |halves| != 2 || (halves[0].source == "user_utterance" <==> halves[1].source == "user_utterance")
    requires i <= |halves| && (forall k :: 0 <= k < i ==> !OwnerShaped(halves[k]))
    requires j <= |halves| && (forall k :: 0 <= k < j ==> !ReplyShaped(halves[k]))
    requires (i < |halves| ==> OwnerShaped(halves[i])) && (j < |halves| ==> ReplyShaped(halves[j]))
    ensures Resolve(halves) == if i < |halves| && j < |halves| then Some(Merge(halves[i], halves[j])) else None
  {
    FirstIs(halves, OwnerShaped, i);
    FirstIs(halves, ReplyShaped, j);
  }

  lemma {:induction false} FirstIs(rows: seq<Row>, p: Row -> bool, i: nat)
    requires i <= |rows| && (forall k :: 0 <= k < i ==> !p(rows[k])) && (i < |rows| ==> p(rows[i]))
    ensures First(rows, p) == if i < |rows| then Some(rows[i]) else None
    decreases i
  {
    if i > 0 {
      FirstIs(rows[1..], p, i - 1);
    }
  }

  lemma FirstOfTwo(a: Row, b: Row, p: Row -> bool)
    ensures First([a, b], p) == if p(a) then Some(a) else if p(b) then Some(b) else None
  {
    assert [a, b][1..] == [b] && [b][1..] == [];
  }

  /** The tests of the shape fallback, spelled out. */
  lemma ShapesMean(row: Row)
    ensures ReplyShaped(row) <==> "Maez:" <= row.content
    ensures OwnerShaped(row) <==> forall i :: 0 <= i <= |row.content| ==> !("\nMaez:" <= row.content[i..])
  {
  }

  /** The merged exchange: owner's words first, the worse tier (a missing one counts as lived, a stray one as
      observed), the later time. */
  lemma MergeMeans(owner: Row, reply: Row)
    ensures var e := Merge(owner, reply);
      && e == Merged(owner, reply, owner.content + "\n" + reply.content, e.tier, e.stamp)
      && e.stamp == (if owner.stamp >= reply.stamp then owner.stamp else reply.stamp)
      && (e.tier == Untrusted <==> owner.tier == Some(Untrusted) || reply.tier == Some(Untrusted))
      && (e.tier == SelfObserved <==>
            && owner.tier != Some(Untrusted) && reply.tier != Some(Untrusted)
            && (owner.tier == Some(SelfObserved) || reply.tier == Some(SelfObserved)))
      && (e.tier == Covenant <==> owner.tier == Some(Covenant) && reply.tier == Some(Covenant))
      && (e.tier == Lived <==>
            && (owner.tier == Some(Lived) || owner.tier == Some(Covenant) || owner.tier == None)
            && (reply.tier == Some(Lived) || reply.tier == Some(Covenant) || reply.tier == None)
            && !(owner.tier == Some(Covenant) && reply.tier == Some(Covenant)))
      && (e.tier == Observed || e.tier.Odd? ==> owner.tier == Some(e.tier) || reply.tier == Some(e.tier))
  {
  }

  /** Exactly one of two rows stamped user_utterance: it is the owner's, wherever it stands. */
  lemma StampedPairResolves(a: Row, b: Row)
    ensures a.source == "user_utterance" && b.source != "user_utterance" ==>
      Resolve([a, b]) == Some(Merge(a, b)) && Resolve([b, a]) == Some(Merge(a, b))
  {
  }

  lemma SortedPair<T>(x: T, y: T, keys: seq<Key>)
    requires |keys| == 2 && !Less(keys[1], keys[0])
    ensures Sorted([x, y], keys) == [x, y]
  {
    assert OrderUpTo(keys, 0) == [];
    assert OrderUpTo(keys, 1) == Insert(keys, [], 0) == [0];
    assert OrderUpTo(keys, 2) == Insert(keys, [0], 1) == [0, 1];
  }

  /** So an unstamped reply stored before its owner half comes back twice, without the owner's words. */
  lemma EarlierReplySwallowsOwner(id: string, other: string, link: Link, stamp: nat)
    ensures var reply := Row(id, "Maez: x", Some(link), None, None, None, "", stamp);
      var owner := Row(other, "hi", Some(link), None, None, None, "", stamp + 1);
      Coalesced([reply, owner]) == [Merge(reply, reply)]
  {
    var reply := Row(id, "Maez: x", Some(link), None, None, None, "", stamp);
    var owner := Row(other, "hi", Some(link), None, None, None, "", stamp + 1);
    assert reply.content[..5] == MARKER;
    OneLineQuotesNothing(reply.content);
    UnsettledPairResolvesWhen(reply, owner);
    TwoRowsCoalesced(reply, owner, link, Merge(reply, reply));
  }

  lemma TwoRowsCoalesced(a: Row, b: Row, link: Link, e: Exchange)
    requires a.link == Some(link) && b.link == Some(link) && a.stamp <= b.stamp && Resolve([a, b]) == Some(e)
    ensures Coalesced([a, b]) == [e]
  {
    SortedPair(a, b, RowKeys([a, b]));
    assert [a, b][..1] == [a] && [a][..0] == [] && Bucket([], link) == [];
    assert Bucket([a], link) == [] + [a] == [a];
    assert Bucket([a, b], link) == [a] + [b] == [a, b];
    assert Entries([a]) == [] + [Placeholder(link)] == [Placeholder(link)];
    assert Entries([a, b]) == [Placeholder(link)];
    ResolvedSingleton(link, [a, b], e);
    SortedSingleton(e, ExchangeKeys([e]));
  }

  /** On well-linked input the list is exactly what was asked for: the unlinked in-scope rows, one
      exchange per pair with the owner's half first, the worse tier and the later timestamp, nothing
      for lone halves, sorted by time; and a limit keeps the last so many of those. */
  lemma WellLinkedIsCoalescedExactly(scoped: seq<Row>, link: Link)
    requires WellLinked(scoped)
    ensures var es := Coalesced(scoped);
      && StampSorted(es)
      && multiset(Plains(es)) == multiset(Unlinked(scoped))
      && |MergedWith(es, link)| == (if IsPair(Bucket(scoped, link)) then 1 else 0)
      && (forall i :: 0 <= i < |es| && es[i].Merged? ==> JoinsPair(es[i], scoped))
  {
    var rows := Sorted(scoped, RowKeys(scoped));
    var es := Coalesced(scoped);
    CoalescedContents(scoped, link);
    BucketInAnyOrder(scoped, link);
    forall i | 0 <= i < |es| && es[i].Merged?
      ensures JoinsPair(es[i], scoped)
    {
      assert MergedFromBucket(es[i], rows);
      BucketInAnyOrder(scoped, es[i].owner.link.value);
    }
  }

  /** The exchange joins the two rows of a pair. */
  ghost predicate JoinsBucket(e: Exchange, b: seq<Row>)
    requires e.Merged?
  {
    && IsPair(b) && multiset(b) == multiset{e.owner, e.reply}
    && IsUtterance(e.owner) && !IsUtterance(e.reply)
    && e.content == e.owner.content + "\n" + e.reply.content
    && (e.tier == TierOf(e.owner) || e.tier == TierOf(e.reply))
    && Rank(e.tier) <= Rank(TierOf(e.owner)) && Rank(e.tier) <= Rank(TierOf(e.reply))
    && (e.stamp == e.owner.stamp || e.stamp == e.reply.stamp)
    && e.owner.stamp <= e.stamp && e.reply.stamp <= e.stamp
  }

  ghost predicate JoinsPair(e: Exchange, scoped: seq<Row>)
    requires e.Merged?
  {
    e.owner.link.Some? && JoinsBucket(e, Bucket(scoped, e.owner.link.value))
  }

  lemma PairResolves(a: seq<Row>)
    requires IsPair(a)
    ensures Resolve(a).Some? && Resolve(a).value.Merged? && JoinsBucket(Resolve(a).value, a)
  {
    assert a == [a[0], a[1]];
  }

  lemma ResolveInAnyOrder(a: seq<Row>, b: seq<Row>)
    requires multiset(a) == multiset(b) && |a| == |b| && WellLinkedBucket(b)
    ensures Resolve(a).Some? <==> IsPair(b)
    ensures IsPair(b) ==> Resolve(a).value.Merged? && JoinsBucket(Resolve(a).value, b)
  {
    PairSurvivesPermutation(a, b);
    if IsPair(a) {
      PairResolves(a);
    } else if a == [] {
      EmptyDoesNotResolve();
    } else {
      LoneRowResolvesWhen(a[0]);
      assert a == [a[0]];
    }
  }

  lemma BucketInAnyOrder(scoped: seq<Row>, link: Link)
    requires WellLinked(scoped)
    ensures var rows := Sorted(scoped, RowKeys(scoped));
      && (Resolve(Bucket(rows, link)).Some? <==> IsPair(Bucket(scoped, link)))
      && (Resolve(Bucket(rows, link)).Some? ==> (Resolve(Bucket(rows, link)).value.Merged? &&
           JoinsBucket(Resolve(Bucket(rows, link)).value, Bucket(scoped, link))))
  {
    var rows := Sorted(scoped, RowKeys(scoped));
    SortedIsPermutation(scoped, RowKeys(scoped));
    BucketPermuted(rows, scoped, link);
    assert WellLinkedBucket(Bucket(scoped, link));
    ResolveInAnyOrder(Bucket(rows, link), Bucket(scoped, link));
  }

  lemma LastOfSorted(all: seq<Exchange>, limit: int)
    requires limit > 0 && StampSorted(all)
    ensures var few := LastN(all, Some(limit));
      && |few| == (if limit < |all| then limit else |all|)
      && few == all[|all| - |few|..]
      && forall i, j :: 0 <= i < |all| - |few| && 0 <= j < |few| ==> StampOf(all[i]) <= StampOf(few[j])
  {
  }

  /** A limit keeps the most recent logical exchanges, so a pair takes one place of them. */
  lemma LimitKeepsLast(scoped: seq<Row>, limit: int)
    requires limit > 0
    ensures var all, few := Coalesced(scoped), LastN(Coalesced(scoped), Some(limit));
      && |few| == (if limit < |all| then limit else |all|)
      && few == all[|all| - |few|..]
      && forall i, j :: 0 <= i < |all| - |few| && 0 <= j < |few| ==> StampOf(all[i]) <= StampOf(few[j])
  {
    CoalescedContents(scoped, "");
    LastOfSorted(Coalesced(scoped), limit);
  }

  lemma SortedSingleton<T>(x: T, keys: seq<Key>)
    requires |keys| == 1
    ensures Sorted([x], keys) == [x]
  {
    assert OrderUpTo(keys, 0) == [];
    assert OrderUpTo(keys, 1) == Insert(keys, [], 0) == [0];
  }

  lemma LoneCoalesced(row: Row)
    requires row.link.Some? && ReplyShaped(row) && OwnerShaped(row)
    ensures Coalesced([row]) == [Merge(row, row)]
  {
    var link := row.link.value;
    SortedSingleton(row, RowKeys([row]));
    assert [row][..0] == [] && Bucket([], link) == [];
    assert Bucket([row], link) == [] + [row] == [row];
    assert Entries([row]) == [] + [Placeholder(link)] == [Placeholder(link)];
    LoneRowResolvesWhen(row);
    ResolvedSingleton(link, [row], Merge(row, row));
    SortedSingleton(Merge(row, row), ExchangeKeys([Merge(row, row)]));
  }

  lemma ResolvedSingleton(link: Link, rows: seq<Row>, e: Exchange)
    requires Resolve(Bucket(rows, link)) == Some(e)
    ensures Resolved([Placeholder(link)], rows) == [e]
  {
    assert [Placeholder(link)][..0] == [];
    assert Resolved([], rows) == [];
    assert [] + [e] == [e];
  }

  lemma OneLineQuotesNothing(s: string)
    requires '\n' !in s
    ensures !Contains(s, "\n" + MARKER)
  {
    forall i | 0 <= i <= |s| ensures !StartsWith(s[i..], "\n" + MARKER) {
      if StartsWith(s[i..], "\n" + MARKER) {
        PrefixHead(s, i, "\n" + MARKER);
        assert false;
      }
    }
  }

  lemma PrefixHead(s: string, i: nat, p: string)
    requires i <= |s| && p != "" && StartsWith(s[i..], p)
    ensures p[0] in s
  {
    assert s[i..][..|p|][0] == s[i];
  }

  /** The skipping of orphans has a gap: a lone linked row that begins with the reply marker comes
      back as an exchange with its own text twice. */
  lemma LoneReplyPairsWithItself(id: string, link: Link, stamp: nat)
    ensures var row := Row(id, "Maez: yes", Some(link), None, None, None, "", stamp);
      Coalesced([row]) == [Merge(row, row)] && Merge(row, row).content == "Maez: yes" + "\n" + "Maez: yes"
  {
    var row := Row(id, "Maez: yes", Some(link), None, None, None, "", stamp);
    assert row.content[..5] == MARKER;
    OneLineQuotesNothing(row.content);
    LoneCoalesced(row);
  }
}
