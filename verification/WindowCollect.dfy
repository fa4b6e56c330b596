/** Two-pass collection of a window's accessibility tree (scripts/atspi_window_probe.py,
    `collect_window`). A node carries what the toolkit would answer when asked about it. */
module WindowCollect {
  import opened Wrappers
  import opened PixelGeometry

  const MAX_NODES := 256
  const MAX_FIELDS := 512
  const MAX_FIELD_CHARS := 512
  const MAX_TOTAL_CHARS := 16_384
  const MAX_DOCUMENT_REFS := 32
  const MAX_DOCUMENT_ATTRIBUTE_QUERIES := 64

  datatype Literal = Absent | Text(value: string) | TooLong | Broken

  /** States and bounds; `rect` is None when it is not a tuple of four integers. */
  datatype Meta = Meta(showing: bool, visible: bool, rect: Option<Rect>)

  /** `readable` says whether the document attributes answer at all, `refs` is None when one of them is
      malformed or over-long; `badRefs` is the status in both cases. `countable` says whether
      child_count answers sensibly; `meta` is None when states or bounds cannot be read. */
  datatype Node = Node(
    readable: bool,
    refs: Option<seq<string>>,
    badRefs: Status,
    queries: nat,
    countable: bool,
    children: seq<Node>,
    meta: Option<Meta>,
    literals: seq<Literal>)  // name, text, value

  datatype Status =
    FieldLimitExceeded | ProtocolInvalid | BoundsUnresolvable | NoVisibleNodes | ExcludedByPolicy(reason: string)

  // ----- trees --------------------------------------------------------------------------------------

  function Size(n: Node): (s: nat)
    ensures s >= 1
    decreases n, 1
  {
    1 + Sizes(n.children)
  }

  function Sizes(ns: seq<Node>): (s: nat)
    ensures s >= |ns|
    decreases ns, 0
  {
    if ns == [] then 0 else Size(ns[0]) + Sizes(ns[1..])
  }

  /** Every node of a subtree, as often as it occurs. */
  function Nodes(n: Node): multiset<Node>
    decreases n, 1
  {
    multiset{n} + NodesOf(n.children)
  }

  function NodesOf(ns: seq<Node>): multiset<Node>
    decreases ns, 0
  {
    if ns == [] then multiset{} else Nodes(ns[0]) + NodesOf(ns[1..])
  }

  /** Level order: the head of the queue, then what is behind it, then its children. */
  function LevelOrder(queue: seq<Node>): seq<Node>
    decreases Sizes(queue)
  {
    if queue == [] then []
    else
      SizesOfConcat(queue[1..], queue[0].children);
      assert Sizes(queue) == 1 + Sizes(queue[0].children) + Sizes(queue[1..]);
      [queue[0]] + LevelOrder(queue[1..] + queue[0].children)
  }

  function ChildrenOf(ns: seq<Node>): seq<Node> {
    if ns == [] then [] else ns[0].children + ChildrenOf(ns[1..])
  }

  /** The law of the order: whatever stands first in the queue comes first, and its children come behind everything
      that was waiting. */
  lemma {:induction false} LevelsComeInOrder(a: seq<Node>, b: seq<Node>)
    ensures LevelOrder(a + b) == a + LevelOrder(b + ChildrenOf(a))
    decreases |a|
  {
    if a == [] {
      assert a + b == b && b + ChildrenOf(a) == b;
    } else {
      var x, rest := a[0], a[1..];
      assert (a + b)[1..] + x.children == rest + (b + x.children);
      LevelsComeInOrder(rest, b + x.children);
      assert b + x.children + ChildrenOf(rest) == b + (x.children + ChildrenOf(rest));
    }
  }

  /** So the walk is level by level: a whole level, then the order of all its children. */
  lemma LevelByLevel(level: seq<Node>)
    ensures LevelOrder(level) == level + LevelOrder(ChildrenOf(level))
    ensures LevelOrder([]) == []
    ensures forall n: Node :: ChildrenOf([n]) == n.children
  {
    LevelsComeInOrder(level, []);
    assert level + [] == level && [] + ChildrenOf(level) == ChildrenOf(level);
    forall n: Node ensures ChildrenOf([n]) == n.children {
      assert [n][1..] == [];
    }
  }

  /** Document queries and references of whole subtrees. */
  function QueriesBelow(ns: seq<Node>): nat
    decreases ns
  {
    if ns == [] then 0 else ns[0].queries + QueriesBelow(ns[0].children) + QueriesBelow(ns[1..])
  }

  function RefsBelow(ns: seq<Node>): nat
    decreases ns
  {
    if ns == [] then 0 else |OwnRefs(ns[0])| + RefsBelow(ns[0].children) + RefsBelow(ns[1..])
  }

  /** Every node below answers, and none is excluded by policy. */
  predicate AllAnswer(ns: seq<Node>, exclusion: seq<string> -> Option<string>)
    decreases ns
  {
    ns == [] || (NodeAnswers(ns[0], exclusion) && AllAnswer(ns[0].children, exclusion) && AllAnswer(ns[1..], exclusion))
  }

  /** Nothing but its size can get this tree refused in the first pass. */
  predicate Quiet(root: Node, exclusion: seq<string> -> Option<string>) {
    && AllAnswer([root], exclusion)
    && QueriesBelow([root]) <= MAX_DOCUMENT_ATTRIBUTE_QUERIES
    && RefsBelow([root]) <= MAX_DOCUMENT_REFS
  }

  lemma {:induction false} BelowOfConcat(a: seq<Node>, b: seq<Node>, exclusion: seq<string> -> Option<string>)
    ensures QueriesBelow(a + b) == QueriesBelow(a) + QueriesBelow(b)
    ensures RefsBelow(a + b) == RefsBelow(a) + RefsBelow(b)
    ensures AllAnswer(a, exclusion) && AllAnswer(b, exclusion) ==> AllAnswer(a + b, exclusion)
    decreases |a|
  {
    if a == [] {
      assert a + b == b;
    } else {
      assert (a + b)[1..] == a[1..] + b;
      BelowOfConcat(a[1..], b, exclusion);
    }
  }

  lemma {:induction false} SizesOfConcat(a: seq<Node>, b: seq<Node>)
    ensures Sizes(a + b) == Sizes(a) + Sizes(b)
    ensures NodesOf(a + b) == NodesOf(a) + NodesOf(b)
    decreases |a|
  {
    if a == [] {
      assert a + b == b;
    } else {
      assert (a + b)[1..] == a[1..] + b;
      SizesOfConcat(a[1..], b);
    }
  }

  // ----- metadata ---------------------------------------------------------------------------------------

  datatype Reason = BoundsUnresolved | NotShowing | NotVisible | OutOfBounds

  datatype Fate = Included(region: CropBox) | Excluded(reason: Reason)

  datatype Record = Record(node: Node, region: CropBox)

  /** The native window and the logical root rectangle that stands for it. */
  datatype View = View(geometry: Geometry, calibration: Option<Calibration>, root: Rect) {
    predicate Valid() {
      geometry.Valid()
    }

    /** The root rectangle scales to the native window exactly. */
    predicate Admitted()
      requires Valid()
    {
      RootMatches(root, geometry, calibration)
    }
  }

  predicate RootMatches(r: Rect, g: Geometry, given: Option<Calibration>)
    requires g.Valid()
  {
    && r.width > 0 && r.height > 0
    && ResolveCalibration(g, given).Some?
    && var c := ResolveCalibration(g, given).value;
       && ScaleCeil(c.x + r.width, g.num, g.den) - ScaleFloor(c.x, g.num, g.den) == g.width
       && ScaleCeil(c.y + r.height, g.num, g.den) - ScaleFloor(c.y, g.num, g.den) == g.height
  }

  predicate InsideWindow(r: Rect, root: Rect) {
    && r.width > 0 && r.height > 0
    && r.x < root.width && r.y < root.height && r.x + r.width > 0 && r.y + r.height > 0
  }

  function FateOf(n: Node, v: View): Fate
    requires v.Valid()
  {
    if n.meta.None? then Excluded(BoundsUnresolved)
    else if !n.meta.value.showing then Excluded(NotShowing)
    else if !n.meta.value.visible then Excluded(NotVisible)
    else if n.meta.value.rect.None? then Excluded(BoundsUnresolved)
    else if !InsideWindow(n.meta.value.rect.value, v.root) then Excluded(OutOfBounds)
    else
      var region := NativeRegion(n.meta.value.rect.value, v.geometry, v.calibration);
      if region.None? then Excluded(BoundsUnresolved) else Included(region.value)
  }

  /** Every fate, spelled out in the order in which the questions are asked. */
  lemma FateMeans(n: Node, v: View)
    requires v.Valid()
    ensures n.meta.None? ==> FateOf(n, v) == Excluded(BoundsUnresolved)
    ensures n.meta.Some? ==>
      var m := n.meta.value;
      && (!m.showing ==> FateOf(n, v) == Excluded(NotShowing))
      && (m.showing && !m.visible ==> FateOf(n, v) == Excluded(NotVisible))
      && (m.showing && m.visible && m.rect.None? ==> FateOf(n, v) == Excluded(BoundsUnresolved))
    ensures n.meta.Some? && n.meta.value.showing && n.meta.value.visible && n.meta.value.rect.Some? ==>
      var r, native := n.meta.value.rect.value, NativeRegion(n.meta.value.rect.value, v.geometry, v.calibration);
      && ((r.width <= 0 || r.height <= 0 || r.x >= v.root.width || r.y >= v.root.height ||
           r.x + r.width <= 0 || r.y + r.height <= 0) <==>
          FateOf(n, v) == Excluded(OutOfBounds))
      && (FateOf(n, v) == Excluded(OutOfBounds) ||
          FateOf(n, v) == if native.None? then Excluded(BoundsUnresolved) else Included(native.value))
  {
  }

  /** An admitted root is nonempty and covers the native window to the pixel. */
  lemma AdmittedMeans(v: View)
    requires v.Valid()
    ensures v.Admitted() <==>
      && v.root.width > 0 && v.root.height > 0 && ResolveCalibration(v.geometry, v.calibration).Some?
      && var c, g := ResolveCalibration(v.geometry, v.calibration).value, v.geometry;
         && ScaleCeil(c.x + v.root.width, g.num, g.den) == g.x + g.width
         && ScaleCeil(c.y + v.root.height, g.num, g.den) == g.y + g.height
  {
    if ResolveCalibration(v.geometry, v.calibration).Some? {
      CalibrationAgrees(v.geometry, v.calibration);
    }
  }

  function AsRecord(n: Node, v: View): seq<Record>
    requires v.Valid()
  {
    match FateOf(n, v) case Included(region) => [Record(n, region)] case Excluded(_) => []
  }

  function AsExcluded(n: Node, v: View): multiset<Reason>
    requires v.Valid()
  {
    match FateOf(n, v) case Included(_) => multiset{} case Excluded(reason) => multiset{reason}
  }

  predicate OnScreen(n: Node, v: View) {
    && n.meta.Some? && n.meta.value.showing && n.meta.value.visible
    && n.meta.value.rect.Some? && InsideWindow(n.meta.value.rect.value, v.root)
  }

  /** In an admitted window every logical rectangle that reaches into it has a native region: the
      refusal behind the window check never fires, and nodes are taken exactly by what they report. */
  lemma IncludedWhenOnScreen(n: Node, v: View)
    requires v.Valid()
    ensures v.Admitted() ==> (FateOf(n, v).Included? <==> OnScreen(n, v))
    ensures FateOf(n, v).Included? ==> OnScreen(n, v)
    ensures FateOf(n, v).Included? ==>
      NativeRegion(n.meta.value.rect.value, v.geometry, v.calibration) == Some(FateOf(n, v).region)
  {
    if v.Admitted() && OnScreen(n, v) {
      InsideHasRegion(n.meta.value.rect.value, v);
    }
  }

  lemma InsideHasRegion(r: Rect, v: View)
    requires v.Valid() && v.Admitted() && InsideWindow(r, v.root)
    ensures NativeRegion(r, v.geometry, v.calibration).Some?
  {
    var g := v.geometry;
    var c := ResolveCalibration(g, v.calibration).value;
    CalibrationAgrees(g, v.calibration);
    ReachesIn(c.x, r.x, r.width, v.root.width, g.num, g.den);
    ReachesIn(c.y, r.y, r.height, v.root.height, g.num, g.den);
    RegionExistsExactly(r, g, v.calibration);
  }

  lemma ReachesIn(origin: int, x: int, width: int, whole: int, num: int, den: int)
    requires num > 0 && den > 0 && x < whole && x + width > 0
    ensures Exact(origin + x, num, den) < ScaleCeil(origin + whole, num, den) as real
    ensures ScaleFloor(origin, num, den) as real < Exact(origin + x + width, num, den)
  {
    ExactIsStrict(origin + x, origin + whole, num, den);
    ScaleIsTight(origin + whole, num, den);
    ExactIsStrict(origin, origin + x + width, num, den);
    ScaleIsTight(origin, num, den);
  }

  // ----- the first pass -------------------------------------------------------------------------------

  /** The policy's verdict on a node's references; nodes without any are not asked about. */
  predicate Passed(n: Node, exclusion: seq<string> -> Option<string>) {
    n.readable && n.refs.Some? && (n.refs.value == [] || exclusion(n.refs.value).None?)
  }

  predicate NodeAnswers(n: Node, exclusion: seq<string> -> Option<string>) {
    Passed(n, exclusion) && n.countable
  }

  function RefsOf(order: seq<Node>): seq<string> {
    if order == [] then []
    else RefsOf(order[..|order| - 1]) + OwnRefs(order[|order| - 1])
  }

  function OwnRefs(n: Node): seq<string> {
    if n.refs.Some? then n.refs.value else []
  }

  function QueriesOf(order: seq<Node>): nat {
    if order == [] then 0 else QueriesOf(order[..|order| - 1]) + order[|order| - 1].queries
  }

  function RecordsOf(order: seq<Node>, v: View): seq<Record>
    requires v.Valid()
  {
    if order == [] then []
    else RecordsOf(order[..|order| - 1], v) + AsRecord(order[|order| - 1], v)
  }

  function ExcludedOf(order: seq<Node>, v: View): multiset<Reason>
    requires v.Valid()
  {
    if order == [] then multiset{} else ExcludedOf(order[..|order| - 1], v) + AsExcluded(order[|order| - 1], v)
  }

  lemma SnocOfConcat<T>(a: seq<T>, b: seq<T>)
    requires b != []
    ensures (a + b)[..|a + b| - 1] == a + b[..|b| - 1] && (a + b)[|a + b| - 1] == b[|b| - 1]
  {
  }

  /** What the first pass gathers, by two laws: walks put together, and one visit. */
  lemma {:induction false} RefsOfConcat(a: seq<Node>, b: seq<Node>)
    ensures RefsOf(a + b) == RefsOf(a) + RefsOf(b)
  {
    if b == [] {
      assert a + b == a;
    } else {
      SnocOfConcat(a, b);
      RefsOfConcat(a, b[..|b| - 1]);
    }
  }

  lemma {:induction false} QueriesOfConcat(a: seq<Node>, b: seq<Node>)
    ensures QueriesOf(a + b) == QueriesOf(a) + QueriesOf(b)
  {
    if b == [] {
      assert a + b == a;
    } else {
      SnocOfConcat(a, b);
      QueriesOfConcat(a, b[..|b| - 1]);
    }
  }

  lemma {:induction false} RecordsOfConcat(a: seq<Node>, b: seq<Node>, v: View)
    requires v.Valid()
    ensures RecordsOf(a + b, v) == RecordsOf(a, v) + RecordsOf(b, v)
  {
    if b == [] {
      assert a + b == a;
    } else {
      SnocOfConcat(a, b);
      RecordsOfConcat(a, b[..|b| - 1], v);
    }
  }

  lemma {:induction false} ExcludedOfConcat(a: seq<Node>, b: seq<Node>, v: View)
    requires v.Valid()
    ensures ExcludedOf(a + b, v) == ExcludedOf(a, v) + ExcludedOf(b, v)
  {
    if b == [] {
      assert a + b == a;
    } else {
      SnocOfConcat(a, b);
      ExcludedOfConcat(a, b[..|b| - 1], v);
    }
  }

  lemma GatheredOfOne(n: Node, v: View)
    requires v.Valid()
    ensures RefsOf([n]) == (if n.refs.Some? then n.refs.value else []) && QueriesOf([n]) == n.queries
    ensures FateOf(n, v).Included? ==>
      RecordsOf([n], v) == [Record(n, FateOf(n, v).region)] && ExcludedOf([n], v) == multiset{}
    ensures FateOf(n, v).Excluded? ==> RecordsOf([n], v) == [] && ExcludedOf([n], v) == multiset{FateOf(n, v).reason}
  {
    assert [n][..0] == [];
  }

  lemma {:induction false} IncludedPlusExcluded(order: seq<Node>, v: View)
    requires v.Valid()
    ensures |RecordsOf(order, v)| + |ExcludedOf(order, v)| == |order|
  {
    if order == [] {
    } else {
      IncludedPlusExcluded(order[..|order| - 1], v);
    }
  }

  /** What one visit can refuse for, apart from too many children; `order` ends with the node. */
  predicate VisitFits(order: seq<Node>, exclusion: seq<string> -> Option<string>)
    requires order != []
  {
    && NodeAnswers(order[|order| - 1], exclusion)
    && QueriesOf(order) <= MAX_DOCUMENT_ATTRIBUTE_QUERIES
    && |RefsOf(order)| <= MAX_DOCUMENT_REFS
  }

  /** What the last visit of a walk refuses for, in the order in which the code asks. */
  function WhyNot(order: seq<Node>, exclusion: seq<string> -> Option<string>): (why: Option<Status>)
    requires order != []
    ensures why.None? <==> VisitFits(order, exclusion)
  {
    var n := order[|order| - 1];
    if !n.readable then Some(n.badRefs)
    else if QueriesOf(order) > MAX_DOCUMENT_ATTRIBUTE_QUERIES then Some(FieldLimitExceeded)
    else if n.refs.None? then Some(n.badRefs)
    else if n.refs.value != [] && exclusion(n.refs.value).Some? then
      Some(ExcludedByPolicy(exclusion(n.refs.value).value))
    else if |RefsOf(order)| > MAX_DOCUMENT_REFS then Some(FieldLimitExceeded)
    else if !n.countable then Some(ProtocolInvalid)
    else None
  }

  /** The policy's reason is given exactly for a node that answered within the query budget and was excluded; a node
      that does not answer, or answers badly, is told by its own status. */
  lemma RefusalIsTold(order: seq<Node>, n: Node, exclusion: seq<string> -> Option<string>, reason: string)
    ensures !n.readable ==> WhyNot(order + [n], exclusion) == Some(n.badRefs)
    ensures n.readable && QueriesOf(order) + n.queries > 64 ==>
      WhyNot(order + [n], exclusion) == Some(FieldLimitExceeded)
    ensures n.readable && QueriesOf(order) + n.queries <= 64 && n.refs.None? ==>
      WhyNot(order + [n], exclusion) == Some(n.badRefs)
    ensures n.readable && n.refs.Some? ==>
      (WhyNot(order + [n], exclusion) == Some(ExcludedByPolicy(reason)) <==>
       QueriesOf(order) + n.queries <= 64 && n.refs.value != [] && exclusion(n.refs.value) == Some(reason))
    ensures NodeAnswers(n, exclusion) && QueriesOf(order) + n.queries <= 64 && |RefsOf(order)| + |n.refs.value| > 32 ==>
      WhyNot(order + [n], exclusion) == Some(FieldLimitExceeded)
    ensures
      && n.readable && QueriesOf(order) + n.queries <= 64 && n.refs == Some([]) && |RefsOf(order)| <= 32
      && !n.countable ==>
      WhyNot(order + [n], exclusion) == Some(ProtocolInvalid)
  {
    assert (order + [n])[..|order|] == order;
  }

  /** Every visit so far went without refusal. */
  predicate AllFit(order: seq<Node>, exclusion: seq<string> -> Option<string>) {
    order == [] || (AllFit(order[..|order| - 1], exclusion) && VisitFits(order, exclusion))
  }

  /** When no visit refuses: every node answers in all three ways and passes the policy, and the walk as a whole asks
      at most 64 document queries and meets at most 32 references. */
  lemma {:induction false} FitMeans(order: seq<Node>, exclusion: seq<string> -> Option<string>)
    ensures AllFit(order, exclusion) <==>
      && (forall n :: n in order ==>
           n.readable && n.countable && n.refs.Some? && (n.refs.value == [] || exclusion(n.refs.value).None?))
      && QueriesOf(order) <= 64 && |RefsOf(order)| <= 32
  {
    if order != [] {
      var init, last := order[..|order| - 1], order[|order| - 1];
      FitMeans(init, exclusion);
      assert order == init + [last];
      assert QueriesOf(init) <= QueriesOf(order) && |RefsOf(init)| <= |RefsOf(order)|;
    }
  }

  /** Where the queue stands: `order` is what has been visited, oldest first. */
  ghost predicate Frontier(root: Node, order: seq<Node>, queue: seq<Node>) {
    && |order| + |queue| <= MAX_NODES
    && |order| + Sizes(queue) == Size(root)
    && multiset(order) + NodesOf(queue) == Nodes(root)
    && QueriesOf(order) + QueriesBelow(queue) == QueriesBelow([root])
    && |RefsOf(order)| + RefsBelow(queue) == RefsBelow([root])
  }

  lemma HeadOfQueue(queue: seq<Node>)
    requires queue != []
    ensures Sizes(queue) == 1 + Sizes(queue[0].children) + Sizes(queue[1..])
    ensures NodesOf(queue) == multiset{queue[0]} + NodesOf(queue[0].children) + NodesOf(queue[1..])
    ensures QueriesBelow(queue) == queue[0].queries + QueriesBelow(queue[0].children) + QueriesBelow(queue[1..])
    ensures RefsBelow(queue) == |OwnRefs(queue[0])| + RefsBelow(queue[0].children) + RefsBelow(queue[1..])
  {
  }

  lemma FrontierStep(root: Node, order: seq<Node>, queue: seq<Node>)
    requires Frontier(root, order, queue) && queue != []
    requires |queue[0].children| <= MAX_NODES - (|order| + 1) - (|queue| - 1)
    ensures Frontier(root, order + [queue[0]], queue[1..] + queue[0].children)
    ensures Sizes(queue[1..] + queue[0].children) < Sizes(queue)
  {
    var node, rest := queue[0], queue[1..];
    SizesOfConcat(rest, node.children);
    BelowOfConcat(rest, node.children, refs => None);
    HeadOfQueue(queue);
    OneMore(order, node);
    assert multiset(order + [node]) == multiset(order) + multiset{node};
  }

  /** Too many children to fit means the whole subtree does not fit. */
  lemma TooManyChildren(root: Node, order: seq<Node>, queue: seq<Node>)
    requires Frontier(root, order, queue) && queue != []
    requires |queue[0].children| > MAX_NODES - (|order| + 1) - (|queue| - 1)
    ensures Size(root) > MAX_NODES
  {
    HeadOfQueue(queue);
  }

  /** The invariant of the queue loop. */
  ghost predicate Reached(root: Node, order: seq<Node>, queue: seq<Node>, exclusion: seq<string> -> Option<string>) {
    && Frontier(root, order, queue)
    && order + LevelOrder(queue) == LevelOrder([root])
    && AllFit(order, exclusion)
    && (Quiet(root, exclusion) ==> AllAnswer(queue, exclusion))
  }

  lemma ReachedStep(root: Node, order: seq<Node>, queue: seq<Node>, exclusion: seq<string> -> Option<string>)
    requires Reached(root, order, queue, exclusion) && queue != [] && VisitFits(order + [queue[0]], exclusion)
    requires |queue[0].children| <= MAX_NODES - (|order| + 1) - (|queue| - 1)
    ensures Reached(root, order + [queue[0]], queue[1..] + queue[0].children, exclusion)
    ensures Sizes(queue[1..] + queue[0].children) < Sizes(queue)
  {
    FrontierStep(root, order, queue);
    LevelStep(order, queue, LevelOrder([root]));
    FitStep(order, queue[0], exclusion);
    if Quiet(root, exclusion) {
      AnswerStep(queue, exclusion);
    }
  }

  lemma LevelStep(order: seq<Node>, queue: seq<Node>, all: seq<Node>)
    requires queue != [] && order + LevelOrder(queue) == all
    ensures order + [queue[0]] + LevelOrder(queue[1..] + queue[0].children) == all
  {
    var later := LevelOrder(queue[1..] + queue[0].children);
    assert LevelOrder(queue) == [queue[0]] + later;
    assert order + ([queue[0]] + later) == order + [queue[0]] + later;
  }

  lemma FitStep(order: seq<Node>, node: Node, exclusion: seq<string> -> Option<string>)
    requires AllFit(order, exclusion) && VisitFits(order + [node], exclusion)
    ensures AllFit(order + [node], exclusion)
  {
    assert (order + [node])[..|order|] == order;
  }

  lemma AnswerStep(queue: seq<Node>, exclusion: seq<string> -> Option<string>)
    requires queue != [] && AllAnswer(queue, exclusion)
    ensures AllAnswer(queue[1..] + queue[0].children, exclusion)
  {
    BelowOfConcat(queue[1..], queue[0].children, exclusion);
  }

  /** The checks of one visit, in the order of the code. `forSize` marks a refusal for the children. */
  method Visit(node: Node, queries: nat, refs: seq<string>, room: int, exclusion: seq<string> -> Option<string>,
               ghost order: seq<Node>)
    returns (refused: Option<Status>, forSize: bool)
    requires QueriesOf(order) == queries && RefsOf(order) == refs
    ensures refused.None? <==>
      && NodeAnswers(node, exclusion) && queries + node.queries <= MAX_DOCUMENT_ATTRIBUTE_QUERIES
      && |refs| + |OwnRefs(node)| <= MAX_DOCUMENT_REFS && |node.children| <= room
    ensures forSize ==> refused == Some(FieldLimitExceeded) && |node.children| > room
    ensures refused.Some? && !forSize ==> refused == WhyNot(order + [node], exclusion)
  {
    OneMore(order, node);
    if !node.readable {
      return Some(node.badRefs), false;
    }
    if queries + node.queries > MAX_DOCUMENT_ATTRIBUTE_QUERIES {
      return Some(FieldLimitExceeded), false;
    }
    if node.refs.None? {
      return Some(node.badRefs), false;
    }
    var own := node.refs.value;
    if own != [] && exclusion(own).Some? {
      return Some(ExcludedByPolicy(exclusion(own).value)), false;
    }
    if |refs + own| > MAX_FIELDS || |refs + own| > MAX_DOCUMENT_REFS {
      return Some(FieldLimitExceeded), false;
    }
    if !node.countable {
      return Some(ProtocolInvalid), false;
    }
    if |node.children| > room {
      return Some(FieldLimitExceeded), true;
    }
    return None, false;
  }

  datatype FirstPass = Done(records: seq<Record>, excluded: multiset<Reason>) | Stopped(status: Status, forSize: bool)

  /** What the first pass promises. `order` is every node asked about. */
  ghost predicate IsFirstPass(root: Node, v: View, exclusion: seq<string> -> Option<string>, result: FirstPass,
                              order: seq<Node>)
    requires v.Valid()
  {
    && order <= LevelOrder([root]) && multiset(order) <= Nodes(root) && |order| <= MAX_NODES
    && (result.Done? ==>
         && order == LevelOrder([root]) && multiset(order) == Nodes(root) && |order| == Size(root)
         && result.records == RecordsOf(order, v) && result.excluded == ExcludedOf(order, v)
         && |result.records| + |result.excluded| == |order|
         && AllFit(order, exclusion))
    && (result.Stopped? && result.forSize ==> result.status == FieldLimitExceeded && Size(root) > MAX_NODES)
    && (result.Stopped? && !result.forSize ==> order != [] && WhyNot(order, exclusion) == Some(result.status))
    && (Quiet(root, exclusion) ==> (result.Done? <==> Size(root) <= MAX_NODES) && (result.Stopped? ==> result.forSize))
  }

  /** The walk visits every node of the window once. */
  lemma {:induction false} EveryNodeOnce(queue: seq<Node>)
    ensures |LevelOrder(queue)| == Sizes(queue) && multiset(LevelOrder(queue)) == NodesOf(queue)
    decreases Sizes(queue)
  {
    if queue != [] {
      HeadOfQueue(queue);
      SizesOfConcat(queue[1..], queue[0].children);
      EveryNodeOnce(queue[1..] + queue[0].children);
    }
  }

  /** The queue loop. A refusal for the size of the tree is told apart from all others. */
  method Preflight(root: Node, v: View, exclusion: seq<string> -> Option<string>)
    returns (result: FirstPass, order: seq<Node>)
    requires v.Valid()
    ensures IsFirstPass(root, v, exclusion, result, order)
  {
    var queue := [root];
    order := [];
    var records: seq<Record> := [];
    var excluded: multiset<Reason> := multiset{};
    var visited, documentQueries := 0, 0;
    var allRefs: seq<string> := [];
    StartFrontier(root);
    while queue != []
      invariant Reached(root, order, queue, exclusion)
      invariant Tallied(order, v, visited, documentQueries, allRefs, records, excluded)
      decreases Sizes(queue)
    {
      if visited >= MAX_NODES {
        assert false;
      }
      var node := queue[0];
      var room := MAX_NODES - (visited + 1) - (|queue| - 1);
      var refused, forSize := Visit(node, documentQueries, allRefs, room, exclusion, order);
      TallyStep(order, node, v, visited, documentQueries, allRefs, records, excluded);
      if refused.Some? {
        RefusedHere(root, v, order, queue, exclusion, refused.value, forSize);
        return Stopped(refused.value, forSize), order + [node];
      }
      ReachedStep(root, order, queue, exclusion);
      order := order + [node];
      visited := visited + 1;
      documentQueries := documentQueries + node.queries;
      allRefs := allRefs + node.refs.value;
      queue := queue[1..] + node.children;
      match FateOf(node, v) {
        case Included(region) => records := records + [Record(node, region)];
        case Excluded(reason) => excluded := excluded + multiset{reason};
      }
    }
    AllVisited(root, v, order, exclusion, excluded);
    result := Done(records, excluded);
  }

  lemma RefusedHere(root: Node, v: View, order: seq<Node>, queue: seq<Node>, exclusion: seq<string> -> Option<string>,
                    status: Status, forSize: bool)
    requires v.Valid() && Reached(root, order, queue, exclusion) && queue != []
    requires forSize ==> status == FieldLimitExceeded && |queue[0].children| > MAX_NODES - (|order| + 1) - (|queue| - 1)
    requires !forSize ==> WhyNot(order + [queue[0]], exclusion) == Some(status)
    ensures IsFirstPass(root, v, exclusion, Stopped(status, forSize), order + [queue[0]])
  {
    StillWithin(root, order, queue, exclusion);
    LevelStep(order, queue, LevelOrder([root]));
    if forSize {
      TooManyChildren(root, order, queue);
    }
  }

  lemma AllVisited(root: Node, v: View, order: seq<Node>, exclusion: seq<string> -> Option<string>,
                   excluded: multiset<Reason>)
    requires v.Valid() && Reached(root, order, [], exclusion) && excluded == ExcludedOf(order, v)
    ensures IsFirstPass(root, v, exclusion, Done(RecordsOf(order, v), excluded), order)
  {
    IncludedPlusExcluded(order, v);
    assert order + [] == order;
  }

  /** Every prefix of a walk that went without refusal did too. */
  lemma {:induction false} PrefixFits(order: seq<Node>, all: seq<Node>, exclusion: seq<string> -> Option<string>)
    requires order <= all && AllFit(all, exclusion) && order != []
    ensures VisitFits(order, exclusion)
    decreases |all|
  {
    if |order| < |all| {
      PrefixFits(order, all[..|all| - 1], exclusion);
    } else {
      assert order == all;
    }
  }

  /** The first pass ends well exactly on trees of at most MAX_NODES nodes whose visits all fit. */
  lemma DoneExactlyWhenFitting(root: Node, v: View, exclusion: seq<string> -> Option<string>, result: FirstPass,
                               order: seq<Node>)
    requires v.Valid() && IsFirstPass(root, v, exclusion, result, order)
    ensures result.Done? <==> Size(root) <= MAX_NODES && AllFit(LevelOrder([root]), exclusion)
  {
    if result.Stopped? && AllFit(LevelOrder([root]), exclusion) && order != [] {
      PrefixFits(order, LevelOrder([root]), exclusion);
    }
  }

  /** The counters of the queue loop against the visited nodes. */
  ghost predicate Tallied(order: seq<Node>, v: View, visited: int, queries: int, refs: seq<string>,
                          records: seq<Record>, excluded: multiset<Reason>)
    requires v.Valid()
  {
    && visited == |order| && queries == QueriesOf(order) && refs == RefsOf(order)
    && records == RecordsOf(order, v) && excluded == ExcludedOf(order, v)
  }

  lemma TallyStep(order: seq<Node>, node: Node, v: View, visited: int, queries: int, refs: seq<string>,
                  records: seq<Record>, excluded: multiset<Reason>)
    requires v.Valid() && Tallied(order, v, visited, queries, refs, records, excluded)
    ensures QueriesOf(order + [node]) == queries + node.queries
    ensures RefsOf(order + [node]) == refs + OwnRefs(node)
    ensures Tallied(order + [node], v, visited + 1, queries + node.queries, refs + OwnRefs(node),
                    records + AsRecord(node, v), excluded + AsExcluded(node, v))
  {
    OneMore(order, node);
    OneMoreKept(order, node, v);
  }

  lemma OneMoreKept(order: seq<Node>, node: Node, v: View)
    requires v.Valid()
    ensures RecordsOf(order + [node], v) == RecordsOf(order, v) + AsRecord(node, v)
    ensures ExcludedOf(order + [node], v) == ExcludedOf(order, v) + AsExcluded(node, v)
  {
    assert (order + [node])[..|order|] == order;
  }

  lemma OneMore(order: seq<Node>, node: Node)
    ensures QueriesOf(order + [node]) == QueriesOf(order) + node.queries
    ensures RefsOf(order + [node]) == RefsOf(order) + OwnRefs(node)
  {
    assert (order + [node])[..|order|] == order;
  }

  lemma StartFrontier(root: Node)
    ensures Frontier(root, [], [root]) && [] + LevelOrder([root]) == LevelOrder([root])
  {
    assert [root][1..] == [];
    assert Sizes([root]) == Size(root) + Sizes([]);
    assert NodesOf([root]) == Nodes(root) + NodesOf([]);
  }

  /** The node at the head of the queue is new, and on a quiet tree it is visited without refusal. */
  lemma StillWithin(root: Node, order: seq<Node>, queue: seq<Node>, exclusion: seq<string> -> Option<string>)
    requires Frontier(root, order, queue) && queue != []
    ensures multiset(order + [queue[0]]) <= Nodes(root) && |order| + 1 <= MAX_NODES
    ensures Quiet(root, exclusion) && AllAnswer(queue, exclusion) ==> VisitFits(order + [queue[0]], exclusion)
  {
    var node := queue[0];
    assert NodesOf(queue) == multiset{node} + NodesOf(node.children) + NodesOf(queue[1..]);
    assert (order + [node])[..|order|] == order;
    assert QueriesBelow(queue) >= node.queries;
    assert RefsBelow(queue) >= |OwnRefs(node)|;
  }

  // ----- the second pass ----------------------------------------------------------------------------------

  datatype Kind = Name | TextKind | Value | DocumentUri

  datatype Fact = Fact(kind: Kind, value: string, region: CropBox)

  function KindAt(i: nat): Kind {
    if i == 0 then Name else if i == 1 then TextKind else Value
  }

  /** The three literals of a node, absent and empty ones skipped, then its references. */
  function LiteralFacts(n: Node, region: CropBox, upTo: nat): seq<Fact>
    requires upTo <= |n.literals|
  {
    if upTo == 0 then []
    else
      var l := n.literals[upTo - 1];
      LiteralFacts(n, region, upTo - 1) +
      (if l.Text? && l.value != "" then [Fact(KindAt(upTo - 1), l.value, region)] else [])
  }

  function RefFacts(refs: seq<string>, region: CropBox): seq<Fact> {
    seq(|refs|, i requires 0 <= i < |refs| => Fact(DocumentUri, refs[i], region))
  }

  function RecordFacts(r: Record): seq<Fact> {
    LiteralFacts(r.node, r.region, |r.node.literals|) + RefFacts(OwnRefs(r.node), r.region)
  }

  function RefCount(records: seq<Record>): nat {
    if records == [] then 0 else RefCount(records[..|records| - 1]) + |OwnRefs(records[|records| - 1].node)|
  }

  function FactsOf(records: seq<Record>): seq<Fact> {
    if records == [] then []
    else FactsOf(records[..|records| - 1]) + RecordFacts(records[|records| - 1])
  }

  function Chars(facts: seq<Fact>): nat {
    if facts == [] then 0 else Chars(facts[..|facts| - 1]) + |facts[|facts| - 1].value|
  }

  lemma {:induction false} CharsOfConcat(a: seq<Fact>, b: seq<Fact>)
    ensures Chars(a + b) == Chars(a) + Chars(b)
  {
    if b == [] {
      assert a + b == a;
    } else {
      assert (a + b)[..|a + b| - 1] == a + b[..|b| - 1];
      CharsOfConcat(a, b[..|b| - 1]);
    }
  }

  lemma CharsOfOne(f: Fact)
    ensures Chars([f]) == |f.value|
  {
    assert [f][..0] == [];
  }

  /** The facts, by two laws: records put together, and one record with its three literals. */
  lemma {:induction false} FactsOfConcat(a: seq<Record>, b: seq<Record>)
    ensures FactsOf(a + b) == FactsOf(a) + FactsOf(b)
  {
    if b == [] {
      assert a + b == a;
    } else {
      SnocOfConcat(a, b);
      FactsOfConcat(a, b[..|b| - 1]);
      RegroupFacts(FactsOf(a), FactsOf(b[..|b| - 1]), RecordFacts(b[|b| - 1]));
    }
  }

  lemma RegroupFacts(a: seq<Fact>, b: seq<Fact>, c: seq<Fact>)
    ensures (a + b) + c == a + (b + c)
  {
  }

  lemma {:induction false} RefCountOfConcat(a: seq<Record>, b: seq<Record>)
    ensures RefCount(a + b) == RefCount(a) + RefCount(b)
  {
    if b == [] {
      assert a + b == a;
    } else {
      SnocOfConcat(a, b);
      RefCountOfConcat(a, b[..|b| - 1]);
    }
  }

  lemma FactsOfOne(r: Record, name: string, text: string, value: string, refs: seq<string>)
    requires r.node.literals == [Text(name), Text(text), Text(value)] && r.node.refs == Some(refs)
    ensures FactsOf([r]) ==
      (if name == "" then [] else [Fact(Name, name, r.region)]) +
      (if text == "" then [] else [Fact(TextKind, text, r.region)]) +
      (if value == "" then [] else [Fact(Value, value, r.region)]) +
      seq(|refs|, i requires 0 <= i < |refs| => Fact(DocumentUri, refs[i], r.region))
    ensures RefCount([r]) == |refs|
  {
    assert [r][..0] == [];
    assert LiteralFacts(r.node, r.region, 0) == [];
    assert LiteralFacts(r.node, r.region, 1) == (if name == "" then [] else [Fact(Name, name, r.region)]);
    assert LiteralFacts(r.node, r.region, 2) ==
      LiteralFacts(r.node, r.region, 1) + (if text == "" then [] else [Fact(TextKind, text, r.region)]);
    assert LiteralFacts(r.node, r.region, 3) ==
      LiteralFacts(r.node, r.region, 2) + (if value == "" then [] else [Fact(Value, value, r.region)]);
  }

  /** An absent literal contributes exactly what an empty one does. */
  lemma {:induction false} AbsentIsEmpty(n: Node, m: Node, region: CropBox, upTo: nat)
    requires upTo <= |n.literals| == |m.literals|
    requires forall i :: 0 <= i < upTo ==>
      n.literals[i] == m.literals[i] || (n.literals[i].Absent? && m.literals[i] == Text(""))
    ensures LiteralFacts(n, region, upTo) == LiteralFacts(m, region, upTo)
  {
    if upTo > 0 {
      AbsentIsEmpty(n, m, region, upTo - 1);
    }
  }

  predicate Readable(n: Node) {
    forall i :: 0 <= i < |n.literals| ==>
      n.literals[i].Absent? || (n.literals[i].Text? && |n.literals[i].value| <= MAX_FIELD_CHARS)
  }

  predicate WithinLimits(facts: seq<Fact>) {
    |facts| <= MAX_FIELDS && Chars(facts) <= MAX_TOTAL_CHARS
  }

  /** Read the literals of one record. */
  method ReadRecord(r: Record) returns (facts: seq<Fact>, refused: Option<Status>)
    ensures refused.None? <==> Readable(r.node)
    ensures refused.None? ==> facts == RecordFacts(r)
  {
    facts := [];
    var n := r.node;
    for i := 0 to |n.literals|
      invariant facts == LiteralFacts(n, r.region, i)
      invariant forall j :: 0 <= j < i ==>
        n.literals[j].Absent? || (n.literals[j].Text? && |n.literals[j].value| <= MAX_FIELD_CHARS)
    {
      match n.literals[i] {
        case TooLong => return facts, Some(FieldLimitExceeded);
        case Broken => return facts, Some(ProtocolInvalid);
        case Absent =>
        case Text(value) =>
          if value != "" {
            if |value| > MAX_FIELD_CHARS { return facts, Some(FieldLimitExceeded); }
            facts := facts + [Fact(KindAt(i), value, r.region)];
          }
      }
    }
    facts := facts + RefFacts(OwnRefs(n), r.region);
    refused := None;
  }

  datatype Collection = Collected(facts: seq<Fact>, included: nat, excluded: multiset<Reason>) | Refusal(status: Status)

  lemma {:induction false} FactsGrow(records: seq<Record>, k: nat)
    requires k <= |records|
    ensures |FactsOf(records[..k])| <= |FactsOf(records)| && Chars(FactsOf(records[..k])) <= Chars(FactsOf(records))
  {
    if k == |records| {
      assert records[..k] == records;
    } else {
      var init := records[..|records| - 1];
      FactsGrow(init, k);
      assert init[..k] == records[..k];
      CharsOfConcat(FactsOf(init), RecordFacts(records[|records| - 1]));
    }
  }

  predicate AllReadable(records: seq<Record>) {
    forall i :: 0 <= i < |records| ==> Readable(records[i].node)
  }

  lemma FactsSnoc(records: seq<Record>, i: nat)
    requires i < |records|
    ensures FactsOf(records[..i + 1]) == FactsOf(records[..i]) + RecordFacts(records[i])
    ensures Chars(FactsOf(records[..i + 1])) == Chars(FactsOf(records[..i])) + Chars(RecordFacts(records[i]))
  {
    assert records[..i + 1][..i] == records[..i];
    CharsOfConcat(FactsOf(records[..i]), RecordFacts(records[i]));
  }

  /** Where the literal loop stands after `read` records. */
  ghost predicate ReadSoFar(records: seq<Record>, read: nat, facts: seq<Fact>, totalChars: int) {
    && read <= |records|
    && facts == FactsOf(records[..read]) && totalChars == Chars(facts)
    && WithinLimits(facts) && AllReadable(records[..read])
  }

  lemma ReadStep(records: seq<Record>, read: nat, facts: seq<Fact>, totalChars: int, more: seq<Fact>)
    requires ReadSoFar(records, read, facts, totalChars) && read < |records|
    requires Readable(records[read].node) && more == RecordFacts(records[read])
    ensures Chars(facts + more) == totalChars + Chars(more)
    ensures WithinLimits(facts + more) ==> ReadSoFar(records, read + 1, facts + more, totalChars + Chars(more))
    ensures !WithinLimits(facts + more) ==> !WithinLimits(FactsOf(records))
  {
    FactsSnoc(records, read);
    FactsGrow(records, read + 1);
    CharsOfConcat(facts, more);
    ReadableSnoc(records, read);
  }

  lemma ReadableSnoc(records: seq<Record>, i: nat)
    requires i < |records|
    ensures AllReadable(records[..i + 1]) <==> AllReadable(records[..i]) && Readable(records[i].node)
    ensures AllReadable(records) ==> Readable(records[i].node)
  {
    assert records[..i + 1] == records[..i] + [records[i]];
  }

  lemma ReadAll(records: seq<Record>, facts: seq<Fact>, totalChars: int)
    requires ReadSoFar(records, |records|, facts, totalChars)
    ensures facts == FactsOf(records) && WithinLimits(FactsOf(records)) && AllReadable(records)
  {
    assert records[..|records|] == records;
  }

  /** The literal loop; `read` is how many records it asked for literals. */
  method ReadRecords(records: seq<Record>) returns (facts: seq<Fact>, refused: Option<Status>, read: nat)
    ensures read <= |records|
    ensures refused.None? <==> AllReadable(records) && WithinLimits(FactsOf(records))
    ensures refused.None? ==> facts == FactsOf(records)
  {
    facts, read := [], 0;
    var totalChars := 0;
    while read < |records|
      invariant ReadSoFar(records, read, facts, totalChars)
    {
      var more;
      more, refused := ReadRecord(records[read]);
      if refused.Some? {
        return facts, refused, read + 1;
      }
      ReadStep(records, read, facts, totalChars, more);
      read := read + 1;
      facts := facts + more;
      totalChars := totalChars + Chars(more);
      if |facts| > MAX_FIELDS || totalChars > MAX_TOTAL_CHARS {
        return facts, Some(FieldLimitExceeded), read;
      }
    }
    ReadAll(records, facts, totalChars);
    refused := None;
  }

  lemma {:induction false} VisitedPassed(order: seq<Node>, exclusion: seq<string> -> Option<string>, i: nat)
    requires AllFit(order, exclusion) && i < |order|
    ensures Passed(order[i], exclusion)
  {
    if i == |order| - 1 {
    } else {
      VisitedPassed(order[..|order| - 1], exclusion, i);
    }
  }

  lemma AllVisitedPassed(root: Node, order: seq<Node>, exclusion: seq<string> -> Option<string>)
    requires multiset(order) == Nodes(root) && AllFit(order, exclusion)
    ensures forall n :: n in Nodes(root) ==> Passed(n, exclusion)
  {
    forall n | n in Nodes(root) ensures Passed(n, exclusion) {
      assert n in multiset(order);
      var i :| 0 <= i < |order| && order[i] == n;
      VisitedPassed(order, exclusion, i);
    }
  }

  /** Everything collection asks of a window, apart from the calibration of its root. */
  ghost predicate Collectable(root: Node, v: View, exclusion: seq<string> -> Option<string>)
    requires v.Valid()
  {
    var records := RecordsOf(LevelOrder([root]), v);
    && Size(root) <= MAX_NODES && AllFit(LevelOrder([root]), exclusion)
    && 3 * |records| + RefCount(records) <= MAX_FIELDS
    && AllReadable(records) && WithinLimits(FactsOf(records)) && FactsOf(records) != []
  }

  /** What is asked of a window, in numbers. */
  lemma CollectableMeans(root: Node, v: View, exclusion: seq<string> -> Option<string>, order: seq<Node>,
                         records: seq<Record>, facts: seq<Fact>)
    requires v.Valid() && order == LevelOrder([root]) && records == RecordsOf(order, v) && facts == FactsOf(records)
    ensures Collectable(root, v, exclusion) <==>
      && Size(root) <= 256 && QueriesOf(order) <= 64 && |RefsOf(order)| <= 32
      && (forall n :: n in order ==>
           n.readable && n.countable && n.refs.Some? && (n.refs.value == [] || exclusion(n.refs.value).None?))
      && 3 * |records| + RefCount(records) <= 512
      && (forall r :: r in records ==> forall i :: 0 <= i < |r.node.literals| ==>
           r.node.literals[i].Absent? || (r.node.literals[i].Text? && |r.node.literals[i].value| <= 512))
      && 0 < |facts| <= 512 && Chars(facts) <= 16384
  {
    FitMeans(order, exclusion);
    ReadableMeans(records);
  }

  lemma ReadableMeans(records: seq<Record>)
    ensures AllReadable(records) <==> forall r :: r in records ==> forall i :: 0 <= i < |r.node.literals| ==>
      r.node.literals[i].Absent? || (r.node.literals[i].Text? && |r.node.literals[i].value| <= 512)
  {
    if AllReadable(records) {
      forall r | r in records ensures Readable(r.node) {
        var k :| 0 <= k < |records| && records[k] == r;
      }
    } else {
      var k :| 0 <= k < |records| && !Readable(records[k].node);
      assert records[k] in records;
    }
  }

  /** Both passes. `read` counts the records whose literals were asked for. */
  method CollectWindow(root: Node, g: Geometry, calibration: Option<Calibration>, rootRect: Option<Rect>,
                       exclusion: seq<string> -> Option<string>)
    returns (result: Collection, read: nat)
    requires g.Valid()
    // No literal is read unless the policy passed every node of the window.
    ensures read > 0 ==> forall n :: n in Nodes(root) ==> Passed(n, exclusion)
    ensures result.Collected? <==>
      rootRect.Some? && RootMatches(rootRect.value, g, calibration) &&
      Collectable(root, View(g, calibration, rootRect.value), exclusion)
    ensures result.Collected? ==>
      var order, v := LevelOrder([root]), View(g, calibration, rootRect.value);
      && result.facts == FactsOf(RecordsOf(order, v))
      && result.included == |RecordsOf(order, v)| && result.excluded == ExcludedOf(order, v)
      && result.included + |result.excluded| == Size(root)
    ensures result.Collected? ==>
      && Size(root) <= 256 && 0 < |result.facts| <= 512 && Chars(result.facts) <= 16384
      && rootRect.value.width > 0 && rootRect.value.height > 0
    ensures Size(root) > 256 ==> result.Refusal?
    ensures rootRect.None? || !RootMatches(rootRect.value, g, calibration) ==> result == Refusal(BoundsUnresolvable)
    ensures rootRect.Some? && (rootRect.value.width <= 0 || rootRect.value.height <= 0) ==>
      result == Refusal(BoundsUnresolvable)
    // A window that passes the first pass and holds nothing to read is told apart from a refused one.
    ensures rootRect.Some? && RootMatches(rootRect.value, g, calibration) ==>
      var order, v := LevelOrder([root]), View(g, calibration, rootRect.value);
      Size(root) <= 256 && AllFit(order, exclusion) && RecordsOf(order, v) == [] ==> result == Refusal(NoVisibleNodes)
    ensures (exists n :: n in LevelOrder([root]) && (!n.readable || n.refs.None? || !n.countable)) ==> result.Refusal?
  {
    read := 0;
    FitMeans(LevelOrder([root]), exclusion);
    if rootRect.None? || !RootMatches(rootRect.value, g, calibration) {
      return Refusal(BoundsUnresolvable), read;
    }
    result, read := CollectInside(root, View(g, calibration, rootRect.value), exclusion);
  }

  method CollectInside(root: Node, v: View, exclusion: seq<string> -> Option<string>)
    returns (result: Collection, read: nat)
    requires v.Valid()
    ensures read > 0 ==> forall n :: n in Nodes(root) ==> Passed(n, exclusion)
    ensures result.Collected? <==> Collectable(root, v, exclusion)
    ensures
      && Size(root) <= MAX_NODES && AllFit(LevelOrder([root]), exclusion)
      && RecordsOf(LevelOrder([root]), v) == [] ==>
      result == Refusal(NoVisibleNodes)
    ensures result.Collected? ==>
      && result.facts == FactsOf(RecordsOf(LevelOrder([root]), v))
      && result.included == |RecordsOf(LevelOrder([root]), v)| && result.excluded == ExcludedOf(LevelOrder([root]), v)
      && result.included + |result.excluded| == Size(root)
  {
    read := 0;
    var first, order := Preflight(root, v, exclusion);
    DoneExactlyWhenFitting(root, v, exclusion, first, order);
    if first.Stopped? {
      return Refusal(first.status), read;
    }
    AllVisitedPassed(root, order, exclusion);
    result, read := ReadKept(first.records, first.excluded);
  }

  /** The second pass over the records the first one kept. */
  method ReadKept(records: seq<Record>, excluded: multiset<Reason>) returns (result: Collection, read: nat)
    ensures result.Collected? <==>
      && 3 * |records| + RefCount(records) <= MAX_FIELDS
      && AllReadable(records) && WithinLimits(FactsOf(records)) && FactsOf(records) != []
    ensures result.Collected? ==> result == Collected(FactsOf(records), |records|, excluded)
    ensures records == [] ==> result == Refusal(NoVisibleNodes)
  {
    read := 0;
    if 3 * |records| + RefCount(records) > MAX_FIELDS {
      return Refusal(FieldLimitExceeded), read;
    }
    var facts, refused;
    facts, refused, read := ReadRecords(records);
    if refused.Some? {
      return Refusal(refused.value), read;
    }
    if facts == [] {
      return Refusal(NoVisibleNodes), read;
    }
    result := Collected(facts, |records|, excluded);
  }

  // ----- what is collected lies on screen -----------------------------------------------------------------

  lemma {:induction false} RecordsAreOnScreen(order: seq<Node>, v: View, i: nat)
    requires v.Valid() && i < |RecordsOf(order, v)|
    ensures var r := RecordsOf(order, v)[i];
      && r.node in order && OnScreen(r.node, v)
      && NativeRegion(r.node.meta.value.rect.value, v.geometry, v.calibration) == Some(r.region)
  {
    var init, last := order[..|order| - 1], order[|order| - 1];
    if i < |RecordsOf(init, v)| {
      RecordsAreOnScreen(init, v, i);
      assert RecordsOf(order, v)[i] == RecordsOf(init, v)[i];
    } else {
      IncludedWhenOnScreen(last, v);
    }
  }

  lemma {:induction false} FactComesFrom(records: seq<Record>, i: nat) returns (k: nat)
    requires i < |FactsOf(records)|
    ensures k < |records| && FactsOf(records)[i].region == records[k].region
    ensures FactsOf(records)[i] in RecordFacts(records[k])
  {
    var init, last := records[..|records| - 1], records[|records| - 1];
    if i < |FactsOf(init)| {
      k := FactComesFrom(init, i);
    } else {
      k := |records| - 1;
      OwnRegion(last, i - |FactsOf(init)|);
    }
  }

  lemma OwnRegion(r: Record, i: nat)
    requires i < |RecordFacts(r)|
    ensures RecordFacts(r)[i].region == r.region
  {
    LiteralRegion(r.node, r.region, |r.node.literals|);
  }

  lemma {:induction false} LiteralRegion(n: Node, region: CropBox, upTo: nat)
    requires upTo <= |n.literals|
    ensures forall i :: 0 <= i < |LiteralFacts(n, region, upTo)| ==> LiteralFacts(n, region, upTo)[i].region == region
  {
    if upTo == 0 {
    } else {
      LiteralRegion(n, region, upTo - 1);
    }
  }

  /** Every fact comes from a node that is showing, visible and reaches into the window, and its
      region is a nonempty box inside the native window. */
  lemma FactsAreOnScreen(order: seq<Node>, v: View, i: nat)
    requires v.Valid() && i < |FactsOf(RecordsOf(order, v))|
    ensures var f, crop := FactsOf(RecordsOf(order, v))[i], v.geometry.Crop();
      && (exists r :: r in RecordsOf(order, v) && f in RecordFacts(r) && r.node in order && OnScreen(r.node, v))
      && crop.left <= f.region.left < f.region.right <= crop.right
      && crop.top <= f.region.top < f.region.bottom <= crop.bottom
  {
    var records := RecordsOf(order, v);
    var k := FactComesFrom(records, i);
    RecordsAreOnScreen(order, v, k);
    RegionCoversTightly(records[k].node.meta.value.rect.value, v.geometry, v.calibration);
    assert records[k] in records;
  }
}
