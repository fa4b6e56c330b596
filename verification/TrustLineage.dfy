/** Worst-ancestor trust over the three-tier memory store (memory/memory_manager.py).

    Rows carry a trust label and the list of rows they were derived from. Chroma collections are
    maps from ids to rows; the fresh ids that `uuid4` would invent are parameters. */
module TrustLineage {
  import opened Wrappers

  type Id = string

  // ----- labels -------------------------------------------------------------------------------

  datatype Tier = Untrusted | SelfObserved | Observed | Lived | Covenant

  datatype Source =
    Introspection | UserUtterance | ToolObservation | ExternalWeb | ClaudeTierResponse | SelfWebClaim | System

  /** What a row's metadata says under `trust_tier`: nothing (or something falsy), a member of the
      enum, or a stray text, which a free-form metadata dictionary can plant. */
  datatype Label = Unknown | Known(tier: Tier) | Stray(text: string)

  function Rank(t: Tier): nat {
    match t
    case Untrusted => 0
    case SelfObserved => 1
    case Observed => 2
    case Lived => 3
    case Covenant => 4
  }

  const TRUST_TIER_ORDER: seq<Tier> := [Untrusted, SelfObserved, Observed, Lived, Covenant]

  lemma TierIsListed(t: Tier)
    ensures TRUST_TIER_ORDER[Rank(t)] == t
  {
  }

  function DefaultTier(s: Source): Tier {
    match s
    case Introspection => SelfObserved
    case UserUtterance => Lived
    case ToolObservation => Observed
    case ExternalWeb => Untrusted
    case ClaudeTierResponse => Untrusted
    case SelfWebClaim => Untrusted
    case System => Covenant
  }

  /** `w` is the worst known tier among `labels`; None when no label is known. */
  ghost predicate IsWorst(labels: seq<Label>, w: Option<Tier>) {
    match w
    case None => forall i :: 0 <= i < |labels| ==> !labels[i].Known?
    case Some(t) =>
      && Known(t) in labels
      && forall i :: 0 <= i < |labels| && labels[i].Known? ==> Rank(t) <= Rank(labels[i].tier)
  }

  function Worst(labels: seq<Label>): (w: Option<Tier>)
    ensures IsWorst(labels, w)
  {
    if labels == [] then None
    else
      var rest := Worst(labels[1..]);
      match labels[0]
      case Known(t) => if rest.None? || Rank(t) <= Rank(rest.value) then Some(t) else rest
      case _ => rest
  }

  lemma WorstIsUnique(labels: seq<Label>, v: Option<Tier>, w: Option<Tier>)
    requires IsWorst(labels, v) && IsWorst(labels, w)
    ensures v == w
  {
    if v.Some? && w.Some? {
      var i :| 0 <= i < |labels| && labels[i] == Known(v.value);
      var j :| 0 <= j < |labels| && labels[j] == Known(w.value);
      assert Rank(v.value) <= Rank(w.value) <= Rank(v.value);
    }
  }

  /** The search the code runs: the first tier of the order that any ancestor carries. */
  method WorstKnownTier(labels: seq<Label>) returns (w: Option<Tier>)
    ensures w == Worst(labels)
    ensures IsWorst(labels, w)
    ensures w == Some(Untrusted) <==> Known(Untrusted) in labels
    ensures w == Some(SelfObserved) <==> Known(Untrusted) !in labels && Known(SelfObserved) in labels
    ensures w == Some(Observed) <==>
      Known(Untrusted) !in labels && Known(SelfObserved) !in labels && Known(Observed) in labels
    ensures w == Some(Lived) <==>
      && Known(Untrusted) !in labels && Known(SelfObserved) !in labels && Known(Observed) !in labels
      && Known(Lived) in labels
  {
    for i := 0 to |TRUST_TIER_ORDER|
      invariant forall j :: 0 <= j < i ==> Known(TRUST_TIER_ORDER[j]) !in labels
    {
      if Known(TRUST_TIER_ORDER[i]) in labels {
        w := Some(TRUST_TIER_ORDER[i]);
        forall k | 0 <= k < |labels| && labels[k].Known?
          ensures Rank(w.value) <= Rank(labels[k].tier)
        {
          TierIsListed(labels[k].tier);
        }
        WorstIsUnique(labels, w, Worst(labels));
        return;
      }
    }
    w := None;
    forall k | 0 <= k < |labels|
      ensures !labels[k].Known?
    {
      if labels[k].Known? {
        TierIsListed(labels[k].tier);
        assert false;
      }
    }
    WorstIsUnique(labels, w, Worst(labels));
  }

  // ----- rows and archives --------------------------------------------------------------------

  /** `promotedFrom` is None for a fresh write. `ancestorTiers` is the persisted lineage trail.
      `integrity` and `wing` are the two fields later tagging may rewrite. */
  datatype Row = Row(
    content: string,
    tier: Label,
    source: Option<Source>,
    promotedFrom: Option<seq<Id>>,
    ancestorTiers: seq<Label>,
    integrity: string,
    wing: string)

  datatype Archive = Archive(raw: map<Id, Row>, daily: map<Id, Row>, core: map<Id, Row>)

  const EMPTY_ARCHIVE := Archive(map[], map[], map[])

  /** Raw wins over core, core over daily, should one id ever stand in two collections. */
  function Find(a: Archive, id: Id): Option<Row> {
    if id in a.raw then Some(a.raw[id])
    else if id in a.core then Some(a.core[id])
    else if id in a.daily then Some(a.daily[id])
    else None
  }

  predicate Fresh(a: Archive, id: Id) {
    Find(a, id).None?
  }

  function LabelOf(a: Archive, id: Id): Label {
    match Find(a, id)
    case None => Unknown
    case Some(row) => row.tier
  }

  function Labels(a: Archive, ids: seq<Id>): (labels: seq<Label>)
    ensures |labels| == |ids|
    ensures forall i :: 0 <= i < |ids| ==> labels[i] == LabelOf(a, ids[i])
  {
    seq(|ids|, i requires 0 <= i < |ids| => LabelOf(a, ids[i]))
  }

  predicate Resolvable(a: Archive, ids: seq<Id>) {
    forall i :: 0 <= i < |ids| ==> ids[i] in a.raw || ids[i] in a.core
  }

  /** The trust and source metadata of one write: an explicit tier wins, a source alone brings its
      conservative default, neither leaves the row legacy. */
  function ProvenanceLabel(source: Option<Source>, tier: Option<Tier>, otherwise: Label): Label {
    if tier.Some? then Known(tier.value)
    else if source.Some? then Known(DefaultTier(source.value))
    else otherwise
  }

  // ----- operations, as functions of the archive -------------------------------------------------

  datatype Outcome =
    | Stored
    | NothingToStore
    | NoCitation            // promoted_from == []
    | UnresolvableCitation  // some cited id is in neither raw nor core
    | PromotionBlocked      // an untrusted ancestor and no opt-in
    | WritesForbidden       // embedding contract drift

  function PromotedRow(a: Archive, content: string, source: Option<Source>, cited: seq<Id>): Row {
    var worst := Worst(Labels(a, cited));
    Row(content,
        if worst.Some? then Known(worst.value) else Unknown,
        if worst.None? then None else if source.None? then Some(Introspection) else source,
        Some(cited), Labels(a, cited), "", "")
  }

  function FreshRow(content: string, source: Option<Source>, tier: Option<Tier>, otherwise: Label): Row {
    Row(content, ProvenanceLabel(source, tier, otherwise), source, None, [], "", "")
  }

  function StoreCoreOutcome(a: Archive, cited: Option<seq<Id>>, optIn: bool, writable: bool): Outcome {
    if cited.Some? && cited.value == [] then NoCitation
    else if cited.Some? && !Resolvable(a, cited.value) then UnresolvableCitation
    else if cited.Some? && Worst(Labels(a, cited.value)) == Some(Untrusted) && !optIn then PromotionBlocked
    else if !writable then WritesForbidden
    else Stored
  }

  function AfterStoreCore(a: Archive, id: Id, content: string, source: Option<Source>, tier: Option<Tier>,
                          cited: Option<seq<Id>>, optIn: bool, writable: bool): Archive
  {
    if StoreCoreOutcome(a, cited, optIn, writable) != Stored then a
    else
      var row := if cited.Some? then PromotedRow(a, content, source, cited.value)
                 else FreshRow(content, source, tier, Unknown);
      a.(core := a.core[id := row])
  }

  /** The ids that survive the untrusted filter, in input order. */
  function Survivors(a: Archive, candidates: seq<Id>): seq<Id> {
    if candidates == [] then []
    else if LabelOf(a, candidates[0]) == Known(Untrusted) then Survivors(a, candidates[1..])
    else [candidates[0]] + Survivors(a, candidates[1..])
  }

  function ConsolidationOutcome(a: Archive, candidates: seq<Id>, summary: Option<string>, writable: bool): Outcome {
    if Survivors(a, candidates) == [] then NothingToStore
    else if summary.None? || summary.value == "" then NothingToStore
    else if !writable then WritesForbidden
    else Stored
  }

  function AfterConsolidation(a: Archive, id: Id, candidates: seq<Id>, summary: Option<string>,
                              writable: bool): Archive {
    if ConsolidationOutcome(a, candidates, summary, writable) != Stored then a
    else
      var kept := Survivors(a, candidates);
      a.(daily := a.daily[id := PromotedRow(a, summary.value, None, kept)])
  }

  /** Survivors by their laws: each candidate alone, and lists put together. */
  lemma {:induction false} SurvivorsOfConcat(a: Archive, x: seq<Id>, y: seq<Id>)
    ensures Survivors(a, x + y) == Survivors(a, x) + Survivors(a, y)
  {
    if x == [] {
      assert x + y == y;
    } else {
      assert (x + y)[1..] == x[1..] + y;
      SurvivorsOfConcat(a, x[1..], y);
    }
  }

  lemma SurvivorsOfOne(a: Archive, c: Id)
    ensures Survivors(a, [c]) == if LabelOf(a, c) == Known(Untrusted) then [] else [c]
  {
    assert [c][1..] == [];
  }

  lemma {:induction false} SurvivorsMeans(a: Archive, candidates: seq<Id>)
    ensures forall x :: x in Survivors(a, candidates) <==> x in candidates && LabelOf(a, x) != Known(Untrusted)
  {
    if candidates == [] {
    } else {
      SurvivorsMeans(a, candidates[1..]);
      assert candidates == [candidates[0]] + candidates[1..];
    }
  }

  lemma SurvivorsOfRaw(a: Archive, candidates: seq<Id>)
    requires forall i :: 0 <= i < |candidates| ==> candidates[i] in a.raw
    ensures forall x :: x in Survivors(a, candidates) <==> x in candidates && a.raw[x].tier != Known(Untrusted)
  {
    SurvivorsMeans(a, candidates);
    forall x ensures x in Survivors(a, candidates) <==> x in candidates && a.raw[x].tier != Known(Untrusted) {
      assert x in candidates ==> LabelOf(a, x) == a.raw[x].tier;
    }
  }

  datatype Collection = RawRows | DailyRows | CoreRows

  function TagRows(rows: map<Id, Row>, ids: set<Id>, integrity: string): map<Id, Row> {
    map id | id in rows :: if id in ids then rows[id].(integrity := integrity) else rows[id]
  }

  function AfterTag(a: Archive, where: Collection, ids: set<Id>, integrity: string): Archive {
    match where
    case RawRows => a.(raw := TagRows(a.raw, ids, integrity))
    case DailyRows => a.(daily := TagRows(a.daily, ids, integrity))
    case CoreRows => a.(core := TagRows(a.core, ids, integrity))
  }

  /** One batch of wing migration: rows of the batch that have no wing yet get one. */
  function AfterWings(a: Archive, wings: map<Id, string>): Archive {
    a.(raw := map id | id in a.raw ::
          if id in wings && a.raw[id].wing == "" then a.raw[id].(wing := wings[id]) else a.raw[id])
  }

  lemma SomeSurvive(a: Archive, candidates: seq<Id>)
    ensures Survivors(a, candidates) != [] <==>
      exists i :: 0 <= i < |candidates| && LabelOf(a, candidates[i]) != Known(Untrusted)
  {
    SurvivorsMeans(a, candidates);
    if Survivors(a, candidates) != [] {
      var x := Survivors(a, candidates)[0];
      assert x in candidates;
    }
    if i :| 0 <= i < |candidates| && LabelOf(a, candidates[i]) != Known(Untrusted) {
      assert candidates[i] in Survivors(a, candidates);
    }
  }

  /** The gate, case by case, in terms of what the cited rows say. */
  lemma GateMeans(a: Archive, cited: seq<Id>, optIn: bool, writable: bool)
    ensures StoreCoreOutcome(a, Some(cited), optIn, writable) == NoCitation <==> cited == []
    ensures StoreCoreOutcome(a, Some(cited), optIn, writable) == UnresolvableCitation <==>
      exists i :: 0 <= i < |cited| && cited[i] !in a.raw && cited[i] !in a.core
    ensures StoreCoreOutcome(a, Some(cited), optIn, writable) == PromotionBlocked <==>
      && !optIn && (forall i :: 0 <= i < |cited| ==> cited[i] in a.raw || cited[i] in a.core)
      && exists i :: 0 <= i < |cited| &&
           (if cited[i] in a.raw then a.raw[cited[i]].tier else a.core[cited[i]].tier) == Known(Untrusted)
    ensures StoreCoreOutcome(a, Some(cited), optIn, writable) == Stored ==> writable
    ensures StoreCoreOutcome(a, Some(cited), optIn, writable) == WritesForbidden ==> !writable
    ensures StoreCoreOutcome(a, None, optIn, writable) == if writable then Stored else WritesForbidden
  {
    if cited != [] && Resolvable(a, cited) {
      GateReadsCitations(a, cited, writable);
      forall i | 0 <= i < |cited|
        ensures LabelOf(a, cited[i]) == if cited[i] in a.raw then a.raw[cited[i]].tier else a.core[cited[i]].tier
      {
      }
    }
  }

  /** Tagging rewrites the integrity of the named rows of one collection, wing migration the missing wings
      of raw rows, and neither anything else. */
  lemma TaggingMeans(a: Archive, ids: set<Id>, integrity: string)
    ensures AfterTag(a, RawRows, ids, integrity).daily == a.daily && AfterTag(a, RawRows, ids, integrity).core == a.core
    ensures AfterTag(a, DailyRows, ids, integrity).raw == a.raw && AfterTag(a, DailyRows, ids, integrity).core == a.core
    ensures AfterTag(a, CoreRows, ids, integrity).raw == a.raw && AfterTag(a, CoreRows, ids, integrity).daily == a.daily
    ensures AfterTag(a, RawRows, ids, integrity).raw == TagRows(a.raw, ids, integrity)
    ensures AfterTag(a, DailyRows, ids, integrity).daily == TagRows(a.daily, ids, integrity)
    ensures AfterTag(a, CoreRows, ids, integrity).core == TagRows(a.core, ids, integrity)
  {
  }

  lemma TagRowsMeans(ids: set<Id>, integrity: string)
    ensures forall rows: map<Id, Row> :: TagRows(rows, ids, integrity).Keys == rows.Keys
    ensures forall rows: map<Id, Row>, id :: id in rows ==>
      TagRows(rows, ids, integrity)[id] == (if id in ids then rows[id].(integrity := integrity) else rows[id])
  {
  }

  lemma WingsMeans(a: Archive, wings: map<Id, string>)
    ensures AfterWings(a, wings).daily == a.daily && AfterWings(a, wings).core == a.core
    ensures AfterWings(a, wings).raw.Keys == a.raw.Keys
    ensures forall id :: id in a.raw ==>
      AfterWings(a, wings).raw[id] ==
        (if id in wings && a.raw[id].wing == "" then a.raw[id].(wing := wings[id]) else a.raw[id])
  {
  }

  // ----- the store itself ---------------------------------------------------------------------

  class MemoryManager {
    var raw: map<Id, Row>
    var daily: map<Id, Row>
    var core: map<Id, Row>
    var writable: bool

    ghost function Contents(): Archive
      reads this
    {
      Archive(raw, daily, core)
    }

    constructor (contractHolds: bool)
      ensures Contents() == EMPTY_ARCHIVE && writable == contractHolds
    {
      raw, daily, core, writable := map[], map[], map[], contractHolds;
    }

    method Store(id: Id, content: string, source: Option<Source>, tier: Option<Tier>, planted: Label, wing: string)
      returns (outcome: Outcome)
      requires Fresh(Contents(), id)
      modifies this`raw
      ensures outcome ==
        if content == "" || content == "(empty response)" then NothingToStore
        else if !writable then WritesForbidden else Stored
      ensures Contents() == if outcome == Stored
        then old(Contents()).(raw := old(raw)[id := FreshRow(content, source, tier, planted).(wing := wing)])
        else old(Contents())
      // An explicit tier wins; a source alone brings its own; only without both does the metadata decide.
      ensures outcome == Stored ==> id in raw && (match (tier, source)
        case (Some(t), _) => raw[id].tier == Known(t)
        case (None, None) => raw[id].tier == planted
        case (None, Some(ExternalWeb)) => raw[id].tier == Known(Untrusted)
        case (None, Some(ClaudeTierResponse)) => raw[id].tier == Known(Untrusted)
        case (None, Some(SelfWebClaim)) => raw[id].tier == Known(Untrusted)
        case (None, Some(Introspection)) => raw[id].tier == Known(SelfObserved)
        case (None, Some(ToolObservation)) => raw[id].tier == Known(Observed)
        case (None, Some(UserUtterance)) => raw[id].tier == Known(Lived)
        case (None, Some(System)) => raw[id].tier == Known(Covenant))
      ensures outcome == Stored ==> raw[id].content == content && raw[id].source == source && raw[id].promotedFrom.None?
    {
      if content == "" || content == "(empty response)" { return NothingToStore; }
      var tag := planted;
      if source.Some? && tier.None? { tag := Known(DefaultTier(source.value)); }
      if tier.Some? { tag := Known(tier.value); }
      if !writable { return WritesForbidden; }
      raw := raw[id := Row(content, tag, source, None, [], "", wing)];
      outcome := Stored;
    }

    /** A Telegram exchange: any text but the empty one is kept, and no free-form metadata comes with it. */
    method StoreTelegram(id: Id, content: string, source: Option<Source>, tier: Option<Tier>, wing: string)
      returns (outcome: Outcome)
      requires Fresh(Contents(), id)
      modifies this`raw
      ensures outcome == if content == "" then NothingToStore else if !writable then WritesForbidden else Stored
      ensures Contents() == if outcome == Stored
        then old(Contents()).(raw := old(raw)[id := FreshRow(content, source, tier, Unknown).(wing := wing)])
        else old(Contents())
      ensures outcome == Stored ==> id in raw && (match (tier, source)
        case (Some(t), _) => raw[id].tier == Known(t)
        case (None, None) => raw[id].tier == Unknown
        case (None, Some(ExternalWeb)) => raw[id].tier == Known(Untrusted)
        case (None, Some(ClaudeTierResponse)) => raw[id].tier == Known(Untrusted)
        case (None, Some(SelfWebClaim)) => raw[id].tier == Known(Untrusted)
        case (None, Some(Introspection)) => raw[id].tier == Known(SelfObserved)
        case (None, Some(ToolObservation)) => raw[id].tier == Known(Observed)
        case (None, Some(UserUtterance)) => raw[id].tier == Known(Lived)
        case (None, Some(System)) => raw[id].tier == Known(Covenant))
      ensures outcome == Stored ==> raw[id].content == content && raw[id].source == source && raw[id].promotedFrom.None?
    {
      if content == "" { return NothingToStore; }
      if !writable { return WritesForbidden; }
      raw := raw[id := Row(content, ProvenanceLabel(source, tier, Unknown), source, None, [], "", wing)];
      outcome := Stored;
    }

    /** Look every cited id up in raw, then in core; None as soon as one is in neither. */
    method ResolveAncestorLabels(ids: seq<Id>) returns (labels: Option<seq<Label>>)
      ensures labels.Some? <==> Resolvable(Contents(), ids)
      ensures labels.Some? ==> labels.value == Labels(Contents(), ids)
      ensures labels.None? <==> exists i :: 0 <= i < |ids| && ids[i] !in raw && ids[i] !in core
      ensures labels.Some? ==> forall i :: 0 <= i < |ids| ==>
        labels.value[i] == if ids[i] in raw then raw[ids[i]].tier else core[ids[i]].tier
    {
      var found := [];
      for i := 0 to |ids|
        invariant |found| == i
        invariant forall j :: 0 <= j < i ==> ids[j] in raw || ids[j] in core
        invariant forall j :: 0 <= j < i ==> found[j] == LabelOf(Contents(), ids[j])
      {
        if ids[i] in raw {
          found := found + [raw[ids[i]].tier];
        } else if ids[i] in core {
          found := found + [core[ids[i]].tier];
        } else {
          return None;
        }
      }
      labels := Some(found);
    }

    /** The promotion gate. */
    method StoreCore(id: Id, content: string, source: Option<Source>, tier: Option<Tier>,
                     cited: Option<seq<Id>>, optIn: bool)
      returns (outcome: Outcome)
      requires Fresh(Contents(), id)
      modifies this`core
      ensures outcome == StoreCoreOutcome(old(Contents()), cited, optIn, writable)
      ensures Contents() == AfterStoreCore(old(Contents()), id, content, source, tier, cited, optIn, writable)
      // A fresh core row is labelled like any fresh write ...
      ensures outcome == Stored && cited.None? ==> id in core && (match (tier, source)
        case (Some(t), _) => core[id].tier == Known(t)
        case (None, None) => core[id].tier == Unknown
        case (None, Some(ExternalWeb)) => core[id].tier == Known(Untrusted)
        case (None, Some(ClaudeTierResponse)) => core[id].tier == Known(Untrusted)
        case (None, Some(SelfWebClaim)) => core[id].tier == Known(Untrusted)
        case (None, Some(Introspection)) => core[id].tier == Known(SelfObserved)
        case (None, Some(ToolObservation)) => core[id].tier == Known(Observed)
        case (None, Some(UserUtterance)) => core[id].tier == Known(Lived)
        case (None, Some(System)) => core[id].tier == Known(Covenant))
      // ... and a promotion keeps what it was given, except tier and, for unknown ancestors, source.
      ensures outcome == Stored ==> id in core && core[id].content == content && core[id].promotedFrom == cited
      ensures outcome == Stored && cited.Some? ==>
        core[id].source ==
          (if core[id].tier == Unknown then None else if source.None? then Some(Introspection) else source)
    {
      var src, trust, lineage := source, tier, [];
      if cited.Some? {
        if cited.value == [] { return NoCitation; }
        var labels := ResolveAncestorLabels(cited.value);
        if labels.None? { return UnresolvableCitation; }
        var worst := WorstKnownTier(labels.value);
        if worst == Some(Untrusted) && !optIn { return PromotionBlocked; }
        if worst.Some? {
          trust := worst;
          if src.None? { src := Some(Introspection); }
        } else {
          src, trust := None, None;
        }
        lineage := labels.value;
      }
      if !writable { return WritesForbidden; }
      core := core[id := Row(content, ProvenanceLabel(src, trust, Unknown), src, cited, lineage, "", "")];
      outcome := Stored;
    }

    /** Split the candidates into survivors, their labels and the count of filtered rows. */
    method PartitionConsolidationInput(candidates: seq<Id>)
      returns (kept: seq<Id>, filtered: nat, labels: seq<Label>)
      requires forall i :: 0 <= i < |candidates| ==> candidates[i] in raw
      ensures kept == Survivors(Contents(), candidates)
      ensures |kept| + filtered == |candidates|
      ensures labels == Labels(Contents(), kept)
      ensures forall x :: x in kept <==> x in candidates && raw[x].tier != Known(Untrusted)
    {
      kept, filtered, labels := [], 0, [];
      for i := 0 to |candidates|
        invariant kept + Survivors(Contents(), candidates[i..]) == Survivors(Contents(), candidates)
        invariant |kept| + filtered == i
        invariant labels == Labels(Contents(), kept)
      {
        assert candidates[i..][0] == candidates[i] && candidates[i..][1..] == candidates[i + 1..];
        var tag := raw[candidates[i]].tier;
        if tag == Known(Untrusted) {
          filtered := filtered + 1;
        } else {
          kept := kept + [candidates[i]];
          labels := labels + [tag];
        }
      }
      assert candidates[|candidates|..] == [];
      SurvivorsOfRaw(Contents(), candidates);
    }

    /** The lineage part of the nightly job; `summary` is what the model calls returned. */
    method ConsolidateDaily(id: Id, candidates: seq<Id>, summary: Option<string>)
      returns (outcome: Outcome)
      requires Fresh(Contents(), id)
      requires forall i :: 0 <= i < |candidates| ==> candidates[i] in raw
      modifies this`daily
      ensures outcome == ConsolidationOutcome(old(Contents()), candidates, summary, writable)
      ensures Contents() == AfterConsolidation(old(Contents()), id, candidates, summary, writable)
      // Something is written exactly when a candidate survives, there is a summary, and writing is allowed.
      ensures outcome == Stored <==>
        && (exists i :: 0 <= i < |candidates| && raw[candidates[i]].tier != Known(Untrusted))
        && summary.Some? && summary.value != "" && writable
      ensures outcome == Stored ==>
        && id in daily && daily[id].content == summary.value
        && daily[id].source == (if daily[id].tier == Unknown then None else Some(Introspection))
        && daily[id].promotedFrom.Some?
        && forall x :: x in daily[id].promotedFrom.value <==> x in candidates && raw[x].tier != Known(Untrusted)
    {
      SurvivorsMeans(Contents(), candidates);
      SomeSurvive(Contents(), candidates);
      var kept, filtered, labels := PartitionConsolidationInput(candidates);
      if kept == [] { return NothingToStore; }
      if summary.None? || summary.value == "" { return NothingToStore; }
      var worst := WorstKnownTier(labels);
      var row := Row(summary.value, Unknown, None, Some(kept), labels, "", "");
      if worst.Some? {
        row := row.(tier := Known(worst.value), source := Some(Introspection));
      }
      if !writable { return WritesForbidden; }
      daily := daily[id := row];
      outcome := Stored;
    }
  }

  // ----- runs ---------------------------------------------------------------------------------

  datatype Op =
    | StoreRaw(id: Id, content: string, source: Option<Source>, tier: Option<Tier>, planted: Label, wing: string)
    | StoreExchange(id: Id, content: string, source: Option<Source>, tier: Option<Tier>, wing: string)
    | StoreCore(id: Id, content: string, source: Option<Source>, tier: Option<Tier>, cited: Option<seq<Id>>,
                optIn: bool)
    | Consolidate(id: Id, candidates: seq<Id>, summary: Option<string>)
    | QuietDay(id: Id, text: string)
    | TagIntegrity(where: Collection, ids: set<Id>, integrity: string)
    | MigrateWings(wings: map<Id, string>)

  /** Every write invents an id nobody holds; consolidation candidates come out of raw. */
  predicate Enabled(a: Archive, op: Op) {
    match op
    case StoreRaw(id, _, _, _, _, _) => Fresh(a, id)
    case StoreExchange(id, _, _, _, _) => Fresh(a, id)
    case StoreCore(id, _, _, _, _, _) => Fresh(a, id)
    case Consolidate(id, candidates, _) =>
      Fresh(a, id) && forall i :: 0 <= i < |candidates| ==> candidates[i] in a.raw
    case QuietDay(id, _) => Fresh(a, id)
    case TagIntegrity(_, _, _) => true
    case MigrateWings(_) => true
  }

  function Step(a: Archive, op: Op): Archive {
    match op
    case StoreRaw(id, content, source, tier, planted, wing) =>
      if content == "" || content == "(empty response)" then a
      else a.(raw := a.raw[id := FreshRow(content, source, tier, planted).(wing := wing)])
    case StoreExchange(id, content, source, tier, wing) =>
      if content == "" then a
      else a.(raw := a.raw[id := FreshRow(content, source, tier, Unknown).(wing := wing)])
    case StoreCore(id, content, source, tier, cited, optIn) =>
      AfterStoreCore(a, id, content, source, tier, cited, optIn, true)
    case Consolidate(id, candidates, summary) => AfterConsolidation(a, id, candidates, summary, true)
    case QuietDay(id, text) =>
      a.(daily := a.daily[id := FreshRow(text, Some(Introspection), Some(SelfObserved), Unknown)])
    case TagIntegrity(where, ids, integrity) => AfterTag(a, where, ids, integrity)
    case MigrateWings(wings) => AfterWings(a, wings)
  }

  function Run(ops: seq<Op>): Archive {
    if ops == [] then EMPTY_ARCHIVE else Step(Run(ops[..|ops| - 1]), ops[|ops| - 1])
  }

  predicate ValidRun(ops: seq<Op>) {
    ops == [] || (ValidRun(ops[..|ops| - 1]) && Enabled(Run(ops[..|ops| - 1]), ops[|ops| - 1]))
  }

  predicate OptsIn(op: Op) {
    op.StoreCore? && op.optIn
  }

  // ----- ancestry -----------------------------------------------------------------------------

  function Parents(a: Archive, id: Id): seq<Id> {
    match Find(a, id)
    case None => []
    case Some(row) => if row.promotedFrom.Some? then row.promotedFrom.value else []
  }

  predicate Derived(a: Archive, id: Id) {
    Find(a, id).Some? && Find(a, id).value.promotedFrom.Some?
  }

  /** `path` leads from `id` down to its last element through citations. */
  predicate Descent(a: Archive, id: Id, path: seq<Id>)
    decreases |path|
  {
    path != [] && path[0] in Parents(a, id) && (|path| > 1 ==> Descent(a, path[0], path[1..]))
  }

  ghost predicate Ancestor(a: Archive, id: Id, anc: Id) {
    exists path :: Descent(a, id, path) && path[|path| - 1] == anc
  }

  /** What every step keeps. Each derived row cites rows that stand in raw or core, its lineage
      trail still tells their labels, and its own label is the worst of that trail. */
  ghost predicate LineageHolds(a: Archive) {
    && (forall id :: id in a.raw ==> a.raw[id].promotedFrom.None?)
    && (forall id :: Derived(a, id) ==> RowHonest(a, Find(a, id).value))
  }

  ghost predicate RowHonest(a: Archive, row: Row)
    requires row.promotedFrom.Some?
  {
    && row.promotedFrom.value != []
    && Resolvable(a, row.promotedFrom.value)
    && row.ancestorTiers == Labels(a, row.promotedFrom.value)
    && row.tier == (match Worst(row.ancestorTiers) case None => Unknown case Some(t) => Known(t))
  }

  ghost predicate NothingUntrustedDerived(a: Archive) {
    forall id :: Derived(a, id) ==> LabelOf(a, id) != Known(Untrusted)
  }

  /** Whatever `a` can look up, `b` looks up with the same label and citations. */
  ghost predicate Extends(a: Archive, b: Archive) {
    forall id :: Find(a, id).Some? ==> Find(b, id).Some? && SameLineage(Find(a, id).value, Find(b, id).value)
  }

  predicate SameLineage(r: Row, s: Row) {
    r.tier == s.tier && r.promotedFrom == s.promotedFrom && r.ancestorTiers == s.ancestorTiers
  }

  /** No operation deletes a row, moves its label or rewrites its citations, and at most the row of
      the operation's own id is new. */
  lemma StepOnlyAdds(a: Archive, op: Op)
    requires Enabled(a, op)
    ensures Extends(a, Step(a, op))
    ensures forall id :: Find(Step(a, op), id).Some? && Fresh(a, id) ==>
      !op.TagIntegrity? && !op.MigrateWings? && id == op.id
    ensures forall id :: (id in a.raw || id in a.core) ==> id in Step(a, op).raw || id in Step(a, op).core
  {
    StepExtends(a, op);
    StepAddsItsOwn(a, op);
  }

  lemma StepExtends(a: Archive, op: Op)
    requires Enabled(a, op)
    ensures Extends(a, Step(a, op))
  {
    match op
    case StoreRaw(_, _, _, _, _, _) =>
    case StoreExchange(_, _, _, _, _) =>
    case StoreCore(_, _, _, _, _, _) =>
    case Consolidate(_, _, _) =>
    case QuietDay(_, _) =>
    case TagIntegrity(where, ids, integrity) => TaggingExtends(a, where, ids, integrity);
    case MigrateWings(wings) => WingsExtend(a, wings);
  }

  lemma TaggingExtends(a: Archive, where: Collection, ids: set<Id>, integrity: string)
    ensures Extends(a, AfterTag(a, where, ids, integrity))
  {
  }

  lemma WingsExtend(a: Archive, wings: map<Id, string>)
    ensures Extends(a, AfterWings(a, wings))
  {
  }

  lemma StepAddsItsOwn(a: Archive, op: Op)
    requires Enabled(a, op)
    ensures forall id :: Find(Step(a, op), id).Some? && Fresh(a, id) ==>
      !op.TagIntegrity? && !op.MigrateWings? && id == op.id
    ensures forall id :: (id in a.raw || id in a.core) ==> id in Step(a, op).raw || id in Step(a, op).core
  {
  }

  lemma SurvivorsAreTrusted(a: Archive, candidates: seq<Id>)
    ensures forall i :: 0 <= i < |Survivors(a, candidates)| ==>
      Survivors(a, candidates)[i] in candidates && LabelOf(a, Survivors(a, candidates)[i]) != Known(Untrusted)
  {
  }

  /** A row of `a` that is honest there is honest in every extension. */
  lemma HonestyCarriesOver(a: Archive, b: Archive, row: Row)
    requires Extends(a, b) && row.promotedFrom.Some? && RowHonest(a, row)
    requires forall id :: (id in a.raw || id in a.core) ==> id in b.raw || id in b.core
    ensures RowHonest(b, row)
  {
    assert Labels(b, row.promotedFrom.value) == Labels(a, row.promotedFrom.value);
  }

  /** The row a successful promotion or consolidation writes is honest where it is written. */
  lemma NewRowIsHonest(a: Archive, op: Op)
    requires op.StoreCore? || op.Consolidate?
    requires Enabled(a, op) && Derived(Step(a, op), op.id) && !Derived(a, op.id)
    ensures RowHonest(a, Find(Step(a, op), op.id).value)
    ensures LabelOf(Step(a, op), op.id) == Known(Untrusted) ==> OptsIn(op)
  {
    if op.Consolidate? {
      var kept := Survivors(a, op.candidates);
      SurvivorsAreTrusted(a, op.candidates);
      assert Find(Step(a, op), op.id).value == PromotedRow(a, op.summary.value, None, kept);
      forall i | 0 <= i < |kept| ensures kept[i] in a.raw {
        assert kept[i] in op.candidates;
      }
    }
  }

  lemma StepKeepsLineage(a: Archive, op: Op)
    requires LineageHolds(a) && Enabled(a, op)
    ensures LineageHolds(Step(a, op))
    ensures NothingUntrustedDerived(a) && !OptsIn(op) ==> NothingUntrustedDerived(Step(a, op))
  {
    var b := Step(a, op);
    StepOnlyAdds(a, op);
    forall id | Derived(b, id)
      ensures RowHonest(b, Find(b, id).value)
      ensures NothingUntrustedDerived(a) && !OptsIn(op) ==> LabelOf(b, id) != Known(Untrusted)
    {
      if Fresh(a, id) {
        NewRowIsHonest(a, op);
      } else {
        assert Derived(a, id);
      }
      HonestyCarriesOver(a, b, Find(b, id).value);
    }
  }

  lemma {:induction false} RunKeepsLineage(ops: seq<Op>)
    requires ValidRun(ops)
    ensures LineageHolds(Run(ops))
    ensures (forall i :: 0 <= i < |ops| ==> !OptsIn(ops[i])) ==> NothingUntrustedDerived(Run(ops))
  {
    if ops == [] {
    } else {
      RunKeepsLineage(ops[..|ops| - 1]);
      StepKeepsLineage(Run(ops[..|ops| - 1]), ops[|ops| - 1]);
    }
  }

  // ----- the ancestry theorems ------------------------------------------------------------------

  lemma {:induction false} LabelBoundsDescent(a: Archive, id: Id, path: seq<Id>)
    requires LineageHolds(a) && Descent(a, id, path) && LabelOf(a, path[|path| - 1]).Known?
    ensures LabelOf(a, id).Known? && Rank(LabelOf(a, id).tier) <= Rank(LabelOf(a, path[|path| - 1]).tier)
    decreases |path|
  {
    var row := Find(a, id).value;
    assert Derived(a, id) && RowHonest(a, row);
    var k :| 0 <= k < |row.promotedFrom.value| && row.promotedFrom.value[k] == path[0];
    if |path| > 1 {
      LabelBoundsDescent(a, path[0], path[1..]);
    }
    assert row.ancestorTiers[k] == LabelOf(a, path[0]);
  }

  lemma {:induction false} DescentCarriesOver(a: Archive, b: Archive, id: Id, path: seq<Id>)
    requires Extends(a, b) && Descent(a, id, path)
    ensures Descent(b, id, path)
    decreases |path|
  {
    if |path| == 1 {
    } else {
      DescentCarriesOver(a, b, path[0], path[1..]);
    }
  }

  /** A known label of a derived row is that of one of the rows it cites. */
  lemma KnownLabelIsCited(a: Archive, row: Row) returns (parent: Id)
    requires row.promotedFrom.Some? && RowHonest(a, row) && row.tier.Known?
    ensures parent in row.promotedFrom.value && LabelOf(a, parent) == row.tier && !Fresh(a, parent)
  {
    var k :| 0 <= k < |row.ancestorTiers| && row.ancestorTiers[k] == row.tier;
    parent := row.promotedFrom.value[k];
  }

  lemma DescentExtends(a: Archive, id: Id, parent: Id, rest: seq<Id>)
    requires parent in Parents(a, id) && Descent(a, parent, rest)
    ensures Descent(a, id, [parent] + rest)
  {
    assert ([parent] + rest)[1..] == rest;
  }

  /** Every known label of a derived row goes back, along citations, to a fresh write that carries
      exactly that label: the bound of LabelBoundsDescent is attained. */
  lemma {:induction false} KnownLabelHasRoot(ops: seq<Op>, id: Id) returns (path: seq<Id>)
    requires ValidRun(ops) && Derived(Run(ops), id) && LabelOf(Run(ops), id).Known?
    ensures Descent(Run(ops), id, path)
    ensures LabelOf(Run(ops), path[|path| - 1]) == LabelOf(Run(ops), id)
    ensures !Derived(Run(ops), path[|path| - 1]) && !Fresh(Run(ops), path[|path| - 1])
    decreases |ops|
  {
    var before, op := ops[..|ops| - 1], ops[|ops| - 1];
    var a, b := Run(before), Run(ops);
    StepOnlyAdds(a, op);
    if !Fresh(a, id) {
      path := KnownLabelHasRoot(before, id);
      DescentCarriesOver(a, b, id, path);
      DescentHasEnd(a, id, path);
    } else {
      NewRowIsHonest(a, op);
      var parent := KnownLabelIsCited(a, Find(b, id).value);
      if Derived(a, parent) {
        var rest := KnownLabelHasRoot(before, parent);
        DescentCarriesOver(a, b, parent, rest);
        DescentHasEnd(a, parent, rest);
        DescentExtends(b, id, parent, rest);
        path := [parent] + rest;
      } else {
        path := [parent];
      }
    }
  }

  lemma DescentHasEnd(a: Archive, id: Id, path: seq<Id>)
    requires Descent(a, id, path)
    ensures path != [] && Derived(a, id)
  {
  }

  /** In every run, a derived row's label is exactly the worst known label of its whole ancestry:
      no better than any known ancestor, equal to that of some fresh-written one, and unknown only
      when every ancestor is unknown. */
  lemma DerivedLabelIsWorstOfAncestry(ops: seq<Op>, id: Id)
    requires ValidRun(ops) && Derived(Run(ops), id)
    ensures forall anc :: Ancestor(Run(ops), id, anc) && LabelOf(Run(ops), anc).Known? ==>
      LabelOf(Run(ops), id).Known? && Rank(LabelOf(Run(ops), id).tier) <= Rank(LabelOf(Run(ops), anc).tier)
    ensures LabelOf(Run(ops), id).Known? ==>
      exists anc :: Ancestor(Run(ops), id, anc) && !Derived(Run(ops), anc) &&
        LabelOf(Run(ops), anc) == LabelOf(Run(ops), id)
    ensures !LabelOf(Run(ops), id).Stray?
  {
    var a := Run(ops);
    RunKeepsLineage(ops);
    assert RowHonest(a, Find(a, id).value);
    forall anc | Ancestor(a, id, anc) && LabelOf(a, anc).Known?
      ensures LabelOf(a, id).Known? && Rank(LabelOf(a, id).tier) <= Rank(LabelOf(a, anc).tier)
    {
      var path :| Descent(a, id, path) && path[|path| - 1] == anc;
      LabelBoundsDescent(a, id, path);
    }
    if LabelOf(a, id).Known? {
      var path := KnownLabelHasRoot(ops, id);
      assert Ancestor(a, id, path[|path| - 1]);
    }
  }

  lemma AncestorsOfTrusted(a: Archive, id: Id, anc: Id)
    requires LineageHolds(a) && Ancestor(a, id, anc)
    ensures Derived(a, id)
    ensures LabelOf(a, anc) == Known(Untrusted) ==> LabelOf(a, id) == Known(Untrusted)
  {
    var path :| Descent(a, id, path) && path[|path| - 1] == anc;
    DescentHasEnd(a, id, path);
    if LabelOf(a, anc) == Known(Untrusted) {
      LabelBoundsDescent(a, id, path);
    }
  }

  /** Without an opt-in anywhere in the run, nothing derived descends from untrusted material. */
  lemma NoLaunderingWithoutOptIn(ops: seq<Op>, id: Id, anc: Id)
    requires ValidRun(ops) && forall i :: 0 <= i < |ops| ==> !OptsIn(ops[i])
    requires Ancestor(Run(ops), id, anc)
    ensures LabelOf(Run(ops), anc) != Known(Untrusted)
  {
    RunKeepsLineage(ops);
    AncestorsOfTrusted(Run(ops), id, anc);
  }

  lemma ExtendsOn(a: Archive, b: Archive, c: Archive)
    requires Extends(a, b) && Extends(b, c)
    ensures Extends(a, c)
  {
    forall id | Find(a, id).Some? ensures Find(c, id).Some? && SameLineage(Find(a, id).value, Find(c, id).value) {
      assert Find(b, id).Some?;
    }
  }

  lemma {:induction false} RunExtends(ops: seq<Op>, k: nat)
    requires ValidRun(ops) && k <= |ops|
    ensures ValidRun(ops[..k]) && Extends(Run(ops[..k]), Run(ops))
  {
    if k == |ops| {
      assert ops[..k] == ops;
    } else {
      var before := ops[..|ops| - 1];
      RunExtends(before, k);
      assert before[..k] == ops[..k];
      StepOnlyAdds(Run(before), ops[|ops| - 1]);
      ExtendsOn(Run(ops[..k]), Run(before), Run(ops));
    }
  }

  /** A row written from the web, from another model's answer or from Maez's own claims about it, without a
      tier of its own, is untrusted from then on. */
  lemma WebRowIsUntrusted(ops: seq<Op>, k: nat)
    requires ValidRun(ops) && k < |ops|
    requires
      || (ops[k].StoreRaw? && ops[k].tier.None? && ops[k].content != "" && ops[k].content != "(empty response)")
      || (ops[k].StoreExchange? && ops[k].tier.None? && ops[k].content != "")
      || (ops[k].StoreCore? && ops[k].tier.None? && ops[k].cited.None?)
    requires ops[k].source == Some(ExternalWeb) || ops[k].source == Some(ClaudeTierResponse) ||
             ops[k].source == Some(SelfWebClaim)
    ensures LabelOf(Run(ops), ops[k].id) == Known(Untrusted)
  {
    var before := StepWithin(ops, k);
    StaysUntrusted(before, ops[k], Run(ops));
  }

  lemma StaysUntrusted(a: Archive, op: Op, b: Archive)
    requires op.StoreRaw? || op.StoreExchange? || op.StoreCore?
    requires Enabled(a, op) && op.tier.None? && op.source.Some? && DefaultTier(op.source.value) == Untrusted
    requires op.StoreCore? ==> op.cited.None?
    requires op.StoreRaw? ==> op.content != "" && op.content != "(empty response)"
    requires op.StoreExchange? ==> op.content != ""
    requires Extends(Step(a, op), b)
    ensures LabelOf(b, op.id) == Known(Untrusted)
  {
    WrittenUntrusted(a, op);
    LabelStays(Step(a, op), b, op.id);
  }

  /** The k-th step of a run, and what becomes of its archive. */
  lemma StepWithin(ops: seq<Op>, k: nat) returns (before: Archive)
    requires ValidRun(ops) && k < |ops|
    ensures Enabled(before, ops[k]) && Extends(Step(before, ops[k]), Run(ops))
  {
    before := Run(ops[..k]);
    RunExtends(ops, k + 1);
    OneStep(ops[..k + 1], ops[..k], ops[k]);
  }

  lemma OneStep(ops: seq<Op>, before: seq<Op>, op: Op)
    requires ops == before + [op] && ValidRun(ops)
    ensures ValidRun(before) && Enabled(Run(before), op) && Run(ops) == Step(Run(before), op)
  {
    assert ops[..|ops| - 1] == before;
  }

  lemma WrittenUntrusted(a: Archive, op: Op)
    requires op.StoreRaw? || op.StoreExchange? || op.StoreCore?
    requires Enabled(a, op) && op.tier.None? && op.source.Some? && DefaultTier(op.source.value) == Untrusted
    requires op.StoreCore? ==> op.cited.None?
    requires op.StoreRaw? ==> op.content != "" && op.content != "(empty response)"
    requires op.StoreExchange? ==> op.content != ""
    ensures Find(Step(a, op), op.id).Some? && LabelOf(Step(a, op), op.id) == Known(Untrusted)
  {
  }

  lemma LabelStays(a: Archive, b: Archive, id: Id)
    requires Extends(a, b) && Find(a, id).Some?
    ensures LabelOf(b, id) == LabelOf(a, id)
  {
  }

  /** In a run without opt-ins nothing derived descends from such a row. */
  lemma NothingDescendsFromTheWeb(ops: seq<Op>, k: nat, id: Id)
    requires ValidRun(ops) && k < |ops| && forall i :: 0 <= i < |ops| ==> !(ops[i].StoreCore? && ops[i].optIn)
    requires
      || (ops[k].StoreRaw? && ops[k].tier.None? && ops[k].content != "" && ops[k].content != "(empty response)")
      || (ops[k].StoreExchange? && ops[k].tier.None? && ops[k].content != "")
      || (ops[k].StoreCore? && ops[k].tier.None? && ops[k].cited.None?)
    requires ops[k].source == Some(ExternalWeb) || ops[k].source == Some(ClaudeTierResponse) ||
             ops[k].source == Some(SelfWebClaim)
    ensures !Ancestor(Run(ops), id, ops[k].id)
  {
    WebRowIsUntrusted(ops, k);
    if Ancestor(Run(ops), id, ops[k].id) {
      NoLaunderingWithoutOptIn(ops, id, ops[k].id);
      assert false;
    }
  }

  /** Daily rows never descend from untrusted material, opt-ins elsewhere or not. */
  lemma DailyRowsStayClean(ops: seq<Op>, id: Id, anc: Id)
    requires ValidRun(ops) && id in Run(ops).daily && Ancestor(Run(ops), id, anc)
    ensures anc in Run(ops).raw && LabelOf(Run(ops), anc) != Known(Untrusted)
  {
    DailyCitationsAreRaw(ops);
    RunKeepsLineage(ops);
    var a := Run(ops);
    var path :| Descent(a, id, path) && path[|path| - 1] == anc;
    RawIsTerminal(a, id, path);
  }

  lemma RawIsTerminal(a: Archive, id: Id, path: seq<Id>)
    requires LineageHolds(a) && Descent(a, id, path) && path[0] in a.raw
    ensures |path| == 1
  {
    if |path| > 1 {
      DescentHasEnd(a, path[0], path[1..]);
      assert false;
    }
  }

  /** Daily ids are nobody else's, and daily rows cite raw rows that are not untrusted. */
  ghost predicate DailyIsRaw(a: Archive) {
    && (forall id :: id in a.daily ==> id !in a.raw && id !in a.core)
    && (forall id, p :: id in a.daily && p in Parents(a, id) ==> p in a.raw && LabelOf(a, p) != Known(Untrusted))
  }

  lemma StepKeepsDailyRaw(a: Archive, op: Op)
    requires DailyIsRaw(a) && Enabled(a, op)
    ensures DailyIsRaw(Step(a, op))
  {
    var b := Step(a, op);
    StepExtends(a, op);
    StepKeepsDailyIds(a, op);
    forall id, p | id in b.daily && p in Parents(b, id)
      ensures p in b.raw && LabelOf(b, p) != Known(Untrusted)
    {
      if id in a.daily {
        assert Find(a, id).Some? && p in Parents(a, id);
      } else {
        NewDailyCites(a, op, id, p);
      }
      StaysRaw(a, op, p);
      assert Find(a, p).Some?;
    }
  }

  lemma StepKeepsDailyIds(a: Archive, op: Op)
    requires Enabled(a, op) && forall id :: id in a.daily ==> id !in a.raw && id !in a.core
    ensures forall id :: id in Step(a, op).daily ==> id !in Step(a, op).raw && id !in Step(a, op).core
  {
  }

  lemma StaysRaw(a: Archive, op: Op, p: Id)
    requires p in a.raw
    ensures p in Step(a, op).raw
  {
  }

  /** A new daily row cites only survivors of its night. */
  lemma NewDailyCites(a: Archive, op: Op, id: Id, p: Id)
    requires Enabled(a, op) && id in Step(a, op).daily && id !in a.daily && p in Parents(Step(a, op), id)
    requires id !in Step(a, op).raw && id !in Step(a, op).core
    ensures p in a.raw && LabelOf(a, p) != Known(Untrusted)
  {
    assert op.Consolidate?;
    SurvivorsAreTrusted(a, op.candidates);
    assert p in op.candidates;
  }

  lemma DailyCitationsAreRaw(ops: seq<Op>)
    requires ValidRun(ops)
    ensures forall id :: id in Run(ops).daily ==> id !in Run(ops).raw && id !in Run(ops).core
    ensures forall id, p :: id in Run(ops).daily && p in Parents(Run(ops), id) ==>
      p in Run(ops).raw && LabelOf(Run(ops), p) != Known(Untrusted)
  {
    DailyStaysRaw(ops);
  }

  lemma {:induction false} DailyStaysRaw(ops: seq<Op>)
    requires ValidRun(ops)
    ensures DailyIsRaw(Run(ops))
  {
    if ops == [] {
    } else {
      DailyStaysRaw(ops[..|ops| - 1]);
      StepKeepsDailyRaw(Run(ops[..|ops| - 1]), ops[|ops| - 1]);
    }
  }

  /** The gate reads direct citations only, and that is enough: it refuses exactly when some cited
      row is untrusted or descends from untrusted material. */
  lemma GateSeesWholeAncestry(ops: seq<Op>, cited: seq<Id>, writable: bool)
    requires ValidRun(ops) && cited != [] && Resolvable(Run(ops), cited)
    ensures StoreCoreOutcome(Run(ops), Some(cited), false, writable) == PromotionBlocked <==>
      exists i, anc :: 0 <= i < |cited| && LabelOf(Run(ops), anc) == Known(Untrusted) &&
        (anc == cited[i] || Ancestor(Run(ops), cited[i], anc))
  {
    var a := Run(ops);
    RunKeepsLineage(ops);
    GateReadsCitations(a, cited, writable);
    if i, anc :| 0 <= i < |cited| && LabelOf(a, anc) == Known(Untrusted) &&
                 (anc == cited[i] || Ancestor(a, cited[i], anc)) {
      if anc != cited[i] {
        AncestorsOfTrusted(a, cited[i], anc);
      }
    }
  }

  lemma GateReadsCitations(a: Archive, cited: seq<Id>, writable: bool)
    requires cited != [] && Resolvable(a, cited)
    ensures StoreCoreOutcome(a, Some(cited), false, writable) == PromotionBlocked <==>
      exists i :: 0 <= i < |cited| && LabelOf(a, cited[i]) == Known(Untrusted)
  {
    if i :| 0 <= i < |cited| && LabelOf(a, cited[i]) == Known(Untrusted) {
      assert Labels(a, cited)[i] == Known(Untrusted);
    }
    if Worst(Labels(a, cited)) == Some(Untrusted) {
      var i :| 0 <= i < |cited| && Labels(a, cited)[i] == Known(Untrusted);
      assert LabelOf(a, cited[i]) == Known(Untrusted);
    }
  }

  /** The same run with every promotion's caller-supplied tier erased. */
  function WithoutClaimedTiers(ops: seq<Op>): seq<Op> {
    seq(|ops|, i requires 0 <= i < |ops| =>
      if ops[i].StoreCore? && ops[i].cited.Some? then ops[i].(tier := None) else ops[i])
  }

  /** A caller cannot launder a tier by lying about it on a promotion: no archive of any run
      depends on the tiers callers claim there. */
  lemma {:induction false} ClaimedTiersDoNotMatter(ops: seq<Op>)
    ensures Run(WithoutClaimedTiers(ops)) == Run(ops)
    ensures ValidRun(WithoutClaimedTiers(ops)) <==> ValidRun(ops)
  {
    if ops == [] {
    } else {
      var before := ops[..|ops| - 1];
      ClaimedTiersDoNotMatter(before);
      assert WithoutClaimedTiers(ops)[..|ops| - 1] == WithoutClaimedTiers(before);
    }
  }
}
