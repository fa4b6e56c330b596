/** Relevance floor with rescue, and the promotion rerank (memory/memory_manager.py:
    `_apply_context_floor_to_partitions`, `_promotion_adjusted_distance`). Distances are exact reals;
    None stands for a distance that is missing, not a number or not finite. */
module RecallShaping {
  import opened RealOrder
  import opened Wrappers
  import opened StableSort

  datatype Mem = Mem(id: string, kind: string, distance: Option<real>, content: string)

  function FiniteDistance(m: Mem): Option<real> {
    if m.distance.Some? && m.distance.value >= 0.0 then m.distance else None
  }

  /** A row without a usable distance is kept: unknown is not irrelevant. */
  predicate PassesRecallFloor(m: Mem, floor: real) {
    FiniteDistance(m).None? || FiniteDistance(m).value < floor
  }

  function DistanceSortKey(m: Mem): Key {
    if FiniteDistance(m).Some? then Fin(FiniteDistance(m).value) else Inf
  }

  // ----- the floor ------------------------------------------------------------------------------------

  datatype Partitions = Partitions(raw: seq<Mem>, daily: seq<Mem>, core: seq<Mem>)

  datatype Tier = RawTier | DailyTier | CoreTier

  function Rows(p: Partitions, t: Tier): seq<Mem> {
    match t case RawTier => p.raw case DailyTier => p.daily case CoreTier => p.core
  }

  function CandidateContextFloor(ask: bool, baseFloor: real, casualFloor: real, t: Tier): Option<real> {
    if t == CoreTier then None else if ask then Some(baseFloor) else Some(casualFloor)
  }

  predicate PassesContext(m: Mem, floor: Option<real>) {
    floor.None? || PassesRecallFloor(m, floor.value)
  }

  /** The rows that clear the floor, in order. */
  function Passing(rows: seq<Mem>, floor: Option<real>): (r: seq<Mem>)
    ensures floor.None? ==> r == rows
  {
    if rows == [] then []
    else
      var before, last := Passing(rows[..|rows| - 1], floor), rows[|rows| - 1];
      if PassesContext(last, floor) then before + [last] else before
  }

  lemma {:induction false} PassingComesFrom(rows: seq<Mem>, floor: Option<real>, m: Mem)
    ensures m in Passing(rows, floor) <==> m in rows && PassesContext(m, floor)
  {
    if rows == [] {
    } else {
      PassingComesFrom(rows[..|rows| - 1], floor, m);
      assert rows == rows[..|rows| - 1] + [rows[|rows| - 1]];
    }
  }

  lemma PassingSnoc(rows: seq<Mem>, i: nat, floor: Option<real>)
    requires i < |rows|
    ensures Passing(rows[..i + 1], floor) ==
      Passing(rows[..i], floor) + (if PassesContext(rows[i], floor) then [rows[i]] else [])
  {
    assert rows[..i + 1][..i] == rows[..i];
  }

  lemma {:induction false} NonePassing(rows: seq<Mem>, floor: Option<real>)
    ensures Passing(rows, floor) == [] <==> forall i :: 0 <= i < |rows| ==> !PassesContext(rows[i], floor)
  {
    if rows == [] {
    } else {
      NonePassing(rows[..|rows| - 1], floor);
    }
  }

  /** Position k holds a least distance, and the first one of that distance. */
  ghost predicate IsNearest(rows: seq<Mem>, k: nat) {
    && k < |rows|
    && forall j: nat :: j < |rows| ==> NoFarther(rows, k, j)
  }

  predicate NoFarther(rows: seq<Mem>, k: nat, j: nat)
    requires k < |rows| && j < |rows|
  {
    var x, y := DistanceSortKey(rows[k]), DistanceSortKey(rows[j]);
    Less(x, y) || (x == y && k <= j)
  }

  /** A memory ask never empties a tier: what the floor would empty keeps its nearest row. */
  ghost predicate FlooredForAsk(rows: seq<Mem>, floor: Option<real>, out: seq<Mem>) {
    if Passing(rows, floor) != [] || rows == [] then out == Passing(rows, floor)
    else exists k: nat :: IsNearest(rows, k) && out == [rows[k]]
  }

  /** A casual turn keeps one row when the floor would leave nothing at all: the nearest of raw and
      daily together, in its own tier. */
  ghost predicate FlooredForCasual(p: Partitions, floor: Option<real>, out: Partitions) {
    if Passing(p.raw, floor) != [] || Passing(p.daily, floor) != [] || p.core != [] || p.raw + p.daily == []
      then out == Partitions(Passing(p.raw, floor), Passing(p.daily, floor), p.core)
    else exists k: nat :: IsNearest(p.raw + p.daily, k) && out == OneOf(p, k)
  }

  function OneOf(p: Partitions, k: nat): Partitions
    requires k < |p.raw + p.daily|
  {
    if k < |p.raw| then Partitions([p.raw[k]], [], []) else Partitions([], [p.daily[k - |p.raw|]], [])
  }

  datatype Decision = Decision(tier: Tier, index: nat, mem: Mem, wouldDrop: bool)

  /** The audit trail of one tier. */
  ghost predicate DecidedTier(ds: seq<Decision>, rows: seq<Mem>, t: Tier, floor: Option<real>) {
    && |ds| == |rows|
    && forall i :: 0 <= i < |rows| ==> ds[i] == Decision(t, i, rows[i], !PassesContext(rows[i], floor))
  }

  /** What passes: without a floor everything; with one, a row whose distance is unusable or below it. */
  lemma PassesMeans(m: Mem, floor: Option<real>)
    ensures PassesContext(m, floor) <==>
      !(floor.Some? && m.distance.Some? && m.distance.value >= 0.0 && m.distance.value >= floor.value)
  {
  }

  /** The nearest row: the first of least usable distance, or the first of all when none is usable. */
  lemma NearestMeans(rows: seq<Mem>, k: nat, j: nat)
    requires IsNearest(rows, k) && j < |rows|
    ensures k < |rows|
    ensures rows[j].distance.Some? && rows[j].distance.value >= 0.0 ==>
      && rows[k].distance.Some? && 0.0 <= rows[k].distance.value <= rows[j].distance.value
      && (rows[k].distance.value == rows[j].distance.value ==> k <= j)
    ensures !(rows[k].distance.Some? && rows[k].distance.value >= 0.0) ==> k <= j
  {
    assert NoFarther(rows, k, j);
  }

  method DecideTier(t: Tier, rows: seq<Mem>, floor: Option<real>, enforce: bool)
    returns (ds: seq<Decision>, filtered: seq<Mem>)
    ensures DecidedTier(ds, rows, t, floor)
    ensures filtered == if enforce then Passing(rows, floor) else rows
  {
    ds, filtered := [], [];
    for i := 0 to |rows|
      invariant |ds| == i
      invariant forall j :: 0 <= j < i ==> ds[j] == Decision(t, j, rows[j], !PassesContext(rows[j], floor))
      invariant filtered == if enforce then Passing(rows[..i], floor) else rows[..i]
    {
      PassingSnoc(rows, i, floor);
      assert rows[..i + 1] == rows[..i] + [rows[i]];
      var passes := PassesContext(rows[i], floor);
      ds := ds + [Decision(t, i, rows[i], !passes)];
      if passes || !enforce {
        filtered := filtered + [rows[i]];
      }
    }
    assert rows[..|rows|] == rows;
  }

  function Keys(rows: seq<Mem>): (keys: seq<Key>)
    ensures |keys| == |rows|
  {
    seq(|rows|, i requires 0 <= i < |rows| => DistanceSortKey(rows[i]))
  }

  function Mems(ds: seq<Decision>): (ms: seq<Mem>)
    ensures |ms| == |ds|
  {
    seq(|ds|, i requires 0 <= i < |ds| => ds[i].mem)
  }

  /** sorted(..., key=distance)[0] is the nearest row, the first of equals. */
  lemma SortedHeadIsNearest(rows: seq<Mem>)
    requires rows != []
    ensures |SortOrder(Keys(rows))| == |rows| && IsNearest(rows, SortOrder(Keys(rows))[0])
  {
    var keys := Keys(rows);
    var order := SortOrder(keys);
    SortOrderIsStable(keys);
    forall j: nat | j < |rows|
      ensures NoFarther(rows, order[0], j)
    {
      StableOrderIsOnto(keys, order, j);
      var i :| 0 <= i < |order| && order[i] == j;
      if i > 0 {
        assert Before(keys, order[0], order[i]);
      }
    }
  }

  method Nearest(ds: seq<Decision>) returns (d: Decision)
    requires ds != []
    ensures exists k: nat :: IsNearest(Mems(ds), k) && d == ds[k]
  {
    var order := SortOrder(Keys(Mems(ds)));
    SortedHeadIsNearest(Mems(ds));
    d := ds[order[0]];
  }

  function DroppedOf(ds: seq<Decision>): seq<Decision> {
    if ds == [] then []
    else if ds[|ds| - 1].wouldDrop then DroppedOf(ds[..|ds| - 1]) + [ds[|ds| - 1]]
    else DroppedOf(ds[..|ds| - 1])
  }

  lemma {:induction false} AllDropped(ds: seq<Decision>)
    requires forall i :: 0 <= i < |ds| ==> ds[i].wouldDrop
    ensures DroppedOf(ds) == ds
  {
    if ds == [] {
    } else {
      AllDropped(ds[..|ds| - 1]);
    }
  }

  method Dropped(ds: seq<Decision>) returns (failed: seq<Decision>)
    ensures failed == DroppedOf(ds)
  {
    failed := [];
    for i := 0 to |ds|
      invariant failed == DroppedOf(ds[..i])
    {
      assert ds[..i + 1][..i] == ds[..i];
      if ds[i].wouldDrop {
        failed := failed + [ds[i]];
      }
    }
    assert ds[..|ds|] == ds;
  }

  method RescueTier(ds: seq<Decision>, rows: seq<Mem>, filtered: seq<Mem>, t: Tier, floor: Option<real>)
    returns (out: seq<Mem>)
    requires DecidedTier(ds, rows, t, floor) && filtered == Passing(rows, floor)
    ensures FlooredForAsk(rows, floor, out)
  {
    if filtered != [] || rows == [] {
      return filtered;
    }
    NonePassing(rows, floor);
    AllDropped(ds);
    var failed := Dropped(ds);
    assert Mems(failed) == rows;
    var rescued := Nearest(failed);
    ghost var k: nat :| IsNearest(Mems(failed), k) && rescued == failed[k];
    out := filtered + [rescued.mem];
    assert IsNearest(rows, k) && out == [rows[k]];
  }

  method ApplyContextFloor(p: Partitions, ask: bool, baseFloor: real, casualFloor: real, enforce: bool)
    returns (out: Partitions, decisions: seq<Decision>)
    ensures !enforce ==> out == p
    // Core is never dropped and never added to.
    ensures out.core == p.core
    ensures enforce && ask ==>
      FlooredForAsk(p.raw, Some(baseFloor), out.raw) && FlooredForAsk(p.daily, Some(baseFloor), out.daily)
    ensures enforce && !ask ==> FlooredForCasual(p, Some(casualFloor), out)
    // Every candidate gets its decision, enforced or not.
    ensures |decisions| == |p.raw| + |p.daily| + |p.core|
    ensures DecidedTier(decisions[..|p.raw|], p.raw, RawTier, Some(if ask then baseFloor else casualFloor))
    ensures DecidedTier(decisions[|p.raw|..|p.raw| + |p.daily|], p.daily, DailyTier,
                        Some(if ask then baseFloor else casualFloor))
    ensures DecidedTier(decisions[|p.raw| + |p.daily|..], p.core, CoreTier, None)
    // A raw or daily row would be dropped exactly when its distance is usable and not below its turn's floor,
    // a core row never.
    ensures forall i :: 0 <= i < |p.raw| ==>
      (decisions[i].wouldDrop <==>
         && p.raw[i].distance.Some? && p.raw[i].distance.value >= 0.0
         && p.raw[i].distance.value >= (if ask then baseFloor else casualFloor))
    ensures forall i :: 0 <= i < |p.daily| ==>
      (decisions[|p.raw| + i].wouldDrop <==>
         && p.daily[i].distance.Some? && p.daily[i].distance.value >= 0.0
         && p.daily[i].distance.value >= (if ask then baseFloor else casualFloor))
    ensures forall k :: |p.raw| + |p.daily| <= k < |decisions| ==> !decisions[k].wouldDrop
  {
    var floor := CandidateContextFloor(ask, baseFloor, casualFloor, RawTier);
    var rawDs, raw := DecideTier(RawTier, p.raw, floor, enforce);
    var dailyFloor := CandidateContextFloor(ask, baseFloor, casualFloor, DailyTier);
    var dailyDs, daily := DecideTier(DailyTier, p.daily, dailyFloor, enforce);
    var coreFloor := CandidateContextFloor(ask, baseFloor, casualFloor, CoreTier);
    var coreDs, core := DecideTier(CoreTier, p.core, coreFloor, enforce);
    decisions := rawDs + dailyDs + coreDs;
    if enforce && ask {
      raw := RescueTier(rawDs, p.raw, raw, RawTier, floor);
      daily := RescueTier(dailyDs, p.daily, daily, DailyTier, floor);
    }
    out := Partitions(raw, daily, core);
    if enforce && !ask && raw == [] && daily == [] && core == [] {
      out := RescueCasual(p, rawDs, dailyDs, floor);
    }
  }

  method RescueCasual(p: Partitions, rawDs: seq<Decision>, dailyDs: seq<Decision>, floor: Option<real>)
    returns (out: Partitions)
    requires DecidedTier(rawDs, p.raw, RawTier, floor) && DecidedTier(dailyDs, p.daily, DailyTier, floor)
    requires Passing(p.raw, floor) == [] && Passing(p.daily, floor) == [] && p.core == []
    ensures FlooredForCasual(p, floor, out)
  {
    out := Partitions([], [], []);
    NonePassing(p.raw, floor);
    NonePassing(p.daily, floor);
    var ds := rawDs + dailyDs;
    AllDropped(ds);
    var failed := Dropped(ds);
    assert Mems(failed) == p.raw + p.daily;
    if failed != [] {
      var rescued := Nearest(failed);
      ghost var k: nat :| IsNearest(Mems(failed), k) && rescued == failed[k];
      if rescued.tier == RawTier {
        out := out.(raw := out.raw + [rescued.mem]);
      } else {
        out := out.(daily := out.daily + [rescued.mem]);
      }
      assert IsNearest(p.raw + p.daily, k) && out == OneOf(p, k);
    }
  }

  /** An enforced memory ask leaves no tier empty that was not, and adds nothing. */
  lemma AskNeverEmpties(rows: seq<Mem>, floor: Option<real>, out: seq<Mem>)
    requires FlooredForAsk(rows, floor, out)
    ensures out == [] <==> rows == []
    ensures forall m :: m in out ==> m in rows
  {
    forall m ensures m in Passing(rows, floor) ==> m in rows {
      PassingComesFrom(rows, floor, m);
    }
    if Passing(rows, floor) == [] && rows != [] {
      var k: nat :| IsNearest(rows, k) && out == [rows[k]];
    }
  }

  /** An enforced casual turn leaves something of any recall that held something, and adds nothing. */
  lemma CasualNeverSilences(p: Partitions, floor: Option<real>, out: Partitions)
    requires FlooredForCasual(p, floor, out)
    ensures out == Partitions([], [], []) <==> p == Partitions([], [], [])
    ensures out.core == p.core
    ensures forall m :: m in out.raw ==> m in p.raw
    ensures forall m :: m in out.daily ==> m in p.daily
  {
    forall m ensures m in Passing(p.raw, floor) ==> m in p.raw {
      PassingComesFrom(p.raw, floor, m);
    }
    forall m ensures m in Passing(p.daily, floor) ==> m in p.daily {
      PassingComesFrom(p.daily, floor, m);
    }
    if !(Passing(p.raw, floor) != [] || Passing(p.daily, floor) != [] || p.core != [] || p.raw + p.daily == []) {
      var k: nat :| IsNearest(p.raw + p.daily, k) && out == OneOf(p, k);
    } else if p.raw + p.daily == [] {
      assert |p.raw| + |p.daily| == 0;
    }
  }

  /** The positions of the rows that pass. */
  function PassingPositions(rows: seq<Mem>, floor: Option<real>): (from: seq<nat>)
    ensures forall i :: 0 <= i < |from| ==> from[i] < |rows|
    ensures forall i, j :: 0 <= i < j < |from| ==> from[i] < from[j]
  {
    if rows == [] then []
    else
      var before := PassingPositions(rows[..|rows| - 1], floor);
      if PassesContext(rows[|rows| - 1], floor) then before + [|rows| - 1] else before
  }

  lemma {:induction false} EveryPassingPosition(rows: seq<Mem>, floor: Option<real>, k: nat)
    requires k < |rows|
    ensures PassesContext(rows[k], floor) <==> k in PassingPositions(rows, floor)
  {
    if k == |rows| - 1 {
    } else {
      EveryPassingPosition(rows[..|rows| - 1], floor, k);
    }
  }

  /** Order is kept: what passes is the rows at ascending positions, and no passing row is missing. */
  lemma {:induction false} PassingKeepsOrder(rows: seq<Mem>, floor: Option<real>)
    ensures Passing(rows, floor) == Permute(rows, PassingPositions(rows, floor))
  {
    if rows == [] {
    } else {
      var n := |rows| - 1;
      var from := PassingPositions(rows[..n], floor);
      PassingKeepsOrder(rows[..n], floor);
      PermutePrefix(rows, from, n);
      PermuteSnoc(rows, from, n);
    }
  }

  // ----- promotion rerank ----------------------------------------------------------------------------------

  const RERANK_STRENGTH := 0.2

  function TypeWeight(m: Mem): (w: real)
    ensures w == 0.25 || w == 1.0
  {
    if m.kind in {"reflection", "maez_self", "self_digest"} then 0.25 else 1.0
  }

  function Clamp(p: real): (c: real)
    ensures 0.0 <= c <= 1.0
  {
    if p < 0.0 then 0.0 else if p > 1.0 then 1.0 else p
  }

  function Boost(m: Mem, promotion: Option<real>): (b: real)
    ensures 1.0 <= b <= 1.0 + RERANK_STRENGTH * TypeWeight(m)
  {
    if promotion.None? then 1.0
    else
      var weighted := Clamp(promotion.value) * TypeWeight(m);
      assert 0.0 <= weighted <= TypeWeight(m);
      1.0 + RERANK_STRENGTH * weighted
  }

  /** None for an effective distance that is not a usable number. */
  function Effective(distance: Option<real>): Option<real> {
    if distance.Some? && distance.value >= 0.0 then distance else None
  }

  function PromotionAdjustedDistance(m: Mem, promotion: Option<real>, effective: Option<real>): Key {
    if Effective(effective).None? then Inf
    else if promotion.None? then Fin(effective.value)
    else Fin(effective.value / Boost(m, promotion))
  }

  /** The ranking key, spelled out: an unusable effective distance ranks last, a row without a promotion keeps its
      distance, and a promotion divides it by up to 1.2, or up to 1.05 for the three damped kinds. */
  lemma KeyMeans(m: Mem, promotion: Option<real>, effective: Option<real>)
    ensures !(effective.Some? && effective.value >= 0.0) ==> PromotionAdjustedDistance(m, promotion, effective) == Inf
    ensures effective.Some? && effective.value >= 0.0 && promotion.None? ==>
      PromotionAdjustedDistance(m, promotion, effective) == Fin(effective.value)
    ensures effective.Some? && effective.value >= 0.0 && promotion.Some? ==>
      var p := if promotion.value < 0.0 then 0.0 else if promotion.value > 1.0 then 1.0 else promotion.value;
      var weight := if m.kind == "reflection" || m.kind == "maez_self" || m.kind == "self_digest" then 0.25 else 1.0;
      PromotionAdjustedDistance(m, promotion, effective) == Fin(effective.value / (1.0 + 0.2 * (p * weight)))
  {
  }

  /** A higher promotion lifts a row: at the same positive distance and kind its key is smaller. */
  lemma PromotionLifts(m: Mem, p: real, q: real, d: real)
    requires 0.0 <= p < q <= 1.0 && d > 0.0
    ensures Less(PromotionAdjustedDistance(m, Some(q), Some(d)), PromotionAdjustedDistance(m, Some(p), Some(d)))
  {
    DivisorGrows(d, Boost(m, Some(p)), Boost(m, Some(q)));
  }

  lemma DivisorGrows(d: real, a: real, b: real)
    requires d > 0.0 && 1.0 <= a < b
    ensures d / b < d / a
  {
    var x, y := d / b, d / a;
    assert x * b == d && y * a == d;
    if x >= y {
      ScaledOrder(b, y, x);
      ScaledStrictly(y, a, b);
      assert false;
    }
  }

  /** What the ranking key looks up for a row. */
  datatype Ranked = Ranked(mem: Mem, promotion: Option<real>, effective: Option<real>)

  function RankKeys(rows: seq<Ranked>): (keys: seq<Key>)
    ensures |keys| == |rows|
  {
    seq(|rows|, i requires 0 <= i < |rows| =>
      PromotionAdjustedDistance(rows[i].mem, rows[i].promotion, rows[i].effective))
  }

  function Reranked(rows: seq<Ranked>): (r: seq<Ranked>)
    ensures |r| == |rows|
  {
    Sorted(rows, RankKeys(rows))
  }

  /** The order of the rerank: ascending in the adjusted distance, unusable ones last, and ties as they were. */
  lemma RerankedInOrder(rows: seq<Ranked>, order: seq<nat>, i: nat, j: nat)
    requires order == SortOrder(RankKeys(rows)) && i < j < |rows|
    ensures Reranked(rows)[i] == rows[order[i]] && Reranked(rows)[j] == rows[order[j]]
    ensures
      var a := PromotionAdjustedDistance(rows[order[i]].mem, rows[order[i]].promotion, rows[order[i]].effective);
      var b := PromotionAdjustedDistance(rows[order[j]].mem, rows[order[j]].promotion, rows[order[j]].effective);
      (a.Fin? && (b.Inf? || a.value < b.value)) || (a == b && order[i] < order[j])
  {
    SortOrderIsStable(RankKeys(rows));
    assert Before(RankKeys(rows), order[i], order[j]);
  }

  lemma RerankIsPermutation(rows: seq<Ranked>)
    ensures multiset(Reranked(rows)) == multiset(rows)
  {
    SortedIsPermutation(rows, RankKeys(rows));
  }

  lemma Quotient(x: real, b: real, y: real)
    requires b > 0.0 && x / b < y
    ensures x < b * y
  {
    var q := x / b;
    assert q * b == x;
    assert q * b < y * b;
  }

  lemma QuotientShrinks(y: real, c: real)
    requires y >= 0.0 && c >= 1.0
    ensures y / c <= y
  {
    var q := y / c;
    assert q * c == y;
    if q > y {
      assert q * c > y * c;
      assert y * c >= y;
    }
  }

  /** The damped kinds are lifted by less than a twentieth, all others by less than a fifth. */
  lemma LiftOfKinds(rows: seq<Ranked>, i: nat, j: nat, damped: bool)
    requires i < j < |rows| && SortOrder(RankKeys(rows))[i] > SortOrder(RankKeys(rows))[j]
    requires var kind := rows[SortOrder(RankKeys(rows))[i]].mem.kind;
      damped == (kind == "reflection" || kind == "maez_self" || kind == "self_digest")
    ensures var a, b := rows[SortOrder(RankKeys(rows))[i]].effective, rows[SortOrder(RankKeys(rows))[j]].effective;
      && a.Some? && a.value >= 0.0
      && (b.Some? && b.value >= 0.0 ==> a.value < (if damped then 1.05 else 1.2) * b.value)
  {
    LiftIsBounded(rows, i, j);
  }

  /** Promotion can lift a row over another only so far: when the row at input position a ends up
      ahead of the earlier row at b, a's effective distance is a number below 1.2 times b's, and
      below 1.05 times b's when a is of a damped type. */
  lemma LiftIsBounded(rows: seq<Ranked>, i: nat, j: nat)
    requires i < j < |rows| && SortOrder(RankKeys(rows))[i] > SortOrder(RankKeys(rows))[j]
    ensures var a, b := rows[SortOrder(RankKeys(rows))[i]], rows[SortOrder(RankKeys(rows))[j]];
      && Effective(a.effective).Some?
      && (Effective(b.effective).Some? ==>
            a.effective.value < (1.0 + RERANK_STRENGTH * TypeWeight(a.mem)) * b.effective.value)
  {
    var keys := RankKeys(rows);
    var order := SortOrder(keys);
    SortOrderIsStable(keys);
    assert Before(keys, order[i], order[j]);
    LiftBetween(rows[order[i]], rows[order[j]]);
  }

  lemma LiftBetween(a: Ranked, b: Ranked)
    requires Less(PromotionAdjustedDistance(a.mem, a.promotion, a.effective),
                  PromotionAdjustedDistance(b.mem, b.promotion, b.effective))
    ensures Effective(a.effective).Some?
    ensures Effective(b.effective).Some? ==>
      a.effective.value < (1.0 + RERANK_STRENGTH * TypeWeight(a.mem)) * b.effective.value
  {
    if Effective(b.effective).Some? {
      var x, y := a.effective.value, b.effective.value;
      UnboostedIsOverOne(x);
      UnboostedIsOverOne(y);
      BoundedQuotients(x, Boost(a.mem, a.promotion), y, Boost(b.mem, b.promotion),
                       1.0 + RERANK_STRENGTH * TypeWeight(a.mem));
    }
  }

  lemma UnboostedIsOverOne(x: real)
    ensures x / 1.0 == x
  {
  }

  lemma BoundedQuotients(x: real, p: real, y: real, q: real, w: real)
    requires y >= 0.0 && 1.0 <= p <= w && q >= 1.0 && x / p < y / q
    ensures x < w * y
  {
    QuotientShrinks(y, q);
    Quotient(x, p, y);
    ScaledOrder(y, p, w);
  }
}
