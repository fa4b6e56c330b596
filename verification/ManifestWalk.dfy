/** The symlink rows of a runtime manifest (scripts/cuda_bench_cli.py,
    `_verify_candidate_runtime_manifest`). A manifest names regular files and links; each name has
    one row, and a link's target is a bare name. Names are only ever compared, so numbers stand for
    them. */
module ManifestWalk {
  import opened Wrappers
  import opened FiniteSets

  type Name = nat

  const HOPS := 129

  datatype Manifest = Manifest(regular: set<Name>, links: map<Name, Name>) {
    ghost predicate Valid() {
      regular !! links.Keys
    }
  }

  /** Where n link hops from `x` lead; None once a name is not a link. */
  function Follow(links: map<Name, Name>, x: Name, n: nat): Option<Name>
    decreases n
  {
    if n == 0 then Some(x)
    else if x in links then Follow(links, links[x], n - 1)
    else None
  }

  /** Following hops: none, one, and one after others. */
  lemma FollowMeans(links: map<Name, Name>, x: Name, n: nat)
    ensures Follow(links, x, 0) == Some(x)
    ensures Follow(links, x, 1) == if x in links then Some(links[x]) else None
    ensures Follow(links, x, n + 1) == if x in links then Follow(links, links[x], n) else None
  {
  }

  /** Some regular file is reached by at most `limit` links. */
  ghost predicate Resolves(m: Manifest, x: Name, limit: nat) {
    exists n: nat :: n <= limit && Lands(m, x, n)
  }

  ghost predicate Lands(m: Manifest, x: Name, n: nat) {
    Follow(m.links, x, n).Some? && Follow(m.links, x, n).value in m.regular
  }

  lemma {:induction false} FollowAdds(links: map<Name, Name>, x: Name, m: nat, n: nat)
    requires Follow(links, x, m).Some?
    ensures Follow(links, x, m + n) == Follow(links, Follow(links, x, m).value, n)
    decreases m
  {
    if m == 0 {
    } else {
      assert x in links && (m - 1) + n == m + n - 1;
      FollowAdds(links, links[x], m - 1, n);
    }
  }

  lemma FollowNext(links: map<Name, Name>, x: Name, n: nat)
    requires Follow(links, x, n).Some?
    ensures var y := Follow(links, x, n).value;
      Follow(links, x, n + 1) == if y in links then Some(links[y]) else None
  {
    FollowAdds(links, x, n, 1);
  }

  /** A name that is not a link ends its chain: what lies behind it is nothing. */
  lemma NothingBehind(m: Manifest, x: Name, n: nat, k: nat)
    requires Follow(m.links, x, n).Some? && Follow(m.links, x, n).value !in m.links && n < k
    ensures Follow(m.links, x, k).None?
  {
    FollowAdds(m.links, x, n, k - n);
  }

  /** A chain that comes back to a link it has passed stays among links forever. */
  lemma {:induction false} LoopNeverLands(m: Manifest, x: Name, p: nat, n: nat)
    requires m.Valid() && 0 < p && Follow(m.links, x, p) == Some(x)
    ensures !Lands(m, x, n)
    decreases n
  {
    if n >= p {
      FollowAdds(m.links, x, p, n - p);
      LoopNeverLands(m, x, p, n - p);
    } else if Lands(m, x, n) {
      NothingBehind(m, x, n, p);
      assert false;
    }
  }

  lemma PassedTwiceNeverLands(m: Manifest, x: Name, i: nat, j: nat, n: nat)
    requires m.Valid() && i < j && Follow(m.links, x, j).Some? && Follow(m.links, x, i) == Follow(m.links, x, j)
    ensures !Lands(m, x, n)
  {
    var y := Follow(m.links, x, i).value;
    FollowAdds(m.links, x, i, j - i);
    if Lands(m, x, n) {
      if n < j {
        NothingBehind(m, x, n, j);
      } else {
        FollowAdds(m.links, x, i, n - i);
        LoopNeverLands(m, y, j - i, n - i);
      }
      assert false;
    }
  }

  lemma EndsElsewhere(m: Manifest, x: Name, i: nat, n: nat)
    requires m.Valid() && Follow(m.links, x, i).Some?
    requires Follow(m.links, x, i).value !in m.links && Follow(m.links, x, i).value !in m.regular
    ensures !Lands(m, x, n)
  {
    if n < i && Lands(m, x, n) {
      NothingBehind(m, x, n, i);
    } else if n > i {
      NothingBehind(m, x, i, n);
    }
  }

  /** One walk, as coded: refuse on a repeat, on a missing row and on the 129th unresolved hop. */
  method Walk(m: Manifest, start: Name) returns (accepted: bool)
    requires m.Valid() && start in m.links
    ensures accepted <==> Resolves(m, start, 128)
  {
    var seen: set<Name> := {};
    var current := start;
    for hop := 0 to HOPS
      invariant Follow(m.links, start, hop) == Some(current)
      invariant forall y :: y in seen ==> exists i: nat :: i < hop && Follow(m.links, start, i) == Some(y)
      invariant forall i: nat :: i < hop ==> !Lands(m, start, i)
    {
      if current in seen {
        var i: nat :| i < hop && Follow(m.links, start, i) == Some(current);
        forall n: nat ensures !Lands(m, start, n) {
          PassedTwiceNeverLands(m, start, i, hop, n);
        }
        return false;
      }
      seen := seen + {current};
      if current in m.regular {
        assert Lands(m, start, hop);
        return true;
      }
      if current !in m.links {
        forall n: nat ensures !Lands(m, start, n) {
          EndsElsewhere(m, start, hop, n);
        }
        return false;
      }
      FollowNext(m.links, start, hop);
      current := m.links[current];
    }
    accepted := false;
  }

  method VerifyLinks(m: Manifest) returns (accepted: bool)
    requires m.Valid()
    ensures accepted <==> forall x :: x in m.links ==> Resolves(m, x, 128)
  {
    var todo := m.links.Keys;
    while todo != {}
      invariant todo <= m.links.Keys
      invariant forall x :: x in m.links && x !in todo ==> Resolves(m, x, 128)
      decreases todo
    {
      var x :| x in todo;
      var ok := Walk(m, x);
      if !ok { return false; }
      todo := todo - {x};
    }
    accepted := true;
  }

  // ----- what acceptance means ----------------------------------------------------------------------

  ghost predicate Dangling(m: Manifest) {
    exists x :: x in m.links && m.links[x] !in m.links && m.links[x] !in m.regular
  }

  ghost predicate Cyclic(m: Manifest) {
    exists x, p: nat :: 0 < p && x in m.links && Follow(m.links, x, p) == Some(x)
  }

  /** The names met before hop n. */
  function Passed(m: Manifest, x: Name, n: nat): set<Name>
    decreases n
  {
    if n == 0 then {}
    else if Follow(m.links, x, n - 1).None? then Passed(m, x, n - 1)
    else Passed(m, x, n - 1) + {Follow(m.links, x, n - 1).value}
  }

  lemma {:induction false} PassedAt(m: Manifest, x: Name, n: nat, y: Name) returns (i: nat)
    requires y in Passed(m, x, n)
    ensures i < n && Follow(m.links, x, i) == Some(y)
    decreases n
  {
    if Follow(m.links, x, n - 1) == Some(y) {
      i := n - 1;
    } else {
      i := PassedAt(m, x, n - 1, y);
    }
  }

  lemma ReturnIsCycle(m: Manifest, x: Name, i: nat, j: nat)
    requires i < j && Follow(m.links, x, j).Some? && Follow(m.links, x, i) == Follow(m.links, x, j)
    requires Follow(m.links, x, i).value in m.links
    ensures Cyclic(m)
  {
    var y := Follow(m.links, x, i).value;
    FollowAdds(m.links, x, i, j - i);
    assert Follow(m.links, y, j - i) == Some(y);
  }

  lemma {:induction false} PassedSize(m: Manifest, x: Name, n: nat)
    requires m.Valid() && !Cyclic(m)
    requires forall i: nat :: i < n ==> Follow(m.links, x, i).Some? && Follow(m.links, x, i).value in m.links
    ensures |Passed(m, x, n)| == n && Passed(m, x, n) <= m.links.Keys
    decreases n
  {
    if n == 0 {
    } else {
      PassedSize(m, x, n - 1);
      var y := Follow(m.links, x, n - 1).value;
      if y in Passed(m, x, n - 1) {
        var i := PassedAt(m, x, n - 1, y);
        ReturnIsCycle(m, x, i, n - 1);
        assert false;
      }
    }
  }

  /** Without cycles and dangling links a chain resolves within as many hops as there are links. */
  lemma {:induction false} CleanChainsResolve(m: Manifest, x: Name, n: nat)
    requires m.Valid() && !Cyclic(m) && !Dangling(m) && x in m.links && n <= |m.links|
    requires forall i: nat :: i < n ==> Follow(m.links, x, i).Some? && Follow(m.links, x, i).value in m.links
    requires Follow(m.links, x, n).Some?
    ensures Resolves(m, x, |m.links|)
    decreases |m.links| - n
  {
    var y := Follow(m.links, x, n).value;
    if n > 0 {
      FollowNext(m.links, x, n - 1);
    }
    if y in m.regular {
      assert Lands(m, x, n);
    } else {
      assert y in m.links;
      PassedSize(m, x, n + 1);
      SubsetSize(Passed(m, x, n + 1), m.links.Keys);
      assert |m.links.Keys| == |m.links|;
      FollowNext(m.links, x, n);
      CleanChainsResolve(m, x, n + 1);
    }
  }

  lemma ResolvingIsMonotone(m: Manifest, x: Name, few: nat, many: nat)
    requires few <= many && Resolves(m, x, few)
    ensures Resolves(m, x, many)
  {
    var n: nat :| n <= few && Lands(m, x, n);
  }

  /** A manifest with at most 128 link rows is accepted exactly when no link dangles and no link
      comes back to itself. */
  lemma AcceptedMeansCleanLinks(m: Manifest)
    requires m.Valid() && |m.links| <= 128
    ensures (forall x :: x in m.links ==> Resolves(m, x, 128)) <==> !Dangling(m) && !Cyclic(m)
  {
    if !Dangling(m) && !Cyclic(m) {
      forall x | x in m.links ensures Resolves(m, x, 128) {
        CleanChainsResolve(m, x, 0);
        ResolvingIsMonotone(m, x, |m.links|, 128);
      }
    }
    ResolvingIsClean(m);
  }

  /** Acceptance rules out dangling and cyclic links whatever the number of rows. */
  lemma ResolvingIsClean(m: Manifest)
    requires m.Valid()
    ensures (forall x :: x in m.links ==> Resolves(m, x, 128)) ==> !Dangling(m) && !Cyclic(m)
  {
    if x :| x in m.links && m.links[x] !in m.links && m.links[x] !in m.regular {
      forall n: nat ensures !Lands(m, x, n) {
        assert Follow(m.links, x, 1) == Some(m.links[x]);
        EndsElsewhere(m, x, 1, n);
      }
      assert !Resolves(m, x, 128);
    }
    if x, p: nat :| 0 < p && x in m.links && Follow(m.links, x, p) == Some(x) {
      forall n: nat ensures !Lands(m, x, n) {
        LoopNeverLands(m, x, p, n);
      }
      assert !Resolves(m, x, 128);
    }
  }

  // ----- the bound is sharp -------------------------------------------------------------------------

  /** Link k leads to k - 1, link 1 to the one regular file. */
  function Chain(n: nat): Manifest {
    Manifest({0}, ChainLinks(n))
  }

  function ChainLinks(n: nat): (links: map<Name, Name>)
    ensures forall k :: k in links <==> 1 <= k <= n
    ensures forall k :: k in links ==> links[k] == k - 1
  {
    if n == 0 then map[] else ChainLinks(n - 1)[n := n - 1]
  }

  lemma {:induction false} ChainFollow(n: nat, k: nat, i: nat)
    requires i <= k <= n
    ensures Follow(Chain(n).links, k, i) == Some(k - i)
    decreases i
  {
    if i == 0 {
    } else {
      ChainFollow(n, k - 1, i - 1);
    }
  }

  lemma ChainIsClean(n: nat)
    requires n > 0
    ensures Chain(n).Valid() && !Dangling(Chain(n)) && !Cyclic(Chain(n))
  {
    var m := Chain(n);
    forall x, p: nat | 0 < p && x in m.links ensures Follow(m.links, x, p) != Some(x) {
      if p <= x {
        ChainFollow(n, x, p);
      } else {
        ChainFollow(n, x, x);
        NothingBehind(m, x, x, p);
      }
    }
  }

  /** One row more and the equivalence fails: 129 links in a straight line to a real file are
      neither dangling nor cyclic, and are refused. */
  lemma LongCleanChainIsRefused()
    ensures var m := Chain(129);
      && m.Valid() && !Dangling(m) && !Cyclic(m)
      && 129 in m.links && !Resolves(m, 129, 128)
  {
    ChainIsClean(129);
    forall n: nat | n <= 128 ensures !Lands(Chain(129), 129, n) {
      ChainFollow(129, 129, n);
    }
  }
}
