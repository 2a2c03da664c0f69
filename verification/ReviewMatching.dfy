/** Kuhn's augmenting-path matching, as `_assign_pairs` runs it. `AugmentFrom` and `MatchFrom`
    give the search as functions, the class at the end runs it on mutable state, and the
    lemmas between say what the search achieves. */
module ReviewMatching {
  import opened Ordering

  /** Actual finding index to the expected finding indices it may take, in traversal order. */
  type Edges = map<nat, seq<nat>>
  /** Expected finding index to the actual finding index that owns it. */
  type Owners = map<nat, nat>

  datatype Search = Search(found: bool, seen: set<nat>, owners: Owners)

  function Targets(edges: Edges): set<nat> {
    set a, k | a in edges && 0 <= k < |edges[a]| :: edges[a][k]
  }

  predicate OwnersHaveEdges(edges: Edges, owners: Owners) {
    forall e :: e in owners ==> owners[e] in edges
  }

  /** One call of the nested `augment`, resumed at the k-th edge of `a`. */
  function AugmentFrom(edges: Edges, a: nat, k: nat, seen: set<nat>, owners: Owners): (r: Search)
    requires a in edges && k <= |edges[a]| && seen <= Targets(edges) && OwnersHaveEdges(edges, owners)
    ensures seen <= r.seen <= Targets(edges) && OwnersHaveEdges(edges, r.owners)
    decreases Targets(edges) - seen, |edges[a]| - k
  {
    if k == |edges[a]| then Search(false, seen, owners)
    else
      var e := edges[a][k];
      if e in seen then AugmentFrom(edges, a, k + 1, seen, owners)
      else
        var seen1 := seen + {e};
        if e !in owners then Search(true, seen1, owners[e := a])
        else
          var r := AugmentFrom(edges, owners[e], 0, seen1, owners);
          if r.found then Search(true, r.seen, r.owners[e := a])
          else AugmentFrom(edges, a, k + 1, r.seen, r.owners)
  }

  /** The outer loop of `_assign_pairs`, from the i-th root on. */
  function MatchFrom(edges: Edges, roots: seq<nat>, i: nat, owners: Owners): (r: Owners)
    requires i <= |roots| && (forall a :: a in roots ==> a in edges) && OwnersHaveEdges(edges, owners)
    ensures OwnersHaveEdges(edges, r)
    decreases |roots| - i
  {
    if i == |roots| then owners
    else MatchFrom(edges, roots, i + 1, AugmentFrom(edges, roots[i], 0, {}, owners).owners)
  }

  // ---- what a search leaves behind --------------------------------------------------

  /** A failed search changed no owner, and what it saw is a closed neighbourhood: every
      edge it still had, and every edge of an owner it met, ends inside the seen set. */
  lemma {:induction false} FailedSearchCertificate(edges: Edges, a: nat, k: nat, seen: set<nat>, owners: Owners)
    requires a in edges && k <= |edges[a]| && seen <= Targets(edges) && OwnersHaveEdges(edges, owners)
    requires !AugmentFrom(edges, a, k, seen, owners).found
    ensures var r := AugmentFrom(edges, a, k, seen, owners);
      && r.owners == owners
      && (forall j :: k <= j < |edges[a]| ==> edges[a][j] in r.seen)
      && (forall e :: e in r.seen - seen ==>
            e in owners && forall x :: x in edges[owners[e]] ==> x in r.seen)
    decreases Targets(edges) - seen, |edges[a]| - k
  {
    if k < |edges[a]| {
      var e := edges[a][k];
      if e in seen {
        FailedSearchCertificate(edges, a, k + 1, seen, owners);
      } else {
        FailedSearchCertificate(edges, owners[e], 0, seen + {e}, owners);
        var r := AugmentFrom(edges, owners[e], 0, seen + {e}, owners);
        FailedSearchCertificate(edges, a, k + 1, r.seen, owners);
      }
    }
  }

  ghost predicate Edge(edges: Edges, a: nat, e: nat) {
    a in edges && e in edges[a]
  }

  /** Some expected finding is owned by `a`. */
  ghost predicate Owns(owners: Owners, a: nat) {
    exists e :: e in owners && owners[e] == a
  }

  /** An alternating path: `a` takes path[0], whose owner takes path[1], and so on to a
      free expected finding. */
  ghost predicate AugmentingPath(edges: Edges, owners: Owners, a: nat, path: seq<nat>)
    decreases path
  {
    && path != []
    && Edge(edges, a, path[0])
    && (|path| == 1 ==> path[0] !in owners)
    && (|path| > 1 ==> path[0] in owners && AugmentingPath(edges, owners, owners[path[0]], path[1..]))
  }

  /** Hand every expected finding on the path to its new taker. */
  ghost function Flip(owners: Owners, a: nat, path: seq<nat>): Owners
    requires path != []
    decreases path
  {
    if |path| == 1 || path[0] !in owners then owners[path[0] := a]
    else Flip(owners, owners[path[0]], path[1..])[path[0] := a]
  }

  ghost predicate Distinct(s: seq<nat>) {
    forall i, j :: 0 <= i < j < |s| ==> s[i] != s[j]
  }

  /** A successful search rewrote the owners along one augmenting path of fresh targets. */
  lemma {:induction false} SuccessfulSearchFlipsPath(edges: Edges, a: nat, k: nat, seen: set<nat>, owners: Owners)
    returns (path: seq<nat>)
    requires a in edges && k <= |edges[a]| && seen <= Targets(edges) && OwnersHaveEdges(edges, owners)
    requires AugmentFrom(edges, a, k, seen, owners).found
    ensures AugmentingPath(edges, owners, a, path) && Distinct(path)
    ensures forall e :: e in path ==> e !in seen
    ensures AugmentFrom(edges, a, k, seen, owners).owners == Flip(owners, a, path)
    decreases Targets(edges) - seen, |edges[a]| - k
  {
    var e := edges[a][k];
    if e in seen {
      path := SuccessfulSearchFlipsPath(edges, a, k + 1, seen, owners);
    } else if e !in owners {
      path := [e];
    } else {
      var r := AugmentFrom(edges, owners[e], 0, seen + {e}, owners);
      if r.found {
        var rest := SuccessfulSearchFlipsPath(edges, owners[e], 0, seen + {e}, owners);
        path := [e] + rest;
        assert path[1..] == rest;
      } else {
        FailedSearchCertificate(edges, owners[e], 0, seen + {e}, owners);
        path := SuccessfulSearchFlipsPath(edges, a, k + 1, r.seen, owners);
      }
    }
  }

  /** Who takes path[i]: the root takes the first, each later one goes to the owner of the
      one before it. */
  ghost predicate Takes(owners: Owners, a: nat, path: seq<nat>, i: nat, taker: nat)
    requires i < |path|
  {
    if i == 0 then taker == a else path[i - 1] in owners && taker == owners[path[i - 1]]
  }

  /** Off the path nothing changes, and exactly the free end of the path becomes owned. */
  lemma {:induction false} FlipFrame(edges: Edges, owners: Owners, a: nat, path: seq<nat>)
    requires AugmentingPath(edges, owners, a, path)
    ensures path[|path| - 1] !in owners
    ensures Flip(owners, a, path).Keys == owners.Keys + {path[|path| - 1]}
    ensures forall e :: e in owners && e !in path ==> Flip(owners, a, path)[e] == owners[e]
    decreases path
  {
    if |path| > 1 {
      FlipFrame(edges, owners, owners[path[0]], path[1..]);
    }
  }

  lemma {:induction false} FlipAt(edges: Edges, owners: Owners, a: nat, path: seq<nat>, i: nat)
    requires AugmentingPath(edges, owners, a, path) && Distinct(path) && i < |path|
    ensures var r := Flip(owners, a, path);
      path[i] in r && Takes(owners, a, path, i, r[path[i]]) && Edge(edges, r[path[i]], path[i])
    decreases path
  {
    if i > 0 {
      FlipAt(edges, owners, owners[path[0]], path[1..], i - 1);
      assert path[1..][i - 1] == path[i];
      assert path[0] != path[i];
      if i > 1 { assert path[1..][i - 2] == path[i - 1]; }
    }
  }

  // ---- matchings ----------------------------------------------------------------------

  ghost predicate Injective(owners: Owners) {
    forall e, f :: e in owners && f in owners && owners[e] == owners[f] ==> e == f
  }

  /** `owners` is a matching inside `edges`. */
  ghost predicate Matching(edges: Edges, owners: Owners) {
    Injective(owners) && forall e :: e in owners ==> Edge(edges, owners[e], e)
  }

  lemma TakerIsUnique(edges: Edges, owners: Owners, a: nat, path: seq<nat>, i: nat, f: nat)
    requires Matching(edges, owners) && !Owns(owners, a) && i < |path|
    requires AugmentingPath(edges, owners, a, path) && Distinct(path)
    requires var r := Flip(owners, a, path); path[i] in r && f in r && r[path[i]] == r[f]
    ensures path[i] == f
  {
    FlipFrame(edges, owners, a, path);
    FlipAt(edges, owners, a, path, i);
    if f in path {
      var j :| 0 <= j < |path| && path[j] == f;
      FlipAt(edges, owners, a, path, j);
      assert i > 0 && j > 0 ==> path[i - 1] == path[j - 1];
    }
  }

  lemma FlipOwners(edges: Edges, owners: Owners, a: nat, path: seq<nat>, x: nat)
    requires AugmentingPath(edges, owners, a, path) && Distinct(path)
    ensures Owns(Flip(owners, a, path), x) <==> Owns(owners, x) || x == a
  {
    FlipFrame(edges, owners, a, path);
    var r := Flip(owners, a, path);
    if x == a {
      FlipAt(edges, owners, a, path, 0);
      assert r[path[0]] == a;
    } else if Owns(owners, x) {
      var e :| e in owners && owners[e] == x;
      if e in path {
        var i :| 0 <= i < |path| && path[i] == e;
        FlipAt(edges, owners, a, path, i + 1);
        assert r[path[i + 1]] == x;
      } else {
        assert r[e] == x;
      }
    } else {
      forall e | e in r ensures r[e] != x {
        if e in path {
          var i :| 0 <= i < |path| && path[i] == e;
          FlipAt(edges, owners, a, path, i);
        }
      }
    }
  }

  /** Augmenting for an unmatched root keeps a matching, keeps everyone who was matched
      matched, and matches the root. */
  lemma FlipKeepsMatching(edges: Edges, owners: Owners, a: nat, path: seq<nat>)
    requires Matching(edges, owners) && !Owns(owners, a)
    requires AugmentingPath(edges, owners, a, path) && Distinct(path)
    ensures Matching(edges, Flip(owners, a, path))
    ensures forall x :: Owns(Flip(owners, a, path), x) <==> Owns(owners, x) || x == a
  {
    var r := Flip(owners, a, path);
    FlipFrame(edges, owners, a, path);
    forall e | e in r ensures Edge(edges, r[e], e) {
      if e in path {
        var i :| 0 <= i < |path| && path[i] == e;
        FlipAt(edges, owners, a, path, i);
      }
    }
    forall e, f | e in r && f in r && r[e] == r[f] ensures e == f {
      if e in path {
        var i :| 0 <= i < |path| && path[i] == e;
        TakerIsUnique(edges, owners, a, path, i, f);
      } else if f in path {
        var i :| 0 <= i < |path| && path[i] == f;
        TakerIsUnique(edges, owners, a, path, i, e);
      }
    }
    forall x ensures Owns(r, x) <==> Owns(owners, x) || x == a {
      FlipOwners(edges, owners, a, path, x);
    }
  }

  // ---- maximality -----------------------------------------------------------------------

  /** A dead region: every target in it is owned, and its owners have no edge out of it. */
  ghost predicate Closed(edges: Edges, owners: Owners, dead: set<nat>) {
    forall e :: e in dead ==>
      e in owners && owners[e] in edges && forall x :: x in edges[owners[e]] ==> x in dead
  }

  /** No augmenting path can enter a dead region: it could never leave it to a free target. */
  lemma {:induction false} PathAvoidsDeadRegion(edges: Edges, owners: Owners, a: nat, path: seq<nat>, dead: set<nat>)
    requires AugmentingPath(edges, owners, a, path) && Closed(edges, owners, dead)
    ensures forall e :: e in path ==> e !in dead
    decreases path
  {
    if |path| > 1 {
      PathAvoidsDeadRegion(edges, owners, owners[path[0]], path[1..], dead);
      assert path[1] == path[1..][0];
      assert path == [path[0]] + path[1..];
    }
  }

  /** Every edge of `a` ends inside the dead region. */
  ghost predicate Stuck(edges: Edges, a: nat, dead: set<nat>)
    requires a in edges
  {
    forall x :: x in edges[a] ==> x in dead
  }

  /** What holds between two roots: a matching of processed roots only, and a dead region
      that swallows every edge of each processed root left unmatched. */
  ghost predicate Progress(edges: Edges, roots: seq<nat>, i: nat, owners: Owners, dead: set<nat>)
    requires i <= |roots|
  {
    && Matching(edges, owners)
    && (forall a :: a in roots ==> a in edges)
    && (forall a :: Owns(owners, a) ==> a in roots[..i])
    && Closed(edges, owners, dead)
    && (forall a :: a in roots[..i] && a in edges ==> Owns(owners, a) || Stuck(edges, a, dead))
  }

  /** A dead region survives an augmentation untouched. */
  lemma FlipKeepsDeadRegion(edges: Edges, owners: Owners, a: nat, path: seq<nat>, dead: set<nat>)
    requires AugmentingPath(edges, owners, a, path) && Closed(edges, owners, dead)
    ensures Closed(edges, Flip(owners, a, path), dead)
  {
    PathAvoidsDeadRegion(edges, owners, a, path, dead);
    FlipFrame(edges, owners, a, path);
    var r := Flip(owners, a, path);
    forall e | e in dead ensures e in r && r[e] == owners[e] {
      assert e in owners && e !in path;
    }
  }

  lemma ProgressMatched(edges: Edges, roots: seq<nat>, i: nat, owners: Owners, dead: set<nat>)
    requires i < |roots| && Distinct(roots) && Progress(edges, roots, i, owners, dead)
    requires AugmentFrom(edges, roots[i], 0, {}, owners).found
    ensures Progress(edges, roots, i + 1, AugmentFrom(edges, roots[i], 0, {}, owners).owners, dead)
    ensures owners.Keys <= AugmentFrom(edges, roots[i], 0, {}, owners).owners.Keys
    ensures forall a :: Owns(owners, a) ==> Owns(AugmentFrom(edges, roots[i], 0, {}, owners).owners, a)
  {
    var a := roots[i];
    assert roots[..i + 1] == roots[..i] + [a];
    var path := SuccessfulSearchFlipsPath(edges, a, 0, {}, owners);
    assert a !in roots[..i];
    FlipKeepsMatching(edges, owners, a, path);
    FlipFrame(edges, owners, a, path);
    FlipKeepsDeadRegion(edges, owners, a, path, dead);
  }

  lemma ProgressFailed(edges: Edges, roots: seq<nat>, i: nat, owners: Owners, dead: set<nat>)
    requires i < |roots| && Progress(edges, roots, i, owners, dead)
    requires !AugmentFrom(edges, roots[i], 0, {}, owners).found
    ensures var r := AugmentFrom(edges, roots[i], 0, {}, owners);
      r.owners == owners && Progress(edges, roots, i + 1, owners, dead + r.seen)
  {
    var a := roots[i];
    assert roots[..i + 1] == roots[..i] + [a];
    FailedSearchCertificate(edges, a, 0, {}, owners);
  }

  /** Through the whole outer loop: nobody matched is ever unmatched again. */
  lemma {:induction false} MatchFromProgress(edges: Edges, roots: seq<nat>, i: nat, owners: Owners, dead: set<nat>)
    returns (final: set<nat>)
    requires i <= |roots| && Distinct(roots) && Progress(edges, roots, i, owners, dead)
    ensures Progress(edges, roots, |roots|, MatchFrom(edges, roots, i, owners), final)
    ensures owners.Keys <= MatchFrom(edges, roots, i, owners).Keys
    ensures forall a :: Owns(owners, a) ==> Owns(MatchFrom(edges, roots, i, owners), a)
    decreases |roots| - i
  {
    if i == |roots| {
      final := dead;
    } else {
      var r := AugmentFrom(edges, roots[i], 0, {}, owners);
      if r.found {
        ProgressMatched(edges, roots, i, owners, dead);
        final := MatchFromProgress(edges, roots, i + 1, r.owners, dead);
      } else {
        ProgressFailed(edges, roots, i, owners, dead);
        final := MatchFromProgress(edges, roots, i + 1, r.owners, dead + r.seen);
      }
    }
  }

  /** Any set of (actual, expected) edges that uses no actual and no expected twice. */
  ghost predicate IsMatchingSet(edges: Edges, n: set<(nat, nat)>) {
    && (forall p :: p in n ==> Edge(edges, p.0, p.1))
    && (forall p, q :: p in n && q in n && (p.0 == q.0 || p.1 == q.1) ==> p == q)
  }

  /** Weak duality: a matching is no larger than a vertex cover of it. */
  lemma {:induction false} MatchingWithinCover(n: set<(nat, nat)>, actuals: set<nat>, expecteds: set<nat>)
    requires forall p, q :: p in n && q in n && (p.0 == q.0 || p.1 == q.1) ==> p == q
    requires forall p :: p in n ==> p.0 in actuals || p.1 in expecteds
    ensures |n| <= |actuals| + |expecteds|
    decreases n
  {
    if n != {} {
      var p :| p in n;
      if p.0 in actuals {
        MatchingWithinCover(n - {p}, actuals - {p.0}, expecteds);
      } else {
        MatchingWithinCover(n - {p}, actuals, expecteds - {p.1});
      }
    }
  }

  lemma {:induction false} ImageNoLarger(owners: Owners, keys: set<nat>)
    requires keys <= owners.Keys
    ensures |Takers(owners, keys)| <= |keys|
  {
    if keys != {} {
      var k :| k in keys;
      ImageNoLarger(owners, keys - {k});
      assert Takers(owners, keys) == Takers(owners, keys - {k}) + {owners[k]};
    }
  }

  ghost predicate AllRootsListed(edges: Edges, roots: seq<nat>) {
    Distinct(roots) && forall a :: a in roots <==> a in edges
  }

  /** Owned targets outside the dead region cost one actual each, the rest one expected. */
  ghost function Takers(owners: Owners, live: set<nat>): set<nat>
    requires live <= owners.Keys
  {
    set e | e in live :: owners[e]
  }

  lemma EdgeIsCovered(edges: Edges, roots: seq<nat>, owners: Owners, dead: set<nat>, a: nat, e: nat)
    requires Progress(edges, roots, |roots|, owners, dead) && Edge(edges, a, e) && a in roots
    ensures a in Takers(owners, owners.Keys - dead) || e in dead
  {
    assert roots[..|roots|] == roots;
    if !Stuck(edges, a, dead) {
      var f :| f in owners && owners[f] == a;
      if f !in dead { assert f in owners.Keys - dead; }
    }
  }

  lemma MatchingIsCovered(edges: Edges, roots: seq<nat>, owners: Owners, dead: set<nat>, n: set<(nat, nat)>)
    requires AllRootsListed(edges, roots) && IsMatchingSet(edges, n)
    requires Progress(edges, roots, |roots|, owners, dead)
    ensures dead <= owners.Keys
    ensures forall p :: p in n ==> p.0 in Takers(owners, owners.Keys - dead) || p.1 in dead
  {
    forall p | p in n ensures p.0 in Takers(owners, owners.Keys - dead) || p.1 in dead {
      assert Edge(edges, p.0, p.1);
      EdgeIsCovered(edges, roots, owners, dead, p.0, p.1);
    }
  }

  lemma ProgressBoundsMatchings(edges: Edges, roots: seq<nat>, owners: Owners, dead: set<nat>, n: set<(nat, nat)>)
    requires AllRootsListed(edges, roots) && IsMatchingSet(edges, n)
    requires Progress(edges, roots, |roots|, owners, dead)
    ensures |n| <= |owners|
  {
    var live := owners.Keys - dead;
    MatchingIsCovered(edges, roots, owners, dead, n);
    MatchingWithinCover(n, Takers(owners, live), dead);
    ImageNoLarger(owners, live);
    assert owners.Keys == live + dead;
  }

  /** `_assign_pairs` has maximum cardinality: no matching of the same edges beats it. */
  lemma MaximumCardinality(edges: Edges, roots: seq<nat>, n: set<(nat, nat)>)
    requires AllRootsListed(edges, roots) && IsMatchingSet(edges, n)
    ensures |n| <= |MatchFrom(edges, roots, 0, map[])|
  {
    var dead := MatchFromProgress(edges, roots, 0, map[], {});
    ProgressBoundsMatchings(edges, roots, MatchFrom(edges, roots, 0, map[]), dead, n);
  }

  lemma ResultIsMatching(edges: Edges, roots: seq<nat>)
    requires AllRootsListed(edges, roots)
    ensures Matching(edges, MatchFrom(edges, roots, 0, map[]))
  {
    var dead := MatchFromProgress(edges, roots, 0, map[], {});
  }

  // ---- from a candidate list to sorted pairs --------------------------------------------

  datatype Candidate = Candidate(score: Key, actual: nat, expected: nat)

  function EdgesOf(candidates: seq<Candidate>): Edges {
    if candidates == [] then map[]
    else
      var edges := EdgesOf(candidates[..|candidates| - 1]);
      var c := candidates[|candidates| - 1];
      edges[c.actual := (if c.actual in edges then edges[c.actual] else []) + [c.expected]]
  }

  lemma {:induction false} EdgesAreCandidates(candidates: seq<Candidate>, a: nat, e: nat)
    ensures Edge(EdgesOf(candidates), a, e)
       <==> exists i :: 0 <= i < |candidates| && candidates[i].actual == a && candidates[i].expected == e
    ensures a in EdgesOf(candidates) <==> exists i :: 0 <= i < |candidates| && candidates[i].actual == a
  {
    if candidates != [] {
      var n := |candidates| - 1;
      var front := candidates[..n];
      EdgesAreCandidates(front, a, e);
      assert forall i :: 0 <= i < n ==> candidates[i] == front[i];
      if candidates[n].actual == a && candidates[n].expected == e {
        assert Edge(EdgesOf(candidates), a, e);
      }
    }
  }

  /** The members of `keys` below n, in increasing order. */
  function Ascending(keys: set<nat>, n: nat): seq<nat> {
    if n == 0 then []
    else Ascending(keys, n - 1) + if n - 1 in keys then [n - 1] else []
  }

  lemma {:induction false} AscendingLists(keys: set<nat>, n: nat)
    ensures forall x :: x in Ascending(keys, n) <==> x in keys && x < n
    ensures forall i, j :: 0 <= i < j < |Ascending(keys, n)| ==> Ascending(keys, n)[i] < Ascending(keys, n)[j]
  {
    if n > 0 {
      AscendingLists(keys, n - 1);
      var shorter := Ascending(keys, n - 1);
      forall i | 0 <= i < |shorter| ensures shorter[i] < n - 1 {
        assert shorter[i] in shorter;
      }
    }
  }

  /** One more than the largest index a candidate mentions. */
  function Bound(candidates: seq<Candidate>): (n: nat)
    ensures forall c :: c in candidates ==> c.actual < n && c.expected < n
  {
    if candidates == [] then 0
    else
      var n := Bound(candidates[1..]);
      var c := candidates[0];
      assert candidates == [c] + candidates[1..];
      var m := if c.actual < c.expected then c.expected + 1 else c.actual + 1;
      if m < n then n else m
  }

  /** `sorted(edges)`. */
  function Roots(candidates: seq<Candidate>): seq<nat> {
    Ascending(EdgesOf(candidates).Keys, Bound(candidates))
  }

  lemma RootsListEveryActual(candidates: seq<Candidate>)
    ensures AllRootsListed(EdgesOf(candidates), Roots(candidates))
  {
    AscendingLists(EdgesOf(candidates).Keys, Bound(candidates));
    forall a | a in EdgesOf(candidates) ensures a < Bound(candidates) {
      EdgesAreCandidates(candidates, a, 0);
    }
  }

  function FinalOwners(candidates: seq<Candidate>): Owners {
    RootsListEveryActual(candidates);
    MatchFrom(EdgesOf(candidates), Roots(candidates), 0, map[])
  }

  /** The owner table as (actual, expected) pairs, by expected index. */
  function Items(owners: Owners, keys: seq<nat>): (r: seq<(nat, nat)>)
    requires forall e :: e in keys ==> e in owners
    ensures |r| == |keys| && forall i :: 0 <= i < |r| ==> r[i] == (owners[keys[i]], keys[i])
  {
    seq(|keys|, i requires 0 <= i < |keys| => (owners[keys[i]], keys[i]))
  }

  function PairKey(p: (nat, nat)): Key {
    [[p.0], [p.1]]
  }

  /** `sorted((actual, expected) for expected, actual in owners.items())`. */
  function SortedPairs(owners: Owners, n: nat): seq<(nat, nat)> {
    AscendingLists(owners.Keys, n);
    Sort(Items(owners, Ascending(owners.Keys, n)), PairKey)
  }

  /** `_assign_pairs`. */
  function Assigned(candidates: seq<Candidate>): seq<(nat, nat)> {
    SortedPairs(FinalOwners(candidates), Bound(candidates))
  }

  lemma {:induction false} AscendingCounts(keys: set<nat>, n: nat)
    requires forall k :: k in keys ==> k < n
    ensures |Ascending(keys, n)| == |keys|
  {
    if n > 0 {
      AscendingSame(keys, keys - {n - 1}, n - 1);
      AscendingCounts(keys - {n - 1}, n - 1);
    } else {
      assert keys == {};
    }
  }

  lemma {:induction false} AscendingSame(k1: set<nat>, k2: set<nat>, n: nat)
    requires forall k :: k < n ==> (k in k1 <==> k in k2)
    ensures Ascending(k1, n) == Ascending(k2, n)
  {
    if n > 0 { AscendingSame(k1, k2, n - 1); }
  }

  lemma FinalOwnersAreEdges(candidates: seq<Candidate>)
    ensures Matching(EdgesOf(candidates), FinalOwners(candidates))
    ensures forall e :: e in FinalOwners(candidates) ==> e < Bound(candidates)
  {
    RootsListEveryActual(candidates);
    ResultIsMatching(EdgesOf(candidates), Roots(candidates));
    var owners := FinalOwners(candidates);
    forall e | e in owners ensures e < Bound(candidates) {
      EdgesAreCandidates(candidates, owners[e], e);
    }
  }

  lemma PairsAreOwners(candidates: seq<Candidate>)
    ensures forall a, e :: (a, e) in Assigned(candidates) <==> e in FinalOwners(candidates) && FinalOwners(candidates)[e] == a
    ensures |Assigned(candidates)| == |FinalOwners(candidates)|
    ensures forall i, j :: 0 <= i < j < |Assigned(candidates)| ==> Assigned(candidates)[i] != Assigned(candidates)[j]
  {
    FinalOwnersAreEdges(candidates);
    var owners := FinalOwners(candidates);
    var keys := Ascending(owners.Keys, Bound(candidates));
    AscendingLists(owners.Keys, Bound(candidates));
    AscendingCounts(owners.Keys, Bound(candidates));
    var items := Items(owners, keys);
    var pairs := Assigned(candidates);
    assert |pairs| == |multiset(pairs)| == |multiset(items)| == |items|;
    forall a, e ensures (a, e) in pairs <==> e in owners && owners[e] == a {
      assert (a, e) in pairs <==> (a, e) in multiset(pairs);
      ItemsListOwners(owners, keys, a, e);
    }
    SameBagDistinct(items, pairs);
  }

  lemma ItemsListOwners(owners: Owners, keys: seq<nat>, a: nat, e: nat)
    requires forall k :: k in keys <==> k in owners
    ensures (a, e) in Items(owners, keys) <==> e in owners && owners[e] == a
  {
    var items := Items(owners, keys);
    if e in owners && owners[e] == a {
      var i :| 0 <= i < |keys| && keys[i] == e;
      assert items[i] == (a, e);
    }
  }

  lemma SameBagDistinct<T>(s: seq<T>, t: seq<T>)
    requires multiset(s) == multiset(t)
    requires forall i, j :: 0 <= i < j < |s| ==> s[i] != s[j]
    ensures forall i, j :: 0 <= i < j < |t| ==> t[i] != t[j]
  {
    forall i, j | 0 <= i < j < |t| ensures t[i] != t[j] {
      DistinctMultiplicity(s, t[i]);
      if t[i] == t[j] { MultiplicityAtLeastTwo(t, i, j); }
    }
  }

  lemma {:induction false} DistinctMultiplicity<T>(s: seq<T>, x: T)
    requires forall i, j :: 0 <= i < j < |s| ==> s[i] != s[j]
    ensures multiset(s)[x] <= 1
  {
    if s != [] {
      DistinctMultiplicity(s[1..], x);
      assert s == [s[0]] + s[1..];
      if x == s[0] { assert x !in s[1..]; }
    }
  }

  lemma MultiplicityAtLeastTwo<T>(t: seq<T>, i: nat, j: nat)
    requires i < j < |t| && t[i] == t[j]
    ensures multiset(t)[t[i]] >= 2
  {
    assert t == t[..j] + ([t[j]] + t[j + 1..]);
    assert t[..j][i] == t[i];
    assert t[i] in multiset(t[..j]);
  }

  /** The docstring of `_assign_pairs`: the pairs are candidates, no actual and no expected
      is used twice, and no other such choice of candidates is larger. */
  lemma AssignPairsIsMaximumMatching(candidates: seq<Candidate>, n: set<(nat, nat)>)
    requires IsMatchingSet(EdgesOf(candidates), n)
    ensures forall i :: 0 <= i < |Assigned(candidates)| ==>
              Edge(EdgesOf(candidates), Assigned(candidates)[i].0, Assigned(candidates)[i].1)
    ensures forall i, j :: 0 <= i < j < |Assigned(candidates)| ==>
              Assigned(candidates)[i].0 != Assigned(candidates)[j].0 && Assigned(candidates)[i].1 != Assigned(candidates)[j].1
    ensures |n| <= |Assigned(candidates)|
  {
    RootsListEveryActual(candidates);
    FinalOwnersAreEdges(candidates);
    PairsAreOwners(candidates);
    MaximumCardinality(EdgesOf(candidates), Roots(candidates), n);
    var pairs := Assigned(candidates);
    forall i | 0 <= i < |pairs| ensures Edge(EdgesOf(candidates), pairs[i].0, pairs[i].1) {
      assert (pairs[i].0, pairs[i].1) in pairs;
    }
    forall i, j | 0 <= i < j < |pairs| ensures pairs[i].0 != pairs[j].0 && pairs[i].1 != pairs[j].1 {
      assert (pairs[i].0, pairs[i].1) in pairs && (pairs[j].0, pairs[j].1) in pairs;
    }
  }

  // ---- which maximum matching it is ---------------------------------------------------------

  /** One root more, whether its search succeeds or fails. */
  lemma NextRoot(edges: Edges, roots: seq<nat>, i: nat, owners: Owners, dead: set<nat>) returns (later: set<nat>)
    requires i < |roots| && Distinct(roots) && Progress(edges, roots, i, owners, dead)
    ensures Progress(edges, roots, i + 1, AugmentFrom(edges, roots[i], 0, {}, owners).owners, later)
  {
    if AugmentFrom(edges, roots[i], 0, {}, owners).found {
      ProgressMatched(edges, roots, i, owners, dead);
      later := dead;
    } else {
      ProgressFailed(edges, roots, i, owners, dead);
      later := dead + AugmentFrom(edges, roots[i], 0, {}, owners).seen;
    }
  }

  /** `e` is the first target of `a`, and nobody else has an edge to it. */
  ghost predicate IsSoleTaker(edges: Edges, a: nat, e: nat) {
    a in edges && edges[a] != [] && edges[a][0] == e && forall b :: Edge(edges, b, e) ==> b == a
  }

  /** The state of the search when it comes to the p-th root. */
  lemma {:induction false} ComesTo(edges: Edges, roots: seq<nat>, i: nat, p: nat, owners: Owners, dead: set<nat>)
    returns (reached: Owners, region: set<nat>)
    requires i <= p < |roots| && Distinct(roots) && Progress(edges, roots, i, owners, dead)
    ensures Progress(edges, roots, p, reached, region)
    ensures OwnersHaveEdges(edges, owners) && OwnersHaveEdges(edges, reached)
    ensures MatchFrom(edges, roots, i, owners) == MatchFrom(edges, roots, p, reached)
    decreases p - i
  {
    if i == p {
      reached, region := owners, dead;
    } else {
      var later := NextRoot(edges, roots, i, owners, dead);
      reached, region := ComesTo(edges, roots, i + 1, p, AugmentFrom(edges, roots[i], 0, {}, owners).owners, later);
    }
  }

  /** Nobody but this root has an edge to its first target, so the target is free when the root
      is searched, and stays its own. */
  lemma FirstIsTaken(edges: Edges, roots: seq<nat>, p: nat, e: nat, owners: Owners, dead: set<nat>)
    requires p < |roots| && Distinct(roots) && Progress(edges, roots, p, owners, dead)
    requires IsSoleTaker(edges, roots[p], e)
    ensures var r := MatchFrom(edges, roots, p, owners); e in r && r[e] == roots[p]
  {
    FirstTargetIsFree(edges, roots, p, e, owners, dead);
    var later := NextRoot(edges, roots, p, owners, dead);
    OwnedStaysOwned(edges, roots, p + 1, AugmentFrom(edges, roots[p], 0, {}, owners).owners, later, e);
  }

  lemma OwnedStaysOwned(edges: Edges, roots: seq<nat>, i: nat, owners: Owners, dead: set<nat>, e: nat)
    requires i <= |roots| && Distinct(roots) && Progress(edges, roots, i, owners, dead) && e in owners
    ensures var r := MatchFrom(edges, roots, i, owners); e in r && Edge(edges, r[e], e)
  {
    var _ := MatchFromProgress(edges, roots, i, owners, dead);
  }

  lemma FirstTargetIsFree(edges: Edges, roots: seq<nat>, p: nat, e: nat, owners: Owners, dead: set<nat>)
    requires p < |roots| && Distinct(roots) && Progress(edges, roots, p, owners, dead)
    requires IsSoleTaker(edges, roots[p], e)
    ensures e !in owners && AugmentFrom(edges, roots[p], 0, {}, owners) == Search(true, {e}, owners[e := roots[p]])
  {
    if e in owners {
      assert Edge(edges, owners[e], e);
      assert Owns(owners, roots[p]);
      assert false;
    }
  }

  /** The first i roots all own their first targets, and nothing else is owned. */
  ghost predicate FirstsOwned(edges: Edges, roots: seq<nat>, i: nat, owners: Owners)
    requires i <= |roots|
  {
    && (forall j :: 0 <= j < i ==> roots[j] in edges && edges[roots[j]] != [] && edges[roots[j]][0] in owners && owners[edges[roots[j]][0]] == roots[j])
    && (forall e :: e in owners ==> owners[e] in roots[..i])
  }

  /** Roots with different first targets all get them. */
  lemma {:induction false} DifferentFirstsAreKept(edges: Edges, roots: seq<nat>, i: nat, owners: Owners)
    requires i <= |roots| && FirstsOwned(edges, roots, i, owners) && OwnersHaveEdges(edges, owners)
    requires forall a :: a in roots ==> a in edges && edges[a] != []
    requires forall e :: e in owners ==> edges[owners[e]][0] == e
    requires forall j, k :: 0 <= j < k < |roots| ==> edges[roots[j]][0] != edges[roots[k]][0]
    ensures FirstsOwned(edges, roots, |roots|, MatchFrom(edges, roots, i, owners))
    ensures forall e :: e in MatchFrom(edges, roots, i, owners) ==> edges[MatchFrom(edges, roots, i, owners)[e]][0] == e
    decreases |roots| - i
  {
    if i < |roots| {
      var a, e := roots[i], edges[roots[i]][0];
      assert e !in owners;
      var next := owners[e := a];
      assert AugmentFrom(edges, a, 0, {}, owners).owners == next;
      assert roots[..i + 1] == roots[..i] + [a];
      DifferentFirstsAreKept(edges, roots, i + 1, next);
    }
  }

  lemma {:induction false} TakersCount(edges: Edges, owners: Owners, keys: set<nat>)
    requires Matching(edges, owners) && keys <= owners.Keys
    ensures |Takers(owners, keys)| == |keys|
  {
    if keys != {} {
      var k :| k in keys;
      TakersCount(edges, owners, keys - {k});
      assert Takers(owners, keys) == Takers(owners, keys - {k}) + {owners[k]};
      assert owners[k] !in Takers(owners, keys - {k});
    }
  }

  ghost predicate Covers(n: set<(nat, nat)>, a: nat) {
    exists p :: p in n && p.0 == a
  }

  /** The part of a matching that covers some findings has one pair for each of them. */
  lemma {:induction false} CoveringPairs(n: set<(nat, nat)>, actuals: set<nat>)
    requires forall p, q :: p in n && q in n && (p.0 == q.0 || p.1 == q.1) ==> p == q
    requires forall a :: a in actuals ==> Covers(n, a)
    ensures |set p | p in n && p.0 in actuals| == |actuals|
  {
    var part := set p | p in n && p.0 in actuals;
    if actuals == {} {
      assert part == {};
    } else {
      var a :| a in actuals;
      var q :| q in n && q.0 == a;
      CoveringPairs(n, actuals - {a});
      assert part == (set p | p in n && p.0 in actuals - {a}) + {q};
    }
  }

  /** A search that fails proves its root blocked: it and the findings it met share fewer
      labels than they are, so a matching that covers the others cannot cover the root. */
  lemma FailedRootIsBlocked(edges: Edges, a: nat, owners: Owners, n: set<(nat, nat)>)
    requires a in edges && Matching(edges, owners) && OwnersHaveEdges(edges, owners) && !Owns(owners, a)
    requires !AugmentFrom(edges, a, 0, {}, owners).found && IsMatchingSet(edges, n)
    requires forall b :: Owns(owners, b) ==> Covers(n, b)
    ensures !Covers(n, a)
  {
    var seen := AugmentFrom(edges, a, 0, {}, owners).seen;
    FailedSearchCertificate(edges, a, 0, {}, owners);
    var met := Takers(owners, seen);
    TakersCount(edges, owners, seen);
    if Covers(n, a) {
      var part := set p | p in n && p.0 in met + {a};
      assert a !in met;
      CoveringPairs(n, met + {a});
      forall p | p in part ensures p.1 in seen {
        assert Edge(edges, p.0, p.1);
      }
      MatchingWithinCover(part, {}, seen);
    }
  }

  lemma UnmatchedRootIsBlocked(edges: Edges, roots: seq<nat>, p: nat, owners: Owners, dead: set<nat>, n: set<(nat, nat)>)
    requires p < |roots| && Distinct(roots) && Progress(edges, roots, p, owners, dead) && IsMatchingSet(edges, n)
    requires !Owns(MatchFrom(edges, roots, p, owners), roots[p])
    requires forall j :: 0 <= j < p && Owns(MatchFrom(edges, roots, p, owners), roots[j]) ==> Covers(n, roots[j])
    ensures !Covers(n, roots[p])
  {
    RootIsNew(edges, roots, p, owners, dead);
    UnmatchedMeansFailed(edges, roots, p, owners, dead);
    var _ := MatchFromProgress(edges, roots, p, owners, dead);
    forall b | Owns(owners, b) ensures Covers(n, b) {
      assert b in roots[..p];
      var j :| 0 <= j < p && roots[..p][j] == b;
    }
    FailedRootIsBlocked(edges, roots[p], owners, n);
  }

  lemma UnmatchedMeansFailed(edges: Edges, roots: seq<nat>, p: nat, owners: Owners, dead: set<nat>)
    requires p < |roots| && Distinct(roots) && Progress(edges, roots, p, owners, dead)
    requires !Owns(MatchFrom(edges, roots, p, owners), roots[p])
    ensures !AugmentFrom(edges, roots[p], 0, {}, owners).found
  {
    var r := AugmentFrom(edges, roots[p], 0, {}, owners);
    if r.found {
      RootIsNew(edges, roots, p, owners, dead);
      var path := SuccessfulSearchFlipsPath(edges, roots[p], 0, {}, owners);
      FlipKeepsMatching(edges, owners, roots[p], path);
      var later := NextRoot(edges, roots, p, owners, dead);
      var _ := MatchFromProgress(edges, roots, p + 1, r.owners, later);
    }
  }

  lemma RootIsNew(edges: Edges, roots: seq<nat>, i: nat, owners: Owners, dead: set<nat>)
    requires i < |roots| && Distinct(roots) && Progress(edges, roots, i, owners, dead)
    ensures !Owns(owners, roots[i])
  {
  }

  lemma RootIndex(candidates: seq<Candidate>, a: nat) returns (p: nat)
    requires a in EdgesOf(candidates)
    ensures AllRootsListed(EdgesOf(candidates), Roots(candidates)) && p < |Roots(candidates)| && Roots(candidates)[p] == a
    ensures forall j :: 0 <= j < p ==> Roots(candidates)[j] < a
  {
    RootsListEveryActual(candidates);
    AscendingLists(EdgesOf(candidates).Keys, Bound(candidates));
    p :| 0 <= p < |Roots(candidates)| && Roots(candidates)[p] == a;
  }

  /** The same for the final owners. */
  lemma UnownedIsBlocked(candidates: seq<Candidate>, a: nat, n: set<(nat, nat)>)
    requires a in EdgesOf(candidates) && IsMatchingSet(EdgesOf(candidates), n) && !Owns(FinalOwners(candidates), a)
    requires forall b: nat :: b < a && Owns(FinalOwners(candidates), b) ==> Covers(n, b)
    ensures !Covers(n, a)
  {
    var p := RootIndex(candidates, a);
    var owners, dead := ComesTo(EdgesOf(candidates), Roots(candidates), 0, p, map[], {});
    UnmatchedRootIsBlocked(EdgesOf(candidates), Roots(candidates), p, owners, dead, n);
  }

  /** A finding left without a label is one that no matching can add to the findings before
      it that have one: ties for a label go to the earlier finding. */
  lemma UnassignedIsBlocked(candidates: seq<Candidate>, a: nat, n: set<(nat, nat)>)
    requires IsMatchingSet(EdgesOf(candidates), n) && forall e :: (a, e) !in Assigned(candidates)
    requires forall b: nat, e: nat :: b < a && (b, e) in Assigned(candidates) ==> Covers(n, b)
    ensures !Covers(n, a)
  {
    var owners := FinalOwners(candidates);
    PairsAreOwners(candidates);
    if Covers(n, a) {
      var q :| q in n && q.0 == a;
      assert Edge(EdgesOf(candidates), a, q.1);
      forall b: nat | b < a && Owns(owners, b) ensures Covers(n, b) {
        var e :| e in owners && owners[e] == b;
        assert (b, e) in Assigned(candidates);
      }
      forall e | e in owners ensures owners[e] != a { assert (a, e) !in Assigned(candidates); }
      UnownedIsBlocked(candidates, a, n);
    }
  }

  /** A finding that is alone in wanting its first label gets it. */
  lemma FirstLabelIsAssigned(candidates: seq<Candidate>, a: nat, e: nat)
    requires IsSoleTaker(EdgesOf(candidates), a, e)
    ensures (a, e) in Assigned(candidates)
  {
    var p := RootIndex(candidates, a);
    var owners, dead := ComesTo(EdgesOf(candidates), Roots(candidates), 0, p, map[], {});
    FirstIsTaken(EdgesOf(candidates), Roots(candidates), p, e, owners, dead);
    PairsAreOwners(candidates);
  }

  lemma {:induction false} EveryListStarts(candidates: seq<Candidate>)
    ensures forall a :: a in EdgesOf(candidates) ==> EdgesOf(candidates)[a] != []
  {
    if candidates != [] { EveryListStarts(candidates[..|candidates| - 1]); }
  }

  /** No two findings have the same first label. */
  ghost predicate DifferentFirsts(edges: Edges) {
    forall b, c :: b in edges && c in edges && edges[b] != [] && edges[c] != [] && b != c ==> edges[b][0] != edges[c][0]
  }

  /** If all first labels are different, they are exactly what is assigned. */
  lemma DifferentFirstLabelsAreAssigned(candidates: seq<Candidate>, a: nat, e: nat)
    requires DifferentFirsts(EdgesOf(candidates))
    ensures (a, e) in Assigned(candidates)
            <==> a in EdgesOf(candidates) && EdgesOf(candidates)[a] != [] && EdgesOf(candidates)[a][0] == e
  {
    RootsListEveryActual(candidates);
    EveryListStarts(candidates);
    var edges, roots := EdgesOf(candidates), Roots(candidates);
    forall j, k | 0 <= j < k < |roots| ensures edges[roots[j]][0] != edges[roots[k]][0] {
      assert roots[j] in edges && roots[k] in edges && roots[j] != roots[k];
    }
    DifferentFirstsAreKept(edges, roots, 0, map[]);
    PairsAreOwners(candidates);
    if a in edges {
      var p :| 0 <= p < |roots| && roots[p] == a;
    }
  }

  // ---- the search on mutable state ------------------------------------------------------

  /** The dictionaries `_assign_pairs` and its nested `augment` share. */
  class Matcher {
    var edges: Edges
    var owners: Owners
    var seen: set<nat>

    constructor (candidates: seq<Candidate>)
      ensures edges == EdgesOf(candidates) && owners == map[]
    {
      edges, owners, seen := map[], map[], {};
      new;
      for i := 0 to |candidates|
        invariant edges == EdgesOf(candidates[..i]) && owners == map[]
      {
        var c := candidates[i];
        assert candidates[..i + 1][..i] == candidates[..i];
        edges := edges[c.actual := (if c.actual in edges then edges[c.actual] else []) + [c.expected]];
      }
      assert candidates[..|candidates|] == candidates;
    }

    method Augment(actual: nat) returns (found: bool)
      requires actual in edges && seen <= Targets(edges) && OwnersHaveEdges(edges, owners)
      modifies this`seen, this`owners
      ensures Search(found, seen, owners) == AugmentFrom(edges, actual, 0, old(seen), old(owners))
      decreases Targets(edges) - seen
    {
      var k := 0;
      while k < |edges[actual]|
        invariant 0 <= k <= |edges[actual]|
        invariant old(seen) <= seen <= Targets(edges) && OwnersHaveEdges(edges, owners)
        invariant AugmentFrom(edges, actual, k, seen, owners) == AugmentFrom(edges, actual, 0, old(seen), old(owners))
      {
        var expected := edges[actual][k];
        if expected !in seen {
          seen := seen + {expected};
          var free := expected !in owners;
          if !free {
            free := Augment(owners[expected]);
          }
          if free {
            owners := owners[expected := actual];
            return true;
          }
        }
        k := k + 1;
      }
      return false;
    }
  }

  method AssignPairs(candidates: seq<Candidate>) returns (pairs: seq<(nat, nat)>)
    ensures pairs == Assigned(candidates)
  {
    RootsListEveryActual(candidates);
    var matcher := new Matcher(candidates);
    var roots := Roots(candidates);
    for i := 0 to |roots|
      invariant matcher.edges == EdgesOf(candidates) && OwnersHaveEdges(matcher.edges, matcher.owners)
      invariant MatchFrom(matcher.edges, roots, i, matcher.owners) == FinalOwners(candidates)
    {
      matcher.seen := {};
      var _ := matcher.Augment(roots[i]);
    }
    pairs := SortedPairs(matcher.owners, Bound(candidates));
  }
}
