/**
 * The bounded walk over a graph of nested errors (`cause` and `errors` edges, cycles
 * allowed) behind `errorHasCode` and `isUniqueViolationWithConstraint`.
 */
module ErrorSearch {
  import opened Prelude

  /** Object identity of one JavaScript error object. */
  type ObjectId = nat

  /** A value found behind an edge: an object, or a primitive that the walk skips. */
  datatype Ref = Primitive | Object(id: ObjectId)

  datatype ErrorObject = ErrorObject(
    code: Option<string>, constraint: Option<string>, cause: Option<Ref>, errors: seq<Ref>)

  type Graph = map<ObjectId, ErrorObject>

  const MAX_ERROR_OBJECTS: nat := 64

  function Edges(e: ErrorObject): seq<Ref> {
    (if e.cause.Some? then [e.cause.value] else []) + e.errors
  }

  ghost predicate Closed(g: Graph) {
    forall n, k :: n in g && 0 <= k < |Edges(g[n])| && Edges(g[n])[k].Object? ==> Edges(g[n])[k].id in g
  }

  predicate Step(g: Graph, a: ObjectId, b: ObjectId) {
    a in g && Object(b) in Edges(g[a])
  }

  ghost predicate Path(g: Graph, root: Ref, path: seq<ObjectId>) {
    |path| > 0 && root == Object(path[0]) && root.id in g &&
    forall k :: 0 < k < |path| ==> Step(g, path[k - 1], path[k])
  }

  ghost predicate Reachable(g: Graph, root: Ref, n: ObjectId) {
    exists path :: Path(g, root, path) && path[|path| - 1] == n
  }

  ghost function ReachSet(g: Graph, root: Ref): set<ObjectId> {
    set n | n in g && Reachable(g, root, n)
  }

  /** `typeof code === 'string' && predicate(code)`. */
  predicate CodeMatches(accepts: string -> bool, e: ErrorObject) {
    e.code.Some? && accepts(e.code.value)
  }

  /** SQLSTATE 23505 raised by one named constraint. */
  predicate IsUniqueViolationOf(name: string, e: ErrorObject) {
    e.code == Some("23505") && e.constraint == Some(name)
  }

  lemma ExtendPath(g: Graph, root: Ref, a: ObjectId, b: ObjectId)
    requires Reachable(g, root, a) && Step(g, a, b)
    ensures Reachable(g, root, b)
  {
    var path :| Path(g, root, path) && path[|path| - 1] == a;
    assert Path(g, root, path + [b]);
    assert (path + [b])[|path|] == b;
  }

  /** A set that holds the root and is closed under edges holds everything reachable. */
  lemma {:induction false} ClosedSetCoversPath(g: Graph, root: Ref, path: seq<ObjectId>, seen: set<ObjectId>)
    requires Path(g, root, path) && path[0] in seen
    requires forall a, b :: a in seen && Step(g, a, b) ==> b in seen
    ensures path[|path| - 1] in seen
  {
    if |path| > 1 {
      var shorter := path[..|path| - 1];
      assert Path(g, root, shorter);
      ClosedSetCoversPath(g, root, shorter, seen);
      assert Step(g, shorter[|shorter| - 1], path[|path| - 1]);
    }
  }

  /** The root, the cause and every nested error of what is reachable: no more, since any such set has them all. */
  lemma ReachSetIsLeast(g: Graph, root: Ref, seen: set<ObjectId>)
    requires Closed(g)
    requires root.Object? ==> root.id in seen
    requires forall n, b :: n in seen && n in g && (g[n].cause == Some(Object(b)) || Object(b) in g[n].errors) ==>
      b in seen
    ensures ReachSet(g, root) <= seen
  {
    forall n | n in ReachSet(g, root) ensures n in seen {
      var path :| Path(g, root, path) && path[|path| - 1] == n;
      ClosedSetCoversPath(g, root, path, seen);
    }
  }

  lemma ReachSetFollows(g: Graph, root: Ref, n: ObjectId, b: ObjectId)
    requires Closed(g)
    ensures root.Object? && root.id in g ==> root.id in ReachSet(g, root)
    ensures n in ReachSet(g, root) && (g[n].cause == Some(Object(b)) || Object(b) in g[n].errors) ==>
      b in ReachSet(g, root)
  {
    if root.Object? && root.id in g { assert Path(g, root, [root.id]); }
    if n in ReachSet(g, root) && (g[n].cause == Some(Object(b)) || Object(b) in g[n].errors) {
      assert Object(b) in Edges(g[n]) by {
        if g[n].cause == Some(Object(b)) {
          assert Edges(g[n])[0] == Object(b);
        } else {
          var k :| 0 <= k < |g[n].errors| && g[n].errors[k] == Object(b);
          assert Edges(g[n])[|Edges(g[n])| - |g[n].errors| + k] == Object(b);
        }
      }
      var k :| 0 <= k < |Edges(g[n])| && Edges(g[n])[k] == Object(b);
      ExtendPath(g, root, n, b);
    }
  }

  /** What the walk knows: everything seen is reachable, and every edge out of a visited object is seen or queued. */
  ghost predicate Walk(g: Graph, root: Ref, candidates: seq<Ref>, visited: set<ObjectId>) {
    visited <= ReachSet(g, root) &&
    (forall c :: c in candidates && c.Object? ==> c.id in ReachSet(g, root)) &&
    (root.Object? ==> root.id in visited || root in candidates) &&
    (forall a, b :: a in visited && Step(g, a, b) ==> b in visited || Object(b) in candidates)
  }

  lemma Skip(g: Graph, root: Ref, candidates: seq<Ref>, visited: set<ObjectId>)
    requires Walk(g, root, candidates, visited) && |candidates| > 0
    requires candidates[0].Primitive? || candidates[0].id in visited
    ensures Walk(g, root, candidates[1..], visited)
  {
    assert candidates == [candidates[0]] + candidates[1..];
  }

  lemma Visit(g: Graph, root: Ref, candidates: seq<Ref>, visited: set<ObjectId>)
    requires Closed(g) && Walk(g, root, candidates, visited) && |candidates| > 0
    requires candidates[0].Object?
    ensures candidates[0].id in g
    ensures Walk(g, root, candidates[1..] + Edges(g[candidates[0].id]), visited + {candidates[0].id})
  {
    var n := candidates[0].id;
    var edges := Edges(g[n]);
    assert candidates == [candidates[0]] + candidates[1..];
    forall c | c in edges && c.Object? ensures c.id in ReachSet(g, root) {
      assert Step(g, n, c.id);
      ExtendPath(g, root, n, c.id);
      var k :| 0 <= k < |edges| && edges[k] == c;
    }
  }

  /**
   * The breadth-first walk shared by both callers, with the service's queue, visited set and
   * counter. It ends on every graph; a positive answer is sound for
   * any graph, and no answer is missed while at most 64 objects are reachable.
   */
  method Search(g: Graph, root: Ref, matches: ErrorObject -> bool) returns (found: bool)
    requires Closed(g) && (root.Object? ==> root.id in g)
    ensures found ==> exists n :: n in ReachSet(g, root) && matches(g[n])
    ensures |ReachSet(g, root)| <= MAX_ERROR_OBJECTS && (exists n :: n in ReachSet(g, root) && matches(g[n])) ==> found
  {
    var candidates := [root];
    var visited: set<ObjectId> := {};
    var examined := 0;
    if root.Object? {
      assert Path(g, root, [root.id]);
    }
    while |candidates| > 0 && examined < MAX_ERROR_OBJECTS
      invariant examined == |visited| <= MAX_ERROR_OBJECTS
      invariant Walk(g, root, candidates, visited)
      invariant forall n :: n in visited ==> !matches(g[n])
      decreases MAX_ERROR_OBJECTS - examined, |candidates|
    {
      var candidate := candidates[0];
      if candidate.Primitive? || candidate.id in visited {
        Skip(g, root, candidates, visited);
        candidates := candidates[1..];
        continue;
      }
      Visit(g, root, candidates, visited);
      candidates := candidates[1..];
      visited := visited + {candidate.id};
      examined := examined + 1;
      var e := g[candidate.id];
      if matches(e) {
        assert candidate.id in ReachSet(g, root);
        return true;
      }
      candidates := PushEdges(candidates, e);
    }
    Exhausted(g, root, candidates, visited, matches);
    return false;
  }

  /** The two pushes at the end of one step: the cause first, then the nested errors in order. */
  method PushEdges(before: seq<Ref>, e: ErrorObject) returns (candidates: seq<Ref>)
    ensures candidates == before + Edges(e)
  {
    candidates := before;
    if e.cause.Some? {
      candidates := candidates + [e.cause.value];
    }
    ghost var start := candidates;
    for i := 0 to |e.errors|
      invariant candidates == start + e.errors[..i]
    {
      candidates := candidates + [e.errors[i]];
    }
  }

  lemma Exhausted(g: Graph, root: Ref, candidates: seq<Ref>, visited: set<ObjectId>, matches: ErrorObject -> bool)
    requires Closed(g) && Walk(g, root, candidates, visited)
    requires candidates == [] || |visited| == MAX_ERROR_OBJECTS
    requires forall n :: n in visited ==> !matches(g[n])
    ensures |ReachSet(g, root)| <= MAX_ERROR_OBJECTS ==> forall n :: n in ReachSet(g, root) ==> !matches(g[n])
  {
    if |ReachSet(g, root)| <= MAX_ERROR_OBJECTS {
      if candidates == [] {
        forall n | n in ReachSet(g, root) ensures n in visited {
          var path :| Path(g, root, path) && path[|path| - 1] == n;
          ClosedSetCoversPath(g, root, path, visited);
        }
      } else {
        SubsetsAreNoLarger(visited, ReachSet(g, root));
      }
    }
  }

  method ErrorHasCode(g: Graph, root: Ref, accepts: string -> bool) returns (found: bool)
    requires Closed(g) && (root.Object? ==> root.id in g)
    ensures found ==> exists n :: n in ReachSet(g, root) && g[n].code.Some? && accepts(g[n].code.value)
    ensures (exists n :: n in ReachSet(g, root) && g[n].code.Some? && accepts(g[n].code.value)) ==>
      found || |ReachSet(g, root)| > 64
  {
    found := Search(g, root, e => CodeMatches(accepts, e));
  }

  method IsUniqueViolationWithConstraint(g: Graph, root: Ref, name: string) returns (found: bool)
    requires Closed(g) && (root.Object? ==> root.id in g)
    ensures found ==>
      exists n :: n in ReachSet(g, root) && g[n].code == Some("23505") && g[n].constraint == Some(name)
    ensures (exists n :: n in ReachSet(g, root) && g[n].code == Some("23505") && g[n].constraint == Some(name)) ==>
      found || |ReachSet(g, root)| > 64
  {
    found := Search(g, root, e => IsUniqueViolationOf(name, e));
  }
}
