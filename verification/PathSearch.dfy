/**
 The bounded path search over relation facts.

 The worklist search is proved to return a prefix of a level-by-level enumeration of the
 allowed walks, and the enumeration is proved to hold exactly those walks.
 */
module PathSearch {
  import opened Wrappers

  type Node = int

  datatype Fact = Fact(id: nat, predicate_: nat, subject: Node, object_: Node)

  type Path = seq<Fact>

  /** What one search is about: the facts, the allowed predicates (all when empty), the source and the depth bound. */
  datatype Search = Search(facts: seq<Fact>, allow: set<nat>, source: Node, maxDepth: int)

  datatype PathRecord = PathRecord(depth: nat, source: Node, target: Node, nodes: seq<Node>, relationships: seq<Fact>)

  predicate Allowed(g: Search, f: Fact) {
    g.allow == {} || f.predicate_ in g.allow
  }

  function End(g: Search, p: Path): Node {
    if p == [] then g.source else p[|p| - 1].object_
  }

  // ----- the walks -----

  /** The node a path stands at before its step `i`. */
  function NodeBefore(g: Search, p: Path, i: nat): Node
    requires i <= |p|
  {
    if i == 0 then g.source else p[i - 1].object_
  }

  /** An allowed walk from the source in which no step's object is the subject of an earlier step. */
  ghost predicate IsWalk(g: Search, p: Path) {
    && (forall i :: 0 <= i < |p| ==> p[i] in g.facts && (g.allow == {} || p[i].predicate_ in g.allow))
    && (forall i {:trigger NodeBefore(g, p, i)} :: 0 <= i < |p| ==> p[i].subject == NodeBefore(g, p, i))
    && (forall i, j :: 0 <= i < j < |p| ==> p[i].subject != p[j].object_)
  }

  predicate Hits(g: Search, target: Option<Node>, p: Path) {
    target.None? || End(g, p) == target.value
  }

  // ----- the level-by-level enumeration -----

  /** The allowed facts leaving a node, in index order. */
  function Out(g: Search, facts: seq<Fact>, node: Node): (r: seq<Fact>)
    ensures forall f :: f in r <==> f in facts && f.subject == node && Allowed(g, f)
  {
    if facts == [] then []
    else
      var n := |facts| - 1;
      if facts[n].subject == node && Allowed(g, facts[n]) then Out(g, facts[..n], node) + [facts[n]]
      else Out(g, facts[..n], node)
  }

  predicate Revisits(p: Path, node: Node) {
    exists i :: 0 <= i < |p| && p[i].subject == node
  }

  /** The extensions of a path by `outs`, leaving out those that return to an earlier subject. */
  function Extend(p: Path, outs: seq<Fact>): (r: seq<Path>)
    ensures |r| <= |outs|
  {
    if outs == [] then []
    else
      var n := |outs| - 1;
      if Revisits(p, outs[n].object_) then Extend(p, outs[..n])
      else Extend(p, outs[..n]) + [p + [outs[n]]]
  }

  function Kids(g: Search, p: Path): seq<Path> {
    if |p| >= g.maxDepth then [] else Extend(p, Out(g, g.facts, End(g, p)))
  }

  function Children(g: Search, ps: seq<Path>): seq<Path> {
    if ps == [] then [] else Children(g, ps[..|ps| - 1]) + Kids(g, ps[|ps| - 1])
  }

  function Level(g: Search, k: nat): seq<Path> {
    if k == 0 then [[]] else Children(g, Level(g, k - 1))
  }

  /** Levels 1 to `k`, shortest first. */
  function Levels(g: Search, k: nat): seq<Path> {
    if k == 0 then [] else Levels(g, k - 1) + Level(g, k)
  }

  function Select(g: Search, target: Option<Node>, ps: seq<Path>): seq<Path> {
    if ps == [] then []
    else
      var n := |ps| - 1;
      if Hits(g, target, ps[n]) then Select(g, target, ps[..n]) + [ps[n]] else Select(g, target, ps[..n])
  }

  function Depth(g: Search): nat {
    if g.maxDepth < 0 then 0 else g.maxDepth
  }

  /** Everything an uncapped search returns. */
  function AllPaths(g: Search, target: Option<Node>): seq<Path> {
    Select(g, target, Levels(g, Depth(g)))
  }

  // ----- what the enumeration holds -----

  lemma {:induction false} ExtendExact(p: Path, outs: seq<Fact>, q: Path)
    ensures q in Extend(p, outs) <==>
            |q| == |p| + 1 && q[..|p|] == p && q[|p|] in outs && !Revisits(p, q[|p|].object_)
  {
    if outs != [] {
      var n := |outs| - 1;
      ExtendExact(p, outs[..n], q);
      assert outs == outs[..n] + [outs[n]];
      if |q| == |p| + 1 && q[..|p|] == p {
        assert q == p + [q[|p|]];
      }
    }
  }

  lemma {:induction false} ChildrenExact(g: Search, ps: seq<Path>, q: Path)
    ensures q in Children(g, ps) <==>
            |q| > 0 && q[..|q| - 1] in ps && |q| <= g.maxDepth
            && q[|q| - 1] in Out(g, g.facts, End(g, q[..|q| - 1])) && !Revisits(q[..|q| - 1], q[|q| - 1].object_)
  {
    if ps != [] {
      var n := |ps| - 1;
      ChildrenExact(g, ps[..n], q);
      ExtendExact(ps[n], Out(g, g.facts, End(g, ps[n])), q);
      assert ps == ps[..n] + [ps[n]];
    }
  }

  lemma WalkShortens(g: Search, p: Path, f: Fact)
    requires IsWalk(g, p + [f])
    ensures IsWalk(g, p) && f.subject == End(g, p) && !Revisits(p, f.object_)
  {
    var q := p + [f];
    forall i | 0 <= i < |p| ensures p[i].subject == NodeBefore(g, p, i) {
      assert q[i].subject == NodeBefore(g, q, i);
    }
    assert q[|p|].subject == NodeBefore(g, q, |p|);
    forall i | 0 <= i < |p| ensures p[i] in g.facts && Allowed(g, p[i]) && p[i].subject != f.object_ {
      assert q[i] in g.facts && Allowed(g, q[i]) && q[i].subject != q[|p|].object_;
    }
    forall i, j | 0 <= i < j < |p| ensures p[i].subject != p[j].object_ {
      assert q[i].subject != q[j].object_;
    }
  }

  lemma WalkGrows(g: Search, p: Path, f: Fact)
    requires IsWalk(g, p) && f in g.facts && Allowed(g, f)
    requires f.subject == End(g, p) && !Revisits(p, f.object_)
    ensures IsWalk(g, p + [f])
  {
    var q := p + [f];
    forall i | 0 <= i < |q| ensures q[i].subject == NodeBefore(g, q, i) {
      if i < |p| {
        assert p[i].subject == NodeBefore(g, p, i);
      }
    }
    forall i, j | 0 <= i < j < |q| ensures q[i].subject != q[j].object_ {
      assert j < |p| ==> p[i].subject != p[j].object_;
    }
  }

  lemma WalkLast(g: Search, q: Path)
    requires |q| > 0
    ensures var p, f := q[..|q| - 1], q[|q| - 1];
      IsWalk(g, q) <==> IsWalk(g, p) && f in Out(g, g.facts, End(g, p)) && !Revisits(p, f.object_)
  {
    var p, f := q[..|q| - 1], q[|q| - 1];
    assert q == p + [f];
    if IsWalk(g, q) {
      assert q[|p|] in g.facts && Allowed(g, q[|p|]);
      WalkShortens(g, p, f);
    } else if IsWalk(g, p) && f in Out(g, g.facts, End(g, p)) && !Revisits(p, f.object_) {
      WalkGrows(g, p, f);
    }
  }

  /** A level's walks, in terms of the level before. */
  lemma NextLevelExact(g: Search, k: nat, q: Path)
    ensures q in Level(g, k + 1) <==>
            |q| > 0 && q[..|q| - 1] in Level(g, k) && |q| <= g.maxDepth
            && q[|q| - 1] in Out(g, g.facts, End(g, q[..|q| - 1])) && !Revisits(q[..|q| - 1], q[|q| - 1].object_)
  {
    hide Out, Revisits, End, Kids;
    ChildrenExact(g, Level(g, k), q);
  }

  lemma LevelZero(g: Search, q: Path)
    ensures q in Level(g, 0) <==> q == []
    ensures IsWalk(g, [])
  {
  }

  /** Level `k` holds exactly the allowed walks of length `k`. */
  lemma {:induction false} LevelExact(g: Search, k: nat, q: Path)
    requires k <= Depth(g)
    ensures q in Level(g, k) <==> IsWalk(g, q) && |q| == k
  {
    hide Out, Revisits, IsWalk, End, Level;
    if k == 0 {
      LevelZero(g, q);
    } else {
      NextLevelExact(g, k - 1, q);
      if |q| > 0 {
        LevelExact(g, k - 1, q[..|q| - 1]);
        WalkLast(g, q);
      }
    }
  }

  lemma {:induction false} LevelsExact(g: Search, k: nat, q: Path)
    requires k <= Depth(g)
    ensures q in Levels(g, k) <==> IsWalk(g, q) && 1 <= |q| <= k
  {
    if k > 0 {
      LevelsExact(g, k - 1, q);
      LevelExact(g, k, q);
    }
  }

  lemma {:induction false} SelectExact(g: Search, target: Option<Node>, ps: seq<Path>, q: Path)
    ensures q in Select(g, target, ps) <==> q in ps && Hits(g, target, q)
  {
    if ps != [] {
      SelectExact(g, target, ps[..|ps| - 1], q);
      assert ps == ps[..|ps| - 1] + [ps[|ps| - 1]];
    }
  }

  /** An uncapped search returns exactly the allowed walks of length 1 to `maxDepth` that reach the target. */
  lemma AllPathsExact(g: Search, target: Option<Node>, q: Path)
    ensures q in AllPaths(g, target) <==> IsWalk(g, q) && 1 <= |q| <= g.maxDepth && Hits(g, target, q)
  {
    LevelsExact(g, Depth(g), q);
    SelectExact(g, target, Levels(g, Depth(g)), q);
  }

  ghost predicate Distinct<T>(xs: seq<T>) {
    forall i, j :: 0 <= i < j < |xs| ==> xs[i] != xs[j]
  }

  ghost predicate ShortestFirst(ps: seq<Path>) {
    forall i, j :: 0 <= i < j < |ps| ==> |ps[i]| <= |ps[j]|
  }

  lemma DistinctAppend<T>(a: seq<T>, b: seq<T>)
    requires Distinct(a) && Distinct(b) && forall x :: x in a ==> x !in b
    ensures Distinct(a + b)
  {
    forall i, j | 0 <= i < j < |a + b| ensures (a + b)[i] != (a + b)[j] {
      if i < |a| <= j {
        assert a[i] in a && b[j - |a|] in b;
      }
    }
  }

  lemma {:induction false} OutDistinct(g: Search, facts: seq<Fact>, node: Node)
    requires Distinct(facts)
    ensures Distinct(Out(g, facts, node))
  {
    if facts != [] {
      OutDistinct(g, facts[..|facts| - 1], node);
      assert facts[|facts| - 1] !in facts[..|facts| - 1];
    }
  }

  lemma {:induction false} ExtendDistinct(p: Path, outs: seq<Fact>)
    requires Distinct(outs)
    ensures Distinct(Extend(p, outs))
  {
    if outs != [] {
      var n := |outs| - 1;
      ExtendDistinct(p, outs[..n]);
      ExtendExact(p, outs[..n], p + [outs[n]]);
      assert outs[n] !in outs[..n];
    }
  }

  lemma {:induction false} ChildrenDistinct(g: Search, ps: seq<Path>)
    requires Distinct(ps) && Distinct(g.facts)
    ensures Distinct(Children(g, ps))
  {
    if ps != [] {
      var n := |ps| - 1;
      var kids := Kids(g, ps[n]);
      ChildrenDistinct(g, ps[..n]);
      OutDistinct(g, g.facts, End(g, ps[n]));
      ExtendDistinct(ps[n], Out(g, g.facts, End(g, ps[n])));
      forall q | q in Children(g, ps[..n]) ensures q !in kids {
        ChildrenExact(g, ps[..n], q);
        ExtendExact(ps[n], Out(g, g.facts, End(g, ps[n])), q);
        assert ps[n] !in ps[..n];
      }
      DistinctAppend(Children(g, ps[..n]), kids);
    }
  }

  lemma {:induction false} LevelDistinct(g: Search, k: nat)
    requires Distinct(g.facts)
    ensures Distinct(Level(g, k))
  {
    hide Children;
    if k > 0 {
      LevelDistinct(g, k - 1);
      ChildrenDistinct(g, Level(g, k - 1));
    }
  }

  lemma {:induction false} LevelsOrdered(g: Search, k: nat)
    requires k <= Depth(g)
    ensures ShortestFirst(Levels(g, k))
    ensures Distinct(g.facts) ==> Distinct(Levels(g, k))
  {
    hide Children, IsWalk;
    if k > 0 {
      LevelsOrdered(g, k - 1);
      forall q | q in Levels(g, k - 1) ensures |q| < k {
        LevelsExact(g, k - 1, q);
      }
      forall q | q in Level(g, k) ensures |q| == k {
        LevelExact(g, k, q);
      }
      if Distinct(g.facts) {
        LevelDistinct(g, k);
        DistinctAppend(Levels(g, k - 1), Level(g, k));
      }
    }
  }

  lemma {:induction false} SelectOrdered(g: Search, target: Option<Node>, ps: seq<Path>)
    ensures ShortestFirst(ps) ==> ShortestFirst(Select(g, target, ps))
    ensures Distinct(ps) ==> Distinct(Select(g, target, ps))
  {
    if ps != [] {
      var n := |ps| - 1;
      SelectOrdered(g, target, ps[..n]);
      forall i: nat | i < |Select(g, target, ps[..n])| ensures Select(g, target, ps[..n])[i] in ps[..n] {
        SelectExact(g, target, ps[..n], Select(g, target, ps[..n])[i]);
      }
    }
  }

  /** Shortest first, and each walk once when no fact is listed twice. */
  lemma AllPathsOrdered(g: Search, target: Option<Node>)
    ensures ShortestFirst(AllPaths(g, target))
    ensures Distinct(g.facts) ==> Distinct(AllPaths(g, target))
  {
    LevelsOrdered(g, Depth(g));
    SelectOrdered(g, target, Levels(g, Depth(g)));
  }

  // ----- how the levels end -----

  lemma {:induction false} ChildrenOfDeep(g: Search, ps: seq<Path>)
    requires forall p :: p in ps ==> |p| >= g.maxDepth
    ensures Children(g, ps) == []
  {
    if ps != [] {
      ChildrenOfDeep(g, ps[..|ps| - 1]);
    }
  }

  lemma NoLevelPastDepth(g: Search)
    ensures Level(g, Depth(g) + 1) == []
  {
    forall p | p in Level(g, Depth(g)) ensures |p| >= g.maxDepth {
      LevelExact(g, Depth(g), p);
    }
    ChildrenOfDeep(g, Level(g, Depth(g)));
  }

  lemma {:induction false} EmptyLevelEndsAll(g: Search, k: nat, m: nat)
    requires Level(g, k + 1) == [] && k <= m
    ensures Levels(g, m) == Levels(g, k) && Level(g, m + 1) == []
  {
    if k < m {
      EmptyLevelEndsAll(g, k, m - 1);
    }
  }

  lemma {:induction false} SelectConcat(g: Search, target: Option<Node>, a: seq<Path>, b: seq<Path>)
    ensures Select(g, target, a + b) == Select(g, target, a) + Select(g, target, b)
  {
    if b == [] {
      assert a + b == a;
    } else {
      assert (a + b)[..|a + b| - 1] == a + b[..|b| - 1];
      SelectConcat(g, target, a, b[..|b| - 1]);
    }
  }

  lemma {:induction false} LevelsPrefix(g: Search, target: Option<Node>, k: nat, m: nat)
    requires k <= m
    ensures Select(g, target, Levels(g, k)) <= Select(g, target, Levels(g, m))
  {
    hide Select, Level;
    if k < m {
      LevelsPrefix(g, target, k, m - 1);
      SelectConcat(g, target, Levels(g, m - 1), Level(g, m));
      PrefixGrows(Select(g, target, Levels(g, k)), Select(g, target, Levels(g, m - 1)), Select(g, target, Level(g, m)));
    }
  }

  lemma PrefixGrows(a: seq<Path>, b: seq<Path>, c: seq<Path>)
    requires a <= b
    ensures a <= b + c
  {
  }

  lemma {:induction false} ChildrenConcat(g: Search, a: seq<Path>, b: seq<Path>)
    ensures Children(g, a + b) == Children(g, a) + Children(g, b)
  {
    hide Kids;
    if b == [] {
      assert a + b == a;
    } else {
      assert (a + b)[..|a + b| - 1] == a + b[..|b| - 1];
      ChildrenConcat(g, a, b[..|b| - 1]);
    }
  }

  /** What has been found once the children of `i` paths of level `k` have been listed. */
  function FoundAt(g: Search, target: Option<Node>, k: nat, i: nat): seq<Path>
    requires i <= |Level(g, k)|
  {
    Select(g, target, Levels(g, k) + Children(g, Level(g, k)[..i]))
  }

  function QueueAt(g: Search, k: nat, i: nat): seq<Path>
    requires i <= |Level(g, k)|
  {
    Level(g, k)[i..] + Children(g, Level(g, k)[..i])
  }

  lemma LevelSplits(g: Search, target: Option<Node>, k: nat, i: nat)
    requires i <= |Level(g, k)|
    ensures FoundAt(g, target, k, i) <= Select(g, target, Levels(g, k + 1))
  {
    hide Kids, Level, Levels;
    var level := Level(g, k);
    var done, todo := level[..i], level[i..];
    assert done + todo == level;
    ChildrenConcat(g, done, todo);
    LevelsStep(g, k);
    assert Levels(g, k + 1) == (Levels(g, k) + Children(g, done)) + Children(g, todo);
    SelectConcat(g, target, Levels(g, k) + Children(g, done), Children(g, todo));
  }

  lemma LevelsStep(g: Search, k: nat)
    ensures Levels(g, k + 1) == Levels(g, k) + Children(g, Level(g, k))
  {
  }

  lemma PrefixTwice(a: seq<Path>, b: seq<Path>, c: seq<Path>)
    requires a <= b <= c
    ensures a <= c
  {
  }

  lemma FoundIsPrefix(g: Search, target: Option<Node>, k: nat, i: nat)
    requires k <= Depth(g) && i <= |Level(g, k)|
    ensures FoundAt(g, target, k, i) <= AllPaths(g, target)
  {
    hide FoundAt, Select, Level;
    LevelSplits(g, target, k, i);
    if k < Depth(g) {
      LevelsPrefix(g, target, k + 1, Depth(g));
      PrefixTwice(FoundAt(g, target, k, i), Select(g, target, Levels(g, k + 1)), AllPaths(g, target));
    } else {
      NoLevelPastDepth(g);
      assert Levels(g, k + 1) == Levels(g, k);
    }
  }

  /** At the end of a level the search stands at the start of the next. */
  lemma NextLevel(g: Search, target: Option<Node>, k: nat)
    ensures FoundAt(g, target, k, |Level(g, k)|) == FoundAt(g, target, k + 1, 0)
    ensures QueueAt(g, k, |Level(g, k)|) == QueueAt(g, k + 1, 0) == Level(g, k + 1)
    ensures k >= Depth(g) ==> QueueAt(g, k + 1, 0) == []
  {
    hide Kids;
    var level := Level(g, k);
    assert level[..|level|] == level;
    assert level[|level|..] == [];
    assert Level(g, k + 1)[..0] == [] && Level(g, k + 1)[0..] == Level(g, k + 1);
    assert Levels(g, k) + Children(g, level) == Levels(g, k + 1) + [];
    if k >= Depth(g) {
      NoLevelPastDepth(g);
      EmptyLevelEndsAll(g, Depth(g), k);
    }
  }

  lemma NextPath(g: Search, target: Option<Node>, k: nat, i: nat)
    requires i < |Level(g, k)|
    ensures QueueAt(g, k, i) != [] && QueueAt(g, k, i)[0] == Level(g, k)[i]
    ensures QueueAt(g, k, i + 1) == QueueAt(g, k, i)[1..] + Kids(g, Level(g, k)[i])
    ensures FoundAt(g, target, k, i + 1) == FoundAt(g, target, k, i) + Select(g, target, Kids(g, Level(g, k)[i]))
  {
    hide Kids;
    var level := Level(g, k);
    assert level[..i + 1][..i] == level[..i];
    var listed := Levels(g, k) + Children(g, level[..i]);
    assert Levels(g, k) + Children(g, level[..i + 1]) == listed + Kids(g, level[i]);
    SelectConcat(g, target, listed, Kids(g, level[i]));
  }

  lemma EmptyQueueIsAll(g: Search, target: Option<Node>, k: nat, i: nat)
    requires k <= Depth(g) && i <= |Level(g, k)| && QueueAt(g, k, i) == []
    ensures FoundAt(g, target, k, i) == AllPaths(g, target)
  {
    hide Kids;
    var level := Level(g, k);
    assert |QueueAt(g, k, i)| == |level[i..]| + |Children(g, level[..i])|;
    assert level[..i] == level;
    EmptyLevelEndsAll(g, k, Depth(g));
    assert Levels(g, k) + Children(g, level[..i]) == Levels(g, k);
  }

  // ----- path records -----

  function Objects(p: Path): seq<Node> {
    seq(|p|, i requires 0 <= i < |p| => p[i].object_)
  }

  function RecordOf(g: Search, p: Path): PathRecord {
    PathRecord(|p|, g.source, End(g, p), [g.source] + Objects(p), p)
  }

  function RecordsOf(g: Search, ps: seq<Path>): seq<PathRecord> {
    seq(|ps|, i requires 0 <= i < |ps| => RecordOf(g, ps[i]))
  }

  /** The record of a walk lists the nodes its relationships join, in order and direction. */
  lemma RecordJoinsNodes(g: Search, p: Path, i: nat)
    requires IsWalk(g, p) && i < |p|
    ensures var r := RecordOf(g, p);
      && r.relationships == p && r.depth == |p| && |r.nodes| == |p| + 1
      && r.source == g.source && r.target == p[|p| - 1].object_
      && r.nodes[0] == r.source && r.nodes[r.depth] == r.target
      && r.relationships[i].subject == r.nodes[i] && r.relationships[i].object_ == r.nodes[i + 1]
  {
    assert p[i].subject == NodeBefore(g, p, i);
    assert i > 0 ==> RecordOf(g, p).nodes[i] == Objects(p)[i - 1];
    assert RecordOf(g, p).nodes[i + 1] == Objects(p)[i];
  }

  method BuildRecord(g: Search, target: Node, facts: Path) returns (r: PathRecord)
    requires target == End(g, facts)
    ensures r == RecordOf(g, facts)
  {
    var nodes := [g.source];
    var relationships := [];
    for k := 0 to |facts|
      invariant nodes == [g.source] + Objects(facts[..k]) && relationships == facts[..k]
    {
      relationships := relationships + [facts[k]];
      nodes := nodes + [facts[k].object_];
    }
    assert facts[..|facts|] == facts;
    return PathRecord(|facts|, g.source, target, nodes, relationships);
  }

  // ----- the search -----

  method BuildAdjacency(g: Search) returns (adjacency: map<Node, seq<Fact>>)
    ensures forall node :: (if node in adjacency then adjacency[node] else []) == Out(g, g.facts, node)
  {
    adjacency := map[];
    for k := 0 to |g.facts|
      invariant forall node :: (if node in adjacency then adjacency[node] else []) == Out(g, g.facts[..k], node)
    {
      var f := g.facts[k];
      assert g.facts[..k + 1][..k] == g.facts[..k];
      if Allowed(g, f) {
        var before := if f.subject in adjacency then adjacency[f.subject] else [];
        adjacency := adjacency[f.subject := before + [f]];
      }
    }
    assert g.facts[..|g.facts|] == g.facts;
  }

  function Cap(limit: int): (cap: nat)
    ensures 1 <= cap <= 50 && (1 <= limit <= 50 ==> cap == limit) && (limit < 1 ==> cap == 1) && (limit > 50 ==> cap == 50)
  {
    if limit < 1 then 1 else if limit > 50 then 50 else limit
  }

  method StepRevisits(facts: Path, node: Node) returns (b: bool)
    ensures b == Revisits(facts, node)
  {
    for k := 0 to |facts|
      invariant forall i :: 0 <= i < k ==> facts[i].subject != node
    {
      if facts[k].subject == node {
        return true;
      }
    }
    return false;
  }

  /** How one more fact extends a path: not at all, or to one more path, which may reach the target. */
  lemma NextExtension(g: Search, target: Option<Node>, facts: Path, outs: seq<Fact>, k: nat)
    requires k < |outs|
    ensures var before, next := Extend(facts, outs[..k]), facts + [outs[k]];
      && End(g, next) == outs[k].object_
      && Extend(facts, outs[..k + 1]) == (if Revisits(facts, outs[k].object_) then before else before + [next])
      && Select(g, target, before + [next]) == Select(g, target, before) + (if Hits(g, target, next) then [next] else [])
      && RecordsOf(g, Select(g, target, before) + [next]) == RecordsOf(g, Select(g, target, before)) + [RecordOf(g, next)]
      && Entries(g, before + [next]) == Entries(g, before) + [(outs[k].object_, next)]
  {
    hide RecordOf, Revisits;
    var before, next := Extend(facts, outs[..k]), facts + [outs[k]];
    assert outs[..k + 1][..k] == outs[..k];
    assert (before + [next])[..|before|] == before;
  }

  /** One turn of the search: the extensions of one path, recorded when they reach the target. */
  method ExpandPath(g: Search, target: Option<Node>, facts: Path, outs: seq<Fact>)
    returns (found: seq<PathRecord>, queued: seq<(Node, Path)>)
    ensures found == RecordsOf(g, Select(g, target, Extend(facts, outs)))
    ensures |found| <= |outs|
    ensures queued == Entries(g, Extend(facts, outs))
  {
    found, queued := [], [];
    assert outs[..0] == [];
    hide Extend, Select, RecordsOf, Entries, RecordOf, Revisits;
    NothingExtended(g, target, facts);
    for k := 0 to |outs|
      invariant found == RecordsOf(g, Select(g, target, Extend(facts, outs[..k]))) && |found| <= k
      invariant queued == Entries(g, Extend(facts, outs[..k]))
    {
      var next := outs[k].object_;
      NextExtension(g, target, facts, outs, k);
      var again := StepRevisits(facts, next);
      if again {
        continue;
      }
      var nextFacts := facts + [outs[k]];
      if target.None? || next == target.value {
        var record := BuildRecord(g, next, nextFacts);
        found := found + [record];
      } else {
        NothingAdded(Select(g, target, Extend(facts, outs[..k])));
      }
      queued := queued + [(next, nextFacts)];
    }
    assert outs[..|outs|] == outs;
  }

  lemma NothingExtended(g: Search, target: Option<Node>, facts: Path)
    ensures RecordsOf(g, Select(g, target, Extend(facts, []))) == [] && Entries(g, Extend(facts, [])) == []
  {
  }

  lemma NothingAdded(ps: seq<Path>)
    ensures ps + [] == ps
  {
  }

  function Entries(g: Search, ps: seq<Path>): seq<(Node, Path)> {
    seq(|ps|, i requires 0 <= i < |ps| => (End(g, ps[i]), ps[i]))
  }

  lemma RecordsConcat(g: Search, a: seq<Path>, b: seq<Path>)
    ensures RecordsOf(g, a + b) == RecordsOf(g, a) + RecordsOf(g, b)
    ensures Entries(g, a + b) == Entries(g, a) + Entries(g, b)
  {
  }

  lemma EntriesFirst(g: Search, ps: seq<Path>)
    ensures |Entries(g, ps)| == |ps|
    ensures ps != [] ==> Entries(g, ps)[0] == (End(g, ps[0]), ps[0]) && Entries(g, ps)[1..] == Entries(g, ps[1..])
  {
  }

  lemma RecordsPrefix(g: Search, a: seq<Path>, b: seq<Path>)
    requires a <= b
    ensures RecordsOf(g, a) <= RecordsOf(g, b)
  {
  }

  lemma NoKids(g: Search, target: Option<Node>, p: Path)
    requires |p| >= g.maxDepth
    ensures RecordsOf(g, Select(g, target, Kids(g, p))) == [] && Entries(g, Kids(g, p)) == []
  {
  }

  lemma StartOfSearch(g: Search, target: Option<Node>)
    ensures |Level(g, 0)| == 1
    ensures [(g.source, [])] == Entries(g, QueueAt(g, 0, 0)) && [] == RecordsOf(g, FoundAt(g, target, 0, 0))
  {
  }

  /**
   The result is a prefix of the enumeration: all of it unless the cap was reached, and past
   the cap only by less than the number of facts leaving some one node.
   */
  method FindPathsFromIndex(g: Search, target: Option<Node>, limit: int) returns (found: seq<PathRecord>)
    ensures found <= RecordsOf(g, AllPaths(g, target))
    ensures |found| < Cap(limit) ==> found == RecordsOf(g, AllPaths(g, target))
    ensures |found| > Cap(limit) ==> exists node :: |found| - Cap(limit) < |Out(g, g.facts, node)|
  {
    hide Out, Extend, Level, Select, QueueAt, FoundAt, RecordsOf, Entries, AllPaths;
    StartOfSearch(g, target);
    var adjacency := BuildAdjacency(g);
    var queue: seq<(Node, Path)> := [(g.source, [])];
    found := [];
    ghost var k: nat, i: nat := 0, 0;
    while queue != [] && |found| < Cap(limit)
      invariant k <= Depth(g) && i <= |Level(g, k)|
      invariant queue == Entries(g, QueueAt(g, k, i))
      invariant found == RecordsOf(g, FoundAt(g, target, k, i))
      invariant |found| > Cap(limit) ==> exists node :: |found| - Cap(limit) < |Out(g, g.facts, node)|
      decreases Depth(g) - k, |Level(g, k)| - i
    {
      EntriesFirst(g, QueueAt(g, k, i));
      if i == |Level(g, k)| {
        NextLevel(g, target, k);
        k, i := k + 1, 0;
      }
      NextPath(g, target, k, i);
      var (current, facts) := queue[0];
      queue := queue[1..];
      if |facts| < g.maxDepth {
        var outs := if current in adjacency then adjacency[current] else [];
        var more, queued := ExpandPath(g, target, facts, outs);
        found := found + more;
        queue := queue + queued;
      } else {
        NoKids(g, target, facts);
      }
      RecordsConcat(g, FoundAt(g, target, k, i), Select(g, target, Kids(g, facts)));
      RecordsConcat(g, QueueAt(g, k, i)[1..], Kids(g, facts));
      i := i + 1;
    }
    FoundIsPrefix(g, target, k, i);
    RecordsPrefix(g, FoundAt(g, target, k, i), AllPaths(g, target));
    if queue == [] {
      EntriesFirst(g, QueueAt(g, k, i));
      EmptyQueueIsAll(g, target, k, i);
    }
  }

  function SafeDepth(depth: int): int {
    if depth < 1 then 1 else if depth > 2 then 2 else depth
  }

  /** A walk of one step, or of one or two if more than one is asked for, that reaches the target if there is one. */
  ghost predicate IsShortWalk(g: Search, p: Path, depth: int, target: Option<Node>) {
    IsWalk(g, p) && 1 <= |p| <= (if depth <= 1 then 1 else 2) && (target.Some? ==> p[|p| - 1].object_ == target.value)
  }

  /** Only such walks are recorded. */
  ghost predicate OnlyShortWalks(records: seq<PathRecord>, g: Search, depth: int, target: Option<Node>) {
    forall r :: r in records ==> exists p: Path :: (IsShortWalk(g, p, depth, target) && r == RecordOf(g, p))
  }

  /** All such walks are recorded. */
  ghost predicate AllShortWalks(records: seq<PathRecord>, g: Search, depth: int, target: Option<Node>) {
    forall p: Path :: IsShortWalk(g, p, depth, target) ==> RecordOf(g, p) in records
  }

  lemma EnumerationIsAll(facts: seq<Fact>, allow: set<nat>, source: Node, depth: int, target: Option<Node>)
    ensures var g := Search(facts, allow, source, SafeDepth(depth));
      OnlyShortWalks(RecordsOf(g, AllPaths(g, target)), g, depth, target)
      && AllShortWalks(RecordsOf(g, AllPaths(g, target)), g, depth, target)
  {
    hide AllPaths, IsWalk, RecordOf;
    var g := Search(facts, allow, source, SafeDepth(depth));
    var ps := AllPaths(g, target);
    forall p ensures p in ps <==> IsWalk(g, p) && 1 <= |p| <= g.maxDepth && Hits(g, target, p) {
      AllPathsExact(g, target, p);
    }
    forall p | p in ps ensures RecordOf(g, p) in RecordsOf(g, ps) {
      var i :| 0 <= i < |ps| && ps[i] == p;
      assert RecordsOf(g, ps)[i] == RecordOf(g, p);
    }
    forall r | r in RecordsOf(g, ps) ensures exists p :: p in ps && r == RecordOf(g, p) {
      var i :| 0 <= i < |ps| && RecordsOf(g, ps)[i] == r;
      assert ps[i] in ps;
    }
  }

  lemma PrefixIsShort(records: seq<PathRecord>, more: seq<PathRecord>, g: Search, depth: int, target: Option<Node>)
    requires records <= more && OnlyShortWalks(more, g, depth, target)
    ensures OnlyShortWalks(records, g, depth, target)
  {
    hide IsShortWalk;
    forall r | r in records ensures r in more {
    }
  }

  /** An expansion returns exactly the first `Cap(limit)` walks of the enumeration, at most two steps deep. */
  method ExpandEntity(facts: seq<Fact>, entity: Node, depth: int, allow: set<nat>, limit: int)
    returns (paths: seq<PathRecord>)
    ensures var all := RecordsOf(Search(facts, allow, entity, SafeDepth(depth)), AllPaths(Search(facts, allow, entity, SafeDepth(depth)), None));
      paths == if |all| <= Cap(limit) then all else all[..Cap(limit)]
    ensures var g := Search(facts, allow, entity, if depth <= 1 then 1 else 2);
      OnlyShortWalks(paths, g, depth, None) && (|paths| < Cap(limit) ==> AllShortWalks(paths, g, depth, None))
  {
    hide AllShortWalks;
    EnumerationIsAll(facts, allow, entity, depth, None);
    paths := FindPathsFromIndex(Search(facts, allow, entity, SafeDepth(depth)), None, limit);
    if |paths| > Cap(limit) {
      paths := paths[..Cap(limit)];
    }
    ghost var g := Search(facts, allow, entity, SafeDepth(depth));
    PrefixIsShort(paths, RecordsOf(g, AllPaths(g, None)), g, depth, None);
  }

  method FindPaths(facts: seq<Fact>, source: Node, target: Node, maxDepth: int, allow: set<nat>, limit: int)
    returns (paths: seq<PathRecord>)
    ensures var g := Search(facts, allow, source, SafeDepth(maxDepth));
      && paths <= RecordsOf(g, AllPaths(g, Some(target)))
      && (|paths| < Cap(limit) ==> paths == RecordsOf(g, AllPaths(g, Some(target))))
      && (|paths| > Cap(limit) ==> exists node :: |paths| - Cap(limit) < |Out(g, g.facts, node)|)
    ensures var g := Search(facts, allow, source, if maxDepth <= 1 then 1 else 2);
      && OnlyShortWalks(paths, g, maxDepth, Some(target))
      && (|paths| < Cap(limit) ==> AllShortWalks(paths, g, maxDepth, Some(target)))
  {
    hide AllShortWalks;
    EnumerationIsAll(facts, allow, source, maxDepth, Some(target));
    paths := FindPathsFromIndex(Search(facts, allow, source, SafeDepth(maxDepth)), Some(target), limit);
    ghost var g := Search(facts, allow, source, SafeDepth(maxDepth));
    PrefixIsShort(paths, RecordsOf(g, AllPaths(g, Some(target))), g, maxDepth, Some(target));
  }
}
