/**
 can_i_move_out as a whole: the dependency tree that GN prints is read back into a build graph,
 the graph is collapsed into libraries, and the referrers of one library are walked.
 */
module MoveOut {
  import opened Basics
  import opened BuildGraph
  import Gn = GnTree

  // ---------- the printed graph as a build graph ----------

  function Row(ls: seq<string>): multiset<Label> {
    multiset(seq(|ls|, i requires 0 <= i < |ls| => Label(ls[i])))
  }

  lemma RowHas(ls: seq<string>, d: Label)
    ensures d in Row(ls) <==> d.text in ls
  {
    var row := seq(|ls|, i requires 0 <= i < |ls| => Label(ls[i]));
    if d in row {
      var i :| 0 <= i < |row| && row[i] == d;
      assert ls[i] == d.text;
    }
    if d.text in ls {
      var i :| 0 <= i < |ls| && ls[i] == d.text;
      assert row[i] == d;
    }
  }

  function Labels(names: set<string>): set<Label> {
    set s | s in names :: Label(s)
  }

  function ToGraph(deps: Gn.Deps): Graph {
    map l | l in Labels(deps.Keys) :: Row(deps[l.text])
  }

  // `g` with an entry for every node.
  function Full(g: Graph): Graph {
    map l | l in Nodes(g) :: if l in g then g[l] else multiset{}
  }

  // The part of the build that `root` depends on.
  ghost function Below(g: Gn.Deps, root: string): Gn.Deps {
    map l | l in g && Gn.Reachable(g, root, l) :: g[l]
  }

  ghost predicate Printable(g: Gn.Deps, root: string) {
    Gn.Closed(g) && root in g && forall l | l in g :: Gn.IsLabel(l)
  }

  lemma BelowIsClosed(g: Gn.Deps, root: string, l: string, d: string)
    requires Printable(g, root) && l in Below(g, root) && d in g[l]
    ensures d in Below(g, root)
  {
    Gn.ReachableStep(g, root, l, d);
  }

  // A label below the root that has no dependencies of its own is somebody's dependency.
  lemma LeafHasParent(g: Gn.Deps, root: string, l: string) returns (m: string)
    requires l in Below(g, root) && l != root
    ensures m in Below(g, root) && l in g[m]
  {
    var n: nat :| Gn.Path(g, root, l, n);
    m :| m in g && l in g[m] && Gn.Path(g, root, m, n - 1);
  }

  ghost function Shown(g: Gn.Deps, root: string): Graph
    requires root in g
  {
    if g[root] == [] then map[] else ToGraph(Below(g, root))
  }

  // What the script builds from the print-out is the part of the build below the root.
  lemma ReadBack(g: Gn.Deps, root: string, deps: Gn.Deps)
    requires Printable(g, root)
    requires forall l :: l in deps <==> l in Below(g, root) && g[l] != []
    requires forall l | l in deps :: deps[l] == g[l]
    ensures Full(ToGraph(deps)) == Shown(g, root)
  {
    var read := ToGraph(deps);
    forall l: Label
      ensures l in Nodes(read) <==> l in Shown(g, root)
    {
      NodesReadBack(g, root, deps, l);
    }
    forall l | l in Shown(g, root)
      ensures Full(read)[l] == Shown(g, root)[l]
    {
      assert l in Nodes(read);
      if g[l.text] == [] {
        assert Row([]) == multiset{};
      }
    }
  }

  lemma NodesReadBack(g: Gn.Deps, root: string, deps: Gn.Deps, l: Label)
    requires Printable(g, root)
    requires forall l :: l in deps <==> l in Below(g, root) && g[l] != []
    requires forall l | l in deps :: deps[l] == g[l]
    ensures l in Nodes(ToGraph(deps)) <==> l in Shown(g, root)
  {
    var read := ToGraph(deps);
    if k :| k in read && l in read[k] {
      RowHas(deps[k.text], l);
      BelowIsClosed(g, root, k.text, l.text);
    }
    RootIsBelow(g, root);
    if l in Shown(g, root) && l !in read {
      var m := LeafHasParent(g, root, l.text);
      RowHas(deps[m], l);
      assert Label(m) in read && l in read[Label(m)];
    }
    if l in Nodes(read) && g[root] == [] {
      NothingBelow(g, root, deps);
    }
  }

  lemma RootIsBelow(g: Gn.Deps, root: string)
    requires root in g
    ensures root in Below(g, root)
  {
    assert Gn.Path(g, root, root, 0);
  }

  lemma NothingBelow(g: Gn.Deps, root: string, deps: Gn.Deps)
    requires root in g && g[root] == []
    requires forall l :: l in deps <==> l in Below(g, root) && g[l] != []
    ensures deps == map[]
  {
    forall l | l in Below(g, root)
      ensures l == root
    {
      var n: nat :| Gn.Path(g, root, l, n);
      OnlyRoot(g, root, l, n);
    }
  }

  lemma {:induction false} OnlyRoot(g: Gn.Deps, root: string, l: string, n: nat)
    requires root in g && g[root] == [] && Gn.Path(g, root, l, n)
    ensures l == root
    decreases n
  {
    if n > 0 {
      var m :| m in g && l in g[m] && Gn.Path(g, root, m, n - 1);
      OnlyRoot(g, root, m, n - 1);
    }
  }

  // ---------- the answer ----------

  // The script fails, does not know the library, or lists its referrers by distance.
  datatype Answer = Failed | Unknown | Found(levels: seq<set<Label>>)

  ghost predicate Lists(refs: Graph, name: Label, answer: Answer) {
    if name in refs then answer.Found? && WalksReferrers(refs, name, answer.levels) else answer == Unknown
  }

  // `answer` is about `graph` with its nodes merged.
  ghost predicate Answers(graph: Graph, transform: Label -> Option<Label>, name: Label, answer: Answer) {
    exists merged, refs :: Quotient(graph, transform, merged) && Transposed(merged, refs) && Lists(refs, name, answer)
  }

  lemma FullIs(g: Graph, full: Graph)
    requires Completes(g, full)
    ensures full == Full(g)
  {
  }

  lemma AnswersBy(graph: Graph, transform: Label -> Option<Label>, merged: Graph, refs: Graph, name: Label,
                  answer: Answer)
    requires Quotient(graph, transform, merged) && Transposed(merged, refs) && Lists(refs, name, answer)
    ensures Answers(graph, transform, name, answer)
  {
  }

  // What main does with the graph it has loaded.
  method Ask(deps: Graph, transform: Label -> Option<Label>, name: Label) returns (answer: Answer)
    ensures Answers(Full(deps), transform, name, answer)
  {
    var build := new Build(deps);
    FullIs(deps, build.deps);
    build.CollapseNodes(transform);
    var levels := build.Referrers(name);
    answer := if levels.Some? then Found(levels.value) else Unknown;
    AnswersBy(Full(deps), transform, build.deps, build.refs, name, answer);
  }

  method Inspect(root: string, lines: seq<string>, transform: Label -> Option<Label>, name: Label)
    returns (answer: Answer)
    ensures var p := Gn.ParseLines(Gn.Parsed([root], map[]), lines);
      if p.Crashed? then answer == Failed else Answers(Full(ToGraph(p.deps)), transform, name, answer)
  {
    var p := Gn.LoadBuildGraph(root, lines);
    if p.Crashed? {
      return Failed;
    }
    answer := Ask(ToGraph(p.deps), transform, name);
  }

  // Given what GN prints for a build, cycles included, the answer is about the part of that build
  // which the root depends on.
  lemma AnswerIsAboutTheBuild(g: Gn.Deps, root: string)
    requires Printable(g, root)
    ensures var p := Gn.ParseLines(Gn.Parsed([root], map[]), Gn.PrintGraph(g, root));
      p.Parsed? && Full(ToGraph(p.deps)) == Shown(g, root)
  {
    Gn.ParsePrintRoundTrip(g, root);
    var p := Gn.ParseLines(Gn.Parsed([root], map[]), Gn.PrintGraph(g, root));
    forall l
      ensures l in Gn.Unfold(g, g[root], {root}).seen <==> Gn.Reachable(g, root, l)
    {
      Gn.PrintsReachable(g, root, l);
    }
    ReadBack(g, root, p.deps);
  }

  method InspectBuild(g: Gn.Deps, root: string, transform: Label -> Option<Label>, name: Label)
    returns (answer: Answer)
    requires Printable(g, root)
    ensures Answers(Shown(g, root), transform, name, answer)
  {
    AnswerIsAboutTheBuild(g, root);
    answer := Inspect(root, Gn.PrintGraph(g, root), transform, name);
  }

  // ---------- there is one answer ----------

  lemma SameRow(a: multiset<Label>, b: multiset<Label>)
    requires forall d :: a[d] == b[d]
    ensures a == b
  {
  }

  lemma OneQuotient(graph: Graph, transform: Label -> Option<Label>, a: Graph, b: Graph)
    requires Quotient(graph, transform, a) && Quotient(graph, transform, b)
    ensures a == b
  {
    assert a.Keys == b.Keys;
    forall l | l in a
      ensures a[l] == b[l]
    {
      forall d
        ensures a[l][d] == b[l][d]
      {
        assert d in a[l] <==> d in b[l];
      }
      SameRow(a[l], b[l]);
    }
  }

  lemma OneTranspose(deps: Graph, a: Graph, b: Graph)
    requires Transposed(deps, a) && Transposed(deps, b)
    ensures a == b
  {
    forall d | d in a
      ensures a[d] == b[d]
    {
      forall l
        ensures a[d][l] == b[d][l]
      {
        assert a[d][l] == if l in deps then deps[l][d] else 0;
      }
      SameRow(a[d], b[d]);
    }
  }

  lemma OneWalk(refs: Graph, name: Label, a: seq<set<Label>>, b: seq<set<Label>>)
    requires WalksReferrers(refs, name, a) && WalksReferrers(refs, name, b)
    ensures a == b
  {
    NotLonger(refs, name, a, b);
    NotLonger(refs, name, b, a);
    forall i | 0 <= i < |a|
      ensures a[i] == b[i]
    {
      SameLevel(refs, name, a, b, i);
    }
  }

  lemma SameLevel(refs: Graph, name: Label, a: seq<set<Label>>, b: seq<set<Label>>, i: nat)
    requires WalksReferrers(refs, name, a) && WalksReferrers(refs, name, b) && i < |a| && i < |b|
    ensures a[i] == b[i]
  {
  }

  lemma NotLonger(refs: Graph, name: Label, a: seq<set<Label>>, b: seq<set<Label>>)
    requires WalksReferrers(refs, name, a) && WalksReferrers(refs, name, b)
    ensures |a| <= |b|
  {
    if a != [] {
      var n := |a| - 1;
      assert a[n] != {};
      var v :| v in a[n];
      assert Nearest(refs, name, v, n + 1);
      var i :| 0 <= i < |b| && v in b[i];
      assert Nearest(refs, name, v, i + 1);
      assert i == n;
    }
  }

  lemma OneAnswer(graph: Graph, transform: Label -> Option<Label>, name: Label, a: Answer, b: Answer)
    requires Answers(graph, transform, name, a) && Answers(graph, transform, name, b)
    ensures a == b
  {
    var merged, refs :| Quotient(graph, transform, merged) && Transposed(merged, refs) && Lists(refs, name, a);
    var merged', refs' :| Quotient(graph, transform, merged') && Transposed(merged', refs') && Lists(refs', name, b);
    OneQuotient(graph, transform, merged, merged');
    OneTranspose(merged, refs, refs');
    if name in refs {
      OneWalk(refs, name, a.levels, b.levels);
    }
  }

  // ---------- what the script is for ----------

  // Something kept under another name still depends on the library.
  ghost predicate Needed(g: Gn.Deps, root: string, transform: Label -> Option<Label>, name: Label) {
    exists l, d :: l in Below(g, root) && d in g[l] && transform(Label(d)) == Some(name)
      && transform(Label(l)).Some? && transform(Label(l)) != Some(name)
  }

  ghost predicate Built(g: Gn.Deps, root: string, transform: Label -> Option<Label>, name: Label) {
    exists l :: l in Below(g, root) && transform(Label(l)) == Some(name)
  }

  lemma KnownIff(g: Gn.Deps, root: string, transform: Label -> Option<Label>, name: Label, merged: Graph)
    requires Printable(g, root) && g[root] != [] && Quotient(Shown(g, root), transform, merged)
    ensures name in merged <==> Built(g, root, transform, name)
  {
  }

  lemma ReferredToIff(g: Gn.Deps, root: string, transform: Label -> Option<Label>, name: Label, merged: Graph)
    requires Printable(g, root) && g[root] != [] && Quotient(Shown(g, root), transform, merged)
    ensures (exists a :: a in merged && name in merged[a]) <==> Needed(g, root, transform, name)
  {
    if a :| a in merged && name in merged[a] {
      ReferenceIsNeed(g, root, transform, a, name);
    }
    if Needed(g, root, transform, name) {
      var a := NeedIsReference(g, root, transform, name);
      assert a in merged && name in merged[a];
    }
  }

  lemma ReferenceIsNeed(g: Gn.Deps, root: string, transform: Label -> Option<Label>, a: Label, name: Label)
    requires Printable(g, root) && g[root] != [] && a != name
    requires Joins(Shown(g, root), transform, Shown(g, root).Keys, a, name)
    ensures Needed(g, root, transform, name)
  {
    var graph := Shown(g, root);
    var l, d :| l in graph && d in graph[l] && transform(l) == Some(a) && transform(d) == Some(name);
    RowHas(g[l.text], d);
    assert l == Label(l.text) && d == Label(d.text);
  }

  lemma NeedIsReference(g: Gn.Deps, root: string, transform: Label -> Option<Label>, name: Label) returns (a: Label)
    requires Printable(g, root) && g[root] != [] && Needed(g, root, transform, name)
    ensures a != name && Joins(Shown(g, root), transform, Shown(g, root).Keys, a, name)
  {
    var graph := Shown(g, root);
    var l, d :| l in Below(g, root) && d in g[l] && transform(Label(d)) == Some(name)
      && transform(Label(l)).Some? && transform(Label(l)) != Some(name);
    RowHas(g[l], Label(d));
    assert Label(l) in graph && Label(d) in graph[Label(l)];
    a := transform(Label(l)).value;
  }

  // A library is free to go exactly when it is part of the build and nothing outside it that is
  // kept, anywhere below the root, depends on it.
  lemma FreeToGoIff(g: Gn.Deps, root: string, transform: Label -> Option<Label>, name: Label, answer: Answer)
    requires Printable(g, root) && g[root] != [] && Answers(Shown(g, root), transform, name, answer)
    ensures answer == Unknown <==> !Built(g, root, transform, name)
    ensures answer == Found([]) <==> Built(g, root, transform, name) && !Needed(g, root, transform, name)
  {
    var merged, refs :| Quotient(Shown(g, root), transform, merged) && Transposed(merged, refs) &&
      Lists(refs, name, answer);
    KnownIff(g, root, transform, name, merged);
    ReferredToIff(g, root, transform, name, merged);
    if name in refs {
      NoLevelsIff(merged, refs, name, answer.levels);
    }
  }

  lemma NoLevelsIff(deps: Graph, refs: Graph, name: Label, levels: seq<set<Label>>)
    requires Transposed(deps, refs) && name in refs && WalksReferrers(refs, name, levels)
    ensures levels == [] <==> !exists a :: a in deps && name in deps[a]
  {
    if a :| a in deps && name in deps[a] {
      assert refs[name][a] == deps[a][name];
      assert Chain(refs, name, name, 0);
      assert Chain(refs, name, a, 1);
    }
    if levels != [] {
      assert levels[0] != {};
      var v :| v in levels[0];
      assert Nearest(refs, name, v, 1);
      assert Chain(refs, name, v, 1);
      var m :| m in refs && v in refs[m] && Chain(refs, name, m, 0);
      assert refs[name][v] == if v in deps then deps[v][name] else 0;
    }
  }
}
