/**
 The build graph of can_i_move_out: dependencies with their transpose, merging of nodes, and
 the level-by-level walk over everything that refers to a library.

 Adjacency lists and sets are multisets here: nothing in the program depends on their order.
 */
module BuildGraph {
  import opened Basics

  datatype Label = Label(text: string)
  type Graph = map<Label, multiset<Label>>

  ghost predicate Closed(g: Graph) {
    forall l, d :: l in g && d in g[l] ==> d in g
  }

  // Every edge of one appears as often, reversed, in the other.
  ghost predicate Transposed(deps: Graph, refs: Graph) {
    && deps.Keys == refs.Keys
    && forall l, d :: d in refs ==> refs[d][l] == if l in deps then deps[l][d] else 0
  }

  function Nodes(g: Graph): set<Label> {
    g.Keys + (set l, d | l in g && d in g[l] :: d)
  }

  // `full` is `g` with an empty entry for every node that had none.
  ghost predicate Completes(g: Graph, full: Graph) {
    && full.Keys == Nodes(g)
    && forall l :: l in full ==> full[l] == if l in g then g[l] else multiset{}
  }

  // ---------- merging nodes ----------

  ghost predicate Joins(deps: Graph, transform: Label -> Option<Label>, done: set<Label>, a: Label, b: Label) {
    exists l, d :: l in done && l in deps && d in deps[l] && transform(l) == Some(a) && transform(d) == Some(b)
  }

  // `merged` has an edge between two different names exactly when some node kept under the one
  // depended on some node kept under the other; its nodes are the names of the kept nodes.
  ghost predicate Quotient(deps: Graph, transform: Label -> Option<Label>, merged: Graph) {
    && (forall a :: a in merged <==> exists l :: l in deps && transform(l) == Some(a))
    && (forall a, b :: a in merged && b in merged[a] <==> a != b && Joins(deps, transform, deps.Keys, a, b))
    && (forall a, b :: a in merged ==> merged[a][b] <= 1)
  }

  // ---------- distances ----------

  // `v` refers to `l` through a chain of `n` references.
  ghost predicate Chain(refs: Graph, l: Label, v: Label, n: nat)
    decreases n
  {
    if n == 0 then v == l
    else exists m :: m in refs && v in refs[m] && Chain(refs, l, m, n - 1)
  }

  ghost predicate Nearest(refs: Graph, l: Label, v: Label, n: nat) {
    Chain(refs, l, v, n) && forall k | 1 <= k < n :: !Chain(refs, l, v, k)
  }

  ghost function Step(refs: Graph, s: set<Label>): set<Label> {
    set m, v | m in s && m in refs && v in refs[m] :: v
  }

  // Everything within 1 to `n` references of `l`.
  ghost function Within(refs: Graph, l: Label, n: nat): set<Label> {
    if n == 0 then {} else Within(refs, l, n - 1) + Step(refs, Within(refs, l, n - 1) + {l})
  }

  // A chain of 1 to `n` references.
  ghost predicate SomeChain(refs: Graph, l: Label, v: Label, n: nat) {
    exists k | 1 <= k <= n :: Chain(refs, l, v, k)
  }

  lemma {:induction false} WithinHasChain(refs: Graph, l: Label, v: Label, n: nat)
    requires v in Within(refs, l, n)
    ensures SomeChain(refs, l, v, n)
    decreases n
  {
    if v in Within(refs, l, n - 1) {
      WithinHasChain(refs, l, v, n - 1);
    } else {
      var m :| m in Within(refs, l, n - 1) + {l} && m in refs && v in refs[m];
      var k := 0;
      if m != l {
        WithinHasChain(refs, l, m, n - 1);
        k :| 1 <= k <= n - 1 && Chain(refs, l, m, k);
      }
      assert Chain(refs, l, v, k + 1);
    }
  }

  lemma {:induction false} ChainIsWithin(refs: Graph, l: Label, v: Label, k: nat)
    requires k >= 1 && Chain(refs, l, v, k)
    ensures v in Within(refs, l, k)
    decreases k
  {
    var m :| m in refs && v in refs[m] && Chain(refs, l, m, k - 1);
    if k > 1 {
      ChainIsWithin(refs, l, m, k - 1);
    }
    assert m in Within(refs, l, k - 1) + {l};
  }

  lemma WithinIsChains(refs: Graph, l: Label, v: Label, n: nat)
    ensures v in Within(refs, l, n) <==> SomeChain(refs, l, v, n)
  {
    if v in Within(refs, l, n) {
      WithinHasChain(refs, l, v, n);
    }
    if SomeChain(refs, l, v, n) {
      var k :| 1 <= k <= n && Chain(refs, l, v, k);
      ChainIsWithin(refs, l, v, k);
      WithinGrows(refs, l, k, n);
    }
  }

  lemma {:induction false} WithinGrows(refs: Graph, l: Label, a: nat, b: nat)
    requires a <= b
    ensures Within(refs, l, a) <= Within(refs, l, b)
  {
    if a < b {
      WithinGrows(refs, l, a, b - 1);
    }
  }

  lemma {:induction false} WithinStops(refs: Graph, l: Label, a: nat, b: nat)
    requires a <= b && Within(refs, l, a + 1) == Within(refs, l, a)
    ensures Within(refs, l, b) == Within(refs, l, a)
  {
    if a < b {
      WithinStops(refs, l, a, b - 1);
    }
  }

  // The nodes at distance exactly n + 1.
  ghost function Level(refs: Graph, l: Label, n: nat): set<Label> {
    Within(refs, l, n + 1) - Within(refs, l, n)
  }

  lemma LevelIsNearest(refs: Graph, l: Label, v: Label, n: nat)
    ensures v in Level(refs, l, n) <==> Nearest(refs, l, v, n + 1)
  {
    WithinIsChains(refs, l, v, n + 1);
    WithinIsChains(refs, l, v, n);
    assert SomeChain(refs, l, v, n + 1) <==> SomeChain(refs, l, v, n) || Chain(refs, l, v, n + 1);
  }

  ghost predicate AreLevels(refs: Graph, l: Label, levels: seq<set<Label>>) {
    forall i {:trigger levels[i]} | 0 <= i < |levels| :: levels[i] == Level(refs, l, i) && levels[i] != {}
  }

  lemma AreLevelsSnoc(refs: Graph, l: Label, levels: seq<set<Label>>, next: set<Label>)
    requires AreLevels(refs, l, levels) && next == Level(refs, l, |levels|) && next != {}
    ensures AreLevels(refs, l, levels + [next])
  {
  }

  // The walk over `levels` met every transitive referrer, at its distance, and nothing else.
  ghost predicate WalksReferrers(refs: Graph, l: Label, levels: seq<set<Label>>) {
    && (forall i | 0 <= i < |levels| :: levels[i] != {})
    && (forall i, v | 0 <= i < |levels| :: v in levels[i] <==> Nearest(refs, l, v, i + 1))
    && (forall n: nat, v | n >= 1 && Chain(refs, l, v, n) :: exists i :: 0 <= i < |levels| && v in levels[i])
  }

  lemma LevelsWalkReferrers(refs: Graph, l: Label, levels: seq<set<Label>>)
    requires AreLevels(refs, l, levels) && Level(refs, l, |levels|) == {}
    ensures WalksReferrers(refs, l, levels)
  {
    forall i, v | 0 <= i < |levels|
      ensures v in levels[i] <==> Nearest(refs, l, v, i + 1)
    {
      LevelIsNearest(refs, l, v, i);
    }
    forall n: nat, v | n >= 1 && Chain(refs, l, v, n)
      ensures exists i :: 0 <= i < |levels| && v in levels[i]
    {
      ChainIsWithin(refs, l, v, n);
      WithinGrows(refs, l, |levels|, |levels| + 1);
      assert Within(refs, l, |levels| + 1) == Within(refs, l, |levels|) + Level(refs, l, |levels|);
      if n > |levels| {
        WithinStops(refs, l, |levels|, n);
      } else {
        WithinGrows(refs, l, n, |levels|);
      }
      var i := FirstWithin(refs, l, v, |levels|);
      assert v in levels[i];
    }
  }

  lemma {:induction false} FirstWithin(refs: Graph, l: Label, v: Label, n: nat) returns (i: nat)
    requires v in Within(refs, l, n)
    ensures i < n && v in Level(refs, l, i)
  {
    if v in Within(refs, l, n - 1) {
      i := FirstWithin(refs, l, v, n - 1);
    } else {
      i := n - 1;
    }
  }

  // Each transitive referrer is met once.
  lemma LevelsAreDisjoint(refs: Graph, l: Label, levels: seq<set<Label>>, i: nat, j: nat, v: Label)
    requires WalksReferrers(refs, l, levels) && i < |levels| && j < |levels|
    requires v in levels[i] && v in levels[j]
    ensures i == j
  {
    assert Nearest(refs, l, v, i + 1) && Nearest(refs, l, v, j + 1);
  }

  lemma CompletedIsClosed(g: Graph, full: Graph)
    requires Completes(g, full)
    ensures Closed(full)
  {
  }

  // Merging leaves no dangling name.
  lemma QuotientIsComplete(deps: Graph, transform: Label -> Option<Label>, merged: Graph)
    requires Closed(deps) && Quotient(deps, transform, merged)
    ensures Nodes(merged) == merged.Keys
  {
  }

  function AsGraph(merged: map<Label, set<Label>>): Graph {
    map a | a in merged :: multiset(merged[a])
  }

  // What the loop has made of the nodes in `done`.
  ghost predicate Merged(deps: Graph, transform: Label -> Option<Label>, done: set<Label>,
                         merged: map<Label, set<Label>>) {
    && (forall a :: a in merged <==> exists l :: l in done && l in deps && transform(l) == Some(a))
    && (forall a, b :: a in merged && b in merged[a] <==> a != b && Joins(deps, transform, done, a, b))
  }

  lemma DroppedMerges(deps: Graph, transform: Label -> Option<Label>, done: set<Label>,
                      merged: map<Label, set<Label>>, src: Label)
    requires Merged(deps, transform, done, merged) && transform(src).None?
    ensures Merged(deps, transform, done + {src}, merged)
  {
  }

  lemma JoinsMore(deps: Graph, transform: Label -> Option<Label>, done: set<Label>, src: Label, a: Label, b: Label)
    requires src in deps
    ensures Joins(deps, transform, done + {src}, a, b) <==>
      || Joins(deps, transform, done, a, b)
      || (transform(src) == Some(a) && exists d :: d in deps[src] && transform(d) == Some(b))
  {
  }

  lemma KeptMerges(deps: Graph, transform: Label -> Option<Label>, done: set<Label>, merged: map<Label, set<Label>>,
                   src: Label, x: Label, more: set<Label>)
    requires Merged(deps, transform, done, merged) && src in deps && transform(src) == Some(x)
    requires forall b :: b in more <==> b != x && exists d :: d in deps[src] && transform(d) == Some(b)
    ensures Merged(deps, transform, done + {src}, merged[x := (if x in merged then merged[x] else {}) + more])
  {
    forall a, b
      ensures Joins(deps, transform, done + {src}, a, b) <==>
        Joins(deps, transform, done, a, b) || (x == a && exists d :: d in deps[src] && transform(d) == Some(b))
    {
      JoinsMore(deps, transform, done, src, a, b);
    }
  }

  lemma MergedIsQuotient(deps: Graph, transform: Label -> Option<Label>, merged: map<Label, set<Label>>)
    requires Merged(deps, transform, deps.Keys, merged)
    ensures Quotient(deps, transform, AsGraph(merged))
  {
  }

  lemma CompleteAlready(g: Graph, full: Graph)
    requires Nodes(g) == g.Keys && Completes(g, full)
    ensures full == g
  {
  }

  lemma TransposeIsClosed(deps: Graph, refs: Graph)
    requires Transposed(deps, refs)
    ensures Closed(refs)
  {
  }

  lemma {:induction false} WithinIsInside(refs: Graph, l: Label, n: nat)
    requires Closed(refs)
    ensures Within(refs, l, n) <= refs.Keys
  {
    if n > 0 {
      WithinIsInside(refs, l, n - 1);
    }
  }

  // `g` with an empty entry for each node of `done` that had none.
  ghost predicate Filled(g: Graph, done: set<Label>, full: Graph) {
    full.Keys == g.Keys + done && forall n :: n in full ==> full[n] == if n in g then g[n] else multiset{}
  }

  lemma FillOne(g: Graph, done: set<Label>, full: Graph, n: Label)
    requires Filled(g, done, full)
    ensures Filled(g, done + {n}, if n in full then full else full[n := multiset{}])
  {
  }

  lemma FilledCompletes(g: Graph, full: Graph)
    requires Filled(g, Nodes(g), full)
    ensures Completes(g, full) && full.Keys == Nodes(g)
  {
  }

  function Plus(row: multiset<Label>, name: Label, n: nat): multiset<Label> {
    row[name := row[name] + n]
  }

  // `name` was added to the row of every target in `done`.
  ghost predicate RowsAdded(refs0: Graph, refs: Graph, name: Label, done: multiset<Label>) {
    && refs.Keys == refs0.Keys
    && forall d {:trigger refs[d]} :: d in refs ==> refs[d] == Plus(refs0[d], name, done[d])
  }

  lemma AddOneReference(refs0: Graph, refs: Graph, name: Label, done: multiset<Label>, dep: Label)
    requires dep in refs && RowsAdded(refs0, refs, name, done)
    ensures RowsAdded(refs0, refs[dep := refs[dep] + multiset{name}], name, done + multiset{dep})
  {
  }

  lemma LevelZero(refs: Graph, l: Label)
    requires l in refs
    ensures Level(refs, l, 0) == (set v | v in refs[l]) && Within(refs, l, 0) == {}
  {
  }

  // The next level is found by looking at the references of this one only.
  lemma WalkStep(refs: Graph, l: Label, n: nat)
    requires Closed(refs)
    ensures Within(refs, l, n) + Level(refs, l, n) == Within(refs, l, n + 1)
    ensures Level(refs, l, n) <= refs.Keys && Level(refs, l, n) !! Within(refs, l, n)
    ensures Level(refs, l, n + 1) == Step(refs, Level(refs, l, n)) - Within(refs, l, n + 1)
  {
  }

  // ---------- the program ----------

  class Build {
    var deps: Graph
    var refs: Graph

    ghost predicate Valid()
      reads this
    {
      Closed(deps) && Transposed(deps, refs)
    }

    constructor (graph: Graph)
      ensures Valid() && Completes(graph, deps)
    {
      deps, refs := graph, map[];
      new;
      ComputeRefs();
    }

    // _compute_refs
    method ComputeRefs()
      modifies this
      ensures Valid() && Completes(old(deps), deps)
    {
      var full, empty := AddMissing(deps);
      CompletedIsClosed(deps, full);
      deps := full;
      refs := Transpose(full, empty);
    }

    // The first loop of _compute_refs: an entry for every node, in both directions.
    static method AddMissing(g: Graph) returns (full: Graph, refs: Graph)
      ensures Completes(g, full)
      ensures refs.Keys == full.Keys && forall n :: n in refs ==> refs[n] == multiset{}
    {
      full, refs := FillAll(g, Nodes(g));
      FilledCompletes(g, full);
    }

    static method FillAll(g: Graph, nodes: set<Label>) returns (full: Graph, refs: Graph)
      ensures Filled(g, nodes, full) && Filled(map[], nodes, refs)
    {
      full, refs := g, map[];
      var todo := nodes;
      ghost var done: set<Label> := {};
      while todo != {}
        invariant todo !! done && todo + done == nodes
        invariant Filled(map[], done, refs) && Filled(g, done, full)
        decreases todo
      {
        var node :| node in todo;
        FillOne(map[], done, refs, node);
        FillOne(g, done, full, node);
        if node !in refs {
          refs := refs[node := multiset{}];
        }
        if node !in full {
          full := full[node := multiset{}];
        }
        todo, done := todo - {node}, done + {node};
      }
    }

    // The second loop of _compute_refs.
    static method Transpose(deps: Graph, empty: Graph) returns (refs: Graph)
      requires Closed(deps) && empty.Keys == deps.Keys && forall n :: n in empty ==> empty[n] == multiset{}
      ensures Transposed(deps, refs)
    {
      refs := empty;
      var todo := deps.Keys;
      while todo != {}
        invariant todo <= deps.Keys && refs.Keys == deps.Keys
        invariant forall l, d :: d in refs ==> refs[d][l] == if l in deps && l !in todo then deps[l][d] else 0
        decreases todo
      {
        var name :| name in todo;
        refs := AddReferences(name, deps[name], refs);
        todo := todo - {name};
      }
    }

    static method AddReferences(name: Label, targets: multiset<Label>, refs0: Graph) returns (refs: Graph)
      requires forall d :: d in targets ==> d in refs0
      requires forall d :: d in refs0 ==> refs0[d][name] == 0
      ensures refs.Keys == refs0.Keys
      ensures forall l, d :: d in refs ==> refs[d][l] == if l == name then targets[d] else refs0[d][l]
    {
      refs := refs0;
      var rest := targets;
      ghost var done := multiset{};
      while rest != multiset{}
        invariant done + rest == targets && RowsAdded(refs0, refs, name, done)
        decreases |rest|
      {
        var dep :| dep in rest;
        AddOneReference(refs0, refs, name, done, dep);
        done := done + multiset{dep};
        refs := refs[dep := refs[dep] + multiset{name}];
        rest := rest - multiset{dep};
      }
    }

    static method MergedTargets(xsrc: Label, dsts: multiset<Label>, transform: Label -> Option<Label>)
      returns (s: set<Label>)
      ensures forall b :: b in s <==> b != xsrc && exists d :: d in dsts && transform(d) == Some(b)
    {
      s := {};
      var rest := dsts;
      while rest != multiset{}
        invariant rest <= dsts
        invariant forall b :: b in s ==> b != xsrc && exists d :: d in dsts && transform(d) == Some(b)
        invariant forall d :: d in dsts && d !in rest && transform(d).Some? && transform(d).value != xsrc ==>
          transform(d).value in s
        decreases |rest|
      {
        var dst :| dst in rest;
        var xdst := transform(dst);
        if xdst.Some? && xdst.value != xsrc {
          s := s + {xdst.value};
        }
        rest := rest - multiset{dst};
      }
    }

    // The loop of collapse_nodes.
    static method Merge(deps: Graph, transform: Label -> Option<Label>) returns (merged: map<Label, set<Label>>)
      ensures Merged(deps, transform, deps.Keys, merged)
    {
      merged := map[];
      var todo := deps.Keys;
      ghost var done: set<Label> := {};
      while todo != {}
        invariant todo !! done && todo + done == deps.Keys
        invariant Merged(deps, transform, done, merged)
        decreases todo
      {
        var src :| src in todo;
        var xsrc := transform(src);
        if xsrc.Some? {
          var more := MergedTargets(xsrc.value, deps[src], transform);
          KeptMerges(deps, transform, done, merged, src, xsrc.value, more);
          merged := merged[xsrc.value := (if xsrc.value in merged then merged[xsrc.value] else {}) + more];
        } else {
          DroppedMerges(deps, transform, done, merged, src);
        }
        todo, done := todo - {src}, done + {src};
      }
    }

    method CollapseNodes(transform: Label -> Option<Label>)
      requires Valid()
      modifies this
      ensures Valid() && Quotient(old(deps), transform, deps)
    {
      var merged := Merge(deps, transform);
      var quotient := AsGraph(merged);
      MergedIsQuotient(deps, transform, merged);
      QuotientIsComplete(deps, transform, quotient);
      deps := quotient;
      ComputeRefs();
      CompleteAlready(quotient, deps);
    }

    // The walk in main: None when the library is unknown.
    method Referrers(name: Label) returns (levels: Option<seq<set<Label>>>)
      requires Valid()
      ensures levels.Some? <==> name in refs
      ensures levels.Some? ==> WalksReferrers(refs, name, levels.value)
    {
      if name !in refs {
        return None;
      }
      TransposeIsClosed(deps, refs);
      var found := Walk(refs, name);
      levels := Some(found);
    }

    static method Walk(refs: Graph, name: Label) returns (levels: seq<set<Label>>)
      requires Closed(refs) && name in refs
      ensures WalksReferrers(refs, name, levels)
    {
      levels := [];
      var shown: set<Label> := {};
      var batch := set v | v in refs[name];
      LevelZero(refs, name);
      ghost var n := 0;
      while batch != {}
        invariant n == |levels| && shown == Within(refs, name, n) && batch == Level(refs, name, n)
        invariant AreLevels(refs, name, levels)
        decreases refs.Keys - shown
      {
        WalkStep(refs, name, n);
        AreLevelsSnoc(refs, name, levels, batch);
        levels := levels + [batch];
        shown := shown + batch;
        batch := NewBatch(refs, batch, shown);
        n := n + 1;
      }
      LevelsWalkReferrers(refs, name, levels);
    }

    // The two inner loops of the walk.
    static method NewBatch(refs: Graph, batch: set<Label>, shown: set<Label>) returns (newBatch: set<Label>)
      requires batch <= refs.Keys
      ensures newBatch == Step(refs, batch) - shown
    {
      newBatch := {};
      var todo := batch;
      while todo != {}
        invariant todo <= batch
        invariant newBatch == Step(refs, batch - todo) - shown
        decreases todo
      {
        var ref :| ref in todo;
        ghost var before := batch - todo;
        newBatch := newBatch + (set v | v in refs[ref] && v !in shown);
        todo := todo - {ref};
        assert batch - todo == before + {ref};
        assert Step(refs, before + {ref}) == Step(refs, before) + (set v | v in refs[ref]);
      }
      assert batch - todo == batch;
    }
  }
}
