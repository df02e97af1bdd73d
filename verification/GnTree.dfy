/**
 Reading back `gn desc --tree`: dependencies printed as an indented tree, two spaces a level,
 in which a label that was printed before is marked with "..." and not expanded again.
 */
module GnTree {
  import opened Basics

  type Label = string

  // ---------- the parser ----------

  predicate IsBlank(c: char) {
    c == ' ' || '\t' <= c <= '\r'
  }

  function LStrip(line: string): (s: string)
    ensures |s| <= |line|
  {
    if line != [] && IsBlank(line[0]) then LStrip(line[1..]) else line
  }

  predicate EndsWithDots(s: string) {
    |s| >= 3 && s[|s| - 3..] == "..."
  }

  function StripDots(s: string): string {
    if EndsWithDots(s) then s[..|s| - 3] else s
  }

  type Deps = map<Label, seq<Label>>

  // deps[parent].append(label), on a defaultdict
  function Append(deps: Deps, parent: Label, name: Label): Deps {
    deps[parent := (if parent in deps then deps[parent] else []) + [name]]
  }

  // The loop state; a failed assertion or an index out of range ends the script.
  datatype Parse = Crashed | Parsed(stack: seq<Label>, deps: Deps)

  function ParseLine(p: Parse, line: string): Parse {
    if p.Crashed? then Crashed
    else
      var text := LStrip(line);
      var spaces := |line| - |text|;
      if spaces % 2 != 0 then Crashed
      else
        var name := StripDots(text);
        var depth := spaces / 2;
        var stack := p.stack[..Min(depth + 1, |p.stack|)] + [name];
        if depth < |stack| then Parsed(stack, Append(p.deps, stack[depth], name)) else Crashed
  }

  function ParseLines(p: Parse, lines: seq<string>): Parse
    decreases |lines|
  {
    if lines == [] then p else ParseLines(ParseLine(p, lines[0]), lines[1..])
  }

  lemma {:induction false} ParseConcat(p: Parse, a: seq<string>, b: seq<string>)
    ensures ParseLines(p, a + b) == ParseLines(ParseLines(p, a), b)
    decreases |a|
  {
    if a == [] {
      assert a + b == b;
    } else {
      assert (a + b)[1..] == a[1..] + b;
      ParseConcat(ParseLine(p, a[0]), a[1..], b);
    }
  }

  lemma {:induction false} CrashStays(lines: seq<string>)
    ensures ParseLines(Crashed, lines) == Crashed
  {
    if lines != [] {
      CrashStays(lines[1..]);
    }
  }

  // The body of the loop in load_build_graph.
  method ReadLine(stack0: seq<Label>, deps0: Deps, line: string) returns (r: Parse)
    ensures r == ParseLine(Parsed(stack0, deps0), line)
  {
    var stack, deps := stack0, deps0;
    var name := LStrip(line);
    var leadingSpaces := |line| - |name|;
    if leadingSpaces % 2 != 0 {
      return Crashed;
    }
    if EndsWithDots(name) {
      name := name[..|name| - 3];
    }
    var depth := leadingSpaces / 2;
    if depth + 1 < |stack| {
      stack := stack[..depth + 1];
    }
    stack := stack + [name];
    if depth >= |stack| {
      return Crashed;
    }
    r := Parsed(stack, Append(deps, stack[depth], name));
  }

  method LoadBuildGraph(root: Label, lines: seq<string>) returns (r: Parse)
    ensures r == ParseLines(Parsed([root], map[]), lines)
  {
    r := Parsed([root], map[]);
    var i := 0;
    while i < |lines| && r.Parsed?
      invariant i <= |lines|
      invariant ParseLines(Parsed([root], map[]), lines) == ParseLines(r, lines[i..])
    {
      r := ReadLine(r.stack, r.deps, lines[i]);
      i := i + 1;
    }
    if r.Crashed? {
      CrashStays(lines[i..]);
    }
  }

  // ---------- the printer ----------

  datatype Tree = Tree(name: Label, elided: bool, kids: seq<Tree>)

  function Line(depth: nat, name: Label, elided: bool): string {
    seq(2 * depth, i => ' ') + name + (if elided then "..." else "")
  }

  function PrintForest(ts: seq<Tree>, depth: nat): seq<string>
    decreases ts
  {
    if ts == [] then []
    else [Line(depth, ts[0].name, ts[0].elided)] + PrintForest(ts[0].kids, depth + 1) + PrintForest(ts[1..], depth)
  }

  // Labels as GN writes them: they do not begin with a blank or end in dots.
  predicate IsLabel(s: Label) {
    s != [] && !IsBlank(s[0]) && !EndsWithDots(s)
  }

  ghost predicate AllLabels(ts: seq<Tree>)
    decreases ts
  {
    ts != [] ==> IsLabel(ts[0].name) && AllLabels(ts[0].kids) && AllLabels(ts[1..])
  }

  // The edges a forest under `parent` shows, in the order they are printed.
  function Edges(parent: Label, ts: seq<Tree>): seq<(Label, Label)>
    decreases ts
  {
    if ts == [] then []
    else [(parent, ts[0].name)] + Edges(ts[0].name, ts[0].kids) + Edges(parent, ts[1..])
  }

  function AddEdges(deps: Deps, edges: seq<(Label, Label)>): Deps
    decreases |edges|
  {
    if edges == [] then deps else AddEdges(Append(deps, edges[0].0, edges[0].1), edges[1..])
  }

  lemma {:induction false} AddEdgesConcat(deps: Deps, a: seq<(Label, Label)>, b: seq<(Label, Label)>)
    ensures AddEdges(deps, a + b) == AddEdges(AddEdges(deps, a), b)
    decreases |a|
  {
    if a == [] {
      assert a + b == b;
    } else {
      assert (a + b)[1..] == a[1..] + b;
      AddEdgesConcat(Append(deps, a[0].0, a[0].1), a[1..], b);
    }
  }

  lemma {:induction false} LStripIndent(n: nat, text: string)
    requires text != [] && !IsBlank(text[0])
    ensures LStrip(seq(n, i => ' ') + text) == text
  {
    var line := seq(n, i => ' ') + text;
    if n == 0 {
      assert line == text;
    } else {
      assert line[1..] == seq(n - 1, i => ' ') + text;
      LStripIndent(n - 1, text);
    }
  }

  lemma ParsePrintedLine(stack: seq<Label>, deps: Deps, depth: nat, name: Label, elided: bool)
    requires IsLabel(name) && depth < |stack|
    ensures ParseLine(Parsed(stack, deps), Line(depth, name, elided))
         == Parsed(stack[..depth + 1] + [name], Append(deps, stack[depth], name))
  {
    var text := name + (if elided then "..." else "");
    assert Line(depth, name, elided) == seq(2 * depth, i => ' ') + text;
    LStripIndent(2 * depth, text);
    assert StripDots(text) == name;
  }

  // What any line does: an odd indentation, or one more than a level below the last line, ends the
  // script; a line exactly one level too deep is filed under itself.
  lemma LineIs(stack: seq<Label>, deps: Deps, n: nat, text: string)
    requires text == "" || !IsBlank(text[0])
    ensures var p := ParseLine(Parsed(stack, deps), seq(n, i => ' ') + text);
      var name := if |text| >= 3 && text[|text| - 3..] == "..." then text[..|text| - 3] else text;
      && (p.Crashed? <==> n % 2 == 1 || n / 2 > |stack|)
      && (p.Parsed? ==>
            && p.deps == Append(deps, if n / 2 < |stack| then stack[n / 2] else name, name)
            && p.stack == stack[..Min(n / 2 + 1, |stack|)] + [name])
  {
    if text == "" {
      BlankLine(n);
    } else {
      LStripIndent(n, text);
    }
  }

  lemma {:induction false} BlankLine(n: nat)
    ensures LStrip(seq(n, i => ' ') + "") == ""
  {
    var line := seq(n, i => ' ') + "";
    if n > 0 {
      assert line[1..] == seq(n - 1, i => ' ') + "";
      BlankLine(n - 1);
    }
  }

  // What parsing `lines` under the ancestors stack[..depth + 1] amounts to.
  ghost predicate Adds(stack: seq<Label>, deps: Deps, lines: seq<string>, depth: nat, edges: seq<(Label, Label)>) {
    var p := ParseLines(Parsed(stack, deps), lines);
    && p.Parsed? && depth < |p.stack| && depth < |stack| && p.stack[..depth + 1] == stack[..depth + 1]
    && p.deps == AddEdges(deps, edges)
  }

  lemma AddsConcat(stack: seq<Label>, deps: Deps, depth: nat, a: seq<string>, ea: seq<(Label, Label)>,
                   b: seq<string>, eb: seq<(Label, Label)>)
    requires Adds(stack, deps, a, depth, ea)
    requires var p := ParseLines(Parsed(stack, deps), a); Adds(p.stack, p.deps, b, depth, eb)
    ensures Adds(stack, deps, a + b, depth, ea + eb)
  {
    ParseConcat(Parsed(stack, deps), a, b);
    AddEdgesConcat(deps, ea, eb);
  }

  lemma AddsLine(stack: seq<Label>, deps: Deps, depth: nat, t: Tree, below: seq<string>, edges: seq<(Label, Label)>)
    requires depth < |stack| && IsLabel(t.name)
    requires Adds(stack[..depth + 1] + [t.name], Append(deps, stack[depth], t.name), below, depth + 1, edges)
    ensures Adds(stack, deps, [Line(depth, t.name, t.elided)] + below, depth, [(stack[depth], t.name)] + edges)
  {
    ParsePrintedLine(stack, deps, depth, t.name, t.elided);
    var line := Line(depth, t.name, t.elided);
    var p1 := ParseLine(Parsed(stack, deps), line);
    var p2 := ParseLines(p1, below);
    assert ([line] + below)[1..] == below;
    assert ([(stack[depth], t.name)] + edges)[1..] == edges;
    assert p2.stack[..depth + 1] == p2.stack[..depth + 2][..depth + 1];
    assert p1.stack[..depth + 2][..depth + 1] == stack[..depth + 1];
  }

  // Parsing the print-out of a forest adds its edges, and leaves the ancestors on the stack.
  lemma {:induction false} ParsePrinted(stack: seq<Label>, deps: Deps, ts: seq<Tree>, depth: nat)
    requires depth < |stack| && AllLabels(ts)
    ensures Adds(stack, deps, PrintForest(ts, depth), depth, Edges(stack[depth], ts))
    decreases ts
  {
    if ts != [] {
      var t, parent := ts[0], stack[depth];
      var inner := stack[..depth + 1] + [t.name];
      var first := [Line(depth, t.name, t.elided)] + PrintForest(t.kids, depth + 1);
      assert inner[depth + 1] == t.name;
      ParsePrinted(inner, Append(deps, parent, t.name), t.kids, depth + 1);
      AddsLine(stack, deps, depth, t, PrintForest(t.kids, depth + 1), Edges(t.name, t.kids));
      var p := ParseLines(Parsed(stack, deps), first);
      assert p.stack[depth] == p.stack[..depth + 1][depth] == stack[..depth + 1][depth];
      ParsePrinted(p.stack, p.deps, ts[1..], depth);
      AddsConcat(stack, deps, depth, first, [(parent, t.name)] + Edges(t.name, t.kids),
                 PrintForest(ts[1..], depth), Edges(parent, ts[1..]));
    }
  }

  // ---------- from edges back to child lists ----------

  function Successors(edges: seq<(Label, Label)>, l: Label): seq<Label> {
    if edges == [] then []
    else (if edges[0].0 == l then [edges[0].1] else []) + Successors(edges[1..], l)
  }

  function ChildrenIn(deps: Deps, l: Label): seq<Label> {
    if l in deps then deps[l] else []
  }

  lemma {:induction false} AddEdgesChildren(deps: Deps, edges: seq<(Label, Label)>, l: Label)
    ensures ChildrenIn(AddEdges(deps, edges), l) == ChildrenIn(deps, l) + Successors(edges, l)
    ensures l in AddEdges(deps, edges) <==> l in deps || Successors(edges, l) != []
    decreases |edges|
  {
    if edges != [] {
      AddEdgesChildren(Append(deps, edges[0].0, edges[0].1), edges[1..], l);
    }
  }

  lemma {:induction false} SuccessorsConcat(a: seq<(Label, Label)>, b: seq<(Label, Label)>, l: Label)
    ensures Successors(a + b, l) == Successors(a, l) + Successors(b, l)
  {
    if a == [] {
      assert a + b == b;
    } else {
      assert (a + b)[1..] == a[1..] + b;
      SuccessorsConcat(a[1..], b, l);
    }
  }

  function Names(ts: seq<Tree>): seq<Label> {
    if ts == [] then [] else [ts[0].name] + Names(ts[1..])
  }

  // How often `l` is shown with its children.
  function Expansions(ts: seq<Tree>, l: Label): nat
    decreases ts
  {
    if ts == [] then 0
    else (if ts[0].name == l && ts[0].kids != [] then 1 else 0) + Expansions(ts[0].kids, l) + Expansions(ts[1..], l)
  }

  lemma SuccessorsOfForest(parent: Label, ts: seq<Tree>, l: Label)
    requires ts != []
    ensures Successors(Edges(parent, ts), l)
         == (if parent == l then [ts[0].name] else [])
            + Successors(Edges(ts[0].name, ts[0].kids), l) + Successors(Edges(parent, ts[1..]), l)
  {
    var t := ts[0];
    SuccessorsConcat([(parent, t.name)] + Edges(t.name, t.kids), Edges(parent, ts[1..]), l);
    SuccessorsConcat([(parent, t.name)], Edges(t.name, t.kids), l);
  }

  lemma {:induction false} NoExpansion(parent: Label, ts: seq<Tree>, l: Label)
    requires Expansions(ts, l) == 0
    ensures Successors(Edges(parent, ts), l) == if parent == l then Names(ts) else []
    decreases ts
  {
    if ts != [] {
      SuccessorsOfForest(parent, ts, l);
      NoExpansion(ts[0].name, ts[0].kids, l);
      NoExpansion(parent, ts[1..], l);
    }
  }

  // Wherever children are shown, they are all the children.
  ghost predicate Shows(g: Deps, ts: seq<Tree>)
    decreases ts
  {
    ts != [] ==>
      && (ts[0].kids != [] ==> ts[0].name in g && Names(ts[0].kids) == g[ts[0].name])
      && Shows(g, ts[0].kids) && Shows(g, ts[1..])
  }

  lemma {:induction false} OneExpansion(g: Deps, parent: Label, ts: seq<Tree>, l: Label)
    requires Expansions(ts, l) == 1 && parent != l && l in g && Shows(g, ts)
    ensures Successors(Edges(parent, ts), l) == g[l]
    decreases ts
  {
    var t := ts[0];
    SuccessorsOfForest(parent, ts, l);
    if t.name == l && t.kids != [] {
      NoExpansion(l, t.kids, l);
      NoExpansion(parent, ts[1..], l);
    } else if Expansions(t.kids, l) == 1 {
      OneExpansion(g, t.name, t.kids, l);
      NoExpansion(parent, ts[1..], l);
    } else {
      NoExpansion(t.name, t.kids, l);
      OneExpansion(g, parent, ts[1..], l);
    }
  }

  // ---------- printing a graph ----------

  ghost predicate Closed(g: Deps) {
    forall l, m :: l in g && m in g[l] ==> m in g
  }

  datatype Unfolding = Unfolding(ts: seq<Tree>, seen: set<Label>)

  // The depth-first walk behind the print-out: a label already seen is elided.
  function Unfold(g: Deps, ls: seq<Label>, seen: set<Label>): (u: Unfolding)
    requires Closed(g) && forall l | l in ls :: l in g
    ensures seen <= u.seen
    decreases g.Keys - seen, |ls|
  {
    if ls == [] then Unfolding([], seen)
    else
      var first :=
        if ls[0] in seen then Unfolding([Tree(ls[0], true, [])], seen)
        else
          var kids := Unfold(g, g[ls[0]], seen + {ls[0]});
          Unfolding([Tree(ls[0], false, kids.ts)], kids.seen);
      var rest := Unfold(g, ls[1..], first.seen);
      Unfolding(first.ts + rest.ts, rest.seen)
  }

  // The walk shows the children of every label it meets, once.
  lemma {:induction false} UnfoldShows(g: Deps, ls: seq<Label>, seen: set<Label>)
    requires Closed(g) && forall l | l in ls :: l in g
    requires forall l | l in g :: IsLabel(l)
    ensures var u := Unfold(g, ls, seen);
      && Names(u.ts) == ls && Shows(g, u.ts) && AllLabels(u.ts)
      && (forall l | l in ls :: l in u.seen)
    decreases g.Keys - seen, |ls|
  {
    if ls != [] {
      var u := Unfold(g, ls, seen);
      if ls[0] in seen {
        UnfoldShows(g, ls[1..], seen);
        assert u.ts[1..] == Unfold(g, ls[1..], seen).ts;
      } else {
        var kids := Unfold(g, g[ls[0]], seen + {ls[0]});
        UnfoldShows(g, g[ls[0]], seen + {ls[0]});
        UnfoldShows(g, ls[1..], kids.seen);
        assert u.ts[1..] == Unfold(g, ls[1..], kids.seen).ts;
      }
    }
  }

  lemma {:induction false} UnfoldExpandsOnce(g: Deps, ls: seq<Label>, seen: set<Label>, l: Label)
    requires Closed(g) && forall m | m in ls :: m in g
    requires forall m | m in g :: IsLabel(m)
    requires l in g
    ensures var u := Unfold(g, ls, seen);
      && Expansions(u.ts, l) == (if l in u.seen - seen && g[l] != [] then 1 else 0)
      && (l in u.seen - seen ==> forall m | m in g[l] :: m in u.seen)
    decreases g.Keys - seen, |ls|
  {
    if ls != [] {
      var u := Unfold(g, ls, seen);
      if ls[0] in seen {
        UnfoldExpandsOnce(g, ls[1..], seen, l);
        assert u.ts[1..] == Unfold(g, ls[1..], seen).ts;
      } else {
        var kids := Unfold(g, g[ls[0]], seen + {ls[0]});
        UnfoldExpandsOnce(g, g[ls[0]], seen + {ls[0]}, l);
        UnfoldExpandsOnce(g, ls[1..], kids.seen, l);
        UnfoldShows(g, g[ls[0]], seen + {ls[0]});
        assert u.ts[1..] == Unfold(g, ls[1..], kids.seen).ts;
      }
    }
  }

  // `l` is `n` dependencies away from `root`.
  ghost predicate Path(g: Deps, root: Label, l: Label, n: nat)
    decreases n
  {
    if n == 0 then l == root else exists m :: m in g && l in g[m] && Path(g, root, m, n - 1)
  }

  ghost predicate Reachable(g: Deps, root: Label, l: Label) {
    exists n: nat :: Path(g, root, l, n)
  }

  lemma ReachableStep(g: Deps, root: Label, m: Label, l: Label)
    requires Reachable(g, root, m) && m in g && l in g[m]
    ensures Reachable(g, root, l)
  {
    var n: nat :| Path(g, root, m, n);
    assert Path(g, root, l, n + 1);
  }

  lemma {:induction false} UnfoldSeesReachable(g: Deps, root: Label, ls: seq<Label>, seen: set<Label>)
    requires Closed(g) && forall l | l in ls :: l in g
    requires forall l | l in ls || l in seen :: Reachable(g, root, l)
    ensures forall l | l in Unfold(g, ls, seen).seen :: Reachable(g, root, l)
    decreases g.Keys - seen, |ls|
  {
    if ls != [] {
      if ls[0] in seen {
        UnfoldSeesReachable(g, root, ls[1..], seen);
      } else {
        forall m | m in g[ls[0]]
          ensures Reachable(g, root, m)
        {
          ReachableStep(g, root, ls[0], m);
        }
        UnfoldSeesReachable(g, root, g[ls[0]], seen + {ls[0]});
        UnfoldSeesReachable(g, root, ls[1..], Unfold(g, g[ls[0]], seen + {ls[0]}).seen);
      }
    }
  }

  lemma {:induction false} ClosedHoldsPaths(g: Deps, root: Label, s: set<Label>, l: Label, n: nat)
    requires root in s && (forall k, m :: k in s && k in g && m in g[k] ==> m in s) && Path(g, root, l, n)
    ensures l in s
    decreases n
  {
    if n > 0 {
      var m :| m in g && l in g[m] && Path(g, root, m, n - 1);
      ClosedHoldsPaths(g, root, s, m, n - 1);
    }
  }

  // What GN prints below `root`.
  function PrintGraph(g: Deps, root: Label): seq<string>
    requires Closed(g) && root in g
  {
    PrintForest(Unfold(g, g[root], {root}).ts, 0)
  }

  // Whatever the graph, cycles included, the script reads back exactly the child lists of the
  // labels that were printed, in order; and what was printed is closed under dependencies.
  lemma ParsePrintRoundTrip(g: Deps, root: Label)
    requires Closed(g) && root in g && forall l | l in g :: IsLabel(l)
    ensures var p := ParseLines(Parsed([root], map[]), PrintGraph(g, root));
      var seen := Unfold(g, g[root], {root}).seen;
      && p.Parsed?
      && (forall l :: l in p.deps <==> l in seen && l in g && g[l] != [])
      && (forall l | l in p.deps :: p.deps[l] == g[l])
    ensures var seen := Unfold(g, g[root], {root}).seen;
      root in seen && forall l, m :: l in seen && l in g && m in g[l] ==> m in seen
  {
    var u := Unfold(g, g[root], {root});
    var deps := AddEdges(map[], Edges(root, u.ts));
    UnfoldShows(g, g[root], {root});
    ParsePrinted([root], map[], u.ts, 0);
    forall l
      ensures l in deps <==> l in u.seen && l in g && g[l] != []
      ensures l in deps ==> deps[l] == g[l]
      ensures l in u.seen && l in g ==> forall m | m in g[l] :: m in u.seen
    {
      ChildrenRecovered(g, root, l);
      AddEdgesChildren(map[], Edges(root, u.ts), l);
    }
  }

  // The labels that were printed are those the root depends on, directly or not.
  lemma PrintsReachable(g: Deps, root: Label, l: Label)
    requires Closed(g) && root in g && forall m | m in g :: IsLabel(m)
    ensures l in Unfold(g, g[root], {root}).seen <==> Reachable(g, root, l)
  {
    var seen := Unfold(g, g[root], {root}).seen;
    ParsePrintRoundTrip(g, root);
    assert Path(g, root, root, 0);
    forall m | m in g[root]
      ensures Reachable(g, root, m)
    {
      ReachableStep(g, root, root, m);
    }
    UnfoldSeesReachable(g, root, g[root], {root});
    if Reachable(g, root, l) {
      var n: nat :| Path(g, root, l, n);
      ClosedHoldsPaths(g, root, seen, l, n);
    }
  }

  lemma ChildrenRecovered(g: Deps, root: Label, l: Label)
    requires Closed(g) && root in g && forall m | m in g :: IsLabel(m)
    ensures var u := Unfold(g, g[root], {root});
      && Successors(Edges(root, u.ts), l) == (if l in u.seen && l in g then g[l] else [])
      && (l in u.seen && l in g ==> forall m | m in g[l] :: m in u.seen)
  {
    var u := Unfold(g, g[root], {root});
    UnfoldShows(g, g[root], {root});
    if l in g {
      UnfoldExpandsOnce(g, g[root], {root}, l);
    } else {
      NotInGraph(g, u.ts, l);
    }
    if Expansions(u.ts, l) == 0 {
      NoExpansion(root, u.ts, l);
    } else {
      OneExpansion(g, root, u.ts, l);
    }
  }

  lemma {:induction false} NotInGraph(g: Deps, ts: seq<Tree>, l: Label)
    requires Shows(g, ts) && l !in g
    ensures Expansions(ts, l) == 0
    decreases ts
  {
    if ts != [] {
      NotInGraph(g, ts[0].kids, l);
      NotInGraph(g, ts[1..], l);
    }
  }
}
