/**
 Memory accounting in treemap: records in any order become a tree of nodes, and the area of a
 job is what its processes use.
 */
module Treemap {
  // The identifiers under which nodes are registered: those of the records, and those the
  // script makes up for the parts of a process.
  datatype Id =
    | Given(key: Key)
    | PrivatePart(pid: Key)
    | SharedPart(pid: Key)
    | VmoPart(pid: Key, koid: int)
    | VmoGroup(pid: Key, name: Key)

  datatype Key = Key(text: string)

  datatype Node = Node(area: int, kids: seq<Id>)

  // The registry, with what makes it a forest.
  datatype Forest = Forest(nodes: map<Id, Node>, parent: map<Id, Id>, depth: map<Id, nat>, height: nat)

  ghost predicate NoDuplicates(s: seq<Id>) {
    forall i, j | 0 <= i < j < |s| :: s[i] != s[j]
  }

  lemma NoDuplicatesConcat(a: seq<Id>, b: seq<Id>)
    requires NoDuplicates(a) && NoDuplicates(b) && forall c | c in b :: c !in a
    ensures NoDuplicates(a + b)
  {
    forall i, j | 0 <= i < j < |a + b|
      ensures (a + b)[i] != (a + b)[j]
    {
      if |a| <= j {
        assert (a + b)[j] == b[j - |a|] && b[j - |a|] in b;
      }
    }
  }

  ghost predicate WellFormed(f: Forest) {
    && f.depth.Keys == f.nodes.Keys && f.parent.Keys <= f.nodes.Keys
    && (forall x :: x in f.nodes ==> f.depth[x] <= f.height && NoDuplicates(f.nodes[x].kids))
    && (forall c :: c in f.parent ==>
          f.parent[c] in f.nodes && f.depth[c] == f.depth[f.parent[c]] + 1 && c in f.nodes[f.parent[c]].kids)
    && (forall x, c :: x in f.nodes && c in f.nodes[x].kids ==> c in f.parent && f.parent[c] == x)
  }

  lemma KidFacts(f: Forest, x: Id, c: Id)
    requires WellFormed(f) && x in f.nodes && c in f.nodes[x].kids
    ensures c in f.nodes && c in f.parent && f.parent[c] == x && f.depth[c] == f.depth[x] + 1 <= f.height
  {
  }

  // The area of a node once everything below it has been added.
  ghost function Total(f: Forest, x: Id): int
    requires WellFormed(f) && x in f.nodes
    decreases f.height - f.depth[x], |f.nodes[x].kids| + 1
  {
    f.nodes[x].area + TotalOf(f, x, f.nodes[x].kids)
  }

  ghost function TotalOf(f: Forest, x: Id, kids: seq<Id>): int
    requires WellFormed(f) && x in f.nodes && forall c | c in kids :: c in f.nodes[x].kids
    decreases f.height - f.depth[x], |kids|
  {
    if kids == [] then 0
    else
      var c := kids[|kids| - 1];
      KidFacts(f, x, c);
      TotalOf(f, x, kids[..|kids| - 1]) + Total(f, c)
  }

  // `p` is `x` or somewhere below it.
  ghost predicate Under(f: Forest, x: Id, p: Id)
    requires WellFormed(f) && p in f.nodes
    decreases f.depth[p]
  {
    p == x || (p in f.parent && Under(f, x, f.parent[p]))
  }

  lemma {:induction false} UnderIsDeeper(f: Forest, x: Id, p: Id)
    requires WellFormed(f) && x in f.nodes && p in f.nodes && Under(f, x, p)
    ensures f.depth[x] <= f.depth[p] && (f.depth[x] == f.depth[p] ==> x == p)
    decreases f.depth[p]
  {
    if p != x {
      UnderIsDeeper(f, x, f.parent[p]);
    }
  }

  // On one level there is only one node above a given one.
  lemma {:induction false} UnderIsUnique(f: Forest, c: Id, c': Id, p: Id)
    requires WellFormed(f) && c in f.nodes && c' in f.nodes && p in f.nodes && f.depth[c] == f.depth[c']
    requires Under(f, c, p) && Under(f, c', p)
    ensures c == c'
    decreases f.depth[p]
  {
    UnderIsDeeper(f, c, p);
    UnderIsDeeper(f, c', p);
    if p != c && p != c' {
      UnderIsUnique(f, c, c', f.parent[p]);
    }
  }

  lemma {:induction false} UnderSomeKid(f: Forest, x: Id, p: Id)
    requires WellFormed(f) && x in f.nodes && p in f.nodes && p != x && Under(f, x, p)
    ensures exists c :: c in f.nodes[x].kids && c in f.nodes && Under(f, c, p)
    decreases f.depth[p]
  {
    if f.parent[p] == x {
      assert p in f.nodes[x].kids && Under(f, p, p);
    } else {
      UnderSomeKid(f, x, f.parent[p]);
      var c :| c in f.nodes[x].kids && c in f.nodes && Under(f, c, f.parent[p]);
      assert Under(f, c, p);
    }
  }

  lemma {:induction false} KidIsUnder(f: Forest, x: Id, c: Id, p: Id)
    requires WellFormed(f) && x in f.nodes && c in f.nodes[x].kids && p in f.nodes && Under(f, c, p)
    ensures Under(f, x, p) && p != x
    decreases f.depth[p]
  {
    KidFacts(f, x, c);
    UnderIsDeeper(f, c, p);
    if p == c {
      assert Under(f, x, x);
    } else {
      KidIsUnder(f, x, c, f.parent[p]);
    }
  }

  // ---------- adding up processes ----------

  // `weight`, once for each of `kids` that is above `p`.
  ghost function Above(f: Forest, kids: seq<Id>, p: Id, weight: int): int
    requires WellFormed(f) && p in f.nodes
  {
    if kids == [] then 0
    else Above(f, kids[..|kids| - 1], p, weight) + if Under(f, kids[|kids| - 1], p) then weight else 0
  }

  lemma {:induction false} AboveNone(f: Forest, kids: seq<Id>, p: Id, weight: int)
    requires WellFormed(f) && p in f.nodes && forall c | c in kids :: !Under(f, c, p)
    ensures Above(f, kids, p, weight) == 0
  {
    if kids != [] {
      AboveNone(f, kids[..|kids| - 1], p, weight);
    }
  }

  lemma {:induction false} AboveOne(f: Forest, kids: seq<Id>, p: Id, c: Id, weight: int)
    requires WellFormed(f) && p in f.nodes && NoDuplicates(kids) && c in kids && Under(f, c, p)
    requires forall d | d in kids && d != c :: !Under(f, d, p)
    ensures Above(f, kids, p, weight) == weight
  {
    var init, last := kids[..|kids| - 1], kids[|kids| - 1];
    assert kids == init + [last];
    if last == c {
      AboveNone(f, init, p, weight);
    } else {
      AboveOne(f, init, p, c, weight);
    }
  }

  lemma NotUnderSibling(f: Forest, x: Id, c: Id, d: Id, p: Id)
    requires WellFormed(f) && x in f.nodes && c in f.nodes[x].kids && d in f.nodes[x].kids && c != d
    requires p in f.nodes && Under(f, c, p)
    ensures !Under(f, d, p)
  {
    KidFacts(f, x, c);
    KidFacts(f, x, d);
    if Under(f, d, p) {
      UnderIsUnique(f, c, d, p);
    }
  }

  lemma NotUnderKid(f: Forest, x: Id, c: Id, p: Id)
    requires WellFormed(f) && x in f.nodes && c in f.nodes[x].kids && p in f.nodes && !Under(f, x, p)
    ensures !Under(f, c, p)
  {
    if Under(f, c, p) {
      KidIsUnder(f, x, c, p);
    }
  }

  // A node below `x` is below exactly one of its children.
  lemma AboveIff(f: Forest, x: Id, p: Id, weight: int)
    requires WellFormed(f) && x in f.nodes && p in f.nodes && p != x
    ensures Above(f, f.nodes[x].kids, p, weight) == if Under(f, x, p) then weight else 0
  {
    var kids := f.nodes[x].kids;
    if Under(f, x, p) {
      UnderSomeKid(f, x, p);
      var c :| c in kids && c in f.nodes && Under(f, c, p);
      forall d | d in kids && d != c
        ensures !Under(f, d, p)
      {
        NotUnderSibling(f, x, c, d, p);
      }
      AboveOne(f, kids, p, c, weight);
    } else {
      forall c | c in kids
        ensures !Under(f, c, p)
      {
        NotUnderKid(f, x, c, p);
      }
      AboveNone(f, kids, p, weight);
    }
  }

  // The totals of the processes in `ps` at or below `x`: a scan that knows nothing of the tree
  // but who is above whom.
  ghost function ScanUnder(f: Forest, ps: seq<Id>, x: Id): int
    requires WellFormed(f) && forall p | p in ps :: p in f.nodes
  {
    if ps == [] then 0
    else
      var p := ps[|ps| - 1];
      ScanUnder(f, ps[..|ps| - 1], x) + if Under(f, x, p) then Total(f, p) else 0
  }

  ghost function ScanKids(f: Forest, ps: seq<Id>, kids: seq<Id>): int
    requires WellFormed(f) && forall p | p in ps :: p in f.nodes
  {
    if kids == [] then 0 else ScanKids(f, ps, kids[..|kids| - 1]) + ScanUnder(f, ps, kids[|kids| - 1])
  }

  lemma {:induction false} ScanKidsSnoc(f: Forest, ps: seq<Id>, kids: seq<Id>)
    requires WellFormed(f) && ps != [] && forall p | p in ps :: p in f.nodes
    ensures var p := ps[|ps| - 1];
      ScanKids(f, ps, kids) == ScanKids(f, ps[..|ps| - 1], kids) + Above(f, kids, p, Total(f, p))
  {
    if kids != [] {
      ScanKidsSnoc(f, ps, kids[..|kids| - 1]);
    }
  }

  lemma {:induction false} ScanNobody(f: Forest, kids: seq<Id>)
    requires WellFormed(f)
    ensures ScanKids(f, [], kids) == 0
  {
    if kids != [] {
      ScanNobody(f, kids[..|kids| - 1]);
    }
  }

  // Scanning below each child is scanning below their parent.
  lemma {:induction false} ScanSplits(f: Forest, ps: seq<Id>, x: Id)
    requires WellFormed(f) && x in f.nodes && x !in ps && forall p | p in ps :: p in f.nodes
    ensures ScanKids(f, ps, f.nodes[x].kids) == ScanUnder(f, ps, x)
  {
    var kids := f.nodes[x].kids;
    if ps == [] {
      ScanNobody(f, kids);
    } else {
      ScanSplits(f, ps[..|ps| - 1], x);
      ScanKidsSnoc(f, ps, kids);
      AboveIff(f, x, ps[|ps| - 1], Total(f, ps[|ps| - 1]));
    }
  }

  // Below `top`, the processes are `ps`: none is below another, and only nodes at or below one
  // of them have an area of their own.
  ghost predicate Processes(f: Forest, top: Id, ps: seq<Id>) {
    && WellFormed(f) && NoDuplicates(ps)
    && (forall p | p in ps :: p in f.nodes)
    && (forall p, q | p in ps && q in ps && p != q :: !Under(f, p, q))
    && (forall x :: x in f.nodes && Under(f, top, x) && f.nodes[x].area != 0 ==> exists p :: p in ps && Under(f, p, x))
  }

  lemma {:induction false} ScanNone(f: Forest, ps: seq<Id>, x: Id)
    requires WellFormed(f) && forall p | p in ps :: p in f.nodes && !Under(f, x, p)
    ensures ScanUnder(f, ps, x) == 0
  {
    if ps != [] {
      ScanNone(f, ps[..|ps| - 1], x);
    }
  }

  lemma {:induction false} ScanSelf(f: Forest, ps: seq<Id>, x: Id)
    requires WellFormed(f) && NoDuplicates(ps) && x in ps && forall p | p in ps :: p in f.nodes
    requires forall p | p in ps && p != x :: !Under(f, x, p)
    ensures ScanUnder(f, ps, x) == Total(f, x)
  {
    var init, last := ps[..|ps| - 1], ps[|ps| - 1];
    assert ps == init + [last];
    if last == x {
      ScanNone(f, init, x);
    } else {
      ScanSelf(f, init, x);
    }
  }

  // `x` is not inside a process.
  ghost predicate Outside(f: Forest, ps: seq<Id>, x: Id)
    requires WellFormed(f) && x in f.nodes
  {
    forall p | p in ps && Under(f, p, x) :: p == x
  }

  // The area of a job is the sum over the processes below it.
  lemma {:induction false} TotalIsScan(f: Forest, top: Id, ps: seq<Id>, x: Id)
    requires Processes(f, top, ps) && x in f.nodes && top in f.nodes && Under(f, top, x) && Outside(f, ps, x)
    ensures Total(f, x) == ScanUnder(f, ps, x)
    decreases f.height - f.depth[x], |f.nodes[x].kids| + 1
  {
    if x in ps {
      ScanSelf(f, ps, x);
    } else {
      ScanSplits(f, ps, x);
      TotalOfIsScan(f, top, ps, x, f.nodes[x].kids);
    }
  }

  lemma {:induction false} TotalOfIsScan(f: Forest, top: Id, ps: seq<Id>, x: Id, kids: seq<Id>)
    requires Processes(f, top, ps) && x in f.nodes && top in f.nodes && Under(f, top, x) && Outside(f, ps, x)
    requires x !in ps
    requires forall c | c in kids :: c in f.nodes[x].kids
    ensures TotalOf(f, x, kids) == ScanKids(f, ps, kids)
    decreases f.height - f.depth[x], |kids|
  {
    if kids != [] {
      var c := kids[|kids| - 1];
      KidFacts(f, x, c);
      TotalOfIsScan(f, top, ps, x, kids[..|kids| - 1]);
      assert Outside(f, ps, c);
      TotalIsScan(f, top, ps, c);
    }
  }

  // ---------- sum_area ----------

  // The script refuses a node with both an area and children.
  ghost predicate Unmixed(f: Forest, x: Id)
    requires WellFormed(f)
  {
    forall y :: y in f.nodes && Under(f, x, y) && f.nodes[y].kids != [] ==> f.nodes[y].area == 0
  }

  ghost predicate UnderAny(f: Forest, xs: seq<Id>, y: Id)
    requires WellFormed(f) && y in f.nodes
  {
    exists x :: x in xs && Under(f, x, y)
  }

  ghost function Summed(f: Forest, y: Id): Node
    requires WellFormed(f) && y in f.nodes
  {
    Node(Total(f, y), f.nodes[y].kids)
  }

  // The registry when the subtrees of `xs` have been summed and nothing else has changed.
  ghost predicate SummedBelow(f: Forest, before: map<Id, Node>, nodes: map<Id, Node>, xs: seq<Id>)
    requires WellFormed(f)
  {
    && nodes.Keys == before.Keys == f.nodes.Keys
    && forall y :: y in f.nodes ==> nodes[y] == if UnderAny(f, xs, y) then Summed(f, y) else before[y]
  }

  // Nothing below `x` has been touched.
  ghost predicate Untouched(f: Forest, nodes: map<Id, Node>, x: Id)
    requires WellFormed(f) && nodes.Keys == f.nodes.Keys
  {
    forall y :: y in f.nodes && Under(f, x, y) ==> nodes[y] == f.nodes[y]
  }

  lemma NextKidUntouched(f: Forest, x: Id, before: map<Id, Node>, nodes: map<Id, Node>, i: nat)
    requires WellFormed(f) && x in f.nodes && i < |f.nodes[x].kids|
    requires SummedBelow(f, before, nodes, f.nodes[x].kids[..i]) && Untouched(f, before, x)
    ensures Untouched(f, nodes, f.nodes[x].kids[i])
  {
    var kids := f.nodes[x].kids;
    forall y | y in f.nodes && Under(f, kids[i], y)
      ensures nodes[y] == f.nodes[y]
    {
      KidIsUnder(f, x, kids[i], y);
      forall c | c in kids[..i]
        ensures !Under(f, c, y)
      {
        NotUnderSibling(f, x, kids[i], c, y);
      }
    }
  }

  lemma OneMoreSummed(f: Forest, before: map<Id, Node>, mid: map<Id, Node>, after: map<Id, Node>, xs: seq<Id>, c: Id)
    requires WellFormed(f) && SummedBelow(f, before, mid, xs) && SummedBelow(f, mid, after, [c])
    ensures SummedBelow(f, before, after, xs + [c])
  {
  }

  lemma AllKidsSummed(f: Forest, x: Id, before: map<Id, Node>, nodes: map<Id, Node>)
    requires WellFormed(f) && x in f.nodes && SummedBelow(f, before, nodes, f.nodes[x].kids)
    ensures SummedBelow(f, before, nodes[x := Summed(f, x)], [x])
    ensures nodes[x] == before[x]
  {
    var kids := f.nodes[x].kids;
    forall y | y in f.nodes
      ensures UnderAny(f, kids, y) <==> Under(f, x, y) && y != x
    {
      if Under(f, x, y) && y != x {
        UnderSomeKid(f, x, y);
      }
      if UnderAny(f, kids, y) {
        var c :| c in kids && Under(f, c, y);
        KidIsUnder(f, x, c, y);
      }
    }
    assert forall y :: y in f.nodes ==> (UnderAny(f, [x], y) <==> Under(f, x, y));
  }

  class Registry {
    var nodes: map<Id, Node>

    // sum_area: `false` for the assertion.
    method SumArea(x: Id, ghost f: Forest) returns (ok: bool, area: int)
      requires WellFormed(f) && x in f.nodes && nodes.Keys == f.nodes.Keys && Untouched(f, nodes, x)
      modifies this
      ensures ok <==> Unmixed(f, x)
      ensures ok ==> area == Total(f, x) && SummedBelow(f, old(nodes), nodes, [x])
      decreases f.height - f.depth[x], 2
    {
      assert Under(f, x, x);
      if nodes[x].kids != [] && nodes[x].area != 0 {
        return false, 0;
      }
      ghost var before := nodes;
      ok, area := SumKids(x, f);
      if ok {
        KidsUnmixed(f, x);
        AllKidsSummed(f, x, before, nodes);
        area := nodes[x].area + area;
        nodes := nodes[x := Node(area, nodes[x].kids)];
      }
    }

    // sum(map(sum_area, node.children))
    method SumKids(x: Id, ghost f: Forest) returns (ok: bool, area: int)
      requires WellFormed(f) && x in f.nodes && nodes.Keys == f.nodes.Keys && Untouched(f, nodes, x)
      modifies this
      ensures !ok ==> !Unmixed(f, x)
      ensures ok ==> area == TotalOf(f, x, f.nodes[x].kids) && SummedBelow(f, old(nodes), nodes, f.nodes[x].kids)
      ensures ok ==> forall c | c in f.nodes[x].kids :: Unmixed(f, c)
      decreases f.height - f.depth[x], 1
    {
      assert Under(f, x, x);
      ok, area := true, 0;
      var kids := nodes[x].kids;
      for i := 0 to |kids|
        invariant kids == f.nodes[x].kids && SummedBelow(f, old(nodes), nodes, kids[..i])
        invariant area == TotalOf(f, x, kids[..i])
        invariant forall c | c in kids[..i] :: Unmixed(f, c)
        invariant ok
      {
        var a;
        ok, a := SumKid(x, i, f, old(nodes));
        if !ok {
          return;
        }
        assert kids[..i + 1] == kids[..i] + [kids[i]] && kids[..i + 1][..i] == kids[..i];
        area := area + a;
      }
      assert kids[..|kids|] == kids;
    }

    // The next child, when the first `i` have been summed.
    method SumKid(x: Id, i: nat, ghost f: Forest, ghost before: map<Id, Node>) returns (ok: bool, area: int)
      requires WellFormed(f) && x in f.nodes && i < |f.nodes[x].kids| && x in nodes && nodes[x].kids == f.nodes[x].kids
      requires SummedBelow(f, before, nodes, f.nodes[x].kids[..i]) && Untouched(f, before, x)
      modifies this
      ensures !ok ==> !Unmixed(f, x)
      ensures ok ==>
        f.nodes[x].kids[i] in f.nodes && area == Total(f, f.nodes[x].kids[i]) && Unmixed(f, f.nodes[x].kids[i])
      ensures ok ==> SummedBelow(f, before, nodes, f.nodes[x].kids[..i] + [f.nodes[x].kids[i]])
      decreases f.height - f.depth[x], 0
    {
      var c := nodes[x].kids[i];
      KidFacts(f, x, c);
      NextKidUntouched(f, x, before, nodes, i);
      ghost var mid := nodes;
      ok, area := SumArea(c, f);
      if ok {
        OneMoreSummed(f, before, mid, nodes, f.nodes[x].kids[..i], c);
      } else {
        KidMixed(f, x, c);
      }
    }
  }

  lemma KidMixed(f: Forest, x: Id, c: Id)
    requires WellFormed(f) && x in f.nodes && c in f.nodes[x].kids && !Unmixed(f, c)
    ensures !Unmixed(f, x)
  {
    var y :| y in f.nodes && Under(f, c, y) && f.nodes[y].kids != [] && f.nodes[y].area != 0;
    KidIsUnder(f, x, c, y);
  }

  lemma KidsUnmixed(f: Forest, x: Id)
    requires WellFormed(f) && x in f.nodes && (f.nodes[x].kids != [] ==> f.nodes[x].area == 0)
    requires forall c | c in f.nodes[x].kids :: Unmixed(f, c)
    ensures Unmixed(f, x)
  {
    forall y | y in f.nodes && Under(f, x, y) && f.nodes[y].kids != []
      ensures f.nodes[y].area == 0
    {
      if y != x {
        UnderSomeKid(f, x, y);
      }
    }
  }
}
