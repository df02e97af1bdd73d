/** The parts treemap divides a process into. */
module TreemapParts {
  import opened Basics
  import opened Treemap

  // ---------- the parts of a process ----------

  // A memory object as one process sees it; `mapped` when the process maps it, rather than only
  // holding a handle. What is mapped is shared by at least one process.
  datatype VmoRecord = VmoRecord(koid: int, name: Key, committed: nat, shares: nat, mapped: bool)

  type Vmo = v: VmoRecord | v.mapped ==> v.shares > 0 witness VmoRecord(0, Key(""), 0, 0, false)

  // The process's share of the object. A handle counts as one more sharer.
  function Share(v: Vmo): nat {
    if v.mapped then v.committed / v.shares else v.committed / (v.shares + 1)
  }

  predicate Knows(vmos: seq<Vmo>, koid: int) {
    exists i | 0 <= i < |vmos| :: vmos[i].koid == koid
  }

  // The first record of each object.
  function Distinct(vmos: seq<Vmo>): seq<Vmo> {
    if vmos == [] then []
    else
      var init, last := Distinct(vmos[..|vmos| - 1]), vmos[|vmos| - 1];
      if Knows(init, last.koid) then init else init + [last]
  }

  function SumShares(vmos: seq<Vmo>): nat {
    if vmos == [] then 0 else SumShares(vmos[..|vmos| - 1]) + Share(vmos[|vmos| - 1])
  }

  lemma {:induction false} EqualShares(vmos: seq<Vmo>, each: nat)
    requires forall v | v in vmos :: Share(v) == each
    ensures SumShares(vmos) == |vmos| * each
  {
    if vmos != [] {
      EqualShares(vmos[..|vmos| - 1], each);
      assert Share(vmos[|vmos| - 1]) == each;
      OneMore(|vmos| - 1, each);
    }
  }

  lemma OneMore(n: nat, each: nat)
    ensures (n + 1) * each == n * each + each
  {
  }

  // The processes that map an object have all of it between them, but for less than a byte each.
  lemma SharersHaveAll(vmos: seq<Vmo>, committed: nat)
    requires vmos != [] && forall v | v in vmos :: v.mapped && v.committed == committed && v.shares == |vmos|
    ensures SumShares(vmos) <= committed < SumShares(vmos) + |vmos|
  {
    EqualShares(vmos, committed / |vmos|);
  }

  // A process that only holds a handle takes as much as one more mapping would.
  lemma HandleIsOneMore(v: Vmo)
    requires !v.mapped
    ensures Share(v) == Share(VmoRecord(v.koid, v.name, v.committed, v.shares + 1, true))
  {
  }

  // What a process record says: totals, or its memory objects.
  datatype Usage = Sizes(private: nat, pss: nat) | Objects(vmos: seq<Vmo>)

  function Footprint(u: Usage): nat {
    match u
    case Sizes(private, pss) => Max(private, pss)
    case Objects(vmos) => SumShares(Distinct(vmos))
  }

  ghost predicate KoidsDiffer(vmos: seq<Vmo>) {
    forall i, j | 0 <= i < j < |vmos| :: vmos[i].koid != vmos[j].koid
  }

  lemma {:induction false} DistinctKoids(vmos: seq<Vmo>)
    ensures KoidsDiffer(Distinct(vmos))
  {
    if vmos != [] {
      DistinctKoids(vmos[..|vmos| - 1]);
    }
  }

  lemma {:induction false} DistinctKnows(vmos: seq<Vmo>, koid: int)
    ensures Knows(Distinct(vmos), koid) <==> Knows(vmos, koid)
  {
    if vmos != [] {
      DistinctKnows(vmos[..|vmos| - 1], koid);
      KnowsSnoc(vmos[..|vmos| - 1], vmos[|vmos| - 1], koid);
      KnowsSnoc(Distinct(vmos[..|vmos| - 1]), vmos[|vmos| - 1], koid);
      assert vmos == vmos[..|vmos| - 1] + [vmos[|vmos| - 1]];
    }
  }

  lemma KnowsSnoc(vmos: seq<Vmo>, v: Vmo, koid: int)
    ensures Knows(vmos + [v], koid) <==> Knows(vmos, koid) || v.koid == koid
  {
    var all := vmos + [v];
    assert all[|vmos|] == v && forall i | 0 <= i < |vmos| :: all[i] == vmos[i];
  }

  // What is kept of each object is its first record.
  lemma {:induction false} DistinctIsFirst(vmos: seq<Vmo>, v: Vmo)
    ensures v in Distinct(vmos) <==> exists i | 0 <= i < |vmos| :: vmos[i] == v && !Knows(vmos[..i], v.koid)
  {
    if vmos != [] {
      var n := |vmos| - 1;
      DistinctIsFirst(vmos[..n], v);
      DistinctKnows(vmos[..n], vmos[n].koid);
      assert forall i | 0 <= i < n :: vmos[..n][i] == vmos[i] && vmos[..n][..i] == vmos[..i];
    }
  }

  const UNNAMED_NAME := Key("<unnamed>")

  function ShownName(v: Vmo): Key {
    if v.name.text == "" then UNNAMED_NAME else v.name
  }

  // The objects with one of the given names, in order.
  function Those(vmos: seq<Vmo>, names: set<Key>): seq<Vmo> {
    if vmos == [] then []
    else
      var last := vmos[|vmos| - 1];
      Those(vmos[..|vmos| - 1], names) + if ShownName(last) in names then [last] else []
  }

  lemma {:induction false} ThoseAreMembers(vmos: seq<Vmo>, names: set<Key>, v: Vmo)
    ensures v in Those(vmos, names) <==> v in vmos && ShownName(v) in names
  {
    if vmos != [] {
      ThoseAreMembers(vmos[..|vmos| - 1], names, v);
      assert vmos == vmos[..|vmos| - 1] + [vmos[|vmos| - 1]];
    }
  }

  lemma {:induction false} ThoseKoids(vmos: seq<Vmo>, names: set<Key>)
    requires KoidsDiffer(vmos)
    ensures KoidsDiffer(Those(vmos, names))
  {
    if vmos != [] {
      var init := vmos[..|vmos| - 1];
      ThoseKoids(init, names);
      forall v | v in Those(init, names)
        ensures v.koid != vmos[|vmos| - 1].koid
      {
        ThoseAreMembers(init, names, v);
      }
    }
  }

  lemma SumThose(vmos: seq<Vmo>, names: set<Key>)
    requires vmos != []
    ensures var init, last := vmos[..|vmos| - 1], vmos[|vmos| - 1];
      SumShares(Those(vmos, names)) ==
        SumShares(Those(init, names)) + if ShownName(last) in names then Share(last) else 0
  {
    var init, last := Those(vmos[..|vmos| - 1], names), vmos[|vmos| - 1];
    assert (init + [last])[..|init|] == init;
    assert init + [] == init;
  }

  // Grouping by name loses nothing.
  lemma {:induction false} SumOfNames(vmos: seq<Vmo>, done: set<Key>, name: Key)
    requires name !in done
    ensures SumShares(Those(vmos, done + {name})) == SumShares(Those(vmos, done)) + SumShares(Those(vmos, {name}))
  {
    if vmos != [] {
      SumThose(vmos, done);
      SumThose(vmos, {name});
      SumThose(vmos, done + {name});
      SumOfNames(vmos[..|vmos| - 1], done, name);
    }
  }

  lemma {:induction false} SumOfAll(vmos: seq<Vmo>, names: set<Key>)
    requires forall i | 0 <= i < |vmos| :: ShownName(vmos[i]) in names
    ensures Those(vmos, names) == vmos
  {
    if vmos != [] {
      SumOfAll(vmos[..|vmos| - 1], names);
      assert vmos == vmos[..|vmos| - 1] + [vmos[|vmos| - 1]];
    }
  }

  // ---------- nodes for them ----------

  function VmoIds(pid: Key, vmos: seq<Vmo>): (ids: seq<Id>)
    ensures |ids| == |vmos| && forall i | 0 <= i < |ids| :: ids[i] == VmoPart(pid, vmos[i].koid)
  {
    seq(|vmos|, i requires 0 <= i < |vmos| => VmoPart(pid, vmos[i].koid))
  }

  function Areas(nodes: map<Id, Node>, ids: seq<Id>): int
    requires forall x | x in ids :: x in nodes
  {
    if ids == [] then 0 else Areas(nodes, ids[..|ids| - 1]) + nodes[ids[|ids| - 1]].area
  }

  // The area of a part and of the objects kept below it.
  ghost function PartTotal(nodes: map<Id, Node>, x: Id): int
    requires x in nodes && forall c | c in nodes[x].kids :: c in nodes
  {
    nodes[x].area + Areas(nodes, nodes[x].kids)
  }

  ghost predicate Complete(nodes: map<Id, Node>) {
    forall x, c :: x in nodes && c in nodes[x].kids ==> c in nodes
  }

  ghost function PartTotals(nodes: map<Id, Node>, ids: seq<Id>): int
    requires Complete(nodes) && forall x | x in ids :: x in nodes
  {
    if ids == [] then 0 else PartTotals(nodes, ids[..|ids| - 1]) + PartTotal(nodes, ids[|ids| - 1])
  }

  lemma {:induction false} PartTotalsConcat(nodes: map<Id, Node>, a: seq<Id>, b: seq<Id>)
    requires Complete(nodes) && (forall x | x in a :: x in nodes) && forall x | x in b :: x in nodes
    ensures PartTotals(nodes, a + b) == PartTotals(nodes, a) + PartTotals(nodes, b)
  {
    if b == [] {
      assert a + b == a;
    } else {
      assert (a + b)[..|a + b| - 1] == a + b[..|b| - 1];
      PartTotalsConcat(nodes, a, b[..|b| - 1]);
    }
  }

  // Adding nodes does not change what is there.
  lemma {:induction false} AreasStay(a: map<Id, Node>, b: map<Id, Node>, ids: seq<Id>)
    requires forall x | x in ids :: x in a && x in b && b[x] == a[x]
    ensures Areas(a, ids) == Areas(b, ids)
  {
    if ids != [] {
      AreasStay(a, b, ids[..|ids| - 1]);
    }
  }

  lemma {:induction false} PartTotalsStay(a: map<Id, Node>, b: map<Id, Node>, ids: seq<Id>)
    requires Complete(a) && Complete(b) && forall x | x in ids :: x in a
    requires forall x :: x in a ==> x in b && b[x] == a[x]
    ensures PartTotals(a, ids) == PartTotals(b, ids)
  {
    if ids != [] {
      PartTotalsStay(a, b, ids[..|ids| - 1]);
      AreasStay(a, b, a[ids[|ids| - 1]].kids);
    }
  }

  // One leaf per object.
  ghost predicate HasLeaves(nodes: map<Id, Node>, pid: Key, vmos: seq<Vmo>) {
    forall v | v in vmos :: VmoPart(pid, v.koid) in nodes && nodes[VmoPart(pid, v.koid)] == Node(Share(v), [])
  }

  lemma {:induction false} LeafAreas(nodes: map<Id, Node>, pid: Key, vmos: seq<Vmo>)
    requires HasLeaves(nodes, pid, vmos)
    ensures forall x | x in VmoIds(pid, vmos) :: x in nodes
    ensures Areas(nodes, VmoIds(pid, vmos)) == SumShares(vmos)
  {
    if vmos != [] {
      assert vmos == vmos[..|vmos| - 1] + [vmos[|vmos| - 1]];
      assert VmoIds(pid, vmos)[..|vmos| - 1] == VmoIds(pid, vmos[..|vmos| - 1]);
      LeafAreas(nodes, pid, vmos[..|vmos| - 1]);
    }
  }

  lemma {:induction false} LeafTotals(nodes: map<Id, Node>, pid: Key, vmos: seq<Vmo>)
    requires Complete(nodes) && HasLeaves(nodes, pid, vmos)
    ensures forall x | x in VmoIds(pid, vmos) :: x in nodes
    ensures PartTotals(nodes, VmoIds(pid, vmos)) == SumShares(vmos)
  {
    if vmos != [] {
      assert vmos == vmos[..|vmos| - 1] + [vmos[|vmos| - 1]];
      assert VmoIds(pid, vmos)[..|vmos| - 1] == VmoIds(pid, vmos[..|vmos| - 1]);
      LeafTotals(nodes, pid, vmos[..|vmos| - 1]);
    }
  }

  // ---------- populate_process ----------

  // `nodes` are the parts of process `pid`, listed once each in `kids` or below one of them, and
  // together they come to `total`.
  ghost predicate IsBreakdown(pid: Key, nodes: map<Id, Node>, kids: seq<Id>, total: int) {
    && Complete(nodes) && NoDuplicates(kids) && Owned(pid, nodes) && Apart(nodes)
    && (forall k | k in kids :: k in nodes)
    && PartTotals(nodes, kids) == total
  }

  ghost predicate Owned(pid: Key, nodes: map<Id, Node>) {
    forall x :: x in nodes ==> !x.Given? && x.pid == pid
  }

  // No node has both an area and children.
  ghost predicate Apart(nodes: map<Id, Node>) {
    forall x :: x in nodes && nodes[x].kids != [] ==> nodes[x].area == 0
  }

  ghost predicate Flat(nodes: map<Id, Node>) {
    forall x :: x in nodes ==> nodes[x].kids == []
  }

  ghost predicate OnlyLeaves(nodes: map<Id, Node>, pid: Key, vmos: seq<Vmo>) {
    HasLeaves(nodes, pid, vmos) && forall x :: x in nodes ==> x.VmoPart? && x.pid == pid && Knows(vmos, x.koid)
  }

  ghost predicate Grouped(groups: map<Key, seq<Vmo>>, vmos: seq<Vmo>) {
    && (forall name :: name in groups ==> groups[name] == Those(vmos, {name}))
    && (forall v | v in vmos :: ShownName(v) in groups)
  }

  lemma NobodyNamed(vmos: seq<Vmo>, name: Key)
    requires forall v | v in vmos :: ShownName(v) != name
    ensures Those(vmos, {name}) == []
  {
  }

  lemma ThoseSnoc(vmos: seq<Vmo>, v: Vmo, name: Key)
    ensures Those(vmos + [v], {name}) == Those(vmos, {name}) + if ShownName(v) == name then [v] else []
  {
  }

  // The group of one name when `v` is filed.
  lemma GroupEntry(groups: map<Key, seq<Vmo>>, vmos: seq<Vmo>, v: Vmo, name: Key)
    requires Grouped(groups, vmos) && (name in groups || name == ShownName(v))
    ensures Those(vmos + [v], {name}) ==
      (if name in groups then groups[name] else []) + if ShownName(v) == name then [v] else []
  {
    ThoseSnoc(vmos, v, name);
    if name !in groups {
      NobodyNamed(vmos, name);
    }
  }

  lemma GroupSnoc(groups: map<Key, seq<Vmo>>, vmos: seq<Vmo>, v: Vmo)
    requires Grouped(groups, vmos)
    ensures var group := if ShownName(v) in groups then groups[ShownName(v)] else [];
      Grouped(groups[ShownName(v) := group + [v]], vmos + [v])
  {
    var name := ShownName(v);
    var more := groups[name := (if name in groups then groups[name] else []) + [v]];
    forall k | k in more
      ensures more[k] == Those(vmos + [v], {k})
    {
      GroupEntry(groups, vmos, v, k);
    }
  }

  lemma DistinctNext(vmos: seq<Vmo>, i: nat)
    requires i < |vmos|
    ensures var distinct := Distinct(vmos[..i]);
      Distinct(vmos[..i + 1]) == if Knows(distinct, vmos[i].koid) then distinct else distinct + [vmos[i]]
  {
    assert vmos[..i + 1][..i] == vmos[..i];
  }

  // The first record of each object, registered and filed by name.
  method GroupByName(pid: Key, vmos: seq<Vmo>) returns (nodes: map<Id, Node>, groups: map<Key, seq<Vmo>>)
    ensures OnlyLeaves(nodes, pid, Distinct(vmos)) && Grouped(groups, Distinct(vmos))
  {
    nodes, groups := map[], map[];
    for i := 0 to |vmos|
      invariant OnlyLeaves(nodes, pid, Distinct(vmos[..i])) && Grouped(groups, Distinct(vmos[..i]))
    {
      var v := vmos[i];
      ghost var distinct := Distinct(vmos[..i]);
      DistinctNext(vmos, i);
      if VmoPart(pid, v.koid) !in nodes {
        var name := ShownName(v);
        GroupSnoc(groups, distinct, v);
        LeafSnoc(nodes, pid, distinct, v);
        nodes := nodes[VmoPart(pid, v.koid) := Node(Share(v), [])];
        groups := groups[name := (if name in groups then groups[name] else []) + [v]];
      }
    }
    assert vmos[..|vmos|] == vmos;
  }

  lemma LeafSnoc(nodes: map<Id, Node>, pid: Key, vmos: seq<Vmo>, v: Vmo)
    requires OnlyLeaves(nodes, pid, vmos) && VmoPart(pid, v.koid) !in nodes
    ensures OnlyLeaves(nodes[VmoPart(pid, v.koid) := Node(Share(v), [])], pid, vmos + [v])
    ensures !Knows(vmos, v.koid)
  {
    var more := nodes[VmoPart(pid, v.koid) := Node(Share(v), [])];
    forall x | x in more
      ensures x.VmoPart? && x.pid == pid && Knows(vmos + [v], x.koid)
    {
      if x in nodes {
        var i :| 0 <= i < |vmos| && vmos[i].koid == x.koid;
        assert (vmos + [v])[i].koid == x.koid;
      } else {
        assert (vmos + [v])[|vmos|].koid == x.koid;
      }
    }
  }

  // The children made so far, from the objects whose names are in `done`.
  ghost predicate Listed(pid: Key, nodes: map<Id, Node>, kids: seq<Id>, vmos: seq<Vmo>, done: set<Key>) {
    && HasLeaves(nodes, pid, vmos)
    && IsBreakdown(pid, nodes, kids, SumShares(Those(vmos, done)))
    && FromThose(kids, vmos, done)
  }

  lemma KnowsMore(vmos: seq<Vmo>, done: set<Key>, name: Key, koid: int)
    requires Knows(Those(vmos, done), koid) || Knows(Those(vmos, {name}), koid)
    ensures Knows(Those(vmos, done + {name}), koid)
  {
    var some := if Knows(Those(vmos, done), koid) then Those(vmos, done) else Those(vmos, {name});
    var i :| 0 <= i < |some| && some[i].koid == koid;
    ThoseAreMembers(vmos, done, some[i]);
    ThoseAreMembers(vmos, {name}, some[i]);
    ThoseAreMembers(vmos, done + {name}, some[i]);
    var j :| 0 <= j < |Those(vmos, done + {name})| && Those(vmos, done + {name})[j] == some[i];
  }

  lemma KnownUnderOneName(vmos: seq<Vmo>, done: set<Key>, name: Key, koid: int)
    requires KoidsDiffer(vmos) && name !in done && Knows(Those(vmos, {name}), koid)
    ensures !Knows(Those(vmos, done), koid)
  {
    if Knows(Those(vmos, done), koid) {
      var i :| 0 <= i < |Those(vmos, done)| && Those(vmos, done)[i].koid == koid;
      var j :| 0 <= j < |Those(vmos, {name})| && Those(vmos, {name})[j].koid == koid;
      var a, b := Those(vmos, done)[i], Those(vmos, {name})[j];
      ThoseAreMembers(vmos, done, a);
      ThoseAreMembers(vmos, {name}, b);
      SameObject(vmos, a, b);
    }
  }

  lemma SameObject(vmos: seq<Vmo>, a: Vmo, b: Vmo)
    requires KoidsDiffer(vmos) && a in vmos && b in vmos && a.koid == b.koid
    ensures a == b
  {
  }

  lemma GroupLeaves(nodes: map<Id, Node>, pid: Key, vmos: seq<Vmo>, name: Key)
    requires HasLeaves(nodes, pid, vmos)
    ensures HasLeaves(nodes, pid, Those(vmos, {name}))
  {
  }

  // The objects of a name that is new have not been listed.
  lemma NewIds(pid: Key, kids: seq<Id>, vmos: seq<Vmo>, done: set<Key>, name: Key)
    requires KoidsDiffer(vmos) && name !in done
    requires forall k | k in kids && k.VmoPart? :: Knows(Those(vmos, done), k.koid)
    ensures var ids := VmoIds(pid, Those(vmos, {name}));
      NoDuplicates(ids) && forall k | k in ids :: k.VmoPart? && Knows(Those(vmos, {name}), k.koid) && k !in kids
  {
    var group := Those(vmos, {name});
    var ids := VmoIds(pid, group);
    ThoseKoids(vmos, {name});
    forall k | k in ids
      ensures k.VmoPart? && Knows(group, k.koid) && k !in kids
    {
      var i :| 0 <= i < |ids| && ids[i] == k;
      assert group[i].koid == k.koid;
      KnownUnderOneName(vmos, done, name, k.koid);
    }
  }

  // A group added to the children object by object.
  lemma ListEach(pid: Key, nodes: map<Id, Node>, kids: seq<Id>, vmos: seq<Vmo>, done: set<Key>, name: Key)
    requires KoidsDiffer(vmos) && Listed(pid, nodes, kids, vmos, done) && name !in done
    ensures Listed(pid, nodes, kids + VmoIds(pid, Those(vmos, {name})), vmos, done + {name})
  {
    var group := Those(vmos, {name});
    var ids := VmoIds(pid, group);
    GroupLeaves(nodes, pid, vmos, name);
    LeafTotals(nodes, pid, group);
    SumOfNames(vmos, done, name);
    PartTotalsConcat(nodes, kids, ids);
    NewIds(pid, kids, vmos, done, name);
    NoDuplicatesConcat(kids, ids);
    forall k | k in kids + ids
      ensures (k.VmoGroup? && k.name in done + {name}) || (k.VmoPart? && Knows(Those(vmos, done + {name}), k.koid))
    {
      if k.VmoPart? {
        KnowsMore(vmos, done, name, k.koid);
      }
    }
  }

  // One more child, with its own area or the areas of its children.
  lemma AddPart(pid: Key, nodes: map<Id, Node>, kids: seq<Id>, total: int, id: Id, part: Node)
    requires IsBreakdown(pid, nodes, kids, total) && !id.Given? && id.pid == pid && id !in nodes
    requires (part.kids == [] || part.area == 0) && forall c | c in part.kids :: c in nodes
    ensures IsBreakdown(pid, nodes[id := part], kids + [id], total + part.area + Areas(nodes, part.kids))
  {
    var more := nodes[id := part];
    StaysComplete(nodes, id, part);
    AreasStay(nodes, more, part.kids);
    PartTotalsStay(nodes, more, kids);
    PartTotalsSnoc(more, kids, id);
    NoDuplicatesConcat(kids, [id]);
    StaysApart(pid, nodes, id, part);
  }

  lemma PartTotalsSnoc(nodes: map<Id, Node>, kids: seq<Id>, id: Id)
    requires Complete(nodes) && id in nodes && forall k | k in kids :: k in nodes
    ensures PartTotals(nodes, kids + [id]) == PartTotals(nodes, kids) + PartTotal(nodes, id)
  {
  }

  lemma StaysApart(pid: Key, nodes: map<Id, Node>, id: Id, part: Node)
    requires Owned(pid, nodes) && Apart(nodes) && !id.Given? && id.pid == pid && (part.kids == [] || part.area == 0)
    ensures Owned(pid, nodes[id := part]) && Apart(nodes[id := part])
  {
  }

  lemma StaysComplete(nodes: map<Id, Node>, id: Id, part: Node)
    requires Complete(nodes) && id !in nodes && forall c | c in part.kids :: c in nodes
    ensures Complete(nodes[id := part])
  {
  }

  // A group added to the children as one node, with the objects' sizes or with the objects.
  lemma ListGroup(pid: Key, nodes: map<Id, Node>, kids: seq<Id>, vmos: seq<Vmo>, done: set<Key>, name: Key, part: Node)
    requires Listed(pid, nodes, kids, vmos, done) && name !in done && VmoGroup(pid, name) !in nodes
    requires part == Node(SumShares(Those(vmos, {name})), []) || part == Node(0, VmoIds(pid, Those(vmos, {name})))
    ensures Listed(pid, nodes[VmoGroup(pid, name) := part], kids + [VmoGroup(pid, name)], vmos, done + {name})
  {
    GroupPart(pid, nodes, vmos, name, part);
    SumOfNames(vmos, done, name);
    AddPart(pid, nodes, kids, SumShares(Those(vmos, done)), VmoGroup(pid, name), part);
    StaysListed(kids, vmos, done, name);
  }

  // Either way the node of a group stands for the sizes of its objects.
  lemma GroupPart(pid: Key, nodes: map<Id, Node>, vmos: seq<Vmo>, name: Key, part: Node)
    requires HasLeaves(nodes, pid, vmos)
    requires part == Node(SumShares(Those(vmos, {name})), []) || part == Node(0, VmoIds(pid, Those(vmos, {name})))
    ensures (forall c | c in part.kids :: c in nodes)
    ensures part.area + Areas(nodes, part.kids) == SumShares(Those(vmos, {name}))
  {
    GroupLeaves(nodes, pid, vmos, name);
    LeafAreas(nodes, pid, Those(vmos, {name}));
  }

  // What comes from the objects whose names are in `done`.
  ghost predicate FromThose(kids: seq<Id>, vmos: seq<Vmo>, done: set<Key>) {
    forall k | k in kids :: (k.VmoGroup? && k.name in done) || (k.VmoPart? && Knows(Those(vmos, done), k.koid))
  }

  lemma StaysListed(kids: seq<Id>, vmos: seq<Vmo>, done: set<Key>, name: Key)
    requires FromThose(kids, vmos, done)
    ensures FromThose(kids, vmos, done + {name})
  {
    forall k | k in kids && k.VmoPart?
      ensures Knows(Those(vmos, done + {name}), k.koid)
    {
      KnowsMore(vmos, done, name, k.koid);
    }
  }

  // ---------- which objects are put together ----------

  predicate Together(vmos: seq<Vmo>, name: Key) {
    |Those(vmos, {name})| != 1 && name != UNNAMED_NAME
  }

  // The node for the objects of one name: their sizes added up, or the objects below it.
  function GroupNode(pid: Key, vmos: seq<Vmo>, name: Key, fold: bool): Node {
    if fold then Node(SumShares(Those(vmos, {name})), []) else Node(0, VmoIds(pid, Those(vmos, {name})))
  }

  // Objects that share a name are one child; all others are children themselves.
  ghost predicate Arranged(pid: Key, nodes: map<Id, Node>, kids: seq<Id>, vmos: seq<Vmo>, done: set<Key>, fold: bool) {
    && (forall name | name in done && Together(vmos, name) ::
          VmoGroup(pid, name) in kids && VmoGroup(pid, name) in nodes &&
          nodes[VmoGroup(pid, name)] == GroupNode(pid, vmos, name, fold))
    && (forall k | k in kids && k.VmoGroup? :: k.name in done && Together(vmos, k.name))
    && (forall v | v in vmos && ShownName(v) in done ::
          VmoPart(pid, v.koid) in kids <==> !Together(vmos, ShownName(v)))
  }

  lemma MemberId(pid: Key, vmos: seq<Vmo>, name: Key, v: Vmo)
    requires KoidsDiffer(vmos) && v in vmos
    ensures VmoPart(pid, v.koid) in VmoIds(pid, Those(vmos, {name})) <==> ShownName(v) == name
  {
    var group := Those(vmos, {name});
    ThoseAreMembers(vmos, {name}, v);
    if VmoPart(pid, v.koid) in VmoIds(pid, group) {
      var i :| 0 <= i < |group| && group[i].koid == v.koid;
      ThoseAreMembers(vmos, {name}, group[i]);
      SameObject(vmos, group[i], v);
    }
    if v in group {
      var i :| 0 <= i < |group| && group[i] == v;
      assert VmoIds(pid, group)[i] == VmoPart(pid, v.koid);
    }
  }

  lemma ArrangeEach(pid: Key, nodes: map<Id, Node>, kids: seq<Id>, vmos: seq<Vmo>, done: set<Key>, name: Key,
                    fold: bool)
    requires Arranged(pid, nodes, kids, vmos, done, fold) && KoidsDiffer(vmos) && name !in done
    requires !Together(vmos, name)
    ensures Arranged(pid, nodes, kids + VmoIds(pid, Those(vmos, {name})), vmos, done + {name}, fold)
  {
    forall v | v in vmos
      ensures VmoPart(pid, v.koid) in VmoIds(pid, Those(vmos, {name})) <==> ShownName(v) == name
    {
      MemberId(pid, vmos, name, v);
    }
  }

  // An object of a new name is not listed.
  lemma NotYetListed(pid: Key, kids: seq<Id>, vmos: seq<Vmo>, done: set<Key>, v: Vmo)
    requires FromThose(kids, vmos, done) && KoidsDiffer(vmos) && v in vmos && ShownName(v) !in done
    ensures VmoPart(pid, v.koid) !in kids
  {
    var name := ShownName(v);
    ThoseAreMembers(vmos, {name}, v);
    var i :| 0 <= i < |Those(vmos, {name})| && Those(vmos, {name})[i] == v;
    KnownUnderOneName(vmos, done, name, v.koid);
  }

  lemma ArrangeGroup(pid: Key, nodes: map<Id, Node>, kids: seq<Id>, vmos: seq<Vmo>, done: set<Key>, name: Key,
                     fold: bool)
    requires Arranged(pid, nodes, kids, vmos, done, fold) && KoidsDiffer(vmos) && name !in done
    requires FromThose(kids, vmos, done) && Together(vmos, name)
    ensures var id := VmoGroup(pid, name);
      Arranged(pid, nodes[id := GroupNode(pid, vmos, name, fold)], kids + [id], vmos, done + {name}, fold)
  {
    forall v | v in vmos && ShownName(v) == name
      ensures VmoPart(pid, v.koid) !in kids
    {
      NotYetListed(pid, kids, vmos, done, v);
    }
  }

  // One pass of the loop over the names.
  method AddNamed(pid: Key, nodes0: map<Id, Node>, kids0: seq<Id>, name: Key, group: seq<Vmo>, fold: bool,
                  ghost vmos: seq<Vmo>, ghost done: set<Key>)
      returns (nodes: map<Id, Node>, kids: seq<Id>)
    requires KoidsDiffer(vmos) && Listed(pid, nodes0, kids0, vmos, done)
    requires Arranged(pid, nodes0, kids0, vmos, done, fold)
    requires name !in done && VmoGroup(pid, name) !in nodes0 && group == Those(vmos, {name})
    ensures Listed(pid, nodes, kids, vmos, done + {name}) && Arranged(pid, nodes, kids, vmos, done + {name}, fold)
    ensures forall x | x in nodes :: x in nodes0 || x == VmoGroup(pid, name)
    ensures fold && Flat(nodes0) ==> Flat(nodes)
  {
    nodes, kids := nodes0, kids0;
    if |group| == 1 || name == UNNAMED_NAME {
      ListEach(pid, nodes, kids, vmos, done, name);
      ArrangeEach(pid, nodes, kids, vmos, done, name, fold);
      kids := kids + VmoIds(pid, group);
    } else {
      GroupLeaves(nodes, pid, vmos, name);
      LeafAreas(nodes, pid, group);
      var id := VmoGroup(pid, name);
      var part := if fold then Node(Areas(nodes, VmoIds(pid, group)), []) else Node(0, VmoIds(pid, group));
      ListGroup(pid, nodes, kids, vmos, done, name, part);
      ArrangeGroup(pid, nodes, kids, vmos, done, name, fold);
      nodes, kids := nodes[id := part], kids + [id];
    }
  }

  // The aggregated nodes; the names come in any order.
  method Aggregate(pid: Key, leaves: map<Id, Node>, groups: map<Key, seq<Vmo>>, fold: bool, ghost vmos: seq<Vmo>)
      returns (nodes: map<Id, Node>, kids: seq<Id>)
    requires OnlyLeaves(leaves, pid, vmos) && Flat(leaves) && Grouped(groups, vmos) && KoidsDiffer(vmos)
    ensures IsBreakdown(pid, nodes, kids, SumShares(vmos)) && HasLeaves(nodes, pid, vmos)
    ensures Arranged(pid, nodes, kids, vmos, groups.Keys, fold)
    ensures fold ==> Flat(nodes)
  {
    nodes, kids := leaves, [];
    var names := groups.Keys;
    ghost var done: set<Key> := {};
    NothingListed(pid, leaves, vmos);
    while names != {}
      invariant done + names == groups.Keys && done !! names
      invariant Listed(pid, nodes, kids, vmos, done) && Arranged(pid, nodes, kids, vmos, done, fold)
      invariant forall name | name in names :: VmoGroup(pid, name) !in nodes
      invariant fold ==> Flat(nodes)
      decreases names
    {
      var name :| name in names;
      nodes, kids := AddNamed(pid, nodes, kids, name, groups[name], fold, vmos, done);
      done := done + {name};
      names := names - {name};
    }
    SumOfAll(vmos, done);
  }

  lemma NothingListed(pid: Key, leaves: map<Id, Node>, vmos: seq<Vmo>)
    requires OnlyLeaves(leaves, pid, vmos) && Flat(leaves)
    ensures Listed(pid, leaves, [], vmos, {})
  {
    NobodyLeft(vmos);
  }

  lemma {:induction false} NobodyLeft(vmos: seq<Vmo>)
    ensures Those(vmos, {}) == []
  {
    if vmos != [] {
      NobodyLeft(vmos[..|vmos| - 1]);
    }
  }

  // One of the two parts of a process without objects.
  method AddSize(pid: Key, nodes0: map<Id, Node>, kids0: seq<Id>, ghost total: nat, id: Id, size: nat)
      returns (nodes: map<Id, Node>, kids: seq<Id>)
    requires IsBreakdown(pid, nodes0, kids0, total) && Flat(nodes0) && !id.Given? && id.pid == pid && id !in nodes0
    ensures IsBreakdown(pid, nodes, kids, total + size) && Flat(nodes)
    ensures nodes == if size == 0 then nodes0 else nodes0[id := Node(size, [])]
    ensures kids == if size == 0 then kids0 else kids0 + [id]
  {
    nodes, kids := nodes0, kids0;
    if size != 0 {
      AddPart(pid, nodes, kids, total, id, Node(size, []));
      nodes, kids := nodes[id := Node(size, [])], kids + [id];
    }
  }

  lemma NoParts(pid: Key)
    ensures IsBreakdown(pid, map[], [], 0) && Flat(map[])
  {
  }

  // What is in the parts of a process without objects.
  ghost predicate Sized(pid: Key, nodes: map<Id, Node>, private: nat, shared: nat) {
    && (forall x | x in nodes :: x == PrivatePart(pid) || x == SharedPart(pid))
    && (PrivatePart(pid) in nodes <==> private > 0) && (SharedPart(pid) in nodes <==> shared > 0)
    && (private > 0 ==> nodes[PrivatePart(pid)].area == private)
    && (shared > 0 ==> nodes[SharedPart(pid)].area == shared)
  }

  // The private part and the scaled shared part, each only when there is any.
  method SizeParts(pid: Key, private: nat, pss: nat) returns (nodes: map<Id, Node>, kids: seq<Id>)
    ensures IsBreakdown(pid, nodes, kids, Max(private, pss)) && Flat(nodes)
    ensures Sized(pid, nodes, private, Max(0, pss - private)) && forall x | x in nodes :: x in kids
  {
    var shared := Max(0, pss - private);
    nodes, kids := map[], [];
    NoParts(pid);
    nodes, kids := AddSize(pid, nodes, kids, 0, PrivatePart(pid), private);
    nodes, kids := AddSize(pid, nodes, kids, private, SharedPart(pid), shared);
  }

  // populate_process: the parts come to what the record says, with same-named objects folded
  // into one node or kept below it.
  method PopulateProcess(pid: Key, usage: Usage, fold: bool) returns (nodes: map<Id, Node>, kids: seq<Id>)
    ensures IsBreakdown(pid, nodes, kids, Footprint(usage))
    ensures fold ==> Flat(nodes)
    ensures usage.Objects? ==> HasLeaves(nodes, pid, Distinct(usage.vmos))
    ensures usage.Objects? ==> exists names ::
      && (forall v | v in Distinct(usage.vmos) :: ShownName(v) in names)
      && Arranged(pid, nodes, kids, Distinct(usage.vmos), names, fold)
  {
    match usage {
      case Sizes(private, pss) =>
        nodes, kids := SizeParts(pid, private, pss);
      case Objects(vmos) =>
        var leaves, groups := GroupByName(pid, vmos);
        DistinctKoids(vmos);
        LeavesAreFlat(leaves, pid, Distinct(vmos));
        nodes, kids := Aggregate(pid, leaves, groups, fold, Distinct(vmos));
    }
  }

  lemma LeavesAreFlat(nodes: map<Id, Node>, pid: Key, vmos: seq<Vmo>)
    requires OnlyLeaves(nodes, pid, vmos)
    ensures Flat(nodes)
  {
  }
}
