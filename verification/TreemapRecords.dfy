/** From memgraph records, in any order, to the areas that treemap draws. */
module TreemapRecords {
  import opened Basics
  import opened Treemap
  import opened TreemapParts

  datatype Record =
    | Kernel(id: Key, parent: Option<Key>, size: nat)
    | Job(id: Key, parent: Option<Key>)
    | Process(id: Key, parent: Option<Key>, usage: Usage)

  type Records = map<Key, Record>

  const KERNEL := "kernel/"

  // The records by identifier.
  ghost function ById(dataset: seq<Record>): Records {
    if dataset == [] then map[]
    else ById(dataset[..|dataset| - 1])[dataset[|dataset| - 1].id := dataset[|dataset| - 1]]
  }

  ghost predicate DistinctIds(dataset: seq<Record>) {
    forall i, j | 0 <= i < j < |dataset| :: dataset[i].id != dataset[j].id
  }

  // The records form a tree, in which `level` is the distance from the top. Nothing is below a
  // process, and no kernel record is below a job.
  ghost predicate Treelike(recs: Records, level: Key -> nat, height: nat) {
    && (forall t :: t in recs ==> recs[t].id == t && level(t) < height)
    && (forall t :: t in recs && recs[t].parent.Some? ==> level(t) == level(recs[t].parent.value) + 1)
    && (forall t :: t in recs && recs[t].parent.Some? && recs[t].parent.value in recs ==>
          CanHold(recs[recs[t].parent.value], recs[t]))
    && (forall t :: t in recs && !recs[t].Kernel? ==> !(KERNEL <= t.text))
  }

  predicate CanHold(above: Record, r: Record) {
    !above.Process? && (above.Job? ==> !r.Kernel?)
  }

  ghost function Deep(level: Key -> nat, x: Id): nat {
    if x.Given? then level(x.key) else level(x.pid) + 1
  }

  // ---------- the registry ----------

  ghost predicate Linked(nodes: map<Id, Node>, parent: map<Id, Id>) {
    && parent.Keys <= nodes.Keys
    && (forall x :: x in nodes ==> NoDuplicates(nodes[x].kids))
    && (forall c :: c in parent ==> parent[c] in nodes && c in nodes[parent[c]].kids)
    && (forall x, c :: x in nodes && c in nodes[x].kids ==> c in parent && parent[c] == x)
  }

  // The nodes are those of the records seen, of parents they name, and of their parts.
  ghost predicate Stands(seen: Records, nodes: map<Id, Node>) {
    && (forall t :: t in seen ==> Given(t) in nodes)
    && (forall x :: x in nodes && x.Given? ==> nodes[x].area == OwnArea(seen, x.key))
    && (forall x :: x in nodes && !x.Given? ==> x.pid in seen && seen[x.pid].Process? && nodes[x].kids == [])
  }

  ghost function OwnArea(seen: Records, t: Key): nat {
    if t in seen && seen[t].Kernel? then seen[t].size else 0
  }

  // Parts hang below their process, and the records in `placed` below their parents.
  ghost predicate Hangs(seen: Records, placed: set<Key>, parent: map<Id, Id>) {
    && (forall c :: c in parent && !c.Given? ==> parent[c] == Given(c.pid))
    && (forall c :: c in parent && c.Given? ==>
          c.key in placed && c.key in seen && seen[c.key].parent.Some? && parent[c] == Given(seen[c.key].parent.value))
    && (forall t :: t in placed && t in seen && seen[t].parent.Some? ==> Given(t) in parent)
  }

  // The parts of a process come to its footprint.
  ghost predicate Settled(nodes: map<Id, Node>, pid: Key, usage: Usage) {
    && Given(pid) in nodes
    && (forall c | c in nodes[Given(pid)].kids :: c in nodes && !c.Given? && c.pid == pid)
    && Areas(nodes, nodes[Given(pid)].kids) == Footprint(usage)
  }

  ghost predicate AllSettled(seen: Records, nodes: map<Id, Node>) {
    forall t :: t in seen && seen[t].Process? ==> Settled(nodes, t, seen[t].usage)
  }

  ghost predicate Reflects(seen: Records, placed: set<Key>, nodes: map<Id, Node>, parent: map<Id, Id>) {
    Linked(nodes, parent) && Stands(seen, nodes) && Hangs(seen, placed, parent) && AllSettled(seen, nodes)
  }

  function Lookup(nodes: map<Id, Node>, x: Id): map<Id, Node> {
    if x in nodes then nodes else nodes[x := Node(0, [])]
  }

  function Append(nodes: map<Id, Node>, x: Id, kids: seq<Id>): map<Id, Node>
    requires x in nodes
  {
    nodes[x := Node(nodes[x].area, nodes[x].kids + kids)]
  }

  ghost function Place(parent: map<Id, Id>, x: Id, kids: seq<Id>): map<Id, Id> {
    parent + map c | c in kids :: x
  }

  lemma AppendLinks(nodes: map<Id, Node>, parent: map<Id, Id>, x: Id, kids: seq<Id>)
    requires Linked(nodes, parent) && x in nodes && NoDuplicates(kids)
    requires forall c | c in kids :: c in nodes && c !in parent
    ensures Linked(Append(nodes, x, kids), Place(parent, x, kids))
  {
    NoDuplicatesConcat(nodes[x].kids, kids);
    forall y, c | y in Append(nodes, x, kids) && c in Append(nodes, x, kids)[y].kids
      ensures c in Place(parent, x, kids) && Place(parent, x, kids)[c] == y
    {
      AppendedKid(nodes, parent, x, kids, y, c);
    }
  }

  lemma AppendedKid(nodes: map<Id, Node>, parent: map<Id, Id>, x: Id, kids: seq<Id>, y: Id, c: Id)
    requires Linked(nodes, parent) && x in nodes && y in nodes && c in Append(nodes, x, kids)[y].kids
    requires forall c | c in kids :: c !in parent
    ensures c in Place(parent, x, kids) && Place(parent, x, kids)[c] == y
  {
  }

  lemma LinksStay(a: map<Id, Node>, b: map<Id, Node>, parent: map<Id, Id>)
    requires Linked(a, parent) && a.Keys == b.Keys && forall x :: x in a ==> b[x].kids == a[x].kids
    ensures Linked(b, parent)
  {
  }

  // Processes stay settled while their children and parts stay.
  lemma SettledStay(seen: Records, a: map<Id, Node>, b: map<Id, Node>)
    requires AllSettled(seen, a)
    requires forall t :: t in seen && seen[t].Process? ==> Given(t) in b && b[Given(t)].kids == a[Given(t)].kids
    requires forall x :: x in a && !x.Given? ==> x in b && b[x] == a[x]
    ensures AllSettled(seen, b)
  {
    forall t | t in seen && seen[t].Process?
      ensures Settled(b, t, seen[t].usage)
    {
      AreasStay(a, b, a[Given(t)].kids);
    }
  }

  lemma LookupLinks(nodes: map<Id, Node>, parent: map<Id, Id>, x: Id)
    requires Linked(nodes, parent)
    ensures Linked(Lookup(nodes, x), parent)
  {
  }

  lemma LookupSettles(seen: Records, nodes: map<Id, Node>, t: Key)
    requires AllSettled(seen, nodes)
    ensures AllSettled(seen, Lookup(nodes, Given(t)))
  {
    SettledStay(seen, nodes, Lookup(nodes, Given(t)));
  }

  lemma LookupReflects(seen: Records, placed: set<Key>, nodes: map<Id, Node>, parent: map<Id, Id>, t: Key)
    requires Reflects(seen, placed, nodes, parent)
    ensures Reflects(seen, placed, Lookup(nodes, Given(t)), parent)
  {
    LookupLinks(nodes, parent, Given(t));
    LookupSettles(seen, nodes, t);
  }

  lemma NewHangs(seen: Records, placed: set<Key>, parent: map<Id, Id>, r: Record)
    requires Hangs(seen, placed, parent) && r.id !in seen && r.id !in placed
    ensures Hangs(seen[r.id := r], placed, parent)
  {
  }

  lemma PlainStands(seen: Records, nodes: map<Id, Node>, r: Record, after: map<Id, Node>)
    requires Stands(seen, nodes) && r.id !in seen && Given(r.id) in nodes && !r.Process?
    requires after == nodes[Given(r.id) := Node(OwnArea(seen[r.id := r], r.id), nodes[Given(r.id)].kids)]
    ensures Stands(seen[r.id := r], after)
  {
  }

  // A kernel record sets the area; a job record sets nothing.
  lemma PlainReflects(seen: Records, placed: set<Key>, nodes: map<Id, Node>, parent: map<Id, Id>, r: Record, area: int)
    requires Reflects(seen, placed, nodes, parent) && r.id !in seen && r.id !in placed && Given(r.id) in nodes
    requires !r.Process? && area == if r.Kernel? then r.size else 0
    ensures Reflects(seen[r.id := r], placed, nodes[Given(r.id) := Node(area, nodes[Given(r.id)].kids)], parent)
  {
    var after := nodes[Given(r.id) := Node(area, nodes[Given(r.id)].kids)];
    LinksStay(nodes, after, parent);
    NewHangs(seen, placed, parent, r);
    PlainStands(seen, nodes, r, after);
    SettledStay(seen, nodes, after);
    assert AllSettled(seen[r.id := r], after);
  }

  lemma FirstIsMember(s: seq<Id>)
    requires s != []
    ensures s[0] in s
  {
  }

  // Nothing hangs below a process that has not been read yet.
  lemma NoKidsYet(all: Records, level: Key -> nat, height: nat, seen: Records, placed: set<Key>,
                  nodes: map<Id, Node>, parent: map<Id, Id>, pid: Key)
    requires Treelike(all, level, height) && Reflects(seen, placed, nodes, parent) && Given(pid) in nodes
    requires forall t :: t in seen ==> t in all && seen[t] == all[t]
    requires pid in all && all[pid].Process? && pid !in seen
    ensures nodes[Given(pid)].kids == []
  {
    var kids := nodes[Given(pid)].kids;
    assert forall c :: c in kids ==> parent[c] == Given(pid) && c.Given?;
    if kids != [] {
      FirstIsMember(kids);
    }
  }

  lemma PartsLink(nodes: map<Id, Node>, parent: map<Id, Id>, parts: map<Id, Node>)
    requires Linked(nodes, parent) && Flat(parts) && nodes.Keys !! parts.Keys
    ensures Linked(nodes + parts, parent)
  {
  }

  lemma PartsStand(seen: Records, nodes: map<Id, Node>, r: Record, parts: map<Id, Node>, kids: seq<Id>)
    requires Stands(seen, nodes) && r.id !in seen && r.Process? && Given(r.id) in nodes
    requires Owned(r.id, parts) && Flat(parts)
    ensures Stands(seen[r.id := r], Append(nodes + parts, Given(r.id), kids))
  {
  }

  lemma PartsHang(seen: Records, placed: set<Key>, parent: map<Id, Id>, r: Record, kids: seq<Id>)
    requires Hangs(seen, placed, parent) && forall c | c in kids :: !c.Given? && c.pid == r.id
    ensures Hangs(seen, placed, Place(parent, Given(r.id), kids))
  {
  }

  // A process record adds the parts of the process.
  lemma ProcessReflects(seen: Records, placed: set<Key>, nodes: map<Id, Node>, parent: map<Id, Id>, r: Record,
                        parts: map<Id, Node>, kids: seq<Id>)
    requires Reflects(seen, placed, nodes, parent) && r.id !in seen && r.id !in placed
    requires r.Process? && Given(r.id) in nodes && nodes[Given(r.id)].kids == []
    requires IsBreakdown(r.id, parts, kids, Footprint(r.usage)) && Flat(parts)
    ensures var x := Given(r.id);
      Reflects(seen[r.id := r], placed, Append(nodes + parts, x, kids), Place(parent, x, kids))
  {
    var x := Given(r.id);
    var after, more, hung := Append(nodes + parts, x, kids), seen[r.id := r], Place(parent, x, kids);
    assert nodes.Keys !! parts.Keys;
    PartsLink(nodes, parent, parts);
    AppendLinks(nodes + parts, parent, x, kids);
    PartsStand(seen, nodes, r, parts, kids);
    NewHangs(seen, placed, parent, r);
    PartsHang(more, placed, parent, r, kids);
    PartsSettle(seen, nodes, r, parts, kids);
  }

  lemma PartsSettle(seen: Records, nodes: map<Id, Node>, r: Record, parts: map<Id, Node>, kids: seq<Id>)
    requires AllSettled(seen, nodes) && r.id !in seen && r.Process? && Given(r.id) in nodes
    requires nodes[Given(r.id)].kids == []
    requires IsBreakdown(r.id, parts, kids, Footprint(r.usage)) && Flat(parts) && nodes.Keys !! parts.Keys
    ensures AllSettled(seen[r.id := r], Append(nodes + parts, Given(r.id), kids))
  {
    var after := Append(nodes + parts, Given(r.id), kids);
    SettledStay(seen, nodes, after);
    NewSettled(after, r, parts, kids);
  }

  lemma NewSettled(nodes: map<Id, Node>, r: Record, parts: map<Id, Node>, kids: seq<Id>)
    requires r.Process? && IsBreakdown(r.id, parts, kids, Footprint(r.usage)) && Flat(parts)
    requires Given(r.id) in nodes && nodes[Given(r.id)].kids == kids
    requires forall x :: x in parts ==> x in nodes && nodes[x] == parts[x]
    ensures Settled(nodes, r.id, r.usage)
  {
    FlatTotals(parts, kids);
    AreasStay(parts, nodes, kids);
  }

  lemma {:induction false} FlatTotals(nodes: map<Id, Node>, ids: seq<Id>)
    requires Complete(nodes) && Flat(nodes) && forall x | x in ids :: x in nodes
    ensures PartTotals(nodes, ids) == Areas(nodes, ids)
  {
    if ids != [] {
      FlatTotals(nodes, ids[..|ids| - 1]);
    }
  }

  lemma AttachHangs(seen: Records, placed: set<Key>, parent: map<Id, Id>, r: Record)
    requires Hangs(seen, placed, parent) && r.id in seen && seen[r.id] == r && r.parent.Some?
    ensures Hangs(seen, placed + {r.id}, Place(parent, Given(r.parent.value), [Given(r.id)]))
  {
  }

  lemma AttachSettles(seen: Records, nodes: map<Id, Node>, x: Id, c: Id)
    requires AllSettled(seen, nodes) && x in nodes && x.Given? && (x.key in seen ==> !seen[x.key].Process?)
    ensures AllSettled(seen, Append(nodes, x, [c]))
  {
    SettledStay(seen, nodes, Append(nodes, x, [c]));
  }

  lemma AttachStands(seen: Records, nodes: map<Id, Node>, x: Id, c: Id)
    requires Stands(seen, nodes) && x in nodes && x.Given?
    ensures Stands(seen, Append(nodes, x, [c]))
  {
  }

  // A record that has been read is hung below the parent it names.
  lemma AttachReflects(seen: Records, placed: set<Key>, nodes: map<Id, Node>, parent: map<Id, Id>, r: Record)
    requires Reflects(seen, placed, nodes, parent) && r.id in seen && seen[r.id] == r && r.id !in placed
    requires r.parent.Some? && Given(r.parent.value) in nodes
    requires r.parent.value in seen ==> !seen[r.parent.value].Process?
    ensures var x := Given(r.parent.value);
      Reflects(seen, placed + {r.id}, Append(nodes, x, [Given(r.id)]), Place(parent, x, [Given(r.id)]))
  {
    var x := Given(r.parent.value);
    AppendLinks(nodes, parent, x, [Given(r.id)]);
    AttachHangs(seen, placed, parent, r);
    AttachSettles(seen, nodes, x, Given(r.id));
    AttachStands(seen, nodes, x, Given(r.id));
  }

  // ---------- the loop over the records ----------

  ghost predicate Shallow(nodes: map<Id, Node>, level: Key -> nat, height: nat) {
    forall x :: x in nodes ==> Deep(level, x) <= height
  }

  ghost predicate Among(seen: Records, all: Records) {
    forall t :: t in seen ==> t in all && seen[t] == all[t]
  }

  // What a record says of its own node.
  method ReadOwn(nodes: map<Id, Node>, r: Record, ghost all: Records, ghost level: Key -> nat, ghost height: nat,
                 ghost seen: Records, ghost parent: map<Id, Id>)
      returns (after: map<Id, Node>, ghost hung: map<Id, Id>)
    requires Treelike(all, level, height) && Among(seen, all) && r.id in all && all[r.id] == r && r.id !in seen
    requires Reflects(seen, seen.Keys, nodes, parent) && Shallow(nodes, level, height)
    ensures Reflects(seen[r.id := r], seen.Keys, after, hung) && Shallow(after, level, height)
  {
    var x := Given(r.id);
    LookupReflects(seen, seen.Keys, nodes, parent, r.id);
    after, hung := Lookup(nodes, x), parent;
    if r.Process? {
      NoKidsYet(all, level, height, seen, seen.Keys, after, parent, r.id);
      var parts, kids := PopulateProcess(r.id, r.usage, true);
      ProcessReflects(seen, seen.Keys, after, parent, r, parts, kids);
      hung := Place(parent, x, kids);
      after := Append(after + parts, x, kids);
    } else {
      var area := if r.Kernel? then r.size else after[x].area;
      PlainReflects(seen, seen.Keys, after, parent, r, area);
      after := after[x := Node(area, after[x].kids)];
    }
  }

  // One turn of the loop in build_tree.
  method ReadRecord(nodes: map<Id, Node>, r: Record, ghost all: Records, ghost level: Key -> nat, ghost height: nat,
                    ghost seen: Records, ghost parent: map<Id, Id>)
      returns (after: map<Id, Node>, ghost hung: map<Id, Id>)
    requires Treelike(all, level, height) && Among(seen, all) && r.id in all && all[r.id] == r && r.id !in seen
    requires Reflects(seen, seen.Keys, nodes, parent) && Shallow(nodes, level, height)
    ensures Reflects(seen[r.id := r], seen.Keys + {r.id}, after, hung) && Shallow(after, level, height)
  {
    after, hung := ReadOwn(nodes, r, all, level, height, seen, parent);
    after, hung := PlaceRecord(after, r, level, height, seen[r.id := r], seen.Keys, hung);
  }

  // The end of the loop body: below the parent, if the record names one.
  method PlaceRecord(nodes: map<Id, Node>, r: Record, ghost level: Key -> nat, ghost height: nat,
                     ghost seen: Records, ghost placed: set<Key>, ghost parent: map<Id, Id>)
      returns (after: map<Id, Node>, ghost hung: map<Id, Id>)
    requires Reflects(seen, placed, nodes, parent) && Shallow(nodes, level, height)
    requires r.id in seen && seen[r.id] == r && r.id !in placed
    requires r.parent.Some? ==>
      level(r.parent.value) <= height && (r.parent.value in seen ==> !seen[r.parent.value].Process?)
    ensures Reflects(seen, placed + {r.id}, after, hung) && Shallow(after, level, height)
  {
    after, hung := nodes, parent;
    if r.parent.Some? {
      var x := Given(r.parent.value);
      LookupReflects(seen, placed, nodes, parent, r.parent.value);
      after := Lookup(nodes, x);
      AttachReflects(seen, placed, after, parent, r);
      after, hung := Append(after, x, [Given(r.id)]), Place(parent, x, [Given(r.id)]);
    } else {
      TopHangs(seen, placed, parent, r);
    }
  }

  lemma TopHangs(seen: Records, placed: set<Key>, parent: map<Id, Id>, r: Record)
    requires Hangs(seen, placed, parent) && r.id in seen && seen[r.id] == r && r.parent.None?
    ensures Hangs(seen, placed + {r.id}, parent)
  {
  }

  // ---------- the tree they make ----------

  ghost function ForestOf(nodes: map<Id, Node>, parent: map<Id, Id>, level: Key -> nat, height: nat): Forest {
    Forest(nodes, parent, map x | x in nodes :: Deep(level, x), height)
  }

  ghost predicate Ready(all: Records, level: Key -> nat, height: nat, f: Forest) {
    && Treelike(all, level, height) && WellFormed(f)
    && Reflects(all, all.Keys, f.nodes, f.parent)
  }

  lemma ForestIsReady(all: Records, level: Key -> nat, height: nat, nodes: map<Id, Node>, parent: map<Id, Id>,
                      bound: nat)
    requires Treelike(all, level, height) && Reflects(all, all.Keys, nodes, parent) && Shallow(nodes, level, bound)
    ensures Ready(all, level, height, ForestOf(nodes, parent, level, bound))
  {
    DepthsAgree(all, level, height, parent);
  }

  lemma DepthsAgree(all: Records, level: Key -> nat, height: nat, parent: map<Id, Id>)
    requires Treelike(all, level, height) && Hangs(all, all.Keys, parent)
    ensures forall c :: c in parent ==> Deep(level, c) == Deep(level, parent[c]) + 1
  {
  }

  // `s` is `t` or, going up the parents the records name, comes to `t`.
  ghost predicate Below(all: Records, level: Key -> nat, height: nat, t: Key, s: Key)
    requires Treelike(all, level, height)
    decreases level(s)
  {
    s == t || (s in all && all[s].parent.Some? && Below(all, level, height, t, all[s].parent.value))
  }

  lemma {:induction false} UnderIsBelow(all: Records, level: Key -> nat, height: nat, f: Forest, t: Key, s: Key)
    requires Ready(all, level, height, f) && Given(s) in f.nodes
    ensures Under(f, Given(t), Given(s)) <==> Below(all, level, height, t, s)
    decreases level(s)
  {
    if s != t && Given(s) in f.parent {
      UnderIsBelow(all, level, height, f, t, all[s].parent.value);
    }
  }

  // Below a job there are only jobs, processes and their parts.
  lemma {:induction false} BelowJobs(all: Records, level: Key -> nat, height: nat, f: Forest, j: Key, y: Id)
    requires Ready(all, level, height, f) && j in all && all[j].Job? && y in f.nodes && Under(f, Given(j), y)
    ensures y.Given? ==> y.key in all && !all[y.key].Kernel?
    decreases f.depth[y]
  {
    if y != Given(j) {
      BelowJobs(all, level, height, f, j, f.parent[y]);
    }
  }

  lemma {:induction false} OnlyPartsBelow(all: Records, level: Key -> nat, height: nat, f: Forest, pid: Key, s: Key)
    requires Ready(all, level, height, f) && pid in all && all[pid].Process?
    requires Given(s) in f.nodes && Under(f, Given(pid), Given(s))
    ensures s == pid
    decreases f.depth[Given(s)]
  {
    if s != pid {
      OnlyPartsBelow(all, level, height, f, pid, all[s].parent.value);
    }
  }

  lemma JobsAreUnmixed(all: Records, level: Key -> nat, height: nat, f: Forest, j: Key)
    requires Ready(all, level, height, f) && j in all && all[j].Job?
    ensures Unmixed(f, Given(j))
  {
    forall y | y in f.nodes && Under(f, Given(j), y) && f.nodes[y].kids != []
      ensures f.nodes[y].area == 0
    {
      BelowJobs(all, level, height, f, j, y);
    }
  }

  lemma {:induction false} LeavesTotal(f: Forest, x: Id, kids: seq<Id>)
    requires WellFormed(f) && x in f.nodes
    requires forall c | c in kids :: c in f.nodes[x].kids && c in f.nodes && f.nodes[c].kids == []
    ensures TotalOf(f, x, kids) == Areas(f.nodes, kids)
  {
    if kids != [] {
      var c := kids[|kids| - 1];
      LeavesTotal(f, x, kids[..|kids| - 1]);
      assert TotalOf(f, c, f.nodes[c].kids) == 0;
    }
  }

  lemma ProcessTotal(all: Records, level: Key -> nat, height: nat, f: Forest, pid: Key)
    requires Ready(all, level, height, f) && pid in all && all[pid].Process?
    ensures Given(pid) in f.nodes && Total(f, Given(pid)) == Footprint(all[pid].usage)
  {
    LeavesTotal(f, Given(pid), f.nodes[Given(pid)].kids);
  }

  // ---------- the dataset ----------

  lemma {:induction false} ByIdFinds(dataset: seq<Record>, i: nat)
    requires DistinctIds(dataset) && i < |dataset|
    ensures dataset[i].id in ById(dataset) && ById(dataset)[dataset[i].id] == dataset[i]
  {
    if i < |dataset| - 1 {
      ByIdFinds(dataset[..|dataset| - 1], i);
    }
  }

  lemma {:induction false} ByIdFrom(dataset: seq<Record>, t: Key) returns (i: nat)
    requires t in ById(dataset)
    ensures i < |dataset| && dataset[i] == ById(dataset)[t] && dataset[i].id == t
  {
    i := |dataset| - 1;
    if dataset[i].id != t {
      i := ByIdFrom(dataset[..i], t);
    }
  }

  lemma ByIdHolds(dataset: seq<Record>)
    requires DistinctIds(dataset)
    ensures forall r | r in dataset :: r.id in ById(dataset) && ById(dataset)[r.id] == r
  {
  }

  ghost function ProcessIds(dataset: seq<Record>): seq<Id> {
    if dataset == [] then []
    else
      var last := dataset[|dataset| - 1];
      ProcessIds(dataset[..|dataset| - 1]) + if last.Process? then [Given(last.id)] else []
  }

  lemma {:induction false} ProcessIdsAre(dataset: seq<Record>)
    requires DistinctIds(dataset)
    ensures NoDuplicates(ProcessIds(dataset))
    ensures forall p | p in ProcessIds(dataset) :: p.Given? && p.key in ById(dataset) && ById(dataset)[p.key].Process?
    ensures forall t :: t in ById(dataset) && ById(dataset)[t].Process? ==> Given(t) in ProcessIds(dataset)
  {
    if dataset != [] {
      ProcessIdsAre(dataset[..|dataset| - 1]);
      NewId(dataset);
    }
  }

  lemma NewId(dataset: seq<Record>)
    requires DistinctIds(dataset) && dataset != []
    ensures dataset[|dataset| - 1].id !in ById(dataset[..|dataset| - 1])
  {
    var init, last := dataset[..|dataset| - 1], dataset[|dataset| - 1];
    if last.id in ById(init) {
      var i := ByIdFrom(init, last.id);
    }
  }

  // The footprints of the processes at or below `t`.
  ghost function FootprintsBelow(dataset: seq<Record>, all: Records, level: Key -> nat, height: nat, t: Key): nat
    requires Treelike(all, level, height)
  {
    if dataset == [] then 0
    else
      var r := dataset[|dataset| - 1];
      FootprintsBelow(dataset[..|dataset| - 1], all, level, height, t) +
      if r.Process? && Below(all, level, height, t, r.id) then Footprint(r.usage) else 0
  }

  lemma ProcessWeight(all: Records, level: Key -> nat, height: nat, f: Forest, t: Key, pid: Key)
    requires Ready(all, level, height, f) && pid in all && all[pid].Process?
    ensures Given(pid) in f.nodes && Total(f, Given(pid)) == Footprint(all[pid].usage)
    ensures Under(f, Given(t), Given(pid)) <==> Below(all, level, height, t, pid)
  {
    ProcessTotal(all, level, height, f, pid);
    UnderIsBelow(all, level, height, f, t, pid);
  }

  lemma ScanSnoc(f: Forest, ps: seq<Id>, p: Id, x: Id)
    requires WellFormed(f) && p in f.nodes && forall q | q in ps :: q in f.nodes
    ensures ScanUnder(f, ps + [p], x) == ScanUnder(f, ps, x) + if Under(f, x, p) then Total(f, p) else 0
  {
  }

  lemma {:induction false} ScanIsFootprints(dataset: seq<Record>, all: Records, level: Key -> nat, height: nat,
                                            f: Forest, t: Key)
    requires Ready(all, level, height, f) && forall r | r in dataset :: r.id in all && all[r.id] == r
    ensures forall p | p in ProcessIds(dataset) :: p in f.nodes
    ensures ScanUnder(f, ProcessIds(dataset), Given(t)) == FootprintsBelow(dataset, all, level, height, t)
  {
    if dataset != [] {
      var init, r := dataset[..|dataset| - 1], dataset[|dataset| - 1];
      ScanIsFootprints(init, all, level, height, f, t);
      assert r in dataset;
      if r.Process? {
        ProcessWeight(all, level, height, f, t, r.id);
        ScanSnoc(f, ProcessIds(init), Given(r.id), Given(t));
      } else {
        assert ProcessIds(dataset) == ProcessIds(init);
      }
    }
  }

  lemma ProcessesFound(dataset: seq<Record>, all: Records, level: Key -> nat, height: nat, f: Forest, j: Key)
    requires DistinctIds(dataset) && all == ById(dataset) && Ready(all, level, height, f) && j in all && all[j].Job?
    ensures Processes(f, Given(j), ProcessIds(dataset))
  {
    var ps := ProcessIds(dataset);
    ProcessIdsAre(dataset);
    forall p, q | p in ps && q in ps && p != q
      ensures !Under(f, p, q)
    {
      if Under(f, p, q) {
        OnlyPartsBelow(all, level, height, f, p.key, q.key);
      }
    }
    forall x | x in f.nodes && Under(f, Given(j), x) && f.nodes[x].area != 0
      ensures exists p :: p in ps && Under(f, p, x)
    {
      BelowJobs(all, level, height, f, j, x);
      assert Under(f, Given(x.pid), f.parent[x]);
      assert Given(x.pid) in ps && Under(f, Given(x.pid), x);
    }
  }

  // The area of a job is what the processes below it use.
  lemma JobTotal(dataset: seq<Record>, all: Records, level: Key -> nat, height: nat, f: Forest, j: Key, t: Key)
    requires DistinctIds(dataset) && all == ById(dataset) && Ready(all, level, height, f) && j in all && all[j].Job?
    requires t in all && Below(all, level, height, j, t)
    ensures Given(t) in f.nodes && Under(f, Given(j), Given(t))
    ensures Total(f, Given(t)) == FootprintsBelow(dataset, all, level, height, t)
  {
    ProcessesFound(dataset, all, level, height, f, j);
    ByIdHolds(dataset);
    ProcessIdsAre(dataset);
    ScanIsFootprints(dataset, all, level, height, f, t);
    UnderIsBelow(all, level, height, f, j, t);
    forall p | p in ProcessIds(dataset) && Under(f, p, Given(t))
      ensures p == Given(t)
    {
      OnlyPartsBelow(all, level, height, f, p.key, t);
    }
    TotalIsScan(f, Given(j), ProcessIds(dataset), Given(t));
  }

  lemma {:induction false} FootprintsConcat(a: seq<Record>, b: seq<Record>, all: Records, level: Key -> nat,
                                            height: nat, t: Key)
    requires Treelike(all, level, height)
    ensures FootprintsBelow(a + b, all, level, height, t)
      == FootprintsBelow(a, all, level, height, t) + FootprintsBelow(b, all, level, height, t)
  {
    if b == [] {
      assert a + b == a;
    } else {
      assert (a + b)[..|a + b| - 1] == a + b[..|b| - 1];
      FootprintsConcat(a, b[..|b| - 1], all, level, height, t);
    }
  }

  // Moving the record at `i` to the end.
  lemma MoveToEnd(b: seq<Record>, i: nat, all: Records, level: Key -> nat, height: nat, t: Key)
    returns (rest: seq<Record>)
    requires Treelike(all, level, height) && i < |b|
    ensures multiset(b) == multiset(rest) + multiset{b[i]}
    ensures FootprintsBelow(b, all, level, height, t) == FootprintsBelow(rest + [b[i]], all, level, height, t)
  {
    var front, back := b[..i], b[i + 1..];
    rest := front + back;
    assert b == front + ([b[i]] + back);
    FootprintsConcat(front, [b[i]] + back, all, level, height, t);
    FootprintsConcat([b[i]], back, all, level, height, t);
    FootprintsConcat(rest, [b[i]], all, level, height, t);
    FootprintsConcat(front, back, all, level, height, t);
  }

  lemma {:induction false} FootprintsPermute(a: seq<Record>, b: seq<Record>, all: Records, level: Key -> nat,
                                             height: nat, t: Key)
    requires Treelike(all, level, height) && multiset(a) == multiset(b)
    ensures FootprintsBelow(a, all, level, height, t) == FootprintsBelow(b, all, level, height, t)
  {
    if a == [] {
      assert |multiset(b)| == 0;
    } else {
      var init, last := a[..|a| - 1], a[|a| - 1];
      assert a == init + [last];
      assert last in multiset(b);
      var i :| 0 <= i < |b| && b[i] == last;
      var rest := MoveToEnd(b, i, all, level, height, t);
      assert multiset(a) == multiset(init) + multiset{last};
      assert multiset(init) == multiset(a) - multiset{last} == multiset(rest);
      FootprintsPermute(init, rest, all, level, height, t);
      FootprintsConcat(init, [last], all, level, height, t);
      FootprintsConcat(rest, [last], all, level, height, t);
    }
  }

  // The records may come in any order.
  lemma OrderDoesNotMatter(a: seq<Record>, b: seq<Record>, level: Key -> nat, height: nat, t: Key)
    requires DistinctIds(a) && DistinctIds(b) && multiset(a) == multiset(b) && Treelike(ById(a), level, height)
    ensures ById(a) == ById(b)
    ensures FootprintsBelow(a, ById(a), level, height, t) == FootprintsBelow(b, ById(b), level, height, t)
  {
    SameRecords(a, b);
    SameRecords(b, a);
    assert ById(a) == ById(b);
    FootprintsPermute(a, b, ById(a), level, height, t);
  }

  lemma SameRecords(a: seq<Record>, b: seq<Record>)
    requires DistinctIds(a) && DistinctIds(b) && multiset(a) == multiset(b)
    ensures forall x :: x in ById(a) ==> x in ById(b) && ById(b)[x] == ById(a)[x]
  {
    ByIdHolds(b);
    forall x | x in ById(a)
      ensures x in ById(b) && ById(b)[x] == ById(a)[x]
    {
      var i := ByIdFrom(a, x);
      assert a[i] in multiset(b);
    }
  }

  // ---------- build_tree ----------

  predicate IsRoot(r: Record) {
    r.parent.None?
  }

  predicate IsRootJob(r: Record) {
    r.Job? && r.parent.Some? && KERNEL <= r.parent.value.text
  }

  // `x` is the only one of the records of its kind, if there is any.
  ghost predicate Found(recs: Records, kind: Record -> bool, x: Option<Key>) {
    match x
    case None => forall t :: t in recs ==> !kind(recs[t])
    case Some(k) => k in recs && forall t :: t in recs ==> (kind(recs[t]) <==> t == k)
  }

  ghost predicate Single(recs: Records, kind: Record -> bool) {
    exists k :: Found(recs, kind, Some(k))
  }

  ghost predicate Several(recs: Records, kind: Record -> bool) {
    exists t, u :: t in recs && u in recs && t != u && kind(recs[t]) && kind(recs[u])
  }

  datatype Outcome = Refused | Tree(root: Key, job: Key)

  const PHYSMEM := Key("kernel/physmem")
  const KERNEL_VMO := Key("kernel/vmo")
  const UNKNOWN := Key("kernel/vmo/unknown")

  lemma KernelKeys()
    ensures KERNEL <= KERNEL_VMO.text && KERNEL <= UNKNOWN.text && KERNEL_VMO != UNKNOWN
  {
  }

  // Every job and process in the root job's tree has the area of the processes below it.
  ghost predicate Accounted(dataset: seq<Record>, all: Records, level: Key -> nat, height: nat, j: Key,
                            nodes: map<Id, Node>)
    requires Treelike(all, level, height)
  {
    forall t :: t in all && Below(all, level, height, j, t) ==>
      Given(t) in nodes && nodes[Given(t)].area == FootprintsBelow(dataset, all, level, height, t)
  }

  lemma SummedIsAccounted(dataset: seq<Record>, all: Records, level: Key -> nat, height: nat, f: Forest, j: Key,
                          summed: map<Id, Node>)
    requires DistinctIds(dataset) && all == ById(dataset) && Ready(all, level, height, f) && j in all && all[j].Job?
    requires SummedBelow(f, f.nodes, summed, [Given(j)])
    ensures Accounted(dataset, all, level, height, j, summed)
  {
    forall t | t in all && Below(all, level, height, j, t)
      ensures Given(t) in summed && summed[Given(t)].area == FootprintsBelow(dataset, all, level, height, t)
    {
      JobTotal(dataset, all, level, height, f, j, t);
      assert UnderAny(f, [Given(j)], Given(t));
    }
  }

  lemma KernelUntouched(all: Records, level: Key -> nat, height: nat, f: Forest, j: Key, summed: map<Id, Node>, k: Key)
    requires Ready(all, level, height, f) && j in all && all[j].Job? && KERNEL <= k.text
    requires SummedBelow(f, f.nodes, summed, [Given(j)])
    ensures Lookup(summed, Given(k))[Given(k)].area == OwnArea(all, k)
  {
    if Given(k) in f.nodes && UnderAny(f, [Given(j)], Given(k)) {
      BelowJobs(all, level, height, f, j, Given(k));
    }
  }

  // Changing kernel nodes does not change the accounts of the jobs.
  lemma KernelIsApart(dataset: seq<Record>, all: Records, level: Key -> nat, height: nat, f: Forest, j: Key,
                      summed: map<Id, Node>, nodes: map<Id, Node>)
    requires Ready(all, level, height, f) && j in all && all[j].Job?
    requires Accounted(dataset, all, level, height, j, summed)
    requires forall x :: x in summed && !(x.Given? && KERNEL <= x.key.text) ==> x in nodes && nodes[x] == summed[x]
    ensures Accounted(dataset, all, level, height, j, nodes)
  {
    forall t | t in all && Below(all, level, height, j, t)
      ensures !(KERNEL <= t.text)
    {
      UnderIsBelow(all, level, height, f, j, t);
      BelowJobs(all, level, height, f, j, Given(t));
    }
  }

  // The rest of the kernel's memory objects, below them.
  method AddUnknown(nodes: map<Id, Node>, j: Key) returns (after: map<Id, Node>)
    requires Given(j) in nodes && !(KERNEL <= j.text)
    ensures Given(UNKNOWN) in after && Given(KERNEL_VMO) in after && Given(j) in after
    ensures after[Given(j)] == nodes[Given(j)]
    ensures after[Given(KERNEL_VMO)].area == Lookup(nodes, Given(KERNEL_VMO))[Given(KERNEL_VMO)].area
    ensures after[Given(UNKNOWN)].area + after[Given(j)].area == after[Given(KERNEL_VMO)].area
    ensures Given(UNKNOWN) in after[Given(KERNEL_VMO)].kids
    ensures forall x :: x in nodes && !(x.Given? && KERNEL <= x.key.text) ==> x in after && after[x] == nodes[x]
  {
    KernelKeys();
    after := Lookup(nodes, Given(KERNEL_VMO));
    after := Lookup(after, Given(UNKNOWN));
    var area := after[Given(KERNEL_VMO)].area - after[Given(j)].area;
    after := after[Given(UNKNOWN) := Node(area, after[Given(UNKNOWN)].kids)];
    after := Append(after, Given(KERNEL_VMO), [Given(UNKNOWN)]);
  }

  lemma FoundSnoc(all: Records, seen: Records, kind: Record -> bool, x: Option<Key>, r: Record)
    requires Found(seen, kind, x) && r.id !in seen && Among(seen, all) && r.id in all && all[r.id] == r
    ensures !kind(r) ==> Found(seen[r.id := r], kind, x)
    ensures kind(r) && x.None? ==> Found(seen[r.id := r], kind, Some(r.id))
    ensures kind(r) && x.Some? ==> Several(all, kind)
  {
  }

  lemma FoundIsSingle(recs: Records, kind: Record -> bool, x: Option<Key>)
    requires Found(recs, kind, x)
    ensures (x.Some? <==> Single(recs, kind)) && !Several(recs, kind)
  {
  }

  // The assertions in the loop of build_tree: at most one record of a kind.
  method Remember(r: Record, fits: bool, known: Option<Key>, ghost kind: Record -> bool, ghost all: Records,
                  ghost seen: Records)
      returns (ok: bool, now: Option<Key>)
    requires Found(seen, kind, known) && r.id !in seen && Among(seen, all) && r.id in all && all[r.id] == r
    requires fits == kind(r)
    ensures if ok then Found(seen[r.id := r], kind, now) else Several(all, kind)
  {
    FoundSnoc(all, seen, kind, known, r);
    ok, now := !fits || known.None?, if fits then Some(r.id) else known;
  }

  // What the registry and its ghost parents are after some of the records.
  ghost predicate Loaded(dataset: seq<Record>, i: nat, level: Key -> nat, height: nat, nodes: map<Id, Node>,
                         parent: map<Id, Id>)
    requires i <= |dataset|
  {
    var seen := ById(dataset[..i]);
    Reflects(seen, seen.Keys, nodes, parent) && Shallow(nodes, level, height)
  }

  lemma PrefixIsAmong(dataset: seq<Record>, i: nat)
    requires DistinctIds(dataset) && i <= |dataset|
    ensures Among(ById(dataset[..i]), ById(dataset))
  {
    forall t | t in ById(dataset[..i])
      ensures t in ById(dataset) && ById(dataset)[t] == ById(dataset[..i])[t]
    {
      var k := ByIdFrom(dataset[..i], t);
      ByIdFinds(dataset, k);
    }
  }

  lemma NextSeen(dataset: seq<Record>, i: nat)
    requires DistinctIds(dataset) && i < |dataset|
    ensures var all, seen, r := ById(dataset), ById(dataset[..i]), dataset[i];
      && Among(seen, all) && r.id !in seen && r.id in all && all[r.id] == r
      && ById(dataset[..i + 1]) == seen[r.id := r] && seen[r.id := r].Keys == seen.Keys + {r.id}
  {
    ByIdFinds(dataset, i);
    PrefixIsAmong(dataset, i);
    assert dataset[..i + 1][..i] == dataset[..i];
    NewId(dataset[..i + 1]);
  }

  method LoadNext(dataset: seq<Record>, i: nat, nodes: map<Id, Node>,
                  ghost level: Key -> nat, ghost height: nat, ghost parent: map<Id, Id>)
      returns (after: map<Id, Node>, ghost hung: map<Id, Id>)
    requires DistinctIds(dataset) && Treelike(ById(dataset), level, height) && i < |dataset|
    requires Loaded(dataset, i, level, height, nodes, parent)
    ensures Loaded(dataset, i + 1, level, height, after, hung)
  {
    NextSeen(dataset, i);
    after, hung := ReadRecord(nodes, dataset[i], ById(dataset), level, height, ById(dataset[..i]), parent);
  }

  // The loop of build_tree: `false` for its assertions.
  method ReadAll(dataset: seq<Record>, ghost level: Key -> nat, ghost height: nat)
      returns (ok: bool, nodes: map<Id, Node>, root: Option<Key>, job: Option<Key>, ghost parent: map<Id, Id>)
    requires DistinctIds(dataset) && Treelike(ById(dataset), level, height)
    ensures !ok <==> Several(ById(dataset), IsRoot) || Several(ById(dataset), IsRootJob)
    ensures ok ==> Found(ById(dataset), IsRoot, root) && Found(ById(dataset), IsRootJob, job)
    ensures ok ==> Loaded(dataset, |dataset|, level, height, nodes, parent)
  {
    ok, nodes, root, job, parent := true, map[], None, None, map[];
    for i := 0 to |dataset|
      invariant ok
      invariant Found(ById(dataset[..i]), IsRoot, root) && Found(ById(dataset[..i]), IsRootJob, job)
      invariant Loaded(dataset, i, level, height, nodes, parent)
    {
      var r := dataset[i];
      NextSeen(dataset, i);
      nodes, parent := LoadNext(dataset, i, nodes, level, height, parent);
      ok, job := Remember(r, IsRootJob(r), job, IsRootJob, ById(dataset), ById(dataset[..i]));
      if !ok {
        return;
      }
      ok, root := Remember(r, IsRoot(r), root, IsRoot, ById(dataset), ById(dataset[..i]));
      if !ok {
        return;
      }
    }
    assert dataset[..|dataset|] == dataset;
  }

  // The end of build_tree: the job tree is summed, and the rest of the kernel's memory objects
  // becomes a node of its own.
  method SumUp(g: Registry, j: Key, ghost dataset: seq<Record>, ghost level: Key -> nat, ghost height: nat,
               ghost f: Forest)
    requires DistinctIds(dataset) && Ready(ById(dataset), level, height, f) && f.nodes == g.nodes
    requires j in ById(dataset) && ById(dataset)[j].Job?
    modifies g
    ensures Accounted(dataset, ById(dataset), level, height, j, g.nodes)
    ensures Given(UNKNOWN) in g.nodes && Given(j) in g.nodes
    ensures g.nodes[Given(UNKNOWN)].area + g.nodes[Given(j)].area == OwnArea(ById(dataset), KERNEL_VMO)
  {
    ghost var all := ById(dataset);
    JobsAreUnmixed(all, level, height, f, j);
    var fine, area := g.SumArea(Given(j), f);
    ghost var summed := g.nodes;
    SummedIsAccounted(dataset, all, level, height, f, j, summed);
    KernelKeys();
    KernelUntouched(all, level, height, f, j, summed, KERNEL_VMO);
    var after := AddUnknown(g.nodes, j);
    KernelIsApart(dataset, all, level, height, f, j, summed, after);
    g.nodes := after;
  }

  // build_tree, when the records have distinct identifiers and form a tree.
  method BuildTree(g: Registry, dataset: seq<Record>, ghost level: Key -> nat, ghost height: nat) returns (r: Outcome)
    requires DistinctIds(dataset) && Treelike(ById(dataset), level, height)
    modifies g
    ensures r.Refused? <==> !Single(ById(dataset), IsRoot) || !Single(ById(dataset), IsRootJob)
    ensures r.Tree? ==> Found(ById(dataset), IsRoot, Some(r.root)) && Found(ById(dataset), IsRootJob, Some(r.job))
    ensures r.Tree? ==> Accounted(dataset, ById(dataset), level, height, r.job, g.nodes)
    ensures r.Tree? ==> Given(UNKNOWN) in g.nodes && Given(r.job) in g.nodes
    ensures r.Tree? ==>
      g.nodes[Given(UNKNOWN)].area + g.nodes[Given(r.job)].area == OwnArea(ById(dataset), KERNEL_VMO)
  {
    var ok, nodes, root, job;
    ghost var parent;
    ok, nodes, root, job, parent := ReadAll(dataset, level, height);
    g.nodes := nodes;
    if ok {
      FoundIsSingle(ById(dataset), IsRoot, root);
      FoundIsSingle(ById(dataset), IsRootJob, job);
    }
    if !ok || root.None? || job.None? {
      return Refused;
    }
    g.nodes := Lookup(g.nodes, Given(PHYSMEM));
    ghost var f := LoadedIsReady(dataset, level, height, nodes, parent);
    assert IsRootJob(ById(dataset)[job.value]);
    SumUp(g, job.value, dataset, level, height, f);
    return Tree(root.value, job.value);
  }

  lemma LoadedIsReady(dataset: seq<Record>, level: Key -> nat, height: nat, nodes: map<Id, Node>, parent: map<Id, Id>)
    returns (f: Forest)
    requires Treelike(ById(dataset), level, height) && Loaded(dataset, |dataset|, level, height, nodes, parent)
    ensures Ready(ById(dataset), level, height, f) && f.nodes == Lookup(nodes, Given(PHYSMEM))
  {
    var all, more := ById(dataset), Lookup(nodes, Given(PHYSMEM));
    assert dataset[..|dataset|] == dataset;
    LookupReflects(all, all.Keys, nodes, parent, PHYSMEM);
    var bound: nat := Max(height, level(PHYSMEM));
    ForestIsReady(all, level, height, more, parent, bound);
    f := ForestOf(more, parent, level, bound);
  }
}
