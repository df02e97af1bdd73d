/**
 Turning a GN project into a rust-analyzer project: crates are numbered in the order of a
 depth-first walk over a target graph that may have cycles.
 */
module RustProject {
  import opened Basics

  datatype Name = Name(text: string)

  // The label without its toolchain: everything before the first parenthesis.
  function Cut(s: string): (t: string)
    ensures t <= s && '(' !in t && (t == s || s[|t|] == '(')
  {
    if s == [] || s[0] == '(' then [] else [s[0]] + Cut(s[1..])
  }

  function Strip(n: Name): (m: Name)
    ensures '(' !in m.text && ('(' !in n.text ==> m == n)
  {
    Name(Cut(n.text))
  }

  // The labels agree up to the first parenthesis of each.
  ghost predicate SameLabel(a: Name, b: Name) {
    exists n: nat ::
      && n <= |a.text| && n <= |b.text| && a.text[..n] == b.text[..n] && '(' !in a.text[..n]
      && (n == |a.text| || a.text[n] == '(') && (n == |b.text| || b.text[n] == '(')
  }

  lemma StripIsSameLabel(a: Name, b: Name)
    ensures Strip(a) == Strip(b) <==> SameLabel(a, b)
  {
    var s, t := Cut(a.text), Cut(b.text);
    if s == t {
      assert a.text[..|s|] == s && b.text[..|s|] == s;
    }
    if SameLabel(a, b) {
      var n: nat :|
        && n <= |a.text| && n <= |b.text| && a.text[..n] == b.text[..n] && '(' !in a.text[..n]
        && (n == |a.text| || a.text[n] == '(') && (n == |b.text| || b.text[n] == '(');
      CutIs(a.text, n);
      CutIs(b.text, n);
    }
  }

  // There is only one such prefix.
  lemma CutIs(s: string, n: nat)
    requires n <= |s| && '(' !in s[..n] && (n == |s| || s[n] == '(')
    ensures Cut(s) == s[..n]
  {
  }

  // A target: the crate it builds, if it is a rust target, and its dependencies.
  datatype Target = Target(crate: Option<Name>, deps: seq<Name>)

  type Targets = map<Name, Target>

  // The project file describes every dependency it mentions.
  ghost predicate Closed(ts: Targets) {
    forall t, d :: t in ts && d in ts[t].deps ==> d in ts
  }

  predicate IsRust(ts: Targets, t: Name) {
    t in ts && ts[t].crate.Some?
  }

  datatype Edge = Edge(crate: nat, name: Name)
  datatype Crate = Crate(id: nat, deps: seq<Edge>)

  type Lookup = map<Name, nat>

  // ---------- what a finished crate looks like ----------

  ghost predicate RustIndexed(ts: Targets, lookup: Lookup, ds: seq<Name>) {
    forall d | d in ds && IsRust(ts, d) :: Strip(d) in lookup
  }

  function EdgeTo(ts: Targets, lookup: Lookup, d: Name): Edge
    requires IsRust(ts, d) && Strip(d) in lookup
  {
    Edge(lookup[Strip(d)], ts[d].crate.value)
  }

  // One edge for each rust target among `ds`.
  function DirectEdges(ts: Targets, lookup: Lookup, ds: seq<Name>): seq<Edge>
    requires RustIndexed(ts, lookup, ds)
  {
    if ds == [] then []
    else
      var d := ds[|ds| - 1];
      DirectEdges(ts, lookup, ds[..|ds| - 1]) + if IsRust(ts, d) then [EdgeTo(ts, lookup, d)] else []
  }

  // All rust targets among `ds` are indexed, and so are those directly below its other targets.
  ghost predicate Indexed(ts: Targets, lookup: Lookup, ds: seq<Name>) {
    && RustIndexed(ts, lookup, ds)
    && forall d | d in ds && d in ts && !IsRust(ts, d) :: RustIndexed(ts, lookup, ts[d].deps)
  }

  // The edges of a crate with dependencies `ds`: one for each rust target among them, and one
  // for each rust target directly below a non-rust one. Nothing further down contributes.
  function CrateEdges(ts: Targets, lookup: Lookup, ds: seq<Name>): seq<Edge>
    requires Indexed(ts, lookup, ds)
  {
    if ds == [] then []
    else
      var d := ds[|ds| - 1];
      CrateEdges(ts, lookup, ds[..|ds| - 1]) +
      if IsRust(ts, d) then [EdgeTo(ts, lookup, d)]
      else if d in ts then DirectEdges(ts, lookup, ts[d].deps)
      else []
  }

  // Exactly the rust targets at most one group away get an edge.
  lemma {:induction false} DirectEdgesIff(ts: Targets, lookup: Lookup, ds: seq<Name>, e: Edge)
    requires RustIndexed(ts, lookup, ds)
    ensures e in DirectEdges(ts, lookup, ds) <==> exists d :: d in ds && IsRust(ts, d) && e == EdgeTo(ts, lookup, d)
  {
    if ds != [] {
      DirectEdgesIff(ts, lookup, ds[..|ds| - 1], e);
      assert ds == ds[..|ds| - 1] + [ds[|ds| - 1]];
    }
  }

  ghost predicate OneGroupAway(ts: Targets, ds: seq<Name>, b: Name) {
    IsRust(ts, b) && (b in ds || exists g :: g in ds && g in ts && !IsRust(ts, g) && b in ts[g].deps)
  }

  lemma {:induction false} CrateEdgesIff(ts: Targets, lookup: Lookup, ds: seq<Name>, e: Edge)
    requires Indexed(ts, lookup, ds)
    ensures e in CrateEdges(ts, lookup, ds) <==>
      exists b :: OneGroupAway(ts, ds, b) && Strip(b) in lookup && e == EdgeTo(ts, lookup, b)
  {
    if ds != [] {
      var init, d := ds[..|ds| - 1], ds[|ds| - 1];
      assert ds == init + [d];
      CrateEdgesIff(ts, lookup, init, e);
      if d in ts && !IsRust(ts, d) {
        DirectEdgesIff(ts, lookup, ts[d].deps, e);
      }
      assert forall b :: OneGroupAway(ts, ds, b) <==>
        || OneGroupAway(ts, init, b)
        || (b == d && IsRust(ts, b))
        || (d in ts && !IsRust(ts, d) && IsRust(ts, b) && b in ts[d].deps);
    }
  }

  // Later growth of the lookup table does not disturb edges already made.
  ghost predicate Grows(a: Lookup, b: Lookup) {
    forall k :: k in a ==> k in b && b[k] == a[k]
  }

  lemma {:induction false} DirectEdgesStay(ts: Targets, a: Lookup, b: Lookup, ds: seq<Name>)
    requires Grows(a, b) && RustIndexed(ts, a, ds)
    ensures RustIndexed(ts, b, ds) && DirectEdges(ts, a, ds) == DirectEdges(ts, b, ds)
  {
    if ds != [] {
      DirectEdgesStay(ts, a, b, ds[..|ds| - 1]);
    }
  }

  lemma {:induction false} CrateEdgesStay(ts: Targets, a: Lookup, b: Lookup, ds: seq<Name>)
    requires Grows(a, b) && Indexed(ts, a, ds)
    ensures Indexed(ts, b, ds) && CrateEdges(ts, a, ds) == CrateEdges(ts, b, ds)
  {
    if ds != [] {
      CrateEdgesStay(ts, a, b, ds[..|ds| - 1]);
      var d := ds[|ds| - 1];
      if d in ts && !IsRust(ts, d) {
        DirectEdgesStay(ts, a, b, ts[d].deps);
      }
    }
  }

  // ---------- sysroot crates ----------

  const STD := Name("std")
  const ALLOC := Name("alloc")
  const CORE := Name("core")

  const STD_DEPS: seq<Name> := [ALLOC, CORE, Name("panic_abort"), Name("unwind")]

  function SysrootDeps(n: Name): seq<Name> {
    if n == STD then STD_DEPS else if n == ALLOC then [CORE] else []
  }

  function SysrootEdges(lookup: Lookup, ds: seq<Name>): seq<Edge>
    requires forall d | d in ds :: d in lookup
  {
    if ds == [] then []
    else SysrootEdges(lookup, ds[..|ds| - 1]) + [Edge(lookup[ds[|ds| - 1]], ds[|ds| - 1])]
  }

  lemma {:induction false} SysrootEdgesStay(a: Lookup, b: Lookup, ds: seq<Name>)
    requires Grows(a, b) && forall d | d in ds :: d in a
    ensures (forall d | d in ds :: d in b) && SysrootEdges(a, ds) == SysrootEdges(b, ds)
  {
    if ds != [] {
      SysrootEdgesStay(a, b, ds[..|ds| - 1]);
    }
  }

  // ---------- the whole project ----------

  // `keys[i]` is the name crate `i` is filed under; `origins[i]` the target it was made from,
  // none for a sysroot crate.
  datatype Project = Project(lookup: Lookup, crates: seq<Crate>, keys: seq<Name>, origins: seq<Option<Name>>)

  // The lookup table is a bijection onto the crate numbers, and every crate carries its own.
  ghost predicate Numbered(p: Project) {
    && |p.keys| == |p.origins| == |p.crates|
    && (forall k :: k in p.lookup ==> p.lookup[k] < |p.keys| && p.keys[p.lookup[k]] == k && '(' !in k.text)
    && (forall i | 0 <= i < |p.keys| :: p.keys[i] in p.lookup && p.lookup[p.keys[i]] == i)
    && (forall i | 0 <= i < |p.crates| :: p.crates[i].id == i)
  }

  // All edges lead to crates.
  ghost predicate InRange(p: Project) {
    forall i, e | 0 <= i < |p.crates| && e in p.crates[i].deps :: e.crate < |p.crates|
  }

  // Crate `i` has exactly the edges it should have.
  ghost predicate Finished(ts: Targets, p: Project, i: nat)
    requires i < |p.crates| == |p.origins| == |p.keys|
  {
    match p.origins[i]
    case None =>
      && (forall d | d in SysrootDeps(p.keys[i]) :: d in p.lookup)
      && p.crates[i].deps == SysrootEdges(p.lookup, SysrootDeps(p.keys[i]))
    case Some(t) =>
      && IsRust(ts, t) && Strip(t) == p.keys[i] && STD in p.lookup && Indexed(ts, p.lookup, ts[t].deps)
      && p.crates[i].deps == [Edge(p.lookup[STD], STD)] + CrateEdges(ts, p.lookup, ts[t].deps)
  }

  ghost predicate Prefix(p: Project, q: Project) {
    && Grows(p.lookup, q.lookup)
    && |p.crates| <= |q.crates| == |q.origins| == |q.keys|
    && p.crates <= q.crates && p.origins <= q.origins && p.keys <= q.keys
    && |p.crates| == |p.origins| == |p.keys|
  }

  // Two targets are the same crate exactly when their labels agree up to the toolchain.
  lemma SameEntryIff(p: Project, a: Name, b: Name)
    requires Numbered(p) && Strip(a) in p.lookup && Strip(b) in p.lookup
    ensures p.lookup[Strip(a)] == p.lookup[Strip(b)] <==> SameLabel(a, b)
  {
    StripIsSameLabel(a, b);
  }

  // `q` extends `p`, and everything new in it is finished.
  ghost predicate Extends(ts: Targets, p: Project, q: Project) {
    && Prefix(p, q)
    && forall i | |p.crates| <= i < |q.crates| :: Finished(ts, q, i)
  }

  lemma FinishedStays(ts: Targets, p: Project, q: Project, i: nat)
    requires i < |p.crates| == |p.origins| == |p.keys| && Finished(ts, p, i)
    requires Grows(p.lookup, q.lookup) && i < |q.crates| == |q.origins| == |q.keys|
    requires q.crates[i] == p.crates[i] && q.origins[i] == p.origins[i] && q.keys[i] == p.keys[i]
    ensures Finished(ts, q, i)
  {
    match p.origins[i]
    case None => SysrootEdgesStay(p.lookup, q.lookup, SysrootDeps(p.keys[i]));
    case Some(t) => CrateEdgesStay(ts, p.lookup, q.lookup, ts[t].deps);
  }

  lemma ExtendsTransitive(ts: Targets, p: Project, q: Project, r: Project)
    requires Extends(ts, p, q) && Extends(ts, q, r)
    ensures Extends(ts, p, r)
  {
    forall i | |p.crates| <= i < |r.crates|
      ensures Finished(ts, r, i)
    {
      if i < |q.crates| {
        FinishedStays(ts, q, r, i);
      }
    }
  }

  // A crate with `edges` so far was appended to `p`; all crates after it are finished.
  ghost predicate Open(ts: Targets, p: Project, q: Project, key: Name, origin: Option<Name>, edges: seq<Edge>) {
    var id := |p.crates|;
    && Prefix(p, q) && id < |q.crates|
    && q.keys[id] == key && q.origins[id] == origin && q.crates[id] == Crate(id, edges)
    && forall i | id < i < |q.crates| :: Finished(ts, q, i)
  }

  lemma OpenOn(ts: Targets, p: Project, q: Project, r: Project, key: Name, origin: Option<Name>, edges: seq<Edge>)
    requires Open(ts, p, q, key, origin, edges) && Extends(ts, q, r)
    ensures Open(ts, p, r, key, origin, edges)
  {
    forall i | |p.crates| < i < |r.crates|
      ensures Finished(ts, r, i)
    {
      if i < |q.crates| {
        FinishedStays(ts, q, r, i);
      }
    }
  }

  function WithEdges(q: Project, i: nat, more: seq<Edge>): Project
    requires i < |q.crates|
  {
    q.(crates := q.crates[i := Crate(q.crates[i].id, q.crates[i].deps + more)])
  }

  lemma OpenAdds(ts: Targets, p: Project, q: Project, key: Name, origin: Option<Name>, edges: seq<Edge>,
                 more: seq<Edge>)
    requires Open(ts, p, q, key, origin, edges)
    ensures Open(ts, p, WithEdges(q, |p.crates|, more), key, origin, edges + more)
  {
    var r := WithEdges(q, |p.crates|, more);
    forall i | |p.crates| < i < |r.crates|
      ensures Finished(ts, r, i)
    {
      FinishedStays(ts, q, r, i);
    }
  }

  function Registered(p: Project, key: Name, origin: Option<Name>, deps: seq<Edge>): Project {
    var id := |p.crates|;
    Project(p.lookup[key := id], p.crates + [Crate(id, deps)], p.keys + [key], p.origins + [origin])
  }

  lemma OpenStart(ts: Targets, p: Project, key: Name, origin: Option<Name>, deps: seq<Edge>)
    requires Numbered(p) && key !in p.lookup
    ensures Open(ts, p, Registered(p, key, origin, deps), key, origin, deps)
  {
  }

  lemma OpenDone(ts: Targets, p: Project, q: Project, key: Name, origin: Option<Name>, edges: seq<Edge>)
    requires Open(ts, p, q, key, origin, edges) && Finished(ts, q, |p.crates|)
    ensures Extends(ts, p, q)
  {
  }

  // The edges of a crate made from `t` when its first `n` dependencies are done.
  ghost predicate EdgesSoFar(ts: Targets, lookup: Lookup, t: Name, n: nat, edges: seq<Edge>) {
    && IsRust(ts, t) && n <= |ts[t].deps| && STD in lookup && Indexed(ts, lookup, ts[t].deps[..n])
    && edges == [Edge(lookup[STD], STD)] + CrateEdges(ts, lookup, ts[t].deps[..n])
  }

  lemma CrateDone(ts: Targets, p: Project, q: Project, t: Name, edges: seq<Edge>)
    requires t in ts && Open(ts, p, q, Strip(t), Some(t), edges) && EdgesSoFar(ts, q.lookup, t, |ts[t].deps|, edges)
    ensures Extends(ts, p, q)
  {
    assert ts[t].deps[..|ts[t].deps|] == ts[t].deps;
    OpenDone(ts, p, q, Strip(t), Some(t), edges);
  }

  // The edges the next dependency contributes.
  lemma NextEdges(ts: Targets, lookup: Lookup, ds: seq<Name>, n: nat)
    requires n < |ds| && Indexed(ts, lookup, ds[..n]) && ds[n] in ts
    requires if IsRust(ts, ds[n]) then Strip(ds[n]) in lookup else RustIndexed(ts, lookup, ts[ds[n]].deps)
    ensures Indexed(ts, lookup, ds[..n + 1])
    ensures CrateEdges(ts, lookup, ds[..n + 1]) == CrateEdges(ts, lookup, ds[..n]) +
      if IsRust(ts, ds[n]) then [EdgeTo(ts, lookup, ds[n])] else DirectEdges(ts, lookup, ts[ds[n]].deps)
  {
    assert ds[..n + 1] == ds[..n] + [ds[n]];
    assert ds[..n + 1][..n] == ds[..n];
  }

  // One dependency of an open crate, once the crates behind it exist.
  lemma CrateStep(ts: Targets, p: Project, q: Project, r: Project, t: Name, n: nat, edges: seq<Edge>, more: seq<Edge>)
    requires Open(ts, p, q, Strip(t), Some(t), edges) && EdgesSoFar(ts, q.lookup, t, n, edges)
    requires Extends(ts, q, r) && n < |ts[t].deps| && ts[t].deps[n] in ts
    requires var d := ts[t].deps[n];
      if IsRust(ts, d) then Strip(d) in r.lookup && more == [EdgeTo(ts, r.lookup, d)]
      else RustIndexed(ts, r.lookup, ts[d].deps) && more == DirectEdges(ts, r.lookup, ts[d].deps)
    ensures |p.crates| < |r.crates|
    ensures Open(ts, p, WithEdges(r, |p.crates|, more), Strip(t), Some(t), edges + more)
    ensures EdgesSoFar(ts, r.lookup, t, n + 1, edges + more)
  {
    OpenOn(ts, p, q, r, Strip(t), Some(t), edges);
    OpenAdds(ts, p, r, Strip(t), Some(t), edges, more);
    EdgesStep(ts, q.lookup, r.lookup, t, n, edges, more);
  }

  lemma EdgesStep(ts: Targets, a: Lookup, b: Lookup, t: Name, n: nat, edges: seq<Edge>, more: seq<Edge>)
    requires EdgesSoFar(ts, a, t, n, edges) && Grows(a, b) && n < |ts[t].deps| && ts[t].deps[n] in ts
    requires var d := ts[t].deps[n];
      if IsRust(ts, d) then Strip(d) in b && more == [EdgeTo(ts, b, d)]
      else RustIndexed(ts, b, ts[d].deps) && more == DirectEdges(ts, b, ts[d].deps)
    ensures EdgesSoFar(ts, b, t, n + 1, edges + more)
  {
    CrateEdgesStep(ts, a, b, ts[t].deps, n, more);
    var std, so := [Edge(b[STD], STD)], CrateEdges(ts, a, ts[t].deps[..n]);
    Associates(std, so, more);
  }

  lemma Associates(a: seq<Edge>, b: seq<Edge>, c: seq<Edge>)
    ensures (a + b) + c == a + (b + c)
  {
  }

  lemma CrateEdgesStep(ts: Targets, a: Lookup, b: Lookup, ds: seq<Name>, n: nat, more: seq<Edge>)
    requires Grows(a, b) && n < |ds| && ds[n] in ts && Indexed(ts, a, ds[..n])
    requires if IsRust(ts, ds[n]) then Strip(ds[n]) in b && more == [EdgeTo(ts, b, ds[n])]
      else RustIndexed(ts, b, ts[ds[n]].deps) && more == DirectEdges(ts, b, ts[ds[n]].deps)
    ensures Indexed(ts, b, ds[..n + 1]) && CrateEdges(ts, b, ds[..n + 1]) == CrateEdges(ts, a, ds[..n]) + more
  {
    CrateEdgesStay(ts, a, b, ds[..n]);
    NextEdges(ts, b, ds, n);
  }

  lemma SysrootStep(ts: Targets, p: Project, q: Project, r: Project, name: Name, n: nat, edges: seq<Edge>)
    requires n < |SysrootDeps(name)| && Open(ts, p, q, name, None, edges)
    requires (forall d | d in SysrootDeps(name)[..n] :: d in q.lookup)
    requires edges == SysrootEdges(q.lookup, SysrootDeps(name)[..n])
    requires Extends(ts, q, r) && SysrootDeps(name)[n] in r.lookup
    ensures |p.crates| < |r.crates| && forall d | d in SysrootDeps(name)[..n + 1] :: d in r.lookup
    ensures var d := SysrootDeps(name)[n];
      Open(ts, p, WithEdges(r, |p.crates|, [Edge(r.lookup[d], d)]), name, None,
        SysrootEdges(r.lookup, SysrootDeps(name)[..n + 1]))
  {
    var ds := SysrootDeps(name);
    OpenOn(ts, p, q, r, name, None, edges);
    OpenAdds(ts, p, r, name, None, edges, [Edge(r.lookup[ds[n]], ds[n])]);
    SysrootEdgesStay(q.lookup, r.lookup, ds[..n]);
    assert ds[..n + 1] == ds[..n] + [ds[n]] && ds[..n + 1][..n] == ds[..n];
  }

  // The edges the next target below a group contributes.
  lemma NextDirectEdges(ts: Targets, a: Lookup, b: Lookup, ds: seq<Name>, n: nat)
    requires Grows(a, b) && n < |ds| && RustIndexed(ts, a, ds[..n]) && (IsRust(ts, ds[n]) ==> Strip(ds[n]) in b)
    ensures RustIndexed(ts, b, ds[..n + 1])
    ensures DirectEdges(ts, b, ds[..n + 1]) ==
      DirectEdges(ts, a, ds[..n]) + if IsRust(ts, ds[n]) then [EdgeTo(ts, b, ds[n])] else []
  {
    DirectEdgesStay(ts, a, b, ds[..n]);
    assert ds[..n + 1] == ds[..n] + [ds[n]] && ds[..n + 1][..n] == ds[..n];
  }

  lemma {:induction false} DirectEdgesInRange(ts: Targets, lookup: Lookup, ds: seq<Name>, size: nat)
    requires RustIndexed(ts, lookup, ds) && forall k :: k in lookup ==> lookup[k] < size
    ensures forall e | e in DirectEdges(ts, lookup, ds) :: e.crate < size
  {
    if ds != [] {
      DirectEdgesInRange(ts, lookup, ds[..|ds| - 1], size);
    }
  }

  // ---------- the script ----------

  class Generator {
    const ts: Targets
    var lookup: Lookup
    var crates: seq<Crate>
    var nonRustSeen: set<Name>
    ghost var keys: seq<Name>
    ghost var origins: seq<Option<Name>>

    ghost function View(): Project
      reads this
    {
      Project(lookup, crates, keys, origins)
    }

    ghost predicate Valid()
      reads this
    {
      Closed(ts) && Numbered(View()) && InRange(View())
    }

    // What the recursion has left to do: labels without a crate, and groups not yet entered.
    ghost function Unindexed(): set<Name>
      reads this
    {
      (set t | t in ts :: Strip(t)) - lookup.Keys
    }

    ghost function Unseen(): set<Name>
      reads this
    {
      ts.Keys - nonRustSeen
    }

    // Append a new crate under a key that is not in use.
    method Register(key: Name, ghost origin: Option<Name>, deps: seq<Edge>)
      requires Valid() && key !in lookup && '(' !in key.text
      requires forall e | e in deps :: e.crate < |crates|
      modifies this`lookup, this`crates, this`keys, this`origins
      ensures Valid() && View() == Registered(old(View()), key, origin, deps)
    {
      lookup := lookup[key := |crates|];
      crates := crates + [Crate(|crates|, deps)];
      keys, origins := keys + [key], origins + [origin];
    }

    method Append(i: nat, more: seq<Edge>)
      requires Valid() && i < |crates| && forall e | e in more :: e.crate < |crates|
      modifies this`crates
      ensures Valid() && View() == WithEdges(old(View()), i, more)
    {
      crates := crates[i := Crate(crates[i].id, crates[i].deps + more)];
    }

    // add_transitive_crates: the edges to the rust targets directly below `target`.
    method AddTransitiveCrates(target: Name) returns (edges: seq<Edge>)
      requires Valid() && STD in lookup && target in ts
      modifies this
      ensures Valid() && Extends(ts, old(View()), View()) && old(nonRustSeen) <= nonRustSeen
      ensures RustIndexed(ts, lookup, ts[target].deps) && edges == DirectEdges(ts, lookup, ts[target].deps)
      decreases Unindexed(), Unseen(), 3
    {
      edges := [];
      var deps := ts[target].deps;
      for i := 0 to |deps|
        invariant Valid() && Extends(ts, old(View()), View()) && old(nonRustSeen) <= nonRustSeen
        invariant RustIndexed(ts, lookup, deps[..i]) && edges == DirectEdges(ts, lookup, deps[..i])
      {
        ghost var before := View();
        edges := EdgeBelow(target, i, edges);
        ExtendsTransitive(ts, old(View()), before, View());
      }
      assert deps[..|deps|] == deps;
    }

    // The body of the loop in add_transitive_crates.
    method EdgeBelow(target: Name, i: nat, edges: seq<Edge>) returns (edges': seq<Edge>)
      requires Valid() && STD in lookup && target in ts && i < |ts[target].deps|
      requires RustIndexed(ts, lookup, ts[target].deps[..i]) && edges == DirectEdges(ts, lookup, ts[target].deps[..i])
      modifies this
      ensures Valid() && Extends(ts, old(View()), View()) && old(nonRustSeen) <= nonRustSeen
      ensures RustIndexed(ts, lookup, ts[target].deps[..i + 1])
      ensures edges' == DirectEdges(ts, lookup, ts[target].deps[..i + 1])
      decreases Unindexed(), Unseen(), 2
    {
      ghost var before := lookup;
      var dependency := ts[target].deps[i];
      VisitBelow(target, dependency);
      NextDirectEdges(ts, before, lookup, ts[target].deps, i);
      edges' := edges + if IsRust(ts, dependency) then [EdgeTo(ts, lookup, dependency)] else [];
    }

    // What add_transitive_crates(target) does about one dependency. For a group not seen before
    // it starts over on `target`, not on the group, and drops the result.
    method VisitBelow(target: Name, dependency: Name)
      requires Valid() && STD in lookup && target in ts && dependency in ts[target].deps
      modifies this
      ensures Valid() && Extends(ts, old(View()), View()) && old(nonRustSeen) <= nonRustSeen
      ensures IsRust(ts, dependency) ==> Strip(dependency) in lookup
      decreases Unindexed(), Unseen(), 1
    {
      if IsRust(ts, dependency) {
        if dependency !in lookup {
          AddCrate(dependency);
        }
      } else if dependency !in nonRustSeen {
        nonRustSeen := nonRustSeen + {dependency};
        var dropped := AddTransitiveCrates(target);
      }
    }

    // add_crate
    method AddCrate(target: Name)
      requires Valid() && STD in lookup && IsRust(ts, target)
      modifies this
      ensures Valid() && Extends(ts, old(View()), View()) && old(nonRustSeen) <= nonRustSeen
      ensures Strip(target) in lookup
      decreases Unindexed(), Unseen(), 0
    {
      if Strip(target) in lookup {
        return;
      }
      ghost var p := View();
      var id := |crates|;
      ghost var edges := OpenCrate(target);
      for i := 0 to |ts[target].deps|
        invariant Valid() && old(nonRustSeen) <= nonRustSeen && Unindexed() < old(Unindexed())
        invariant Open(ts, p, View(), Strip(target), Some(target), edges)
        invariant EdgesSoFar(ts, lookup, target, i, edges)
      {
        edges := AddDependency(p, id, target, i, edges);
      }
      CrateDone(ts, p, View(), target, edges);
    }

    // The part of add_crate before its loop.
    method OpenCrate(target: Name) returns (ghost edges: seq<Edge>)
      requires Valid() && STD in lookup && IsRust(ts, target) && Strip(target) !in lookup
      modifies this`lookup, this`crates, this`keys, this`origins
      ensures Valid() && Unindexed() < old(Unindexed())
      ensures Open(ts, old(View()), View(), Strip(target), Some(target), edges)
      ensures EdgesSoFar(ts, lookup, target, 0, edges)
    {
      var deps := [Edge(lookup[STD], STD)];
      edges := deps;
      OpenStart(ts, View(), Strip(target), Some(target), deps);
      Register(Strip(target), Some(target), deps);
      assert Strip(target) in old(Unindexed()) && Strip(target) !in Unindexed();
    }

    // The body of the loop in add_crate.
    method AddDependency(ghost p: Project, id: nat, target: Name, i: nat, ghost edges: seq<Edge>)
      returns (ghost edges': seq<Edge>)
      requires Valid() && id == |p.crates| && EdgesSoFar(ts, lookup, target, i, edges) && i < |ts[target].deps|
      requires Open(ts, p, View(), Strip(target), Some(target), edges)
      modifies this
      ensures Valid() && old(nonRustSeen) <= nonRustSeen && Unindexed() <= old(Unindexed())
      ensures Open(ts, p, View(), Strip(target), Some(target), edges')
      ensures EdgesSoFar(ts, lookup, target, i + 1, edges')
      decreases Unindexed(), Unseen(), 5
    {
      var dependency := ts[target].deps[i];
      ghost var before := View();
      var more := EdgesFor(target, dependency);
      CrateStep(ts, p, before, View(), target, i, edges, more);
      Append(id, more);
      edges' := edges + more;
    }

    // Make sure the crates behind one dependency exist, and return the edges it stands for.
    method EdgesFor(target: Name, dependency: Name) returns (more: seq<Edge>)
      requires Valid() && STD in lookup && target in ts && dependency in ts[target].deps
      modifies this
      ensures Valid() && Extends(ts, old(View()), View()) && old(nonRustSeen) <= nonRustSeen
      ensures dependency in ts && forall e | e in more :: e.crate < |crates|
      ensures if IsRust(ts, dependency)
              then Strip(dependency) in lookup && more == [EdgeTo(ts, lookup, dependency)]
              else RustIndexed(ts, lookup, ts[dependency].deps) && more == DirectEdges(ts, lookup, ts[dependency].deps)
      decreases Unindexed(), Unseen(), 4
    {
      if IsRust(ts, dependency) {
        if Strip(dependency) !in lookup {
          AddCrate(dependency);
        }
        more := [EdgeTo(ts, lookup, dependency)];
      } else {
        more := AddTransitiveCrates(dependency);
        DirectEdgesInRange(ts, lookup, ts[dependency].deps, |crates|);
      }
    }

    // add_sysroot_crate
    method AddSysrootCrate(name: Name)
      requires Valid() && '(' !in name.text
      modifies this
      ensures Valid() && Extends(ts, old(View()), View()) && name in lookup
      ensures nonRustSeen == old(nonRustSeen)
      decreases if name == STD then 2 else if name == ALLOC then 1 else 0
    {
      if name in lookup {
        return;
      }
      ghost var p := View();
      var id := |crates|;
      Register(name, None, []);
      var deps := SysrootDeps(name);
      ghost var edges: seq<Edge> := [];
      for i := 0 to |deps|
        invariant Valid() && nonRustSeen == old(nonRustSeen) && name in lookup
        invariant Open(ts, p, View(), name, None, edges)
        invariant (forall d | d in deps[..i] :: d in lookup) && edges == SysrootEdges(lookup, deps[..i])
      {
        ghost var before := View();
        AddSysrootDependency(deps[i], name);
        SysrootStep(ts, p, before, View(), name, i, edges);
        Append(id, [Edge(lookup[deps[i]], deps[i])]);
        edges := SysrootEdges(lookup, deps[..i + 1]);
      }
      assert deps[..|deps|] == deps;
      OpenDone(ts, p, View(), name, None, edges);
    }

    method AddSysrootDependency(dependency: Name, name: Name)
      requires Valid() && dependency in SysrootDeps(name)
      modifies this
      ensures Valid() && Extends(ts, old(View()), View()) && dependency in lookup
      ensures nonRustSeen == old(nonRustSeen)
      decreases if name == STD then 2 else if name == ALLOC then 1 else 0, 0
    {
      if dependency !in lookup {
        AddSysrootCrate(dependency);
      }
    }

    constructor (ts: Targets)
      requires Closed(ts)
      ensures this.ts == ts && Valid() && View() == Project(map[], [], [], []) && nonRustSeen == {}
    {
      this.ts := ts;
      lookup, crates, nonRustSeen, keys, origins := map[], [], {}, [], [];
    }

    // The two driver loops of main: over the list of sysroot crates, then over the rust targets
    // in any order.
    method Generate(sysroot: seq<Name>)
      requires Valid() && View() == Project(map[], [], [], [])
      requires STD in sysroot && forall n | n in sysroot :: '(' !in n.text
      modifies this
      ensures Valid() && forall i | 0 <= i < |crates| :: Finished(ts, View(), i)
      ensures forall n | n in sysroot :: n in lookup
      ensures forall t | IsRust(ts, t) :: Strip(t) in lookup
      ensures forall a, b | IsRust(ts, a) && IsRust(ts, b) ::
        lookup[Strip(a)] == lookup[Strip(b)] <==> SameLabel(a, b)
    {
      ghost var p := View();
      AddAllSysrootCrates(sysroot);
      AddAllRustTargets(p);
      forall a, b | IsRust(ts, a) && IsRust(ts, b)
        ensures lookup[Strip(a)] == lookup[Strip(b)] <==> SameLabel(a, b)
      {
        SameEntryIff(View(), a, b);
      }
    }

    method AddAllSysrootCrates(sysroot: seq<Name>)
      requires Valid() && forall n | n in sysroot :: '(' !in n.text
      modifies this
      ensures Valid() && Extends(ts, old(View()), View()) && forall n | n in sysroot :: n in lookup
    {
      for i := 0 to |sysroot|
        invariant Valid() && Extends(ts, old(View()), View())
        invariant forall j | 0 <= j < i :: sysroot[j] in lookup
      {
        ghost var before := View();
        AddSysrootCrate(sysroot[i]);
        ExtendsTransitive(ts, old(View()), before, View());
      }
    }

    method AddAllRustTargets(ghost p: Project)
      requires Valid() && Extends(ts, p, View()) && STD in lookup
      modifies this
      ensures Valid() && Extends(ts, p, View()) && Grows(old(lookup), lookup)
      ensures forall t | IsRust(ts, t) :: Strip(t) in lookup
    {
      var todo := set t | t in ts && IsRust(ts, t);
      while todo != {}
        invariant Valid() && Extends(ts, p, View()) && Grows(old(lookup), lookup)
        invariant forall t | t in todo :: IsRust(ts, t)
        invariant forall t | IsRust(ts, t) && t !in todo :: Strip(t) in lookup
        decreases todo
      {
        var t :| t in todo;
        ghost var before := View();
        AddCrate(t);
        ExtendsTransitive(ts, p, before, View());
        todo := todo - {t};
      }
    }
  }

  // ---------- where the promise breaks ----------

  // A rust target reached from `ds` through `n` non-rust targets.
  ghost predicate ThroughGroups(ts: Targets, ds: seq<Name>, b: Name, n: nat)
    decreases n
  {
    if n == 0 then b in ds && IsRust(ts, b)
    else exists g :: g in ds && g in ts && !IsRust(ts, g) && ThroughGroups(ts, ts[g].deps, b, n - 1)
  }

  // Rust targets below a group should become dependencies. Those one group down do, but whatever
  // lies below two levels of groups is lost, however many rust targets there are.
  lemma NestedGroupsAreLost(ts: Targets, lookup: Lookup, ds: seq<Name>, e: Edge)
    requires Indexed(ts, lookup, ds)
    requires forall d | d in ds :: d in ts && !IsRust(ts, d) && forall g | g in ts[d].deps :: !IsRust(ts, g)
    ensures e !in CrateEdges(ts, lookup, ds)
  {
    CrateEdgesIff(ts, lookup, ds, e);
  }

  lemma SomethingIsLost() returns (ts: Targets, a: Name, b: Name)
    ensures Closed(ts) && IsRust(ts, a) && ThroughGroups(ts, ts[a].deps, b, 2)
    ensures forall lookup, e | Indexed(ts, lookup, ts[a].deps) :: e !in CrateEdges(ts, lookup, ts[a].deps)
  {
    a, b := Name("//a"), Name("//b");
    var g, h := Name("//g"), Name("//h");
    ts := map[a := Target(Some(Name("a")), [g]), g := Target(None, [h]),
              h := Target(None, [b]), b := Target(Some(Name("b")), [])];
    assert ThroughGroups(ts, ts[h].deps, b, 0);
    assert ThroughGroups(ts, ts[g].deps, b, 1);
    forall lookup, e | Indexed(ts, lookup, ts[a].deps)
      ensures e !in CrateEdges(ts, lookup, ts[a].deps)
    {
      NestedGroupsAreLost(ts, lookup, ts[a].deps, e);
    }
  }

  ghost predicate SameCrate(ts: Targets, a: Name, b: Name) {
    IsRust(ts, a) && IsRust(ts, b) && SameLabel(a, b) && ts[a].crate == ts[b].crate
  }

  // What lies behind nested groups is also to be found behind at most one.
  ghost predicate NestingHidesNothing(ts: Targets, ds: seq<Name>) {
    forall b, n: nat :: ThroughGroups(ts, ds, b, n) && n >= 2 ==>
      exists b' :: OneGroupAway(ts, ds, b') && SameCrate(ts, b', b)
  }

  // Every rust target behind groups, however nested, has become a dependency.
  ghost predicate TransitivelyComplete(ts: Targets, lookup: Lookup, ds: seq<Name>)
    requires Indexed(ts, lookup, ds)
  {
    forall b, n: nat :: ThroughGroups(ts, ds, b, n) ==>
      IsRust(ts, b) && Strip(b) in lookup && EdgeTo(ts, lookup, b) in CrateEdges(ts, lookup, ds)
  }

  lemma {:induction false} ThroughGroupsIsRust(ts: Targets, ds: seq<Name>, b: Name, n: nat)
    requires ThroughGroups(ts, ds, b, n)
    ensures IsRust(ts, b)
    ensures n <= 1 ==> OneGroupAway(ts, ds, b)
    decreases n
  {
    if n > 0 {
      var g :| g in ds && g in ts && !IsRust(ts, g) && ThroughGroups(ts, ts[g].deps, b, n - 1);
      ThroughGroupsIsRust(ts, ts[g].deps, b, n - 1);
    }
  }

  lemma SameEdge(ts: Targets, p: Project, a: Name, b: Name)
    requires Numbered(p) && IsRust(ts, a) && IsRust(ts, b) && Strip(a) in p.lookup && Strip(b) in p.lookup
    ensures EdgeTo(ts, p.lookup, a) == EdgeTo(ts, p.lookup, b) <==> SameCrate(ts, a, b)
  {
    SameEntryIff(p, a, b);
  }

  // The dependencies of a crate are complete exactly when nesting hides nothing.
  lemma TransitivelyCompleteIff(ts: Targets, p: Project, ds: seq<Name>)
    requires Numbered(p) && Indexed(ts, p.lookup, ds) && forall t | IsRust(ts, t) :: Strip(t) in p.lookup
    ensures TransitivelyComplete(ts, p.lookup, ds) <==> NestingHidesNothing(ts, ds)
  {
    forall b, n: nat | ThroughGroups(ts, ds, b, n)
      ensures IsRust(ts, b) && (n <= 1 ==> OneGroupAway(ts, ds, b))
      ensures EdgeTo(ts, p.lookup, b) in CrateEdges(ts, p.lookup, ds) <==>
        exists b' :: OneGroupAway(ts, ds, b') && SameCrate(ts, b', b)
    {
      ThroughGroupsIsRust(ts, ds, b, n);
      EdgeIffSameCrate(ts, p, ds, b);
    }
    if NestingHidesNothing(ts, ds) {
      forall b, n: nat | ThroughGroups(ts, ds, b, n)
        ensures exists b' :: OneGroupAway(ts, ds, b') && SameCrate(ts, b', b)
      {
        if n <= 1 {
          assert OneGroupAway(ts, ds, b) && SameCrate(ts, b, b);
        }
      }
    }
  }

  lemma EdgeIffSameCrate(ts: Targets, p: Project, ds: seq<Name>, b: Name)
    requires Numbered(p) && Indexed(ts, p.lookup, ds) && (forall t | IsRust(ts, t) :: Strip(t) in p.lookup)
    requires IsRust(ts, b)
    ensures EdgeTo(ts, p.lookup, b) in CrateEdges(ts, p.lookup, ds) <==>
      exists b' :: OneGroupAway(ts, ds, b') && SameCrate(ts, b', b)
  {
    CrateEdgesIff(ts, p.lookup, ds, EdgeTo(ts, p.lookup, b));
    forall a | OneGroupAway(ts, ds, a)
      ensures EdgeTo(ts, p.lookup, a) == EdgeTo(ts, p.lookup, b) <==> SameCrate(ts, a, b)
    {
      SameEdge(ts, p, a, b);
    }
  }
}
