/**
 The directory index of fd: a trie from base names to the directories that bear them.
 */
module Trie {
  import opened Basics

  // ---------- the tree as a value ----------

  datatype Tree = Node(name: string, vals: seq<string>, kids: map<char, Tree>)

  const EMPTY := Node("", [], map[])

  // __setitem__
  function Insert(t: Tree, name: string, val: string, idx: nat): Tree
    requires idx <= |name|
    decreases |name| - idx
  {
    if idx < |name| then
      var kid := if name[idx] in t.kids then t.kids[name[idx]] else EMPTY;
      t.(kids := t.kids[name[idx] := Insert(kid, name, val, idx + 1)])
    else
      t.(name := name, vals := t.vals + [val])
  }

  // __getitem__
  function Get(t: Tree, name: string, idx: nat): Option<seq<string>>
    requires idx <= |name|
    decreases |name| - idx
  {
    if t.name == name then Some(t.vals)
    else if idx == |name| || name[idx] !in t.kids then None
    else Get(t.kids[name[idx]], name, idx + 1)
  }

  // What is stored `rest` below `t`.
  function Stored(t: Tree, rest: string): seq<string> {
    if rest == "" then t.vals
    else if rest[0] in t.kids then Stored(t.kids[rest[0]], rest[1..])
    else []
  }

  // Every node that holds values knows the path to it; other nodes have no name.
  ghost predicate Named(t: Tree, path: string) {
    && (if t.vals == [] then t.name == "" else t.name == path)
    && forall c | c in t.kids :: Named(t.kids[c], path + [c])
  }

  lemma {:induction false} InsertStores(t: Tree, name: string, val: string, idx: nat, s: string)
    requires idx <= |name|
    ensures Stored(Insert(t, name, val, idx), s) == Stored(t, s) + if s == name[idx..] then [val] else []
    decreases |name| - idx
  {
    if idx < |name| && s != "" && s[0] == name[idx] {
      var kid := if name[idx] in t.kids then t.kids[name[idx]] else EMPTY;
      InsertStores(kid, name, val, idx + 1, s[1..]);
      assert name[idx..] == [name[idx]] + name[idx + 1..];
      assert s == [s[0]] + s[1..];
    }
  }

  lemma {:induction false} InsertKeepsNamed(t: Tree, name: string, val: string, idx: nat)
    requires idx <= |name| && Named(t, name[..idx])
    ensures Named(Insert(t, name, val, idx), name[..idx])
    decreases |name| - idx
  {
    if idx < |name| {
      var kid := if name[idx] in t.kids then t.kids[name[idx]] else EMPTY;
      assert name[..idx + 1] == name[..idx] + [name[idx]];
      InsertKeepsNamed(kid, name, val, idx + 1);
    } else {
      assert name[..idx] == name;
    }
  }

  lemma {:induction false} GetFinds(t: Tree, name: string, idx: nat)
    requires idx <= |name| && name != "" && Named(t, name[..idx])
    ensures Get(t, name, idx) == if Stored(t, name[idx..]) == [] then None else Some(Stored(t, name[idx..]))
    decreases |name| - idx
  {
    if idx < |name| && name[idx] in t.kids {
      assert name[..idx + 1] == name[..idx] + [name[idx]];
      assert name[idx..][1..] == name[idx + 1..];
      GetFinds(t.kids[name[idx]], name, idx + 1);
    } else if idx == |name| {
      assert name[..idx] == name;
    }
  }

  // ---------- any sequence of insertions ----------

  type Entry = (string, string)

  function Build(entries: seq<Entry>): Tree {
    if entries == [] then EMPTY
    else
      var e := entries[|entries| - 1];
      Insert(Build(entries[..|entries| - 1]), e.0, e.1, 0)
  }

  // The values filed under a name, in the order of insertion.
  function Values(entries: seq<Entry>, name: string): seq<string> {
    if entries == [] then []
    else
      var e := entries[|entries| - 1];
      Values(entries[..|entries| - 1], name) + if e.0 == name then [e.1] else []
  }

  lemma {:induction false} BuildStores(entries: seq<Entry>, name: string)
    ensures Named(Build(entries), "") && Stored(Build(entries), name) == Values(entries, name)
  {
    if entries != [] {
      var e := entries[|entries| - 1];
      BuildStores(entries[..|entries| - 1], name);
      InsertStores(Build(entries[..|entries| - 1]), e.0, e.1, 0, name);
      assert e.0[..0] == "" && e.0[0..] == e.0;
      InsertKeepsNamed(Build(entries[..|entries| - 1]), e.0, e.1, 0);
    }
  }

  // Looking up a name gives exactly its values in order, or nothing; only the empty name is
  // always found.
  lemma LookupIsExact(entries: seq<Entry>, name: string)
    ensures Get(Build(entries), name, 0) ==
      if name != "" && Values(entries, name) == [] then None else Some(Values(entries, name))
  {
    BuildStores(entries, name);
    if name != "" {
      assert name[..0] == "" && name[0..] == name;
      GetFinds(Build(entries), name, 0);
    }
  }

  // ---------- listing names ----------

  // `x` is a name stored in `t`, which is reached by `path`.
  ghost predicate IsBelow(t: Tree, path: string, x: string) {
    x != "" && path <= x && Stored(t, x[|path|..]) != []
  }

  ghost predicate NoDuplicates(r: seq<string>) {
    forall i, j | 0 <= i < j < |r| :: r[i] != r[j]
  }

  // `r` lists the names in `t`, each once.
  ghost predicate Lists(t: Tree, path: string, r: seq<string>) {
    NoDuplicates(r) && forall x :: x in r <==> IsBelow(t, path, x)
  }

  // The names in `t` are its own and those of its children.
  lemma BelowIff(t: Tree, path: string, x: string)
    ensures IsBelow(t, path, x) <==>
      || (x == path && path != "" && t.vals != [])
      || (|path| < |x| && path <= x && x[|path|] in t.kids && IsBelow(t.kids[x[|path|]], path + [x[|path|]], x))
  {
  }

  // Names with the prefix `key` are found by following it.
  lemma PrefixedBelow(t: Tree, key: string, idx: nat)
    requires idx < |key|
    ensures key[..idx + 1] == key[..idx] + [key[idx]]
    ensures forall x :: key <= x && IsBelow(t, key[..idx], x) <==>
      key <= x && key[idx] in t.kids && IsBelow(t.kids[key[idx]], key[..idx + 1], x)
  {
  }

  // Like Lists, without the names that go through the children in `todo`.
  ghost predicate ListsBut(t: Tree, path: string, r: seq<string>, todo: set<char>) {
    && NoDuplicates(r)
    && forall x :: x in r <==> IsBelow(t, path, x) && (|x| == |path| || x[|path|] !in todo)
  }

  lemma ListsOwnName(t: Tree, path: string)
    requires Named(t, path)
    ensures ListsBut(t, path, if t.name == "" then [] else [t.name], t.kids.Keys)
  {
    forall x
      ensures x in (if t.name == "" then [] else [t.name]) <==>
        IsBelow(t, path, x) && (|x| == |path| || x[|path|] !in t.kids.Keys)
    {
      BelowIff(t, path, x);
    }
  }

  lemma ListsKid(t: Tree, path: string, r: seq<string>, todo: set<char>, k: char, more: seq<string>)
    requires ListsBut(t, path, r, todo) && k in todo && k in t.kids && Lists(t.kids[k], path + [k], more)
    ensures ListsBut(t, path, r + more, todo - {k})
  {
    forall x
      ensures x in r + more <==> IsBelow(t, path, x) && (|x| == |path| || x[|path|] !in todo - {k})
      ensures !(x in r && x in more)
    {
      BelowIff(t, path, x);
      if x in more {
        assert path + [k] <= x && x[|path|] == k;
      }
    }
  }

  // ---------- the options for a key ----------

  // A linear scan of the directory list.
  function Matching(entries: seq<Entry>, key: string): seq<string> {
    if entries == [] then []
    else
      var e := entries[|entries| - 1];
      Matching(entries[..|entries| - 1], key) + if key <= e.0 then [e.1] else []
  }

  function Gather(entries: seq<Entry>, names: seq<string>): multiset<string> {
    if names == [] then multiset{}
    else Gather(entries, names[..|names| - 1]) + multiset(Values(entries, names[|names| - 1]))
  }

  lemma {:induction false} GatherSnoc(entries: seq<Entry>, e: Entry, names: seq<string>)
    requires NoDuplicates(names)
    ensures Gather(entries + [e], names) == Gather(entries, names) + if e.0 in names then multiset{e.1} else multiset{}
  {
    if names != [] {
      var init, last := names[..|names| - 1], names[|names| - 1];
      assert names == init + [last];
      GatherSnoc(entries, e, init);
      assert (entries + [e])[..|entries|] == entries;
      assert last !in init;
    }
  }

  lemma {:induction false} GatherNothing(names: seq<string>)
    ensures Gather([], names) == multiset{}
  {
    if names != [] {
      GatherNothing(names[..|names| - 1]);
    }
  }

  // Collecting the values of all names with a prefix is the same as scanning the list for it.
  lemma {:induction false} GatherIsScan(entries: seq<Entry>, names: seq<string>, key: string)
    requires NoDuplicates(names)
    requires forall i | 0 <= i < |entries| :: entries[i].0 in names <==> key <= entries[i].0
    ensures Gather(entries, names) == multiset(Matching(entries, key))
  {
    if entries == [] {
      GatherNothing(names);
    } else {
      var init, e := entries[..|entries| - 1], entries[|entries| - 1];
      assert entries == init + [e];
      GatherIsScan(init, names, key);
      GatherSnoc(init, e, names);
    }
  }

  lemma {:induction false} ListedIffEntered(entries: seq<Entry>, i: nat)
    requires i < |entries|
    ensures Values(entries, entries[i].0) != []
  {
    if i < |entries| - 1 {
      ListedIffEntered(entries[..|entries| - 1], i);
    }
  }

  // ---------- the program ----------

  // A node and the value it stands for.
  class TrieNode {
    var name: string
    var vals: seq<string>
    var kids: map<char, TrieNode>
    ghost var tree: Tree
    ghost var Repr: set<TrieNode>

    ghost predicate Valid()
      reads this, Repr
      decreases Repr
    {
      && this in Repr
      && tree.name == name && tree.vals == vals && tree.kids.Keys == kids.Keys
      && (forall c | c in kids ::
            && kids[c] in Repr && kids[c].Repr <= Repr && this !in kids[c].Repr && kids[c].Valid()
            && kids[c].tree == tree.kids[c])
      && (forall c, d | c in kids && d in kids && c != d :: kids[c].Repr !! kids[d].Repr)
    }

    constructor ()
      ensures Valid() && fresh(Repr) && tree == EMPTY
    {
      name, vals, kids, tree := "", [], map[], EMPTY;
      Repr := {this};
    }

    method SetItem(key: string, val: string, idx: nat)
      requires Valid() && idx <= |key|
      modifies Repr
      ensures Valid() && fresh(Repr - old(Repr))
      ensures tree == Insert(old(tree), key, val, idx)
      decreases |key| - idx
    {
      if idx < |key| {
        SetDefault(key[idx]);
        SetInKid(key, val, idx);
      } else {
        SetHere(key, val);
      }
    }

    method SetHere(key: string, val: string)
      requires Valid()
      modifies this
      ensures Valid() && Repr == old(Repr) && tree == old(tree).(name := key, vals := old(tree).vals + [val])
    {
      name := key;
      vals := vals + [val];
      tree := tree.(name := name, vals := vals);
    }

    // kids.setdefault(c, Trie())
    method SetDefault(c: char)
      requires Valid()
      modifies this
      ensures Valid() && fresh(Repr - old(Repr)) && c in kids
      ensures tree == if c in old(tree).kids then old(tree) else old(tree).(kids := old(tree).kids[c := EMPTY])
    {
      if c !in kids {
        var kid := new TrieNode();
        kids := kids[c := kid];
        tree := tree.(kids := tree.kids[c := EMPTY]);
        Repr := Repr + kid.Repr;
      }
    }

    // Valid, except that the child `c` has moved on.
    ghost predicate ValidBut(c: char)
      reads this, Repr, if c in kids then kids[c].Repr else {}, kids.Values
    {
      && this in Repr && c in kids
      && tree.name == name && tree.vals == vals && tree.kids.Keys == kids.Keys
      && (forall d | d in kids :: this !in kids[d].Repr && kids[d].Repr <= Repr + kids[c].Repr && kids[d].Valid())
      && (forall d | d in kids && d != c :: kids[d].tree == tree.kids[d])
      && (forall d, e | d in kids && e in kids && d != e :: kids[d].Repr !! kids[e].Repr)
    }

    method Refile(c: char)
      requires ValidBut(c)
      modifies this`tree, this`Repr
      ensures Valid() && Repr == old(Repr) + kids[c].Repr
      ensures tree == old(tree).(kids := old(tree).kids[c := kids[c].tree])
    {
      tree := tree.(kids := tree.kids[c := kids[c].tree]);
      Repr := Repr + kids[c].Repr;
    }

    method SetInKid(key: string, val: string, idx: nat)
      requires Valid() && idx < |key| && key[idx] in kids
      modifies Repr
      ensures Valid() && fresh(Repr - old(Repr))
      ensures var kids := old(tree).kids;
        tree == old(tree).(kids := kids[key[idx] := Insert(kids[key[idx]], key, val, idx + 1)])
      decreases |key| - idx, 0
    {
      kids[key[idx]].SetItem(key, val, idx + 1);
      Refile(key[idx]);
    }

    method GetItem(key: string, idx: nat) returns (r: Option<seq<string>>)
      requires Valid() && idx <= |key|
      ensures r == Get(tree, key, idx)
      decreases |key| - idx
    {
      if name == key {
        return Some(vals);
      }
      if idx == |key| || key[idx] !in kids {
        return None;
      }
      r := kids[key[idx]].GetItem(key, idx + 1);
    }

    method Walk(ghost path: string) returns (descendants: seq<string>)
      requires Valid() && Named(tree, path)
      ensures Lists(tree, path, descendants)
      decreases Repr
    {
      descendants := [];
      if name != "" {
        descendants := [name];
      }
      ListsOwnName(tree, path);
      var todo := kids.Keys;
      while todo != {}
        invariant todo <= kids.Keys && ListsBut(tree, path, descendants, todo)
        decreases todo
      {
        var k :| k in todo;
        var more := kids[k].Walk(path + [k]);
        ListsKid(tree, path, descendants, todo, k, more);
        descendants := descendants + more;
        todo := todo - {k};
      }
    }

    method Prefixed(key: string, idx: nat) returns (r: seq<string>)
      requires Valid() && idx <= |key| && Named(tree, key[..idx])
      ensures NoDuplicates(r) && forall x :: x in r <==> key <= x && IsBelow(tree, key[..idx], x)
      decreases |key| - idx
    {
      if idx < |key| {
        PrefixedBelow(tree, key, idx);
        if key[idx] in kids {
          r := kids[key[idx]].Prefixed(key, idx + 1);
        } else {
          r := [];
        }
      } else {
        assert key[..idx] == key;
        r := Walk(key);
      }
    }

    // The first half of choose_options, before sorting.
    method Options(key: string, ghost entries: seq<Entry>) returns (options: seq<string>)
      requires Valid() && tree == Build(entries)
      ensures key == "" || Values(entries, key) != [] ==> options == Values(entries, key)
      ensures key != "" && Values(entries, key) == [] ==> multiset(options) == multiset(Matching(entries, key))
    {
      LookupIsExact(entries, key);
      var exact := GetItem(key, 0);
      if exact.Some? {
        return exact.value;
      }
      BuildStores(entries, key);
      assert key[..0] == "";
      var names := Prefixed(key, 0);
      options := Collect(names, entries);
      AllMatchesListed(entries, names, key);
      GatherIsScan(entries, names, key);
    }

    // The loop over the names found.
    method Collect(names: seq<string>, ghost entries: seq<Entry>) returns (options: seq<string>)
      requires Valid() && tree == Build(entries) && forall x | x in names :: IsBelow(tree, "", x)
      ensures multiset(options) == Gather(entries, names)
    {
      options := [];
      for i := 0 to |names|
        invariant multiset(options) == Gather(entries, names[..i])
      {
        BuildStores(entries, names[i]);
        LookupIsExact(entries, names[i]);
        assert names[i] in names && names[i][0..] == names[i];
        var vs := GetItem(names[i], 0);
        options := options + vs.value;
        assert names[..i + 1][..i] == names[..i];
      }
      assert names[..|names|] == names;
    }
  }

  lemma AllMatchesListed(entries: seq<Entry>, names: seq<string>, key: string)
    requires key != "" && forall x :: x in names <==> key <= x && IsBelow(Build(entries), "", x)
    ensures forall i | 0 <= i < |entries| :: entries[i].0 in names <==> key <= entries[i].0
  {
    forall i | 0 <= i < |entries|
      ensures entries[i].0 in names <==> key <= entries[i].0
    {
      var x := entries[i].0;
      ListedIffEntered(entries, i);
      BuildStores(entries, x);
      assert x[0..] == x;
    }
  }
}
