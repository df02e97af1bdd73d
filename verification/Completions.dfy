/**
 Completing GN labels: labels are cut into segments, the segments form a tree, and the
 completions are the first real choice in it.
 */
module Completions {
  import opened Basics

  // ---------- cutting a label ----------

  // str.find: the first occurrence at or after `from`.
  function Find(s: string, c: char, from: nat): (i: Option<nat>)
    ensures i.Some? ==> from <= i.value < |s| && s[i.value] == c && c !in s[from..i.value]
    ensures i.None? ==> from >= |s| || c !in s[from..]
    decreases |s| - from
  {
    if from >= |s| then None
    else if s[from] == c then Some(from)
    else
      var i := Find(s, c, from + 1);
      assert i.Some? ==> s[from..i.value] == [s[from]] + s[from + 1..i.value];
      assert s[from..] == [s[from]] + s[from + 1..];
      i
  }

  // str.rindex: the last occurrence, None for the exception.
  function RIndex(s: string, c: char): (i: Option<nat>)
    ensures i.Some? ==> i.value < |s| && s[i.value] == c && c !in s[i.value + 1..]
    ensures i.None? <==> c !in s
  {
    if s == "" then None
    else if s[|s| - 1] == c then Some(|s| - 1)
    else
      var i := RIndex(s[..|s| - 1], c);
      assert s == s[..|s| - 1] + [s[|s| - 1]];
      assert i.Some? ==> s[i.value + 1..] == s[..|s| - 1][i.value + 1..] + [s[|s| - 1]];
      i
  }

  function Join(segments: seq<string>): string {
    if segments == [] then "" else segments[0] + Join(segments[1..])
  }

  lemma {:induction false} JoinConcat(a: seq<string>, b: seq<string>)
    ensures Join(a + b) == Join(a) + Join(b)
  {
    if a == [] {
      assert a + b == b;
    } else {
      assert (a + b)[1..] == a[1..] + b;
      JoinConcat(a[1..], b);
    }
  }

  // A piece of a directory path: its slash, if any, comes first.
  predicate IsPiece(s: string) {
    s != "" && '/' !in s[1..]
  }

  // The cut of a path: every piece but the first begins with a slash.
  predicate IsCut(segments: seq<string>, path: string) {
    && Join(segments) == path
    && (forall i | 0 <= i < |segments| :: IsPiece(segments[i]))
    && (forall i | 0 < i < |segments| :: segments[i][0] == '/')
  }

  // There is only one way to cut a path.
  lemma {:induction false} CutIsUnique(a: seq<string>, b: seq<string>, path: string)
    requires IsCut(a, path) && IsCut(b, path)
    ensures a == b
  {
    if a != [] && b != [] {
      FirstPiece(a, path);
      FirstPiece(b, path);
      assert path[1..][|a[0]| - 1..] == path[|a[0]|..] && path[1..][|b[0]| - 1..] == path[|b[0]|..];
      assert |a[0]| == |b[0]|;
      CutIsUnique(a[1..], b[1..], path[|a[0]|..]);
      assert a == [a[0]] + a[1..] && b == [b[0]] + b[1..];
    }
  }

  lemma FirstPiece(a: seq<string>, path: string)
    requires a != [] && IsCut(a, path)
    ensures 0 < |a[0]| <= |path| && a[0] == path[..|a[0]|] && '/' !in path[1..|a[0]|]
    ensures IsCut(a[1..], path[|a[0]|..])
    ensures |a| > 1 ==> |a[0]| < |path| && path[|a[0]|] == '/'
    ensures |a| == 1 ==> |a[0]| == |path|
  {
  }

  function SplitPath(path: string): seq<string>
    decreases |path|
  {
    var idx := Find(path, '/', 1);
    if idx.Some? then [path[..idx.value]] + SplitPath(path[idx.value..])
    else if path != "" then [path]
    else []
  }

  lemma {:induction false} SplitPathCuts(path: string)
    ensures IsCut(SplitPath(path), path)
    decreases |path|
  {
    var idx := Find(path, '/', 1);
    if idx.Some? {
      var rest := SplitPath(path[idx.value..]);
      SplitPathCuts(path[idx.value..]);
      assert path[..idx.value][1..] == path[1..idx.value];
      assert rest != [] && rest[0][0] == Join(rest)[0];
      assert ([path[..idx.value]] + rest)[1..] == rest;
    } else if path != "" {
      assert [path][1..] == [];
    }
  }

  predicate HasToolchain(s: string) {
    s != "" && s[|s| - 1] == ')'
  }

  // Where the toolchain begins; None when it is closed but never opened.
  function ToolchainStart(s: string): (cut: Option<nat>)
    ensures cut.None? <==> HasToolchain(s) && '(' !in s
    ensures cut.Some? ==> cut.value <= |s|
    ensures cut.Some? && !HasToolchain(s) ==> cut.value == |s|
    ensures cut.Some? && HasToolchain(s) ==> cut.value < |s| && s[cut.value] == '(' && '(' !in s[cut.value + 1..]
  {
    if HasToolchain(s) then RIndex(s, '(') else Some(|s|)
  }

  // Where the target begins.
  function LeafStart(body: string): (cut: nat)
    ensures cut <= |body| && ':' !in body[..cut] && (cut < |body| ==> body[cut] == ':')
  {
    var colon := Find(body, ':', 0);
    if colon.Some? then
      assert body[0..colon.value] == body[..colon.value];
      colon.value
    else
      assert body[0..] == body[..|body|];
      |body|
  }

  function Optional(s: string): seq<string> {
    if s == "" then [] else [s]
  }

  // The toolchain stays with the segment before it.
  function WithToolchain(segments: seq<string>, toolchain: string): seq<string> {
    if toolchain == "" then segments
    else if segments == [] then [toolchain]
    else segments[..|segments| - 1] + [segments[|segments| - 1] + toolchain]
  }

  // The segments of a label without toolchain: the root, the directories and the target.
  function BodySegments(body: string): seq<string> {
    var stem, leaf := body[..LeafStart(body)], body[LeafStart(body)..];
    if "//" <= stem then ["//"] + SplitPath(stem[2..]) + Optional(leaf)
    else SplitPath(stem) + Optional(leaf)
  }

  function Split(s: string): Option<seq<string>> {
    var cut := ToolchainStart(s);
    if s == "" then Some([""])
    else if cut.None? then None
    else Some(WithToolchain(BodySegments(s[..cut.value]), s[cut.value..]))
  }

  lemma JoinOne(s: string)
    ensures Join([s]) == s
  {
  }

  lemma JoinLast(init: seq<string>, last: string, more: string)
    ensures Join(init + [last + more]) == Join(init + [last]) + more
  {
    JoinConcat(init, [last]);
    JoinConcat(init, [last + more]);
    JoinOne(last);
    JoinOne(last + more);
    assert Join(init) + (last + more) == (Join(init) + last) + more;
  }

  lemma JoinWithToolchain(segments: seq<string>, toolchain: string)
    ensures Join(WithToolchain(segments, toolchain)) == Join(segments) + toolchain
  {
    if toolchain != "" {
      if segments == [] {
        JoinOne(toolchain);
      } else {
        var init, last := segments[..|segments| - 1], segments[|segments| - 1];
        assert segments == init + [last];
        JoinLast(init, last, toolchain);
      }
    }
  }

  lemma JoinOptional(s: string)
    ensures Join(Optional(s)) == s
  {
  }

  lemma JoinBody(body: string)
    ensures Join(BodySegments(body)) == body
  {
    var stem, leaf := body[..LeafStart(body)], body[LeafStart(body)..];
    assert stem + leaf == body;
    JoinOptional(leaf);
    if "//" <= stem {
      SplitPathCuts(stem[2..]);
      JoinOne("//");
      JoinConcat(["//"] + SplitPath(stem[2..]), Optional(leaf));
      JoinConcat(["//"], SplitPath(stem[2..]));
      assert "//" + stem[2..] == stem;
    } else {
      SplitPathCuts(stem);
      JoinConcat(SplitPath(stem), Optional(leaf));
    }
  }

  lemma PartsJoin(body: string, toolchain: string)
    ensures Join(WithToolchain(BodySegments(body), toolchain)) == body + toolchain
  {
    JoinWithToolchain(BodySegments(body), toolchain);
    JoinBody(body);
  }

  lemma CutJoins(s: string, cut: nat)
    requires cut <= |s| && s != ""
    ensures var segments := WithToolchain(BodySegments(s[..cut]), s[cut..]);
      segments != [] && Join(segments) == s
  {
    var body, toolchain := s[..cut], s[cut..];
    PartsJoin(body, toolchain);
    Recombines(s, cut);
  }

  lemma Recombines(s: string, cut: nat)
    requires cut <= |s|
    ensures s[..cut] + s[cut..] == s
  {
  }

  // Joining the segments of a label gives the label back, and there is always at least one;
  // only a toolchain that is closed but never opened has none.
  lemma SplitJoins(s: string)
    ensures Split(s).None? <==> HasToolchain(s) && '(' !in s
    ensures Split(s).Some? ==> Split(s).value != [] && Join(Split(s).value) == s
  {
    if s == "" {
      JoinOne("");
    } else if ToolchainStart(s).Some? {
      CutJoins(s, ToolchainStart(s).value);
    }
  }

  // ---------- how a label is read ----------

  // The parts of a label: the root, the directories, the target and the toolchain.
  datatype Parts = Parts(root: string, dirs: seq<string>, leaf: string, toolchain: string)

  // `p` are the parts of `s`: the toolchain begins at the last parenthesis of a label that ends in one,
  // the target at the first colon before it, and a directory at every slash after a leading "//".
  predicate Reads(s: string, p: Parts) {
    var stem := p.root + Join(p.dirs);
    && s == stem + p.leaf + p.toolchain
    && (if s != "" && s[|s| - 1] == ')'
        then p.toolchain != "" && p.toolchain[0] == '(' && '(' !in p.toolchain[1..]
        else p.toolchain == "")
    && ':' !in stem && (p.leaf != "" ==> p.leaf[0] == ':')
    && (if "//" <= stem then p.root == "//" else p.root == "")
    && IsCut(p.dirs, Join(p.dirs))
  }

  function Listing(p: Parts): seq<string> {
    (if p.root == "" then [] else [p.root]) + p.dirs + (if p.leaf == "" then [] else [p.leaf])
  }

  // One segment for each part, but the toolchain stays with the part before it.
  function Segments(p: Parts): seq<string> {
    var parts := Listing(p);
    if p.toolchain == "" then parts
    else if parts == [] then [p.toolchain]
    else parts[..|parts| - 1] + [parts[|parts| - 1] + p.toolchain]
  }

  function PartsOf(s: string, cut: nat): Parts
    requires cut <= |s|
  {
    var body := s[..cut];
    var stem, leaf := body[..LeafStart(body)], body[LeafStart(body)..];
    if "//" <= stem then Parts("//", SplitPath(stem[2..]), leaf, s[cut..])
    else Parts("", SplitPath(stem), leaf, s[cut..])
  }

  lemma StemIs(body: string)
    ensures var stem := body[..LeafStart(body)];
      if "//" <= stem then "//" + Join(SplitPath(stem[2..])) == stem && IsCut(SplitPath(stem[2..]), stem[2..])
      else "" + Join(SplitPath(stem)) == stem && IsCut(SplitPath(stem), stem)
  {
    var stem := body[..LeafStart(body)];
    if "//" <= stem {
      SplitPathCuts(stem[2..]);
    } else {
      SplitPathCuts(stem);
    }
  }

  lemma ToolchainIs(s: string, cut: nat)
    requires s != "" && ToolchainStart(s) == Some(cut)
    ensures if s[|s| - 1] == ')' then s[cut..] != "" && s[cut..][0] == '(' && '(' !in s[cut..][1..] else s[cut..] == ""
  {
    if s[|s| - 1] == ')' {
      assert s[cut..][1..] == s[cut + 1..];
    }
  }

  // The segments of a label are those of its parts.
  lemma SplitReads(s: string)
    requires s != "" && Split(s).Some?
    ensures var p := PartsOf(s, ToolchainStart(s).value); Reads(s, p) && Split(s).value == Segments(p)
  {
    PartsAreRead(s, ToolchainStart(s).value);
    PartsAreSegments(s, ToolchainStart(s).value);
  }

  lemma PartsAreSegments(s: string, cut: nat)
    requires cut <= |s|
    ensures WithToolchain(BodySegments(s[..cut]), s[cut..]) == Segments(PartsOf(s, cut))
  {
    BodyIsListed(s, cut);
  }

  lemma BodyIsListed(s: string, cut: nat)
    requires cut <= |s|
    ensures BodySegments(s[..cut]) == Listing(PartsOf(s, cut))
  {
    var body := s[..cut];
    var stem := body[..LeafStart(body)];
    assert [] + SplitPath(stem) == SplitPath(stem);
  }

  lemma PartsAreRead(s: string, cut: nat)
    requires s != "" && ToolchainStart(s) == Some(cut)
    ensures Reads(s, PartsOf(s, cut))
  {
    var leaf := LeafStart(s[..cut]);
    ToolchainIs(s, cut);
    StemOfParts(s, cut);
    assert s[..cut][..leaf] == s[..leaf];
    ReadsFrom(s, PartsOf(s, cut), leaf, cut);
  }

  lemma ReadsFrom(s: string, p: Parts, leaf: nat, cut: nat)
    requires s != "" && leaf <= cut <= |s| && ':' !in s[..leaf] && (leaf < cut ==> s[leaf] == ':')
    requires p.root + Join(p.dirs) == s[..leaf] && p.leaf == s[leaf..cut] && p.toolchain == s[cut..]
    requires IsCut(p.dirs, Join(p.dirs)) && p.root == (if "//" <= s[..leaf] then "//" else "")
    requires if s[|s| - 1] == ')' then s[cut..] != "" && s[cut..][0] == '(' && '(' !in s[cut..][1..] else s[cut..] == ""
    ensures Reads(s, p)
  {
    assert s == s[..leaf] + s[leaf..cut] + s[cut..];
  }

  lemma StemOfParts(s: string, cut: nat)
    requires cut <= |s|
    ensures var p, leaf := PartsOf(s, cut), LeafStart(s[..cut]);
      && p.root + Join(p.dirs) == s[..leaf] && p.leaf == s[leaf..cut] && p.toolchain == s[cut..]
      && IsCut(p.dirs, Join(p.dirs)) && p.root == (if "//" <= s[..leaf] then "//" else "")
  {
    var leaf := LeafStart(s[..cut]);
    assert s[..cut][..leaf] == s[..leaf] && s[..cut][leaf..] == s[leaf..cut];
    StemIs(s[..cut]);
  }

  // And a label has only one set of parts.
  lemma ReadsIsUnique(s: string, p: Parts, q: Parts)
    requires Reads(s, p) && Reads(s, q)
    ensures p == q
  {
    SameToolchain(s, p, q);
    var n := |s| - |p.toolchain|;
    assert s[..n] == p.root + Join(p.dirs) + p.leaf && s[..n] == q.root + Join(q.dirs) + q.leaf;
    SameStem(p.root + Join(p.dirs), p.leaf, q.root + Join(q.dirs), q.leaf);
    assert Join(p.dirs) == (p.root + Join(p.dirs))[|p.root|..];
    assert Join(q.dirs) == (q.root + Join(q.dirs))[|q.root|..];
    CutIsUnique(p.dirs, q.dirs, Join(p.dirs));
  }

  lemma SameToolchain(s: string, p: Parts, q: Parts)
    requires Reads(s, p) && Reads(s, q)
    ensures p.toolchain == q.toolchain
  {
    if s != "" && s[|s| - 1] == ')' {
      var a := ToolchainAt(s, p);
      var b := ToolchainAt(s, q);
      LastIsUnique(s, a, b);
    }
  }

  lemma ToolchainAt(s: string, p: Parts) returns (a: nat)
    requires Reads(s, p) && s != "" && s[|s| - 1] == ')'
    ensures a < |s| && s[a] == '(' && '(' !in s[a + 1..] && p.toolchain == s[a..]
  {
    var stem := p.root + Join(p.dirs) + p.leaf;
    a := |stem|;
    TailOf(stem, p.toolchain);
  }

  lemma TailOf(stem: string, tail: string)
    requires tail != ""
    ensures var s := stem + tail; s[|stem|] == tail[0] && s[|stem|..] == tail && s[|stem| + 1..] == tail[1..]
  {
  }

  lemma LastIsUnique(s: string, a: nat, b: nat)
    requires a < |s| && s[a] == '(' && '(' !in s[a + 1..]
    requires b < |s| && s[b] == '(' && '(' !in s[b + 1..]
    ensures a == b
  {
    assert forall i | a < i < |s| :: s[i] == s[a + 1..][i - a - 1];
    assert forall i | b < i < |s| :: s[i] == s[b + 1..][i - b - 1];
  }

  lemma SameStem(a: string, la: string, b: string, lb: string)
    requires a + la == b + lb && ':' !in a && ':' !in b
    requires (la != "" ==> la[0] == ':') && (lb != "" ==> lb[0] == ':')
    ensures a == b && la == lb
  {
    var s := a + la;
    assert forall i | 0 <= i < |a| :: s[i] == a[i];
    assert forall i | 0 <= i < |b| :: s[i] == b[i];
    assert (la != "" ==> s[|a|] == ':') && (lb != "" ==> s[|b|] == ':');
    assert a == s[..|a|] && b == s[..|b|];
    assert la == s[|a|..] && lb == s[|b|..];
  }

  // The loop of split_label.
  method SplitPathLoop(path: string) returns (segments: seq<string>)
    ensures segments == SplitPath(path)
  {
    segments := [];
    var rest := path;
    while true
      invariant segments + SplitPath(rest) == SplitPath(path)
      decreases |rest|
    {
      var idx := Find(rest, '/', 1);
      if idx.Some? {
        assert segments + SplitPath(rest) == segments + [rest[..idx.value]] + SplitPath(rest[idx.value..]);
        segments := segments + [rest[..idx.value]];
        rest := rest[idx.value..];
      } else {
        if rest != "" {
          segments := segments + [rest];
        } else {
          assert segments + [] == segments;
        }
        break;
      }
    }
  }

  // The part of split_label between cutting off the toolchain and putting it back.
  method SplitBody(body: string) returns (segments: seq<string>)
    ensures segments == BodySegments(body)
  {
    var rest, leaf := body, "";
    var leafIdx := Find(rest, ':', 0);
    if leafIdx.Some? {
      leaf := rest[leafIdx.value..];
      rest := rest[..leafIdx.value];
    }
    assert rest == body[..LeafStart(body)] && leaf == body[LeafStart(body)..];
    segments := [];
    if "//" <= rest {
      segments := ["//"];
      rest := rest[2..];
    }
    var pieces := SplitPathLoop(rest);
    segments := segments + pieces;
    if leaf != "" {
      segments := segments + [leaf];
    }
  }

  // split_label; None for the exception.
  method SplitLabel(s: string) returns (r: Option<seq<string>>)
    ensures r == Split(s)
  {
    if s == "" {
      return Some([""]);
    }
    var rest, toolchain := s, "";
    if rest[|rest| - 1] == ')' {
      var toolchainIdx := RIndex(rest, '(');
      if toolchainIdx.None? {
        return None;
      }
      toolchain := rest[toolchainIdx.value..];
      rest := rest[..toolchainIdx.value];
    }
    assert rest == s[..ToolchainStart(s).value] && toolchain == s[ToolchainStart(s).value..];
    var segments := SplitBody(rest);
    if toolchain != "" {
      if segments != [] {
        segments := segments[..|segments| - 1] + [segments[|segments| - 1] + toolchain];
      } else {
        segments := [toolchain];
      }
    }
    r := Some(segments);
  }

  // ---------- the tree of segments ----------

  type Path = seq<string>

  datatype Node = Node(kids: map<string, Node>)

  const LEAF := Node(map[])

  function Plant(n: Node, path: Path): Node
    decreases |path|
  {
    if path == [] then n
    else
      var kid := if path[0] in n.kids then n.kids[path[0]] else LEAF;
      Node(n.kids[path[0] := Plant(kid, path[1..])])
  }

  predicate HasPath(n: Node, path: Path)
    decreases |path|
  {
    path != [] ==> path[0] in n.kids && HasPath(n.kids[path[0]], path[1..])
  }

  lemma {:induction false} PlantAdds(n: Node, path: Path, q: Path)
    ensures HasPath(Plant(n, path), q) <==> HasPath(n, q) || q <= path
    decreases |path|
  {
    if path != [] && q != [] && q[0] == path[0] {
      var kid := if path[0] in n.kids then n.kids[path[0]] else LEAF;
      PlantAdds(kid, path[1..], q[1..]);
      assert q <= path <==> q[1..] <= path[1..];
      assert HasPath(LEAF, q[1..]) <==> q[1..] == [];
    }
  }

  // The tree holds the planted paths and what leads to them.
  ghost predicate Holds(n: Node, paths: set<Path>) {
    forall q :: HasPath(n, q) <==> q == [] || exists p :: p in paths && q <= p
  }

  lemma PlantHolds(n: Node, paths: set<Path>, path: Path)
    requires Holds(n, paths)
    ensures Holds(Plant(n, path), paths + {path})
  {
    forall q
      ensures HasPath(Plant(n, path), q) <==> q == [] || exists p :: p in paths + {path} && q <= p
    {
      PlantAdds(n, path, q);
      if HasPath(Plant(n, path), q) && q != [] && q <= path {
        assert path in paths + {path};
      }
    }
  }

  // ---------- completions ----------

  // Some inserted path goes on from `stem` with `s`.
  ghost predicate Continues(paths: set<Path>, stem: Path, s: string) {
    exists p :: p in paths && stem + [s] <= p
  }

  // There is no choice up to `stem`: every path lies on it or goes through it.
  ghost predicate NoChoiceBefore(paths: set<Path>, stem: Path) {
    forall p | p in paths :: p <= stem || stem <= p
  }

  // The list made of the ways to go on, or of the stem alone when there are none.
  ghost predicate ListsWays(prefix: string, stem: Path, ways: set<string>, r: seq<string>) {
    && |r| == (if ways == {} then 1 else |ways|)
    && (forall s | s in ways :: prefix + Join(stem + [s]) in r)
    && (forall c | c in r ::
          || (exists s :: s in ways && c == prefix + Join(stem + [s]))
          || (c == prefix + Join(stem) && ways == {}))
  }

  // `r` are the completions: `stem` is where the first choice is, or where the only label ends,
  // and `ways` what there is to choose from.
  ghost predicate Completes(prefix: string, paths: set<Path>, stem: Path, ways: set<string>, r: seq<string>) {
    && NoChoiceBefore(paths, stem) && |ways| != 1
    && (exists p :: p in paths && stem <= p)
    && (forall s :: s in ways <==> Continues(paths, stem, s))
    && ListsWays(prefix, stem, ways, r)
  }

  lemma PrefixOfJoin(a: Path, b: Path)
    requires a <= b
    ensures Join(a) <= Join(b)
  {
  }

  lemma PrefixOfLabel(prefix: string, a: string, b: string)
    requires a <= b
    ensures prefix + a <= prefix + b
  {
  }

  // Every completion is the beginning of some inserted label.
  lemma CompletionsAreSound(prefix: string, paths: set<Path>, stem: Path, ways: set<string>, r: seq<string>, c: string)
    requires Completes(prefix, paths, stem, ways, r) && c in r
    ensures exists p :: p in paths && c <= prefix + Join(p)
  {
    if s :| s in ways && c == prefix + Join(stem + [s]) {
      var p :| p in paths && stem + [s] <= p;
      PrefixOfJoin(stem + [s], p);
      PrefixOfLabel(prefix, Join(stem + [s]), Join(p));
    } else {
      var p :| p in paths && stem <= p;
      PrefixOfJoin(stem, p);
      PrefixOfLabel(prefix, Join(stem), Join(p));
    }
  }

  // Every inserted label has a completion as its beginning, or is the beginning of them all.
  lemma CompletionsAreComplete(prefix: string, paths: set<Path>, stem: Path, ways: set<string>, r: seq<string>, p: Path)
    requires Completes(prefix, paths, stem, ways, r) && p in paths
    ensures (exists c :: c in r && c <= prefix + Join(p)) || (forall c | c in r :: prefix + Join(p) <= c)
  {
    if p <= stem {
      forall c | c in r
        ensures prefix + Join(p) <= c
      {
        PrefixOfJoin(p, stem);
        PrefixOfLabel(prefix, Join(p), Join(stem));
        if s :| s in ways && c == prefix + Join(stem + [s]) {
          PrefixOfJoin(p, stem + [s]);
          PrefixOfLabel(prefix, Join(p), Join(stem + [s]));
        }
      }
    } else {
      var s := p[|stem|];
      assert stem + [s] <= p;
      assert Continues(paths, stem, s);
      PrefixOfJoin(stem + [s], p);
      PrefixOfLabel(prefix, Join(stem + [s]), Join(p));
    }
  }

  function At(n: Node, q: Path): Node
    requires HasPath(n, q)
    decreases |q|
  {
    if q == [] then n else At(n.kids[q[0]], q[1..])
  }

  lemma {:induction false} AtSnoc(n: Node, q: Path, s: string)
    requires HasPath(n, q)
    ensures s in At(n, q).kids <==> HasPath(n, q + [s])
    ensures s in At(n, q).kids ==> At(n, q + [s]) == At(n, q).kids[s]
    decreases |q|
  {
    if q == [] {
      assert q + [s] == [s] && [s][1..] == [];
    } else {
      assert (q + [s])[1..] == q[1..] + [s];
      AtSnoc(n.kids[q[0]], q[1..], s);
    }
  }

  // The children of a node are the ways to go on from there.
  lemma KidsContinue(n: Node, paths: set<Path>, stem: Path, s: string)
    requires Holds(n, paths) && HasPath(n, stem)
    ensures s in At(n, stem).kids <==> Continues(paths, stem, s)
  {
    AtSnoc(n, stem, s);
    assert stem + [s] != [];
  }

  lemma OnlyOne(keys: set<string>, s: string, s': string)
    requires |keys| == 1 && s in keys && s' in keys
    ensures s == s'
  {
    assert |keys - {s}| == 0;
  }

  // Going down an only child leaves no path aside.
  lemma DescendOnly(n: Node, paths: set<Path>, stem: Path, s: string)
    requires Holds(n, paths) && HasPath(n, stem) && NoChoiceBefore(paths, stem)
    requires |At(n, stem).kids| == 1 && s in At(n, stem).kids
    ensures NoChoiceBefore(paths, stem + [s])
  {
    forall p | p in paths
      ensures p <= stem + [s] || stem + [s] <= p
    {
      if !(p <= stem) {
        assert stem + [p[|stem|]] <= p;
        KidsContinue(n, paths, stem, p[|stem|]);
        OnlyOne(At(n, stem).kids.Keys, s, p[|stem|]);
      }
    }
  }

  lemma SomePathThrough(n: Node, paths: set<Path>, stem: Path)
    requires Holds(n, paths) && paths != {} && HasPath(n, stem)
    ensures exists p :: p in paths && stem <= p
  {
  }

  lemma ListCompletes(n: Node, prefix: string, paths: set<Path>, stem: Path, r: seq<string>)
    requires Holds(n, paths) && paths != {} && HasPath(n, stem) && NoChoiceBefore(paths, stem)
    requires |At(n, stem).kids| != 1 && ListsWays(prefix, stem, At(n, stem).kids.Keys, r)
    ensures Completes(prefix, paths, stem, At(n, stem).kids.Keys, r)
  {
    SomePathThrough(n, paths, stem);
    var ways := At(n, stem).kids.Keys;
    forall s
      ensures s in ways <==> Continues(paths, stem, s)
    {
      KidsContinue(n, paths, stem, s);
    }
  }

  // ---------- the program ----------

  class Completer {
    const prefix: string
    var children: Node
    ghost var paths: set<Path>

    ghost predicate Valid()
      reads this
    {
      Holds(children, paths) && [] !in paths
    }

    constructor (prefix: string)
      ensures this.prefix == prefix && Valid() && paths == {}
    {
      this.prefix, children, paths := prefix, LEAF, {};
    }

    // insert_label: `false` for either exception.
    method InsertLabel(name: string) returns (ok: bool)
      requires Valid()
      modifies this
      ensures Valid()
      ensures ok <==> prefix <= name && Split(name[|prefix|..]).Some?
      ensures ok ==> paths == old(paths) + {Split(name[|prefix|..]).value}
      ensures ok ==> prefix + Join(Split(name[|prefix|..]).value) == name
      ensures !ok ==> paths == old(paths) && children == old(children)
    {
      if !(prefix <= name) {
        return false;
      }
      SplitJoins(name[|prefix|..]);
      var segments := SplitLabel(name[|prefix|..]);
      if segments.None? {
        return false;
      }
      PlantHolds(children, paths, segments.value);
      children := Plant(children, segments.value);
      paths := paths + {segments.value};
      ok := true;
    }

    // The descent to the first choice.
    method Descend() returns (node: Node, name: string, ghost stem: Path)
      requires Valid()
      ensures HasPath(children, stem) && node == At(children, stem) && name == Join(stem)
      ensures NoChoiceBefore(paths, stem) && |node.kids| != 1
    {
      node, name, stem := children, "", [];
      while |node.kids| == 1
        invariant HasPath(children, stem) && node == At(children, stem) && name == Join(stem)
        invariant NoChoiceBefore(paths, stem)
        decreases node
      {
        var segment := OnlyKey(node.kids);
        AtSnoc(children, stem, segment);
        DescendOnly(children, paths, stem, segment);
        JoinConcat(stem, [segment]);
        JoinOne(segment);
        name, node, stem := name + segment, node.kids[segment], stem + [segment];
      }
    }

    static method OnlyKey(kids: map<string, Node>) returns (segment: string)
      requires |kids| == 1
      ensures segment in kids
    {
      assert kids.Keys != {};
      segment :| segment in kids.Keys;
    }

    method ListCompletions() returns (r: seq<string>, ghost stem: Path, ghost ways: set<string>)
      requires Valid()
      ensures paths == {} ==> r == []
      ensures paths != {} ==> Completes(prefix, paths, stem, ways, r)
    {
      r, stem, ways := [], [], {};
      EmptyIff(children, paths);
      if children.kids == map[] {
        return;
      }
      var node, name;
      node, name, stem := Descend();
      ways := node.kids.Keys;
      r := Suggest(prefix, name, node.kids.Keys, stem);
      ListCompletes(children, prefix, paths, stem, r);
    }

    // The end of list_completions, with the segments in any order.
    static method Suggest(prefix: string, name: string, segments: set<string>, ghost stem: Path)
      returns (r: seq<string>)
      requires name == Join(stem)
      ensures ListsWays(prefix, stem, segments, r)
    {
      r := if segments == {} then [prefix + name] else [];
      var todo := segments;
      while todo != {}
        invariant todo <= segments
        invariant |r| == if segments == {} then 1 else |segments| - |todo|
        invariant forall s | s in segments && s !in todo :: prefix + Join(stem + [s]) in r
        invariant forall c | c in r ::
          || (exists s :: s in segments && c == prefix + Join(stem + [s]))
          || (c == prefix + Join(stem) && segments == {})
        decreases todo
      {
        var segment :| segment in todo;
        JoinConcat(stem, [segment]);
        JoinOne(segment);
        assert prefix + name + segment == prefix + Join(stem + [segment]);
        r := r + [prefix + name + segment];
        todo := todo - {segment};
      }
    }
  }

  lemma EmptyIff(n: Node, paths: set<Path>)
    requires Holds(n, paths) && [] !in paths
    ensures n.kids == map[] <==> paths == {}
  {
    if p :| p in paths {
      assert [p[0]] <= p;
      assert HasPath(n, [p[0]]);
    } else if s :| s in n.kids {
      assert [s][1..] == [];
      assert HasPath(n, [s]);
    }
  }
}
