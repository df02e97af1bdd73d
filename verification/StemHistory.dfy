/**
 The cache behind sync-from-stem: which fuchsia revision belongs to which integration commit.

 Git is an oracle over two linear histories. A commit of either is named by its position,
 oldest first, so a revision range is an interval; lists of commits are newest first, as git
 prints them.
 */
module StemHistory {
  import opened Basics

  // An integration commit: does `git log -- stem` list it, and which fuchsia revision does its
  // manifest name?
  datatype Commit = Commit(touchesStem: bool, stemRev: nat)

  // `git log older..newer -- stem`; nothing when newer is not ahead of older.
  function StemLog(h: seq<Commit>, older: int, newer: int): (s: seq<nat>)
    requires -1 <= older < |h| && -1 <= newer < |h|
    ensures forall i | 0 <= i < |s| :: older < s[i] <= newer && h[s[i]].touchesStem
    decreases newer - older
  {
    if newer <= older then []
    else (if h[newer].touchesStem then [newer] else []) + StemLog(h, older, newer - 1)
  }

  // `git log older..newer` in the fuchsia repository.
  function RevRange(older: nat, newer: nat): (s: seq<nat>)
    ensures forall f :: f in s <==> older < f <= newer
    ensures forall i, j | 0 <= i < j < |s| :: s[i] > s[j]
  {
    if newer <= older then []
    else
      var rest := RevRange(older, newer - 1);
      assert forall j | 0 <= j < |rest| :: rest[j] in rest;
      [newer] + rest
  }

  type Pair = (nat, nat)

  function PairUp(h: seq<Commit>, commits: seq<nat>): (pairs: seq<Pair>)
    requires forall i | 0 <= i < |commits| :: commits[i] < |h|
    ensures |pairs| == |commits|
    ensures forall i | 0 <= i < |pairs| :: pairs[i] == (commits[i], h[commits[i]].stemRev)
  {
    seq(|commits|, i requires 0 <= i < |commits| => (commits[i], h[commits[i]].stemRev))
  }

  // `head` is -1 before the first update.
  datatype Cache = Cache(head: int, commits: seq<nat>, pairs: seq<Pair>, ranges: map<nat, seq<nat>>)

  const EMPTY := Cache(-1, [], [], map[])

  // ---------- rebuilding from scratch ----------

  // Each commit but the oldest with the revisions it brought in.
  function Ranges(pairs: seq<Pair>): map<nat, seq<nat>> {
    if |pairs| < 2 then map[]
    else Ranges(pairs[1..])[pairs[0].0 := RevRange(pairs[1].1, pairs[0].1)]
  }

  function Rebuild(h: seq<Commit>, head: nat): Cache
    requires head < |h|
  {
    var commits := StemLog(h, -1, head);
    Cache(head, commits, PairUp(h, commits), Ranges(PairUp(h, commits)))
  }

  // ---------- updating in place ----------

  // The first `n` ranges of `pairs`, written over `ranges`.
  function Splice(ranges: map<nat, seq<nat>>, pairs: seq<Pair>, n: nat): map<nat, seq<nat>>
    requires n == 0 || n < |pairs|
  {
    if n == 0 then ranges
    else Splice(ranges, pairs, n - 1)[pairs[n - 1].0 := RevRange(pairs[n].1, pairs[n - 1].1)]
  }

  // What one run of update_stem_history makes of the cache.
  function Refresh(h: seq<Commit>, c: Cache, head: nat): Cache
    requires head < |h| && -1 <= c.head < |h|
  {
    if c.head == head then c
    else
      var added := StemLog(h, c.head, head);
      var pairs := PairUp(h, added) + c.pairs;
      Cache(head, added + c.commits, pairs, Splice(c.ranges, pairs, Max(0, Min(|added|, |pairs| - 1))))
  }

  ghost predicate NewestFirst(pairs: seq<Pair>) {
    forall i, j | 0 <= i < j < |pairs| :: pairs[i].0 > pairs[j].0
  }

  lemma {:induction false} StemLogSplits(h: seq<Commit>, a: int, b: int, c: int)
    requires -1 <= a <= b <= c < |h|
    ensures StemLog(h, a, c) == StemLog(h, b, c) + StemLog(h, a, b)
    decreases c
  {
    if b < c {
      StemLogSplits(h, a, b, c - 1);
    }
  }

  lemma {:induction false} StemLogNewestFirst(h: seq<Commit>, a: int, b: int)
    requires -1 <= a < |h| && -1 <= b < |h|
    ensures NewestFirst(PairUp(h, StemLog(h, a, b)))
    decreases b - a
  {
    if a < b {
      StemLogNewestFirst(h, a, b - 1);
    }
  }

  lemma {:induction false} RangesKeys(pairs: seq<Pair>, k: nat)
    requires k in Ranges(pairs)
    ensures exists i | 0 <= i < |pairs| - 1 :: pairs[i].0 == k
  {
    if k != pairs[0].0 {
      RangesKeys(pairs[1..], k);
    }
  }

  lemma {:induction false} RangesAt(pairs: seq<Pair>, i: nat)
    requires NewestFirst(pairs) && i + 1 < |pairs|
    ensures pairs[i].0 in Ranges(pairs)
    ensures Ranges(pairs)[pairs[i].0] == RevRange(pairs[i + 1].1, pairs[i].1)
  {
    if i > 0 {
      RangesAt(pairs[1..], i - 1);
    }
  }

  lemma {:induction false} SpliceHit(ranges: map<nat, seq<nat>>, pairs: seq<Pair>, n: nat, i: nat)
    requires NewestFirst(pairs) && i < n < |pairs|
    ensures pairs[i].0 in Splice(ranges, pairs, n)
    ensures Splice(ranges, pairs, n)[pairs[i].0] == RevRange(pairs[i + 1].1, pairs[i].1)
  {
    if i < n - 1 {
      SpliceHit(ranges, pairs, n - 1, i);
    }
  }

  lemma {:induction false} SpliceMiss(ranges: map<nat, seq<nat>>, pairs: seq<Pair>, n: nat, k: nat)
    requires n == 0 || n < |pairs|
    requires forall i | 0 <= i < n :: pairs[i].0 != k
    ensures k in Splice(ranges, pairs, n) <==> k in ranges
    ensures k in ranges ==> Splice(ranges, pairs, n)[k] == ranges[k]
  {
    if n > 0 {
      SpliceMiss(ranges, pairs, n - 1, k);
    }
  }

  lemma CachedRange(all: seq<Pair>, a: nat, i: nat)
    requires NewestFirst(all) && a <= i < |all| - 1
    ensures var cached := Ranges(all[a..]);
      all[i].0 in cached && cached[all[i].0] == RevRange(all[i + 1].1, all[i].1)
  {
    assert all[i] == all[a..][i - a] && all[i + 1] == all[a..][i - a + 1];
    RangesAt(all[a..], i - a);
  }

  lemma OldRangeSurvives(all: seq<Pair>, a: nat, i: nat)
    requires NewestFirst(all) && a <= i < |all| - 1
    ensures var spliced := Splice(Ranges(all[a..]), all, a);
      all[i].0 in spliced && spliced[all[i].0] == RevRange(all[i + 1].1, all[i].1)
  {
    CachedRange(all, a, i);
    SpliceMiss(Ranges(all[a..]), all, a, all[i].0);
  }

  lemma RangesAreSpliced(all: seq<Pair>, a: nat, k: nat)
    requires a <= |all| && NewestFirst(all) && k in Ranges(all)
    ensures var spliced := Splice(Ranges(all[a..]), all, Max(0, Min(a, |all| - 1)));
      k in spliced && spliced[k] == Ranges(all)[k]
  {
    var n := Max(0, Min(a, |all| - 1));
    RangesKeys(all, k);
    var i :| 0 <= i < |all| - 1 && all[i].0 == k;
    RangesAt(all, i);
    if i < n {
      SpliceHit(Ranges(all[a..]), all, n, i);
    } else {
      OldRangeSurvives(all, a, i);
    }
  }

  lemma SplicedAreRanges(all: seq<Pair>, a: nat, k: nat)
    requires a <= |all| && NewestFirst(all)
    requires k in Splice(Ranges(all[a..]), all, Max(0, Min(a, |all| - 1)))
    ensures k in Ranges(all)
  {
    var n := Max(0, Min(a, |all| - 1));
    if i :| 0 <= i < n && all[i].0 == k {
      RangesAt(all, i);
    } else {
      SpliceMiss(Ranges(all[a..]), all, n, k);
      RangesKeys(all[a..], k);
      var i :| 0 <= i < |all[a..]| - 1 && all[a..][i].0 == k;
      RangesAt(all, a + i);
    }
  }

  // Writing the ranges of the new pairs, boundary included, over those of the old ones gives
  // the ranges of all of them.
  lemma SpliceIsRanges(all: seq<Pair>, a: nat)
    requires a <= |all| && NewestFirst(all)
    ensures Splice(Ranges(all[a..]), all, Max(0, Min(a, |all| - 1))) == Ranges(all)
  {
    var spliced := Splice(Ranges(all[a..]), all, Max(0, Min(a, |all| - 1)));
    forall k | k in Ranges(all)
      ensures k in spliced && spliced[k] == Ranges(all)[k]
    {
      RangesAreSpliced(all, a, k);
    }
    forall k | k in spliced
      ensures k in Ranges(all)
    {
      SplicedAreRanges(all, a, k);
    }
  }

  // Moving the head from `a` back to `b` passes over a commit that touches the stem.
  ghost predicate LosesStem(h: seq<Commit>, a: int, b: nat)
    requires -1 <= a < |h| && b < |h|
  {
    exists p | b < p <= a :: h[p].touchesStem
  }

  lemma {:induction false} StemLogEmptyIff(h: seq<Commit>, a: int, b: int)
    requires -1 <= a < |h| && -1 <= b < |h|
    ensures StemLog(h, a, b) == [] <==> forall p | a < p <= b :: !h[p].touchesStem
    decreases b - a
  {
    if a < b {
      StemLogEmptyIff(h, a, b - 1);
      assert StemLog(h, a, b) == [] <==> !h[b].touchesStem && StemLog(h, a, b - 1) == [];
      assert (forall p | a < p <= b :: !h[p].touchesStem) <==>
        !h[b].touchesStem && forall p | a < p <= b - 1 :: !h[p].touchesStem;
    }
  }

  lemma RefreshForward(h: seq<Commit>, a: int, b: nat)
    requires -1 <= a <= b < |h|
    ensures Refresh(h, if a == -1 then EMPTY else Rebuild(h, a), b) == Rebuild(h, b)
  {
    var c := if a == -1 then EMPTY else Rebuild(h, a);
    if a < b {
      var added := StemLog(h, a, b);
      StemLogSplits(h, -1, a, b);
      StemLogNewestFirst(h, -1, b);
      assert PairUp(h, StemLog(h, -1, b)) == PairUp(h, added) + c.pairs;
      assert c.pairs == (PairUp(h, added) + c.pairs)[|added|..];
      SpliceIsRanges(PairUp(h, added) + c.pairs, |added|);
    }
  }

  // One incremental update agrees with a rebuild exactly when the head did not move back over
  // a stem commit.
  lemma RefreshIsRebuildIff(h: seq<Commit>, a: nat, b: nat)
    requires a < |h| && b < |h|
    ensures Refresh(h, Rebuild(h, a), b) == Rebuild(h, b) <==> !LosesStem(h, a, b)
  {
    if a <= b {
      RefreshForward(h, a, b);
    } else {
      StemLogSplits(h, -1, b, a);
      StemLogEmptyIff(h, b, a);
      assert PairUp(h, []) + Rebuild(h, a).pairs == Rebuild(h, a).pairs;
      assert [] + Rebuild(h, a).commits == Rebuild(h, a).commits;
      if StemLog(h, b, a) != [] {
        assert |Rebuild(h, a).commits| != |Rebuild(h, b).commits|;
      } else {
        assert Rebuild(h, a).commits == Rebuild(h, b).commits;
      }
    }
  }

  // ---------- any sequence of updates ----------

  function RefreshAll(h: seq<Commit>, heads: seq<nat>): (c: Cache)
    requires forall i | 0 <= i < |heads| :: heads[i] < |h|
    ensures c.head == if heads == [] then -1 else heads[|heads| - 1]
  {
    if heads == [] then EMPTY
    else Refresh(h, RefreshAll(h, heads[..|heads| - 1]), heads[|heads| - 1])
  }

  // However the history is cut into updates, the cache is the one a single update builds.
  lemma {:induction false} SplitsDoNotMatter(h: seq<Commit>, heads: seq<nat>)
    requires heads != [] && forall i | 0 <= i < |heads| :: heads[i] < |h|
    requires forall i | 0 < i < |heads| :: !LosesStem(h, heads[i - 1], heads[i])
    ensures RefreshAll(h, heads) == Rebuild(h, heads[|heads| - 1])
    ensures RefreshAll(h, heads) == Refresh(h, EMPTY, heads[|heads| - 1])
  {
    var head := heads[|heads| - 1];
    RefreshForward(h, -1, head);
    if |heads| > 1 {
      SplitsDoNotMatter(h, heads[..|heads| - 1]);
      RefreshIsRebuildIff(h, heads[|heads| - 2], head);
    }
  }

  ghost predicate NeverLosesStem(h: seq<Commit>, heads: seq<nat>)
    requires forall i | 0 <= i < |heads| :: heads[i] < |h|
  {
    forall i | 0 < i < |heads| :: !LosesStem(h, heads[i - 1], heads[i])
  }

  // How many commits an update leaves in the cache.
  lemma RefreshCounts(h: seq<Commit>, c: Cache, b: nat)
    requires b < |h| && -1 <= c.head < |h|
    ensures var a := c.head;
      |Refresh(h, c, b).commits| - |StemLog(h, -1, b)|
      == |c.commits| - |StemLog(h, -1, a)| + if b < a then |StemLog(h, b, a)| else 0
  {
    if c.head <= b {
      StemLogSplits(h, -1, c.head, b);
    } else {
      StemLogSplits(h, -1, b, c.head);
    }
  }

  // A commit that should have been dropped is never dropped later.
  lemma {:induction false} SurplusStays(h: seq<Commit>, heads: seq<nat>)
    requires heads != [] && forall i | 0 <= i < |heads| :: heads[i] < |h|
    ensures var surplus := |RefreshAll(h, heads).commits| - |StemLog(h, -1, heads[|heads| - 1])|;
      surplus >= 0 && (surplus == 0 <==> NeverLosesStem(h, heads))
  {
    var init, head := heads[..|heads| - 1], heads[|heads| - 1];
    RefreshCounts(h, RefreshAll(h, init), head);
    if init != [] {
      SurplusStays(h, init);
      var last := init[|init| - 1];
      if head < last {
        StemLogEmptyIff(h, head, last);
      }
      assert NeverLosesStem(h, heads) <==> NeverLosesStem(h, init) && !LosesStem(h, last, head);
    }
  }

  // At the end of any sequence of updates the cache is what a rebuild would give exactly when no
  // step moved the head back over a stem commit: later updates never repair it.
  lemma EndsInRebuildIff(h: seq<Commit>, heads: seq<nat>)
    requires heads != [] && forall i | 0 <= i < |heads| :: heads[i] < |h|
    ensures RefreshAll(h, heads) == Rebuild(h, heads[|heads| - 1]) <==> NeverLosesStem(h, heads)
  {
    SurplusStays(h, heads);
    if NeverLosesStem(h, heads) {
      SplitsDoNotMatter(h, heads);
    }
  }

  // ---------- the map from fuchsia revisions back to integration commits ----------

  ghost predicate IsReverse(ranges: map<nat, seq<nat>>, r: map<nat, nat>) {
    && (forall f :: f in r ==> r[f] in ranges && f in ranges[r[f]])
    && (forall k, f :: k in ranges && f in ranges[k] ==> f in r)
  }

  // The stem never moves to an older fuchsia revision.
  ghost predicate NeverBackwards(h: seq<Commit>) {
    forall p, q | 0 <= p < q < |h| && h[p].touchesStem && h[q].touchesStem :: h[p].stemRev <= h[q].stemRev
  }

  // `p` is the oldest cached commit whose manifest contains `f`.
  ghost predicate OldestWith(h: seq<Commit>, commits: seq<nat>, f: nat, p: nat)
    requires forall i | 0 <= i < |commits| :: commits[i] < |h|
  {
    && p in commits && f <= h[p].stemRev
    && forall q | q in commits && f <= h[q].stemRev :: p <= q
  }

  ghost predicate RevsSorted(pairs: seq<Pair>) {
    forall i, j | 0 <= i < j < |pairs| :: pairs[i].1 >= pairs[j].1
  }

  // In a sorted cache the range of a commit holds just what no older commit contains.
  lemma ReverseOverPairs(pairs: seq<Pair>, r: map<nat, nat>, f: nat)
    requires NewestFirst(pairs) && RevsSorted(pairs) && IsReverse(Ranges(pairs), r)
    ensures f in r <==> pairs != [] && pairs[|pairs| - 1].1 < f <= pairs[0].1
    ensures f in r ==>
      exists i | 0 <= i < |pairs| - 1 :: pairs[i].0 == r[f] && pairs[i + 1].1 < f <= pairs[i].1
  {
    if f in r {
      RangesKeys(pairs, r[f]);
      var i :| 0 <= i < |pairs| - 1 && pairs[i].0 == r[f];
      RangesAt(pairs, i);
    }
    if pairs != [] && pairs[|pairs| - 1].1 < f <= pairs[0].1 {
      var i := LastWith(pairs, f);
      RangesAt(pairs, i);
      assert pairs[i].0 in Ranges(pairs) && f in Ranges(pairs)[pairs[i].0];
    }
  }

  lemma RangesOverPairsAreDisjoint(pairs: seq<Pair>, k: nat, k': nat, f: nat)
    requires NewestFirst(pairs) && RevsSorted(pairs)
    requires k in Ranges(pairs) && k' in Ranges(pairs) && f in Ranges(pairs)[k] && f in Ranges(pairs)[k']
    ensures k == k'
  {
    RangesKeys(pairs, k);
    RangesKeys(pairs, k');
    var i :| 0 <= i < |pairs| - 1 && pairs[i].0 == k;
    var j :| 0 <= j < |pairs| - 1 && pairs[j].0 == k';
    RangesAt(pairs, i);
    RangesAt(pairs, j);
  }

  lemma CachedPairsAreSorted(h: seq<Commit>, head: nat)
    requires head < |h| && NeverBackwards(h)
    ensures NewestFirst(Rebuild(h, head).pairs) && RevsSorted(Rebuild(h, head).pairs)
  {
    var commits := StemLog(h, -1, head);
    var pairs := PairUp(h, commits);
    StemLogNewestFirst(h, -1, head);
    forall i, j | 0 <= i < j < |pairs|
      ensures pairs[i].1 >= pairs[j].1
    {
      assert pairs[i].0 > pairs[j].0;
      assert h[commits[j]].stemRev <= h[commits[i]].stemRev;
    }
  }

  // Distinct integration commits bring in disjoint sets of revisions.
  lemma RangesAreDisjoint(h: seq<Commit>, head: nat, k: nat, k': nat, f: nat)
    requires head < |h| && NeverBackwards(h)
    requires var ranges := Rebuild(h, head).ranges;
      k in ranges && k' in ranges && f in ranges[k] && f in ranges[k']
    ensures k == k'
  {
    CachedPairsAreSorted(h, head);
    RangesOverPairsAreDisjoint(Rebuild(h, head).pairs, k, k', f);
  }

  // The revisions after the oldest cached stem, up to the newest, are mapped, each to the
  // oldest integration commit that contains it; nothing else is.
  lemma ReverseFindsOldest(h: seq<Commit>, head: nat, r: map<nat, nat>, f: nat)
    requires head < |h| && NeverBackwards(h) && IsReverse(Rebuild(h, head).ranges, r)
    ensures var pairs := Rebuild(h, head).pairs;
      f in r <==> pairs != [] && pairs[|pairs| - 1].1 < f <= pairs[0].1
    ensures f in r ==> OldestWith(h, Rebuild(h, head).commits, f, r[f])
  {
    CachedPairsAreSorted(h, head);
    var commits, pairs := Rebuild(h, head).commits, Rebuild(h, head).pairs;
    ReverseOverPairs(pairs, r, f);
    if f in r {
      var i :| 0 <= i < |pairs| - 1 && pairs[i].0 == r[f] && pairs[i + 1].1 < f <= pairs[i].1;
      OldestByPosition(h, commits, pairs, f, i);
    }
  }

  lemma OldestByPosition(h: seq<Commit>, commits: seq<nat>, pairs: seq<Pair>, f: nat, i: nat)
    requires forall j | 0 <= j < |commits| :: commits[j] < |h|
    requires pairs == PairUp(h, commits) && NewestFirst(pairs) && RevsSorted(pairs)
    requires i < |pairs| - 1 && pairs[i + 1].1 < f <= pairs[i].1
    ensures OldestWith(h, commits, f, pairs[i].0)
  {
  }

  lemma LastWith(pairs: seq<Pair>, f: nat) returns (i: nat)
    requires pairs != [] && pairs[|pairs| - 1].1 < f <= pairs[0].1
    ensures i + 1 < |pairs| && pairs[i + 1].1 < f <= pairs[i].1
  {
    i := 0;
    while f <= pairs[i + 1].1
      invariant i + 1 < |pairs| && f <= pairs[i].1
      decreases |pairs| - i
    {
      i := i + 1;
    }
  }

  // ---------- the script ----------

  // reverse_commits, over a dictionary in any order.
  method ReverseCommits(ranges: map<nat, seq<nat>>) returns (r: map<nat, nat>)
    ensures IsReverse(ranges, r)
  {
    r := map[];
    var todo := ranges.Keys;
    while todo != {}
      invariant todo <= ranges.Keys
      invariant forall f :: f in r ==> r[f] in ranges && f in ranges[r[f]]
      invariant forall k, f :: k in ranges && k !in todo && f in ranges[k] ==> f in r
      decreases todo
    {
      var k :| k in todo;
      var revs := ranges[k];
      for i := 0 to |revs|
        invariant forall f :: f in r ==> r[f] in ranges && f in ranges[r[f]]
        invariant forall k', f :: k' in ranges && k' !in todo && f in ranges[k'] ==> f in r
        invariant forall j | 0 <= j < i :: revs[j] in r
      {
        r := r[revs[i] := k];
      }
      todo := todo - {k};
    }
  }

  class StemCache {
    var head: int
    var commits: seq<nat>
    var pairs: seq<Pair>
    var ranges: map<nat, seq<nat>>

    constructor ()
      ensures View() == EMPTY
    {
      head, commits, pairs, ranges := -1, [], [], map[];
    }

    ghost function View(): Cache
      reads this
    {
      Cache(head, commits, pairs, ranges)
    }

    // update_stem_history, with the working copy of integration at `curHead`.
    method Update(h: seq<Commit>, curHead: nat) returns (r: map<nat, nat>)
      requires curHead < |h| && -1 <= head < |h|
      modifies this
      ensures View() == Refresh(h, old(View()), curHead)
      ensures IsReverse(ranges, r)
    {
      if head != curHead {
        var added := StemLog(h, head, curHead);
        commits, head := added + commits, curHead;
        var addedPairs := ReadRevisions(h, added);
        pairs := addedPairs + pairs;
        ranges := LogRanges(ranges, pairs, Max(0, Min(|addedPairs|, |pairs| - 1)));
      }
      r := ReverseCommits(ranges);
    }

    // The manifest of each new commit.
    static method ReadRevisions(h: seq<Commit>, added: seq<nat>) returns (r: seq<Pair>)
      requires forall i | 0 <= i < |added| :: added[i] < |h|
      ensures r == PairUp(h, added)
    {
      r := [];
      for i := 0 to |added|
        invariant r == PairUp(h, added)[..i]
      {
        r := r + [(added[i], h[added[i]].stemRev)];
      }
    }

    // The log between each of the first `n` pairs and the next older one.
    static method LogRanges(cached: map<nat, seq<nat>>, pairs: seq<Pair>, n: nat) returns (ranges: map<nat, seq<nat>>)
      requires n == 0 || n < |pairs|
      ensures ranges == Splice(cached, pairs, n)
    {
      ranges := cached;
      for i := 0 to n
        invariant ranges == Splice(cached, pairs, i)
      {
        var cur, older := pairs[i], pairs[i + 1];
        ranges := ranges[cur.0 := RevRange(older.1, cur.1)];
      }
    }
  }
}
