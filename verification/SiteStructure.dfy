/**
 The tree check of a site structure: duplicate keys, slugs and evidence, unknown parents,
 and parent cycles found by walking from every page to its root.
 */
module SiteStructure {
  import opened Wrappers

  datatype Page = Page(key: string, parentKey: Option<string>, slug: string)

  datatype Error = DuplicateKeys | DuplicateSlugs | DuplicateEvidence | UnknownParent | ParentCycle

  datatype Verdict = Accepted | Rejected(error: Error)

  type Parents = map<string, Option<string>>

  /** A parent that counts: neither missing nor empty. */
  predicate Truthy(parent: Option<string>) {
    parent.Some? && parent.value != ""
  }

  ghost predicate Distinct<T>(s: seq<T>) {
    forall i, j :: 0 <= i < j < |s| ==> s[i] != s[j]
  }

  ghost function Keys(pages: seq<Page>): (keys: seq<string>)
    ensures |keys| == |pages| && forall i :: 0 <= i < |pages| ==> keys[i] == pages[i].key
  {
    seq(|pages|, i requires 0 <= i < |pages| => pages[i].key)
  }

  ghost function Slugs(pages: seq<Page>): (slugs: seq<string>)
    ensures |slugs| == |pages| && forall i :: 0 <= i < |pages| ==> slugs[i] == pages[i].slug
  {
    seq(|pages|, i requires 0 <= i < |pages| => pages[i].slug)
  }

  ghost predicate NamesParent(page: Page) {
    page.parentKey.Some? && |page.parentKey.value| > 0
  }

  ghost predicate ParentsKnown(pages: seq<Page>) {
    forall i :: 0 <= i < |pages| && NamesParent(pages[i]) ==> pages[i].parentKey.value in Keys(pages)
  }

  /** A rank that strictly drops from every page to its parent. */
  ghost predicate Ranked(pages: seq<Page>, rank: map<string, nat>) {
    forall i :: 0 <= i < |pages| ==>
      && pages[i].key in rank
      && (NamesParent(pages[i]) ==>
            pages[i].parentKey.value in rank && rank[pages[i].parentKey.value] < rank[pages[i].key])
  }

  /** The pages form a forest. */
  ghost predicate Forest(pages: seq<Page>) {
    exists rank :: Ranked(pages, rank)
  }

  /** The first check that fails decides. */
  ghost function Expected(pages: seq<Page>, evidence: seq<nat>): Verdict {
    if !Distinct(Keys(pages)) then Rejected(DuplicateKeys)
    else if !Distinct(Slugs(pages)) then Rejected(DuplicateSlugs)
    else if !Distinct(evidence) then Rejected(DuplicateEvidence)
    else if !ParentsKnown(pages) then Rejected(UnknownParent)
    else if !Forest(pages) then Rejected(ParentCycle)
    else Accepted
  }

  // ---------- duplicates by counting ----------

  function Elements<T>(s: seq<T>): set<T> {
    set x | x in s
  }

  /** A list has no duplicates exactly when its set of elements is as large as the list. */
  lemma {:induction false} DistinctByCount<T>(s: seq<T>)
    ensures |Elements(s)| <= |s|
    ensures |Elements(s)| == |s| <==> Distinct(s)
    decreases |s|
  {
    if |s| != 0 {
      var n := |s| - 1;
      DistinctByCount(s[..n]);
      assert s == s[..n] + [s[n]];
      assert Elements(s) == Elements(s[..n]) + {s[n]};
      if s[n] in s[..n] {
        assert Elements(s) == Elements(s[..n]);
        var i :| 0 <= i < n && s[i] == s[n];
      } else {
        assert forall i :: 0 <= i < n ==> s[..n][i] == s[i];
      }
    }
  }

  // ---------- walking up ----------

  function Parent(parents: Parents, at: Option<string>): Option<string> {
    if Truthy(at) && at.value in parents then parents[at.value] else None
  }

  /** Where `n` steps up from `from` lead. */
  ghost function Walk(parents: Parents, from: Option<string>, n: nat): Option<string> {
    if n == 0 then from else Parent(parents, Walk(parents, from, n - 1))
  }

  /** The walk from `from` runs off the top after exactly `n` steps. */
  ghost predicate EndsAfter(parents: Parents, from: Option<string>, n: nat) {
    && !Truthy(Walk(parents, from, n))
    && forall i :: 0 <= i < n ==> Truthy(Walk(parents, from, i))
  }

  ghost predicate Ends(parents: Parents, from: Option<string>) {
    exists n: nat :: EndsAfter(parents, from, n)
  }

  ghost function Depth(parents: Parents, from: Option<string>): (n: nat)
    requires Ends(parents, from)
    ensures EndsAfter(parents, from, n)
  {
    var n: nat :| EndsAfter(parents, from, n);
    n
  }

  lemma {:induction false} WalkFromParent(parents: Parents, from: Option<string>, n: nat)
    ensures Walk(parents, Parent(parents, from), n) == Walk(parents, from, n + 1)
  {
    if n != 0 {
      WalkFromParent(parents, from, n - 1);
    }
  }

  lemma {:induction false} EndIsUnique(parents: Parents, from: Option<string>, m: nat, n: nat)
    requires EndsAfter(parents, from, m) && EndsAfter(parents, from, n)
    ensures m == n
  {
    assert m < n ==> Truthy(Walk(parents, from, m));
    assert n < m ==> Truthy(Walk(parents, from, n));
  }

  /** One step up shortens the walk by one. */
  lemma {:induction false} ParentIsShallower(parents: Parents, from: Option<string>)
    requires Truthy(from) && Ends(parents, from)
    ensures Ends(parents, Parent(parents, from))
    ensures Depth(parents, Parent(parents, from)) + 1 == Depth(parents, from)
  {
    var n := Depth(parents, from);
    var up := Parent(parents, from);
    assert Walk(parents, from, 0) == from;
    forall i | 0 <= i < n ensures Walk(parents, up, i) == Walk(parents, from, i + 1) {
      WalkFromParent(parents, from, i);
    }
    assert EndsAfter(parents, up, n - 1);
    EndIsUnique(parents, up, n - 1, Depth(parents, up));
  }

  /** The dictionary of parents agrees with the pages. */
  ghost predicate Indexes(parents: Parents, pages: seq<Page>) {
    && (forall i :: 0 <= i < |pages| ==> pages[i].key in parents && parents[pages[i].key] == pages[i].parentKey)
    && (forall key :: key in parents ==> exists i :: 0 <= i < |pages| && pages[i].key == key)
  }

  ghost predicate Closed(parents: Parents) {
    forall key :: ParentKnown(parents, key)
  }

  predicate ParentKnown(parents: Parents, key: string) {
    key in parents && Truthy(parents[key]) ==> parents[key].value in parents
  }

  ghost predicate WalkEnds(parents: Parents, key: string) {
    key in parents && key != "" ==> Ends(parents, Some(key))
  }

  lemma {:induction false} WalkEndsFromParent(parents: Parents, key: string)
    requires key in parents && ParentKnown(parents, key)
    requires Truthy(parents[key]) ==> WalkEnds(parents, parents[key].value)
    ensures Ends(parents, parents[key])
  {
    if !Truthy(parents[key]) {
      assert EndsAfter(parents, parents[key], 0);
    }
  }

  /** If every walk ends, the length of the walk from the parent ranks the pages. */
  lemma {:induction false} WalksEndInForest(parents: Parents, pages: seq<Page>)
    requires Indexes(parents, pages) && Closed(parents)
    requires forall key :: WalkEnds(parents, key)
    ensures Forest(pages)
  {
    forall key | key in parents ensures Ends(parents, parents[key]) {
      assert ParentKnown(parents, key);
      assert Truthy(parents[key]) ==> WalkEnds(parents, parents[key].value);
      WalkEndsFromParent(parents, key);
    }
    var rank := map key | key in parents :: Depth(parents, parents[key]);
    DepthsRank(parents, pages, rank);
  }

  lemma {:induction false} DepthsRank(parents: Parents, pages: seq<Page>, rank: map<string, nat>)
    requires Indexes(parents, pages) && Closed(parents) && rank.Keys == parents.Keys
    requires forall key :: key in rank ==> Ends(parents, parents[key]) && rank[key] == Depth(parents, parents[key])
    ensures Ranked(pages, rank)
  {
    forall i | 0 <= i < |pages| && Truthy(pages[i].parentKey)
      ensures pages[i].parentKey.value in rank && rank[pages[i].parentKey.value] < rank[pages[i].key]
    {
      assert ParentKnown(parents, pages[i].key);
      ParentIsShallower(parents, pages[i].parentKey);
    }
  }

  /** `n` steps up from `key` stay inside the structure. */
  ghost predicate StaysInside(parents: Parents, key: string, n: nat) {
    forall i :: 0 <= i <= n ==>
      Truthy(Walk(parents, Some(key), i)) && Walk(parents, Some(key), i).value in parents
  }

  lemma {:induction false} RankDropsToParent(parents: Parents, pages: seq<Page>, rank: map<string, nat>, key: string)
    requires Indexes(parents, pages) && Ranked(pages, rank) && key in parents
    ensures key in rank
    ensures Truthy(parents[key]) ==> parents[key].value in rank && rank[parents[key].value] < rank[key]
  {
    var i :| 0 <= i < |pages| && pages[i].key == key;
  }

  lemma {:induction false} RankAlongWalk(parents: Parents, pages: seq<Page>, rank: map<string, nat>, key: string,
                                        i: nat, j: nat)
    requires Indexes(parents, pages) && Ranked(pages, rank) && i <= j && StaysInside(parents, key, j)
    ensures var below, above := Walk(parents, Some(key), i).value, Walk(parents, Some(key), j).value;
            below in rank && above in rank && (i < j ==> rank[above] < rank[below])
    decreases j
  {
    assert Truthy(Walk(parents, Some(key), i)) && Truthy(Walk(parents, Some(key), j));
    RankDropsToParent(parents, pages, rank, Walk(parents, Some(key), j).value);
    if i < j {
      RankAlongWalk(parents, pages, rank, key, i, j - 1);
      RankDropsToParent(parents, pages, rank, Walk(parents, Some(key), j - 1).value);
    }
  }

  /** A walk that comes back to a page it has left rules out a forest. */
  lemma {:induction false} RevisitRefutesForest(parents: Parents, pages: seq<Page>, key: string, i: nat, j: nat)
    requires Indexes(parents, pages) && i < j && StaysInside(parents, key, j)
    requires Walk(parents, Some(key), i) == Walk(parents, Some(key), j)
    ensures !Forest(pages)
  {
    forall rank ensures !Ranked(pages, rank) {
      if Ranked(pages, rank) {
        RankAlongWalk(parents, pages, rank, key, i, j);
      }
    }
  }

  // ---------- the check ----------

  method ValidateSiteStructureTree(pages: seq<Page>, evidence: seq<nat>) returns (verdict: Verdict)
    ensures verdict == Expected(pages, evidence)
    ensures verdict == Accepted <==> Distinct(Keys(pages)) && Distinct(Slugs(pages)) && Distinct(evidence)
                                     && ParentsKnown(pages) && Forest(pages)
  {
    var keys := seq(|pages|, i requires 0 <= i < |pages| => pages[i].key);
    var slugs := seq(|pages|, i requires 0 <= i < |pages| => pages[i].slug);
    assert keys == Keys(pages) && slugs == Slugs(pages);
    DistinctByCount(keys);
    DistinctByCount(slugs);
    DistinctByCount(evidence);
    if |keys| != |Elements(keys)| {
      return Rejected(DuplicateKeys);
    }
    if |slugs| != |Elements(slugs)| {
      return Rejected(DuplicateSlugs);
    }
    if |evidence| != |Elements(evidence)| {
      return Rejected(DuplicateEvidence);
    }
    var parents := IndexParents(pages);
    KnownIffClosed(parents, pages);
    if exists key :: key in parents && !ParentKnown(parents, key) {
      return Rejected(UnknownParent);
    }
    var cyclic := AnyCycle(parents, pages);
    verdict := if cyclic then Rejected(ParentCycle) else Accepted;
  }

  lemma {:induction false} KnownIffClosed(parents: Parents, pages: seq<Page>)
    requires Indexes(parents, pages)
    ensures ParentsKnown(pages) <==> Closed(parents)
  {
    forall key ensures key in parents <==> key in Keys(pages) {
      if key in parents {
        var i :| 0 <= i < |pages| && pages[i].key == key;
        assert Keys(pages)[i] == key;
      }
    }
    if Closed(parents) {
      forall i | 0 <= i < |pages| && Truthy(pages[i].parentKey) ensures pages[i].parentKey.value in Keys(pages) {
        assert ParentKnown(parents, pages[i].key);
      }
    } else {
      var key :| !ParentKnown(parents, key);
      var i :| 0 <= i < |pages| && pages[i].key == key;
      assert !ParentsKnown(pages);
    }
  }

  method IndexParents(pages: seq<Page>) returns (parents: Parents)
    requires Distinct(Keys(pages))
    ensures Indexes(parents, pages)
  {
    parents := map[];
    for i := 0 to |pages|
      invariant Indexes(parents, pages[..i])
    {
      assert forall j :: 0 <= j < i ==> Keys(pages)[j] != Keys(pages)[i];
      parents := parents[pages[i].key := pages[i].parentKey];
      assert pages[..i + 1] == pages[..i] + [pages[i]];
    }
    assert pages[..|pages|] == pages;
  }

  /** The outer loop: one walk per page. */
  method AnyCycle(parents: Parents, pages: seq<Page>) returns (cyclic: bool)
    requires Indexes(parents, pages) && Closed(parents)
    ensures cyclic <==> !Forest(pages)
  {
    for k := 0 to |pages|
      invariant forall i :: 0 <= i < k ==> WalkEnds(parents, pages[i].key)
    {
      cyclic := WalkFindsCycle(parents, pages, pages[k].key);
      if cyclic {
        return;
      }
    }
    forall key ensures WalkEnds(parents, key) {
      if key in parents {
        var i :| 0 <= i < |pages| && pages[i].key == key;
      }
    }
    WalksEndInForest(parents, pages);
    cyclic := false;
  }

  /** The pages visited in `steps` steps up from `key`, and when. */
  ghost predicate Trail(parents: Parents, key: string, steps: nat, seenAt: map<string, nat>) {
    && (steps > 0 ==> StaysInside(parents, key, steps - 1))
    && forall v :: v in seenAt ==> seenAt[v] < steps && Walk(parents, Some(key), seenAt[v]) == Some(v)
  }

  lemma {:induction false} TrailExtends(parents: Parents, key: string, steps: nat, seenAt: map<string, nat>,
                                        at: string)
    requires Trail(parents, key, steps, seenAt)
    requires Walk(parents, Some(key), steps) == Some(at) && at != "" && at in parents
    ensures StaysInside(parents, key, steps)
    ensures Walk(parents, Some(key), steps + 1) == parents[at]
    ensures Trail(parents, key, steps + 1, seenAt[at := steps])
  {
    forall i | 0 <= i <= steps
      ensures Truthy(Walk(parents, Some(key), i)) && Walk(parents, Some(key), i).value in parents
    {
    }
  }

  lemma {:induction false} TrailEnds(parents: Parents, key: string, steps: nat, seenAt: map<string, nat>)
    requires Trail(parents, key, steps, seenAt) && !Truthy(Walk(parents, Some(key), steps))
    ensures Ends(parents, Some(key))
  {
    assert EndsAfter(parents, Some(key), steps);
  }

  /** The inner loop: walk up from `key` until the top or a page seen before. */
  method WalkFindsCycle(parents: Parents, pages: seq<Page>, key: string) returns (cyclic: bool)
    requires Indexes(parents, pages) && Closed(parents) && key in parents
    ensures cyclic ==> !Forest(pages)
    ensures !cyclic ==> Ends(parents, Some(key))
  {
    var visited: set<string> := {};
    var current: Option<string> := Some(key);
    ghost var steps: nat := 0;
    ghost var seenAt: map<string, nat> := map[];
    while Truthy(current)
      invariant visited <= parents.Keys && (Truthy(current) ==> current.value in parents)
      invariant current == Walk(parents, Some(key), steps)
      invariant seenAt.Keys == visited && Trail(parents, key, steps, seenAt)
      decreases parents.Keys - visited
    {
      TrailExtends(parents, key, steps, seenAt, current.value);
      assert ParentKnown(parents, current.value);
      if current.value in visited {
        RevisitRefutesForest(parents, pages, key, seenAt[current.value], steps);
        return true;
      }
      seenAt := seenAt[current.value := steps];
      visited := visited + {current.value};
      current := parents[current.value];
      steps := steps + 1;
    }
    TrailEnds(parents, key, steps, seenAt);
    return false;
  }
}
