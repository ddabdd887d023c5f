/** Strings in the order of their characters, and sorted lists without repeats. */
module SortedStrings {

  predicate Less(a: string, b: string) {
    if b == "" then false
    else if a == "" then true
    else a[0] < b[0] || (a[0] == b[0] && Less(a[1..], b[1..]))
  }

  lemma {:induction false} LessIsTransitive(a: string, b: string, c: string)
    requires Less(a, b) && Less(b, c)
    ensures Less(a, c)
  {
    if a != "" && a[0] == b[0] == c[0] { LessIsTransitive(a[1..], b[1..], c[1..]); }
  }

  lemma {:induction false} LessIsIrreflexive(a: string)
    ensures !Less(a, a)
  {
    if a != "" { LessIsIrreflexive(a[1..]); }
  }

  lemma {:induction false} LessIsTotal(a: string, b: string)
    ensures a == b || Less(a, b) || Less(b, a)
    ensures !(Less(a, b) && Less(b, a))
  {
    if a != "" && b != "" {
      LessIsTotal(a[1..], b[1..]);
      assert a == [a[0]] + a[1..] && b == [b[0]] + b[1..];
    }
  }

  ghost predicate Increasing(s: seq<string>) {
    forall i, j :: 0 <= i < j < |s| ==> Less(s[i], s[j])
  }

  /** Puts x in its place, unless it is there. */
  function Insert(s: seq<string>, x: string): (r: seq<string>)
    ensures forall y :: y in r <==> y in s || y == x
  {
    if s == [] then [x]
    else if s[0] == x then s
    else if Less(x, s[0]) then [x] + s
    else
      assert s == [s[0]] + s[1..];
      [s[0]] + Insert(s[1..], x)
  }

  lemma {:induction false} InsertKeepsIncreasing(s: seq<string>, x: string)
    requires Increasing(s)
    ensures Increasing(Insert(s, x))
  {
    if s != [] && s[0] != x {
      if Less(x, s[0]) {
        forall j | 0 <= j < |s| ensures Less(x, s[j]) {
          if j > 0 { LessIsTransitive(x, s[0], s[j]); }
        }
      } else {
        InsertKeepsIncreasing(s[1..], x);
        LessIsTotal(s[0], x);
        var rest := Insert(s[1..], x);
        forall j | 0 <= j < |rest| ensures Less(s[0], rest[j]) {
          assert rest[j] in rest;
        }
      }
    }
  }

  /** A sorted list without repeats has as many elements as its set. */
  lemma {:induction false} CountOfIncreasing(s: seq<string>)
    requires Increasing(s)
    ensures |set x | x in s| == |s|
  {
    if s != [] {
      CountOfIncreasing(s[1..]);
      LessIsIrreflexive(s[0]);
      assert forall x :: x in s[1..] ==> Less(s[0], x);
      assert (set x | x in s) == {s[0]} + (set x | x in s[1..]);
      assert s[0] !in s[1..];
    }
  }

  /** The keys of a map in order. */
  method KeysOf(m: map<string, string>) returns (keys: seq<string>)
    ensures Increasing(keys) && forall k :: k in keys <==> k in m
  {
    keys := [];
    var todo := m.Keys;
    while todo != {}
      invariant Increasing(keys) && todo <= m.Keys
      invariant forall k :: k in keys <==> k in m && k !in todo
      decreases |todo|
    {
      var k :| k in todo;
      InsertKeepsIncreasing(keys, k);
      keys := Insert(keys, k);
      todo := todo - {k};
    }
  }
}

/** Snapshots of a project's repositories, their difference, and their scoping. */
module Snapshot {

  import opened Optional
  import opened SortedStrings

  const MAX_SUMMARY_PATHS := 200

  datatype Kind = GitWorktree | MultiRepoWorkspace | NonGit

  datatype Repository = Repository(gitRoot: string, head: string, status: string, dirty: map<string, string>)

  datatype Snapshot = Snapshot(
    projectPath: string, kind: Kind, gitRoot: Option<string>, gitRoots: seq<string>, head: Option<string>,
    status: string, dirty: map<string, string>, repositories: seq<Repository>, rootInstructions: map<string, string>)

  // -------------------------------------------------------- paths that differ

  function Lookup(m: map<string, string>, p: string): Option<string> {
    if p in m then Some(m[p]) else None
  }

  function Differing(before: map<string, string>, after: map<string, string>): set<string> {
    set p | p in before.Keys + after.Keys && Lookup(before, p) != Lookup(after, p)
  }

  datatype Listing = Listing(paths: seq<string>, omitted: nat)

  /** The first differing paths in order, at most 200 of them, and how many more
      there are. */
  ghost predicate Lists(l: Listing, before: map<string, string>, after: map<string, string>) {
    && Increasing(l.paths) && |l.paths| <= MAX_SUMMARY_PATHS
    && (forall p :: p in l.paths ==> p in Differing(before, after))
    && |l.paths| + l.omitted == |Differing(before, after)|
    && (l.omitted > 0 ==> |l.paths| == MAX_SUMMARY_PATHS)
    && (forall p, q :: p in l.paths && q in Differing(before, after) && q !in l.paths ==> Less(p, q))
  }

  /** The differing paths among the first n of a list. */
  ghost predicate Filtered(changed: seq<string>, all: seq<string>, n: nat, before: map<string, string>,
      after: map<string, string>)
    requires n <= |all|
  {
    forall p :: p in changed <==> p in all[..n] && Lookup(before, p) != Lookup(after, p)
  }

  lemma FilterNext(changed: seq<string>, all: seq<string>, n: nat, before: map<string, string>,
      after: map<string, string>)
    requires n < |all| && Increasing(all) && Increasing(changed) && Filtered(changed, all, n, before, after)
    ensures if Lookup(before, all[n]) != Lookup(after, all[n]) then
        Increasing(changed + [all[n]]) && Filtered(changed + [all[n]], all, n + 1, before, after)
      else Filtered(changed, all, n + 1, before, after)
  {
    assert all[..n + 1] == all[..n] + [all[n]];
    forall k | 0 <= k < |changed| ensures Less(changed[k], all[n]) {
      assert changed[k] in changed;
      assert changed[k] in all[..n];
    }
  }

  method ChangedIdentityPaths(before: map<string, string>, after: map<string, string>) returns (l: Listing)
    ensures Lists(l, before, after)
  {
    var all := KeysOf(before + after);
    var changed := [];
    for i := 0 to |all|
      invariant Increasing(changed) && Filtered(changed, all, i, before, after)
    {
      FilterNext(changed, all, i, before, after);
      if Lookup(before, all[i]) != Lookup(after, all[i]) { changed := changed + [all[i]]; }
    }
    assert all[..|all|] == all && forall p :: p in all <==> p in before.Keys + after.Keys;
    assert forall p :: p in changed <==> p in Differing(before, after);
    FirstOfSorted(changed, before, after);
    l := Listing(if |changed| > MAX_SUMMARY_PATHS then changed[..MAX_SUMMARY_PATHS] else changed,
      if |changed| > MAX_SUMMARY_PATHS then |changed| - MAX_SUMMARY_PATHS else 0);
  }

  lemma FirstOfSorted(changed: seq<string>, before: map<string, string>, after: map<string, string>)
    requires Increasing(changed) && forall p :: p in changed <==> p in Differing(before, after)
    ensures var n := if |changed| > MAX_SUMMARY_PATHS then MAX_SUMMARY_PATHS else |changed|;
      Lists(Listing(changed[..n], |changed| - n), before, after)
  {
    CountOfIncreasing(changed);
    assert (set x | x in changed) == Differing(before, after);
    var n := if |changed| > MAX_SUMMARY_PATHS then MAX_SUMMARY_PATHS else |changed|;
    assert forall q :: q in changed && q !in changed[..n] ==> exists k :: n <= k < |changed| && changed[k] == q;
  }

  /** Nothing differs exactly when nothing is listed. */
  lemma ListsNothingIffEqual(l: Listing, before: map<string, string>, after: map<string, string>)
    requires Lists(l, before, after)
    ensures l.paths == [] && l.omitted == 0 <==> before == after
    ensures l.paths == [] ==> l.omitted == 0
  {
    if Differing(before, after) == {} {
      forall p ensures p in before <==> p in after {
        assert p !in Differing(before, after);
      }
      forall p | p in before && p in after ensures before[p] == after[p] {
        assert p !in Differing(before, after);
      }
    }
  }

  // ------------------------------------------------------- well-formedness

  /** How a repository is named inside its project. A root that is not inside
      keeps its whole path, after a mark that no inner path begins with. */
  function Identifier(projectPath: string, gitRoot: string): string {
    if gitRoot == projectPath then "."
    else if projectPath + "/" < gitRoot then gitRoot[|projectPath| + 1..]
    else "../" + gitRoot
  }

  function Under(namespace: string, paths: set<string>): (r: set<string>)
    ensures forall q :: q in r ==> |q| > |namespace| && q[|namespace| + 1..] in paths
  {
    set p | p in paths :: namespace + "/" + p
  }

  function Prefixed(namespace: string, dirty: map<string, string>): map<string, string> {
    map q | q in Under(namespace, dirty.Keys) :: dirty[q[|namespace| + 1..]]
  }

  /** All dirty paths of the repositories, each under its repository's name. */
  function Namespaced(projectPath: string, repositories: seq<Repository>): map<string, string> {
    if repositories == [] then map[]
    else
      var last := repositories[|repositories| - 1];
      Namespaced(projectPath, repositories[..|repositories| - 1])
      + Prefixed(Identifier(projectPath, last.gitRoot), last.dirty)
  }

  function Roots(repositories: seq<Repository>): (roots: seq<string>)
    ensures |roots| == |repositories|
    ensures forall i :: 0 <= i < |roots| ==> roots[i] == repositories[i].gitRoot
  {
    seq(|repositories|, i requires 0 <= i < |repositories| => repositories[i].gitRoot)
  }

  ghost predicate Distinct(roots: seq<string>) {
    forall i, j :: 0 <= i < j < |roots| ==> roots[i] != roots[j]
  }

  /** What the snapshot of each kind of project is made of. */
  ghost predicate WellFormed(s: Snapshot) {
    match s.kind
    case NonGit =>
      && s.gitRoot == None && s.gitRoots == [] && s.head == None && s.status == "non-git-project-v1"
      && s.repositories == [] && s.rootInstructions == map[]
    case GitWorktree =>
      && |s.repositories| == 1 && s.gitRoots == Roots(s.repositories) && s.gitRoot == Some(s.repositories[0].gitRoot)
      && s.head == Some(s.repositories[0].head) && s.status == s.repositories[0].status
      && s.dirty == s.repositories[0].dirty && s.rootInstructions == map[]
    case MultiRepoWorkspace =>
      && s.gitRoot == None && s.gitRoots == Roots(s.repositories) && Distinct(s.gitRoots) && s.head == None
      && s.status == "multi-repo-workspace-v1" && s.dirty == Namespaced(s.projectPath, s.repositories)
  }

  predicate SameLayout(a: Snapshot, b: Snapshot) {
    a.projectPath == b.projectPath && a.kind == b.kind && a.gitRoot == b.gitRoot && a.gitRoots == b.gitRoots
  }

  /** The repository at a root; of several at one root, the last. */
  function At(repositories: seq<Repository>, root: string): (r: Option<Repository>)
    ensures r.Some? ==> r.value in repositories && r.value.gitRoot == root
    ensures r.None? ==> root !in Roots(repositories)
  {
    if repositories == [] then None
    else if repositories[|repositories| - 1].gitRoot == root then Some(repositories[|repositories| - 1])
    else
      var r := At(repositories[..|repositories| - 1], root);
      assert r.None? ==>
        forall i :: 0 <= i < |repositories| - 1 ==>
          Roots(repositories)[i] == Roots(repositories[..|repositories| - 1])[i];
      r
  }

  lemma {:induction false} AtIndex(repositories: seq<Repository>, i: nat)
    requires i < |repositories| && Distinct(Roots(repositories))
    ensures At(repositories, repositories[i].gitRoot) == Some(repositories[i])
  {
    var last := |repositories| - 1;
    if i < last {
      assert Roots(repositories)[i] != Roots(repositories)[last];
      assert Distinct(Roots(repositories[..last])) by {
        forall j, k | 0 <= j < k < last ensures repositories[j].gitRoot != repositories[k].gitRoot {
          assert Roots(repositories)[j] != Roots(repositories)[k];
        }
      }
      AtIndex(repositories[..last], i);
    }
  }

  // ------------------------------------------------------------- the summary

  datatype ChangeKind = Added | Removed | Changed

  datatype Change = Change(
    repository: string, kind: ChangeKind, headBefore: Option<string>, headAfter: Option<string>, statusChanged: bool,
    listing: Listing)

  datatype Summary = Summary(
    baselineAvailable: bool, changed: bool, layoutChanged: bool, repositories: seq<Change>, rootInstructions: Listing)

  function NameIn(projectPath: string, gitRoot: string): string {
    var id := Identifier(projectPath, gitRoot);
    if "../" <= id then gitRoot else id
  }

  function HeadOf(r: Option<Repository>): Option<string> {
    if r.Some? then Some(r.value.head) else None
  }

  function StatusOf(r: Option<Repository>): Option<string> {
    if r.Some? then Some(r.value.status) else None
  }

  function DirtyOf(r: Option<Repository>): map<string, string> {
    if r.Some? then r.value.dirty else map[]
  }

  /** The entry of a repository that is not the same before and after. */
  ghost predicate Describes(c: Change, projectPath: string, root: string, before: Option<Repository>,
      after: Option<Repository>)
  {
    && c.repository == NameIn(projectPath, root)
    && c.kind == (if before.None? then Added else if after.None? then Removed else Changed)
    && c.headBefore == HeadOf(before) && c.headAfter == HeadOf(after)
    && (c.statusChanged <==> StatusOf(before) != StatusOf(after))
    && Lists(c.listing, DirtyOf(before), DirtyOf(after))
  }

  predicate Differs(a: Snapshot, b: Snapshot, root: string) {
    At(a.repositories, root) != At(b.repositories, root)
  }

  ghost predicate Entry(c: Change, root: string, a: Snapshot, b: Snapshot) {
    Describes(c, b.projectPath, root, At(a.repositories, root), At(b.repositories, root))
  }

  /** `roots` are the roots whose repositories differ, in order, and there is one
      entry for each. */
  ghost predicate Reports(changes: seq<Change>, roots: seq<string>, a: Snapshot, b: Snapshot) {
    Increasing(roots) && (forall g :: g in roots <==> Differs(a, b, g)) && Entries(changes, roots, a, b)
  }

  ghost predicate Entries(changes: seq<Change>, roots: seq<string>, a: Snapshot, b: Snapshot) {
    |changes| == |roots| && forall i :: 0 <= i < |roots| ==> Entry(changes[i], roots[i], a, b)
  }

  /** The differing roots among the first n of a list. */
  ghost predicate Selected(roots: seq<string>, all: seq<string>, n: nat, a: Snapshot, b: Snapshot)
    requires n <= |all|
  {
    forall g :: g in roots <==> g in all[..n] && Differs(a, b, g)
  }

  lemma SelectNext(roots: seq<string>, all: seq<string>, n: nat, a: Snapshot, b: Snapshot)
    requires n < |all| && Increasing(all) && Increasing(roots) && Selected(roots, all, n, a, b)
    ensures Differs(a, b, all[n]) ==> Increasing(roots + [all[n]]) && Selected(roots + [all[n]], all, n + 1, a, b)
    ensures !Differs(a, b, all[n]) ==> Selected(roots, all, n + 1, a, b)
  {
    assert all[..n + 1] == all[..n] + [all[n]];
    forall k | 0 <= k < |roots| ensures Less(roots[k], all[n]) {
      assert roots[k] in roots;
      assert roots[k] in all[..n];
    }
  }

  method ChangeAt(a: Snapshot, b: Snapshot, root: string) returns (c: Option<Change>)
    requires root in Roots(a.repositories) || root in Roots(b.repositories)
    ensures c.Some? <==> Differs(a, b, root)
    ensures c.Some? ==> Entry(c.value, root, a, b)
  {
    var before, after := At(a.repositories, root), At(b.repositories, root);
    var listing := ChangedIdentityPaths(DirtyOf(before), DirtyOf(after));
    ListsNothingIffEqual(listing, DirtyOf(before), DirtyOf(after));
    var kind := if before.None? then Added else if after.None? then Removed else Changed;
    var statusChanged := StatusOf(before) != StatusOf(after);
    if kind == Changed && HeadOf(before) == HeadOf(after) && !statusChanged
       && listing.paths == [] && listing.omitted == 0 {
      return None;
    }
    return Some(Change(NameIn(b.projectPath, root), kind, HeadOf(before), HeadOf(after), statusChanged, listing));
  }

  method SortedRoots(a: seq<Repository>, b: seq<Repository>) returns (roots: seq<string>)
    ensures Increasing(roots) && forall g :: g in roots <==> g in Roots(a) || g in Roots(b)
  {
    roots := [];
    var all := Roots(a) + Roots(b);
    for i := 0 to |all|
      invariant Increasing(roots) && forall g :: g in roots <==> g in all[..i]
    {
      InsertKeepsIncreasing(roots, all[i]);
      roots := Insert(roots, all[i]);
    }
    assert all[..|all|] == all;
  }

  method RepositoryChanges(a: Snapshot, b: Snapshot) returns (changes: seq<Change>, ghost roots: seq<string>)
    ensures Reports(changes, roots, a, b)
  {
    changes, roots := [], [];
    var all := SortedRoots(a.repositories, b.repositories);
    for i := 0 to |all|
      invariant Increasing(roots) && Selected(roots, all, i, a, b) && Entries(changes, roots, a, b)
    {
      var c := ChangeAt(a, b, all[i]);
      SelectNext(roots, all, i, a, b);
      if c.Some? { changes, roots := changes + [c.value], roots + [all[i]]; }
    }
    assert all[..|all|] == all;
  }

  /** The whole summary; a digest is the snapshot itself. */
  ghost predicate Summarizes(r: Summary, roots: seq<string>, a: Snapshot, b: Snapshot) {
    && r.baselineAvailable && (r.changed <==> a != b) && (r.layoutChanged <==> !SameLayout(a, b))
    && Lists(r.rootInstructions, a.rootInstructions, b.rootInstructions)
    && if a.kind == NonGit && b.kind == NonGit && a.dirty != b.dirty then
         && r.repositories != []
         && Reports(r.repositories[..|r.repositories| - 1], roots, a, b)
         && Files(r.repositories[|r.repositories| - 1], a, b)
       else Reports(r.repositories, roots, a, b)
  }

  /** The entry of a project without git, whose files differ. */
  ghost predicate Files(c: Change, a: Snapshot, b: Snapshot) {
    && c.repository == "." && c.kind == Changed && c.headBefore == None && c.headAfter == None
    && (c.statusChanged <==> a.status != b.status) && Lists(c.listing, a.dirty, b.dirty)
  }

  method SummarizeAdvisorRepositoryChanges(baseline: Option<Snapshot>, current: Snapshot)
    returns (r: Summary, ghost roots: seq<string>)
    ensures baseline.None? ==> r == Summary(false, true, false, [], Listing([], 0))
    ensures baseline.Some? ==> Summarizes(r, roots, baseline.value, current)
  {
    if baseline.None? { return Summary(false, true, false, [], Listing([], 0)), []; }
    var a := baseline.value;
    var changes, differing := RepositoryChanges(a, current);
    if a.kind == NonGit && current.kind == NonGit {
      var files := ChangedIdentityPaths(a.dirty, current.dirty);
      ListsNothingIffEqual(files, a.dirty, current.dirty);
      if files.paths != [] || files.omitted > 0 {
        var root := Change(".", Changed, None, None, a.status != current.status, files);
        assert changes == (changes + [root])[..|changes|];
        changes := changes + [root];
      }
    }
    var instructions := ChangedIdentityPaths(a.rootInstructions, current.rootInstructions);
    return Summary(true, a != current, !SameLayout(a, current), changes, instructions), differing;
  }

  lemma SameRepositories(a: Snapshot, b: Snapshot)
    requires WellFormed(a) && WellFormed(b) && SameLayout(a, b) && a.kind != NonGit
    requires forall g :: !Differs(a, b, g)
    ensures a.repositories == b.repositories
  {
    assert |a.repositories| == |b.repositories|;
    forall i | 0 <= i < |a.repositories| ensures a.repositories[i] == b.repositories[i] {
      assert a.gitRoots[i] == b.gitRoots[i];
      AtIndex(a.repositories, i);
      AtIndex(b.repositories, i);
      assert !Differs(a, b, a.gitRoots[i]);
    }
  }

  lemma RootsDiffer(changes: seq<Change>, roots: seq<string>, a: Snapshot, b: Snapshot)
    requires Reports(changes, roots, a, b) && roots != []
    ensures a.repositories != b.repositories
  {
    assert roots[0] in roots;
  }

  /** For two well-formed snapshots of one layout, the summary lists nothing
      exactly when they are the same snapshot. */
  lemma SummaryIsEmptyIffUnchanged(r: Summary, roots: seq<string>, a: Snapshot, b: Snapshot)
    requires WellFormed(a) && WellFormed(b) && SameLayout(a, b) && Summarizes(r, roots, a, b)
    ensures r.repositories == [] && r.rootInstructions.paths == [] <==> a == b
    ensures r.changed <==> r.repositories != [] || r.rootInstructions.paths != []
  {
    ListsNothingIffEqual(r.rootInstructions, a.rootInstructions, b.rootInstructions);
    if r.repositories == [] && r.rootInstructions.paths == [] {
      assert roots == [];
      if a.kind != NonGit { SameRepositories(a, b); }
      assert a == b;
    }
    if roots != [] && !(a.kind == NonGit && a.dirty != b.dirty) { RootsDiffer(r.repositories, roots, a, b); }
  }

  // ------------------------------------------------------------------ scoping

  function Identifiers(s: Snapshot): seq<string> {
    if s.kind == NonGit then ["."] else Names(s.projectPath, s.repositories)
  }

  function Names(projectPath: string, repositories: seq<Repository>): (names: seq<string>)
    ensures |names| == |repositories|
    ensures forall i :: 0 <= i < |names| ==> names[i] == Identifier(projectPath, repositories[i].gitRoot)
  {
    seq(|repositories|, i requires 0 <= i < |repositories| => Identifier(projectPath, repositories[i].gitRoot))
  }

  predicate Usable(id: string) {
    0 < |id| <= 32768 && '\0' !in id && id[0] != '/'
  }

  ghost predicate ValidScope(s: Snapshot, scope: seq<string>) {
    && 0 < |scope| <= 128 && (forall i :: 0 <= i < |scope| ==> Usable(scope[i])) && Increasing(scope)
    && (forall i :: 0 <= i < |scope| ==> scope[i] in Identifiers(s))
  }

  /** The repository of that name; of several, the last. */
  function Named(projectPath: string, repositories: seq<Repository>, id: string): (r: Repository)
    requires id in Names(projectPath, repositories)
    ensures r in repositories && Identifier(projectPath, r.gitRoot) == id
  {
    var last := |repositories| - 1;
    if Identifier(projectPath, repositories[last].gitRoot) == id then repositories[last]
    else
      assert id in Names(projectPath, repositories[..last]) by {
        var i :| 0 <= i < |repositories| && Names(projectPath, repositories)[i] == id;
        assert Names(projectPath, repositories[..last])[i] == id;
      }
      Named(projectPath, repositories[..last], id)
  }

  function Selection(s: Snapshot, scope: seq<string>): (r: seq<Repository>)
    requires forall i :: 0 <= i < |scope| ==> scope[i] in Names(s.projectPath, s.repositories)
    ensures |r| == |scope|
    ensures forall i :: 0 <= i < |scope| ==> r[i] == Named(s.projectPath, s.repositories, scope[i])
  {
    seq(|scope|, i requires 0 <= i < |scope| => Named(s.projectPath, s.repositories, scope[i]))
  }

  function Scoped(s: Snapshot, scope: seq<string>): Snapshot
    requires s.kind == MultiRepoWorkspace ==>
      forall i :: 0 <= i < |scope| ==> scope[i] in Names(s.projectPath, s.repositories)
  {
    if s.kind != MultiRepoWorkspace then s
    else
      var repositories := Selection(s, scope);
      s.(gitRoots := Roots(repositories), repositories := repositories,
         dirty := Namespaced(s.projectPath, repositories))
  }

  method IsSortedAndUnique(scope: seq<string>) returns (ok: bool)
    ensures ok <==> Increasing(scope)
  {
    if scope == [] { return true; }
    for i := 1 to |scope|
      invariant forall j, k :: 0 <= j < k < i ==> Less(scope[j], scope[k])
    {
      if !Less(scope[i - 1], scope[i]) { return false; }
      forall j | 0 <= j < i ensures Less(scope[j], scope[i]) {
        if j < i - 1 { LessIsTransitive(scope[j], scope[i - 1], scope[i]); }
      }
    }
    return true;
  }

  method NormalizeAdvisorRepositoryScope(s: Snapshot, scope: seq<string>) returns (ok: bool)
    ensures ok <==> ValidScope(s, scope)
  {
    if |scope| == 0 || |scope| > 128 { return false; }
    for i := 0 to |scope|
      invariant forall j :: 0 <= j < i ==> Usable(scope[j])
    {
      if !Usable(scope[i]) { return false; }
    }
    var sorted := IsSortedAndUnique(scope);
    if !sorted { return false; }
    for i := 0 to |scope|
      invariant forall j :: 0 <= j < i ==> scope[j] in Identifiers(s)
    {
      if scope[i] !in Identifiers(s) { return false; }
    }
    return true;
  }

  method NamespaceDirty(projectPath: string, scope: seq<string>, repositories: seq<Repository>)
    returns (dirty: map<string, string>)
    requires scope == Names(projectPath, repositories)
    ensures dirty == Namespaced(projectPath, repositories)
  {
    dirty := map[];
    for i := 0 to |repositories|
      invariant dirty == Namespaced(projectPath, repositories[..i])
    {
      assert repositories[..i + 1][..i] == repositories[..i];
      dirty := dirty + Prefixed(scope[i], repositories[i].dirty);
    }
    assert repositories[..|repositories|] == repositories;
  }

  method ScopeAdvisorRepositorySnapshot(s: Snapshot, scope: seq<string>) returns (r: Option<Snapshot>)
    ensures r.Some? <==> ValidScope(s, scope)
    ensures r.Some? ==> r.value == Scoped(s, scope)
  {
    var ok := NormalizeAdvisorRepositoryScope(s, scope);
    if !ok { return None; }
    if s.kind != MultiRepoWorkspace { return Some(s); }
    var repositories := Selection(s, scope);
    assert Names(s.projectPath, repositories) == scope;
    var dirty := NamespaceDirty(s.projectPath, scope, repositories);
    return Some(s.(gitRoots := Roots(repositories), repositories := repositories, dirty := dirty));
  }

  /** A scoped snapshot is a snapshot of its own, so its summary obeys the same
      law. */
  lemma ScopedIsWellFormed(s: Snapshot, scope: seq<string>)
    requires WellFormed(s) && ValidScope(s, scope)
    ensures WellFormed(Scoped(s, scope))
  {
    if s.kind == MultiRepoWorkspace {
      var repositories := Selection(s, scope);
      forall i, j | 0 <= i < j < |scope| ensures Roots(repositories)[i] != Roots(repositories)[j] {
        LessIsIrreflexive(scope[i]);
        assert Less(scope[i], scope[j]);
        assert Identifier(s.projectPath, repositories[i].gitRoot) == scope[i];
        assert Identifier(s.projectPath, repositories[j].gitRoot) == scope[j];
      }
    }
  }

  ghost predicate SameInScope(a: Snapshot, b: Snapshot, scope: seq<string>)
    requires Selectable(a, scope) && Selectable(b, scope)
  {
    forall i :: 0 <= i < |scope| ==> SameNamed(a, b, scope[i])
  }

  ghost predicate Selectable(s: Snapshot, scope: seq<string>) {
    forall i :: 0 <= i < |scope| ==> scope[i] in Names(s.projectPath, s.repositories)
  }

  predicate SameNamed(a: Snapshot, b: Snapshot, id: string)
    requires id in Names(a.projectPath, a.repositories) && id in Names(b.projectPath, b.repositories)
  {
    Named(a.projectPath, a.repositories, id) == Named(b.projectPath, b.repositories, id)
  }

  lemma SelectionSees(a: Snapshot, b: Snapshot, scope: seq<string>)
    requires Selectable(a, scope) && Selectable(b, scope)
    ensures Selection(a, scope) == Selection(b, scope) <==> SameInScope(a, b, scope)
  {
    var p, q := Selection(a, scope), Selection(b, scope);
    forall i | 0 <= i < |scope| ensures p[i] == q[i] <==> SameNamed(a, b, scope[i]) {
    }
  }

  /** A scoped snapshot, and so its digest, depends on the root instructions and
      on the repositories of the scope, and on nothing outside it. */
  lemma ScopeSeesExactlyItsRepositories(a: Snapshot, b: Snapshot, scope: seq<string>)
    requires WellFormed(a) && WellFormed(b) && a.kind == b.kind == MultiRepoWorkspace && a.projectPath == b.projectPath
    requires Selectable(a, scope) && Selectable(b, scope)
    ensures Scoped(a, scope) == Scoped(b, scope) <==>
            a.rootInstructions == b.rootInstructions && SameInScope(a, b, scope)
  {
    SelectionSees(a, b, scope);
  }

  // ----------------------------------------------------- the status of git

  /** One record of `git status --porcelain=v1 -z`: a rename or a copy is
      followed by the path it came from. */
  datatype StatusEntry = StatusEntry(code: string, path: string, from: Option<string>)

  predicate Renames(code: string) {
    'R' in code || 'C' in code
  }

  predicate ValidEntry(e: StatusEntry) {
    && |e.code| == 2 && e.path != "" && (e.from.Some? <==> 'R' in e.code || 'C' in e.code)
    && (e.from.Some? ==> e.from.value != "")
  }

  /** The NUL-separated fields of the records, with the empty one at the end. */
  function Fields(entries: seq<StatusEntry>): seq<string> {
    if entries == [] then [""]
    else
      var e := entries[0];
      [e.code + " " + e.path] + (if e.from.Some? then [e.from.value] else []) + Fields(entries[1..])
  }

  function PathsOf(entries: seq<StatusEntry>): set<string> {
    if entries == [] then {}
    else
      var e := entries[0];
      {e.path} + (if e.from.Some? then {e.from.value} else {}) + PathsOf(entries[1..])
  }

  /** The paths found from field `index` on, or nothing for a malformed one. */
  function PathsFrom(fields: seq<string>, index: nat): Option<set<string>>
    decreases |fields| - index
  {
    if index >= |fields| then Some({})
    else if fields[index] == "" then PathsFrom(fields, index + 1)
    else if |fields[index]| < 4 then None
    else
      var renames := Renames(fields[index][..2]);
      var rest := PathsFrom(fields, index + if renames then 2 else 1);
      if rest.None? then None
      else
        var second := if renames && index + 1 < |fields| && fields[index + 1] != "" then {fields[index + 1]} else {};
        Some({fields[index][3..]} + second + rest.value)
  }

  method DirtyPaths(fields: seq<string>) returns (r: Option<seq<string>>)
    ensures r.Some? <==> PathsFrom(fields, 0).Some?
    ensures r.Some? ==> Increasing(r.value) && forall p :: p in r.value <==> p in PathsFrom(fields, 0).value
  {
    var paths, index := [], 0;
    while index < |fields|
      invariant Increasing(paths)
      invariant PathsFrom(fields, 0).Some? <==> PathsFrom(fields, index).Some?
      invariant PathsFrom(fields, 0).Some? ==>
        forall p :: p in PathsFrom(fields, 0).value <==> p in paths || p in PathsFrom(fields, index).value
      decreases |fields| - index
    {
      var entry := fields[index];
      if entry == "" {
        index := index + 1;
        continue;
      }
      if |entry| < 4 { return None; }
      var code := entry[..2];
      InsertKeepsIncreasing(paths, entry[3..]);
      paths := Insert(paths, entry[3..]);
      if Renames(code) {
        if index + 1 < |fields| && fields[index + 1] != "" {
          InsertKeepsIncreasing(paths, fields[index + 1]);
          paths := Insert(paths, fields[index + 1]);
        }
        index := index + 1;
      }
      index := index + 1;
    }
    return Some(paths);
  }

  lemma {:induction false} PathsFromShift(head: seq<string>, fields: seq<string>, index: nat)
    ensures PathsFrom(head + fields, |head| + index) == PathsFrom(fields, index)
    decreases |fields| - index
  {
    if index < |fields| {
      assert (head + fields)[|head| + index] == fields[index];
      PathsFromShift(head, fields, index + 1);
      PathsFromShift(head, fields, index + 2);
      if index + 1 < |fields| { assert (head + fields)[|head| + index + 1] == fields[index + 1]; }
    }
  }

  /** Reading back what git writes gives every path of every record. */
  lemma {:induction false} StatusIsRead(entries: seq<StatusEntry>)
    requires forall i :: 0 <= i < |entries| ==> ValidEntry(entries[i])
    ensures PathsFrom(Fields(entries), 0) == Some(PathsOf(entries))
  {
    if entries != [] {
      var e, rest := entries[0], Fields(entries[1..]);
      StatusIsRead(entries[1..]);
      assert ValidEntry(e);
      var first := e.code + " " + e.path;
      var head := [first] + if e.from.Some? then [e.from.value] else [];
      assert Fields(entries) == head + rest;
      assert first[..2] == e.code && first[3..] == e.path;
      PathsFromShift(head, rest, 0);
    }
  }
}
