/** The archive check that runs before an application zip is expanded.

    A path is the sequence of its '/'-separated components, so the archive
    name "a/b/" is ["a", "b", ""]. `Kernel` is symbolic-link resolution as
    section 4.13 of the POSIX.1-2017 Base Definitions describes it: a link is
    expanded where it is met, before any later "..". The kernel machine has no
    bound on the number of links; the checker's bound is part of its verdict.
  */
module ArchiveLinks {

  import opened Optional

  type Comp = string
  type Path = seq<Comp>
  type Links = map<Path, Path>

  const MAX_ENTRIES := 200000
  const MAX_EXPANSION := 8 * 1024 * 1024 * 1024
  const MAX_LINK_BYTES := 4096
  const MAX_FOLLOWED := 40

  // ---------------------------------------------------------------- kernel

  datatype Kernel = Kernel(stack: Path, pending: Path, followed: nat)

  function Pop(stack: Path): Path {
    if stack == [] then [] else stack[..|stack| - 1]
  }

  /** One component of path resolution, never bounded and never refused. */
  function Step(links: Links, k: Kernel): Kernel
    requires k.pending != []
  {
    var part, rest := k.pending[0], k.pending[1..];
    if part == "" || part == "." then k.(pending := rest)
    else if part == ".." then k.(stack := Pop(k.stack), pending := rest)
    else if k.stack + [part] in links then
      k.(pending := links[k.stack + [part]] + rest, followed := k.followed + 1)
    else k.(stack := k.stack + [part], pending := rest)
  }

  function Run(links: Links, k: Kernel, n: nat): Kernel
    decreases n
  {
    if n == 0 || k.pending == [] then k else Run(links, Step(links, k), n - 1)
  }

  predicate Inside(k: Kernel, root: Comp) {
    k.stack != [] && k.stack[0] == root
  }

  predicate NoDotDot(p: Path) {
    ".." !in p
  }

  /** After n steps the walk is over, it followed at most forty links, and no
      state on the way was outside `root`. */
  ghost predicate EndsInside(links: Links, root: Comp, k: Kernel, n: nat) {
    && Run(links, k, n).pending == []
    && Run(links, k, n).followed <= MAX_FOLLOWED
    && forall m: nat | m <= n :: Inside(Run(links, k, m), root)
  }

  ghost predicate ResolvesInside(links: Links, root: Comp, k: Kernel) {
    exists n: nat :: EndsInside(links, root, k, n)
  }

  /** What the checker must accept: not the root itself, and a walk from the
      link's own directory that ends without ever leaving the root. */
  ghost predicate LinkAccepted(links: Links, root: Comp, name: Path)
    requires name in links
  {
    && |name| > 1
    && ResolvesInside(links, root, Kernel(Pop(name), links[name], 0))
  }

  // --------------------------------------------------------------- checker

  /** The verdict of the checker's loop from one of its states. */
  function Checked(links: Links, root: Comp, resolved: Path, pending: Path, followed: nat): bool
    requires followed <= MAX_FOLLOWED
    decreases MAX_FOLLOWED - followed, |pending|
  {
    if pending == [] then resolved != [] && resolved[0] == root
    else
      var part, rest := pending[0], pending[1..];
      if part == "" || part == "." then Checked(links, root, resolved, rest, followed)
      else if part == ".." then |resolved| > 1 && Checked(links, root, Pop(resolved), rest, followed)
      else if resolved + [part] in links then
        followed < MAX_FOLLOWED && Checked(links, root, resolved, links[resolved + [part]] + rest, followed + 1)
      else Checked(links, root, resolved + [part], rest, followed)
  }

  lemma {:induction false} RunAfterStep(links: Links, k: Kernel, m: nat)
    requires k.pending != []
    ensures Run(links, k, m + 1) == Run(links, Step(links, k), m)
  {
  }

  lemma {:induction false} CheckedEndsInside(links: Links, root: Comp, k: Kernel) returns (n: nat)
    requires Inside(k, root) && k.followed <= MAX_FOLLOWED
    requires Checked(links, root, k.stack, k.pending, k.followed)
    ensures EndsInside(links, root, k, n)
    decreases MAX_FOLLOWED - k.followed, |k.pending|
  {
    if k.pending == [] {
      n := 0;
    } else {
      var next := Step(links, k);
      var m := CheckedEndsInside(links, root, next);
      n := m + 1;
      forall i: nat | i <= n ensures Inside(Run(links, k, i), root) {
        if i > 0 { RunAfterStep(links, k, i - 1); }
      }
    }
  }

  lemma {:induction false} FollowedGrows(links: Links, k: Kernel, n: nat)
    ensures k.followed <= Run(links, k, n).followed
    decreases n
  {
    if n > 0 && k.pending != [] { FollowedGrows(links, Step(links, k), n - 1); }
  }

  lemma {:induction false} EndsInsideChecked(links: Links, root: Comp, k: Kernel, n: nat)
    requires EndsInside(links, root, k, n)
    ensures k.followed <= MAX_FOLLOWED
    ensures Checked(links, root, k.stack, k.pending, k.followed)
    decreases n
  {
    FollowedGrows(links, k, n);
    assert Inside(Run(links, k, 0), root);
    if k.pending != [] {
      var next := Step(links, k);
      forall i: nat | i <= n - 1 ensures Inside(Run(links, next, i), root) {
        RunAfterStep(links, k, i);
        assert Inside(Run(links, k, i + 1), root);
      }
      EndsInsideChecked(links, root, next, n - 1);
      assert Inside(Run(links, k, 1), root);
      RunAfterStep(links, k, 0);
    }
  }

  /** The loop's verdict is the kernel's: accepted exactly when resolution from
      that directory ends, within forty links, without leaving the root. */
  lemma CheckedIsKernelResolution(links: Links, root: Comp, k: Kernel)
    requires Inside(k, root) && k.followed <= MAX_FOLLOWED
    ensures Checked(links, root, k.stack, k.pending, k.followed) <==> ResolvesInside(links, root, k)
  {
    if Checked(links, root, k.stack, k.pending, k.followed) {
      var n := CheckedEndsInside(links, root, k);
    }
    if ResolvesInside(links, root, k) {
      var n: nat :| EndsInside(links, root, k, n);
      EndsInsideChecked(links, root, k, n);
    }
  }

  /** From the extraction directory the only way into the root is the root's
      own name, and that name is a link here: the walk can never be accepted. */
  lemma {:induction false} RootLinkRejected(links: Links, root: Comp, pending: Path, followed: nat)
    requires followed <= MAX_FOLLOWED && [root] in links
    ensures !Checked(links, root, [], pending, followed)
    decreases MAX_FOLLOWED - followed, |pending|
  {
    if pending != [] {
      var part, rest := pending[0], pending[1..];
      if part == "" || part == "." {
        RootLinkRejected(links, root, rest, followed);
      } else if part != ".." {
        assert [] + [part] == [part];
        if [part] in links {
          if followed < MAX_FOLLOWED { RootLinkRejected(links, root, links[[part]] + rest, followed + 1); }
        } else {
          KeepsBase(links, root, [part], rest, followed);
        }
      }
    }
  }

  lemma {:induction false} KeepsBase(links: Links, root: Comp, resolved: Path, pending: Path, followed: nat)
    requires followed <= MAX_FOLLOWED && resolved != [] && resolved[0] != root
    ensures !Checked(links, root, resolved, pending, followed)
    decreases MAX_FOLLOWED - followed, |pending|
  {
    if pending != [] {
      var part, rest := pending[0], pending[1..];
      if part == "" || part == "." {
        KeepsBase(links, root, resolved, rest, followed);
      } else if part == ".." {
        if |resolved| > 1 { KeepsBase(links, root, Pop(resolved), rest, followed); }
      } else if resolved + [part] in links {
        if followed < MAX_FOLLOWED {
          KeepsBase(links, root, resolved, links[resolved + [part]] + rest, followed + 1);
        }
      } else {
        KeepsBase(links, root, resolved + [part], rest, followed);
      }
    }
  }

  /** The link loop: a stack of resolved components and a deque of components
      still to resolve. */
  method FollowLink(links: Links, root: Comp, name: Path) returns (ok: bool)
    requires name in links && name != [] && name[0] == root
    ensures ok <==> LinkAccepted(links, root, name)
  {
    var resolved := name[..|name| - 1];
    var pending := links[name];
    var followed := 0;
    ghost var verdict := Checked(links, root, resolved, pending, 0);
    LinkVerdict(links, root, name);
    while pending != []
      invariant followed <= MAX_FOLLOWED
      invariant verdict == Checked(links, root, resolved, pending, followed)
      decreases MAX_FOLLOWED - followed, |pending|
    {
      var part := pending[0];
      pending := pending[1..];
      if part == "" || part == "." {
        continue;
      }
      if part == ".." {
        if |resolved| <= 1 { return false; }
        resolved := resolved[..|resolved| - 1];
        continue;
      }
      var candidate := resolved + [part];
      if candidate in links {
        followed := followed + 1;
        if followed > MAX_FOLLOWED { return false; }
        pending := links[candidate] + pending;
      } else {
        resolved := resolved + [part];
      }
    }
    return resolved != [] && resolved[0] == root;
  }

  lemma LinkVerdict(links: Links, root: Comp, name: Path)
    requires name in links && name != [] && name[0] == root
    ensures Checked(links, root, Pop(name), links[name], 0) <==> LinkAccepted(links, root, name)
  {
    if |name| == 1 {
      assert name == [root] && Pop(name) == [];
      RootLinkRejected(links, root, links[name], 0);
    } else {
      CheckedIsKernelResolution(links, root, Kernel(Pop(name), links[name], 0));
    }
  }

  // ------------------------------------------------------------- the archive

  datatype Kind = Unset | Regular | Directory | Symlink | Other

  /** One archive entry. `filename` and the link text are split at '/', and
      `target` is None when the stored bytes are not UTF-8. */
  datatype Entry = Entry(filename: Path, kind: Kind, size: nat, target: Option<Path>)

  /** Trailing slashes are dropped before anything else looks at the name. */
  function Stripped(p: Path): (r: Path)
    ensures r <= p
    ensures r != [] ==> r[|r| - 1] != ""
    ensures forall i :: |r| <= i < |p| ==> p[i] == ""
  {
    if p != [] && p[|p| - 1] == "" then Stripped(p[..|p| - 1]) else p
  }

  predicate PlainComp(c: Comp) {
    c != "" && c != "." && c != ".." && '\\' !in c
  }

  predicate SafeName(name: Path) {
    name != [] && forall c :: c in name ==> PlainComp(c)
  }

  const METADATA: Comp := "__MACOSX"

  predicate Metadata(app: Comp, name: Path) {
    name != [] && name[0] == METADATA && (|name| == 1 || name[1] == app)
  }

  predicate UnderApp(app: Comp, name: Path) {
    name != [] && name[0] == app
  }

  /** Non-empty, relative, and free of backslash and NUL. */
  predicate RelativeTarget(target: Path) {
    && target != [] && target[0] != ""
    && forall c :: c in target ==> '\\' !in c && '\0' !in c
  }

  predicate EntryOk(app: Comp, e: Entry) {
    var name := Stripped(e.filename);
    && SafeName(name)
    && (UnderApp(app, name) || Metadata(app, name))
    && e.kind != Other
    && (e.kind == Symlink ==>
          && !Metadata(app, name)
          && e.size <= MAX_LINK_BYTES
          && e.target.Some? && RelativeTarget(e.target.value))
  }

  /** Normalisation and case folding act on each component separately. */
  function Keyed(key: Comp -> Comp, p: Path): (r: Path)
    ensures |r| == |p|
    ensures forall i :: 0 <= i < |p| ==> r[i] == key(p[i])
  {
    seq(|p|, i requires 0 <= i < |p| => key(p[i]))
  }

  function Canonical(key: Comp -> Comp, e: Entry): Path {
    Keyed(key, Stripped(e.filename))
  }

  function TotalSize(entries: seq<Entry>): nat {
    if entries == [] then 0 else TotalSize(entries[..|entries| - 1]) + entries[|entries| - 1].size
  }

  function Names(key: Comp -> Comp, entries: seq<Entry>): set<Path> {
    set i | 0 <= i < |entries| :: Canonical(key, entries[i])
  }

  function LinksOf(key: Comp -> Comp, entries: seq<Entry>): Links {
    if entries == [] then map[]
    else
      var rest, e := LinksOf(key, entries[..|entries| - 1]), entries[|entries| - 1];
      if e.kind == Symlink && e.target.Some? then rest[Canonical(key, e) := Keyed(key, e.target.value)] else rest
  }

  ghost predicate Distinct(key: Comp -> Comp, entries: seq<Entry>) {
    forall i, j :: 0 <= i < j < |entries| ==> Canonical(key, entries[i]) != Canonical(key, entries[j])
  }

  predicate ThroughLink(links: Links, name: Path) {
    exists i :: 1 <= i < |name| && name[..i] in links
  }

  ghost predicate ValidArchive(key: Comp -> Comp, app: Comp, entries: seq<Entry>) {
    && |entries| <= MAX_ENTRIES && TotalSize(entries) <= MAX_EXPANSION
    && EntriesOk(key, app, entries)
    && var links := LinksOf(key, entries);
       && (forall n :: n in Names(key, entries) ==> !ThroughLink(links, n))
       && (forall n :: n in links ==> LinkAccepted(links, key(app), n))
  }

  lemma {:induction false} LinksAreEntries(key: Comp -> Comp, app: Comp, entries: seq<Entry>)
    requires forall i :: 0 <= i < |entries| ==> EntryOk(app, entries[i])
    ensures forall n :: n in LinksOf(key, entries) ==>
      exists i :: 0 <= i < |entries| && n == Canonical(key, entries[i]) && entries[i].kind == Symlink
    ensures forall n :: n in LinksOf(key, entries) ==>
      n != [] && n[0] == key(app) && n in Names(key, entries)
  {
    if entries != [] {
      var last := |entries| - 1;
      LinksAreEntries(key, app, entries[..last]);
      assert EntryOk(app, entries[last]);
      forall n | n in LinksOf(key, entries)
        ensures exists i :: 0 <= i < |entries| && n == Canonical(key, entries[i]) && entries[i].kind == Symlink
      {
        if n in LinksOf(key, entries[..last]) {
          var i :| 0 <= i < last && n == Canonical(key, entries[..last][i]) && entries[..last][i].kind == Symlink;
          assert entries[i] == entries[..last][i];
        } else {
          assert n == Canonical(key, entries[last]);
        }
      }
    }
  }

  ghost predicate EntriesOk(key: Comp -> Comp, app: Comp, entries: seq<Entry>) {
    && (forall i :: 0 <= i < |entries| ==> EntryOk(app, entries[i]))
    && Distinct(key, entries)
  }

  lemma NamesExtend(key: Comp -> Comp, entries: seq<Entry>, i: nat)
    requires i < |entries|
    ensures Names(key, entries[..i + 1]) == Names(key, entries[..i]) + {Canonical(key, entries[i])}
  {
    assert entries[..i + 1][i] == entries[i];
    forall n | n in Names(key, entries[..i]) ensures n in Names(key, entries[..i + 1]) {
      var j :| 0 <= j < i && n == Canonical(key, entries[..i][j]);
      assert entries[..i + 1][j] == entries[..i][j];
    }
  }

  lemma PrefixOk(key: Comp -> Comp, app: Comp, entries: seq<Entry>, i: nat)
    requires i <= |entries| && EntriesOk(key, app, entries)
    ensures EntriesOk(key, app, entries[..i])
  {
    forall j | 0 <= j < i ensures EntryOk(app, entries[..i][j]) {
      assert entries[..i][j] == entries[j];
    }
  }

  lemma PrefixElements(entries: seq<Entry>, i: nat)
    requires i < |entries|
    ensures entries[..i + 1][i] == entries[i]
    ensures forall j :: 0 <= j < i ==> entries[..i + 1][j] == entries[..i][j] == entries[j]
  {
  }

  lemma OneMoreOk(key: Comp -> Comp, app: Comp, entries: seq<Entry>, i: nat)
    requires i < |entries| && EntriesOk(key, app, entries[..i])
    ensures EntriesOk(key, app, entries[..i + 1]) <==>
      EntryOk(app, entries[i]) && Canonical(key, entries[i]) !in Names(key, entries[..i])
  {
    PrefixElements(entries, i);
    if Canonical(key, entries[i]) in Names(key, entries[..i]) {
      RepeatedName(key, entries[..i], entries[..i + 1], i);
    } else {
      NewName(key, entries[..i], entries[..i + 1], i);
    }
  }

  lemma RepeatedName(key: Comp -> Comp, now: seq<Entry>, more: seq<Entry>, i: nat)
    requires |now| == i && |more| == i + 1 && forall j :: 0 <= j < i ==> more[j] == now[j]
    requires Canonical(key, more[i]) in Names(key, now)
    ensures !Distinct(key, more)
  {
    var j :| 0 <= j < i && Canonical(key, more[i]) == Canonical(key, now[j]);
    assert Canonical(key, more[j]) == Canonical(key, more[i]);
  }

  lemma NewName(key: Comp -> Comp, now: seq<Entry>, more: seq<Entry>, i: nat)
    requires |now| == i && |more| == i + 1 && forall j :: 0 <= j < i ==> more[j] == now[j]
    requires Distinct(key, now) && Canonical(key, more[i]) !in Names(key, now)
    ensures Distinct(key, more)
  {
    forall a, b | 0 <= a < b < |more| ensures Canonical(key, more[a]) != Canonical(key, more[b]) {
      if b == i {
        NameOf(key, now, a);
      } else {
        assert Canonical(key, now[a]) != Canonical(key, now[b]);
      }
    }
  }

  lemma NameOf(key: Comp -> Comp, entries: seq<Entry>, i: nat)
    requires i < |entries|
    ensures Canonical(key, entries[i]) in Names(key, entries)
  {
  }

  /** First pass: each entry by itself, collecting names and links. */
  method ScanEntries(key: Comp -> Comp, app: Comp, entries: seq<Entry>)
    returns (ok: bool, names: set<Path>, links: Links)
    ensures ok <==> EntriesOk(key, app, entries)
    ensures ok ==> names == Names(key, entries) && links == LinksOf(key, entries)
  {
    names, links := {}, map[];
    for i := 0 to |entries|
      invariant EntriesOk(key, app, entries[..i])
      invariant names == Names(key, entries[..i])
      invariant links == LinksOf(key, entries[..i])
    {
      var entry := entries[i];
      OneMoreOk(key, app, entries, i);
      if !EntryOk(app, entry) || Canonical(key, entry) in names {
        if EntriesOk(key, app, entries) { PrefixOk(key, app, entries, i + 1); }
        return false, names, links;
      }
      NamesExtend(key, entries, i);
      names := names + {Canonical(key, entry)};
      LinksExtend(key, entries, i);
      if entry.kind == Symlink {
        links := links[Canonical(key, entry) := Keyed(key, entry.target.value)];
      }
    }
    assert entries[..|entries|] == entries;
    ok := true;
  }

  lemma LinksExtend(key: Comp -> Comp, entries: seq<Entry>, i: nat)
    requires i < |entries|
    ensures LinksOf(key, entries[..i + 1]) ==
      if entries[i].kind == Symlink && entries[i].target.Some?
      then LinksOf(key, entries[..i])[Canonical(key, entries[i]) := Keyed(key, entries[i].target.value)]
      else LinksOf(key, entries[..i])
  {
    assert entries[..i + 1][..i] == entries[..i];
  }

  /** Second pass, over a set in any order. */
  method NoneThroughLink(links: Links, names: set<Path>) returns (ok: bool)
    ensures ok <==> forall n :: n in names ==> !ThroughLink(links, n)
  {
    var left := names;
    while left != {}
      invariant left <= names
      invariant forall n :: n in names && n !in left ==> !ThroughLink(links, n)
      decreases left
    {
      var n :| n in left;
      if ThroughLink(links, n) { return false; }
      left := left - {n};
    }
    ok := true;
  }

  /** Third pass, over a map in any order. */
  method AllLinksResolve(links: Links, root: Comp) returns (ok: bool)
    requires forall n :: n in links ==> n != [] && n[0] == root
    ensures ok <==> forall n :: n in links ==> LinkAccepted(links, root, n)
  {
    var todo := links.Keys;
    while todo != {}
      invariant todo <= links.Keys
      invariant forall n :: n in links && n !in todo ==> LinkAccepted(links, root, n)
      decreases todo
    {
      var n :| n in todo;
      var accepted := FollowLink(links, root, n);
      if !accepted { return false; }
      todo := todo - {n};
    }
    ok := true;
  }

  method Expansion(entries: seq<Entry>) returns (total: nat)
    ensures total == TotalSize(entries)
  {
    total := 0;
    for i := 0 to |entries|
      invariant total == TotalSize(entries[..i])
    {
      assert entries[..i + 1][..i] == entries[..i];
      total := total + entries[i].size;
    }
    assert entries[..|entries|] == entries;
  }

  /** The whole check, in its own order. */
  method ValidateArchive(key: Comp -> Comp, app: Comp, entries: seq<Entry>)
    returns (ok: bool, links: Links)
    ensures ok <==> ValidArchive(key, app, entries)
    ensures ok ==> links == LinksOf(key, entries)
  {
    links := map[];
    var total := Expansion(entries);
    if |entries| > MAX_ENTRIES || total > MAX_EXPANSION { return false, links; }
    var names: set<Path>;
    ok, names, links := ScanEntries(key, app, entries);
    if !ok { return; }
    LinksAreEntries(key, app, entries);
    ok := NoneThroughLink(links, names);
    if !ok { return; }
    ok := AllLinksResolve(links, key(app));
  }

  // ---------------------------------------------- what acceptance guarantees

  /** A link table every entry of which the checker accepts. */
  ghost predicate Accepted(links: Links, root: Comp) {
    forall n :: n in links ==> n != [] && n[0] == root && LinkAccepted(links, root, n)
  }

  /** The walk is inside, and what is pending is a checked piece of some link
      target followed by ordinary components of the path that was asked for. */
  ghost predicate Safe(links: Links, root: Comp, k: Kernel, t: Path, rest: Path, f: nat) {
    && Inside(k, root) && f <= MAX_FOLLOWED
    && k.pending == t + rest && NoDotDot(rest)
    && Checked(links, root, k.stack, t, f)
  }

  lemma SafeStep(links: Links, root: Comp, k: Kernel, t: Path, rest: Path, f: nat)
    returns (t': Path, rest': Path, f': nat)
    requires Accepted(links, root) && Safe(links, root, k, t, rest, f) && k.pending != []
    ensures Safe(links, root, Step(links, k), t', rest', f')
  {
    var candidate := k.stack + [k.pending[0]];
    if t == [] {
      f' := 0;
      rest' := rest[1..];
      assert rest[0] in rest;
      if candidate in links && rest[0] != "" && rest[0] != "." {
        t' := links[candidate];
        LinkVerdict(links, root, candidate);
        assert Pop(candidate) == k.stack;
      } else {
        t' := [];
      }
    } else {
      rest' := rest;
      assert k.pending[1..] == t[1..] + rest;
      if k.pending[0] != "" && k.pending[0] != "." && k.pending[0] != ".." && candidate in links {
        t', f' := links[candidate] + t[1..], f + 1;
        assert links[candidate] + (t[1..] + rest) == t' + rest;
      } else {
        t', f' := t[1..], f;
      }
    }
  }

  lemma {:induction false} SafeRun(links: Links, root: Comp, k: Kernel, t: Path, rest: Path, f: nat, n: nat)
    requires Accepted(links, root) && Safe(links, root, k, t, rest, f)
    ensures Inside(Run(links, k, n), root)
    decreases n
  {
    if n > 0 && k.pending != [] {
      var t', rest', f' := SafeStep(links, root, k, t, rest, f);
      SafeRun(links, root, Step(links, k), t', rest', f', n - 1);
    }
  }

  /** Every path without "..", archived or not, resolved below the app root
      with no bound on links: no state of the walk is outside the root. */
  lemma AcceptedArchiveConfines(key: Comp -> Comp, app: Comp, entries: seq<Entry>, path: Path, n: nat)
    requires ValidArchive(key, app, entries) && NoDotDot(path)
    ensures Inside(Run(LinksOf(key, entries), Kernel([key(app)], path, 0), n), key(app))
  {
    LinksAreEntries(key, app, entries);
    assert path == [] + path;
    SafeRun(LinksOf(key, entries), key(app), Kernel([key(app)], path, 0), [], path, 0, n);
  }

  /** A checked piece of a target is walked to its end, leaving the rest. */
  lemma {:induction false} ThroughTarget(links: Links, root: Comp, k: Kernel, t: Path, rest: Path, f: nat)
    returns (n: nat, end: Kernel)
    requires Inside(k, root) && f <= MAX_FOLLOWED && k.pending == t + rest
    requires Checked(links, root, k.stack, t, f)
    ensures Run(links, k, n) == end
    ensures Inside(end, root) && end.pending == rest
    ensures end.followed <= k.followed + (MAX_FOLLOWED - f)
    decreases MAX_FOLLOWED - f, |t|
  {
    if t == [] {
      n, end := 0, k;
    } else {
      var next := Step(links, k);
      var candidate := k.stack + [t[0]];
      assert k.pending[1..] == t[1..] + rest;
      var m: nat;
      if t[0] != "" && t[0] != "." && t[0] != ".." && candidate in links {
        assert links[candidate] + (t[1..] + rest) == (links[candidate] + t[1..]) + rest;
        m, end := ThroughTarget(links, root, next, links[candidate] + t[1..], rest, f + 1);
      } else {
        m, end := ThroughTarget(links, root, next, t[1..], rest, f);
      }
      n := m + 1;
      RunAfterStep(links, k, m);
    }
  }

  lemma {:induction false} RunAdds(links: Links, k: Kernel, m: nat, n: nat)
    ensures Run(links, Run(links, k, m), n) == Run(links, k, m + n)
    decreases m
  {
    if m > 0 && k.pending != [] {
      RunAdds(links, Step(links, k), m - 1, n);
    } else if k.pending == [] {
      assert Run(links, k, m) == k;
    }
  }

  /** Such a walk also ends: an accepted table has no cycle any path can meet. */
  lemma {:induction false} AcceptedWalkEnds(links: Links, root: Comp, k: Kernel) returns (n: nat)
    requires Accepted(links, root) && Inside(k, root) && NoDotDot(k.pending)
    ensures Run(links, k, n).pending == []
    ensures Inside(Run(links, k, n), root)
    decreases |k.pending|
  {
    if k.pending == [] {
      n := 0;
    } else {
      var next, rest := Step(links, k), k.pending[1..];
      var candidate := k.stack + [k.pending[0]];
      assert k.pending[0] in k.pending;
      var first: nat, mid: Kernel;
      if k.pending[0] != "" && k.pending[0] != "." && candidate in links {
        LinkVerdict(links, root, candidate);
        assert Pop(candidate) == k.stack;
        var m, end := ThroughTarget(links, root, next, links[candidate], rest, 0);
        first, mid := m + 1, end;
        RunAfterStep(links, k, m);
      } else {
        first, mid := 1, next;
        RunAfterStep(links, k, 0);
      }
      var last := AcceptedWalkEnds(links, root, mid);
      RunAdds(links, k, first, last);
      n := first + last;
    }
  }

  lemma AcceptedArchiveWalksEnd(key: Comp -> Comp, app: Comp, entries: seq<Entry>, path: Path)
    requires ValidArchive(key, app, entries) && NoDotDot(path)
    ensures exists n: nat :: Run(LinksOf(key, entries), Kernel([key(app)], path, 0), n).pending == []
  {
    LinksAreEntries(key, app, entries);
    var n := AcceptedWalkEnds(LinksOf(key, entries), key(app), Kernel([key(app)], path, 0));
  }

  /** Key functions that do not turn an ordinary component into a special one. */
  ghost predicate KeepsSpecial(key: Comp -> Comp) {
    forall c :: key(c) == "" || key(c) == "." || key(c) == ".." ==> key(c) == c
  }

  predicate Ordinary(p: Path) {
    "" !in p && "." !in p && ".." !in p
  }

  lemma {:induction false} WalkPlain(links: Links, done: Path, ahead: Path, rest: Path)
    requires Ordinary(ahead)
    requires forall i :: |done| < i <= |done| + |ahead| ==> (done + ahead)[..i] !in links
    ensures Run(links, Kernel(done, ahead + rest, 0), |ahead|) == Kernel(done + ahead, rest, 0)
    decreases |ahead|
  {
    if ahead == [] {
      assert done + ahead == done && ahead + rest == rest;
    } else {
      var k := Kernel(done, ahead + rest, 0);
      assert ahead[0] in ahead;
      assert (done + ahead)[..|done| + 1] == done + [ahead[0]];
      assert k.pending[1..] == ahead[1..] + rest;
      var next := Step(links, k);
      assert next == Kernel(done + [ahead[0]], ahead[1..] + rest, 0);
      assert (done + [ahead[0]]) + ahead[1..] == done + ahead;
      WalkPlain(links, done + [ahead[0]], ahead[1..], rest);
      RunAfterStep(links, k, |ahead| - 1);
    }
  }

  /** No archived name passes through a link, so the directory in which an
      entry (a link in particular) is written is the one its name spells. */
  lemma LexicalParentIsPhysical(key: Comp -> Comp, app: Comp, entries: seq<Entry>, e: Entry)
    requires ValidArchive(key, app, entries) && KeepsSpecial(key) && e in entries
    ensures var name := Canonical(key, e);
      name != [] &&
      Run(LinksOf(key, entries), Kernel([], name, 0), |name| - 1)
        == Kernel(Pop(name), name[|name| - 1..], 0)
  {
    var links, name := LinksOf(key, entries), Canonical(key, e);
    assert EntryOk(app, e);
    assert name in Names(key, entries);
    var parent := name[..|name| - 1];
    forall i | 1 <= i < |name| ensures name[..i] !in links {
      assert !ThroughLink(links, name);
    }
    assert Ordinary(parent) by { KeyedOrdinary(key, Stripped(e.filename)); }
    forall i | 0 < i <= |parent| ensures ([] + parent)[..i] !in links {
      assert ([] + parent)[..i] == name[..i];
    }
    assert [] + parent == parent && parent + name[|name| - 1..] == name;
    WalkPlain(links, [], parent, name[|name| - 1..]);
  }

  lemma KeyedOrdinary(key: Comp -> Comp, name: Path)
    requires KeepsSpecial(key) && SafeName(name)
    ensures Ordinary(Keyed(key, name))
  {
    forall i | 0 <= i < |name|
      ensures Keyed(key, name)[i] != "" && Keyed(key, name)[i] != "." && Keyed(key, name)[i] != ".."
    {
      assert PlainComp(name[i]);
    }
  }

  /** Resolving an archived entry by name, from the directory the archive is
      expanded into, stays below the first component of that name throughout. */
  lemma ArchivedEntryConfined(key: Comp -> Comp, app: Comp, entries: seq<Entry>, e: Entry, n: nat)
    requires ValidArchive(key, app, entries) && KeepsSpecial(key) && e in entries && n > 0
    ensures var name := Canonical(key, e);
      name != [] && Inside(Run(LinksOf(key, entries), Kernel([], name, 0), n), name[0])
  {
    LinksAreEntries(key, app, entries);
    assert EntryOk(app, e);
    KeyedOrdinary(key, Stripped(e.filename));
    NameConfined(LinksOf(key, entries), key(app), Canonical(key, e), n - 1);
  }

  lemma NameConfined(links: Links, root: Comp, name: Path, n: nat)
    requires Accepted(links, root) && name != [] && Ordinary(name)
    ensures Inside(Run(links, Kernel([], name, 0), n + 1), name[0])
  {
    var k := Kernel([], name, 0);
    assert name[0] in name && [] + [name[0]] == [name[0]];
    RunAfterStep(links, k, n);
    if name[0] == root {
      assert name[1..] == [] + name[1..];
      SafeRun(links, root, Step(links, k), [], name[1..], 0, n);
    } else {
      OtherRootRun(links, root, Step(links, k), name[0], n);
    }
  }

  lemma {:induction false} OtherRootRun(links: Links, root: Comp, k: Kernel, base: Comp, n: nat)
    requires forall m :: m in links ==> m != [] && m[0] == root
    requires Inside(k, base) && base != root && NoDotDot(k.pending)
    ensures Inside(Run(links, k, n), base)
    decreases n
  {
    if n > 0 && k.pending != [] {
      assert k.pending[0] in k.pending;
      OtherRootRun(links, root, Step(links, k), base, n - 1);
    }
  }
}
