/** The attachments that a task declared before it came to wait.

    A message that declares files is kept until a later one of the same input
    declares others, and is what a blocked or paused task answers with, as long
    as none of its files has changed.
  */
module ContinuedArtifacts {

  import opened Optional
  import opened WhiteSpace

  const OPENING := "<zerokun_files>"
  const CLOSING := "</zerokun_files>"

  /** What can be read at each path, by its digest; nothing where reading fails. */
  type Disk = map<string, string>

  /** Upper and lower case of the ASCII letters are the same. */
  function Lower(c: char): char {
    if 'A' <= c <= 'Z' then 'a' + (c - 'A') else c
  }

  predicate Alike(a: string, b: string) {
    |a| == |b| && forall i :: 0 <= i < |a| ==> Lower(a[i]) == Lower(b[i])
  }

  predicate Opening(message: string, i: nat) {
    i + |OPENING| <= |message| && Alike(message[i..i + |OPENING|], OPENING)
  }

  /** Where the first declaration begins, at `from` or later. */
  function FirstOpening(message: string, from: nat): (r: Option<nat>)
    requires from <= |message|
    ensures r.Some? ==> from <= r.value && Opening(message, r.value)
    ensures r.Some? ==> forall i: nat :: from <= i < r.value ==> !Opening(message, i)
    ensures r.None? ==> forall i: nat :: from <= i ==> !Opening(message, i)
    decreases |message| - from
  {
    if Opening(message, from) then Some(from)
    else if from == |message| then None
    else FirstOpening(message, from + 1)
  }

  predicate Declares(message: string) {
    FirstOpening(message, 0).Some?
  }

  /** What stands between the two tags, when nothing follows them. */
  function Content(message: string): Option<string> {
    var i := FirstOpening(message, 0);
    if i.None? then None
    else
      var rest := TrimEnd(message[i.value..]);
      var end := |rest| - |CLOSING|;
      if end < |OPENING| || !Alike(rest[end..], CLOSING) then None else Some(rest[|OPENING|..end])
  }

  lemma EndsInTag(close: string)
    requires Alike(close, CLOSING)
    ensures |close| == |CLOSING| == 16 && |OPENING| == 15 && !Space(close[15])
  {
    assert CLOSING[15] == '>';
    assert Lower(close[15]) == '>';
  }

  lemma Parts(head: string, body: string, tail: string)
    ensures (head + body + tail)[|head|..|head| + |body|] == body && (head + body + tail)[|head| + |body|..] == tail
  {
  }

  /** A declaration is read back, whatever the case of its tags and whatever text
      stands before it; after it there may be only white space. */
  lemma DeclarationIsRead(prose: string, open: string, body: string, close: string, space: string)
    requires Alike(open, OPENING) && Alike(close, CLOSING) && Blank(space)
    requires FirstOpening(prose + (open + body + close + space), 0) == Some(|prose|)
    ensures Content(prose + (open + body + close + space)) == Some(body)
  {
    var message, inner := prose + (open + body + close + space), open + body + close;
    EndsInTag(close);
    assert message[|prose|..] == inner + space;
    assert inner[|inner| - 1] == close[15];
    TrimEndDropsBlank(inner, space);
    Parts(open, body, close);
  }

  function Distinct(paths: seq<string>): (r: seq<string>)
    ensures forall p :: p in r <==> p in paths
    ensures forall i, j :: 0 <= i < j < |r| ==> r[i] != r[j]
  {
    if paths == [] then []
    else
      var last := |paths| - 1;
      var front := Distinct(paths[..last]);
      if paths[last] in front then front else front + [paths[last]]
  }

  datatype File = File(path: string, digest: string)

  function Fingerprints(paths: seq<string>, disk: Disk): (files: seq<File>)
    ensures forall f :: f in files <==> f.path in paths && f.path in disk && f.digest == disk[f.path]
  {
    if paths == [] then []
    else
      (if paths[0] in disk then [File(paths[0], disk[paths[0]])] else []) + Fingerprints(paths[1..], disk)
  }

  /** The files a message declares that can be read, or nothing when it declares
      nothing; none at all unless the whole declaration is in order. `parse` reads
      a JSON array of strings. */
  function Retained(parse: string -> Option<seq<string>>, message: string, disk: Disk): (files: Option<seq<File>>)
    ensures files.Some? <==> Declares(message)
  {
    var content := Content(message);
    if !Declares(message) then None
    else if content.None? || |message| > 65536 then Some([])
    else
      var paths := parse(content.value);
      Some(if paths.None? || !(1 <= |paths.value| <= 10) then [] else Fingerprints(Distinct(paths.value), disk))
  }

  /** The paths that a declaration in order names. */
  function Named(parse: string -> Option<seq<string>>, message: string): Option<seq<string>> {
    if Content(message).None? then None else parse(Content(message).value)
  }

  /** A declaration of one to ten paths, in a message that is not too long, gives
      exactly those of its files that can be read, each once; any other gives
      none. */
  lemma RetainedExactly(parse: string -> Option<seq<string>>, message: string, disk: Disk)
    requires Declares(message)
    ensures var files, named := Retained(parse, message, disk).value, Named(parse, message);
      if |message| <= 64 * 1024 && named.Some? && 0 < |named.value| <= 10 then
        && (forall f :: f in files <==> f.path in named.value && f.path in disk && f.digest == disk[f.path])
        && OnePerPath(files)
      else files == []
  {
    if Named(parse, message).Some? { FilesOf(Named(parse, message).value, disk); }
  }

  ghost predicate OnePerPath(files: seq<File>) {
    forall i, j :: 0 <= i < j < |files| ==> files[i].path != files[j].path
  }

  lemma OneMorePath(file: File, rest: seq<File>)
    requires OnePerPath(rest) && forall i :: 0 <= i < |rest| ==> rest[i].path != file.path
    ensures OnePerPath([file] + rest)
  {
  }

  lemma {:induction false} FingerprintsDiffer(paths: seq<string>, disk: Disk)
    requires forall i, j :: 0 <= i < j < |paths| ==> paths[i] != paths[j]
    ensures OnePerPath(Fingerprints(paths, disk))
  {
    if paths != [] {
      var rest := Fingerprints(paths[1..], disk);
      FingerprintsDiffer(paths[1..], disk);
      assert paths[0] !in paths[1..];
      forall i | 0 <= i < |rest| ensures rest[i].path != paths[0] { assert rest[i] in rest; }
      if paths[0] in disk { OneMorePath(File(paths[0], disk[paths[0]]), rest); } else { assert [] + rest == rest; }
    }
  }

  /** The files of distinct paths, as `Retained` takes them. */
  lemma FilesOf(paths: seq<string>, disk: Disk)
    ensures var files := Fingerprints(Distinct(paths), disk);
      && (forall f :: f in files <==> f.path in paths && f.path in disk && f.digest == disk[f.path])
      && OnePerPath(files)
  {
    FingerprintsDiffer(Distinct(paths), disk);
  }

  predicate Unchanged(files: seq<File>, disk: Disk) {
    forall i :: 0 <= i < |files| ==> files[i].path in disk && disk[files[i].path] == files[i].digest
  }

  datatype Goal = Active | Paused | Blocked | Complete

  predicate Waits(goal: Goal) {
    goal == Blocked || goal == Paused
  }

  // ------------------------------------------------------------- whole runs

  /** A message, the revision of its input, and the files it declared, if it did. */
  datatype Seen = Seen(message: string, revision: nat, files: Option<seq<File>>)

  datatype Pending = Pending(message: string, revision: nat, files: seq<File>)

  function After(p: Option<Pending>, seen: Seen): Option<Pending> {
    if seen.files.Some? then
      if seen.files.value == [] then None else Some(PendingAt(seen))
    else if p.Some? && p.value.revision != seen.revision then None
    else p
  }

  function PendingAt(s: Seen): Pending
    requires s.files.Some?
  {
    Pending(s.message, s.revision, s.files.value)
  }

  function Latest(history: seq<Seen>): Option<Pending> {
    if history == [] then None else After(Latest(history[..|history| - 1]), history[|history| - 1])
  }

  /** The message seen at `i` is the newest declaration, it has files, and the
      input has not changed since. */
  ghost predicate Stands(history: seq<Seen>, i: nat) {
    && i < |history| && history[i].files.Some? && history[i].files.value != []
    && forall j :: i < j < |history| ==> history[j].files.None? && history[j].revision == history[i].revision
  }

  lemma StoodBefore(history: seq<Seen>, k: nat)
    requires Stands(history, k) && k < |history| - 1
    ensures Stands(history[..|history| - 1], k)
  {
  }

  lemma OneStands(history: seq<Seen>, i: nat, k: nat)
    requires Stands(history, i) && Stands(history, k)
    ensures i == k
  {
  }

  /** What is pending is the message that stands, if one does. */
  lemma {:induction false} LatestStands(history: seq<Seen>)
    ensures match Latest(history)
            case None => forall i: nat :: !Stands(history, i)
            case Some(p) => exists i: nat :: Stands(history, i) && p == PendingAt(history[i])
  {
    if history != [] {
      var last := |history| - 1;
      var front, seen := history[..last], history[last];
      LatestStands(front);
      if Latest(history).Some? {
        if seen.files.Some? {
          assert Stands(history, last);
        } else {
          var i: nat :| Stands(front, i) && Latest(front).value == PendingAt(front[i]);
          assert Stands(history, i);
        }
      } else if k: nat :| Stands(history, k) && k < last {
        StoodBefore(history, k);
        var i: nat :| Stands(front, i) && Latest(front).value == PendingAt(front[i]);
        OneStands(front, i, k);
      }
    }
  }

  function Resolved(p: Option<Pending>, last: Seen, goal: Goal, disk: Disk): string {
    if last.files.Some? || !Waits(goal) || p.None? || p.value.revision != last.revision
      || !Unchanged(p.value.files, disk)
    then last.message
    else p.value.message
  }

  /** The message seen at `i` is answered with in place of the last one: the task
      waits, the last message declares nothing itself, the input is the same and
      no file has changed. */
  ghost predicate Chosen(history: seq<Seen>, i: nat, last: Seen, goal: Goal, disk: Disk) {
    && Stands(history, i) && history[i].revision == last.revision && last.files.None?
    && (goal == Blocked || goal == Paused)
    && forall f :: f in history[i].files.value ==> f.path in disk && disk[f.path] == f.digest
  }

  /** What the answer is, said of the messages themselves. */
  lemma ResolvedIsChosen(history: seq<Seen>, last: Seen, goal: Goal, disk: Disk)
    ensures var r := Resolved(Latest(history), last, goal, disk);
      if exists i: nat :: Chosen(history, i, last, goal, disk)
      then exists i: nat :: Chosen(history, i, last, goal, disk) && r == history[i].message
      else r == last.message
  {
    LatestStands(history);
    if i: nat :| Chosen(history, i, last, goal, disk) {
      var k: nat :| Stands(history, k) && Latest(history).value == PendingAt(history[k]);
      OneStands(history, i, k);
    } else if Latest(history).Some? {
      var k: nat :| Stands(history, k) && Latest(history).value == PendingAt(history[k]);
      assert !Chosen(history, k, last, goal, disk);
    }
  }

  class ContinuedArtifactMessage {
    const parse: string -> Option<seq<string>>
    var pending: Option<Pending>
    ghost var history: seq<Seen>

    ghost predicate Valid()
      reads this
    {
      pending == Latest(history)
    }

    constructor (parse: string -> Option<seq<string>>)
      ensures Valid() && history == [] && this.parse == parse
    {
      this.parse, pending, history := parse, None, [];
    }

    /** Even a declaration that is not in order replaces the one before it. */
    method Observe(message: string, revision: nat, disk: Disk)
      requires Valid()
      modifies this
      ensures Valid() && history == old(history) + [Seen(message, revision, Retained(parse, message, disk))]
    {
      var files := Retained(parse, message, disk);
      ghost var seen := Seen(message, revision, files);
      assert (history + [seen])[..|history|] == history;
      history := history + [seen];
      if pending.Some? && pending.value.revision != revision { pending := None; }
      if !Declares(message) { return; }
      pending := None;
      if files.value != [] { pending := Some(Pending(message, revision, files.value)); }
    }

    /** The answer of a task whose last message is `last`. */
    method Resolve(last: string, revision: nat, goal: Goal, disk: Disk) returns (r: string)
      requires Valid()
      ensures var message := Seen(last, revision, Retained(parse, last, disk));
        && r == Resolved(pending, message, goal, disk)
        && (r == last || exists i: nat :: Chosen(history, i, message, goal, disk) && r == history[i].message)
        && (forall i: nat :: Chosen(history, i, message, goal, disk) ==> r == history[i].message)
    {
      ghost var message := Seen(last, revision, Retained(parse, last, disk));
      ResolvedIsChosen(history, message, goal, disk);
      forall i: nat, k: nat | Chosen(history, i, message, goal, disk) && Chosen(history, k, message, goal, disk)
        ensures i == k
      {
        OneStands(history, i, k);
      }
      if Declares(last) || !Waits(goal) || pending.None? || pending.value.revision != revision { return last; }
      if !Unchanged(pending.value.files, disk) { return last; }
      return pending.value.message;
    }
  }
}
