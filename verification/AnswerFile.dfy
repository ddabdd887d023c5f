/** The answer file of a Claude advisor and the receipt that binds it.

    The terminal shows, possibly wrapped over many lines, one receipt naming the
    digest of the file and then the request marker. The decoder folds bounded
    runs of lines and accepts the file only under exactly one receipt.
  */
module AnswerFile {

  import opened Optional
  import opened WhiteSpace

  // ------------------------------------------------------------------- text

  /** A line without any white space. */
  function Squeeze(s: string): string {
    if s == "" then "" else (if Space(s[0]) then "" else [s[0]]) + Squeeze(s[1..])
  }

  function Fold(lines: seq<string>): string {
    if lines == [] then "" else Squeeze(lines[0]) + Fold(lines[1..])
  }

  lemma {:induction false} FoldOfMore(a: seq<string>, b: seq<string>)
    ensures Fold(a + b) == Fold(a) + Fold(b)
  {
    if a == [] {
      assert a + b == b;
    } else {
      FoldOfMore(a[1..], b);
      assert (a + b)[1..] == a[1..] + b;
      var first := Squeeze(a[0]);
      assert Fold(a + b) == first + (Fold(a[1..]) + Fold(b));
    }
  }

  function NoReturns(s: string): string {
    if s == "" then "" else (if s[0] == '\r' then "" else [s[0]]) + NoReturns(s[1..])
  }

  const BULLET := '\U{23FA}'

  /** The lines of a terminal as the decoder sees them. */
  function Normalize(line: string): string {
    var t := Trim(NoReturns(line));
    if t != "" && t[0] == BULLET then TrimStart(t[1..]) else t
  }

  lemma {:induction false} SqueezeOfMore(a: string, b: string)
    ensures Squeeze(a + b) == Squeeze(a) + Squeeze(b)
  {
    if a == "" {
      assert a + b == b;
    } else {
      SqueezeOfMore(a[1..], b);
      assert (a + b)[1..] == a[1..] + b;
    }
  }

  lemma {:induction false} SqueezeOfTrimStart(s: string)
    ensures Squeeze(TrimStart(s)) == Squeeze(s)
  {
    if s != "" && Space(s[0]) { SqueezeOfTrimStart(s[1..]); }
  }

  lemma {:induction false} SqueezeOfTrimEnd(s: string)
    ensures Squeeze(TrimEnd(s)) == Squeeze(s)
  {
    if s != "" && Space(s[|s| - 1]) {
      var front, last := s[..|s| - 1], s[|s| - 1..];
      SqueezeOfTrimEnd(front);
      SqueezeOfMore(front, last);
      assert s == front + last && last[1..] == "";
    }
  }

  lemma {:induction false} SqueezeOfNoReturns(s: string)
    ensures Squeeze(NoReturns(s)) == Squeeze(s)
  {
    if s != "" {
      SqueezeOfNoReturns(s[1..]);
      if s[0] == '\r' {
        assert Space(s[0]) && NoReturns(s) == NoReturns(s[1..]);
      } else {
        assert NoReturns(s)[1..] == NoReturns(s[1..]);
      }
    }
  }

  /** Whatever a terminal adds around a line, its text is what folding sees: only
      white space goes, and one bullet at the front. */
  lemma NormalizeKeepsText(line: string)
    ensures var text := Squeeze(line);
      Squeeze(Normalize(line)) == if text != "" && text[0] == BULLET then text[1..] else text
  {
    var s := NoReturns(line);
    var t := Trim(s);
    SqueezeOfNoReturns(line);
    SqueezeOfTrimStart(s);
    SqueezeOfTrimEnd(TrimStart(s));
    assert Squeeze(t) == Squeeze(line);
    if t != "" {
      TrimmedFront(s);
      SqueezeOfTrimStart(t[1..]);
    }
  }

  lemma TrimmedFront(s: string)
    requires Trim(s) != ""
    ensures !Space(Trim(s)[0])
  {
    if TrimStart(s) != "" { EndOfTrimmed(TrimStart(s)); }
  }

  // --------------------------------------------------------------- receipts

  const SAVED := "CLAUDE_ANSWER_SAVED="
  const REQUEST := "REQUEST_MARKER="

  predicate UpperHex(c: char) { '0' <= c <= '9' || 'A' <= c <= 'F' }

  predicate LowerHex(c: char) { '0' <= c <= '9' || 'a' <= c <= 'f' }

  predicate Nonce(s: string) {
    |s| == 32 && forall i :: 0 <= i < |s| ==> UpperHex(s[i])
  }

  predicate Hash(s: string) {
    |s| == 64 && forall i :: 0 <= i < |s| ==> LowerHex(s[i])
  }

  function Receipt(nonce: string, hash: string): string {
    SAVED + nonce + "SHA256=" + hash
  }

  /** The digest named by a folded record, when it is a receipt of the nonce. */
  function HashOf(nonce: string, record: string): (r: Option<string>)
    ensures r.Some? ==> Hash(r.value) && record == Receipt(nonce, r.value)
  {
    var head := SAVED + nonce + "SHA256=";
    if head <= record && Hash(record[|head|..]) then Some(record[|head|..]) else None
  }

  lemma HashOfReceipt(nonce: string, hash: string)
    requires Hash(hash)
    ensures HashOf(nonce, Receipt(nonce, hash)) == Some(hash)
  {
    var head := SAVED + nonce + "SHA256=";
    assert Receipt(nonce, hash)[|head|..] == hash;
  }

  /** The shape that keeps receipts apart: 123 characters, "CL" at the front,
      no other L, and a lower-case last character. */
  lemma ReceiptShape(nonce: string, hash: string)
    requires Nonce(nonce) && Hash(hash)
    ensures var r := Receipt(nonce, hash);
      && |r| == 123 && r[0] == 'C' && r[1] == 'L' && LowerHex(r[122])
      && forall i :: 2 <= i < |r| ==> r[i] != 'L'
  {
    var r := Receipt(nonce, hash);
    assert r[122] == hash[63];
    forall i | 2 <= i < |r| ensures r[i] != 'L' {
      if 20 <= i < 52 {
        assert r[i] == nonce[i - 20];
      } else if 59 <= i {
        assert r[i] == hash[i - 59];
      }
    }
  }

  /** Whether a line may begin a folded record with this prefix. */
  predicate Starts(prefix: string, line: string) {
    line != "" && (prefix <= line || line <= prefix)
  }

  function Bound(terminal: seq<string>, start: nat): nat {
    if start + 32 < |terminal| then start + 32 else |terminal|
  }

  datatype Record = Record(hash: string, end: nat)

  function FoldFrom(nonce: string, terminal: seq<string>, start: nat, end: nat, record: string): (r: Option<Record>)
    decreases Bound(terminal, start) - end
  {
    if end >= Bound(terminal, start) then None
    else
      var longer := record + Squeeze(terminal[end]);
      if |longer| > 160 then None
      else
        var hash := HashOf(nonce, longer);
        if hash.Some? then Some(Record(hash.value, end)) else FoldFrom(nonce, terminal, start, end + 1, longer)
  }

  function RecordAt(nonce: string, terminal: seq<string>, start: nat): (r: Option<Record>)
    requires start < |terminal|
  {
    if Starts(SAVED, terminal[start]) then FoldFrom(nonce, terminal, start, start, "") else None
  }

  function Records(nonce: string, terminal: seq<string>, start: nat): seq<Record>
    decreases |terminal| - start
  {
    if start >= |terminal| then []
    else
      var r := RecordAt(nonce, terminal, start);
      (if r.Some? then [r.value] else []) + Records(nonce, terminal, start + 1)
  }

  /** The lines `start` to `end` fold to a receipt of the nonce. */
  predicate FoldsTo(nonce: string, terminal: seq<string>, start: nat, r: Record) {
    && start <= r.end < Bound(terminal, start) && Hash(r.hash)
    && Fold(terminal[start..r.end + 1]) == Receipt(nonce, r.hash)
  }

  lemma FoldNext(terminal: seq<string>, start: nat, end: nat)
    requires start <= end < |terminal|
    ensures Fold(terminal[start..end + 1]) == Fold(terminal[start..end]) + Squeeze(terminal[end])
  {
    assert terminal[start..end + 1] == terminal[start..end] + [terminal[end]];
    FoldOfMore(terminal[start..end], [terminal[end]]);
    assert Fold([terminal[end]]) == Squeeze(terminal[end]);
  }

  lemma {:induction false} FoldFromMeans(nonce: string, terminal: seq<string>, start: nat, end: nat)
    requires start <= end <= |terminal|
    requires FoldFrom(nonce, terminal, start, end, Fold(terminal[start..end])).Some?
    ensures FoldsTo(nonce, terminal, start, FoldFrom(nonce, terminal, start, end, Fold(terminal[start..end])).value)
    decreases |terminal| - end
  {
    FoldNext(terminal, start, end);
    var longer := Fold(terminal[start..end + 1]);
    if HashOf(nonce, longer).None? { FoldFromMeans(nonce, terminal, start, end + 1); }
  }

  /** A folded run that is a receipt is found, at the line that completes it. */
  lemma {:induction false} FoldFromFinds(nonce: string, terminal: seq<string>, start: nat, end: nat, r: Record)
    requires Nonce(nonce) && FoldsTo(nonce, terminal, start, r) && start <= end <= r.end
    ensures var f := FoldFrom(nonce, terminal, start, end, Fold(terminal[start..end]));
      f.Some? && (Squeeze(terminal[r.end]) != "" ==> f.value == r)
    decreases r.end - end
  {
    FoldNext(terminal, start, end);
    var longer := Fold(terminal[start..end + 1]);
    FoldStaysShort(nonce, terminal, start, end, r);
    if end == r.end {
      HashOfReceipt(nonce, r.hash);
    } else if HashOf(nonce, longer).None? {
      FoldFromFinds(nonce, terminal, start, end + 1, r);
    } else {
      ShorterReceipt(nonce, terminal, start, end, r, HashOf(nonce, longer).value);
    }
  }

  /** A run that folds to a receipt stays within the bound on the way. */
  lemma FoldStaysShort(nonce: string, terminal: seq<string>, start: nat, end: nat, r: Record)
    requires Nonce(nonce) && FoldsTo(nonce, terminal, start, r) && start <= end <= r.end
    ensures |Fold(terminal[start..end + 1])| <= 123
  {
    ReceiptShape(nonce, r.hash);
    if end < r.end { RunGrows(terminal, start, end + 1, r.end); }
  }

  /** A shorter run is a receipt too only when the last line adds nothing. */
  lemma ShorterReceipt(nonce: string, terminal: seq<string>, start: nat, end: nat, r: Record, hash: string)
    requires Nonce(nonce) && FoldsTo(nonce, terminal, start, r) && start <= end < r.end
    requires Hash(hash) && Fold(terminal[start..end + 1]) == Receipt(nonce, hash)
    ensures Squeeze(terminal[r.end]) == ""
  {
    ReceiptShape(nonce, r.hash);
    ReceiptShape(nonce, hash);
    RunGrows(terminal, start, end + 1, r.end);
  }

  lemma RunGrows(terminal: seq<string>, start: nat, mid: nat, end: nat)
    requires start <= mid <= end < |terminal|
    ensures |Fold(terminal[start..mid])| + |Squeeze(terminal[end])| <= |Fold(terminal[start..end + 1])|
  {
    assert terminal[start..end + 1] == terminal[start..mid] + (terminal[mid..end] + [terminal[end]]);
    FoldOfMore(terminal[start..mid], terminal[mid..end] + [terminal[end]]);
    FoldOfMore(terminal[mid..end], [terminal[end]]);
    assert Fold([terminal[end]]) == Squeeze(terminal[end]);
  }

  lemma RecordAtMeans(nonce: string, terminal: seq<string>, start: nat)
    requires start < |terminal| && RecordAt(nonce, terminal, start).Some?
    ensures FoldsTo(nonce, terminal, start, RecordAt(nonce, terminal, start).value)
  {
    assert terminal[start..start] == [];
    FoldFromMeans(nonce, terminal, start, start);
  }

  lemma RecordAtFinds(nonce: string, terminal: seq<string>, start: nat, r: Record)
    requires Nonce(nonce) && start < |terminal| && Starts(SAVED, terminal[start]) && FoldsTo(nonce, terminal, start, r)
    ensures RecordAt(nonce, terminal, start).Some?
    ensures Squeeze(terminal[r.end]) != "" ==> RecordAt(nonce, terminal, start) == Some(r)
  {
    assert terminal[start..start] == [];
    FoldFromFinds(nonce, terminal, start, start, r);
  }

  // ------------------------------------------------------- a wrapped receipt

  ghost predicate NoRecord(nonce: string, lines: seq<string>) {
    forall i :: 0 <= i < |lines| ==> RecordAt(nonce, lines, i).None?
  }

  /** `pieces` is a hard wrap of `text`, whose prefix says where to begin. */
  ghost predicate Wraps(prefix: string, text: string, pieces: seq<string>) {
    && 1 <= |pieces| <= 32 && Fold(pieces) == text && Starts(prefix, pieces[0])
    && forall i :: 0 <= i < |pieces| ==> Squeeze(pieces[i]) != ""
  }

  lemma FoldOfPrefix(lines: seq<string>, k: nat)
    requires k <= |lines|
    ensures Fold(lines[..k]) <= Fold(lines) && Fold(lines) == Fold(lines[..k]) + Fold(lines[k..])
  {
    FoldOfMore(lines[..k], lines[k..]);
    assert lines[..k] + lines[k..] == lines;
  }

  lemma FoldOfOne(lines: seq<string>, k: nat)
    requires k < |lines| && Squeeze(lines[k]) != ""
    ensures |Fold(lines[k..])| >= 1 && |Fold(lines[..k + 1])| >= |Fold(lines[..k])| + 1
  {
    assert lines[..k + 1] == lines[..k] + [lines[k]];
    FoldOfMore(lines[..k], [lines[k]]);
    assert Fold([lines[k]]) == Squeeze(lines[k]);
  }

  lemma StartsIsText(prefix: string, line: string)
    requires Starts(prefix, line) && prefix != "" && !Space(prefix[0])
    ensures Squeeze(line) != ""
  {
  }

  /** A receipt is not made of some text and the beginning of a receipt. */
  lemma NotInFront(nonce: string, h: string, found: string, p: string, hash: string, rest: string)
    requires Nonce(nonce) && Hash(h) && Hash(hash)
    requires 1 <= |p| < |found| && found <= p + Receipt(nonce, hash) + rest
    ensures found != Receipt(nonce, h)
  {
    ReceiptShape(nonce, h);
    ReceiptShape(nonce, hash);
    var r := Receipt(nonce, hash);
    assert found[|p|] == r[0];
    if |p| + 1 < |found| { assert found[|p| + 1] == r[1]; }
  }

  /** Nor is it made of the end of a receipt and some text. */
  lemma NotInside(nonce: string, h: string, found: string, o: nat, hash: string, rest: string)
    requires Nonce(nonce) && Hash(h) && Hash(hash)
    requires 1 <= o < |Receipt(nonce, hash)| && found <= Receipt(nonce, hash)[o..] + rest
    ensures found != Receipt(nonce, h)
  {
    ReceiptShape(nonce, h);
    ReceiptShape(nonce, hash);
    var r := Receipt(nonce, hash);
    if 2 <= |found| {
      assert found[0] == r[o];
      if o < 122 { assert found[1] == r[o + 1]; }
    }
  }

  /** A wrapped receipt between lines that hold no other. */
  ghost predicate Layout(nonce: string, hash: string, before: seq<string>, pieces: seq<string>, after: seq<string>) {
    && Nonce(nonce) && Hash(hash) && Wraps(SAVED, Receipt(nonce, hash), pieces)
    && NoRecord(nonce, before) && NoRecord(nonce, after)
  }

  lemma SliceOfSlice(s: seq<string>, lo: nat, hi: nat, i: nat, j: nat)
    requires lo <= hi <= |s| && i <= j <= hi - lo
    ensures s[lo..hi][i..j] == s[lo + i..lo + j]
  {
    assert forall k :: 0 <= k < j - i ==> s[lo..hi][i..j][k] == s[lo..hi][i + k] == s[lo + i + k];
  }

  lemma SameRun(nonce: string, terminal: seq<string>, start: nat, r: Record, part: seq<string>, at: nat)
    requires at <= start <= r.end < at + |part| <= |terminal| && part == terminal[at..at + |part|]
    requires FoldsTo(nonce, terminal, start, r)
    ensures FoldsTo(nonce, part, start - at, Record(r.hash, r.end - at))
  {
    SliceOfSlice(terminal, at, at + |part|, start - at, r.end - at + 1);
  }

  lemma NoneBefore(nonce: string, hash: string, before: seq<string>, pieces: seq<string>, after: seq<string>, s: nat)
    requires Layout(nonce, hash, before, pieces, after) && s < |before|
    ensures RecordAt(nonce, before + (pieces + after), s).None?
  {
    var all := before + (pieces + after);
    if RecordAt(nonce, all, s).Some? {
      var r := RecordAt(nonce, all, s).value;
      RecordAtMeans(nonce, all, s);
      if r.end < |before| {
        SameRun(nonce, all, s, r, before, 0);
        RecordAtFinds(nonce, before, s, Record(r.hash, r.end));
      } else {
        OverlapFound(nonce, hash, before, pieces, after, s, r);
      }
    }
  }

  /** What a run that reaches into the receipt from before it folds to. */
  lemma OverlapFound(nonce: string, hash: string, before: seq<string>, pieces: seq<string>, after: seq<string>,
      s: nat, r: Record)
    requires Layout(nonce, hash, before, pieces, after) && s < |before| && Starts(SAVED, before[s])
    requires |before| <= r.end < |before| + |pieces| + |after|
    ensures !FoldsTo(nonce, before + (pieces + after), s, r)
  {
    var all := before + (pieces + after);
    var run, tail, k := all[s..r.end + 1], pieces + after, r.end + 1 - |before|;
    assert run == before[s..] + tail[..k];
    FoldOfMore(before[s..], tail[..k]);
    FoldOfMore(pieces, after);
    FoldOfPrefix(tail, k);
    StartsIsText(SAVED, before[s]);
    FoldOfOne(before[s..], 0);
    assert tail[0] == pieces[0];
    FoldOfFront(tail, k);
    if Hash(r.hash) {
      var p := Fold(before[s..]);
      assert p + Fold(tail) == p + Receipt(nonce, hash) + Fold(after);
      NotInFront(nonce, r.hash, Fold(run), p, hash, Fold(after));
    }
  }

  lemma FoldOfFront(lines: seq<string>, k: nat)
    requires 1 <= k <= |lines| && Squeeze(lines[0]) != ""
    ensures |Fold(lines[..k])| >= 1
  {
    assert lines[..k][0] == lines[0];
  }

  lemma NoneInside(nonce: string, hash: string, before: seq<string>, pieces: seq<string>, after: seq<string>, j: nat)
    requires Layout(nonce, hash, before, pieces, after) && 1 <= j < |pieces|
    ensures RecordAt(nonce, before + (pieces + after), |before| + j).None?
  {
    var all, s := before + (pieces + after), |before| + j;
    if RecordAt(nonce, all, s).Some? {
      var r := RecordAt(nonce, all, s).value;
      RecordAtMeans(nonce, all, s);
      InsideFound(nonce, hash, before, pieces, after, j, r);
    }
  }

  lemma InsideFound(nonce: string, hash: string, before: seq<string>, pieces: seq<string>, after: seq<string>,
      j: nat, r: Record)
    requires Layout(nonce, hash, before, pieces, after) && 1 <= j < |pieces|
    requires |before| + j <= r.end < |before| + |pieces| + |after|
    ensures !FoldsTo(nonce, before + (pieces + after), |before| + j, r)
  {
    var all, rest, k := before + (pieces + after), pieces[j..] + after, r.end + 1 - |before| - j;
    assert all[|before| + j..r.end + 1] == rest[..k];
    FoldOfPrefix(rest, k);
    FoldOfMore(pieces[j..], after);
    FoldOfPrefix(pieces, j);
    FoldOfOne(pieces, j);
    FoldOfFront(pieces, j);
    var o := |Fold(pieces[..j])|;
    assert Receipt(nonce, hash)[o..] == Fold(pieces[j..]);
    if Hash(r.hash) { NotInside(nonce, r.hash, Fold(rest[..k]), o, hash, Fold(after)); }
  }

  lemma TailRecord(nonce: string, front: seq<string>, after: seq<string>, i: nat)
    requires Nonce(nonce) && i < |after| && RecordAt(nonce, front + after, |front| + i).Some?
    ensures RecordAt(nonce, after, i).Some?
  {
    var all, s := front + after, |front| + i;
    var r := RecordAt(nonce, all, s).value;
    RecordAtMeans(nonce, all, s);
    assert all[|front|..|front| + |after|] == after && all[s] == after[i];
    SameRun(nonce, all, s, r, after, |front|);
    RecordAtFinds(nonce, after, i, Record(r.hash, r.end - |front|));
  }

  lemma NoneAfter(nonce: string, hash: string, before: seq<string>, pieces: seq<string>, after: seq<string>, i: nat)
    requires Layout(nonce, hash, before, pieces, after) && i < |after|
    ensures RecordAt(nonce, before + (pieces + after), |before| + |pieces| + i).None?
  {
    assert before + (pieces + after) == (before + pieces) + after;
    if RecordAt(nonce, (before + pieces) + after, |before + pieces| + i).Some? {
      TailRecord(nonce, before + pieces, after, i);
    }
  }

  lemma FoundAt(nonce: string, hash: string, before: seq<string>, pieces: seq<string>, after: seq<string>)
    requires Layout(nonce, hash, before, pieces, after)
    ensures RecordAt(nonce, before + (pieces + after), |before|) == Some(Record(hash, |before| + |pieces| - 1))
  {
    var all, end := before + (pieces + after), |before| + |pieces| - 1;
    assert all[|before|..end + 1] == pieces;
    assert all[end] == pieces[|pieces| - 1] && all[|before|] == pieces[0];
    RecordAtFinds(nonce, all, |before|, Record(hash, end));
  }

  lemma {:induction false} OneRecord(nonce: string, hash: string, before: seq<string>, pieces: seq<string>,
      after: seq<string>, s: nat)
    requires Layout(nonce, hash, before, pieces, after)
    requires s <= |before| + |pieces| + |after|
    ensures Records(nonce, before + (pieces + after), s)
      == if s <= |before| then [Record(hash, |before| + |pieces| - 1)] else []
    decreases |before| + |pieces| + |after| - s
  {
    if s < |before| + |pieces| + |after| {
      OneRecord(nonce, hash, before, pieces, after, s + 1);
      if s < |before| {
        NoneBefore(nonce, hash, before, pieces, after, s);
      } else if s == |before| {
        FoundAt(nonce, hash, before, pieces, after);
      } else if s < |before| + |pieces| {
        NoneInside(nonce, hash, before, pieces, after, s - |before|);
      } else {
        NoneAfter(nonce, hash, before, pieces, after, s - |before| - |pieces|);
      }
    }
  }

  // ---------------------------------------------------------------- the loops

  /** Folds lines from one that may begin a receipt until they are one, or too
      long, or too many. */
  method FoldRecord(nonce: string, terminal: seq<string>, index: nat) returns (r: Option<Record>)
    requires index < |terminal|
    ensures r == RecordAt(nonce, terminal, index)
  {
    if !Starts(SAVED, terminal[index]) { return None; }
    var record, end := "", index;
    while end < Bound(terminal, index)
      invariant index <= end <= Bound(terminal, index)
      invariant RecordAt(nonce, terminal, index) == FoldFrom(nonce, terminal, index, end, record)
    {
      record := record + Squeeze(terminal[end]);
      if |record| > 160 { return None; }
      var hash := HashOf(nonce, record);
      if hash.Some? { return Some(Record(hash.value, end)); }
      end := end + 1;
    }
    return None;
  }

  lemma RecordsNext(nonce: string, terminal: seq<string>, index: nat)
    requires index < |terminal|
    ensures var r, rest := RecordAt(nonce, terminal, index), Records(nonce, terminal, index + 1);
      Records(nonce, terminal, index) == if r.Some? then [r.value] + rest else rest
  {
  }

  lemma Regrouped(a: seq<Record>, b: seq<Record>, c: seq<Record>)
    ensures a + (b + c) == a + b + c
  {
  }

  method FindRecords(nonce: string, terminal: seq<string>) returns (records: seq<Record>)
    ensures records == Records(nonce, terminal, 0)
  {
    records := [];
    for index := 0 to |terminal|
      invariant records + Records(nonce, terminal, index) == Records(nonce, terminal, 0)
    {
      RecordsNext(nonce, terminal, index);
      var record := FoldRecord(nonce, terminal, index);
      if record.Some? {
        Regrouped(records, [record.value], Records(nonce, terminal, index + 1));
        records := records + [record.value];
      }
    }
  }

  /** Some run from line `from` on folds to exactly the marker. */
  ghost predicate HasMarker(marker: string, terminal: seq<string>, from: nat) {
    exists start: nat, end: nat :: from <= start && MarkerFolds(marker, terminal, start, end)
  }

  predicate MarkerFolds(marker: string, terminal: seq<string>, start: nat, end: nat) {
    && start <= end < Bound(terminal, start) && Starts(REQUEST, terminal[start])
    && Fold(terminal[start..end + 1]) == marker
  }

  lemma FoldGrows(terminal: seq<string>, start: nat, mid: nat, end: nat)
    requires start <= mid <= end <= |terminal|
    ensures Fold(terminal[start..mid]) <= Fold(terminal[start..end])
  {
    assert terminal[start..end] == terminal[start..mid] + terminal[mid..end];
    FoldOfMore(terminal[start..mid], terminal[mid..end]);
  }

  method MarkerAt(marker: string, terminal: seq<string>, start: nat) returns (found: bool)
    requires start < |terminal|
    ensures found <==> exists end: nat :: MarkerFolds(marker, terminal, start, end)
  {
    if !Starts(REQUEST, terminal[start]) { return false; }
    var record, end := "", start;
    assert terminal[start..start] == [];
    while end < Bound(terminal, start)
      invariant start <= end <= Bound(terminal, start)
      invariant record == Fold(terminal[start..end])
      invariant forall e :: start <= e < end ==> !MarkerFolds(marker, terminal, start, e)
    {
      FoldNext(terminal, start, end);
      record := record + Squeeze(terminal[end]);
      if record == marker {
        assert MarkerFolds(marker, terminal, start, end);
        return true;
      }
      if |record| >= |marker| {
        forall e: nat | end < e < Bound(terminal, start) ensures !MarkerFolds(marker, terminal, start, e) {
          FoldGrows(terminal, start, end + 1, e + 1);
        }
        return false;
      }
      end := end + 1;
    }
    return false;
  }

  method FindMarker(marker: string, terminal: seq<string>, from: nat) returns (found: bool)
    ensures found <==> HasMarker(marker, terminal, from)
  {
    var index := from;
    while index < |terminal|
      invariant from <= index
      invariant forall start: nat, end: nat :: from <= start < index ==> !MarkerFolds(marker, terminal, start, end)
    {
      found := MarkerAt(marker, terminal, index);
      if found { return; }
      index := index + 1;
    }
    return false;
  }

  /** A marker that is wrapped over at most 32 lines is seen. */
  lemma WrappedMarkerIsSeen(marker: string, before: seq<string>, pieces: seq<string>, after: seq<string>, from: nat)
    requires Wraps(REQUEST, marker, pieces) && from <= |before|
    ensures HasMarker(marker, before + pieces + after, from)
  {
    var all := before + pieces + after;
    assert all[|before|..|before| + |pieces|] == pieces;
    assert MarkerFolds(marker, all, |before|, |before| + |pieces| - 1);
  }

  // ----------------------------------------------------------------- the file

  function Split(s: string): (lines: seq<string>)
    ensures lines != [] && forall i :: 0 <= i < |lines| ==> '\n' !in lines[i]
  {
    if s == "" then [""]
    else if s[0] == '\n' then [""] + Split(s[1..])
    else
      var rest := Split(s[1..]);
      [[s[0]] + rest[0]] + rest[1..]
  }

  function Join(lines: seq<string>): string {
    if lines == [] then "" else if |lines| == 1 then lines[0] else lines[0] + "\n" + Join(lines[1..])
  }

  lemma {:induction false} JoinOfSplit(s: string)
    ensures Join(Split(s)) == s
  {
    if s != "" {
      JoinOfSplit(s[1..]);
      var rest := Split(s[1..]);
      if s[0] != '\n' && |rest| > 1 {
        assert Split(s)[1..] == rest[1..];
      }
    }
  }

  lemma {:induction false} SplitFirst(x: string, s: string)
    requires '\n' !in x
    ensures Split(x + "\n" + s) == [x] + Split(s)
  {
    var all := x + "\n" + s;
    if x == "" {
      assert all[1..] == s;
    } else {
      SplitFirst(x[1..], s);
      assert x[0] != '\n' && x == [x[0]] + x[1..];
      assert all[1..] == x[1..] + "\n" + s;
    }
  }

  lemma {:induction false} SplitNone(y: string)
    requires '\n' !in y
    ensures Split(y) == [y]
  {
    if y != "" {
      SplitNone(y[1..]);
      assert y[0] != '\n' && y == [y[0]] + y[1..];
    }
  }

  lemma {:induction false} SplitLast(s: string, y: string)
    requires '\n' !in y
    ensures Split(s + "\n" + y) == Split(s) + [y]
  {
    var all := s + "\n" + y;
    if s == "" {
      assert all[1..] == y;
      SplitNone(y);
    } else {
      SplitLast(s[1..], y);
      assert all[1..] == s[1..] + "\n" + y;
    }
  }

  function Uncrlf(s: string): string {
    if |s| < 2 then s
    else if s[0] == '\r' && s[1] == '\n' then "\n" + Uncrlf(s[2..])
    else [s[0]] + Uncrlf(s[1..])
  }

  function Clean(raw: string): string {
    TrimEnd(Uncrlf(raw))
  }

  function Begin(nonce: string): string {
    "CLAUDE_ANSWER_BEGIN=" + nonce
  }

  function End(nonce: string): string {
    "CLAUDE_ANSWER_END=" + nonce
  }

  predicate Boundary(nonce: string, line: string) {
    line == Begin(nonce) || line == End(nonce)
  }

  /** The lines between the two boundaries, when each occurs once, outermost. */
  ghost predicate Encloses(nonce: string, lines: seq<string>, body: seq<string>) {
    lines == [Begin(nonce)] + body + [End(nonce)] && Begin(nonce) !in body && End(nonce) !in body
  }

  method ReadBody(nonce: string, raw: string) returns (body: Option<seq<string>>)
    ensures body.Some? ==> Encloses(nonce, Split(Clean(raw)), body.value)
    ensures body.None? ==> forall b :: !Encloses(nonce, Split(Clean(raw)), b)
  {
    var lines := Split(Clean(raw));
    var begin, end := Begin(nonce), End(nonce);
    assert begin[14] == 'B' && end[14] == 'E';
    if lines[0] != begin || lines[|lines| - 1] != end { return None; }
    var count := 0;
    for i := 0 to |lines|
      invariant count == Boundaries(nonce, lines[..i])
    {
      assert lines[..i + 1][..i] == lines[..i];
      if lines[i] == begin || lines[i] == end { count := count + 1; }
    }
    assert lines[..|lines|] == lines;
    var middle := lines[1..|lines| - 1];
    assert lines == [begin] + middle + [end];
    BoundariesAround(nonce, middle);
    if count != 2 { return None; }
    return Some(middle);
  }

  function Boundaries(nonce: string, lines: seq<string>): nat {
    if lines == [] then 0
    else
      Boundaries(nonce, lines[..|lines| - 1]) + if Boundary(nonce, lines[|lines| - 1]) then 1 else 0
  }

  lemma {:induction false} NoBoundaries(nonce: string, lines: seq<string>)
    ensures Boundaries(nonce, lines) == 0 <==> forall i :: 0 <= i < |lines| ==> !Boundary(nonce, lines[i])
  {
    if lines != [] {
      var last := |lines| - 1;
      NoBoundaries(nonce, lines[..last]);
      assert forall i :: 0 <= i < last ==> lines[..last][i] == lines[i];
      var more := if Boundary(nonce, lines[last]) then 1 else 0;
      assert Boundaries(nonce, lines) == Boundaries(nonce, lines[..last]) + more;
    }
  }

  lemma {:induction false} OneInFront(nonce: string, line: string, lines: seq<string>)
    requires Boundary(nonce, line)
    ensures Boundaries(nonce, [line] + lines) == 1 + Boundaries(nonce, lines)
  {
    var all := [line] + lines;
    if lines == [] {
      assert all[..0] == [];
    } else {
      var last := |lines| - 1;
      OneInFront(nonce, line, lines[..last]);
      assert all[..|all| - 1] == [line] + lines[..last];
    }
  }

  lemma BoundariesAround(nonce: string, body: seq<string>)
    ensures Boundaries(nonce, [Begin(nonce)] + body + [End(nonce)]) == 2 + Boundaries(nonce, body)
    ensures Boundaries(nonce, body) == 0 <==> Begin(nonce) !in body && End(nonce) !in body
  {
    OneInFront(nonce, Begin(nonce), body);
    NoBoundaries(nonce, body);
    var all := [Begin(nonce)] + body + [End(nonce)];
    assert all[..|all| - 1] == [Begin(nonce)] + body;
  }

  // ------------------------------------------------------------- the decoder

  datatype Outcome =
    | InvalidMarker
    | Fallback
    | Pending
    | Answer(response: string, hash: string)

  predicate IsMarker(marker: string) {
    REQUEST <= marker && Nonce(marker[|REQUEST|..])
  }

  function Terminal(transcript: seq<string>): (terminal: seq<string>)
    ensures |terminal| == |transcript|
    ensures forall i :: 0 <= i < |transcript| ==> terminal[i] == Normalize(transcript[i])
  {
    seq(|transcript|, i requires 0 <= i < |transcript| => Normalize(transcript[i]))
  }

  /** What entitles the decoder to an answer: one receipt, naming the digest of
      the file, the request marker after it, and a body between boundaries. */
  ghost predicate Accepts(sha: string -> string, nonce: string, terminal: seq<string>, raw: string,
      body: seq<string>, record: Record) {
    && raw != "" && Records(nonce, terminal, 0) == [record] && sha(raw) == record.hash
    && HasMarker(REQUEST + nonce, terminal, record.end + 1)
    && Encloses(nonce, Split(Clean(raw)), body) && Trim(Join(body)) != ""
  }

  /** The body between the boundaries, if they are there. */
  function BodyOf(nonce: string, raw: string): (body: Option<seq<string>>)
    ensures body.Some? ==> Encloses(nonce, Split(Clean(raw)), body.value)
    ensures body.None? ==> forall b :: !Encloses(nonce, Split(Clean(raw)), b)
  {
    var lines := Split(Clean(raw));
    var begin, end := Begin(nonce), End(nonce);
    if |lines| < 2 || lines[0] != begin || lines[|lines| - 1] != end then None
    else
      var middle := lines[1..|lines| - 1];
      assert lines == [begin] + middle + [end];
      assert forall b :: lines == [begin] + b + [end] ==> ([begin] + b + [end])[1..|b| + 1] == b == middle;
      if begin in middle || end in middle then None else Some(middle)
  }

  /** What the decoder returns, from what the terminal shows and the file holds. */
  ghost function Reading(sha: string -> string, marker: string, transcript: seq<string>, raw: string): Outcome {
    if !IsMarker(marker) then InvalidMarker
    else
      var nonce, terminal := marker[|REQUEST|..], Terminal(transcript);
      var records, body := Records(nonce, terminal, 0), BodyOf(nonce, raw);
      if raw == "" && records == [] then Fallback
      else if raw == "" || |records| != 1 || sha(raw) != records[0].hash then Pending
      else if !HasMarker(marker, terminal, records[0].end + 1) then Pending
      else if body.None? || Trim(Join(body.value)) == "" then Pending
      else Answer(Trim(Join(body.value)), records[0].hash)
  }

  method ReadClaudeAnswerFile(sha: string -> string, marker: string, transcript: seq<string>, raw: string)
    returns (r: Outcome)
    ensures r == Reading(sha, marker, transcript, raw)
    ensures r.InvalidMarker? <==> !IsMarker(marker)
    ensures r.Fallback? <==>
              IsMarker(marker) && raw == "" && Records(marker[|REQUEST|..], Terminal(transcript), 0) == []
    ensures r.Answer? <==>
              IsMarker(marker)
              && exists body, record :: Accepts(sha, marker[|REQUEST|..], Terminal(transcript), raw, body, record)
    ensures r.Answer? ==>
              r.hash == sha(raw)
              && exists body, record ::
                   && Accepts(sha, marker[|REQUEST|..], Terminal(transcript), raw, body, record)
                   && r.response == Trim(Join(body))
  {
    if !IsMarker(marker) { return InvalidMarker; }
    var nonce := marker[|REQUEST|..];
    assert marker == REQUEST + nonce;
    var terminal := Terminal(transcript);
    var records := FindRecords(nonce, terminal);
    if raw == "" && records == [] { return Fallback; }
    if raw == "" || |records| != 1 { return Pending; }
    var record := records[0];
    if sha(raw) != record.hash { return Pending; }
    var marked := FindMarker(marker, terminal, record.end + 1);
    if !marked { return Pending; }
    var body := ReadBody(nonce, raw);
    if body.None? { return Pending; }
    EnclosedOnce(nonce, Split(Clean(raw)), body.value, BodyOf(nonce, raw).value);
    var response := Trim(Join(body.value));
    if response == "" {
      forall b | Encloses(nonce, Split(Clean(raw)), b) ensures b == body.value {
        EnclosedOnce(nonce, Split(Clean(raw)), b, body.value);
      }
      return Pending;
    }
    assert Accepts(sha, nonce, terminal, raw, body.value, record);
    return Answer(response, record.hash);
  }

  lemma EnclosedOnce(nonce: string, lines: seq<string>, a: seq<string>, b: seq<string>)
    requires Encloses(nonce, lines, a) && Encloses(nonce, lines, b)
    ensures a == b
  {
    assert lines[1..|lines| - 1] == a;
    assert lines[1..|lines| - 1] == b;
  }

  /** A file of one begin line, a body and one end line reads back as the body. */
  lemma BodyReadsBack(nonce: string, raw: string, body: string)
    requires Nonce(nonce) && Clean(raw) == Begin(nonce) + "\n" + (body + "\n" + End(nonce))
    requires Begin(nonce) !in Split(body) && End(nonce) !in Split(body)
    ensures Encloses(nonce, Split(Clean(raw)), Split(body)) && Join(Split(body)) == body
  {
    BoundaryIsOneLine(nonce);
    SplitFirst(Begin(nonce), body + "\n" + End(nonce));
    SplitLast(body, End(nonce));
    assert [Begin(nonce)] + (Split(body) + [End(nonce)]) == [Begin(nonce)] + Split(body) + [End(nonce)];
    JoinOfSplit(body);
  }

  lemma MarkerIsAfterReceipt(marker: string, before: seq<string>, pieces: seq<string>, between: seq<string>,
      markerPieces: seq<string>, after: seq<string>)
    requires Wraps(REQUEST, marker, markerPieces)
    ensures HasMarker(marker, before + (pieces + (between + markerPieces + after)), |before| + |pieces|)
  {
    assert before + (pieces + (between + markerPieces + after)) == before + pieces + between + markerPieces + after;
    WrappedMarkerIsSeen(marker, before + pieces + between, markerPieces, after, |before| + |pieces|);
  }

  /** The file holds the body between its boundaries. */
  ghost predicate Holds(nonce: string, raw: string, body: string) {
    && Clean(raw) == Begin(nonce) + "\n" + (body + "\n" + End(nonce)) && Trim(body) != ""
    && Begin(nonce) !in Split(body) && End(nonce) !in Split(body)
  }

  /** However the receipt and the marker were wrapped, and whatever else the
      terminal shows besides other receipts, the whole body comes back. */
  lemma AnswerSurvivesWrapping(sha: string -> string, nonce: string, before: seq<string>, pieces: seq<string>,
      between: seq<string>, markerPieces: seq<string>, after: seq<string>, terminal: seq<string>, raw: string,
      body: string)
    requires Layout(nonce, sha(raw), before, pieces, between + markerPieces + after)
    requires Wraps(REQUEST, REQUEST + nonce, markerPieces) && Holds(nonce, raw, body)
    requires terminal == before + (pieces + (between + markerPieces + after))
    ensures exists record :: Accepts(sha, nonce, terminal, raw, Split(body), record)
    ensures Join(Split(body)) == body
  {
    OneRecord(nonce, sha(raw), before, pieces, between + markerPieces + after, 0);
    MarkerIsAfterReceipt(REQUEST + nonce, before, pieces, between, markerPieces, after);
    BodyReadsBack(nonce, raw, body);
    assert raw != "" by { assert Clean("") == ""; }
    assert Accepts(sha, nonce, terminal, raw, Split(body), Record(sha(raw), |before| + |pieces| - 1));
  }

  // ----------------------------------------------------- what a terminal shows

  /** Lines of a terminal that show a text hard-wrapped, with any white space
      around the pieces and perhaps a bullet in front. */
  ghost predicate Displays(prefix: string, text: string, shown: seq<string>) {
    && 1 <= |shown| <= 32 && BULLET !in text && Starts(prefix, Normalize(shown[0]))
    && (forall i :: 0 <= i < |shown| ==> Squeeze(shown[i]) != "" && Squeeze(shown[i]) != [BULLET])
    && (Fold(shown) == text || Fold(shown) == [BULLET] + text)
  }

  lemma {:induction false} FoldWithoutBullets(shown: seq<string>)
    requires BULLET !in Fold(shown)
    ensures Fold(Terminal(shown)) == Fold(shown)
    ensures forall i :: 0 <= i < |shown| ==> Squeeze(Normalize(shown[i])) == Squeeze(shown[i])
  {
    if shown != [] {
      var first := Squeeze(shown[0]);
      assert Fold(shown) == first + Fold(shown[1..]);
      assert first != "" ==> first[0] == Fold(shown)[0];
      FoldWithoutBullets(shown[1..]);
      NormalizeKeepsText(shown[0]);
      assert Terminal(shown)[1..] == Terminal(shown[1..]);
    }
  }

  lemma FoldOfFirst(shown: seq<string>)
    requires shown != []
    ensures Fold(shown) == Squeeze(shown[0]) + Fold(shown[1..])
    ensures Fold(Terminal(shown)) == Squeeze(Normalize(shown[0])) + Fold(Terminal(shown[1..]))
  {
    assert Terminal(shown)[1..] == Terminal(shown[1..]);
  }

  lemma BulletIsDropped(text: string, first: string, rest: string)
    requires first != "" && first + rest == [BULLET] + text
    ensures first[0] == BULLET && text == first[1..] + rest
  {
    assert first[0] == (first + rest)[0] == BULLET;
    assert text == (first + rest)[1..] == first[1..] + rest;
  }

  lemma FoldOfBulleted(text: string, shown: seq<string>)
    requires shown != [] && BULLET !in text && Fold(shown) == [BULLET] + text && Squeeze(shown[0]) != ""
    ensures Fold(Terminal(shown)) == text && Squeeze(Normalize(shown[0])) == Squeeze(shown[0])[1..]
    ensures Squeeze(shown[0])[0] == BULLET && BULLET !in Fold(shown[1..])
  {
    FoldOfFirst(shown);
    BulletIsDropped(text, Squeeze(shown[0]), Fold(shown[1..]));
    NormalizeKeepsText(shown[0]);
    FoldWithoutBullets(shown[1..]);
  }

  lemma PiecesOfBulleted(text: string, shown: seq<string>, i: nat)
    requires i < |shown| && BULLET !in text && Fold(shown) == [BULLET] + text && Squeeze(shown[0]) != ""
    requires Squeeze(shown[i]) != "" && Squeeze(shown[i]) != [BULLET]
    ensures Squeeze(Terminal(shown)[i]) != ""
  {
    FoldOfBulleted(text, shown);
    if i > 0 {
      FoldWithoutBullets(shown[1..]);
      assert shown[1..][i - 1] == shown[i];
    }
  }

  /** What is displayed is a wrap of the text for the decoder. */
  lemma DisplayedIsWrapped(prefix: string, text: string, shown: seq<string>)
    requires Displays(prefix, text, shown)
    ensures Wraps(prefix, text, Terminal(shown))
  {
    if Fold(shown) == text {
      FoldWithoutBullets(shown);
    } else {
      FoldOfBulleted(text, shown);
      forall i | 0 <= i < |shown| ensures Squeeze(Terminal(shown)[i]) != "" {
        PiecesOfBulleted(text, shown, i);
      }
    }
  }

  lemma TerminalOfMore(a: seq<string>, b: seq<string>)
    ensures Terminal(a + b) == Terminal(a) + Terminal(b)
  {
  }

  lemma TerminalOfFive(before: seq<string>, receipt: seq<string>, between: seq<string>, marker: seq<string>,
      after: seq<string>)
    ensures Terminal(between + marker + after) == Terminal(between) + Terminal(marker) + Terminal(after)
    ensures Terminal(before + (receipt + (between + marker + after)))
      == Terminal(before) + (Terminal(receipt) + (Terminal(between) + Terminal(marker) + Terminal(after)))
  {
    TerminalOfMore(before, receipt + (between + marker + after));
    TerminalOfMore(receipt, between + marker + after);
    TerminalOfMore(between + marker, after);
    TerminalOfMore(between, marker);
  }

  /** A transcript that shows a wrapped receipt of the file's digest and later a
      wrapped marker, and no other receipt. */
  ghost predicate Shows(sha: string -> string, nonce: string, before: seq<string>, receipt: seq<string>,
      between: seq<string>, marker: seq<string>, after: seq<string>, raw: string) {
    && Nonce(nonce) && Hash(sha(raw))
    && Displays(SAVED, Receipt(nonce, sha(raw)), receipt) && Displays(REQUEST, REQUEST + nonce, marker)
    && NoRecord(nonce, Terminal(before)) && NoRecord(nonce, Terminal(between + marker + after))
  }

  lemma ShownIsLaidOut(sha: string -> string, nonce: string, before: seq<string>, receipt: seq<string>,
      between: seq<string>, marker: seq<string>, after: seq<string>, raw: string)
    requires Shows(sha, nonce, before, receipt, between, marker, after, raw)
    ensures var rest := Terminal(between) + Terminal(marker) + Terminal(after);
      && Layout(nonce, sha(raw), Terminal(before), Terminal(receipt), rest)
      && Terminal(before + (receipt + (between + marker + after))) == Terminal(before) + (Terminal(receipt) + rest)
    ensures Wraps(REQUEST, REQUEST + nonce, Terminal(marker))
  {
    DisplayedIsWrapped(SAVED, Receipt(nonce, sha(raw)), receipt);
    DisplayedIsWrapped(REQUEST, REQUEST + nonce, marker);
    TerminalOfFive(before, receipt, between, marker, after);
  }

  /** For every such transcript and every file that holds a body, the decoder
      returns the whole body and the digest. */
  lemma WrappedTranscriptIsRead(sha: string -> string, nonce: string, before: seq<string>, receipt: seq<string>,
      between: seq<string>, marker: seq<string>, after: seq<string>, raw: string, body: string)
    requires Shows(sha, nonce, before, receipt, between, marker, after, raw) && Holds(nonce, raw, body)
    ensures Reading(sha, REQUEST + nonce, before + (receipt + (between + marker + after)), raw)
      == Answer(Trim(body), sha(raw))
  {
    var whole := before + (receipt + (between + marker + after));
    ShownIsLaidOut(sha, nonce, before, receipt, between, marker, after, raw);
    AnswerSurvivesWrapping(sha, nonce, Terminal(before), Terminal(receipt), Terminal(between), Terminal(marker),
                           Terminal(after), Terminal(whole), raw, body);
    var record :| Accepts(sha, nonce, Terminal(whole), raw, Split(body), record);
    EnclosedOnce(nonce, Split(Clean(raw)), Split(body), BodyOf(nonce, raw).value);
    assert (REQUEST + nonce)[|REQUEST|..] == nonce;
  }

  lemma BoundaryIsOneLine(nonce: string)
    requires Nonce(nonce)
    ensures '\n' !in Begin(nonce) && '\n' !in End(nonce)
  {
    forall i | 0 <= i < |Begin(nonce)| ensures Begin(nonce)[i] != '\n' {
      if 20 <= i { assert Begin(nonce)[i] == nonce[i - 20]; }
    }
    forall i | 0 <= i < |End(nonce)| ensures End(nonce)[i] != '\n' {
      if 18 <= i { assert End(nonce)[i] == nonce[i - 18]; }
    }
  }

  // --------------------------------------------------------------- settling

  /** Sightings of one response since the last reset: the evidence, and when. */
  datatype Sighting = Sighting(key: string, now: int)

  /** The latest evidence has been unchanged since sighting i. */
  ghost predicate UnchangedSince(seen: seq<Sighting>, i: nat) {
    && i < |seen| && (forall j :: i <= j < |seen| ==> seen[j].key == seen[|seen| - 1].key)
    && (i > 0 ==> seen[i - 1].key != seen[|seen| - 1].key)
  }

  class ClaudeResponseSettling {
    const durationMs: nat
    var key: Option<string>
    var since: int
    ghost var seen: seq<Sighting>
    ghost var first: nat

    ghost predicate Valid()
      reads this
    {
      && (key.None? <==> seen == [])
      && (key.Some? ==>
            UnchangedSince(seen, first) && seen[|seen| - 1].key == key.value && seen[first].now == since)
    }

    constructor (durationMs: nat)
      ensures Valid() && seen == [] && this.durationMs == durationMs
    {
      this.durationMs := durationMs;
      key, since, seen, first := None, 0, [], 0;
    }

    method Reset()
      modifies this
      ensures Valid() && seen == []
    {
      key, seen := None, [];
    }

    /** Settled exactly when the evidence has not changed for the whole time. */
    method Exhausted(k: string, now: int) returns (settled: bool)
      requires Valid()
      modifies this
      ensures Valid() && seen == old(seen) + [Sighting(k, now)]
      ensures settled <==> now - seen[first].now >= durationMs
      ensures UnchangedSince(seen, first)
    {
      seen := seen + [Sighting(k, now)];
      if key != Some(k) {
        first := |seen| - 1;
        key, since := Some(k), now;
      }
      return now - since >= durationMs;
    }
  }
}
