/** Streaming UTF-8, as section 4 of RFC 3629 defines it. Text is represented by
    its own encoding, so decoding only decides how much of the bytes seen so far
    is text already. */
module Utf8 {

  import opened Optional

  type Byte = b: int | 0 <= b < 256

  datatype Head = Nothing | Incomplete | Bad | Character(length: nat)

  predicate Tail(b: Byte) { 0x80 <= b <= 0xBF }

  /** How many bytes a character takes, by its first byte; 0 for none. */
  function Length(first: Byte): (n: nat)
    ensures n <= 4
  {
    if first <= 0x7F then 1
    else if 0xC2 <= first <= 0xDF then 2
    else if 0xE0 <= first <= 0xEF then 3
    else if 0xF0 <= first <= 0xF4 then 4
    else 0
  }

  /** The second byte is narrower than a tail after four of the first bytes. */
  predicate Second(first: Byte, b: Byte) {
    if first == 0xE0 then 0xA0 <= b <= 0xBF
    else if first == 0xED then 0x80 <= b <= 0x9F
    else if first == 0xF0 then 0x90 <= b <= 0xBF
    else if first == 0xF4 then 0x80 <= b <= 0x8F
    else Tail(b)
  }

  function HeadOf(s: seq<Byte>): (h: Head)
    ensures h.Character? ==> 1 <= h.length <= |s|
  {
    if s == [] then Nothing
    else
      var n := Length(s[0]);
      if n == 0 then Bad
      else if n == 1 then Character(1)
      else if |s| < 2 then Incomplete
      else if !Second(s[0], s[1]) then Bad
      else if n == 2 then Character(2)
      else if |s| < 3 then Incomplete
      else if !Tail(s[2]) then Bad
      else if n == 3 then Character(3)
      else if |s| < 4 then Incomplete
      else if !Tail(s[3]) then Bad
      else Character(4)
  }

  lemma HeadOfMore(s: seq<Byte>, more: seq<Byte>)
    ensures HeadOf(s).Character? || HeadOf(s).Bad? ==> HeadOf(s + more) == HeadOf(s)
  {
  }

  /** The length of the text at the front of the bytes, and whether what follows
      it can never become text. */
  datatype Scanned = Scanned(length: nat, bad: bool)

  function Scan(s: seq<Byte>): (r: Scanned)
    ensures r.length <= |s|
    decreases |s|
  {
    var h := HeadOf(s);
    if !h.Character? then Scanned(0, h.Bad?)
    else
      var rest := Scan(s[h.length..]);
      Scanned(h.length + rest.length, rest.bad)
  }

  /** Decoding can stop after any chunk and go on from the bytes left over. */
  lemma {:induction false} ScanResumes(a: seq<Byte>, b: seq<Byte>)
    ensures Scan(a).bad ==> Scan(a + b) == Scan(a)
    ensures !Scan(a).bad ==>
              var n, rest := Scan(a).length, Scan(a[Scan(a).length..] + b);
              Scan(a + b) == Scanned(n + rest.length, rest.bad)
    decreases |a|
  {
    var h := HeadOf(a);
    HeadOfMore(a, b);
    if h.Character? {
      var tail := a[h.length..];
      ScanResumes(tail, b);
      assert (a + b)[h.length..] == tail + b;
      assert a[Scan(a).length..] == tail[Scan(tail).length..];
    } else {
      assert a[0..] + b == a + b;
    }
  }

  // ------------------------------------------------------- what it decodes

  /** The characters of Unicode: all code points but the surrogates. */
  type Scalar = c: int | 0 <= c <= 0xD7FF || 0xE000 <= c <= 0x10FFFF

  /** A tail byte that carries six bits. */
  function Six(bits: int): Byte
    requires 0 <= bits < 64
  {
    0x80 + bits
  }

  /** The octets of a character, by the table of section 3 of RFC 3629. */
  function Encode(c: Scalar): seq<Byte> {
    if c <= 0x7F then [c]
    else if c <= 0x7FF then [0xC0 + c / 64, Six(c % 64)]
    else if c <= 0xFFFF then [0xE0 + c / 64 / 64, Six(c / 64 % 64), Six(c % 64)]
    else [0xF0 + c / 64 / 64 / 64, Six(c / 64 / 64 % 64), Six(c / 64 % 64), Six(c % 64)]
  }

  lemma EncodedIsHead(c: Scalar, more: seq<Byte>)
    ensures HeadOf(Encode(c) + more) == Character(|Encode(c)|)
  {
  }

  /** The number `high` with six more bits. */
  function More(high: int, b: int): int {
    high * 64 + (b - 0x80)
  }

  lemma MoreDigits(high: nat, b: Byte)
    requires Tail(b)
    ensures More(high, b) / 64 == high && More(high, b) % 64 == b - 0x80
  {
  }

  lemma TwoOctets(a: Byte, b: Byte)
    requires Length(a) == 2 && Second(a, b)
    ensures var c := More(a - 0xC0, b); 0x80 <= c <= 0x7FF && Encode(c) == [a, b]
  {
    MoreDigits(a - 0xC0, b);
  }

  lemma ThreeOctets(a: Byte, b: Byte, d: Byte)
    requires Length(a) == 3 && Second(a, b) && Tail(d)
    ensures var c := More(More(a - 0xE0, b), d);
      0x800 <= c <= 0xFFFF && (c <= 0xD7FF || 0xE000 <= c) && Encode(c) == [a, b, d]
  {
    MoreDigits(a - 0xE0, b);
    MoreDigits(More(a - 0xE0, b), d);
  }

  lemma FourOctets(a: Byte, b: Byte, d: Byte, e: Byte)
    requires Length(a) == 4 && Second(a, b) && Tail(d) && Tail(e)
    ensures var c := More(More(More(a - 0xF0, b), d), e); 0x10000 <= c <= 0x10FFFF && Encode(c) == [a, b, d, e]
  {
    MoreDigits(a - 0xF0, b);
    MoreDigits(More(a - 0xF0, b), d);
    MoreDigits(More(More(a - 0xF0, b), d), e);
  }

  /** Whatever begins with a character begins with the octets of one. */
  lemma HeadIsEncoded(s: seq<Byte>) returns (c: Scalar)
    requires HeadOf(s).Character?
    ensures Encode(c) == s[..HeadOf(s).length]
  {
    var n := HeadOf(s).length;
    if n == 1 {
      c := s[0];
    } else if n == 2 {
      TwoOctets(s[0], s[1]);
      c := More(s[0] - 0xC0, s[1]);
    } else if n == 3 {
      ThreeOctets(s[0], s[1], s[2]);
      c := More(More(s[0] - 0xE0, s[1]), s[2]);
    } else {
      FourOctets(s[0], s[1], s[2], s[3]);
      c := More(More(More(s[0] - 0xF0, s[1]), s[2]), s[3]);
    }
  }

  function EncodeAll(text: seq<Scalar>): seq<Byte> {
    if text == [] then [] else Encode(text[0]) + EncodeAll(text[1..])
  }

  lemma {:induction false} EncodedIsWhole(text: seq<Scalar>)
    ensures var s := EncodeAll(text); Scan(s) == Scanned(|s|, false)
  {
    if text != [] {
      EncodedIsWhole(text[1..]);
      EncodedIsHead(text[0], EncodeAll(text[1..]));
      assert EncodeAll(text)[|Encode(text[0])|..] == EncodeAll(text[1..]);
    }
  }

  lemma OneMore(c: Scalar, rest: seq<Scalar>, head: seq<Byte>, tail: seq<Byte>)
    requires Encode(c) == head && EncodeAll(rest) == tail
    ensures exists text :: EncodeAll(text) == head + tail
  {
    assert ([c] + rest)[1..] == rest;
    assert EncodeAll([c] + rest) == head + tail;
  }

  /** Bytes are whole text exactly when they are the encoding of some characters. */
  lemma {:induction false} WholeIsEncoded(s: seq<Byte>)
    ensures Scan(s) == Scanned(|s|, false) <==> exists text :: EncodeAll(text) == s
    decreases |s|
  {
    if text :| EncodeAll(text) == s { EncodedIsWhole(text); }
    if Scan(s) == Scanned(|s|, false) {
      if s == [] {
        assert EncodeAll([]) == s;
      } else {
        var n := HeadOf(s).length;
        WholeIsEncoded(s[n..]);
        var c := HeadIsEncoded(s);
        var rest :| EncodeAll(rest) == s[n..];
        OneMore(c, rest, s[..n], s[n..]);
        SplitAt(s, n);
      }
    }
  }

  /** Octets that complete a head that is not whole yet. */
  function Filler(s: seq<Byte>): seq<Byte>
    requires s != []
  {
    var second := if s[0] == 0xE0 then 0xA0 else if s[0] == 0xF0 then 0x90 else 0x80;
    var all := [second, 0x80, 0x80];
    var n := Length(s[0]);
    if |s| < n then all[|s| - 1..n - 1] else []
  }

  lemma FillerCompletes(s: seq<Byte>)
    requires HeadOf(s).Incomplete?
    ensures var whole := s + Filler(s); HeadOf(whole) == Character(|whole|)
  {
    var whole, n := s + Filler(s), Length(s[0]);
    assert |whole| == n && whole[0] == s[0];
    assert |s| == 1 ==> whole[1] == if s[0] == 0xE0 then 0xA0 else if s[0] == 0xF0 then 0x90 else 0x80;
    assert |s| > 1 ==> whole[1] == s[1] && Second(s[0], s[1]);
    assert n > 2 ==> whole[2] == if |s| > 2 then s[2] else 0x80;
    assert n > 3 ==> whole[3] == 0x80;
  }

  lemma {:induction false} RestIsHead(s: seq<Byte>)
    ensures var rest := s[Scan(s).length..];
      !HeadOf(rest).Character? && (Scan(s).bad <==> HeadOf(rest).Bad?)
    decreases |s|
  {
    var h := HeadOf(s);
    if h.Character? {
      RestIsHead(s[h.length..]);
      assert s[h.length..][Scan(s[h.length..]).length..] == s[Scan(s).length..];
    }
  }

  /** And bytes are bad exactly when nothing that follows makes them text. */
  lemma BadIsNeverText(s: seq<Byte>)
    ensures Scan(s).bad <==> forall more, text :: EncodeAll(text) != s + more
  {
    if Scan(s).bad {
      forall more, text ensures EncodeAll(text) != s + more {
        ScanResumes(s, more);
        EncodedIsWhole(text);
      }
    } else {
      var rest := s[Scan(s).length..];
      RestIsHead(s);
      var more := if rest == [] then [] else Filler(rest);
      if rest != [] { FillerCompletes(rest); }
      ScanResumes(s, more);
      assert rest + more == [] || (rest + more)[|rest + more|..] == [];
      WholeIsEncoded(s + more);
      var text :| EncodeAll(text) == s + more;
    }
  }

  const BOM: seq<Byte> := [0xEF, 0xBB, 0xBF]

  function StripBom(text: seq<Byte>): (r: seq<Byte>) {
    if BOM <= text then text[3..] else text
  }

  /** All the text of a stream so far. */
  function Text(s: seq<Byte>): seq<Byte> {
    StripBom(s[..Scan(s).length])
  }

  lemma FirstIsWhole(s: seq<Byte>)
    requires Scan(s).length > 0
    ensures s[0] == 0xEF ==> Scan(s).length >= 3
  {
  }

  lemma StripKeepsRest(head: seq<Byte>, tail: seq<Byte>, text: seq<Byte>)
    requires Scan(head + tail).length == |head| > 0
    ensures StripBom(head + text) == StripBom(head) + text
  {
    FirstIsWhole(head + tail);
    assert (head + tail)[0] == head[0] == (head + text)[0];
  }

  /** Bytes left over and a new chunk make `text` and a new rest. */
  lemma TextGrows(head: seq<Byte>, tail: seq<Byte>, chunk: seq<Byte>)
    requires Scan(head + tail) == Scanned(|head|, false)
    ensures var scanned := Scan(tail + chunk);
      Scan(head + tail + chunk) == Scanned(|head| + scanned.length, scanned.bad)
  {
    ScanResumes(head + tail, chunk);
    assert (head + tail)[|head|..] == tail;
  }

  lemma SplitAt(s: seq<Byte>, n: nat)
    requires n <= |s|
    ensures s[..n] + s[n..] == s
  {
  }

  lemma Regrouped(a: seq<Byte>, b: seq<Byte>, c: seq<Byte>)
    ensures a + b + c == a + (b + c)
  {
  }

  lemma Decoded(head: seq<Byte>, tail: seq<Byte>, chunk: seq<Byte>, text: seq<Byte>, rest: seq<Byte>)
    requires Scan(head + tail) == Scanned(|head|, false)
    requires tail + chunk == text + rest && Scan(tail + chunk) == Scanned(|text|, false)
    ensures head + text + rest == head + tail + chunk
    ensures Scan(head + text + rest) == Scanned(|head + text|, false)
  {
    TextGrows(head, tail, chunk);
    Regrouped(head, tail, chunk);
    Regrouped(head, text, rest);
  }

  lemma Stripped(head: seq<Byte>, tail: seq<Byte>, text: seq<Byte>)
    requires Scan(head + tail) == Scanned(|head|, false)
    ensures StripBom(head + text) == StripBom(head) + if head != [] then text else StripBom(text)
  {
    if head != [] {
      StripKeepsRest(head, tail, text);
    } else {
      assert head + text == text && StripBom(head) == [];
    }
  }

  lemma TextOf(head: seq<Byte>, tail: seq<Byte>)
    requires Scan(head + tail) == Scanned(|head|, false)
    ensures Text(head + tail) == StripBom(head)
  {
    assert (head + tail)[..|head|] == head;
  }

  class TextDecoder {
    var tail: seq<Byte>
    var started: bool
    ghost var head: seq<Byte>

    ghost predicate Valid()
      reads this
    {
      Scan(head + tail) == Scanned(|head|, false) && (started <==> head != [])
    }

    ghost function Seen(): seq<Byte>
      reads this
    {
      head + tail
    }

    constructor ()
      ensures Valid() && head == [] && tail == []
    {
      tail, started, head := [], false, [];
      new;
      assert head + tail == [];
    }

    /** The text completed by one more chunk, or nothing when it is not UTF-8. */
    method Decode(chunk: seq<Byte>) returns (r: Option<seq<Byte>>)
      requires Valid()
      modifies this
      ensures r.None? <==> Scan(old(Seen()) + chunk).bad
      ensures r.Some? ==> Valid() && Seen() == old(Seen()) + chunk
      ensures r.Some? ==> StripBom(head) == StripBom(old(head)) + r.value
    {
      TextGrows(head, tail, chunk);
      var bytes := tail + chunk;
      var scanned := Scan(bytes);
      if scanned.bad { return None; }
      var text, rest := bytes[..scanned.length], bytes[scanned.length..];
      SplitAt(bytes, scanned.length);
      Decoded(head, tail, chunk, text, rest);
      Stripped(head, tail, text);
      r := Some(if started then text else StripBom(text));
      tail, started, head := rest, started || text != [], head + text;
    }
  }
}

/** Frames of a byte stream: one packet a line. */
module Framing {

  import opened Optional
  import opened Utf8

  datatype Line<+P> = Packet(packet: P) | Blank | Invalid

  /** The packets of the complete lines, the text after them, and whether every
      line was a packet within the limit so far. */
  datatype Reading<+P> = Reading(packets: seq<P>, rest: seq<Byte>, ok: bool)

  const NEWLINE: Byte := 10

  function LineEnd(text: seq<Byte>): (r: Option<nat>)
    ensures r.Some? ==> r.value < |text| && text[r.value] == NEWLINE && NEWLINE !in text[..r.value]
    ensures r.None? ==> NEWLINE !in text
  {
    if text == [] then None
    else if text[0] == NEWLINE then Some(0)
    else
      var r := LineEnd(text[1..]);
      if r.None? then None else Some(r.value + 1)
  }

  /** What a line brings: nothing when it is blank, or the end of the stream when
      it is too long or not a packet. */
  function Parse<P>(parse: seq<Byte> -> Line<P>, limit: nat, line: seq<Byte>): Line<P> {
    if |line| > limit then Invalid else parse(line)
  }

  function PacketsOf<P>(line: Line<P>): seq<P> {
    if line.Packet? then [line.packet] else []
  }

  /** Splitting the whole text at its newlines. */
  function Read<P>(parse: seq<Byte> -> Line<P>, limit: nat, text: seq<Byte>): (r: Reading<P>)
    decreases |text|
  {
    var end := LineEnd(text);
    if end.None? then Reading([], text, |text| <= limit)
    else
      var line := Parse(parse, limit, text[..end.value]);
      if line.Invalid? then Reading([], [], false) else After(line, Read(parse, limit, text[end.value + 1..]))
  }

  function After<P>(line: Line<P>, more: Reading<P>): Reading<P> {
    if line.Invalid? then Reading([], [], false)
    else Reading(PacketsOf(line) + more.packets, more.rest, more.ok)
  }

  lemma {:induction false} LineEndOf(line: seq<Byte>, rest: seq<Byte>)
    requires NEWLINE !in line
    ensures LineEnd(line + [NEWLINE] + rest) == Some(|line|)
  {
    if line != [] {
      LineEndOf(line[1..], rest);
      assert (line + [NEWLINE] + rest)[1..] == line[1..] + [NEWLINE] + rest;
    }
  }

  /** The first line is read on its own, then the rest. */
  lemma ReadLine<P>(parse: seq<Byte> -> Line<P>, limit: nat, line: seq<Byte>, rest: seq<Byte>)
    requires NEWLINE !in line
    ensures Read(parse, limit, line + [NEWLINE] + rest) == After(Parse(parse, limit, line), Read(parse, limit, rest))
  {
    LineEndOf(line, rest);
    var text := line + [NEWLINE] + rest;
    assert text[..|line|] == line && text[|line| + 1..] == rest;
  }

  lemma SplitAtLineEnd(text: seq<Byte>, i: nat)
    requires LineEnd(text) == Some(i)
    ensures text == text[..i] + [NEWLINE] + text[i + 1..]
  {
  }

  lemma {:induction false} LineEndBeyond(a: seq<Byte>, b: seq<Byte>)
    requires NEWLINE !in a && LineEnd(a + b).Some?
    ensures |a| <= LineEnd(a + b).value
  {
    if a != [] { assert (a + b)[1..] == a[1..] + b; LineEndBeyond(a[1..], b); }
  }

  lemma RestResumes<P>(parse: seq<Byte> -> Line<P>, limit: nat, a: seq<Byte>, b: seq<Byte>)
    requires LineEnd(a).None?
    ensures Resumed(Read(parse, limit, a), Read(parse, limit, a + b), Read(parse, limit, a + b))
  {
    if LineEnd(a + b).Some? { LineEndBeyond(a, b); }
  }

  lemma AfterResumes<P>(line: Line<P>, first: Reading<P>, whole: Reading<P>, more: Reading<P>)
    requires Resumed(first, whole, more)
    ensures Resumed(After(line, first), After(line, whole), more)
  {
  }

  /** Reading can stop after any part of the text and go on from the rest. */
  lemma {:induction false} ReadResumes<P>(parse: seq<Byte> -> Line<P>, limit: nat, a: seq<Byte>, b: seq<Byte>)
    ensures Resumed(Read(parse, limit, a), Read(parse, limit, a + b),
                    Read(parse, limit, Read(parse, limit, a).rest + b))
    decreases |a|
  {
    var end := LineEnd(a);
    if end.None? {
      RestResumes(parse, limit, a, b);
    } else {
      var line, rest := a[..end.value], a[end.value + 1..];
      SplitAtLineEnd(a, end.value);
      assert a + b == line + [NEWLINE] + (rest + b);
      ReadResumes(parse, limit, rest, b);
      ReadLine(parse, limit, line, rest);
      ReadLine(parse, limit, line, rest + b);
      AfterResumes(Parse(parse, limit, line), Read(parse, limit, rest), Read(parse, limit, rest + b),
                   Read(parse, limit, Read(parse, limit, rest).rest + b));
    }
  }

  ghost predicate Resumed<P>(first: Reading<P>, whole: Reading<P>, more: Reading<P>) {
    if first.ok then whole == more.(packets := first.packets + more.packets)
    else !whole.ok && whole.packets == first.packets
  }

  // ---------------------------------------------------------- the two readers

  /** A reader of one stream: the pane frames and the control session share its
      splitting, and differ in how they end. Once it has failed nothing more is
      taken from the stream. */
  class FrameReader<!P> {
    const parse: seq<Byte> -> Line<P>
    const limit: nat
    const decoder: TextDecoder
    var buffered: seq<Byte>
    var received: seq<P>
    var failed: bool
    ghost var seen: seq<Byte>

    ghost function Whole(): Reading<P>
      reads this
    {
      Read(parse, limit, Text(seen))
    }

    ghost predicate Running()
      reads this, decoder
    {
      decoder.Valid() && decoder.Seen() == seen && Whole() == Reading(received, buffered, true)
    }

    ghost predicate Broken()
      reads this
    {
      && received <= Whole().packets
      && (Scan(seen).bad || (!Whole().ok && Whole().packets == received))
    }

    ghost predicate Valid()
      reads this, decoder
    {
      if failed then Broken() else Running()
    }

    constructor (parse: seq<Byte> -> Line<P>, limit: nat)
      ensures Valid() && fresh(decoder) && !failed && seen == []
      ensures this.parse == parse && this.limit == limit
    {
      this.parse, this.limit := parse, limit;
      decoder := new TextDecoder();
      buffered, received, failed, seen := [], [], false, [];
      new;
      ghost var none: seq<Byte> := [];
      assert none + none == none;
    }

    /** Takes the complete lines off the buffer. */
    method TakeLines(ghost whole: Reading<P>)
      requires !failed && whole == Prepend(received, Read(parse, limit, buffered))
      modifies `buffered, `received, `failed
      ensures if failed then !whole.ok && whole.packets == received else whole == Reading(received, buffered, true)
    {
      while true
        invariant !failed && whole == Prepend(received, Read(parse, limit, buffered))
        decreases |buffered|
      {
        var end := LineEnd(buffered);
        if end.None? { break; }
        var line := Parse(parse, limit, buffered[..end.value]);
        if line.Invalid? {
          failed := true;
          return;
        }
        PrependAfter(received, line, Read(parse, limit, buffered[end.value + 1..]));
        received := received + PacketsOf(line);
        buffered := buffered[end.value + 1..];
      }
      failed := |buffered| > limit;
    }

    /** One more chunk of the stream; says whether the stream still stands. */
    method Push(bytes: seq<Byte>) returns (ok: bool)
      requires Valid()
      modifies this, decoder
      ensures Valid() && seen == old(seen) + bytes && ok == !failed
      ensures received == if Scan(seen).bad then old(received) else Whole().packets
    {
      ghost var was := Text(seen);
      seen := seen + bytes;
      if failed {
        BrokenStays(parse, limit, old(seen), bytes);
        return false;
      }
      ghost var head := decoder.head;
      TextOf(head, decoder.tail);
      var text := decoder.Decode(bytes);
      if text.None? {
        GrowsBy(parse, limit, old(seen), bytes);
        failed := true;
        return false;
      }
      TextOf(decoder.head, decoder.tail);
      ReadResumes(parse, limit, was, text.value);
      buffered := buffered + text.value;
      TakeLines(Whole());
      return !failed;
    }

    /** The end of a pane stream, which may not come inside a frame. */
    method FinishPane() returns (ok: bool)
      requires Valid()
      ensures ok <==> PaneAccepts(parse, limit, seen)
    {
      if failed { return false; }
      TextOf(decoder.head, decoder.tail);
      return decoder.tail == [] && buffered == [];
    }

    /** The end of a session stream, where a last line may lack its newline. */
    method FinishSession() returns (ok: bool)
      requires Valid()
      modifies `received
      ensures ok <==> SessionAccepts(parse, limit, seen)
      ensures received == if ok then SessionReading(parse, limit, seen).packets else old(received)
    {
      if failed { return false; }
      TextOf(decoder.head, decoder.tail);
      if decoder.tail != [] { return false; }
      var line := Parse(parse, limit, buffered);
      if line.Invalid? { return false; }
      received := received + PacketsOf(line);
      return true;
    }
  }

  /** A stream of whole characters whose every line is a packet in the limit,
      with nothing after the last newline. */
  ghost predicate PaneAccepts<P>(parse: seq<Byte> -> Line<P>, limit: nat, s: seq<Byte>) {
    Scan(s) == Scanned(|s|, false) && Read(parse, limit, Text(s)).ok && Read(parse, limit, Text(s)).rest == []
  }

  /** What comes after the last newline counts as a line of its own. */
  function SessionReading<P>(parse: seq<Byte> -> Line<P>, limit: nat, s: seq<Byte>): Reading<P> {
    var r := Read(parse, limit, Text(s));
    if !r.ok then r else Prepend(r.packets, After(Parse(parse, limit, r.rest), Reading([], [], true)))
  }

  ghost predicate SessionAccepts<P>(parse: seq<Byte> -> Line<P>, limit: nat, s: seq<Byte>) {
    Scan(s) == Scanned(|s|, false) && SessionReading(parse, limit, s).ok
  }

  lemma {:induction false} RestHasNoLine<P>(parse: seq<Byte> -> Line<P>, limit: nat, text: seq<Byte>)
    ensures NEWLINE !in Read(parse, limit, text).rest
    decreases |text|
  {
    var end := LineEnd(text);
    if end.Some? { RestHasNoLine(parse, limit, text[end.value + 1..]); }
  }

  /** A session reads its stream as if a newline ended it. */
  lemma SessionEndsItsLine<P>(parse: seq<Byte> -> Line<P>, limit: nat, s: seq<Byte>)
    requires Read(parse, limit, Text(s)).ok
    ensures SessionReading(parse, limit, s) == Read(parse, limit, Text(s) + [NEWLINE])
  {
    var r := Read(parse, limit, Text(s));
    RestHasNoLine(parse, limit, Text(s));
    ReadResumes(parse, limit, Text(s), [NEWLINE]);
    ReadLine(parse, limit, r.rest, []);
    assert r.rest + [NEWLINE] + [] == r.rest + [NEWLINE];
  }

  lemma TextGrowth(head: seq<Byte>, tail: seq<Byte>, more: seq<Byte>) returns (text: seq<Byte>)
    requires Scan(head + tail) == Scanned(|head|, false)
    ensures Text(head + tail + more) == StripBom(head) + text
  {
    TextGrows(head, tail, more);
    Regrouped(head, tail, more);
    text := (tail + more)[..Scan(tail + more).length];
    TakeBeyond(head, tail + more, |text|);
    Stripped(head, tail, text);
    if head == [] { text := StripBom(text); }
  }

  lemma TakeBeyond(a: seq<Byte>, b: seq<Byte>, n: nat)
    requires n <= |b|
    ensures (a + b)[..|a| + n] == a + b[..n]
  {
  }

  lemma GrowsBy<P>(parse: seq<Byte> -> Line<P>, limit: nat, s: seq<Byte>, more: seq<Byte>)
    requires !Scan(s).bad
    ensures Read(parse, limit, Text(s)).packets <= Read(parse, limit, Text(s + more)).packets
    ensures !Read(parse, limit, Text(s)).ok ==>
              !Read(parse, limit, Text(s + more)).ok
              && Read(parse, limit, Text(s)).packets == Read(parse, limit, Text(s + more)).packets
  {
    SplitAt(s, Scan(s).length);
    var text := TextGrowth(s[..Scan(s).length], s[Scan(s).length..], more);
    ReadResumes(parse, limit, Text(s), text);
  }

  lemma BrokenStays<P>(parse: seq<Byte> -> Line<P>, limit: nat, s: seq<Byte>, more: seq<Byte>)
    ensures Scan(s).bad ==> Scan(s + more).bad && Text(s + more) == Text(s)
    ensures !Scan(s).bad ==> Read(parse, limit, Text(s)).packets <= Read(parse, limit, Text(s + more)).packets
    ensures !Scan(s).bad && !Read(parse, limit, Text(s)).ok ==>
              !Read(parse, limit, Text(s + more)).ok
              && Read(parse, limit, Text(s)).packets == Read(parse, limit, Text(s + more)).packets
  {
    if Scan(s).bad {
      ScanResumes(s, more);
      assert (s + more)[..Scan(s).length] == s[..Scan(s).length];
    } else {
      GrowsBy(parse, limit, s, more);
    }
  }

  function Prepend<P>(packets: seq<P>, r: Reading<P>): Reading<P> {
    r.(packets := packets + r.packets)
  }

  lemma PrependAfter<P>(packets: seq<P>, line: Line<P>, more: Reading<P>)
    requires !line.Invalid?
    ensures Prepend(packets, After(line, more)) == Prepend(packets + PacketsOf(line), more)
  {
  }

  // --------------------------------------------------------------- whole runs

  function Concat(chunks: seq<seq<Byte>>): seq<Byte> {
    if chunks == [] then [] else Concat(chunks[..|chunks| - 1]) + chunks[|chunks| - 1]
  }

  /** What a reader has received after these chunks: the packets of the text so
      far, except that a chunk that brings a byte that is not UTF-8 brings nothing,
      not even the lines in front of that byte. */
  function Received<P>(parse: seq<Byte> -> Line<P>, limit: nat, chunks: seq<seq<Byte>>): seq<P>
    decreases |chunks|
  {
    if chunks == [] then []
    else if Scan(Concat(chunks)).bad then Received(parse, limit, chunks[..|chunks| - 1])
    else Read(parse, limit, Text(Concat(chunks))).packets
  }

  /** A session also receives a last line without its newline. */
  ghost function SessionReceived<P>(parse: seq<Byte> -> Line<P>, limit: nat, chunks: seq<seq<Byte>>): seq<P> {
    if SessionAccepts(parse, limit, Concat(chunks)) then SessionReading(parse, limit, Concat(chunks)).packets
    else Received(parse, limit, chunks)
  }

  method PushAll<P>(reader: FrameReader<P>, chunks: seq<seq<Byte>>)
    requires reader.Valid() && reader.seen == [] && reader.received == []
    modifies reader, reader.decoder
    ensures reader.Valid() && reader.seen == Concat(chunks)
    ensures reader.received == Received(reader.parse, reader.limit, chunks)
  {
    for i := 0 to |chunks|
      invariant reader.Valid() && reader.seen == Concat(chunks[..i])
      invariant reader.received == Received(reader.parse, reader.limit, chunks[..i])
    {
      assert chunks[..i + 1][..i] == chunks[..i];
      var _ := reader.Push(chunks[i]);
    }
    assert chunks[..|chunks|] == chunks;
  }

  /** The verdict on a stream does not depend on its chunks. */
  method ReadPane<P>(parse: seq<Byte> -> Line<P>, limit: nat, chunks: seq<seq<Byte>>)
    returns (packets: seq<P>, accepted: bool)
    ensures accepted <==> PaneAccepts(parse, limit, Concat(chunks))
    ensures packets == Received(parse, limit, chunks)
  {
    var reader := new FrameReader(parse, limit);
    PushAll(reader, chunks);
    accepted := reader.FinishPane();
    packets := reader.received;
  }

  method ReadSession<P>(parse: seq<Byte> -> Line<P>, limit: nat, chunks: seq<seq<Byte>>)
    returns (packets: seq<P>, accepted: bool)
    ensures accepted <==> SessionAccepts(parse, limit, Concat(chunks))
    ensures packets == SessionReceived(parse, limit, chunks)
  {
    var reader := new FrameReader(parse, limit);
    PushAll(reader, chunks);
    accepted := reader.FinishSession();
    packets := reader.received;
  }

  // ------------------------------------------------------- what chunks decide

  lemma {:induction false} ReceivedIsPrefix<P>(parse: seq<Byte> -> Line<P>, limit: nat, chunks: seq<seq<Byte>>)
    ensures Received(parse, limit, chunks) <= Read(parse, limit, Text(Concat(chunks))).packets
    ensures !Scan(Concat(chunks)).bad ==>
              Received(parse, limit, chunks) == Read(parse, limit, Text(Concat(chunks))).packets
    decreases |chunks|
  {
    if chunks != [] {
      var front := chunks[..|chunks| - 1];
      ReceivedIsPrefix(parse, limit, front);
      BrokenStays(parse, limit, Concat(front), chunks[|chunks| - 1]);
    }
  }

  lemma ConcatOfOne(a: seq<Byte>)
    ensures Concat([a]) == a
  {
    assert [a][..0] == [] && Concat([a]) == [] + a;
  }

  lemma ConcatOfTwo(a: seq<Byte>, b: seq<Byte>)
    ensures Concat([a, b]) == a + b
  {
    ConcatOfOne(a);
    assert [a, b][..1] == [a];
  }

  lemma {:induction false} TextIsWhole(s: seq<Byte>)
    ensures var n := Scan(s).length; Scan(s[..n]) == Scanned(n, false)
    decreases |s|
  {
    var h, n := HeadOf(s), Scan(s).length;
    if h.Character? {
      var rest := s[h.length..];
      TextIsWhole(rest);
      assert s[..n][h.length..] == rest[..Scan(rest).length];
      assert HeadOf(s[..n]) == h;
    }
  }

  /** In one chunk nothing is received of a stream that is not UTF-8. */
  lemma OneBadChunk<P>(parse: seq<Byte> -> Line<P>, limit: nat, s: seq<Byte>)
    requires Scan(s).bad
    ensures Concat([s]) == s && Received(parse, limit, [s]) == []
  {
    ConcatOfOne(s);
    assert [s][..0] == [];
  }

  /** Cut where its text ends, all of the text is received. */
  lemma CutAtText<P>(parse: seq<Byte> -> Line<P>, limit: nat, s: seq<Byte>)
    requires Scan(s).bad
    ensures var n := Scan(s).length;
      && Concat([s[..n], s[n..]]) == s
      && Received(parse, limit, [s[..n], s[n..]]) == Read(parse, limit, Text(s)).packets
  {
    var n := Scan(s).length;
    var front, chunks := s[..n], [s[..n], s[n..]];
    SplitAt(s, n);
    ConcatOfTwo(front, s[n..]);
    ConcatOfOne(front);
    TextIsWhole(s);
    assert front[..n] == front && chunks[..1] == [front];
  }

  /** Two readers of one stream receive the same, whatever their chunks. */
  ghost predicate ChunksDoNotMatter<P(!new)>(parse: seq<Byte> -> Line<P>, limit: nat, s: seq<Byte>) {
    forall a, b | Concat(a) == s && Concat(b) == s :: Received(parse, limit, a) == Received(parse, limit, b)
  }

  lemma SameReceived<P>(parse: seq<Byte> -> Line<P>, limit: nat, s: seq<Byte>, a: seq<seq<Byte>>, b: seq<seq<Byte>>)
    requires Concat(a) == s && Concat(b) == s && (!Scan(s).bad || Read(parse, limit, Text(s)).packets == [])
    ensures Received(parse, limit, a) == Received(parse, limit, b)
  {
    ReceivedIsPrefix(parse, limit, a);
    ReceivedIsPrefix(parse, limit, b);
  }

  lemma TheyMatter<P(!new)>(parse: seq<Byte> -> Line<P>, limit: nat, s: seq<Byte>, a: seq<seq<Byte>>,
      b: seq<seq<Byte>>)
    requires Concat(a) == s && Concat(b) == s && Received(parse, limit, a) != Received(parse, limit, b)
    ensures !ChunksDoNotMatter(parse, limit, s)
  {
  }

  lemma ChunksMatter<P(!new)>(parse: seq<Byte> -> Line<P>, limit: nat, s: seq<Byte>)
    requires Scan(s).bad && Read(parse, limit, Text(s)).packets != []
    ensures !ChunksDoNotMatter(parse, limit, s)
  {
    var n := Scan(s).length;
    OneBadChunk(parse, limit, s);
    CutAtText(parse, limit, s);
    TheyMatter(parse, limit, s, [s], [s[..n], s[n..]]);
  }

  /** What is received is independent of the chunks exactly when the stream is
      UTF-8 so far, or has no packet before the byte that is not. */
  lemma ChunksMatterExactly<P(!new)>(parse: seq<Byte> -> Line<P>, limit: nat, s: seq<Byte>)
    ensures ChunksDoNotMatter(parse, limit, s) <==> !Scan(s).bad || Read(parse, limit, Text(s)).packets == []
  {
    if !Scan(s).bad || Read(parse, limit, Text(s)).packets == [] {
      forall a, b | Concat(a) == s && Concat(b) == s ensures Received(parse, limit, a) == Received(parse, limit, b) {
        SameReceived(parse, limit, s, a, b);
      }
    } else {
      ChunksMatter(parse, limit, s);
    }
  }

  ghost predicate SessionChunksDoNotMatter<P(!new)>(parse: seq<Byte> -> Line<P>, limit: nat, s: seq<Byte>) {
    forall a, b | Concat(a) == s && Concat(b) == s ::
      SessionReceived(parse, limit, a) == SessionReceived(parse, limit, b)
  }

  /** The same of a session, whose last line never comes from such a stream. */
  lemma SessionChunksMatterExactly<P(!new)>(parse: seq<Byte> -> Line<P>, limit: nat, s: seq<Byte>)
    ensures SessionChunksDoNotMatter(parse, limit, s) <==> !Scan(s).bad || Read(parse, limit, Text(s)).packets == []
  {
    ChunksMatterExactly(parse, limit, s);
    forall a, b | Concat(a) == s && Concat(b) == s
      ensures SessionReceived(parse, limit, a) == SessionReceived(parse, limit, b) <==>
        SessionAccepts(parse, limit, s) || Received(parse, limit, a) == Received(parse, limit, b)
    {
    }
    if SessionAccepts(parse, limit, s) { assert !Scan(s).bad; }
  }

  lemma {:induction false} AsciiIsWhole(s: seq<Byte>)
    requires forall i :: 0 <= i < |s| ==> s[i] <= 0x7F
    ensures Scan(s) == Scanned(|s|, false)
  {
    if s != [] { AsciiIsWhole(s[1..]); }
  }

  /** The text {"type":"x"}, which both readers take for a packet. */
  const SAMPLE: seq<Byte> := [0x7B, 0x22, 0x74, 0x79, 0x70, 0x65, 0x22, 0x3A, 0x22, 0x78, 0x22, 0x7D]

  lemma LineThenBad<P>(parse: seq<Byte> -> Line<P>, limit: nat, line: seq<Byte>, packet: P)
    requires Written(parse, limit, line, packet)
    ensures var s := line + [NEWLINE] + [0xFF];
      Scan(s) == Scanned(|line| + 1, true) && Read(parse, limit, Text(s)).packets == [packet]
  {
    var text, none := line + [NEWLINE], [];
    NewlineIsWhole();
    WholeCharacters(line, [NEWLINE]);
    ScanResumes(text, [0xFF]);
    assert text[|text|..] + [0xFF] == [0xFF] && Scan([0xFF]) == Scanned(0, true);
    assert (text + [0xFF])[..|text|] == text && text == text + none && !(BOM <= text);
    ReadLine(parse, limit, line, none);
  }

  lemma AsciiIsWritten<P>(parse: seq<Byte> -> Line<P>, limit: nat, line: seq<Byte>, packet: P)
    requires 0 < |line| <= limit && line[0] == 0x7B && NEWLINE !in line && parse(line) == Packet(packet)
    requires forall i :: 0 <= i < |line| ==> line[i] <= 0x7F
    ensures Written(parse, limit, line, packet)
  {
    AsciiIsWhole(line);
  }

  /** The packet of a line is received only when the byte that is not UTF-8 comes
      in a chunk of its own. */
  lemma BadByteDropsLine<P>(parse: seq<Byte> -> Line<P>, limit: nat, line: seq<Byte>, packet: P)
    requires Written(parse, limit, line, packet)
    ensures var s, text := line + [NEWLINE] + [0xFF], line + [NEWLINE];
      && Concat([s]) == s == Concat([text, [0xFF]])
      && Received(parse, limit, [s]) == [] && Received(parse, limit, [text, [0xFF]]) == [packet]
  {
    var s := line + [NEWLINE] + [0xFF];
    LineThenBad(parse, limit, line, packet);
    OneBadChunk(parse, limit, s);
    CutAtText(parse, limit, s);
    assert s[..|line| + 1] == line + [NEWLINE] && s[|line| + 1..] == [0xFF];
  }

  /** A stream that shows the difference: the sample line and then such a byte. */
  lemma ChunksCanMatter<P>(parse: seq<Byte> -> Line<P>, limit: nat, packet: P)
    requires parse(SAMPLE) == Packet(packet) && |SAMPLE| <= limit
    ensures var s, text := SAMPLE + [NEWLINE] + [0xFF], SAMPLE + [NEWLINE];
      && Concat([s]) == s == Concat([text, [0xFF]])
      && Received(parse, limit, [s]) == [] && Received(parse, limit, [text, [0xFF]]) == [packet]
  {
    SampleIsAscii();
    AsciiIsWritten(parse, limit, SAMPLE, packet);
    BadByteDropsLine(parse, limit, SAMPLE, packet);
  }

  lemma SampleIsAscii()
    ensures |SAMPLE| == 12 && SAMPLE[0] == 0x7B && NEWLINE !in SAMPLE
    ensures forall i :: 0 <= i < |SAMPLE| ==> SAMPLE[i] <= 0x7F
  {
  }

  // --------------------------------------------------------------- round trip

  /** A line that the writer made from a packet: the JSON text of an object, in
      whole characters, without a newline, and within the reader's limit. */
  predicate Written<P(==)>(parse: seq<Byte> -> Line<P>, limit: nat, line: seq<Byte>, packet: P) {
    && line != [] && line[0] == 0x7B && NEWLINE !in line && |line| <= limit
    && Scan(line) == Scanned(|line|, false) && parse(line) == Packet(packet)
  }

  function Joined(lines: seq<seq<Byte>>): seq<Byte> {
    if lines == [] then [] else lines[0] + [NEWLINE] + Joined(lines[1..])
  }

  lemma WholeCharacters(a: seq<Byte>, b: seq<Byte>)
    requires Scan(a) == Scanned(|a|, false) && Scan(b) == Scanned(|b|, false)
    ensures Scan(a + b) == Scanned(|a + b|, false)
  {
    ScanResumes(a, b);
    assert a[|a|..] + b == b;
  }

  lemma {:induction false} JoinedReads<P>(parse: seq<Byte> -> Line<P>, limit: nat, lines: seq<seq<Byte>>,
      packets: seq<P>)
    requires |lines| == |packets|
    requires forall i :: 0 <= i < |lines| ==> Written(parse, limit, lines[i], packets[i])
    ensures Scan(Joined(lines)) == Scanned(|Joined(lines)|, false)
    ensures Read(parse, limit, Joined(lines)) == Reading(packets, [], true)
    ensures lines != [] ==> Joined(lines)[0] == 0x7B
    decreases |lines|
  {
    if lines != [] {
      JoinedReads(parse, limit, lines[1..], packets[1..]);
      assert Written(parse, limit, lines[0], packets[0]);
      NewlineIsWhole();
      WholeCharacters(lines[0], [NEWLINE]);
      WholeCharacters(lines[0] + [NEWLINE], Joined(lines[1..]));
      ReadLine(parse, limit, lines[0], Joined(lines[1..]));
      assert [packets[0]] + packets[1..] == packets;
    }
  }

  lemma NewlineIsWhole()
    ensures Scan([NEWLINE]) == Scanned(1, false)
  {
    assert [NEWLINE][1..] == [];
  }

  /** Whatever the chunks, reading what was written gives back the packets. */
  lemma WrittenIsRead<P>(parse: seq<Byte> -> Line<P>, limit: nat, lines: seq<seq<Byte>>, packets: seq<P>,
      chunks: seq<seq<Byte>>)
    requires |lines| == |packets| && Concat(chunks) == Joined(lines)
    requires forall i :: 0 <= i < |lines| ==> Written(parse, limit, lines[i], packets[i])
    ensures PaneAccepts(parse, limit, Concat(chunks))
    ensures Read(parse, limit, Text(Concat(chunks))).packets == packets
    ensures parse([]) != Invalid ==> SessionAccepts(parse, limit, Concat(chunks))
    ensures parse([]) == Blank ==> SessionReading(parse, limit, Concat(chunks)) == Reading(packets, [], true)
  {
    JoinedReads(parse, limit, lines, packets);
    var s := Joined(lines);
    assert s[..|s|] == s && !(BOM <= s);
    assert packets + ([] + []) == packets;
  }
}
