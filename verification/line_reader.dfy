/** Reading one secret line (`read_scrubbed_line` in `bin/tawara.rs`): fixed chunks in, a buffer
    that is replaced by hand before it would grow by itself, and one line out. */
module LineReader {
  import opened Base

  const PHRASE_CAPACITY := 512
  const NEWLINE: byte := 10

  type Chunk = b: seq<byte> | |b| <= PHRASE_CAPACITY witness []

  /** What one read can come to. A read of no bytes is the end of the input. */
  datatype Event = Data(bytes: Chunk) | Interrupted | Broken(code: nat)

  /** The input: what its reads will come to, in order, and after them the end. */
  class Source {
    var events: seq<Event>

    constructor (events: seq<Event>)
      ensures this.events == events
    {
      this.events := events;
    }

    /** Fill the front of `chunk`, and leave the rest as it was. */
    method Read(chunk: array<byte>) returns (r: Result<nat, Event>)
      requires chunk.Length == PHRASE_CAPACITY
      modifies this, chunk
      ensures old(events) == [] ==> r == Ok(0) && events == []
      ensures old(events) != [] ==> events == old(events)[1..]
      ensures old(events) != [] && old(events)[0].Data? ==>
                r == Ok(|old(events)[0].bytes|) && chunk[..r.value] == old(events)[0].bytes
      ensures old(events) != [] && !old(events)[0].Data? ==> r == Err(old(events)[0])
    {
      if events == [] {
        return Ok(0);
      }
      var event := events[0];
      events := events[1..];
      if !event.Data? {
        return Err(event);
      }
      forall i | 0 <= i < |event.bytes| {
        chunk[i] := event.bytes[i];
      }
      return Ok(|event.bytes|);
    }
  }

  // ----- what the input amounts to -----

  /** The bytes the input delivers, and whether it ends or breaks. */
  datatype Stream = Stream(bytes: seq<byte>, broken: Option<nat>)

  function Delivered(events: seq<Event>): Stream
    decreases |events|
  {
    if events == [] || events[0] == Data([]) then Stream([], None)
    else match events[0]
      case Interrupted => Delivered(events[1..])
      case Broken(code) => Stream([], Some(code))
      case Data(bytes) => var rest := Delivered(events[1..]); Stream(bytes + rest.bytes, rest.broken)
  }

  /** The bytes up to and with the first newline; all of them when there is none. */
  function FirstLine(bytes: seq<byte>): seq<byte>
    decreases |bytes|
  {
    if bytes == [] then [] else if bytes[0] == NEWLINE then [bytes[0]] else [bytes[0]] + FirstLine(bytes[1..])
  }

  /** The line itself, or the break that came before its end. */
  function LineOf(s: Stream): Result<seq<byte>, nat> {
    if NEWLINE in s.bytes || s.broken.None? then Ok(FirstLine(s.bytes)) else Err(s.broken.value)
  }

  datatype Read = NoLine | Line(text: string) | NotText | Failed(code: nat)

  /** UTF-8 decoding and trimming are library code: `decode` and `trim` stand for them. */
  function ReadOf(line: Result<seq<byte>, nat>, decode: seq<byte> -> Option<string>, trim: string -> string): Read {
    match line
    case Err(code) => Failed(code)
    case Ok(bytes) =>
      if bytes == [] then NoLine
      else match decode(bytes)
        case None => NotText
        case Some(text) => Line(trim(text))
  }

  lemma {:induction false} LineWithoutNewline(bytes: seq<byte>, more: seq<byte>)
    requires NEWLINE !in bytes
    ensures FirstLine(bytes + more) == bytes + FirstLine(more)
    decreases |bytes|
  {
    if bytes == [] {
      assert bytes + more == more;
    } else {
      assert (bytes + more)[1..] == bytes[1..] + more;
      assert bytes[0] in bytes;
      LineWithoutNewline(bytes[1..], more);
      assert bytes == [bytes[0]] + bytes[1..];
    }
  }

  /** Once the newline is in, nothing after it matters, not even a break. */
  lemma LineEnds(line: seq<byte>, more: seq<byte>, broken: Option<nat>)
    requires NEWLINE !in line
    ensures LineOf(Stream(line + [NEWLINE] + more, broken)) == Ok(line + [NEWLINE])
  {
    assert line + [NEWLINE] + more == line + ([NEWLINE] + more);
    LineWithoutNewline(line, [NEWLINE] + more);
    assert (line + [NEWLINE] + more)[|line|] == NEWLINE;
  }

  // ----- reading it -----

  method ReadScrubbedLine(from: Source, decode: seq<byte> -> Option<string>, trim: string -> string) returns (r: Read)
    modifies from
    ensures r == ReadOf(LineOf(Delivered(old(from.events))), decode, trim)
  {
    var chunk := new byte[PHRASE_CAPACITY](_ => 0);
    var line := new byte[PHRASE_CAPACITY](_ => 0);
    var len: nat := 0;
    var ended := false;
    ghost var total := LineOf(Delivered(from.events));
    assert [] + Delivered(from.events).bytes == Delivered(from.events).bytes;
    while !ended
      invariant fresh(chunk) && fresh(line) && chunk != line && chunk.Length == PHRASE_CAPACITY
      invariant len <= line.Length && PHRASE_CAPACITY <= line.Length
      invariant ended ==> total == Ok(line[..len])
      invariant !ended ==> NEWLINE !in line[..len] && Awaiting(line[..len], Delivered(from.events), total)
      decreases !ended, |from.events|
    {
      ghost var events, before := from.events, line[..len];
      var got := from.Read(chunk);
      if got.Err? {
        if got.error.Interrupted? {
          assert Delivered(events) == Delivered(from.events);
          continue;
        }
        assert Delivered(events) == Stream([], Some(got.error.code));
        NothingMore(before, Some(got.error.code), total);
        return Failed(got.error.code);
      }
      var n := got.value;
      if n == 0 {
        assert Delivered(events) == Stream([], None);
        NothingMore(before, None, total);
        break;
      }
      ghost var rest := Delivered(from.events);
      assert Delivered(events) == Stream(chunk[..n] + rest.bytes, rest.broken);
      line, len, ended := Append(chunk, n, line, len, rest, total);
    }
    if len == 0 {
      return NoLine;
    }
    var text := decode(line[..len]);
    if text.None? {
      return NotText;
    }
    return Line(trim(text.value));
  }

  /** What has been read, and what is still to come, amount to `total`. */
  ghost predicate Awaiting(line: seq<byte>, rest: Stream, total: Result<seq<byte>, nat>) {
    LineOf(Stream(line + rest.bytes, rest.broken)) == total
  }

  lemma NothingMore(line: seq<byte>, broken: Option<nat>, total: Result<seq<byte>, nat>)
    requires NEWLINE !in line && Awaiting(line, Stream([], broken), total)
    ensures total == if broken.None? then Ok(line) else Err(broken.value)
  {
    LineWithoutNewline(line, []);
    assert line + [] == line;
  }

  /** The bytes of one chunk, up to a newline. The buffer is replaced by one twice as long before
      a byte would not fit, so no byte is ever written past its end. */
  method Append(chunk: array<byte>, n: nat, start: array<byte>, startLen: nat, ghost rest: Stream,
                ghost total: Result<seq<byte>, nat>) returns (line: array<byte>, len: nat, ended: bool)
    requires chunk != start && 0 < n <= chunk.Length && startLen <= start.Length && PHRASE_CAPACITY <= start.Length
    requires NEWLINE !in start[..startLen]
    requires Awaiting(start[..startLen], Stream(chunk[..n] + rest.bytes, rest.broken), total)
    modifies start
    ensures line == start || fresh(line)
    ensures len <= line.Length && start.Length <= line.Length && line != chunk
    ensures ended ==> total == Ok(line[..len])
    ensures !ended ==> NEWLINE !in line[..len] && Awaiting(line[..len], rest, total)
  {
    hide Awaiting;
    line, len, ended := start, startLen, false;
    ghost var bytes := chunk[..n];
    assert bytes[0..] == bytes;
    var i := 0;
    while i < n
      invariant 0 <= i <= n && (line == start || fresh(line)) && line != chunk
      invariant len <= line.Length && start.Length <= line.Length
      invariant chunk[..n] == bytes && !ended
      invariant NEWLINE !in line[..len]
      invariant Awaiting(line[..len], Stream(bytes[i..] + rest.bytes, rest.broken), total)
    {
      ghost var before := line[..len];
      if len == line.Length {
        line := Wider(line);
        assert line[..len] == before;
      }
      TakeByte(before, bytes, i, rest, total);
      line[len] := chunk[i];
      len := len + 1;
      assert line[..len] == before + [bytes[i]];
      if chunk[i] == NEWLINE {
        ended := true;
        return;
      }
      i := i + 1;
    }
    assert bytes[i..] + rest.bytes == rest.bytes;
  }

  lemma TakeByte(before: seq<byte>, bytes: seq<byte>, i: nat, rest: Stream, total: Result<seq<byte>, nat>)
    requires i < |bytes| && NEWLINE !in before
    requires Awaiting(before, Stream(bytes[i..] + rest.bytes, rest.broken), total)
    ensures bytes[i] == NEWLINE ==> total == Ok(before + [bytes[i]])
    ensures bytes[i] != NEWLINE ==>
              Awaiting(before + [bytes[i]], Stream(bytes[i + 1..] + rest.bytes, rest.broken), total)
  {
    var tail := bytes[i + 1..] + rest.bytes;
    assert before + (bytes[i..] + rest.bytes) == before + [bytes[i]] + tail;
    if bytes[i] == NEWLINE {
      LineEnds(before, tail, rest.broken);
    }
  }

  method Wider(line: array<byte>) returns (wider: array<byte>)
    requires line.Length > 0
    ensures fresh(wider) && wider.Length == 2 * line.Length && wider[..line.Length] == line[..]
  {
    wider := new byte[2 * line.Length](_ => 0);
    forall i | 0 <= i < line.Length {
      wider[i] := line[i];
    }
  }

  // ----- what does not matter -----

  lemma {:induction false} InterruptionsDoNotMatter(before: seq<Event>, after: seq<Event>)
    ensures Delivered(before + [Interrupted] + after) == Delivered(before + after)
    decreases |before|
  {
    if before == [] {
      assert before + [Interrupted] + after == [Interrupted] + after && before + after == after;
      assert ([Interrupted] + after)[1..] == after;
    } else {
      assert (before + [Interrupted] + after)[1..] == before[1..] + [Interrupted] + after;
      assert (before + after)[1..] == before[1..] + after;
      InterruptionsDoNotMatter(before[1..], after);
    }
  }

  lemma DeliveredFirst(bytes: Chunk, after: seq<Event>)
    requires bytes != []
    ensures Delivered([Data(bytes)] + after) == Stream(bytes + Delivered(after).bytes, Delivered(after).broken)
  {
    assert ([Data(bytes)] + after)[1..] == after;
  }

  /** One read of many bytes, or two of fewer: the same stream. */
  lemma {:induction false} ChunkingDoesNotMatter(before: seq<Event>, first: Chunk, second: Chunk, after: seq<Event>)
    requires first != [] && second != [] && |first| + |second| <= PHRASE_CAPACITY
    ensures Delivered(before + [Data(first + second)] + after)
         == Delivered(before + [Data(first), Data(second)] + after)
    decreases |before|
  {
    var whole, parts := [Data(first + second)], [Data(first), Data(second)];
    if before == [] {
      assert before + whole + after == whole + after;
      assert before + parts + after == [Data(first)] + ([Data(second)] + after);
      DeliveredFirst(first + second, after);
      DeliveredFirst(second, after);
      DeliveredFirst(first, [Data(second)] + after);
      hide Delivered;
      assert first + (second + Delivered(after).bytes) == (first + second) + Delivered(after).bytes;
    } else {
      assert (before + whole + after)[1..] == before[1..] + whole + after;
      assert (before + parts + after)[1..] == before[1..] + parts + after;
      ChunkingDoesNotMatter(before[1..], first, second, after);
    }
  }

  /** What comes after the newline, a break included, does not matter. */
  lemma {:induction false} TheRestDoesNotMatter(before: seq<Event>, after: seq<Event>, other: seq<Event>)
    requires NEWLINE in Delivered(before).bytes
    ensures LineOf(Delivered(before + after)) == LineOf(Delivered(before + other))
         == Ok(FirstLine(Delivered(before).bytes))
  {
    DeliveredInOrder(before, after);
    DeliveredInOrder(before, other);
    LinePrefix(Delivered(before).bytes, Delivered(before + after).bytes);
    LinePrefix(Delivered(before).bytes, Delivered(before + other).bytes);
  }

  lemma {:induction false} DeliveredInOrder(before: seq<Event>, after: seq<Event>)
    ensures Delivered(before).bytes <= Delivered(before + after).bytes
    decreases |before|
  {
    if before == [] {
    } else {
      assert (before + after)[1..] == before[1..] + after;
      DeliveredInOrder(before[1..], after);
    }
  }

  lemma {:induction false} LinePrefix(bytes: seq<byte>, more: seq<byte>)
    requires NEWLINE in bytes && bytes <= more
    ensures FirstLine(bytes) == FirstLine(more)
    decreases |bytes|
  {
    if bytes[0] == NEWLINE {
    } else {
      assert bytes[1..] <= more[1..];
      LinePrefix(bytes[1..], more[1..]);
    }
  }

  // ----- what it comes to -----

  /** A read that delivers bytes, or was interrupted before it did. */
  ghost predicate GoesOn(e: Event) { e.Interrupted? || (e.Data? && e.bytes != []) }

  ghost function Joined(got: seq<Event>): seq<byte> {
    if got == [] then [] else (if got[0].Data? then got[0].bytes else []) + Joined(got[1..])
  }

  /** What is delivered is every byte read before the first read of none, the first break, or the end;
      and it is broken exactly when a break came first. */
  lemma {:induction false} DeliveredMeans(got: seq<Event>, after: seq<Event>, code: nat)
    requires forall e :: e in got ==> GoesOn(e)
    ensures Delivered(got) == Delivered(got + [Data([])] + after) == Stream(Joined(got), None)
    ensures Delivered(got + [Broken(code)] + after) == Stream(Joined(got), Some(code))
    decreases |got|
  {
    var end, broken := [Data([])] + after, [Broken(code)] + after;
    assert got + [Data([])] + after == got + end && got + [Broken(code)] + after == got + broken;
    if got == [] {
      assert got + end == end && got + broken == broken;
    } else {
      DeliveredMeans(got[1..], after, code);
      assert got[1..] + [Data([])] + after == got[1..] + end;
      assert got[1..] + [Broken(code)] + after == got[1..] + broken;
      assert (got + end)[1..] == got[1..] + end && (got + broken)[1..] == got[1..] + broken;
      assert (got + end)[0] == got[0] && (got + broken)[0] == got[0] && GoesOn(got[0]);
    }
  }

  /** The line is decoded whole: its text trimmed, or no text at all. */
  ghost predicate ReadAs(r: Read, line: seq<byte>, decode: seq<byte> -> Option<string>, trim: string -> string) {
    if decode(line).Some? then r == Line(trim(decode(line).value)) else r == NotText
  }

  /** With a newline delivered, the line is everything up to and with the first. Without one, a break
      fails the read; otherwise the line is everything there was, and nothing at all is no line. */
  lemma {:induction false} ReadMeans(s: Stream, decode: seq<byte> -> Option<string>, trim: string -> string)
    ensures var r := ReadOf(LineOf(s), decode, trim);
            if NEWLINE in s.bytes then
              exists k :: 0 <= k < |s.bytes| && s.bytes[k] == 10 && 10 !in s.bytes[..k]
                          && ReadAs(r, s.bytes[..k + 1], decode, trim)
            else if s.broken.Some? then r == Failed(s.broken.value)
            else if s.bytes == [] then r == NoLine
            else ReadAs(r, s.bytes, decode, trim)
  {
    if NEWLINE in s.bytes {
      var k := FirstNewline(s.bytes);
      assert s.bytes == s.bytes[..k] + ([NEWLINE] + s.bytes[k + 1..]);
      LineWithoutNewline(s.bytes[..k], [NEWLINE] + s.bytes[k + 1..]);
      assert FirstLine([NEWLINE] + s.bytes[k + 1..]) == [NEWLINE];
      assert s.bytes[..k + 1] == s.bytes[..k] + [NEWLINE];
      assert ReadAs(ReadOf(LineOf(s), decode, trim), s.bytes[..k + 1], decode, trim);
    } else {
      LineWithoutNewline(s.bytes, []);
      assert s.bytes + [] == s.bytes;
    }
  }

  lemma {:induction false} FirstNewline(bytes: seq<byte>) returns (k: nat)
    requires NEWLINE in bytes
    ensures k < |bytes| && bytes[k] == 10 && 10 !in bytes[..k]
  {
    k := 0;
    while bytes[k] != NEWLINE
      invariant k < |bytes| && NEWLINE !in bytes[..k]
      decreases |bytes| - k
    {
      assert bytes == bytes[..k + 1] + bytes[k + 1..];
      k := k + 1;
    }
  }
}
