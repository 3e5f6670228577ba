/** Reassembling the lines of a subprocess's output from the fragments of a buffered reader, and
    turning each line into one event. */
module LineReader {
  import opened Wrappers

  type Byte = bv8
  type Bytes = seq<Byte>

  const NL: Byte := 10
  const CR: Byte := 13

  // ---- lines ----

  function LineEnd(s: Bytes): nat
    ensures LineEnd(s) <= |s|
    ensures NL !in s[..LineEnd(s)] && (LineEnd(s) < |s| ==> s[LineEnd(s)] == NL)
  {
    if s == [] || s[0] == NL then 0
    else
      var k := LineEnd(s[1..]);
      assert s[..k + 1] == [s[0]] + s[1..][..k];
      1 + k
  }

  function StripCR(line: Bytes): Bytes {
    if line != [] && line[|line| - 1] == CR then line[..|line| - 1] else line
  }

  /** The first line, without its terminator ("\n" or "\r\n"), and what follows it. */
  function FirstLine(s: Bytes): (Bytes, Bytes) {
    var k := LineEnd(s);
    if k == |s| then (s, []) else (StripCR(s[..k]), s[k + 1..])
  }

  function Lines(s: Bytes): seq<Bytes>
    decreases |s|
  {
    if s == [] then [] else [FirstLine(s).0] + Lines(FirstLine(s).1)
  }

  // ---- the buffered reader ----

  /** How the stream ends: `io.EOF`, or a read error. */
  datatype End = Eof | ReadError(msg: string)

  /** A proper fragment before what is left, `t`: some bytes of one line, not parting "\r" from
      "\n", nor from the end of the stream. It may end in "\r" before another "\r". */
  predicate Fragment(chunk: Bytes, t: Bytes) {
    chunk != [] && NL !in chunk && (chunk[|chunk| - 1] == CR ==> t != [] && t[0] != NL)
  }

  /** `bufio.Reader` over the bytes still to come. `cuts` says where its buffer happens to fill up:
      the first of them, if it falls within the current line, cuts a fragment off it. A full buffer
      ending in "\r" gives that one byte back, so the library never cuts between "\r" and "\n", but
      it does cut between two "\r". */
  class BufReader {
    const end: End
    var rest: Bytes
    var cuts: seq<nat>

    constructor (rest: Bytes, cuts: seq<nat>, end: End)
      ensures this.rest == rest && this.cuts == cuts && this.end == end
    {
      this.rest := rest;
      this.cuts := cuts;
      this.end := end;
    }

    predicate CutsHere(n: nat)
      reads this
    {
      0 < n <= LineEnd(rest) && (rest[n - 1] == CR ==> n < LineEnd(rest))
    }

    /** The library's `ReadLine`: a whole line, a proper fragment of one, or the end. */
    method ReadLine() returns (chunk: Bytes, isPrefix: bool, atEnd: bool)
      modifies this
      ensures atEnd <==> old(rest) == []
      ensures atEnd ==> chunk == [] && !isPrefix && rest == []
      ensures !atEnd ==> |rest| < |old(rest)|
      ensures isPrefix ==> old(rest) == chunk + rest && Fragment(chunk, rest)
      ensures !isPrefix ==> (chunk, rest) == FirstLine(old(rest))
    {
      if rest == [] { return [], false, true; }
      var n := if cuts != [] then cuts[0] else 0;
      var here := CutsHere(n);
      if cuts != [] { cuts := cuts[1..]; }
      if here {
        assert rest == rest[..n] + rest[n..] && forall c <- rest[..n] :: c in rest[..LineEnd(rest)];
        chunk := rest[..n];
        rest := rest[n..];
        return chunk, true, false;
      }
      var line := FirstLine(rest);
      chunk := line.0;
      rest := line.1;
      return chunk, false, false;
    }
  }

  lemma StripFragment(a: Bytes, b: Bytes)
    requires a != [] && (a[|a| - 1] == CR ==> b != [])
    ensures StripCR(a + b) == a + StripCR(b)
  {
    if b == [] {
      assert a + b == a && a + StripCR(b) == a;
    } else {
      assert (a + b)[..|a + b| - 1] == a + b[..|b| - 1];
    }
  }

  lemma {:induction false} LineEndAppend(a: Bytes, t: Bytes)
    requires NL !in a
    ensures LineEnd(a + t) == |a| + LineEnd(t)
  {
    if a == [] {
      assert a + t == t;
    } else {
      assert (a + t)[1..] == a[1..] + t;
      LineEndAppend(a[1..], t);
    }
  }

  /** A fragment followed by the line of the remainder is the line. */
  lemma FragmentThenLine(a: Bytes, t: Bytes)
    requires Fragment(a, t)
    ensures FirstLine(a + t) == (a + FirstLine(t).0, FirstLine(t).1)
  {
    LineEndAppend(a, t);
    var j := LineEnd(t);
    if j < |t| {
      assert (a + t)[..|a| + j] == a + t[..j];
      assert (a + t)[|a| + j + 1..] == t[j + 1..];
      StripFragment(a, t[..j]);
    }
  }

  /** `readLine`: wherever the reader cut it, the line comes back whole, and nothing of the next
      line is consumed. `atEnd` can accompany a last line that has no terminator. */
  method ReadWholeLine(br: BufReader) returns (line: Bytes, atEnd: bool)
    modifies br
    ensures (line, br.rest) == FirstLine(old(br.rest))
    ensures atEnd ==> br.rest == []
    ensures old(br.rest) == [] ==> atEnd
    ensures old(br.rest) != [] ==> |br.rest| < |old(br.rest)|
  {
    var full: Bytes := [];
    ghost var whole := FirstLine(br.rest);
    while true
      invariant full + FirstLine(br.rest).0 == whole.0 && FirstLine(br.rest).1 == whole.1
      invariant br.rest == old(br.rest) || |br.rest| < |old(br.rest)|
      invariant old(br.rest) == [] ==> br.rest == []
      decreases |br.rest|
    {
      var chunk, isPrefix, end := br.ReadLine();
      if isPrefix {
        FragmentThenLine(chunk, br.rest);
        Assoc(full, chunk, FirstLine(br.rest).0);
      }
      if |chunk| > 0 {
        if full == [] && !isPrefix {
          assert [] + chunk == chunk;
          return chunk, end;
        }
        full := full + chunk;
      }
      if !isPrefix {
        assert chunk == [] ==> full + chunk == full;
        return full, end;
      }
    }
  }

  lemma Assoc<T>(a: seq<T>, b: seq<T>, c: seq<T>)
    ensures (a + b) + c == a + (b + c)
  {
  }

  // ---- events ----

  datatype Event<+E> = Parsed(event: E) | ParseError(line: Bytes) | ReadFailed(msg: string) | Exited(msg: string)

  function LineEvents<E>(parse: Bytes -> Option<E>, lines: seq<Bytes>): seq<Event<E>> {
    if lines == [] then []
    else (if lines[0] == [] then [] else [LineEvent(parse, lines[0])]) + LineEvents(parse, lines[1..])
  }

  function LineEvent<E>(parse: Bytes -> Option<E>, line: Bytes): Event<E> {
    match parse(line)
    case Some(e) => Parsed(e)
    case None => ParseError(line)
  }

  /** A line that parses gives its event, one that does not is reported as it is. */
  lemma LineIsParsed<E>(parse: Bytes -> Option<E>, line: Bytes, more: seq<Bytes>)
    ensures LineEvents(parse, [line] + more) ==
      (if line == [] then []
       else if parse(line).Some? then [Parsed(parse(line).value)]
       else [ParseError(line)]) + LineEvents(parse, more)
  {
    assert ([line] + more)[1..] == more;
  }

  /** The stream's end adds nothing of itself; a read error and a failed exit are each reported, in
      that order. */
  lemma EndIsReported<E>(end: End, wait: Option<string>)
    ensures EndEvents<E>(end, wait) ==
      if end == Eof then (if wait == None then [] else [Exited(wait.value)])
      else if wait == None then [ReadFailed(end.msg)]
      else [ReadFailed(end.msg), Exited(wait.value)]
  {
  }

  function EndEvents<E>(end: End, wait: Option<string>): seq<Event<E>> {
    (match end case Eof => [] case ReadError(msg) => [ReadFailed(msg)])
    + (match wait case None => [] case Some(msg) => [Exited(msg)])
  }

  /** `readEvents`: each non-empty line gives exactly one event, in order, however the lines were
      cut into fragments, and none is lost at the end of the stream, terminated or not. */
  method ReadEvents<E>(br: BufReader, parse: Bytes -> Option<E>, wait: Option<string>) returns (events: seq<Event<E>>)
    modifies br
    ensures events == LineEvents(parse, Lines(old(br.rest))) + EndEvents(br.end, wait)
  {
    events := [];
    while true
      invariant events + LineEvents(parse, Lines(br.rest)) == LineEvents(parse, Lines(old(br.rest)))
      decreases |br.rest|
    {
      ghost var s, sofar := br.rest, events;
      var line, atEnd := ReadWholeLine(br);
      EventsOfFirstLine(parse, s, sofar);
      if |line| > 0 {
        var ev := LineEvent(parse, line);
        events := events + [ev];
        if ev.ParseError? { continue; }
      }
      if atEnd {
        assert events + LineEvents(parse, Lines([])) == events;
        if br.end.ReadError? {
          events := events + [ReadFailed(br.end.msg)];
        }
        if wait.Some? {
          events := events + [Exited(wait.value)];
        }
        return;
      }
    }
  }

  lemma EventsOfFirstLine<E>(parse: Bytes -> Option<E>, s: Bytes, sofar: seq<Event<E>>)
    ensures var (line, rest) := FirstLine(s);
      (if line == [] then sofar else sofar + [LineEvent(parse, line)]) + LineEvents(parse, Lines(rest))
        == sofar + LineEvents(parse, Lines(s))
  {
    var (line, rest) := FirstLine(s);
    var after := LineEvents(parse, Lines(rest));
    if s != [] {
      assert Lines(s)[0] == line && Lines(s)[1..] == Lines(rest);
      if line == [] {
        assert [] + after == after;
      } else {
        Assoc(sofar, [LineEvent(parse, line)], after);
      }
    }
  }

  /** The lines account for the whole stream: joined with their terminators they are the stream. */
  function Unlines(s: Bytes): seq<Bytes>
    decreases |s|
  {
    if s == [] then []
    else [s[..|s| - |FirstLine(s).1|]] + Unlines(FirstLine(s).1)
  }

  function Concat(parts: seq<Bytes>): Bytes {
    if parts == [] then [] else parts[0] + Concat(parts[1..])
  }

  /** The line is what is left of its part of the stream without "\r\n", or else without "\n"; an
      unterminated part is the line. */
  predicate Terminated(part: Bytes, line: Bytes) {
    if part == [] || part[|part| - 1] != 10 then line == part
    else if |part| > 1 && part[|part| - 2] == 13 then line == part[..|part| - 2]
    else line == part[..|part| - 1]
  }

  lemma FirstLineIsTerminated(s: Bytes)
    requires s != []
    ensures var (line, rest) := FirstLine(s);
      var part := s[..|s| - |rest|];
      && s == part + rest && Terminated(part, line) && NL !in line
      && (rest != [] ==> part[|part| - 1] == NL)
  {
    var k := LineEnd(s);
    if k < |s| {
      assert s[..k + 1] == s[..k] + [NL];
    } else {
      assert s[..k] == s;
    }
  }

  lemma {:induction false} LinesCoverTheStream(s: Bytes)
    ensures Concat(Unlines(s)) == s && |Unlines(s)| == |Lines(s)|
    ensures forall i | 0 <= i < |Lines(s)| ::
      && Terminated(Unlines(s)[i], Lines(s)[i]) && NL !in Lines(s)[i]
      && Unlines(s)[i] != []
      && (i < |Lines(s)| - 1 ==> Unlines(s)[i][|Unlines(s)[i]| - 1] == NL)
    decreases |s|
  {
    if s != [] {
      FirstLineIsTerminated(s);
      LinesCoverTheStream(FirstLine(s).1);
    }
  }
}
