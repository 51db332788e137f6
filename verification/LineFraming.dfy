/** The newline framing of the TCP bridge: lines out of a stream that arrives in arbitrary chunks. */
module LineFraming {
  import opened Bytes

  const NEWLINE: byte := 10

  predicate IsSpace(b: byte) {
    b == 32 || 9 <= b <= 13
  }

  predicate OneLine(s: seq<byte>) {
    NEWLINE !in s
  }

  // ------------------------------------------------------------------ strip

  function TrimLeft(s: seq<byte>): seq<byte> {
    if |s| > 0 && IsSpace(s[0]) then TrimLeft(s[1..]) else s
  }

  function TrimRight(s: seq<byte>): seq<byte> {
    if |s| > 0 && IsSpace(s[|s| - 1]) then TrimRight(s[..|s| - 1]) else s
  }

  function Strip(s: seq<byte>): seq<byte> {
    TrimRight(TrimLeft(s))
  }

  lemma {:induction false} TrimLeftDrops(s: seq<byte>)
    ensures var r := TrimLeft(s);
            && |r| <= |s| && r == s[|s| - |r|..]
            && (forall i | 0 <= i < |s| - |r| :: IsSpace(s[i]))
            && (|r| > 0 ==> !IsSpace(r[0]))
  {
    if |s| > 0 && IsSpace(s[0]) {
      TrimLeftDrops(s[1..]);
      assert forall i | 0 < i < |s| :: s[i] == s[1..][i - 1];
    }
  }

  lemma {:induction false} TrimRightDrops(s: seq<byte>)
    ensures var r := TrimRight(s);
            && |r| <= |s| && r == s[..|r|]
            && (forall i | |r| <= i < |s| :: IsSpace(s[i]))
            && (|r| > 0 ==> !IsSpace(r[|r| - 1]))
  {
    if |s| > 0 && IsSpace(s[|s| - 1]) {
      TrimRightDrops(s[..|s| - 1]);
    }
  }

  /** A stripped line is the middle of the line between whitespace, and itself neither starts nor ends
      with any. */
  lemma StripIsMiddle(s: seq<byte>)
    ensures exists lo, hi | 0 <= lo <= hi <= |s| ::
              && Strip(s) == s[lo..hi]
              && (forall i | 0 <= i < lo || hi <= i < |s| :: IsSpace(s[i]))
    ensures |Strip(s)| > 0 ==> !IsSpace(Strip(s)[0]) && !IsSpace(Strip(s)[|Strip(s)| - 1])
  {
    var l := TrimLeft(s);
    var r := TrimRight(l);
    TrimLeftDrops(s);
    TrimRightDrops(l);
    var lo := |s| - |l|;
    assert r == s[lo..lo + |r|];
    forall i | lo + |r| <= i < |s| ensures IsSpace(s[i]) {
      assert s[i] == l[i - lo];
    }
  }

  lemma {:induction false} TrimLeftSnoc(s: seq<byte>, b: byte)
    requires IsSpace(b)
    ensures TrimLeft(s + [b]) == if |TrimLeft(s)| == 0 then [] else TrimLeft(s) + [b]
  {
    if |s| == 0 {
      assert (s + [b])[1..] == [];
    } else {
      TrimLeftSnoc(s[1..], b);
      assert (s + [b])[1..] == s[1..] + [b];
    }
  }

  /** Tabs, line ends, form feeds and blanks around a line do not count: lines that end in CR LF are handed over like
      lines that end in LF. */
  lemma StripIgnoresSpace(line: seq<byte>, b: byte)
    requires b == 32 || b == 9 || b == 10 || b == 11 || b == 12 || b == 13
    ensures Strip(line + [b]) == Strip(line) && Strip([b] + line) == Strip(line)
  {
    TrimLeftSnoc(line, b);
    assert (TrimLeft(line) + [b])[..|TrimLeft(line)|] == TrimLeft(line);
    assert ([b] + line)[1..] == line;
  }

  // ------------------------------------------------------------------ splitting a whole stream

  /** The complete lines of a stream, and what follows the last newline. */
  datatype Parts = Parts(lines: seq<seq<byte>>, rest: seq<byte>)

  /** Where the first newline stands, or the length. */
  function FirstNewline(s: seq<byte>): (i: nat)
    ensures i <= |s| && OneLine(s[..i]) && (i < |s| ==> s[i] == NEWLINE)
  {
    if |s| == 0 || s[0] == NEWLINE then 0
    else
      var i := FirstNewline(s[1..]);
      assert s[..i + 1] == [s[0]] + s[1..][..i];
      1 + i
  }

  function Split(s: seq<byte>): (r: Parts)
    ensures OneLine(r.rest) && forall i | 0 <= i < |r.lines| :: OneLine(r.lines[i])
  {
    var i := FirstNewline(s);
    if i == |s| then
      assert s[..i] == s;
      Parts([], s)
    else
      var tail := Split(s[i + 1..]);
      Parts([s[..i]] + tail.lines, tail.rest)
  }

  /** A stream out of lines and a rest. */
  function Assemble(p: Parts): seq<byte>
    decreases |p.lines|
  {
    if |p.lines| == 0 then p.rest
    else p.lines[0] + [NEWLINE] + Assemble(Parts(p.lines[1..], p.rest))
  }

  lemma AssembleCons(line: seq<byte>, p: Parts)
    ensures Assemble(Parts([line] + p.lines, p.rest)) == line + [NEWLINE] + Assemble(p)
  {
    assert ([line] + p.lines)[1..] == p.lines;
  }

  lemma SplitFirst(s: seq<byte>)
    requires FirstNewline(s) < |s|
    ensures var i := FirstNewline(s);
            Split(s) == Parts([s[..i]] + Split(s[i + 1..]).lines, Split(s[i + 1..]).rest)
  {
  }

  lemma LineAndRest(s: seq<byte>, i: nat)
    requires i < |s| && s[i] == NEWLINE
    ensures s == s[..i] + [NEWLINE] + s[i + 1..]
  {
  }

  /** Splitting loses nothing. */
  lemma {:induction false} AssembleSplit(s: seq<byte>)
    ensures Assemble(Split(s)) == s
    decreases |s|
  {
    var i := FirstNewline(s);
    if i < |s| {
      AssembleSplit(s[i + 1..]);
      SplitFirst(s);
      AssembleCons(s[..i], Split(s[i + 1..]));
      LineAndRest(s, i);
    }
  }

  lemma FirstNewlineIs(line: seq<byte>, tail: seq<byte>)
    requires OneLine(line)
    ensures FirstNewline(line + [NEWLINE] + tail) == |line|
  {
    var s := line + [NEWLINE] + tail;
    assert forall k | 0 <= k < |line| :: s[k] == line[k];
    assert forall k | |line| < k <= |s| :: s[..k][|line|] == NEWLINE;
  }

  lemma HasNewlineIff(s: seq<byte>)
    ensures NEWLINE in s <==> FirstNewline(s) < |s|
  {
    assert s[..|s|] == s;
  }

  lemma NothingSplits(s: seq<byte>)
    requires OneLine(s)
    ensures Split(s) == Parts([], s)
  {
    HasNewlineIff(s);
  }

  /** The first line of a stream splits off. */
  lemma SplitStep(line: seq<byte>, tail: seq<byte>)
    requires OneLine(line)
    ensures Split(line + [NEWLINE] + tail) == Parts([line] + Split(tail).lines, Split(tail).rest)
  {
    FirstNewlineIs(line, tail);
    var s := line + [NEWLINE] + tail;
    assert s[|line| + 1..] == tail && s[..|line|] == line;
  }

  /** Splitting is the only way to read a stream as lines without newlines and a rest without one. */
  lemma {:induction false} SplitAssemble(p: Parts)
    requires OneLine(p.rest) && forall i | 0 <= i < |p.lines| :: OneLine(p.lines[i])
    ensures Split(Assemble(p)) == p
    decreases |p.lines|
  {
    if |p.lines| == 0 {
      NothingSplits(p.rest);
    } else {
      var tail := Parts(p.lines[1..], p.rest);
      SplitAssemble(tail);
      SplitStep(p.lines[0], Assemble(tail));
      assert p.lines == [p.lines[0]] + tail.lines;
    }
  }

  /** The first parts, then those of reading on from their rest. */
  function ReadOn(p: Parts, more: seq<byte>): Parts {
    var next := Split(p.rest + more);
    Parts(p.lines + next.lines, next.rest)
  }

  lemma {:induction false} AssembleReadOn(p: Parts, more: seq<byte>)
    ensures Assemble(ReadOn(p, more)) == Assemble(p) + more
    decreases |p.lines|
  {
    var next := Split(p.rest + more);
    if |p.lines| == 0 {
      AssembleSplit(p.rest + more);
      assert p.lines + next.lines == next.lines;
    } else {
      var tail := Parts(p.lines[1..], p.rest);
      AssembleReadOn(tail, more);
      assert (p.lines + next.lines)[1..] == tail.lines + next.lines;
      var head := p.lines[0] + [NEWLINE];
      assert head + (Assemble(tail) + more) == head + Assemble(tail) + more;
    }
  }

  /** Lines found before more bytes arrive stay; only the rest is read on. */
  lemma SplitMore(s: seq<byte>, more: seq<byte>)
    ensures Split(s + more) == ReadOn(Split(s), more)
  {
    AssembleSplit(s);
    AssembleReadOn(Split(s), more);
    SplitAssemble(ReadOn(Split(s), more));
  }

  // ------------------------------------------------------------------ the loop

  function HandedOf(line: seq<byte>): seq<seq<byte>> {
    if |Strip(line)| == 0 then [] else [Strip(line)]
  }

  /** What each line gives, one after the other. */
  function Flat(give: seq<byte> -> seq<seq<byte>>, lines: seq<seq<byte>>): seq<seq<byte>> {
    if |lines| == 0 then [] else Flat(give, lines[..|lines| - 1]) + give(lines[|lines| - 1])
  }

  lemma {:induction false} FlatAdds(give: seq<byte> -> seq<seq<byte>>, s: seq<seq<byte>>, t: seq<seq<byte>>)
    ensures Flat(give, s + t) == Flat(give, s) + Flat(give, t)
  {
    if |t| == 0 {
      assert s + t == s;
    } else {
      FlatAdds(give, s, t[..|t| - 1]);
      assert (s + t)[..|s + t| - 1] == s + t[..|t| - 1];
    }
  }

  /** What is handed to the JSON decoder: the stripped lines that are not empty. */
  function Handed(lines: seq<seq<byte>>): seq<seq<byte>> {
    Flat(HandedOf, lines)
  }

  lemma HandedAdds(s: seq<seq<byte>>, t: seq<seq<byte>>)
    ensures Handed(s + t) == Handed(s) + Handed(t)
  {
    FlatAdds(HandedOf, s, t);
  }

  lemma HandedSnoc(lines: seq<seq<byte>>, line: seq<byte>)
    ensures Handed(lines + [line]) == Handed(lines) + HandedOf(line)
  {
    assert (lines + [line])[..|lines|] == lines;
  }

  /** Nothing but whitespace. */
  predicate Blank(line: seq<byte>) {
    forall i | 0 <= i < |line| :: IsSpace(line[i])
  }

  lemma BlankIff(line: seq<byte>)
    ensures Blank(line) <==> |Strip(line)| == 0
  {
    StripIsMiddle(line);
    var lo, hi :| 0 <= lo <= hi <= |line|
                  && Strip(line) == line[lo..hi] && (forall i | 0 <= i < lo || hi <= i < |line| :: IsSpace(line[i]));
    if lo < hi {
      assert Strip(line)[0] == line[lo];
    }
  }

  function CountNonBlank(lines: seq<seq<byte>>): nat {
    if |lines| == 0 then 0
    else CountNonBlank(lines[..|lines| - 1]) + if Blank(lines[|lines| - 1]) then 0 else 1
  }

  /** The lines that are not blank are handed over stripped, in their order, and nothing else is. */
  lemma {:induction false} HandedInOrder(lines: seq<seq<byte>>, i: nat)
    requires i < |lines|
    ensures |Handed(lines)| == CountNonBlank(lines)
    ensures !Blank(lines[i]) ==>
              CountNonBlank(lines[..i]) < |Handed(lines)| && Handed(lines)[CountNonBlank(lines[..i])] == Strip(lines[i])
  {
    var n := |lines| - 1;
    BlankIff(lines[n]);
    HandedSnoc(lines[..n], lines[n]);
    assert lines == lines[..n] + [lines[n]];
    if n > 0 {
      HandedInOrder(lines[..n], if i < n then i else 0);
      if i < n {
        assert lines[..n][..i] == lines[..i];
      }
    }
  }

  /** The chunks received before the peer closes: an empty chunk ends the connection. */
  function Received(chunks: seq<seq<byte>>): (r: seq<byte>) {
    if |chunks| == 0 || |chunks[0]| == 0 then [] else chunks[0] + Received(chunks[1..])
  }

  function CutAt(stream: seq<byte>, sizes: seq<nat>): (n: nat)
    requires |stream| > 0
    ensures 0 < n <= |stream|
  {
    if |sizes| == 0 || sizes[0] > |stream| then |stream| else if sizes[0] == 0 then 1 else sizes[0]
  }

  /** The stream cut at the given lengths, as far as it reaches; no piece is empty. */
  function Pieces(stream: seq<byte>, sizes: seq<nat>): seq<seq<byte>>
    decreases |stream|
  {
    if |stream| == 0 then []
    else
      var n := CutAt(stream, sizes);
      [stream[..n]] + Pieces(stream[n..], if |sizes| == 0 then [] else sizes[1..])
  }

  lemma ReceivedFirst(first: seq<byte>, pieces: seq<seq<byte>>, ending: seq<seq<byte>>)
    requires |first| > 0
    ensures Received([first] + pieces + ending) == first + Received(pieces + ending)
  {
    assert ([first] + pieces + ending)[1..] == pieces + ending;
  }

  /** However a stream is cut into chunks, and whatever comes after the empty chunk that closes the
      connection, it is the stream that Serve splits. */
  lemma {:induction false} ChunkingIrrelevant(stream: seq<byte>, sizes: seq<nat>, ending: seq<seq<byte>>)
    requires |ending| == 0 || |ending[0]| == 0
    ensures Received(Pieces(stream, sizes) + ending) == stream
    decreases |stream|
  {
    if |stream| == 0 {
      assert Pieces(stream, sizes) + ending == ending;
    } else {
      var n, others := CutAt(stream, sizes), if |sizes| == 0 then [] else sizes[1..];
      ChunkingIrrelevant(stream[n..], others, ending);
      ReceivedFirst(stream[..n], Pieces(stream[n..], others), ending);
    }
  }

  /** A longer stream hands over what the shorter one did and only then more. */
  lemma HandedGrows(s: seq<byte>, more: seq<byte>)
    ensures Handed(Split(s).lines) <= Handed(Split(s + more).lines)
  {
    SplitMore(s, more);
    HandedAdds(Split(s).lines, Split(Split(s).rest + more).lines);
  }

  lemma HandedNext(before: seq<seq<byte>>, lines: seq<seq<byte>>, line: seq<byte>)
    ensures before + Handed(lines + [line]) == before + Handed(lines) + HandedOf(line)
  {
    HandedSnoc(lines, line);
    assert before + (Handed(lines) + HandedOf(line)) == before + Handed(lines) + HandedOf(line);
  }

  lemma LineLeaves(lines: seq<seq<byte>>, buf: seq<byte>)
    requires NEWLINE in buf
    ensures var i := FirstNewline(buf);
            && i < |buf|
            && Split(buf).rest == Split(buf[i + 1..]).rest
            && lines + Split(buf).lines == lines + [buf[..i]] + Split(buf[i + 1..]).lines
  {
    HasNewlineIff(buf);
    SplitFirst(buf);
  }

  class Connection {
    var buf: seq<byte>
    var handed: seq<seq<byte>>

    constructor ()
      ensures buf == [] && handed == []
    {
      buf, handed := [], [];
    }

    /** The lines taken so far and what is left make up the whole. */
    ghost predicate Draining(lines: seq<seq<byte>>, whole: Parts, before: seq<seq<byte>>)
      reads this
    {
      && handed == before + Handed(lines)
      && Parts(lines + Split(buf).lines, Split(buf).rest) == whole
    }

    /** One complete line leaves the buffer; if anything is left of it after stripping it is handed over. */
    method TakeLine(ghost lines: seq<seq<byte>>, ghost whole: Parts, ghost before: seq<seq<byte>>)
      returns (ghost raw: seq<byte>)
      requires NEWLINE in buf && Draining(lines, whole, before)
      modifies this
      ensures |buf| < |old(buf)| && Draining(lines + [raw], whole, before)
    {
      LineLeaves(lines, buf);
      var i := FirstNewline(buf);
      var line := buf[..i];
      buf := buf[i + 1..];
      raw := line;
      HandedNext(before, lines, raw);
      line := Strip(line);
      if |line| > 0 {
        handed := handed + [line];
      }
    }

    /** The inner loop: every complete line leaves the buffer, and the buffer gets shorter each time. */
    method Drain()
      modifies this
      ensures handed == old(handed) + Handed(Split(old(buf)).lines)
      ensures buf == Split(old(buf)).rest && OneLine(buf)
    {
      ghost var lines: seq<seq<byte>>, whole := [], Split(buf);
      assert [] + Split(buf).lines == Split(buf).lines;
      while NEWLINE in buf
        invariant Draining(lines, whole, old(handed))
        decreases |buf|
      {
        ghost var raw := TakeLine(lines, whole, old(handed));
        lines := lines + [raw];
      }
      NothingSplits(buf);
      assert lines + [] == lines;
    }

    /** One turn of the receive loop; what has been handed over depends on the bytes alone. */
    method Receive(chunk: seq<byte>, ghost stream: seq<byte>)
      requires handed == Handed(Split(stream).lines) && buf == Split(stream).rest
      modifies this
      ensures handed == Handed(Split(stream + chunk).lines) && buf == Split(stream + chunk).rest
      ensures OneLine(buf)
    {
      SplitMore(stream, chunk);
      HandedAdds(Split(stream).lines, Split(buf + chunk).lines);
      buf := buf + chunk;
      Drain();
    }

    /** The receive loop of one connection. */
    method Serve(chunks: seq<seq<byte>>)
      requires buf == [] && handed == []
      modifies this
      ensures handed == Handed(Split(Received(chunks)).lines)
      ensures buf == Split(Received(chunks)).rest && OneLine(buf)
    {
      ghost var stream: seq<byte> := [];
      for i := 0 to |chunks|
        invariant stream + Received(chunks[i..]) == Received(chunks)
        invariant handed == Handed(Split(stream).lines) && buf == Split(stream).rest
      {
        if |chunks[i]| == 0 {
          assert stream + [] == stream;
          return;
        }
        assert stream + (chunks[i] + Received(chunks[i + 1..])) == stream + chunks[i] + Received(chunks[i + 1..]);
        assert chunks[i..][1..] == chunks[i + 1..];
        Receive(chunks[i], stream);
        stream := stream + chunks[i];
      }
      assert stream + [] == stream;
    }
  }
}
