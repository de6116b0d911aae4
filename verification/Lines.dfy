/** How a replica puts command lines back together from whatever pieces `recv`
    delivers (`replication_thread`, src/main.c). */
module Lines {
  import opened Text

  predicate CrlfAt(s: string, i: nat) {
    i + 1 < |s| && s[i] == '\r' && s[i + 1] == '\n'
  }

  predicate NoCrlf(s: string) { forall i :: 0 <= i < |s| ==> !CrlfAt(s, i) }

  /** Index of the first CRLF, or the length when there is none (`strstr`). */
  function FindCrlf(s: string): (i: nat)
    ensures i <= |s|
    ensures i < |s| ==> CrlfAt(s, i)
    ensures forall j :: 0 <= j < i ==> !CrlfAt(s, j)
  {
    if |s| < 2 then |s| else if CrlfAt(s, 0) then 0
    else
      assert forall j :: 1 <= j < |s| ==> CrlfAt(s, j) == CrlfAt(s[1..], j - 1);
      1 + FindCrlf(s[1..])
  }

  datatype Split = Split(lines: seq<string>, tail: string)

  /** The CRLF-terminated lines of a stream, and the rest after the last CRLF. */
  function SplitLines(s: string): Split
    decreases |s|
  {
    var i := FindCrlf(s);
    if i == |s| then Split([], s)
    else
      var r := SplitLines(s[i + 2..]);
      Split([s[..i]] + r.lines, r.tail)
  }

  /** Empty lines are skipped, not executed. */
  function NonEmpty(lines: seq<string>): seq<string> {
    if lines == [] then []
    else (if lines[0] == "" then [] else [lines[0]]) + NonEmpty(lines[1..])
  }

  function Concat(chunks: seq<string>): string {
    if chunks == [] then "" else chunks[0] + Concat(chunks[1..])
  }

  lemma FindCrlfIs(s: string, i: nat)
    requires i <= |s| && (i < |s| ==> CrlfAt(s, i)) && forall j :: 0 <= j < i ==> !CrlfAt(s, j)
    ensures FindCrlf(s) == i
  {}

  /** Lines put back on the wire. */
  function Joined(lines: seq<string>): string {
    if lines == [] then "" else lines[0] + "\r\n" + Joined(lines[1..])
  }

  /** Splitting loses nothing: lines and rest are the stream, and hold no CRLF themselves. */
  lemma {:induction false} SplitJoins(s: string)
    ensures var r := SplitLines(s);
      && s == Joined(r.lines) + r.tail && NoCrlf(r.tail)
      && forall k :: 0 <= k < |r.lines| ==> NoCrlf(r.lines[k])
    decreases |s|
  {
    hide SplitLines, Joined;
    FirstLine(s);
    var i := FindCrlf(s);
    if i == |s| {
      NothingJoined();
      assert "" + s == s;
    } else {
      var r := SplitLines(s[i + 2..]);
      SplitJoins(s[i + 2..]);
      OneJoined(s[..i], r.lines, r.tail);
      CutAtCrlf(s, i);
    }
  }

  lemma NothingJoined()
    ensures Joined([]) == ""
  {}

  lemma OneJoined(line: string, more: seq<string>, tail: string)
    ensures Joined([line] + more) + tail == line + "\r\n" + (Joined(more) + tail)
  {
    assert ([line] + more)[1..] == more;
  }

  lemma CutAtCrlf(s: string, i: nat)
    requires i == FindCrlf(s) < |s|
    ensures s == s[..i] + "\r\n" + s[i + 2..] && NoCrlf(s[..i])
  {
    hide FindCrlf;
    assert s[i..i + 2] == "\r\n";
    assert s == s[..i] + s[i..i + 2] + s[i + 2..];
    forall j | 0 <= j < i ensures !CrlfAt(s[..i], j) { assert !CrlfAt(s, j); }
  }

  /** Only empty lines are skipped. */
  lemma {:induction false} NonEmptyExact(lines: seq<string>, l: string)
    ensures multiset(NonEmpty(lines))[l] == if l == "" then 0 else multiset(lines)[l]
  {
    if lines != [] {
      NonEmptyExact(lines[1..], l);
      assert lines == [lines[0]] + lines[1..];
    }
  }

  lemma {:induction false} NonEmptyAppend(a: seq<string>, b: seq<string>)
    ensures NonEmpty(a + b) == NonEmpty(a) + NonEmpty(b)
  {
    if a == [] {
      assert a + b == b;
    } else {
      assert (a + b)[1..] == a[1..] + b;
      NonEmptyAppend(a[1..], b);
    }
  }

  lemma {:induction false} TailHasNoLine(s: string)
    ensures NoCrlf(SplitLines(s).tail) && |SplitLines(s).tail| <= |s|
    ensures NulFree(s) ==> NulFree(SplitLines(s).tail)
    decreases |s|
  {
    var i := FindCrlf(s);
    if i < |s| { TailHasNoLine(s[i + 2..]); }
  }

  lemma FirstLine(s: string)
    ensures var i := FindCrlf(s);
      if i == |s| then SplitLines(s) == Split([], s)
      else SplitLines(s) == Split([s[..i]] + SplitLines(s[i + 2..]).lines, SplitLines(s[i + 2..]).tail)
  {}

  lemma Assoc(a: seq<string>, b: seq<string>, c: seq<string>)
    ensures (a + b) + c == a + (b + c)
  {}

  /** Splitting can stop anywhere and resume on the tail, even between CR and LF. */
  lemma {:induction false} SplitAppend(a: string, b: string)
    ensures var x := SplitLines(a); var y := SplitLines(x.tail + b);
      SplitLines(a + b) == Split(x.lines + y.lines, y.tail)
    decreases |a|
  {
    hide SplitLines;
    var i := FindCrlf(a);
    FirstLine(a);
    if i < |a| {
      forall j | 0 <= j <= i ensures CrlfAt(a + b, j) == CrlfAt(a, j) {}
      FindCrlfIs(a + b, i);
      FirstLine(a + b);
      assert (a + b)[..i] == a[..i] && (a + b)[i + 2..] == a[i + 2..] + b;
      SplitAppend(a[i + 2..], b);
      var x := SplitLines(a[i + 2..]);
      Assoc([a[..i]], x.lines, SplitLines(x.tail + b).lines);
    }
  }

  /** What a reader executes over a whole connection, read by read. */
  function Session(tail: string, chunks: seq<string>): Split
    decreases |chunks|
  {
    if chunks == [] then Split([], tail)
    else
      var x := SplitLines(tail + chunks[0]);
      var y := Session(x.tail, chunks[1..]);
      Split(x.lines + y.lines, y.tail)
  }

  lemma SessionStep(tail: string, chunks: seq<string>)
    ensures Session(tail, []) == Split([], tail)
    ensures chunks != [] ==>
      var x := SplitLines(tail + chunks[0]); var y := Session(x.tail, chunks[1..]);
      Session(tail, chunks) == Split(x.lines + y.lines, y.tail)
  {}

  /** The lines do not depend on how the stream was cut into reads. */
  lemma {:induction false} ChunksIrrelevant(tail: string, chunks: seq<string>)
    requires NoCrlf(tail)
    ensures Session(tail, chunks) == SplitLines(tail + Concat(chunks))
    decreases |chunks|
  {
    hide SplitLines, Session, FindCrlf;
    SessionStep(tail, chunks);
    if chunks == [] {
      assert tail + "" == tail;
      FindCrlfIs(tail, |tail|);
      FirstLine(tail);
    } else {
      var x := SplitLines(tail + chunks[0]);
      TailHasNoLine(tail + chunks[0]);
      ChunksIrrelevant(x.tail, chunks[1..]);
      assert tail + Concat(chunks) == (tail + chunks[0]) + Concat(chunks[1..]);
      SplitAppend(tail + chunks[0], Concat(chunks[1..]));
    }
  }

  /** As long as every line of the stream, with its CRLF, is shorter than the buffer,
      the unfinished line leaves room for at least one more byte after any prefix. */
  lemma AlwaysRoom(read: string, unread: string, capacity: nat)
    requires var all := SplitLines(read + unread);
      (forall l :: l in all.lines ==> |l| + 2 < capacity) && |all.tail| + 1 < capacity
    ensures |SplitLines(read).tail| + 1 < capacity
  {
    SplitAppend(read, unread);
    var tail := SplitLines(read).tail;
    TailHasNoLine(read);
    var i := FindCrlf(tail + unread);
    if i < |tail + unread| {
      assert forall j :: 0 <= j < |tail| - 1 ==> CrlfAt(tail + unread, j) == CrlfAt(tail, j);
      assert i >= |tail| - 1;
      assert (tail + unread)[..i] in SplitLines(read + unread).lines;
    }
  }

  /** What one read adds to `repl_offset`: the code adds, for every line, the distance of
      its end from the start of the buffer, not from the end of the line before. */
  function OffsetGain(s: string, from: nat): nat
    requires from <= |s|
    decreases |s| - from
  {
    var i := FindCrlf(s[from..]);
    if from + i == |s| then 0 else from + i + 2 + OffsetGain(s, from + i + 2)
  }

  lemma OffsetStep(s: string, from: nat)
    requires from <= |s|
    ensures var i := FindCrlf(s[from..]);
      OffsetGain(s, from) == if from + i == |s| then 0 else from + i + 2 + OffsetGain(s, from + i + 2)
  {}

  lemma {:induction false} OffsetGainBound(s: string, from: nat)
    requires from <= |s|
    ensures SplitLines(s[from..]).lines == [] ==> OffsetGain(s, from) == 0 && |SplitLines(s[from..]).tail| == |s| - from
    ensures SplitLines(s[from..]).lines != [] ==>
      OffsetGain(s, from) >= |s| - |SplitLines(s[from..]).tail| >= from + 2
    ensures |SplitLines(s[from..]).lines| == 1 ==> OffsetGain(s, from) == |s| - |SplitLines(s[from..]).tail|
    ensures |SplitLines(s[from..]).lines| >= 2 ==> OffsetGain(s, from) > |s| - |SplitLines(s[from..]).tail|
    decreases |s| - from
  {
    hide SplitLines, OffsetGain;
    OffsetStep(s, from);
    FirstLine(s[from..]);
    var next := from + FindCrlf(s[from..]) + 2;
    if next <= |s| {
      assert s[from..][next - from..] == s[next..];
      OffsetGainBound(s, next);
      OneMoreLine(s, from, next);
    }
  }

  /** The line before `next` is the first of those after `from`; the rest stay. */
  lemma OneMoreLine(s: string, from: nat, next: nat)
    requires from <= |s| && next == from + FindCrlf(s[from..]) + 2 <= |s|
    ensures |SplitLines(s[from..]).lines| == 1 + |SplitLines(s[next..]).lines|
    ensures SplitLines(s[from..]).tail == SplitLines(s[next..]).tail
  {
    hide SplitLines;
    FirstLine(s[from..]);
    assert s[from..][next - from..] == s[next..];
  }

  /** So the offset counts the bytes consumed if and only if the read completed at most
      one line. */
  lemma OffsetCountsBytes(s: string)
    ensures OffsetGain(s, 0) == |s| - |SplitLines(s).tail| <==> |SplitLines(s).lines| <= 1
  {
    assert s[0..] == s;
    OffsetGainBound(s, 0);
  }

  /** The receive buffer of the replication thread. */
  class LineReader {
    const capacity: nat
    const buffer: array<char>
    var bufferPos: nat
    var replOffset: nat

    ghost predicate Valid()
      reads this, buffer
    {
      && bufferPos < capacity <= buffer.Length
      && NulFree(buffer[..bufferPos]) && NoCrlf(buffer[..bufferPos])
    }

    /** The unfinished line kept for the next read. */
    ghost function Tail(): (tail: string)
      requires Valid()
      reads this, buffer
      ensures NulFree(tail) && NoCrlf(tail)
    {
      buffer[..bufferPos]
    }

    constructor (bufferSize: nat)
      requires 1 < bufferSize
      ensures Valid() && Tail() == "" && capacity == bufferSize && replOffset == 0 && fresh(buffer)
    {
      capacity := bufferSize;
      buffer := new char[bufferSize * 4];
      bufferPos, replOffset := 0, 0;
    }

    /** From `line` on, the buffer is that part of `s`, NUL-terminated. */
    ghost predicate Holds(s: string, line: nat)
      reads buffer
    {
      && |s| < buffer.Length && buffer[|s|] == NUL && NulFree(s)
      && forall i :: line <= i < |s| ==> buffer[i] == s[i]
    }

    /** `strstr(line, "\r\n")`; the end of the text when it finds nothing. */
    method FindLineEnd(line: nat, ghost s: string) returns (next: nat)
      requires line <= |s| && Holds(s, line)
      ensures next == line + FindCrlf(s[line..])
    {
      next := line;
      while buffer[next] != NUL && !(buffer[next] == '\r' && buffer[next + 1] == '\n')
        invariant line <= next <= |s|
        invariant forall j :: 0 <= j < next - line ==> !CrlfAt(s[line..], j)
        decreases |s| - next
      {
        assert !CrlfAt(s[line..], next - line);
        next := next + 1;
      }
      FindCrlfIs(s[line..], next - line);
    }

    /** `recv`, and the NUL after what it delivered. */
    method Append(bytes: string)
      requires Valid() && |bytes| <= capacity - bufferPos - 1
      modifies this`bufferPos, buffer
      ensures bufferPos == old(bufferPos) + |bytes| < capacity && buffer[bufferPos] == NUL
      ensures buffer[..bufferPos] == old(Tail()) + bytes
    {
      ghost var s := Tail() + bytes;
      forall i | 0 <= i < |bytes| { buffer[bufferPos + i] := bytes[i]; }
      bufferPos := bufferPos + |bytes|;
      buffer[bufferPos] := NUL;
      assert buffer[..bufferPos] == s;
    }

    /** `*next_line = '\0'`: what the executor then sees from `line` on. */
    method CutLine(line: nat, next: nat, ghost s: string) returns (text: string)
      requires line <= next < |s| && Holds(s, line)
      modifies buffer
      ensures text == s[line..next] && Holds(s, next + 1)
    {
      buffer[next] := NUL;
      assert buffer[line..][..next - line] == s[line..next];
      CStrAt(buffer[line..], next - line);
      text := CStr(buffer[line..]);
    }

    /** `memmove` of the unfinished line to the front. */
    method KeepRest(line: nat, ghost s: string)
      requires line <= bufferPos == |s| && Holds(s, line)
      modifies this`bufferPos, buffer
      ensures bufferPos == |s| - line && buffer[..bufferPos] == s[line..]
    {
      if line < bufferPos {
        forall i | 0 <= i < bufferPos - line { buffer[i] := buffer[line + i]; }
        bufferPos := bufferPos - line;
      } else {
        bufferPos := 0;
      }
    }

    /** One successful `recv`: appends the bytes, executes every complete non-empty line
        in order, and moves the unfinished rest to the front of the buffer. */
    method Receive(bytes: string) returns (executed: seq<string>)
      requires Valid() && 0 < |bytes| <= capacity - bufferPos - 1 && NulFree(bytes)
      modifies this, buffer
      ensures Valid()
      ensures var all := SplitLines(old(Tail()) + bytes);
        executed == NonEmpty(all.lines) && Tail() == all.tail
      ensures replOffset == old(replOffset) + OffsetGain(old(Tail()) + bytes, 0)
    {
      hide SplitLines, NonEmpty, FindCrlf, CStr, OffsetGain;
      ghost var s := Tail() + bytes;
      Append(bytes);
      executed := [];
      var line := 0;
      ghost var done: seq<string> := [];
      EmptyDone();
      assert s[0..] == s && done + SplitLines(s).lines == SplitLines(s).lines;
      assert Holds(s, 0) by { assert forall i :: 0 <= i < |s| ==> buffer[..bufferPos][i] == buffer[i]; }
      var next := FindLineEnd(line, s);
      while next < bufferPos
        invariant line <= next <= bufferPos == |s| < capacity
        invariant Holds(s, line)
        invariant next == line + FindCrlf(s[line..])
        invariant SplitLines(s) == Split(done + SplitLines(s[line..]).lines, SplitLines(s[line..]).tail)
        invariant executed == NonEmpty(done)
        invariant replOffset + OffsetGain(s, line) == old(replOffset) + OffsetGain(s, 0)
        decreases bufferPos - line
      {
        NextLine(s, line, done);
        OffsetStep(s, line);
        var text := CutLine(line, next, s);
        if text != "" {
          executed := executed + [text];
        }
        done := done + [text];
        line := next + 2;
        replOffset := replOffset + line;
        next := FindLineEnd(line, s);
      }
      LastLine(s, line, done);
      OffsetStep(s, line);
      TailHasNoLine(s);
      KeepRest(line, s);
    }
  }

  lemma EmptyDone()
    ensures NonEmpty([]) == []
  {}

  lemma OneLine(l: string)
    ensures NonEmpty([l]) == if l == "" then [] else [l]
  {}

  lemma NextLine(s: string, line: nat, done: seq<string>)
    requires line <= |s| && FindCrlf(s[line..]) < |s| - line
    requires SplitLines(s) == Split(done + SplitLines(s[line..]).lines, SplitLines(s[line..]).tail)
    ensures var next := line + FindCrlf(s[line..]);
      && next + 2 <= |s|
      && SplitLines(s) == Split((done + [s[line..next]]) + SplitLines(s[next + 2..]).lines, SplitLines(s[next + 2..]).tail)
      && NonEmpty(done + [s[line..next]]) == NonEmpty(done) + if line == next then [] else [s[line..next]]
  {
    hide SplitLines, NonEmpty, FindCrlf;
    var i := FindCrlf(s[line..]);
    FirstLine(s[line..]);
    OneLine(s[line..line + i]);
    assert s[line..][i + 2..] == s[line + i + 2..] && s[line..][..i] == s[line..line + i];
    NonEmptyAppend(done, [s[line..line + i]]);
    Assoc(done, [s[line..line + i]], SplitLines(s[line + i + 2..]).lines);
  }

  lemma LastLine(s: string, line: nat, done: seq<string>)
    requires line <= |s| && FindCrlf(s[line..]) == |s| - line
    requires SplitLines(s) == Split(done + SplitLines(s[line..]).lines, SplitLines(s[line..]).tail)
    ensures SplitLines(s) == Split(done, s[line..])
  {
    assert done + [] == done;
  }

  /** Every read finds room: what `recv` may deliver next, for the given reads. */
  ghost predicate ReadsFit(tail: string, chunks: seq<string>, capacity: nat)
    decreases |chunks|
  {
    chunks != [] ==>
      && 0 < |chunks[0]| <= capacity - |tail| - 1 && NulFree(chunks[0])
      && ReadsFit(SplitLines(tail + chunks[0]).tail, chunks[1..], capacity)
  }

  /** The reading loop over a whole connection executes exactly the non-empty lines of the
      stream, in order, and keeps exactly its unterminated tail. */
  method ReadAll(r: LineReader, chunks: seq<string>) returns (executed: seq<string>)
    requires r.Valid() && ReadsFit(r.Tail(), chunks, r.capacity)
    modifies r, r.buffer
    ensures r.Valid()
    ensures var all := SplitLines(old(r.Tail()) + Concat(chunks));
      executed == NonEmpty(all.lines) && r.Tail() == all.tail
  {
    hide SplitLines, NonEmpty, Session;
    ghost var tail := r.Tail();
    ghost var lines: seq<string> := [];
    EmptyDone();
    assert chunks[0..] == chunks;
    executed := [];
    var i := 0;
    while i < |chunks|
      invariant i <= |chunks| && r.Valid() && ReadsFit(r.Tail(), chunks[i..], r.capacity)
      invariant var rest := Session(r.Tail(), chunks[i..]);
        Session(tail, chunks) == Split(lines + rest.lines, rest.tail)
      invariant executed == NonEmpty(lines)
    {
      var x := chunks[i];
      ghost var now := SplitLines(r.Tail() + x).lines;
      assert chunks[i..][1..] == chunks[i + 1..];
      SessionStep(r.Tail(), chunks[i..]);
      var more := r.Receive(x);
      NonEmptyAppend(lines, now);
      Assoc(lines, now, Session(r.Tail(), chunks[i + 1..]).lines);
      executed, lines := executed + more, lines + now;
      i := i + 1;
    }
    assert chunks[|chunks|..] == [] && lines + [] == lines;
    SessionStep(r.Tail(), []);
    ChunksIrrelevant(tail, chunks);
  }
}
