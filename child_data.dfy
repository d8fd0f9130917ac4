/** One output stream of a child process (`ChildData`, launcher.h): a fixed
    4096-byte accumulator, its fill `size`, a counter of completed lines and
    the append-only text log the front end renders. `ExtractLines` moves every
    newline-terminated piece of the accumulator into the log; `RecvResponse`
    is one non-blocking drain of the stream. */
module ChildStream {
  import opened CString

  /** `sizeof(buffer)`. */
  const Capacity: nat := 4096
  /** `read()` is asked for at most `ReadLimit - size` bytes, so the cell
      after the data is always free for the terminating NUL. */
  const ReadLimit: nat := 4095
  /** The sentinel line logged when the child's end of the pipe is closed. */
  const NotResponding: seq<char> := "**** IOC not responding ***"

  /* ---------------------------------------------------------------------
     The line scan of extractLines, as written.

     The loop tests `buffer[e]`; at a newline it advances `e` past it, logs
     `buffer[s..e)` and restarts the line at `e`, and then the loop's own
     `e++` advances once more: the byte right after a newline is never
     tested. Scan(d, s, e) is what the rest of the loop does when the
     current line starts at `s` and the cursor is at `e`.
     --------------------------------------------------------------------- */

  datatype Scanned = Scanned(lines: seq<seq<char>>, start: nat)

  function Scan(d: seq<char>, s: nat, e: nat): (r: Scanned)
    requires s <= e <= |d| + 1 && s <= |d|
    ensures s <= r.start <= |d|
    decreases |d| + 1 - e
  {
    if e >= |d| then Scanned([], s)
    else if d[e] == '\n' then
      var rest := Scan(d, e + 1, e + 2);
      Scanned([d[s..e + 1]] + rest.lines, rest.start)
    else Scan(d, s, e + 1)
  }

  /** The lines extractLines logs for the data `d`, newline included. */
  function Lines(d: seq<char>): seq<seq<char>>
  {
    Scan(d, 0, 0).lines
  }

  /** The unterminated tail extractLines moves to the front of the buffer. */
  function Residue(d: seq<char>): (r: seq<char>)
    ensures |r| <= |d| && r == d[|d| - |r|..]
  {
    d[Scan(d, 0, 0).start..]
  }

  /** What `addLine` (`appendf("%s", …)`) adds to the log for each line. */
  function LogText(ls: seq<seq<char>>): (r: seq<char>)
    ensures NoNul(r)
  {
    if ls == [] then [] else CStr(ls[0]) + LogText(ls[1..])
  }

  /** Shape of a logged line: it ends in a newline, and any other newline in
      it is its first byte (the untested byte after the previous line). */
  predicate LineShape(l: seq<char>)
  {
    |l| > 0 && l[|l| - 1] == '\n' && forall k :: 0 < k < |l| - 1 ==> l[k] != '\n'
  }

  lemma {:induction false} ScanBytes(d: seq<char>, s: nat, e: nat)
    requires s <= e <= |d| + 1 && s <= |d|
    ensures Concat(Scan(d, s, e).lines) == d[s..Scan(d, s, e).start]
    decreases |d| + 1 - e
  {
    if e >= |d| {
    } else if d[e] == '\n' {
      ScanNewline(d, s, e);
    } else {
      ScanBytes(d, s, e + 1);
    }
  }

  lemma {:induction false} ScanNewline(d: seq<char>, s: nat, e: nat)
    requires s <= e < |d| && d[e] == '\n'
    ensures Concat(Scan(d, s, e).lines) == d[s..Scan(d, s, e).start]
    decreases |d| + 1 - e, 0
  {
    var rest := Scan(d, e + 1, e + 2);
    ScanBytes(d, e + 1, e + 2);
    var ls := [d[s..e + 1]] + rest.lines;
    assert Scan(d, s, e) == Scanned(ls, rest.start);
    assert ls[1..] == rest.lines;
    assert Concat(ls) == d[s..e + 1] + d[e + 1..rest.start];
    assert d[s..e + 1] + d[e + 1..rest.start] == d[s..rest.start];
  }

  /** One iteration of the extractLines loop. */
  lemma ScanStep(d: seq<char>, s: nat, e: nat)
    requires s <= e < |d|
    ensures d[e] == '\n' ==>
              Scan(d, s, e) == Scanned([d[s..e + 1]] + Scan(d, e + 1, e + 2).lines, Scan(d, e + 1, e + 2).start)
    ensures d[e] != '\n' ==> Scan(d, s, e) == Scan(d, s, e + 1)
  {
  }

  /** A newline at `e` completes the line `d[s..e]`: logging it and
      restarting after the newline keeps `logged + Scan(d, s, e).lines` equal
      to the complete split, and the residue start where it was. */
  lemma LineLogged(d: seq<char>, s: nat, e: nat, logged: seq<seq<char>>, whole: Scanned, line: seq<char>,
                   log0: seq<char>)
    requires s <= e < |d| && d[e] == '\n' && line == d[s..e + 1]
    requires logged + Scan(d, s, e).lines == whole.lines && Scan(d, s, e).start == whole.start
    ensures (logged + [line]) + Scan(d, e + 1, e + 2).lines == whole.lines
    ensures Scan(d, e + 1, e + 2).start == whole.start
    ensures log0 + LogText(logged + [line]) == (log0 + LogText(logged)) + CStr(line)
  {
    ScanStep(d, s, e);
    assert logged + Scan(d, s, e).lines == (logged + [line]) + Scan(d, e + 1, e + 2).lines;
    LogTextAppend(logged, line);
  }

  /** Any other byte just extends the current line. */
  lemma ByteSkipped(d: seq<char>, s: nat, e: nat, logged: seq<seq<char>>, whole: Scanned)
    requires s <= e < |d| && d[e] != '\n'
    requires logged + Scan(d, s, e).lines == whole.lines && Scan(d, s, e).start == whole.start
    ensures logged + Scan(d, s, e + 1).lines == whole.lines && Scan(d, s, e + 1).start == whole.start
  {
    ScanStep(d, s, e);
  }

  lemma {:induction false} ScanShape(d: seq<char>, s: nat, e: nat)
    requires s <= e <= |d| + 1 && s <= |d|
    requires forall k :: s < k < e && k < |d| ==> d[k] != '\n'
    ensures forall l :: l in Scan(d, s, e).lines ==> LineShape(l)
    ensures forall k :: Scan(d, s, e).start < k < |d| ==> d[k] != '\n'
    decreases |d| + 1 - e
  {
    if e >= |d| {
    } else if d[e] == '\n' {
      ScanShape(d, e + 1, e + 2);
      var l := d[s..e + 1];
      assert forall k :: 0 < k < |l| - 1 ==> l[k] == d[s + k];
    } else {
      ScanShape(d, s, e + 1);
    }
  }

  /** No byte is lost or duplicated: the logged lines followed by the residue
      are exactly the scanned data. */
  lemma SplitPreservesBytes(d: seq<char>)
    ensures Concat(Lines(d)) + Residue(d) == d
  {
    ScanBytes(d, 0, 0);
    var t := Scan(d, 0, 0).start;
    assert d[0..t] + d[t..] == d;
  }

  /** Every logged line ends in a newline, and the residue holds no newline
      except possibly at its first byte. */
  lemma SplitShape(d: seq<char>)
    ensures forall l :: l in Lines(d) ==> LineShape(l)
    ensures forall k :: 0 < k < |Residue(d)| ==> Residue(d)[k] != '\n'
  {
    ScanShape(d, 0, 0);
    var t := Scan(d, 0, 0).start;
    assert forall k :: 0 < k < |Residue(d)| ==> Residue(d)[k] == d[t + k];
  }

  lemma {:induction false} LogTextAppend(ls: seq<seq<char>>, l: seq<char>)
    ensures LogText(ls + [l]) == LogText(ls) + CStr(l)
  {
    if ls == [] {
      assert [] + [l] == [l];
    } else {
      assert (ls + [l])[1..] == ls[1..] + [l];
      LogTextAppend(ls[1..], l);
    }
  }

  /** On NUL-free data `"%s"` copies every byte, so the log gains exactly the
      concatenated lines. */
  lemma {:induction false} LogTextOfNoNul(ls: seq<seq<char>>)
    requires NoNul(Concat(ls))
    ensures LogText(ls) == Concat(ls)
  {
    if ls != [] {
      var rest := Concat(ls[1..]);
      assert Concat(ls) == ls[0] + rest;
      assert forall k :: 0 <= k < |ls[0]| ==> ls[0][k] == Concat(ls)[k];
      assert forall k :: 0 <= k < |rest| ==> rest[k] == Concat(ls)[|ls[0]| + k];
      CStrOfNoNul(ls[0]);
      LogTextOfNoNul(ls[1..]);
    }
  }

  /** A drain of NUL-free data loses and duplicates nothing: the log after
      it, followed by the new buffer contents, is the log before it followed
      by the old buffer contents and the bytes read. */
  lemma DrainKeepsStream(log: seq<char>, data: seq<char>, chunk: seq<char>)
    requires NoNul(data + chunk)
    ensures (log + LogText(Lines(data + chunk))) + Residue(data + chunk) == log + data + chunk
  {
    var d := data + chunk;
    SplitPreservesBytes(d);
    var c := Concat(Lines(d));
    assert forall k :: 0 <= k < |c| ==> c[k] == d[k];
    LogTextOfNoNul(Lines(d));
  }

  /** One might expect each line to be the text between two consecutive
      newlines; the scan as written glues an empty line to the next one. */
  lemma BlankLineJoinsNext()
    ensures Lines("a\n\nb\n") == ["a\n", "\nb\n"]
    ensures Residue("a\n\nb\n") == []
  {
    var d := "a\n\nb\n";
    assert d[1] == '\n' && d[3] != '\n' && d[4] == '\n';
    assert Scan(d, 5, 6) == Scanned([], 5);
    assert Scan(d, 2, 4) == Scanned([d[2..5]], 5);
    assert Scan(d, 2, 3) == Scan(d, 2, 4);
    assert Scan(d, 0, 1) == Scanned([d[0..2], d[2..5]], 5);
    assert Scan(d, 0, 0) == Scan(d, 0, 1);
    assert d[0..2] == "a\n" && d[2..5] == "\nb\n";
  }

  /** The same bytes delivered in two reads are split into different lines:
      only the byte stream, not the line boundaries, is independent of how the
      data arrives. */
  lemma LinesDependOnChunking()
    ensures Lines("a\n") == ["a\n"] && Residue("a\n") == []
    ensures Lines("\nb\n") == ["\n", "b\n"] && Residue("\nb\n") == []
    ensures Lines("a\n") + Lines("\nb\n") != Lines("a\n\nb\n")
  {
    var d1 := "a\n";
    assert Scan(d1, 2, 3) == Scanned([], 2);
    assert Scan(d1, 0, 1) == Scanned([d1[0..2]], 2);
    assert Scan(d1, 0, 0) == Scan(d1, 0, 1);
    assert d1[0..2] == "a\n";
    var d2 := "\nb\n";
    assert Scan(d2, 3, 4) == Scanned([], 3);
    assert Scan(d2, 1, 2) == Scanned([d2[1..3]], 3);
    assert Scan(d2, 0, 0) == Scanned([d2[0..1], d2[1..3]], 3);
    assert d2[0..1] == "\n" && d2[1..3] == "b\n";
    BlankLineJoinsNext();
  }

  /* ---------------------------------------------------------------------
     Repeated drains: the residue of one read is the front of the next.
     --------------------------------------------------------------------- */

  datatype Drained = Drained(lines: seq<seq<char>>, pending: seq<char>)

  /** The lines logged, and the bytes left in the buffer, after the chunks
      are read one after the other starting from `pending`. */
  function Reassemble(pending: seq<char>, chunks: seq<seq<char>>): Drained
    decreases |chunks|
  {
    if chunks == [] then Drained([], pending)
    else
      var d := pending + chunks[0];
      var rest := Reassemble(Residue(d), chunks[1..]);
      Drained(Lines(d) + rest.lines, rest.pending)
  }

  /** However the stream is cut into reads, the logged lines followed by the
      bytes still pending are the whole stream. */
  lemma {:induction false} ReassemblePreservesBytes(pending: seq<char>, chunks: seq<seq<char>>)
    ensures Concat(Reassemble(pending, chunks).lines) + Reassemble(pending, chunks).pending
            == pending + Concat(chunks)
    decreases |chunks|
  {
    if chunks != [] {
      var d := pending + chunks[0];
      var rest := Reassemble(Residue(d), chunks[1..]);
      ReassemblePreservesBytes(Residue(d), chunks[1..]);
      SplitPreservesBytes(d);
      ConcatAppend(Lines(d), rest.lines);
      var front, middle, tail := Concat(Lines(d)), Concat(rest.lines), Concat(chunks[1..]);
      assert Concat(chunks) == chunks[0] + tail;
      Regroup(front, middle, rest.pending, Residue(d), tail, pending, chunks[0]);
    }
  }

  lemma Regroup(front: seq<char>, middle: seq<char>, pend: seq<char>, res: seq<char>,
                tail: seq<char>, pending: seq<char>, first: seq<char>)
    requires middle + pend == res + tail
    requires front + res == pending + first
    ensures (front + middle) + pend == pending + (first + tail)
  {
    calc {
      (front + middle) + pend;
      front + (middle + pend);
      front + (res + tail);
      (front + res) + tail;
      (pending + first) + tail;
      pending + (first + tail);
    }
  }

  /** Every line logged over a sequence of reads ends in a newline. */
  lemma {:induction false} ReassembledLinesEndInNewline(pending: seq<char>, chunks: seq<seq<char>>)
    ensures forall l :: l in Reassemble(pending, chunks).lines ==> LineShape(l)
    decreases |chunks|
  {
    if chunks != [] {
      var d := pending + chunks[0];
      SplitShape(d);
      ReassembledLinesEndInNewline(Residue(d), chunks[1..]);
    }
  }

  /* ---------------------------------------------------------------------
     The stream object.
     --------------------------------------------------------------------- */

  /** What `poll()` on the stream's descriptor, and the `read()` that may
      follow it, report. */
  datatype PollEvent =
    | PollFailed              // poll() returned -1
    | NoEvent                 // poll() timed out
    | Hangup                  // POLLHUP set in revents
    | Readable(chunk: seq<char>)  // POLLIN set, no POLLHUP; the bytes read() returned
    | Unhandled               // revents without POLLHUP or POLLIN

  /** The value `recvResponse` returns for an event, given the data that was
      in the buffer before it. */
  function ResponseCode(ev: PollEvent, data: seq<char>): int
  {
    match ev
    case PollFailed => -1
    case NoEvent => 0
    case Hangup => -1
    case Readable(chunk) => |Residue(data + chunk)|
    case Unhandled => 1
  }

  /** The value is -1 exactly on the error events, and otherwise fits in the
      buffer. */
  lemma ResponseCodeRange(ev: PollEvent, data: seq<char>)
    requires ev.Readable? ==> |data + ev.chunk| <= ReadLimit
    ensures ResponseCode(ev, data) < 0 <==> ev.PollFailed? || ev.Hangup?
    ensures ResponseCode(ev, data) < 0 ==> ResponseCode(ev, data) == -1
    ensures ResponseCode(ev, data) <= ReadLimit
  {
  }

  /** `poll()` ignores a negative descriptor and simply times out, unless
      the call itself fails (interrupted by a signal, say). */
  function Seen(fd: int, ev: PollEvent): PollEvent
  {
    if fd < 0 && !ev.PollFailed? then NoEvent else ev
  }

  /** What a drain changes: the log, the line counter and the pending
      bytes. */
  datatype StreamState = StreamState(log: seq<char>, lines: nat, data: seq<char>)

  /** The state after one drain with the event `ev`. */
  function Drain(st: StreamState, ev: PollEvent): StreamState
  {
    match ev
    case Hangup => StreamState(st.log + NotResponding, st.lines + 1, st.data)
    case Readable(chunk) =>
      var d := st.data + chunk;
      StreamState(st.log + LogText(Lines(d)), st.lines + |Lines(d)|, Residue(d))
    case _ => st
  }

  /** A drain only ever appends to the log; on NUL-free data the log
      followed by the pending bytes gains exactly the bytes read, and the
      value returned for a read is the number of bytes left pending. */
  lemma DrainAppendsOnly(st: StreamState, ev: PollEvent)
    ensures st.log <= Drain(st, ev).log
    ensures ev.Readable? && NoNul(st.data + ev.chunk) ==>
              Drain(st, ev).log + Drain(st, ev).data == st.log + st.data + ev.chunk
    ensures ev.Readable? ==> ResponseCode(ev, st.data) == |Drain(st, ev).data|
    ensures !ev.Readable? ==> Drain(st, ev).data == st.data
  {
    if ev.Readable? && NoNul(st.data + ev.chunk) {
      DrainKeepsStream(st.log, st.data, ev.chunk);
    }
  }

  /** With no newline anywhere in the data the scan logs nothing and keeps
      the line start. */
  lemma {:induction false} ScanNoNewline(d: seq<char>, s: nat, e: nat)
    requires s <= e <= |d| + 1 && s <= |d|
    requires forall k :: 0 <= k < |d| ==> d[k] != '\n'
    ensures Scan(d, s, e) == Scanned([], s)
    decreases |d| + 1 - e
  {
    if e < |d| {
      ScanNoNewline(d, s, e + 1);
    }
  }

  /** A full buffer without a newline stalls: the only read that fits asks
      for 0 bytes, and draining it changes nothing and reports the buffer
      full. */
  lemma FullBufferStalls(st: StreamState)
    requires |st.data| == ReadLimit
    requires forall k :: 0 <= k < |st.data| ==> st.data[k] != '\n'
    ensures Drain(st, Readable([])) == st
    ensures ResponseCode(Readable([]), st.data) == ReadLimit
  {
    assert st.data + [] == st.data;
    ScanNoNewline(st.data, 0, 0);
  }

  class ChildData {
    var name: seq<char>
    var fd: int
    const buffer: array<char>
    var size: nat
    var lines: nat
    /** The `ImGuiTextBuffer` holding every logged line. */
    var linesBuffer: seq<char>

    ghost predicate Valid()
      reads this, buffer
    {
      buffer.Length == Capacity && size <= ReadLimit && buffer[size] == Nul
    }

    /** `buffer[0..size)`: the unterminated bytes waiting for their newline. */
    ghost function Data(): seq<char>
      reads this, buffer
      requires Valid()
    {
      buffer[..size]
    }

    ghost function State(): StreamState
      reads this, buffer
      requires Valid()
    {
      StreamState(linesBuffer, lines, Data())
    }

    constructor ()
      ensures Valid() && fresh(buffer)
      ensures name == [] && fd == -1
      ensures size == 0 && lines == 0 && linesBuffer == [] && buffer[0] == Nul
    {
      name := [];
      fd := -1;
      buffer := new char[Capacity](_ => Nul);
      size := 0;
      lines := 0;
      linesBuffer := [];
      new;
      Clear();
    }

    /** `strncpy(name, n, 15)`: keeps the first 15 characters. */
    method SetName(n: seq<char>)
      requires NoNul(n)
      modifies this
      ensures name == if |n| <= 15 then n else n[..15]
      ensures fd == old(fd) && size == old(size) && lines == old(lines)
      ensures linesBuffer == old(linesBuffer)
    {
      name := if |n| <= 15 then n else n[..15];
    }

    method Clear()
      requires Valid()
      modifies this, buffer
      ensures Valid()
      ensures size == 0 && lines == 0 && linesBuffer == [] && buffer[0] == Nul
      ensures forall k :: 1 <= k < buffer.Length ==> buffer[k] == old(buffer[k])
      ensures name == old(name) && fd == old(fd)
    {
      buffer[0] := Nul;
      size := 0;
      lines := 0;
      linesBuffer := [];
    }

    /** Appends the C string `text` to the log, adding no newline. */
    method AddLine(text: seq<char>)
      requires Valid() && NoNul(text)
      modifies this
      ensures Valid() && Data() == old(Data())
      ensures linesBuffer == old(linesBuffer) + text
      ensures lines == old(lines) + 1
      ensures name == old(name) && fd == old(fd) && size == old(size)
    {
      linesBuffer := linesBuffer + text;
      lines := lines + 1;
    }

    method ExtractLines()
      requires Valid()
      modifies this, buffer
      ensures Valid()
      ensures name == old(name) && fd == old(fd)
      ensures linesBuffer == old(linesBuffer) + LogText(Lines(old(Data())))
      ensures lines == old(lines) + |Lines(old(Data()))|
      ensures Data() == Residue(old(Data()))
    {
      var s := LogCompletedLines();
      Compact(s);
    }

    /** The scan loop of extractLines: log every completed line and return
        where the unterminated residue starts. */
    method LogCompletedLines() returns (s: nat)
      requires Valid()
      modifies this
      ensures Valid() && size == old(size)
      ensures name == old(name) && fd == old(fd)
      ensures linesBuffer == old(linesBuffer) + LogText(Lines(Data()))
      ensures lines == old(lines) + |Lines(Data())|
      ensures s == Scan(Data(), 0, 0).start
    {
      ghost var d := Data();
      ghost var whole := Scan(d, 0, 0);
      ghost var logged: seq<seq<char>> := [];
      var e := 0;
      s := 0;
      while e < size
        invariant Valid() && d == Data()
        invariant s <= e <= size + 1 && s <= size
        invariant name == old(name) && fd == old(fd)
        invariant logged + Scan(d, s, e).lines == whole.lines
        invariant Scan(d, s, e).start == whole.start
        invariant linesBuffer == old(linesBuffer) + LogText(logged)
        invariant lines == old(lines) + |logged|
        decreases size + 1 - e
      {
        s, e, logged := ScanOne(d, s, e, logged, whole, old(linesBuffer), old(lines));
      }
      assert logged == whole.lines by {
        assert Scan(d, s, e).lines == [];
      }
    }

    /** One turn of the extractLines loop: at a newline, log the line and
        restart it after the newline; then step past one more byte. */
    method ScanOne(ghost d: seq<char>, s: nat, e: nat, ghost logged: seq<seq<char>>, ghost whole: Scanned,
                   ghost log0: seq<char>, ghost lines0: nat)
      returns (s2: nat, e2: nat, ghost logged2: seq<seq<char>>)
      requires Valid() && d == Data() && s <= e < size
      requires logged + Scan(d, s, e).lines == whole.lines && Scan(d, s, e).start == whole.start
      requires linesBuffer == log0 + LogText(logged) && lines == lines0 + |logged|
      modifies this
      ensures Valid() && d == Data() && name == old(name) && fd == old(fd)
      ensures e < e2 <= size + 1 && s2 <= e2 && s2 <= size
      ensures logged2 + Scan(d, s2, e2).lines == whole.lines && Scan(d, s2, e2).start == whole.start
      ensures linesBuffer == log0 + LogText(logged2) && lines == lines0 + |logged2|
    {
      s2, e2, logged2 := s, e, logged;
      if buffer[e2] == '\n' {
        e2 := e2 + 1;
        // The source writes a NUL at buffer[e] for addLine and puts the
        // byte back afterwards; the logged text is the C string buffer[s..e).
        var line := buffer[s2..e2];
        assert line == d[s2..e2] by {
          assert d == buffer[..size];
          assert forall k :: s2 <= k < e2 ==> d[k] == buffer[k];
        }
        AddLine(CStr(line));
        LineLogged(d, s, e, logged, whole, line, log0);
        logged2 := logged2 + [line];
        s2 := e2;
      } else {
        assert d[e] == buffer[e];
        ByteSkipped(d, s, e, logged, whole);
      }
      e2 := e2 + 1;
    }

    /** The tail of extractLines: move the unterminated bytes from `from`
        on to the front of the buffer and terminate them. */
    method Compact(from: nat)
      requires Valid() && from <= size
      modifies this, buffer
      ensures Valid()
      ensures Data() == old(Data())[from..]
      ensures name == old(name) && fd == old(fd)
      ensures lines == old(lines) && linesBuffer == old(linesBuffer)
    {
      ghost var d := buffer[..size];
      if size - from != 0 {
        var rem := size - from;
        // memmove(&buffer[0], &buffer[from], rem)
        forall k | 0 <= k < rem {
          buffer[k] := buffer[from + k];
        }
        size := rem;
        buffer[size] := Nul;
        assert buffer[..size] == d[from..];
      } else {
        size := 0;
        buffer[size] := Nul;
      }
    }

    /** What `read(fd, buffer + size, 4095 - size)` followed by `size += n;
        buffer[size] = '\0'` does with the bytes read. */
    method Append(chunk: seq<char>)
      requires Valid() && |chunk| <= ReadLimit - size
      modifies this, buffer
      ensures Valid()
      ensures Data() == old(Data()) + chunk
      ensures name == old(name) && fd == old(fd)
      ensures lines == old(lines) && linesBuffer == old(linesBuffer)
    {
      ghost var d := buffer[..size] + chunk;
      forall k | 0 <= k < |chunk| {
        buffer[size + k] := chunk[k];
      }
      size := size + |chunk|;
      buffer[size] := Nul;
      assert buffer[..size] == d;
    }

    /** The POLLIN branch of recvResponse: read the bytes, extract the
        completed lines, and report how many bytes are left in the buffer. */
    method Receive(chunk: seq<char>) returns (n: int)
      requires Valid() && |chunk| <= ReadLimit - size
      modifies this, buffer
      ensures Valid() && name == old(name) && fd == old(fd)
      ensures n == |Residue(old(Data()) + chunk)|
      ensures linesBuffer == old(linesBuffer) + LogText(Lines(old(Data()) + chunk))
      ensures lines == old(lines) + |Lines(old(Data()) + chunk)|
      ensures Data() == Residue(old(Data()) + chunk)
    {
      Append(chunk);
      ExtractLines();
      n := size;
    }

    /** One drain of the stream: `ev` is what poll() and read() report for
        this descriptor. */
    method RecvResponse(ev: PollEvent) returns (n: int)
      requires Valid()
      requires ev.Readable? ==> |ev.chunk| <= ReadLimit - size
      modifies this, buffer
      ensures Valid() && name == old(name) && fd == old(fd)
      ensures n == ResponseCode(Seen(fd, ev), old(Data()))
      ensures State() == Drain(old(State()), Seen(fd, ev))
      ensures !Seen(fd, ev).Readable? ==> size == old(size) && buffer[..] == old(buffer[..])
    {
      if fd < 0 && !ev.PollFailed? {
        n := 0;
        return;
      }
      match ev
      case PollFailed =>
        n := -1;
      case NoEvent =>
        n := 0;
      case Hangup =>
        assert NoNul(NotResponding);
        AddLine(NotResponding);
        n := -1;
      case Readable(chunk) =>
        n := Receive(chunk);
      case Unhandled =>
        n := 1;
    }
  }
}
