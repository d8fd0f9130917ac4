/** One IOC instance (`Ioc`, launcher.h): its descriptor, the child process
    bookkeeping (`started`, `pid`, the write end of the child's stdin and
    the read ends of its stdout and stderr) and the two output streams. The
    system calls are inputs: the outcome of each `pipe()`, the pid `fork()`
    returned, the value of `waitpid()`, and what `poll()`/`read()` report. */
module Process {
  import opened CString
  import opened ChildStream

  /* ---------------------------------------------------------------------
     `ret |= …` on C ints (32-bit two's complement).
     --------------------------------------------------------------------- */

  const IntModulus: nat := 0x1_0000_0000

  predicate IsInt(x: int)
  {
    -0x8000_0000 <= x < 0x8000_0000
  }

  function Pow2(k: nat): (r: nat)
    ensures r >= 1
  {
    if k == 0 then 1 else 2 * Pow2(k - 1)
  }

  /** Bitwise or of two naturals, bit by bit from the lowest. */
  function BitOr(a: nat, b: nat): nat
    decreases a + b
  {
    if a == 0 then b
    else if b == 0 then a
    else 2 * BitOr(a / 2, b / 2) + (if a % 2 == 1 || b % 2 == 1 then 1 else 0)
  }

  lemma {:induction false} BitOrBelow(a: nat, b: nat, k: nat)
    requires a < Pow2(k) && b < Pow2(k)
    ensures BitOr(a, b) < Pow2(k)
    decreases a + b
  {
    if a != 0 && b != 0 {
      assert k > 0;
      BitOrBelow(a / 2, b / 2, k - 1);
    }
  }

  /** All ones absorbs anything narrower. */
  lemma {:induction false} BitOrAllOnes(x: nat, k: nat)
    requires x < Pow2(k)
    ensures BitOr(Pow2(k) - 1, x) == Pow2(k) - 1
  {
    if k > 0 && x != 0 {
      var m := Pow2(k) - 1;
      assert m / 2 == Pow2(k - 1) - 1 && m % 2 == 1;
      BitOrAllOnes(x / 2, k - 1);
    }
  }

  lemma {:induction false} BitOrZero(a: nat, b: nat)
    ensures BitOr(a, b) == 0 <==> a == 0 && b == 0
    decreases a + b
  {
    if a != 0 && b != 0 && a % 2 == 0 && b % 2 == 0 {
      BitOrZero(a / 2, b / 2);
    }
  }

  function Unsigned(x: int): nat
    requires IsInt(x)
  {
    if x < 0 then x + IntModulus else x
  }

  function Signed(u: nat): int
    requires u < IntModulus
  {
    if u >= 0x8000_0000 then u - IntModulus else u
  }

  lemma Pow2Values()
    ensures Pow2(12) == 4096 && Pow2(32) == IntModulus
  {
    assert Pow2(12) == 4096;
    assert Pow2(16) == 65536;
    assert Pow2(32) == 65536 * 65536 by {
      Pow2Add(16, 16);
    }
  }

  lemma {:induction false} Pow2Add(i: nat, j: nat)
    ensures Pow2(i + j) == Pow2(i) * Pow2(j)
  {
    if i > 0 {
      Pow2Add(i - 1, j);
    }
  }

  /** C's `a | b` on two ints. */
  function Or(a: int, b: int): (r: int)
    requires IsInt(a) && IsInt(b)
    ensures IsInt(r)
  {
    Pow2Values();
    BitOrBelow(Unsigned(a), Unsigned(b), 32);
    Signed(BitOr(Unsigned(a), Unsigned(b)))
  }

  /** What `ret = 0; ret |= e; ret |= o;` yields for two stream results:
      -1 as soon as either stream failed, 0 exactly when both timed out,
      and a positive value otherwise. */
  lemma OrOfResults(e: int, o: int)
    requires -1 <= e <= ReadLimit && -1 <= o <= ReadLimit
    ensures Or(Or(0, e), o) < 0 <==> e == -1 || o == -1
    ensures Or(Or(0, e), o) < 0 ==> Or(Or(0, e), o) == -1
    ensures Or(Or(0, e), o) == 0 <==> e == 0 && o == 0
  {
    OrZeroLeft(e);
    if e == -1 || o == -1 {
      OrAllOnes(e, o);
    } else {
      OrSmall(e, o);
    }
  }

  lemma OrZeroLeft(x: int)
    requires IsInt(x)
    ensures Or(0, x) == x
  {
  }

  /** -1 has every bit set. */
  lemma OrAllOnes(a: int, b: int)
    requires IsInt(a) && IsInt(b) && (a == -1 || b == -1)
    ensures Or(a, b) == -1
  {
    Pow2Values();
    BitOrCommutes(Unsigned(a), Unsigned(b));
    if a == -1 {
      BitOrAllOnes(Unsigned(b), 32);
    } else {
      BitOrAllOnes(Unsigned(a), 32);
    }
  }

  /** Two buffer sizes or to a value that is still a non-negative int, zero
      only when both are. */
  lemma OrSmall(a: int, b: int)
    requires 0 <= a <= ReadLimit && 0 <= b <= ReadLimit
    ensures 0 <= Or(a, b) && (Or(a, b) == 0 <==> a == 0 && b == 0)
  {
    Pow2Values();
    BitOrBelow(a, b, 12);
    BitOrZero(a, b);
  }

  lemma {:induction false} BitOrCommutes(a: nat, b: nat)
    ensures BitOr(a, b) == BitOr(b, a)
    decreases a + b
  {
    if a != 0 && b != 0 {
      BitOrCommutes(a / 2, b / 2);
    }
  }

  /* ---------------------------------------------------------------------
     The instance
     --------------------------------------------------------------------- */

  /** The outcome of one `pipe()` call. */
  datatype PipeResult = PipeOk(readEnd: nat, writeEnd: nat) | PipeFailed

  class Ioc {
    const stagePath: seq<char>
    const instanceName: seq<char>
    const deviceName: seq<char>
    const prefix: seq<char>
    var started: bool
    var pid: int
    var childStdin: int
    const childStdout: ChildData
    const childStderr: ChildData
    /** Everything written to the current child's stdin. */
    ghost var stdinLog: seq<char>

    /** No child: the state `start` asserts before creating one. */
    predicate Dormant()
      reads this, childStdout, childStderr
    {
      pid == 0 && childStdin == -1 && childStdout.fd == -1 && childStderr.fd == -1
    }

    ghost predicate Valid()
      reads this, childStdout, childStderr, childStdout.buffer, childStderr.buffer
    {
      childStdout != childStderr && childStdout.buffer != childStderr.buffer
      && childStdout.Valid() && childStderr.Valid()
      && (!started ==> Dormant())
      && (started ==> pid > 0 && childStdin >= 0 && childStdout.fd >= 0 && childStderr.fd >= 0)
    }

    constructor (stagePath: seq<char>, instanceName: seq<char>, deviceName: seq<char>, prefix: seq<char>)
      ensures Valid() && !started && Dormant()
      ensures fresh(childStdout) && fresh(childStderr) && fresh(childStdout.buffer) && fresh(childStderr.buffer)
      ensures this.stagePath == stagePath && this.instanceName == instanceName
      ensures this.deviceName == deviceName && this.prefix == prefix
      ensures childStdout.name == "stdout" && childStderr.name == "stderr"
      ensures childStdout.State() == StreamState([], 0, []) && childStderr.State() == StreamState([], 0, [])
      ensures stdinLog == []
    {
      this.stagePath := stagePath;
      this.instanceName := instanceName;
      this.deviceName := deviceName;
      this.prefix := prefix;
      started := false;
      pid := 0;
      childStdin := -1;
      childStdout := new ChildData();
      childStderr := new ChildData();
      stdinLog := [];
      new;
      childStdout.SetName("stdout");
      childStdout.Clear();
      childStderr.SetName("stderr");
      childStderr.Clear();
    }

    method IsStarted() returns (b: bool)
      ensures b == started
    {
      b := started;
    }

    /** `start()`: the three pipes, then the fork; `forkPid` is the pid of
        the new child as the parent sees it. */
    method Start(stdinPipe: PipeResult, stdoutPipe: PipeResult, stderrPipe: PipeResult, forkPid: int)
      returns (r: int)
      requires Valid() && forkPid > 0
      modifies this, childStdout, childStderr, childStdout.buffer, childStderr.buffer
      ensures Valid()
      ensures old(started) ==> r == 0
      ensures !old(started) && (stdinPipe.PipeFailed? || stdoutPipe.PipeFailed? || stderrPipe.PipeFailed?) ==>
                r == -1
      ensures old(started) || stdinPipe.PipeFailed? || stdoutPipe.PipeFailed? || stderrPipe.PipeFailed? ==>
                started == old(started) && pid == old(pid) && childStdin == old(childStdin)
                && unchanged(childStdout, childStderr) && unchanged(childStdout.buffer, childStderr.buffer)
                && stdinLog == old(stdinLog)
      ensures !old(started) && stdinPipe.PipeOk? && stdoutPipe.PipeOk? && stderrPipe.PipeOk? ==>
                r == 0 && started && pid == forkPid && childStdin == stdinPipe.writeEnd
                && childStdout.fd == stdoutPipe.readEnd && childStderr.fd == stderrPipe.readEnd
                && childStdout.State() == StreamState([], 0, []) && childStderr.State() == StreamState([], 0, [])
                && childStdout.name == old(childStdout.name) && childStderr.name == old(childStderr.name)
                && stdinLog == []
    {
      if started {
        return 0;
      }
      if stdinPipe.PipeFailed? || stdoutPipe.PipeFailed? || stderrPipe.PipeFailed? {
        return -1;
      }
      pid := forkPid;
      childStdin := stdinPipe.writeEnd;
      childStdout.fd := stdoutPipe.readEnd;
      childStdout.Clear();
      childStderr.fd := stderrPipe.readEnd;
      childStderr.Clear();
      started := true;
      stdinLog := [];
      r := 0;
    }

    /** `stop()`: SIGKILL, then `waitpid`, whose result is `waitResult`. The
        streams keep their text. */
    method Stop(waitResult: int) returns (r: int)
      requires Valid()
      modifies this, childStdout, childStderr
      ensures Valid()
      ensures !old(started) ==> r == 0
      ensures old(started) && waitResult <= 0 ==> r == -1
      ensures !old(started) || waitResult <= 0 ==>
                started == old(started) && pid == old(pid) && childStdin == old(childStdin)
                && childStdout.fd == old(childStdout.fd) && childStderr.fd == old(childStderr.fd)
      ensures old(started) && waitResult > 0 ==> r == 0 && !started && Dormant()
      ensures childStdout.State() == old(childStdout.State()) && childStderr.State() == old(childStderr.State())
      ensures childStdout.name == old(childStdout.name) && childStderr.name == old(childStderr.name)
      ensures stdinLog == old(stdinLog)
    {
      if !started {
        return 0;
      }
      if waitResult < 0 {
        return -1;
      }
      if waitResult == 0 {
        return -1;
      }
      started := false;
      pid := 0;
      childStdin := -1;
      childStdout.fd := -1;
      childStderr.fd := -1;
      r := 0;
    }

    /** `sendCommand`: the command and a newline go to the child's stdin;
        `write` on -1 fails, and the result is 0 either way. */
    method SendCommand(command: seq<char>) returns (r: int)
      modifies this
      ensures r == 0
      ensures stdinLog == if childStdin >= 0 then old(stdinLog) + CStr(command) + "\n" else old(stdinLog)
      ensures started == old(started) && pid == old(pid) && childStdin == old(childStdin)
    {
      if childStdin >= 0 {
        stdinLog := stdinLog + CStr(command) + "\n";
      }
      r := 0;
    }

    /** `recvResponse`: drain stderr, then stdout, and or the two results. */
    method RecvResponse(errEvent: PollEvent, outEvent: PollEvent) returns (r: int)
      requires Valid()
      requires errEvent.Readable? ==> |errEvent.chunk| <= ReadLimit - childStderr.size
      requires outEvent.Readable? ==> |outEvent.chunk| <= ReadLimit - childStdout.size
      modifies childStdout, childStderr, childStdout.buffer, childStderr.buffer
      ensures Valid()
      ensures childStdout.fd == old(childStdout.fd) && childStderr.fd == old(childStderr.fd)
      ensures childStdout.name == old(childStdout.name) && childStderr.name == old(childStderr.name)
      ensures childStderr.State() == Drain(old(childStderr.State()), Seen(old(childStderr.fd), errEvent))
      ensures childStdout.State() == Drain(old(childStdout.State()), Seen(old(childStdout.fd), outEvent))
      ensures r == Or(Or(0, ResponseCode(Seen(old(childStderr.fd), errEvent), old(childStderr.Data()))),
                      ResponseCode(Seen(old(childStdout.fd), outEvent), old(childStdout.Data())))
    {
      ghost var oldOut := childStdout.Data();
      var e := childStderr.RecvResponse(errEvent);
      var o := childStdout.RecvResponse(outEvent);
      ResponseCodeRange(Seen(childStderr.fd, errEvent), old(childStderr.Data()));
      ResponseCodeRange(Seen(childStdout.fd, outEvent), oldOut);
      r := 0;
      r := Or(r, e);
      r := Or(r, o);
    }
  }

  /** A started instance that is stopped is dormant again, and keeps the
      (empty at start) text of both streams. */
  method StartThenStop(ioc: Ioc, stdinPipe: PipeResult, stdoutPipe: PipeResult, stderrPipe: PipeResult,
                       forkPid: int, waitResult: int)
    requires ioc.Valid() && !ioc.started && forkPid > 0 && waitResult > 0
    requires stdinPipe.PipeOk? && stdoutPipe.PipeOk? && stderrPipe.PipeOk?
    modifies ioc, ioc.childStdout, ioc.childStderr, ioc.childStdout.buffer, ioc.childStderr.buffer
    ensures ioc.Valid() && !ioc.started && ioc.Dormant()
    ensures ioc.childStdout.State() == StreamState([], 0, []) && ioc.childStderr.State() == StreamState([], 0, [])
  {
    var r := ioc.Start(stdinPipe, stdoutPipe, stderrPipe, forkPid);
    assert ioc.started;
    r := ioc.Stop(waitResult);
  }
}
