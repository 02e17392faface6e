/** Boot readiness: scanning a backend's output for its banner, and waking whoever waits.

The scanner sees the output in arbitrary chunks and keeps only a short tail of it. It sets a
flag and notifies once; the waiter checks the flag, registers, checks again, and then waits. */
module Boot {
  import opened Bits

  /** The text that tells a booted server, byte by byte. */
  const MARKER: seq<byte> :=
    [0x48, 0x79, 0x74, 0x61, 0x6c, 0x65, 0x20, 0x53, 0x65, 0x72, 0x76, 0x65, 0x72, 0x20,
     0x42, 0x6f, 0x6f, 0x74, 0x65, 0x64, 0x21]

  // ----- scanning in chunks

  predicate Contains(s: seq<byte>, m: seq<byte>) {
    exists i | 0 <= i <= |s| :: OccursAt(s, m, i)
  }

  predicate OccursAt(s: seq<byte>, m: seq<byte>, i: nat) {
    i + |m| <= |s| && s[i..i + |m|] == m
  }

  function Last(s: seq<byte>, n: nat): seq<byte> {
    if |s| <= n then s else s[|s| - n..]
  }

  function Keep(m: seq<byte>): nat {
    if m == [] then 0 else |m| - 1
  }

  lemma OccurrenceInPrefix(s: seq<byte>, t: seq<byte>, m: seq<byte>)
    ensures Contains(s, m) ==> Contains(s + t, m)
    ensures Contains(t, m) ==> Contains(s + t, m)
  {
    if i :| 0 <= i <= |s| && OccursAt(s, m, i) {
      assert (s + t)[i..i + |m|] == s[i..i + |m|];
      assert OccursAt(s + t, m, i);
    }
    if i :| 0 <= i <= |t| && OccursAt(t, m, i) {
      assert (s + t)[|s| + i..|s| + i + |m|] == t[i..i + |m|];
      assert OccursAt(s + t, m, |s| + i);
    }
  }

  /** A tail one byte shorter than the marker is all the memory the scan needs: a chunk
  completes an occurrence exactly when one appears in that tail and the chunk. */
  lemma TailSuffices(out: seq<byte>, chunk: seq<byte>, m: seq<byte>)
    requires m != []
    ensures Contains(out + chunk, m)
       <==> Contains(out, m) || Contains(Last(out, Keep(m)) + chunk, m)
  {
    var tail := Last(out, Keep(m));
    var front := out[..|out| - |tail|];
    var window := tail + chunk;
    assert out + chunk == front + window;
    OccurrenceInPrefix(out, chunk, m);
    OccurrenceInPrefix(front, window, m);
    if i :| 0 <= i <= |out + chunk| && OccursAt(out + chunk, m, i) {
      hide Contains, Last;
      if i + |m| <= |out| {
        OccurrenceIn(out, m, [], out + chunk, i);
      } else {
        OccurrenceIn(window, m, front, out + chunk, i);
      }
    }
  }

  /** An occurrence in a longer string that lies within one part of it is one in that part. */
  lemma OccurrenceIn(part: seq<byte>, m: seq<byte>, front: seq<byte>, whole: seq<byte>, i: nat)
    requires OccursAt(whole, m, i) && front + part <= whole && |front| <= i && i + |m| <= |front + part|
    ensures Contains(part, m)
  {
    var j := i - |front|;
    assert part == whole[|front|..|front| + |part|];
    assert part[j..j + |m|] == whole[i..i + |m|];
    assert OccursAt(part, m, j);
  }

  lemma LastOfLast(out: seq<byte>, chunk: seq<byte>, n: nat)
    ensures Last(Last(out, n) + chunk, n) == Last(out + chunk, n)
  {
  }

  /** One turn of the scanner on a chunk: the new tail and flag. */
  function ScannedTail(tail: seq<byte>, chunk: seq<byte>): seq<byte> {
    Last(tail + chunk, Keep(MARKER))
  }

  predicate ScannedFlag(tail: seq<byte>, booted: bool, chunk: seq<byte>) {
    booted || Contains(tail + chunk, MARKER)
  }

  /** The tail and the flag tell the truth about everything mirrored so far. */
  ghost predicate Faithful(out: seq<byte>, tail: seq<byte>, booted: bool) {
    tail == Last(out, Keep(MARKER)) && (booted <==> Contains(out, MARKER))
  }

  lemma ScanStaysFaithful(out: seq<byte>, tail: seq<byte>, booted: bool, chunk: seq<byte>)
    requires Faithful(out, tail, booted)
    ensures Faithful(out + chunk, ScannedTail(tail, chunk), ScannedFlag(tail, booted, chunk))
  {
    hide Contains, Last;
    TailSuffices(out, chunk, MARKER);
    LastOfLast(out, chunk, Keep(MARKER));
  }

  /** What a read of the backend's output returns, and whether the terminal took it. */
  datatype Input = Eof | ReadError | Chunk(bytes: seq<byte>, terminalOk: bool)

  predicate Continues(input: Input) {
    input.Chunk? && input.bytes != [] && input.terminalOk
  }

  /** The output mirrored before the loop ends. */
  function Mirrored(inputs: seq<Input>): seq<byte> {
    if inputs == [] || !Continues(inputs[0]) then []
    else inputs[0].bytes + Mirrored(inputs[1..])
  }

  function Joined(chunks: seq<seq<byte>>): seq<byte> {
    if chunks == [] then [] else chunks[0] + Joined(chunks[1..])
  }

  /** The chunks as the loop reads them, each taken by the terminal. */
  function Taken(chunks: seq<seq<byte>>): seq<Input> {
    seq(|chunks|, i requires 0 <= i < |chunks| => Chunk(chunks[i], true))
  }

  /** What is mirrored is every chunk before the first end of output, read error, empty read or
  chunk the terminal refuses; and nothing from there on. */
  lemma {:induction false} MirroredUpTo(chunks: seq<seq<byte>>, last: Input, more: seq<Input>)
    requires forall k | 0 <= k < |chunks| :: chunks[k] != []
    requires last.Chunk? ==> last.bytes == [] || !last.terminalOk
    ensures Mirrored(Taken(chunks)) == Joined(chunks)
    ensures Mirrored(Taken(chunks) + ([last] + more)) == Joined(chunks)
  {
    if chunks == [] {
      assert Taken(chunks) == [] && Taken(chunks) + ([last] + more) == [last] + more;
    } else {
      MirroredUpTo(chunks[1..], last, more);
      var all := Taken(chunks) + ([last] + more);
      assert Taken(chunks)[1..] == Taken(chunks[1..]) && all[1..] == Taken(chunks[1..]) + ([last] + more);
      assert Taken(chunks)[0] == all[0] == Chunk(chunks[0], true);
    }
  }

  /** The marker is the banner's text. */
  lemma MarkerSpells()
    ensures |MARKER| == |"Hytale Server Booted!"|
    ensures forall i | 0 <= i < |MARKER| :: MARKER[i] == "Hytale Server Booted!"[i] as int
  {
  }

  class Scanner {
    var tail: seq<byte>
    var booted: bool
    ghost var output: seq<byte>
    ghost var notices: nat

    ghost predicate Valid()
      reads this
    {
      Faithful(output, tail, booted) && notices == if booted then 1 else 0
    }

    constructor ()
      ensures Valid() && output == []
    {
      tail, booted, output, notices := [], false, [], 0;
    }

    /** One turn of the loop; the answer is whether it goes on. */
    method Turn(input: Input) returns (more: bool)
      requires Valid()
      modifies this
      ensures Valid()
      ensures more <==> Continues(input)
      ensures output == old(output) + if more then input.bytes else []
    {
      if !input.Chunk? || input.bytes == [] {
        assert output + [] == output;
        return false;
      }
      if !input.terminalOk {
        assert output + [] == output;
        return false;
      }
      ScanStaysFaithful(output, tail, booted, input.bytes);
      output := output + input.bytes;
      tail := tail + input.bytes;
      if Contains(tail, MARKER) {
        var was := booted;
        booted := true;
        if !was {
          notices := notices + 1;
        }
      }
      var keep := |MARKER| - 1;
      if |tail| > keep {
        tail := tail[|tail| - keep..];
      }
      more := true;
    }

    /** For every chunking: the flag is up if and only if the output contains the marker, the
    tail is its last bytes, and waiters were notified once however often it repeats. */
    method Mirror(inputs: seq<Input>)
      requires Valid() && output == []
      modifies this
      ensures output == Mirrored(inputs)
      ensures booted <==> Contains(Mirrored(inputs), MARKER)
      ensures tail == Last(Mirrored(inputs), |MARKER| - 1)
      ensures notices == if Contains(Mirrored(inputs), MARKER) then 1 else 0
    {
      var i := 0;
      assert inputs[0..] == inputs;
      while i < |inputs|
        invariant 0 <= i <= |inputs| && Valid()
        invariant Mirrored(inputs) == output + Mirrored(inputs[i..])
      {
        ghost var before := output;
        var more := Turn(inputs[i]);
        if !more {
          assert output + [] == output;
          return;
        }
        assert inputs[i..][1..] == inputs[i + 1..];
        i := i + 1;
      }
    }
  }

  // ----- the flag and the notification, interleaved with a waiter

  datatype ScannerAt = Scanning | AboutToNotify | Done

  datatype WaiterAt = Start | Unregistered | Registered | Waiting | Ready | Failed

  datatype State = State(
    output: seq<byte>, tail: seq<byte>, booted: bool, scanner: ScannerAt, waiter: WaiterAt, woken: bool)

  const INITIAL := State([], [], false, Scanning, Start, false)

  datatype Step =
    | ScanChunk(bytes: seq<byte>)
    | ScanEnd
    | Notify
    | CheckFlag
    | Register
    | Recheck
    | WakeUp
    | GiveUp

  predicate Enabled(s: State, a: Step) {
    match a
    case ScanChunk(_) => s.scanner == Scanning
    case ScanEnd => s.scanner == Scanning
    case Notify => s.scanner == AboutToNotify
    case CheckFlag => s.waiter == Start
    case Register => s.waiter == Unregistered
    case Recheck => s.waiter == Registered
    case WakeUp => s.waiter == Waiting && s.woken
    case GiveUp => s.waiter == Waiting
  }

  /** A notification reaches whoever has registered; GiveUp is the child exiting or the
  deadline passing. */
  function Next(s: State, a: Step): State
    requires Enabled(s, a)
  {
    match a
    case ScanChunk(bytes) =>
      var booted := ScannedFlag(s.tail, s.booted, bytes);
      s.(output := s.output + bytes, tail := ScannedTail(s.tail, bytes), booted := booted,
         scanner := if booted && !s.booted then AboutToNotify else Scanning)
    case ScanEnd => s.(scanner := Done)
    case Notify =>
      s.(scanner := Scanning, woken := s.woken || s.waiter == Registered || s.waiter == Waiting)
    case CheckFlag => s.(waiter := if s.booted then Ready else Unregistered)
    case Register => s.(waiter := Registered)
    case Recheck => s.(waiter := if s.booted then Ready else Waiting)
    case WakeUp => s.(waiter := Ready)
    case GiveUp => s.(waiter := Failed)
  }

  ghost predicate IsRun(ss: seq<State>, steps: seq<Step>) {
    && |ss| == |steps| + 1 && ss[0] == INITIAL
    && forall i | 0 <= i < |steps| :: Enabled(ss[i], steps[i]) && ss[i + 1] == Next(ss[i], steps[i])
  }

  ghost predicate Consistent(s: State) {
    && Faithful(s.output, s.tail, s.booted)
    && (s.scanner == AboutToNotify ==> s.booted)
    && (s.woken || s.waiter == Ready ==> s.booted)
    && (s.waiter == Waiting && s.booted && s.scanner != AboutToNotify ==> s.woken)
  }

  lemma StepConsistent(s: State, a: Step)
    requires Consistent(s) && Enabled(s, a)
    ensures Consistent(Next(s, a))
  {
    hide Contains, Last;
    if a.ScanChunk? {
      ScanStaysFaithful(s.output, s.tail, s.booted, a.bytes);
    }
  }

  lemma {:induction false} RunConsistent(ss: seq<State>, steps: seq<Step>, i: nat)
    requires IsRun(ss, steps) && i < |ss|
    ensures Consistent(ss[i])
  {
    if i > 0 {
      RunConsistent(ss, steps, i - 1);
      StepConsistent(ss[i - 1], steps[i - 1]);
    }
  }

  /** No interleaving loses the wakeup: once the banner has been printed and the scanner is
  past its notify, a waiter that is blocked has been woken, and waking makes it ready. And
  readiness is never reported without the banner. */
  lemma NoLostWakeup(ss: seq<State>, steps: seq<Step>, i: nat)
    requires IsRun(ss, steps) && i < |ss|
    ensures var s := ss[i];
            Contains(s.output, MARKER) && s.scanner != AboutToNotify && s.waiter == Waiting
            ==> Enabled(s, WakeUp) && Next(s, WakeUp).waiter == Ready
    ensures ss[i].waiter == Ready ==> Contains(ss[i].output, MARKER)
  {
    RunConsistent(ss, steps, i);
  }

  /** A banner the scanner has seen before the waiter's last check is never waited for. */
  lemma EarlyBannerNeedsNoWakeup(ss: seq<State>, steps: seq<Step>, i: nat)
    requires IsRun(ss, steps) && i < |steps| && Contains(ss[i].output, MARKER)
    requires steps[i] == CheckFlag || steps[i] == Recheck
    ensures ss[i + 1].waiter == Ready
  {
    RunConsistent(ss, steps, i);
  }
}
