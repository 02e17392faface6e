/** The hand-off of a backend's console pipe between the proxy and its forwarding task.

To write a chunk the task borrows the pipe, leaving the mutex free meanwhile, and returns it
only if a counter, which every attach and detach advances, has not moved. */
module Console {
  import opened Wrappers
  import opened Bits

  /** Pipes are told apart by the order they were attached in. */
  type Pipe = nat

  /** Who holds the mutex, and for what. */
  datatype Lock = Free | TaskTaking | TaskPutting | Replacing(next: Option<Pipe>)

  datatype Task =
    | Waiting
    | Taking(chunk: nat)
    | Writing(chunk: nat, pipe: Pipe, generation: nat)
    | Wrote(chunk: nat, pipe: Pipe, generation: nat, ok: bool)

  /** `slot` and `generation` are what the mutex guards. The rest is history: how many pipes
  were attached, how often the slot was replaced (now, and when the task took its pipe), how
  many chunks were received, and which chunks each pipe was given. */
  datatype State = State(
    lock: Lock, task: Task, slot: Option<Pipe>, generation: nat,
    attached: nat, replaced: nat, takenAt: nat, received: nat,
    closed: set<Pipe>, current: Option<Pipe>, written: map<Pipe, seq<nat>>)

  const INITIAL := State(Free, Waiting, None, 0, 0, 0, 0, 0, {}, None, map[])

  function TaskPipe(t: Task): Option<Pipe> {
    match t
    case Waiting => None
    case Taking(_) => None
    case Writing(_, p, _) => Some(p)
    case Wrote(_, p, _, _) => Some(p)
  }

  function WrittenTo(s: State, p: Pipe): seq<nat> {
    if p in s.written then s.written[p] else []
  }

  function Closing(closed: set<Pipe>, p: Option<Pipe>): set<Pipe> {
    if p.Some? then closed + {p.value} else closed
  }

  // ----- the steps, each one critical section or one await apart

  datatype Step =
    | CallAttach
    | CallDetach
    | Replace
    | ReceiveChunk
    | LockToTake
    | TakePipe
    | FinishWrite(ok: bool)
    | LockToPut
    | PutPipe

  predicate Enabled(s: State, a: Step) {
    match a
    case CallAttach => s.lock == Free
    case CallDetach => s.lock == Free
    case Replace => s.lock.Replacing?
    case ReceiveChunk => s.task == Waiting
    case LockToTake => s.lock == Free && s.task.Taking?
    case TakePipe => s.lock == TaskTaking && s.task.Taking?
    case FinishWrite(_) => s.task.Writing?
    case LockToPut => s.lock == Free && s.task.Wrote?
    case PutPipe => s.lock == TaskPutting && s.task.Wrote?
  }

  /** Does the put-back find the counter where the take left it? */
  predicate Unmoved(s: State) {
    s.task.Wrote? && s.generation == s.task.generation
  }

  function Next(s: State, a: Step): State
    requires Enabled(s, a)
  {
    match a
    case CallAttach =>
      s.(lock := Replacing(Some(s.attached)), attached := s.attached + 1)
    case CallDetach =>
      s.(lock := Replacing(None))
    case Replace =>
      s.(lock := Free, slot := s.lock.next, generation := (s.generation + 1) % U64_LIMIT,
         replaced := s.replaced + 1, closed := Closing(s.closed, s.slot), current := s.lock.next)
    case ReceiveChunk =>
      s.(task := Taking(s.received), received := s.received + 1)
    case LockToTake =>
      s.(lock := TaskTaking)
    case TakePipe =>
      if s.slot.None? then s.(lock := Free, task := Waiting)
      else s.(lock := Free, slot := None, takenAt := s.replaced,
              task := Writing(s.task.chunk, s.slot.value, s.generation))
    case FinishWrite(ok) =>
      var p := s.task.pipe;
      s.(task := Wrote(s.task.chunk, p, s.task.generation, ok),
         written := s.written[p := WrittenTo(s, p) + [s.task.chunk]])
    case LockToPut =>
      s.(lock := TaskPutting)
    case PutPipe =>
      if Unmoved(s) && s.task.ok then s.(lock := Free, task := Waiting, slot := Some(s.task.pipe))
      else s.(lock := Free, task := Waiting, closed := s.closed + {s.task.pipe})
  }

  // ----- the critical sections as the code runs them

  class Attached {
    var stdin: Option<Pipe>
    var generation: nat

    constructor ()
      ensures stdin == INITIAL.slot && generation == INITIAL.generation
    {
      stdin, generation := None, 0;
    }

    ghost predicate Shows(s: State)
      reads this
    {
      stdin == s.slot && generation == s.generation
    }

    /** attach and detach, once they hold the mutex. */
    method Replace(next: Option<Pipe>, ghost s: State)
      requires Shows(s) && s.lock == Replacing(next)
      modifies this
      ensures Shows(Next(s, Step.Replace))
    {
      stdin := next;
      generation := (generation + 1) % U64_LIMIT;
    }

    /** The forwarding task taking the pipe out for a write. */
    method TakeForWrite(ghost s: State) returns (taken: Option<(Pipe, nat)>)
      requires Shows(s) && Enabled(s, TakePipe)
      modifies this
      ensures Shows(Next(s, TakePipe))
      ensures Next(s, TakePipe).task
           == if taken.None? then Waiting else Writing(s.task.chunk, taken.value.0, taken.value.1)
    {
      taken := if stdin.None? then None else Some((stdin.value, generation));
      stdin := None;
    }

    /** The forwarding task after the write: it keeps the pipe, or drops and so closes it. */
    method PutBack(pipe: Pipe, taken: nat, ok: bool, ghost s: State) returns (dropped: bool)
      requires Shows(s) && Enabled(s, PutPipe) && s.task == Wrote(s.task.chunk, pipe, taken, ok)
      modifies this
      ensures Shows(Next(s, PutPipe))
      ensures Next(s, PutPipe).closed == if dropped then s.closed + {pipe} else s.closed
    {
      if generation != taken {
        return true;
      }
      if ok {
        stdin := Some(pipe);
        return false;
      }
      dropped := true;
    }
  }

  // ----- runs

  /** The states passed through from the start, one step between each two. */
  ghost predicate IsRun(ss: seq<State>, steps: seq<Step>) {
    && |ss| == |steps| + 1 && ss[0] == INITIAL
    && forall i | 0 <= i < |steps| :: Enabled(ss[i], steps[i]) && ss[i + 1] == Next(ss[i], steps[i])
  }

  /** Fewer than 2^64 replacements have happened during the write in progress, if any. */
  ghost predicate NotWrapped(s: State) {
    TaskPipe(s.task).Some? ==> s.replaced - s.takenAt < 0x1_0000_0000_0000_0000
  }

  ghost predicate NeverWraps(ss: seq<State>) {
    forall s <- ss :: NotWrapped(s)
  }

  // ----- what every reachable state satisfies, with no assumption at all

  /** The counter is the number of replacements modulo 2^64, and the mutex is never held
  across a write. */
  ghost predicate Bookkept(s: State) {
    && s.generation == s.replaced % U64_LIMIT
    && (s.task.Writing? || s.task.Wrote? ==>
          s.takenAt <= s.replaced && s.task.generation == s.takenAt % U64_LIMIT)
    && (s.lock == TaskTaking ==> s.task.Taking?)
    && (s.lock == TaskPutting ==> s.task.Wrote?)
    && (s.task != Waiting ==> s.task.chunk + 1 == s.received)
  }

  lemma NextGeneration(n: nat)
    ensures (n % U64_LIMIT + 1) % U64_LIMIT == (n + 1) % U64_LIMIT
  {
  }

  lemma StepBookkept(s: State, a: Step)
    requires Bookkept(s) && Enabled(s, a)
    ensures Bookkept(Next(s, a))
  {
    NextGeneration(s.replaced);
  }

  lemma {:induction false} RunBookkept(ss: seq<State>, steps: seq<Step>, i: nat)
    requires IsRun(ss, steps) && i < |ss|
    ensures Bookkept(ss[i])
  {
    if i > 0 {
      RunBookkept(ss, steps, i - 1);
      StepBookkept(ss[i - 1], steps[i - 1]);
    }
  }

  /** Exactly when the put-back takes the counter for unmoved: after a multiple of 2^64
  replacements, none included. */
  lemma UnmovedExactly(ss: seq<State>, steps: seq<Step>, i: nat)
    requires IsRun(ss, steps) && i < |ss| && ss[i].task.Wrote?
    ensures Unmoved(ss[i]) <==> (ss[i].replaced - ss[i].takenAt) % 0x1_0000_0000_0000_0000 == 0
    ensures NotWrapped(ss[i]) ==> (Unmoved(ss[i]) <==> ss[i].replaced == ss[i].takenAt)
  {
    RunBookkept(ss, steps, i);
    SameResidue(ss[i].takenAt, ss[i].replaced);
  }

  lemma SameResidue(a: nat, b: nat)
    requires a <= b
    ensures a % U64_LIMIT == b % U64_LIMIT <==> (b - a) % U64_LIMIT == 0
  {
  }

  // ----- detach never waits for a write

  ghost predicate Possible(s: State, path: seq<Step>)
    decreases |path|
  {
    path == [] || (Enabled(s, path[0]) && Possible(Next(s, path[0]), path[1..]))
  }

  ghost function After(s: State, path: seq<Step>): State
    requires Possible(s, path)
    decreases |path|
  {
    if path == [] then s else After(Next(s, path[0]), path[1..])
  }

  /** From every reachable state, whether or not a write is stuck, detach gets through in at
  most three steps, none of which is the completion of a write. */
  lemma DetachNeverWaitsForWrite(ss: seq<State>, steps: seq<Step>, i: nat) returns (path: seq<Step>)
    requires IsRun(ss, steps) && i < |ss|
    ensures |path| <= 3 && forall a <- path :: !a.FinishWrite?
    ensures Possible(ss[i], path)
    ensures After(ss[i], path).slot == None && After(ss[i], path).current == None
    ensures ss[i].task.Writing? ==> After(ss[i], path).task == ss[i].task
  {
    RunBookkept(ss, steps, i);
    var s := ss[i];
    var detach := [CallDetach, Step.Replace];
    if s.lock == Free {
      path := detach;
      UnfoldTwo(s, detach);
    } else {
      var release := if s.lock == TaskTaking then TakePipe else if s.lock == TaskPutting then PutPipe else Step.Replace;
      path := [release] + detach;
      assert path[1..] == detach;
      UnfoldTwo(Next(s, release), detach);
    }
  }

  lemma UnfoldStep(s: State, path: seq<Step>)
    requires path != [] && Enabled(s, path[0]) && Possible(Next(s, path[0]), path[1..])
    ensures Possible(s, path) && After(s, path) == After(Next(s, path[0]), path[1..])
  {
  }

  lemma UnfoldTwo(s: State, path: seq<Step>)
    requires |path| == 2 && Enabled(s, path[0]) && Enabled(Next(s, path[0]), path[1])
    ensures Possible(s, path) && After(s, path) == Next(Next(s, path[0]), path[1])
  {
    hide Next, Enabled;
    assert path[1..][1..] == [];
    UnfoldStep(Next(s, path[0]), path[1..]);
    UnfoldStep(s, path);
  }

  // ----- where a pipe is

  function Caller(s: State): Option<Pipe> {
    if s.lock.Replacing? then s.lock.next else None
  }

  /** Each attached pipe is in exactly one place. */
  ghost predicate OnePlace(s: State, p: Pipe) {
    var places := (if s.slot == Some(p) then 1 else 0) + (if TaskPipe(s.task) == Some(p) then 1 else 0)
                + (if Caller(s) == Some(p) then 1 else 0) + (if p in s.closed then 1 else 0);
    places == if p < s.attached then 1 else 0
  }

  /** The slot and the task between them hold at most the current pipe and one stale one. */
  ghost predicate Owned(s: State) {
    && Bookkept(s)
    && (forall p :: OnePlace(s, p))
    && (s.current.Some? ==> s.current.value < s.attached && s.current != Caller(s))
    && (s.slot.Some? ==> s.slot == s.current)
    && (TaskPipe(s.task).Some? ==>
          if s.takenAt == s.replaced then s.slot == None && s.current == TaskPipe(s.task)
          else s.current != TaskPipe(s.task))
  }

  lemma StepOwned(s: State, a: Step)
    requires Owned(s) && NotWrapped(s) && Enabled(s, a)
    ensures Owned(Next(s, a))
    ensures a.PutPipe? && Next(s, a).slot != s.slot ==> s.slot == None && s.current == TaskPipe(s.task)
  {
    StepBookkept(s, a);
    var t := Next(s, a);
    if a.PutPipe? {
      SameResidue(s.takenAt, s.replaced);
    }
    forall p: Pipe ensures OnePlace(t, p) {
      assert OnePlace(s, p);
    }
    assert OnePlace(s, s.attached);
    if Caller(s).Some? {
      assert OnePlace(s, Caller(s).value);
    }
  }

  /** In every run in which no write spans 2^64 replacements: each attached pipe is in
  exactly one of the slot, the task, an attach in progress, and the closed ones; and a
  put-back only ever fills an empty slot, with the pipe attached last. */
  lemma {:induction false} RunOwned(ss: seq<State>, steps: seq<Step>, i: nat)
    requires IsRun(ss, steps) && NeverWraps(ss) && i < |ss|
    ensures Owned(ss[i])
    ensures i < |steps| && steps[i].PutPipe? && ss[i + 1].slot != ss[i].slot
        ==> ss[i].slot == None && ss[i].current == TaskPipe(ss[i].task)
  {
    if i > 0 {
      RunOwned(ss, steps, i - 1);
      assert ss[i - 1] in ss;
      StepOwned(ss[i - 1], steps[i - 1]);
    }
    if i < |steps| {
      assert ss[i] in ss;
      StepOwned(ss[i], steps[i]);
    }
  }

  // ----- a detached or replaced pipe

  /** The pipe was attached, and something else has been attached or detached since. */
  ghost predicate Retired(s: State, p: Pipe) {
    p < s.attached && Caller(s) != Some(p) && s.current != Some(p)
  }

  function InFlight(s: State, p: Pipe): nat {
    if s.task.Writing? && s.task.pipe == p then 1 else 0
  }

  lemma StepRetired(s: State, a: Step, p: Pipe)
    requires Owned(s) && NotWrapped(s) && Enabled(s, a) && Retired(s, p)
    ensures Retired(Next(s, a), p)
    ensures |WrittenTo(Next(s, a), p)| + InFlight(Next(s, a), p) <= |WrittenTo(s, p)| + InFlight(s, p)
  {
    assert OnePlace(s, p);
  }

  /** Attaching or detaching retires the pipe that was current. */
  lemma ReplaceRetires(ss: seq<State>, steps: seq<Step>, i: nat, p: Pipe)
    requires IsRun(ss, steps) && NeverWraps(ss) && i < |steps|
    requires steps[i] == Step.Replace && ss[i].current == Some(p)
    ensures Retired(ss[i + 1], p)
  {
    RunOwned(ss, steps, i);
  }

  /** It never returns to the slot, and receives at most the write already in flight. */
  lemma {:induction false} RetiredStaysOut(ss: seq<State>, steps: seq<Step>, p: Pipe, i: nat, j: nat)
    requires IsRun(ss, steps) && NeverWraps(ss) && i <= j < |ss| && Retired(ss[i], p)
    ensures Retired(ss[j], p) && ss[j].slot != Some(p)
    ensures |WrittenTo(ss[j], p)| + InFlight(ss[j], p) <= |WrittenTo(ss[i], p)| + InFlight(ss[i], p)
    decreases j
  {
    RunOwned(ss, steps, j);
    if i < j {
      RetiredStaysOut(ss, steps, p, i, j - 1);
      RunOwned(ss, steps, j - 1);
      assert ss[j - 1] in ss;
      StepRetired(ss[j - 1], steps[j - 1], p);
    }
  }

  // ----- how a write ends

  /** A pipe whose write failed is closed, and the slot is left as it was. */
  lemma FailedWriteCloses(ss: seq<State>, steps: seq<Step>, i: nat)
    requires IsRun(ss, steps) && i < |steps| && steps[i] == PutPipe && !ss[i].task.ok
    ensures ss[i].task.pipe in ss[i + 1].closed && ss[i + 1].slot == ss[i].slot && ss[i + 1].task == Waiting
  {
  }

  /** A pipe that took its chunk is back in the slot if nothing was attached or detached since
  the task took it, and closed if something was. */
  lemma GoodWriteReturns(ss: seq<State>, steps: seq<Step>, i: nat)
    requires IsRun(ss, steps) && NeverWraps(ss) && i < |steps| && steps[i] == PutPipe && ss[i].task.ok
    ensures ss[i + 1].task == Waiting
    ensures ss[i].replaced == ss[i].takenAt ==>
              ss[i + 1].slot == Some(ss[i].task.pipe) && ss[i + 1].closed == ss[i].closed
    ensures ss[i].replaced != ss[i].takenAt ==>
              ss[i + 1].slot == ss[i].slot && ss[i + 1].closed == ss[i].closed + {ss[i].task.pipe}
  {
    assert ss[i] in ss;
    RunBookkept(ss, steps, i);
    UnmovedExactly(ss, steps, i);
  }

  lemma StepClosed(s: State, a: Step, p: Pipe)
    requires (forall q :: OnePlace(s, q)) && Enabled(s, a) && p in s.closed
    ensures p in Next(s, a).closed && WrittenTo(Next(s, a), p) == WrittenTo(s, p)
  {
    assert OnePlace(s, p);
  }

  /** A closed pipe stays closed: it is never in the slot again and is given no more chunks. */
  lemma {:induction false} ClosedStaysClosed(ss: seq<State>, steps: seq<Step>, p: Pipe, i: nat, j: nat)
    requires IsRun(ss, steps) && NeverWraps(ss) && i <= j < |ss| && p in ss[i].closed
    ensures p in ss[j].closed && ss[j].slot != Some(p) && TaskPipe(ss[j].task) != Some(p)
    ensures WrittenTo(ss[j], p) == WrittenTo(ss[i], p)
    decreases j
  {
    RunOwned(ss, steps, j);
    assert OnePlace(ss[j], p);
    if i < j {
      ClosedStaysClosed(ss, steps, p, i, j - 1);
      RunOwned(ss, steps, j - 1);
      StepClosed(ss[j - 1], steps[j - 1], p);
    }
  }

  /** A chunk that comes while a pipe is in the slot is written to that pipe, and one that
  comes while none is goes nowhere. */
  lemma TakenIsWritten(ss: seq<State>, steps: seq<Step>, i: nat)
    requires IsRun(ss, steps) && i < |steps| && steps[i] == TakePipe
    ensures ss[i].slot.None? ==> ss[i + 1].task == Waiting && ss[i + 1].written == ss[i].written
    ensures ss[i].slot.Some? ==>
              && ss[i + 1].slot == None
              && ss[i + 1].task == Writing(ss[i].task.chunk, ss[i].slot.value, ss[i].generation)
  {
  }

  lemma WriteReachesPipe(ss: seq<State>, steps: seq<Step>, i: nat, p: Pipe)
    requires IsRun(ss, steps) && i < |steps| && steps[i].FinishWrite?
    ensures WrittenTo(ss[i + 1], p)
         == if p == ss[i].task.pipe then WrittenTo(ss[i], p) + [ss[i].task.chunk] else WrittenTo(ss[i], p)
    ensures ss[i + 1].task == Wrote(ss[i].task.chunk, ss[i].task.pipe, ss[i].task.generation, steps[i].ok)
  {
  }

  // ----- the chunks a pipe receives

  /** The number of the chunk the task will handle next. */
  function Upcoming(s: State): nat {
    if s.task.Taking? || s.task.Writing? then s.task.chunk else s.received
  }

  ghost predicate Consecutive(cs: seq<nat>) {
    forall k | 0 < k < |cs| :: cs[k] == cs[k - 1] + 1
  }

  /** What a pipe was given is a run of consecutive chunks, and the pipe that can still be
  given one was given the chunk before it, or nothing. */
  ghost predicate InOrder(s: State, p: Pipe) {
    p in s.written ==>
      && p < s.attached && Caller(s) != Some(p)
      && (s.slot == Some(p) ==> TaskPipe(s.task) == None)
      && s.written[p] != [] && Consecutive(s.written[p])
      && (s.slot == Some(p) || TaskPipe(s.task) == Some(p) ==>
            s.written[p][|s.written[p]| - 1] + 1 == Upcoming(s))
  }

  lemma OneMore(cs: seq<nat>, c: nat)
    requires Consecutive(cs) && (cs != [] ==> cs[|cs| - 1] + 1 == c)
    ensures Consecutive(cs + [c]) && (cs + [c])[|cs + [c]| - 1] == c
  {
  }

  lemma StepInOrder(s: State, a: Step, p: Pipe)
    requires Owned(s) && NotWrapped(s) && Enabled(s, a) && InOrder(s, p)
    ensures InOrder(Next(s, a), p)
  {
    assert OnePlace(s, p);
    if a.FinishWrite? {
      if s.task.pipe == p {
        OneMore(WrittenTo(s, p), s.task.chunk);
        hide Consecutive;
      }
    }
  }

  /** The chunks written to any pipe are a contiguous in-order run of those received. */
  lemma {:induction false} RunInOrder(ss: seq<State>, steps: seq<Step>, p: Pipe, i: nat)
    requires IsRun(ss, steps) && NeverWraps(ss) && i < |ss|
    ensures InOrder(ss[i], p)
  {
    if i > 0 {
      RunOwned(ss, steps, i - 1);
      RunInOrder(ss, steps, p, i - 1);
      assert ss[i - 1] in ss;
      StepInOrder(ss[i - 1], steps[i - 1], p);
    }
  }

  // ----- without the bound the hand-off does lose a pipe

  /** n attaches in a row, from a state whose mutex is free. */
  function Attaches(n: nat): seq<Step> {
    if n == 0 then [] else [CallAttach, Step.Replace] + Attaches(n - 1)
  }

  lemma {:induction false} AttachesRepeat(s: State, n: nat)
    requires s.lock == Free && s.generation < U64_LIMIT
    ensures Possible(s, Attaches(n))
    ensures var t := After(s, Attaches(n));
            t.lock == Free && t.task == s.task && t.generation == (s.generation + n) % U64_LIMIT
            && t.attached == s.attached + n && (n > 0 ==> t.slot == Some(s.attached + n - 1))
    decreases n
  {
    if n > 0 {
      var t := Next(Next(s, CallAttach), Step.Replace);
      AttachOnce(s);
      hide Next, Enabled;
      AttachesRepeat(t, n - 1);
      WrapsAlike(s.generation, n);
      AttachesUnfold(s, n);
    }
  }

  /** The pipe attached last is not among the closed ones. */
  lemma {:induction false} AttachedNotClosed(s: State, n: nat)
    requires s.lock == Free && s.generation < U64_LIMIT
    requires (forall p <- s.closed :: p < s.attached) && (s.slot.Some? ==> s.slot.value < s.attached)
    ensures Possible(s, Attaches(n))
    ensures forall p <- After(s, Attaches(n)).closed :: p + (if n > 0 then 1 else 0) < s.attached + n
    decreases n
  {
    AttachesRepeat(s, n);
    if n > 0 {
      var t := Next(Next(s, CallAttach), Step.Replace);
      AttachOnce(s);
      assert forall p <- t.closed :: p < s.attached;
      hide Next, Enabled;
      AttachedNotClosed(t, n - 1);
      AttachesUnfold(s, n);
    }
  }

  lemma AttachOnce(s: State)
    requires s.lock == Free
    ensures Enabled(s, CallAttach) && Enabled(Next(s, CallAttach), Step.Replace)
    ensures var t := Next(Next(s, CallAttach), Step.Replace);
            t.lock == Free && t.task == s.task && t.generation == (s.generation + 1) % U64_LIMIT
            && t.attached == s.attached + 1 && t.slot == Some(s.attached)
  {
  }

  lemma WrapsAlike(g: nat, n: nat)
    requires n > 0
    ensures ((g + 1) % U64_LIMIT + (n - 1)) % U64_LIMIT == (g + n) % U64_LIMIT
  {
  }

  lemma AttachesUnfold(s: State, n: nat)
    requires n > 0 && Enabled(s, CallAttach) && Enabled(Next(s, CallAttach), Step.Replace)
    requires Possible(Next(Next(s, CallAttach), Step.Replace), Attaches(n - 1))
    ensures Possible(s, Attaches(n))
    ensures After(s, Attaches(n)) == After(Next(Next(s, CallAttach), Step.Replace), Attaches(n - 1))
  {
    hide Next, Enabled;
    var path := Attaches(n);
    assert path[1..] == [Step.Replace] + Attaches(n - 1) && path[1..][1..] == Attaches(n - 1);
    assert Possible(Next(s, CallAttach), path[1..]);
  }

  /** One pipe is attached, and a chunk has been written to it but the pipe not yet put back. */
  const ONE_WRITE: seq<Step> :=
    [CallAttach, Step.Replace, ReceiveChunk, LockToTake, TakePipe, FinishWrite(true)]

  /** The state those steps lead to. */
  const WROTE_ONE: State :=
    State(Free, Wrote(0, 0, 1, true), None, 1, 1, 1, 1, 1, {}, Some(0), map[0 := [0]])

  /** On the way there: the pipe attached, and then the chunk being written to it. */
  const ONE_ATTACHED: State :=
    INITIAL.(slot := Some(0), generation := 1, attached := 1, replaced := 1, current := Some(0))

  const WRITING_ONE: State := ONE_ATTACHED.(task := Writing(0, 0, 1), slot := None, takenAt := 1, received := 1)

  lemma OneAttached()
    ensures Enabled(INITIAL, CallAttach) && Enabled(Next(INITIAL, CallAttach), Step.Replace)
    ensures Next(Next(INITIAL, CallAttach), Step.Replace) == ONE_ATTACHED
  {
  }

  lemma OneTaken()
    ensures Enabled(ONE_ATTACHED, ReceiveChunk)
    ensures var s := Next(ONE_ATTACHED, ReceiveChunk);
            && Enabled(s, LockToTake) && Enabled(Next(s, LockToTake), TakePipe)
            && Next(Next(s, LockToTake), TakePipe) == WRITING_ONE
  {
  }

  lemma OneWritten()
    ensures Enabled(WRITING_ONE, FinishWrite(true)) && Next(WRITING_ONE, FinishWrite(true)) == WROTE_ONE
  {
    assert WrittenTo(WRITING_ONE, 0) + [0] == [0];
  }

  lemma OneWrite()
    ensures Possible(INITIAL, ONE_WRITE) && After(INITIAL, ONE_WRITE) == WROTE_ONE
  {
    OneAttached();
    OneTaken();
    OneWritten();
    hide Next, Enabled;
    var s1, s3 := Next(INITIAL, CallAttach), Next(ONE_ATTACHED, ReceiveChunk);
    UnfoldTwo(Next(s3, LockToTake), ONE_WRITE[4..]);
    UnfoldStep(s3, ONE_WRITE[3..]);
    UnfoldStep(ONE_ATTACHED, ONE_WRITE[2..]);
    UnfoldStep(s1, ONE_WRITE[1..]);
    UnfoldStep(INITIAL, ONE_WRITE);
  }

  /** A write that a multiple of 2^64 attaches overtake puts its stale pipe over the one
  attached last: from the start, the first pipe ends up in the slot and the newest is gone,
  neither held by anyone nor closed. */
  lemma WrapLosesPipe(n: nat)
    requires n > 0 && n % U64_LIMIT == 0
    ensures Possible(INITIAL, ONE_WRITE) && Possible(After(INITIAL, ONE_WRITE), Attaches(n))
    ensures var t := After(After(INITIAL, ONE_WRITE), Attaches(n));
            && t.slot == Some(n) && Enabled(t, LockToPut) && Enabled(Next(t, LockToPut), PutPipe)
            && var u := Next(Next(t, LockToPut), PutPipe);
               u.slot == Some(0) && n < u.attached && n !in u.closed && !OnePlace(u, n)
  {
    hide Attaches, Possible, After;
    OneWrite();
    AttachesRepeat(WROTE_ONE, n);
    SameResidue(1, 1 + n);
    AttachedNotClosed(WROTE_ONE, n);
  }
}
