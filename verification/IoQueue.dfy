/**
 The ring buffer of `device/ioqueue.c` between the keyboard interrupt, which puts a character only if there
 is room, and one reading thread.
 */
module IoQueue {
  import opened Common

  const SIZE := 64

  /** `struct ioqueue`; of the waiting threads it matters only whether there is one. */
  datatype Queue = Queue(buf: seq<char>, head: nat, tail: nat, producer: bool, consumer: bool)

  /** Where the reading thread is: outside `ioq_getchar`, blocked in `ioq_wait`, or unblocked and about to
      test the queue again. */
  datatype Reader = Away | Blocked | Woken

  datatype Event = Key(c: char) | Read | Resume

  /** The queue, the reader, and the characters accepted and taken so far. */
  datatype System = System(q: Queue, reader: Reader, accepted: seq<char>, taken: seq<char>)

  function Next(pos: nat): (n: nat)
    ensures n < SIZE
  {
    (pos + 1) % SIZE
  }

  predicate Full(q: Queue) {
    Next(q.head) == q.tail
  }

  predicate Empty(q: Queue) {
    q.tail == q.head
  }

  predicate Shaped(q: Queue) {
    |q.buf| == SIZE && q.head < SIZE && q.tail < SIZE
  }

  function Length(q: Queue): (n: nat)
    ensures n < SIZE
  {
    (q.head - q.tail) % SIZE
  }

  /** The stored characters, oldest first. */
  function Contents(q: Queue): (s: seq<char>)
    requires Shaped(q)
    ensures |s| == Length(q)
  {
    seq(Length(q), i requires 0 <= i < Length(q) => q.buf[(q.tail + i) % SIZE])
  }

  // ---------------------------------------------------------------------------------------
  // Steps
  // ---------------------------------------------------------------------------------------

  /** The keyboard handler: nothing if the queue is full, otherwise `ioq_putchar`, which does not wait and
      wakes a waiting reader.  `None` is an assertion that fails. */
  function KeyStep(s: System, c: char): (r: Option<System>)
    requires Shaped(s.q)
  {
    if Full(s.q) then Some(s)
    else
      var q := s.q.(buf := s.q.buf[s.q.head := c], head := Next(s.q.head));
      var s' := s.(q := q, accepted := s.accepted + [c]);
      if !q.consumer then Some(s')
      else if s.reader != Blocked then None
      else Some(s'.(q := q.(consumer := false), reader := Woken))
  }

  /** The test at the head of the loop of `ioq_getchar`, and what follows it up to where the thread blocks
      or returns. */
  function GetStep(s: System): (r: Option<System>)
    requires Shaped(s.q)
  {
    if Empty(s.q) then
      if s.q.consumer then None
      else Some(s.(q := s.q.(consumer := true), reader := Blocked))
    else if s.q.producer then None
    else
      Some(s.(q := s.q.(tail := Next(s.q.tail)), reader := Away, taken := s.taken + [s.q.buf[s.q.tail]]))
  }

  predicate Enabled(s: System, e: Event) {
    match e
    case Key(_) => true
    case Read => s.reader == Away
    case Resume => s.reader == Woken
  }

  function Step(s: System, e: Event): (r: Option<System>)
    requires Shaped(s.q)
  {
    match e
    case Key(c) => KeyStep(s, c)
    case Read => GetStep(s)
    case Resume => GetStep(s)
  }

  // ---------------------------------------------------------------------------------------
  // The ring
  // ---------------------------------------------------------------------------------------

  lemma EmptyOrFull(q: Queue)
    requires Shaped(q)
    ensures Empty(q) <==> Contents(q) == []
    ensures Full(q) <==> |Contents(q)| == SIZE - 1
  {
  }

  lemma PutAppends(q: Queue, c: char)
    requires Shaped(q) && !Full(q)
    ensures Contents(q.(buf := q.buf[q.head := c], head := Next(q.head))) == Contents(q) + [c]
  {
    var q' := q.(buf := q.buf[q.head := c], head := Next(q.head));
    RingMore(q.head, q.tail);
    forall i | 0 <= i < Length(q')
      ensures Contents(q')[i] == (Contents(q) + [c])[i]
    {
      RingIndex(q.head, q.tail, i);
    }
  }

  lemma RingMore(head: nat, tail: nat)
    requires head < SIZE && tail < SIZE && Next(head) != tail
    ensures (Next(head) - tail) % SIZE == (head - tail) % SIZE + 1
  {
    if tail <= head { assert (head - tail) % SIZE == head - tail; }
    else { assert (head - tail) % SIZE == head - tail + SIZE; }
  }

  lemma RingIndex(head: nat, tail: nat, i: nat)
    requires head < SIZE && tail < SIZE && i <= (head - tail) % SIZE
    ensures (tail + i) % SIZE == head <==> i == (head - tail) % SIZE
  {
  }

  lemma GetTakes(q: Queue)
    requires Shaped(q) && !Empty(q)
    ensures Contents(q) == [q.buf[q.tail]] + Contents(q.(tail := Next(q.tail)))
  {
    var q' := q.(tail := Next(q.tail));
    RingLess(q.head, q.tail);
    forall i | 0 <= i < Length(q)
      ensures Contents(q)[i] == ([q.buf[q.tail]] + Contents(q'))[i]
    {
      RingShift(q.tail, i);
    }
  }

  lemma RingLess(head: nat, tail: nat)
    requires head < SIZE && tail < SIZE && head != tail
    ensures (head - tail) % SIZE == (head - Next(tail)) % SIZE + 1
  {
    if tail < head { assert (head - tail) % SIZE == head - tail; }
    else { assert (head - tail) % SIZE == head - tail + SIZE; }
  }

  lemma RingShift(tail: nat, i: nat)
    requires tail < SIZE && i < SIZE
    ensures i > 0 ==> (tail + i) % SIZE == (Next(tail) + (i - 1)) % SIZE
    ensures (tail + 0) % SIZE == tail
  {
  }

  // ---------------------------------------------------------------------------------------
  // Runs
  // ---------------------------------------------------------------------------------------

  /** What was accepted is what was taken and then what is stored, in order; a reader is recorded iff it is
      blocked, and then the queue is empty; a woken reader finds a character. */
  ghost predicate Inv(s: System) {
    && Shaped(s.q)
    && s.accepted == s.taken + Contents(s.q)
    && !s.q.producer
    && (s.q.consumer <==> s.reader == Blocked)
    && (s.reader == Blocked ==> Empty(s.q))
    && (s.reader == Woken ==> !Empty(s.q))
  }

  lemma StepKeeps(s: System, e: Event)
    requires Inv(s) && Enabled(s, e)
    ensures Step(s, e).Some? && Inv(Step(s, e).value)
  {
    hide Contents;
    EmptyOrFull(s.q);
    match e {
      case Key(c) =>
        if !Full(s.q) {
          PutAppends(s.q, c);
          var q := s.q.(buf := s.q.buf[s.q.head := c], head := Next(s.q.head));
          EmptyOrFull(q);
          SameContents(q, q.(consumer := false));
        }
      case _ =>
        if !Empty(s.q) { GetTakes(s.q); } else { SameContents(s.q, s.q.(consumer := true)); }
    }
  }

  lemma SameContents(q: Queue, q': Queue)
    requires Shaped(q) && q'.buf == q.buf && q'.head == q.head && q'.tail == q.tail
    ensures Contents(q') == Contents(q)
  {
  }

  /** `ioqueue_init` on any buffer. */
  function Init(buf: seq<char>): (s: System) {
    System(Queue(buf, 0, 0, false, false), Away, [], [])
  }

  predicate Moves(s: System, e: Event, s': System) {
    Shaped(s.q) && Enabled(s, e) && Step(s, e) == Some(s')
  }

  /** The states of a run. */
  ghost predicate IsRun(states: seq<System>, events: seq<Event>) {
    && |states| == |events| + 1
    && forall i, j :: 0 <= i < |events| && j == i + 1 ==>
         Moves(states[i], events[i], states[j])
  }

  lemma {:induction false} RunInv(states: seq<System>, events: seq<Event>, n: nat)
    requires IsRun(states, events) && n < |states| && |states[0].q.buf| == SIZE && states[0] == Init(states[0].q.buf)
    ensures Inv(states[n])
  {
    hide Contents;
    if n == 0 {
      StartEmpty(states[0].q);
    } else {
      RunInv(states, events, n - 1);
      assert Moves(states[n - 1], events[n - 1], states[n]);
      StepKeeps(states[n - 1], events[n - 1]);
    }
  }

  lemma StartEmpty(q: Queue)
    requires Shaped(q) && q.head == q.tail
    ensures Contents(q) == []
  {
  }

  /** At every point of every run the characters taken are the first of those accepted, at most 63 are left
      and these are stored in order; no assertion can fail at the next step. */
  lemma FirstInFirstOut(states: seq<System>, events: seq<Event>, n: nat, e: Event)
    requires IsRun(states, events) && n < |states| && |states[0].q.buf| == SIZE && states[0] == Init(states[0].q.buf)
    requires Enabled(states[n], e)
    ensures var s := states[n];
            && Shaped(s.q) && s.taken <= s.accepted && s.accepted[|s.taken|..] == Contents(s.q)
            && |s.accepted| - |s.taken| == (s.q.head - s.q.tail) % SIZE <= 63
            && (s.q.consumer ==> s.accepted == s.taken)
            && Step(s, e).Some?
            && (e.Key? ==> (Step(s, e).value.accepted == s.accepted <==> |s.accepted| - |s.taken| == 63))
            && (e.Resume? ==> |Step(s, e).value.taken| == |s.taken| + 1)
  {
    RunInv(states, events, n);
    var s := states[n];
    StepKeeps(s, e);
    EmptyOrFull(s.q);
    hide Contents, IsRun;
    assert (s.taken + Contents(s.q))[|s.taken|..] == Contents(s.q);
  }

  // ---------------------------------------------------------------------------------------
  // The operations on the fields
  // ---------------------------------------------------------------------------------------

  class Ring {
    const buf: array<char>
    var head: nat
    var tail: nat
    var producer: bool
    var consumer: bool
    ghost var reader: Reader
    ghost var accepted: seq<char>
    ghost var taken: seq<char>

    ghost function State(): System
      reads this, buf
    {
      System(Queue(buf[..], head, tail, producer, consumer), reader, accepted, taken)
    }

    constructor ()
      ensures fresh(buf) && buf.Length == SIZE && State() == Init(buf[..]) && Inv(State())
    {
      buf := new char[SIZE];
      head, tail, producer, consumer := 0, 0, false, false;
      reader, accepted, taken := Away, [], [];
      new;
      StartEmpty(State().q);
    }

    /** The guarded put of the keyboard handler. */
    method Press(c: char)
      requires Inv(State())
      modifies this, buf
      ensures Inv(State()) && Some(State()) == Step(old(State()), Key(c))
    {
      StepKeeps(State(), Key(c));
      hide Inv, Contents;
      ShapeOf(State());
      if Next(head) != tail {
        buf[head] := c;
        head := Next(head);
        accepted := accepted + [c];
        if consumer {
          consumer := false;
          reader := Woken;
        }
      }
    }

    /** `ioq_getchar`, from a test of the queue to where the thread blocks or returns a character. */
    method GetChar() returns (r: Option<char>)
      requires Inv(State()) && reader != Blocked
      modifies this
      ensures Inv(State()) && Some(State()) == Step(old(State()), if old(reader) == Away then Read else Resume)
      ensures r == None <==> reader == Blocked
      ensures r.Some? ==> taken == old(taken) + [r.value]
    {
      StepKeeps(State(), if reader == Away then Read else Resume);
      hide Inv, Contents;
      ShapeOf(State());
      if tail == head {
        consumer := true;
        reader := Blocked;
        return None;
      }
      r := Some(buf[tail]);
      taken := taken + [buf[tail]];
      reader := Away;
      tail := Next(tail);
    }
  }

  lemma ShapeOf(s: System)
    requires Inv(s)
    ensures Shaped(s.q)
  {
  }
}
