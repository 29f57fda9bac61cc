/** One Push interleaved step by step with one consumer that calls Size and Pop, each read or write of a field being one
    step (src/common/atomic.h). The queue behaves as if every operation happened at once, also while it grows. */
module AtomicQueueSteps {
  import opened Numbers
  import opened AtomicQueue

  /** Where the thread that pushes is. From Copying on it holds all three mutexes; from Locked on it has
      front_mutex_. */
  datatype Producer<T> =
    | PIdle
    | Checking(item: T)
    | Waiting(item: T)
    | Locked(item: T)
    | Copying(item: T, count: uint32, i: uint32)
    | SettingFront(item: T, count: uint32)
    | SettingBack(item: T, count: uint32)
    | SettingSize(item: T)
    | Writing(item: T)
    | Advancing(item: T)

  /** Where the consumer is. Popping on it holds front_mutex_, in Counting size_mutex_. */
  datatype Consumer<T> =
    | CIdle
    | Popping
    | Reading
    | Moving(result: T)
    | Counting

  /** The fields, the two threads, and for history: the queue as it should look, what was pushed and popped, and of the
      elements the consumer last counted how many it has not popped since. */
  datatype State<T> = State(
    queue: seq<T>, size: uint32, front: uint32, back: uint32,
    producer: Producer<T>, consumer: Consumer<T>,
    ideal: seq<T>, pushed: seq<T>, popped: seq<T>, promised: nat)

  function Init<T>(zero: T): State<T> {
    State(seq(FIRST_SIZE, _ => zero), FIRST_SIZE, 0, 0, PIdle, CIdle, [], [], [], 0)
  }

  datatype Step<T> =
    | StartPush(item: T)
    | Push(filler: T)
    | StartPop
    | StartSize
    | Consume

  predicate HasFront<T>(p: Producer<T>) {
    p.Locked? || HasSize(p)
  }

  predicate HasSize<T>(p: Producer<T>) {
    p.Copying? || p.SettingFront? || p.SettingBack? || p.SettingSize?
  }

  predicate InPop<T>(c: Consumer<T>) {
    c.Popping? || c.Reading? || c.Moving?
  }

  /** No division by zero. */
  predicate Shaped<T>(s: State<T>) {
    s.size > 0
  }

  predicate Enabled<T>(s: State<T>, step: Step<T>) {
    match step
    case StartPush(item) => s.producer.PIdle?
    case Push(_) =>
      && (s.producer.Waiting? ==> !InPop(s.consumer))
      && (s.producer.Locked? ==> !s.consumer.Counting?)
      && !s.producer.PIdle?
    case StartPop => s.consumer.CIdle? && !HasFront(s.producer)
    case StartSize => s.consumer.CIdle? && !HasSize(s.producer)
    case Consume => !s.consumer.CIdle?
  }

  predicate InRange<T>(s: State<T>) {
    match s.producer
    case Copying(_, count, i) => i < count ==>
        s.size > 0 && s.size + i < |s.queue| && Offset32(s.front, i, s.size) < |s.queue|
    case Writing(_) => s.back < |s.queue|
    case _ => true
  }

  predicate ReadOk<T>(s: State<T>) {
    s.consumer.Reading? ==> s.front < |s.queue|
  }

  /** One step of the thread that pushes. */
  function PushStep<T>(s: State<T>, filler: T): State<T>
    requires Shaped(s) && InRange(s)
  {
    match s.producer
    case PIdle => s
    case Checking(x) => s.(producer := if s.front == Offset32(s.back, 1, s.size) then Waiting(x) else Writing(x))
    case Waiting(x) => s.(producer := Locked(x))
    case Locked(x) =>
      s.(queue := Resized(s.queue, Twice32(s.size), filler),
          producer := Copying(x, Count32(s.front, s.back, s.size), 0))
    case Copying(x, count, i) =>
      if i < count then
          s.(queue := s.queue[s.size + i := s.queue[Offset32(s.front, i, s.size)]],
              producer := Copying(x, count, i + 1))
      else s.(producer := SettingFront(x, count))
    case SettingFront(x, count) => s.(front := s.size, producer := SettingBack(x, count))
    case SettingBack(x, count) => s.(back := (s.size + count) % U32, producer := SettingSize(x))
    case SettingSize(x) => s.(size := Twice32(s.size), producer := Writing(x))
    case Writing(x) => s.(queue := s.queue[s.back := x], producer := Advancing(x))
    case Advancing(x) =>
      s.(back := Offset32(s.back, 1, s.size), producer := PIdle, ideal := s.ideal + [x], pushed := s.pushed + [x])
  }

  /** One step of the consumer. */
  function ConsumeStep<T>(s: State<T>): State<T>
    requires Shaped(s) && ReadOk(s)
  {
    match s.consumer
    case CIdle => s
    case Popping => s.(consumer := if s.front != s.back then Reading else CIdle)
    case Reading => s.(consumer := Moving(s.queue[s.front]))
    case Moving(x) =>
      s.(front := Offset32(s.front, 1, s.size), consumer := CIdle, popped := s.popped + [x],
         ideal := if s.ideal == [] then [] else s.ideal[1..], promised := if s.promised == 0 then 0 else s.promised - 1)
    case Counting => s.(consumer := CIdle, promised := Count32(s.front, s.back, s.size))
  }

  function Do<T>(s: State<T>, step: Step<T>): State<T>
    requires Shaped(s) && InRange(s) && ReadOk(s)
  {
    match step
    case StartPush(x) => s.(producer := Checking(x))
    case Push(filler) => PushStep(s, filler)
    case StartPop => s.(consumer := Popping)
    case StartSize => s.(consumer := Counting)
    case Consume => ConsumeStep(s)
  }

  // ---- The invariant ----

  ghost predicate IsIdeal<T>(q: seq<T>, front: nat, back: nat, n: nat, ideal: seq<T>) {
    RingOk(q, front, back, n) && Slice(q, front, back, n) == ideal
  }

  /** The elements that have been copied upwards. */
  ghost predicate Copied<T>(q: seq<T>, n: nat, ideal: seq<T>, i: nat) {
    i <= |ideal| < n && |q| == 2 * n && forall j {:trigger q[j]} :: n <= j < n + i ==> q[j] == ideal[j - n]
  }

  /** The ring has a size that occurs, and when it is to grow not the last one. */
  ghost predicate SizeOk<T>(s: State<T>) {
    && IsSize(s.size)
    && (s.producer.Waiting? || s.producer.Locked? || HasSize(s.producer) ==> s.size < LAST_SIZE)
  }

  /** The fields show the ideal queue, or how far the move to a larger ring has come. */
  ghost predicate FieldsOk<T>(s: State<T>) {
    match s.producer
    case Copying(_, count, i) => IsIdeal(s.queue, s.front, s.back, s.size, s.ideal) && count == |s.ideal| &&
        Copied(s.queue, s.size, s.ideal, i)
    case SettingFront(_, count) => s.size > 1 && s.front < s.size && count == |s.ideal| &&
        Copied(s.queue, s.size, s.ideal, count)
    case SettingBack(_, count) => s.size > 1 && s.front == s.size && count == |s.ideal| &&
        Copied(s.queue, s.size, s.ideal, count)
    case SettingSize(_) => s.size > 1 && s.front == s.size && s.back == s.size + |s.ideal| &&
        Copied(s.queue, s.size, s.ideal, |s.ideal|)
    case Writing(_) => |s.queue| == s.size && IsIdeal(s.queue, s.front, s.back, s.size, s.ideal) &&
        |s.ideal| < s.size - 1
    case Advancing(x) =>
      && |s.queue| == s.size && IsIdeal(s.queue, s.front, s.back, s.size, s.ideal) && |s.ideal| < s.size - 1
      && s.queue[s.back] == x
    case _ => |s.queue| == s.size && IsIdeal(s.queue, s.front, s.back, s.size, s.ideal)
  }

  ghost predicate ConsumerOk<T>(s: State<T>) {
    && (InPop(s.consumer) ==> !HasFront(s.producer))
    && (s.consumer.Counting? ==> !HasSize(s.producer))
    && (s.consumer.Reading? ==> s.ideal != [])
    && (s.consumer.Moving? ==> s.ideal != [] && s.ideal[0] == s.consumer.result)
  }

  ghost predicate HistoryOk<T>(s: State<T>) {
    s.pushed == s.popped + s.ideal && s.promised <= |s.ideal|
  }

  ghost predicate Inv<T>(s: State<T>) {
    SizeOk(s) && FieldsOk(s) && ConsumerOk(s) && HistoryOk(s)
  }

  /** The step finds the ring full at the last size and goes on to double it. */
  predicate Overfills<T>(s: State<T>, step: Step<T>) {
    step.Push? && s.producer.Checking? && |s.ideal| == LAST_SIZE - 1
  }

  lemma Bounds<T>(s: State<T>)
    requires SizeOk(s)
    ensures FIRST_SIZE <= s.size <= LAST_SIZE
    ensures s.size < LAST_SIZE ==> IsSize(2 * s.size) && Twice32(s.size) == 2 * s.size
  {
    hide IsSize;
    SizeBounds(s.size);
    DoublesBelowLast(s.size);
  }

  lemma InvShaped<T>(s: State<T>)
    requires SizeOk(s) && FieldsOk(s) && ConsumerOk(s)
    ensures Shaped(s) && InRange(s) && ReadOk(s)
  {
    hide IsSize, Offset32;
    Bounds(s);
    match s.producer
    case Copying(_, count, i) => if i < count { OffsetIs(s.front, i, s.size); }
    case _ =>
  }

  lemma InitInv<T>(zero: T)
    ensures Inv(Init(zero))
  {
    hide IsSize;
    FirstIsSize();
  }

  // ---- Steps of the producer ----

  lemma WriteKeeps<T>(q: seq<T>, front: nat, back: nat, n: nat, x: T)
    requires RingOk(q, front, back, n)
    ensures Slice(q[back := x], front, back, n) == Slice(q, front, back, n)
  {}

  lemma MoreKeeps<T>(q: seq<T>, r: seq<T>, front: nat, back: nat, n: nat)
    requires RingOk(q, front, back, n) && |r| >= n && r[..n] == q[..n]
    ensures RingOk(r, front, back, n) && Slice(r, front, back, n) == Slice(q, front, back, n)
  {
    forall i | 0 <= i < Dist(front, back, n) ensures Slice(r, front, back, n)[i] == Slice(q, front, back, n)[i] {
      var k := Wrap(front + i, n);
      assert r[..n][k] == q[..n][k];
    }
  }

  lemma CheckStep<T>(s: State<T>, filler: T)
    requires SizeOk(s) && FieldsOk(s) && ConsumerOk(s) && Shaped(s) && InRange(s) && s.producer.Checking?
    ensures SizeOk(PushStep(s, filler)) <==> !Overfills(s, Push(filler))
    ensures FieldsOk(PushStep(s, filler)) && IsSize(PushStep(s, filler).size)
  {
    hide Slice, IsSize, Offset32;
    Bounds(s);
    OffsetIs(s.back, 1, s.size);
    SliceSize(s.queue, s.front, s.back, s.size);
  }

  lemma LockedStep<T>(s: State<T>, filler: T)
    requires SizeOk(s) && FieldsOk(s) && Shaped(s) && InRange(s) && s.producer.Locked?
    ensures SizeOk(PushStep(s, filler)) && FieldsOk(PushStep(s, filler))
  {
    hide Slice, IsSize, Count32, Twice32;
    Bounds(s);
    var t := PushStep(s, filler);
    CountIs(s.front, s.back, s.size);
    SliceSize(s.queue, s.front, s.back, s.size);
    ResizedIs(s.queue, 2 * s.size, filler);
    MoreKeeps(s.queue, t.queue, s.front, s.back, s.size);
  }

  lemma CopyStep<T>(s: State<T>, filler: T)
    requires SizeOk(s) && FieldsOk(s) && Shaped(s) && InRange(s) && s.producer.Copying?
    requires s.producer.i < s.producer.count
    ensures SizeOk(PushStep(s, filler)) && FieldsOk(PushStep(s, filler))
  {
    hide Slice, IsSize, Offset32;
    Bounds(s);
    var t, i, from := PushStep(s, filler), s.producer.i, Wrap(s.front + s.producer.i, s.size);
    OffsetIs(s.front, i, s.size);
    SliceAt(s.queue, s.front, s.back, s.size, i);
    assert t.queue == s.queue[s.size + i := s.queue[from]];
    assert t.queue[..s.size] == s.queue[..s.size];
    MoreKeeps(s.queue, t.queue, s.front, s.back, s.size);
  }

  lemma SliceAt<T>(q: seq<T>, front: nat, back: nat, n: nat, i: nat)
    requires RingOk(q, front, back, n) && i < |Slice(q, front, back, n)|
    ensures front + i < 2 * n && Wrap(front + i, n) < n && Slice(q, front, back, n)[i] == q[Wrap(front + i, n)]
  {}

  /** The larger ring shows the same elements. */
  lemma SizeStep<T>(s: State<T>, filler: T)
    requires SizeOk(s) && FieldsOk(s) && Shaped(s) && InRange(s) && s.producer.SettingSize?
    ensures SizeOk(PushStep(s, filler)) && FieldsOk(PushStep(s, filler))
  {
    hide IsSize, Twice32;
    Bounds(s);
    var n, d := s.size, |s.ideal|;
    assert Dist(n, n + d, 2 * n) == d;
    forall i | 0 <= i < d ensures Slice(s.queue, n, n + d, 2 * n)[i] == s.ideal[i] {
      var j := n + i;
      assert s.queue[j] == s.ideal[j - n];
    }
    assert Slice(s.queue, n, n + d, 2 * n) == s.ideal;
  }

  lemma WriteStep<T>(s: State<T>, filler: T)
    requires FieldsOk(s) && Shaped(s) && InRange(s) && s.producer.Writing?
    ensures FieldsOk(PushStep(s, filler))
  {
    hide Slice;
    WriteKeeps(s.queue, s.front, s.back, s.size, s.producer.item);
  }

  lemma AdvanceStep<T>(s: State<T>, filler: T)
    requires SizeOk(s) && FieldsOk(s) && Shaped(s) && InRange(s) && s.producer.Advancing?
    ensures SizeOk(PushStep(s, filler)) && FieldsOk(PushStep(s, filler))
  {
    hide Slice, IsSize, Offset32;
    Bounds(s);
    OffsetIs(s.back, 1, s.size);
    SliceSize(s.queue, s.front, s.back, s.size);
    SlicePush(s.queue, s.front, s.back, s.size, s.producer.item);
    assert s.queue[s.back := s.producer.item] == s.queue;
  }

  lemma PushFields<T>(s: State<T>, filler: T)
    requires Inv(s) && Enabled(s, Push(filler))
    ensures Shaped(s) && InRange(s) && FieldsOk(PushStep(s, filler))
    ensures SizeOk(PushStep(s, filler)) <==> !Overfills(s, Push(filler))
  {
    InvShaped(s);
    Bounds(s);
    hide Slice, Copied, IsIdeal, InRange, Shaped, RingOk, IsSize, Offset32, Count32, Twice32;
    match s.producer
    case Checking(_) => CheckStep(s, filler);
    case Locked(_) => LockedStep(s, filler);
    case Copying(_, count, i) =>
      if i < count {
        CopyStep(s, filler);
      } else {
        CopiedAll(s);
      }
    case SettingBack(_, count) => BackStep(s, filler);
    case SettingSize(_) => SizeStep(s, filler);
    case Writing(_) => WriteStep(s, filler);
    case Advancing(_) => AdvanceStep(s, filler);
    case _ =>
  }

  lemma BackStep<T>(s: State<T>, filler: T)
    requires SizeOk(s) && FieldsOk(s) && Shaped(s) && InRange(s) && s.producer.SettingBack?
    ensures SizeOk(PushStep(s, filler)) && FieldsOk(PushStep(s, filler))
  {
    hide IsSize;
    Bounds(s);
    SmallMod(s.size + s.producer.count, U32);
  }

  lemma CopiedAll<T>(s: State<T>)
    requires FieldsOk(s) && s.producer.Copying? && s.producer.i >= s.producer.count
    ensures s.size > 1 && s.front < s.size && Copied(s.queue, s.size, s.ideal, |s.ideal|)
    ensures s.producer.count == |s.ideal|
  {}

  // ---- Steps of the consumer ----

  lemma ConsumeKeeps<T>(s: State<T>)
    requires Inv(s) && !s.consumer.CIdle?
    ensures Shaped(s) && ReadOk(s) && Inv(ConsumeStep(s))
  {
    InvShaped(s);
    hide Copied, IsSize, Offset32, Count32, FieldsOk;
    match s.consumer
    case Popping => PoppingStep(s);
    case Reading => ReadingStep(s);
    case Moving(_) => MovingStep(s);
    case Counting => CountingStep(s);
  }

  lemma Steady<T>(s: State<T>)
    requires Inv(s) && !HasSize(s.producer)
    ensures |s.queue| == s.size && IsIdeal(s.queue, s.front, s.back, s.size, s.ideal)
  {
    hide IsIdeal;
  }

  lemma PoppingStep<T>(s: State<T>)
    requires Inv(s) && Shaped(s) && ReadOk(s) && s.consumer.Popping?
    ensures Inv(ConsumeStep(s))
  {
    hide Slice, Copied, IsSize;
    Steady(s);
    SliceSize(s.queue, s.front, s.back, s.size);
  }

  lemma ReadingStep<T>(s: State<T>)
    requires Inv(s) && Shaped(s) && ReadOk(s) && s.consumer.Reading?
    ensures Inv(ConsumeStep(s))
  {
    hide Copied, IsSize;
    Steady(s);
    assert s.ideal[0] == s.queue[Wrap(s.front, s.size)];
  }

  lemma MovingStep<T>(s: State<T>)
    requires Inv(s) && Shaped(s) && ReadOk(s) && s.consumer.Moving?
    ensures Inv(ConsumeStep(s))
  {
    hide Slice, Copied, IsSize, Offset32;
    Bounds(s);
    Steady(s);
    OffsetIs(s.front, 1, s.size);
    SliceSize(s.queue, s.front, s.back, s.size);
    SlicePop(s.queue, s.front, s.back, s.size);
    assert s.popped + s.ideal == s.popped + [s.ideal[0]] + s.ideal[1..];
  }

  lemma CountingStep<T>(s: State<T>)
    requires Inv(s) && Shaped(s) && ReadOk(s) && s.consumer.Counting?
    ensures Inv(ConsumeStep(s)) && ConsumeStep(s).promised == |s.ideal|
  {
    hide Slice, Copied, IsSize, Count32;
    Bounds(s);
    Steady(s);
    CountIs(s.front, s.back, s.size);
  }

  // ---- Every step ----

  /** Every step is in bounds, and keeps the invariant if and only if it does not overfill the ring. */
  lemma StepInv<T>(s: State<T>, step: Step<T>)
    requires Inv(s) && Enabled(s, step)
    ensures Shaped(s) && InRange(s) && ReadOk(s)
    ensures Inv(Do(s, step)) <==> !Overfills(s, step)
  {
    InvShaped(s);
    hide Shaped, InRange, ReadOk, Slice, Copied, IsIdeal, IsSize, Offset32, Count32, PushStep, ConsumeStep;
    match step
    case StartPush(_) =>
    case Push(filler) => PushFields(s, filler); PushRest(s, filler);
    case StartPop =>
    case StartSize =>
    case Consume => ConsumeKeeps(s);
  }

  lemma PushRest<T>(s: State<T>, filler: T)
    requires Inv(s) && Enabled(s, Push(filler)) && Shaped(s) && InRange(s)
    ensures ConsumerOk(PushStep(s, filler)) && HistoryOk(PushStep(s, filler))
  {
    hide FieldsOk, SizeOk, Offset32, Count32;
    if s.producer.Advancing? {
      assert s.popped + (s.ideal + [s.producer.item]) == s.popped + s.ideal + [s.producer.item];
    }
  }

  /** Each operation takes effect in one step between its start and its end: a push when back_ moves, a pop when front_
      moves or when it finds the queue empty, Size when it reads; no other step changes the ideal queue. */
  lemma Linearizable<T>(s: State<T>, step: Step<T>)
    requires Inv(s) && Enabled(s, step)
    ensures Shaped(s) && InRange(s) && ReadOk(s)
    ensures var t := Do(s, step);
      && (step.Push? && s.producer.Advancing? ==> t.ideal == s.ideal + [s.producer.item] && t.producer.PIdle?)
      && (step.Consume? && s.consumer.Moving? ==> s.ideal == [s.consumer.result] + t.ideal && t.consumer.CIdle?)
      && (step.Consume? && s.consumer.Popping? ==> (t.consumer.CIdle? <==> s.ideal == []))
      && (step.Consume? && s.consumer.Counting? ==> t.promised == |s.ideal| && t.consumer.CIdle?)
      && (!(step.Push? && s.producer.Advancing?) && !(step.Consume? && s.consumer.Moving?) ==> t.ideal == s.ideal)
  {
    InvShaped(s);
    hide Slice, Copied, IsSize, Offset32, Count32;
    if step.Consume? && s.consumer.Popping? {
      Steady(s);
      SliceSize(s.queue, s.front, s.back, s.size);
    }
    if step.Consume? && s.consumer.Counting? { CountingStep(s); }
  }

  // ---- Runs ----

  /** Steps that follow each other, every access in bounds. */
  ghost predicate IsRun<T>(s: State<T>, steps: seq<Step<T>>)
    decreases |steps|
  {
    steps == [] || (Shaped(s) && InRange(s) && ReadOk(s) && Enabled(s, steps[0]) &&
        IsRun(Do(s, steps[0]), steps[1..]))
  }

  ghost function After<T>(s: State<T>, steps: seq<Step<T>>): State<T>
    requires IsRun(s, steps)
    decreases |steps|
  {
    if steps == [] then s else After(Do(s, steps[0]), steps[1..])
  }

  ghost predicate NeverOverfills<T>(s: State<T>, steps: seq<Step<T>>)
    requires IsRun(s, steps)
    decreases |steps|
  {
    steps == [] || (!Overfills(s, steps[0]) && NeverOverfills(Do(s, steps[0]), steps[1..]))
  }

  lemma {:induction false} RunInv<T>(s: State<T>, steps: seq<Step<T>>)
    requires Inv(s) && IsRun(s, steps) && NeverOverfills(s, steps)
    ensures Inv(After(s, steps))
    decreases |steps|
  {
    if steps != [] {
      hide Inv, Enabled, Shaped, InRange, ReadOk, Do, Overfills;
      StepInv(s, steps[0]);
      RunInv(Do(s, steps[0]), steps[1..]);
    }
  }

  /** Whatever the interleaving: what was popped is a prefix of what was pushed and the rest is in the queue, no read or
      write is out of bounds, and after Size said n the next n pops find an element. */
  lemma FirstInFirstOut<T>(zero: T, steps: seq<Step<T>>)
    requires IsRun(Init(zero), steps) && NeverOverfills(Init(zero), steps)
    ensures var s := After(Init(zero), steps);
      && s.pushed == s.popped + s.ideal
      && Shaped(s) && InRange(s) && ReadOk(s)
      && (s.consumer.Popping? && s.promised > 0 ==> ConsumeStep(s).consumer.Reading?)
  {
    hide IsRun, After, NeverOverfills;
    InitInv(zero);
    RunInv(Init(zero), steps);
    var s := After(Init(zero), steps);
    InvShaped(s);
    if s.consumer.Popping? {
      Steady(s);
      SliceSize(s.queue, s.front, s.back, s.size);
    }
  }

  /** The invariant rules no interleaving out: a thread that has begun can always go on unless the other holds the
      mutex it waits for, and then the other can. */
  lemma NeverStuck<T>(s: State<T>, filler: T)
    requires Inv(s) && !(s.producer.PIdle? && s.consumer.CIdle?)
    ensures Enabled(s, Push(filler)) || Enabled(s, Consume)
  {}
}
