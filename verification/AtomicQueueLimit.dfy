/** The queue at its last size (src/common/atomic.h): a push that finds the ring full there never ends, and goes out of
    bounds. The size that the code keeps in 32 bits is the only thing that can go wrong. */
module AtomicQueueLimit {
  import opened Numbers
  import opened AtomicQueue
  import opened AtomicQueueSteps

  predicate InBounds<T>(s: State<T>) {
    Shaped(s) && InRange(s) && ReadOk(s)
  }

  // ---- After a step that overfills ----

  ghost predicate LastRing<T>(s: State<T>) {
    s.size == LAST_SIZE && s.front < LAST_SIZE && s.back < LAST_SIZE
  }

  /** The push has decided to double the last ring. The new size is 0, so the resize empties the queue; what is left of
      the push is the copying, which starts out of bounds, or when the consumer has emptied the ring meanwhile, the
      three assignments and a write that is out of bounds. */
  ghost predicate Lost<T>(s: State<T>) {
    match s.producer
    case Waiting(_) => LastRing(s) && |s.queue| == s.size
    case Locked(_) => LastRing(s) && |s.queue| == s.size && !InPop(s.consumer)
    case Copying(_, count, i) =>
      LastRing(s) && s.queue == [] && s.consumer.CIdle? && i == 0 && count == Dist(s.front, s.back, s.size)
    case SettingFront(_, count) => LastRing(s) && s.queue == [] && s.consumer.CIdle? && count == 0
    case SettingBack(_, count) =>
      s.size == s.front == LAST_SIZE && s.queue == [] && s.consumer.CIdle? && count == 0
    case SettingSize(_) => s.size == s.front == s.back == LAST_SIZE && s.queue == [] && s.consumer.CIdle?
    case Writing(_) => s.size == 0 && s.queue == []
    case _ => false
  }

  lemma OverfullIsLost<T>(s: State<T>, step: Step<T>)
    requires Inv(s) && Enabled(s, step) && Overfills(s, step)
    ensures InBounds(s) && Lost(Do(s, step))
  {
    InvShaped(s);
    hide Slice, IsSize, Offset32;
    Bounds(s);
    OffsetIs(s.back, 1, s.size);
    SliceSize(s.queue, s.front, s.back, s.size);
  }

  /** At the last size the resize drops every element, and the first one copied is written out of bounds. */
  lemma LockedAtLast<T>(s: State<T>, filler: T)
    requires s.producer.Locked? && LastRing(s) && |s.queue| == s.size
    ensures InBounds(s) && PushStep(s, filler).queue == [] && PushStep(s, filler).producer.Copying?
    ensures s.front != s.back ==> !InRange(PushStep(s, filler))
  {
    hide Count32, Twice32;
    LastTwice();
    CountIs(s.front, s.back, s.size);
    ResizedIs(s.queue, 0, filler);
  }

  lemma LastTwice()
    ensures Twice32(LAST_SIZE) == 0
  {}

  /** Nothing gets the push out of there. */
  lemma LostStep<T>(s: State<T>, step: Step<T>)
    requires Lost(s) && InBounds(s) && Enabled(s, step)
    ensures Lost(Do(s, step))
  {
    hide Count32, Twice32, Offset32, Resized;
    match step
    case Push(filler) =>
      LastTwice();
      match s.producer {
        case Locked(_) =>
          CountIs(s.front, s.back, s.size);
          ResizedIs(s.queue, 0, filler);
        case _ =>
      }
    case _ => OffsetBelow(s.front, s.size);
  }

  lemma OffsetBelow(x: uint32, n: uint32)
    requires n > 0
    ensures Offset32(x, 1, n) < n
  {}

  // ---- Runs ----

  lemma {:induction false} RunLost<T>(s: State<T>, steps: seq<Step<T>>)
    requires Lost(s) && IsRun(s, steps)
    ensures Lost(After(s, steps))
    decreases |steps|
  {
    if steps != [] {
      hide Lost, Enabled, Shaped, InRange, ReadOk, Do;
      LostStep(s, steps[0]);
      RunLost(Do(s, steps[0]), steps[1..]);
    }
  }

  /** A run keeps the invariant as long as no step overfills, and is lost from then on. */
  lemma {:induction false} KeptOrLost<T>(s: State<T>, steps: seq<Step<T>>)
    requires Inv(s) && IsRun(s, steps)
    ensures if NeverOverfills(s, steps) then Inv(After(s, steps)) else Lost(After(s, steps))
    decreases |steps|
  {
    if steps != [] {
      hide Lost, Inv, Enabled, Shaped, InRange, ReadOk, Do, Overfills;
      if Overfills(s, steps[0]) {
        OverfullIsLost(s, steps[0]);
        RunLost(Do(s, steps[0]), steps[1..]);
      } else {
        StepInv(s, steps[0]);
        KeptOrLost(Do(s, steps[0]), steps[1..]);
      }
    }
  }

  /** Whenever a push begins the queue holds fewer than so many elements. */
  ghost predicate KeepsBelow<T>(s: State<T>, steps: seq<Step<T>>, most: nat)
    requires IsRun(s, steps)
    decreases |steps|
  {
    steps == [] || ((steps[0].StartPush? ==> |s.ideal| < most) && KeepsBelow(Do(s, steps[0]), steps[1..], most))
  }

  /** The run that makes one step and goes on as another. */
  lemma Cons<T>(s: State<T>, step: Step<T>, more: seq<Step<T>>, most: nat)
    requires InBounds(s) && Enabled(s, step) && IsRun(Do(s, step), more)
    ensures var steps := [step] + more;
      && IsRun(s, steps) && After(s, steps) == After(Do(s, step), more)
      && (NeverOverfills(s, steps) <==> !Overfills(s, step) && NeverOverfills(Do(s, step), more))
      && (KeepsBelow(s, steps, most) <==>
            (step.StartPush? ==> |s.ideal| < most) && KeepsBelow(Do(s, step), more, most))
  {
    hide Shaped, InRange, ReadOk, Do, Enabled, Overfills;
    assert ([step] + more)[1..] == more;
  }

  lemma {:induction false} RunConcat<T>(s: State<T>, x: seq<Step<T>>, y: seq<Step<T>>, most: nat)
    requires IsRun(s, x) && IsRun(After(s, x), y)
    ensures IsRun(s, x + y) && After(s, x + y) == After(After(s, x), y)
    ensures NeverOverfills(s, x + y) <==> NeverOverfills(s, x) && NeverOverfills(After(s, x), y)
    ensures KeepsBelow(s, x + y, most) <==> KeepsBelow(s, x, most) && KeepsBelow(After(s, x), y, most)
    decreases |x|
  {
    if x == [] {
      assert x + y == y;
    } else {
      hide Shaped, InRange, ReadOk, Do, Enabled, Overfills;
      assert (x + y)[0] == x[0] && (x + y)[1..] == x[1..] + y;
      RunConcat(Do(s, x[0]), x[1..], y, most);
    }
  }

  // ---- Operations end ----

  function Phase<T>(p: Producer<T>): nat {
    match p
    case PIdle => 0
    case Advancing(_) => 1
    case Writing(_) => 2
    case SettingSize(_) => 3
    case SettingBack(_, _) => 4
    case SettingFront(_, _) => 5
    case Copying(_, _, _) => 6
    case Locked(_) => 7
    case Waiting(_) => 8
    case Checking(_) => 9
  }

  function ToCopy<T>(p: Producer<T>): nat {
    if p.Copying? && p.i < p.count then p.count - p.i else 0
  }

  function Pending<T>(s: State<T>): seq<T> {
    if s.producer.PIdle? then [] else [s.producer.item]
  }

  lemma PushGoesOn<T>(s: State<T>, filler: T)
    requires InBounds(s) && !s.producer.PIdle?
    ensures var t := PushStep(s, filler);
      && (Phase(t.producer) < Phase(s.producer)
          || (Phase(t.producer) == Phase(s.producer) && ToCopy(t.producer) < ToCopy(s.producer)))
      && t.consumer == s.consumer && t.ideal + Pending(t) == s.ideal + Pending(s) && !t.producer.Checking?
      && t.pushed + Pending(t) == s.pushed + Pending(s)
  {
    hide Slice, Offset32, Count32, Resized;
  }

  /** A push that finds room, or a ring that can be doubled, ends on its own. */
  lemma {:induction false} PushAlone<T>(s: State<T>, filler: T, most: nat) returns (more: seq<Step<T>>)
    requires Inv(s) && s.consumer.CIdle? && !Overfills(s, Push(filler))
    ensures IsRun(s, more) && NeverOverfills(s, more) && KeepsBelow(s, more, most)
    ensures var t := After(s, more);
      Inv(t) && t.producer.PIdle? && t.consumer.CIdle? && t.ideal == s.ideal + Pending(s)
    decreases Phase(s.producer), ToCopy(s.producer)
  {
    hide Inv, InRange, Shaped, ReadOk, Phase, ToCopy, PushStep;
    if s.producer.PIdle? {
      more := [];
      assert s.ideal + [] == s.ideal;
    } else {
      StepInv(s, Push(filler));
      PushGoesOn(s, filler);
      var t := PushStep(s, filler);
      more := PushAlone(t, filler, most);
      Cons(s, Push(filler), more, most);
      more := [Push(filler)] + more;
    }
  }

  function ToConsume<T>(c: Consumer<T>): nat {
    match c
    case CIdle => 0
    case Moving(_) => 1
    case Reading => 2
    case Popping => 3
    case Counting => 1
  }

  lemma ConsumeGoesOn<T>(s: State<T>)
    requires Inv(s) && InBounds(s) && !s.consumer.CIdle?
    ensures var t := ConsumeStep(s);
      && ToConsume(t.consumer) < ToConsume(s.consumer) && t.producer == s.producer
      && |t.ideal| <= |s.ideal|
      && (InPop(s.consumer) && s.ideal != [] ==> InPop(t.consumer) || |t.ideal| < |s.ideal|)
  {
    hide Slice, Offset32, Count32, IsSize, Copied;
    if s.consumer.Popping? {
      Steady(s);
      SliceSize(s.queue, s.front, s.back, s.size);
    }
  }

  /** What the consumer has begun ends on its own; a pop takes an element if there is one. */
  lemma {:induction false} ConsumeAlone<T>(s: State<T>, most: nat) returns (more: seq<Step<T>>)
    requires Inv(s)
    ensures IsRun(s, more) && NeverOverfills(s, more) && KeepsBelow(s, more, most)
    ensures var t := After(s, more);
      && Inv(t) && t.consumer.CIdle? && t.producer == s.producer && |t.ideal| <= |s.ideal|
      && (InPop(s.consumer) && s.ideal != [] ==> |t.ideal| < |s.ideal|)
    decreases ToConsume(s.consumer)
  {
    hide Inv, InRange, Shaped, ReadOk, ConsumeStep, ToConsume;
    if s.consumer.CIdle? {
      more := [];
    } else {
      StepInv(s, Consume);
      ConsumeGoesOn(s);
      more := ConsumeAlone(ConsumeStep(s), most);
      Cons(s, Consume, more, most);
      more := [Consume] + more;
    }
  }

  /** Someone pops, if that is what the push needs. */
  lemma MakeRoom<T>(s: State<T>, filler: T) returns (more: seq<Step<T>>)
    requires Inv(s) && s.consumer.CIdle?
    ensures IsRun(s, more) && NeverOverfills(s, more)
    ensures var t := After(s, more);
      Inv(t) && t.consumer.CIdle? && t.producer == s.producer && !Overfills(t, Push(filler))
  {
    hide Inv, InRange, Shaped, ReadOk, IsRun, After, NeverOverfills, KeepsBelow;
    if Overfills(s, Push(filler)) {
      StepInv(s, StartPop);
      more := ConsumeAlone(s.(consumer := Popping), 0);
      Cons(s, StartPop, more, 0);
      more := [StartPop] + more;
    } else {
      more := [];
      Nothing(s);
    }
  }

  lemma Nothing<T>(s: State<T>)
    ensures IsRun(s, []) && NeverOverfills(s, []) && After(s, []) == s
  {}

  /** From every state of the invariant both threads can bring their operations to an end. */
  lemma Finish<T>(s: State<T>, filler: T) returns (more: seq<Step<T>>)
    requires Inv(s)
    ensures IsRun(s, more) && NeverOverfills(s, more)
    ensures After(s, more).producer.PIdle? && After(s, more).consumer.CIdle?
  {
    hide Inv, IsRun, After, NeverOverfills, KeepsBelow, Overfills;
    var a := ConsumeAlone(s, 0);
    var t := After(s, a);
    var b := MakeRoom(t, filler);
    RunConcat(s, a, b, 0);
    var c := PushAlone(After(t, b), filler, 0);
    RunConcat(s, a + b, c, 0);
    more := a + b + c;
  }

  // ---- Exactly the runs that overfill are lost ----

  /** Some way to go on brings the push to its end. */
  ghost predicate CanEnd<T(!new)>(s: State<T>) {
    exists more {:trigger IsRun(s, more)} :: IsRun(s, more) && After(s, more).producer.PIdle?
  }

  /** The two threads need only go on with what they have begun to access the queue out of bounds. */
  ghost predicate GoesOut<T(!new)>(s: State<T>) {
    exists more {:trigger IsRun(s, more)} ::
      IsRun(s, more) && !InBounds(After(s, more)) && StartsNothing(more)
  }

  predicate StartsNothing<T>(steps: seq<Step<T>>) {
    forall i {:trigger steps[i]} :: 0 <= i < |steps| ==> steps[i].Push? || steps[i].Consume?
  }

  lemma {:induction false} LostGoesOut<T>(s: State<T>, filler: T) returns (more: seq<Step<T>>)
    requires Lost(s)
    ensures IsRun(s, more) && !InBounds(After(s, more))
    ensures StartsNothing(more)
    decreases Phase(s.producer), ToConsume(s.consumer)
  {
    hide Lost, InRange, Shaped, ReadOk, Do;
    if !InBounds(s) {
      more := [];
    } else {
      LostMoves(s, filler);
      var step := if s.consumer.CIdle? then Push(filler) else Consume;
      LostStep(s, step);
      more := LostGoesOut(Do(s, step), filler);
      Cons(s, step, more, 0);
      more := [step] + more;
    }
  }

  lemma LostMoves<T>(s: State<T>, filler: T)
    requires Lost(s) && InBounds(s)
    ensures if s.consumer.CIdle? then
              Enabled(s, Push(filler)) && Phase(Do(s, Push(filler)).producer) < Phase(s.producer)
            else
              && Enabled(s, Consume) && Do(s, Consume).producer == s.producer
              && ToConsume(Do(s, Consume).consumer) < ToConsume(s.consumer)
  {
    hide Count32, Twice32, Offset32, Resized;
  }

  /** After any run the push under way can come to an end if and only if no push has found the ring full at its last
      size; otherwise the threads going on access the queue out of bounds. */
  lemma EndsIffNeverOverfilled<T(!new)>(zero: T, steps: seq<Step<T>>)
    requires IsRun(Init(zero), steps)
    ensures CanEnd(After(Init(zero), steps)) <==> NeverOverfills(Init(zero), steps)
    ensures !NeverOverfills(Init(zero), steps) ==> GoesOut(After(Init(zero), steps))
  {
    hide IsRun, After, NeverOverfills, Inv, InBounds;
    InitInv(zero);
    KeptOrLost(Init(zero), steps);
    var s := After(Init(zero), steps);
    if NeverOverfills(Init(zero), steps) {
      var more := Finish(s, zero);
      assert IsRun(s, more);
    } else {
      forall more {:trigger IsRun(s, more)} | IsRun(s, more) ensures !After(s, more).producer.PIdle? {
        RunLost(s, more);
      }
      var more := LostGoesOut(s, zero);
      assert IsRun(s, more);
    }
  }

  // ---- How many elements are safe ----

  /** Every run whose pushes begin with fewer than so many elements in the queue stays in bounds. */
  ghost predicate SafeBelow<T(!new)>(zero: T, most: nat) {
    forall steps {:trigger KeepsBelow(Init(zero), steps, most)} ::
      IsRun(Init(zero), steps) && KeepsBelow(Init(zero), steps, most) ==> InBounds(After(Init(zero), steps))
  }

  lemma {:induction false} BelowNeverOverfills<T>(s: State<T>, steps: seq<Step<T>>, most: nat)
    requires Inv(s) && IsRun(s, steps) && KeepsBelow(s, steps, most) && most < LAST_SIZE
    requires s.producer.Checking? ==> |s.ideal| < most
    ensures NeverOverfills(s, steps)
    decreases |steps|
  {
    if steps != [] {
      hide Inv, InRange, Shaped, ReadOk, Slice;
      StepInv(s, steps[0]);
      StaysBelow(s, steps[0], most);
      BelowNeverOverfills(Do(s, steps[0]), steps[1..], most);
    }
  }

  lemma StaysBelow<T>(s: State<T>, step: Step<T>, most: nat)
    requires InBounds(s) && Enabled(s, step) && (step.StartPush? ==> |s.ideal| < most)
    requires s.producer.Checking? ==> |s.ideal| < most
    ensures Do(s, step).producer.Checking? ==> |Do(s, step).ideal| < most
  {
    hide Count32, Twice32, Offset32, Resized;
  }

  /** A run that only pushes until the queue holds k elements. */
  lemma {:induction false} FillUp<T>(zero: T, k: nat, most: nat) returns (steps: seq<Step<T>>)
    requires k < LAST_SIZE && k <= most
    ensures IsRun(Init(zero), steps) && KeepsBelow(Init(zero), steps, most)
    ensures var s := After(Init(zero), steps);
      Inv(s) && s.producer.PIdle? && s.consumer.CIdle? && |s.ideal| == k
  {
    hide Inv, InRange, Shaped, ReadOk, IsRun, After, NeverOverfills, KeepsBelow;
    if k == 0 {
      steps := [];
      NoSteps(zero, most);
    } else {
      var x := FillUp(zero, k - 1, most);
      var s := After(Init(zero), x);
      StepInv(s, StartPush(zero));
      var t := s.(producer := Checking(zero));
      var y := PushAlone(t, zero, most);
      Cons(s, StartPush(zero), y, most);
      RunConcat(Init(zero), x, [StartPush(zero)] + y, most);
      steps := x + ([StartPush(zero)] + y);
    }
  }

  lemma NoSteps<T>(zero: T, most: nat)
    ensures IsRun(Init(zero), []) && After(Init(zero), []) == Init(zero) && KeepsBelow(Init(zero), [], most)
    ensures Inv(Init(zero))
  {
    hide Inv;
    InitInv(zero);
  }

  /** 2^31 - 1 pushes and one more: the last one goes out of bounds. */
  lemma OneTooMany<T>(zero: T, most: nat) returns (steps: seq<Step<T>>)
    requires most >= LAST_SIZE
    ensures IsRun(Init(zero), steps) && KeepsBelow(Init(zero), steps, most) && !InBounds(After(Init(zero), steps))
  {
    hide Inv, InRange, Shaped, ReadOk, IsRun, After, NeverOverfills, KeepsBelow, Lost;
    var x := FillUp(zero, LAST_SIZE - 1, most);
    var s := After(Init(zero), x);
    StepInv(s, StartPush(zero));
    var t := s.(producer := Checking(zero));
    OverfullIsLost(t, Push(zero));
    var u := Do(t, Push(zero));
    var y := LostGoesOut(u, zero);
    GoesOnKeeps(u, y, most);
    Cons(t, Push(zero), y, most);
    Cons(s, StartPush(zero), [Push(zero)] + y, most);
    RunConcat(Init(zero), x, [StartPush(zero)] + ([Push(zero)] + y), most);
    steps := x + ([StartPush(zero)] + ([Push(zero)] + y));
  }

  lemma {:induction false} GoesOnKeeps<T>(s: State<T>, steps: seq<Step<T>>, most: nat)
    requires IsRun(s, steps) && StartsNothing(steps)
    ensures KeepsBelow(s, steps, most)
    decreases |steps|
  {
    if steps != [] {
      hide Shaped, InRange, ReadOk, Do, Enabled;
      GoesOnKeeps(Do(s, steps[0]), steps[1..], most);
    }
  }

  /** It is safe for a caller to push whenever the queue holds fewer than `most` elements if and only if most is below
      2^31. */
  lemma SafeIffBelowLast<T(!new)>(zero: T, most: nat)
    ensures SafeBelow(zero, most) <==> most < LAST_SIZE
  {
    hide IsRun, After, NeverOverfills, Inv, InRange, Shaped, ReadOk, KeepsBelow;
    if most < LAST_SIZE {
      forall steps {:trigger KeepsBelow(Init(zero), steps, most)} |
        IsRun(Init(zero), steps) && KeepsBelow(Init(zero), steps, most)
        ensures InBounds(After(Init(zero), steps))
      {
        InitInv(zero);
        BelowNeverOverfills(Init(zero), steps, most);
        RunInv(Init(zero), steps);
        hide InBounds, Init;
        InvBounds(After(Init(zero), steps));
      }
    } else {
      var steps := OneTooMany(zero, most);
      assert KeepsBelow(Init(zero), steps, most);
    }
  }

  lemma InvBounds<T>(s: State<T>)
    requires Inv(s)
    ensures InBounds(s)
  {
    InvShaped(s);
  }
}
