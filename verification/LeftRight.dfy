/**
 The Left-Right primitive: two copies of the data, two reader counters, one
 writer at a time and any number of readers that never wait.  Every access to
 an atomic variable is one step; `readFunc` and `writeFunc` are not atomic:
 the first spans many steps during which it may look at its instance, the
 second may put arbitrary intermediate values into its instance before it
 either finishes or throws.
 */
module LeftRight {
  import opened Runs

  /** `i ^ 1` of the source is `Other(i)`. */
  type Index = i: int | 0 <= i < 2

  function Other(i: Index): Index {
    1 - i
  }

  datatype Pair<T> = Pair(first: T, second: T) {
    function At(i: Index): T {
      if i == 0 then first else second
    }

    function With(i: Index, v: T): Pair<T> {
      if i == 0 then Pair(v, second) else Pair(first, v)
    }
  }

  /** Program counter of a thread inside `read`; a thread outside `read` has none. */
  datatype Reader =
    | Loaded(c: Index)                          // counter index loaded, counter not yet incremented
    | Arrived(c: Index)                         // counter incremented
    | Checked(c: Index)                         // destruction flag seen unset
    | Reading(c: Index, d: Index, seen: nat)    // inside readFunc on instance d; `seen` writes had taken effect
    | Leaving(c: Index)                         // readFunc done or exception thrown, counter not yet decremented
  {
    predicate Holds(i: Index) {
      !Loaded? && c == i
    }

    predicate PassedCheck() {
      Checked? || Reading?
    }
  }

  datatype Outcome = Returned | ThrewFirst | ThrewSecond | Refused

  /** Program counter of the thread that owns the write mutex. */
  datatype Writer<!T> =
    | Free
    | Locked(f: T -> T)                         // flag not yet checked
    | Writing1(f: T -> T, d: Index, was: T)     // writeFunc runs on instance d ^ 1
    | Recover1(d: Index)                        // first call threw
    | Switch2(f: T -> T, d: Index)              // step 2 is next
    | Load3(f: T -> T, d: Index)                // counter index not yet loaded
    | Wait3(f: T -> T, d: Index, c: Index)
    | Switch4(f: T -> T, d: Index, c: Index)
    | Wait5(f: T -> T, d: Index, c: Index)
    | Writing6(f: T -> T, d: Index, was: T)     // writeFunc runs on instance d ^ 1
    | Recover6(d: Index)                        // second call threw
    | Done(o: Outcome)                          // mutex about to be released

  datatype Destructor = NotStarted | FlagSet | WritersGone | FirstSeenZero | Finished

  /** `history` is not in the source: it lists the writes that have taken effect. */
  datatype State<!T> = State(
    fgCounter: Index,
    fgData: Index,
    counters: Pair<int>,
    data: Pair<T>,
    inDestruction: bool,
    readers: map<int, Reader>,
    writer: Writer<T>,
    destructor: Destructor,
    history: seq<T -> T>)

  datatype Step<!T> =
    | RLoad(r: int)
    | RIncrement(r: int)
    | RCheck(r: int)
    | RStart(r: int)
    | RObserve(r: int, v: T)                    // readFunc looks at its instance and finds v
    | RFinish(r: int)
    | RDecrement(r: int)
    | WLock(f: T -> T)
    | WCheck
    | WScribble(x: T)                           // writeFunc leaves an intermediate value
    | WFinish
    | WThrow
    | WRecover
    | WSwitchData
    | WLoadCounter
    | WPoll                                     // one iteration of a spin loop
    | WSwitchCounter
    | WUnlock
    | DSetFlag
    | DPassMutex
    | DPoll

  function Init<T>(x0: T): State<T> {
    State(0, 0, Pair(0, 0), Pair(x0, x0), false, map[], Free, NotStarted, [])
  }

  /** A ghost predicate because looking at an instance compares values of an arbitrary type. */
  ghost predicate Enabled<T>(s: State<T>, e: Step<T>) {
    match e
    case RLoad(r) => r !in s.readers
    case RIncrement(r) => r in s.readers && s.readers[r].Loaded?
    case RCheck(r) => r in s.readers && s.readers[r].Arrived?
    case RStart(r) => r in s.readers && s.readers[r].Checked?
    case RObserve(r, v) => r in s.readers && s.readers[r].Reading? && v == s.data.At(s.readers[r].d)
    case RFinish(r) => r in s.readers && s.readers[r].Reading?
    case RDecrement(r) => r in s.readers && s.readers[r].Leaving?
    case WLock(_) => s.writer.Free?
    case WCheck => s.writer.Locked?
    case WScribble(_) => s.writer.Writing1? || s.writer.Writing6?
    case WFinish => s.writer.Writing1? || s.writer.Writing6?
    case WThrow => s.writer.Writing1? || s.writer.Writing6?
    case WRecover => s.writer.Recover1? || s.writer.Recover6?
    case WSwitchData => s.writer.Switch2?
    case WLoadCounter => s.writer.Load3?
    case WPoll => s.writer.Wait3? || s.writer.Wait5?
    case WSwitchCounter => s.writer.Switch4?
    case WUnlock => s.writer.Done?
    case DSetFlag => s.destructor.NotStarted?
    case DPassMutex => s.destructor.FlagSet? && s.writer.Free?
    case DPoll => s.destructor.WritersGone? || s.destructor.FirstSeenZero?
  }

  predicate IsReaderStep<T>(e: Step<T>) {
    e.RLoad? || e.RIncrement? || e.RCheck? || e.RStart? || e.RObserve? || e.RFinish? || e.RDecrement?
  }

  function SetReader<T>(s: State<T>, r: int, pc: Reader): State<T> {
    s.(readers := s.readers[r := pc])
  }

  function ReaderStep<T>(s: State<T>, e: Step<T>): State<T>
    requires IsReaderStep(e) && (e.RLoad? || e.r in s.readers)
  {
    match e
    case RLoad(r) => SetReader(s, r, Loaded(s.fgCounter))
    case RIncrement(r) =>
      var c := s.readers[r].c;
      SetReader(s, r, Arrived(c)).(counters := s.counters.With(c, s.counters.At(c) + 1))
    case RCheck(r) =>
      var c := s.readers[r].c;
      SetReader(s, r, if s.inDestruction then Leaving(c) else Checked(c))
    case RStart(r) => SetReader(s, r, Reading(s.readers[r].c, s.fgData, |s.history|))
    case RObserve(_, _) => s
    case RFinish(r) => SetReader(s, r, Leaving(s.readers[r].c))
    case RDecrement(r) =>
      var c := s.readers[r].c;
      s.(readers := s.readers - {r}, counters := s.counters.With(c, s.counters.At(c) - 1))
  }

  function WriterStep<T>(s: State<T>, e: Step<T>): State<T> {
    match (e, s.writer)
    case (WLock(f), Free) => s.(writer := Locked(f))
    case (WCheck, Locked(f)) =>
      s.(writer := if s.inDestruction then Done(Refused) else Writing1(f, s.fgData, s.data.At(Other(s.fgData))))
    case (WScribble(x), Writing1(_, d, _)) => s.(data := s.data.With(Other(d), x))
    case (WScribble(x), Writing6(_, d, _)) => s.(data := s.data.With(Other(d), x))
    case (WFinish, Writing1(f, d, was)) => s.(data := s.data.With(Other(d), f(was)), writer := Switch2(f, d))
    case (WFinish, Writing6(f, d, was)) => s.(data := s.data.With(Other(d), f(was)), writer := Done(Returned))
    case (WThrow, Writing1(_, d, _)) => s.(writer := Recover1(d))
    case (WThrow, Writing6(_, d, _)) => s.(writer := Recover6(d))
    case (WRecover, Recover1(d)) => s.(data := s.data.With(Other(d), s.data.At(d)), writer := Done(ThrewFirst))
    case (WRecover, Recover6(d)) => s.(data := s.data.With(Other(d), s.data.At(d)), writer := Done(ThrewSecond))
    case (WSwitchData, Switch2(f, d)) =>
      s.(fgData := Other(d), writer := Load3(f, Other(d)), history := s.history + [f])
    case (WLoadCounter, Load3(f, d)) => s.(writer := Wait3(f, d, s.fgCounter))
    case (WPoll, Wait3(f, d, c)) => if s.counters.At(Other(c)) != 0 then s else s.(writer := Switch4(f, d, c))
    case (WSwitchCounter, Switch4(f, d, c)) => s.(fgCounter := Other(c), writer := Wait5(f, d, Other(c)))
    case (WPoll, Wait5(f, d, c)) =>
      if s.counters.At(Other(c)) != 0 then s else s.(writer := Writing6(f, d, s.data.At(Other(d))))
    case (WUnlock, Done(_)) => s.(writer := Free)
    case _ => s
  }

  function DestructorStep<T>(s: State<T>, e: Step<T>): State<T> {
    match (e, s.destructor)
    case (DSetFlag, NotStarted) => s.(inDestruction := true, destructor := FlagSet)
    case (DPassMutex, FlagSet) => s.(destructor := WritersGone)
    case (DPoll, WritersGone) => if s.counters.At(0) != 0 then s else s.(destructor := FirstSeenZero)
    case (DPoll, FirstSeenZero) => s.(destructor := if s.counters.At(1) != 0 then WritersGone else Finished)
    case _ => s
  }

  function Apply<T>(s: State<T>, e: Step<T>): State<T> {
    if IsReaderStep(e) then
      if e.RLoad? || e.r in s.readers then ReaderStep(s, e) else s
    else if e.DSetFlag? || e.DPassMutex? || e.DPoll? then DestructorStep(s, e)
    else WriterStep(s, e)
  }

  ghost function M<T(!new)>(x0: T): Machine<State<T>, Step<T>> {
    Machine(Init(x0), (s, e) => Enabled(s, e), (s, e) => Apply(s, e))
  }
}
