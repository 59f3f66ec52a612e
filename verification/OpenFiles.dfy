/**
 The table of open files: `load` runs a callback on a file without holding the
 mutex, and `close` waits until no callback runs on its file.  Every section
 under the mutex is one step.
 */
module OpenFiles {
  import opened Bytes
  import opened Runs

  const INT_MAX := 0x7fff_ffff

  /** The fields of the list: files by descriptor, last descriptor given out, running callbacks per descriptor. */
  datatype Table = Table(files: map<int, nat>, counter: int, refcounts: map<int, nat>)

  // ---------- the sections under the mutex ----------

  function Opened(t: Table, file: nat): Table {
    var d := t.counter + 1;
    Table(
      if d in t.files then t.files else t.files[d := file],
      d,
      if d in t.refcounts then t.refcounts else t.refcounts[d := 0])
  }

  /** The first section of `load`; `None` is the EBADF exception. */
  function Entered(t: Table, d: int): (Table, Option<nat>) {
    if d !in t.refcounts then (t, None)
    else if d !in t.files then (t, None)     // counted and uncounted again
    else (t.(refcounts := t.refcounts[d := t.refcounts[d] + 1]), Some(t.files[d]))
  }

  datatype CloseOutcome = Closed | MustWait | NoSuchFile

  /** `close` each time it evaluates its wait condition. */
  function CloseTried(t: Table, d: int): (Table, CloseOutcome) {
    if d !in t.refcounts then (t, NoSuchFile)
    else if t.refcounts[d] != 0 then (t, MustWait)
    else if d !in t.files then (t, NoSuchFile)
    else (t.(files := t.files - {d}, refcounts := t.refcounts - {d}), Closed)
  }

  // ---------- the object ----------

  class FuseOpenFileList {
    var files: map<int, nat>
    var counter: int
    var refcounts: map<int, nat>

    ghost function Fields(): Table
      reads this
    {
      Table(files, counter, refcounts)
    }

    constructor ()
      ensures Fields() == Table(map[], 0, map[])
    {
      files, counter, refcounts := map[], 0, map[];
    }

    /** Beyond the largest `int` the increment is undefined. */
    method Open(file: nat) returns (d: int)
      requires counter < INT_MAX
      modifies this
      ensures Fields() == Opened(old(Fields()), file) && d == old(counter) + 1
    {
      counter := counter + 1;
      d := counter;
      if d !in files {
        files := files[d := file];
      }
      if d !in refcounts {
        refcounts := refcounts[d := 0];
      }
    }

    method BeginLoad(d: int) returns (r: Option<nat>)
      modifies this
      ensures (Fields(), r) == Entered(old(Fields()), d)
      ensures files == old(files) && counter == old(counter)
      ensures r == if d in refcounts && d in files then Some(files[d]) else None
      ensures refcounts == if r.Some? then old(refcounts)[d := old(refcounts)[d] + 1] else old(refcounts)
    {
      if d !in refcounts { return None; }
      refcounts := refcounts[d := refcounts[d] + 1];
      if d !in files {
        refcounts := refcounts[d := refcounts[d] - 1];
        assert refcounts == old(refcounts);
        return None;
      }
      return Some(files[d]);
    }

    method EndLoad(d: int)
      requires d in refcounts && refcounts[d] > 0
      modifies this
      ensures Fields() == old(Fields()).(refcounts := old(refcounts)[d := old(refcounts)[d] - 1])
    {
      refcounts := refcounts[d := refcounts[d] - 1];
    }

    method TryClose(d: int) returns (r: CloseOutcome)
      modifies this
      ensures (Fields(), r) == CloseTried(old(Fields()), d)
    {
      if d !in refcounts { return NoSuchFile; }
      if refcounts[d] != 0 { return MustWait; }
      if d !in files { return NoSuchFile; }
      files := files - {d};
      refcounts := refcounts - {d};
      return Closed;
    }
  }

  // ---------- the machine ----------

  datatype Thread = InCallback(d: int, file: nat) | Closing(d: int)

  datatype State = State(t: Table, threads: map<nat, Thread>, terminated: bool)

  datatype Event =
    | Open(file: nat)
    | Enter(th: nat, d: int)
    | Leave(th: nat)
    | Close(th: nat, d: int)
    | Wake(th: nat)

  predicate Enabled(s: State, e: Event) {
    && !s.terminated
    && match e
       case Open(_) => s.t.counter < INT_MAX
       case Enter(th, _) => th !in s.threads
       case Leave(th) => th in s.threads && s.threads[th].InCallback?
       case Close(th, _) => th !in s.threads
       case Wake(th) => th in s.threads && s.threads[th].Closing?
  }

  function AfterClose(s: State, th: nat, d: int): State {
    var (t, outcome) := CloseTried(s.t, d);
    s.(t := t, threads := if outcome == MustWait then s.threads[th := Closing(d)] else s.threads - {th})
  }

  function Apply(s: State, e: Event): State {
    match e
    case Open(file) => s.(t := Opened(s.t, file))
    case Enter(th, d) =>
      var (t, file) := Entered(s.t, d);
      s.(t := t, threads := if file.Some? then s.threads[th := InCallback(d, file.value)] else s.threads)
    case Leave(th) =>
      if th !in s.threads then s
      else
        var d := s.threads[th].d;
        // a missing or zero count is an exception, or a wrap-around, inside a destructor
        if d !in s.t.refcounts || s.t.refcounts[d] == 0 then s.(terminated := true)
        else s.(t := s.t.(refcounts := s.t.refcounts[d := s.t.refcounts[d] - 1]), threads := s.threads - {th})
    case Close(th, d) => AfterClose(s, th, d)
    case Wake(th) => if th in s.threads then AfterClose(s, th, s.threads[th].d) else s
  }

  function M(): Machine<State, Event> {
    Machine(State(Table(map[], 0, map[]), map[], false), (s, e) => Enabled(s, e), (s, e) => Apply(s, e))
  }

  // ---------- the invariant ----------

  function Running(threads: map<nat, Thread>, d: int): set<nat> {
    set th | th in threads && threads[th].InCallback? && threads[th].d == d
  }

  /** A running callback's file is still the one in the table. */
  predicate FilesAlive(s: State) {
    forall th | th in s.threads && s.threads[th].InCallback? ::
      s.threads[th].d in s.t.files && s.t.files[s.threads[th].d] == s.threads[th].file
  }

  predicate CountsExact(s: State) {
    forall d | d in s.t.refcounts :: s.t.refcounts[d] == |Running(s.threads, d)|
  }

  predicate Inv(s: State) {
    && s.t.files.Keys == s.t.refcounts.Keys
    && (forall d | d in s.t.files :: 1 <= d <= s.t.counter)
    && 0 <= s.t.counter <= INT_MAX
    && FilesAlive(s) && CountsExact(s) && !s.terminated
  }

  lemma {:induction false} RunningSet(threads: map<nat, Thread>, th: nat, pc: Thread, d: int)
    requires th !in threads || threads[th].Closing?
    ensures |Running(threads[th := pc], d)| == |Running(threads, d)| + if pc.InCallback? && pc.d == d then 1 else 0
  {
    assert Running(threads[th := pc], d) == if pc.InCallback? && pc.d == d then Running(threads, d) + {th} else Running(threads, d);
  }

  lemma {:induction false} RunningDropped(threads: map<nat, Thread>, th: nat, d: int)
    requires th in threads
    ensures |Running(threads - {th}, d)| == |Running(threads, d)| - if threads[th].InCallback? && threads[th].d == d then 1 else 0
  {
    assert Running(threads - {th}, d) == Running(threads, d) - {th};
  }

  lemma {:induction false} EnterKept(s: State, th: nat, d: int)
    requires Inv(s) && Enabled(s, Enter(th, d))
    ensures Inv(Apply(s, Enter(th, d)))
  {
    if d in s.t.files {
      var s' := Apply(s, Enter(th, d));
      forall x | x in s'.t.refcounts ensures s'.t.refcounts[x] == |Running(s'.threads, x)| {
        RunningSet(s.threads, th, InCallback(d, s.t.files[d]), x);
      }
    }
  }

  /** A thread in a callback is counted, so leaving never fails. */
  lemma {:induction false} LeaveKept(s: State, th: nat)
    requires Inv(s) && Enabled(s, Leave(th))
    ensures Inv(Apply(s, Leave(th)))
  {
    var s' := Apply(s, Leave(th));
    assert th in Running(s.threads, s.threads[th].d);
    forall x | x in s'.t.refcounts ensures s'.t.refcounts[x] == |Running(s'.threads, x)| {
      RunningDropped(s.threads, th, x);
    }
  }

  /** A file is only removed when no callback runs on it. */
  lemma {:induction false} CloseKept(s: State, th: nat, d: int)
    requires Inv(s) && (th in s.threads ==> s.threads[th].Closing?)
    ensures Inv(AfterClose(s, th, d))
    ensures CloseTried(s.t, d).1 == Closed ==> Running(s.threads, d) == {}
  {
    var s' := AfterClose(s, th, d);
    forall x | x in s'.t.refcounts ensures s'.t.refcounts[x] == |Running(s'.threads, x)| {
      RunningSet(s.threads, th, Closing(d), x);
      if th in s.threads {
        RunningDropped(s.threads, th, x);
      } else {
        assert s.threads - {th} == s.threads;
      }
    }
    if CloseTried(s.t, d).1 == Closed {
      assert Running(s.threads, d) == {};
      forall x | x in s'.threads && s'.threads[x].InCallback? ensures s'.threads[x].d != d {
        assert x !in Running(s.threads, d);
      }
    }
  }

  lemma {:induction false} OpenKept(s: State, file: nat)
    requires Inv(s) && Enabled(s, Open(file))
    ensures Inv(Apply(s, Open(file)))
  {
  }

  /** Entering runs the callback on the file of the descriptor exactly if it is open; else nothing happens. */
  lemma {:induction false} EnterIff(s: State, th: nat, d: int)
    requires Inv(s) && Enabled(s, Enter(th, d))
    ensures var s' := Apply(s, Enter(th, d));
      && s'.t.files == s.t.files && s'.t.counter == s.t.counter
      && if d in s.t.files then s'.threads == s.threads[th := InCallback(d, s.t.files[d])] else s' == s
  {
  }

  /** Leaving ends the callback and touches no file. */
  lemma {:induction false} LeaveEnds(s: State, th: nat)
    requires Inv(s) && Enabled(s, Leave(th))
    ensures var s' := Apply(s, Leave(th)); s'.t.files == s.t.files && s'.threads == s.threads - {th}
  {
    assert th in Running(s.threads, s.threads[th].d);
  }

  /** Closing, at once or after waking up, closes the descriptor, waits or throws exactly as its callbacks say. */
  lemma {:induction false} CloseIff(s: State, e: Event, th: nat, d: int)
    requires Inv(s) && Enabled(s, e) && (e == Close(th, d) || (e == Wake(th) && s.threads[th].d == d))
    ensures var s' := Apply(s, e);
      if d !in s.t.files then s'.t == s.t && s'.threads == s.threads - {th}
      else if Running(s.threads, d) != {} then s'.t == s.t && s'.threads == s.threads[th := Closing(d)]
      else s'.t == s.t.(files := s.t.files - {d}, refcounts := s.t.refcounts - {d}) && s'.threads == s.threads - {th}
  {
    if d in s.t.files && Running(s.threads, d) != {} {
      assert |Running(s.threads, d)| != 0;
    }
  }

  lemma {:induction false} InvKept(s: State, e: Event)
    requires Inv(s) && Enabled(s, e)
    ensures Inv(Apply(s, e))
  {
    match e
    case Open(file) => OpenKept(s, file);
    case Enter(th, d) => EnterKept(s, th, d);
    case Leave(th) => LeaveKept(s, th);
    case Close(th, d) => CloseKept(s, th, d);
    case Wake(th) => CloseKept(s, th, s.threads[th].d);
  }

  // ---------- main results, over every run ----------

  lemma {:induction false} Reachable(ss: seq<State>, es: seq<Event>, n: nat)
    requires IsRun(M(), ss, es) && n < |ss|
    ensures Inv(ss[n])
  {
    forall s, e | Inv(s) && Enabled(s, e) ensures Inv(Apply(s, e)) {
      InvKept(s, e);
    }
    Kept(M(), ss, es, s => Inv(s), e => true, 0, n);
  }

  /**
   No use after close: in every interleaving a running callback's file is in
   the table under its descriptor, both tables have the same descriptors, and
   each count is the number of callbacks running on that descriptor.
   */
  lemma {:induction false} NoUseAfterClose(ss: seq<State>, es: seq<Event>, n: nat)
    requires IsRun(M(), ss, es) && n < |ss|
    ensures FilesAlive(ss[n]) && CountsExact(ss[n]) && ss[n].t.files.Keys == ss[n].t.refcounts.Keys && !ss[n].terminated
    ensures (forall d | d in ss[n].t.refcounts :: ss[n].t.refcounts[d] == 0) <==>
      (forall th | th in ss[n].threads :: !ss[n].threads[th].InCallback?)
  {
    var s := ss[n];
    Reachable(ss, es, n);
    if forall d | d in s.t.refcounts :: s.t.refcounts[d] == 0 {
      forall th | th in s.threads ensures !s.threads[th].InCallback? {
        assert s.threads[th].InCallback? ==> th in Running(s.threads, s.threads[th].d);
      }
    } else {
      var d :| d in s.t.refcounts && s.t.refcounts[d] != 0;
      assert Running(s.threads, d) != {};
      var th :| th in Running(s.threads, d);
    }
  }

  /** From entering to leaving, the callback of a thread keeps its file, whoever tries to close it. */
  lemma {:induction false} CallbackKeepsFile(ss: seq<State>, es: seq<Event>, i: nat, j: nat, th: nat)
    requires IsRun(M(), ss, es) && i <= j < |ss|
    requires th in ss[i].threads && ss[i].threads[th].InCallback?
    requires forall m | i <= m < j :: es[m] != Leave(th)
    ensures th in ss[j].threads && ss[j].threads[th] == ss[i].threads[th]
    ensures var pc := ss[i].threads[th]; pc.d in ss[j].t.files && ss[j].t.files[pc.d] == pc.file
  {
    var pc := ss[i].threads[th];
    Kept(M(), ss, es, (s: State) => th in s.threads && s.threads[th] == pc, (e: Event) => e != Leave(th), i, j);
    Reachable(ss, es, j);
  }

  /** A descriptor is never given out twice, not even after its file was closed. */
  lemma {:induction false} DescriptorsUnique(ss: seq<State>, es: seq<Event>, i: nat, j: nat)
    requires IsRun(M(), ss, es) && i < j < |es| && es[i].Open? && es[j].Open?
    ensures ss[i + 1].t.counter < ss[j + 1].t.counter
    ensures ss[i + 1].t.counter in ss[i + 1].t.files && ss[i + 1].t.files[ss[i + 1].t.counter] == es[i].file
  {
    assert StepAt(M(), ss, es, i);
    assert StepAt(M(), ss, es, j);
    Reachable(ss, es, i);
    var n := ss[i + 1].t.counter;
    Kept(M(), ss, es, (s: State) => s.t.counter >= n, (e: Event) => true, i + 1, j);
  }

  /** The event closes descriptor `d` for good. */
  predicate Closes(s: State, e: Event, d: int) {
    && CloseTried(s.t, d).1 == Closed
    && (match e
        case Close(_, d') => d' == d
        case Wake(th) => th in s.threads && s.threads[th].d == d
        case _ => false)
  }

  lemma {:induction false} FileStays(s: State, e: Event, d: int)
    requires Inv(s) && Enabled(s, e) && d in s.t.files && !Closes(s, e, d)
    ensures d in Apply(s, e).t.files && Apply(s, e).t.files[d] == s.t.files[d]
  {
  }

  /** From its opening until it is closed, a descriptor stands for the file it was opened for. */
  lemma {:induction false} OpenUntilClosed(ss: seq<State>, es: seq<Event>, i: nat, n: nat, file: nat)
    requires IsRun(M(), ss, es) && i < n < |ss| && es[i] == Open(file)
    requires forall m | i < m < n :: !Closes(ss[m], es[m], ss[i].t.counter + 1)
    ensures var d := ss[i].t.counter + 1; d in ss[n].t.files && ss[n].t.files[d] == file
    decreases n
  {
    assert StepAt(M(), ss, es, n - 1);
    Reachable(ss, es, n - 1);
    if i < n - 1 {
      OpenUntilClosed(ss, es, i, n - 1, file);
      FileStays(ss[n - 1], es[n - 1], ss[i].t.counter + 1);
    }
  }

  /** Every callback on a descriptor that was opened and not closed since runs, and gets the file it was opened for. */
  lemma {:induction false} LoadGivesOpenedFile(ss: seq<State>, es: seq<Event>, i: nat, n: nat, file: nat, th: nat)
    requires IsRun(M(), ss, es) && i < n < |es| && es[i] == Open(file) && es[n] == Enter(th, ss[i].t.counter + 1)
    requires forall m | i < m < n :: !Closes(ss[m], es[m], ss[i].t.counter + 1)
    ensures th in ss[n + 1].threads && ss[n + 1].threads[th] == InCallback(ss[i].t.counter + 1, file)
  {
    OpenUntilClosed(ss, es, i, n, file);
    Reachable(ss, es, n);
    assert StepAt(M(), ss, es, n);
    EnterIff(ss[n], th, ss[i].t.counter + 1);
  }

  /** After it was closed, a descriptor is never open again, and no callback on it starts. */
  lemma {:induction false} ClosedForGood(ss: seq<State>, es: seq<Event>, i: nat, n: nat, d: int)
    requires IsRun(M(), ss, es) && i < n < |ss| && Closes(ss[i], es[i], d)
    ensures d !in ss[n].t.files && forall th | th in ss[n].threads && ss[n].threads[th].InCallback? :: ss[n].threads[th].d != d
  {
    Reachable(ss, es, i);
    assert StepAt(M(), ss, es, i);
    Kept(M(), ss, es, (s: State) => d <= s.t.counter && d !in s.t.files && d !in s.t.refcounts, (e: Event) => true, i + 1, n);
    Reachable(ss, es, n);
  }
}
