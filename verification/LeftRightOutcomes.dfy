/**
 What the Left-Right primitive does for its callers: reads never wait, writes
 take effect, the destructor gets through, and which of the outcomes a call has
 is decided by what happened during the run.
 */
module LeftRightOutcomes {
  import opened Runs
  import opened LeftRight
  import opened LeftRightProofs

  // ---------- the outcome of a write ----------

  /** One of the steps from `i` up to `n` is of the kind `p`. */
  ghost predicate Occurs<T(!new)>(es: seq<Step<T>>, i: nat, n: nat, p: Step<T> -> bool)
    requires n <= |es|
  {
    exists m: nat | i <= m < n :: p(es[m])
  }

  lemma {:induction false} OccursNext<T(!new)>(es: seq<Step<T>>, i: nat, n: nat, p: Step<T> -> bool)
    requires i <= n < |es|
    ensures Occurs(es, i, n + 1, p) <==> Occurs(es, i, n, p) || p(es[n])
  {
    if Occurs(es, i, n + 1, p) {
      var m: nat :| i <= m < n + 1 && p(es[m]);
    }
  }

  /** The destruction flag is set exactly if the destructor has set it. */
  lemma {:induction false} FlagIff<T(!new)>(x0: T, ss: seq<State<T>>, es: seq<Step<T>>, n: nat)
    requires IsRun(M(x0), ss, es) && n < |ss|
    ensures ss[n].inDestruction <==> Occurs(es, 0, n, (e: Step<T>) => e.DSetFlag?)
  {
    if n > 0 {
      FlagIff(x0, ss, es, n - 1);
      OccursNext(es, 0, n - 1, (e: Step<T>) => e.DSetFlag?);
      assert StepAt(M(x0), ss, es, n - 1);
      Reachable(x0, ss, es, n - 1);
      FlagStep(ss[n - 1], es[n - 1]);
    }
  }

  lemma {:induction false} FlagStep<T>(s: State<T>, e: Step<T>)
    requires Enabled(s, e)
    ensures Apply(s, e).inDestruction <==> s.inDestruction || e.DSetFlag?
  {
  }

  /** Where the writer is, given whether it was refused, a call threw, and the data index was switched. */
  predicate Traced<T>(w: Writer<T>, refused: bool, threw: bool, switched: bool) {
    match w
    case Free => false
    case Done(Refused) => refused && !threw && !switched
    case Done(ThrewFirst) => !refused && threw && !switched
    case Done(ThrewSecond) => !refused && threw && switched
    case Done(Returned) => !refused && !threw && switched
    case Locked(_) => !refused && !threw && !switched
    case Writing1(_, _, _) => !refused && !threw && !switched
    case Switch2(_, _) => !refused && !threw && !switched
    case Recover1(_) => !refused && threw && !switched
    case Recover6(_) => !refused && threw && switched
    case _ => !refused && !threw && switched
  }

  lemma {:induction false} TraceStep<T>(s: State<T>, e: Step<T>, refused: bool, threw: bool, switched: bool)
    requires Enabled(s, e) && !e.WUnlock? && Traced(s.writer, refused, threw, switched)
    ensures Traced(Apply(s, e).writer, refused || (e.WCheck? && s.inDestruction), threw || e.WThrow?, switched || e.WSwitchData?)
  {
  }

  /** The write that locked at `i` was refused before `n`: its check came after the flag. */
  ghost predicate RefusedBefore<T(!new)>(es: seq<Step<T>>, i: nat, n: nat)
    requires n <= |es|
  {
    exists c: nat | i < c < n :: es[c].WCheck? && Occurs(es, 0, c, (e: Step<T>) => e.DSetFlag?)
  }

  lemma {:induction false} RefusedNext<T(!new)>(es: seq<Step<T>>, i: nat, n: nat)
    requires i < n < |es|
    ensures RefusedBefore(es, i, n + 1) <==>
      RefusedBefore(es, i, n) || (es[n].WCheck? && Occurs(es, 0, n, (e: Step<T>) => e.DSetFlag?))
  {
    if RefusedBefore(es, i, n + 1) {
      var c: nat :| i < c < n + 1 && es[c].WCheck? && Occurs(es, 0, c, (e: Step<T>) => e.DSetFlag?);
    }
  }

  ghost predicate Throws<T(!new)>(es: seq<Step<T>>, i: nat, n: nat)
    requires n <= |es|
  {
    Occurs(es, i, n, (e: Step<T>) => e.WThrow?)
  }

  ghost predicate Switches<T(!new)>(es: seq<Step<T>>, i: nat, n: nat)
    requires n <= |es|
  {
    Occurs(es, i, n, (e: Step<T>) => e.WSwitchData?)
  }

  lemma {:induction false} WriteTrace<T(!new)>(x0: T, ss: seq<State<T>>, es: seq<Step<T>>, i: nat, n: nat, f: T -> T)
    requires IsRun(M(x0), ss, es) && i < n < |ss| && es[i] == WLock(f)
    requires forall m | i < m < n :: !es[m].WUnlock?
    ensures Traced(ss[n].writer, RefusedBefore(es, i, n), Throws(es, i + 1, n), Switches(es, i + 1, n))
    decreases n
  {
    if n == i + 1 {
      assert StepAt(M(x0), ss, es, i);
    } else {
      var s, e := ss[n - 1], es[n - 1];
      WriteTrace(x0, ss, es, i, n - 1, f);
      assert StepAt(M(x0), ss, es, n - 1);
      FlagIff(x0, ss, es, n - 1);
      RefusedNext(es, i, n - 1);
      OccursNext(es, i + 1, n - 1, (e: Step<T>) => e.WThrow?);
      OccursNext(es, i + 1, n - 1, (e: Step<T>) => e.WSwitchData?);
      TraceStep(s, e, RefusedBefore(es, i, n - 1), Throws(es, i + 1, n - 1), Switches(es, i + 1, n - 1));
    }
  }

  /**
   The outcome of a write follows from the steps between its lock and its
   unlock: it is refused exactly if the destructor had set the flag before the
   check, and otherwise returns exactly if `writeFunc` did not throw; which call
   threw shows in whether the data index was switched.  The write is in effect
   exactly if it was.
   */
  lemma {:induction false} WriteOutcome<T(!new)>(x0: T, ss: seq<State<T>>, es: seq<Step<T>>, i: nat, j: nat, f: T -> T)
    requires IsRun(M(x0), ss, es) && i < j < |es| && es[i] == WLock(f) && es[j].WUnlock?
    requires forall m | i < m < j :: !es[m].WUnlock?
    ensures ss[j].writer == Done(
      if RefusedBefore(es, i, j) then Refused
      else if !Throws(es, i + 1, j) then Returned
      else if Switches(es, i + 1, j) then ThrewSecond
      else ThrewFirst)
    ensures ss[j].history == if Switches(es, i + 1, j) then ss[i].history + [f] else ss[i].history
  {
    WriteTrace(x0, ss, es, i, j, f);
    assert StepAt(M(x0), ss, es, j);
    WriteIsAtomic(x0, ss, es, i, j, f);
  }

  /** Without a destructor and without exceptions every write that finishes is in effect. */
  lemma {:induction false} WriteTakesEffect<T(!new)>(x0: T, ss: seq<State<T>>, es: seq<Step<T>>, i: nat, j: nat, f: T -> T)
    requires IsRun(M(x0), ss, es) && i < j < |es| && es[i] == WLock(f) && es[j].WUnlock?
    requires forall m | i < m < j :: !es[m].WUnlock? && !es[m].WThrow?
    requires forall m | 0 <= m < j :: !es[m].DSetFlag?
    ensures ss[j].writer == Done(Returned) && ss[j].history == ss[i].history + [f]
    ensures ss[j].data.At(0) == ss[j].data.At(1) == f(Fold(x0, ss[i].history))
  {
    WriteTrace(x0, ss, es, i, j, f);
    assert !RefusedBefore(es, i, j) && !Throws(es, i + 1, j);
    assert StepAt(M(x0), ss, es, j);
    WriteIsAtomic(x0, ss, es, i, j, f);
    assert (ss[i].history + [f])[..|ss[i].history|] == ss[i].history;
  }

  // ---------- the outcome of a read ----------

  /** A read passes its check exactly if the destructor had not set the flag, and otherwise throws. */
  lemma {:induction false} ReadPassesIff<T(!new)>(x0: T, ss: seq<State<T>>, es: seq<Step<T>>, n: nat, r: int)
    requires IsRun(M(x0), ss, es) && n < |es| && es[n] == RCheck(r)
    ensures r in ss[n + 1].readers
    ensures if Occurs(es, 0, n, (e: Step<T>) => e.DSetFlag?) then ss[n + 1].readers[r].Leaving? else ss[n + 1].readers[r].Checked?
  {
    FlagIff(x0, ss, es, n);
    assert StepAt(M(x0), ss, es, n);
  }

  /** A read starts on the newest contents: right then it finds the result of all writes in effect and nothing else. */
  lemma {:induction false} ReadStartsNewest<T(!new)>(x0: T, ss: seq<State<T>>, es: seq<Step<T>>, n: nat, r: int, v: T)
    requires IsRun(M(x0), ss, es) && n < |es| && es[n] == RStart(r)
    ensures Enabled(ss[n + 1], RObserve(r, v)) <==> v == Fold(x0, ss[n].history)
  {
    assert StepAt(M(x0), ss, es, n);
    Reachable(x0, ss, es, n);
  }

  /** The state after a sequence of steps, and whether each of them was possible. */
  ghost predicate Leads<T(!new)>(s: State<T>, es: seq<Step<T>>, t: State<T>)
    decreases |es|
  {
    if es == [] then s == t else Enabled(s, es[0]) && Leads(Apply(s, es[0]), es[1..], t)
  }

  /** Reads never wait: from every reachable state without the flag, the reader's own steps lead through a whole read. */
  lemma {:induction false} ReadIsWaitFree<T(!new)>(x0: T, s: State<T>, r: int)
    requires Inv(x0, s) && !s.inDestruction && r !in s.readers
    ensures Leads(s, [RLoad(r), RIncrement(r), RCheck(r), RStart(r)] + [RObserve(r, Fold(x0, s.history)), RFinish(r), RDecrement(r)], s)
  {
    var t := Arriving(s, r);
    ReadArrives(s, r);
    ReadLeaves(t, r, Fold(x0, s.history));
    assert t.readers - {r} == s.readers;
    LeadsOn(s, [RLoad(r), RIncrement(r), RCheck(r), RStart(r)], t, [RObserve(r, Fold(x0, s.history)), RFinish(r), RDecrement(r)], s);
  }

  /** A reader has come in and is about to look at the data. */
  function Arriving<T>(s: State<T>, r: int): State<T> {
    var c := s.fgCounter;
    s.(readers := s.readers[r := Reading(c, s.fgData, |s.history|)], counters := s.counters.With(c, s.counters.At(c) + 1))
  }

  lemma {:induction false} ReadArrives<T(!new)>(s: State<T>, r: int)
    requires !s.inDestruction && r !in s.readers
    ensures Leads(s, [RLoad(r), RIncrement(r), RCheck(r), RStart(r)], Arriving(s, r))
  {
    var t := Arriving(s, r);
    var s1 := Apply(s, RLoad(r));
    var s2 := Apply(s1, RIncrement(r));
    var s3 := Apply(s2, RCheck(r));
    assert Apply(s3, RStart(r)) == t;
    Chain1(s3, RStart(r), [], t);
    Chain1(s2, RCheck(r), [RStart(r)], t);
    Chain1(s1, RIncrement(r), [RCheck(r), RStart(r)], t);
    Chain1(s, RLoad(r), [RIncrement(r), RCheck(r), RStart(r)], t);
  }

  lemma {:induction false} ReadLeaves<T(!new)>(s: State<T>, r: int, v: T)
    requires r in s.readers && s.readers[r].Reading? && v == s.data.At(s.readers[r].d)
    ensures var c := s.readers[r].c;
      Leads(s, [RObserve(r, v), RFinish(r), RDecrement(r)],
        s.(readers := s.readers - {r}, counters := s.counters.With(c, s.counters.At(c) - 1)))
  {
    var c := s.readers[r].c;
    var t := s.(readers := s.readers - {r}, counters := s.counters.With(c, s.counters.At(c) - 1));
    var s1 := Apply(s, RFinish(r));
    assert Apply(s1, RDecrement(r)) == t;
    Chain1(s1, RDecrement(r), [], t);
    Chain1(s, RFinish(r), [RDecrement(r)], t);
    Chain1(s, RObserve(r, v), [RFinish(r), RDecrement(r)], t);
  }

  lemma {:induction false} LeadsOn<T(!new)>(s: State<T>, es: seq<Step<T>>, t: State<T>, more: seq<Step<T>>, u: State<T>)
    requires Leads(s, es, t) && Leads(t, more, u)
    ensures Leads(s, es + more, u)
    decreases |es|
  {
    if es == [] {
      assert es + more == more;
    } else {
      LeadsOn(Apply(s, es[0]), es[1..], t, more, u);
      assert (es + more)[1..] == es[1..] + more;
    }
  }

  lemma {:induction false} Chain1<T(!new)>(s: State<T>, e: Step<T>, es: seq<Step<T>>, t: State<T>)
    requires Enabled(s, e) && Leads(Apply(s, e), es, t)
    ensures Leads(s, [e] + es, t)
  {
    assert ([e] + es)[1..] == es;
  }

  /** While it runs, `writeFunc` can leave anything in the background instance, and nothing elsewhere. */
  lemma {:induction false} WriteFuncIsFree<T>(x0: T, s: State<T>, x: T)
    requires Inv(x0, s) && (s.writer.Writing1? || s.writer.Writing6?)
    ensures Enabled(s, WScribble(x))
    ensures Apply(s, WScribble(x)) == s.(data := s.data.With(Other(s.fgData), x))
  {
  }

  // ---------- waiting ----------

  /** A poll of the writer gets through exactly if no reader is between increment and decrement of the awaited counter. */
  lemma {:induction false} PollPassesIff<T>(s: State<T>)
    requires CountersExact(s) && Waiting(s)
    ensures Apply(s, WPoll).writer != s.writer <==> Holders(s.readers, Other(s.writer.c)) == {}
  {
    var c := Other(s.writer.c);
    assert c == 0 || c == 1;
    if Holders(s.readers, c) != {} {
      assert |Holders(s.readers, c)| != 0;
    }
  }

  /** With no reader about, a write of `f` runs to its end by its own steps, and the primitive is idle again. */
  lemma {:induction false} WriteCompletes<T(!new)>(x0: T, s: State<T>, f: T -> T)
    requires Inv(x0, s) && s.writer.Free? && !s.inDestruction && s.readers == map[]
    ensures var v := f(Fold(x0, s.history));
      Leads(s, [WLock(f), WCheck, WFinish, WSwitchData] + [WLoadCounter, WPoll, WSwitchCounter] + [WPoll, WFinish, WUnlock],
        s.(fgCounter := Other(s.fgCounter), fgData := Other(s.fgData), data := Pair(v, v), history := s.history + [f]))
  {
    var v := f(Fold(x0, s.history));
    var first, second := [WLock(f), WCheck, WFinish, WSwitchData], [WLoadCounter, WPoll, WSwitchCounter];
    var u := s.(writer := Load3(f, Other(s.fgData)), fgData := Other(s.fgData), data := s.data.With(Other(s.fgData), v), history := s.history + [f]);
    var w := u.(writer := Wait5(f, u.fgData, Other(u.fgCounter)), fgCounter := Other(u.fgCounter));
    var t := w.(writer := Free, data := w.data.With(Other(w.fgData), v));
    NobodyCounts(s);
    WriteFirst(s, f);
    WriteWaits(u, f, u.fgData);
    WriteSecond(w, f, w.fgData, Other(u.fgCounter));
    LeadsOn(s, first, u, second, w);
    LeadsOn(s, first + second, w, [WPoll, WFinish, WUnlock], t);
    assert t.data == Pair(v, v);
  }

  lemma {:induction false} WriteFirst<T(!new)>(s: State<T>, f: T -> T)
    requires s.writer.Free? && !s.inDestruction
    ensures Leads(s, [WLock(f), WCheck, WFinish, WSwitchData],
      s.(writer := Load3(f, Other(s.fgData)), fgData := Other(s.fgData), history := s.history + [f],
         data := s.data.With(Other(s.fgData), f(s.data.At(Other(s.fgData))))))
  {
    var s1 := Apply(s, WLock(f));
    var s2 := Apply(s1, WCheck);
    var s3 := Apply(s2, WFinish);
    var t := Apply(s3, WSwitchData);
    Chain1(s3, WSwitchData, [], t);
    Chain1(s2, WFinish, [WSwitchData], t);
    Chain1(s1, WCheck, [WFinish, WSwitchData], t);
    Chain1(s, WLock(f), [WCheck, WFinish, WSwitchData], t);
  }

  lemma {:induction false} WriteWaits<T(!new)>(s: State<T>, f: T -> T, d: Index)
    requires s.writer == Load3(f, d) && s.counters == Pair(0, 0)
    ensures Leads(s, [WLoadCounter, WPoll, WSwitchCounter],
      s.(writer := Wait5(f, d, Other(s.fgCounter)), fgCounter := Other(s.fgCounter)))
  {
    var s1 := Apply(s, WLoadCounter);
    var s2 := Apply(s1, WPoll);
    var t := Apply(s2, WSwitchCounter);
    Chain1(s2, WSwitchCounter, [], t);
    Chain1(s1, WPoll, [WSwitchCounter], t);
    Chain1(s, WLoadCounter, [WPoll, WSwitchCounter], t);
  }

  lemma {:induction false} WriteSecond<T(!new)>(s: State<T>, f: T -> T, d: Index, c: Index)
    requires s.writer == Wait5(f, d, c) && s.counters == Pair(0, 0)
    ensures Leads(s, [WPoll, WFinish, WUnlock], s.(writer := Free, data := s.data.With(Other(d), f(s.data.At(Other(d))))))
  {
    var s1 := Apply(s, WPoll);
    var s2 := Apply(s1, WFinish);
    var t := Apply(s2, WUnlock);
    Chain1(s2, WUnlock, [], t);
    Chain1(s1, WFinish, [WUnlock], t);
    Chain1(s, WPoll, [WFinish, WUnlock], t);
  }

  /** Whichever call throws, the write ends with both instances equal to the writes in effect. */
  lemma {:induction false} FailedWriteCompletes<T(!new)>(x0: T, s: State<T>)
    requires Inv(x0, s) && (s.writer.Writing1? || s.writer.Writing6?)
    ensures var now := Fold(x0, s.history); Leads(s, [WThrow, WRecover, WUnlock], s.(writer := Free, data := Pair(now, now)))
  {
    Recovers(s);
    assert Contents(x0, s) && s.writer.d == s.fgData;
    assert s.data.With(Other(s.fgData), s.data.At(s.fgData)) == Pair(Fold(x0, s.history), Fold(x0, s.history));
  }

  lemma {:induction false} Recovers<T(!new)>(s: State<T>)
    requires s.writer.Writing1? || s.writer.Writing6?
    ensures Leads(s, [WThrow, WRecover, WUnlock], s.(writer := Free, data := s.data.With(Other(s.writer.d), s.data.At(s.writer.d))))
  {
    var s1 := Apply(s, WThrow);
    var s2 := Apply(s1, WRecover);
    var t := Apply(s2, WUnlock);
    Chain1(s2, WUnlock, [], t);
    Chain1(s1, WRecover, [WUnlock], t);
    Chain1(s, WThrow, [WRecover, WUnlock], t);
  }

  /** After the flag is set, calls end without having done anything. */
  lemma {:induction false} RefusedCallsLeaveNoTrace<T(!new)>(s: State<T>, f: T -> T, r: int)
    requires s.inDestruction
    ensures s.writer.Free? ==> Leads(s, [WLock(f), WCheck, WUnlock], s)
    ensures r !in s.readers ==> Leads(s, [RLoad(r), RIncrement(r), RCheck(r), RDecrement(r)], s)
  {
    if s.writer.Free? {
      var s1 := Apply(s, WLock(f));
      var s2 := Apply(s1, WCheck);
      Chain1(s2, WUnlock, [], s);
      Chain1(s1, WCheck, [WUnlock], s);
      Chain1(s, WLock(f), [WCheck, WUnlock], s);
    }
    if r !in s.readers {
      RefusedRead(s, r);
    }
  }

  lemma {:induction false} RefusedRead<T(!new)>(s: State<T>, r: int)
    requires s.inDestruction && r !in s.readers
    ensures Leads(s, [RLoad(r), RIncrement(r), RCheck(r), RDecrement(r)], s)
  {
    var s1 := Apply(s, RLoad(r));
    var s2 := Apply(s1, RIncrement(r));
    var s3 := Apply(s2, RCheck(r));
    var t := Apply(s3, RDecrement(r));
    assert t.readers == s.readers && t.counters == s.counters;
    assert t == s;
    Chain1(s3, RDecrement(r), [], s);
    Chain1(s2, RCheck(r), [RDecrement(r)], s);
    Chain1(s1, RIncrement(r), [RCheck(r), RDecrement(r)], s);
    Chain1(s, RLoad(r), [RIncrement(r), RCheck(r), RDecrement(r)], s);
  }

  lemma {:induction false} NobodyCounts<T>(s: State<T>)
    requires CountersExact(s) && s.readers == map[]
    ensures s.counters == Pair(0, 0)
  {
    assert Holders(s.readers, 0) == {} && Holders(s.readers, 1) == {};
  }

  /** With nobody about, the destructor gets through. */
  lemma {:induction false} TeardownCompletes<T(!new)>(x0: T, s: State<T>)
    requires Inv(x0, s) && s.destructor.NotStarted? && s.writer.Free? && s.readers == map[]
    ensures Leads(s, [DSetFlag, DPassMutex, DPoll, DPoll], s.(inDestruction := true, destructor := Finished))
  {
    var t := s.(inDestruction := true, destructor := Finished);
    NobodyCounts(s);
    var s1 := Apply(s, DSetFlag);
    var s2 := Apply(s1, DPassMutex);
    var s3 := Apply(s2, DPoll);
    Chain1(s3, DPoll, [], t);
    Chain1(s2, DPoll, [DPoll], t);
    Chain1(s1, DPassMutex, [DPoll, DPoll], t);
    Chain1(s, DSetFlag, [DPassMutex, DPoll, DPoll], t);
  }

  /** The destructor finishes only by seeing both counters at zero, one poll after the other, and else starts over. */
  lemma {:induction false} PollsOfTeardown<T>(s: State<T>)
    requires CountersExact(s) && Enabled(s, DPoll)
    ensures s.destructor.WritersGone? ==>
      Apply(s, DPoll).destructor == if Holders(s.readers, 0) == {} then FirstSeenZero else WritersGone
    ensures s.destructor.FirstSeenZero? ==>
      Apply(s, DPoll).destructor == if Holders(s.readers, 1) == {} then Finished else WritersGone
  {
    if Holders(s.readers, 0) != {} {
      assert |Holders(s.readers, 0)| != 0;
    }
    if Holders(s.readers, 1) != {} {
      assert |Holders(s.readers, 1)| != 0;
    }
  }
}
