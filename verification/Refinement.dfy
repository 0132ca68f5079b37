/** The two accounts of the service meet: however a call ends that its methods carry out, it is a
    stretch of a run of the concurrent system. */
module Refinement {
  import opened Attempts
  import opened Effects
  import opened Execution
  import opened Recovery
  import opened Runs
  import opened Script
  import opened Service
  import opened Wrappers
  import Z = ZoneStore

  /** The event with which a call begins, and what it is asked to do. */
  predicate Opens(e: Event) {
    e.Start? || e.Enter?
  }

  function TaskOf(e: Event): Task
    requires Opens(e)
  {
    match e
    case Start => Boot
    case Enter(_, task) => task
  }

  /** A call that has ended this way, leaving this world: the guard is released, the process is gone
      if it died or could not start, and only a call that ran to its end counts as clean. */
  ghost predicate Ended(t: System, w: World, task: Task, r: Attempt) {
    && t.world == w
    && t.call.None? && t.threadLock.None? && t.fileLock.Free?
    && (t.memory.Some? <==> r.Done? || (r.Raised? && !task.Boot?))
    && (t.clean <==> r.Done?)
  }

  /** What happens after the last whole effect of a call that stopped: a crash may come while an
      abort is under way. */
  function StopEvents(task: Task, r: Attempt, applied: bool, aborted: bool): seq<Event> {
    if r.Crashed? && !aborted then [Crash(applied)]
    else [Raise(applied, aborted)] + if r.Crashed? && !task.Boot? then [Crash(false)] else []
  }

  ghost predicate Stops(t: System, op: Op, r: Attempt, applied: bool, aborted: bool) {
    && Working(t) && NextOp(t) == op && t.memory.Some? && t.fileLock.ByService?
    && !r.Done? && (applied && r.Raised? ==> !op.SaveState?) && (aborted ==> InTransaction(op))
  }

  function StoppedWorld(w: World, op: Op, applied: bool, aborted: bool): World
    requires aborted ==> InTransaction(op)
  {
    var struck := if applied then Exec(w, op) else w;
    if aborted then Exec(struck, Abort(op.zone)) else struck
  }

  lemma StopsFollow(t: System, op: Op, r: Attempt, applied: bool, aborted: bool)
    requires Stops(t, op, r, applied, aborted)
    ensures var events := StopEvents(t.call.value.task, r, applied, aborted);
            && CanFollow(t, events)
            && Ended(After(t, events), StoppedWorld(t.world, op, applied, aborted), t.call.value.task, r)
  {
    if r.Crashed? && !aborted {
      FollowOne(t, Crash(applied));
    } else {
      var e := Raise(applied, aborted);
      FollowOne(t, e);
      if r.Crashed? && !t.call.value.task.Boot? {
        FollowSnoc(t, [e], Crash(false));
      }
    }
  }

  lemma StoppedWorldIs(w: World, script: seq<Op>, k: nat, applied: bool, aborted: bool)
    requires k < |script| && (aborted ==> InTransaction(script[k]))
    ensures ExecAll(w, script[..k] + (if applied then [script[k]] else [])
                       + (if aborted then [Abort(script[k].zone)] else []))
            == StoppedWorld(ExecAll(w, script[..k]), script[k], applied, aborted)
  {
    var plain := script[..k] + if applied then [script[k]] else [];
    if applied {
      ExecSnoc(w, script[..k], script[k]);
    } else {
      assert plain == script[..k];
    }
    if aborted {
      ExecSnoc(w, plain, Abort(script[k].zone));
    } else {
      assert plain + [] == plain;
    }
  }

  predicate InCall(e: Event) {
    e.Effect? || e.Return? || e.Raise? || e.Crash?
  }

  /** The system has just begun the call. */
  ghost predicate Begun(s: System, task: Task) {
    && s.call == Some(Call(task, s.world, 0))
    && s.memory.Some? && s.fileLock.ByService?
  }

  lemma BegunBy(s: System, e: Event)
    requires Enabled(s, e) && Opens(e)
    ensures Begun(Step(s, e), TaskOf(e)) && Step(s, e).world == s.world
  {
  }

  lemma DoneFollows(s: System, task: Task)
    requires Begun(s, task)
    ensures var script := ScriptOf(task, Disk(s.world));
            var events := EffectEvents(|script|) + [Return];
            CanFollow(s, events) && Ended(After(s, events), ExecAll(s.world, script), task, Done)
  {
    var script := ScriptOf(task, Disk(s.world));
    EffectsFollow(s, |script|);
    FollowSnoc(s, EffectEvents(|script|), Return);
    assert script[..|script|] == script;
  }

  lemma StopFollows(s: System, task: Task, effects: seq<Op>, r: Attempt, k: nat, applied: bool, aborted: bool)
    requires Begun(s, task) && !r.Done? && StoppedAt(ScriptOf(task, Disk(s.world)), effects, r, k, applied, aborted)
    ensures var events := EffectEvents(k) + StopEvents(task, r, applied, aborted);
            CanFollow(s, events) && Ended(After(s, events), ExecAll(s.world, effects), task, r)
  {
    var script := ScriptOf(task, Disk(s.world));
    EffectsFollow(s, k);
    var t := After(s, EffectEvents(k));
    StopsFollow(t, script[k], r, applied, aborted);
    FollowAppend(s, EffectEvents(k), StopEvents(task, r, applied, aborted));
    StoppedWorldIs(s.world, script, k, applied, aborted);
  }

  /** The events happen inside a call; a call that is done ends with its return. */
  ghost predicate CallEvents(events: seq<Event>, r: Attempt) {
    && (forall e | e in events :: InCall(e))
    && (r.Done? ==> events != [] && events[|events| - 1] == Return)
  }

  lemma DoneEvents(n: nat)
    ensures CallEvents(EffectEvents(n) + [Return], Done)
  {
  }

  lemma StoppedEvents(n: nat, task: Task, r: Attempt, applied: bool, aborted: bool)
    requires !r.Done?
    ensures CallEvents(EffectEvents(n) + StopEvents(task, r, applied, aborted), r)
  {
    forall e | e in StopEvents(task, r, applied, aborted) ensures InCall(e) {
    }
  }

  /** The call was carried out with these effects, to its end or stopped. */
  ghost predicate CarriedOut(w: World, task: Task, effects: seq<Op>, r: Attempt) {
    if r.Done? then effects == ScriptOf(task, Disk(w)) else Stopped(ScriptOf(task, Disk(w)), effects, r)
  }

  lemma RanFollows(s: System, task: Task, effects: seq<Op>, r: Attempt) returns (events: seq<Event>)
    requires Begun(s, task) && CarriedOut(s.world, task, effects, r)
    ensures CallEvents(events, r) && CanFollow(s, events)
    ensures Ended(After(s, events), ExecAll(s.world, effects), task, r)
  {
    if r.Done? {
      DoneFollows(s, task);
      DoneEvents(|effects|);
      events := EffectEvents(|effects|) + [Return];
    } else {
      var k: nat, applied: bool, aborted: bool :|
        StoppedAt(ScriptOf(task, Disk(s.world)), effects, r, k, applied, aborted);
      StopFollows(s, task, effects, r, k, applied, aborted);
      StoppedEvents(k, task, r, applied, aborted);
      events := EffectEvents(k) + StopEvents(task, r, applied, aborted);
    }
  }

  lemma RanEffects(base: World, before: seq<Op>, after: seq<Op>, task: Task, r: Attempt)
    requires Ran(before, after, ScriptOf(task, Disk(ExecAll(base, before))), r)
    ensures CarriedOut(ExecAll(base, before), task, after[|before|..], r)
    ensures ExecAll(ExecAll(base, before), after[|before|..]) == ExecAll(base, after)
  {
    ExecAppend(base, before, after[|before|..]);
    assert after == before + after[|before|..];
  }

  lemma FirstCallEvents(e: Event, events: seq<Event>, r: Attempt)
    requires Opens(e) && CallEvents(events, r)
    ensures forall d | d in [e] + events :: !d.PowerLoss?
    ensures r.Done? ==> ([e] + events)[|events|] == Return
  {
  }

  /** Whatever a method does that runs a script, to its end or stopped in it, the system does too: it
      begins the call, and effects, a return, an error or a crash lead to the same world. */
  lemma CallIsStretch(s: System, e: Event, base: World, before: seq<Op>, after: seq<Op>, r: Attempt)
    returns (events: seq<Event>)
    requires Enabled(s, e) && Opens(e) && s.world == ExecAll(base, before)
    requires Ran(before, after, ScriptOf(TaskOf(e), Disk(s.world)), r)
    ensures CallEvents(events, r) && CanFollow(s, [e] + events)
    ensures Ended(After(s, [e] + events), ExecAll(base, after), TaskOf(e), r)
  {
    RanEffects(base, before, after, TaskOf(e), r);
    BegunBy(s, e);
    FollowOne(s, e);
    events := RanFollows(Step(s, e), TaskOf(e), after[|before|..], r);
    FollowAppend(s, [e], events);
  }

  lemma ReturnAtEnd(q: Run, w: World)
    requires LastingRun(q) && q.events != [] && q.events[|q.events| - 1] == Return && Last(q).world == w
    ensures Converged(w, CarryOut(map[], q.accepted))
  {
    var n := |q.events| - 1;
    RunConverges(q, n);
    assert q.accepted[..n + 1] == q.accepted;
  }

  lemma MemoryAtEnd(q: Run)
    requires LastingRun(q)
    ensures Last(q).memory.Some? ==> Last(q).memory.value == Disk(Last(q).world)
  {
    RunInvariant(q, |q.systems| - 1);
  }

  lemma LastEvent<T>(a: seq<T>, b: seq<T>)
    requires b != []
    ensures (a + b)[|a + b| - 1] == b[|b| - 1]
  {
  }

  /** So what is proved of all runs holds of the calls that the methods carry out: the run so far goes
      on to a run that ends with the world and the memory that the method leaves, and a call that was
      done leaves the stores converged on the accepted requests. */
  lemma CallExtendsRun(r: Run, e: Event, base: World, before: seq<Op>, after: seq<Op>, a: Attempt) returns (q: Run)
    requires LastingRun(r) && Enabled(Last(r), e) && Opens(e) && Last(r).world == ExecAll(base, before)
    requires Ran(before, after, ScriptOf(TaskOf(e), Disk(Last(r).world)), a)
    ensures LastingRun(q) && Continues(r, q) && Ended(Last(q), ExecAll(base, after), TaskOf(e), a)
    ensures Last(q).memory.Some? ==> Last(q).memory.value == Disk(ExecAll(base, after))
    ensures a.Done? ==> Converged(ExecAll(base, after), CarryOut(map[], q.accepted))
  {
    var events := CallIsStretch(Last(r), e, base, before, after, a);
    FirstCallEvents(e, events, a);
    q := Extend(r, [e] + events);
    MemoryAtEnd(q);
    if a.Done? {
      LastEvent(r.events, [e] + events);
      ReturnAtEnd(q, ExecAll(base, after));
    }
  }

  /** The same of a method of the store, from what it ensures. */
  twostate lemma MethodExtendsRun(store: Z.ZoneStore, r: Run, e: Event, task: Task, a: Attempt) returns (q: Run)
    requires LastingRun(r) && Enabled(Last(r), e) && Opens(e) && TaskOf(e) == task
    requires old(store.host.Valid()) && Last(r).world == old(store.host.world) && store.Settles(task, a)
    ensures LastingRun(q) && Continues(r, q) && Ended(Last(q), store.host.world, task, a)
    ensures Last(q).memory.Some? ==> Last(q).memory.value == store.state
    ensures a.Done? ==> Converged(store.host.world, CarryOut(map[], q.accepted))
  {
    q := CallExtendsRun(r, e, old(store.host.base), old(store.host.ops), store.host.ops, a);
  }
}
