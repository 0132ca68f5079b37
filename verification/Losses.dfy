/** What any power loss can do to accepted requests, even one that undoes a staging write. */
module Losses {
  import opened Effects
  import opened Journal
  import opened Recovery
  import opened Runs
  import opened Saves
  import opened Script
  import opened Service
  import opened Wrappers
  import opened Zones

  /** What holds of the state file and of memory whatever is lost, even if Knot and the include no
      longer fit them. */
  ghost predicate StateInvariant(s: System) {
    && s.world.stateFile in s.states
    && (forall c | c in s.states + s.earlier :: Sound(Saved(c)))
    && (s.memory.Some? ==> s.memory.value == Disk(s.world))
    && (s.call.Some? ==> StateCall(s, s.call.value) && s.memory.Some? && s.threadLock.Some?)
    && (s.call.Some? <==> s.fileLock.ByService?)
    && (s.threadLock.Some? ==> s.memory.Some?)
  }

  ghost predicate StateCall(s: System, c: Call) {
    && Sound(Disk(c.entry)) && Admissible(c.task)
    && c.done <= |ScriptOfCall(c)|
    && Disk(s.world) == StateAfter(Disk(c.entry), ScriptOfCall(c)[..c.done])
  }

  /** A state that the event leaves possible is one that was possible before, or a commit of what the
      file held, or what the request asks for. */
  ghost predicate Comes(s: System, e: Event, c: Option<State>) {
    && Sound(Saved(c))
    && (c in s.states + s.earlier
        || Effective(Saved(c)) == EffectiveZones(s)
        || (Accepts(s, e) && Effective(Saved(c)) == Target(s.call.value.task, EffectiveZones(s))))
  }

  lemma NextStateFile(s: System)
    requires StateInvariant(s) && Working(s)
    ensures var c := s.call.value; var t := Disk(Exec(s.world, NextOp(s)));
            && Sound(t)
            && t == StateAfter(Disk(c.entry), ScriptOfCall(c)[..c.done + 1])
            && Effective(t) == if AtStaging(s) then Target(c.task, EffectiveZones(s)) else EffectiveZones(s)
  {
    var c := s.call.value;
    var k := c.done + 1;
    StateStep(c.task, Disk(c.entry), c.done, k);
    MemoryFollows(s.world, NextOp(s), Disk(s.world));
  }

  /** The state that the coming effect writes, if it is a state write. */
  lemma WrittenComes(s: System, e: Event)
    requires StateInvariant(s) && Enabled(s, e) && Strikes(e) && NextOp(s).SaveState?
    ensures Comes(s, e, Some(NextOp(s).state))
  {
    NextStateFile(s);
  }

  /** The event writes this state. */
  ghost predicate Writes(s: System, e: Event, c: Option<State>)
    requires Enabled(s, e)
  {
    Strikes(e) && NextOp(s).SaveState? && c == Some(NextOp(s).state)
  }

  lemma CutFile(s: System, struck: bool)
    requires struck ==> Working(s)
    ensures Cut(s, struck).stateFile
            == if struck && NextOp(s).SaveState? then Some(NextOp(s).state) else s.world.stateFile
  {
    if struck {
      StruckFile(s.world, NextOp(s));
    }
  }

  lemma LeftFile(s: System, e: Event)
    requires Enabled(s, e) && s.world.stateFile in s.states
    ensures Step(s, e).world.stateFile in Step(s, e).states
  {
    match e
    case Effect => StruckFile(s.world, NextOp(s));
    case Crash(struck) => CutFile(s, struck);
    case Raise(applied, aborted) =>
      CutFile(s, applied);
      if aborted {
        StruckFile(Cut(s, applied), Abort(NextOp(s).zone));
      }
    case _ =>
  }

  lemma LeftStates(s: System, e: Event, c: Option<State>)
    requires Enabled(s, e) && c in Step(s, e).states + Step(s, e).earlier
    ensures c in s.states + s.earlier || Writes(s, e, c)
  {
  }

  lemma StatesCome(s: System, e: Event)
    requires StateInvariant(s) && Enabled(s, e)
    ensures forall c | c in Step(s, e).states + Step(s, e).earlier :: Comes(s, e, c)
  {
    forall c | c in Step(s, e).states + Step(s, e).earlier ensures Comes(s, e, c) {
      LeftStates(s, e, c);
      if Writes(s, e, c) {
        WrittenComes(s, e);
      }
    }
  }

  lemma EffectKeepsStates(s: System)
    requires StateInvariant(s) && Enabled(s, Effect)
    ensures var t := Step(s, Effect); StateCall(t, t.call.value) && t.memory == Some(Disk(t.world))
  {
    NextStateFile(s);
    MemoryFollows(s.world, NextOp(s), Disk(s.world));
  }

  lemma SoundFile(s: System)
    requires StateInvariant(s)
    ensures Sound(Disk(s.world))
  {
    assert s.world.stateFile in s.states + s.earlier;
  }

  lemma FreshCall(w: World, task: Task)
    requires Sound(Disk(w)) && Admissible(task)
    ensures var c := Call(task, w, 0); Disk(w) == StateAfter(Disk(w), ScriptOfCall(c)[..0])
  {
    assert ScriptOfCall(Call(task, w, 0))[..0] == [];
  }

  lemma EnterKeepsStates(s: System, e: Event)
    requires StateInvariant(s) && Enabled(s, e) && (e.Start? || e.Enter?)
    ensures var t := Step(s, e); StateCall(t, t.call.value) && t.memory == Some(Disk(t.world))
  {
    SoundFile(s);
    FreshCall(s.world, Step(s, e).call.value.task);
  }

  lemma RaiseKeepsStates(s: System, applied: bool, aborted: bool)
    requires Enabled(s, Raise(applied, aborted))
    ensures Disk(Step(s, Raise(applied, aborted)).world) == Disk(s.world)
  {
    CutFile(s, applied);
    if aborted {
      StruckFile(Cut(s, applied), Abort(NextOp(s).zone));
    }
  }

  /** No event whatever breaks the invariant of the state file. */
  lemma StepKeepsStates(s: System, e: Event)
    requires StateInvariant(s) && Enabled(s, e)
    ensures StateInvariant(Step(s, e))
  {
    LeftFile(s, e);
    StatesCome(s, e);
    match e
    case Effect => EffectKeepsStates(s);
    case Start => EnterKeepsStates(s, e);
    case Enter(_, _) => EnterKeepsStates(s, e);
    case Raise(applied, aborted) => RaiseKeepsStates(s, applied, aborted);
    case _ =>
  }

  // ----- whole runs -----

  lemma {:induction false} RunKeepsStates(r: Run, i: nat)
    requires ValidRun(r) && i < |r.systems|
    ensures StateInvariant(r.systems[i])
  {
    if i > 0 {
      RunKeepsStates(r, i - 1);
      assert StepOf(r, i - 1);
      StepKeepsStates(r.systems[i - 1], r.events[i - 1]);
    }
  }

  /** Of the accepted requests some remain, at their places. */
  ghost predicate Remain(accepted: seq<Option<Task>>, kept: seq<Option<Task>>) {
    |kept| == |accepted| && forall k | 0 <= k < |kept| && kept[k].Some? :: kept[k] == accepted[k]
  }

  /** The state means what some of the accepted requests make of the zones. */
  ghost predicate Recalls(c: Option<State>, zones: map<string, Payload>, accepted: seq<Option<Task>>) {
    exists kept :: Remain(accepted, kept) && Effective(Saved(c)) == CarryOut(zones, kept)
  }

  /** Whatever a power loss leaves of the state file means the same zones. */
  ghost predicate Settled(s: System) {
    forall c | c in s.states + s.earlier :: Effective(Saved(c)) == EffectiveZones(s)
  }

  lemma RecallsNext(b: Option<State>, c: Option<State>, zones: map<string, Payload>, accepted: seq<Option<Task>>,
      next: Option<Task>)
    requires Recalls(b, zones, accepted)
    requires Effective(Saved(c)) in {Effective(Saved(b)), Advance(next, Effective(Saved(b)))}
    ensures Recalls(c, zones, accepted + [next])
  {
    var kept :| Remain(accepted, kept) && Effective(Saved(b)) == CarryOut(zones, kept);
    var last := if Effective(Saved(c)) == Effective(Saved(b)) then None else next;
    assert (kept + [last])[..|kept|] == kept;
    assert Remain(accepted + [next], kept + [last]);
  }

  lemma StepRecalls(s: System, e: Event, c: Option<State>, zones: map<string, Payload>, accepted: seq<Option<Task>>)
    requires StateInvariant(s) && Enabled(s, e) && c in Step(s, e).states + Step(s, e).earlier
    requires forall b | b in s.states + s.earlier :: Recalls(b, zones, accepted)
    ensures Recalls(c, zones, accepted + [Acceptance(s, e)])
  {
    StatesCome(s, e);
    SoundFile(s);
    assert Comes(s, e, c);
    var b := if c in s.states + s.earlier then c else s.world.stateFile;
    assert b in s.states + s.earlier;
    RecallsNext(b, c, zones, accepted, Acceptance(s, e));
  }

  lemma RecalledNext(r: Run, w: nat, h: nat, i: nat, c: Option<State>, zones: map<string, Payload>)
    requires ValidRun(r) && w <= h < |r.events| && i == h + 1
    requires forall b | b in r.systems[h].states + r.systems[h].earlier :: Recalls(b, zones, r.accepted[w..h])
    requires c in r.systems[i].states + r.systems[i].earlier
    ensures Recalls(c, zones, r.accepted[w..i])
  {
    RunKeepsStates(r, h);
    assert StepOf(r, h);
    StepRecalls(r.systems[h], r.events[h], c, zones, r.accepted[w..h]);
    StretchSnoc(r.accepted, w, h, i);
  }

  lemma {:induction false} RequestsRecalled(r: Run, w: nat, i: nat, c: Option<State>)
    requires ValidRun(r) && w <= i < |r.systems| && Settled(r.systems[w])
    requires c in r.systems[i].states + r.systems[i].earlier
    ensures Recalls(c, EffectiveZones(r.systems[w]), r.accepted[w..i])
    decreases i
  {
    if i == w {
      assert Remain(r.accepted[w..i], []);
    } else {
      var h, zones := i - 1, EffectiveZones(r.systems[w]);
      forall b | b in r.systems[h].states + r.systems[h].earlier ensures Recalls(b, zones, r.accepted[w..h]) {
        RequestsRecalled(r, w, h, b);
      }
      RecalledNext(r, w, h, i, c, zones);
    }
  }

  /** On any run at all, whatever power losses undo: from an instant at which no power loss can
      change what the state file means, the effective zones are at every later instant those of then
      with requests accepted since carried out in order, each of them whole or not at all. */
  lemma RequestsKeptOrLost(r: Run, w: nat, i: nat) returns (kept: seq<Option<Task>>)
    requires ValidRun(r) && w <= i < |r.systems| && Settled(r.systems[w])
    ensures Remain(r.accepted[w..i], kept)
    ensures EffectiveZones(r.systems[i]) == CarryOut(EffectiveZones(r.systems[w]), kept)
  {
    var file := r.systems[i].world.stateFile;
    RunKeepsStates(r, i);
    SoundFile(r.systems[i]);
    RequestsRecalled(r, w, i, file);
    kept :| Remain(r.accepted[w..i], kept) && Effective(Saved(file)) == CarryOut(EffectiveZones(r.systems[w]), kept);
  }

  /** So it is at first, after a power loss, and after every state write that ended well. */
  lemma SettledAfter(s: System, e: Event)
    requires Enabled(s, e) && (e.PowerLoss? || (e.Effect? && NextOp(s).SaveState?))
    ensures Settled(Step(s, e))
  {
  }

  // ----- what an undone staging write takes back -----

  lemma EarlierNext(s: System, e: Event, c: Option<State>)
    requires Enabled(s, e) && c in Step(s, e).earlier
    ensures c in s.earlier || (c in s.states && Accepts(s, e))
  {
  }

  lemma {:induction false} EarlierAccepted(r: Run, i: nat, c: Option<State>) returns (k: nat)
    requires ValidRun(r) && i < |r.systems| && c in r.systems[i].earlier
    ensures k < i && r.accepted[k].Some? && c in r.systems[k].states
  {
    assert i > 0;
    k := i - 1;
    assert StepOf(r, k);
    EarlierNext(r.systems[k], r.events[k], c);
    if c in r.systems[k].earlier {
      k := EarlierAccepted(r, k, c);
    }
  }

  lemma UndoneIsEarlier(s: System, e: Event)
    requires Enabled(s, e) && Undoes(s, e)
    ensures e.state in s.earlier && Step(s, e).world.stateFile == e.state
  {
  }

  lemma FineMeansSame(w: World, states: set<Option<State>>, c: Option<State>)
    requires StatesFine(w, states) && c in states
    ensures Effective(Saved(c)) == Effective(Disk(w))
  {
    if c != w.stateFile {
      CommitMeansSame(c.value, Disk(w));
    }
  }

  lemma {:induction false} NothingMore(zones: map<string, Payload>, a: seq<Option<Task>>, k: nat)
    requires k <= |a| && forall l | k <= l < |a| :: a[l].None?
    ensures CarryOut(zones, a) == CarryOut(zones, a[..k])
    decreases |a|
  {
    if k < |a| {
      TakeTake(a, k, |a| - 1);
      NothingMore(zones, a[..|a| - 1], k);
    } else {
      assert a[..k] == a;
    }
  }

  lemma AcceptedChanges(r: Run, k: nat)
    requires ValidRun(r) && k < |r.events| && Lasting(r, k) && r.accepted[k].Some?
    ensures Advance(r.accepted[k], CarryOut(map[], r.accepted[..k])) != CarryOut(map[], r.accepted[..k])
  {
    RunInvariant(r, k);
    RunLinearizes(r, k);
    assert StepOf(r, k);
    AcceptanceChanges(r.systems[k], r.events[k]);
  }

  lemma CarryOutSnoc(zones: map<string, Payload>, a: seq<Option<Task>>, k: nat, next: nat)
    requires k < |a| && next == k + 1
    ensures CarryOut(zones, a[..next]) == Advance(a[k], CarryOut(zones, a[..k]))
  {
    TakeTake(a, k, next);
  }

  /** Going back to before an accepted request, if none has been accepted since, is a loss. */
  lemma LastIsLost(r: Run, k: nat, n: nat)
    requires ValidRun(r) && k < n <= |r.events| && Lasting(r, k) && r.accepted[k].Some?
    requires forall l | k < l < n :: r.accepted[l].None?
    ensures CarryOut(map[], r.accepted[..k]) != CarryOut(map[], r.accepted[..n])
  {
    var next := k + 1;
    AcceptedChanges(r, k);
    CarryOutSnoc(map[], r.accepted, k, next);
    TakeTake(r.accepted, next, n);
    NothingMore(map[], r.accepted[..n], next);
  }

  lemma UndoneGoesBack(r: Run, m: nat) returns (k: nat)
    requires ValidRun(r) && m < |r.events| && Lasting(r, m) && StepOf(r, m) && UndoneAt(r, m)
    ensures k < m && r.accepted[k].Some? && EffectiveZones(r.systems[m + 1]) == CarryOut(map[], r.accepted[..k])
  {
    var file := r.events[m].state;
    UndoneIsEarlier(r.systems[m], r.events[m]);
    k := EarlierAccepted(r, m, file);
    RunInvariant(r, k);
    FineMeansSame(r.systems[k].world, r.systems[k].states, file);
    RunLinearizes(r, k);
  }

  /** The condition is needed: the first power loss of a run that undoes a staging write takes the
      effective zones back to before an accepted request; if none has been accepted since, they are
      not those of the accepted requests. */
  lemma UndoneIsLost(r: Run, m: nat) returns (k: nat)
    requires ValidRun(r) && m < |r.events| && Lasting(r, m) && StepOf(r, m) && UndoneAt(r, m)
    ensures k < m && r.accepted[k].Some? && EffectiveZones(r.systems[m + 1]) == CarryOut(map[], r.accepted[..k])
    ensures (forall l | k < l <= m :: r.accepted[l].None?) ==>
              EffectiveZones(r.systems[m + 1]) != CarryOut(map[], r.accepted[..m + 1])
  {
    k := UndoneGoesBack(r, m);
    if forall l | k < l <= m :: r.accepted[l].None? {
      LastIsLost(r, k, m + 1);
    }
  }
}
