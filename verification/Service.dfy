/** The service as a concurrent system: request threads and the backup process contend for the
    mutation guard, and an error, a crash or a power loss can strike between any two effects. */
module Service {
  import opened Effects
  import opened Journal
  import opened Recovery
  import opened Saves
  import opened Script
  import opened Wrappers
  import opened Zones

  datatype FileLock = Free | ByService | ByBackup

  /** A call under the guard: the world it found, and how many effects of its script are done. */
  datatype Call = Call(task: Task, entry: World, done: nat)

  /** `memory` is the process's copy of the state, absent while the process is down.  The guard
      is two locks: the process's own, held by a thread, and the lock file shared with the
      backup.  `clean` tells whether the last call under the guard ran to its end.

      A file that was being replaced when the process was killed may come back as it was.
      `includes` and `states` are the contents that a power loss can leave in the include and in
      the state file: that of the last write that ended well, and those of later writes that were
      cut short.  Of the latter, `earlier` are those from before a staging write. */
  datatype System = System(
    world: World,
    includes: set<seq<string>>,
    states: set<Option<State>>,
    earlier: set<Option<State>>,
    memory: Option<State>,
    threadLock: Option<nat>,
    fileLock: FileLock,
    call: Option<Call>,
    clean: bool)

  /** A crash ends the process; a power loss ends the backup too, and leaves files as they happen
      to be on disk: the state file and the include with one of their possible contents, zone
      files with anything. */
  datatype Event =
    | Start
    | TakeThreadLock(thread: nat)
    | LockFileFails(thread: nat)
    | Enter(thread: nat, task: Task)
    | Effect
    | Return
    | Raise(applied: bool, aborted: bool)
    | Crash(struck: bool)
    | PowerLoss(struck: bool, state: Option<State>, config: seq<string>, files: map<string, Content>)
    | BackupBegins
    | BackupEnds

  ghost function ScriptOfCall(c: Call): seq<Op> {
    ScriptOf(c.task, Disk(c.entry))
  }

  ghost predicate Working(s: System) {
    s.call.Some? && s.call.value.done < |ScriptOfCall(s.call.value)|
  }

  ghost function NextOp(s: System): Op
    requires Working(s)
  {
    ScriptOfCall(s.call.value)[s.call.value.done]
  }

  /** The world when the coming effect is cut short, having struck or not. */
  ghost function Cut(s: System, struck: bool): World
    requires struck ==> Working(s)
  {
    if struck then Exec(s.world, NextOp(s)) else s.world
  }

  ghost function IncludesAfterCut(s: System, struck: bool): set<seq<string>>
    requires struck ==> Working(s)
  {
    if struck && NextOp(s).WriteInclude? then s.includes + {NextOp(s).lines} else s.includes
  }

  /** The coming effect is the staging write of the request. */
  ghost predicate AtStaging(s: System)
    requires Working(s)
  {
    s.call.value.done == |OpeningOps(s.call.value.task, Disk(s.call.value.entry))|
  }

  /** The state file's possible contents after that, none of them from before a staging write. */
  ghost function StatesAfterCut(s: System, struck: bool): set<Option<State>>
    requires struck ==> Working(s)
  {
    if !struck || !NextOp(s).SaveState? then s.states
    else if AtStaging(s) then {Some(NextOp(s).state)}
    else s.states + {Some(NextOp(s).state)}
  }

  ghost function EarlierAfterCut(s: System, struck: bool): set<Option<State>>
    requires struck ==> Working(s)
  {
    if struck && NextOp(s).SaveState? && AtStaging(s) then s.earlier + s.states else s.earlier
  }

  ghost predicate Enabled(s: System, e: Event) {
    match e
    case Start => s.memory.None? && s.threadLock.None? && s.fileLock.Free?
    case TakeThreadLock(_) => s.memory.Some? && s.threadLock.None?
    case LockFileFails(thread) => s.threadLock == Some(thread) && s.call.None?
    case Enter(thread, task) =>
      s.memory.Some? && s.threadLock == Some(thread) && s.fileLock.Free? && Admissible(task) && !task.Boot?
    case Effect => Working(s)
    case Return => s.call.Some? && !Working(s)
    case Raise(applied, aborted) =>
      Working(s) && (applied ==> !NextOp(s).SaveState?) && (aborted ==> InTransaction(NextOp(s)))
    case Crash(struck) => s.memory.Some? && (struck ==> Working(s))
    case PowerLoss(struck, state, config, _) =>
      && (struck ==> Working(s))
      && (if struck && NextOp(s).SaveState? then state == Some(NextOp(s).state) else state in s.states + s.earlier)
      && config in IncludesAfterCut(s, struck)
    case BackupBegins => s.fileLock.Free?
    case BackupEnds => s.fileLock.ByBackup?
  }

  ghost function Step(s: System, e: Event): System
    requires Enabled(s, e)
  {
    match e
    case Start =>
      s.(memory := Some(Disk(s.world)), threadLock := Some(0), fileLock := ByService,
         call := Some(Call(Boot, s.world, 0)), clean := false)
    case TakeThreadLock(thread) => s.(threadLock := Some(thread))
    case LockFileFails(_) => s.(threadLock := None)
    case Enter(_, task) => s.(fileLock := ByService, call := Some(Call(task, s.world, 0)))
    case Effect =>
      var op, c := NextOp(s), s.call.value;
      s.(world := Exec(s.world, op),
         includes := if op.WriteInclude? then {op.lines} else s.includes,
         states := if op.SaveState? then {Some(op.state)} else s.states,
         earlier := if op.SaveState? then {} else s.earlier,
         memory := if op.SaveState? then Some(op.state) else s.memory,
         call := Some(c.(done := c.done + 1)))
    case Return => s.(threadLock := None, fileLock := Free, call := None, clean := true)
    case Raise(applied, aborted) =>
      var struck := Cut(s, applied);
      System(if aborted then Exec(struck, Abort(NextOp(s).zone)) else struck,
             IncludesAfterCut(s, applied), s.states, s.earlier,
             if s.call.value.task.Boot? then None else s.memory, None, Free, None, false)
    case Crash(struck) =>
      System(Cut(s, struck), IncludesAfterCut(s, struck), StatesAfterCut(s, struck), EarlierAfterCut(s, struck),
             None, None, if s.fileLock.ByBackup? then ByBackup else Free, None, false)
    case PowerLoss(struck, state, config, files) =>
      System(Cut(s, struck).(stateFile := state, config := config, zoneFiles := files), {config}, {state}, {},
             None, None, Free, None, false)
    case BackupBegins => s.(fileLock := ByBackup)
    case BackupEnds => s.(fileLock := Free)
  }

  /** The power loss brings back the state file from before a staging write whose process was
      killed, and which no state write that ended well has followed. */
  ghost predicate Undoes(s: System, e: Event)
    requires Enabled(s, e)
  {
    e.PowerLoss? && e.state !in StatesAfterCut(s, e.struck)
  }

  /** Before the first start: no state file, no customer zone in the include or in Knot. */
  ghost predicate Initial(s: System) {
    && s.world.stateFile.None? && IncludedZones(s.world.config) == {} && s.includes == {s.world.config}
    && s.states == {None} && s.earlier == {}
    && s.world.knot.served == map[] && s.world.knot.residue == {}
    && s.memory.None? && s.threadLock.None? && s.fileLock.Free? && s.call.None? && !s.clean
  }

  ghost predicate CallInvariant(s: System, c: Call) {
    && Durable(c.entry) && Admissible(c.task)
    && c.done <= |ScriptOfCall(c)|
    && s.world == At(c.entry, ScriptOfCall(c), c.done)
    && (ListsUpTo(ScriptOfCall(c), c.done) ==> s.includes == {s.world.config})
  }

  /** Whatever a power loss leaves of the include lists the committed zones once nothing is pending. */
  ghost predicate IncludesFine(w: World, includes: set<seq<string>>) {
    && w.config in includes
    && (Disk(w).pending == map[] ==> forall c | c in includes :: IncludedZones(c) == Disk(w).zones.Keys)
  }

  /** Whatever a power loss leaves of the state file, short of undoing a staging write, is what the
      file holds or that with its last commit undone. */
  ghost predicate StatesFine(w: World, states: set<Option<State>>) {
    && w.stateFile in states
    && forall c | c in states && c != w.stateFile :: c.Some? && Sound(c.value) && IsCommit(c.value, Disk(w))
  }

  ghost predicate Invariant(s: System) {
    && Durable(s.world) && IncludesFine(s.world, s.includes) && StatesFine(s.world, s.states)
    && (s.memory.Some? ==> s.memory.value == Disk(s.world))
    && (s.call.Some? ==> CallInvariant(s, s.call.value) && s.memory.Some? && s.threadLock.Some?)
    && (s.call.Some? <==> s.fileLock.ByService?)
    && (s.threadLock.Some? ==> s.memory.Some?)
    && (s.call.None? && s.clean ==> Converged(s.world, Effective(Disk(s.world))))
  }

  ghost function EffectiveZones(s: System): map<string, Payload> {
    Effective(Disk(s.world))
  }

  /** The event performs the coming effect, if there is one, or is cut short after it. */
  predicate Strikes(e: Event) {
    e.Effect? || (e.Crash? && e.struck) || (e.PowerLoss? && e.struck)
  }

  /** The event performs the staging write of an accepted request. */
  ghost predicate Accepts(s: System, e: Event) {
    Strikes(e) && Working(s) && AtStaging(s)
  }

  lemma InitialInvariant(s: System)
    requires Initial(s)
    ensures Invariant(s)
  {
  }

  /** What the linearisation of the running script says of the present and the next world. */
  lemma CallAt(s: System)
    requires Invariant(s) && Working(s)
    ensures var c, op := s.call.value, NextOp(s);
            var n, e0 := |OpeningOps(c.task, Disk(c.entry))|, Effective(Disk(c.entry));
            && At(c.entry, ScriptOfCall(c), c.done + 1) == Exec(s.world, op) && Durable(Exec(s.world, op))
            && Unmixed(s.world, op)
            && EffectiveZones(s) == (if c.done <= n then e0 else Target(c.task, e0))
            && Effective(Disk(Exec(s.world, op))) == (if c.done < n then e0 else Target(c.task, e0))
  {
    var c := s.call.value;
    var e0 := Effective(Disk(c.entry));
    ScriptIsLinear(c.entry, c.task);
    LinearStep(c.entry, ScriptOfCall(c), |OpeningOps(c.task, Disk(c.entry))|, e0, Target(c.task, e0), c.done);
  }

  lemma MemoryFollows(w: World, op: Op, memory: State)
    requires memory == Disk(w)
    ensures Disk(Exec(w, op)) == if op.SaveState? then op.state else memory
  {
  }

  /** A state write that empties the journal finds the include settled. */
  lemma CommitFindsListed(s: System)
    requires Invariant(s) && Working(s) && NextOp(s).SaveState? && NextOp(s).state.pending == map[]
    ensures s.includes == {s.world.config}
  {
    var c := s.call.value;
    ScriptListed(c.task, Disk(c.entry));
    assert CommitsListed(ScriptOfCall(c), c.done);
  }

  lemma CutIncludes(w: World, op: Op, includes: set<seq<string>>)
    requires IncludesFine(w, includes) && Durable(Exec(w, op))
    requires op.SaveState? && op.state.pending == map[] ==> includes == {w.config}
    ensures IncludesFine(Exec(w, op), if op.WriteInclude? then includes + {op.lines} else includes)
  {
  }

  /** A commit that is cut short may be undone; what might be undone before it no longer is. */
  lemma CommitStates(w: World, states: set<Option<State>>, state: State)
    requires Durable(w) && StatesFine(w, states) && IsCommit(Disk(w), state)
    ensures StatesFine(Exec(w, SaveState(state)), states + {Some(state)})
  {
    forall c | c in states ensures c == Some(Disk(w)) {
      if c != w.stateFile {
        CommitMeansSame(c.value, Disk(w));
      }
    }
  }

  lemma CallCommits(s: System)
    requires Invariant(s) && Working(s) && NextOp(s).SaveState? && !AtStaging(s)
    ensures IsCommit(Disk(s.world), NextOp(s).state)
  {
    var c := s.call.value;
    ScriptCommits(c.task, Disk(c.entry), c.done);
    DiskAfter(c.entry, ScriptOfCall(c)[..c.done]);
    assert CommitAt(Disk(c.entry), ScriptOfCall(c), c.done);
  }

  lemma StatesAlike(w: World, v: World, states: set<Option<State>>)
    requires StatesFine(w, states) && v.stateFile == w.stateFile
    ensures StatesFine(v, states)
  {
  }

  lemma SaveCutStates(s: System)
    requires Invariant(s) && Working(s) && NextOp(s).SaveState?
    ensures StatesFine(Exec(s.world, NextOp(s)), StatesAfterCut(s, true))
  {
    if !AtStaging(s) {
      CallCommits(s);
      CommitStates(s.world, s.states, NextOp(s).state);
    }
  }

  lemma StruckFile(w: World, op: Op)
    ensures Exec(w, op).stateFile == if op.SaveState? then Some(op.state) else w.stateFile
  {
  }

  lemma CutStates(s: System, struck: bool)
    requires Invariant(s) && (struck ==> Working(s))
    ensures StatesFine(Cut(s, struck), StatesAfterCut(s, struck))
  {
    if struck && NextOp(s).SaveState? {
      SaveCutStates(s);
    } else {
      if struck {
        StruckFile(s.world, NextOp(s));
      }
      StatesAlike(s.world, Cut(s, struck), s.states);
    }
  }

  /** An effect that is cut short leaves the stores durable, and files with contents that recovery
      can start from. */
  lemma CutKeeps(s: System, struck: bool)
    requires Invariant(s) && (struck ==> Working(s))
    ensures Durable(Cut(s, struck)) && IncludesFine(Cut(s, struck), IncludesAfterCut(s, struck))
    ensures StatesFine(Cut(s, struck), StatesAfterCut(s, struck))
  {
    CutStates(s, struck);
    if struck {
      CallAt(s);
      if NextOp(s).SaveState? && NextOp(s).state.pending == map[] {
        CommitFindsListed(s);
      }
      CutIncludes(s.world, NextOp(s), s.includes);
    }
  }

  /** Undoing a commit does no harm: the stores stay durable and mean the same zones. */
  lemma RevertKeeps(w: World, state: State)
    requires Durable(w) && Sound(state) && IsCommit(state, Disk(w))
    ensures var v := w.(stateFile := Some(state)); Durable(v) && Effective(Disk(v)) == Effective(Disk(w))
  {
    var v := w.(stateFile := Some(state));
    CommitMeansSame(state, Disk(w));
    forall z ensures Consistent(v, z) {
      assert Consistent(w, z);
    }
  }

  /** Nor does what a power loss leaves of the include and the zone files. */
  lemma LossKeeps(w: World, config: seq<string>, files: map<string, Content>)
    requires Durable(w) && (Disk(w).pending == map[] ==> IncludedZones(config) == Disk(w).zones.Keys)
    ensures var v := w.(config := config, zoneFiles := files);
            Durable(v) && IncludesFine(v, {config}) && Disk(v) == Disk(w)
  {
    var v := w.(config := config, zoneFiles := files);
    forall z ensures Consistent(v, z) {
      assert Consistent(w, z);
    }
  }

  lemma ListsNext(ops: seq<Op>, k: nat)
    requires k < |ops|
    ensures ListsUpTo(ops, k + 1) <==> ListsUpTo(ops, k) || ops[k].WriteInclude?
  {
  }

  lemma EffectIncludes(s: System)
    requires Invariant(s) && Enabled(s, Effect)
    ensures var t := Step(s, Effect);
            && IncludesFine(t.world, t.includes) && StatesFine(t.world, t.states)
            && (ListsUpTo(ScriptOfCall(t.call.value), t.call.value.done) ==> t.includes == {t.world.config})
  {
    CallAt(s);
    CutKeeps(s, true);
    ListsNext(ScriptOfCall(s.call.value), s.call.value.done);
  }

  lemma EffectKeeps(s: System)
    requires Invariant(s) && Enabled(s, Effect)
    ensures Invariant(Step(s, Effect))
  {
    CallAt(s);
    EffectIncludes(s);
    MemoryFollows(s.world, NextOp(s), s.memory.value);
  }

  /** A call that runs to its end leaves the stores converged on what it was asked for. */
  lemma ReturnConverges(s: System)
    requires Invariant(s) && Enabled(s, Return)
    ensures Converged(s.world, EffectiveZones(s))
    ensures EffectiveZones(s) == Target(s.call.value.task, Effective(Disk(s.call.value.entry)))
  {
    var c := s.call.value;
    assert ScriptOfCall(c)[..c.done] == ScriptOfCall(c);
    ScriptConverges(c.entry, c.task);
    EffectiveOfCommitted(Disk(s.world));
  }

  lemma ReturnKeeps(s: System)
    requires Invariant(s) && Enabled(s, Return)
    ensures Invariant(Step(s, Return))
  {
    ReturnConverges(s);
  }

  lemma AbortKeeps(w: World, zone: string, includes: set<seq<string>>)
    requires Durable(w) && IncludesFine(w, includes)
    ensures var v := Exec(w, Abort(zone)); Durable(v) && IncludesFine(v, includes) && Disk(v) == Disk(w)
  {
    QuietKeeps(w, Abort(zone));
  }

  lemma RaiseCut(s: System, applied: bool)
    requires Invariant(s) && (applied ==> Working(s) && !NextOp(s).SaveState?)
    ensures Durable(Cut(s, applied)) && IncludesFine(Cut(s, applied), IncludesAfterCut(s, applied))
    ensures Disk(Cut(s, applied)) == Disk(s.world) && StatesFine(Cut(s, applied), s.states)
  {
    CutKeeps(s, applied);
    if applied {
      StruckFile(s.world, NextOp(s));
    }
  }

  lemma AbortLeaves(w: World, zone: string, includes: set<seq<string>>, states: set<Option<State>>)
    requires Durable(w) && IncludesFine(w, includes) && StatesFine(w, states)
    ensures var v := Exec(w, Abort(zone));
            Durable(v) && IncludesFine(v, includes) && StatesFine(v, states) && Disk(v) == Disk(w)
  {
    AbortKeeps(w, zone, includes);
    StatesAlike(w, Exec(w, Abort(zone)), states);
  }

  lemma RaiseLeaves(s: System, applied: bool, aborted: bool)
    requires Invariant(s) && Enabled(s, Raise(applied, aborted))
    ensures var t := Step(s, Raise(applied, aborted));
            && Durable(t.world) && IncludesFine(t.world, t.includes) && StatesFine(t.world, t.states)
            && Disk(t.world) == Disk(s.world)
  {
    RaiseCut(s, applied);
    if aborted {
      AbortLeaves(Cut(s, applied), NextOp(s).zone, IncludesAfterCut(s, applied), s.states);
    }
  }

  lemma RaiseKeeps(s: System, applied: bool, aborted: bool)
    requires Invariant(s) && Enabled(s, Raise(applied, aborted))
    ensures Invariant(Step(s, Raise(applied, aborted)))
    ensures Disk(Step(s, Raise(applied, aborted)).world) == Disk(s.world)
  {
    RaiseLeaves(s, applied, aborted);
  }

  lemma CrashKeeps(s: System, struck: bool)
    requires Invariant(s) && Enabled(s, Crash(struck))
    ensures Invariant(Step(s, Crash(struck)))
  {
    CutKeeps(s, struck);
  }

  /** The state file as a power loss leaves it, if no staging write is undone. */
  lemma StateLossKeeps(w: World, states: set<Option<State>>, state: Option<State>)
    requires Durable(w) && StatesFine(w, states) && state in states
    ensures var v := w.(stateFile := state);
            && Durable(v) && Effective(Disk(v)) == Effective(Disk(w))
            && (Disk(v).pending == map[] ==> Disk(v) == Disk(w))
  {
    if state != w.stateFile {
      RevertKeeps(w, state.value);
      CommitMeansSame(state.value, Disk(w));
    }
  }

  /** A power loss that undoes no staging write leaves a world that recovery can start from, and
      that means the same zones, even if it undoes a commit. */
  lemma PowerLossKeeps(s: System, e: Event)
    requires Invariant(s) && Enabled(s, e) && e.PowerLoss? && !Undoes(s, e)
    ensures Invariant(Step(s, e))
    ensures EffectiveZones(Step(s, e)) == Effective(Disk(Cut(s, e.struck)))
  {
    var w := Cut(s, e.struck);
    CutKeeps(s, e.struck);
    StateLossKeeps(w, StatesAfterCut(s, e.struck), e.state);
    LossKeeps(w.(stateFile := e.state), e.config, e.files);
  }

  lemma EnterKeeps(s: System, e: Event)
    requires Invariant(s) && Enabled(s, e) && (e.Start? || e.Enter?)
    ensures Invariant(Step(s, e))
  {
    var c := Step(s, e).call.value;
    assert ScriptOfCall(c)[..0] == [];
  }

  /** The invariant is kept by every step, request, effect, error, crash, restart, backup or power
      loss, unless it undoes a staging write. */
  lemma StepKeepsInvariant(s: System, e: Event)
    requires Invariant(s) && Enabled(s, e) && !Undoes(s, e)
    ensures Invariant(Step(s, e))
  {
    match e
    case Effect => EffectKeeps(s);
    case Return => ReturnKeeps(s);
    case Raise(applied, aborted) => RaiseKeeps(s, applied, aborted);
    case Crash(struck) => CrashKeeps(s, struck);
    case PowerLoss(_, _, _, _) => PowerLossKeeps(s, e);
    case Start => EnterKeeps(s, e);
    case Enter(_, _) => EnterKeeps(s, e);
    case _ =>
  }

  lemma CutLinearizes(s: System, struck: bool)
    requires Invariant(s) && (struck ==> Working(s))
    ensures Effective(Disk(Cut(s, struck)))
            == if struck && AtStaging(s) then Target(s.call.value.task, EffectiveZones(s)) else EffectiveZones(s)
  {
    if struck {
      CallAt(s);
    }
  }

  /** The event does to the effective zones what the specification says. */
  ghost predicate Linearizes(s: System, e: Event)
    requires Enabled(s, e)
  {
    EffectiveZones(Step(s, e))
    == if Accepts(s, e) then Target(s.call.value.task, EffectiveZones(s)) else EffectiveZones(s)
  }

  lemma CutEventLinearizes(s: System, e: Event)
    requires Invariant(s) && Enabled(s, e) && (e.Effect? || e.Crash?)
    ensures Linearizes(s, e)
  {
    CutLinearizes(s, e.Effect? || e.struck);
  }

  lemma LossLinearizes(s: System, e: Event)
    requires Invariant(s) && Enabled(s, e) && e.PowerLoss? && !Undoes(s, e)
    ensures Linearizes(s, e)
  {
    PowerLossKeeps(s, e);
    CutLinearizes(s, e.struck);
  }

  lemma RaiseLinearizes(s: System, e: Event)
    requires Invariant(s) && Enabled(s, e) && e.Raise?
    ensures Linearizes(s, e)
  {
    RaiseLeaves(s, e.applied, e.aborted);
    assert !Accepts(s, e);
  }

  lemma StandsStill(s: System, e: Event)
    requires Enabled(s, e) && !e.Effect? && !e.Crash? && !e.PowerLoss? && !e.Raise?
    ensures Step(s, e).world == s.world && Linearizes(s, e)
  {
  }

  /** Linearisation: only the staging write of an accepted request changes the effective zones,
      and it changes them exactly as the sequential specification says. */
  lemma StepLinearizes(s: System, e: Event)
    requires Invariant(s) && Enabled(s, e) && !Undoes(s, e)
    ensures EffectiveZones(Step(s, e))
            == if Accepts(s, e) then Target(s.call.value.task, EffectiveZones(s)) else EffectiveZones(s)
  {
    if e.Effect? || e.Crash? {
      CutEventLinearizes(s, e);
    } else if e.PowerLoss? {
      LossLinearizes(s, e);
    } else if e.Raise? {
      RaiseLinearizes(s, e);
    } else {
      StandsStill(s, e);
    }
  }

  /** Calls run only under the lock file, whatever happens. */
  lemma StepKeepsLock(s: System, e: Event)
    requires (s.call.Some? <==> s.fileLock.ByService?) && Enabled(s, e)
    ensures Step(s, e).call.Some? <==> Step(s, e).fileLock.ByService?
  {
  }

  lemma StillUnderBackup(s: System, e: Event)
    requires Enabled(s, e) && s.call.None? && s.fileLock.ByBackup? && !e.PowerLoss?
    ensures Step(s, e).world == s.world
  {
  }

  /** A refused request is never accepted: no step of its call changes the effective zones, though
      it may replay a pending transition. */
  lemma RefusedCallKeepsZones(s: System, e: Event, zone: string, p: Payload)
    requires Invariant(s) && Enabled(s, e) && !Undoes(s, e)
    requires s.call.Some? && s.call.value.task == Apply(zone, p)
    requires !Granted(Effective(Disk(s.call.value.entry)), zone, p)
    ensures EffectiveZones(Step(s, e)) == EffectiveZones(s)
  {
    StepLinearizes(s, e);
    StagesIff(s.call.value.task, Disk(s.call.value.entry));
    assert ScriptOfCall(s.call.value) == OpeningOps(s.call.value.task, Disk(s.call.value.entry));
  }

  /** A request is accepted only if it changes something: a repeated or refused one is not. */
  lemma AcceptanceIsNew(s: System, e: Event, zone: string, p: Payload)
    requires Invariant(s) && Enabled(s, e) && Accepts(s, e) && s.call.value.task == Apply(zone, p)
    ensures zone in EffectiveZones(s) ==> p.revision > EffectiveZones(s)[zone].revision
  {
    var c := s.call.value;
    CallAt(s);
    StagingAt(c.task, Disk(c.entry));
    StagesIff(c.task, Disk(c.entry));
  }

  lemma TargetChanges(task: Task, s: State)
    requires Staged(task, s).Some?
    ensures Target(task, Effective(s)) != Effective(s)
  {
    StagesIff(task, s);
    match task
    case Apply(zone, p) => assert Lookup(Effective(s), zone) != Some(p);
    case Remove(zone) => assert zone in Effective(s);
  }

  /** Every acceptance changes the effective zones. */
  lemma AcceptanceChanges(s: System, e: Event)
    requires Invariant(s) && Enabled(s, e) && Accepts(s, e)
    ensures Target(s.call.value.task, EffectiveZones(s)) != EffectiveZones(s)
  {
    var c := s.call.value;
    CallAt(s);
    StagingAt(c.task, Disk(c.entry));
    TargetChanges(c.task, Disk(c.entry));
  }

  /** A request is accepted only when nothing is pending. */
  lemma AcceptsOnlyWhenQuiescent(s: System, e: Event)
    requires Invariant(s) && Enabled(s, e) && Accepts(s, e)
    ensures Disk(s.world).pending == map[]
  {
    var c := s.call.value;
    OpeningIsSafe(c.entry, c.task);
    assert ScriptOfCall(c)[..c.done] == OpeningOps(c.task, Disk(c.entry));
  }

  /** From the world to the next, no incarnations are mixed. */
  ghost predicate NeverMixes(w: World, v: World, zone: string) {
    && (zone !in w.knot.served && zone in v.knot.served ==>
          && zone !in w.knot.residue && zone in Effective(Disk(w))
          && v.knot.served[zone] == ContentOf(Effective(Disk(w))[zone]))
    && (PendingDelete(Disk(w), zone) && !PendingDelete(Disk(v), zone) ==> Gone(w, zone))
  }

  lemma JournalGrowsAt(s: System, struck: bool, zone: string)
    requires Invariant(s) && (struck ==> Working(s))
    requires zone !in Disk(s.world).pending && zone in Disk(Cut(s, struck)).pending
    ensures struck && AtStaging(s) && Requests(s.call.value.task, zone)
  {
    if struck {
      MemoryFollows(s.world, NextOp(s), Disk(s.world));
      JournalGrowsAtStaging(s.call.value.task, Disk(s.call.value.entry), s.call.value.done, zone);
    }
  }

  /** Only the acceptance of a request on a zone makes a transition of it pending, unless a power
      loss brings one back. */
  lemma StepStagesOnly(s: System, e: Event, zone: string)
    requires Invariant(s) && Enabled(s, e)
    requires zone !in Disk(s.world).pending && zone in Disk(Step(s, e).world).pending
    ensures (Accepts(s, e) && Requests(s.call.value.task, zone)) || e.PowerLoss?
  {
    match e
    case Effect => JournalGrowsAt(s, true, zone);
    case Crash(struck) => JournalGrowsAt(s, struck, zone);
    case Raise(applied, aborted) => RaiseKeeps(s, applied, aborted);
    case _ =>
  }

  /** What one effect can do to the incarnations of a zone. */
  lemma EffectNeverMixes(w: World, op: Op, zone: string)
    requires Durable(w) && Unmixed(w, op)
    ensures NeverMixes(w, Exec(w, op), zone)
  {
  }

  lemma AbortChangesOnlyOpen(w: World, zone: string)
    ensures var v := Exec(w, Abort(zone));
            v.knot.served == w.knot.served && v.knot.residue == w.knot.residue && Disk(v) == Disk(w)
  {
  }

  lemma CutNeverMixes(s: System, struck: bool, zone: string)
    requires Invariant(s) && (struck ==> Working(s))
    ensures NeverMixes(s.world, Cut(s, struck), zone)
  {
    if struck {
      CallAt(s);
      EffectNeverMixes(s.world, NextOp(s), zone);
    }
  }

  lemma RevertNeverMixes(w: World, v: World, states: set<Option<State>>, zone: string)
    requires StatesFine(w, states) && v.stateFile in states && v.knot == w.knot
    ensures PendingDelete(Disk(w), zone) ==> PendingDelete(Disk(v), zone)
  {
    if v.stateFile != w.stateFile {
      CommitMeansSame(v.stateFile.value, Disk(w));
    }
  }

  lemma LossNeverMixes(s: System, e: Event, zone: string)
    requires Invariant(s) && Enabled(s, e) && e.PowerLoss? && !Undoes(s, e)
    ensures NeverMixes(s.world, Step(s, e).world, zone)
  {
    CutKeeps(s, e.struck);
    CutNeverMixes(s, e.struck, zone);
    RevertNeverMixes(Cut(s, e.struck), Step(s, e).world, StatesAfterCut(s, e.struck), zone);
  }

  /** No mixing of incarnations: a zone that becomes served leaves behind no material of an
      earlier incarnation and has the intended content; and a pending deletion leaves the journal
      only when Knot and the zone directory keep nothing of the zone. */
  lemma StepNeverMixes(s: System, e: Event, zone: string)
    requires Invariant(s) && Enabled(s, e) && !Undoes(s, e)
    ensures NeverMixes(s.world, Step(s, e).world, zone)
  {
    match e
    case Effect =>
      CallAt(s);
      EffectNeverMixes(s.world, NextOp(s), zone);
    case Crash(struck) => CutNeverMixes(s, struck, zone);
    case PowerLoss(_, _, _, _) => LossNeverMixes(s, e, zone);
    case Raise(applied, aborted) =>
      CutNeverMixes(s, applied, zone);
      if aborted {
        AbortChangesOnlyOpen(Cut(s, applied), NextOp(s).zone);
      }
    case _ =>
  }
}
