/** A run on which a power loss takes an accepted request back, and what is wrong from then on. */
module LostRequest {
  import opened Attempts
  import opened Effects
  import opened Journal
  import opened Recovery
  import opened Refinement
  import opened Runs
  import opened Saves
  import opened Script
  import opened Service
  import opened Text
  import opened Wrappers
  import opened Zones

  /** The process is up and nothing holds the guard. */
  ghost predicate Idle(s: System) {
    s.memory.Some? && s.threadLock.None? && s.fileLock.Free? && s.call.None?
  }

  /** The process is down and nothing holds the guard. */
  ghost predicate Down(s: System) {
    s.memory.None? && s.threadLock.None? && s.fileLock.Free? && s.call.None?
  }

  /** The state that the creation of one zone stages in an empty store. */
  function Fresh(zone: string, p: Payload): State {
    StageUpsert(EMPTY, zone, p)
  }

  lemma {:induction false} NoSaveFile(w: World, ops: seq<Op>)
    requires NoSave(ops)
    ensures ExecAll(w, ops).stateFile == w.stateFile
  {
    if ops != [] {
      NoSaveFile(w, ops[..|ops| - 1]);
    }
  }

  lemma NothingToReplay(s: State)
    requires s.pending == map[]
    ensures RecoverAllOps(s) == []
  {
    assert SortNames(s.pending.Keys) == [];
  }

  /** The restart from an empty or missing state file writes the include and is done. */
  lemma EmptyBoot(w: World)
    requires w.stateFile.None?
    ensures var script := ScriptOf(Boot, Disk(w));
            && ExecAll(w, script).stateFile.None? && ExecAll(w, script).knot == w.knot
  {
    NothingToReplay(EMPTY);
    var list := WriteInclude(IncludeOf(EMPTY));
    assert ScriptOf(Boot, Disk(w)) == [list];
    ExecSnoc(w, [], list);
    assert [] + [list] == [list];
  }

  lemma Suffix<T>(a: seq<T>, first: T, b: seq<T>)
    ensures var all := a + ([first] + b); all[|a|] == first && all[|a| + 1..] == b
  {
  }

  /** One start that runs to its end. */
  lemma StartsUp(r: Run) returns (q: Run)
    requires ValidRun(r) && Down(Last(r)) && Last(r).world.stateFile.None?
    ensures ValidRun(q) && Continues(r, q) && (LastingRun(r) ==> LastingRun(q))
    ensures var n := |r.events|; n < |q.events| && q.events[n] == Start && CallEvents(q.events[n + 1..], Done)
    ensures Idle(Last(q)) && Last(q).world.stateFile.None? && Last(q).world.knot == Last(r).world.knot
  {
    var s := Last(r);
    FollowOne(s, Start);
    BegunBy(s, Start);
    var script := ScriptOf(Boot, Disk(s.world));
    DoneFollows(Step(s, Start), Boot);
    DoneEvents(|script|);
    var events := EffectEvents(|script|) + [Return];
    FirstCallEvents(Start, events, Done);
    FollowAppend(s, [Start], events);
    q := Extend(r, [Start] + events);
    Suffix(r.events, Start, events);
    EmptyBoot(s.world);
  }

  // ----- the staging write, killed after its rename -----

  lemma CreationScript(zone: string, p: Payload)
    ensures var task := Apply(zone, p); var n := |OpeningOps(task, EMPTY)|;
            && NoSave(OpeningOps(task, EMPTY)) && n < |ScriptOf(task, EMPTY)|
            && ScriptOf(task, EMPTY)[..n] == OpeningOps(task, EMPTY)
            && ScriptOf(task, EMPTY)[n] == SaveState(Fresh(zone, p))
  {
    NothingToReplay(EMPTY);
    EffectiveOfCommitted(EMPTY);
    assert Staged(Apply(zone, p), EMPTY) == Some(Fresh(zone, p));
    StagingAt(Apply(zone, p), EMPTY);
  }

  /** The request is accepted, and its state write is the last thing the process does; whether the
      new file lasts is not known. */
  ghost predicate AtRisk(s: System, staged: State) {
    s.world.stateFile == Some(staged) && s.states == {Some(staged)} && None in s.earlier
  }

  ghost predicate BeforeStaging(s: System, staged: State) {
    && Working(s) && s.memory.Some? && s.fileLock.ByService? && AtStaging(s) && None in s.states
    && NextOp(s) == SaveState(staged)
  }

  lemma CrashLeaves(s: System)
    requires Enabled(s, Crash(true)) && !s.fileLock.ByBackup?
    ensures Step(s, Crash(true)).world == Exec(s.world, NextOp(s)) && Down(Step(s, Crash(true)))
    ensures Step(s, Crash(true)).states == StatesAfterCut(s, true)
    ensures Step(s, Crash(true)).earlier == EarlierAfterCut(s, true)
  {
  }

  lemma StagingCut(s: System, staged: State)
    requires BeforeStaging(s, staged)
    ensures StatesAfterCut(s, true) == {Some(staged)} && None in EarlierAfterCut(s, true)
    ensures Exec(s.world, NextOp(s)).stateFile == Some(staged)
  {
    StruckFile(s.world, NextOp(s));
  }

  lemma KilledStaging(s: System, staged: State)
    requires BeforeStaging(s, staged)
    ensures AtRisk(Step(s, Crash(true)), staged) && Down(Step(s, Crash(true)))
  {
    CrashLeaves(s);
    StagingCut(s, staged);
  }

  lemma StagingComes(s: System, zone: string, p: Payload)
    requires Begun(s, Apply(zone, p)) && s.world.stateFile.None? && None in s.states
    ensures var events := EffectEvents(|OpeningOps(Apply(zone, p), EMPTY)|);
            CanFollow(s, events) && BeforeStaging(After(s, events), Fresh(zone, p))
  {
    CreationScript(zone, p);
    EffectsFollow(s, |OpeningOps(Apply(zone, p), EMPTY)|);
  }

  /** From taking the locks to the staging write. */
  ghost function CreationEvents(zone: string, p: Payload): seq<Event> {
    [TakeThreadLock(0)] + [Enter(0, Apply(zone, p))] + EffectEvents(|OpeningOps(Apply(zone, p), EMPTY)|)
  }

  lemma ReachesStaging(s: System, zone: string, p: Payload)
    requires Idle(s) && s.world.stateFile.None? && None in s.states && Managed(p)
    ensures CanFollow(s, CreationEvents(zone, p))
    ensures BeforeStaging(After(s, CreationEvents(zone, p)), Fresh(zone, p))
  {
    var take, enter, n := TakeThreadLock(0), Enter(0, Apply(zone, p)), |OpeningOps(Apply(zone, p), EMPTY)|;
    CreationScript(zone, p);
    FollowOne(s, take);
    BegunBy(Step(s, take), enter);
    FollowSnoc(s, [take], enter);
    StagingComes(Step(Step(s, take), enter), zone, p);
    FollowAppend(s, [take] + [enter], EffectEvents(n));
  }

  lemma KillsStaging(r: Run, staged: State) returns (q: Run)
    requires LastingRun(r) && BeforeStaging(Last(r), staged)
    ensures LastingRun(q) && Continues(r, q) && Down(Last(q)) && AtRisk(Last(q), staged)
  {
    q := Then(r, Crash(true));
    ThenValid(r, Crash(true));
    KilledStaging(Last(r), staged);
  }

  lemma FileAmongStates(r: Run)
    requires LastingRun(r)
    ensures Last(r).world.stateFile in Last(r).states
  {
    RunInvariant(r, |r.systems| - 1);
  }

  lemma CreationCalls(zone: string, p: Payload)
    ensures forall e | e in CreationEvents(zone, p) :: !e.PowerLoss?
  {
  }

  lemma RequestsCreation(r: Run, zone: string, p: Payload) returns (q: Run)
    requires LastingRun(r) && Idle(Last(r)) && Last(r).world.stateFile.None? && Managed(p)
    ensures LastingRun(q) && Continues(r, q) && BeforeStaging(Last(q), Fresh(zone, p))
  {
    FileAmongStates(r);
    var s, events, staged := Last(r), CreationEvents(zone, p), Fresh(zone, p);
    ReachesStaging(s, zone, p);
    CreationCalls(zone, p);
    q := Extend(r, events);
  }

  lemma StagesCreation(r: Run, zone: string, p: Payload) returns (q: Run)
    requires LastingRun(r) && Idle(Last(r)) && Last(r).world.stateFile.None? && Managed(p)
    ensures LastingRun(q) && Continues(r, q) && Down(Last(q)) && AtRisk(Last(q), Fresh(zone, p))
  {
    var mid := RequestsCreation(r, zone, p);
    q := KillsStaging(mid, Fresh(zone, p));
  }

  // ----- the replay, until Knot has the zone -----

  function ReplayStart(zone: string, p: Payload, lines: seq<string>): seq<Op> {
    [WriteInclude(lines)] + ([WriteInclude(lines)] + PrepareOps(zone, p) + [Reload])
  }

  lemma ReplayOpsOf(zone: string, p: Payload)
    requires Managed(p)
    ensures var s := Fresh(zone, p);
            RecoverAllOps(s) == [WriteInclude(IncludeOf(s))] + (PrepareOps(zone, p) + [Reload] + [Sign(zone)])
                                + CommitOps(s, zone)
  {
    var s := Fresh(zone, p);
    assert SortNames(s.pending.Keys) == [zone];
    RecoverOnePending(s, zone);
  }

  lemma Front<T>(a: seq<T>, b: seq<T>, c: seq<T>, d: seq<T>, e: seq<T>, f: seq<T>)
    ensures var first := a + (b + c + d); var all := a + (b + (c + d + e) + f);
            |first| <= |all| && all[..|first|] == first
  {
  }

  lemma StartSavesNothing(zone: string, p: Payload, lines: seq<string>)
    ensures NoSave(ReplayStart(zone, p, lines))
  {
  }

  lemma ReplayScript(zone: string, p: Payload)
    requires Managed(p)
    ensures var s := Fresh(zone, p); var first := ReplayStart(zone, p, IncludeOf(s));
            |first| <= |ScriptOf(Boot, s)| && ScriptOf(Boot, s)[..|first|] == first
  {
    var s := Fresh(zone, p);
    var list := [WriteInclude(IncludeOf(s))];
    ReplayOpsOf(zone, p);
    BootOps(s);
    Front(list, list, PrepareOps(zone, p), [Reload], [Sign(zone)], CommitOps(s, zone));
  }

  lemma ReplayLoads(w: World, zone: string, p: Payload, lines: seq<string>)
    requires zone in IncludedZones(lines)
    ensures zone in ExecAll(w, ReplayStart(zone, p, lines)).knot.served
  {
    var list := [WriteInclude(lines)];
    var prepared := ExecAll(w, list + list + PrepareOps(zone, p));
    ExecSnoc(w, list + list + [WriteZoneFile(zone, p)], CheckZoneFile(zone));
    ExecSnoc(w, list + list, WriteZoneFile(zone, p));
    ExecSnoc(w, list, WriteInclude(lines));
    assert list + list + PrepareOps(zone, p) == list + list + [WriteZoneFile(zone, p)] + [CheckZoneFile(zone)];
    ExecSnoc(w, list + list + PrepareOps(zone, p), Reload);
    assert ReplayStart(zone, p, lines) == list + list + PrepareOps(zone, p) + [Reload];
  }

  ghost function RestartEvents(zone: string, p: Payload): seq<Event> {
    [Start] + EffectEvents(|ReplayStart(zone, p, IncludeOf(Fresh(zone, p)))|)
  }

  lemma RestartCalls(zone: string, p: Payload)
    ensures forall e | e in RestartEvents(zone, p) :: !e.PowerLoss?
  {
  }

  lemma FreshIncluded(zone: string, p: Payload)
    ensures zone in IncludedZones(IncludeOf(Fresh(zone, p)))
  {
    IncludeListsEffective(Fresh(zone, p));
    StageUpsertEffective(EMPTY, zone, p);
  }

  lemma StartLeaves(s: System)
    requires Enabled(s, Start)
    ensures var t := Step(s, Start);
            Begun(t, Boot) && t.world == s.world && t.states == s.states && t.earlier == s.earlier
  {
  }

  lemma ReplayReaches(s: System, zone: string, p: Payload)
    requires Begun(s, Boot) && AtRisk(s, Fresh(zone, p)) && Managed(p)
    ensures var events := EffectEvents(|ReplayStart(zone, p, IncludeOf(Fresh(zone, p)))|);
            && CanFollow(s, events)
            && AtRisk(After(s, events), Fresh(zone, p)) && zone in After(s, events).world.knot.served
  {
    var first := ReplayStart(zone, p, IncludeOf(Fresh(zone, p)));
    ReplayScript(zone, p);
    StartSavesNothing(zone, p, IncludeOf(Fresh(zone, p)));
    EffectsFollow(s, |first|);
    FreshIncluded(zone, p);
    ReplayLoads(s.world, zone, p, IncludeOf(Fresh(zone, p)));
    NoSaveFile(s.world, first);
  }

  lemma RestartReaches(s: System, zone: string, p: Payload)
    requires Down(s) && AtRisk(s, Fresh(zone, p)) && Managed(p)
    ensures CanFollow(s, RestartEvents(zone, p))
    ensures var t := After(s, RestartEvents(zone, p)); AtRisk(t, Fresh(zone, p)) && zone in t.world.knot.served
  {
    FollowOne(s, Start);
    StartLeaves(s);
    ReplayReaches(Step(s, Start), zone, p);
    FollowAppend(s, [Start], EffectEvents(|ReplayStart(zone, p, IncludeOf(Fresh(zone, p)))|));
  }

  lemma RestartLoads(r: Run, zone: string, p: Payload) returns (q: Run)
    requires LastingRun(r) && Down(Last(r)) && AtRisk(Last(r), Fresh(zone, p)) && Managed(p)
    ensures LastingRun(q) && Continues(r, q)
    ensures AtRisk(Last(q), Fresh(zone, p)) && zone in Last(q).world.knot.served
  {
    RestartReaches(Last(r), zone, p);
    RestartCalls(zone, p);
    q := Extend(r, RestartEvents(zone, p));
  }

  // ----- the power loss -----

  lemma ConfigAmongIncludes(r: Run)
    requires LastingRun(r)
    ensures Last(r).world.config in Last(r).includes
  {
    RunInvariant(r, |r.systems| - 1);
  }

  lemma LosesStaging(s: System, staged: State, e: Event)
    requires AtRisk(s, staged) && s.world.config in s.includes
    requires e == PowerLoss(false, None, s.world.config, s.world.zoneFiles)
    ensures Enabled(s, e) && Undoes(s, e)
    ensures Down(Step(s, e)) && Step(s, e).world == s.world.(stateFile := None)
  {
  }

  lemma UndoneNow(r: Run, e: Event)
    requires LastingRun(r) && Enabled(Last(r), e) && Undoes(Last(r), e)
    ensures var q, m := Then(r, e), |r.events|; ValidRun(q) && Lasting(q, m) && StepOf(q, m) && UndoneAt(q, m)
  {
    var q := Then(r, e);
    ThenValid(r, e);
    assert StepOf(q, |r.events|);
    forall i: nat | i < |r.events| ensures StepOf(q, i) && !UndoneAt(q, i) {
      StepOfThen(r, e, i);
      assert StepOf(r, i) && !UndoneAt(r, i);
      assert q.systems[i] == r.systems[i] && q.events[i] == r.events[i];
    }
  }

  /** Knot serves a zone that the state does not know. */
  lemma ServedButUnknown(w: World, zone: string)
    requires w.stateFile.None? && zone in w.knot.served
    ensures !Durable(w) && forall zones :: !Converged(w, zones)
  {
    assert !Consistent(w, zone);
    forall zones | Disk(w) == State(zones, map[]) && w.knot.served.Keys == zones.Keys ensures false {
    }
  }

  lemma RiskedZones(s: System, zone: string, p: Payload)
    requires AtRisk(s, Fresh(zone, p))
    ensures EffectiveZones(s) == map[zone := p]
  {
    StageUpsertEffective(EMPTY, zone, p);
  }

  lemma ReachesRisk(s: System, zone: string, p: Payload) returns (r: Run)
    requires Initial(s) && Managed(p)
    ensures LastingRun(r) && r.systems[0] == s && CarryOut(map[], r.accepted) == map[zone := p]
    ensures AtRisk(Last(r), Fresh(zone, p)) && zone in Last(r).world.knot.served
  {
    r := StartsUp(Run([s], [], []));
    r := StagesCreation(r, zone, p);
    r := RestartLoads(r, zone, p);
    RunLinearizes(r, |r.events|);
    RiskedZones(Last(r), zone, p);
    assert r.accepted[..|r.events|] == r.accepted;
  }

  lemma InitialZonesOf(s: System)
    requires s.world.stateFile.None?
    ensures EffectiveZones(s) == map[]
  {
    EffectiveOfCommitted(EMPTY);
  }

  lemma UndoneStays(q: Run, r: Run, m: nat)
    requires ValidRun(q) && ValidRun(r) && Continues(q, r) && m < |q.events|
    requires Lasting(q, m) && StepOf(q, m) && UndoneAt(q, m)
    ensures Lasting(r, m) && StepOf(r, m) && UndoneAt(r, m)
  {
    forall i: nat | i <= m ensures StepOf(r, i) && (i < m ==> !UndoneAt(r, i)) {
      assert r.systems[i] == q.systems[i] && r.events[i] == q.events[i];
      assert StepOf(r, i) && StepOf(q, i);
      assert i < m ==> !UndoneAt(q, i);
    }
  }

  /** Whatever the zone: the service is killed inside the state write that accepts its creation, after
      the rename and before the directory is synced; the restart replays the creation until Knot has
      taken the zone up; and then the power fails, and the old state file comes back.  The next start
      runs to its end, but the accepted zone is gone from the state while Knot serves it, so that the
      stores have not converged on any zones. */
  lemma AcceptedIsLost(s: System, zone: string, p: Payload) returns (r: Run, m: nat)
    requires Initial(s) && Managed(p)
    ensures ValidRun(r) && r.systems[0] == s
    ensures m + 1 < |r.events| && Lasting(r, m) && StepOf(r, m) && UndoneAt(r, m)
    ensures CarryOut(map[], r.accepted[..m]) == map[zone := p]
    ensures r.events[m + 1] == Start && CallEvents(r.events[m + 2..], Done)
    ensures EffectiveZones(Last(r)) == map[] && zone in Last(r).world.knot.served
    ensures !Durable(Last(r).world) && forall zones :: !Converged(Last(r).world, zones)
  {
    var q := ReachesRisk(s, zone, p);
    m := |q.events|;
    var e := PowerLoss(false, None, Last(q).world.config, Last(q).world.zoneFiles);
    ConfigAmongIncludes(q);
    LosesStaging(Last(q), Fresh(zone, p), e);
    UndoneNow(q, e);
    r := StartsUp(Then(q, e));
    UndoneStays(Then(q, e), r, m);
    assert r.accepted[..m] == q.accepted;
    ServedButUnknown(Last(r).world, zone);
    InitialZonesOf(Last(r));
  }
}
