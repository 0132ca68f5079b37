/** The zone files that the service writes are texts that load as the content they count by. */
module Loading {
  import CanonicalForm
  import opened Effects
  import opened Journal
  import opened Json
  import opened Losses
  import MasterFile
  import opened Runs
  import opened Script
  import opened Service
  import opened Text
  import Validation
  import opened Wrappers
  import opened Zones
  import ZonePrinter

  /** A server that loads the printed file of the zone, on whatever day, serves what the payload
      means. */
  ghost predicate Loads(zone: string, p: Payload) {
    forall today: nat ::
      MasterFile.LoadZoneFile(zone, ZonePrinter.ZoneFileText(zone, p, today)) == Some(ContentOf(p))
  }

  /** So it does for whatever the journal may have printed. */
  ghost predicate JournalLoads(s: State) {
    forall z | z in s.pending && s.pending[z].Upsert? :: Loads(z, s.pending[z].desired)
  }

  ghost predicate TaskLoads(task: Task) {
    task.Apply? ==> Loads(task.zone, task.payload)
  }

  ghost predicate OpLoads(op: Op) {
    && (op.SaveState? ==> JournalLoads(op.state))
    && (op.WriteZoneFile? ==> Loads(op.zone, op.payload))
  }

  ghost predicate AllLoad(ops: seq<Op>) {
    forall op | op in ops :: OpLoads(op)
  }

  lemma AllLoadAppend(a: seq<Op>, b: seq<Op>)
    ensures AllLoad(a + b) <==> AllLoad(a) && AllLoad(b)
  {
    forall op | op in a ensures op in a + b {
    }
    forall op | op in b ensures op in a + b {
    }
  }

  lemma EditLoads(zone: string, previous: Payload, desired: Payload)
    ensures AllLoad(EditOps(zone, previous, desired))
  {
  }

  lemma UpdateLoads(zone: string, previous: Payload, desired: Payload)
    ensures AllLoad(UpdateOps(zone, previous, desired))
  {
    var begin, edits, commit := [Begin(zone)], EditOps(zone, previous, desired), [CommitZone(zone)];
    EditLoads(zone, previous, desired);
    AllLoadAppend(begin, edits);
    AllLoadAppend(begin + edits, commit);
    AllLoadAppend(begin + edits + commit, [Sign(zone), Flush(zone)]);
  }

  lemma CreateLoads(zone: string, p: Payload)
    requires Loads(zone, p)
    ensures AllLoad(PrepareOps(zone, p) + [Reload] + [Sign(zone)])
  {
  }

  lemma DropLoads(zone: string)
    ensures AllLoad([Reload] + [Purge(zone)] + [UnlinkZoneFile(zone)])
  {
  }

  lemma MutateLoads(zone: string, t: Transition)
    requires t.Upsert? ==> Loads(zone, t.desired)
    ensures AllLoad(MutateOps(zone, t))
  {
    match t
    case Upsert(None, desired) => CreateLoads(zone, desired);
    case Upsert(Some(previous), desired) => UpdateLoads(zone, previous, desired);
    case Delete(_) => DropLoads(zone);
  }

  lemma CommitLoads(s: State, zone: string)
    requires JournalLoads(s) && zone in s.pending
    ensures AllLoad(CommitOps(s, zone)) && JournalLoads(Commit(s, zone))
  {
  }

  lemma RecoverLoads(s: State, zone: string)
    requires JournalLoads(s)
    ensures AllLoad(RecoverOps(s, zone)) && JournalLoads(AfterRecover(s, zone))
  {
    if zone in s.pending {
      var list, mutate := [WriteInclude(IncludeOf(s))], MutateOps(zone, s.pending[zone]);
      MutateLoads(zone, s.pending[zone]);
      CommitLoads(s, zone);
      AllLoadAppend(list, mutate);
      AllLoadAppend(list + mutate, CommitOps(s, zone));
    }
  }

  lemma {:induction false} ReplayLoads(s: State, zones: seq<string>)
    requires JournalLoads(s)
    ensures AllLoad(ReplayOps(s, zones)) && JournalLoads(AfterReplay(s, zones))
  {
    if zones != [] {
      var n := |zones| - 1;
      ReplayLoads(s, zones[..n]);
      RecoverLoads(AfterReplay(s, zones[..n]), zones[n]);
      AllLoadAppend(ReplayOps(s, zones[..n]), RecoverOps(AfterReplay(s, zones[..n]), zones[n]));
    }
  }

  lemma PreparationLoads(task: Task, s: State)
    requires TaskLoads(task)
    ensures AllLoad(PreparationOps(task, s))
  {
  }

  lemma OpeningLoads(task: Task, s: State)
    requires JournalLoads(s) && TaskLoads(task)
    ensures AllLoad(OpeningOps(task, s))
  {
    var list, replay, prepare := [WriteInclude(IncludeOf(s))], RecoverAllOps(s), PreparationOps(task, s);
    ReplayLoads(s, SortNames(s.pending.Keys));
    PreparationLoads(task, s);
    AllLoadAppend(list, replay);
    AllLoadAppend(replay, prepare);
    OpeningIs(task, s);
  }

  /** Every script writes only such files, and only such journals. */
  lemma ScriptLoads(task: Task, s: State)
    requires JournalLoads(s) && TaskLoads(task)
    ensures AllLoad(ScriptOf(task, s))
  {
    OpeningLoads(task, s);
    match Staged(task, s)
    case None =>
    case Some(staged) =>
      assert JournalLoads(staged);
      var save, list := [SaveState(staged)], [WriteInclude(IncludeOf(staged))];
      RecoverLoads(staged, task.zone);
      AllLoadAppend(list, RecoverOps(staged, task.zone));
      AllLoadAppend(save, FollowOps(staged, task.zone));
      AllLoadAppend(OpeningOps(task, s), save + FollowOps(staged, task.zone));
  }

  ghost predicate SystemLoads(s: System) {
    && s.world.stateFile in s.states
    && (forall c | c in s.states + s.earlier :: JournalLoads(Saved(c)))
    && (s.call.Some? ==> JournalLoads(Disk(s.call.value.entry)) && TaskLoads(s.call.value.task))
  }

  lemma StatesLoad(s: System, e: Event)
    requires SystemLoads(s) && Enabled(s, e)
    ensures forall c | c in Step(s, e).states + Step(s, e).earlier :: JournalLoads(Saved(c))
  {
    forall c | c in Step(s, e).states + Step(s, e).earlier ensures JournalLoads(Saved(c)) {
      LeftStates(s, e, c);
      if Writes(s, e, c) {
        ScriptLoads(s.call.value.task, Disk(s.call.value.entry));
        assert OpLoads(NextOp(s));
      }
    }
  }

  lemma FileLoads(s: System)
    requires SystemLoads(s)
    ensures JournalLoads(Disk(s.world))
  {
    assert s.world.stateFile in s.states + s.earlier;
  }

  lemma CallLoads(s: System, e: Event)
    requires SystemLoads(s) && Enabled(s, e) && (e.Enter? ==> TaskLoads(e.task)) && Step(s, e).call.Some?
    ensures var c := Step(s, e).call.value; JournalLoads(Disk(c.entry)) && TaskLoads(c.task)
  {
    FileLoads(s);
  }

  lemma StepLoads(s: System, e: Event)
    requires SystemLoads(s) && Enabled(s, e) && (e.Enter? ==> TaskLoads(e.task))
    ensures SystemLoads(Step(s, e))
  {
    LeftFile(s, e);
    StatesLoad(s, e);
    if Step(s, e).call.Some? {
      CallLoads(s, e);
    }
  }

  lemma {:induction false} RunLoads(r: Run, i: nat)
    requires ValidRun(r) && i < |r.systems|
    requires forall e | e in r.events && e.Enter? :: TaskLoads(e.task)
    ensures SystemLoads(r.systems[i])
  {
    if i > 0 {
      RunLoads(r, i - 1);
      assert StepOf(r, i - 1);
      StepLoads(r.systems[i - 1], r.events[i - 1]);
    }
  }

  /** On any run at all whose requests print to files that load as their content, every zone file
      that the service comes to write does so. */
  lemma WrittenFilesLoad(r: Run, i: nat)
    requires ValidRun(r) && i < |r.systems|
    requires forall e | e in r.events && e.Enter? :: TaskLoads(e.task)
    requires Working(r.systems[i]) && NextOp(r.systems[i]).WriteZoneFile?
    ensures var op := NextOp(r.systems[i]); Loads(op.zone, op.payload)
  {
    var c := r.systems[i].call.value;
    RunLoads(r, i);
    ScriptLoads(c.task, Disk(c.entry));
    assert OpLoads(NextOp(r.systems[i]));
  }

  /** Accepted requests do, if their address texts are plain. */
  lemma AcceptedTaskLoads(canon: Validation.Canonical6, name: string, j: Json)
    requires Validation.Lawful(canon)
    requires Validation.ValidateZone(name).Ok? && Validation.NormalizePayload(canon, j).Ok?
    requires CanonicalForm.PlainAddresses(Validation.NormalizePayload(canon, j).value)
    ensures TaskLoads(Apply(Validation.ValidateZone(name).value, Validation.NormalizePayload(canon, j).value))
  {
    forall today: nat {
      CanonicalForm.AcceptedLoads(canon, name, j, today);
    }
  }
}
