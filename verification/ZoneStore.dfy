/** The zone store: the methods that change state file, include, zone files and Knot, each proved
    to carry out its script or to stop inside it. */
module ZoneStore {
  import opened Attempts
  import CanonicalForm
  import opened Effects
  import opened Hosts
  import opened Execution
  import opened Journal
  import opened Json
  import opened Ordering
  import opened Recovery
  import opened Script
  import opened StateFile
  import opened Text
  import Validation
  import opened Wrappers
  import opened Zones
  import ZonePrinter

  /** The lines of the include, zone by zone. */
  method ConfigLines(zones: seq<string>) returns (lines: seq<string>)
    ensures lines == IncludeLines(zones)
  {
    lines := [HEADER];
    if zones != [] {
      lines := lines + ["zone:"];
      for i := 0 to |zones|
        invariant lines == [HEADER] + (["zone:"] + ZoneLines(zones[..i]))
      {
        assert zones[..i + 1][..i] == zones[..i];
        lines := lines + [DOMAIN_PREFIX + zones[i], TEMPLATE_PREFIX + MEMBER_TEMPLATE];
      }
      assert zones[..|zones|] == zones;
    }
  }

  /** A refusal comes after all the guarded work. */
  function Work(r: Attempt): Attempt {
    if r.Refused() then Done else r
  }

  const STALE := Raised(ApiError(409, "stale_revision"))
  const REUSED := Raised(ApiError(409, "revision_reused"))

  /** The answer to a request on these zones, if all of its work went well: stale exactly if the
      revision is smaller, reused exactly if it is the same with another payload, else success. */
  predicate Answers(zones: map<string, Payload>, zone: string, p: Payload, r: Attempt, created: bool) {
    && (Work(r).Done? ==>
          && (r == STALE <==> zone in zones && p.revision < zones[zone].revision)
          && (r == REUSED <==> zone in zones && p.revision == zones[zone].revision && p != zones[zone])
          && (r.Done? <==> zone in zones ==> p == zones[zone] || p.revision > zones[zone].revision))
    && (r.Done? ==> (created <==> zone !in zones))
  }

  /** The answer that the revision alone decides, if there is one: none exactly if the request is for
      a new zone or has a larger revision. */
  method CompareRevision(zones: map<string, Payload>, zone: string, p: Payload) returns (answer: Option<Attempt>)
    ensures answer.None? <==> (zone in zones ==> p.revision > zones[zone].revision)
    ensures answer.Some? ==> Work(answer.value).Done? && Answers(zones, zone, p, answer.value, false)
  {
    if zone in zones {
      var current := zones[zone];
      if p.revision < current.revision {
        return Some(STALE);
      }
      if p.revision == current.revision {
        return Some(if current == p then Done else REUSED);
      }
    }
    return None;
  }

  class ZoneStore {
    const host: Host
    const canon: Validation.Canonical6
    var state: State

    constructor (host: Host, canon: Validation.Canonical6)
      ensures this.host == host && this.canon == canon
    {
      this.host, this.canon, this.state := host, canon, EMPTY;
    }

    /** Memory is what is on disk. */
    ghost predicate InStep()
      reads this, host
    {
      host.Valid() && state == Disk(host.world)
    }

    /** The script ran, to its end or stopped inside it; memory follows the disk unless the process
        died. */
    twostate predicate Follows(script: seq<Op>, r: Attempt)
      reads this, host
    {
      && host.Valid() && host.base == old(host.base)
      && Ran(old(host.ops), host.ops, script, r) && host.Tally(r)
      && (!r.Crashed? ==> state == Disk(host.world))
    }

    method SaveState(s: State) returns (r: Attempt)
      requires InStep()
      modifies this`state, host
      ensures Follows([Op.SaveState(s)], r)
      ensures r.Done? ==> state == s
    {
      r := host.WriteState(s);
      TriedRan(old(host.ops), host.ops, Op.SaveState(s), r);
      if r.Done? {
        state := s;
      }
    }

    /** The zones that the include must list: committed ones, with upserts added and deletes left
        out. */
    method IncludedNames() returns (names: seq<string>)
      ensures names == SortNames(EffectiveDomain(state))
    {
      var zones := state.zones.Keys;
      var rest := state.pending.Keys;
      while rest != {}
        invariant rest <= state.pending.Keys
        invariant forall z :: z in zones <==>
          if z in state.pending && z !in rest then state.pending[z].Upsert? else z in state.zones
      {
        var zone :| zone in rest;
        if state.pending[zone].Upsert? {
          zones := zones + {zone};
        } else {
          zones := zones - {zone};
        }
        rest := rest - {zone};
      }
      assert zones == EffectiveDomain(state);
      LeqIsTotalOrder();
      names := SortedList(Leq, zones);
      SortNamesUnique(names, zones);
    }

    method WriteGeneratedConfig() returns (r: Attempt)
      requires InStep()
      modifies host
      ensures Follows([WriteInclude(IncludeOf(state))], r)
    {
      var zones := IncludedNames();
      var lines := ConfigLines(zones);
      r := host.WriteConfig(lines);
      TriedRan(old(host.ops), host.ops, WriteInclude(lines), r);
    }

    method WriteRendered(zone: string, p: Payload) returns (r: Attempt)
      requires InStep()
      modifies host
      ensures Follows([WriteZoneFile(zone, p)], r)
    {
      var today: nat := *;
      var text := ZonePrinter.RenderZonefile(zone, p, today);
      IsPrint(zone, p, today);
      r := host.WriteZone(zone, text, p);
      TriedRan(old(host.ops), host.ops, WriteZoneFile(zone, p), r);
    }

    method PrepareZonefile(zone: string, p: Payload) returns (r: Attempt)
      requires InStep()
      modifies host
      ensures Follows(PrepareOps(zone, p), r)
    {
      r := WriteRendered(zone, p);
      ghost var r1, mid := r, host.ops;
      if r.Done? {
        r := host.Check(zone);
        TriedRan(mid, host.ops, CheckZoneFile(zone), r);
      }
      Chain(old(host.ops), mid, host.ops, [WriteZoneFile(zone, p)], [CheckZoneFile(zone)], r1, r);
    }

    /** Effects that leave memory and the state file alone. */
    twostate predicate Steady()
      reads this, host
    {
      InStep() && host.base == old(host.base) && Disk(host.world) == old(Disk(host.world))
    }

    method UnsetAll(zone: string, keys: seq<Key>) returns (r: Attempt)
      requires InStep()
      modifies host
      ensures Steady() && host.Tally(r) && Edited(old(host.ops), host.ops, UnsetOps(zone, keys), r, zone)
    {
      var i := 0;
      while i < |keys|
        invariant 0 <= i <= |keys| && Steady() && host.Tally(Done)
        invariant host.ops == old(host.ops) + UnsetOps(zone, keys[..i])
      {
        r := host.Command(UnsetRRset(zone, keys[i]));
        UnsetSplit(zone, keys, i);
        if !r.Done? {
          EditBreaks(old(host.ops), host.ops, UnsetOps(zone, keys[..i]), UnsetRRset(zone, keys[i]),
            UnsetOps(zone, keys[i + 1..]), r, zone);
          return;
        }
        i := i + 1;
      }
      assert keys[..|keys|] == keys;
      r := Done;
    }

    method SetValues(zone: string, record: Record) returns (r: Attempt)
      requires InStep()
      modifies host
      ensures Steady() && host.Tally(r) && Edited(old(host.ops), host.ops, SetOps(zone, RecordEntries(record)), r, zone)
    {
      var i := 0;
      ghost var entries := RecordEntries(record);
      while i < |record.values|
        invariant 0 <= i <= |record.values| && Steady() && host.Tally(Done)
        invariant host.ops == old(host.ops) + SetOps(zone, entries[..i])
      {
        var command := SetRecord(zone, Entry(record.Id(), record.ttl, record.values[i]));
        r := host.Command(command);
        SetSplit(zone, entries, i);
        if !r.Done? {
          EditBreaks(old(host.ops), host.ops, SetOps(zone, entries[..i]), command,
            SetOps(zone, entries[i + 1..]), r, zone);
          return;
        }
        i := i + 1;
      }
      assert entries[..|entries|] == entries;
      r := Done;
    }

    method SetAll(zone: string, records: seq<Record>) returns (r: Attempt)
      requires InStep()
      modifies host
      ensures Steady() && host.Tally(r)
      ensures Edited(old(host.ops), host.ops, SetOps(zone, RecordsEntries(records)), r, zone)
    {
      var i := 0;
      while i < |records|
        invariant 0 <= i <= |records| && Steady() && host.Tally(Done)
        invariant host.ops == old(host.ops) + SetOps(zone, RecordsEntries(records[..i]))
      {
        ghost var a, b := SetOps(zone, RecordsEntries(records[..i])), SetOps(zone, RecordEntries(records[i]));
        ghost var rest := RecordSplit(zone, records, i);
        r := SetValues(zone, records[i]);
        if !r.Done? {
          EditBreaksInside(old(host.ops), host.ops, a, b, rest, r, zone);
          return;
        }
        EditedOn(old(host.ops), host.ops, a, b, zone);
        i := i + 1;
      }
      assert records[..|records|] == records;
      r := Done;
    }

    method EditZone(zone: string, previous: Payload, desired: Payload) returns (r: Attempt)
      requires InStep()
      modifies host
      ensures Steady() && host.Tally(r) && Edited(old(host.ops), host.ops, EditOps(zone, previous, desired), r, zone)
    {
      KeyLeqIsTotalOrder();
      var rrsets := Keys(previous.records) + Keys(desired.records);
      var keys := SortedList(KeyLeq, rrsets);
      SortKeysUnique(keys, rrsets);
      r := UnsetAll(zone, keys);
      ghost var r1, mid := r, host.ops;
      if r.Done? {
        r := SetAll(zone, desired.records);
      }
      EditedThen(old(host.ops), mid, host.ops, UnsetOps(zone, keys), SetOps(zone, RecordsEntries(desired.records)),
          r1, r, zone);
    }

    method EditAndCommit(zone: string, previous: Payload, desired: Payload) returns (r: Attempt)
      requires InStep()
      modifies host
      ensures Steady() && host.Tally(r)
      ensures Edited(old(host.ops), host.ops, EditOps(zone, previous, desired) + [CommitZone(zone)], r, zone)
    {
      r := EditZone(zone, previous, desired);
      ghost var r1, mid := r, host.ops;
      if r.Done? {
        r := host.Command(CommitZone(zone));
        TriedEdited(mid, host.ops, CommitZone(zone), r, zone);
      }
      EditedThen(old(host.ops), mid, host.ops, EditOps(zone, previous, desired), [CommitZone(zone)], r1, r, zone);
    }

    method SignAndFlush(zone: string) returns (r: Attempt)
      requires InStep()
      modifies host
      ensures Steady() && host.Tally(r) && Ran(old(host.ops), host.ops, [Sign(zone), Flush(zone)], r)
      ensures NothingOpen()
    {
      r := host.Command(Sign(zone));
      ghost var r1, mid := r, host.ops;
      if r.Done? {
        r := host.Command(Flush(zone));
      }
      TriedBoth(old(host.ops), mid, host.ops, Sign(zone), Flush(zone), r1, r);
    }

    /** The last access tried was not a command inside a zone transaction. */
    ghost predicate NothingOpen()
      reads host
    {
      host.tried != [] && !InTransaction(host.tried[|host.tried| - 1])
    }

    /** The guarded part of an update, and whether it ended inside the zone transaction. */
    method TryUpdate(zone: string, previous: Payload, desired: Payload) returns (r: Attempt, begun: bool)
      requires InStep()
      modifies host
      ensures Steady() && host.Tally(r)
      ensures if begun
              then Edited(old(host.ops), host.ops, UpdateOps(zone, previous, desired), r, zone) && !r.Done?
              else Ran(old(host.ops), host.ops, UpdateOps(zone, previous, desired), r) && NothingOpen()
    {
      ghost var begin, edits, tail := [Begin(zone)], EditOps(zone, previous, desired) + [CommitZone(zone)],
          [Sign(zone), Flush(zone)];
      Regroup(begin, EditOps(zone, previous, desired), [CommitZone(zone)], tail);
      begun := false;
      r := host.Command(Begin(zone));
      TriedRan(old(host.ops), host.ops, Begin(zone), r);
      if !r.Done? {
        RanEarly(old(host.ops), host.ops, begin, edits, r);
        RanEarly(old(host.ops), host.ops, begin + edits, tail, r);
        return;
      }
      begun := true;
      r := EditAndCommit(zone, previous, desired);
      if !r.Done? {
        EditBreaksInside(old(host.ops), host.ops, begin, edits, tail, r, zone);
        return;
      }
      begun := false;
      EditedOn(old(host.ops), host.ops, begin, edits, zone);
      ghost var mid := host.ops;
      r := SignAndFlush(zone);
      RanThen(old(host.ops), mid, host.ops, begin + edits, tail, r);
    }

    /** A failure inside the transaction is answered by an abort, whose own failure is ignored: no
        error leaves a command of an open transaction as the last thing tried. */
    method UpdateExisting(zone: string, previous: Payload, desired: Payload) returns (r: Attempt)
      requires InStep()
      modifies host
      ensures Follows(UpdateOps(zone, previous, desired), r)
      ensures r.Raised? ==> NothingOpen()
    {
      var begun: bool;
      r, begun := TryUpdate(zone, previous, desired);
      if begun {
        ghost var broken := host.ops;
        BrokenStops(UpdateOps(zone, previous, desired), broken[|old(host.ops)|..], r, zone);
        if r.Raised? {
          var aborted := host.Command(Abort(zone));
          AbortedShows(old(host.ops), broken, host.ops, zone);
          if aborted.Crashed? {
            r := Crashed;
          }
        }
      }
    }

    /** A new zone: its file, and then Knot takes it up. */
    method LoadNewZone(zone: string, p: Payload) returns (r: Attempt)
      requires InStep()
      modifies host
      ensures Follows(PrepareOps(zone, p) + [Reload] + [Sign(zone)], r)
    {
      r := PrepareZonefile(zone, p);
      ghost var r1, mid1 := r, host.ops;
      if r.Done? {
        r := host.Command(Reload);
        TriedRan(mid1, host.ops, Reload, r);
      }
      Chain(old(host.ops), mid1, host.ops, PrepareOps(zone, p), [Reload], r1, r);
      ghost var r2, mid2 := r, host.ops;
      if r.Done? {
        r := host.Command(Sign(zone));
        TriedRan(mid2, host.ops, Sign(zone), r);
      }
      Chain(old(host.ops), mid2, host.ops, PrepareOps(zone, p) + [Reload], [Sign(zone)], r2, r);
    }

    /** A deleted zone: Knot drops it, and then everything that is left of it goes. */
    method DropZone(zone: string) returns (r: Attempt)
      requires InStep()
      modifies host
      ensures Follows([Reload] + [Purge(zone)] + [UnlinkZoneFile(zone)], r)
    {
      r := host.Command(Reload);
      ghost var r1, mid1 := r, host.ops;
      TriedRan(old(host.ops), mid1, Reload, r1);
      if r.Done? {
        r := host.Command(Purge(zone));
        TriedRan(mid1, host.ops, Purge(zone), r);
      }
      Chain(old(host.ops), mid1, host.ops, [Reload], [Purge(zone)], r1, r);
      ghost var r2, mid2 := r, host.ops;
      if r.Done? {
        r := host.UnlinkZone(zone);
        TriedRan(mid2, host.ops, UnlinkZoneFile(zone), r);
      }
      Chain(old(host.ops), mid2, host.ops, [Reload] + [Purge(zone)], [UnlinkZoneFile(zone)], r2, r);
    }

    method Mutate(zone: string) returns (r: Attempt)
      requires InStep() && zone in state.pending
      modifies host
      ensures Follows(MutateOps(zone, state.pending[zone]), r)
    {
      match state.pending[zone]
      case Upsert(None, desired) => r := LoadNewZone(zone, desired);
      case Upsert(Some(previous), desired) => r := UpdateExisting(zone, previous, desired);
      case Delete(_) => r := DropZone(zone);
    }

    /** Moves the transition from the journal to the zones, and lists them once more. */
    method CommitTransition(zone: string) returns (r: Attempt)
      requires InStep() && zone in state.pending
      modifies this`state, host
      ensures Follows(CommitOps(old(state), zone), r)
      ensures r.Done? ==> state == Commit(old(state), zone)
    {
      var committed := Commit(state, zone);
      r := SaveState(committed);
      ghost var r1, mid := r, host.ops;
      if r.Done? {
        r := WriteGeneratedConfig();
      }
      Chain(old(host.ops), mid, host.ops, [Op.SaveState(committed)], [WriteInclude(IncludeOf(committed))], r1, r);
    }

    method RecoverOne(zone: string) returns (r: Attempt)
      requires InStep()
      modifies this`state, host
      ensures Follows(RecoverOps(old(state), zone), r)
      ensures r.Done? ==> state == AfterRecover(old(state), zone)
    {
      if zone !in state.pending {
        RanNothing(host.ops);
        return Done;
      }
      ghost var list, mutate := [WriteInclude(IncludeOf(state))], MutateOps(zone, state.pending[zone]);
      r := WriteGeneratedConfig();
      ghost var r1, mid1 := r, host.ops;
      if r.Done? {
        r := Mutate(zone);
      }
      Chain(old(host.ops), mid1, host.ops, list, mutate, r1, r);
      ghost var r2, mid2 := r, host.ops;
      if r.Done? {
        r := CommitTransition(zone);
      }
      Chain(old(host.ops), mid2, host.ops, list + mutate, CommitOps(old(state), zone), r2, r);
    }

    /** Replays the listed transitions, one after the other. */
    method Replay(zones: seq<string>) returns (r: Attempt)
      requires InStep()
      modifies this`state, host
      ensures Follows(ReplayOps(old(state), zones), r)
      ensures r.Done? ==> state == AfterReplay(old(state), zones)
    {
      r := Done;
      RanNothing(host.ops);
      var i := 0;
      while i < |zones| && r.Done?
        invariant 0 <= i <= |zones|
        invariant Follows(ReplayOps(old(state), zones[..i]), r)
        invariant r.Done? ==> state == AfterReplay(old(state), zones[..i])
      {
        ghost var mid := host.ops;
        r := RecoverOne(zones[i]);
        ReplayedNext(old(host.ops), mid, host.ops, old(state), zones, i, r);
        i := i + 1;
      }
      if r.Done? {
        assert zones[..i] == zones;
      } else {
        ReplayedEarly(old(host.ops), host.ops, old(state), zones, i, r);
      }
    }

    method RecoverPending() returns (r: Attempt)
      requires InStep()
      modifies this`state, host
      ensures Follows(RecoverAllOps(old(state)), r)
      ensures r.Done? ==> state == Recovered(old(state))
    {
      LeqIsTotalOrder();
      ReplayAllRecovers(state);
      var zones := SortedList(Leq, state.pending.Keys);
      SortNamesUnique(zones, state.pending.Keys);
      r := Replay(zones);
    }

    /** The staging write, the include, and the replay of the fresh transition. */
    method StageAndReplay(staged: State, zone: string) returns (r: Attempt)
      requires InStep()
      modifies this`state, host
      ensures Follows(StageOps(staged, zone), r)
    {
      r := SaveState(staged);
      ghost var r1, mid1 := r, host.ops;
      if r.Done? {
        r := WriteGeneratedConfig();
      }
      ghost var r2, mid2 := r, host.ops;
      if r.Done? {
        r := RecoverOne(zone);
      }
      ghost var list := [WriteInclude(IncludeOf(staged))];
      if r1.Done? {
        Chain(mid1, mid2, host.ops, list, RecoverOps(staged, zone), r2, r);
      }
      Chain(old(host.ops), mid1, host.ops, [Op.SaveState(staged)], FollowOps(staged, zone), r1, r);
    }

    /** The request once its revision is accepted: a new zone gets its file checked first. */
    method Establish(zone: string, p: Payload, ghost s: State) returns (r: Attempt, created: bool)
      requires InStep() && state == Recovered(s)
      requires zone in Effective(s) ==> p.revision > Effective(s)[zone].revision
      modifies this`state, host
      ensures Follows(RequestOps(Task.Apply(zone, p), s), r)
      ensures created <==> zone !in Effective(s)
    {
      created := zone !in state.zones;
      var staged := StageUpsert(state, zone, p);
      r := Done;
      RanNothing(host.ops);
      if created {
        r := PrepareZonefile(zone, p);
      }
      ghost var r1, mid := r, host.ops;
      if r.Done? {
        r := StageAndReplay(staged, zone);
      }
      Chain(old(host.ops), mid, host.ops, if created then PrepareOps(zone, p) else [], StageOps(staged, zone), r1, r);
      EstablishOps(zone, p, s);
    }

    method ApplyRecovered(zone: string, p: Payload, ghost s: State) returns (r: Attempt, created: bool)
      requires InStep() && state == Recovered(s)
      modifies this`state, host
      ensures Follows(RequestOps(Task.Apply(zone, p), s), Work(r))
      ensures Answers(Effective(s), zone, p, r, created)
    {
      var settled := CompareRevision(state.zones, zone, p);
      match settled
      case Some(answer) =>
        r, created := answer, false;
        NothingToDo(host.ops, zone, p, s);
      case None =>
        r, created := Establish(zone, p, s);
        AcceptedAnswers(Effective(s), zone, p, r);
    }

    method ApplyGuarded(zone: string, p: Payload) returns (r: Attempt, created: bool)
      requires InStep()
      modifies this`state, host
      ensures Follows(ScriptOf(Task.Apply(zone, p), old(state)), Work(r))
      ensures Answers(Effective(old(state)), zone, p, r, created)
    {
      ghost var task, s := Task.Apply(zone, p), state;
      created := false;
      r := RecoverPending();
      ghost var r1, mid := r, host.ops;
      if r.Done? {
        r, created := ApplyRecovered(zone, p, s);
      } else {
        NoAnswer(Effective(s), zone, p, r, r);
      }
      Chain(old(host.ops), mid, host.ops, RecoverAllOps(s), RequestOps(task, s), r1, Work(r));
      ReplayThenRequest(task, s);
    }

    method DeleteRecovered(zone: string, ghost s: State) returns (r: Attempt, deleted: bool)
      requires InStep() && state == Recovered(s)
      modifies this`state, host
      ensures Follows(RequestOps(Task.Remove(zone), s), r)
      ensures deleted <==> zone in Effective(s)
    {
      deleted := zone in state.zones;
      RemoveOps(zone, s);
      r := Done;
      RanNothing(host.ops);
      if deleted {
        var staged := StageDelete(state, zone);
        r := StageAndReplay(staged, zone);
      }
    }

    method DeleteGuarded(zone: string) returns (r: Attempt, deleted: bool)
      requires InStep()
      modifies this`state, host
      ensures Follows(ScriptOf(Task.Remove(zone), old(state)), r)
      ensures r.Done? ==> (deleted <==> zone in Effective(old(state)))
    {
      ghost var task, s := Task.Remove(zone), state;
      deleted := false;
      r := RecoverPending();
      ghost var r1, mid := r, host.ops;
      if r.Done? {
        r, deleted := DeleteRecovered(zone, s);
      }
      Chain(old(host.ops), mid, host.ops, RecoverAllOps(s), RequestOps(task, s), r1, r);
      ReplayThenRequest(task, s);
    }

    // ----- the calls -----

    /** Between calls memory is what is on disk, and the stores are durable. */
    ghost predicate Valid()
      reads this, host
    {
      InStep() && Durable(host.world) && Validation.Lawful(canon)
    }

    /** The call ran its script, and so met its specification, or stopped inside it, with the
        stores durable and meaning the old zones or the new. */
    twostate predicate Settles(task: Task, r: Attempt)
      reads this, host
    {
      && Follows(ScriptOf(task, Disk(old(host.world))), r)
      && Outcome(host.world, task, Effective(Disk(old(host.world))), r)
    }

    /** Takes the state on disk into memory. */
    method Load() returns (r: Attempt)
      requires host.Valid()
      modifies this`state, host`faults, host`raised
      ensures host.Tally(r)
      ensures if r.Done? then state == Disk(host.world) else r == Raised(RuntimeError)
    {
      var file := host.ReadState();
      var loaded := LoadState(file);
      SavedLoads(host.world.stateFile);
      if loaded.Err? {
        return Raised(loaded.error);
      }
      state := DecodeState(loaded.value).value;
      r := Done;
    }

    /** The constructor's work under the guard, in whatever world the last process left behind. */
    method Start() returns (r: Attempt)
      requires host.Valid() && Durable(host.world) && Validation.Lawful(canon)
      modifies this`state, host
      ensures host.Valid() && host.Tally(r)
      ensures
        || Settles(Boot, r)
        || (r == Raised(RuntimeError) && host.ops == old(host.ops) && host.world == old(host.world))
      ensures r.Done? ==> Valid()
    {
      r := Load();
      if r.Done? {
        r := BootGuarded();
        RanOutcome(host.base, old(host.ops), host.ops, Boot, r);
      }
    }

    method BootGuarded() returns (r: Attempt)
      requires InStep()
      modifies this`state, host
      ensures Follows(ScriptOf(Boot, old(state)), r)
    {
      r := WriteGeneratedConfig();
      ghost var r1, mid := r, host.ops;
      if r.Done? {
        r := RecoverPending();
      }
      Chain(old(host.ops), mid, host.ops, [WriteInclude(IncludeOf(old(state)))], RecoverAllOps(old(state)), r1, r);
      BootOps(old(state));
    }

    method Apply(zone: string, payload: Json) returns (r: Attempt, created: bool)
      requires Valid()
      modifies this`state, host
      ensures !r.Crashed? ==> Valid()
      ensures var z, p := Validation.ValidateZone(zone), Validation.NormalizePayload(canon, payload);
              if z.Err? then r == Raised(z.error) && unchanged(this, host)
              else if p.Err? then r == Raised(p.error) && unchanged(this, host)
              else
                && Settles(Task.Apply(z.value, p.value), Work(r))
                && Answers(Effective(old(state)), z.value, p.value, r, created)
                && (r.Done? ==> Converged(host.world, Effective(old(state))[z.value := p.value]))
                && (r.Refused() ==> Converged(host.world, Effective(old(state))))
                && (z.value !in Effective(Disk(host.world)) ==> Effective(Disk(host.world)) == Effective(old(state)))
    {
      created := false;
      var z := Validation.ValidateZone(zone);
      if z.Err? {
        return Raised(z.error), created;
      }
      var p := Validation.ValidatePayload(canon, payload);
      if p.Err? {
        return Raised(p.error), created;
      }
      CanonicalForm.AcceptedIsCanonical(canon, payload);
      CanonicalForm.CanonicalIsManaged(canon, p.value);
      r, created := ApplyGuarded(z.value, p.value);
      RanOutcome(host.base, old(host.ops), host.ops, Task.Apply(z.value, p.value), Work(r));
      AnswerConverges(host.world, Effective(old(state)), z.value, p.value, r, created);
    }

    method Delete(zone: string) returns (r: Attempt, deleted: bool)
      requires Valid()
      modifies this`state, host
      ensures !r.Crashed? ==> Valid()
      ensures var z := Validation.ValidateZone(zone);
              if z.Err? then r == Raised(z.error) && unchanged(this, host)
              else
                && Settles(Task.Remove(z.value), r)
                && (r.Done? ==> (deleted <==> z.value in Effective(old(state))))
    {
      deleted := false;
      var z := Validation.ValidateZone(zone);
      if z.Err? {
        return Raised(z.error), deleted;
      }
      r, deleted := DeleteGuarded(z.value);
      RanOutcome(host.base, old(host.ops), host.ops, Task.Remove(z.value), r);
    }

    method FindGuarded(zone: string) returns (r: Attempt)
      requires InStep()
      modifies this`state, host
      ensures Follows(ScriptOf(Probe, old(state)), Work(r))
      ensures r.Done? ==> zone in Effective(old(state))
      ensures r.Refused() ==> zone !in Effective(old(state)) && r == Raised(ApiError(404, "zone_not_found"))
    {
      ProbeOps(state);
      r := RecoverPending();
      if r.Done? && zone !in state.zones {
        r := Raised(ApiError(404, "zone_not_found"));
      }
    }

    /** The guarded part of a DNSKEY read. */
    method FindZone(zone: string) returns (r: Attempt)
      requires Valid()
      modifies this`state, host
      ensures !r.Crashed? ==> Valid()
      ensures var z := Validation.ValidateZone(zone);
              if z.Err? then r == Raised(z.error) && unchanged(this, host)
              else
                && Settles(Probe, Work(r))
                && (r.Done? ==> z.value in Effective(old(state)))
                && (r.Refused() ==> z.value !in Effective(old(state)) && r == Raised(ApiError(404, "zone_not_found")))
    {
      var z := Validation.ValidateZone(zone);
      if z.Err? {
        return Raised(z.error);
      }
      r := FindGuarded(z.value);
      RanOutcome(host.base, old(host.ops), host.ops, Probe, Work(r));
    }
  }

  lemma SavedLoads(s: Option<State>)
    ensures var file := SavedFile(s);
            LoadedState(file).Ok? && DecodeState(LoadedState(file).value) == Some(if s.Some? then s.value else EMPTY)
  {
    OwnStateLoads(if s.Some? then s.value else EMPTY);
  }

  lemma AcceptedAnswers(zones: map<string, Payload>, zone: string, p: Payload, r: Attempt)
    requires r.Genuine() && (zone in zones ==> p.revision > zones[zone].revision)
    ensures Work(r) == r && Answers(zones, zone, p, r, zone !in zones)
  {
  }

  /** What stops a call is not one of its answers. */
  lemma NoAnswer(zones: map<string, Payload>, zone: string, p: Payload, r: Attempt, w: Attempt)
    requires w == Work(r) && !w.Done?
    ensures Answers(zones, zone, p, r, false)
  {
  }

  lemma AnswerConverges(v: World, zones: map<string, Payload>, zone: string, p: Payload, r: Attempt, created: bool)
    requires Outcome(v, Task.Apply(zone, p), zones, Work(r)) && Answers(zones, zone, p, r, created)
    ensures r.Done? ==> Converged(v, zones[zone := p])
    ensures r.Refused() ==> Converged(v, zones)
    ensures zone !in Effective(Disk(v)) ==> Effective(Disk(v)) == zones
  {
    if zone in zones && zones[zone] == p {
      assert zones[zone := p] == zones;
    }
  }

  lemma NothingToDo(ops: seq<Op>, zone: string, p: Payload, s: State)
    requires zone in Effective(s) && p.revision <= Effective(s)[zone].revision
    ensures Ran(ops, ops, RequestOps(Task.Apply(zone, p), s), Done)
  {
    JudgeIs(Effective(s), zone, p);
  }

  lemma ReplayNext(s: State, zones: seq<string>, i: nat)
    requires i < |zones|
    ensures ReplayOps(s, zones[..i + 1]) == ReplayOps(s, zones[..i]) + RecoverOps(AfterReplay(s, zones[..i]), zones[i])
    ensures AfterReplay(s, zones[..i + 1]) == AfterRecover(AfterReplay(s, zones[..i]), zones[i])
  {
    assert zones[..i + 1][..i] == zones[..i];
  }

  lemma ReplayedNext(before: seq<Op>, mid: seq<Op>, after: seq<Op>, s: State, zones: seq<string>, i: nat, r: Attempt)
    requires i < |zones| && Ran(before, mid, ReplayOps(s, zones[..i]), Done)
    requires Ran(mid, after, RecoverOps(AfterReplay(s, zones[..i]), zones[i]), r)
    ensures Ran(before, after, ReplayOps(s, zones[..i + 1]), r)
    ensures AfterReplay(s, zones[..i + 1]) == AfterRecover(AfterReplay(s, zones[..i]), zones[i])
  {
    ReplayNext(s, zones, i);
    RanThen(before, mid, after, ReplayOps(s, zones[..i]), RecoverOps(AfterReplay(s, zones[..i]), zones[i]), r);
  }

  lemma {:induction false} ReplayedEarly(before: seq<Op>, after: seq<Op>, s: State, zones: seq<string>, i: nat,
      r: Attempt)
    requires i <= |zones| && !r.Done? && Ran(before, after, ReplayOps(s, zones[..i]), r)
    ensures Ran(before, after, ReplayOps(s, zones), r)
    decreases |zones| - i
  {
    if i < |zones| {
      ReplayNext(s, zones, i);
      RanEarly(before, after, ReplayOps(s, zones[..i]), RecoverOps(AfterReplay(s, zones[..i]), zones[i]), r);
      ReplayedEarly(before, after, s, zones, i + 1, r);
    } else {
      assert zones[..i] == zones;
    }
  }

  lemma Regroup<T>(a: seq<T>, b: seq<T>, c: seq<T>, d: seq<T>)
    ensures a + b + c + d == a + (b + c) + d
  {
  }

  lemma AbortedShows(before: seq<Op>, broken: seq<Op>, after: seq<Op>, zone: string)
    requires before <= broken && (after == broken || after == broken + [Abort(zone)])
    ensures before <= after
    ensures after[|before|..] == broken[|before|..] || after[|before|..] == broken[|before|..] + [Abort(zone)]
  {
  }

  lemma UnsetSplit(zone: string, keys: seq<Key>, i: nat)
    requires i < |keys|
    ensures UnsetOps(zone, keys)
            == UnsetOps(zone, keys[..i]) + [UnsetRRset(zone, keys[i])] + UnsetOps(zone, keys[i + 1..])
    ensures UnsetOps(zone, keys[..i + 1]) == UnsetOps(zone, keys[..i]) + [UnsetRRset(zone, keys[i])]
  {
  }

  lemma SetSplit(zone: string, entries: seq<Entry>, i: nat)
    requires i < |entries|
    ensures SetOps(zone, entries)
            == SetOps(zone, entries[..i]) + [SetRecord(zone, entries[i])] + SetOps(zone, entries[i + 1..])
    ensures SetOps(zone, entries[..i + 1]) == SetOps(zone, entries[..i]) + [SetRecord(zone, entries[i])]
  {
  }

  lemma SetAppend(zone: string, a: seq<Entry>, b: seq<Entry>)
    ensures SetOps(zone, a + b) == SetOps(zone, a) + SetOps(zone, b)
  {
  }

  /** The commands of one record stand between those of the records before and after it. */
  lemma {:induction false} RecordSplit(zone: string, records: seq<Record>, i: nat) returns (rest: seq<Op>)
    requires i < |records|
    ensures SetOps(zone, RecordsEntries(records[..i + 1]))
            == SetOps(zone, RecordsEntries(records[..i])) + SetOps(zone, RecordEntries(records[i]))
    ensures SetOps(zone, RecordsEntries(records)) == SetOps(zone, RecordsEntries(records[..i + 1])) + rest
  {
    if i + 1 < |records| {
      var n := |records| - 1;
      var init := records[..n];
      rest := RecordSplit(zone, init, i);
      assert init[..i] == records[..i] && init[..i + 1] == records[..i + 1];
      SetAppend(zone, RecordsEntries(init), RecordEntries(records[n]));
      rest := rest + SetOps(zone, RecordEntries(records[n]));
    } else {
      assert records[..i + 1] == records;
      SetAppend(zone, RecordsEntries(records[..i]), RecordEntries(records[i]));
      rest := [];
    }
  }
}
