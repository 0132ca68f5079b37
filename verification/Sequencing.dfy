/** What precedes what inside a call: the check of a zone file before it counts, the steps of a
    transition before its commit, and the include after every state write. */
module Sequencing {
  import opened Effects
  import opened Journal
  import opened Losses
  import opened Recovery
  import opened Runs
  import opened Saves
  import opened Script
  import opened Service
  import opened Text
  import opened Wrappers
  import opened Zones

  /** The effect changes or removes the file of the zone. */
  predicate TouchesFile(op: Op, zone: string) {
    (op.WriteZoneFile? || op.UnlinkZoneFile?) && op.zone == zone
  }

  ghost predicate PreparedBy(done: seq<Op>, zone: string, p: Payload, i: nat, j: nat) {
    && i < j < |done| && done[i] == WriteZoneFile(zone, p) && done[j] == CheckZoneFile(zone)
    && forall l | i < l < |done| :: !TouchesFile(done[l], zone)
  }

  /** The payload's file was written, has been checked since, and was not touched after that. */
  ghost predicate Prepared(done: seq<Op>, zone: string, p: Payload) {
    exists i: nat, j: nat :: PreparedBy(done, zone, p, i, j)
  }

  ghost predicate Follow3(done: seq<Op>, a: Op, b: Op, c: Op) {
    exists i: nat, j: nat, k: nat :: i < j < k < |done| && done[i] == a && done[j] == b && done[k] == c
  }

  /** Knot has been brought to where the transition wants it, step by step: a new zone is loaded from
      its checked file and then signed; an updated one is committed, signed and flushed; a deleted
      one is dropped, purged and unlinked. */
  ghost predicate Completed(done: seq<Op>, zone: string, t: Transition) {
    match t
    case Upsert(None, desired) => Follow3(done, CheckZoneFile(zone), Reload, Sign(zone))
    case Upsert(Some(_), _) => Follow3(done, CommitZone(zone), Sign(zone), Flush(zone))
    case Delete(_) => Follow3(done, Reload, Purge(zone), UnlinkZoneFile(zone))
  }

  predicate Creates(t: Transition) {
    t.Upsert? && t.previous.None?
  }

  /** Knot reloads only when the files of new zones are prepared, a transition leaves the journal only
      when it is completed, and the include lists what the state file holds. */
  ghost predicate OrderedAt(s: State, ops: seq<Op>, k: nat)
    requires k < |ops|
  {
    var done, t := ops[..k], StateAfter(s, ops[..k]);
    match ops[k]
    case Reload => forall z | z in t.pending && Creates(t.pending[z]) :: Prepared(done, z, t.pending[z].desired)
    case SaveState(u) => forall z | z in t.pending && z !in u.pending :: Completed(done, z, t.pending[z])
    case WriteInclude(lines) => lines == IncludeOf(t)
    case _ => true
  }

  ghost predicate Ordered(s: State, ops: seq<Op>) {
    forall k: nat | k < |ops| :: OrderedAt(s, ops, k)
  }

  lemma PreparedAfter(a: seq<Op>, done: seq<Op>, zone: string, p: Payload)
    requires Prepared(done, zone, p)
    ensures Prepared(a + done, zone, p)
  {
    var i: nat, j: nat :| PreparedBy(done, zone, p, i, j);
    var all := a + done;
    forall l | |a| + i < l < |all| ensures !TouchesFile(all[l], zone) {
      assert all[l] == done[l - |a|];
    }
    assert PreparedBy(all, zone, p, |a| + i, |a| + j);
  }

  lemma Follow3After(a: seq<Op>, done: seq<Op>, x: Op, y: Op, z: Op)
    requires Follow3(done, x, y, z)
    ensures Follow3(a + done, x, y, z)
  {
    var i: nat, j: nat, k: nat :| i < j < k < |done| && done[i] == x && done[j] == y && done[k] == z;
    var all := a + done;
    assert all[|a| + i] == x && all[|a| + j] == y && all[|a| + k] == z;
  }

  lemma CompletedAfter(a: seq<Op>, done: seq<Op>, zone: string, t: Transition)
    requires Completed(done, zone, t)
    ensures Completed(a + done, zone, t)
  {
    match t
    case Upsert(None, desired) => Follow3After(a, done, CheckZoneFile(zone), Reload, Sign(zone));
    case Upsert(Some(_), _) => Follow3After(a, done, CommitZone(zone), Sign(zone), Flush(zone));
    case Delete(_) => Follow3After(a, done, Reload, Purge(zone), UnlinkZoneFile(zone));
  }

  lemma OrderedLater(s: State, a: seq<Op>, b: seq<Op>, k: nat, n: nat)
    requires k < |b| && n == |a| + k && OrderedAt(StateAfter(s, a), b, k)
    ensures OrderedAt(s, a + b, n)
  {
    var done, t := b[..k], StateAfter(StateAfter(s, a), b[..k]);
    assert (a + b)[..n] == a + done && (a + b)[n] == b[k];
    StateAfterAppend(s, a, done);
    match b[k]
    case Reload =>
      forall z | z in t.pending && Creates(t.pending[z]) ensures Prepared(a + done, z, t.pending[z].desired) {
        PreparedAfter(a, done, z, t.pending[z].desired);
      }
    case SaveState(u) =>
      forall z | z in t.pending && z !in u.pending ensures Completed(a + done, z, t.pending[z]) {
        CompletedAfter(a, done, z, t.pending[z]);
      }
    case _ =>
  }

  lemma OrderedEarlier(s: State, a: seq<Op>, b: seq<Op>, k: nat)
    requires k < |a| && OrderedAt(s, a, k)
    ensures OrderedAt(s, a + b, k)
  {
    assert (a + b)[..k] == a[..k] && (a + b)[k] == a[k];
  }

  lemma OrderedAppend(s: State, a: seq<Op>, b: seq<Op>)
    requires Ordered(s, a) && Ordered(StateAfter(s, a), b)
    ensures Ordered(s, a + b)
  {
    forall n: nat | n < |a + b| ensures OrderedAt(s, a + b, n) {
      if n < |a| {
        OrderedEarlier(s, a, b, n);
      } else {
        OrderedLater(s, a, b, n - |a|, n);
      }
    }
  }

  lemma OrderedSnoc(s: State, a: seq<Op>, op: Op)
    requires Ordered(s, a) && OrderedAt(s, a + [op], |a|)
    ensures Ordered(s, a + [op])
  {
    forall n: nat | n < |a + [op]| ensures OrderedAt(s, a + [op], n) {
      if n < |a| {
        OrderedEarlier(s, a, [op], n);
      }
    }
  }

  /** Effects that are none of the three kinds. */
  predicate Free(op: Op) {
    !op.Reload? && !op.SaveState? && !op.WriteInclude?
  }

  lemma FreeOrdered(s: State, ops: seq<Op>)
    requires forall op | op in ops :: Free(op)
    ensures Ordered(s, ops)
  {
    forall k: nat | k < |ops| ensures OrderedAt(s, ops, k) {
      assert ops[k] in ops;
    }
  }

  lemma ListOrdered(s: State)
    ensures Ordered(s, [WriteInclude(IncludeOf(s))])
  {
    var list := [WriteInclude(IncludeOf(s))];
    assert list[..0] == [];
  }

  // ----- the scripts -----

  lemma PrepareOrdered(s: State, zone: string, p: Payload)
    ensures Ordered(s, PrepareOps(zone, p)) && StateAfter(s, PrepareOps(zone, p)) == s
    ensures Prepared(PrepareOps(zone, p), zone, p)
  {
    var ops := PrepareOps(zone, p);
    FreeOrdered(s, ops);
    NoSaveKeeps(s, ops);
    assert PreparedBy(ops, zone, p, 0, 1);
  }

  lemma CreateOrdered(s: State, zone: string, p: Payload)
    requires s.pending.Keys == {zone} && Creates(s.pending[zone]) && s.pending[zone].desired == p
    ensures Ordered(s, MutateOps(zone, s.pending[zone]))
    ensures Completed(MutateOps(zone, s.pending[zone]), zone, s.pending[zone])
  {
    var prepare, ops := PrepareOps(zone, p), PrepareOps(zone, p) + [Reload] + [Sign(zone)];
    PrepareOrdered(s, zone, p);
    assert (prepare + [Reload])[..|prepare|] == prepare;
    OrderedSnoc(s, prepare, Reload);
    assert (prepare + [Reload] + [Sign(zone)])[|prepare + [Reload]|] == Sign(zone);
    OrderedSnoc(s, prepare + [Reload], Sign(zone));
    assert ops[1] == CheckZoneFile(zone) && ops[2] == Reload && ops[3] == Sign(zone);
  }

  lemma DropOrdered(s: State, zone: string)
    requires s.pending.Keys == {zone} && s.pending[zone].Delete?
    ensures Ordered(s, MutateOps(zone, s.pending[zone]))
    ensures Completed(MutateOps(zone, s.pending[zone]), zone, s.pending[zone])
  {
    var reload, rest := [Reload], [Purge(zone)] + [UnlinkZoneFile(zone)];
    var ops := [Reload] + [Purge(zone)] + [UnlinkZoneFile(zone)];
    assert reload[..0] == [] && StateAfter(s, []) == s;
    assert OrderedAt(s, reload, 0);
    NoSaveKeeps(s, reload);
    FreeOrdered(s, rest);
    OrderedAppend(s, reload, rest);
    assert ops == reload + rest;
    assert ops[0] == Reload && ops[1] == Purge(zone) && ops[2] == UnlinkZoneFile(zone);
  }

  lemma EditFree(zone: string, previous: Payload, desired: Payload)
    ensures forall op | op in EditOps(zone, previous, desired) :: Free(op)
  {
  }

  lemma UpdateFree(zone: string, previous: Payload, desired: Payload)
    ensures forall op | op in UpdateOps(zone, previous, desired) :: Free(op)
  {
    var begin, edits := [Begin(zone)], EditOps(zone, previous, desired);
    var commit, tail := [CommitZone(zone)], [Sign(zone), Flush(zone)];
    EditFree(zone, previous, desired);
    forall op | op in begin + edits + commit + tail ensures Free(op) {
      if op !in edits {
        assert op in begin || op in commit || op in tail;
      }
    }
  }

  lemma UpdateOrdered(s: State, zone: string, previous: Payload, desired: Payload)
    ensures Ordered(s, UpdateOps(zone, previous, desired))
    ensures Completed(UpdateOps(zone, previous, desired), zone, Upsert(Some(previous), desired))
  {
    var ops := UpdateOps(zone, previous, desired);
    UpdateFree(zone, previous, desired);
    FreeOrdered(s, ops);
    var n := |[Begin(zone)] + EditOps(zone, previous, desired)|;
    assert ops[n] == CommitZone(zone) && ops[n + 1] == Sign(zone) && ops[n + 2] == Flush(zone);
  }

  lemma MutateOrdered(s: State, zone: string)
    requires s.pending.Keys == {zone}
    ensures Ordered(s, MutateOps(zone, s.pending[zone])) && StateAfter(s, MutateOps(zone, s.pending[zone])) == s
    ensures Completed(MutateOps(zone, s.pending[zone]), zone, s.pending[zone])
  {
    MutateConcerns(zone, s.pending[zone]);
    NoSaveKeeps(s, MutateOps(zone, s.pending[zone]));
    match s.pending[zone]
    case Upsert(None, desired) => CreateOrdered(s, zone, desired);
    case Upsert(Some(previous), desired) => UpdateOrdered(s, zone, previous, desired);
    case Delete(_) => DropOrdered(s, zone);
  }

  lemma CommitOrdered(s: State, zone: string, done: seq<Op>)
    requires s.pending.Keys == {zone} && Ordered(s, done) && StateAfter(s, done) == s
    requires Completed(done, zone, s.pending[zone])
    ensures Ordered(s, done + CommitOps(s, zone))
  {
    var save, list := SaveState(Commit(s, zone)), WriteInclude(IncludeOf(Commit(s, zone)));
    assert (done + [save])[..|done|] == done;
    OrderedSnoc(s, done, save);
    StateAfterAppend(s, done, [save]);
    ListOrdered(Commit(s, zone));
    OrderedAppend(s, done + [save], [list]);
    assert done + CommitOps(s, zone) == done + [save] + [list];
  }

  lemma RecoverOrdered(s: State, zone: string)
    requires s.pending.Keys == {zone}
    ensures Ordered(s, RecoverOps(s, zone))
  {
    var list, mutate := [WriteInclude(IncludeOf(s))], MutateOps(zone, s.pending[zone]);
    ListOrdered(s);
    NoSaveKeeps(s, list);
    MutateOrdered(s, zone);
    OrderedAppend(s, list, mutate);
    StateAfterAppend(s, list, mutate);
    CompletedAfter(list, mutate, zone, s.pending[zone]);
    CommitOrdered(s, zone, list + mutate);
  }

  lemma RecoverAllOrdered(s: State)
    requires Sound(s)
    ensures Ordered(s, RecoverAllOps(s))
  {
    PendingNames(s);
    if SortNames(s.pending.Keys) == [] {
      NothingPending(s);
    } else {
      var zone :| zone in s.pending && SortNames(s.pending.Keys) == [zone];
      RecoverOnePending(s, zone);
      OnlyPending(s, zone);
      RecoverOrdered(s, zone);
    }
  }

  lemma OpeningOrdered(task: Task, s: State)
    requires Sound(s)
    ensures Ordered(s, OpeningOps(task, s))
  {
    var list, replay, prepare := [WriteInclude(IncludeOf(s))], RecoverAllOps(s), PreparationOps(task, s);
    RecoverAllOrdered(s);
    RecoverAllCommits(s);
    ListOrdered(s);
    NoSaveKeeps(s, list);
    OrderedAppend(s, list, replay);
    FreeOrdered(Recovered(s), prepare);
    OrderedAppend(s, replay, prepare);
    OpeningIs(task, s);
  }

  lemma StageOrdered(staged: State, zone: string)
    requires staged.pending.Keys == {zone}
    ensures Ordered(staged, FollowOps(staged, zone))
  {
    var list := [WriteInclude(IncludeOf(staged))];
    ListOrdered(staged);
    NoSaveKeeps(staged, list);
    RecoverOrdered(staged, zone);
    OrderedAppend(staged, list, RecoverOps(staged, zone));
  }

  lemma StagingOrdered(task: Task, s: State, staged: State)
    requires Sound(s) && Staged(task, s) == Some(staged)
    ensures var ops := OpeningOps(task, s) + [SaveState(staged)]; Ordered(s, ops) && StateAfter(s, ops) == staged
  {
    var a := OpeningOps(task, s);
    OpeningOrdered(task, s);
    OpeningCommits(task, s);
    assert (a + [SaveState(staged)])[..|a|] == a;
    OrderedSnoc(s, a, SaveState(staged));
    StateAfterAppend(s, a, [SaveState(staged)]);
  }

  /** In every script a new zone's file is prepared before each reload, a transition is completed
      before the state write that commits it, and every include lists the state of the moment. */
  lemma ScriptOrdered(task: Task, s: State)
    requires Sound(s) && Admissible(task)
    ensures Ordered(s, ScriptOf(task, s))
  {
    match Staged(task, s)
    case None => OpeningOrdered(task, s);
    case Some(staged) =>
      StagedJournal(task, s);
      StagingOrdered(task, s, staged);
      StageOrdered(staged, task.zone);
      OrderedAppend(s, OpeningOps(task, s) + [SaveState(staged)], FollowOps(staged, task.zone));
      Join(OpeningOps(task, s), [SaveState(staged)], FollowOps(staged, task.zone));
  }

  // ----- before the staging write -----

  /** Before the staging write of a request for a zone that is not intended, the call has written the
      file of the payload and had it checked, and has not touched it since. */
  lemma StagedFileIsChecked(task: Task, s: State, k: nat)
    requires Sound(s) && Admissible(task) && task.Apply? && task.zone !in Effective(s) && k < |ScriptOf(task, s)|
    requires var op := ScriptOf(task, s)[k]; op.SaveState? && task.zone in op.state.pending
    ensures Prepared(ScriptOf(task, s)[..k], task.zone, task.payload)
  {
    var prepare := PrepareOps(task.zone, task.payload);
    JournalGrowsAtStaging(task, s, k, task.zone);
    StagingAt(task, s);
    PrepareOrdered(s, task.zone, task.payload);
    PreparedAfter(RecoverAllOps(s), prepare, task.zone, task.payload);
    JudgeIs(Effective(s), task.zone, task.payload);
    assert ScriptOf(task, s)[..k] == RecoverAllOps(s) + prepare;
  }

  // ----- the include after every state write -----

  /** Every state write is followed at once by the include of the state written. */
  ghost predicate Followed(ops: seq<Op>) {
    forall k: nat | k < |ops| && ops[k].SaveState? ::
      k + 1 < |ops| && ops[k + 1] == WriteInclude(IncludeOf(ops[k].state))
  }

  lemma FollowedAppend(a: seq<Op>, b: seq<Op>)
    requires Followed(a) && Followed(b)
    ensures Followed(a + b)
  {
    var all := a + b;
    forall k: nat | k < |all| && all[k].SaveState?
      ensures k + 1 < |all| && all[k + 1] == WriteInclude(IncludeOf(all[k].state))
    {
      if k >= |a| {
        assert all[k] == b[k - |a|] && b[k - |a| + 1] == all[k + 1];
      }
    }
  }

  lemma SavedAndListed(s: State)
    ensures Followed([SaveState(s)] + [WriteInclude(IncludeOf(s))])
  {
  }

  lemma NoSaveFollowed(ops: seq<Op>)
    requires NoSave(ops)
    ensures Followed(ops)
  {
  }

  lemma RecoverFollowed(s: State, zone: string)
    ensures Followed(RecoverOps(s, zone))
  {
    if zone in s.pending {
      var list, mutate := [WriteInclude(IncludeOf(s))], MutateOps(zone, s.pending[zone]);
      MutateConcerns(zone, s.pending[zone]);
      NoSaveFollowed(list + mutate);
      SavedAndListed(Commit(s, zone));
      FollowedAppend(list + mutate, CommitOps(s, zone));
    }
  }

  lemma {:induction false} ReplayFollowed(s: State, zones: seq<string>)
    ensures Followed(ReplayOps(s, zones))
  {
    if zones != [] {
      var n := |zones| - 1;
      ReplayFollowed(s, zones[..n]);
      RecoverFollowed(AfterReplay(s, zones[..n]), zones[n]);
      FollowedAppend(ReplayOps(s, zones[..n]), RecoverOps(AfterReplay(s, zones[..n]), zones[n]));
    }
  }

  lemma FollowedAround(a: seq<Op>, b: seq<Op>, c: seq<Op>)
    requires NoSave(a) && Followed(b) && NoSave(c)
    ensures Followed(a + b) && Followed(b + c)
  {
    NoSaveFollowed(a);
    FollowedAppend(a, b);
    NoSaveFollowed(c);
    FollowedAppend(b, c);
  }

  lemma PreparationSavesNothing(task: Task, s: State)
    ensures NoSave(PreparationOps(task, s))
  {
  }

  lemma OpeningFollowed(task: Task, s: State)
    ensures Followed(OpeningOps(task, s))
  {
    var list := [WriteInclude(IncludeOf(s))];
    ReplayFollowed(s, SortNames(s.pending.Keys));
    PreparationSavesNothing(task, s);
    FollowedAround(list, RecoverAllOps(s), PreparationOps(task, s));
    OpeningIs(task, s);
  }

  /** In every script each state write is followed at once by the include of that state. */
  lemma IncludeFollowsState(task: Task, s: State)
    ensures Followed(ScriptOf(task, s))
  {
    OpeningFollowed(task, s);
    match Staged(task, s)
    case None =>
    case Some(staged) =>
      var save, list := [SaveState(staged)], [WriteInclude(IncludeOf(staged))];
      SavedAndListed(staged);
      RecoverFollowed(staged, task.zone);
      FollowedAppend(save + list, RecoverOps(staged, task.zone));
      Join(save, list, RecoverOps(staged, task.zone));
      FollowedAppend(OpeningOps(task, s), save + FollowOps(staged, task.zone));
  }

  ghost predicate Lists(lines: seq<string>, e: map<string, Payload>) {
    IncludedZones(lines) == e.Keys
  }

  lemma {:induction false} LastInclude(w: World, ops: seq<Op>, e: map<string, Payload>)
    requires forall op | op in ops && op.WriteInclude? :: Lists(op.lines, e)
    requires Lists(w.config, e) || exists op :: op in ops && op.WriteInclude?
    ensures Lists(ExecAll(w, ops).config, e)
  {
    if ops != [] {
      var n := |ops| - 1;
      if !ops[n].WriteInclude? {
        assert forall op :: op in ops <==> op in ops[..n] || op == ops[n];
        LastInclude(w, ops[..n], e);
        ConfigKept(ExecAll(w, ops[..n]), ops[n]);
      }
    }
  }

  lemma ConfigKept(w: World, op: Op)
    requires !op.WriteInclude?
    ensures Exec(w, op).config == w.config
  {
  }

  lemma IncludeAt(task: Task, s: State, k: nat)
    requires Sound(s) && Admissible(task) && k < |ScriptOf(task, s)| && ScriptOf(task, s)[k].WriteInclude?
    ensures Lists(ScriptOf(task, s)[k].lines, Effective(StateAfter(s, ScriptOf(task, s)[..k])))
  {
    ScriptOrdered(task, s);
    assert OrderedAt(s, ScriptOf(task, s), k);
    IncludeListsEffective(StateAfter(s, ScriptOf(task, s)[..k]));
  }

  lemma BootMeans(s: State, k: nat)
    requires Sound(s) && k < |ScriptOf(Boot, s)|
    ensures Effective(StateAfter(s, ScriptOf(Boot, s)[..k])) == Effective(s)
  {
    ScriptStates(Boot, s, k);
  }

  lemma AllList(ops: seq<Op>, e: map<string, Payload>)
    requires forall k: nat | k < |ops| && ops[k].WriteInclude? :: Lists(ops[k].lines, e)
    ensures forall op | op in ops && op.WriteInclude? :: Lists(op.lines, e)
  {
  }

  lemma BootIncludes(s: State)
    requires Sound(s)
    ensures forall op | op in ScriptOf(Boot, s) && op.WriteInclude? :: Lists(op.lines, Effective(s))
    ensures WriteInclude(IncludeOf(s)) in ScriptOf(Boot, s)
  {
    var ops := ScriptOf(Boot, s);
    BootOps(s);
    assert ops[0] == WriteInclude(IncludeOf(s));
    forall k: nat | k < |ops| && ops[k].WriteInclude? ensures Lists(ops[k].lines, Effective(s)) {
      IncludeAt(Boot, s, k);
      BootMeans(s, k);
    }
    AllList(ops, Effective(s));
  }

  /** A start repairs the include: whatever it was, it lists the effective zones afterwards. */
  lemma StartRepairsInclude(w: World)
    requires Sound(Disk(w))
    ensures IncludedZones(ExecAll(w, ScriptOf(Boot, Disk(w))).config) == Effective(Disk(w)).Keys
  {
    BootIncludes(Disk(w));
    LastInclude(w, ScriptOf(Boot, Disk(w)), Effective(Disk(w)));
  }

  // ----- whole runs -----

  /** The two systems are in the same call, and the second has done more of it than n effects. */
  ghost predicate Further(s: System, c: Call, n: nat) {
    s.call.Some? && s.call.value == c.(done := s.call.value.done) && n < s.call.value.done <= c.done
  }

  lemma StaysInCall(s: System, e: Event)
    requires Enabled(s, e) && Step(s, e).call.Some? && Step(s, e).call.value.done > 0
    ensures s.call.Some? && Step(s, e).call.value == s.call.value.(done := Step(s, e).call.value.done)
    ensures Step(s, e).call.value.done == s.call.value.done + if e.Effect? then 1 else 0
  {
  }

  lemma CameFrom(r: Run, h: nat, i: nat)
    requires ValidRun(r) && h < |r.events| && i == h + 1 && r.systems[i].call.Some?
    requires r.systems[i].call.value.done > 0
    ensures r.systems[h].call.Some?
    ensures var b, c := r.systems[h].call.value, r.systems[i].call.value;
            c == b.(done := c.done) && c.done == b.done + if r.events[h].Effect? then 1 else 0
  {
    assert StepOf(r, h);
    StaysInCall(r.systems[h], r.events[h]);
  }

  /** Every effect that a call has done is an event of the run, and nothing but the call's own effects
      has happened since. */
  lemma {:induction false} EffectOfCall(r: Run, i: nat, k: nat) returns (j: nat)
    requires ValidRun(r) && i < |r.systems| && r.systems[i].call.Some? && k < r.systems[i].call.value.done
    ensures j < i && r.events[j] == Effect && r.systems[j].call == Some(r.systems[i].call.value.(done := k))
    ensures forall l | j < l <= i :: Further(r.systems[l], r.systems[i].call.value, k)
    decreases i
  {
    assert i > 0;
    var h := i - 1;
    CameFrom(r, h, i);
    if r.systems[h].call.value.done == k {
      j := h;
    } else {
      j := EffectOfCall(r, h, k);
    }
  }

  /** The event is this effect. */
  ghost predicate Does(r: Run, j: nat, op: Op)
    requires |r.systems| == |r.events| + 1 && j < |r.events|
  {
    r.events[j] == Effect && Working(r.systems[j]) && NextOp(r.systems[j]) == op
  }

  /** Events a and b of the run belong to the call that is under way at instant i: they write the file
      of the payload and have it checked, and nothing touches the file after that. */
  ghost predicate PreparedSince(r: Run, a: nat, b: nat, i: nat, zone: string, p: Payload)
    requires |r.systems| == |r.events| + 1 && i < |r.events|
  {
    && a < b < i && Does(r, a, WriteZoneFile(zone, p)) && Does(r, b, CheckZoneFile(zone))
    && (forall l | a <= l <= i :: r.systems[l].call.Some? && r.systems[i].call.Some?
                                  && r.systems[l].call.value.entry == r.systems[i].call.value.entry)
    && (forall l, op | a < l < i && Does(r, l, op) :: !TouchesFile(op, zone))
  }

  lemma EffectIs(r: Run, i: nat, k: nat) returns (j: nat)
    requires ValidRun(r) && i < |r.events| && Working(r.systems[i]) && k < r.systems[i].call.value.done
    ensures j < i && Does(r, j, ScriptOfCall(r.systems[i].call.value)[k])
    ensures r.systems[j].call == Some(r.systems[i].call.value.(done := k))
    ensures forall l | j < l <= i :: Further(r.systems[l], r.systems[i].call.value, k)
  {
    j := EffectOfCall(r, i, k);
  }

  lemma Untouched(r: Run, a: nat, l: nat, next: nat, i: nat, k: nat, op: Op, zone: string)
    requires ValidRun(r) && a < l < i < |r.events| && next == l + 1 && Working(r.systems[i]) && Does(r, l, op)
    requires forall m | a < m <= i :: Further(r.systems[m], r.systems[i].call.value, k)
    requires var c := r.systems[i].call.value;
             c.done <= |ScriptOfCall(c)| && forall m | k < m < c.done :: !TouchesFile(ScriptOfCall(c)[m], zone)
    ensures !TouchesFile(op, zone)
  {
    var c := r.systems[i].call.value;
    assert Further(r.systems[l], c, k) && Further(r.systems[next], c, k);
    assert StepOf(r, l);
    StaysInCall(r.systems[l], r.events[l]);
    assert ScriptOfCall(r.systems[l].call.value) == ScriptOfCall(c);
  }

  /** The effects m and n of the call prepare the file, and those after m leave it alone. */
  ghost predicate Prepares(c: Call, m: nat, n: nat, zone: string, p: Payload) {
    && m < n < c.done <= |ScriptOfCall(c)|
    && ScriptOfCall(c)[m] == WriteZoneFile(zone, p) && ScriptOfCall(c)[n] == CheckZoneFile(zone)
    && forall l | m < l < c.done :: !TouchesFile(ScriptOfCall(c)[l], zone)
  }

  lemma PreparesAt(c: Call, zone: string, p: Payload) returns (m: nat, n: nat)
    requires c.done <= |ScriptOfCall(c)| && Prepared(ScriptOfCall(c)[..c.done], zone, p)
    ensures Prepares(c, m, n, zone, p)
  {
    var done := ScriptOfCall(c)[..c.done];
    m, n :| PreparedBy(done, zone, p, m, n);
    forall l | m < l < c.done ensures !TouchesFile(ScriptOfCall(c)[l], zone) {
      assert done[l] == ScriptOfCall(c)[l];
    }
  }

  lemma LaterUntouched(r: Run, a: nat, i: nat, k: nat, zone: string)
    requires ValidRun(r) && a < i < |r.events| && Working(r.systems[i])
    requires forall m | a < m <= i :: Further(r.systems[m], r.systems[i].call.value, k)
    requires var c := r.systems[i].call.value; forall m | k < m < c.done :: !TouchesFile(ScriptOfCall(c)[m], zone)
    ensures forall l, op | a < l < i && Does(r, l, op) :: !TouchesFile(op, zone)
  {
    forall l, op | a < l < i && Does(r, l, op) ensures !TouchesFile(op, zone) {
      Untouched(r, a, l, l + 1, i, k, op, zone);
    }
  }

  lemma SameCall(r: Run, a: nat, i: nat, k: nat)
    requires |r.systems| == |r.events| + 1 && a < i < |r.events| && r.systems[i].call.Some?
    requires r.systems[a].call == Some(r.systems[i].call.value.(done := k))
    requires forall l | a < l <= i :: Further(r.systems[l], r.systems[i].call.value, k)
    ensures forall l | a <= l <= i :: r.systems[l].call.Some? && r.systems[i].call.Some?
                                      && r.systems[l].call.value.entry == r.systems[i].call.value.entry
  {
    forall l | a < l <= i ensures r.systems[l].call.Some?
                                  && r.systems[l].call.value.entry == r.systems[i].call.value.entry {
      assert Further(r.systems[l], r.systems[i].call.value, k);
    }
  }

  lemma InTurn(r: Run, a: nat, b: nat, i: nat, m: nat, n: nat)
    requires |r.systems| == |r.events| + 1 && a < i < |r.events| && b < i && m < n && r.systems[i].call.Some?
    requires r.systems[a].call == Some(r.systems[i].call.value.(done := m))
    requires r.systems[b].call == Some(r.systems[i].call.value.(done := n))
    requires forall l | b < l <= i :: Further(r.systems[l], r.systems[i].call.value, n)
    ensures a < b
  {
    forall l | b < l <= i ensures r.systems[l].call != Some(r.systems[i].call.value.(done := m)) {
      assert Further(r.systems[l], r.systems[i].call.value, n);
    }
  }

  lemma PreparedInRun(r: Run, i: nat, zone: string, p: Payload) returns (a: nat, b: nat)
    requires ValidRun(r) && i < |r.events| && Working(r.systems[i])
    requires Prepared(ScriptOfCall(r.systems[i].call.value)[..r.systems[i].call.value.done], zone, p)
    ensures PreparedSince(r, a, b, i, zone, p)
  {
    var m, n := PreparesAt(r.systems[i].call.value, zone, p);
    a := EffectIs(r, i, m);
    b := EffectIs(r, i, n);
    InTurn(r, a, b, i, m, n);
    LaterUntouched(r, a, i, m, zone);
    SameCall(r, a, i, m);
  }

  /** On any run: before the state write that stages the creation of a zone, its call has written the
      zone's file with that payload and had it checked, and nothing has touched the file since. */
  lemma CreationIsChecked(r: Run, i: nat, zone: string, p: Payload) returns (a: nat, b: nat)
    requires ValidRun(r) && i < |r.events| && Working(r.systems[i])
    requires r.systems[i].call.value.task == Apply(zone, p) && zone !in EffectiveZones(r.systems[i])
    requires var op := NextOp(r.systems[i]); op.SaveState? && zone in op.state.pending
    ensures PreparedSince(r, a, b, i, zone, p)
  {
    var c := r.systems[i].call.value;
    RunKeepsStates(r, i);
    JournalGrowsAtStaging(c.task, Disk(c.entry), c.done, zone);
    ScriptStates(c.task, Disk(c.entry), c.done);
    StagedFileIsChecked(c.task, Disk(c.entry), c.done);
    a, b := PreparedInRun(r, i, zone, p);
  }

  lemma ReloadInOrder(s: State, ops: seq<Op>, k: nat, t: State, zone: string)
    requires Ordered(s, ops) && k < |ops| && ops[k].Reload? && t == StateAfter(s, ops[..k])
    requires zone in t.pending && Creates(t.pending[zone])
    ensures Prepared(ops[..k], zone, t.pending[zone].desired)
  {
    assert OrderedAt(s, ops, k);
  }

  lemma ReloadPrepared(s: System, zone: string)
    requires StateInvariant(s) && Working(s) && NextOp(s).Reload?
    requires zone in Disk(s.world).pending && Creates(Disk(s.world).pending[zone])
    ensures Prepared(ScriptOfCall(s.call.value)[..s.call.value.done], zone, Disk(s.world).pending[zone].desired)
  {
    var c := s.call.value;
    ScriptOrdered(c.task, Disk(c.entry));
    ReloadInOrder(Disk(c.entry), ScriptOfCall(c), c.done, Disk(s.world), zone);
  }

  /** And before every reload with the creation of a zone pending, first attempt or replay. */
  lemma ReloadIsChecked(r: Run, i: nat, zone: string) returns (a: nat, b: nat)
    requires ValidRun(r) && i < |r.events| && Working(r.systems[i]) && NextOp(r.systems[i]).Reload?
    requires var s := Disk(r.systems[i].world); zone in s.pending && Creates(s.pending[zone])
    ensures PreparedSince(r, a, b, i, zone, Disk(r.systems[i].world).pending[zone].desired)
  {
    var p := Disk(r.systems[i].world).pending[zone].desired;
    RunKeepsStates(r, i);
    ReloadPrepared(r.systems[i], zone);
    a, b := PreparedInRun(r, i, zone, p);
  }

  /** An objection of the check, or any other error, while the zone is not intended leaves the effective
      zones as the call found them. */
  lemma ObjectionStagesNothing(r: Run, i: nat, zone: string, p: Payload)
    requires ValidRun(r) && i < |r.events| && r.events[i].Raise?
    requires r.systems[i].call.Some? && r.systems[i].call.value.task == Apply(zone, p)
    requires zone !in EffectiveZones(r.systems[i])
    ensures EffectiveZones(r.systems[i + 1]) == Effective(Disk(r.systems[i].call.value.entry))
  {
    var c := r.systems[i].call.value;
    RunKeepsStates(r, i);
    assert StepOf(r, i);
    RaiseKeepsStates(r.systems[i], r.events[i].applied, r.events[i].aborted);
    ScriptStates(c.task, Disk(c.entry), c.done);
  }
}
