/** Where the state writes of a script stand, and which effects concern which zone. */
module Saves {
  import opened Effects
  import opened Journal
  import opened Recovery
  import opened Script
  import opened Text
  import opened Wrappers
  import opened Zones

  /** The effect changes something that belongs to this zone alone. */
  predicate Concerns(op: Op, zone: string) {
    !op.SaveState? && !op.WriteInclude? && !op.Reload? && op.zone == zone
  }

  /** A state write, if it is one, that leaves the journal empty. */
  predicate Empties(op: Op) {
    op.SaveState? ==> op.state.pending == map[]
  }

  /** The effect does nothing to the zone, and a state write keeps what the state says of it. */
  predicate Spares(op: Op, zone: string, s: State) {
    && !Concerns(op, zone)
    && (op.SaveState? ==> zone !in op.state.pending && Lookup(op.state.zones, zone) == Lookup(s.zones, zone))
  }

  lemma EditConcerns(zone: string, previous: Payload, desired: Payload)
    ensures forall op | op in EditOps(zone, previous, desired) :: Concerns(op, zone)
  {
  }

  lemma UpdateConcerns(zone: string, previous: Payload, desired: Payload)
    ensures forall op | op in UpdateOps(zone, previous, desired) :: Concerns(op, zone)
  {
    EditConcerns(zone, previous, desired);
    var begin, edits := [Begin(zone)], EditOps(zone, previous, desired);
    var commit, tail := [CommitZone(zone)], [Sign(zone), Flush(zone)];
    forall op | op in begin + edits + commit + tail ensures Concerns(op, zone) {
      if op !in edits {
        assert op in begin || op in commit || op in tail;
      }
    }
  }

  lemma MutateConcerns(zone: string, t: Transition)
    ensures forall op | op in MutateOps(zone, t) :: op.Reload? || Concerns(op, zone)
  {
    match t
    case Upsert(Some(previous), desired) => UpdateConcerns(zone, previous, desired);
    case _ =>
  }

  lemma CommitSpares(s: State, zone: string, other: string)
    requires Sound(s) && zone in s.pending
    ensures forall op | op in CommitOps(s, zone) :: Empties(op) && (other != zone ==> Spares(op, other, s))
  {
    var save, list := SaveState(Commit(s, zone)), WriteInclude(IncludeOf(Commit(s, zone)));
    SoundCommit(s, zone);
    assert Empties(save) && (other != zone ==> Spares(save, other, s));
    forall op | op in [save] + [list] ensures Empties(op) && (other != zone ==> Spares(op, other, s)) {
      assert op == save || op == list;
    }
  }

  /** The replay of one transition empties a journal that holds only that transition, and spares
      every other zone. */
  lemma RecoverSpares(s: State, zone: string, other: string)
    requires Sound(s) && zone in s.pending
    ensures forall op | op in RecoverOps(s, zone) :: Empties(op) && (other != zone ==> Spares(op, other, s))
  {
    var list, mutate, commit := [WriteInclude(IncludeOf(s))], MutateOps(zone, s.pending[zone]), CommitOps(s, zone);
    MutateConcerns(zone, s.pending[zone]);
    CommitSpares(s, zone, other);
    forall op | op in list + mutate + commit ensures Empties(op) && (other != zone ==> Spares(op, other, s)) {
      if op !in list && op !in mutate {
        assert op in commit;
      }
    }
  }

  lemma RecoverAllSpares(s: State, zone: string)
    requires Sound(s)
    ensures forall op | op in RecoverAllOps(s) :: Empties(op) && (zone !in s.pending ==> Spares(op, zone, s))
  {
    PendingNames(s);
    if SortNames(s.pending.Keys) == [] {
      NothingPending(s);
    } else {
      var pending :| pending in s.pending && SortNames(s.pending.Keys) == [pending];
      RecoverOnePending(s, pending);
      RecoverSpares(s, pending, zone);
    }
  }

  lemma OpeningEmpties(task: Task, s: State)
    requires Sound(s)
    ensures forall op | op in OpeningOps(task, s) :: Empties(op)
  {
    RecoverAllSpares(s, "");
  }

  lemma FollowEmpties(staged: State, zone: string)
    requires Sound(staged) && zone in staged.pending
    ensures forall op | op in FollowOps(staged, zone) :: Empties(op)
  {
    RecoverSpares(staged, zone, "");
  }

  lemma SoundRecovered(s: State)
    requires Sound(s)
    ensures Sound(Recovered(s))
  {
  }

  lemma InOpening(a: seq<Op>, op: Op, b: seq<Op>, k: nat)
    requires k < |a + ([op] + b)|
    ensures var o := (a + ([op] + b))[k];
            if k < |a| then o in a else if k == |a| then o == op else o in b
  {
  }

  /** Only the staging write puts a transition into the journal, and only one of the request's zone. */
  lemma JournalGrowsAtStaging(task: Task, s: State, k: nat, zone: string)
    requires Sound(s) && Admissible(task) && k < |ScriptOf(task, s)|
    requires var op := ScriptOf(task, s)[k]; op.SaveState? && zone in op.state.pending
    ensures k == |OpeningOps(task, s)| && Requests(task, zone)
  {
    var op := ScriptOf(task, s)[k];
    assert op in ScriptOf(task, s) && !Empties(op);
    OpeningEmpties(task, s);
    match Staged(task, s)
    case None =>
    case Some(staged) =>
      SoundRecovered(s);
      StagedSound(task, s);
      StagedJournal(task, s);
      FollowEmpties(staged, task.zone);
      assert ScriptOf(task, s) == OpeningOps(task, s) + ([SaveState(staged)] + FollowOps(staged, task.zone));
      InOpening(OpeningOps(task, s), SaveState(staged), FollowOps(staged, task.zone), k);
  }

  // ----- the include before the commit -----

  ghost predicate ListsUpTo(ops: seq<Op>, k: nat)
    requires k <= |ops|
  {
    exists j | 0 <= j < k :: ops[j].WriteInclude?
  }

  ghost predicate CommitsListed(ops: seq<Op>, k: nat)
    requires k < |ops|
  {
    ops[k].SaveState? && ops[k].state.pending == map[] ==> ListsUpTo(ops, k)
  }

  /** The include is written before any state write that leaves the journal empty. */
  ghost predicate Listed(ops: seq<Op>) {
    forall k | 0 <= k < |ops| :: CommitsListed(ops, k)
  }

  lemma ListedFirst(op: Op, rest: seq<Op>)
    requires op.WriteInclude?
    ensures Listed([op] + rest)
  {
    var ops := [op] + rest;
    forall k | 0 <= k < |ops| ensures CommitsListed(ops, k) {
      assert ops[0].WriteInclude?;
    }
  }

  lemma ListedAppend(a: seq<Op>, b: seq<Op>)
    requires Listed(a) && Listed(b)
    ensures Listed(a + b)
  {
    var ops := a + b;
    forall k | 0 <= k < |ops| ensures CommitsListed(ops, k) {
      if k < |a| {
        assert CommitsListed(a, k);
        if ops[k].SaveState? && ops[k].state.pending == map[] {
          var j :| 0 <= j < k && a[j].WriteInclude?;
          assert ops[j].WriteInclude?;
        }
      } else {
        assert CommitsListed(b, k - |a|);
        if ops[k].SaveState? && ops[k].state.pending == map[] {
          var j :| 0 <= j < k - |a| && b[j].WriteInclude?;
          assert ops[|a| + j].WriteInclude?;
        }
      }
    }
  }

  lemma RecoverListed(s: State, zone: string)
    ensures Listed(RecoverOps(s, zone))
  {
    if zone in s.pending {
      var list, rest := WriteInclude(IncludeOf(s)), MutateOps(zone, s.pending[zone]) + CommitOps(s, zone);
      assert RecoverOps(s, zone) == [list] + rest;
      ListedFirst(list, rest);
    }
  }

  lemma {:induction false} ReplayListed(s: State, zones: seq<string>)
    ensures Listed(ReplayOps(s, zones))
  {
    if zones != [] {
      var n := |zones| - 1;
      ReplayListed(s, zones[..n]);
      RecoverListed(AfterReplay(s, zones[..n]), zones[n]);
      ListedAppend(ReplayOps(s, zones[..n]), RecoverOps(AfterReplay(s, zones[..n]), zones[n]));
    }
  }

  lemma OpeningListed(task: Task, s: State)
    ensures Listed(OpeningOps(task, s))
  {
    ReplayListed(s, SortNames(s.pending.Keys));
    match task
    case Boot => ListedFirst(WriteInclude(IncludeOf(s)), RecoverAllOps(s));
    case Apply(zone, p) =>
      ListedAppend(RecoverAllOps(s), if Judge(Effective(s), zone, p).Create? then PrepareOps(zone, p) else []);
    case _ =>
  }

  lemma StageListed(staged: State, zone: string)
    requires zone in staged.pending
    ensures Listed([SaveState(staged)] + FollowOps(staged, zone))
  {
    ListedFirst(WriteInclude(IncludeOf(staged)), RecoverOps(staged, zone));
    assert Listed([SaveState(staged)]);
    ListedAppend([SaveState(staged)], FollowOps(staged, zone));
  }

  /** In every script the include has been written before the journal is emptied. */
  lemma ScriptListed(task: Task, s: State)
    ensures Listed(ScriptOf(task, s))
  {
    OpeningListed(task, s);
    StagedEffective(task, s);
    match Staged(task, s)
    case None =>
    case Some(staged) =>
      StageListed(staged, task.zone);
      ListedAppend(OpeningOps(task, s), [SaveState(staged)] + FollowOps(staged, task.zone));
  }

  // ----- the state writes that commit -----

  /** The state file after the effects. */
  function StateAfter(s: State, ops: seq<Op>): State {
    if ops == [] then s
    else if ops[|ops| - 1].SaveState? then ops[|ops| - 1].state
    else StateAfter(s, ops[..|ops| - 1])
  }

  lemma {:induction false} DiskAfter(w: World, ops: seq<Op>)
    ensures Disk(ExecAll(w, ops)) == StateAfter(Disk(w), ops)
  {
    if ops != [] {
      DiskAfter(w, ops[..|ops| - 1]);
    }
  }

  lemma {:induction false} StateAfterAppend(s: State, a: seq<Op>, b: seq<Op>)
    ensures StateAfter(s, a + b) == StateAfter(StateAfter(s, a), b)
  {
    if b == [] {
      assert a + b == a;
    } else {
      assert (a + b)[..|a + b| - 1] == a + b[..|b| - 1];
      StateAfterAppend(s, a, b[..|b| - 1]);
    }
  }

  /** The second state is the first with one transition committed. */
  ghost predicate IsCommit(s: State, t: State) {
    exists zone | zone in s.pending :: t == Commit(s, zone)
  }

  ghost predicate CommitAt(s: State, ops: seq<Op>, k: nat)
    requires k < |ops|
  {
    ops[k].SaveState? ==> IsCommit(StateAfter(s, ops[..k]), ops[k].state)
  }

  /** Every state write commits a transition of the state before it. */
  ghost predicate Commits(s: State, ops: seq<Op>) {
    forall k | 0 <= k < |ops| :: CommitAt(s, ops, k)
  }

  predicate NoSave(ops: seq<Op>) {
    forall op | op in ops :: !op.SaveState?
  }

  lemma {:induction false} NoSaveKeeps(s: State, ops: seq<Op>)
    requires NoSave(ops)
    ensures StateAfter(s, ops) == s && Commits(s, ops)
  {
    if ops != [] {
      NoSaveKeeps(s, ops[..|ops| - 1]);
    }
  }

  lemma CommitsAppend(s: State, a: seq<Op>, b: seq<Op>)
    requires Commits(s, a) && Commits(StateAfter(s, a), b)
    ensures Commits(s, a + b)
  {
    forall k | 0 <= k < |a + b| ensures CommitAt(s, a + b, k) {
      if k < |a| {
        assert (a + b)[..k] == a[..k] && CommitAt(s, a, k);
      } else {
        assert (a + b)[..k] == a + b[..k - |a|] && CommitAt(StateAfter(s, a), b, k - |a|);
        StateAfterAppend(s, a, b[..k - |a|]);
      }
    }
  }

  lemma SaveCommits(s: State, zone: string, rest: seq<Op>)
    requires zone in s.pending && NoSave(rest)
    ensures Commits(s, [SaveState(Commit(s, zone))] + rest)
    ensures StateAfter(s, [SaveState(Commit(s, zone))] + rest) == Commit(s, zone)
  {
    var save := [SaveState(Commit(s, zone))];
    assert save[..0] == [];
    assert CommitAt(s, save, 0);
    NoSaveKeeps(Commit(s, zone), rest);
    CommitsAppend(s, save, rest);
    StateAfterAppend(s, save, rest);
  }

  lemma RecoverCommits(s: State, zone: string)
    ensures Commits(s, RecoverOps(s, zone)) && StateAfter(s, RecoverOps(s, zone)) == AfterRecover(s, zone)
  {
    if zone in s.pending {
      var list, mutate := [WriteInclude(IncludeOf(s))], MutateOps(zone, s.pending[zone]);
      MutateConcerns(zone, s.pending[zone]);
      NoSaveKeeps(s, list);
      NoSaveKeeps(s, mutate);
      CommitsAppend(s, list, mutate);
      StateAfterAppend(s, list, mutate);
      SaveCommits(s, zone, [WriteInclude(IncludeOf(Commit(s, zone)))]);
      CommitsAppend(s, list + mutate, CommitOps(s, zone));
      StateAfterAppend(s, list + mutate, CommitOps(s, zone));
    }
  }

  lemma {:induction false} ReplayCommits(s: State, zones: seq<string>)
    ensures Commits(s, ReplayOps(s, zones)) && StateAfter(s, ReplayOps(s, zones)) == AfterReplay(s, zones)
  {
    if zones != [] {
      var n := |zones| - 1;
      ReplayCommits(s, zones[..n]);
      RecoverCommits(AfterReplay(s, zones[..n]), zones[n]);
      CommitsAppend(s, ReplayOps(s, zones[..n]), RecoverOps(AfterReplay(s, zones[..n]), zones[n]));
      StateAfterAppend(s, ReplayOps(s, zones[..n]), RecoverOps(AfterReplay(s, zones[..n]), zones[n]));
    }
  }

  lemma RecoverAllCommits(s: State)
    ensures Commits(s, RecoverAllOps(s)) && StateAfter(s, RecoverAllOps(s)) == Recovered(s)
  {
    ReplayCommits(s, SortNames(s.pending.Keys));
    ReplayAllRecovers(s);
  }

  lemma NoSaveAround(s: State, a: seq<Op>, b: seq<Op>, c: seq<Op>)
    requires NoSave(a) && Commits(s, b) && NoSave(c)
    ensures Commits(s, a + b) && StateAfter(s, a + b) == StateAfter(s, b)
    ensures Commits(s, b + c) && StateAfter(s, b + c) == StateAfter(s, b)
  {
    NoSaveKeeps(s, a);
    CommitsAppend(s, a, b);
    StateAfterAppend(s, a, b);
    NoSaveKeeps(StateAfter(s, b), c);
    CommitsAppend(s, b, c);
    StateAfterAppend(s, b, c);
  }

  lemma OpeningCommits(task: Task, s: State)
    ensures Commits(s, OpeningOps(task, s)) && StateAfter(s, OpeningOps(task, s)) == Recovered(s)
  {
    var replay, list, prepare := RecoverAllOps(s), [WriteInclude(IncludeOf(s))], PreparationOps(task, s);
    RecoverAllCommits(s);
    NoSaveAround(s, list, replay, prepare);
    OpeningIs(task, s);
  }

  lemma FollowCommits(staged: State, zone: string)
    ensures Commits(staged, FollowOps(staged, zone))
  {
    var list := [WriteInclude(IncludeOf(staged))];
    NoSaveKeeps(staged, list);
    RecoverCommits(staged, zone);
    CommitsAppend(staged, list, RecoverOps(staged, zone));
  }

  lemma SplitAt<T>(a: seq<T>, x: T, b: seq<T>, k: nat)
    requires k < |a + ([x] + b)| && k != |a|
    ensures k < |a| ==> (a + ([x] + b))[..k] == a[..k] && (a + ([x] + b))[k] == a[k]
    ensures k > |a| ==> (a + ([x] + b))[..k] == a + [x] + b[..k - |a| - 1] && (a + ([x] + b))[k] == b[k - |a| - 1]
  {
  }

  /** Apart from the staging write, every state write of a script commits a transition of what is
      in the state file. */
  lemma ScriptCommits(task: Task, s: State, k: nat)
    requires k < |ScriptOf(task, s)| && k != |OpeningOps(task, s)|
    ensures CommitAt(s, ScriptOf(task, s), k)
  {
    OpeningCommits(task, s);
    match Staged(task, s)
    case None =>
      assert CommitAt(s, OpeningOps(task, s), k);
    case Some(staged) =>
      var a, save, b := OpeningOps(task, s), SaveState(staged), FollowOps(staged, task.zone);
      SplitAt(a, save, b, k);
      if k < |a| {
        assert CommitAt(s, a, k);
      } else {
        FollowCommits(staged, task.zone);
        assert CommitAt(staged, b, k - |a| - 1);
        StateAfterAppend(s, a + [save], b[..k - |a| - 1]);
        assert StateAfter(s, a + [save]) == staged;
      }
  }

  lemma StateAfterNext(s: State, ops: seq<Op>, k: nat)
    requires k < |ops|
    ensures StateAfter(s, ops[..k + 1]) == if ops[k].SaveState? then ops[k].state else StateAfter(s, ops[..k])
  {
    assert ops[..k + 1][..k] == ops[..k];
  }

  lemma StagingAt(task: Task, s: State)
    requires |OpeningOps(task, s)| < |ScriptOf(task, s)|
    ensures Staged(task, s).Some?
    ensures var n := |OpeningOps(task, s)|;
            ScriptOf(task, s)[n] == SaveState(Staged(task, s).value) && ScriptOf(task, s)[..n] == OpeningOps(task, s)
  {
  }

  lemma CommitMeansSame(s: State, t: State)
    requires Sound(s) && IsCommit(s, t)
    ensures Sound(t) && t.pending == map[] && s.pending != map[] && Effective(s) == Effective(t)
  {
    var zone :| zone in s.pending && t == Commit(s, zone);
    SoundCommit(s, zone);
    CommitEffective(s, zone);
  }

  /** The state file after k effects is sound, and means what the request asks for from the staging
      write on. */
  ghost predicate StateFine(task: Task, s: State, k: nat)
    requires k <= |ScriptOf(task, s)|
  {
    var t := StateAfter(s, ScriptOf(task, s)[..k]);
    && Sound(t)
    && Effective(t) == if k <= |OpeningOps(task, s)| then Effective(s) else Target(task, Effective(s))
  }

  lemma StagingState(task: Task, s: State)
    requires Sound(s) && Admissible(task) && |OpeningOps(task, s)| < |ScriptOf(task, s)|
    ensures StateFine(task, s, |OpeningOps(task, s)| + 1)
  {
    StagingAt(task, s);
    StateAfterNext(s, ScriptOf(task, s), |OpeningOps(task, s)|);
    SoundRecovered(s);
    StagedSound(task, s);
    StagedEffective(task, s);
  }

  lemma CommittingState(task: Task, s: State, k: nat)
    requires k < |ScriptOf(task, s)| && k != |OpeningOps(task, s)| && StateFine(task, s, k)
    ensures StateFine(task, s, k + 1)
  {
    var ops := ScriptOf(task, s);
    StateAfterNext(s, ops, k);
    if ops[k].SaveState? {
      ScriptCommits(task, s, k);
      CommitMeansSame(StateAfter(s, ops[..k]), ops[k].state);
    }
  }

  lemma NextState(task: Task, s: State, i: nat, k: nat)
    requires Sound(s) && Admissible(task) && i < |ScriptOf(task, s)| && k == i + 1 && StateFine(task, s, i)
    ensures StateFine(task, s, k)
  {
    if i == |OpeningOps(task, s)| {
      StagingState(task, s);
    } else {
      CommittingState(task, s, i);
    }
  }

  lemma StartingState(task: Task, s: State)
    requires Sound(s)
    ensures StateFine(task, s, 0)
  {
    assert ScriptOf(task, s)[..0] == [];
  }

  /** The state file alone: fine after every effect of every script. */
  lemma {:induction false} ScriptStates(task: Task, s: State, k: nat)
    requires Sound(s) && Admissible(task) && k <= |ScriptOf(task, s)|
    ensures StateFine(task, s, k)
    decreases k
  {
    if k == 0 {
      StartingState(task, s);
    } else {
      var i := k - 1;
      ScriptStates(task, s, i);
      NextState(task, s, i, k);
    }
  }

  /** What one effect does to the state file. */
  lemma StateStep(task: Task, s: State, i: nat, k: nat)
    requires Sound(s) && Admissible(task) && i < |ScriptOf(task, s)| && k == i + 1
    ensures var ops := ScriptOf(task, s);
            var before, after := StateAfter(s, ops[..i]), StateAfter(s, ops[..k]);
            && Sound(after)
            && after == (if ops[i].SaveState? then ops[i].state else before)
            && Effective(after)
               == if i == |OpeningOps(task, s)| then Target(task, Effective(before)) else Effective(before)
  {
    ScriptStates(task, s, i);
    ScriptStates(task, s, k);
    StateAfterNext(s, ScriptOf(task, s), i);
  }
}
