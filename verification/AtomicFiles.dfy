/** Why a file write of the service happens whole or not at all.

    The file system may lose whatever has not been synced: of a file that was not synced anything
    at all may be left, and of the directory changes since the last directory sync any selection
    may survive a crash. */
module AtomicFiles {
  import opened Attempts
  import opened Wrappers

  datatype Inode = Inode(data: string, synced: bool)

  datatype Change =
    | Link(name: string, inode: nat)
    | Rename(source: string, target: string, inode: nat)
    | Remove(name: string)

  /** `names` is the directory as processes see it; `disk` is the directory as last synced. */
  datatype FileSystem = FileSystem(
    inodes: map<nat, Inode>,
    names: map<string, nat>,
    disk: map<string, nat>,
    unsynced: seq<Change>)

  function Apply(d: map<string, nat>, c: Change): map<string, nat> {
    match c
    case Link(name, i) => d[name := i]
    case Rename(source, target, i) => (d - {source})[target := i]
    case Remove(name) => d - {name}
  }

  /** The directory after a crash in which the chosen changes survived. */
  function Surviving(d: map<string, nat>, cs: seq<Change>, chosen: seq<bool>): map<string, nat>
    requires |cs| == |chosen|
  {
    if cs == [] then d
    else
      var n := |cs| - 1;
      var before := Surviving(d, cs[..n], chosen[..n]);
      if chosen[n] then Apply(before, cs[n]) else before
  }

  /** A process may find this under the path after a crash. */
  ghost predicate Found(fs: FileSystem, path: string, found: Option<string>, chosen: seq<bool>)
    requires |chosen| == |fs.unsynced|
  {
    var d := Surviving(fs.disk, fs.unsynced, chosen);
    if path !in d then found == None
    else
      && found.Some?
      && (d[path] in fs.inodes && fs.inodes[d[path]].synced ==> found.value == fs.inodes[d[path]].data)
  }

  /** After a crash the path shows one of these contents, whole; None is no file at all. */
  ghost predicate OnlyFinds(fs: FileSystem, path: string, possible: set<Option<string>>) {
    forall chosen, found | |chosen| == |fs.unsynced| && Found(fs, path, found, chosen) :: found in possible
  }

  /** What a running process reads. */
  function Read(fs: FileSystem, path: string): Option<string> {
    if path in fs.names && fs.names[path] in fs.inodes then Some(fs.inodes[fs.names[path]].data) else None
  }

  function All(n: nat): seq<bool> {
    seq(n, _ => true)
  }

  ghost predicate Linked(d: map<string, nat>, inodes: map<nat, Inode>) {
    forall n | n in d :: d[n] in inodes
  }

  /** Every name leads to an inode, and the directory in use is the synced one with all later
      changes made. */
  ghost predicate WellFormed(fs: FileSystem) {
    && fs.names == Surviving(fs.disk, fs.unsynced, All(|fs.unsynced|))
    && Linked(fs.names, fs.inodes) && Linked(fs.disk, fs.inodes)
    && (forall c | c in fs.unsynced && !c.Remove? :: c.inode in fs.inodes)
  }

  // ----- the system calls -----

  function CreateFile(fs: FileSystem, name: string, i: nat): FileSystem {
    fs.(inodes := fs.inodes[i := Inode("", false)], names := fs.names[name := i],
        unsynced := fs.unsynced + [Link(name, i)])
  }

  function WriteFile(fs: FileSystem, i: nat, data: string): FileSystem {
    fs.(inodes := fs.inodes[i := Inode(data, false)])
  }

  function SyncFile(fs: FileSystem, i: nat): FileSystem
    requires i in fs.inodes
  {
    fs.(inodes := fs.inodes[i := fs.inodes[i].(synced := true)])
  }

  function ReplaceFile(fs: FileSystem, source: string, target: string): FileSystem
    requires source in fs.names
  {
    var i := fs.names[source];
    fs.(names := (fs.names - {source})[target := i], unsynced := fs.unsynced + [Rename(source, target, i)])
  }

  function UnlinkFile(fs: FileSystem, name: string): FileSystem {
    fs.(names := fs.names - {name}, unsynced := fs.unsynced + [Remove(name)])
  }

  function SyncDirectory(fs: FileSystem): FileSystem {
    fs.(disk := fs.names, unsynced := [])
  }

  // ----- what they can lose -----

  /** No surviving directory can have the inode under the path. */
  ghost predicate Unreferenced(fs: FileSystem, path: string, i: nat) {
    && (path in fs.disk ==> fs.disk[path] != i)
    && forall c | c in fs.unsynced :: match c
         case Link(name, j) => name != path || j != i
         case Rename(_, target, j) => target != path || j != i
         case Remove(_) => true
  }

  lemma {:induction false} NeverSurvives(d: map<string, nat>, cs: seq<Change>, chosen: seq<bool>, fs: FileSystem,
      path: string, i: nat)
    requires |cs| == |chosen| && d == fs.disk && cs <= fs.unsynced && Unreferenced(fs, path, i)
    ensures path in Surviving(d, cs, chosen) ==> Surviving(d, cs, chosen)[path] != i
  {
    if cs != [] {
      var n := |cs| - 1;
      NeverSurvives(d, cs[..n], chosen[..n], fs, path, i);
      assert cs[n] in fs.unsynced;
    }
  }

  /** Changing a file that the path cannot show does not change what the path can show. */
  lemma OtherInode(fs: FileSystem, path: string, i: nat, inode: Inode, possible: set<Option<string>>)
    requires Unreferenced(fs, path, i) && OnlyFinds(fs, path, possible)
    ensures var gs := fs.(inodes := fs.inodes[i := inode]); OnlyFinds(gs, path, possible) && Unreferenced(gs, path, i)
  {
    var gs := fs.(inodes := fs.inodes[i := inode]);
    forall chosen, found | |chosen| == |gs.unsynced| && Found(gs, path, found, chosen) ensures found in possible {
      NeverSurvives(fs.disk, fs.unsynced, chosen, fs, path, i);
      assert Found(fs, path, found, chosen);
    }
  }

  lemma SurvivingSnoc(d: map<string, nat>, cs: seq<Change>, c: Change, chosen: seq<bool>)
    requires |chosen| == |cs| + 1
    ensures Surviving(d, cs + [c], chosen)
            == if chosen[|cs|] then Apply(Surviving(d, cs, chosen[..|cs|]), c) else Surviving(d, cs, chosen[..|cs|])
  {
  }

  /** Does the change leave the entry of this name alone? */
  predicate Elsewhere(c: Change, path: string) {
    match c
    case Link(name, _) => name != path
    case Rename(source, target, _) => source != path && target != path
    case Remove(name) => name != path
  }

  /** Directory changes under other names do not change what the path can show. */
  lemma OtherName(fs: FileSystem, names: map<string, nat>, c: Change, path: string, possible: set<Option<string>>)
    requires Elsewhere(c, path) && OnlyFinds(fs, path, possible)
    ensures OnlyFinds(fs.(names := names, unsynced := fs.unsynced + [c]), path, possible)
  {
    var gs := fs.(names := names, unsynced := fs.unsynced + [c]);
    forall chosen, found | |chosen| == |gs.unsynced| && Found(gs, path, found, chosen) ensures found in possible {
      SurvivingSnoc(fs.disk, fs.unsynced, c, chosen);
      assert Found(fs, path, found, chosen[..|fs.unsynced|]);
    }
  }

  /** Renaming a synced file onto the path: the path shows what it could show, or the new content. */
  lemma ReplaceFinds(fs: FileSystem, source: string, path: string, possible: set<Option<string>>)
    requires source in fs.names && source != path && fs.names[source] in fs.inodes
    requires fs.inodes[fs.names[source]].synced && OnlyFinds(fs, path, possible)
    ensures OnlyFinds(ReplaceFile(fs, source, path), path, possible + {Some(fs.inodes[fs.names[source]].data)})
  {
    var gs := ReplaceFile(fs, source, path);
    forall chosen, found | |chosen| == |gs.unsynced| && Found(gs, path, found, chosen)
      ensures found in possible + {Some(fs.inodes[fs.names[source]].data)}
    {
      SurvivingSnoc(fs.disk, fs.unsynced, Rename(source, path, fs.names[source]), chosen);
      if !chosen[|fs.unsynced|] {
        assert Found(fs, path, found, chosen[..|fs.unsynced|]);
      }
    }
  }

  /** Removing the entry adds the possibility of no file: a crash may bring the entry back. */
  lemma UnlinkFinds(fs: FileSystem, path: string, possible: set<Option<string>>)
    requires OnlyFinds(fs, path, possible)
    ensures OnlyFinds(UnlinkFile(fs, path), path, possible + {None})
  {
    var gs := UnlinkFile(fs, path);
    forall chosen, found | |chosen| == |gs.unsynced| && Found(gs, path, found, chosen)
      ensures found in possible + {None}
    {
      SurvivingSnoc(fs.disk, fs.unsynced, Remove(path), chosen);
      if !chosen[|fs.unsynced|] {
        assert Found(fs, path, found, chosen[..|fs.unsynced|]);
      }
    }
  }

  /** What a process reads is among what a crash can leave. */
  lemma ReadIsPossible(fs: FileSystem, path: string, possible: set<Option<string>>)
    requires WellFormed(fs) && OnlyFinds(fs, path, possible)
    ensures Read(fs, path) in possible
  {
    assert Found(fs, path, Read(fs, path), All(|fs.unsynced|));
  }

  /** A directory sync adds no possibility. */
  lemma SyncKeeps(fs: FileSystem, path: string, possible: set<Option<string>>)
    requires WellFormed(fs) && OnlyFinds(fs, path, possible)
    ensures OnlyFinds(SyncDirectory(fs), path, possible)
  {
    var gs := SyncDirectory(fs);
    forall chosen, found | |chosen| == |gs.unsynced| && Found(gs, path, found, chosen) ensures found in possible {
      assert Found(fs, path, found, All(|fs.unsynced|));
    }
  }

  /** After a directory sync a synced file is all that its name can show. */
  lemma SyncedIsSettled(fs: FileSystem, path: string)
    requires path in fs.names && fs.names[path] in fs.inodes && fs.inodes[fs.names[path]].synced
    ensures OnlyFinds(SyncDirectory(fs), path, {Some(fs.inodes[fs.names[path]].data)})
  {
  }

  // ----- the atomic write -----

  /** How far the write has come.  A failing write may leave any part of the data behind. */
  datatype Stage = Nothing | Created | Written(data: string) | Synced | Replaced | DirectorySynced

  /** One atomic write: its path and content, and the name and inode that mkstemp returned. */
  datatype Job = Job(path: string, content: string, temporary: string, inode: nat)

  ghost predicate Fresh(fs: FileSystem, job: Job) {
    job.temporary !in fs.names && job.temporary != job.path && job.inode !in fs.inodes
  }

  function AfterSync(fs: FileSystem, job: Job): FileSystem {
    SyncFile(WriteFile(CreateFile(fs, job.temporary, job.inode), job.inode, job.content), job.inode)
  }

  function AfterReplace(fs: FileSystem, job: Job): FileSystem {
    ReplaceFile(AfterSync(fs, job), job.temporary, job.path)
  }

  function AtStage(fs: FileSystem, job: Job, st: Stage): FileSystem {
    match st
    case Nothing => fs
    case Created => CreateFile(fs, job.temporary, job.inode)
    case Written(data) => WriteFile(CreateFile(fs, job.temporary, job.inode), job.inode, data)
    case Synced => AfterSync(fs, job)
    case Replaced => AfterReplace(fs, job)
    case DirectorySynced => SyncDirectory(AfterReplace(fs, job))
  }

  /** The finally clause: the temporary file goes away if it is still there. */
  function Cleaned(fs: FileSystem, temporary: string): FileSystem {
    if temporary in fs.names then UnlinkFile(fs, temporary) else fs
  }

  lemma FreshIsUnreferenced(fs: FileSystem, path: string, i: nat)
    requires WellFormed(fs) && i !in fs.inodes
    ensures Unreferenced(fs, path, i)
  {
  }

  /** Up to the rename nothing can be found under any old name but what could be. */
  lemma BeforeReplace(fs: FileSystem, job: Job, st: Stage, name: string, possible: set<Option<string>>)
    requires WellFormed(fs) && Fresh(fs, job) && name != job.temporary && OnlyFinds(fs, name, possible)
    requires !st.Replaced? && !st.DirectorySynced?
    ensures OnlyFinds(AtStage(fs, job, st), name, possible)
  {
    if !st.Nothing? {
      FreshIsUnreferenced(fs, name, job.inode);
      OtherInode(fs, name, job.inode, Inode("", false), possible);
      var withInode := fs.(inodes := fs.inodes[job.inode := Inode("", false)]);
      OtherName(withInode, fs.names[job.temporary := job.inode], Link(job.temporary, job.inode), name, possible);
      var created := AtStage(fs, job, Created);
      assert Unreferenced(created, name, job.inode);
      match st
      case Written(data) => OtherInode(created, name, job.inode, Inode(data, false), possible);
      case Synced =>
        OtherInode(created, name, job.inode, Inode(job.content, false), possible);
        OtherInode(AtStage(fs, job, Written(job.content)), name, job.inode, Inode(job.content, true), possible);
      case _ =>
    }
  }

  lemma Widen(fs: FileSystem, path: string, possible: set<Option<string>>, more: set<Option<string>>)
    requires OnlyFinds(fs, path, possible)
    ensures OnlyFinds(fs, path, possible + more)
  {
  }

  /** Whatever the stage at which the write stops, a crash leaves at the path what it could have left
      before, or the whole new content. */
  lemma StageFindsOldOrNew(fs: FileSystem, job: Job, st: Stage, possible: set<Option<string>>)
    requires WellFormed(fs) && Fresh(fs, job) && OnlyFinds(fs, job.path, possible)
    ensures OnlyFinds(AtStage(fs, job, st), job.path, possible + {Some(job.content)})
  {
    match st
    case Replaced =>
      BeforeReplace(fs, job, Synced, job.path, possible);
      ReplaceFinds(AtStage(fs, job, Synced), job.temporary, job.path, possible);
    case DirectorySynced =>
      SyncedIsSettled(AtStage(fs, job, Replaced), job.path);
      Widen(AtStage(fs, job, st), job.path, {Some(job.content)}, possible);
      assert {Some(job.content)} + possible == possible + {Some(job.content)};
    case _ =>
      BeforeReplace(fs, job, st, job.path, possible);
      Widen(AtStage(fs, job, st), job.path, possible, {Some(job.content)});
  }

  /** Cleaning up the temporary file changes nothing under other names. */
  lemma CleaningKeeps(fs: FileSystem, temporary: string, name: string, possible: set<Option<string>>)
    requires name != temporary && OnlyFinds(fs, name, possible)
    ensures OnlyFinds(Cleaned(fs, temporary), name, possible)
  {
    OtherName(fs, fs.names - {temporary}, Remove(temporary), name, possible);
  }

  lemma AllSnoc(fs: FileSystem, c: Change)
    requires fs.names == Surviving(fs.disk, fs.unsynced, All(|fs.unsynced|))
    ensures Apply(fs.names, c) == Surviving(fs.disk, fs.unsynced + [c], All(|fs.unsynced| + 1))
  {
    var n := |fs.unsynced|;
    assert All(n + 1)[..n] == All(n);
    SurvivingSnoc(fs.disk, fs.unsynced, c, All(n + 1));
  }

  lemma StagedWellFormed(fs: FileSystem, job: Job, st: Stage)
    requires WellFormed(fs) && Fresh(fs, job)
    ensures WellFormed(AtStage(fs, job, st))
  {
    AllSnoc(fs, Link(job.temporary, job.inode));
    AllSnoc(AfterSync(fs, job), Rename(job.temporary, job.path, job.inode));
  }

  /** The write keeps the file system well formed, so that the next write can rely on it. */
  lemma StageWellFormed(fs: FileSystem, job: Job, st: Stage)
    requires WellFormed(fs) && Fresh(fs, job)
    ensures WellFormed(AtStage(fs, job, st)) && WellFormed(Cleaned(AtStage(fs, job, st), job.temporary))
  {
    StagedWellFormed(fs, job, st);
    CleanedWellFormed(AtStage(fs, job, st), job.temporary);
  }

  lemma CleanedWellFormed(fs: FileSystem, temporary: string)
    requires WellFormed(fs)
    ensures WellFormed(Cleaned(fs, temporary))
  {
    AllSnoc(fs, Remove(temporary));
  }

  /** Under other names everything stays as it could be found. */
  lemma OthersUntouched(fs: FileSystem, job: Job, st: Stage, name: string, possible: set<Option<string>>)
    requires WellFormed(fs) && Fresh(fs, job) && OnlyFinds(fs, name, possible)
    requires name != job.path && name != job.temporary
    ensures Read(AtStage(fs, job, st), name) == Read(fs, name)
    ensures OnlyFinds(AtStage(fs, job, st), name, possible)
  {
    if st.Replaced? || st.DirectorySynced? {
      BeforeReplace(fs, job, Synced, name, possible);
      OtherName(AfterSync(fs, job), AfterReplace(fs, job).names, Rename(job.temporary, job.path, job.inode),
        name, possible);
      StagedWellFormed(fs, job, Replaced);
      SyncKeeps(AfterReplace(fs, job), name, possible);
    } else {
      BeforeReplace(fs, job, st, name, possible);
    }
  }

  /** After the directory sync only the new content can be found, and no temporary file is left. */
  lemma NewContent(fs: FileSystem, job: Job)
    requires WellFormed(fs) && Fresh(fs, job)
    ensures var gs := AtStage(fs, job, DirectorySynced);
            && Read(gs, job.path) == Some(job.content) && OnlyFinds(gs, job.path, {Some(job.content)})
            && job.temporary !in gs.names
  {
    SyncedIsSettled(AtStage(fs, job, Replaced), job.path);
  }

  lemma StageReads(fs: FileSystem, job: Job, st: Stage)
    requires WellFormed(fs) && Fresh(fs, job)
    ensures Read(AtStage(fs, job, st), job.path) in {Read(fs, job.path), Some(job.content)}
    ensures Read(Cleaned(AtStage(fs, job, st), job.temporary), job.path) in {Read(fs, job.path), Some(job.content)}
  {
  }

  // ----- restarts -----

  /** The file system after a crash: the directory in which the chosen changes survived, and for
      every file that was not synced whatever happens to be on disk. */
  function Restarted(fs: FileSystem, chosen: seq<bool>, garbage: map<nat, string>): FileSystem
    requires |chosen| == |fs.unsynced|
  {
    var directory := Surviving(fs.disk, fs.unsynced, chosen);
    var inodes := map i | i in fs.inodes ::
      Inode(if fs.inodes[i].synced then fs.inodes[i].data else if i in garbage then garbage[i] else "", true);
    FileSystem(inodes, directory, directory, [])
  }

  lemma ApplyIsLinked(d: map<string, nat>, c: Change, inodes: map<nat, Inode>)
    requires Linked(d, inodes) && (!c.Remove? ==> c.inode in inodes)
    ensures Linked(Apply(d, c), inodes)
  {
  }

  lemma {:induction false} SurvivingIsLinked(d: map<string, nat>, cs: seq<Change>, chosen: seq<bool>,
      inodes: map<nat, Inode>)
    requires |cs| == |chosen| && Linked(d, inodes) && forall c | c in cs && !c.Remove? :: c.inode in inodes
    ensures Linked(Surviving(d, cs, chosen), inodes)
  {
    if cs != [] {
      var n := |cs| - 1;
      SurvivingIsLinked(d, cs[..n], chosen[..n], inodes);
      ApplyIsLinked(Surviving(d, cs[..n], chosen[..n]), cs[n], inodes);
    }
  }

  lemma RestartIsWellFormed(fs: FileSystem, chosen: seq<bool>, garbage: map<nat, string>)
    requires WellFormed(fs) && |chosen| == |fs.unsynced|
    ensures WellFormed(Restarted(fs, chosen, garbage))
  {
    SurvivingIsLinked(fs.disk, fs.unsynced, chosen, fs.inodes);
  }

  /** A restart finds what a crash can leave, and adds no possibility. */
  lemma RestartKeeps(fs: FileSystem, chosen: seq<bool>, garbage: map<nat, string>, path: string,
      possible: set<Option<string>>)
    requires |chosen| == |fs.unsynced| && OnlyFinds(fs, path, possible)
    ensures OnlyFinds(Restarted(fs, chosen, garbage), path, possible)
  {
    var gs := Restarted(fs, chosen, garbage);
    forall none: seq<bool>, found | |none| == 0 && Found(gs, path, found, none) ensures found in possible {
      assert Found(fs, path, found, chosen);
    }
  }

  // ----- any number of writes, errors, crashes and restarts -----

  /** A write that stopped at some stage, cleaned up or not; the removal of a file; a restart. */
  datatype Event =
    | Wrote(job: Job, stage: Stage, cleaned: bool)
    | Unlinked(name: string)
    | Restart(chosen: seq<bool>, garbage: map<nat, string>)

  ghost predicate Enabled(fs: FileSystem, e: Event) {
    match e
    case Wrote(job, _, _) => Fresh(fs, job)
    case Unlinked(_) => true
    case Restart(chosen, _) => |chosen| == |fs.unsynced|
  }

  function Step(fs: FileSystem, e: Event): FileSystem
    requires Enabled(fs, e)
  {
    match e
    case Wrote(job, stage, cleaned) =>
      var gs := AtStage(fs, job, stage);
      if cleaned then Cleaned(gs, job.temporary) else gs
    case Unlinked(name) => UnlinkFile(fs, name)
    case Restart(chosen, garbage) => Restarted(fs, chosen, garbage)
  }

  /** The events can happen one after the other. */
  ghost predicate CanHappen(fs: FileSystem, events: seq<Event>)
    decreases |events|, 0
  {
    events == []
    || (CanHappen(fs, events[..|events| - 1]) && Enabled(After(fs, events[..|events| - 1]), events[|events| - 1]))
  }

  ghost function After(fs: FileSystem, events: seq<Event>): FileSystem
    requires CanHappen(fs, events)
    decreases |events|, 1
  {
    if events == [] then fs else Step(After(fs, events[..|events| - 1]), events[|events| - 1])
  }

  /** The contents that the event has given the path: a text, or the absence of a file. */
  function Given(e: Event, path: string): set<Option<string>> {
    match e
    case Wrote(job, _, _) => if job.path == path then {Some(job.content)} else {}
    case Unlinked(name) => if name == path then {None} else {}
    case Restart(_, _) => {}
  }

  function AllGiven(events: seq<Event>, path: string): set<Option<string>> {
    if events == [] then {}
    else AllGiven(events[..|events| - 1], path) + Given(events[|events| - 1], path)
  }

  /** mkstemp never picks the name of a file that the service writes. */
  predicate Spares(e: Event, path: string) {
    e.Wrote? ==> e.job.temporary != path
  }

  lemma StepWellFormed(fs: FileSystem, e: Event)
    requires WellFormed(fs) && Enabled(fs, e)
    ensures WellFormed(Step(fs, e))
  {
    match e
    case Wrote(job, stage, _) => StageWellFormed(fs, job, stage);
    case Unlinked(name) => AllSnoc(fs, Remove(name));
    case Restart(chosen, garbage) => RestartIsWellFormed(fs, chosen, garbage);
  }

  lemma WriteFinds(fs: FileSystem, job: Job, st: Stage, path: string, possible: set<Option<string>>)
    requires WellFormed(fs) && Fresh(fs, job) && job.temporary != path && OnlyFinds(fs, path, possible)
    ensures OnlyFinds(AtStage(fs, job, st), path, possible + if job.path == path then {Some(job.content)} else {})
  {
    if job.path == path {
      StageFindsOldOrNew(fs, job, st, possible);
    } else {
      OthersUntouched(fs, job, st, path, possible);
      assert possible + {} == possible;
    }
  }

  lemma StepFinds(fs: FileSystem, e: Event, path: string, possible: set<Option<string>>)
    requires WellFormed(fs) && Enabled(fs, e) && Spares(e, path) && OnlyFinds(fs, path, possible)
    ensures OnlyFinds(Step(fs, e), path, possible + Given(e, path))
  {
    match e
    case Wrote(job, stage, cleaned) =>
      WriteFinds(fs, job, stage, path, possible);
      CleaningKeeps(AtStage(fs, job, stage), job.temporary, path, possible + Given(e, path));
    case Unlinked(name) =>
      if name == path {
        UnlinkFinds(fs, path, possible);
      } else {
        OtherName(fs, fs.names - {name}, Remove(name), path, possible);
        assert possible + {} == possible;
      }
    case Restart(chosen, garbage) =>
      RestartKeeps(fs, chosen, garbage, path, possible);
      assert possible + {} == possible;
  }

  /** Over any number of writes that end well or stop anywhere, removals, crashes and restarts, a
      path always holds one whole content that it could hold at the start or that some of them gave
      it, both for a process that reads it and after a further crash. */
  lemma {:induction false} ContentsAreWhole(fs: FileSystem, events: seq<Event>, path: string,
      possible: set<Option<string>>)
    requires CanHappen(fs, events) && WellFormed(fs) && OnlyFinds(fs, path, possible)
    requires forall e | e in events :: Spares(e, path)
    ensures WellFormed(After(fs, events)) && OnlyFinds(After(fs, events), path, possible + AllGiven(events, path))
    ensures Read(After(fs, events), path) in possible + AllGiven(events, path)
  {
    if events == [] {
      assert possible + AllGiven(events, path) == possible;
    } else {
      var init, last := events[..|events| - 1], events[|events| - 1];
      assert last in events && forall e | e in init :: e in events;
      ContentsAreWhole(fs, init, path, possible);
      StepWellFormed(After(fs, init), last);
      StepFinds(After(fs, init), last, path, possible + AllGiven(init, path));
      assert possible + AllGiven(init, path) + Given(last, path) == possible + AllGiven(events, path);
    }
    ReadIsPossible(After(fs, events), path, possible + AllGiven(events, path));
  }

  /** After a normal return only the content written, or what later events give the path, is ever
      found there, however many errors, crashes and restarts came before or come after. */
  lemma NormalReturnLasts(fs: FileSystem, job: Job, later: seq<Event>)
    requires WellFormed(fs) && Fresh(fs, job)
    requires CanHappen(AtStage(fs, job, DirectorySynced), later)
    requires forall e | e in later :: Spares(e, job.path)
    ensures var end := After(AtStage(fs, job, DirectorySynced), later);
            var possible := {Some(job.content)} + AllGiven(later, job.path);
            OnlyFinds(end, job.path, possible) && Read(end, job.path) in possible
  {
    NewContent(fs, job);
    StagedWellFormed(fs, job, DirectorySynced);
    ContentsAreWhole(AtStage(fs, job, DirectorySynced), later, job.path, {Some(job.content)});
  }

  class Disk {
    var fs: FileSystem
    /** How many system calls have not gone well. */
    ghost var faults: nat

    constructor (initial: FileSystem)
      ensures fs == initial
    {
      fs, faults := initial, 0;
    }

    /** An action is done exactly if all its system calls went well. */
    twostate predicate Tally(r: Attempt)
      reads this
    {
      old(faults) <= faults && (r.Done? <==> faults == old(faults))
    }

    /** A system call succeeds, or raises with or without effect, or never returns. */
    method Call(next: FileSystem) returns (r: Attempt)
      modifies this
      ensures Tally(r)
      ensures r.Done? ==> fs == next
      ensures fs == next || fs == old(fs)
    {
      var fate: int :| 0 <= fate < 5;
      if fate < 3 {
        fs := next;
      }
      r := if fate == 0 then Done else if fate % 2 == 1 then Raised(OsError) else Crashed;
      faults := faults + if r.Done? then 0 else 1;
    }

    /** Writing may stop with any part of the data in the file. */
    method Write(i: nat, content: string) returns (r: Attempt, ghost data: string)
      modifies this
      ensures Tally(r) && fs == WriteFile(old(fs), i, data)
      ensures r.Done? ==> data == content
    {
      var part: string := *;
      var fate: int :| 0 <= fate < 3;
      var written := if fate == 0 then content else part;
      fs := WriteFile(fs, i, written);
      data := written;
      r := if fate == 0 then Done else if fate == 1 then Raised(OsError) else Crashed;
      faults := faults + if r.Done? then 0 else 1;
    }

    /** The body of the try statement: create, write, sync, rename, sync the directory. */
    method WriteSteps(job: Job) returns (r: Attempt, ghost st: Stage)
      requires Fresh(fs, job)
      modifies this
      ensures Tally(r) && fs == AtStage(old(fs), job, st)
      ensures r.Done? ==> st.DirectorySynced?
    {
      st := Nothing;
      r := Call(CreateFile(fs, job.temporary, job.inode));
      if fs == CreateFile(old(fs), job.temporary, job.inode) {
        st := Created;
      }
      if !r.Done? {
        return;
      }
      ghost var data: string;
      r, data := Write(job.inode, job.content);
      st := Written(data);
      if !r.Done? {
        return;
      }
      r := Call(SyncFile(fs, job.inode));
      if fs == AtStage(old(fs), job, Synced) {
        st := Synced;
      }
      if !r.Done? {
        return;
      }
      r := Call(ReplaceFile(fs, job.temporary, job.path));
      if fs == AtStage(old(fs), job, Replaced) {
        st := Replaced;
      }
      if !r.Done? {
        return;
      }
      r := Call(SyncDirectory(fs));
      if fs == AtStage(old(fs), job, DirectorySynced) {
        st := DirectorySynced;
      }
    }

    /** Writes the file so that a crash at any point leaves what the path could hold before or the
        whole new content, and so that after a normal return only the new content can be found. */
    method AtomicWrite(job: Job) returns (r: Attempt, ghost st: Stage)
      requires WellFormed(fs) && Fresh(fs, job)
      modifies this
      ensures fs == AtStage(old(fs), job, st) || fs == Cleaned(AtStage(old(fs), job, st), job.temporary)
      ensures forall possible | OnlyFinds(old(fs), job.path, possible) ::
                OnlyFinds(fs, job.path, possible + {Some(job.content)})
      ensures Read(fs, job.path) in {old(Read(fs, job.path)), Some(job.content)}
      ensures WellFormed(fs) && Tally(r)
      ensures r.Done? ==>
                && Read(fs, job.path) == Some(job.content) && OnlyFinds(fs, job.path, {Some(job.content)})
                && job.temporary !in fs.names
    {
      r, st := WriteSteps(job);
      StageReads(old(fs), job, st);
      NewContent(old(fs), job);
      StageWellFormed(old(fs), job, st);
      if !r.Crashed? && job.temporary in fs.names {
        var unlinked := Call(UnlinkFile(fs, job.temporary));
        r := if unlinked.Done? then r else unlinked;
      }
      forall possible | OnlyFinds(old(fs), job.path, possible)
        ensures OnlyFinds(fs, job.path, possible + {Some(job.content)})
      {
        StageFindsOldOrNew(old(fs), job, st, possible);
        CleaningKeeps(AtStage(old(fs), job, st), job.temporary, job.path, possible + {Some(job.content)});
      }
    }
  }
}
