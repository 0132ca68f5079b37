/** What each call does to the world when nothing goes wrong, as a list of effects that depends
    only on the state in memory when the call obtains the mutation guard. */
module Script {
  import opened Effects
  import opened Journal
  import opened Ordering
  import opened Text
  import opened Wrappers
  import opened Zones

  /** What the service is asked to do under the guard; Boot is the constructor's own work, and
      Probe stands for the health and DNSKEY reads, which only replay the journal. */
  datatype Task =
    | Boot
    | Probe
    | Apply(zone: string, payload: Payload)
    | Remove(zone: string)

  datatype Verdict = Create | Update | Unchanged | Stale | Reused

  function Judge(zones: map<string, Payload>, zone: string, p: Payload): Verdict {
    if zone !in zones then Create
    else if p.revision < zones[zone].revision then Stale
    else if p.revision == zones[zone].revision then
      if zones[zone] == p then Unchanged else Reused
    else Update
  }

  function PrepareOps(zone: string, p: Payload): seq<Op> {
    [WriteZoneFile(zone, p)] + [CheckZoneFile(zone)]
  }

  function UnsetOps(zone: string, keys: seq<Key>): seq<Op> {
    seq(|keys|, i requires 0 <= i < |keys| => UnsetRRset(zone, keys[i]))
  }

  function SetOps(zone: string, entries: seq<Entry>): seq<Op> {
    seq(|entries|, i requires 0 <= i < |entries| => SetRecord(zone, entries[i]))
  }

  /** The keys that an update unsets: those of the previous and of the desired records. */
  ghost function TouchedKeys(previous: Payload, desired: Payload): seq<Key> {
    SortKeys(Keys(previous.records) + Keys(desired.records))
  }

  ghost function EditOps(zone: string, previous: Payload, desired: Payload): seq<Op> {
    UnsetOps(zone, TouchedKeys(previous, desired)) + SetOps(zone, RecordsEntries(desired.records))
  }

  ghost function UpdateOps(zone: string, previous: Payload, desired: Payload): seq<Op> {
    [Begin(zone)] + EditOps(zone, previous, desired) + [CommitZone(zone)] + [Sign(zone), Flush(zone)]
  }

  /** Brings Knot and the zone files to where a pending transition wants them. */
  ghost function MutateOps(zone: string, t: Transition): seq<Op> {
    match t
    case Upsert(None, desired) => PrepareOps(zone, desired) + [Reload] + [Sign(zone)]
    case Upsert(Some(previous), desired) => UpdateOps(zone, previous, desired)
    case Delete(_) => [Reload] + [Purge(zone)] + [UnlinkZoneFile(zone)]
  }

  /** The commit of a pending transition: the state write, then the include once more. */
  ghost function CommitOps(s: State, zone: string): seq<Op>
    requires zone in s.pending
  {
    [SaveState(Commit(s, zone))] + [WriteInclude(IncludeOf(Commit(s, zone)))]
  }

  ghost function RecoverOps(s: State, zone: string): seq<Op> {
    if zone !in s.pending then []
    else
      [WriteInclude(IncludeOf(s))]
      + MutateOps(zone, s.pending[zone])
      + CommitOps(s, zone)
  }

  function AfterRecover(s: State, zone: string): State {
    if zone in s.pending then Commit(s, zone) else s
  }

  /** Replays the listed transitions one after the other. */
  ghost function ReplayOps(s: State, zones: seq<string>): seq<Op> {
    if zones == [] then []
    else ReplayOps(s, zones[..|zones| - 1])
         + RecoverOps(AfterReplay(s, zones[..|zones| - 1]), zones[|zones| - 1])
  }

  function AfterReplay(s: State, zones: seq<string>): State {
    if zones == [] then s
    else AfterRecover(AfterReplay(s, zones[..|zones| - 1]), zones[|zones| - 1])
  }

  ghost function RecoverAllOps(s: State): seq<Op> {
    ReplayOps(s, SortNames(s.pending.Keys))
  }

  function Recovered(s: State): State {
    State(Effective(s), map[])
  }

  /** What follows the staging write: the include, and the replay of the fresh transition. */
  ghost function FollowOps(staged: State, zone: string): seq<Op> {
    [WriteInclude(IncludeOf(staged))] + RecoverOps(staged, zone)
  }

  /** The replay that opens every call, and the preparation of a new zone's file. */
  ghost function OpeningOps(task: Task, s: State): seq<Op> {
    match task
    case Boot => [WriteInclude(IncludeOf(s))] + RecoverAllOps(s)
    case Apply(zone, p) =>
      RecoverAllOps(s) + if Judge(Effective(s), zone, p).Create? then PrepareOps(zone, p) else []
    case _ => RecoverAllOps(s)
  }

  /** The state that an accepted request stages; nothing when the request changes nothing. */
  function Staged(task: Task, s: State): Option<State> {
    match task
    case Apply(zone, p) =>
      var verdict := Judge(Effective(s), zone, p);
      if verdict.Create? || verdict.Update? then Some(StageUpsert(Recovered(s), zone, p)) else None
    case Remove(zone) =>
      if zone in Effective(s) then Some(StageDelete(Recovered(s), zone)) else None
    case _ => None
  }

  ghost function ScriptOf(task: Task, s: State): seq<Op> {
    match Staged(task, s)
    case None => OpeningOps(task, s)
    case Some(staged) => OpeningOps(task, s) + ([SaveState(staged)] + FollowOps(staged, task.zone))
  }

  /** What the opening of a request adds to the replay. */
  ghost function PreparationOps(task: Task, s: State): seq<Op> {
    if task.Apply? && Judge(Effective(s), task.zone, task.payload).Create?
    then PrepareOps(task.zone, task.payload) else []
  }

  lemma OpeningIs(task: Task, s: State)
    ensures OpeningOps(task, s)
            == if task.Boot? then [WriteInclude(IncludeOf(s))] + RecoverAllOps(s)
               else RecoverAllOps(s) + PreparationOps(task, s)
  {
    WithNothing(RecoverAllOps(s));
  }

  lemma WithNothing<T>(a: seq<T>)
    ensures a + [] == a
  {
  }

  /** The staging write and what follows it. */
  ghost function StageOps(staged: State, zone: string): seq<Op> {
    [SaveState(staged)] + FollowOps(staged, zone)
  }

  /** What a request does once the journal is empty. */
  ghost function RequestOps(task: Task, s: State): seq<Op> {
    match Staged(task, s)
    case None => PreparationOps(task, s)
    case Some(staged) => PreparationOps(task, s) + StageOps(staged, task.zone)
  }

  lemma Join<T>(a: seq<T>, b: seq<T>, c: seq<T>)
    ensures a + b + c == a + (b + c)
  {
  }

  lemma ReplayThenRequest(task: Task, s: State)
    requires !task.Boot?
    ensures ScriptOf(task, s) == RecoverAllOps(s) + RequestOps(task, s)
  {
    var replay, prepare := RecoverAllOps(s), PreparationOps(task, s);
    assert replay + [] == replay;
    assert OpeningOps(task, s) == replay + prepare;
    match Staged(task, s)
    case None =>
    case Some(staged) => Join(replay, prepare, StageOps(staged, task.zone));
  }

  lemma EstablishOps(zone: string, p: Payload, s: State)
    requires zone in Effective(s) ==> p.revision > Effective(s)[zone].revision
    ensures RequestOps(Apply(zone, p), s)
            == (if zone !in Recovered(s).zones then PrepareOps(zone, p) else [])
               + StageOps(StageUpsert(Recovered(s), zone, p), zone)
  {
    JudgeIs(Effective(s), zone, p);
    var staged := StageUpsert(Recovered(s), zone, p);
    assert Staged(Apply(zone, p), s) == Some(staged);
    var prepare := if zone !in Recovered(s).zones then PrepareOps(zone, p) else [];
    assert PreparationOps(Apply(zone, p), s) == prepare;
    StagedOps(Apply(zone, p), s, staged, prepare);
  }

  lemma StagedOps(task: Task, s: State, staged: State, prepare: seq<Op>)
    requires Staged(task, s) == Some(staged) && PreparationOps(task, s) == prepare
    ensures RequestOps(task, s) == prepare + StageOps(staged, task.zone)
  {
  }

  lemma BootOps(s: State)
    ensures ScriptOf(Boot, s) == [WriteInclude(IncludeOf(s))] + RecoverAllOps(s)
  {
  }

  lemma ProbeOps(s: State)
    ensures ScriptOf(Probe, s) == RecoverAllOps(s)
  {
  }

  lemma RemoveOps(zone: string, s: State)
    ensures RequestOps(Remove(zone), s)
            == if zone in Effective(s) then StageOps(StageDelete(Recovered(s), zone), zone) else []
  {
  }

  /** Inside the begun zone transaction a failing command is followed by zone-abort. */
  predicate InTransaction(op: Op) {
    op.UnsetRRset? || op.SetRecord? || op.CommitZone?
  }

  /** The task asks for something to be done to this zone. */
  predicate Requests(task: Task, zone: string) {
    (task.Apply? || task.Remove?) && task.zone == zone
  }

  /** The sequential specification: what a request does to the map of zones. */
  function Target(task: Task, zones: map<string, Payload>): map<string, Payload> {
    match task
    case Apply(zone, p) => if zone in zones && p.revision <= zones[zone].revision then zones else zones[zone := p]
    case Remove(zone) => zones - {zone}
    case _ => zones
  }

  /** The requests that are answered with success: a new zone, a larger revision, or what is there. */
  predicate Granted(zones: map<string, Payload>, zone: string, p: Payload) {
    zone in zones ==> zones[zone] == p || zones[zone].revision < p.revision
  }

  /** What each verdict means. */
  lemma JudgeIs(zones: map<string, Payload>, zone: string, p: Payload)
    ensures var verdict := Judge(zones, zone, p);
            && (verdict.Create? <==> zone !in zones)
            && (verdict.Update? <==> zone in zones && zones[zone].revision < p.revision)
            && (verdict.Unchanged? <==> zone in zones && zones[zone] == p)
            && (verdict.Stale? <==> zone in zones && p.revision < zones[zone].revision)
            && (verdict.Reused? <==> zone in zones && zones[zone].revision == p.revision && zones[zone] != p)
  {
  }

  /** A request stages a transition exactly when it is for a new zone or has a larger revision; a
      deletion, exactly when the zone is there. */
  lemma StagesIff(task: Task, s: State)
    ensures Staged(task, s).Some? <==>
              || (task.Apply? && (task.zone in Effective(s) ==>
                                    Effective(s)[task.zone].revision < task.payload.revision))
              || (task.Remove? && task.zone in Effective(s))
    ensures Staged(task, s).Some? ==> Effective(Staged(task, s).value) == Target(task, Effective(s))
    ensures Staged(task, s).None? ==> Target(task, Effective(s)) == Effective(s)
  {
    EffectiveOfCommitted(Recovered(s));
    match task
    case Apply(zone, p) =>
      JudgeIs(Effective(s), zone, p);
      StageUpsertEffective(Recovered(s), zone, p);
    case Remove(zone) =>
      if zone in Effective(s) {
        StageDeleteEffective(Recovered(s), zone);
      }
    case _ =>
  }

  /** Replaying each pending transition once, in any order, commits exactly the effective zones. */
  lemma {:induction false} ReplayEffective(s: State, zones: seq<string>)
    ensures Effective(AfterReplay(s, zones)) == Effective(s)
    ensures AfterReplay(s, zones).pending.Keys == s.pending.Keys - set z | z in zones
  {
    if zones != [] {
      var n := |zones| - 1;
      ReplayEffective(s, zones[..n]);
      var mid := AfterReplay(s, zones[..n]);
      if zones[n] in mid.pending {
        CommitEffective(mid, zones[n]);
      }
      assert zones == zones[..n] + [zones[n]];
    }
  }

  lemma ReplayAllRecovers(s: State)
    ensures AfterReplay(s, SortNames(s.pending.Keys)) == Recovered(s)
  {
    var names := SortNames(s.pending.Keys);
    ReplayEffective(s, names);
    var end := AfterReplay(s, names);
    assert (set z | z in names) == Elements(names);
    assert end.pending.Keys == {};
    EffectiveOfCommitted(end);
  }
}
