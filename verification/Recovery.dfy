/** Crash safety of every script: what holds after each of its effects, and where it ends. */
module Recovery {
  import opened Effects
  import opened Journal
  import opened Script
  import opened Text
  import opened Wrappers
  import opened Zones

  /** Knot's view of one zone agrees with the journal's. */
  ghost predicate Consistent(w: World, zone: string) {
    var s, k := Disk(w), w.knot;
    if zone in s.pending then
      match s.pending[zone]
      case Upsert(None, desired) =>
        if zone in k.served then k.served[zone] == ContentOf(desired) else zone !in k.residue
      case Upsert(Some(previous), desired) =>
        zone in k.served && k.served[zone] in {ContentOf(previous), ContentOf(desired)}
      case Delete(committed) =>
        zone in k.served ==> k.served[zone] == ContentOf(committed)
    else if zone in s.zones then
      zone in k.served && k.served[zone] == ContentOf(s.zones[zone])
    else
      zone !in k.served && zone !in k.residue
  }

  /** Holds of the three stores at every instant, and is all that recovery relies on. */
  ghost predicate Durable(w: World) {
    && Sound(Disk(w))
    && (forall z :: Consistent(w, z))
    && (Disk(w).pending == map[] ==> IncludedZones(w.config) == Disk(w).zones.Keys)
  }

  /** Nothing is left to do: the stores agree on exactly the given zones. */
  ghost predicate Converged(w: World, zones: map<string, Payload>) {
    && Disk(w) == State(zones, map[])
    && IncludedZones(w.config) == zones.Keys
    && w.knot.served.Keys == zones.Keys
    && forall z | z in zones :: w.knot.served[z] == ContentOf(zones[z])
  }

  lemma DurableConverged(w: World)
    requires Durable(w) && Disk(w).pending == map[]
    ensures Converged(w, Effective(Disk(w)))
  {
    EffectiveOfCommitted(Disk(w));
    forall z ensures z in w.knot.served <==> z in Disk(w).zones {
      assert Consistent(w, z);
    }
    forall z | z in Disk(w).zones ensures w.knot.served[z] == ContentOf(Disk(w).zones[z]) {
      assert Consistent(w, z);
    }
  }

  /** A zone of which neither Knot nor the zone directory keeps anything. */
  ghost predicate Gone(w: World, zone: string) {
    zone !in w.knot.served && zone !in w.knot.residue && zone !in w.zoneFiles
  }

  ghost predicate PendingDelete(s: State, zone: string) {
    zone in s.pending && s.pending[zone].Delete?
  }

  /** An effect never mixes two incarnations of a zone: a reload takes up a zone only without
      material of an earlier one and with the intended content, and a pending delete leaves the
      journal only when nothing of the zone is left. */
  ghost predicate Unmixed(w: World, op: Op) {
    match op
    case Reload =>
      forall z | z in IncludedZones(w.config) && z !in w.knot.served ::
        && z !in w.knot.residue
        && z in w.zoneFiles && z in Effective(Disk(w))
        && w.zoneFiles[z] == ContentOf(Effective(Disk(w))[z])
    case SaveState(s) =>
      forall z | PendingDelete(Disk(w), z) && !PendingDelete(s, z) :: Gone(w, z)
    case _ => true
  }

  ghost function At(w: World, ops: seq<Op>, k: nat): World
    requires k <= |ops|
  {
    ExecAll(w, ops[..k])
  }

  /** The world is durable, means the zones e, and the coming effects do not mix incarnations. */
  ghost predicate Fine(w: World, e: map<string, Payload>, coming: seq<Op>) {
    && Durable(w)
    && Effective(Disk(w)) == e
    && (coming != [] ==> Unmixed(w, coming[0]))
  }

  ghost predicate SafeAt(w: World, ops: seq<Op>, e: map<string, Payload>, k: nat)
    requires k <= |ops|
  {
    Fine(At(w, ops, k), e, ops[k..])
  }

  /** All along the effects the stores are durable and mean the same zones. */
  ghost predicate Safe(w: World, ops: seq<Op>, e: map<string, Payload>) {
    forall k | 0 <= k <= |ops| :: SafeAt(w, ops, e, k)
  }

  lemma SafeEmpty(w: World)
    requires Durable(w)
    ensures Safe(w, [], Effective(Disk(w)))
  {
  }

  lemma SafeSnoc(w: World, ops: seq<Op>, op: Op, e: map<string, Payload>)
    requires Safe(w, ops, e) && Unmixed(ExecAll(w, ops), op)
    requires var v := Exec(ExecAll(w, ops), op); Durable(v) && Effective(Disk(v)) == e
    ensures Safe(w, ops + [op], e)
  {
    var all := ops + [op];
    ExecSnoc(w, ops, op);
    forall k | 0 <= k <= |all| ensures SafeAt(w, all, e, k) {
      if k <= |ops| {
        assert all[..k] == ops[..k];
        assert SafeAt(w, ops, e, k);
        assert ops[..|ops|] == ops;
      } else {
        assert all[..k] == all;
      }
    }
  }

  lemma SafeOne(w: World, op: Op, e: map<string, Payload>)
    requires Durable(w) && Effective(Disk(w)) == e && Unmixed(w, op)
    requires Durable(Exec(w, op)) && Effective(Disk(Exec(w, op))) == e
    ensures Safe(w, [op], e) && ExecAll(w, [op]) == Exec(w, op)
  {
    SafeEmpty(w);
    SafeSnoc(w, [], op, e);
    ExecSnoc(w, [], op);
    assert [] + [op] == [op];
  }

  lemma SafeEnd(w: World, ops: seq<Op>, e: map<string, Payload>)
    requires Safe(w, ops, e)
    ensures Durable(ExecAll(w, ops)) && Effective(Disk(ExecAll(w, ops))) == e
  {
    assert SafeAt(w, ops, e, |ops|);
    assert ops[..|ops|] == ops;
  }

  lemma {:induction false} SafeAppend(w: World, a: seq<Op>, b: seq<Op>, e: map<string, Payload>)
    requires Safe(w, a, e) && Safe(ExecAll(w, a), b, e)
    ensures Safe(w, a + b, e)
  {
    var all := a + b;
    forall k | 0 <= k <= |all| ensures SafeAt(w, all, e, k) {
      if k < |a| {
        assert all[..k] == a[..k];
        assert SafeAt(w, a, e, k);
      } else {
        assert all[..k] == a + b[..k - |a|];
        ExecAppend(w, a, b[..k - |a|]);
        assert SafeAt(ExecAll(w, a), b, e, k - |a|);
      }
    }
  }

  /** Composition: what is safe first, then what is safe from there. */
  lemma SafeThen(w: World, a: seq<Op>, b: seq<Op>, e: map<string, Payload>)
    requires Safe(w, a, e) && Safe(ExecAll(w, a), b, e)
    ensures Safe(w, a + b, e) && ExecAll(w, a + b) == ExecAll(ExecAll(w, a), b)
  {
    SafeAppend(w, a, b, e);
    ExecAppend(w, a, b);
  }

  /** Effects that touch neither the state file nor the include nor served content. */
  predicate Quiet(op: Op) {
    !op.SaveState? && !op.WriteInclude? && !op.Reload? && !op.CommitZone? && !op.Purge?
  }

  lemma QuietKeeps(w: World, op: Op)
    requires Durable(w) && Quiet(op)
    ensures Durable(Exec(w, op)) && Disk(Exec(w, op)) == Disk(w) && Unmixed(w, op)
    ensures Exec(w, op).config == w.config
    ensures Exec(w, op).knot.served == w.knot.served && Exec(w, op).knot.residue == w.knot.residue
  {
    forall z ensures Consistent(Exec(w, op), z) {
      assert Consistent(w, z);
    }
  }

  lemma {:induction false} SafeQuiet(w: World, ops: seq<Op>)
    requires Durable(w) && forall op | op in ops :: Quiet(op)
    ensures Safe(w, ops, Effective(Disk(w)))
    ensures var v := ExecAll(w, ops);
            && Disk(v) == Disk(w) && v.config == w.config
            && v.knot.served == w.knot.served && v.knot.residue == w.knot.residue
  {
    if ops == [] {
      SafeEmpty(w);
    } else {
      var n := |ops| - 1;
      SafeQuiet(w, ops[..n]);
      SafeEnd(w, ops[..n], Effective(Disk(w)));
      QuietKeeps(ExecAll(w, ops[..n]), ops[n]);
      SafeSnoc(w, ops[..n], ops[n], Effective(Disk(w)));
      assert ops == ops[..n] + [ops[n]];
    }
  }

  /** Writing the include of the state on disk is always safe. */
  lemma WriteIncludeKeeps(w: World)
    requires Durable(w)
    ensures var v := Exec(w, WriteInclude(IncludeOf(Disk(w))));
            Durable(v) && Disk(v) == Disk(w) && IncludedZones(v.config) == Effective(Disk(w)).Keys
  {
    var v := Exec(w, WriteInclude(IncludeOf(Disk(w))));
    IncludeListsEffective(Disk(w));
    if Disk(w).pending == map[] {
      EffectiveOfCommitted(Disk(w));
    }
    forall z ensures Consistent(v, z) {
      assert Consistent(w, z);
    }
  }

  lemma SafeInclude(w: World)
    requires Durable(w)
    ensures var op := WriteInclude(IncludeOf(Disk(w)));
            Safe(w, [op], Effective(Disk(w))) && ExecAll(w, [op]) == Exec(w, op)
  {
    WriteIncludeKeeps(w);
    SafeOne(w, WriteInclude(IncludeOf(Disk(w))), Effective(Disk(w)));
  }

  /** Where a transition must have brought Knot and the files before it may be committed. */
  ghost predicate Settled(w: World, zone: string, t: Transition) {
    match t
    case Upsert(_, desired) => zone in w.knot.served && w.knot.served[zone] == ContentOf(desired)
    case Delete(_) => Gone(w, zone)
  }

  /** The world in the middle of replaying the one pending transition. */
  ghost predicate Replaying(w: World, s: State, zone: string) {
    && Durable(w) && Disk(w) == s && zone in s.pending
    && IncludedZones(w.config) == Effective(s).Keys
  }

  /** A commit of a settled transition is safe and leaves nothing pending. */
  lemma CommitKeeps(w: World, s: State, zone: string)
    requires Replaying(w, s, zone) && Settled(w, zone, s.pending[zone])
    ensures var op := SaveState(Commit(s, zone));
            && Unmixed(w, op) && Durable(Exec(w, op))
            && Effective(Commit(s, zone)) == Effective(s) && Commit(s, zone).pending == map[]
  {
    var v := Exec(w, SaveState(Commit(s, zone)));
    OnlyPending(s, zone);
    SoundCommit(s, zone);
    CommitEffective(s, zone);
    EffectiveOfCommitted(Commit(s, zone));
    forall z ensures Consistent(v, z) {
      assert Consistent(w, z);
    }
  }

  lemma SafeCommit(w: World, s: State, zone: string)
    requires Replaying(w, s, zone) && Settled(w, zone, s.pending[zone])
    ensures Safe(w, CommitOps(s, zone), Effective(s))
    ensures Disk(ExecAll(w, CommitOps(s, zone))) == Commit(s, zone)
  {
    var save := SaveState(Commit(s, zone));
    CommitKeeps(w, s, zone);
    SafeOne(w, save, Effective(s));
    var v := Exec(w, save);
    assert Disk(v) == Commit(s, zone);
    WriteIncludeKeeps(v);
    var list := WriteInclude(IncludeOf(Commit(s, zone)));
    SafeInclude(v);
    SafeAppend(w, [save], [list], Effective(s));
    ExecAppend(w, [save], [list]);
  }

  /** A reload while one transition is pending. */
  lemma ReloadKeeps(w: World, s: State, zone: string)
    requires Replaying(w, s, zone)
    requires s.pending[zone].Upsert? && s.pending[zone].previous.None? ==>
               zone in w.zoneFiles && w.zoneFiles[zone] == ContentOf(s.pending[zone].desired)
    ensures Unmixed(w, Reload) && Replaying(Exec(w, Reload), s, zone)
    ensures Exec(w, Reload).zoneFiles == w.zoneFiles
    ensures zone in Exec(w, Reload).knot.served <==> zone in Effective(s)
    ensures s.pending[zone].Upsert? && s.pending[zone].previous.None? ==>
              Exec(w, Reload).knot.served[zone] == ContentOf(s.pending[zone].desired)
  {
    var v := Exec(w, Reload);
    OnlyPending(s, zone);
    assert Consistent(w, zone);
    forall z | z != zone ensures z in w.knot.served <==> z in Effective(s) {
      assert Consistent(w, z);
    }
    forall z ensures Consistent(v, z) {
      assert Consistent(w, z);
    }
  }

  /** The effects of replaying a transition: safe all along, and settled at the end. */
  ghost predicate Mutates(w: World, ops: seq<Op>, s: State, zone: string)
    requires zone in s.pending
  {
    var v := ExecAll(w, ops);
    && Safe(w, ops, Effective(s))
    && Disk(v) == s && IncludedZones(v.config) == Effective(s).Keys
    && Settled(v, zone, s.pending[zone])
  }

  lemma QuietReplaying(w: World, ops: seq<Op>, s: State, zone: string)
    requires Replaying(w, s, zone) && forall op | op in ops :: Quiet(op)
    ensures Safe(w, ops, Effective(s)) && Replaying(ExecAll(w, ops), s, zone)
    ensures ExecAll(w, ops).knot.served == w.knot.served && ExecAll(w, ops).knot.residue == w.knot.residue
  {
    SafeQuiet(w, ops);
    SafeEnd(w, ops, Effective(s));
  }

  lemma SafeReload(w: World, s: State, zone: string)
    requires Replaying(w, s, zone)
    requires s.pending[zone].Upsert? && s.pending[zone].previous.None? ==>
               zone in w.zoneFiles && w.zoneFiles[zone] == ContentOf(s.pending[zone].desired)
    ensures Safe(w, [Reload], Effective(s)) && ExecAll(w, [Reload]) == Exec(w, Reload)
  {
    ReloadKeeps(w, s, zone);
    SafeOne(w, Reload, Effective(s));
  }

  lemma PrepareWrites(w: World, zone: string, p: Payload)
    ensures var v := ExecAll(w, PrepareOps(zone, p)); zone in v.zoneFiles && v.zoneFiles[zone] == ContentOf(p)
  {
  }

  lemma CreateMutates(w: World, s: State, zone: string, desired: Payload)
    requires Replaying(w, s, zone) && s.pending[zone] == Upsert(None, desired)
    ensures Mutates(w, MutateOps(zone, s.pending[zone]), s, zone)
  {
    var prepare, sign := PrepareOps(zone, desired), [Sign(zone)];
    QuietReplaying(w, prepare, s, zone);
    PrepareWrites(w, zone, desired);
    var w1 := ExecAll(w, prepare);
    ReloadKeeps(w1, s, zone);
    SafeReload(w1, s, zone);
    SafeThen(w, prepare, [Reload], Effective(s));
    QuietReplaying(Exec(w1, Reload), sign, s, zone);
    SafeThen(w, prepare + [Reload], sign, Effective(s));
  }

  lemma PurgeKeeps(w: World, s: State, zone: string)
    requires Replaying(w, s, zone) && s.pending[zone].Delete?
    requires zone !in w.knot.served
    ensures Unmixed(w, Purge(zone)) && Replaying(Exec(w, Purge(zone)), s, zone)
  {
    var v := Exec(w, Purge(zone));
    forall z ensures Consistent(v, z) {
      assert Consistent(w, z);
    }
  }

  lemma DeleteMutates(w: World, s: State, zone: string)
    requires Replaying(w, s, zone) && s.pending[zone].Delete?
    ensures Mutates(w, MutateOps(zone, s.pending[zone]), s, zone)
  {
    var purge, unlink := Purge(zone), UnlinkZoneFile(zone);
    ReloadKeeps(w, s, zone);
    SafeReload(w, s, zone);
    var w1 := Exec(w, Reload);
    PurgeKeeps(w1, s, zone);
    SafeOne(w1, purge, Effective(s));
    SafeThen(w, [Reload], [purge], Effective(s));
    var w2 := Exec(w1, purge);
    QuietReplaying(w2, [unlink], s, zone);
    SafeThen(w, [Reload] + [purge], [unlink], Effective(s));
    ExecSnoc(w2, [], unlink);
    assert [] + [unlink] == [unlink];
  }

  ghost predicate Holds(w: World, zone: string, c: Content) {
    zone in w.knot.open && w.knot.open[zone] == c
  }

  lemma UnsetOne(w: World, zone: string, c: Content, key: Key)
    requires Holds(w, zone, c)
    ensures Holds(Exec(w, UnsetRRset(zone, key)), zone, c.(rrsets := c.rrsets - {key}))
  {
  }

  lemma SetOne(w: World, zone: string, c: Content, e: Entry)
    requires Holds(w, zone, c)
    ensures Holds(Exec(w, SetRecord(zone, e)), zone, c.(rrsets := AddEntry(c.rrsets, e)))
  {
  }

  lemma {:induction false} UnsetOpsOpen(w: World, zone: string, c: Content, keys: seq<Key>)
    requires Holds(w, zone, c)
    ensures Holds(ExecAll(w, UnsetOps(zone, keys)), zone, c.(rrsets := Unset(c.rrsets, keys)))
  {
    if keys != [] {
      var n := |keys| - 1;
      var init, last := UnsetOps(zone, keys[..n]), UnsetRRset(zone, keys[n]);
      UnsetOpsOpen(w, zone, c, keys[..n]);
      UnsetOne(ExecAll(w, init), zone, c.(rrsets := Unset(c.rrsets, keys[..n])), keys[n]);
      assert UnsetOps(zone, keys) == init + [last];
      ExecSnoc(w, init, last);
    }
  }

  lemma {:induction false} SetOpsOpen(w: World, zone: string, c: Content, entries: seq<Entry>)
    requires Holds(w, zone, c)
    ensures Holds(ExecAll(w, SetOps(zone, entries)), zone, c.(rrsets := Load(c.rrsets, entries)))
  {
    if entries != [] {
      var n := |entries| - 1;
      var init, last := SetOps(zone, entries[..n]), SetRecord(zone, entries[n]);
      SetOpsOpen(w, zone, c, entries[..n]);
      SetOne(ExecAll(w, init), zone, c.(rrsets := Load(c.rrsets, entries[..n])), entries[n]);
      assert SetOps(zone, entries) == init + [last];
      ExecSnoc(w, init, last);
    }
  }

  /** The open transaction holds the desired content once all edits are in, whichever of the two
      contents it started from. */
  lemma EditOpsOpen(w: World, zone: string, c: Content, previous: Payload, desired: Payload)
    requires Holds(w, zone, c) && Managed(previous) && Managed(desired)
    requires Reconcilable(c, previous, desired)
    ensures Holds(ExecAll(w, EditOps(zone, previous, desired)), zone, ContentOf(desired))
  {
    var keys, entries := TouchedKeys(previous, desired), RecordsEntries(desired.records);
    UnsetOpsOpen(w, zone, c, keys);
    SetOpsOpen(ExecAll(w, UnsetOps(zone, keys)), zone, c.(rrsets := Unset(c.rrsets, keys)), entries);
    ExecAppend(w, UnsetOps(zone, keys), SetOps(zone, entries));
    UpdateEqualsRebuild(c, previous, desired, keys);
  }

  lemma EditQuiet(zone: string, previous: Payload, desired: Payload)
    ensures forall op | op in [Begin(zone)] + EditOps(zone, previous, desired) :: Quiet(op)
  {
  }

  lemma CommitZoneKeeps(w: World, s: State, zone: string, previous: Payload, desired: Payload)
    requires Replaying(w, s, zone) && s.pending[zone] == Upsert(Some(previous), desired)
    requires Holds(w, zone, ContentOf(desired))
    ensures Replaying(Exec(w, CommitZone(zone)), s, zone)
    ensures zone in Exec(w, CommitZone(zone)).knot.served
            && Exec(w, CommitZone(zone)).knot.served[zone] == ContentOf(desired)
  {
    assert Consistent(w, zone);
    var v := Exec(w, CommitZone(zone));
    forall z ensures Consistent(v, z) {
      assert Consistent(w, z);
    }
  }

  /** Everything up to the commit of the zone transaction. */
  lemma EditsOpen(w: World, s: State, zone: string, previous: Payload, desired: Payload)
    requires Replaying(w, s, zone) && s.pending[zone] == Upsert(Some(previous), desired)
    ensures var edits := [Begin(zone)] + EditOps(zone, previous, desired);
            && Safe(w, edits, Effective(s)) && Replaying(ExecAll(w, edits), s, zone)
            && Holds(ExecAll(w, edits), zone, ContentOf(desired))
  {
    assert Consistent(w, zone) && SoundTransition(s, zone);
    EndsAreReconcilable(previous, desired);
    EditQuiet(zone, previous, desired);
    QuietReplaying(w, [Begin(zone)] + EditOps(zone, previous, desired), s, zone);
    ExecAppend(w, [Begin(zone)], EditOps(zone, previous, desired));
    BeginOpens(w, zone);
    EditOpsOpen(ExecAll(w, [Begin(zone)]), zone, w.knot.served[zone], previous, desired);
  }

  lemma BeginOpens(w: World, zone: string)
    requires zone in w.knot.served
    ensures Holds(ExecAll(w, [Begin(zone)]), zone, w.knot.served[zone])
  {
  }

  /** The zone transaction with its commit. */
  lemma EditsCommit(w: World, s: State, zone: string, previous: Payload, desired: Payload)
    requires Replaying(w, s, zone) && s.pending[zone] == Upsert(Some(previous), desired)
    ensures var ops := [Begin(zone)] + EditOps(zone, previous, desired) + [CommitZone(zone)];
            && Safe(w, ops, Effective(s)) && Replaying(ExecAll(w, ops), s, zone)
            && Settled(ExecAll(w, ops), zone, s.pending[zone])
  {
    var edits, commit := [Begin(zone)] + EditOps(zone, previous, desired), [CommitZone(zone)];
    EditsOpen(w, s, zone, previous, desired);
    var w1 := ExecAll(w, edits);
    CommitZoneKeeps(w1, s, zone, previous, desired);
    SafeOne(w1, CommitZone(zone), Effective(s));
    SafeThen(w, edits, commit, Effective(s));
    ExecSnoc(w, edits, CommitZone(zone));
  }

  lemma UpdateMutates(w: World, s: State, zone: string, previous: Payload, desired: Payload)
    requires Replaying(w, s, zone) && s.pending[zone] == Upsert(Some(previous), desired)
    ensures Mutates(w, MutateOps(zone, s.pending[zone]), s, zone)
  {
    var ops := [Begin(zone)] + EditOps(zone, previous, desired) + [CommitZone(zone)];
    var tail := [Sign(zone), Flush(zone)];
    EditsCommit(w, s, zone, previous, desired);
    QuietReplaying(ExecAll(w, ops), tail, s, zone);
    SafeThen(w, ops, tail, Effective(s));
  }

  lemma TransitionMutates(w: World, s: State, zone: string)
    requires Replaying(w, s, zone)
    ensures Mutates(w, MutateOps(zone, s.pending[zone]), s, zone)
  {
    match s.pending[zone]
    case Upsert(None, desired) => CreateMutates(w, s, zone, desired);
    case Upsert(Some(previous), desired) => UpdateMutates(w, s, zone, previous, desired);
    case Delete(_) => DeleteMutates(w, s, zone);
  }

  /** Replaying a pending transition is safe at every point, commits it, and leaves the stores
      converged, from wherever an earlier attempt stopped. */
  lemma RecoverIsSafe(w: World, zone: string)
    requires Durable(w) && zone in Disk(w).pending
    ensures Safe(w, RecoverOps(Disk(w), zone), Effective(Disk(w)))
    ensures Disk(ExecAll(w, RecoverOps(Disk(w), zone))) == Commit(Disk(w), zone)
  {
    var s := Disk(w);
    var list := WriteInclude(IncludeOf(s));
    SafeInclude(w);
    WriteIncludeKeeps(w);
    var w1 := Exec(w, list);
    var mutate := MutateOps(zone, s.pending[zone]);
    TransitionMutates(w1, s, zone);
    SafeAppend(w, [list], mutate, Effective(s));
    ExecAppend(w, [list], mutate);
    var w2 := ExecAll(w1, mutate);
    SafeEnd(w1, mutate, Effective(s));
    SafeCommit(w2, s, zone);
    SafeAppend(w, [list] + mutate, CommitOps(s, zone), Effective(s));
    ExecAppend(w, [list] + mutate, CommitOps(s, zone));
  }

  lemma PendingNames(s: State)
    requires AtMostOnePending(s)
    ensures SortNames(s.pending.Keys) == [] || exists z :: z in s.pending && SortNames(s.pending.Keys) == [z]
  {
  }

  /** The same for the whole journal, of which at most one transition can be pending. */
  lemma RecoverAllIsSafe(w: World)
    requires Durable(w)
    ensures Safe(w, RecoverAllOps(Disk(w)), Effective(Disk(w)))
    ensures Disk(ExecAll(w, RecoverAllOps(Disk(w)))) == Recovered(Disk(w))
  {
    var s := Disk(w);
    PendingNames(s);
    if SortNames(s.pending.Keys) == [] {
      NothingPending(s);
      SafeEmpty(w);
    } else {
      var zone :| zone in s.pending && SortNames(s.pending.Keys) == [zone];
      RecoverOnePending(s, zone);
      RecoverIsSafe(w, zone);
    }
  }

  lemma NothingPending(s: State)
    requires SortNames(s.pending.Keys) == []
    ensures RecoverAllOps(s) == [] && Recovered(s) == s
  {
  }

  lemma RecoverOnePending(s: State, zone: string)
    requires Sound(s) && zone in s.pending && SortNames(s.pending.Keys) == [zone]
    ensures RecoverAllOps(s) == RecoverOps(s, zone) && Recovered(s) == Commit(s, zone)
  {
    assert [zone][..0] == [];
    assert RecoverAllOps(s) == ReplayOps(s, []) + RecoverOps(AfterReplay(s, []), zone);
    SoundCommit(s, zone);
    CommitEffective(s, zone);
    EffectiveOfCommitted(Commit(s, zone));
  }

  // ----- whole calls -----

  /** Requests reach the store only with a payload that validation has accepted. */
  ghost predicate Admissible(task: Task) {
    task.Apply? ==> Managed(task.payload)
  }

  lemma BootIsSafe(w: World)
    requires Durable(w)
    ensures var ops := [WriteInclude(IncludeOf(Disk(w)))] + RecoverAllOps(Disk(w));
            Safe(w, ops, Effective(Disk(w))) && Disk(ExecAll(w, ops)) == Recovered(Disk(w))
  {
    var list := [WriteInclude(IncludeOf(Disk(w)))];
    SafeInclude(w);
    WriteIncludeKeeps(w);
    RecoverAllIsSafe(ExecAll(w, list));
    SafeThen(w, list, RecoverAllOps(Disk(w)), Effective(Disk(w)));
  }

  lemma QuietAfterReplay(w: World, ops: seq<Op>)
    requires Durable(w) && forall op | op in ops :: Quiet(op)
    ensures var all := RecoverAllOps(Disk(w)) + ops;
            Safe(w, all, Effective(Disk(w))) && Disk(ExecAll(w, all)) == Recovered(Disk(w))
  {
    var replay := RecoverAllOps(Disk(w));
    RecoverAllIsSafe(w);
    SafeEnd(w, replay, Effective(Disk(w)));
    SafeQuiet(ExecAll(w, replay), ops);
    SafeThen(w, replay, ops, Effective(Disk(w)));
  }

  lemma OpeningIsSafe(w: World, task: Task)
    requires Durable(w)
    ensures Safe(w, OpeningOps(task, Disk(w)), Effective(Disk(w)))
    ensures Disk(ExecAll(w, OpeningOps(task, Disk(w)))) == Recovered(Disk(w))
  {
    match task
    case Boot => BootIsSafe(w);
    case Apply(zone, p) =>
      QuietAfterReplay(w, if Judge(Effective(Disk(w)), zone, p).Create? then PrepareOps(zone, p) else []);
    case _ => RecoverAllIsSafe(w);
  }

  lemma StagedEffective(task: Task, s: State)
    ensures Staged(task, s).Some? ==>
              && Effective(Staged(task, s).value) == Target(task, Effective(s))
              && task.zone in Staged(task, s).value.pending
    ensures Staged(task, s).None? ==> Target(task, Effective(s)) == Effective(s)
  {
    StagesIff(task, s);
  }

  lemma StagedJournal(task: Task, s: State)
    requires Staged(task, s).Some?
    ensures Staged(task, s).value.pending.Keys == {task.zone} && Requests(task, task.zone)
  {
  }

  lemma StagedSound(task: Task, s: State)
    requires Sound(Recovered(s)) && Admissible(task) && Staged(task, s).Some?
    ensures Sound(Staged(task, s).value) && task.zone in Staged(task, s).value.pending
  {
    StagedJournal(task, s);
    EffectiveOfCommitted(Recovered(s));
  }

  lemma StagingConsistent(w: World, task: Task, s: State, zone: string)
    requires Durable(w) && Admissible(task) && Disk(w) == Recovered(s) && Staged(task, s).Some?
    ensures Consistent(Exec(w, SaveState(Staged(task, s).value)), zone)
  {
    assert Consistent(w, zone);
  }

  /** The staging write itself: durable, and the only effect that changes the effective zones. */
  lemma StagingKeeps(w: World, task: Task, s: State)
    requires Durable(w) && Admissible(task) && Disk(w) == Recovered(s) && Staged(task, s).Some?
    ensures var op := SaveState(Staged(task, s).value);
            && Unmixed(w, op) && Durable(Exec(w, op))
            && Effective(Disk(Exec(w, op))) == Target(task, Effective(s))
  {
    var staged := Staged(task, s).value;
    var v := Exec(w, SaveState(staged));
    StagedEffective(task, s);
    StagedSound(task, s);
    forall z ensures Consistent(v, z) {
      StagingConsistent(w, task, s, z);
    }
  }

  /** After the staging write: the include, then the replay of the fresh transition. */
  lemma FinishIsSafe(w: World, zone: string)
    requires Durable(w) && zone in Disk(w).pending
    ensures var ops := [WriteInclude(IncludeOf(Disk(w)))] + RecoverOps(Disk(w), zone);
            Safe(w, ops, Effective(Disk(w))) && Disk(ExecAll(w, ops)) == Commit(Disk(w), zone)
  {
    var list := [WriteInclude(IncludeOf(Disk(w)))];
    SafeInclude(w);
    WriteIncludeKeeps(w);
    RecoverIsSafe(ExecAll(w, list), zone);
    SafeThen(w, list, RecoverOps(Disk(w), zone), Effective(Disk(w)));
  }

  ghost predicate LinearAt(w: World, ops: seq<Op>, n: nat, before: map<string, Payload>,
      after: map<string, Payload>, k: nat)
    requires k <= |ops|
  {
    Fine(At(w, ops, k), if k <= n then before else after, ops[k..])
  }

  /** At every point of the effects the stores are durable; they mean the zones `before` up to
      effect number n, and the zones `after` from the moment it is done. */
  ghost predicate Linear(w: World, ops: seq<Op>, n: nat, before: map<string, Payload>, after: map<string, Payload>) {
    forall k | 0 <= k <= |ops| :: LinearAt(w, ops, n, before, after, k)
  }

  lemma SafeIsLinear(w: World, ops: seq<Op>, before: map<string, Payload>, after: map<string, Payload>)
    requires Safe(w, ops, before)
    ensures Linear(w, ops, |ops|, before, after)
  {
    forall k | 0 <= k <= |ops| ensures LinearAt(w, ops, |ops|, before, after, k) {
      assert SafeAt(w, ops, before, k);
    }
  }

  lemma JoinBefore(w: World, a: seq<Op>, op: Op, b: seq<Op>, before: map<string, Payload>,
      after: map<string, Payload>, k: nat)
    requires Safe(w, a, before) && Unmixed(ExecAll(w, a), op) && k <= |a|
    ensures LinearAt(w, a + ([op] + b), |a|, before, after, k)
  {
    assert (a + ([op] + b))[..k] == a[..k];
    assert SafeAt(w, a, before, k);
    assert a[..|a|] == a;
  }

  lemma FineAlike(v: World, u: World, e: map<string, Payload>, coming: seq<Op>, next: seq<Op>)
    requires Fine(u, e, next) && v == u && coming == next
    ensures Fine(v, e, coming)
  {
  }

  lemma JoinAfter(w: World, a: seq<Op>, op: Op, b: seq<Op>, before: map<string, Payload>,
      after: map<string, Payload>, k: nat)
    requires Safe(Exec(ExecAll(w, a), op), b, after) && |a| < k <= |a + ([op] + b)|
    ensures LinearAt(w, a + ([op] + b), |a|, before, after, k)
  {
    var ops, u, j := a + ([op] + b), Exec(ExecAll(w, a), op), k - |a| - 1;
    assert SafeAt(u, b, after, j);
    AtSplit(w, a, op, b, j);
    FineAlike(At(w, ops, k), At(u, b, j), after, ops[k..], b[j..]);
  }

  lemma JoinLinear(w: World, a: seq<Op>, op: Op, b: seq<Op>, before: map<string, Payload>, after: map<string, Payload>)
    requires Safe(w, a, before) && Unmixed(ExecAll(w, a), op)
    requires Safe(Exec(ExecAll(w, a), op), b, after)
    ensures Linear(w, a + ([op] + b), |a|, before, after)
  {
    var ops := a + ([op] + b);
    forall k | 0 <= k <= |ops| ensures LinearAt(w, ops, |a|, before, after, k) {
      if k <= |a| {
        JoinBefore(w, a, op, b, before, after, k);
      } else {
        JoinAfter(w, a, op, b, before, after, k);
      }
    }
  }

  lemma AtSplit(w: World, a: seq<Op>, op: Op, b: seq<Op>, j: nat)
    requires j <= |b|
    ensures At(w, a + ([op] + b), |a| + 1 + j) == At(Exec(ExecAll(w, a), op), b, j)
    ensures (a + ([op] + b))[|a| + 1 + j..] == b[j..]
  {
    SplitSequence(a, op, b, j);
    ExecAppend(w, a + [op], b[..j]);
    ExecSnoc(w, a, op);
  }

  lemma SplitSequence<T>(a: seq<T>, x: T, b: seq<T>, j: nat)
    requires j <= |b|
    ensures (a + ([x] + b))[..|a| + 1 + j] == (a + [x]) + b[..j]
    ensures (a + ([x] + b))[|a| + 1 + j..] == b[j..]
  {
  }

  /** The world at the staging write, and the one just after it. */
  lemma StagingPoint(w: World, task: Task, staged: State)
    requires Durable(w) && Admissible(task) && Staged(task, Disk(w)) == Some(staged)
    ensures var s := Disk(w);
            var v := ExecAll(w, OpeningOps(task, s));
            && Safe(w, OpeningOps(task, s), Effective(s)) && Unmixed(v, SaveState(staged))
            && Safe(Exec(v, SaveState(staged)), FollowOps(staged, task.zone), Target(task, Effective(s)))
            && Disk(ExecAll(Exec(v, SaveState(staged)), FollowOps(staged, task.zone))).pending == map[]
  {
    var s := Disk(w);
    OpeningIsSafe(w, task);
    SafeEnd(w, OpeningOps(task, s), Effective(s));
    var v := ExecAll(w, OpeningOps(task, s));
    StagingKeeps(v, task, s);
    StagedEffective(task, s);
    FinishIsSafe(Exec(v, SaveState(staged)), task.zone);
    SoundCommit(staged, task.zone);
  }

  /** Crash-atomic linearisation of a call: at every point the stores are durable, their effective
      zones change only at the staging write, and then exactly to the specified zones. */
  lemma ScriptIsLinear(w: World, task: Task)
    requires Durable(w) && Admissible(task)
    ensures var s := Disk(w);
            Linear(w, ScriptOf(task, s), |OpeningOps(task, s)|, Effective(s), Target(task, Effective(s)))
  {
    var s := Disk(w);
    match Staged(task, s)
    case None =>
      OpeningIsSafe(w, task);
      SafeIsLinear(w, OpeningOps(task, s), Effective(s), Target(task, Effective(s)));
    case Some(staged) =>
      StagingPoint(w, task, staged);
      JoinLinear(w, OpeningOps(task, s), SaveState(staged), FollowOps(staged, task.zone),
        Effective(s), Target(task, Effective(s)));
  }

  lemma EndsQuiescent(w: World, task: Task)
    requires Durable(w) && Admissible(task)
    ensures Disk(ExecAll(w, ScriptOf(task, Disk(w)))).pending == map[]
  {
    var s := Disk(w);
    match Staged(task, s)
    case None =>
      OpeningIsSafe(w, task);
    case Some(staged) =>
      var a, op, b := OpeningOps(task, s), SaveState(staged), FollowOps(staged, task.zone);
      StagingPoint(w, task, staged);
      ExecAppend(w, a, [op] + b);
      ExecAppend(ExecAll(w, a), [op], b);
      ExecSnoc(ExecAll(w, a), [], op);
      assert [] + [op] == [op];
  }

  lemma LinearEnd(w: World, ops: seq<Op>, n: nat, before: map<string, Payload>, after: map<string, Payload>)
    requires Linear(w, ops, n, before, after)
    ensures Durable(ExecAll(w, ops))
    ensures Effective(Disk(ExecAll(w, ops))) == if |ops| <= n then before else after
  {
    assert LinearAt(w, ops, n, before, after, |ops|);
    assert ops[..|ops|] == ops;
  }

  /** Two neighbouring points of a linear script. */
  lemma LinearStep(w: World, ops: seq<Op>, n: nat, before: map<string, Payload>, after: map<string, Payload>, k: nat)
    requires Linear(w, ops, n, before, after) && k < |ops|
    ensures At(w, ops, k + 1) == Exec(At(w, ops, k), ops[k])
    ensures Unmixed(At(w, ops, k), ops[k]) && Durable(At(w, ops, k + 1))
    ensures Effective(Disk(At(w, ops, k))) == if k <= n then before else after
    ensures Effective(Disk(At(w, ops, k + 1))) == if k < n then before else after
  {
    assert LinearAt(w, ops, n, before, after, k);
    assert LinearAt(w, ops, n, before, after, k + 1);
    assert ops[..k + 1] == ops[..k] + [ops[k]];
    ExecSnoc(w, ops[..k], ops[k]);
  }

  /** Convergence: from any durable world, whatever crash produced it, a call that completes
      leaves the journal empty and the three stores agreeing on exactly the specified zones. */
  lemma ScriptConverges(w: World, task: Task)
    requires Durable(w) && Admissible(task)
    ensures Converged(ExecAll(w, ScriptOf(task, Disk(w))), Target(task, Effective(Disk(w))))
  {
    var s := Disk(w);
    var ops, n := ScriptOf(task, s), |OpeningOps(task, s)|;
    ScriptIsLinear(w, task);
    LinearEnd(w, ops, n, Effective(s), Target(task, Effective(s)));
    StagedEffective(task, s);
    EndsQuiescent(w, task);
    DurableConverged(ExecAll(w, ops));
  }
}
