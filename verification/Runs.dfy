/** Properties of whole runs: any number of requests, errors, crashes, restarts and backups. */
module Runs {
  import opened Effects
  import opened Journal
  import opened Recovery
  import opened Saves
  import opened Script
  import opened Service
  import opened Text
  import opened Wrappers
  import opened Zones

  /** A run: the systems passed through, the event that leads from each to the next, and the
      request, if any, that the event accepts by writing its transition to the journal. */
  datatype Run = Run(systems: seq<System>, events: seq<Event>, accepted: seq<Option<Task>>)

  ghost function Acceptance(s: System, e: Event): Option<Task> {
    if Accepts(s, e) then Some(s.call.value.task) else None
  }

  ghost predicate StepOf(r: Run, i: nat)
    requires i < |r.events| == |r.accepted| && |r.systems| == |r.events| + 1
  {
    && Enabled(r.systems[i], r.events[i])
    && r.systems[i + 1] == Step(r.systems[i], r.events[i])
    && r.accepted[i] == Acceptance(r.systems[i], r.events[i])
  }

  /** Any run at all. */
  ghost predicate ValidRun(r: Run) {
    && |r.systems| == |r.events| + 1 && |r.events| == |r.accepted|
    && Initial(r.systems[0])
    && forall i: nat | i < |r.events| :: StepOf(r, i)
  }

  ghost predicate UndoneAt(r: Run, i: nat)
    requires i < |r.events| == |r.accepted| && |r.systems| == |r.events| + 1 && StepOf(r, i)
  {
    Undoes(r.systems[i], r.events[i])
  }

  /** Before instant n no power loss brings back the state file from before a staging write whose
      process was killed. */
  ghost predicate Lasting(r: Run, n: nat)
    requires ValidRun(r) && n <= |r.events|
  {
    forall i: nat | i < n :: StepOf(r, i) && !UndoneAt(r, i)
  }

  /** A run in which what is accepted lasts. */
  ghost predicate LastingRun(r: Run) {
    ValidRun(r) && Lasting(r, |r.events|)
  }

  lemma StretchSnoc<T>(s: seq<T>, i: nat, j: nat, k: nat)
    requires i <= j < |s| && k == j + 1
    ensures s[i..k] == s[i..j] + [s[j]]
  {
  }

  lemma TakeTake<T>(s: seq<T>, j: nat, k: nat)
    requires j <= k <= |s|
    ensures s[..k][..j] == s[..j]
  {
  }

  /** As long as what is accepted lasts, every system in a run satisfies the invariant: in particular
      the state on disk is one that recovery can start from. */
  lemma {:induction false} RunInvariant(r: Run, i: nat)
    requires ValidRun(r) && i < |r.systems| && Lasting(r, i)
    ensures Invariant(r.systems[i])
  {
    if i == 0 {
      InitialInvariant(r.systems[0]);
    } else {
      RunInvariant(r, i - 1);
      assert StepOf(r, i - 1) && !UndoneAt(r, i - 1);
      StepKeepsInvariant(r.systems[i - 1], r.events[i - 1]);
    }
  }

  /** An accepted request is carried out on the map of zones. */
  function Advance(accepted: Option<Task>, zones: map<string, Payload>): map<string, Payload> {
    match accepted
    case None => zones
    case Some(task) => Target(task, zones)
  }

  /** Requests carried out one after the other. */
  function CarryOut(zones: map<string, Payload>, requests: seq<Option<Task>>): map<string, Payload> {
    if requests == [] then zones
    else Advance(requests[|requests| - 1], CarryOut(zones, requests[..|requests| - 1]))
  }

  lemma StepAt(r: Run, i: nat)
    requires ValidRun(r) && i < |r.events| && Lasting(r, i + 1)
    ensures EffectiveZones(r.systems[i + 1]) == Advance(r.accepted[i], EffectiveZones(r.systems[i]))
  {
    RunInvariant(r, i);
    assert StepOf(r, i) && !UndoneAt(r, i);
    StepLinearizes(r.systems[i], r.events[i]);
  }

  lemma InitialZones(s: System)
    requires Initial(s)
    ensures EffectiveZones(s) == map[]
  {
  }

  /** Linearisation: at every instant of every run the effective zones are those of the requests
      accepted so far; errors, crashes, replays and backups leave them alone. */
  lemma {:induction false} RunLinearizes(r: Run, i: nat)
    requires ValidRun(r) && i < |r.systems| && Lasting(r, i)
    ensures EffectiveZones(r.systems[i]) == CarryOut(map[], r.accepted[..i])
    decreases i
  {
    if i == 0 {
      InitialZones(r.systems[0]);
    } else {
      RunLinearizes(r, i - 1);
      StepAt(r, i - 1);
      assert r.accepted[..i][..i - 1] == r.accepted[..i - 1];
    }
  }

  lemma ReturnAt(r: Run, i: nat)
    requires LastingRun(r) && i < |r.events| && r.events[i].Return?
    ensures Converged(r.systems[i + 1].world, EffectiveZones(r.systems[i + 1]))
  {
    RunInvariant(r, i);
    assert StepOf(r, i);
    ReturnConverges(r.systems[i]);
  }

  /** Whenever a call returns, whatever went wrong before it, the journal is empty and state file,
      include and Knot agree on exactly the zones of the accepted requests. */
  lemma RunConverges(r: Run, i: nat)
    requires LastingRun(r) && i < |r.events| && r.events[i].Return?
    ensures Converged(r.systems[i + 1].world, CarryOut(map[], r.accepted[..i + 1]))
  {
    RunLinearizes(r, i + 1);
    ReturnAt(r, i);
  }

  // ----- the lock -----

  /** With any number of threads and the backup contending for the guard, whenever the lock file is
      free memory is what is on disk and at most one transition is pending; after a call that ran
      to its end the journal is empty and the stores have converged. */
  lemma WheneverLockFree(r: Run, i: nat)
    requires LastingRun(r) && i < |r.systems| && r.systems[i].fileLock.Free?
    ensures var s := r.systems[i];
            && (s.memory.Some? ==> s.memory.value == Disk(s.world))
            && AtMostOnePending(Disk(s.world))
            && (s.clean ==> Converged(s.world, CarryOut(map[], r.accepted[..i])))
  {
    RunInvariant(r, i);
    RunLinearizes(r, i);
  }

  lemma {:induction false} CallsUnderLock(r: Run, i: nat)
    requires ValidRun(r) && i < |r.systems|
    ensures r.systems[i].call.Some? <==> r.systems[i].fileLock.ByService?
  {
    if i > 0 {
      CallsUnderLock(r, i - 1);
      assert StepOf(r, i - 1);
      StepKeepsLock(r.systems[i - 1], r.events[i - 1]);
    }
  }

  /** From the moment the backup has the lock until it gives it back, state file, include, zone
      files and Knot stay as they are, and no call is in progress: on any run at all. */
  lemma {:induction false} BackupSeesStillStores(r: Run, i: nat, j: nat)
    requires ValidRun(r) && i <= j < |r.systems|
    requires forall k | i <= k <= j :: r.systems[k].fileLock.ByBackup?
    ensures r.systems[j].world == r.systems[i].world && r.systems[j].call.None?
  {
    CallsUnderLock(r, j);
    if i < j {
      BackupSeesStillStores(r, i, j - 1);
      assert StepOf(r, j - 1);
      StillUnderBackup(r.systems[j - 1], r.events[j - 1]);
    }
  }

  // ----- revisions -----

  /** The zone is still there, not older, and unchanged if its revision is. */
  ghost predicate NotOlder(before: map<string, Payload>, after: map<string, Payload>, zone: string)
    requires zone in before
  {
    && zone in after
    && before[zone].revision <= after[zone].revision
    && (before[zone].revision == after[zone].revision ==> before[zone] == after[zone])
  }

  lemma TargetIsNotOlder(task: Task, zones: map<string, Payload>, zone: string)
    requires zone in zones && task != Remove(zone)
    ensures NotOlder(zones, Target(task, zones), zone)
  {
  }

  /** Between two deletions of a zone its effective revision never decreases, and an equal
      revision means an equal payload. */
  lemma {:induction false} RevisionsNeverDecrease(r: Run, i: nat, j: nat, zone: string)
    requires LastingRun(r) && i <= j < |r.systems|
    requires zone in EffectiveZones(r.systems[i])
    requires Some(Remove(zone)) !in r.accepted[i..j]
    ensures NotOlder(EffectiveZones(r.systems[i]), EffectiveZones(r.systems[j]), zone)
    decreases j
  {
    if i < j {
      assert r.accepted[i..j] == r.accepted[i..j - 1] + [r.accepted[j - 1]];
      RevisionsNeverDecrease(r, i, j - 1, zone);
      StepAt(r, j - 1);
      if r.accepted[j - 1].Some? {
        TargetIsNotOlder(r.accepted[j - 1].value, EffectiveZones(r.systems[j - 1]), zone);
      }
    }
  }

  /** Every 409 answer leaves the effective zones as the call found them, even though the call may
      have replayed a pending transition, and the stores converged on them. */
  lemma RefusalChangesNothing(r: Run, i: nat, zone: string, p: Payload)
    requires LastingRun(r) && i < |r.events| && r.events[i].Return?
    requires r.systems[i].call.Some? && r.systems[i].call.value.task == Apply(zone, p)
    requires !Granted(Effective(Disk(r.systems[i].call.value.entry)), zone, p)
    ensures var found := Effective(Disk(r.systems[i].call.value.entry));
            Converged(r.systems[i + 1].world, found) && EffectiveZones(r.systems[i + 1]) == found
  {
    RunInvariant(r, i);
    assert StepOf(r, i);
    ReturnConverges(r.systems[i]);
  }

  /** A request for a new zone or with a larger revision takes effect: when its call returns, the
      stores have converged on the zones it found with its payload. */
  lemma NewRevisionTakesEffect(r: Run, i: nat, zone: string, p: Payload)
    requires LastingRun(r) && i < |r.events| && r.events[i].Return?
    requires r.systems[i].call.Some? && r.systems[i].call.value.task == Apply(zone, p)
    requires var found := Effective(Disk(r.systems[i].call.value.entry));
             zone in found ==> p.revision > found[zone].revision
    ensures Converged(r.systems[i + 1].world, Effective(Disk(r.systems[i].call.value.entry))[zone := p])
  {
    RunInvariant(r, i);
    assert StepOf(r, i);
    ReturnConverges(r.systems[i]);
  }

  // ----- incarnations -----

  lemma DeletedStaysOut(s: State, zone: string)
    requires PendingDelete(s, zone)
    ensures zone !in Effective(s)
  {
  }

  /** Once the deletion of a zone is staged, the zone is intended again only after an instant at
      which neither Knot nor the zone directory kept anything of the old incarnation. */
  lemma {:induction false} IncarnationsSeparated(r: Run, i: nat, j: nat, zone: string)
    requires LastingRun(r) && i <= j < |r.systems|
    requires PendingDelete(Disk(r.systems[i].world), zone)
    requires zone in EffectiveZones(r.systems[j])
    ensures exists k: nat :: i <= k < j && Gone(r.systems[k].world, zone)
    decreases j - i
  {
    RunInvariant(r, i);
    DeletedStaysOut(Disk(r.systems[i].world), zone);
    assert i < j;
    assert StepOf(r, i) && !UndoneAt(r, i);
    StepNeverMixes(r.systems[i], r.events[i], zone);
    if !Gone(r.systems[i].world, zone) {
      IncarnationsSeparated(r, i + 1, j, zone);
    }
  }

  /** Once the deletion of a zone is staged, Knot takes the zone up again only after such an instant. */
  lemma LoadsSeparated(r: Run, i: nat, j: nat, zone: string)
    requires LastingRun(r) && i <= j < |r.events|
    requires PendingDelete(Disk(r.systems[i].world), zone)
    requires zone !in r.systems[j].world.knot.served && zone in r.systems[j + 1].world.knot.served
    ensures exists k: nat :: i <= k < j && Gone(r.systems[k].world, zone)
  {
    RunInvariant(r, j);
    assert StepOf(r, j) && !UndoneAt(r, j);
    StepNeverMixes(r.systems[j], r.events[j], zone);
    IncarnationsSeparated(r, i, j, zone);
  }

  // ----- retries -----

  /** No request on the zone other than this one is accepted; requests on other zones may be. */
  ghost predicate OnlyRequestOn(accepted: seq<Option<Task>>, zone: string, task: Task) {
    forall k | 0 <= k < |accepted| && accepted[k].Some? && Requests(accepted[k].value, zone) ::
      accepted[k] == Some(task)
  }

  lemma OnlySnoc(a: seq<Option<Task>>, last: Option<Task>, zone: string, task: Task)
    requires OnlyRequestOn(a + [last], zone, task)
    ensures OnlyRequestOn(a, zone, task)
    ensures last.Some? && Requests(last.value, zone) ==> last == Some(task)
  {
    var all := a + [last];
    assert all[|a|] == last;
    forall k | 0 <= k < |a| ensures all[k] == a[k] {
    }
  }

  /** The accepted requests on other zones, carried out one after the other. */
  function Others(zones: map<string, Payload>, accepted: seq<Option<Task>>, zone: string): map<string, Payload> {
    if accepted == [] then zones
    else
      var before, last := Others(zones, accepted[..|accepted| - 1], zone), accepted[|accepted| - 1];
      if last.Some? && !Requests(last.value, zone) then Target(last.value, before) else before
  }

  lemma {:induction false} OthersKeepZone(zones: map<string, Payload>, accepted: seq<Option<Task>>, zone: string)
    ensures Lookup(Others(zones, accepted, zone), zone) == Lookup(zones, zone)
  {
    if accepted != [] {
      OthersKeepZone(zones, accepted[..|accepted| - 1], zone);
    }
  }

  lemma OthersSnoc(zones: map<string, Payload>, a: seq<Option<Task>>, last: Option<Task>, zone: string)
    ensures Others(zones, a + [last], zone)
            == if last.Some? && !Requests(last.value, zone) then Target(last.value, Others(zones, a, zone))
               else Others(zones, a, zone)
  {
    assert (a + [last])[..|a|] == a;
  }

  /** Requests on different zones do not see each other. */
  lemma TargetCommutes(task: Task, zones: map<string, Payload>, zone: string, p: Payload)
    requires !Requests(task, zone)
    ensures Target(task, zones[zone := p]) == Target(task, zones)[zone := p]
  {
  }

  lemma TargetTwice(zone: string, p: Payload, zones: map<string, Payload>)
    ensures Target(Apply(zone, p), zones) in {zones, zones[zone := p]}
    ensures Target(Apply(zone, p), zones[zone := p]) == zones[zone := p]
    ensures Granted(zones, zone, p) ==> Target(Apply(zone, p), zones) == zones[zone := p]
  {
  }

  lemma AdvanceRepeated(accepted: Option<Task>, zones: map<string, Payload>, o: map<string, Payload>,
      zone: string, p: Payload)
    requires zones in {o, o[zone := p]}
    requires accepted.Some? && Requests(accepted.value, zone) ==> accepted == Some(Apply(zone, p))
    ensures var next := if accepted.Some? && !Requests(accepted.value, zone) then Target(accepted.value, o) else o;
            Advance(accepted, zones) in {next, next[zone := p]}
  {
    if accepted.Some? {
      if Requests(accepted.value, zone) {
        TargetTwice(zone, p, o);
      } else {
        TargetCommutes(accepted.value, o, zone, p);
      }
    }
  }

  /** While the one request on a zone is made again and again, and others are carried out on other
      zones, the effective zones are those of the others, with or without its entry. */
  lemma {:induction false} RepeatedRequest(r: Run, i: nat, j: nat, zone: string, p: Payload)
    requires LastingRun(r) && i <= j < |r.systems|
    requires OnlyRequestOn(r.accepted[i..j], zone, Apply(zone, p))
    ensures var others := Others(EffectiveZones(r.systems[i]), r.accepted[i..j], zone);
            EffectiveZones(r.systems[j]) in {others, others[zone := p]}
    decreases j
  {
    if i < j {
      var h := j - 1;
      StretchSnoc(r.accepted, i, h, j);
      OnlySnoc(r.accepted[i..h], r.accepted[h], zone, Apply(zone, p));
      RepeatedRequest(r, i, h, zone, p);
      StepAt(r, h);
      AdvanceRepeated(r.accepted[h], EffectiveZones(r.systems[h]),
        Others(EffectiveZones(r.systems[i]), r.accepted[i..h], zone), zone, p);
      OthersSnoc(EffectiveZones(r.systems[i]), r.accepted[i..h], r.accepted[h], zone);
    }
  }

  lemma SameEnd(before: map<string, Payload>, end: map<string, Payload>, zone: string, p: Payload)
    requires end in {before, before[zone := p]} && Lookup(end, zone) == Some(p)
    ensures end == before[zone := p]
  {
  }

  /** Event number j returns from a call that answers this request with success. */
  ghost predicate Answers(r: Run, j: nat, zone: string, p: Payload)
    requires |r.systems| == |r.events| + 1 && j < |r.events|
  {
    && r.events[j].Return? && r.systems[j].call.Some? && r.systems[j].call.value.task == Apply(zone, p)
    && Granted(Effective(Disk(r.systems[j].call.value.entry)), zone, p)
  }

  lemma EndsWithRequest(r: Run, j: nat, zone: string, p: Payload)
    requires LastingRun(r) && j < |r.events| && Answers(r, j, zone, p)
    ensures Lookup(EffectiveZones(r.systems[j]), zone) == Some(p)
    ensures Converged(r.systems[j + 1].world, EffectiveZones(r.systems[j]))
  {
    RunInvariant(r, j);
    assert StepOf(r, j);
    ReturnConverges(r.systems[j]);
    TargetTwice(zone, p, Effective(Disk(r.systems[j].call.value.entry)));
  }

  /** However often the same request is cut short by errors and crashes and made again, and whatever
      is accepted on other zones meanwhile: once it returns with success the stores have converged
      on the zones of those others with that one entry. */
  lemma RetriedExactlyOnce(r: Run, i: nat, j: nat, zone: string, p: Payload)
    requires LastingRun(r) && i <= j < |r.events|
    requires OnlyRequestOn(r.accepted[i..j], zone, Apply(zone, p))
    requires Answers(r, j, zone, p)
    ensures Converged(r.systems[j + 1].world,
                      Others(EffectiveZones(r.systems[i]), r.accepted[i..j], zone)[zone := p])
  {
    RepeatedRequest(r, i, j, zone, p);
    EndsWithRequest(r, j, zone, p);
    SameEnd(Others(EffectiveZones(r.systems[i]), r.accepted[i..j], zone), EffectiveZones(r.systems[j]), zone, p);
  }

  lemma AcceptedNew(r: Run, k: nat, zone: string, p: Payload)
    requires LastingRun(r) && k < |r.events| && r.accepted[k] == Some(Apply(zone, p))
    ensures zone in EffectiveZones(r.systems[k]) ==> p.revision > EffectiveZones(r.systems[k])[zone].revision
    ensures Lookup(EffectiveZones(r.systems[k + 1]), zone) == Some(p)
  {
    RunInvariant(r, k);
    assert StepOf(r, k);
    AcceptanceIsNew(r.systems[k], r.events[k], zone, p);
    StepAt(r, k);
  }

  /** The same request is accepted at most once as long as its zone is not deleted, whatever else
      is accepted. */
  lemma AcceptedAtMostOnce(r: Run, k: nat, l: nat, zone: string, p: Payload)
    requires LastingRun(r) && k < l < |r.events|
    requires r.accepted[k] == r.accepted[l] == Some(Apply(zone, p))
    ensures Some(Remove(zone)) in r.accepted[k + 1..l]
  {
    AcceptedNew(r, k, zone, p);
    AcceptedNew(r, l, zone, p);
    if Some(Remove(zone)) !in r.accepted[k + 1..l] {
      RevisionsNeverDecrease(r, k + 1, l, zone);
    }
  }

  /** One uninterrupted application of an accepted request, for comparison. */
  lemma AppliedOnce(w: World, zone: string, p: Payload)
    requires Durable(w) && Managed(p) && Granted(Effective(Disk(w)), zone, p)
    ensures Converged(ExecAll(w, ScriptOf(Apply(zone, p), Disk(w))), Effective(Disk(w))[zone := p])
  {
    ScriptConverges(w, Apply(zone, p));
    TargetTwice(zone, p, Effective(Disk(w)));
  }

  /** Converging on the same zones means the same state, included zones and served content. */
  lemma ConvergedAlike(a: World, b: World, zones: map<string, Payload>)
    requires Converged(a, zones) && Converged(b, zones)
    ensures Disk(a) == Disk(b) && IncludedZones(a.config) == IncludedZones(b.config)
    ensures a.knot.served == b.knot.served
  {
  }

  /** A request that succeeds in the end would have succeeded at the start. */
  lemma StillSucceeds(r: Run, i: nat, j: nat, zone: string, p: Payload)
    requires LastingRun(r) && i <= j < |r.systems|
    requires OnlyRequestOn(r.accepted[i..j], zone, Apply(zone, p))
    requires Lookup(EffectiveZones(r.systems[j]), zone) == Some(p)
    ensures Granted(EffectiveZones(r.systems[i]), zone, p)
  {
    if zone in EffectiveZones(r.systems[i]) {
      RevisionsNeverDecrease(r, i, j, zone);
    }
  }

  lemma GrantedAlike(a: map<string, Payload>, b: map<string, Payload>, zone: string, p: Payload)
    requires Lookup(a, zone) == Lookup(b, zone)
    ensures Granted(a, zone, p) == Granted(b, zone, p)
  {
  }

  /** However often the request is cut short and made again, state, include and Knot end exactly as
      if it had been applied once, undisturbed, to a world in which the accepted requests on other
      zones have been carried out; without such requests the world at the start is one. */
  lemma RetryEqualsOnce(r: Run, i: nat, j: nat, zone: string, p: Payload, w: World)
    requires LastingRun(r) && i <= j < |r.events|
    requires OnlyRequestOn(r.accepted[i..j], zone, Apply(zone, p))
    requires Answers(r, j, zone, p)
    requires Durable(w) && Effective(Disk(w)) == Others(EffectiveZones(r.systems[i]), r.accepted[i..j], zone)
    ensures var end, once := r.systems[j + 1].world, ExecAll(w, ScriptOf(Apply(zone, p), Disk(w)));
            && Disk(end) == Disk(once) && IncludedZones(end.config) == IncludedZones(once.config)
            && end.knot.served == once.knot.served
  {
    RetriedExactlyOnce(r, i, j, zone, p);
    RunInvariant(r, j);
    EndsWithRequest(r, j, zone, p);
    StillSucceeds(r, i, j, zone, p);
    OthersKeepZone(EffectiveZones(r.systems[i]), r.accepted[i..j], zone);
    GrantedAlike(EffectiveZones(r.systems[i]), Effective(Disk(w)), zone, p);
    AppliedOnce(w, zone, p);
    ConvergedAlike(r.systems[j + 1].world, ExecAll(w, ScriptOf(Apply(zone, p), Disk(w))),
      Effective(Disk(w))[zone := p]);
  }

  // ----- a repeat after success -----

  lemma NotAcceptedAgain(r: Run, k: nat, zone: string, p: Payload)
    requires LastingRun(r) && k < |r.events| && Lookup(EffectiveZones(r.systems[k]), zone) == Some(p)
    ensures r.accepted[k] != Some(Apply(zone, p))
  {
    if r.accepted[k] == Some(Apply(zone, p)) {
      AcceptedNew(r, k, zone, p);
    }
  }

  /** No request on the zone is accepted at all. */
  ghost predicate NothingOn(accepted: seq<Option<Task>>, zone: string) {
    forall k | 0 <= k < |accepted| && accepted[k].Some? :: !Requests(accepted[k].value, zone)
  }

  lemma NothingSnoc(a: seq<Option<Task>>, last: Option<Task>, zone: string)
    ensures NothingOn(a + [last], zone) <==> NothingOn(a, zone) && (last.Some? ==> !Requests(last.value, zone))
  {
    var all := a + [last];
    assert all[|a|] == last;
    forall k | 0 <= k < |a| ensures all[k] == a[k] {
    }
  }

  /** A zone that is as the request asks stays so, and the request is not accepted again. */
  lemma {:induction false} StandsOn(r: Run, i: nat, j: nat, zone: string, p: Payload)
    requires LastingRun(r) && i <= j < |r.systems| && Lookup(EffectiveZones(r.systems[i]), zone) == Some(p)
    requires OnlyRequestOn(r.accepted[i..j], zone, Apply(zone, p))
    ensures Lookup(EffectiveZones(r.systems[j]), zone) == Some(p) && NothingOn(r.accepted[i..j], zone)
    decreases j
  {
    if i < j {
      assert r.accepted[i..j] == r.accepted[i..j - 1] + [r.accepted[j - 1]];
      OnlySnoc(r.accepted[i..j - 1], r.accepted[j - 1], zone, Apply(zone, p));
      NothingSnoc(r.accepted[i..j - 1], r.accepted[j - 1], zone);
      StandsOn(r, i, j - 1, zone, p);
      NotAcceptedAgain(r, j - 1, zone, p);
      StepAt(r, j - 1);
    }
  }

  /** Event number k is a power loss that undoes a commit: a transition of the zone, replayed before,
      is pending again. */
  ghost predicate BringsBack(r: Run, k: nat, zone: string)
    requires |r.systems| == |r.events| + 1 && k < |r.events|
  {
    && r.events[k].PowerLoss?
    && zone !in Disk(r.systems[k].world).pending && zone in Disk(r.systems[k + 1].world).pending
  }

  lemma StagesAt(r: Run, k: nat, zone: string)
    requires LastingRun(r) && k < |r.events|
    requires zone !in Disk(r.systems[k].world).pending && zone in Disk(r.systems[k + 1].world).pending
    ensures (r.accepted[k].Some? && Requests(r.accepted[k].value, zone)) || BringsBack(r, k, zone)
  {
    RunInvariant(r, k);
    assert StepOf(r, k);
    StepStagesOnly(r.systems[k], r.events[k], zone);
  }

  lemma {:induction false} NothingPendingOn(r: Run, i: nat, j: nat, zone: string)
    requires LastingRun(r) && i <= j < |r.systems| && zone !in Disk(r.systems[i].world).pending
    requires NothingOn(r.accepted[i..j], zone)
    ensures zone !in Disk(r.systems[j].world).pending || exists k: nat | i <= k < j :: BringsBack(r, k, zone)
    decreases j
  {
    if i < j {
      assert r.accepted[i..j] == r.accepted[i..j - 1] + [r.accepted[j - 1]];
      NothingSnoc(r.accepted[i..j - 1], r.accepted[j - 1], zone);
      NothingPendingOn(r, i, j - 1, zone);
      if zone !in Disk(r.systems[j - 1].world).pending && zone in Disk(r.systems[j].world).pending {
        StagesAt(r, j - 1, zone);
      }
    }
  }

  /** On a zone that stands as asked the request only replays what is pending, and none of that
      touches the zone if nothing of it is. */
  lemma UnchangedScript(s: State, zone: string, p: Payload)
    requires Sound(s) && Lookup(Effective(s), zone) == Some(p)
    ensures ScriptOf(Apply(zone, p), s) == RecoverAllOps(s) && Staged(Apply(zone, p), s).None?
    ensures zone !in s.pending ==> forall op | op in RecoverAllOps(s) :: Spares(op, zone, s)
    ensures s.pending == map[] ==> RecoverAllOps(s) == []
  {
    RecoverAllSpares(s, zone);
    if s.pending == map[] {
      assert SortNames(s.pending.Keys) == [];
    }
  }

  lemma StandsAfterSuccess(r: Run, i: nat, j: nat, zone: string, p: Payload)
    requires LastingRun(r) && i < j < |r.systems| && i < |r.events|
    requires Answers(r, i, zone, p)
    requires OnlyRequestOn(r.accepted[i + 1..j], zone, Apply(zone, p))
    ensures Lookup(EffectiveZones(r.systems[j]), zone) == Some(p)
    ensures zone !in Disk(r.systems[j].world).pending || exists k: nat | i < k < j :: BringsBack(r, k, zone)
  {
    EndsWithRequest(r, i, zone, p);
    assert StepOf(r, i);
    StandsOn(r, i + 1, j, zone, p);
    NothingPendingOn(r, i + 1, j, zone);
  }

  lemma SoundAt(r: Run, j: nat)
    requires LastingRun(r) && j < |r.systems|
    ensures Sound(Disk(r.systems[j].world))
  {
    RunInvariant(r, j);
  }

  lemma EntersWith(r: Run, j: nat, task: Task)
    requires ValidRun(r) && j < |r.events| && r.events[j].Enter? && r.events[j].task == task
    ensures r.systems[j + 1].call == Some(Call(task, r.systems[j].world, 0))
  {
    assert StepOf(r, j);
  }

  /** Repeating a request after its success, with no other request accepted on the zone between:
      its call only replays what is pending, and does nothing to the zone unless a power loss has
      brought back the transition that the request itself had staged. */
  lemma RepeatIsSilent(r: Run, i: nat, j: nat, zone: string, p: Payload)
    requires LastingRun(r) && i < j < |r.events|
    requires Answers(r, i, zone, p)
    requires OnlyRequestOn(r.accepted[i + 1..j], zone, Apply(zone, p))
    requires r.events[j].Enter? && r.events[j].task == Apply(zone, p)
    ensures var s := Disk(r.systems[j].world);
            && r.systems[j + 1].call == Some(Call(Apply(zone, p), r.systems[j].world, 0))
            && ScriptOf(Apply(zone, p), s) == RecoverAllOps(s)
            && (s.pending == map[] ==> RecoverAllOps(s) == [])
            && ((forall op | op in RecoverAllOps(s) :: Spares(op, zone, s))
                || exists k: nat | i < k < j :: BringsBack(r, k, zone))
  {
    StandsAfterSuccess(r, i, j, zone, p);
    SoundAt(r, j);
    UnchangedScript(Disk(r.systems[j].world), zone, p);
    EntersWith(r, j, Apply(zone, p));
  }

  /** Nor is the repetition ever accepted. */
  lemma RepeatIsNotAccepted(r: Run, i: nat, k: nat, zone: string, p: Payload)
    requires LastingRun(r) && i < k < |r.events|
    requires Answers(r, i, zone, p)
    requires OnlyRequestOn(r.accepted[i + 1..k], zone, Apply(zone, p))
    ensures r.accepted[k] != Some(Apply(zone, p))
  {
    StandsAfterSuccess(r, i, k, zone, p);
    NotAcceptedAgain(r, k, zone, p);
  }

  // ----- runs from their events -----

  ghost predicate CanFollow(s: System, events: seq<Event>)
    decreases |events|, 0
  {
    events == []
    || (CanFollow(s, events[..|events| - 1]) && Enabled(After(s, events[..|events| - 1]), events[|events| - 1]))
  }

  /** The system after the events. */
  ghost function After(s: System, events: seq<Event>): System
    requires CanFollow(s, events)
    decreases |events|, 1
  {
    if events == [] then s else Step(After(s, events[..|events| - 1]), events[|events| - 1])
  }

  lemma FollowSnoc(s: System, events: seq<Event>, e: Event)
    requires CanFollow(s, events) && Enabled(After(s, events), e)
    ensures CanFollow(s, events + [e]) && After(s, events + [e]) == Step(After(s, events), e)
  {
    assert (events + [e])[..|events|] == events;
  }

  lemma FollowOne(s: System, e: Event)
    requires Enabled(s, e)
    ensures CanFollow(s, [e]) && After(s, [e]) == Step(s, e)
  {
    FollowSnoc(s, [], e);
    assert [] + [e] == [e];
  }

  lemma {:induction false} FollowAppend(s: System, a: seq<Event>, b: seq<Event>)
    requires CanFollow(s, a) && CanFollow(After(s, a), b)
    ensures CanFollow(s, a + b) && After(s, a + b) == After(After(s, a), b)
    decreases |b|
  {
    if b == [] {
      assert a + b == a;
    } else {
      var n := |b| - 1;
      FollowAppend(s, a, b[..n]);
      FollowSnoc(s, a + b[..n], b[n]);
      assert a + b == a + b[..n] + [b[n]];
    }
  }

  ghost function Last(r: Run): System
    requires r.systems != []
  {
    r.systems[|r.systems| - 1]
  }

  /** The run goes on with the event. */
  ghost function Then(r: Run, e: Event): Run
    requires r.systems != [] && Enabled(Last(r), e)
  {
    Run(r.systems + [Step(Last(r), e)], r.events + [e], r.accepted + [Acceptance(Last(r), e)])
  }

  /** The second run goes on where the first ends. */
  ghost predicate Continues(r: Run, q: Run) {
    r.systems <= q.systems && r.events <= q.events && r.accepted <= q.accepted
  }

  lemma StepOfThen(r: Run, e: Event, i: nat)
    requires ValidRun(r) && Enabled(Last(r), e) && i <= |r.events|
    ensures StepOf(Then(r, e), i)
    ensures !Undoes(Last(r), e) && Lasting(r, |r.events|) ==> !UndoneAt(Then(r, e), i)
  {
    if i < |r.events| {
      assert StepOf(r, i);
    }
  }

  lemma ThenValid(r: Run, e: Event)
    requires ValidRun(r) && Enabled(Last(r), e)
    ensures ValidRun(Then(r, e)) && Continues(r, Then(r, e))
    ensures LastingRun(r) && !e.PowerLoss? ==> LastingRun(Then(r, e))
  {
    forall i: nat | i < |Then(r, e).events| ensures StepOf(Then(r, e), i) {
      StepOfThen(r, e, i);
    }
    if LastingRun(r) && !e.PowerLoss? {
      forall i: nat | i < |Then(r, e).events| ensures !UndoneAt(Then(r, e), i) {
        StepOfThen(r, e, i);
      }
    }
  }

  /** A run can go on with whatever can follow. */
  lemma {:induction false} Extend(r: Run, events: seq<Event>) returns (q: Run)
    requires ValidRun(r) && CanFollow(Last(r), events)
    ensures ValidRun(q) && Continues(r, q) && q.events == r.events + events && Last(q) == After(Last(r), events)
    ensures LastingRun(r) && (forall e | e in events :: !e.PowerLoss?) ==> LastingRun(q)
  {
    if events == [] {
      q := r;
    } else {
      var n := |events| - 1;
      var mid := Extend(r, events[..n]);
      ThenValid(mid, events[n]);
      q := Then(mid, events[n]);
      assert r.events + events == r.events + events[..n] + [events[n]];
    }
  }

  // ----- the effects of a call, one after the other -----

  function EffectEvents(n: nat): seq<Event> {
    seq(n, i => Effect)
  }

  /** The first system has begun a call; the second has done the first n effects of it. */
  ghost predicate Advanced(s: System, t: System, n: nat) {
    && s.call.Some? && n <= |ScriptOfCall(s.call.value)|
    && t.call == Some(s.call.value.(done := n))
    && t.world == ExecAll(s.world, ScriptOfCall(s.call.value)[..n])
    && t.threadLock == s.threadLock && t.fileLock == s.fileLock && t.clean == s.clean
    && s.memory.Some? && t.memory.Some?
    && (NoSave(ScriptOfCall(s.call.value)[..n]) ==> t.states == s.states && t.earlier == s.earlier)
  }

  lemma ExecNext(w: World, ops: seq<Op>, k: nat, n: nat)
    requires k < |ops| && n == k + 1
    ensures ExecAll(w, ops[..n]) == Exec(ExecAll(w, ops[..k]), ops[k])
    ensures NoSave(ops[..n]) ==> NoSave(ops[..k]) && !ops[k].SaveState?
  {
    assert ops[..n][..k] == ops[..k];
    assert ops[..n] == ops[..k] + [ops[k]];
  }

  lemma EffectDoes(t: System)
    requires Enabled(t, Effect) && t.memory.Some?
    ensures var u := Step(t, Effect);
            && u.world == Exec(t.world, NextOp(t)) && u.memory.Some?
            && u.call == Some(t.call.value.(done := t.call.value.done + 1))
            && (!NextOp(t).SaveState? ==> u.states == t.states && u.earlier == t.earlier)
            && u.threadLock == t.threadLock && u.fileLock == t.fileLock && u.clean == t.clean
  {
  }

  lemma AdvancedNext(s: System, t: System, k: nat, n: nat)
    requires Advanced(s, t, k) && Working(t) && n == k + 1
    ensures Advanced(s, Step(t, Effect), n)
  {
    ExecNext(s.world, ScriptOfCall(s.call.value), k, n);
    EffectDoes(t);
  }

  lemma EffectsSnoc(k: nat, n: nat)
    requires n == k + 1
    ensures EffectEvents(n) == EffectEvents(k) + [Effect]
  {
  }

  lemma {:induction false} EffectsFollow(s: System, n: nat)
    requires s.call.Some? && s.call.value.done == 0 && n <= |ScriptOfCall(s.call.value)| && s.memory.Some?
    ensures CanFollow(s, EffectEvents(n)) && Advanced(s, After(s, EffectEvents(n)), n)
  {
    if n > 0 {
      var k := n - 1;
      EffectsFollow(s, k);
      AdvancedNext(s, After(s, EffectEvents(k)), k, n);
      FollowSnoc(s, EffectEvents(k), Effect);
      EffectsSnoc(k, n);
    }
  }
}
