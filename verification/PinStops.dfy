/** What a promotion leaves that stops halfway: its updates come in turn. */
module PinStops {
  import opened Pins
  import opened PinText
  import opened Wrappers

  /** The place of a pin among the updates: that of its request, and there the target before the slaved
      pins in their order. */
  ghost predicate PlaceOf(layout: Layout, requests: seq<Request>, pin: Pin, m: nat, p: int) {
    && m < |requests|
    && (|| (p == -1 && requests[m].key in layout.targets
            && pin == Pin(layout.targets[requests[m].key], requests[m].key))
        || (0 <= p < |layout.slaves| && layout.slaves[p].driver == requests[m].key && layout.slaves[p].pin == pin))
  }

  ghost predicate Precedes(layout: Layout, requests: seq<Request>, a: Pin, b: Pin) {
    exists m, p, n, q ::
      PlaceOf(layout, requests, a, m, p) && PlaceOf(layout, requests, b, n, q) && (m < n || (m == n && p < q))
  }

  ghost predicate InTurn(layout: Layout, requests: seq<Request>, steps: seq<Step>) {
    forall i, j | 0 <= i < j < |steps| :: Precedes(layout, requests, steps[i].pin, steps[j].pin)
  }

  // ----- the updates come in turn -----

  ghost predicate SlavePlace(slaves: seq<Slave>, key: string, pin: Pin, p: int) {
    0 <= p < |slaves| && slaves[p].driver == key && slaves[p].pin == pin
  }

  ghost predicate IsSlaved(slaves: seq<Slave>, key: string, pin: Pin) {
    exists p :: SlavePlace(slaves, key, pin, p)
  }

  ghost predicate SlavedBefore(slaves: seq<Slave>, key: string, a: Pin, b: Pin) {
    exists p, q :: SlavePlace(slaves, key, a, p) && SlavePlace(slaves, key, b, q) && p < q
  }

  ghost predicate SlavesInTurn(slaves: seq<Slave>, key: string, steps: seq<Step>) {
    && (forall s | s in steps :: IsSlaved(slaves, key, s.pin))
    && (forall i, j | 0 <= i < j < |steps| :: SlavedBefore(slaves, key, steps[i].pin, steps[j].pin))
  }

  lemma SlavedStays(slaves: seq<Slave>, slave: Slave, key: string, pin: Pin)
    requires IsSlaved(slaves, key, pin)
    ensures IsSlaved(slaves + [slave], key, pin)
    ensures slave.driver == key ==> SlavedBefore(slaves + [slave], key, pin, slave.pin)
  {
    var p :| SlavePlace(slaves, key, pin, p);
    assert SlavePlace(slaves + [slave], key, pin, p);
    if slave.driver == key {
      assert SlavePlace(slaves + [slave], key, slave.pin, |slaves|);
    }
  }

  lemma SlavedBeforeStays(slaves: seq<Slave>, slave: Slave, key: string, a: Pin, b: Pin)
    requires SlavedBefore(slaves, key, a, b)
    ensures SlavedBefore(slaves + [slave], key, a, b)
  {
    var p, q :| SlavePlace(slaves, key, a, p) && SlavePlace(slaves, key, b, q) && p < q;
    assert SlavePlace(slaves + [slave], key, a, p) && SlavePlace(slaves + [slave], key, b, q);
  }

  lemma SlavesStay(slaves: seq<Slave>, slave: Slave, key: string, steps: seq<Step>)
    requires SlavesInTurn(slaves, key, steps)
    ensures SlavesInTurn(slaves + [slave], key, steps)
  {
    forall s | s in steps ensures IsSlaved(slaves + [slave], key, s.pin) {
      SlavedStays(slaves, slave, key, s.pin);
    }
    forall i, j | 0 <= i < j < |steps| ensures SlavedBefore(slaves + [slave], key, steps[i].pin, steps[j].pin) {
      SlavedBeforeStays(slaves, slave, key, steps[i].pin, steps[j].pin);
    }
  }

  lemma SlaveAdded(slaves: seq<Slave>, slave: Slave, key: string, steps: seq<Step>, step: Step)
    requires SlavesInTurn(slaves, key, steps) && slave.driver == key && step.pin == slave.pin
    ensures SlavesInTurn(slaves + [slave], key, steps + [step])
  {
    var all, more := slaves + [slave], steps + [step];
    SlavesStay(slaves, slave, key, steps);
    assert SlavePlace(all, key, step.pin, |slaves|);
    forall i, j | 0 <= i < j < |more| ensures SlavedBefore(all, key, more[i].pin, more[j].pin) {
      if j == |steps| {
        assert steps[i] in steps;
        SlavedStays(slaves, slave, key, steps[i].pin);
      }
    }
  }

  lemma {:induction false} SlaveStepsInTurn(slaves: seq<Slave>, request: Request)
    ensures SlavesInTurn(slaves, request.key, SlaveSteps(slaves, request))
  {
    if slaves != [] {
      var init, last := slaves[..|slaves| - 1], slaves[|slaves| - 1];
      assert slaves == init + [last];
      SlaveStepsInTurn(init, request);
      if last.driver == request.key {
        SlaveAdded(init, last, request.key, SlaveSteps(init, request), Step(last.pin, request.sha));
      } else {
        SlavesStay(init, last, request.key, SlaveSteps(init, request));
        assert SlaveSteps(slaves, request) == SlaveSteps(init, request);
      }
    }
  }

  ghost predicate HasPlace(layout: Layout, requests: seq<Request>, pin: Pin, m: nat) {
    exists p :: PlaceOf(layout, requests, pin, m, p)
  }

  ghost predicate Placed(layout: Layout, requests: seq<Request>, steps: seq<Step>) {
    forall s | s in steps :: exists m :: HasPlace(layout, requests, s.pin, m)
  }

  /** The slaved pins of a request come after its target, and in their own order. */
  lemma SlavedPlace(layout: Layout, requests: seq<Request>, n: nat, target: Pin, pin: Pin)
    requires n < |requests| && PlaceOf(layout, requests, target, n, -1)
    requires IsSlaved(layout.slaves, requests[n].key, pin)
    ensures HasPlace(layout, requests, pin, n) && Precedes(layout, requests, target, pin)
  {
    var p :| SlavePlace(layout.slaves, requests[n].key, pin, p);
    assert PlaceOf(layout, requests, pin, n, p);
  }

  lemma SlavedPrecedes(layout: Layout, requests: seq<Request>, n: nat, a: Pin, b: Pin)
    requires n < |requests| && SlavedBefore(layout.slaves, requests[n].key, a, b)
    ensures Precedes(layout, requests, a, b)
  {
    var p, q :| SlavePlace(layout.slaves, requests[n].key, a, p) && SlavePlace(layout.slaves, requests[n].key, b, q)
                && p < q;
    assert PlaceOf(layout, requests, a, n, p) && PlaceOf(layout, requests, b, n, q);
  }

  lemma TargetThenSlaves(layout: Layout, requests: seq<Request>, n: nat, target: Step, slaved: seq<Step>)
    requires n < |requests| && PlaceOf(layout, requests, target.pin, n, -1)
    requires SlavesInTurn(layout.slaves, requests[n].key, slaved)
    ensures InTurn(layout, requests, [target] + slaved)
    ensures forall s | s in [target] + slaved :: HasPlace(layout, requests, s.pin, n)
  {
    var steps := [target] + slaved;
    forall s | s in steps ensures HasPlace(layout, requests, s.pin, n) {
      if s in slaved {
        SlavedPlace(layout, requests, n, target.pin, s.pin);
      }
    }
    forall i, j | 0 <= i < j < |steps| ensures Precedes(layout, requests, steps[i].pin, steps[j].pin) {
      assert steps[j] == slaved[j - 1] && slaved[j - 1] in slaved;
      if i == 0 {
        SlavedPlace(layout, requests, n, target.pin, steps[j].pin);
      } else {
        assert steps[i] == slaved[i - 1];
        SlavedPrecedes(layout, requests, n, steps[i].pin, steps[j].pin);
      }
    }
  }

  /** The steps of one request, as the last of several. */
  lemma RequestInTurn(layout: Layout, init: seq<Request>, last: Request)
    requires last.key in layout.targets
    ensures InTurn(layout, init + [last], RequestSteps(layout, last))
    ensures forall s | s in RequestSteps(layout, last) :: HasPlace(layout, init + [last], s.pin, |init|)
  {
    var target := Step(Pin(layout.targets[last.key], last.key), last.sha);
    SlaveStepsInTurn(layout.slaves, last);
    TargetThenSlaves(layout, init + [last], |init|, target, SlaveSteps(layout.slaves, last));
  }

  lemma PlaceStays(layout: Layout, requests: seq<Request>, more: seq<Request>, pin: Pin, m: nat, p: int)
    requires PlaceOf(layout, requests, pin, m, p)
    ensures PlaceOf(layout, requests + more, pin, m, p)
  {
  }

  lemma PrecedesStays(layout: Layout, requests: seq<Request>, more: seq<Request>, a: Pin, b: Pin)
    requires Precedes(layout, requests, a, b)
    ensures Precedes(layout, requests + more, a, b)
  {
    var m, p, n, q :| PlaceOf(layout, requests, a, m, p) && PlaceOf(layout, requests, b, n, q)
                      && (m < n || (m == n && p < q));
    PlaceStays(layout, requests, more, a, m, p);
    PlaceStays(layout, requests, more, b, n, q);
  }

  lemma FirstPrecedes(layout: Layout, init: seq<Request>, last: Request, a: Pin, m: nat, b: Pin)
    requires HasPlace(layout, init, a, m) && HasPlace(layout, init + [last], b, |init|)
    ensures HasPlace(layout, init + [last], a, m) && Precedes(layout, init + [last], a, b)
  {
    var p :| PlaceOf(layout, init, a, m, p);
    PlaceStays(layout, init, [last], a, m, p);
    var q :| PlaceOf(layout, init + [last], b, |init|, q);
  }

  lemma PlacedStays(layout: Layout, init: seq<Request>, last: Request, a: seq<Step>)
    requires Placed(layout, init, a)
    ensures Placed(layout, init + [last], a)
  {
    forall s | s in a ensures exists m :: HasPlace(layout, init + [last], s.pin, m) {
      var m :| HasPlace(layout, init, s.pin, m);
      var p :| PlaceOf(layout, init, s.pin, m, p);
      PlaceStays(layout, init, [last], s.pin, m, p);
      assert HasPlace(layout, init + [last], s.pin, m);
    }
  }

  lemma JoinInTurn(layout: Layout, init: seq<Request>, last: Request, a: seq<Step>, b: seq<Step>)
    requires InTurn(layout, init, a) && Placed(layout, init, a)
    requires InTurn(layout, init + [last], b)
    requires forall s | s in b :: HasPlace(layout, init + [last], s.pin, |init|)
    ensures InTurn(layout, init + [last], a + b) && Placed(layout, init + [last], a + b)
  {
    var requests, all := init + [last], a + b;
    PlacedStays(layout, init, last, a);
    forall i, j | 0 <= i < j < |all| ensures Precedes(layout, requests, all[i].pin, all[j].pin) {
      if j < |a| {
        PrecedesStays(layout, init, [last], a[i].pin, a[j].pin);
      } else if i < |a| {
        assert a[i] in a && b[j - |a|] in b;
        var m :| HasPlace(layout, init, a[i].pin, m);
        FirstPrecedes(layout, init, last, a[i].pin, m, b[j - |a|].pin);
      } else {
        assert all[i] == b[i - |a|] && all[j] == b[j - |a|];
      }
    }
  }

  /** The updates come in the order of the requests, and of each the target before the slaved pins. */
  lemma {:induction false} StepsInTurn(layout: Layout, requests: seq<Request>)
    requires forall r | r in requests :: r.key in layout.targets
    ensures InTurn(layout, requests, StepsOf(layout, requests)) && Placed(layout, requests, StepsOf(layout, requests))
  {
    if requests != [] {
      var init, last := requests[..|requests| - 1], requests[|requests| - 1];
      assert requests == init + [last];
      StepsInTurn(layout, init);
      RequestInTurn(layout, init, last);
      JoinInTurn(layout, init, last, StepsOf(layout, init), RequestSteps(layout, last));
    }
  }

  // ----- stopping halfway -----

  lemma PlaceUnique(layout: Layout, requests: seq<Request>, pin: Pin, m: nat, p: int, n: nat, q: int)
    requires Sound(layout) && Admissible(layout, requests)
    requires PlaceOf(layout, requests, pin, m, p) && PlaceOf(layout, requests, pin, n, q)
    ensures m == n && p == q
  {
    BelongsOnce(layout, pin, requests[m].key, requests[n].key);
    assert requests[m].key == requests[n].key;
  }

  /** The pin belongs to request number m. */
  ghost predicate OfRequest(layout: Layout, requests: seq<Request>, pin: Pin, m: nat) {
    m < |requests| && Belongs(layout, pin, requests[m].key)
  }

  lemma PlacedBelongs(layout: Layout, requests: seq<Request>, pin: Pin, m: nat)
    requires OfRequest(layout, requests, pin, m)
    ensures HasPlace(layout, requests, pin, m)
  {
    if v :| v in layout.slaves && v.driver == requests[m].key && v.pin == pin {
      var p :| 0 <= p < |layout.slaves| && layout.slaves[p] == v;
      assert PlaceOf(layout, requests, pin, m, p);
    } else {
      assert PlaceOf(layout, requests, pin, m, -1);
    }
  }

  /** A pin comes before another exactly as their places say. */
  lemma PrecedesIs(layout: Layout, requests: seq<Request>, a: Pin, b: Pin, m: nat, p: int, n: nat, q: int)
    requires Sound(layout) && Admissible(layout, requests) && Precedes(layout, requests, a, b)
    requires PlaceOf(layout, requests, a, m, p) && PlaceOf(layout, requests, b, n, q)
    ensures m < n || (m == n && p < q)
  {
    var m', p', n', q' :| PlaceOf(layout, requests, a, m', p') && PlaceOf(layout, requests, b, n', q')
                          && (m' < n' || (m' == n' && p' < q'));
    PlaceUnique(layout, requests, a, m, p, m', p');
    PlaceUnique(layout, requests, b, n, q, n', q');
  }

  lemma PrefixReads(before: Files, steps: seq<Step>, n: nat, pin: Pin, sha: string, i: nat)
    requires WellTyped(steps) && DistinctPins(steps) && IsKey(pin.key)
    requires n <= |steps| && Run(before, steps[..n]).Some? && i < |steps| && steps[i] == Step(pin, sha)
    ensures ReadPin(Run(before, steps[..n]).value, pin) == if i < n then Some(sha) else ReadPin(before, pin)
  {
    var first := steps[..n];
    RunReads(before, first, pin);
    if i < n {
      assert first[i] in first;
    } else {
      forall s | s in first ensures s.pin != pin {
        var j :| 0 <= j < n && first[j] == s;
        assert steps[j].pin != steps[i].pin;
      }
    }
  }

  /** What a pin reads after the first n updates: the SHA of its request if its own is among them. */
  lemma ReadsAfter(layout: Layout, before: Files, requests: seq<Request>, n: nat, pin: Pin, m: nat, i: nat)
    requires Sound(layout) && Admissible(layout, requests) && IsKey(pin.key) && OfRequest(layout, requests, pin, m)
    requires n <= |StepsOf(layout, requests)| && Run(before, StepsOf(layout, requests)[..n]).Some?
    requires i < |StepsOf(layout, requests)| && StepsOf(layout, requests)[i] == Step(pin, requests[m].sha)
    ensures ReadPin(Run(before, StepsOf(layout, requests)[..n]).value, pin)
            == if i < n then Some(requests[m].sha) else ReadPin(before, pin)
  {
    StepsAre(layout, requests);
    PrefixReads(before, StepsOf(layout, requests), n, pin, requests[m].sha, i);
  }

  ghost predicate EarlierDone(layout: Layout, after: Files, requests: seq<Request>, m: nat) {
    forall pin, l: nat | OfRequest(layout, requests, pin, l) && l < m :: ReadPin(after, pin) == Some(requests[l].sha)
  }

  ghost predicate LaterUntouched(layout: Layout, before: Files, after: Files, requests: seq<Request>, m: nat) {
    forall pin, l: nat | OfRequest(layout, requests, pin, l) && l > m :: ReadPin(after, pin) == ReadPin(before, pin)
  }

  ghost predicate TargetFirst(layout: Layout, before: Files, after: Files, requests: seq<Request>, m: nat) {
    m < |requests|
    && forall pin, target | OfRequest(layout, requests, pin, m) && PlaceOf(layout, requests, target, m, -1) ::
         ReadPin(after, target) == Some(requests[m].sha) || ReadPin(after, pin) == ReadPin(before, pin)
  }

  ghost predicate LacksPin(layout: Layout, before: Files, requests: seq<Request>, m: nat) {
    exists pin :: OfRequest(layout, requests, pin, m) && ReadPin(before, pin).None?
  }

  /** The state in which a promotion stops at request number m, one of whose pins cannot be found: the
      requests before it are carried out, nothing of those after it is, and of its own pins none has moved
      unless the target has. */
  ghost predicate StopsAt(layout: Layout, before: Files, after: Files, requests: seq<Request>, m: nat) {
    && LacksPin(layout, before, requests, m)
    && EarlierDone(layout, after, requests, m) && LaterUntouched(layout, before, after, requests, m)
    && TargetFirst(layout, before, after, requests, m)
  }

  lemma StepAt(layout: Layout, requests: seq<Request>, pin: Pin, m: nat) returns (i: nat)
    requires Sound(layout) && Admissible(layout, requests) && OfRequest(layout, requests, pin, m)
    ensures i < |StepsOf(layout, requests)| && StepsOf(layout, requests)[i] == Step(pin, requests[m].sha)
  {
    StepsAre(layout, requests);
    var steps := StepsOf(layout, requests);
    assert requests[m] in requests && Step(pin, requests[m].sha) in steps;
    i :| 0 <= i < |steps| && steps[i] == Step(pin, requests[m].sha);
  }

  lemma OrderOfSteps(layout: Layout, requests: seq<Request>, i: nat, j: nat, m: nat, p: int, n: nat, q: int)
    requires Sound(layout) && Admissible(layout, requests)
    requires i < j < |StepsOf(layout, requests)|
    requires PlaceOf(layout, requests, StepsOf(layout, requests)[i].pin, m, p)
    requires PlaceOf(layout, requests, StepsOf(layout, requests)[j].pin, n, q)
    ensures m < n || (m == n && p < q)
  {
    var steps := StepsOf(layout, requests);
    StepsInTurn(layout, requests);
    PrecedesIs(layout, requests, steps[i].pin, steps[j].pin, m, p, n, q);
  }

  lemma KeyOf(layout: Layout, requests: seq<Request>, pin: Pin, m: nat)
    requires Sound(layout) && OfRequest(layout, requests, pin, m)
    ensures IsKey(pin.key)
  {
  }

  /** A pin of a request before the one that failed, or after it. */
  lemma OtherReads(layout: Layout, before: Files, requests: seq<Request>, n: nat, m: nat, p: int, pin: Pin, l: nat)
    requires Sound(layout) && Admissible(layout, requests) && n < |StepsOf(layout, requests)|
    requires Run(before, StepsOf(layout, requests)[..n]).Some?
    requires PlaceOf(layout, requests, StepsOf(layout, requests)[n].pin, m, p)
    requires OfRequest(layout, requests, pin, l) && l != m
    ensures ReadPin(Run(before, StepsOf(layout, requests)[..n]).value, pin)
            == if l < m then Some(requests[l].sha) else ReadPin(before, pin)
  {
    var i := StepAt(layout, requests, pin, l);
    PlacedBelongs(layout, requests, pin, l);
    var q :| PlaceOf(layout, requests, pin, l, q);
    if i < n {
      OrderOfSteps(layout, requests, i, n, l, q, m, p);
    } else if i > n {
      OrderOfSteps(layout, requests, n, i, m, p, l, q);
    } else {
      PlaceUnique(layout, requests, pin, m, p, l, q);
    }
    KeyOf(layout, requests, pin, l);
    ReadsAfter(layout, before, requests, n, pin, l, i);
  }

  lemma OwnReads(layout: Layout, before: Files, requests: seq<Request>, n: nat, m: nat, pin: Pin, target: Pin)
    requires Sound(layout) && Admissible(layout, requests) && n < |StepsOf(layout, requests)|
    requires Run(before, StepsOf(layout, requests)[..n]).Some?
    requires OfRequest(layout, requests, pin, m) && PlaceOf(layout, requests, target, m, -1)
    ensures var after := Run(before, StepsOf(layout, requests)[..n]).value;
            ReadPin(after, target) == Some(requests[m].sha) || ReadPin(after, pin) == ReadPin(before, pin)
  {
    var i := StepAt(layout, requests, pin, m);
    var j := StepAt(layout, requests, target, m);
    PlacedBelongs(layout, requests, pin, m);
    var q :| PlaceOf(layout, requests, pin, m, q);
    if i < n && n <= j {
      OrderOfSteps(layout, requests, i, j, m, q, m, -1);
    }
    KeyOf(layout, requests, pin, m);
    KeyOf(layout, requests, target, m);
    ReadsAfter(layout, before, requests, n, pin, m, i);
    ReadsAfter(layout, before, requests, n, target, m, j);
  }

  lemma FailingPin(layout: Layout, before: Files, requests: seq<Request>, n: nat)
    requires Sound(layout) && Admissible(layout, requests) && n < |StepsOf(layout, requests)|
    requires Run(before, StepsOf(layout, requests)[..n]).Some? && Run(before, StepsOf(layout, requests)[..n + 1]).None?
    ensures ReadPin(before, StepsOf(layout, requests)[n].pin).None?
  {
    var steps := StepsOf(layout, requests);
    StepsAre(layout, requests);
    assert steps[..n + 1][..n] == steps[..n];
    RunKeepsFindable(before, steps[..n], steps[n].pin);
  }

  lemma OthersAtStop(layout: Layout, before: Files, requests: seq<Request>, n: nat, m: nat, p: int)
    requires Sound(layout) && Admissible(layout, requests) && n < |StepsOf(layout, requests)|
    requires Run(before, StepsOf(layout, requests)[..n]).Some?
    requires PlaceOf(layout, requests, StepsOf(layout, requests)[n].pin, m, p)
    ensures var after := Run(before, StepsOf(layout, requests)[..n]).value;
            EarlierDone(layout, after, requests, m) && LaterUntouched(layout, before, after, requests, m)
  {
    var after := Run(before, StepsOf(layout, requests)[..n]).value;
    forall pin, l: nat | OfRequest(layout, requests, pin, l) && l != m
      ensures ReadPin(after, pin) == if l < m then Some(requests[l].sha) else ReadPin(before, pin)
    {
      OtherReads(layout, before, requests, n, m, p, pin, l);
    }
  }

  lemma OwnAtStop(layout: Layout, before: Files, requests: seq<Request>, n: nat, m: nat)
    requires Sound(layout) && Admissible(layout, requests) && n < |StepsOf(layout, requests)| && m < |requests|
    requires Run(before, StepsOf(layout, requests)[..n]).Some?
    ensures TargetFirst(layout, before, Run(before, StepsOf(layout, requests)[..n]).value, requests, m)
  {
    var after := Run(before, StepsOf(layout, requests)[..n]).value;
    forall pin, target | OfRequest(layout, requests, pin, m) && PlaceOf(layout, requests, target, m, -1)
      ensures ReadPin(after, target) == Some(requests[m].sha) || ReadPin(after, pin) == ReadPin(before, pin)
    {
      OwnReads(layout, before, requests, n, m, pin, target);
    }
  }

  lemma PlaceBelongs(layout: Layout, requests: seq<Request>, pin: Pin, m: nat, p: int)
    requires PlaceOf(layout, requests, pin, m, p)
    ensures OfRequest(layout, requests, pin, m)
  {
  }

  lemma PlaceOfStep(layout: Layout, requests: seq<Request>, n: nat) returns (m: nat, p: int)
    requires (forall r | r in requests :: r.key in layout.targets) && n < |StepsOf(layout, requests)|
    ensures PlaceOf(layout, requests, StepsOf(layout, requests)[n].pin, m, p)
  {
    StepsInTurn(layout, requests);
    var step := StepsOf(layout, requests)[n];
    assert step in StepsOf(layout, requests);
    m :| HasPlace(layout, requests, step.pin, m);
    p :| PlaceOf(layout, requests, step.pin, m, p);
  }

  /** A promotion whose updates stop after the first n has stopped at one of its requests. */
  lemma HalfwayStops(layout: Layout, before: Files, requests: seq<Request>, n: nat) returns (m: nat)
    requires Sound(layout) && Admissible(layout, requests) && n < |StepsOf(layout, requests)|
    requires Run(before, StepsOf(layout, requests)[..n]).Some? && Run(before, StepsOf(layout, requests)[..n + 1]).None?
    ensures StopsAt(layout, before, Run(before, StepsOf(layout, requests)[..n]).value, requests, m)
  {
    var p;
    m, p := PlaceOfStep(layout, requests, n);
    PlaceBelongs(layout, requests, StepsOf(layout, requests)[n].pin, m, p);
    FailingPin(layout, before, requests, n);
    OthersAtStop(layout, before, requests, n, m, p);
    OwnAtStop(layout, before, requests, n, m);
  }
}
