/** Scripts carried out step by step: to the end, or stopped by an exception or a crash. */
module Execution {
  import opened Attempts
  import opened Effects
  import opened Journal
  import opened Recovery
  import opened Script
  import opened Zones

  /** The effects of a script that stopped at step k: all before it, perhaps that one, and perhaps
      the abort that answers an exception inside a zone transaction.  An exception from a state
      write means that the file was not replaced. */
  ghost predicate StoppedAt(script: seq<Op>, effects: seq<Op>, r: Attempt, k: nat, applied: bool, aborted: bool) {
    && k < |script|
    && (applied && r.Raised? ==> !script[k].SaveState?)
    && (aborted ==> InTransaction(script[k]))
    && effects == script[..k] + (if applied then [script[k]] else [])
                  + (if aborted then [Abort(script[k].zone)] else [])
  }

  ghost predicate Stopped(script: seq<Op>, effects: seq<Op>, r: Attempt) {
    exists k: nat, applied, aborted :: StoppedAt(script, effects, r, k, applied, aborted)
  }

  /** Between the two moments the script ran, with this result. */
  ghost predicate Ran(before: seq<Op>, after: seq<Op>, script: seq<Op>, r: Attempt) {
    && before <= after && r.Genuine()
    && (if r.Done? then after[|before|..] == script else Stopped(script, after[|before|..], r))
  }

  lemma RanNothing(before: seq<Op>)
    ensures Ran(before, before, [], Done)
  {
  }

  lemma StoppedThen(a: seq<Op>, effects: seq<Op>, b: seq<Op>, r: Attempt)
    requires Stopped(a, effects, r)
    ensures Stopped(a + b, effects, r)
  {
    var k: nat, applied: bool, aborted: bool :| StoppedAt(a, effects, r, k, applied, aborted);
    assert (a + b)[..k] == a[..k] && (a + b)[k] == a[k];
    assert StoppedAt(a + b, effects, r, k, applied, aborted);
  }

  lemma DoneThenStopped(a: seq<Op>, effects: seq<Op>, b: seq<Op>, r: Attempt)
    requires Stopped(b, effects, r)
    ensures Stopped(a + b, a + effects, r)
  {
    var k: nat, applied: bool, aborted: bool :| StoppedAt(b, effects, r, k, applied, aborted);
    var n := |a| + k;
    assert (a + b)[..n] == a + b[..k] && (a + b)[n] == b[k];
    assert StoppedAt(a + b, a + effects, r, n, applied, aborted);
  }

  /** What stops early also stops the longer script. */
  lemma RanEarly(before: seq<Op>, after: seq<Op>, a: seq<Op>, b: seq<Op>, r: Attempt)
    requires !r.Done? && Ran(before, after, a, r)
    ensures Ran(before, after, a + b, r)
  {
    StoppedThen(a, after[|before|..], b, r);
  }

  /** One part to its end, and then the other. */
  lemma RanThen(before: seq<Op>, mid: seq<Op>, after: seq<Op>, a: seq<Op>, b: seq<Op>, r: Attempt)
    requires Ran(before, mid, a, Done) && Ran(mid, after, b, r)
    ensures Ran(before, after, a + b, r)
  {
    assert after[|before|..] == a + after[|mid|..];
    if !r.Done? {
      DoneThenStopped(a, after[|mid|..], b, r);
    }
  }

  /** The second part is begun only if the first has come to its end. */
  lemma Chain(before: seq<Op>, mid: seq<Op>, after: seq<Op>, a: seq<Op>, b: seq<Op>, r1: Attempt, r: Attempt)
    requires Ran(before, mid, a, r1)
    requires if r1.Done? then Ran(mid, after, b, r) else r == r1 && after == mid
    ensures Ran(before, after, a + b, r)
  {
    if r1.Done? {
      RanThen(before, mid, after, a, b, r);
    } else {
      RanEarly(before, after, a, b, r);
    }
  }

  /** One effect tried outside a transaction. */
  ghost predicate Tried(before: seq<Op>, after: seq<Op>, op: Op, r: Attempt) {
    && r.Genuine()
    && (r.Done? ==> after == before + [op])
    && (after == before || after == before + [op])
    && (r.Raised? && op.SaveState? ==> after == before)
  }

  lemma TriedRan(before: seq<Op>, after: seq<Op>, op: Op, r: Attempt)
    requires Tried(before, after, op, r)
    ensures Ran(before, after, [op], r)
  {
    if !r.Done? {
      var applied := after == before + [op] && after != before;
      var effects := if applied then [op] else [];
      assert [op][..0] == [];
      assert effects == [op][..0] + effects + [];
      assert after[|before|..] == effects;
      assert StoppedAt([op], effects, r, 0, applied, false);
    }
  }

  lemma TriedBoth(before: seq<Op>, mid: seq<Op>, after: seq<Op>, a: Op, b: Op, r1: Attempt, r: Attempt)
    requires Tried(before, mid, a, r1)
    requires if r1.Done? then Tried(mid, after, b, r) else r == r1 && after == mid
    ensures Ran(before, after, [a, b], r)
  {
    TriedRan(before, mid, a, r1);
    if r1.Done? {
      TriedRan(mid, after, b, r);
    }
    Chain(before, mid, after, [a], [b], r1, r);
    assert [a] + [b] == [a, b];
  }

  /** Stopped inside a zone transaction, with the abort still to come. */
  ghost predicate BrokenAt(script: seq<Op>, effects: seq<Op>, r: Attempt, zone: string, k: nat, applied: bool) {
    StoppedAt(script, effects, r, k, applied, false) && InTransaction(script[k]) && script[k].zone == zone
  }

  ghost predicate Broken(script: seq<Op>, effects: seq<Op>, r: Attempt, zone: string) {
    exists k: nat, applied :: BrokenAt(script, effects, r, zone, k, applied)
  }

  lemma BrokenWithin(a: seq<Op>, b: seq<Op>, c: seq<Op>, effects: seq<Op>, r: Attempt, zone: string)
    requires Broken(b, effects, r, zone)
    ensures Broken(a + b + c, a + effects, r, zone)
  {
    var k: nat, applied: bool :| BrokenAt(b, effects, r, zone, k, applied);
    var n := |a| + k;
    assert (a + b + c)[..n] == a + b[..k] && (a + b + c)[n] == b[k];
    assert BrokenAt(a + b + c, a + effects, r, zone, n, applied);
  }

  lemma TriedBroken(before: seq<Op>, after: seq<Op>, op: Op, r: Attempt, zone: string)
    requires Tried(before, after, op, r) && !r.Done? && InTransaction(op) && op.zone == zone
    ensures before <= after && Broken([op], after[|before|..], r, zone)
  {
    var applied := after == before + [op] && after != before;
    assert [op][..0] == [];
    assert after[|before|..] == [op][..0] + (if applied then [op] else []) + [];
    assert BrokenAt([op], after[|before|..], r, zone, 0, applied);
  }

  /** Part of a zone transaction ran, to its end or broken off inside it. */
  ghost predicate Edited(before: seq<Op>, after: seq<Op>, script: seq<Op>, r: Attempt, zone: string) {
    && before <= after && r.Genuine()
    && (if r.Done? then after[|before|..] == script else Broken(script, after[|before|..], r, zone))
  }

  lemma EditBreaks(before: seq<Op>, after: seq<Op>, a: seq<Op>, op: Op, c: seq<Op>, r: Attempt, zone: string)
    requires Tried(before + a, after, op, r) && !r.Done? && InTransaction(op) && op.zone == zone
    ensures Edited(before, after, a + [op] + c, r, zone)
  {
    TriedBroken(before + a, after, op, r, zone);
    BrokenWithin(a, [op], c, after[|before + a|..], r, zone);
    assert after[|before|..] == a + after[|before + a|..];
  }

  lemma EditBreaksInside(before: seq<Op>, after: seq<Op>, a: seq<Op>, b: seq<Op>, c: seq<Op>, r: Attempt, zone: string)
    requires Edited(before + a, after, b, r, zone) && !r.Done?
    ensures Edited(before, after, a + b + c, r, zone)
  {
    BrokenWithin(a, b, c, after[|before + a|..], r, zone);
    assert after[|before|..] == a + after[|before + a|..];
  }

  lemma TriedEdited(before: seq<Op>, after: seq<Op>, op: Op, r: Attempt, zone: string)
    requires Tried(before, after, op, r) && InTransaction(op) && op.zone == zone
    ensures Edited(before, after, [op], r, zone)
  {
    if !r.Done? {
      TriedBroken(before, after, op, r, zone);
    }
  }

  lemma EditedThen(before: seq<Op>, mid: seq<Op>, after: seq<Op>, a: seq<Op>, b: seq<Op>, r1: Attempt, r: Attempt,
      zone: string)
    requires Edited(before, mid, a, r1, zone)
    requires if r1.Done? then Edited(mid, after, b, r, zone) else r == r1 && after == mid
    ensures Edited(before, after, a + b, r, zone)
  {
    if r1.Done? {
      assert before + a == mid;
      if r.Done? {
        EditedOn(before, after, a, b, zone);
      } else {
        EditBreaksInside(before, after, a, b, [], r, zone);
        assert a + b + [] == a + b;
      }
    } else {
      assert before + [] == before && [] + a == a;
      EditBreaksInside(before, after, [], a, b, r, zone);
    }
  }

  lemma EditedOn(before: seq<Op>, after: seq<Op>, a: seq<Op>, b: seq<Op>, zone: string)
    requires Edited(before + a, after, b, Done, zone)
    ensures after == before + (a + b)
  {
  }

  /** The abort completes what was broken off, and so does the lack of one. */
  lemma BrokenStops(script: seq<Op>, effects: seq<Op>, r: Attempt, zone: string)
    requires Broken(script, effects, r, zone)
    ensures Stopped(script, effects, r) && Stopped(script, effects + [Abort(zone)], r)
    ensures r.Raised? ==> Stopped(script, effects, Crashed) && Stopped(script, effects + [Abort(zone)], Crashed)
  {
    var k: nat, applied: bool :| BrokenAt(script, effects, r, zone, k, applied);
    assert StoppedAt(script, effects, r, k, applied, false);
    assert StoppedAt(script, effects + [Abort(zone)], r, k, applied, true);
    assert StoppedAt(script, effects, Crashed, k, applied, false);
    assert StoppedAt(script, effects + [Abort(zone)], Crashed, k, applied, true);
  }

  ghost predicate Point(v: World, e0: map<string, Payload>, e1: map<string, Payload>) {
    Durable(v) && (Effective(Disk(v)) == e0 || Effective(Disk(v)) == e1)
  }

  lemma LinearPoint(w: World, script: seq<Op>, n: nat, e0: map<string, Payload>, e1: map<string, Payload>, k: nat)
    requires Linear(w, script, n, e0, e1) && k <= |script|
    ensures Point(ExecAll(w, script[..k]), e0, e1)
  {
    assert LinearAt(w, script, n, e0, e1, k);
  }

  lemma AbortedPoint(w: World, effects: seq<Op>, zone: string, e0: map<string, Payload>, e1: map<string, Payload>)
    requires Point(ExecAll(w, effects), e0, e1)
    ensures Point(ExecAll(w, effects + [Abort(zone)]), e0, e1)
  {
    QuietKeeps(ExecAll(w, effects), Abort(zone));
    ExecSnoc(w, effects, Abort(zone));
  }

  lemma StoppedPoint(w: World, script: seq<Op>, n: nat, e0: map<string, Payload>, e1: map<string, Payload>,
      effects: seq<Op>, r: Attempt)
    requires Linear(w, script, n, e0, e1) && Stopped(script, effects, r)
    ensures Point(ExecAll(w, effects), e0, e1)
  {
    var k: nat, applied: bool, aborted: bool :| StoppedAt(script, effects, r, k, applied, aborted);
    var plain := if applied then script[..k + 1] else script[..k];
    LinearPoint(w, script, n, e0, e1, |plain|);
    assert plain == script[..|plain|];
    assert plain == script[..k] + if applied then [script[k]] else [];
    if aborted {
      AbortedPoint(w, plain, script[k].zone, e0, e1);
    } else {
      assert effects == plain;
    }
  }

  /** Wherever a call stops, the stores are durable, and mean either what they meant before or
      what the call was asked for. */
  lemma StoppedIsDurable(w: World, task: Task, effects: seq<Op>, r: Attempt)
    requires Durable(w) && Admissible(task) && Stopped(ScriptOf(task, Disk(w)), effects, r)
    ensures Point(ExecAll(w, effects), Effective(Disk(w)), Target(task, Effective(Disk(w))))
  {
    ScriptIsLinear(w, task);
    StoppedPoint(w, ScriptOf(task, Disk(w)), |OpeningOps(task, Disk(w))|,
      Effective(Disk(w)), Target(task, Effective(Disk(w))), effects, r);
  }

  /** A call that ended leaves the stores converged on its target; one that stopped leaves them
      durable, meaning the old zones or the target. */
  ghost predicate Outcome(v: World, task: Task, e: map<string, Payload>, r: Attempt) {
    && Point(v, e, Target(task, e))
    && (r.Done? ==> Converged(v, Target(task, e)))
  }

  lemma RanOutcome(base: World, before: seq<Op>, after: seq<Op>, task: Task, r: Attempt)
    requires Durable(ExecAll(base, before)) && Admissible(task)
    requires Ran(before, after, ScriptOf(task, Disk(ExecAll(base, before))), r)
    ensures Outcome(ExecAll(base, after), task, Effective(Disk(ExecAll(base, before))), r)
  {
    var w, effects := ExecAll(base, before), after[|before|..];
    ExecAppend(base, before, effects);
    assert after == before + effects;
    if r.Done? {
      ScriptConverges(w, task);
      ConvergedPoint(w, task);
    } else {
      StoppedIsDurable(w, task, effects, r);
    }
  }

  lemma ConvergedPoint(w: World, task: Task)
    requires Durable(w) && Admissible(task)
    ensures var s := Disk(w);
            Point(ExecAll(w, ScriptOf(task, s)), Effective(s), Target(task, Effective(s)))
  {
    var s := Disk(w);
    ScriptIsLinear(w, task);
    LinearPoint(w, ScriptOf(task, s), |OpeningOps(task, s)|, Effective(s), Target(task, Effective(s)),
        |ScriptOf(task, s)|);
    assert ScriptOf(task, s)[..|ScriptOf(task, s)|] == ScriptOf(task, s);
  }
}
