/** Promotion of application versions: the pins of a repository, moved together and moved back. */
module Pins {
  import opened PinText
  import opened Text
  import opened Wrappers

  datatype Pin = Pin(path: string, key: string)

  /** One update: the pin and the digits it shall get. */
  datatype Step = Step(pin: Pin, sha: string)

  /** What is recorded of an update. */
  datatype Change = Change(pin: Pin, oldSha: string, newSha: string)

  datatype PinError = NoInput | InvalidSha(key: string) | MissingFile(path: string) | MissingPin(pin: Pin)

  /** A pin that always moves with another one. */
  datatype Slave = Slave(pin: Pin, driver: string)

  datatype Layout = Layout(targets: map<string, string>, slaves: seq<Slave>)

  /** The pins' names are usable as keys, and no two pins have the same name. */
  ghost predicate Sound(layout: Layout) {
    && (forall k | k in layout.targets :: IsKey(k))
    && (forall s | s in layout.slaves :: IsKey(s.pin.key) && s.pin.key !in layout.targets)
    && (forall i, j | 0 <= i < j < |layout.slaves| :: layout.slaves[i].pin.key != layout.slaves[j].pin.key)
  }

  type Files = map<string, string>

  /** read_text: every line break is read as a line feed. */
  function Universal(s: string): (r: string)
    ensures '\r' !in r
  {
    if s == [] then []
    else if s[0] != '\r' then [s[0]] + Universal(s[1..])
    else ['\n'] + Universal(if |s| > 1 && s[1] == '\n' then s[2..] else s[1..])
  }

  lemma {:induction false} UniversalFixed(s: string)
    ensures Universal(s) == s <==> '\r' !in s
  {
    if s != [] && s[0] != '\r' {
      UniversalFixed(s[1..]);
      assert s == [s[0]] + s[1..];
    }
  }

  /** Line by line: a carriage return with a line feed, or alone, is one line break. */
  lemma {:induction false} UniversalLine(line: string, rest: string)
    requires '\r' !in line
    ensures Universal(line + "\r\n" + rest) == line + "\n" + Universal(rest)
    ensures (rest == [] || rest[0] != '\n') ==> Universal(line + "\r" + rest) == line + "\n" + Universal(rest)
  {
    if line == [] {
      assert ("\r\n" + rest)[2..] == rest && ("\r" + rest)[1..] == rest;
      assert [] + "\r\n" + rest == "\r\n" + rest && [] + "\r" + rest == "\r" + rest;
    } else {
      UniversalLine(line[1..], rest);
      assert (line + "\r\n" + rest)[1..] == line[1..] + "\r\n" + rest;
      assert (line + "\r" + rest)[1..] == line[1..] + "\r" + rest;
      assert [line[0]] + (line[1..] + "\n" + Universal(rest)) == line + "\n" + Universal(rest);
    }
  }

  // ----- one update -----

  function ReadPin(files: Files, pin: Pin): Option<string> {
    if pin.path in files then FindPin(Universal(files[pin.path]), pin.key) else None
  }

  function WritePin(files: Files, pin: Pin, sha: string): Files {
    if pin.path in files then files[pin.path := PutPin(Universal(files[pin.path]), pin.key, sha)] else files
  }

  lemma PutKeepsNewlines(t: string, k: string, sha: string)
    requires '\r' !in t && IsSha(sha)
    ensures '\r' !in PutPin(t, k, sha)
  {
  }

  lemma WrittenText(files: Files, pin: Pin, sha: string)
    requires pin.path in files && IsSha(sha)
    ensures Universal(WritePin(files, pin, sha)[pin.path]) == WritePin(files, pin, sha)[pin.path]
  {
    PutKeepsNewlines(Universal(files[pin.path]), pin.key, sha);
    UniversalFixed(PutPin(Universal(files[pin.path]), pin.key, sha));
  }

  /** An update changes what its own pin reads, and no other pin in the repository. */
  lemma WriteThenRead(files: Files, pin: Pin, sha: string, other: Pin)
    requires ReadPin(files, pin).Some? && IsSha(sha) && IsKey(pin.key) && IsKey(other.key)
    ensures ReadPin(WritePin(files, pin, sha), other) == if other == pin then Some(sha) else ReadPin(files, other)
  {
    WrittenText(files, pin, sha);
    if other == pin {
      PutThenFind(Universal(files[pin.path]), pin.key, sha);
    } else if other.path == pin.path {
      PutThenFindOther(Universal(files[pin.path]), pin.key, sha, other.key);
    }
  }

  // ----- a run of updates -----

  /** The files after the updates, if each of them finds its pin. */
  function Run(files: Files, steps: seq<Step>): Option<Files> {
    if steps == [] then Some(files)
    else
      var last := steps[|steps| - 1];
      match Run(files, steps[..|steps| - 1])
      case None => None
      case Some(mid) => if ReadPin(mid, last.pin).Some? then Some(WritePin(mid, last.pin, last.sha)) else None
  }

  /** What each update finds. */
  function Record(files: Files, steps: seq<Step>): (r: seq<Change>)
    requires Run(files, steps).Some?
    ensures |r| == |steps|
  {
    if steps == [] then []
    else
      var n := |steps| - 1;
      var mid := Run(files, steps[..n]).value;
      Record(files, steps[..n]) + [Change(steps[n].pin, ReadPin(mid, steps[n].pin).value, steps[n].sha)]
  }

  ghost predicate WellTyped(steps: seq<Step>) {
    forall s | s in steps :: IsSha(s.sha) && IsKey(s.pin.key)
  }

  ghost predicate DistinctPins(steps: seq<Step>) {
    forall i, j | 0 <= i < j < |steps| :: steps[i].pin != steps[j].pin
  }

  /** Every pin ends with the digits asked for it, and every pin that is not asked for is left. */
  lemma {:induction false} RunReads(files: Files, steps: seq<Step>, pin: Pin)
    requires Run(files, steps).Some? && WellTyped(steps) && DistinctPins(steps) && IsKey(pin.key)
    ensures forall s | s in steps && s.pin == pin :: ReadPin(Run(files, steps).value, pin) == Some(s.sha)
    ensures (forall s | s in steps :: s.pin != pin) ==> ReadPin(Run(files, steps).value, pin) == ReadPin(files, pin)
  {
    if steps != [] {
      var init, last := steps[..|steps| - 1], steps[|steps| - 1];
      assert steps == init + [last];
      RunSnoc(files, init, last);
      RunReads(files, init, pin);
      WriteThenRead(Run(files, init).value, last.pin, last.sha, pin);
    }
  }

  /** What is recorded of each update: its pin, what that pin read beforehand, and what it reads since. */
  lemma {:induction false} RecordIs(files: Files, steps: seq<Step>, i: nat)
    requires Run(files, steps).Some? && WellTyped(steps) && DistinctPins(steps) && i < |steps|
    ensures ReadPin(files, steps[i].pin).Some?
    ensures Record(files, steps)[i] == Change(steps[i].pin, ReadPin(files, steps[i].pin).value, steps[i].sha)
  {
    var init, last := steps[..|steps| - 1], steps[|steps| - 1];
    assert steps == init + [last];
    RunSnoc(files, init, last);
    if i < |init| {
      RecordIs(files, init, i);
    } else {
      assert forall s | s in init :: s.pin != last.pin;
      RunReads(files, init, last.pin);
    }
  }

  // ----- undoing a run -----

  /** The recorded digits, put back in reverse order. */
  function Back(changes: seq<Change>): seq<Step> {
    if changes == [] then []
    else
      var last := changes[|changes| - 1];
      [Step(last.pin, last.oldSha)] + Back(changes[..|changes| - 1])
  }

  function Paths(steps: seq<Step>): set<string> {
    set s | s in steps :: s.pin.path
  }

  /** The files with line feeds for all line breaks at these paths. */
  function LineFeeds(files: Files, paths: set<string>): Files {
    map p | p in files :: if p in paths then Universal(files[p]) else files[p]
  }

  lemma ReadIgnoresLineFeeds(files: Files, paths: set<string>, pin: Pin)
    ensures ReadPin(LineFeeds(files, paths), pin) == ReadPin(files, pin)
  {
    if pin.path in files {
      UniversalFixed(Universal(files[pin.path]));
    }
  }

  lemma WriteIgnoresLineFeeds(files: Files, paths: set<string>, pin: Pin, sha: string)
    requires IsSha(sha)
    ensures WritePin(LineFeeds(files, paths), pin, sha) == LineFeeds(WritePin(files, pin, sha), paths)
  {
    if pin.path in files {
      UniversalFixed(Universal(files[pin.path]));
      WrittenText(files, pin, sha);
    }
  }

  lemma {:induction false} RunIgnoresLineFeeds(files: Files, paths: set<string>, steps: seq<Step>)
    requires WellTyped(steps) && Run(files, steps).Some?
    ensures Run(LineFeeds(files, paths), steps) == Some(LineFeeds(Run(files, steps).value, paths))
  {
    if steps != [] {
      var n := |steps| - 1;
      RunIgnoresLineFeeds(files, paths, steps[..n]);
      var mid := Run(files, steps[..n]).value;
      ReadIgnoresLineFeeds(mid, paths, steps[n].pin);
      WriteIgnoresLineFeeds(mid, paths, steps[n].pin, steps[n].sha);
    }
  }

  lemma {:induction false} RunAppend(files: Files, a: seq<Step>, b: seq<Step>)
    requires Run(files, a).Some?
    ensures Run(files, a + b) == Run(Run(files, a).value, b)
  {
    if b == [] {
      assert a + b == a;
    } else {
      var n := |b| - 1;
      assert (a + b)[..|a + b| - 1] == a + b[..n];
      RunAppend(files, a, b[..n]);
    }
  }

  lemma RunOne(files: Files, step: Step)
    requires ReadPin(files, step.pin).Some?
    ensures Run(files, [step]) == Some(WritePin(files, step.pin, step.sha))
  {
  }

  lemma WriteTwice(files: Files, pin: Pin, a: string, b: string)
    requires IsSha(a) && IsSha(b) && IsKey(pin.key)
    ensures WritePin(WritePin(files, pin, a), pin, b) == WritePin(files, pin, b)
  {
    if pin.path in files {
      WrittenText(files, pin, a);
      PutThenPut(Universal(files[pin.path]), pin.key, a, b);
    }
  }

  lemma WriteAsRead(files: Files, pin: Pin)
    requires ReadPin(files, pin).Some?
    ensures WritePin(files, pin, ReadPin(files, pin).value) == LineFeeds(files, {pin.path})
  {
    PutFound(Universal(files[pin.path]), pin.key);
  }

  lemma UndoOne(files: Files, pin: Pin, sha: string)
    requires ReadPin(files, pin).Some? && IsSha(sha) && IsKey(pin.key)
    ensures var before := ReadPin(files, pin).value;
            && IsSha(before)
            && Run(WritePin(files, pin, sha), [Step(pin, before)]) == Some(LineFeeds(files, {pin.path}))
  {
    var before := ReadPin(files, pin).value;
    PutFound(Universal(files[pin.path]), pin.key);
    WriteThenRead(files, pin, sha, pin);
    RunOne(WritePin(files, pin, sha), Step(pin, before));
    WriteTwice(files, pin, sha, before);
    WriteAsRead(files, pin);
  }

  lemma LineFeedsTwice(files: Files, a: set<string>, b: set<string>)
    ensures LineFeeds(LineFeeds(files, a), b) == LineFeeds(files, a + b)
  {
    forall p | p in files ensures Universal(Universal(files[p])) == Universal(files[p]) {
      UniversalFixed(Universal(files[p]));
    }
  }

  lemma BackSnoc(changes: seq<Change>, c: Change)
    ensures Back(changes + [c]) == [Step(c.pin, c.oldSha)] + Back(changes)
  {
  }

  /** If the earlier updates can be undone, then so can all with the last one. */
  lemma UndoLastFirst(mid: Files, pin: Pin, sha: string, back: seq<Step>, restored: Files)
    requires ReadPin(mid, pin).Some? && IsSha(sha) && IsKey(pin.key)
    requires WellTyped(back) && Run(mid, back) == Some(restored)
    ensures IsSha(ReadPin(mid, pin).value)
    ensures Run(WritePin(mid, pin, sha), [Step(pin, ReadPin(mid, pin).value)] + back)
            == Some(LineFeeds(restored, {pin.path}))
  {
    UndoOne(mid, pin, sha);
    RunAppend(WritePin(mid, pin, sha), [Step(pin, ReadPin(mid, pin).value)], back);
    RunIgnoresLineFeeds(mid, {pin.path}, back);
  }

  lemma PathsSnoc(steps: seq<Step>, s: Step)
    ensures Paths(steps + [s]) == Paths(steps) + {s.pin.path}
  {
  }

  lemma RunSnoc(files: Files, init: seq<Step>, last: Step)
    requires Run(files, init + [last]).Some?
    ensures Run(files, init).Some?
    ensures var mid := Run(files, init).value;
            && ReadPin(mid, last.pin).Some?
            && Run(files, init + [last]) == Some(WritePin(mid, last.pin, last.sha))
            && Record(files, init + [last])
               == Record(files, init) + [Change(last.pin, ReadPin(mid, last.pin).value, last.sha)]
  {
  }

  lemma UndoStep(files: Files, init: seq<Step>, last: Step)
    requires Run(files, init + [last]).Some? && IsSha(last.sha) && IsKey(last.pin.key)
    requires Run(files, init).Some? && WellTyped(Back(Record(files, init)))
    requires Run(Run(files, init).value, Back(Record(files, init))) == Some(LineFeeds(files, Paths(init)))
    ensures var steps := init + [last];
            && WellTyped(Back(Record(files, steps)))
            && Run(Run(files, steps).value, Back(Record(files, steps))) == Some(LineFeeds(files, Paths(steps)))
  {
    RunSnoc(files, init, last);
    var mid := Run(files, init).value;
    UndoLastFirst(mid, last.pin, last.sha, Back(Record(files, init)), LineFeeds(files, Paths(init)));
    BackSnoc(Record(files, init), Change(last.pin, ReadPin(mid, last.pin).value, last.sha));
    LineFeedsTwice(files, Paths(init), {last.pin.path});
    PathsSnoc(init, last);
  }

  /** Undoing a promotion with the recorded digits restores every file, up to line breaks that
      reading has already made line feeds. */
  lemma {:induction false} UndoRestores(files: Files, steps: seq<Step>)
    requires Run(files, steps).Some? && WellTyped(steps)
    ensures WellTyped(Back(Record(files, steps)))
    ensures Run(Run(files, steps).value, Back(Record(files, steps))) == Some(LineFeeds(files, Paths(steps)))
  {
    if steps == [] {
      assert Paths(steps) == {} && LineFeeds(files, {}) == files;
    } else {
      var init, last := steps[..|steps| - 1], steps[|steps| - 1];
      assert steps == init + [last];
      UndoRestores(files, init);
      UndoStep(files, init, last);
    }
  }

  lemma LineFeedsFixed(files: Files, paths: set<string>)
    ensures LineFeeds(files, paths) == files <==> forall p | p in paths && p in files :: '\r' !in files[p]
  {
    var restored := LineFeeds(files, paths);
    forall p | p in paths && p in files ensures restored[p] == files[p] <==> '\r' !in files[p] {
      UniversalFixed(files[p]);
    }
    if forall p | p in paths && p in files :: '\r' !in files[p] {
      assert restored == files;
    }
  }

  /** The files come back exactly, to the character, if and only if none that was touched holds a
      carriage return. */
  lemma UndoIsExactIff(files: Files, steps: seq<Step>)
    requires Run(files, steps).Some? && WellTyped(steps)
    ensures Run(Run(files, steps).value, Back(Record(files, steps))) == Some(files)
            <==> forall p | p in Paths(steps) && p in files :: '\r' !in files[p]
  {
    UndoRestores(files, steps);
    LineFeedsFixed(files, Paths(steps));
  }

  // ----- when a promotion succeeds -----

  /** An update leaves every pin findable that was findable, and no other. */
  lemma WriteKeepsFindable(files: Files, step: Step, pin: Pin)
    requires ReadPin(files, step.pin).Some? && IsSha(step.sha) && IsKey(step.pin.key) && IsKey(pin.key)
    ensures ReadPin(WritePin(files, step.pin, step.sha), pin).Some? <==> ReadPin(files, pin).Some?
  {
    WriteThenRead(files, step.pin, step.sha, pin);
  }

  lemma {:induction false} RunKeepsFindable(files: Files, steps: seq<Step>, pin: Pin)
    requires Run(files, steps).Some? && WellTyped(steps) && IsKey(pin.key)
    ensures ReadPin(Run(files, steps).value, pin).Some? <==> ReadPin(files, pin).Some?
  {
    if steps != [] {
      var init, last := steps[..|steps| - 1], steps[|steps| - 1];
      assert steps == init + [last];
      RunSnoc(files, init, last);
      RunKeepsFindable(files, init, pin);
      WriteKeepsFindable(Run(files, init).value, last, pin);
    }
  }

  /** A promotion succeeds if and only if every pin can be found beforehand. */
  lemma {:induction false} RunSucceedsIff(files: Files, steps: seq<Step>)
    requires WellTyped(steps)
    ensures Run(files, steps).Some? <==> forall s | s in steps :: ReadPin(files, s.pin).Some?
  {
    if steps != [] {
      var init, last := steps[..|steps| - 1], steps[|steps| - 1];
      assert steps == init + [last];
      RunSucceedsIff(files, init);
      if Run(files, init).Some? {
        RunKeepsFindable(files, init, last.pin);
      }
    }
  }

  // ----- the tool -----

  datatype Request = Request(key: string, sha: string)

  function SlaveSteps(slaves: seq<Slave>, request: Request): seq<Step> {
    if slaves == [] then []
    else
      var n := |slaves| - 1;
      SlaveSteps(slaves[..n], request)
      + if slaves[n].driver == request.key then [Step(slaves[n].pin, request.sha)] else []
  }

  function RequestSteps(layout: Layout, request: Request): seq<Step>
    requires request.key in layout.targets
  {
    [Step(Pin(layout.targets[request.key], request.key), request.sha)] + SlaveSteps(layout.slaves, request)
  }

  /** All updates of a promotion, in the order of the loop. */
  function StepsOf(layout: Layout, requests: seq<Request>): seq<Step>
    requires forall r | r in requests :: r.key in layout.targets
  {
    if requests == [] then []
    else
      var n := |requests| - 1;
      StepsOf(layout, requests[..n]) + RequestSteps(layout, requests[n])
  }

  lemma {:induction false} SlaveStepsAre(slaves: seq<Slave>, request: Request)
    ensures forall s | s in SlaveSteps(slaves, request) ::
              s.sha == request.sha && exists v :: v in slaves && v.driver == request.key && v.pin == s.pin
    ensures forall v | v in slaves && v.driver == request.key :: Step(v.pin, request.sha) in SlaveSteps(slaves, request)
  {
    if slaves != [] {
      var n := |slaves| - 1;
      SlaveStepsAre(slaves[..n], request);
      assert slaves == slaves[..n] + [slaves[n]];
    }
  }

  lemma {:induction false} SlaveStepsDistinct(layout: Layout, n: nat, request: Request)
    requires Sound(layout) && n <= |layout.slaves|
    ensures DistinctPins(SlaveSteps(layout.slaves[..n], request))
  {
    if n > 0 {
      var init := layout.slaves[..n - 1];
      assert layout.slaves[..n][..n - 1] == init;
      SlaveStepsDistinct(layout, n - 1, request);
      SlaveStepsAre(init, request);
    }
  }

  /** The pin belongs to the request: it is its target, or slaved to it. */
  ghost predicate Belongs(layout: Layout, pin: Pin, key: string) {
    || (key in layout.targets && pin == Pin(layout.targets[key], key))
    || (exists v :: v in layout.slaves && v.driver == key && v.pin == pin)
  }

  lemma RequestStepsAre(layout: Layout, request: Request)
    requires Sound(layout) && request.key in layout.targets && IsSha(request.sha)
    ensures DistinctPins(RequestSteps(layout, request)) && WellTyped(RequestSteps(layout, request))
    ensures forall s | s in RequestSteps(layout, request) :: s.sha == request.sha && Belongs(layout, s.pin, request.key)
    ensures forall pin | Belongs(layout, pin, request.key) :: Step(pin, request.sha) in RequestSteps(layout, request)
  {
    SlaveStepsAre(layout.slaves, request);
    SlaveStepsDistinct(layout, |layout.slaves|, request);
    assert layout.slaves[..|layout.slaves|] == layout.slaves;
  }

  /** A pin belongs to one request only. */
  lemma BelongsOnce(layout: Layout, pin: Pin, a: string, b: string)
    requires Sound(layout) && Belongs(layout, pin, a) && Belongs(layout, pin, b)
    ensures a == b
  {
  }

  ghost predicate Admissible(layout: Layout, requests: seq<Request>) {
    && (forall r | r in requests :: r.key in layout.targets && IsSha(r.sha))
    && (forall i, j | 0 <= i < j < |requests| :: requests[i].key != requests[j].key)
  }

  /** The steps of a promotion: distinct pins, each moved to the SHA of the request it belongs to. */
  ghost predicate AreSteps(layout: Layout, requests: seq<Request>, steps: seq<Step>) {
    && DistinctPins(steps) && WellTyped(steps)
    && (forall s | s in steps :: exists r :: r in requests && s.sha == r.sha && Belongs(layout, s.pin, r.key))
    && (forall r, pin | r in requests && Belongs(layout, pin, r.key) :: Step(pin, r.sha) in steps)
  }

  lemma {:induction false} StepsAre(layout: Layout, requests: seq<Request>)
    requires Sound(layout) && Admissible(layout, requests)
    ensures AreSteps(layout, requests, StepsOf(layout, requests))
  {
    if requests != [] {
      var init, last := requests[..|requests| - 1], requests[|requests| - 1];
      StepsAre(layout, init);
      RequestStepsAre(layout, last);
      assert requests == init + [last];
      StepsApart(layout, init, last);
      StepsJoin(layout, init, last, StepsOf(layout, init), RequestSteps(layout, last));
    }
  }

  lemma StepsJoin(layout: Layout, init: seq<Request>, last: Request, a: seq<Step>, b: seq<Step>)
    requires AreSteps(layout, init, a)
    requires DistinctPins(b) && WellTyped(b)
    requires forall s | s in b :: s.sha == last.sha && Belongs(layout, s.pin, last.key)
    requires forall pin | Belongs(layout, pin, last.key) :: Step(pin, last.sha) in b
    requires forall s, t | s in a && t in b :: s.pin != t.pin
    ensures AreSteps(layout, init + [last], a + b)
  {
  }

  lemma StepsApart(layout: Layout, init: seq<Request>, last: Request)
    requires Sound(layout) && Admissible(layout, init + [last])
    requires forall s | s in StepsOf(layout, init) ::
               exists r :: r in init && s.sha == r.sha && Belongs(layout, s.pin, r.key)
    requires forall s | s in RequestSteps(layout, last) :: Belongs(layout, s.pin, last.key)
    ensures forall s, t | s in StepsOf(layout, init) && t in RequestSteps(layout, last) :: s.pin != t.pin
  {
    forall s, t | s in StepsOf(layout, init) && t in RequestSteps(layout, last) ensures s.pin != t.pin {
      var r :| r in init && s.sha == r.sha && Belongs(layout, s.pin, r.key);
      var i :| 0 <= i < |init| && init[i] == r;
      assert (init + [last])[i].key != (init + [last])[|init|].key;
      if s.pin == t.pin {
        BelongsOnce(layout, s.pin, r.key, last.key);
      }
    }
  }

  /** After a promotion every requested pin reads the requested digits, and so does every pin
      slaved to it; all other pins of the repository read what they read before. */
  lemma PromotionReads(layout: Layout, files: Files, requests: seq<Request>, pin: Pin)
    requires Sound(layout) && Admissible(layout, requests) && IsKey(pin.key)
    requires Run(files, StepsOf(layout, requests)).Some?
    ensures var after := Run(files, StepsOf(layout, requests)).value;
            && (forall r | r in requests && Belongs(layout, pin, r.key) :: ReadPin(after, pin) == Some(r.sha))
            && ((forall r | r in requests :: !Belongs(layout, pin, r.key)) ==>
                  ReadPin(after, pin) == ReadPin(files, pin))
  {
    StepsAre(layout, requests);
    RunReads(files, StepsOf(layout, requests), pin);
  }

  /** A slaved pin always ends equal to its driver. */
  lemma SlaveFollowsDriver(layout: Layout, files: Files, requests: seq<Request>, r: Request, v: Slave)
    requires Sound(layout) && Admissible(layout, requests) && r in requests
    requires v in layout.slaves && v.driver == r.key
    requires Run(files, StepsOf(layout, requests)).Some?
    ensures var after := Run(files, StepsOf(layout, requests)).value;
            ReadPin(after, v.pin) == ReadPin(after, Pin(layout.targets[v.driver], v.driver)) == Some(r.sha)
  {
    PromotionReads(layout, files, requests, v.pin);
    PromotionReads(layout, files, requests, Pin(layout.targets[v.driver], v.driver));
    assert Belongs(layout, v.pin, r.key);
    assert Belongs(layout, Pin(layout.targets[v.driver], v.driver), r.key);
  }

  // ----- promoting again -----

  lemma WritesCommute(files: Files, p: Pin, a: string, q: Pin, b: string)
    requires p != q && IsSha(a) && IsSha(b) && IsKey(p.key) && IsKey(q.key)
    ensures WritePin(WritePin(files, p, a), q, b) == WritePin(WritePin(files, q, b), p, a)
  {
    if p.path in files && q.path == p.path {
      WrittenText(files, p, a);
      WrittenText(files, q, b);
      PutsCommute(Universal(files[p.path]), p.key, a, q.key, b);
    }
  }

  /** An update can be made before or after updates of other pins. */
  lemma {:induction false} WriteThenRun(files: Files, pin: Pin, sha: string, steps: seq<Step>)
    requires ReadPin(files, pin).Some? && IsSha(sha) && IsKey(pin.key) && WellTyped(steps)
    requires Run(files, steps).Some? && forall s | s in steps :: s.pin != pin
    ensures Run(WritePin(files, pin, sha), steps) == Some(WritePin(Run(files, steps).value, pin, sha))
  {
    if steps != [] {
      var init, last := steps[..|steps| - 1], steps[|steps| - 1];
      assert steps == init + [last];
      RunSnoc(files, init, last);
      WriteThenRun(files, pin, sha, init);
      var mid := Run(files, init).value;
      RunKeepsFindable(files, init, pin);
      WriteKeepsFindable(mid, Step(pin, sha), last.pin);
      WritesCommute(mid, pin, sha, last.pin, last.sha);
    }
  }

  ghost predicate Moves(steps: seq<Step>, pin: Pin) {
    exists s | s in steps :: s.pin == pin
  }

  /** An update is forgotten if its pin is updated again. */
  lemma {:induction false} Overwritten(files: Files, pin: Pin, sha: string, steps: seq<Step>)
    requires ReadPin(files, pin).Some? && IsSha(sha) && IsKey(pin.key) && WellTyped(steps)
    requires Run(files, steps).Some? && Moves(steps, pin)
    ensures Run(WritePin(files, pin, sha), steps) == Run(files, steps)
  {
    var init, last := steps[..|steps| - 1], steps[|steps| - 1];
    assert steps == init + [last];
    RunSnoc(files, init, last);
    if Moves(init, pin) {
      Overwritten(files, pin, sha, init);
    } else {
      var mid := Run(files, init).value;
      WriteThenRun(files, pin, sha, init);
      RunKeepsFindable(files, init, pin);
      WriteKeepsFindable(mid, Step(pin, sha), pin);
      WriteTwice(mid, pin, sha, last.sha);
    }
  }

  /** Updates are forgotten if all their pins are updated again. */
  lemma {:induction false} SecondReplacesFirst(files: Files, a: seq<Step>, b: seq<Step>)
    requires WellTyped(a) && WellTyped(b) && Run(files, a).Some? && Run(files, b).Some?
    requires forall s | s in a :: Moves(b, s.pin)
    ensures Run(Run(files, a).value, b) == Run(files, b)
  {
    if a != [] {
      var init, last := a[..|a| - 1], a[|a| - 1];
      assert a == init + [last];
      RunSnoc(files, init, last);
      SecondReplacesFirst(files, init, b);
      Overwritten(Run(files, init).value, last.pin, last.sha, b);
    }
  }

  ghost predicate AsRead(files: Files, steps: seq<Step>) {
    forall s | s in steps :: ReadPin(files, s.pin) == Some(s.sha)
  }

  lemma {:induction false} RunAsRead(files: Files, steps: seq<Step>)
    requires Run(files, steps).Some? && WellTyped(steps) && DistinctPins(steps) && AsRead(files, steps)
    ensures Run(files, steps).value == LineFeeds(files, Paths(steps))
  {
    if steps == [] {
      assert Paths(steps) == {} && LineFeeds(files, {}) == files;
    } else {
      var init, last := steps[..|steps| - 1], steps[|steps| - 1];
      assert steps == init + [last];
      RunSnoc(files, init, last);
      RunAsRead(files, init);
      ReadIgnoresLineFeeds(files, Paths(init), last.pin);
      WriteAsRead(LineFeeds(files, Paths(init)), last.pin);
      LineFeedsTwice(files, Paths(init), {last.pin.path});
      PathsSnoc(init, last);
    }
  }

  /** Updates of distinct pins change nothing but line breaks if and only if every pin gets what it
      has. */
  lemma RunIsIdleIff(files: Files, steps: seq<Step>)
    requires Run(files, steps).Some? && WellTyped(steps) && DistinctPins(steps)
    ensures Run(files, steps).value == LineFeeds(files, Paths(steps)) <==> AsRead(files, steps)
  {
    if AsRead(files, steps) {
      RunAsRead(files, steps);
    }
    forall s | s in steps && Run(files, steps).value == LineFeeds(files, Paths(steps))
      ensures ReadPin(files, s.pin) == Some(s.sha)
    {
      RunReads(files, steps, s.pin);
      ReadIgnoresLineFeeds(files, Paths(steps), s.pin);
    }
  }

  function Target(layout: Layout, key: string): Pin
    requires key in layout.targets
  {
    Pin(layout.targets[key], key)
  }

  /** The requests that ask for what their drivers read before. */
  function BackTo(layout: Layout, files: Files, requests: seq<Request>): seq<Request>
    requires forall r | r in requests :: r.key in layout.targets && ReadPin(files, Target(layout, r.key)).Some?
  {
    seq(|requests|, i requires 0 <= i < |requests| =>
      Request(requests[i].key, ReadPin(files, Target(layout, requests[i].key)).value))
  }

  /** Every pin that a request moves along reads what its driver reads. */
  ghost predicate SlavesAgree(layout: Layout, files: Files, requests: seq<Request>)
    requires forall r | r in requests :: r.key in layout.targets
  {
    forall r, v | r in requests && v in layout.slaves && v.driver == r.key ::
      ReadPin(files, v.pin) == ReadPin(files, Target(layout, r.key))
  }

  lemma StepsFindTargets(layout: Layout, files: Files, requests: seq<Request>)
    requires Sound(layout) && Admissible(layout, requests) && Run(files, StepsOf(layout, requests)).Some?
    ensures forall r | r in requests :: ReadPin(files, Target(layout, r.key)).Some?
    ensures forall r, pin | r in requests && Belongs(layout, pin, r.key) :: ReadPin(files, pin).Some?
  {
    StepsAre(layout, requests);
    RunSucceedsIff(files, StepsOf(layout, requests));
    forall r, pin | r in requests && Belongs(layout, pin, r.key) ensures ReadPin(files, pin).Some? {
      assert Step(pin, r.sha) in StepsOf(layout, requests);
    }
    forall r | r in requests ensures ReadPin(files, Target(layout, r.key)).Some? {
      assert Belongs(layout, Target(layout, r.key), r.key);
    }
  }

  lemma ReadIsSha(files: Files, pin: Pin)
    requires ReadPin(files, pin).Some?
    ensures IsSha(ReadPin(files, pin).value)
  {
    PutFound(Universal(files[pin.path]), pin.key);
  }

  lemma BackIsAdmissible(layout: Layout, files: Files, requests: seq<Request>)
    requires Admissible(layout, requests)
    requires forall r | r in requests :: ReadPin(files, Target(layout, r.key)).Some?
    ensures Admissible(layout, BackTo(layout, files, requests))
    ensures forall r | r in requests ::
              Request(r.key, ReadPin(files, Target(layout, r.key)).value) in BackTo(layout, files, requests)
    ensures forall q | q in BackTo(layout, files, requests) ::
              && q.sha == ReadPin(files, Target(layout, q.key)).value
              && exists r :: r in requests && r.key == q.key
  {
    var back := BackTo(layout, files, requests);
    forall i | 0 <= i < |back| ensures back[i].key == requests[i].key && IsSha(back[i].sha) {
      ReadIsSha(files, Target(layout, requests[i].key));
    }
    forall r | r in requests ensures Request(r.key, ReadPin(files, Target(layout, r.key)).value) in back {
      var i :| 0 <= i < |requests| && requests[i] == r;
      assert back[i] == Request(r.key, ReadPin(files, Target(layout, r.key)).value);
    }
  }

  /** Requests for the same targets move the same pins. */
  lemma SameKeysMoveSame(layout: Layout, a: seq<Request>, b: seq<Request>)
    requires Sound(layout) && Admissible(layout, a) && Admissible(layout, b)
    requires forall r | r in a :: exists q :: q in b && q.key == r.key
    ensures forall s | s in StepsOf(layout, a) :: Moves(StepsOf(layout, b), s.pin)
  {
    StepsAre(layout, a);
    StepsAre(layout, b);
    forall s | s in StepsOf(layout, a) ensures Moves(StepsOf(layout, b), s.pin) {
      var r :| r in a && s.sha == r.sha && Belongs(layout, s.pin, r.key);
      var q :| q in b && q.key == r.key;
      assert Step(s.pin, q.sha) in StepsOf(layout, b);
    }
  }

  lemma MovesSamePaths(a: seq<Step>, b: seq<Step>)
    requires (forall s | s in a :: Moves(b, s.pin)) && (forall s | s in b :: Moves(a, s.pin))
    ensures Paths(a) == Paths(b)
  {
  }

  lemma AsReadAgrees(layout: Layout, files: Files, requests: seq<Request>, steps: seq<Step>)
    requires forall r | r in requests :: r.key in layout.targets && ReadPin(files, Target(layout, r.key)).Some?
    requires forall r, pin | r in requests && Belongs(layout, pin, r.key) ::
               Step(pin, ReadPin(files, Target(layout, r.key)).value) in steps
    requires AsRead(files, steps)
    ensures SlavesAgree(layout, files, requests)
  {
    forall r, v | r in requests && v in layout.slaves && v.driver == r.key
      ensures ReadPin(files, v.pin) == ReadPin(files, Target(layout, r.key))
    {
      assert Belongs(layout, v.pin, r.key);
    }
  }

  lemma AgreeIsAsRead(layout: Layout, files: Files, requests: seq<Request>, step: Step, key: string)
    requires forall r | r in requests :: r.key in layout.targets
    requires SlavesAgree(layout, files, requests) && (exists r :: r in requests && r.key == key)
    requires key in layout.targets && ReadPin(files, Target(layout, key)) == Some(step.sha)
    requires Belongs(layout, step.pin, key)
    ensures ReadPin(files, step.pin) == Some(step.sha)
  {
  }

  /** The pins already read what the way back asks for exactly if the slaved ones agree. */
  lemma BackIsAsReadIff(layout: Layout, files: Files, requests: seq<Request>)
    requires Sound(layout) && Admissible(layout, requests)
    requires forall r | r in requests :: ReadPin(files, Target(layout, r.key)).Some?
    requires Admissible(layout, BackTo(layout, files, requests))
    ensures AsRead(files, StepsOf(layout, BackTo(layout, files, requests))) <==> SlavesAgree(layout, files, requests)
  {
    var back := BackTo(layout, files, requests);
    var steps := StepsOf(layout, back);
    BackIsAdmissible(layout, files, requests);
    StepsAre(layout, back);
    if AsRead(files, steps) {
      AsReadAgrees(layout, files, requests, steps);
    }
    forall s | SlavesAgree(layout, files, requests) && s in steps ensures ReadPin(files, s.pin) == Some(s.sha) {
      var q :| q in back && s.sha == q.sha && Belongs(layout, s.pin, q.key);
      AgreeIsAsRead(layout, files, requests, s, q.key);
    }
  }

  /** The tool run again, with the old SHAs of the pins that were requested: it always succeeds, and
      gives the files back, up to line breaks, if and only if every pin that was moved along had
      been equal to its driver. */
  lemma PromotingBackRestoresIff(layout: Layout, files: Files, requests: seq<Request>)
    requires Sound(layout) && Admissible(layout, requests) && Run(files, StepsOf(layout, requests)).Some?
    ensures forall r | r in requests :: ReadPin(files, Target(layout, r.key)).Some?
    ensures Admissible(layout, BackTo(layout, files, requests))
    ensures var steps, back := StepsOf(layout, requests), StepsOf(layout, BackTo(layout, files, requests));
            var again := Run(Run(files, steps).value, back);
            && again.Some?
            && (again.value == LineFeeds(files, Paths(steps)) <==> SlavesAgree(layout, files, requests))
  {
    var steps := StepsOf(layout, requests);
    StepsFindTargets(layout, files, requests);
    BackIsAdmissible(layout, files, requests);
    var back := StepsOf(layout, BackTo(layout, files, requests));
    StepsAre(layout, requests);
    StepsAre(layout, BackTo(layout, files, requests));
    SameKeysMoveSame(layout, requests, BackTo(layout, files, requests));
    SameKeysMoveSame(layout, BackTo(layout, files, requests), requests);
    MovesSamePaths(steps, back);
    RunSucceedsIff(files, steps);
    RunSucceedsIff(files, back);
    SecondReplacesFirst(files, steps, back);
    RunIsIdleIff(files, back);
    BackIsAsReadIff(layout, files, requests);
  }

  // ----- the repository's own pins -----

  const MCP := "hyrule_mcp_version"
  const CLOUD := "hyrule_cloud_version"
  const WEB := "hyrule_web_version"
  const NETWORK_PROXY := "hyrule_network_proxy_version"
  const TUNNEL_PROXY := "hyrule_tunnel_proxy_version"
  const HOST_VARS := "ansible/inventory/host_vars/"

  const LAYOUT := Layout(
    map[MCP := HOST_VARS + "noc.yml", CLOUD := HOST_VARS + "api.yml", WEB := HOST_VARS + "web.yml",
        NETWORK_PROXY := HOST_VARS + "netproxy.yml"],
    [Slave(Pin(HOST_VARS + "netproxy.yml", TUNNEL_PROXY), NETWORK_PROXY)])

  lemma NameIsKey(k: string)
    requires forall c | c in k :: 'a' <= c <= 'z' || c == '_'
    ensures IsKey(k)
  {
    forall c | c in k ensures !IsSpace(c) && c != ':' {
      VisibleIsNotSpace(c);
    }
  }

  lemma AppNamesAreKeys()
    ensures IsKey(MCP) && IsKey(CLOUD) && IsKey(WEB)
  {
    NameIsKey(MCP);
    NameIsKey(CLOUD);
    NameIsKey(WEB);
  }

  lemma ProxyNamesAreKeys()
    ensures IsKey(NETWORK_PROXY) && IsKey(TUNNEL_PROXY)
  {
    NameIsKey(NETWORK_PROXY);
    NameIsKey(TUNNEL_PROXY);
  }

  lemma LayoutIsSound()
    ensures Sound(LAYOUT)
  {
    AppNamesAreKeys();
    ProxyNamesAreKeys();
    assert TUNNEL_PROXY[7] !in {MCP[7], CLOUD[7], WEB[7], NETWORK_PROXY[7]};
  }

  // ----- where undoing falls short -----

  const OLD_SHA := seq(SHA_LENGTH, _ => 'a')
  const OTHER_SHA := seq(SHA_LENGTH, _ => 'b')
  const NEW_SHA := seq(SHA_LENGTH, _ => 'c')

  /** A repository in which the two proxy pins differ, and a promotion of the network proxy. */
  const UNEQUAL_PINS: Files :=
    map[HOST_VARS + "netproxy.yml" := TwoPins(NETWORK_PROXY, OLD_SHA, TUNNEL_PROXY, OTHER_SHA)]
  const PROXY_REQUEST := [Request(NETWORK_PROXY, NEW_SHA)]

  lemma NoCarriageReturn(k: string, sha: string)
    requires IsKey(k) && IsSha(sha)
    ensures '\r' !in PinLine(k, sha)
  {
    BlankIsSpace('\r');
    forall j | 0 <= j < |PinLine(k, sha)| ensures PinLine(k, sha)[j] != '\r' {
      if j < |k| {
        assert PinLine(k, sha)[j] in k;
      } else if j >= |k| + 2 {
        assert PinLine(k, sha)[j] in sha;
      }
    }
  }

  lemma UnequalPinsRead()
    ensures UNEQUAL_PINS.Keys == {HOST_VARS + "netproxy.yml"}
    ensures '\r' !in UNEQUAL_PINS[HOST_VARS + "netproxy.yml"]
    ensures ReadPin(UNEQUAL_PINS, Target(LAYOUT, NETWORK_PROXY)) == Some(OLD_SHA)
    ensures ReadPin(UNEQUAL_PINS, Pin(HOST_VARS + "netproxy.yml", TUNNEL_PROXY)) == Some(OTHER_SHA)
  {
    var text := TwoPins(NETWORK_PROXY, OLD_SHA, TUNNEL_PROXY, OTHER_SHA);
    ProxyNamesAreKeys();
    NoCarriageReturn(NETWORK_PROXY, OLD_SHA);
    NoCarriageReturn(TUNNEL_PROXY, OTHER_SHA);
    UniversalFixed(text);
    assert NETWORK_PROXY[7] != TUNNEL_PROXY[7];
    FirstPinReads(NETWORK_PROXY, OLD_SHA, TUNNEL_PROXY, OTHER_SHA);
    SecondPinReads(NETWORK_PROXY, OLD_SHA, TUNNEL_PROXY, OTHER_SHA);
  }

  lemma ProxyPins(pin: Pin)
    requires Belongs(LAYOUT, pin, NETWORK_PROXY)
    ensures pin in {Target(LAYOUT, NETWORK_PROXY), Pin(HOST_VARS + "netproxy.yml", TUNNEL_PROXY)}
  {
  }

  lemma ProxyPromotes()
    ensures Admissible(LAYOUT, PROXY_REQUEST) && Run(UNEQUAL_PINS, StepsOf(LAYOUT, PROXY_REQUEST)).Some?
  {
    var steps := StepsOf(LAYOUT, PROXY_REQUEST);
    LayoutIsSound();
    UnequalPinsRead();
    StepsAre(LAYOUT, PROXY_REQUEST);
    forall s | s in steps ensures ReadPin(UNEQUAL_PINS, s.pin).Some? {
      var r :| r in PROXY_REQUEST && s.sha == r.sha && Belongs(LAYOUT, s.pin, r.key);
      ProxyPins(s.pin);
    }
    RunSucceedsIff(UNEQUAL_PINS, steps);
  }

  lemma ProxiesDisagree()
    ensures !SlavesAgree(LAYOUT, UNEQUAL_PINS, PROXY_REQUEST)
  {
    UnequalPinsRead();
    assert PROXY_REQUEST[0] in PROXY_REQUEST && LAYOUT.slaves[0] in LAYOUT.slaves;
    assert OLD_SHA[0] != OTHER_SHA[0];
  }

  /** The tool's own two proxy pins: promoting the network proxy and then promoting it back to its old
      SHA does not give back a repository in which they differ. */
  lemma PromotingBackFails()
    ensures Admissible(LAYOUT, PROXY_REQUEST) && Admissible(LAYOUT, [Request(NETWORK_PROXY, OLD_SHA)])
    ensures var promoted := Run(UNEQUAL_PINS, StepsOf(LAYOUT, PROXY_REQUEST));
            && promoted.Some?
            && Run(promoted.value, StepsOf(LAYOUT, [Request(NETWORK_PROXY, OLD_SHA)])) != Some(UNEQUAL_PINS)
  {
    var steps := StepsOf(LAYOUT, PROXY_REQUEST);
    LayoutIsSound();
    ProxyPromotes();
    PromotingBackRestoresIff(LAYOUT, UNEQUAL_PINS, PROXY_REQUEST);
    ProxiesDisagree();
    UnequalPinsRead();
    assert BackTo(LAYOUT, UNEQUAL_PINS, PROXY_REQUEST) == [Request(NETWORK_PROXY, OLD_SHA)];
    LineFeedsFixed(UNEQUAL_PINS, Paths(steps));
  }

  lemma {:induction false} UniversalAppend(a: string, b: string)
    requires forall j | 0 <= j < |a| :: a[j] != '\r'
    ensures Universal(a + b) == a + Universal(b)
  {
    if a == [] {
      assert a + b == b;
    } else {
      assert (a + b)[1..] == a[1..] + b;
      UniversalAppend(a[1..], b);
    }
  }

  const ONE_PIN := Pin("pins.yml", "pin")
  const LINE := PinLine("pin", OLD_SHA)

  lemma LineReads(after: string)
    requires after == [] || after[0] == '\n'
    ensures FindPin(LINE + after, "pin") == Some(OLD_SHA)
  {
    assert LINE + after == [] + LINE + after;
    LineMatches([], "pin", OLD_SHA, after);
    MatchIsWindow(LINE + after, "pin", 0, 5, 5 + SHA_LENGTH);
  }

  /** A file that ends its lines in the manner of DOS does not come back. */
  lemma UndoLosesCarriageReturn()
    ensures var files, steps := map["pins.yml" := LINE + ['\r', '\n']], [Step(ONE_PIN, NEW_SHA)];
            && WellTyped(steps) && Run(files, steps).Some?
            && Run(Run(files, steps).value, Back(Record(files, steps))) != Some(files)
  {
    var files, steps: seq<Step> := map["pins.yml" := LINE + ['\r', '\n']], [Step(ONE_PIN, NEW_SHA)];
    NameIsKey("pin");
    UniversalAppend(LINE, ['\r', '\n']);
    assert Universal(['\r', '\n']) == ['\n'];
    LineReads(['\n']);
    RunOne(files, steps[0]);
    assert steps == [steps[0]];
    assert files["pins.yml"][|LINE|] == '\r';
    UndoIsExactIff(files, steps);
    assert "pins.yml" in Paths(steps) by { assert steps[0] in steps; }
  }

  /** What an argument of the command line asks for: nothing if only white space is given. */
  function Asked(arg: Request): seq<Request> {
    if Strip(arg.sha) == "" then [] else [Request(arg.key, Strip(arg.sha))]
  }

  /** Requests as given on the command line, without the empty ones. */
  function Requested(args: seq<Request>): (r: seq<Request>)
    ensures forall q | q in r :: exists a :: a in args && a.key == q.key
  {
    if args == [] then []
    else Requested(args[..|args| - 1]) + Asked(args[|args| - 1])
  }

  /** The places of the arguments that are not empty, in order. */
  ghost predicate NonEmptyPlaces(args: seq<Request>, places: seq<nat>) {
    && (forall i, j | 0 <= i < j < |places| :: places[i] < places[j])
    && (forall n: nat :: n in places <==> n < |args| && Strip(args[n].sha) != "")
  }

  ghost predicate AskedAt(args: seq<Request>, requests: seq<Request>, places: seq<nat>) {
    && |places| == |requests|
    && forall i | 0 <= i < |places| ::
         places[i] < |args| && requests[i] == Request(args[places[i]].key, Strip(args[places[i]].sha))
  }

  lemma RequestedSnoc(args: seq<Request>, arg: Request)
    ensures Requested(args + [arg]) == Requested(args) + Asked(arg)
  {
  }

  lemma PlacesSnoc(args: seq<Request>, arg: Request, places: seq<nat>)
    requires NonEmptyPlaces(args, places)
    ensures NonEmptyPlaces(args + [arg], places + if Strip(arg.sha) == "" then [] else [|args|])
  {
    var all, more := args + [arg], places + if Strip(arg.sha) == "" then [] else [|args|];
    forall i | 0 <= i < |places| ensures places[i] < |args| {
      assert places[i] in places;
    }
    forall n: nat ensures n in more <==> n < |all| && Strip(all[n].sha) != "" {
      assert n in places <==> n < |args| && Strip(args[n].sha) != "";
    }
  }

  lemma AskedSnoc(args: seq<Request>, arg: Request, requests: seq<Request>, places: seq<nat>)
    requires AskedAt(args, requests, places)
    ensures AskedAt(args + [arg], requests + Asked(arg), places + if Strip(arg.sha) == "" then [] else [|args|])
  {
  }

  lemma PlaceAdded(args: seq<Request>, arg: Request, before: seq<nat>) returns (places: seq<nat>)
    requires NonEmptyPlaces(args, before) && AskedAt(args, Requested(args), before)
    ensures NonEmptyPlaces(args + [arg], places) && AskedAt(args + [arg], Requested(args + [arg]), places)
  {
    RequestedSnoc(args, arg);
    PlacesSnoc(args, arg, before);
    AskedSnoc(args, arg, Requested(args), before);
    places := before + if Strip(arg.sha) == "" then [] else [|args|];
  }

  /** Every argument that is not empty is requested, with its stripped SHA, once and in order, and
      nothing else is. */
  lemma {:induction false} RequestedIs(args: seq<Request>) returns (places: seq<nat>)
    ensures NonEmptyPlaces(args, places) && AskedAt(args, Requested(args), places)
  {
    if args == [] {
      places := [];
    } else {
      var init, last := args[..|args| - 1], args[|args| - 1];
      assert args == init + [last];
      var before := RequestedIs(init);
      places := PlaceAdded(init, last, before);
    }
  }

  /** The argument asks for something, and for this. */
  predicate Asks(arg: Request, sha: string) {
    Strip(arg.sha) == sha != ""
  }

  lemma RequestedMembers(args: seq<Request>)
    ensures forall a | a in args && Strip(a.sha) != "" :: Request(a.key, Strip(a.sha)) in Requested(args)
    ensures forall q | q in Requested(args) :: exists a :: a in args && a.key == q.key && Asks(a, q.sha)
  {
    var requests := Requested(args);
    var places := RequestedIs(args);
    forall a | a in args && Strip(a.sha) != "" ensures Request(a.key, Strip(a.sha)) in requests {
      var n: nat :| n < |args| && args[n] == a;
      assert n in places;
      var i :| 0 <= i < |places| && places[i] == n;
      assert requests[i] == Request(a.key, Strip(a.sha));
    }
    forall q | q in requests ensures exists a :: a in args && a.key == q.key && Asks(a, q.sha) {
      var i :| 0 <= i < |requests| && requests[i] == q;
      assert places[i] in places && args[places[i]] in args;
      assert Asks(args[places[i]], q.sha);
    }
  }

  ghost predicate DistinctArgs(args: seq<Request>) {
    forall i, j | 0 <= i < j < |args| :: args[i].key != args[j].key
  }

  lemma RequestedDistinct(args: seq<Request>)
    requires DistinctArgs(args)
    ensures DistinctArgs(Requested(args))
  {
    var requests := Requested(args);
    var places := RequestedIs(args);
    forall i, j | 0 <= i < j < |requests| ensures requests[i].key != requests[j].key {
      assert places[i] < places[j] < |args|;
    }
  }

  /** In terms of the arguments: a pin of an argument that is not empty, or slaved to one, reads the
      argument's stripped SHA, and every other pin what it read before. */
  ghost predicate ReadsAsAsked(layout: Layout, before: Files, after: Files, args: seq<Request>, pin: Pin) {
    && (forall a | a in args && Strip(a.sha) != "" && Belongs(layout, pin, a.key) ::
          ReadPin(after, pin) == Some(Strip(a.sha)))
    && ((forall a | a in args && Strip(a.sha) != "" :: !Belongs(layout, pin, a.key)) ==>
          ReadPin(after, pin) == ReadPin(before, pin))
  }

  lemma ArgumentsRead(layout: Layout, before: Files, args: seq<Request>, pin: Pin)
    requires Sound(layout) && DistinctArgs(args) && IsKey(pin.key)
    requires forall a | a in args :: a.key in layout.targets
    requires forall q | q in Requested(args) :: IsSha(q.sha)
    requires Run(before, StepsOf(layout, Requested(args))).Some?
    ensures ReadsAsAsked(layout, before, Run(before, StepsOf(layout, Requested(args))).value, args, pin)
  {
    RequestedMembers(args);
    RequestedDistinct(args);
    PromotionReads(layout, before, Requested(args), pin);
  }

  method FirstInvalid(requests: seq<Request>) returns (key: Option<string>)
    ensures key.None? <==> forall q | q in requests :: IsSha(q.sha)
    ensures key.Some? ==> exists q :: q in requests && q.key == key.value && !IsSha(q.sha)
  {
    for i := 0 to |requests|
      invariant forall j | 0 <= j < i :: IsSha(requests[j].sha)
    {
      if !IsSha(requests[i].sha) {
        assert requests[i] in requests;
        return Some(requests[i].key);
      }
    }
    return None;
  }

  /** The pin files of the repository and the loops that promote pins in it. */
  class Repository {
    const layout: Layout
    var files: Files

    constructor (layout: Layout, files: Files)
      ensures this.layout == layout && this.files == files
    {
      this.layout, this.files := layout, files;
    }

    /** Replaces the digits of one pin and returns the old ones. */
    method UpdatePin(pin: Pin, sha: string) returns (r: Result<string, PinError>)
      modifies this`files
      ensures match r
              case Ok(before) => ReadPin(old(files), pin) == Some(before) && files == WritePin(old(files), pin, sha)
              case Err(_) => ReadPin(old(files), pin).None? && files == old(files)
    {
      if pin.path !in files {
        return Err(MissingFile(pin.path));
      }
      var text := Universal(files[pin.path]);
      var found := FindPin(text, pin.key);
      if found.None? {
        return Err(MissingPin(pin));
      }
      files := files[pin.path := PutPin(text, pin.key, sha)];
      return Ok(found.value);
    }

    /** What the updates so far have done since the files were `before`. */
    ghost predicate HasRun(before: Files, steps: seq<Step>, changes: seq<Change>)
      reads this`files
    {
      Run(before, steps) == Some(files) && changes == Record(before, steps)
    }

    /** One more update. */
    method Advance(step: Step, changes: seq<Change>, ghost before: Files, ghost steps: seq<Step>)
      returns (r: Result<seq<Change>, PinError>)
      requires HasRun(before, steps, changes)
      modifies this`files
      ensures if r.Ok? then HasRun(before, steps + [step], r.value)
              else files == old(files) && Run(before, steps + [step]).None?
    {
      assert (steps + [step])[..|steps|] == steps;
      var updated := UpdatePin(step.pin, step.sha);
      if updated.Err? {
        return Err(updated.error);
      }
      return Ok(changes + [Change(step.pin, updated.value, step.sha)]);
    }

    method PromoteSlaves(request: Request, changes: seq<Change>, ghost before: Files, ghost steps: seq<Step>)
      returns (r: Result<seq<Change>, PinError>)
      requires HasRun(before, steps, changes)
      modifies this`files
      ensures if r.Ok? then HasRun(before, steps + SlaveSteps(layout.slaves, request), r.value)
              else Halfway(before, steps + SlaveSteps(layout.slaves, request))
    {
      var slaves := layout.slaves;
      r := Ok(changes);
      assert steps + SlaveSteps(slaves[..0], request) == steps;
      for i := 0 to |slaves|
        invariant r.Ok? && HasRun(before, steps + SlaveSteps(slaves[..i], request), r.value)
      {
        ghost var sofar := steps + SlaveSteps(slaves[..i], request);
        SlaveNext(steps, slaves, request, i);
        if slaves[i].driver == request.key {
          var slaved := Step(slaves[i].pin, request.sha);
          r := Advance(slaved, r.value, before, sofar);
          if r.Err? {
            ghost var rest := SlavesAfter(steps, slaves, request, i);
            HalfwayAt(before, sofar, slaved, rest);
            return;
          }
        }
      }
      assert slaves[..|slaves|] == slaves;
    }

    /** The target of one request, and then every pin slaved to it. */
    method PromoteOne(request: Request, changes: seq<Change>, ghost before: Files, ghost steps: seq<Step>)
      returns (r: Result<seq<Change>, PinError>)
      requires request.key in layout.targets && HasRun(before, steps, changes)
      modifies this`files
      ensures if r.Ok? then HasRun(before, steps + RequestSteps(layout, request), r.value)
              else Halfway(before, steps + RequestSteps(layout, request))
    {
      var target := Step(Pin(layout.targets[request.key], request.key), request.sha);
      Grouped(steps, target, SlaveSteps(layout.slaves, request));
      r := Advance(target, changes, before, steps);
      if r.Err? {
        HalfwayAt(before, steps, target, SlaveSteps(layout.slaves, request));
        return;
      }
      r := PromoteSlaves(request, r.value, before, steps + [target]);
    }

    /** All requests, in order.  If one of the updates fails, those before it are done and stay. */
    method Promote(requests: seq<Request>) returns (r: Result<seq<Change>, PinError>)
      requires forall q | q in requests :: q.key in layout.targets
      modifies this`files
      ensures if r.Ok? then HasRun(old(files), StepsOf(layout, requests), r.value)
              else Halfway(old(files), StepsOf(layout, requests))
    {
      r := Ok([]);
      for i := 0 to |requests|
        invariant r.Ok? && HasRun(old(files), StepsOf(layout, requests[..i]), r.value)
      {
        StepsNext(layout, requests, i);
        r := PromoteOne(requests[i], r.value, old(files), StepsOf(layout, requests[..i]));
        if r.Err? {
          ghost var rest := StepsAfter(layout, requests, i + 1);
          HalfwayThen(old(files), StepsOf(layout, requests[..i + 1]), rest);
          return;
        }
      }
      assert requests[..|requests|] == requests;
    }

    /** The tool's main branch: nothing is touched unless something is asked for, and every SHA that is
        asked for is well formed. */
    method PromoteAll(args: seq<Request>) returns (r: Result<seq<Change>, PinError>)
      requires forall a | a in args :: a.key in layout.targets
      modifies this`files
      ensures if forall a | a in args :: Strip(a.sha) == "" then r == Err(NoInput) && files == old(files)
              else if exists a | a in args :: Strip(a.sha) != "" && !IsSha(Strip(a.sha)) then
                r.Err? && r.error.InvalidSha? && files == old(files)
              else if r.Ok? then HasRun(old(files), StepsOf(layout, Requested(args)), r.value)
              else Halfway(old(files), StepsOf(layout, Requested(args)))
      ensures r.Ok? && Sound(layout) && DistinctArgs(args) ==>
                forall pin: Pin | IsKey(pin.key) :: ReadsAsAsked(layout, old(files), files, args, pin)
    {
      var requests := Requested(args);
      RequestedMembers(args);
      if requests == [] {
        return Err(NoInput);
      }
      assert requests[0] in requests;
      var invalid := FirstInvalid(requests);
      if invalid.Some? {
        return Err(InvalidSha(invalid.value));
      }
      r := Promote(requests);
      if r.Ok? && Sound(layout) && DistinctArgs(args) {
        forall pin: Pin | IsKey(pin.key) ensures ReadsAsAsked(layout, old(files), files, args, pin) {
          ArgumentsRead(layout, old(files), args, pin);
        }
      }
    }

    /** Some update failed; those before it are done and stay. */
    ghost predicate Halfway(before: Files, steps: seq<Step>)
      reads this`files
    {
      exists n | 0 <= n < |steps| :: Run(before, steps[..n]) == Some(files) && Run(before, steps[..n + 1]).None?
    }

    lemma HalfwayAt(before: Files, steps: seq<Step>, failing: Step, rest: seq<Step>)
      requires Run(before, steps) == Some(files) && Run(before, steps + [failing]).None?
      ensures Halfway(before, steps + [failing] + rest)
    {
      var all := steps + [failing] + rest;
      assert all[..|steps|] == steps && all[..|steps| + 1] == steps + [failing];
    }

    lemma HalfwayThen(before: Files, steps: seq<Step>, rest: seq<Step>)
      requires Halfway(before, steps)
      ensures Halfway(before, steps + rest)
    {
      var n :| 0 <= n < |steps| && Run(before, steps[..n]) == Some(files) && Run(before, steps[..n + 1]).None?;
      assert (steps + rest)[..n] == steps[..n] && (steps + rest)[..n + 1] == steps[..n + 1];
    }
  }

  lemma Grouped(steps: seq<Step>, target: Step, rest: seq<Step>)
    ensures steps + [target] + rest == steps + ([target] + rest)
  {
  }

  lemma SlaveNext(steps: seq<Step>, slaves: seq<Slave>, request: Request, i: nat)
    requires i < |slaves|
    ensures var before, after := steps + SlaveSteps(slaves[..i], request), steps + SlaveSteps(slaves[..i + 1], request);
            after == if slaves[i].driver == request.key then before + [Step(slaves[i].pin, request.sha)] else before
  {
    assert slaves[..i + 1][..i] == slaves[..i];
  }

  lemma {:induction false} SlavesAfter(steps: seq<Step>, slaves: seq<Slave>, request: Request, i: nat)
    returns (rest: seq<Step>)
    requires i < |slaves| && slaves[i].driver == request.key
    ensures steps + SlaveSteps(slaves, request)
            == steps + SlaveSteps(slaves[..i], request) + [Step(slaves[i].pin, request.sha)] + rest
  {
    var n := |slaves| - 1;
    assert slaves[..n + 1] == slaves;
    SlaveNext(steps, slaves, request, n);
    rest := [];
    if i < n {
      rest := SlavesAfter(steps, slaves[..n], request, i);
      assert slaves[..n][..i] == slaves[..i];
      rest := rest + if slaves[n].driver == request.key then [Step(slaves[n].pin, request.sha)] else [];
    }
  }

  lemma StepsNext(layout: Layout, requests: seq<Request>, i: nat)
    requires i < |requests| && forall r | r in requests :: r.key in layout.targets
    ensures StepsOf(layout, requests[..i + 1]) == StepsOf(layout, requests[..i]) + RequestSteps(layout, requests[i])
  {
    assert requests[..i + 1][..i] == requests[..i];
  }

  lemma {:induction false} StepsAfter(layout: Layout, requests: seq<Request>, i: nat) returns (rest: seq<Step>)
    requires i <= |requests| && forall r | r in requests :: r.key in layout.targets
    ensures StepsOf(layout, requests) == StepsOf(layout, requests[..i]) + rest
  {
    if i < |requests| {
      var n := |requests| - 1;
      assert requests[..n][..i] == requests[..i];
      rest := StepsAfter(layout, requests[..n], i);
      rest := rest + RequestSteps(layout, requests[n]);
    } else {
      assert requests[..i] == requests;
      rest := [];
    }
  }
}
