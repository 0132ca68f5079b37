/** The files and Knot as the control service reaches them, with accesses that may fail. */
module Hosts {
  import opened Attempts
  import opened Effects
  import opened Execution
  import opened Journal
  import opened StateFile
  import opened Wrappers
  import opened Zones
  import ZonePrinter

  /** What the state file holds. */
  function SavedFile(s: Option<State>): FileContent {
    match s
    case None => Missing
    case Some(state) => Parsed(EncodeState(state))
  }

  /** The text is the print of a payload that stands for this content. */
  ghost predicate PrintOf(zone: string, text: string, c: Content) {
    exists p: Payload, today: nat :: text == ZonePrinter.ZoneFileText(zone, p, today) && c == ContentOf(p)
  }

  ghost predicate ArePrints(texts: map<string, string>, contents: map<string, Content>) {
    && texts.Keys == contents.Keys
    && forall z | z in texts :: PrintOf(z, texts[z], contents[z])
  }

  lemma PrintedPut(texts: map<string, string>, contents: map<string, Content>, zone: string, text: string, c: Content)
    requires ArePrints(texts, contents) && PrintOf(zone, text, c)
    ensures ArePrints(texts[zone := text], contents[zone := c])
  {
  }

  lemma PrintedDrop(texts: map<string, string>, contents: map<string, Content>, zone: string)
    requires ArePrints(texts, contents)
    ensures ArePrints(texts - {zone}, contents - {zone})
  {
  }

  lemma IsPrint(zone: string, p: Payload, today: nat)
    ensures PrintOf(zone, ZonePrinter.ZoneFileText(zone, p, today), ContentOf(p))
  {
  }

  predicate IsCommand(op: Op) {
    !op.SaveState? && !op.WriteInclude? && !op.WriteZoneFile? && !op.UnlinkZoneFile?
  }

  lemma CommandKeepsFiles(w: World, op: Op)
    requires IsCommand(op)
    ensures var v := Exec(w, op);
            v.stateFile == w.stateFile && v.config == w.config && v.zoneFiles == w.zoneFiles
  {
  }

  /** The files and Knot as the service reaches them.  Every access may succeed, raise with or
      without having taken effect, or be the last thing the process does. */
  class Host {
    var stateFile: FileContent
    var config: seq<string>
    var zoneFiles: map<string, string>
    /** The three stores as the protocol sees them.  Knot is another process, of which the service
        sees only the answers. */
    ghost var world: World
    /** The effects since some past world. */
    ghost var base: World
    ghost var ops: seq<Op>
    /** How many accesses have not gone well, and what they raised. */
    ghost var faults: nat
    ghost var raised: seq<Error>
    /** Every access that was tried, whether or not it took effect. */
    ghost var tried: seq<Op>

    ghost predicate Valid()
      reads this
    {
      && world == ExecAll(base, ops)
      && stateFile == SavedFile(world.stateFile)
      && config == world.config
      && ArePrints(zoneFiles, world.zoneFiles)
    }

    /** Takes over the stores of a fresh installation. */
    constructor (config: seq<string>, ghost knot: Knot)
      ensures Valid() && fresh(this) && ops == []
      ensures world == World(None, config, map[], knot)
    {
      this.stateFile, this.config, this.zoneFiles := Missing, config, map[];
      this.world, this.base, this.ops := World(None, config, map[], knot), World(None, config, map[], knot), [];
      this.faults, this.raised, this.tried := 0, [], [];
    }

    /** The effect becomes part of the history. */
    ghost method Record(op: Op)
      requires world == ExecAll(base, ops)
      modifies this`world, this`ops
      ensures world == Exec(old(world), op) && ops == old(ops) + [op] && world == ExecAll(base, ops)
    {
      ExecSnoc(base, ops, op);
      world := Exec(world, op);
      ops := ops + [op];
    }

    /** How an access ends, and whether it took effect. */
    method Fate(error: Error) returns (applied: bool, r: Attempt)
      modifies this`faults, this`raised
      ensures faults == old(faults) + if r.Done? then 0 else 1
      ensures raised == old(raised) + if r.Raised? then [error] else []
      ensures (r.Done? ==> applied) && (r.Raised? ==> r.error == error)
    {
      var fate: int :| 0 <= fate < 5;
      applied := fate < 3;
      r := if fate == 0 then Done else if fate % 2 == 1 then Raised(error) else Crashed;
      faults := faults + if r.Done? then 0 else 1;
      raised := raised + if r.Raised? then [error] else [];
    }

    /** An action is done exactly if all its accesses went well, and raises the first error that one of
        them raised. */
    twostate predicate Tally(r: Attempt)
      reads this
    {
      && old(faults) <= faults && (r.Done? <==> faults == old(faults))
      && old(raised) <= raised && (r.Done? ==> raised == old(raised))
      && (r.Raised? ==> |old(raised)| < |raised| && raised[|old(raised)|] == r.error)
    }

    /** The effect was tried.  Only a state write changes what a restart would load. */
    twostate predicate Tries(op: Op, r: Attempt)
      reads this
    {
      && Valid() && base == old(base)
      && Tried(old(ops), ops, op, r) && Tally(r) && tried == old(tried) + [op]
      && Disk(world) == (if op.SaveState? && ops != old(ops) then op.state else old(Disk(world)))
    }

    /** What a starting process finds; an error while reading looks like a damaged file. */
    method ReadState() returns (file: FileContent)
      modifies this`faults, this`raised
      ensures if faults == old(faults) then file == stateFile && raised == old(raised)
              else faults == old(faults) + 1 && raised == old(raised) + [RuntimeError] && file.Unreadable?
    {
      var failed: bool := *;
      file := if failed then Unreadable else stateFile;
      if failed {
        faults, raised := faults + 1, raised + [RuntimeError];
      }
    }

    method PutState(s: State)
      requires Valid()
      modifies this`stateFile, this`world, this`ops
      ensures Valid() && ops == old(ops) + [SaveState(s)] && Disk(world) == s
    {
      stateFile := Parsed(EncodeState(s));
      Record(SaveState(s));
    }

    method WriteState(s: State) returns (r: Attempt)
      requires Valid()
      modifies this
      ensures Tries(SaveState(s), r)
    {
      var applied: bool;
      applied, r := Fate(OsError);
      tried := tried + [SaveState(s)];
      if applied && !r.Raised? {
        PutState(s);
      }
    }

    method PutConfig(lines: seq<string>)
      requires Valid()
      modifies this`config, this`world, this`ops
      ensures Valid() && ops == old(ops) + [WriteInclude(lines)] && Disk(world) == old(Disk(world))
    {
      config := lines;
      Record(WriteInclude(lines));
    }

    method WriteConfig(lines: seq<string>) returns (r: Attempt)
      requires Valid()
      modifies this
      ensures Tries(WriteInclude(lines), r)
    {
      var applied: bool;
      applied, r := Fate(OsError);
      tried := tried + [WriteInclude(lines)];
      if applied {
        PutConfig(lines);
      }
    }

    method PutFile(zone: string, text: string, ghost p: Payload)
      requires Valid() && PrintOf(zone, text, ContentOf(p))
      modifies this`zoneFiles, this`world, this`ops
      ensures Valid() && ops == old(ops) + [WriteZoneFile(zone, p)] && Disk(world) == old(Disk(world))
    {
      ghost var contents := world.zoneFiles;
      PrintedPut(zoneFiles, contents, zone, text, ContentOf(p));
      zoneFiles := zoneFiles[zone := text];
      Record(WriteZoneFile(zone, p));
      assert world.zoneFiles == contents[zone := ContentOf(p)];
    }

    method WriteZone(zone: string, text: string, ghost p: Payload) returns (r: Attempt)
      requires Valid() && PrintOf(zone, text, ContentOf(p))
      modifies this
      ensures Tries(WriteZoneFile(zone, p), r)
    {
      var applied: bool;
      applied, r := Fate(OsError);
      tried := tried + [WriteZoneFile(zone, p)];
      if applied {
        PutFile(zone, text, p);
      }
    }

    method DropFile(zone: string)
      requires Valid()
      modifies this`zoneFiles, this`world, this`ops
      ensures Valid() && ops == old(ops) + [UnlinkZoneFile(zone)] && Disk(world) == old(Disk(world))
    {
      ghost var contents := world.zoneFiles;
      PrintedDrop(zoneFiles, contents, zone);
      zoneFiles := zoneFiles - {zone};
      Record(UnlinkZoneFile(zone));
      assert world.zoneFiles == contents - {zone};
    }

    method UnlinkZone(zone: string) returns (r: Attempt)
      requires Valid()
      modifies this
      ensures Tries(UnlinkZoneFile(zone), r)
    {
      var applied: bool;
      applied, r := Fate(OsError);
      tried := tried + [UnlinkZoneFile(zone)];
      if applied {
        DropFile(zone);
      }
    }

    /** A command concerns Knot alone. */
    ghost method RecordCommand(op: Op)
      requires Valid() && IsCommand(op)
      modifies this`world, this`ops
      ensures Valid() && ops == old(ops) + [op] && Disk(world) == old(Disk(world))
    {
      CommandKeepsFiles(world, op);
      Record(op);
    }

    /** A command that raises this error if it fails. */
    method Invoke(op: Op, error: Error) returns (r: Attempt)
      requires Valid() && IsCommand(op) && Raised(error).Genuine()
      modifies this
      ensures Tries(op, r) && (r.Raised? ==> r.error == error)
    {
      var applied: bool;
      applied, r := Fate(error);
      tried := tried + [op];
      if applied {
        RecordCommand(op);
      }
    }

    /** knotc. */
    method Command(op: Op) returns (r: Attempt)
      requires Valid() && IsCommand(op)
      modifies this
      ensures Tries(op, r) && (r.Raised? ==> r.error == CommandError)
    {
      r := Invoke(op, CommandError);
    }

    /** kzonecheck reads the file and changes nothing; its objection is an answer of its own. */
    method Check(zone: string) returns (r: Attempt)
      requires Valid()
      modifies this
      ensures Tries(CheckZoneFile(zone), r)
      ensures r.Raised? ==> r.error == ApiError(422, "invalid_zone") || r.error == CommandError
    {
      var objection: bool := *;
      r := Invoke(CheckZoneFile(zone), if objection then ApiError(422, "invalid_zone") else CommandError);
    }
  }
}
