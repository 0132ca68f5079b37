/** The three stores that cannot share a transaction, and the effects that change them.

    The files are the state file, the generated include and the per-zone files; an effect on a
    file happens whole or not at all.  Module AtomicFiles justifies this for the way they are
    written, and module Service says what a power loss can take back.  Knot is a small machine:
    served content, open zone transactions, and the journal, timer and key material it keeps of a
    zone. */
module Effects {
  import opened Journal
  import opened Wrappers
  import opened Zones

  datatype Knot = Knot(
    served: map<string, Content>,
    open: map<string, Content>,
    residue: set<string>)

  /** A zone file counts by the content that a reader of its text would load. */
  datatype World = World(
    stateFile: Option<State>,
    config: seq<string>,
    zoneFiles: map<string, Content>,
    knot: Knot)

  datatype Op =
    | SaveState(state: State)
    | WriteInclude(lines: seq<string>)
    | WriteZoneFile(zone: string, payload: Payload)
    | CheckZoneFile(zone: string)
    | UnlinkZoneFile(zone: string)
    | Reload
    | Sign(zone: string)
    | Begin(zone: string)
    | UnsetRRset(zone: string, key: Key)
    | SetRecord(zone: string, entry: Entry)
    | CommitZone(zone: string)
    | Flush(zone: string)
    | Abort(zone: string)
    | Purge(zone: string)

  /** The state that a process starting on this state file loads. */
  function Saved(file: Option<State>): State {
    match file
    case None => EMPTY
    case Some(s) => s
  }

  function Disk(w: World): State {
    Saved(w.stateFile)
  }

  /** Serves exactly the included zones: loaded ones are left alone, new ones come from their
      files, and every zone that is served leaves material behind. */
  function ReloadKnot(k: Knot, included: set<string>, files: map<string, Content>): Knot {
    var served := map z | z in included && (z in k.served || z in files)
                  :: if z in k.served then k.served[z] else files[z];
    Knot(served, map z | z in k.open && z in served :: k.open[z], k.residue + served.Keys)
  }

  /** One Knot command that takes effect. */
  function KnotEffect(k: Knot, op: Op): Knot {
    match op
    case Begin(z) => if z in k.served then k.(open := k.open[z := k.served[z]]) else k
    case UnsetRRset(z, key) =>
      if z in k.open then k.(open := k.open[z := k.open[z].(rrsets := k.open[z].rrsets - {key})]) else k
    case SetRecord(z, e) =>
      if z in k.open then k.(open := k.open[z := k.open[z].(rrsets := AddEntry(k.open[z].rrsets, e))]) else k
    case CommitZone(z) =>
      if z in k.open && z in k.served then k.(served := k.served[z := k.open[z]], open := k.open - {z}) else k
    case Abort(z) => k.(open := k.open - {z})
    case Purge(z) => k.(residue := k.residue - {z})
    case _ => k
  }

  function Exec(w: World, op: Op): World {
    match op
    case SaveState(s) => w.(stateFile := Some(s))
    case WriteInclude(lines) => w.(config := lines)
    case WriteZoneFile(z, p) => w.(zoneFiles := w.zoneFiles[z := ContentOf(p)])
    case CheckZoneFile(_) => w
    case UnlinkZoneFile(z) => w.(zoneFiles := w.zoneFiles - {z})
    case Reload => w.(knot := ReloadKnot(w.knot, IncludedZones(w.config), w.zoneFiles))
    case _ => w.(knot := KnotEffect(w.knot, op))
  }

  function ExecAll(w: World, ops: seq<Op>): World {
    if ops == [] then w else Exec(ExecAll(w, ops[..|ops| - 1]), ops[|ops| - 1])
  }

  lemma ExecSnoc(w: World, ops: seq<Op>, op: Op)
    ensures ExecAll(w, ops + [op]) == Exec(ExecAll(w, ops), op)
  {
    assert (ops + [op])[..|ops|] == ops;
  }

  lemma {:induction false} ExecAppend(w: World, a: seq<Op>, b: seq<Op>)
    ensures ExecAll(w, a + b) == ExecAll(ExecAll(w, a), b)
  {
    if b == [] {
      assert a + b == a;
    } else {
      var n := |b| - 1;
      assert (a + b)[..|a + b| - 1] == a + b[..n];
      ExecAppend(w, a, b[..n]);
    }
  }
}
