/** The external BGP metrics agent: the maps it keeps of its sources and of the bgp.tools table. */
module BgpAgent {
  import opened Json
  import opened Ordering
  import opened Wrappers

  // ----- the sources -----

  /** The status of a source; a time of zero means that there was none. */
  datatype Source = Source(up: bool, message: string, lastSuccess: real, lastError: real)

  type Sources = map<string, Source>

  /** One outcome of polling a source. */
  datatype Outcome = Outcome(name: string, ok: bool, message: string, time: real)

  function SetSource(sources: Sources, o: Outcome): Sources {
    var known := if o.name in sources then sources[o.name] else Source(false, "", 0.0, 0.0);
    sources[o.name := Source(o.ok, o.message,
                             if o.ok then o.time else known.lastSuccess,
                             if o.ok then known.lastError else o.time)]
  }

  function SetSources(sources: Sources, outcomes: seq<Outcome>): Sources {
    if outcomes == [] then sources
    else SetSource(SetSources(sources, outcomes[..|outcomes| - 1]), outcomes[|outcomes| - 1])
  }

  /** Outcome number i is the latest of its kind; without one the time is zero. */
  ghost predicate IsLatest(outcomes: seq<Outcome>, name: string, ok: bool, time: real) {
    if exists o :: o in outcomes && o.name == name && o.ok == ok then
      exists i | 0 <= i < |outcomes| ::
        && outcomes[i] == Outcome(name, ok, outcomes[i].message, time)
        && forall j | i < j < |outcomes| :: outcomes[j].name != name || outcomes[j].ok != ok
    else time == 0.0
  }

  /** What the status of a source says of all that has happened to it. */
  ghost predicate Summarises(s: Source, outcomes: seq<Outcome>, name: string) {
    && IsLatest(outcomes, name, true, s.lastSuccess)
    && IsLatest(outcomes, name, false, s.lastError)
    && exists i | 0 <= i < |outcomes| ::
         && outcomes[i].name == name && outcomes[i].ok == s.up && outcomes[i].message == s.message
         && forall j | i < j < |outcomes| :: outcomes[j].name != name
  }

  lemma LatestSnoc(outcomes: seq<Outcome>, o: Outcome, name: string, ok: bool, time: real)
    requires IsLatest(outcomes, name, ok, time)
    ensures IsLatest(outcomes + [o], name, ok, if o.name == name && o.ok == ok then o.time else time)
  {
    var all := outcomes + [o];
    if o.name == name && o.ok == ok {
      assert all[|outcomes|] == Outcome(name, ok, all[|outcomes|].message, o.time);
      assert o in all;
    } else if exists p :: p in outcomes && p.name == name && p.ok == ok {
      var i :| 0 <= i < |outcomes| && outcomes[i] == Outcome(name, ok, outcomes[i].message, time)
               && forall j | i < j < |outcomes| :: outcomes[j].name != name || outcomes[j].ok != ok;
      assert all[i] == Outcome(name, ok, all[i].message, time);
      assert all[i] in all;
    }
  }

  lemma NoneYet(outcomes: seq<Outcome>, name: string)
    requires forall o | o in outcomes :: o.name != name
    ensures IsLatest(outcomes, name, true, 0.0) && IsLatest(outcomes, name, false, 0.0)
  {
  }

  lemma SummarySnoc(s: Source, outcomes: seq<Outcome>, o: Outcome, name: string)
    requires o.name != name && Summarises(s, outcomes, name)
    ensures Summarises(s, outcomes + [o], name)
  {
    LatestSnoc(outcomes, o, name, true, s.lastSuccess);
    LatestSnoc(outcomes, o, name, false, s.lastError);
    var all := outcomes + [o];
    var i :| 0 <= i < |outcomes| && outcomes[i].name == name && outcomes[i].ok == s.up
        && outcomes[i].message == s.message
             && forall j | i < j < |outcomes| :: outcomes[j].name != name;
    assert all[i].name == name && all[i].ok == s.up && all[i].message == s.message;
  }

  lemma SummaryFresh(lastSuccess: real, lastError: real, outcomes: seq<Outcome>, o: Outcome)
    requires IsLatest(outcomes, o.name, true, lastSuccess) && IsLatest(outcomes, o.name, false, lastError)
    ensures var success, error := if o.ok then o.time else lastSuccess, if o.ok then lastError else o.time;
            Summarises(Source(o.ok, o.message, success, error), outcomes + [o], o.name)
  {
    LatestSnoc(outcomes, o, o.name, true, lastSuccess);
    LatestSnoc(outcomes, o, o.name, false, lastError);
    assert (outcomes + [o])[|outcomes|] == o;
  }

  /** After any history, whatever the clock says, the sources are those that had an outcome, and the
      status of each gives the last outcome and the times of the latest success and failure. */
  lemma {:induction false} HistorySummary(outcomes: seq<Outcome>, name: string)
    ensures name in SetSources(map[], outcomes) <==> exists o :: o in outcomes && o.name == name
    ensures name in SetSources(map[], outcomes) ==> Summarises(SetSources(map[], outcomes)[name], outcomes, name)
  {
    if outcomes != [] {
      var init, o := outcomes[..|outcomes| - 1], outcomes[|outcomes| - 1];
      var before := SetSources(map[], init);
      HistorySummary(init, name);
      assert outcomes == init + [o];
      if o.name == name {
        if name in before {
          SummaryFresh(before[name].lastSuccess, before[name].lastError, init, o);
        } else {
          NoneYet(init, name);
          SummaryFresh(0.0, 0.0, init, o);
        }
      } else if name in before {
        SummarySnoc(before[name], init, o, name);
      }
    }
  }

  // ----- the table -----

  /** One line of the download: its text, and what json.loads makes of it, if anything. */
  datatype Line = Line(text: string, parsed: Option<Json>)

  datatype Row = Row(cidr: string, asn: int, hits: int)

  datatype Reading = Skipped | Raises | Reads(row: Row)

  predicate Mentions(text: string, prefix: string) {
    exists i | 0 <= i <= |text| :: prefix <= text[i..]
  }

  /** The text contains the prefix, wherever it stands. */
  lemma MentionsIff(text: string, prefix: string)
    ensures Mentions(text, prefix) <==> exists a, b :: text == a + prefix + b
  {
    if i :| 0 <= i <= |text| && prefix <= text[i..] {
      assert text == text[..i] + prefix + text[i + |prefix|..];
    }
    if a, b :| text == a + prefix + b {
      assert text[|a|..] == prefix + b && prefix <= text[|a|..];
    }
  }

  predicate MentionsWanted(wanted: set<string>, line: Line) {
    exists prefix | prefix in wanted :: Mentions(line.text, prefix)
  }

  /** A line counts if it mentions a wanted prefix and its CIDR is one.  It raises if it cannot be
      parsed, is no object, has an unhashable CIDR, or carries numbers that int() refuses. */
  function ReadLine(wanted: set<string>, line: Line): Reading {
    if !MentionsWanted(wanted, line) then Skipped
    else
      match line.parsed
      case Some(JObj(fields)) => ReadRow(wanted, fields)
      case _ => Raises
  }

  function ReadRow(wanted: set<string>, fields: map<string, Json>): Reading {
    match Get(fields, "CIDR", JNull)
    case JStr(cidr) =>
      if cidr !in wanted then Skipped
      else
        var asn, hits := AsInt(Get(fields, "ASN", JInt(0))), AsInt(Get(fields, "Hits", JInt(0)));
        if asn.Some? && hits.Some? then Reads(Row(cidr, asn.value, hits.value)) else Raises
    case JList(_) => Raises
    case JObj(_) => Raises
    case _ => Skipped
  }

  /** The rows that count, unless some line raises. */
  function RowsOf(wanted: set<string>, lines: seq<Line>): (r: Option<seq<Row>>)
    ensures r.Some? ==> forall row | row in r.value :: row.cidr in wanted
  {
    if lines == [] then Some([])
    else
      match RowsOf(wanted, lines[..|lines| - 1])
      case None => None
      case Some(rows) =>
        match ReadLine(wanted, lines[|lines| - 1])
        case Skipped => Some(rows)
        case Raises => None
        case Reads(row) => Some(rows + [row])
  }

  /** The parsed line is a row of a wanted prefix, whatever its text looks like. */
  predicate IsWantedRow(wanted: set<string>, line: Line) {
    && line.parsed.Some? && line.parsed.value.JObj?
    && var cidr := Get(line.parsed.value.fields, "CIDR", JNull); cidr.JStr? && cidr.s in wanted
  }

  lemma {:induction false} RowsContain(wanted: set<string>, lines: seq<Line>, i: nat)
    requires RowsOf(wanted, lines).Some? && i < |lines|
    ensures match ReadLine(wanted, lines[i])
            case Reads(row) => row in RowsOf(wanted, lines).value
            case reading => reading.Skipped?
  {
    if i < |lines| - 1 {
      RowsContain(wanted, lines[..|lines| - 1], i);
    }
  }

  /** A row of a wanted prefix is counted exactly if the text of its line mentions a wanted prefix:
      the filter looks at the text before it is parsed. */
  lemma RowsKept(wanted: set<string>, lines: seq<Line>, i: nat)
    requires RowsOf(wanted, lines).Some? && i < |lines| && IsWantedRow(wanted, lines[i])
    ensures var fields := lines[i].parsed.value.fields;
            var asn, hits := AsInt(Get(fields, "ASN", JInt(0))), AsInt(Get(fields, "Hits", JInt(0)));
            if MentionsWanted(wanted, lines[i]) then
              && asn.Some? && hits.Some?
              && Row(Get(fields, "CIDR", JNull).s, asn.value, hits.value) in RowsOf(wanted, lines).value
            else ReadLine(wanted, lines[i]).Skipped?
  {
    RowsContain(wanted, lines, i);
  }

  lemma OneSolidus(before: string, after: string)
    requires '/' !in before && '/' !in after
    ensures var text := before + ['\\', '/'] + after;
            forall k | 0 <= k < |text| && text[k] == '/' :: k == |before| + 1 && text[k - 1] == '\\'
  {
    var text := before + ['\\', '/'] + after;
    forall k | 0 <= k < |text| ensures text[k] == '/' ==> k == |before| + 1 {
      if k < |before| {
        assert text[k] == before[k];
      } else if k > |before| + 1 {
        assert text[k] == after[k - |before| - 2];
      }
    }
  }

  /** A solidus written with a backslash in front, as JSON allows, hides a prefix from the filter. */
  lemma EscapedSolidusHides(before: string, after: string, address: string, length: string)
    requires '/' !in before && '/' !in after && address != [] && address[|address| - 1] != '\\'
    ensures !Mentions(before + ['\\', '/'] + after, address + ['/'] + length)
  {
    var text, prefix, n := before + ['\\', '/'] + after, address + ['/'] + length, |address|;
    OneSolidus(before, after);
    forall i | 0 <= i <= |text| ensures !(prefix <= text[i..]) {
      if i + n < |text| {
        assert text[i..][n] == text[i + n] && text[i..][n - 1] == text[i + n - 1];
        assert prefix[n] == '/' && prefix[n - 1] == address[n - 1];
      }
    }
  }

  const PREFIX := "2a0c:b641:b50::" + ['/'] + "44"
  const HIDDEN_LINE := Line(
    "{\"CIDR\": \"2a0c:b641:b50::" + ['\\', '/'] + "44\"}",
    Some(JObj(map["CIDR" := JStr(PREFIX)])))

  /** Such a line names a wanted prefix and is lost. */
  lemma HiddenRowIsLost()
    ensures IsWantedRow({PREFIX}, HIDDEN_LINE) && RowsOf({PREFIX}, [HIDDEN_LINE]) == Some([])
  {
    EscapedSolidusHides("{\"CIDR\": \"2a0c:b641:b50::", "44\"}", "2a0c:b641:b50::", "44");
    assert [HIDDEN_LINE][..0] == [];
  }

  /** What was found of one prefix. */
  datatype Entry = Entry(origins: seq<int>, hits: map<int, int>)

  type Table = map<string, Entry>

  function AddRow(found: Table, row: Row): Table {
    var entry := if row.cidr in found then found[row.cidr] else Entry([], map[]);
    found[row.cidr := Entry(if row.asn in entry.origins then entry.origins else entry.origins + [row.asn],
                            entry.hits[row.asn := row.hits])]
  }

  function TableOf(rows: seq<Row>): Table {
    if rows == [] then map[] else AddRow(TableOf(rows[..|rows| - 1]), rows[|rows| - 1])
  }

  /** Row number i gives the hits of an origin: it is the last one for it. */
  ghost predicate LastFor(rows: seq<Row>, cidr: string, asn: int, i: nat) {
    && i < |rows| && rows[i].cidr == cidr && rows[i].asn == asn
    && forall j | i < j < |rows| :: rows[j].cidr != cidr || rows[j].asn != asn
  }

  /** The entry of a prefix gathers every origin once, with the hits that its last row gives. */
  ghost predicate Gathers(e: Entry, rows: seq<Row>, cidr: string) {
    && Distinct(e.origins) && e.hits.Keys == Elements(e.origins)
    && (forall r | r in rows && r.cidr == cidr :: r.asn in e.hits)
    && (forall asn | asn in e.hits :: exists i: nat :: LastFor(rows, cidr, asn, i) && e.hits[asn] == rows[i].hits)
  }

  lemma GathersRow(e: Entry, rows: seq<Row>, row: Row)
    requires Gathers(e, rows, row.cidr)
    ensures var origins := if row.asn in e.origins then e.origins else e.origins + [row.asn];
            Gathers(Entry(origins, e.hits[row.asn := row.hits]), rows + [row], row.cidr)
  {
    var all, hits := rows + [row], e.hits[row.asn := row.hits];
    var origins := if row.asn in e.origins then e.origins else e.origins + [row.asn];
    assert Elements(origins) == Elements(e.origins) + {row.asn};
    forall asn | asn in hits ensures exists i: nat :: LastFor(all, row.cidr, asn, i) && hits[asn] == all[i].hits {
      if asn == row.asn {
        assert LastFor(all, row.cidr, asn, |rows|);
      } else {
        var i: nat :| LastFor(rows, row.cidr, asn, i) && e.hits[asn] == rows[i].hits;
        assert LastFor(all, row.cidr, asn, i);
      }
    }
  }

  lemma GathersElsewhere(e: Entry, rows: seq<Row>, row: Row, cidr: string)
    requires Gathers(e, rows, cidr) && row.cidr != cidr
    ensures Gathers(e, rows + [row], cidr)
  {
    var all := rows + [row];
    forall asn | asn in e.hits ensures exists i: nat :: LastFor(all, cidr, asn, i) && e.hits[asn] == all[i].hits {
      var i: nat :| LastFor(rows, cidr, asn, i) && e.hits[asn] == rows[i].hits;
      assert LastFor(all, cidr, asn, i);
    }
  }

  lemma TableSnoc(rows: seq<Row>, row: Row)
    ensures TableOf(rows + [row]) == AddRow(TableOf(rows), row)
  {
  }

  ghost predicate HasEntry(table: Table, rows: seq<Row>, cidr: string) {
    && (cidr in table <==> exists r :: r in rows && r.cidr == cidr)
    && (cidr in table ==> table[cidr].origins != [] && Gathers(table[cidr], rows, cidr))
  }

  lemma AddRowKeeps(table: Table, rows: seq<Row>, row: Row, cidr: string)
    requires HasEntry(table, rows, cidr)
    ensures HasEntry(AddRow(table, row), rows + [row], cidr)
  {
    assert forall r :: r in rows + [row] <==> r in rows || r == row;
    if row.cidr == cidr {
      GathersRow(if cidr in table then table[cidr] else Entry([], map[]), rows, row);
    } else if cidr in table {
      GathersElsewhere(table[cidr], rows, row, cidr);
    }
  }

  /** The table has an entry for exactly the prefixes that have rows, and each gathers its rows. */
  lemma {:induction false} TableGathers(rows: seq<Row>, cidr: string)
    ensures HasEntry(TableOf(rows), rows, cidr)
  {
    if rows != [] {
      var init, row := rows[..|rows| - 1], rows[|rows| - 1];
      assert rows == init + [row];
      TableGathers(init, cidr);
      AddRowKeeps(TableOf(init), init, row, cidr);
      TableSnoc(init, row);
    }
  }

  // ----- the state -----

  const BGP_TOOLS := "bgp_tools"

  /** What a source says of a prefix. */
  datatype Sighting = Sighting(visible: bool, origins: seq<int>)

  type Prefixes = map<string, map<string, Sighting>>

  /** Hit counters, by prefix and origin. */
  type Hits = map<(string, int), int>

  datatype State = State(sources: Sources, prefixes: Prefixes, hits: Hits, lastFetch: real)

  const START := State(map[], map[], map[], 0.0)

  function SightingOf(found: Table, prefix: string): Sighting {
    if prefix in found then Sighting(true, found[prefix].origins) else Sighting(false, [])
  }

  function SetSighting(prefixes: Prefixes, prefix: string, source: string, seen: Sighting): Prefixes {
    prefixes[prefix := (if prefix in prefixes then prefixes[prefix] else map[])[source := seen]]
  }

  /** All wanted prefixes are brought up to date, found or not. */
  function Updated(prefixes: Prefixes, wanted: set<string>, found: Table): Prefixes {
    map p | p in prefixes.Keys + wanted ::
      if p in wanted then (if p in prefixes then prefixes[p] else map[])[BGP_TOOLS := SightingOf(found, p)]
      else prefixes[p]
  }

  /** The counters of wanted prefixes are replaced. */
  function Recounted(hits: Hits, wanted: set<string>, found: Table): Hits {
    (map k | k in hits && k.0 !in wanted :: hits[k])
    + (map p, a | p in wanted && p in found && a in found[p].hits :: (p, a) := found[p].hits[a])
  }

  /** One call of poll_bgp_tools: the clock at its gate, the lines read, whether the stream broke
      off, and the clock when the outcome was recorded and when the call was over. */
  datatype Poll = Poll(start: real, lines: seq<Line>, broken: bool, message: string, recorded: real, finished: real)

  datatype Settings = Settings(wanted: set<string>, interval: real)

  predicate Gated(c: Settings, s: State, p: Poll) {
    p.start - s.lastFetch < c.interval
  }

  /** The rows of a download that ends well. */
  function Downloaded(c: Settings, p: Poll): Option<seq<Row>> {
    if p.broken then None else RowsOf(c.wanted, p.lines)
  }

  function OutcomeOf(c: Settings, p: Poll): Outcome {
    if Downloaded(c, p).Some? then Outcome(BGP_TOOLS, true, "", p.recorded)
    else Outcome(BGP_TOOLS, false, p.message, p.recorded)
  }

  function AfterPoll(c: Settings, s: State, p: Poll): State {
    if Gated(c, s, p) then s
    else
      var sources := SetSource(s.sources, OutcomeOf(c, p));
      match Downloaded(c, p)
      case None => s.(sources := sources)
      case Some(rows) =>
        State(sources, Updated(s.prefixes, c.wanted, TableOf(rows)), Recounted(s.hits, c.wanted, TableOf(rows)),
            p.finished)
  }

  /** What happens to the agent: a poll of the table, an outcome of another source, or what
      another source says of a prefix. */
  datatype Event =
    | Polled(poll: Poll)
    | Recorded(outcome: Outcome)
    | Sighted(prefix: string, source: string, seen: Sighting)

  function Step(c: Settings, s: State, e: Event): State {
    match e
    case Polled(p) => AfterPoll(c, s, p)
    case Recorded(o) => s.(sources := SetSource(s.sources, o))
    case Sighted(prefix, source, seen) => s.(prefixes := SetSighting(s.prefixes, prefix, source, seen))
  }

  function Run(c: Settings, events: seq<Event>): State {
    if events == [] then START else Step(c, Run(c, events[..|events| - 1]), events[|events| - 1])
  }

  /** Other sources write under their own names. */
  ghost predicate Foreign(e: Event) {
    (e.Sighted? ==> e.source != BGP_TOOLS)
  }

  /** The origins that the agent holds for a prefix from the table. */
  function OriginsOf(s: State, prefix: string): seq<int> {
    if prefix in s.prefixes && BGP_TOOLS in s.prefixes[prefix] then s.prefixes[prefix][BGP_TOOLS].origins else []
  }

  /** The counters are exactly those of the wanted prefixes' origins; origins are listed once, and
      a prefix is visible exactly if it has one. */
  ghost predicate Agreement(c: Settings, s: State) {
    && (forall p, a :: (p, a) in s.hits <==> p in c.wanted && a in OriginsOf(s, p))
    && (forall p :: Distinct(OriginsOf(s, p)))
    && (forall p | p in s.prefixes && BGP_TOOLS in s.prefixes[p] ::
          s.prefixes[p][BGP_TOOLS].visible <==> s.prefixes[p][BGP_TOOLS].origins != [])
    && (forall p :: OriginsOf(s, p) != [] ==> p in c.wanted)
  }

  lemma UpdatedAt(prefixes: Prefixes, wanted: set<string>, found: Table, p: string)
    ensures Lookup(Updated(prefixes, wanted, found), p)
            == if p in wanted then
                 Some((if p in prefixes then prefixes[p] else map[])[BGP_TOOLS := SightingOf(found, p)])
               else Lookup(prefixes, p)
  {
  }

  lemma RecountedAt(hits: Hits, wanted: set<string>, found: Table, k: (string, int))
    ensures Lookup(Recounted(hits, wanted, found), k)
            == if k.0 !in wanted then Lookup(hits, k)
               else if k.0 in found then Lookup(found[k.0].hits, k.1) else None
  {
    var p, a := k.0, k.1;
    assert k == (p, a);
    if p in wanted && p in found && a in found[p].hits {
      assert (p, a) in Recounted(hits, wanted, found);
    }
  }

  lemma CountersOf(hits: Hits, wanted: set<string>, found: Table, prefix: string)
    requires prefix in wanted
    ensures forall a :: (prefix, a) in Recounted(hits, wanted, found) <==> prefix in found && a in found[prefix].hits
  {
    forall a ensures (prefix, a) in Recounted(hits, wanted, found) <==> prefix in found && a in found[prefix].hits {
      RecountedAt(hits, wanted, found, (prefix, a));
    }
  }

  lemma GatheredOrigins(e: Entry, rows: seq<Row>, cidr: string)
    requires Gathers(e, rows, cidr)
    ensures Elements(e.origins) == set r | r in rows && r.cidr == cidr :: r.asn
  {
    forall a | a in e.hits ensures exists r :: r in rows && r.cidr == cidr && r.asn == a {
      var i: nat :| LastFor(rows, cidr, a, i) && e.hits[a] == rows[i].hits;
      assert rows[i] in rows;
    }
  }

  lemma SightingIs(found: Table, rows: seq<Row>, prefix: string)
    requires HasEntry(found, rows, prefix)
    ensures var seen := SightingOf(found, prefix);
            && seen.visible == (exists r :: r in rows && r.cidr == prefix)
            && Distinct(seen.origins) && Elements(seen.origins) == (set r | r in rows && r.cidr == prefix :: r.asn)
            && forall a :: a in seen.origins <==> prefix in found && a in found[prefix].hits
  {
    if prefix in found {
      GatheredOrigins(found[prefix], rows, prefix);
      assert forall a :: a in found[prefix].origins <==> a in Elements(found[prefix].origins);
    }
  }

  /** What a download that ends well leaves for one prefix. */
  lemma PolledPrefix(c: Settings, s: State, p: Poll, prefix: string)
    requires !Gated(c, s, p) && Downloaded(c, p).Some? && prefix in c.wanted
    ensures var t, rows := AfterPoll(c, s, p), Downloaded(c, p).value;
            && prefix in t.prefixes && BGP_TOOLS in t.prefixes[prefix]
            && t.prefixes[prefix][BGP_TOOLS].visible == (exists r :: r in rows && r.cidr == prefix)
            && Distinct(OriginsOf(t, prefix))
            && Elements(OriginsOf(t, prefix)) == (set r | r in rows && r.cidr == prefix :: r.asn)
            && forall a :: (prefix, a) in t.hits <==> a in OriginsOf(t, prefix)
  {
    var rows := Downloaded(c, p).value;
    TableGathers(rows, prefix);
    SightingIs(TableOf(rows), rows, prefix);
    UpdatedAt(s.prefixes, c.wanted, TableOf(rows), prefix);
    CountersOf(s.hits, c.wanted, TableOf(rows), prefix);
  }

  /** The counter of an origin is the number on the last row for it. */
  lemma PolledHits(c: Settings, s: State, p: Poll, prefix: string, asn: int)
    requires !Gated(c, s, p) && Downloaded(c, p).Some? && prefix in c.wanted
    requires (prefix, asn) in AfterPoll(c, s, p).hits
    ensures exists i: nat :: LastFor(Downloaded(c, p).value, prefix, asn, i)
              && AfterPoll(c, s, p).hits[(prefix, asn)] == Downloaded(c, p).value[i].hits
  {
    TableGathers(Downloaded(c, p).value, prefix);
  }

  /** The line is a row of the prefix with this origin and number of hits, and its text contains the
      prefix. */
  ghost predicate OrdinaryRow(line: Line, prefix: string, asn: int, hits: int) {
    && line.parsed.Some? && line.parsed.value.JObj?
    && Get(line.parsed.value.fields, "CIDR", JNull) == JStr(prefix)
    && AsInt(Get(line.parsed.value.fields, "ASN", JInt(0))) == Some(asn)
    && AsInt(Get(line.parsed.value.fields, "Hits", JInt(0))) == Some(hits)
    && exists a, b :: line.text == a + prefix + b
  }

  lemma OrdinaryRowReads(wanted: set<string>, line: Line, prefix: string, asn: int, hits: int)
    requires prefix in wanted && OrdinaryRow(line, prefix, asn, hits)
    ensures ReadLine(wanted, line) == Reads(Row(prefix, asn, hits))
  {
    MentionsIff(line.text, prefix);
  }

  /** An ordinary line of a wanted prefix is never lost: after a download that ends well the prefix is
      visible with its origin, which has a counter. */
  lemma OrdinaryRowShows(c: Settings, s: State, p: Poll, i: nat, prefix: string, asn: int, hits: int)
    requires !Gated(c, s, p) && Downloaded(c, p).Some? && prefix in c.wanted
    requires i < |p.lines| && OrdinaryRow(p.lines[i], prefix, asn, hits)
    ensures var t := AfterPoll(c, s, p);
            && prefix in t.prefixes && BGP_TOOLS in t.prefixes[prefix] && t.prefixes[prefix][BGP_TOOLS].visible
            && asn in t.prefixes[prefix][BGP_TOOLS].origins && (prefix, asn) in t.hits
  {
    OrdinaryRowReads(c.wanted, p.lines[i], prefix, asn, hits);
    RowsContain(c.wanted, p.lines, i);
    PolledPrefix(c, s, p, prefix);
    assert Row(prefix, asn, hits) in Downloaded(c, p).value;
    assert asn in Elements(OriginsOf(AfterPoll(c, s, p), prefix));
  }

  const PLAIN_LINE := Line(
    "{\"CIDR\":\"" + PREFIX + "\",\"ASN\":215932,\"Hits\":100}",
    Some(JObj(map["CIDR" := JStr(PREFIX), "ASN" := JInt(215932), "Hits" := JInt(100)])))

  lemma OneRow(c: Settings, s: State, p: Poll, line: Line, prefix: string, asn: int, hits: int)
    requires !Gated(c, s, p) && !p.broken && p.lines == [line] && prefix in c.wanted
    requires OrdinaryRow(line, prefix, asn, hits)
    ensures var t := AfterPoll(c, s, p);
            && prefix in t.prefixes && BGP_TOOLS in t.prefixes[prefix]
            && t.prefixes[prefix][BGP_TOOLS] == Sighting(true, [asn])
            && (prefix, asn) in t.hits && t.hits[(prefix, asn)] == hits && t.lastFetch == p.finished
  {
    var row := Row(prefix, asn, hits);
    OrdinaryRowReads(c.wanted, line, prefix, asn, hits);
    assert [line][..0] == [] && [] + [row] == [row];
    assert RowsOf(c.wanted, [line]) == Some([row]);
    OrdinaryRowShows(c, s, p, 0, prefix, asn, hits);
    PolledPrefix(c, s, p, prefix);
    PolledHits(c, s, p, prefix, asn);
    OneOrigin(OriginsOf(AfterPoll(c, s, p), prefix), [row], prefix, asn);
  }

  lemma OneOrigin(origins: seq<int>, rows: seq<Row>, prefix: string, asn: int)
    requires Distinct(origins) && Elements(origins) == (set r | r in rows && r.cidr == prefix :: r.asn)
    requires |rows| == 1 && rows[0].cidr == prefix && rows[0].asn == asn
    ensures origins == [asn]
  {
    assert rows[0] in rows && asn in Elements(origins);
    forall k | 0 <= k < |origins| ensures origins[k] == asn {
      assert origins[k] in Elements(origins);
    }
    assert origins != [] && origins[0] == origins[|origins| - 1];
  }

  lemma PlainLineIsOrdinary()
    ensures OrdinaryRow(PLAIN_LINE, PREFIX, 215932, 100)
  {
    assert PLAIN_LINE.text == "{\"CIDR\":\"" + PREFIX + "\",\"ASN\":215932,\"Hits\":100}";
    assert |"CIDR"| == |"Hits"| && "CIDR"[0] != "Hits"[0];
  }

  /** For example, with the one line that bgp.tools has of the prefix when all is well. */
  lemma PlainRowShows(c: Settings, s: State, p: Poll)
    requires !Gated(c, s, p) && !p.broken && p.lines == [PLAIN_LINE] && PREFIX in c.wanted
    ensures var t := AfterPoll(c, s, p);
            && PREFIX in t.prefixes && BGP_TOOLS in t.prefixes[PREFIX]
            && t.prefixes[PREFIX][BGP_TOOLS] == Sighting(true, [215932])
            && (PREFIX, 215932) in t.hits && t.hits[(PREFIX, 215932)] == 100 && t.lastFetch == p.finished
  {
    PlainLineIsOrdinary();
    OneRow(c, s, p, PLAIN_LINE, PREFIX, 215932, 100);
  }

  lemma SameMaps(c: Settings, s: State, p: Poll)
    requires Gated(c, s, p) || Downloaded(c, p).None?
    ensures var t := AfterPoll(c, s, p);
            t.prefixes == s.prefixes && t.hits == s.hits && t.lastFetch == s.lastFetch
  {
  }

  /** A poll that is gated, fails to connect, breaks off or meets a bad line anywhere changes no
      prefix and no counter, and may be repeated at once. */
  lemma FailedPollChangesNoMap(c: Settings, s: State, p: Poll)
    requires Gated(c, s, p) || p.broken || exists i | 0 <= i < |p.lines| :: ReadLine(c.wanted, p.lines[i]).Raises?
    ensures var t := AfterPoll(c, s, p);
            t.prefixes == s.prefixes && t.hits == s.hits && t.lastFetch == s.lastFetch
  {
    if !Gated(c, s, p) && !p.broken {
      var i :| 0 <= i < |p.lines| && ReadLine(c.wanted, p.lines[i]).Raises?;
      RaisesAt(c.wanted, p.lines, i);
    }
  }

  lemma CountersKept(hits: Hits, wanted: set<string>, found: Table, prefix: string)
    requires prefix !in wanted
    ensures forall a :: (prefix, a) in Recounted(hits, wanted, found) <==> (prefix, a) in hits
  {
    forall a ensures (prefix, a) in Recounted(hits, wanted, found) <==> (prefix, a) in hits {
      RecountedAt(hits, wanted, found, (prefix, a));
    }
  }

  lemma UpdatedKeeps(prefixes: Prefixes, wanted: set<string>, found: Table, p: string)
    requires p !in wanted
    ensures p in Updated(prefixes, wanted, found) <==> p in prefixes
    ensures p in prefixes ==> Updated(prefixes, wanted, found)[p] == prefixes[p]
  {
    UpdatedAt(prefixes, wanted, found, p);
  }

  lemma PollKeepsOthers(c: Settings, s: State, p: Poll, prefix: string)
    requires prefix !in c.wanted
    ensures var t := AfterPoll(c, s, p);
            && (prefix in t.prefixes <==> prefix in s.prefixes)
            && (prefix in s.prefixes ==> t.prefixes[prefix] == s.prefixes[prefix])
            && forall a :: (prefix, a) in t.hits <==> (prefix, a) in s.hits
  {
    if !Gated(c, s, p) && Downloaded(c, p).Some? {
      UpdatedKeeps(s.prefixes, c.wanted, TableOf(Downloaded(c, p).value), prefix);
      CountersKept(s.hits, c.wanted, TableOf(Downloaded(c, p).value), prefix);
    }
  }

  lemma PolledAgrees(c: Settings, s: State, p: Poll, prefix: string)
    requires Agreement(c, s) && !Gated(c, s, p) && Downloaded(c, p).Some?
    ensures var t := AfterPoll(c, s, p);
            && Distinct(OriginsOf(t, prefix)) && (OriginsOf(t, prefix) != [] ==> prefix in c.wanted)
            && forall a :: (prefix, a) in t.hits <==> prefix in c.wanted && a in OriginsOf(t, prefix)
  {
    if prefix in c.wanted {
      PolledPrefix(c, s, p, prefix);
    } else {
      PollKeepsOthers(c, s, p, prefix);
      assert OriginsOf(AfterPoll(c, s, p), prefix) == OriginsOf(s, prefix);
    }
  }

  lemma PollKeepsAgreement(c: Settings, s: State, p: Poll)
    requires Agreement(c, s) && !Gated(c, s, p) && Downloaded(c, p).Some?
    ensures Agreement(c, AfterPoll(c, s, p))
  {
    var t := AfterPoll(c, s, p);
    forall prefix
      ensures Distinct(OriginsOf(t, prefix))
      ensures OriginsOf(t, prefix) != [] ==> prefix in c.wanted
      ensures forall a :: (prefix, a) in t.hits <==> prefix in c.wanted && a in OriginsOf(t, prefix)
    {
      PolledAgrees(c, s, p, prefix);
    }
    forall prefix | prefix in t.prefixes && BGP_TOOLS in t.prefixes[prefix]
      ensures t.prefixes[prefix][BGP_TOOLS].visible <==> t.prefixes[prefix][BGP_TOOLS].origins != []
    {
      PolledVisible(c, s, p, prefix);
    }
  }

  lemma PolledVisible(c: Settings, s: State, p: Poll, prefix: string)
    requires Agreement(c, s) && !Gated(c, s, p) && Downloaded(c, p).Some?
    requires var t := AfterPoll(c, s, p); prefix in t.prefixes && BGP_TOOLS in t.prefixes[prefix]
    ensures var seen := AfterPoll(c, s, p).prefixes[prefix][BGP_TOOLS]; seen.visible <==> seen.origins != []
  {
    if prefix in c.wanted {
      TableGathers(Downloaded(c, p).value, prefix);
    } else {
      PollKeepsOthers(c, s, p, prefix);
    }
  }

  lemma StepKeepsAgreement(c: Settings, s: State, e: Event)
    requires Agreement(c, s) && Foreign(e)
    ensures Agreement(c, Step(c, s, e))
  {
    match e
    case Polled(p) =>
      if !Gated(c, s, p) && Downloaded(c, p).Some? {
        PollKeepsAgreement(c, s, p);
      } else {
        SameMaps(c, s, p);
        SameAgreement(c, s, AfterPoll(c, s, p));
      }
    case Recorded(o) => SameAgreement(c, s, Step(c, s, e));
    case Sighted(prefix, source, seen) => SightingKeepsAgreement(c, s, prefix, source, seen);
  }

  lemma SameAgreement(c: Settings, s: State, t: State)
    requires Agreement(c, s) && t.prefixes == s.prefixes && t.hits == s.hits
    ensures Agreement(c, t)
  {
    assert forall p :: OriginsOf(t, p) == OriginsOf(s, p);
  }

  lemma SightingKeepsAgreement(c: Settings, s: State, prefix: string, source: string, seen: Sighting)
    requires Agreement(c, s) && source != BGP_TOOLS
    ensures Agreement(c, s.(prefixes := SetSighting(s.prefixes, prefix, source, seen)))
  {
    var t := s.(prefixes := SetSighting(s.prefixes, prefix, source, seen));
    forall p ensures OriginsOf(t, p) == OriginsOf(s, p) {
    }
  }

  /** Agreement of the maps, after every run. */
  lemma {:induction false} RunAgrees(c: Settings, events: seq<Event>)
    requires forall e | e in events :: Foreign(e)
    ensures Agreement(c, Run(c, events))
  {
    if events != [] {
      var n := |events| - 1;
      RunAgrees(c, events[..n]);
      StepKeepsAgreement(c, Run(c, events[..n]), events[n]);
    }
  }

  // ----- the history of a run -----

  /** The outcome that an event records, if any. */
  function OutcomesOf(c: Settings, s: State, e: Event): seq<Outcome> {
    match e
    case Polled(p) => if Gated(c, s, p) then [] else [OutcomeOf(c, p)]
    case Recorded(o) => [o]
    case Sighted(_, _, _) => []
  }

  function History(c: Settings, events: seq<Event>): seq<Outcome> {
    if events == [] then []
    else
      var n := |events| - 1;
      History(c, events[..n]) + OutcomesOf(c, Run(c, events[..n]), events[n])
  }

  lemma SetSourcesSnoc(sources: Sources, outcomes: seq<Outcome>, o: Outcome)
    ensures SetSources(sources, outcomes + [o]) == SetSource(SetSources(sources, outcomes), o)
  {
  }

  lemma StepRecords(c: Settings, s: State, e: Event)
    ensures var more := OutcomesOf(c, s, e);
            || (more == [] && Step(c, s, e).sources == s.sources)
            || (|more| == 1 && Step(c, s, e).sources == SetSource(s.sources, more[0]))
  {
  }

  lemma {:induction false} RunRecordsHistory(c: Settings, events: seq<Event>)
    ensures Run(c, events).sources == SetSources(map[], History(c, events))
  {
    if events != [] {
      var n := |events| - 1;
      RunRecordsHistory(c, events[..n]);
      var init, s := History(c, events[..n]), Run(c, events[..n]);
      var more := OutcomesOf(c, s, events[n]);
      StepRecords(c, s, events[n]);
      if more == [] {
        assert init + more == init;
      } else {
        assert more == [more[0]];
        SetSourcesSnoc(map[], init, more[0]);
      }
    }
  }

  /** After every run the status of each source sums up all that was recorded of it. */
  lemma RunSummarises(c: Settings, events: seq<Event>, name: string)
    ensures var sources, history := Run(c, events).sources, History(c, events);
            && (name in sources <==> exists o :: o in history && o.name == name)
            && (name in sources ==> Summarises(sources[name], history, name))
  {
    RunRecordsHistory(c, events);
    HistorySummary(History(c, events), name);
  }

  // ----- the rate of downloads -----

  /** Event number i is a download that ends well. */
  ghost predicate Fetches(c: Settings, events: seq<Event>, i: nat) {
    && i < |events| && events[i].Polled?
    && !Gated(c, Run(c, events[..i]), events[i].poll) && Downloaded(c, events[i].poll).Some?
  }

  /** Within a poll the clock does not go back. */
  ghost predicate Forward(e: Event) {
    e.Polled? ==> e.poll.start <= e.poll.finished
  }

  lemma {:induction false} LastFetchIs(c: Settings, events: seq<Event>, i: nat, n: nat)
    requires i < n <= |events| && Fetches(c, events, i)
    requires forall j | i < j < n :: !Fetches(c, events, j)
    ensures Run(c, events[..n]).lastFetch == events[i].poll.finished
  {
    assert events[..n][..n - 1] == events[..n - 1];
    if i < n - 1 {
      LastFetchIs(c, events, i, n - 1);
      assert !Fetches(c, events, n - 1);
      if events[n - 1].Polled? {
        SameMaps(c, Run(c, events[..n - 1]), events[n - 1].poll);
      }
    }
  }

  /** Two downloads that end well, one after the other, are over at least the interval apart. */
  lemma FetchesAreSpaced(c: Settings, events: seq<Event>, i: nat, k: nat)
    requires i < k && Fetches(c, events, i) && Fetches(c, events, k)
    requires forall j | i < j < k :: !Fetches(c, events, j)
    requires Forward(events[k])
    ensures events[k].poll.start - events[i].poll.finished >= c.interval
    ensures events[k].poll.finished - events[i].poll.finished >= c.interval
  {
    LastFetchIs(c, events, i, k);
  }

  /** A poll is let through, and a good download counts, exactly when the interval has passed since the
      end of the last good download, or since time zero if there was none. */
  lemma FetchesIff(c: Settings, events: seq<Event>, k: nat, last: real)
    requires k < |events| && events[k].Polled? && Downloaded(c, events[k].poll).Some?
    requires || (last == 0.0 && forall j: nat | j < k :: !Fetches(c, events, j))
             || (exists i: nat :: i < k && Fetches(c, events, i) && events[i].poll.finished == last
                                  && forall j: nat | i < j < k :: !Fetches(c, events, j))
    ensures Fetches(c, events, k) <==> events[k].poll.start - last >= c.interval
  {
    if i: nat :| i < k && Fetches(c, events, i) && events[i].poll.finished == last
                 && forall j: nat | i < j < k :: !Fetches(c, events, j) {
      LastFetchIs(c, events, i, k);
    } else {
      NoFetchYet(c, events, k);
    }
  }

  lemma {:induction false} NoFetchYet(c: Settings, events: seq<Event>, n: nat)
    requires n <= |events| && forall j: nat | j < n :: !Fetches(c, events, j)
    ensures Run(c, events[..n]).lastFetch == 0.0
  {
    if n > 0 {
      var k := n - 1;
      assert events[..n][..k] == events[..k];
      NoFetchYet(c, events, k);
      assert !Fetches(c, events, k);
      if events[k].Polled? {
        SameMaps(c, Run(c, events[..k]), events[k].poll);
      }
    }
  }

  // ----- the agent -----

  /** The rows of the stream so far are gathered, in a table of the call's own. */
  method ReadTable(wanted: set<string>, lines: seq<Line>) returns (found: Option<Table>)
    ensures found == match RowsOf(wanted, lines) { case None => None case Some(rows) => Some(TableOf(rows)) }
  {
    var table: Table := map[];
    ghost var rows: seq<Row> := [];
    for i := 0 to |lines|
      invariant RowsOf(wanted, lines[..i]) == Some(rows) && table == TableOf(rows)
    {
      assert lines[..i + 1][..i] == lines[..i];
      var reading := ReadLine(wanted, lines[i]);
      match reading
      case Raises =>
        RaisesAt(wanted, lines, i);
        return None;
      case Skipped =>
      case Reads(row) =>
        var origins, hits := [], map[];
        if row.cidr in table {
          origins, hits := table[row.cidr].origins, table[row.cidr].hits;
        }
        if row.asn !in origins {
          origins := origins + [row.asn];
        }
        TableSnoc(rows, row);
        rows := rows + [row];
        table := table[row.cidr := Entry(origins, hits[row.asn := row.hits])];
    }
    assert lines[..|lines|] == lines;
    return Some(table);
  }

  lemma {:induction false} RaisesAt(wanted: set<string>, lines: seq<Line>, i: nat)
    requires i < |lines| && ReadLine(wanted, lines[i]).Raises?
    ensures RowsOf(wanted, lines) == None
  {
    if i < |lines| - 1 {
      RaisesAt(wanted, lines[..|lines| - 1], i);
    }
  }

  class Agent {
    const settings: Settings
    var sources: Sources
    var prefixes: Prefixes
    var hits: Hits
    var lastFetch: real

    ghost function View(): State
      reads this
    {
      State(sources, prefixes, hits, lastFetch)
    }

    constructor (settings: Settings)
      ensures this.settings == settings && View() == START
    {
      this.settings := settings;
      sources, prefixes, hits, lastFetch := map[], map[], map[], 0.0;
    }

    method RecordOutcome(name: string, ok: bool, message: string, now: real)
      modifies this`sources
      ensures View() == Step(settings, old(View()), Recorded(Outcome(name, ok, message, now)))
    {
      var source := Source(ok, message, if ok then now else 0.0, if ok then 0.0 else now);
      if name in sources {
        var known := sources[name];
        if ok && known.lastError != 0.0 {
          source := source.(lastError := known.lastError);
        }
        if !ok && known.lastSuccess != 0.0 {
          source := source.(lastSuccess := known.lastSuccess);
        }
      }
      sources := sources[name := source];
    }

    method RecordSighting(prefix: string, source: string, seen: Sighting)
      modifies this`prefixes
      ensures View() == Step(settings, old(View()), Sighted(prefix, source, seen))
    {
      prefixes := prefixes[prefix := (if prefix in prefixes then prefixes[prefix] else map[])[source := seen]];
    }

    /** Deletes the counters of one prefix. */
    method DropStale(prefix: string)
      modifies this`hits
      ensures hits == map k | k in old(hits) && k.0 != prefix :: old(hits)[k]
    {
      var stale := set k | k in hits && k.0 == prefix;
      while stale != {}
        invariant stale <= hits.Keys && forall k | k in stale :: k.0 == prefix
        invariant forall k :: k in hits <==> k in old(hits) && (k.0 == prefix ==> k in stale)
        invariant forall k | k in hits :: hits[k] == old(hits)[k]
      {
        var k :| k in stale;
        hits := hits - {k};
        stale := stale - {k};
      }
    }

    /** Adds the counters of one prefix. */
    method AddHits(prefix: string, counts: map<int, int>)
      modifies this`hits
      ensures hits == old(hits) + map a | a in counts :: (prefix, a) := counts[a]
    {
      var rest := counts.Items;
      while rest != {}
        invariant rest <= counts.Items
        invariant forall k :: k in hits <==>
          k in old(hits) || (k.0 == prefix && k.1 in counts && (k.1, counts[k.1]) !in rest)
        invariant forall k | k in hits ::
          hits[k] == if k.0 == prefix && k.1 in counts && (k.1, counts[k.1]) !in rest then counts[k.1] else old(hits)[k]
      {
        var item :| item in rest;
        hits := hits[(prefix, item.0) := item.1];
        rest := rest - {item};
      }
    }

    /** Stale counters of one prefix out, new ones in. */
    method ReplaceHits(prefix: string, found: Table)
      modifies this`hits
      ensures hits == Recounted(old(hits), {prefix}, found)
    {
      DropStale(prefix);
      ghost var dropped := hits;
      if prefix in found {
        AddHits(prefix, found[prefix].hits);
      }
      RecountedOne(old(hits), prefix, found, dropped, hits);
    }

    /** Brings one wanted prefix up to date, whether it was found or not. */
    method ReplacePrefix(prefix: string, found: Table)
      modifies this`prefixes, this`hits
      ensures prefixes == Updated(old(prefixes), {prefix}, found) && hits == Recounted(old(hits), {prefix}, found)
    {
      RecordSighting(prefix, BGP_TOOLS, SightingOf(found, prefix));
      UpdatedOne(old(prefixes), prefix, found);
      ReplaceHits(prefix, found);
    }

    /** Every wanted prefix, not just those that were found. */
    method UpdateAll(found: Table)
      modifies this`prefixes, this`hits
      ensures prefixes == Updated(old(prefixes), settings.wanted, found)
      ensures hits == Recounted(old(hits), settings.wanted, found)
    {
      var rest := settings.wanted;
      NothingDone(prefixes, hits, found);
      assert settings.wanted - rest == {};
      while rest != {}
        invariant rest <= settings.wanted
        invariant prefixes == Updated(old(prefixes), settings.wanted - rest, found)
        invariant hits == Recounted(old(hits), settings.wanted - rest, found)
      {
        var prefix :| prefix in rest;
        ghost var finished := settings.wanted - rest;
        ReplacePrefix(prefix, found);
        UpdatedNext(old(prefixes), finished, prefix, found);
        RecountedNext(old(hits), finished, prefix, found);
        rest := rest - {prefix};
        assert settings.wanted - rest == finished + {prefix};
      }
      assert settings.wanted - rest == settings.wanted;
    }

    method PollBgpTools(p: Poll)
      modifies this
      ensures View() == Step(settings, old(View()), Polled(p))
    {
      if p.start - lastFetch < settings.interval {
        return;
      }
      var found := ReadTable(settings.wanted, p.lines);
      if p.broken || found.None? {
        RecordOutcome(BGP_TOOLS, false, p.message, p.recorded);
        return;
      }
      UpdateAll(found.value);
      RecordOutcome(BGP_TOOLS, true, "", p.recorded);
      lastFetch := p.finished;
    }
  }

  lemma SameLookups<K(!new), V>(a: map<K, V>, b: map<K, V>)
    requires forall k: K :: Lookup(a, k) == Lookup(b, k)
    ensures a == b
  {
    forall k ensures k in a <==> k in b {
      assert Lookup(a, k) == Lookup(b, k);
    }
    forall k | k in a ensures a[k] == b[k] {
      assert Lookup(a, k) == Lookup(b, k);
    }
  }

  lemma UpdatedNext(prefixes: Prefixes, finished: set<string>, prefix: string, found: Table)
    requires prefix !in finished
    ensures Updated(Updated(prefixes, finished, found), {prefix}, found)
            == Updated(prefixes, finished + {prefix}, found)
  {
  }

  lemma RecountedNext(hits: Hits, finished: set<string>, prefix: string, found: Table)
    requires prefix !in finished
    ensures Recounted(Recounted(hits, finished, found), {prefix}, found) == Recounted(hits, finished + {prefix}, found)
  {
    var mid := Recounted(hits, finished, found);
    var a, b := Recounted(mid, {prefix}, found), Recounted(hits, finished + {prefix}, found);
    forall k ensures Lookup(a, k) == Lookup(b, k) {
      RecountedAt(mid, {prefix}, found, k);
      RecountedAt(hits, finished, found, k);
      RecountedAt(hits, finished + {prefix}, found, k);
    }
    SameLookups(a, b);
  }

  /** Stale counters out and new ones in make the recount of one prefix. */
  lemma RecountedOne(hits: Hits, prefix: string, found: Table, dropped: Hits, added: Hits)
    requires dropped == map k | k in hits && k.0 != prefix :: hits[k]
    requires added == if prefix in found then
                        dropped + map a | a in found[prefix].hits :: (prefix, a) := found[prefix].hits[a]
                      else dropped
    ensures added == Recounted(hits, {prefix}, found)
  {
    forall k ensures Lookup(added, k) == Lookup(Recounted(hits, {prefix}, found), k) {
      RecountedAt(hits, {prefix}, found, k);
    }
    SameLookups(added, Recounted(hits, {prefix}, found));
  }

  lemma UpdatedOne(prefixes: Prefixes, prefix: string, found: Table)
    ensures SetSighting(prefixes, prefix, BGP_TOOLS, SightingOf(found, prefix)) == Updated(prefixes, {prefix}, found)
  {
  }

  lemma NothingDone(prefixes: Prefixes, hits: Hits, found: Table)
    ensures Updated(prefixes, {}, found) == prefixes && Recounted(hits, {}, found) == hits
  {
  }
}
