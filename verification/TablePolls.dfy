/** Polls of the bgp.tools table, in terms of the lines of the download alone. */
module TablePolls {
  import opened BgpAgent
  import opened Json
  import opened Ordering
  import opened Wrappers

  // ----- lines -----

  /** The text of the line contains a wanted prefix. */
  ghost predicate Passes(wanted: set<string>, line: Line) {
    exists a, prefix, b :: prefix in wanted && line.text == a + prefix + b
  }

  lemma PassesIff(wanted: set<string>, line: Line)
    ensures Passes(wanted, line) <==> MentionsWanted(wanted, line)
  {
    if prefix :| prefix in wanted && Mentions(line.text, prefix) {
      MentionsIff(line.text, prefix);
    }
    if a, prefix, b :| prefix in wanted && line.text == a + prefix + b {
      MentionsIff(line.text, prefix);
    }
  }

  /** The line counts, as this row. */
  ghost predicate RowIs(wanted: set<string>, line: Line, row: Row) {
    && Passes(wanted, line) && line.parsed.Some? && line.parsed.value.JObj?
    && row.cidr in wanted && Get(line.parsed.value.fields, "CIDR", JNull) == JStr(row.cidr)
    && AsInt(Get(line.parsed.value.fields, "ASN", JInt(0))) == Some(row.asn)
    && AsInt(Get(line.parsed.value.fields, "Hits", JInt(0))) == Some(row.hits)
  }

  ghost predicate HasRow(wanted: set<string>, line: Line) {
    exists row :: RowIs(wanted, line, row)
  }

  /** The line passes the filter and spoils the download: it is no object, its CIDR is a list or an
      object, or it is a row of a wanted prefix with something that is no number. */
  ghost predicate Spoils(wanted: set<string>, line: Line) {
    && Passes(wanted, line)
    && (line.parsed.None? || !line.parsed.value.JObj? || SpoilsRow(wanted, line.parsed.value.fields))
  }

  ghost predicate SpoilsRow(wanted: set<string>, fields: map<string, Json>) {
    var cidr := Get(fields, "CIDR", JNull);
    || cidr.JList? || cidr.JObj?
    || (cidr.JStr? && cidr.s in wanted
        && (AsInt(Get(fields, "ASN", JInt(0))).None? || AsInt(Get(fields, "Hits", JInt(0))).None?))
  }

  lemma ReadingIs(wanted: set<string>, line: Line)
    ensures match ReadLine(wanted, line)
            case Raises => Spoils(wanted, line) && !HasRow(wanted, line)
            case Reads(row) => RowIs(wanted, line, row) && !Spoils(wanted, line)
            case Skipped => !HasRow(wanted, line) && !Spoils(wanted, line)
  {
    PassesIff(wanted, line);
  }

  lemma RowUnique(wanted: set<string>, line: Line, a: Row, b: Row)
    requires RowIs(wanted, line, a) && RowIs(wanted, line, b)
    ensures a == b
  {
  }

  /** The places of the lines that count, in order. */
  ghost predicate CountedAt(wanted: set<string>, lines: seq<Line>, places: seq<nat>) {
    && (forall i, j | 0 <= i < j < |places| :: places[i] < places[j])
    && (forall n: nat :: n in places <==> n < |lines| && HasRow(wanted, lines[n]))
  }

  ghost predicate RowsAt(wanted: set<string>, lines: seq<Line>, rows: seq<Row>, places: seq<nat>) {
    && |places| == |rows|
    && forall i | 0 <= i < |places| :: places[i] < |lines| && RowIs(wanted, lines[places[i]], rows[i])
  }

  lemma CountedSnoc(wanted: set<string>, lines: seq<Line>, line: Line, places: seq<nat>)
    requires CountedAt(wanted, lines, places)
    ensures CountedAt(wanted, lines + [line], places + if HasRow(wanted, line) then [|lines|] else [])
  {
    var all, more := lines + [line], places + if HasRow(wanted, line) then [|lines|] else [];
    forall i | 0 <= i < |places| ensures places[i] < |lines| {
      assert places[i] in places;
    }
    forall n: nat ensures n in more <==> n < |all| && HasRow(wanted, all[n]) {
      assert n in places <==> n < |lines| && HasRow(wanted, lines[n]);
    }
  }

  lemma RowsSnoc(wanted: set<string>, lines: seq<Line>, line: Line, rows: seq<Row>, row: Row, places: seq<nat>)
    requires RowsAt(wanted, lines, rows, places)
    ensures RowsAt(wanted, lines + [line], rows, places)
    ensures RowIs(wanted, line, row) ==> RowsAt(wanted, lines + [line], rows + [row], places + [|lines|])
  {
  }

  /** The rows of a download are those of the lines that count, in their order. */
  lemma {:induction false} RowsInOrder(wanted: set<string>, lines: seq<Line>) returns (places: seq<nat>)
    requires RowsOf(wanted, lines).Some?
    ensures CountedAt(wanted, lines, places) && RowsAt(wanted, lines, RowsOf(wanted, lines).value, places)
  {
    if lines == [] {
      places := [];
    } else {
      var init, line := lines[..|lines| - 1], lines[|lines| - 1];
      assert lines == init + [line];
      var before := RowsInOrder(wanted, init);
      ReadingIs(wanted, line);
      CountedSnoc(wanted, init, line, before);
      RowsSnoc(wanted, init, line, RowsOf(wanted, init).value, RowOr(wanted, line), before);
      places := before + if HasRow(wanted, line) then [|init|] else [];
    }
  }

  ghost function RowOr(wanted: set<string>, line: Line): Row {
    match ReadLine(wanted, line)
    case Reads(row) => row
    case _ => Row("", 0, 0)
  }

  /** A download fails exactly if some line spoils it. */
  lemma {:induction false} SpoiltIff(wanted: set<string>, lines: seq<Line>)
    ensures RowsOf(wanted, lines).None? <==> exists line :: line in lines && Spoils(wanted, line)
  {
    if lines != [] {
      var init, last := lines[..|lines| - 1], lines[|lines| - 1];
      assert forall line :: line in lines <==> line in init || line == last;
      SpoiltIff(wanted, init);
      ReadingIs(wanted, last);
    }
  }

  // ----- the order of the origins -----

  predicate IsFor(row: Row, prefix: string, asn: int) {
    row.cidr == prefix && row.asn == asn
  }

  /** Some row for the first origin comes before all rows for the second. */
  ghost predicate SeenBefore(rows: seq<Row>, prefix: string, a: int, b: int) {
    exists k | 0 <= k < |rows| :: IsFor(rows[k], prefix, a) && forall l | 0 <= l <= k :: !IsFor(rows[l], prefix, b)
  }

  ghost predicate InOrderOf(origins: seq<int>, rows: seq<Row>, prefix: string) {
    forall i, j | 0 <= i < j < |origins| :: SeenBefore(rows, prefix, origins[i], origins[j])
  }

  lemma StillSeenBefore(rows: seq<Row>, row: Row, prefix: string, a: int, b: int)
    requires SeenBefore(rows, prefix, a, b)
    ensures SeenBefore(rows + [row], prefix, a, b)
  {
    var k :| 0 <= k < |rows| && IsFor(rows[k], prefix, a) && forall l | 0 <= l <= k :: !IsFor(rows[l], prefix, b);
    assert IsFor((rows + [row])[k], prefix, a);
  }

  lemma NewSeenAfter(rows: seq<Row>, row: Row, prefix: string, a: int, b: int)
    requires exists r :: r in rows && IsFor(r, prefix, a)
    requires forall r | r in rows :: !IsFor(r, prefix, b)
    ensures SeenBefore(rows + [row], prefix, a, b)
  {
    var r :| r in rows && IsFor(r, prefix, a);
    var k :| 0 <= k < |rows| && rows[k] == r;
    assert IsFor((rows + [row])[k], prefix, a);
  }

  lemma OriginAdded(origins: seq<int>, rows: seq<Row>, row: Row, prefix: string)
    requires InOrderOf(origins, rows, prefix) && row.asn !in origins
    requires forall r | r in rows && r.cidr == prefix :: r.asn in origins
    requires forall a | a in origins :: exists r :: r in rows && IsFor(r, prefix, a)
    ensures InOrderOf(origins + [row.asn], rows + [row], prefix)
  {
    var all := origins + [row.asn];
    forall i, j | 0 <= i < j < |all| ensures SeenBefore(rows + [row], prefix, all[i], all[j]) {
      assert origins[i] in origins;
      if j < |origins| {
        StillSeenBefore(rows, row, prefix, origins[i], origins[j]);
      } else {
        NewSeenAfter(rows, row, prefix, origins[i], row.asn);
      }
    }
  }

  lemma OriginsStay(origins: seq<int>, rows: seq<Row>, row: Row, prefix: string)
    requires InOrderOf(origins, rows, prefix)
    ensures InOrderOf(origins, rows + [row], prefix)
  {
    forall i, j | 0 <= i < j < |origins| ensures SeenBefore(rows + [row], prefix, origins[i], origins[j]) {
      StillSeenBefore(rows, row, prefix, origins[i], origins[j]);
    }
  }

  ghost function OriginsIn(table: Table, prefix: string): seq<int> {
    if prefix in table then table[prefix].origins else []
  }

  lemma OriginsKnown(rows: seq<Row>, prefix: string)
    ensures var origins := OriginsIn(TableOf(rows), prefix);
            && (forall r | r in rows && r.cidr == prefix :: r.asn in origins)
            && (forall a | a in origins :: exists r :: r in rows && IsFor(r, prefix, a))
  {
    TableGathers(rows, prefix);
    if prefix in TableOf(rows) {
      var e := TableOf(rows)[prefix];
      assert Elements(e.origins) == e.hits.Keys;
      forall a | a in e.origins ensures exists r :: r in rows && IsFor(r, prefix, a) {
        assert a in Elements(e.origins);
        var i: nat :| LastFor(rows, prefix, a, i) && e.hits[a] == rows[i].hits;
        assert IsFor(rows[i], prefix, a);
      }
      forall r | r in rows && r.cidr == prefix ensures r.asn in e.origins {
        assert r.asn in e.hits;
        assert r.asn in Elements(e.origins);
      }
    }
  }

  /** The origins of a prefix are listed in the order in which they were first met. */
  lemma {:induction false} OriginsInOrder(rows: seq<Row>, prefix: string)
    ensures InOrderOf(OriginsIn(TableOf(rows), prefix), rows, prefix)
  {
    if rows != [] {
      var init, row := rows[..|rows| - 1], rows[|rows| - 1];
      var before := OriginsIn(TableOf(init), prefix);
      assert rows == init + [row];
      OriginsInOrder(init, prefix);
      if row.cidr == prefix && row.asn !in before {
        OriginsKnown(init, prefix);
        assert forall a | a in before :: exists r :: r in init && IsFor(r, prefix, a);
        OriginAdded(before, init, row, prefix);
      } else {
        OriginsStay(before, init, row, prefix);
      }
    }
  }

  // ----- a poll -----

  /** Line number n counts for the prefix and the origin, with this number of hits. */
  ghost predicate LineFor(wanted: set<string>, lines: seq<Line>, n: nat, prefix: string, asn: int, hits: int) {
    n < |lines| && RowIs(wanted, lines[n], Row(prefix, asn, hits))
  }

  ghost predicate AnyFor(wanted: set<string>, lines: seq<Line>, n: nat, prefix: string, asn: int) {
    exists hits :: LineFor(wanted, lines, n, prefix, asn, hits)
  }

  lemma LineOfRow(wanted: set<string>, lines: seq<Line>, rows: seq<Row>, places: seq<nat>, i: nat)
    requires RowsAt(wanted, lines, rows, places) && i < |rows|
    ensures LineFor(wanted, lines, places[i], rows[i].cidr, rows[i].asn, rows[i].hits)
    ensures AnyFor(wanted, lines, places[i], rows[i].cidr, rows[i].asn)
  {
    assert Row(rows[i].cidr, rows[i].asn, rows[i].hits) == rows[i];
    assert LineFor(wanted, lines, places[i], rows[i].cidr, rows[i].asn, rows[i].hits);
  }

  lemma RowOfLine(wanted: set<string>, lines: seq<Line>, rows: seq<Row>, places: seq<nat>, n: nat, prefix: string,
      asn: int) returns (i: nat)
    requires CountedAt(wanted, lines, places) && RowsAt(wanted, lines, rows, places)
    requires AnyFor(wanted, lines, n, prefix, asn)
    ensures i < |rows| && places[i] == n && IsFor(rows[i], prefix, asn)
  {
    var hits :| LineFor(wanted, lines, n, prefix, asn, hits);
    assert HasRow(wanted, lines[n]) && n in places;
    i :| 0 <= i < |places| && places[i] == n;
    RowUnique(wanted, lines[n], rows[i], Row(prefix, asn, hits));
  }

  /** Some line for the first origin comes before all lines for the second. */
  ghost predicate LineBefore(wanted: set<string>, lines: seq<Line>, prefix: string, a: int, b: int) {
    exists n: nat ::
      AnyFor(wanted, lines, n, prefix, a) && forall m: nat | m <= n :: !AnyFor(wanted, lines, m, prefix, b)
  }

  /** The last line for the origin has this number of hits. */
  ghost predicate LastLineFor(wanted: set<string>, lines: seq<Line>, prefix: string, asn: int, hits: int) {
    exists n: nat ::
      LineFor(wanted, lines, n, prefix, asn, hits) && forall m: nat | m > n :: !AnyFor(wanted, lines, m, prefix, asn)
  }

  lemma LinesBefore(wanted: set<string>, lines: seq<Line>, rows: seq<Row>, places: seq<nat>, prefix: string,
      a: int, b: int)
    requires CountedAt(wanted, lines, places) && RowsAt(wanted, lines, rows, places)
    requires SeenBefore(rows, prefix, a, b)
    ensures LineBefore(wanted, lines, prefix, a, b)
  {
    var k :| 0 <= k < |rows| && IsFor(rows[k], prefix, a) && forall l | 0 <= l <= k :: !IsFor(rows[l], prefix, b);
    LineOfRow(wanted, lines, rows, places, k);
    forall m: nat | m <= places[k] ensures !AnyFor(wanted, lines, m, prefix, b) {
      if AnyFor(wanted, lines, m, prefix, b) {
        var l := RowOfLine(wanted, lines, rows, places, m, prefix, b);
      }
    }
  }

  lemma LastLine(wanted: set<string>, lines: seq<Line>, rows: seq<Row>, places: seq<nat>, prefix: string, asn: int,
      i: nat)
    requires CountedAt(wanted, lines, places) && RowsAt(wanted, lines, rows, places)
    requires LastFor(rows, prefix, asn, i)
    ensures LastLineFor(wanted, lines, prefix, asn, rows[i].hits)
  {
    LineOfRow(wanted, lines, rows, places, i);
    forall m: nat | m > places[i] ensures !AnyFor(wanted, lines, m, prefix, asn) {
      if AnyFor(wanted, lines, m, prefix, asn) {
        var l := RowOfLine(wanted, lines, rows, places, m, prefix, asn);
      }
    }
  }

  lemma OriginIff(wanted: set<string>, lines: seq<Line>, rows: seq<Row>, places: seq<nat>, prefix: string, asn: int)
    requires CountedAt(wanted, lines, places) && RowsAt(wanted, lines, rows, places)
    ensures (exists r :: r in rows && IsFor(r, prefix, asn))
            <==> exists n: nat :: AnyFor(wanted, lines, n, prefix, asn)
  {
    if r :| r in rows && IsFor(r, prefix, asn) {
      var i :| 0 <= i < |rows| && rows[i] == r;
      LineOfRow(wanted, lines, rows, places, i);
    }
    if n: nat :| AnyFor(wanted, lines, n, prefix, asn) {
      var i := RowOfLine(wanted, lines, rows, places, n, prefix, asn);
      assert rows[i] in rows;
    }
  }

  /** The poll is let through, and nothing spoils its download. */
  ghost predicate Succeeds(c: Settings, s: State, p: Poll) {
    !Gated(c, s, p) && !p.broken && !exists line :: line in p.lines && Spoils(c.wanted, line)
  }

  /** What the maps say of a wanted prefix after such a poll: it is visible if any line counts for it; its
      origins are those of these lines, each once and in the order in which they were first met; and each
      origin has a counter with the number on its last line. */
  ghost predicate ShownAsRead(wanted: set<string>, lines: seq<Line>, t: State, prefix: string) {
    && prefix in t.prefixes && BGP_TOOLS in t.prefixes[prefix]
    && var seen := t.prefixes[prefix][BGP_TOOLS];
       && (seen.visible <==> seen.origins != []) && Distinct(seen.origins)
       && (forall asn :: asn in seen.origins <==> exists n: nat :: AnyFor(wanted, lines, n, prefix, asn))
       && (forall i, j | 0 <= i < j < |seen.origins| ::
             LineBefore(wanted, lines, prefix, seen.origins[i], seen.origins[j]))
       && (forall asn :: (prefix, asn) in t.hits <==> asn in seen.origins)
       && (forall asn | asn in seen.origins ::
             (prefix, asn) in t.hits && LastLineFor(wanted, lines, prefix, asn, t.hits[(prefix, asn)]))
  }

  lemma SeenIs(c: Settings, s: State, p: Poll, prefix: string)
    requires !Gated(c, s, p) && Downloaded(c, p).Some? && prefix in c.wanted
    ensures var t, table := AfterPoll(c, s, p), TableOf(Downloaded(c, p).value);
            && prefix in t.prefixes && BGP_TOOLS in t.prefixes[prefix]
            && t.prefixes[prefix][BGP_TOOLS].origins == OriginsIn(table, prefix)
            && (t.prefixes[prefix][BGP_TOOLS].visible <==> OriginsIn(table, prefix) != [])
  {
    var rows := Downloaded(c, p).value;
    TableGathers(rows, prefix);
    UpdatedAt(s.prefixes, c.wanted, TableOf(rows), prefix);
  }

  lemma OriginsShown(c: Settings, s: State, p: Poll, prefix: string, places: seq<nat>)
    requires !Gated(c, s, p) && Downloaded(c, p).Some? && prefix in c.wanted
    requires CountedAt(c.wanted, p.lines, places) && RowsAt(c.wanted, p.lines, Downloaded(c, p).value, places)
    ensures var origins := OriginsIn(TableOf(Downloaded(c, p).value), prefix);
            && (forall asn :: asn in origins <==> exists n: nat :: AnyFor(c.wanted, p.lines, n, prefix, asn))
            && (forall i, j | 0 <= i < j < |origins| ::
                  LineBefore(c.wanted, p.lines, prefix, origins[i], origins[j]))
  {
    var rows := Downloaded(c, p).value;
    var origins := OriginsIn(TableOf(rows), prefix);
    OriginsKnown(rows, prefix);
    OriginsInOrder(rows, prefix);
    forall asn ensures asn in origins <==> exists n: nat :: AnyFor(c.wanted, p.lines, n, prefix, asn) {
      OriginIff(c.wanted, p.lines, rows, places, prefix, asn);
    }
    forall i, j | 0 <= i < j < |origins| ensures LineBefore(c.wanted, p.lines, prefix, origins[i], origins[j]) {
      LinesBefore(c.wanted, p.lines, rows, places, prefix, origins[i], origins[j]);
    }
  }

  lemma HitsShown(c: Settings, s: State, p: Poll, prefix: string, asn: int, places: seq<nat>)
    requires !Gated(c, s, p) && Downloaded(c, p).Some? && prefix in c.wanted
    requires CountedAt(c.wanted, p.lines, places) && RowsAt(c.wanted, p.lines, Downloaded(c, p).value, places)
    requires (prefix, asn) in AfterPoll(c, s, p).hits
    ensures LastLineFor(c.wanted, p.lines, prefix, asn, AfterPoll(c, s, p).hits[(prefix, asn)])
  {
    var rows := Downloaded(c, p).value;
    PolledHits(c, s, p, prefix, asn);
    var i: nat :| LastFor(rows, prefix, asn, i) && AfterPoll(c, s, p).hits[(prefix, asn)] == rows[i].hits;
    LastLine(c.wanted, p.lines, rows, places, prefix, asn, i);
  }

  /** A poll in terms of the lines of its download: of every wanted prefix, present or not. */
  lemma PollShows(c: Settings, s: State, p: Poll, prefix: string)
    requires Succeeds(c, s, p) && prefix in c.wanted
    ensures ShownAsRead(c.wanted, p.lines, AfterPoll(c, s, p), prefix)
  {
    SpoiltIff(c.wanted, p.lines);
    var places := RowsInOrder(c.wanted, p.lines);
    var t := AfterPoll(c, s, p);
    PolledPrefix(c, s, p, prefix);
    SeenIs(c, s, p, prefix);
    OriginsShown(c, s, p, prefix, places);
    forall asn | asn in t.prefixes[prefix][BGP_TOOLS].origins
      ensures (prefix, asn) in t.hits && LastLineFor(c.wanted, p.lines, prefix, asn, t.hits[(prefix, asn)])
    {
      HitsShown(c, s, p, prefix, asn, places);
    }
  }

  /** The status of the source after a poll: up exactly if the poll succeeded; with a poll that is held
      back it stays, and so does that of every other source in any case. */
  lemma PollReports(c: Settings, s: State, p: Poll)
    ensures var t := AfterPoll(c, s, p);
            && (Gated(c, s, p) ==> t == s)
            && (forall name | name != BGP_TOOLS :: Lookup(t.sources, name) == Lookup(s.sources, name))
            && (!Gated(c, s, p) ==> BGP_TOOLS in t.sources && ReportsOf(c, s, p, t.sources[BGP_TOOLS]))
  {
    SpoiltIff(c.wanted, p.lines);
  }

  ghost predicate ReportsOf(c: Settings, s: State, p: Poll, source: Source) {
    && (source.up <==> Succeeds(c, s, p))
    && (if source.up then source.message == "" && source.lastSuccess == p.recorded
        else source.message == p.message && source.lastError == p.recorded)
    && (BGP_TOOLS in s.sources ==>
          if source.up then source.lastError == s.sources[BGP_TOOLS].lastError
          else source.lastSuccess == s.sources[BGP_TOOLS].lastSuccess)
  }

  // ----- whole runs -----

  lemma SameMapsShow(wanted: set<string>, lines: seq<Line>, t: State, u: State, prefix: string)
    requires ShownAsRead(wanted, lines, t, prefix) && u.hits == t.hits
    requires prefix in u.prefixes && BGP_TOOLS in u.prefixes[prefix]
    requires u.prefixes[prefix][BGP_TOOLS] == t.prefixes[prefix][BGP_TOOLS]
    ensures ShownAsRead(wanted, lines, u, prefix)
  {
  }

  lemma StepKeepsShown(c: Settings, s: State, e: Event, lines: seq<Line>, prefix: string)
    requires Foreign(e) && ShownAsRead(c.wanted, lines, s, prefix)
    requires e.Polled? ==> Gated(c, s, e.poll) || Downloaded(c, e.poll).None?
    ensures ShownAsRead(c.wanted, lines, Step(c, s, e), prefix)
  {
    if e.Polled? {
      SameMaps(c, s, e.poll);
    }
    SameMapsShow(c.wanted, lines, s, Step(c, s, e), prefix);
  }

  lemma SucceedsIff(c: Settings, s: State, p: Poll)
    ensures Succeeds(c, s, p) <==> !Gated(c, s, p) && Downloaded(c, p).Some?
  {
    SpoiltIff(c.wanted, p.lines);
  }

  lemma RunNext(c: Settings, events: seq<Event>, i: nat, n: nat)
    requires n == i + 1 <= |events|
    ensures Run(c, events[..n]) == Step(c, Run(c, events[..i]), events[i])
  {
    assert events[..n][..i] == events[..i];
  }

  lemma FetchShows(c: Settings, events: seq<Event>, i: nat, n: nat, prefix: string)
    requires n == i + 1 <= |events| && Fetches(c, events, i) && prefix in c.wanted
    ensures ShownAsRead(c.wanted, events[i].poll.lines, Run(c, events[..n]), prefix)
  {
    var before := Run(c, events[..i]);
    RunNext(c, events, i, n);
    SucceedsIff(c, before, events[i].poll);
    PollShows(c, before, events[i].poll, prefix);
  }

  lemma OtherShows(c: Settings, events: seq<Event>, k: nat, n: nat, lines: seq<Line>, prefix: string)
    requires n == k + 1 <= |events| && !Fetches(c, events, k) && Foreign(events[k])
    requires ShownAsRead(c.wanted, lines, Run(c, events[..k]), prefix)
    ensures ShownAsRead(c.wanted, lines, Run(c, events[..n]), prefix)
  {
    RunNext(c, events, k, n);
    StepKeepsShown(c, Run(c, events[..k]), events[k], lines, prefix);
  }

  /** After any run the maps are those of its last good download, whatever failed, was held back or came
      from other sources since. */
  lemma {:induction false} RunShows(c: Settings, events: seq<Event>, i: nat, n: nat, prefix: string)
    requires i < n <= |events| && Fetches(c, events, i) && forall j | i < j < n :: !Fetches(c, events, j)
    requires (forall e | e in events :: Foreign(e)) && prefix in c.wanted
    ensures ShownAsRead(c.wanted, events[i].poll.lines, Run(c, events[..n]), prefix)
  {
    var k: nat := n - 1;
    if i == k {
      FetchShows(c, events, i, n, prefix);
    } else {
      RunShows(c, events, i, k, prefix);
      OtherShows(c, events, k, n, events[i].poll.lines, prefix);
    }
  }
}
