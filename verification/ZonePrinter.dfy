/** Printing a zone file, and reading it back. */
module ZonePrinter {
  import opened MasterFile
  import Rdata
  import opened Text
  import opened Wrappers
  import opened Zones

  function SoaRdata(p: Payload, serial: nat): string {
    p.soaMname + ". " + p.soaRname + ". " + Decimal(serial) + " 3600 900 604800 300"
  }

  /** The later of today's first serial and the revision. */
  function Serial(p: Payload, today: nat): nat {
    if p.revision > today then p.revision else today
  }

  function SoaEntry(p: Payload, today: nat): Entry {
    Entry(Key("@", "SOA"), DEFAULT_TTL, SoaRdata(p, Serial(p, today)))
  }

  function Header(e: Entry): string {
    e.key.owner + " " + (Decimal(e.ttl) + " " + ("IN" + " " + (e.key.rtype + " ")))
  }

  function EntryLine(e: Entry): string {
    Header(e) + e.value
  }

  function EntryLines(es: seq<Entry>): seq<string> {
    seq(|es|, i requires 0 <= i < |es| => EntryLine(es[i]))
  }

  function DirectiveLines(zone: string): seq<string> {
    ["$ORIGIN" + " " + (zone + "."), "$TTL" + " " + "3600"]
  }

  function ZoneFileLines(zone: string, p: Payload, today: nat): seq<string> {
    DirectiveLines(zone) + EntryLines([SoaEntry(p, today)] + Entries(p))
  }

  /** Every line with its newline. */
  function Unlines(lines: seq<string>): string {
    if lines == [] then [] else Unlines(lines[..|lines| - 1]) + lines[|lines| - 1] + "\n"
  }

  function ZoneFileText(zone: string, p: Payload, today: nat): string {
    Unlines(ZoneFileLines(zone, p, today))
  }

  /** The record loop: one line for every value of every record, in order. */
  method RecordLines(records: seq<Record>) returns (lines: seq<string>)
    ensures lines == EntryLines(RecordsEntries(records))
  {
    lines := [];
    for i := 0 to |records|
      invariant lines == EntryLines(RecordsEntries(records[..i]))
    {
      var record := records[i];
      ghost var es := RecordEntries(record);
      ghost var before := lines;
      for j := 0 to |record.values|
        invariant lines == before + EntryLines(es[..j])
      {
        lines := lines + [EntryLine(Entry(record.Id(), record.ttl, record.values[j]))];
      }
      assert es[..|record.values|] == es;
      RecordsEntriesSnoc(records, i);
      EntryLinesAppend(RecordsEntries(records[..i]), es);
    }
    assert records[..|records|] == records;
  }

  lemma RecordsEntriesSnoc(records: seq<Record>, i: nat)
    requires i < |records|
    ensures RecordsEntries(records[..i + 1]) == RecordsEntries(records[..i]) + RecordEntries(records[i])
  {
    assert records[..i + 1][..i] == records[..i];
  }

  lemma EntryLinesAppend(a: seq<Entry>, b: seq<Entry>)
    ensures EntryLines(a + b) == EntryLines(a) + EntryLines(b)
  {
  }

  lemma PrintedLines(zone: string, p: Payload, today: nat)
    ensures ZoneFileLines(zone, p, today)
            == DirectiveLines(zone) + [EntryLine(SoaEntry(p, today))] + EntryLines(NsEntries(p.nameservers))
               + EntryLines(RecordsEntries(p.records))
  {
  }

  method RenderZonefile(zone: string, payload: Payload, today: nat) returns (text: string)
    ensures text == ZoneFileText(zone, payload, today)
  {
    var serial := if payload.revision > today then payload.revision else today;
    var soa := Entry(Key("@", "SOA"), DEFAULT_TTL, SoaRdata(payload, serial));
    var lines := DirectiveLines(zone) + [EntryLine(soa)];
    lines := lines + EntryLines(NsEntries(payload.nameservers));
    var recordLines := RecordLines(payload.records);
    lines := lines + recordLines;
    PrintedLines(zone, payload, today);
    text := Unlines(lines);
  }

  // ----- reading back -----

  /** A character that neither separates fields nor means something to a master file. */
  predicate IsOrdinary(c: char) {
    !IsBlank(c) && c != '\n' && c != '\\' && c != '"' && !Rdata.IsMeta(c)
  }

  predicate Simple(s: string) {
    forall c | c in s :: IsOrdinary(c)
  }

  /** What every printed line's key and value satisfy, apart from the plainness of the value. */
  predicate Printable(e: Entry) {
    && e.key.owner != [] && Simple(e.key.owner) && e.key.owner[0] != '$'
    && e.key.rtype != [] && Simple(e.key.rtype)
    && e.value != [] && !IsBlank(e.value[0]) && '\n' !in e.value
  }

  lemma {:induction false} SimpleRun(s: string)
    requires forall c | c in s :: IsBlank(c) || IsOrdinary(c)
    ensures Rdata.Run(Rdata.NORMAL, s) == Some(Rdata.NORMAL)
  {
    if s != [] {
      assert s[0] in s;
      SimpleRun(s[1..]);
    }
  }

  lemma {:induction false} FieldOf(f: string, rest: string)
    requires Simple(f) && rest != [] && !IsBlank(rest[0])
    ensures Field(f + " " + rest) == f && AfterField(f + " " + rest) == rest
  {
    var s := f + " " + rest;
    FieldIs(f, " " + rest);
    assert f + (" " + rest) == s;
    assert s[|f|..] == " " + rest;
    assert (" " + rest)[1..] == rest;
    assert SkipBlanks(rest) == rest;
  }

  lemma {:induction false} FieldIs(f: string, tail: string)
    requires Simple(f) && tail != [] && IsBlank(tail[0])
    ensures Field(f + tail) == f
  {
    if f == [] {
      assert f + tail == tail;
    } else {
      assert f[0] in f;
      assert (f + tail)[1..] == f[1..] + tail;
      FieldIs(f[1..], tail);
    }
  }

  lemma DecimalSimple(n: nat)
    ensures Simple(Decimal(n)) && !IsBlank(Decimal(n)[0])
  {
  }

  lemma ClassSimple()
    ensures Simple("IN")
  {
  }

  /** The fields of a printed line, one after the other. */
  lemma FieldsOfLine(e: Entry, l1: string, l2: string, l3: string)
    requires Printable(e)
    requires l3 == e.key.rtype + " " + e.value && l2 == "IN" + " " + l3 && l1 == Decimal(e.ttl) + " " + l2
    ensures Field(EntryLine(e)) == e.key.owner && AfterField(EntryLine(e)) == l1
    ensures Field(l1) == Decimal(e.ttl) && AfterField(l1) == l2
    ensures Field(l2) == "IN" && AfterField(l2) == l3
    ensures Field(l3) == e.key.rtype && AfterField(l3) == e.value
  {
    DecimalSimple(e.ttl);
    ClassSimple();
    assert e.key.rtype[0] in e.key.rtype;
    assert EntryLine(e) == e.key.owner + " " + l1;
    FieldOf(e.key.owner, l1);
    FieldOf(Decimal(e.ttl), l2);
    FieldOf("IN", l3);
    FieldOf(e.key.rtype, e.value);
  }

  /** A printed line reads back as its entry. */
  lemma ReadBackLine(e: Entry)
    requires Printable(e)
    ensures ReadItem(EntryLine(e)) == Some(Resource(e))
  {
    var l3 := e.key.rtype + " " + e.value;
    var l2 := "IN" + " " + l3;
    FieldsOfLine(e, Decimal(e.ttl) + " " + l2, l2, l3);
    ReadBackDecimal(e.ttl);
    assert e.key.owner[0] in e.key.owner;
  }

  lemma HeaderRun(e: Entry)
    requires Printable(e)
    ensures Rdata.Run(Rdata.NORMAL, Header(e)) == Some(Rdata.NORMAL)
  {
    DecimalSimple(e.ttl);
    SimpleRun(Header(e));
  }

  /** The line is plain exactly when its value is. */
  lemma LinePlain(e: Entry)
    requires Printable(e)
    ensures Rdata.Plain(EntryLine(e)) <==> Rdata.Plain(e.value)
  {
    HeaderRun(e);
    Rdata.RunAppend(Rdata.NORMAL, Header(e), e.value);
  }

  function ModeOf(at: Rdata.Scan): Mode {
    Mode(at.quoted, at.escaped, false, 0)
  }

  /** Plain text without line breaks passes through the lexer unchanged. */
  lemma {:induction false} LexText(s: string, rest: string, line: string, at: Rdata.Scan)
    requires '\n' !in s && Rdata.Run(at, s).Some?
    ensures Lines(s + rest, line, ModeOf(at)) == Lines(rest, line + s, ModeOf(Rdata.Run(at, s).value))
    decreases |s|
  {
    if s == [] {
      assert s + rest == rest && line + s == line;
    } else {
      var next := Rdata.Next(at, s[0]).value;
      assert (s + rest)[1..] == s[1..] + rest;
      assert line + [s[0]] + s[1..] == line + s;
      LexText(s[1..], rest, line + [s[0]], next);
      assert s[0] in s;
      assert Lines(s + rest, line, ModeOf(at)) == Lines(s[1..] + rest, line + [s[0]], ModeOf(next));
    }
  }

  predicate Lexable(line: string) {
    Rdata.Plain(line) && '\n' !in line && line != [] && !IsBlank(line[0])
  }

  lemma LexLine(line: string, rest: string)
    requires Lexable(line)
    ensures Lines(line + "\n" + rest, [], TOP)
            == match Lines(rest, [], TOP) { case None => None case Some(more) => Some([line] + more) }
  {
    assert line + "\n" + rest == line + ("\n" + rest);
    LexText(line, "\n" + rest, [], Rdata.NORMAL);
    assert [] + line == line;
    assert ("\n" + rest)[1..] == rest;
    assert line[0] in line;
  }

  /** A text of lexable lines has exactly these logical lines. */
  lemma {:induction false} LexLines(lines: seq<string>, rest: string)
    requires forall l | l in lines :: Lexable(l)
    ensures Lines(Unlines(lines) + rest, [], TOP)
            == match Lines(rest, [], TOP) { case None => None case Some(more) => Some(lines + more) }
    decreases |lines|
  {
    if lines == [] {
      assert Unlines(lines) + rest == rest;
      if Lines(rest, [], TOP).Some? {
        var more := Lines(rest, [], TOP).value;
        assert lines + more == more;
      }
    } else {
      var n := |lines| - 1;
      var tail := lines[n] + "\n" + rest;
      assert Unlines(lines) + rest == Unlines(lines[..n]) + tail;
      LexLines(lines[..n], tail);
      LexLine(lines[n], rest);
      if Lines(rest, [], TOP).Some? {
        var more := Lines(rest, [], TOP).value;
        assert lines[..n] + ([lines[n]] + more) == lines + more;
      }
    }
  }

  /** Every logical line that the lexer finds, in any text, is plain. */
  lemma {:induction false} LinesArePlain(s: string, line: string, m: Mode)
    requires Rdata.Run(Rdata.NORMAL, line) == Some(Rdata.Scan(m.quoted, m.escaped))
    requires m.comment ==> !m.quoted && !m.escaped
    ensures Lines(s, line, m).Some? ==> forall l | l in Lines(s, line, m).value :: Rdata.Plain(l)
    decreases |s|
  {
    if s != [] {
      var c, rest := s[0], s[1..];
      Rdata.RunAppend(Rdata.NORMAL, line, [c]);
      Rdata.RunAppend(Rdata.NORMAL, line, [' ']);
      assert forall at: Rdata.Scan, x: char :: Rdata.Run(at, [x]) == Rdata.Next(at, x) by {
        forall at: Rdata.Scan, x: char ensures Rdata.Run(at, [x]) == Rdata.Next(at, x) {
          assert [x][1..] == [];
        }
      }
      if m.comment && c != '\n' {
        LinesArePlain(rest, line, m);
      } else if m.escaped {
        LinesArePlain(rest, line + [c], m.(escaped := false));
      } else if m.quoted {
        LinesArePlain(rest, line + [c],
          if c == '\\' then m.(escaped := true) else if c == '"' then m.(quoted := false) else m);
      } else if c == '\\' {
        LinesArePlain(rest, line + [c], m.(escaped := true));
      } else if c == '"' {
        LinesArePlain(rest, line + [c], m.(quoted := true));
      } else if c == ';' {
        LinesArePlain(rest, line, m.(comment := true));
      } else if c == '(' {
        LinesArePlain(rest, line + [' '], m.(depth := m.depth + 1));
      } else if c == ')' {
        if m.depth > 0 {
          LinesArePlain(rest, line + [' '], m.(depth := m.depth - 1));
        }
      } else if c == '\n' {
        if m.depth > 0 {
          LinesArePlain(rest, line + [' '], m.(comment := false));
        } else {
          LinesArePlain(rest, [], TOP);
        }
      } else {
        LinesArePlain(rest, line + [c], m);
      }
    }
  }

  function Resources(es: seq<Entry>): (items: seq<Item>)
    ensures |items| == |es|
  {
    seq(|es|, i requires 0 <= i < |es| => Resource(es[i]))
  }

  /** What the printed file must read back as. */
  function PrintedItems(zone: string, p: Payload, today: nat): seq<Item> {
    [Origin(zone + "."), DefaultTtl(DEFAULT_TTL)] + Resources([SoaEntry(p, today)] + Entries(p))
  }

  lemma {:induction false} ReadItemsAppend(a: seq<string>, b: seq<string>)
    ensures ReadItems(a + b) ==
      match ReadItems(a) {
        case None => None
        case Some(x) => match ReadItems(b) { case None => None case Some(y) => Some(x + y) }
      }
  {
    if a == [] {
      assert a + b == b;
      if ReadItems(b).Some? {
        assert [] + ReadItems(b).value == ReadItems(b).value;
      }
    } else {
      assert (a + b)[1..] == a[1..] + b;
      ReadItemsAppend(a[1..], b);
      if ReadItem(a[0]).Some? && ReadItems(a[1..]).Some? && ReadItems(b).Some? {
        assert [ReadItem(a[0]).value] + (ReadItems(a[1..]).value + ReadItems(b).value)
            == [ReadItem(a[0]).value] + ReadItems(a[1..]).value + ReadItems(b).value;
      }
    }
  }

  lemma ReadItemsCons(lines: seq<string>, item: Item, rest: seq<Item>)
    requires lines != [] && ReadItem(lines[0]) == Some(item) && ReadItems(lines[1..]) == Some(rest)
    ensures ReadItems(lines) == Some([item] + rest)
  {
  }

  lemma FirstAndRest<T>(s: seq<T>)
    requires s != []
    ensures s == [s[0]] + s[1..]
  {
  }

  lemma {:induction false} ReadAllItems(lines: seq<string>, items: seq<Item>)
    requires |lines| == |items| && forall i | 0 <= i < |lines| :: ReadItem(lines[i]) == Some(items[i])
    ensures ReadItems(lines) == Some(items)
  {
    if lines != [] {
      ReadAllItems(lines[1..], items[1..]);
      ReadItemsCons(lines, items[0], items[1..]);
      FirstAndRest(items);
    }
  }

  lemma ReadBackEntries(es: seq<Entry>)
    requires forall e | e in es :: Printable(e)
    ensures ReadItems(EntryLines(es)) == Some(Resources(es))
  {
    forall i | 0 <= i < |es| ensures ReadItem(EntryLines(es)[i]) == Some(Resources(es)[i]) {
      ReadBackLine(es[i]);
    }
    ReadAllItems(EntryLines(es), Resources(es));
  }

  lemma ReadDefaultTtl()
    ensures ReadDecimal("3600") == Some(DEFAULT_TTL)
  {
    assert "3600"[..3] == "360" && "360"[..2] == "36" && "36"[..1] == "3";
    assert ReadDecimal("3") == Some(3) && ReadDecimal("36") == Some(36) && ReadDecimal("360") == Some(360);
  }

  lemma OriginLine(zone: string)
    requires zone != [] && Simple(zone)
    ensures var line := "$ORIGIN" + " " + (zone + ".");
            ReadItem(line) == Some(Origin(zone + ".")) && Lexable(line)
  {
    assert zone[0] in zone;
    FieldOf("$ORIGIN", zone + ".");
    SimpleRun("$ORIGIN" + " " + (zone + "."));
  }

  lemma TtlLine()
    ensures var line := "$TTL" + " " + "3600";
            ReadItem(line) == Some(DefaultTtl(DEFAULT_TTL)) && Lexable(line)
  {
    ReadDefaultTtl();
    FieldOf("$TTL", "3600");
    SimpleRun("$TTL" + " " + "3600");
    assert |"$TTL"| != |"$ORIGIN"|;
  }

  lemma ReadBackDirectives(zone: string)
    requires zone != [] && Simple(zone)
    ensures ReadItems(DirectiveLines(zone)) == Some([Origin(zone + "."), DefaultTtl(DEFAULT_TTL)])
    ensures forall l | l in DirectiveLines(zone) :: Lexable(l)
  {
    OriginLine(zone);
    TtlLine();
    TwoItems(DirectiveLines(zone), Origin(zone + "."), DefaultTtl(DEFAULT_TTL));
  }

  lemma OneItem(line: string, x: Item)
    requires ReadItem(line) == Some(x)
    ensures ReadItems([line]) == Some([x])
  {
    assert [line][1..] == [];
    assert [x] + [] == [x];
  }

  lemma TwoItems(lines: seq<string>, x: Item, y: Item)
    requires |lines| == 2 && ReadItem(lines[0]) == Some(x) && ReadItem(lines[1]) == Some(y)
    ensures ReadItems(lines) == Some([x, y])
  {
    OneItem(lines[1], y);
    assert lines[1..] == [lines[1]];
    assert [x] + [y] == [x, y];
  }

  /** The values of all lines but the SOA and NS ones. */
  predicate PlainValues(rs: seq<Record>) {
    forall r | r in rs :: forall v | v in r.values :: Rdata.Plain(v)
  }

  /** A payload whose lines have printable keys and values. */
  ghost predicate PrintablePayload(p: Payload) {
    && p.nameservers == NAMESERVERS && p.soaMname == SOA_MNAME && p.soaRname == SOA_RNAME
    && forall e | e in RecordsEntries(p.records) :: Printable(e)
  }

  lemma {:induction false} PlainEntries(rs: seq<Record>)
    ensures PlainValues(rs) <==> forall e | e in RecordsEntries(rs) :: Rdata.Plain(e.value)
  {
    if rs != [] {
      var n := |rs| - 1;
      PlainEntries(rs[..n]);
      assert rs == rs[..n] + [rs[n]];
      var es := RecordEntries(rs[n]);
      assert forall j | 0 <= j < |es| :: es[j].value == rs[n].values[j];
      assert PlainValues(rs) <==> PlainValues(rs[..n]) && forall v | v in rs[n].values :: Rdata.Plain(v);
      assert (forall v | v in rs[n].values :: Rdata.Plain(v)) <==> (forall e | e in es :: Rdata.Plain(e.value)) by {
        if forall e | e in es :: Rdata.Plain(e.value) {
          forall v | v in rs[n].values ensures Rdata.Plain(v) {
            var j :| 0 <= j < |rs[n].values| && rs[n].values[j] == v;
            assert es[j] in es;
          }
        }
      }
    }
  }

  lemma NameTextSimple(s: string)
    requires forall i | 0 <= i < |s| :: '1' <= s[i] <= '2' || 'a' <= s[i] <= 'z' || s[i] == '.'
    ensures Simple(s)
  {
  }

  lemma NameSimple()
    ensures Simple("ns1.hyrule.host") && Simple("ns2.hyrule.host") && Simple("hostmaster.hyrule.host")
  {
    NameTextSimple("ns1.hyrule.host");
    NameTextSimple("ns2.hyrule.host");
    NameTextSimple("hostmaster.hyrule.host");
  }

  lemma SimpleNameEntry(key: Key, name: string, tail: string)
    requires key.owner == "@" && (key.rtype == "NS" || key.rtype == "SOA")
    requires name != [] && Simple(name) && forall c | c in tail :: c == ' ' || IsOrdinary(c)
    ensures Printable(Entry(key, DEFAULT_TTL, name + tail)) && Rdata.Plain(name + tail)
  {
    assert name[0] in name;
    SimpleRun(name + tail);
  }

  lemma SoaPrintable(p: Payload, today: nat)
    requires p.soaMname != [] && Simple(p.soaMname) && Simple(p.soaRname)
    ensures Printable(SoaEntry(p, today)) && Rdata.Plain(SoaEntry(p, today).value)
  {
    var serial := Decimal(Serial(p, today));
    DecimalSimple(Serial(p, today));
    var tail := ". " + p.soaRname + ". " + serial + " 3600 900 604800 300";
    assert SoaRdata(p, Serial(p, today)) == p.soaMname + tail;
    SimpleNameEntry(Key("@", "SOA"), p.soaMname, tail);
  }

  lemma IdentityPrintable(p: Payload, today: nat)
    requires PrintablePayload(p)
    ensures forall e | e in [SoaEntry(p, today)] + NsEntries(p.nameservers) :: Printable(e) && Rdata.Plain(e.value)
  {
    NameSimple();
    SoaPrintable(p, today);
    forall e | e in NsEntries(p.nameservers) ensures Printable(e) && Rdata.Plain(e.value) {
      var i :| 0 <= i < |p.nameservers| && e == NsEntries(p.nameservers)[i];
      SimpleNameEntry(APEX_NS, p.nameservers[i], ".");
    }
  }

  /** Everything the printer writes below the directives. */
  function PrintedEntries(p: Payload, today: nat): seq<Entry> {
    [SoaEntry(p, today)] + Entries(p)
  }

  lemma PrintedEntriesPlain(p: Payload, today: nat)
    requires PrintablePayload(p)
    ensures forall e | e in PrintedEntries(p, today) :: Printable(e)
    ensures (forall e | e in PrintedEntries(p, today) :: Rdata.Plain(e.value)) <==> PlainValues(p.records)
  {
    IdentityPrintable(p, today);
    PlainEntries(p.records);
    var identity := [SoaEntry(p, today)] + NsEntries(p.nameservers);
    assert PrintedEntries(p, today) == identity + RecordsEntries(p.records);
  }

  lemma LinesReadBack(zone: string, p: Payload, today: nat)
    requires zone != [] && Simple(zone) && PrintablePayload(p)
    ensures ReadItems(ZoneFileLines(zone, p, today)) == Some(PrintedItems(zone, p, today))
  {
    ReadBackDirectives(zone);
    PrintedEntriesPlain(p, today);
    ReadBackEntries(PrintedEntries(p, today));
    ReadItemsAppend(DirectiveLines(zone), EntryLines(PrintedEntries(p, today)));
  }

  lemma PlainIsEnough(zone: string, p: Payload, today: nat)
    requires zone != [] && Simple(zone) && PrintablePayload(p) && PlainValues(p.records)
    ensures ReadZoneFile(ZoneFileText(zone, p, today)) == Some(PrintedItems(zone, p, today))
  {
    ReadBackDirectives(zone);
    PrintedEntriesPlain(p, today);
    var es, lines := PrintedEntries(p, today), ZoneFileLines(zone, p, today);
    forall l | l in EntryLines(es) ensures Lexable(l) {
      var i :| 0 <= i < |es| && EntryLine(es[i]) == l;
      LinePlain(es[i]);
      EntryLineLexable(es[i]);
    }
    LexLines(lines, []);
    assert Unlines(lines) + [] == Unlines(lines);
    assert Lines([], [], TOP) == Some([]);
    assert lines + [] == lines;
    LinesReadBack(zone, p, today);
  }

  lemma EntryLineLexable(e: Entry)
    requires Printable(e) && Rdata.Plain(EntryLine(e))
    ensures Lexable(EntryLine(e))
  {
    DecimalSimple(e.ttl);
    assert e.key.owner[0] in e.key.owner;
  }

  lemma {:induction false} RunSkipsBlanks(s: string)
    ensures Rdata.Run(Rdata.NORMAL, s) == Rdata.Run(Rdata.NORMAL, SkipBlanks(s))
  {
    if s != [] && IsBlank(s[0]) {
      RunSkipsBlanks(s[1..]);
    }
  }

  lemma RunAfterField(s: string)
    requires Simple(Field(s))
    ensures Rdata.Run(Rdata.NORMAL, s) == Rdata.Run(Rdata.NORMAL, AfterField(s))
  {
    var f, rest := Field(s), s[|Field(s)|..];
    assert s == f + rest;
    SimpleRun(f);
    Rdata.RunAppend(Rdata.NORMAL, f, rest);
    RunSkipsBlanks(rest);
  }

  lemma {:induction false} DigitsSimple(s: string)
    requires ReadDecimal(s).Some?
    ensures Simple(s)
  {
    assert s == s[..|s| - 1] + [s[|s| - 1]];
    if |s| > 1 {
      DigitsSimple(s[..|s| - 1]);
    }
  }

  lemma PlainItem(line: string, e: Entry)
    requires Rdata.Plain(line) && ReadItem(line) == Some(Resource(e))
    requires Simple(e.key.owner) && Simple(e.key.rtype)
    ensures Rdata.Plain(e.value)
  {
    var r1 := AfterField(line);
    var r2 := AfterField(r1);
    RunAfterField(line);
    DigitsSimple(Field(r1));
    RunAfterField(r1);
    RunAfterField(r2);
    RunAfterField(AfterField(r2));
  }

  lemma {:induction false} ItemOfLine(lines: seq<string>, i: nat)
    requires ReadItems(lines).Some? && i < |lines|
    ensures |ReadItems(lines).value| == |lines| && ReadItem(lines[i]) == Some(ReadItems(lines).value[i])
    decreases i
  {
    ReadItemsLength(lines);
    if i > 0 {
      ItemOfLine(lines[1..], i - 1);
    }
  }

  lemma {:induction false} ReadItemsLength(lines: seq<string>)
    requires ReadItems(lines).Some?
    ensures |ReadItems(lines).value| == |lines|
  {
    if lines != [] {
      ReadItemsLength(lines[1..]);
    }
  }

  lemma PrintedItemAt(zone: string, p: Payload, today: nat, i: nat)
    requires i < |PrintedEntries(p, today)|
    ensures i + 2 < |PrintedItems(zone, p, today)|
    ensures PrintedItems(zone, p, today)[i + 2] == Resource(PrintedEntries(p, today)[i])
  {
  }

  lemma EntryIsPlain(lines: seq<string>, items: seq<Item>, e: Entry, k: nat)
    requires ReadItems(lines) == Some(items) && k < |lines| == |items| && items[k] == Resource(e)
    requires Printable(e) && forall l | l in lines :: Rdata.Plain(l)
    ensures Rdata.Plain(e.value)
  {
    ItemOfLine(lines, k);
    assert lines[k] in lines;
    PlainItem(lines[k], e);
  }

  lemma PlainIsNeeded(zone: string, p: Payload, today: nat)
    requires PrintablePayload(p)
    requires ReadZoneFile(ZoneFileText(zone, p, today)) == Some(PrintedItems(zone, p, today))
    ensures PlainValues(p.records)
  {
    var lines := Lines(ZoneFileText(zone, p, today), [], TOP).value;
    LinesArePlain(ZoneFileText(zone, p, today), [], TOP);
    PrintedEntriesPlain(p, today);
    var es := PrintedEntries(p, today);
    ReadItemsLength(lines);
    forall e | e in es ensures Rdata.Plain(e.value) {
      var i :| 0 <= i < |es| && es[i] == e;
      PrintedItemAt(zone, p, today, i);
      EntryIsPlain(lines, PrintedItems(zone, p, today), e, i + 2);
    }
  }

  /** Print/parse round trip: the printed text reads back as exactly the directives, the SOA, the
      NS set and one record for each value, in order, if and only if every value is plain. */
  lemma RoundTripIffPlain(zone: string, p: Payload, today: nat)
    requires zone != [] && Simple(zone) && PrintablePayload(p)
    ensures ReadZoneFile(ZoneFileText(zone, p, today)) == Some(PrintedItems(zone, p, today))
            <==> PlainValues(p.records)
  {
    if PlainValues(p.records) {
      PlainIsEnough(zone, p, today);
    }
    if ReadZoneFile(ZoneFileText(zone, p, today)) == Some(PrintedItems(zone, p, today)) {
      PlainIsNeeded(zone, p, today);
    }
  }

  // ----- loading the printed file -----

  lemma {:induction false} EntriesOfResources(es: seq<Entry>)
    ensures EntriesOf(Resources(es)) == Some(es)
  {
    if es != [] {
      EntriesOfResources(es[1..]);
      assert Resources(es)[1..] == Resources(es[1..]);
      assert es == [es[0]] + es[1..];
    }
  }

  lemma TwoNames(m: string, r: string, tail: string)
    requires Simple(m) && Simple(r) && r != [] && tail != [] && !IsBlank(tail[0])
    ensures var rdata := m + "." + " " + (r + "." + " " + tail);
            WithoutDot(Field(rdata)) == m && WithoutDot(Field(AfterField(rdata))) == r
  {
    assert r[0] in r;
    FieldOf(m + ".", r + "." + " " + tail);
    FieldOf(r + ".", tail);
  }

  lemma SoaNames(p: Payload, serial: nat)
    requires Simple(p.soaMname) && Simple(p.soaRname) && p.soaRname != []
    ensures var rdata := SoaRdata(p, serial);
            WithoutDot(Field(rdata)) == p.soaMname && WithoutDot(Field(AfterField(rdata))) == p.soaRname
  {
    DecimalSimple(serial);
    var tail := Decimal(serial) + " 3600 900 604800 300";
    assert SoaRdata(p, serial) == p.soaMname + "." + " " + (p.soaRname + "." + " " + tail);
    TwoNames(p.soaMname, p.soaRname, tail);
  }

  /** A server that loads the printed file serves exactly the content that the payload stands
      for, whatever the date. */
  lemma LoadPrinted(zone: string, p: Payload, today: nat)
    requires zone != [] && Simple(zone) && PrintablePayload(p) && PlainValues(p.records)
    ensures LoadZoneFile(zone, ZoneFileText(zone, p, today)) == Some(ContentOf(p))
  {
    PlainIsEnough(zone, p, today);
    var items, es := PrintedItems(zone, p, today), PrintedEntries(p, today);
    assert items[2..] == Resources(es);
    EntriesOfResources(es);
    assert es[1..] == Entries(p);
    NameSimple();
    SoaNames(p, Serial(p, today));
  }

  lemma JoinedCons(first: string, rest: seq<string>, sep: char)
    requires rest != []
    ensures Joined([first] + rest, sep) == first + [sep] + Joined(rest, sep)
  {
    assert ([first] + rest)[1..] == rest;
  }

  ghost predicate IsLater(serial: nat, a: nat, b: nat) {
    serial >= a && serial >= b && (serial == a || serial == b)
  }

  function SoaFields(serial: nat): seq<string> {
    ["ns1.hyrule.host.", "hostmaster.hyrule.host.", Decimal(serial), "3600", "900", "604800", "300"]
  }

  lemma TimersJoined()
    ensures Joined(["3600", "900", "604800", "300"], ' ') == "3600 900 604800 300"
  {
    JoinedCons("604800", ["300"], ' ');
    JoinedCons("900", ["604800", "300"], ' ');
    JoinedCons("3600", ["900", "604800", "300"], ' ');
  }

  lemma FieldsJoined(a: string, b: string, c: string, timers: seq<string>)
    requires timers != []
    ensures Joined([a, b, c] + timers, ' ') == a + " " + b + " " + c + " " + Joined(timers, ' ')
  {
    var rest := Joined(timers, ' ');
    JoinedCons(c, timers, ' ');
    JoinedCons(b, [c] + timers, ' ');
    JoinedCons(a, [b] + ([c] + timers), ' ');
    assert [a, b, c] + timers == [a] + ([b] + ([c] + timers));
    assert a + " " + (b + " " + (c + " " + rest)) == a + " " + b + " " + c + " " + rest;
  }

  lemma SoaJoined(p: Payload, serial: nat)
    requires Managed(p)
    ensures Joined(SoaFields(serial), ' ') == SoaRdata(p, serial)
  {
    var m, r, n := "ns1.hyrule.host.", "hostmaster.hyrule.host.", Decimal(serial);
    var timers := ["3600", "900", "604800", "300"];
    TimersJoined();
    FieldsJoined(m, r, n, timers);
    assert SoaFields(serial) == [m, r, n] + timers;
    assert m + " " == p.soaMname + ". ";
    assert m + " " + r + " " == p.soaMname + ". " + p.soaRname + ". ";
    assert m + " " + r + " " + n + " " + "3600 900 604800 300"
           == m + " " + r + " " + n + " 3600 900 604800 300";
  }

  /** The SOA of a managed zone field by field: its serial is the later of the revision and today's. */
  lemma SoaReads(p: Payload, today: nat)
    requires Managed(p)
    ensures SoaEntry(p, today).key == Key("@", "SOA") && SoaEntry(p, today).ttl == 3600
    ensures exists serial: nat :: IsLater(serial, p.revision, today)
                                  && Split(SoaEntry(p, today).value, ' ') == SoaFields(serial)
  {
    var serial := Serial(p, today);
    SoaJoined(p, serial);
    SoaFieldsHaveNoBlank(serial);
    SplitMeets(SoaFields(serial), ' ');
    assert IsLater(serial, p.revision, today);
  }

  lemma SoaFieldsHaveNoBlank(serial: nat)
    ensures forall f | f in SoaFields(serial) :: ' ' !in f
  {
    assert !IsDigit(' ');
  }
}
