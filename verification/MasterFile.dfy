/** A reader of zone files by section 5.1 of RFC 1035, written without regard to the printer: it
    splits the text into logical lines (quotes, escapes, comments, parentheses), and these into
    directives and resource records in the explicit form `owner ttl class type rdata`. */
module MasterFile {
  import opened Text
  import opened Wrappers
  import opened Zones

  datatype Mode = Mode(quoted: bool, escaped: bool, comment: bool, depth: nat)

  const TOP := Mode(false, false, false, 0)

  predicate IsBlank(c: char) {
    c == ' ' || c == '\t'
  }

  predicate AllBlank(s: string) {
    forall c | c in s :: IsBlank(c)
  }

  /** A line of nothing but blanks is no line. */
  function Emit(line: string): seq<string> {
    if AllBlank(line) then [] else [line]
  }

  /** The logical lines of the text, given the line collected so far.  Comments are dropped, and
      grouping parentheses and the line breaks inside them become blanks. */
  function Lines(s: string, line: string, m: Mode): Option<seq<string>>
    decreases |s|
  {
    if s == [] then
      if m.quoted || m.escaped || m.depth > 0 then None else Some(Emit(line))
    else
      var c, rest := s[0], s[1..];
      if m.comment && c != '\n' then Lines(rest, line, m)
      else if m.escaped then Lines(rest, line + [c], m.(escaped := false))
      else if m.quoted then
        Lines(rest, line + [c],
              if c == '\\' then m.(escaped := true) else if c == '"' then m.(quoted := false) else m)
      else
        match c
        case '\\' => Lines(rest, line + [c], m.(escaped := true))
        case '"' => Lines(rest, line + [c], m.(quoted := true))
        case ';' => Lines(rest, line, m.(comment := true))
        case '(' => Lines(rest, line + [' '], m.(depth := m.depth + 1))
        case ')' => if m.depth == 0 then None else Lines(rest, line + [' '], m.(depth := m.depth - 1))
        case '\n' =>
          if m.depth > 0 then Lines(rest, line + [' '], m.(comment := false))
          else
            match Lines(rest, [], TOP) {
              case None => None
              case Some(more) => Some(Emit(line) + more)
            }
        case _ => Lines(rest, line + [c], m)
  }

  datatype Item =
    | Origin(name: string)
    | DefaultTtl(ttl: nat)
    | Resource(entry: Entry)

  /** The text up to the first blank. */
  function Field(s: string): (f: string)
    ensures f <= s && forall c | c in f :: !IsBlank(c)
  {
    if s == [] || IsBlank(s[0]) then [] else [s[0]] + Field(s[1..])
  }

  function SkipBlanks(s: string): string {
    if s != [] && IsBlank(s[0]) then SkipBlanks(s[1..]) else s
  }

  function AfterField(s: string): string {
    SkipBlanks(s[|Field(s)|..])
  }

  function ReadItem(line: string): Option<Item> {
    var owner, r1 := Field(line), AfterField(line);
    if owner == "$ORIGIN" then Some(Origin(r1))
    else if owner == "$TTL" then
      match ReadDecimal(r1)
      case None => None
      case Some(n) => Some(DefaultTtl(n))
    else
      var ttl, r2 := ReadDecimal(Field(r1)), AfterField(r1);
      var class_, r3 := Field(r2), AfterField(r2);
      var rtype, rdata := Field(r3), AfterField(r3);
      if ttl.None? || class_ != "IN" || owner == [] || rtype == [] || rdata == [] then None
      else Some(Resource(Entry(Key(owner, rtype), ttl.value, rdata)))
  }

  function ReadItems(lines: seq<string>): Option<seq<Item>> {
    if lines == [] then Some([])
    else
      match ReadItem(lines[0])
      case None => None
      case Some(item) =>
        match ReadItems(lines[1..])
        case None => None
        case Some(more) => Some([item] + more)
  }

  function ReadZoneFile(text: string): Option<seq<Item>> {
    match Lines(text, [], TOP)
    case None => None
    case Some(lines) => ReadItems(lines)
  }

  // ----- loading -----

  function EntriesOf(items: seq<Item>): Option<seq<Entry>> {
    if items == [] then Some([])
    else if !items[0].Resource? then None
    else
      match EntriesOf(items[1..])
      case None => None
      case Some(more) => Some([items[0].entry] + more)
  }

  function WithoutDot(name: string): string {
    if name != [] && name[|name| - 1] == '.' then name[..|name| - 1] else name
  }

  /** The zone that a server loads from the text: its origin, then its SOA, then the rest. */
  function LoadZoneFile(zone: string, text: string): Option<Content> {
    match ReadZoneFile(text)
    case None => None
    case Some(items) =>
      if |items| < 3 || items[0] != Origin(zone + ".") || !items[1].DefaultTtl? then None
      else
        match EntriesOf(items[2..])
        case None => None
        case Some(entries) =>
          if entries == [] || entries[0].key != Key("@", "SOA") then None
          else
            var soa := entries[0].value;
            Some(Content(Soa(WithoutDot(Field(soa)), WithoutDot(Field(AfterField(soa)))), Load(map[], entries[1..])))
  }
}
