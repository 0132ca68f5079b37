/** The text of DNS values: which of it is safe in a zone file, and how plain TXT is quoted. */
module Rdata {
  import opened Text
  import opened Wrappers

  const INVALID_RECORD := ApiError(422, "invalid_record")

  /** Where a scan of master-file text stands. */
  datatype Scan = Scan(quoted: bool, escaped: bool)

  const NORMAL := Scan(false, false)

  predicate IsMeta(c: char) {
    c == ';' || c == '(' || c == ')'
  }

  /** One character further; nothing if an unquoted comment or grouping character begins. */
  function Next(at: Scan, c: char): Option<Scan> {
    if at.escaped then Some(at.(escaped := false))
    else if c == '\\' then Some(at.(escaped := true))
    else if c == '"' then Some(at.(quoted := !at.quoted))
    else if !at.quoted && IsMeta(c) then None
    else Some(at)
  }

  function Run(at: Scan, s: string): Option<Scan>
    decreases |s|
  {
    if s == [] then Some(at)
    else
      match Next(at, s[0])
      case None => None
      case Some(next) => Run(next, s[1..])
  }

  /** Free of unquoted comment and grouping characters, with every quote and escape closed. */
  predicate Plain(s: string) {
    Run(NORMAL, s) == Some(NORMAL)
  }

  lemma {:induction false} RunAppend(at: Scan, a: string, b: string)
    ensures Run(at, a + b) == match Run(at, a) { case None => None case Some(mid) => Run(mid, b) }
    decreases |a|
  {
    if a == [] {
      assert a + b == b;
    } else {
      assert (a + b)[1..] == a[1..] + b;
      if Next(at, a[0]).Some? {
        RunAppend(Next(at, a[0]).value, a[1..], b);
      }
    }
  }

  /** Accepts exactly the plain values, and returns them unchanged. */
  method ValidateNonTxtRdata(value: string) returns (r: Result<string, Error>)
    ensures r == if Plain(value) then Ok(value) else Err(INVALID_RECORD)
  {
    var quoted, escaped := false, false;
    for i := 0 to |value|
      invariant Run(NORMAL, value[..i]) == Some(Scan(quoted, escaped))
    {
      var character := value[i];
      RunAppend(NORMAL, value[..i], [character]);
      assert value[..i + 1] == value[..i] + [character];
      if escaped {
        escaped := false;
        continue;
      }
      if character == '\\' {
        escaped := true;
      } else if character == '"' {
        quoted := !quoted;
      } else if !quoted && IsMeta(character) {
        RunAppend(NORMAL, value[..i + 1], value[i + 1..]);
        assert value == value[..i + 1] + value[i + 1..];
        return Err(INVALID_RECORD);
      }
    }
    assert value[..|value|] == value;
    if quoted || escaped {
      return Err(INVALID_RECORD);
    }
    return Ok(value);
  }

  // ----- TXT -----

  /** The regular expression of quoted chunks, read from inside a chunk, just after one, and
      after the white space that follows one. */
  predicate InChunk(s: string) {
    && s != []
    && if s[0] == '"' then AfterChunk(s[1..])
       else if s[0] == '\\' then |s| >= 2 && s[1] != '\n' && InChunk(s[2..])
       else InChunk(s[1..])
  }

  predicate AfterChunk(s: string) {
    s == [] || (IsSpace(s[0]) && AfterSpace(s[1..]))
  }

  predicate AfterSpace(s: string) {
    s == [] || (if IsSpace(s[0]) then AfterSpace(s[1..]) else s[0] == '"' && InChunk(s[1..]))
  }

  /** A full match of the service's pattern for quoted TXT. */
  predicate QuotedForm(s: string) {
    s != [] && s[0] == '"' && InChunk(s[1..])
  }

  /** (?:\\.|[^"\\])* */
  predicate IsBody(s: string) {
    || s == []
    || (s[0] == '\\' && |s| >= 2 && s[1] != '\n' && IsBody(s[2..]))
    || (s[0] != '\\' && s[0] != '"' && IsBody(s[1..]))
  }

  /** A quoted body, and the white space after it. */
  datatype Chunk = Chunk(body: string, space: string) {
    function Text(): string {
      ['"'] + body + ['"'] + space
    }
  }

  function ChunksText(cs: seq<Chunk>): string {
    if cs == [] then [] else cs[0].Text() + ChunksText(cs[1..])
  }

  /** Quoted bodies with white space between them, and perhaps after the last. */
  predicate AreChunks(cs: seq<Chunk>) {
    forall i | 0 <= i < |cs| ::
      IsBody(cs[i].body) && AllSpace(cs[i].space) && (i < |cs| - 1 ==> cs[i].space != [])
  }

  /** (?:"(?:\\.|[^"\\])*"(?:\s+|$))+ as a language. */
  ghost predicate ChunksPattern(s: string) {
    exists cs :: cs != [] && AreChunks(cs) && s == ChunksText(cs)
  }

  lemma {:induction false} BodyThenQuote(body: string, after: string)
    requires IsBody(body) && AfterChunk(after)
    ensures InChunk(body + ['"'] + after)
  {
    var s := body + ['"'] + after;
    if body == [] {
      assert s[1..] == after;
    } else if body[0] == '\\' {
      assert s[2..] == body[2..] + ['"'] + after;
      BodyThenQuote(body[2..], after);
    } else {
      assert s[1..] == body[1..] + ['"'] + after;
      BodyThenQuote(body[1..], after);
    }
  }

  lemma QuoteThen(inner: string)
    requires InChunk(inner)
    ensures AfterSpace(['"'] + inner) && QuotedForm(['"'] + inner)
  {
    VisibleIsNotSpace('"');
    assert (['"'] + inner)[1..] == inner;
  }

  lemma Regrouped(quote: string, body: string, space: string, more: string)
    ensures quote + body + quote + space + more == quote + (body + quote + (space + more))
  {
  }

  lemma ChunkAfterSpace(c: Chunk, more: string)
    requires IsBody(c.body) && AfterChunk(c.space + more)
    ensures AfterSpace(c.Text() + more) && QuotedForm(c.Text() + more)
  {
    BodyThenQuote(c.body, c.space + more);
    QuoteThen(c.body + ['"'] + (c.space + more));
    Regrouped(['"'], c.body, c.space, more);
  }

  lemma {:induction false} SpacesThen(space: string, more: string)
    requires AllSpace(space) && AfterSpace(more)
    ensures AfterSpace(space + more)
    ensures space != [] || more == [] ==> AfterChunk(space + more)
  {
    if space == [] {
      assert space + more == more;
    } else {
      assert space[0] in space && forall c | c in space[1..] :: c in space;
      assert (space + more)[1..] == space[1..] + more;
      SpacesThen(space[1..], more);
    }
  }

  lemma {:induction false} ChunksAreRead(cs: seq<Chunk>)
    requires AreChunks(cs)
    ensures AfterSpace(ChunksText(cs)) && (cs != [] ==> QuotedForm(ChunksText(cs)))
  {
    if cs != [] {
      RestAreChunks(cs);
      ChunksAreRead(cs[1..]);
      SpacesThen(cs[0].space, ChunksText(cs[1..]));
      ChunkAfterSpace(cs[0], ChunksText(cs[1..]));
    }
  }

  lemma RestAreChunks(cs: seq<Chunk>)
    requires AreChunks(cs) && cs != []
    ensures AreChunks(cs[1..]) && IsBody(cs[0].body) && AllSpace(cs[0].space)
    ensures cs[1..] == [] || cs[0].space != []
  {
    forall i | 0 <= i < |cs[1..]|
      ensures IsBody(cs[1..][i].body) && AllSpace(cs[1..][i].space) && (i < |cs[1..]| - 1 ==> cs[1..][i].space != [])
    {
      assert cs[1..][i] == cs[i + 1];
    }
  }

  lemma ConsChunks(c: Chunk, rest: seq<Chunk>)
    requires IsBody(c.body) && AllSpace(c.space) && AreChunks(rest) && (rest == [] || c.space != [])
    ensures AreChunks([c] + rest) && ChunksText([c] + rest) == c.Text() + ChunksText(rest)
  {
    assert ([c] + rest)[1..] == rest;
  }

  lemma Longer(front: string, body: string, space: string, more: string)
    ensures front + (body + ['"'] + space + more) == front + body + ['"'] + space + more
  {
  }

  lemma {:induction false} BodyLonger(s: string, n: nat, body: string)
    requires IsBody(body) && n <= |s| && s != []
    requires if s[0] == '\\' then n == 2 && s[1] != '\n' else n == 1 && s[0] != '"'
    ensures IsBody(s[..n] + body)
  {
    assert (s[..n] + body)[n..] == body;
  }

  /** The body up to the closing quote, the white space after it, and the further chunks. */
  lemma {:induction false} ReadsChunk(s: string) returns (body: string, space: string, cs: seq<Chunk>)
    requires InChunk(s)
    ensures IsBody(body) && AllSpace(space) && AreChunks(cs) && (cs == [] || space != [])
    ensures s == body + ['"'] + space + ChunksText(cs)
    decreases |s|, 0
  {
    if s[0] == '"' {
      body := [];
      space, cs := ReadsSpace(s[1..]);
      assert s == ['"'] + s[1..];
      Longer(['"'], [], [], s[1..]);
    } else {
      var n := if s[0] == '\\' then 2 else 1;
      var tail: string;
      tail, space, cs := ReadsChunk(s[n..]);
      body := s[..n] + tail;
      BodyLonger(s, n, tail);
      assert s == s[..n] + s[n..];
      Longer(s[..n], tail, space, ChunksText(cs));
    }
  }

  lemma {:induction false} ReadsSpace(s: string) returns (space: string, cs: seq<Chunk>)
    requires AfterSpace(s) || AfterChunk(s)
    ensures AllSpace(space) && AreChunks(cs) && s == space + ChunksText(cs)
    ensures AfterChunk(s) ==> cs == [] || space != []
    decreases |s|, 1
  {
    if s == [] {
      space, cs := [], [];
    } else if IsSpace(s[0]) {
      var more: string;
      more, cs := ReadsSpace(s[1..]);
      space := [s[0]] + more;
      assert s == [s[0]] + s[1..];
      assert [s[0]] + (more + ChunksText(cs)) == space + ChunksText(cs);
    } else {
      space := [];
      cs := ReadsQuote(s);
    }
  }

  lemma {:induction false} ReadsQuote(s: string) returns (cs: seq<Chunk>)
    requires QuotedForm(s)
    ensures cs != [] && AreChunks(cs) && s == ChunksText(cs)
    decreases |s|, 0
  {
    var body, space, rest := ReadsChunk(s[1..]);
    var c := Chunk(body, space);
    cs := [c] + rest;
    ConsChunks(c, rest);
    assert s == ['"'] + s[1..];
    Longer(['"'], body, space, ChunksText(rest));
  }

  /** The recogniser accepts exactly the language of the service's pattern. */
  lemma QuotedFormIff(s: string)
    ensures QuotedForm(s) <==> ChunksPattern(s)
  {
    if QuotedForm(s) {
      var cs := ReadsQuote(s);
    }
    if cs :| cs != [] && AreChunks(cs) && s == ChunksText(cs) {
      ChunksAreRead(cs);
    }
  }

  /** str.replace for a pattern of one character. */
  function Replace(s: string, c: char, text: string): string {
    if s == [] then [] else (if s[0] == c then text else [s[0]]) + Replace(s[1..], c, text)
  }

  function NormalizeTxtRdata(value: string): string {
    if QuotedForm(value) then value
    else ['"'] + Replace(Replace(value, '\\', "\\\\"), '"', "\\\"") + ['"']
  }

  /** Every backslash and every quote gets a backslash in front. */
  function Escape(s: string): string {
    if s == [] then []
    else (if s[0] == '\\' || s[0] == '"' then ['\\', s[0]] else [s[0]]) + Escape(s[1..])
  }

  lemma {:induction false} ReplaceAppend(a: string, b: string, c: char, text: string)
    ensures Replace(a + b, c, text) == Replace(a, c, text) + Replace(b, c, text)
  {
    if a == [] {
      assert a + b == b;
    } else {
      assert (a + b)[1..] == a[1..] + b;
      ReplaceAppend(a[1..], b, c, text);
    }
  }

  /** The two successive replacements are the escape character by character: the second does not
      touch what the first inserted. */
  lemma {:induction false} ReplacesAreEscape(s: string)
    ensures Replace(Replace(s, '\\', "\\\\"), '"', "\\\"") == Escape(s)
  {
    if s != [] {
      ReplacesAreEscape(s[1..]);
      var head := if s[0] == '\\' then "\\\\" else [s[0]];
      ReplaceAppend(head, Replace(s[1..], '\\', "\\\\"), '"', "\\\"");
      assert "\\\\"[1..] == ['\\'] && ['\\'][1..] == [];
      assert [s[0]][1..] == [];
      assert Replace([], '"', "\\\"") == [];
      assert Replace(['\\'], '"', "\\\"") == ['\\'];
      assert "\\\"" == ['\\', '"'];
    }
  }

  lemma {:induction false} PlainEscape(s: string)
    requires forall c | c in s :: c != '\\' && c != '"'
    ensures Escape(s) == s
  {
    if s != [] {
      assert s[0] in s && forall c | c in s[1..] :: c in s;
      PlainEscape(s[1..]);
      assert s == [s[0]] + s[1..];
    }
  }

  /** One character of a character-string in the sense of section 5.1 of RFC 1035: a backslash
      with three digits is an octet, with any other character that character. */
  function ReadUnit(s: string): Option<(char, nat)>
    requires s != []
    ensures ReadUnit(s).Some? ==> 1 <= ReadUnit(s).value.1 <= |s|
  {
    if s[0] != '\\' then Some((s[0], 1))
    else if |s| < 2 then None
    else if !IsDigit(s[1]) then Some((s[1], 2))
    else if |s| < 4 || !IsDigit(s[2]) || !IsDigit(s[3]) then None
    else
      var code := 100 * DigitValue(s[1]) + 10 * DigitValue(s[2]) + DigitValue(s[3]);
      if code > 255 then None else Some((code as char, 4))
  }

  /** The rest of a quoted character-string, and the text after its closing quote. */
  function ReadQuoted(s: string): Option<(string, string)>
    ensures ReadQuoted(s).Some? ==> |ReadQuoted(s).value.1| < |s|
  {
    if s == [] then None
    else if s[0] == '"' then Some(([], s[1..]))
    else
      match ReadUnit(s)
      case None => None
      case Some((c, n)) =>
        match ReadQuoted(s[n..])
        case None => None
        case Some((text, rest)) => Some(([c] + text, rest))
  }

  /** The rest of an unquoted character-string, up to the next blank or quote. */
  function ReadBare(s: string): Option<(string, string)>
    ensures ReadBare(s).Some? ==> |ReadBare(s).value.1| <= |s|
    ensures ReadBare(s).Some? && s != [] && s[0] !in " \t\"" ==> |ReadBare(s).value.1| < |s|
  {
    if s == [] || s[0] in " \t\"" then Some(([], s))
    else
      match ReadUnit(s)
      case None => None
      case Some((c, n)) =>
        match ReadBare(s[n..])
        case None => None
        case Some((text, rest)) => Some(([c] + text, rest))
  }

  /** The character-strings that the RDATA text denotes, by section 5.1 of RFC 1035. */
  function CharacterStrings(s: string): Option<seq<string>>
    decreases |s|
  {
    if s == [] then Some([])
    else if s[0] in " \t" then CharacterStrings(s[1..])
    else
      match if s[0] == '"' then ReadQuoted(s[1..]) else ReadBare(s)
      case None => None
      case Some((text, rest)) =>
        match CharacterStrings(rest)
        case None => None
        case Some(more) => Some([text] + more)
  }

  lemma EscapedUnit(c: char, more: string)
    ensures var head := if c == '\\' || c == '"' then ['\\', c] else [c];
            && ReadUnit(head + more) == Some((c, |head|)) && (head + more)[|head|..] == more && (head + more)[0] != '"'
  {
  }

  lemma {:induction false} ReadEscaped(s: string, rest: string)
    ensures ReadQuoted(Escape(s) + ['"'] + rest) == Some((s, rest))
  {
    if s == [] {
      assert Escape(s) + ['"'] + rest == ['"'] + rest;
    } else {
      var more := Escape(s[1..]) + ['"'] + rest;
      var head := if s[0] == '\\' || s[0] == '"' then ['\\', s[0]] else [s[0]];
      assert Escape(s) + ['"'] + rest == head + more;
      EscapedUnit(s[0], more);
      ReadEscaped(s[1..], rest);
      assert s == [s[0]] + s[1..];
    }
  }

  lemma OneQuotedString(body: string, text: string)
    requires ReadQuoted(body) == Some((text, []))
    ensures CharacterStrings(['"'] + body) == Some([text])
  {
    var all := ['"'] + body;
    assert all[0] == '"' && all[1..] == body;
    assert '"' !in " \t";
    var none: string := [];
    assert CharacterStrings(none) == Some([]);
    assert [text] + [] == [text];
  }

  /** Plain text survives: the quoted text denotes one character-string, the input itself. */
  lemma TxtRoundTrip(value: string)
    requires !QuotedForm(value)
    ensures CharacterStrings(NormalizeTxtRdata(value)) == Some([value])
  {
    ReplacesAreEscape(value);
    ReadEscaped(value, []);
    var body := Escape(value) + ['"'];
    assert body + [] == body;
    assert NormalizeTxtRdata(value) == ['"'] + body;
    OneQuotedString(body, value);
  }

  lemma {:induction false} EscapedIsChunk(s: string)
    ensures InChunk(Escape(s) + ['"'])
  {
    if s == [] {
      assert Escape(s) + ['"'] == ['"'];
    } else {
      EscapedIsChunk(s[1..]);
      var all := Escape(s) + ['"'];
      var n := if s[0] == '\\' || s[0] == '"' then 2 else 1;
      assert all[n..] == Escape(s[1..]) + ['"'];
    }
  }

  lemma NormalizedIs(value: string)
    requires !QuotedForm(value)
    ensures NormalizeTxtRdata(value) == ['"'] + (Escape(value) + ['"'])
  {
    ReplacesAreEscape(value);
  }

  /** Whatever the input, the result is in quoted form, so normalising again changes nothing. */
  lemma TxtIdempotent(value: string)
    ensures QuotedForm(NormalizeTxtRdata(value))
    ensures NormalizeTxtRdata(NormalizeTxtRdata(value)) == NormalizeTxtRdata(value)
  {
    if !QuotedForm(value) {
      NormalizedIs(value);
      EscapedIsChunk(value);
      QuoteThen(Escape(value) + ['"']);
    }
  }

  lemma {:induction false} ChunkIsPlain(s: string)
    ensures InChunk(s) ==> Run(Scan(true, false), s) == Some(NORMAL)
    ensures AfterSpace(s) ==> Run(NORMAL, s) == Some(NORMAL)
    ensures AfterChunk(s) ==> Run(NORMAL, s) == Some(NORMAL)
    decreases |s|
  {
    if s != [] {
      if s[0] == '\\' || s[0] == '"' || IsMeta(s[0]) {
        VisibleIsNotSpace(s[0]);
      }
      ChunkIsPlain(s[1..]);
      if |s| >= 2 {
        ChunkIsPlain(s[2..]);
        assert s[1..][1..] == s[2..];
      }
    }
  }

  /** Text in quoted form, hence every stored TXT value, is plain. */
  lemma QuotedFormIsPlain(s: string)
    requires QuotedForm(s)
    ensures Plain(s)
  {
    ChunkIsPlain(s[1..]);
  }
}
