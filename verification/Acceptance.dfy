/** Which requests are accepted, and what is stored of them: both stated anew, field by field, and
    proved of the validator. */
module Acceptance {
  import CanonicalForm
  import opened Json
  import opened Ordering
  import Rdata
  import opened Text
  import opened Validation
  import opened Wrappers
  import opened Zones

  // ----- names -----

  /** The text without white space around it, in lower case, without dots at the end. */
  lemma TrimmedMeets(a: string, s: string, b: string, name: string, dots: string)
    requires AllSpace(a) && Bare(s) && AllSpace(b) && Lower(s) == name + dots
    requires AllDots(dots) && (name == [] || name[|name| - 1] != '.')
    ensures Trimmed(a + s + b) == name
  {
    StripMeets(a, s, b);
    StripDotsMeets(name, dots);
  }

  predicate LetterOrDigit(c: char) {
    'a' <= c <= 'z' || '0' <= c <= '9'
  }

  ghost predicate Framed(l: string, first: char, mid: string, last: char) {
    l == [first] + mid + [last] && |mid| <= 61
  }

  lemma FramedAt(l: string)
    requires 2 <= |l| <= 63
    ensures Framed(l, l[0], l[1..|l| - 1], l[|l| - 1]) && forall c | c in l[1..|l| - 1] :: c in l
  {
  }

  lemma FramedIs(l: string, first: char, mid: string, last: char)
    requires Framed(l, first, mid, last)
    ensures 2 <= |l| <= 63 && l[0] == first && l[|l| - 1] == last
    ensures forall c | c in l :: c == first || c in mid || c == last
  {
  }

  ghost predicate HostShape(l: string, first: char, mid: string, last: char) {
    && Framed(l, first, mid, last) && LetterOrDigit(first) && LetterOrDigit(last)
    && forall c | c in mid :: LetterOrDigit(c) || c == '-'
  }

  /** [a-z0-9](?:[a-z0-9-]{0,61}[a-z0-9])? */
  ghost predicate HostPattern(l: string) {
    (|l| == 1 && LetterOrDigit(l[0])) || (exists first, mid, last :: HostShape(l, first, mid, last))
  }

  lemma HostLabelIff(l: string)
    ensures HostLabel(l) <==> HostPattern(l)
  {
    if HostLabel(l) && |l| > 1 {
      FramedAt(l);
      forall c | c in l[1..|l| - 1] ensures LetterOrDigit(c) || c == '-' {
        assert c in l;
        assert IsAlnum(c) || c == '-';
      }
      assert HostShape(l, l[0], l[1..|l| - 1], l[|l| - 1]);
    }
    if |l| == 1 {
      assert l == [l[0]];
    } else if first, mid, last :| HostShape(l, first, mid, last) {
      FramedIs(l, first, mid, last);
    }
  }

  predicate OwnerEndChar(c: char) {
    LetterOrDigit(c) || c == '_'
  }

  ghost predicate OwnerShape(l: string, first: char, mid: string, last: char) {
    && Framed(l, first, mid, last) && OwnerEndChar(first) && OwnerEndChar(last)
    && forall c | c in mid :: OwnerEndChar(c) || c == '-'
  }

  /** \*|[a-z0-9_](?:[a-z0-9_-]{0,61}[a-z0-9_])? */
  ghost predicate OwnerPattern(l: string) {
    l == "*" || (|l| == 1 && OwnerEndChar(l[0])) || (exists first, mid, last :: OwnerShape(l, first, mid, last))
  }

  lemma OwnerLabelIff(l: string)
    ensures OwnerLabel(l) <==> OwnerPattern(l)
  {
    if OwnerLabel(l) && l != "*" && |l| > 1 {
      assert l[0] in l && l[|l| - 1] in l;
      FramedAt(l);
      forall c | c in l[1..|l| - 1] ensures OwnerEndChar(c) || c == '-' {
        assert c in l;
        assert IsAlnum(c) || c == '_' || c == '-';
      }
      assert OwnerShape(l, l[0], l[1..|l| - 1], l[|l| - 1]);
    }
    if |l| == 1 {
      assert l == [l[0]] && l[0] in l;
    } else if first, mid, last :| OwnerShape(l, first, mid, last) {
      FramedIs(l, first, mid, last);
    }
  }

  /** A zone: two host labels joined by a dot, neither of them in punycode. */
  ghost predicate ZonePattern(zone: string) {
    exists a, b :: zone == a + "." + b && HostPattern(a) && HostPattern(b) && !("xn--" <= a) && !("xn--" <= b)
  }

  lemma HostLabelHasNoDot(l: string)
    requires HostLabel(l)
    ensures '.' !in l
  {
  }

  lemma TwoLabels(a: string, b: string)
    requires '.' !in a && '.' !in b
    ensures Split(a + "." + b, '.') == [a, b]
  {
    assert [a, b][1..] == [b];
    SplitMeets([a, b], '.');
    assert Joined([a, b], '.') == a + "." + b;
  }

  lemma TwoParts(zone: string)
    requires |Split(zone, '.')| == 2
    ensures var parts := Split(zone, '.'); zone == parts[0] + "." + parts[1] && parts[0] in parts && parts[1] in parts
  {
    SplitJoins(zone, '.');
    assert Split(zone, '.')[1..] == [Split(zone, '.')[1]];
  }

  lemma AcceptedZone(zone: string)
    requires |Split(zone, '.')| == 2 && forall l | l in Split(zone, '.') :: HostLabel(l) && !("xn--" <= l)
    ensures ZonePattern(zone)
  {
    var labels := Split(zone, '.');
    TwoParts(zone);
    HostLabelIff(labels[0]);
    HostLabelIff(labels[1]);
  }

  lemma PatternZone(a: string, b: string)
    requires HostPattern(a) && HostPattern(b) && !("xn--" <= a) && !("xn--" <= b)
    ensures var labels := Split(a + "." + b, '.');
            |labels| == 2 && forall l | l in labels :: HostLabel(l) && !("xn--" <= l)
  {
    HostLabelIff(a);
    HostLabelIff(b);
    HostLabelHasNoDot(a);
    HostLabelHasNoDot(b);
    TwoLabels(a, b);
  }

  /** A zone name is accepted, in its trimmed form, exactly if that is of the pattern. */
  lemma ZoneAcceptedIff(value: string)
    ensures ValidateZone(value)
            == if ZonePattern(Trimmed(value)) then Ok(Trimmed(value)) else Err(ApiError(422, "invalid_zone"))
  {
    var zone := Trimmed(value);
    if ValidateZone(value).Ok? {
      AcceptedZone(zone);
    }
    if a, b :| zone == a + "." + b && HostPattern(a) && HostPattern(b) && !("xn--" <= a) && !("xn--" <= b) {
      PatternZone(a, b);
    }
  }

  /** An owner: labels joined by dots, a wildcard at most in front. */
  ghost predicate OwnerNamePattern(owner: string) {
    exists labels: seq<string> ::
      && labels != [] && owner == Joined(labels, '.')
      && (forall l | l in labels :: OwnerPattern(l))
      && (forall i | 1 <= i < |labels| :: labels[i] != "*")
  }

  lemma OwnerLabelHasNoDot(l: string)
    requires OwnerLabel(l)
    ensures '.' !in l
  {
  }

  lemma OwnerLabelsIff(owner: string)
    ensures OwnerLabels(owner) <==> OwnerNamePattern(owner)
  {
    var labels := Split(owner, '.');
    if OwnerLabels(owner) {
      SplitJoins(owner, '.');
      forall l | l in labels ensures OwnerPattern(l) {
        OwnerLabelIff(l);
      }
      forall i | 1 <= i < |labels| ensures labels[i] != "*" {
        assert labels[i] == labels[1..][i - 1] && labels[1..][i - 1] in labels[1..];
      }
    }
    if OwnerNamePattern(owner) {
      var parts :| parts != [] && owner == Joined(parts, '.') && (forall l | l in parts :: OwnerPattern(l))
                   && (forall i | 1 <= i < |parts| :: parts[i] != "*");
      PartsAreLabels(parts);
      SplitMeets(parts, '.');
    }
  }

  lemma PartsAreLabels(parts: seq<string>)
    requires forall l | l in parts :: OwnerPattern(l)
    ensures forall l | l in parts :: OwnerLabel(l) && '.' !in l
  {
    forall l | l in parts ensures OwnerLabel(l) && '.' !in l {
      OwnerLabelIff(l);
      OwnerLabelHasNoDot(l);
    }
  }

  // ----- values -----

  lemma DigitAdded(init: string, c: char, m: nat)
    requires IsDigit(c) && ReadDecimal(init) == Some(m) && m >= 1 && init == Decimal(m)
    ensures ReadDecimal(init + [c]) == Some(10 * m + DigitValue(c)) && init + [c] == Decimal(10 * m + DigitValue(c))
  {
    var s := init + [c];
    assert s[..|s| - 1] == init;
    assert DigitChar(DigitValue(c)) == c;
  }

  lemma OneDigit(c: char)
    requires IsDigit(c)
    ensures ReadDecimal([c]) == Some(DigitValue(c)) && [c] == Decimal(DigitValue(c))
    ensures c != '0' ==> DigitValue(c) >= 1
  {
    assert DigitChar(DigitValue(c)) == c;
  }

  lemma {:induction false} DecimalOf(s: string)
    requires s != [] && (forall c | c in s :: IsDigit(c)) && (s[0] == '0' ==> |s| == 1)
    ensures ReadDecimal(s).Some? && s == Decimal(ReadDecimal(s).value)
    ensures s[0] != '0' ==> ReadDecimal(s).value >= 1
  {
    var n := |s| - 1;
    assert s[n] in s;
    if n == 0 {
      assert s == [s[0]];
      OneDigit(s[0]);
    } else {
      var init := s[..n];
      assert forall c | c in init :: c in s;
      assert s == init + [s[n]];
      DecimalOf(init);
      DigitAdded(init, s[n], ReadDecimal(init).value);
    }
  }

  lemma OctetIff(s: string)
    ensures IsOctet(s) <==> exists n: nat :: n <= 255 && s == Decimal(n)
  {
    if IsOctet(s) {
      DecimalOf(s);
    }
    if n: nat :| n <= 255 && s == Decimal(n) {
      ReadBackDecimal(n);
      SmallDecimal(n);
    }
  }

  lemma {:induction false} NoLeadingZero(n: nat)
    requires n > 0
    ensures Decimal(n)[0] != '0'
  {
    if n >= 10 {
      NoLeadingZero(n / 10);
    }
  }

  lemma SmallDecimal(n: nat)
    requires n <= 255
    ensures |Decimal(n)| <= 3 && (Decimal(n)[0] == '0' ==> |Decimal(n)| == 1)
  {
    if n >= 10 {
      NoLeadingZero(n);
      assert |Decimal(n)| == |Decimal(n / 10)| + 1;
      if n / 10 >= 10 {
        assert |Decimal(n / 10)| == |Decimal(n / 10 / 10)| + 1;
      }
    }
  }

  /** Four numbers up to 255, in decimal, joined by dots. */
  ghost predicate DottedQuad(t: string) {
    exists a: nat, b: nat, c: nat, d: nat :: QuadOf(t, a, b, c, d)
  }

  ghost predicate QuadOf(t: string, a: nat, b: nat, c: nat, d: nat) {
    && a <= 255 && b <= 255 && c <= 255 && d <= 255
    && t == Joined([Decimal(a), Decimal(b), Decimal(c), Decimal(d)], '.')
  }

  lemma DigitsHaveNoDot(n: nat)
    ensures '.' !in Decimal(n)
  {
    assert !IsDigit('.');
  }

  ghost function OctetValue(s: string): (n: nat)
    requires IsOctet(s)
    ensures n <= 255 && s == Decimal(n)
  {
    OctetIff(s);
    var n: nat :| n <= 255 && s == Decimal(n);
    n
  }

  lemma IPv4Iff(t: string)
    ensures IsIPv4(t) <==> DottedQuad(t)
  {
    if IsIPv4(t) {
      var parts := Split(t, '.');
      SplitJoins(t, '.');
      assert parts[0] in parts && parts[1] in parts && parts[2] in parts && parts[3] in parts;
      var a, b, c, d := OctetValue(parts[0]), OctetValue(parts[1]), OctetValue(parts[2]), OctetValue(parts[3]);
      assert parts == [Decimal(a), Decimal(b), Decimal(c), Decimal(d)];
      assert QuadOf(t, a, b, c, d);
    }
    if a: nat, b: nat, c: nat, d: nat :| QuadOf(t, a, b, c, d) {
      QuadIsIPv4(t, a, b, c, d);
    }
  }

  lemma QuadIsIPv4(t: string, a: nat, b: nat, c: nat, d: nat)
    requires QuadOf(t, a, b, c, d)
    ensures IsIPv4(t)
  {
    var parts := [Decimal(a), Decimal(b), Decimal(c), Decimal(d)];
    DigitsHaveNoDot(a);
    DigitsHaveNoDot(b);
    DigitsHaveNoDot(c);
    DigitsHaveNoDot(d);
    SplitMeets(parts, '.');
    OctetIff(Decimal(a));
    OctetIff(Decimal(b));
    OctetIff(Decimal(c));
    OctetIff(Decimal(d));
  }

  /** How the address text is stored: canonical, with its scope as given. */
  ghost predicate AddressStored(canon: Canonical6, t: string, v: string) {
    && '/' !in t
    && if '%' !in t then canon(t) == Some(v)
       else exists a, scope :: Scoped(canon, t, a, scope) && v == canon(a).value + "%" + scope
  }

  ghost predicate Scoped(canon: Canonical6, t: string, a: string, scope: string) {
    t == a + "%" + scope && '%' !in a && '%' !in scope && scope != "" && canon(a).Some?
  }

  lemma AddressIff(canon: Canonical6, t: string, v: string)
    ensures CanonicalIPv6(canon, t) == Some(v) <==> AddressStored(canon, t, v)
  {
    if '%' in t && '/' !in t {
      var a, scope := Before(t, '%'), After(t, '%');
      assert t == a + "%" + scope;
      if CanonicalIPv6(canon, t) == Some(v) {
        assert Scoped(canon, t, a, scope);
      }
      if b, s :| Scoped(canon, t, b, s) && v == canon(b).value + "%" + s {
        CanonicalForm.SplitScope(b, s);
      }
    }
  }

  /** What a stripped value must be. */
  ghost predicate GoodText(canon: Canonical6, rtype: string, t: string) {
    && t != "" && |t| <= 4096 && (forall c | c in t :: c as int >= 32 || c == '\t')
    && if rtype == "A" then DottedQuad(t)
       else if rtype == "AAAA" then !DottedQuad(t) && exists v :: AddressStored(canon, t, v)
       else rtype == "TXT" || Rdata.Plain(t)
  }

  /** How a stripped value is stored: an IPv6 address in canonical form; TXT in quoted form, kept if it
      is, and else as one character-string with that text; anything else as it is. */
  ghost predicate StoredText(canon: Canonical6, rtype: string, t: string, v: string) {
    if rtype == "AAAA" then AddressStored(canon, t, v)
    else if rtype == "TXT" then
      if Rdata.ChunksPattern(t) then v == t
      else Rdata.ChunksPattern(v) && Rdata.CharacterStrings(v) == Some([t])
    else v == t
  }

  ghost predicate GoodValue(canon: Canonical6, rtype: string, raw: Json) {
    raw.JStr? && GoodText(canon, rtype, Strip(raw.s))
  }

  lemma TextStored(canon: Canonical6, rtype: string, t: string)
    requires NormalizeText(canon, rtype, t).Ok?
    ensures StoredText(canon, rtype, t, NormalizeText(canon, rtype, t).value)
  {
    var v := NormalizeText(canon, rtype, t).value;
    if rtype == "AAAA" {
      AddressIff(canon, t, v);
    } else if rtype == "TXT" {
      Rdata.QuotedFormIff(t);
      Rdata.QuotedFormIff(v);
      Rdata.TxtIdempotent(t);
      if !Rdata.QuotedForm(t) {
        Rdata.TxtRoundTrip(t);
      }
    }
  }

  lemma ValueIff(canon: Canonical6, rtype: string, raw: Json)
    ensures NormalizeValue(canon, rtype, raw).Ok? <==> GoodValue(canon, rtype, raw)
    ensures NormalizeValue(canon, rtype, raw).Ok? ==>
              StoredText(canon, rtype, Strip(raw.s), NormalizeValue(canon, rtype, raw).value)
  {
    if raw.JStr? {
      var t := Strip(raw.s);
      IPv4Iff(t);
      if NormalizeText(canon, rtype, t).Ok? {
        TextStored(canon, rtype, t);
      }
      if v :| AddressStored(canon, t, v) {
        AddressIff(canon, t, v);
      }
    }
  }

  lemma QuadExample()
    ensures QuadOf("192.0.2.1", 192, 0, 2, 1)
  {
    assert Decimal(1) == "1" && Decimal(0) == "0" && Decimal(2) == "2";
    assert Decimal(19) == "1" + "9";
    assert Decimal(192) == "19" + "2";
    var parts := ["192", "0", "2", "1"];
    assert parts[1..] == ["0", "2", "1"] && ["0", "2", "1"][1..] == ["2", "1"] && ["2", "1"][1..] == ["1"];
    assert Joined(parts, '.') == "192" + "." + ("0" + "." + ("2" + "." + "1"));
  }

  lemma QuadIsBare(t: string)
    requires DottedQuad(t)
    ensures t != [] && Bare(t) && |t| <= 15 && forall c | c in t :: c as int >= 32
  {
    var a: nat, b: nat, c: nat, d: nat :| QuadOf(t, a, b, c, d);
    var w, x, y, z := Decimal(a), Decimal(b), Decimal(c), Decimal(d);
    SmallDecimal(a);
    SmallDecimal(b);
    SmallDecimal(c);
    SmallDecimal(d);
    JoinedFour(w, x, y, z);
    assert w[0] in w && z[|z| - 1] in z && t[0] == w[0] && t[|t| - 1] == z[|z| - 1];
    VisibleIsNotSpace(t[0]);
    VisibleIsNotSpace(t[|t| - 1]);
  }

  lemma JoinedFour(w: string, x: string, y: string, z: string)
    ensures Joined([w, x, y, z], '.') == w + "." + x + "." + y + "." + z
  {
    assert [w, x, y, z][1..] == [x, y, z] && [x, y, z][1..] == [y, z] && [y, z][1..] == [z];
    assert Joined([y, z], '.') == y + "." + z;
    assert w + "." + (x + "." + (y + "." + z)) == w + "." + x + "." + y + "." + z;
  }

  /** Four numbers with white space around them are stored as they are, without it. */
  lemma QuadIsKept(canon: Canonical6, a: string, t: string, b: string)
    requires AllSpace(a) && DottedQuad(t) && AllSpace(b)
    ensures NormalizeValue(canon, "A", JStr(a + t + b)) == Ok(t)
  {
    QuadIsBare(t);
    StripMeets(a, t, b);
    ValueIff(canon, "A", JStr(a + t + b));
  }

  ghost predicate Earlier(ws: seq<string>, x: string, y: string) {
    exists k :: 0 <= k < |ws| && ws[k] == x && y !in ws[..k + 1]
  }

  /** The values without repeats, each at its first place. */
  ghost predicate FirstOccurrences(vs: seq<string>, ws: seq<string>) {
    && Distinct(vs) && Elements(vs) == Elements(ws)
    && forall i, j | 0 <= i < j < |vs| :: Earlier(ws, vs[i], vs[j])
  }

  lemma EarlierMore(ws: seq<string>, w: string, x: string, y: string)
    requires Earlier(ws, x, y)
    ensures Earlier(ws + [w], x, y)
  {
    var k :| 0 <= k < |ws| && ws[k] == x && y !in ws[..k + 1];
    assert (ws + [w])[..k + 1] == ws[..k + 1] && (ws + [w])[k] == x;
  }

  lemma EarlierNew(ws: seq<string>, w: string, x: string)
    requires x in ws && w !in ws
    ensures Earlier(ws + [w], x, w)
  {
    var k :| 0 <= k < |ws| && ws[k] == x;
    assert (ws + [w])[..k + 1] == ws[..k + 1] && (ws + [w])[k] == x;
    assert forall v | v in ws[..k + 1] :: v in ws;
  }

  lemma OccurrenceKept(vs: seq<string>, ws: seq<string>, w: string)
    requires FirstOccurrences(vs, ws) && w in vs
    ensures FirstOccurrences(vs, ws + [w])
  {
    assert w in Elements(vs);
    assert Elements(ws + [w]) == Elements(ws) + {w};
    forall i, j | 0 <= i < j < |vs| ensures Earlier(ws + [w], vs[i], vs[j]) {
      EarlierMore(ws, w, vs[i], vs[j]);
    }
  }

  lemma OccurrenceAdded(vs: seq<string>, ws: seq<string>, w: string)
    requires FirstOccurrences(vs, ws) && w !in vs
    ensures FirstOccurrences(vs + [w], ws + [w])
  {
    assert w !in Elements(vs);
    assert Elements(ws + [w]) == Elements(ws) + {w} && Elements(vs + [w]) == Elements(vs) + {w};
    forall i, j | 0 <= i < j < |vs + [w]| ensures Earlier(ws + [w], (vs + [w])[i], (vs + [w])[j]) {
      assert vs[i] in Elements(vs);
      if j < |vs| {
        EarlierMore(ws, w, vs[i], vs[j]);
      } else {
        EarlierNew(ws, w, vs[i]);
      }
    }
  }

  lemma OccurrenceStep(vs: seq<string>, ws: seq<string>, w: string)
    requires FirstOccurrences(vs, ws)
    ensures FirstOccurrences(if w in vs then vs else vs + [w], ws + [w])
  {
    if w in vs {
      OccurrenceKept(vs, ws, w);
    } else {
      OccurrenceAdded(vs, ws, w);
    }
  }

  ghost predicate GoodValues(canon: Canonical6, rtype: string, raws: seq<Json>) {
    forall raw | raw in raws :: GoodValue(canon, rtype, raw)
  }

  ghost predicate AllStored(canon: Canonical6, rtype: string, raws: seq<Json>, ws: seq<string>) {
    |ws| == |raws| && forall i | 0 <= i < |raws| :: IsStored(canon, rtype, raws[i], ws[i])
  }

  ghost predicate IsStored(canon: Canonical6, rtype: string, raw: Json, w: string) {
    raw.JStr? && StoredText(canon, rtype, Strip(raw.s), w)
  }

  lemma StoredCons(canon: Canonical6, rtype: string, raws: seq<Json>, w: string, more: seq<string>)
    requires raws != [] && IsStored(canon, rtype, raws[0], w)
    requires AllStored(canon, rtype, raws[1..], more)
    ensures AllStored(canon, rtype, raws, [w] + more)
  {
    forall i | 0 <= i < |raws| ensures IsStored(canon, rtype, raws[i], ([w] + more)[i]) {
      if i > 0 {
        assert raws[i] == raws[1..][i - 1];
      }
    }
  }

  lemma GoodValuesCons(canon: Canonical6, rtype: string, raws: seq<Json>)
    requires raws != []
    ensures GoodValues(canon, rtype, raws) <==> GoodValue(canon, rtype, raws[0]) && GoodValues(canon, rtype, raws[1..])
  {
    assert forall raw :: raw in raws <==> raw == raws[0] || raw in raws[1..];
  }

  lemma {:induction false} ValuesIff(canon: Canonical6, rtype: string, done: seq<string>, before: seq<string>,
      raws: seq<Json>) returns (ws: seq<string>)
    requires FirstOccurrences(done, before)
    ensures NormalizeValues(canon, rtype, done, raws).Ok? <==> GoodValues(canon, rtype, raws)
    ensures NormalizeValues(canon, rtype, done, raws).Ok? ==>
              && AllStored(canon, rtype, raws, ws)
              && FirstOccurrences(NormalizeValues(canon, rtype, done, raws).value, before + ws)
    decreases |raws|
  {
    ws := [];
    if raws == [] {
      assert before + ws == before;
    } else {
      ValueIff(canon, rtype, raws[0]);
      GoodValuesCons(canon, rtype, raws);
      if NormalizeValue(canon, rtype, raws[0]).Ok? {
        var w := NormalizeValue(canon, rtype, raws[0]).value;
        OccurrenceStep(done, before, w);
        var more := ValuesIff(canon, rtype, if w in done then done else done + [w], before + [w], raws[1..]);
        ws := [w] + more;
        assert before + [w] + more == before + ws;
        if NormalizeValues(canon, rtype, done, raws).Ok? {
          StoredCons(canon, rtype, raws, w, more);
        }
      }
    }
  }

  // ----- records -----

  /** The owner that a record names: the apex if it names none. */
  function RequestedOwner(fields: map<string, Json>): string {
    var name := Trimmed(AsText(if "name" in fields then fields["name"] else JStr("@")));
    if name == "" then "@" else name
  }

  function RequestedType(fields: map<string, Json>): string {
    Upper(AsText(if "type" in fields then fields["type"] else JStr("")))
  }

  function RequestedTtl(fields: map<string, Json>): Option<int> {
    if "ttl" in fields then AsInt(fields["ttl"]) else Some(3600)
  }

  function RequestedKey(raw: Json): Key {
    if raw.JObj? then Key(RequestedOwner(raw.fields), RequestedType(raw.fields)) else Key("", "")
  }

  ghost predicate GoodOwner(owner: string, rtype: string) {
    && (owner == "@" || OwnerNamePattern(owner))
    && !(owner == "@" && (rtype == "NS" || rtype == "CNAME"))
  }

  predicate GoodType(rtype: string) {
    || rtype == "A" || rtype == "AAAA" || rtype == "CNAME" || rtype == "MX" || rtype == "TXT" || rtype == "CAA"
    || rtype == "SRV" || rtype == "NS" || rtype == "TLSA" || rtype == "SVCB" || rtype == "HTTPS"
  }

  ghost predicate GoodValueList(canon: Canonical6, rtype: string, fields: map<string, Json>) {
    && "values" in fields && fields["values"].JList? && 1 <= |fields["values"].items| <= 64
    && GoodValues(canon, rtype, fields["values"].items)
  }

  ghost predicate GoodRecord(canon: Canonical6, raw: Json) {
    && raw.JObj?
    && GoodType(RequestedType(raw.fields)) && GoodOwner(RequestedOwner(raw.fields), RequestedType(raw.fields))
    && RequestedTtl(raw.fields).Some? && 60 <= RequestedTtl(raw.fields).value <= 86400
    && GoodValueList(canon, RequestedType(raw.fields), raw.fields)
  }

  /** The record stored for a requested one: its owner, its type, its TTL, and its values in order, as
      they are stored, without repeats. */
  ghost predicate StoredRecord(canon: Canonical6, raw: Json, r: Record) {
    && GoodRecord(canon, raw) && r.Id() == RequestedKey(raw) && RequestedTtl(raw.fields) == Some(r.ttl)
    && exists ws :: AllStored(canon, r.rtype, raw.fields["values"].items, ws) && FirstOccurrences(r.values, ws)
  }

  lemma PlainNameTrimmed(s: string, name: string)
    requires s != [] && '!' <= s[0] <= '~' && '!' <= s[|s| - 1] <= '~'
    requires Lower(s) == name && name[|name| - 1] != '.'
    ensures Trimmed(s) == name
  {
    VisibleIsNotSpace(s[0]);
    VisibleIsNotSpace(s[|s| - 1]);
    StripFixed(s);
    assert name + [] == name;
    StripDotsMeets(name, []);
  }

  /** A record without a name belongs to the apex, but one whose name is null to the owner "none". */
  lemma NullOwnerIsNone()
    ensures RequestedOwner(map["name" := JNull]) == "none" && RequestedOwner(map[]) == "@"
  {
    PlainNameTrimmed("None", "none");
    PlainNameTrimmed("@", "@");
  }

  lemma TypeIff(rtype: string)
    ensures rtype in ALLOWED_TYPES <==> GoodType(rtype)
  {
  }

  lemma OwnerIff(value: Json, owner: string)
    requires owner == if Trimmed(AsText(value)) == "" then "@" else Trimmed(AsText(value))
    ensures ValidateOwner(value) == if owner == "@" || OwnerNamePattern(owner) then Ok(owner)
                                    else Err(Rdata.INVALID_RECORD)
  {
    OwnerLabelsIff(owner);
  }

  lemma HeadIs(fields: map<string, Json>, owner: Result<string, Error>, rtype: string)
    requires owner == ValidateOwner(Get(fields, "name", JStr("@"))) && rtype == RequestedType(fields)
    ensures HeadOf(JObj(fields)).Ok? <==>
              owner.Ok? && rtype in ALLOWED_TYPES && !(owner.value == "@" && rtype in {"NS", "CNAME"})
    ensures HeadOf(JObj(fields)).Ok? ==> HeadOf(JObj(fields)).value == Key(owner.value, rtype)
  {
  }

  lemma HeadIff(raw: Json)
    ensures HeadOf(raw).Ok? <==>
              raw.JObj? && GoodType(RequestedType(raw.fields))
              && GoodOwner(RequestedOwner(raw.fields), RequestedType(raw.fields))
    ensures HeadOf(raw).Ok? ==> HeadOf(raw).value == RequestedKey(raw)
  {
    if raw.JObj? {
      var name := Get(raw.fields, "name", JStr("@"));
      OwnerIff(name, RequestedOwner(raw.fields));
      TypeIff(RequestedType(raw.fields));
      HeadIs(raw.fields, ValidateOwner(name), RequestedType(raw.fields));
    }
  }

  lemma RestIff(canon: Canonical6, raw: Json, key: Key)
    requires raw.JObj?
    ensures RestOf(canon, raw, key).Ok? <==>
              && RequestedTtl(raw.fields).Some? && 60 <= RequestedTtl(raw.fields).value <= 86400
              && GoodValueList(canon, key.rtype, raw.fields)
    ensures RestOf(canon, raw, key).Ok? ==>
              var r := RestOf(canon, raw, key).value;
              && r.Id() == key && RequestedTtl(raw.fields) == Some(r.ttl)
              && exists ws :: AllStored(canon, key.rtype, raw.fields["values"].items, ws)
                              && FirstOccurrences(r.values, ws)
  {
    var values := Get(raw.fields, "values", JNull);
    if values.JList? {
      var none: seq<string> := [];
      assert FirstOccurrences(none, none);
      var ws := ValuesIff(canon, key.rtype, [], [], values.items);
      assert [] + ws == ws;
    }
  }

  /** A record is accepted on its own exactly if it is good, and is stored as it should be. */
  lemma RecordIff(canon: Canonical6, raw: Json)
    ensures CanonicalForm.RecordOf(canon, raw).Ok? <==> GoodRecord(canon, raw)
    ensures CanonicalForm.RecordOf(canon, raw).Ok? ==>
              StoredRecord(canon, raw, CanonicalForm.RecordOf(canon, raw).value)
  {
    HeadIff(raw);
    if HeadOf(raw).Ok? {
      RestIff(canon, raw, HeadOf(raw).value);
    }
  }

  // ----- the whole request -----

  /** Each owner and type is requested once. */
  ghost predicate NoKeyTwice(raws: seq<Json>) {
    forall i, j | 0 <= i < j < |raws| :: RequestedKey(raws[i]) != RequestedKey(raws[j])
  }

  ghost predicate GoodRecords(canon: Canonical6, raws: seq<Json>) {
    && |raws| <= 500
    && (forall raw | raw in raws :: GoodRecord(canon, raw))
    && NoKeyTwice(raws)
  }

  /** Stored in the order of owner and type. */
  ghost predicate InOrder(rs: seq<Record>) {
    forall i, j | 0 <= i < j < |rs| ::
      if rs[i].name == rs[j].name then Leq(rs[i].rtype, rs[j].rtype) else Leq(rs[i].name, rs[j].name)
  }

  /** Every requested record has its stored one, the stored ones have distinct keys, and there are no
      others. */
  ghost predicate StoredRecords(canon: Canonical6, raws: seq<Json>, rs: seq<Record>) {
    && |rs| == |raws| && DistinctKeys(rs) && InOrder(rs)
    && (forall raw | raw in raws :: exists r :: r in rs && StoredRecord(canon, raw, r))
    && (forall r | r in rs :: exists raw :: raw in raws && StoredRecord(canon, raw, r))
  }

  /** Record by record, in the order of the request. */
  ghost predicate StoredInTurn(canon: Canonical6, raws: seq<Json>, rs: seq<Record>) {
    && |rs| == |raws|
    && (raws != [] ==> StoredRecord(canon, raws[0], rs[0]) && StoredInTurn(canon, raws[1..], rs[1..]))
  }

  lemma StoredTail(canon: Canonical6, raws: seq<Json>, rs: seq<Record>)
    requires StoredInTurn(canon, raws, rs) && raws != []
    ensures |rs| == |raws| && StoredRecord(canon, raws[0], rs[0]) && StoredInTurn(canon, raws[1..], rs[1..])
  {
  }

  lemma {:induction false} StoredAt(canon: Canonical6, raws: seq<Json>, rs: seq<Record>, i: nat, raw: Json, r: Record)
    requires StoredInTurn(canon, raws, rs) && i < |raws| == |rs| && raw == raws[i] && r == rs[i]
    ensures StoredRecord(canon, raw, r)
  {
    StoredTail(canon, raws, rs);
    if i > 0 {
      StoredAt(canon, raws[1..], rs[1..], i - 1, raw, r);
    }
  }

  lemma {:induction false} EachStored(canon: Canonical6, raws: seq<Json>)
    requires CanonicalForm.AllOk(canon, raws)
    ensures StoredInTurn(canon, raws, CanonicalForm.RecordsOf(canon, raws))
  {
    if raws != [] {
      CanonicalForm.AllOkStep(canon, raws);
      RecordIff(canon, raws[0]);
      EachStored(canon, raws[1..]);
    }
  }

  lemma StoredKey(canon: Canonical6, raw: Json, r: Record)
    requires StoredRecord(canon, raw, r)
    ensures r.Id() == RequestedKey(raw)
  {
  }

  lemma SameKeys(raws: seq<Json>, rs: seq<Record>)
    requires |rs| == |raws| && forall i | 0 <= i < |raws| :: rs[i].Id() == RequestedKey(raws[i])
    ensures DistinctKeys(rs) <==> NoKeyTwice(raws)
  {
    if DistinctKeys(rs) {
      forall i, j | 0 <= i < j < |raws| ensures RequestedKey(raws[i]) != RequestedKey(raws[j]) {
        assert rs[i].Id() != rs[j].Id();
      }
    }
    if NoKeyTwice(raws) {
      forall i, j | 0 <= i < j < |rs| ensures rs[i].Id() != rs[j].Id() {
        assert RequestedKey(raws[i]) != RequestedKey(raws[j]);
      }
    }
  }

  lemma KeysMatch(canon: Canonical6, raws: seq<Json>, rs: seq<Record>)
    requires StoredInTurn(canon, raws, rs)
    ensures DistinctKeys(rs) <==> NoKeyTwice(raws)
  {
    forall i | 0 <= i < |raws| ensures rs[i].Id() == RequestedKey(raws[i]) {
      StoredAt(canon, raws, rs, i, raws[i], rs[i]);
      StoredKey(canon, raws[i], rs[i]);
    }
    SameKeys(raws, rs);
  }

  lemma AllGoodIff(canon: Canonical6, raws: seq<Json>)
    ensures CanonicalForm.AllOk(canon, raws) <==> forall raw | raw in raws :: GoodRecord(canon, raw)
  {
    forall raw ensures CanonicalForm.RecordOf(canon, raw).Ok? <==> GoodRecord(canon, raw) {
      RecordIff(canon, raw);
    }
  }

  lemma SortedInOrder(rs: seq<Record>)
    requires CanonicalForm.SortedRecords(rs)
    ensures InOrder(rs)
  {
    forall i, j | 0 <= i < j < |rs|
      ensures if rs[i].name == rs[j].name then Leq(rs[i].rtype, rs[j].rtype) else Leq(rs[i].name, rs[j].name)
    {
      assert KeyLeq(rs[i].Id(), rs[j].Id());
    }
  }

  lemma SortedStored(canon: Canonical6, raws: seq<Json>, rs: seq<Record>)
    requires DistinctKeys(rs) && StoredInTurn(canon, raws, rs)
    ensures StoredRecords(canon, raws, SortRecords(rs))
  {
    var sorted := SortRecords(rs);
    CanonicalForm.SortSorts(rs);
    SortedInOrder(sorted);
    CanonicalForm.DistinctKeysPermutes(rs, sorted);
    assert |multiset(sorted)| == |multiset(rs)|;
    forall raw | raw in raws ensures exists r :: r in sorted && StoredRecord(canon, raw, r) {
      var i :| 0 <= i < |raws| && raws[i] == raw;
      StoredAt(canon, raws, rs, i, raws[i], rs[i]);
      assert rs[i] in multiset(rs) && rs[i] in multiset(sorted);
    }
    forall r | r in sorted ensures exists raw :: raw in raws && StoredRecord(canon, raw, r) {
      assert r in multiset(sorted) && r in multiset(rs);
      var i :| 0 <= i < |rs| && rs[i] == r;
      StoredAt(canon, raws, rs, i, raws[i], rs[i]);
      assert raws[i] in raws;
    }
  }

  lemma RecordsIff(canon: Canonical6, raws: seq<Json>)
    ensures NormalizeRecords(canon, [], raws).Ok? <==>
              (forall raw | raw in raws :: GoodRecord(canon, raw)) && NoKeyTwice(raws)
    ensures NormalizeRecords(canon, [], raws).Ok? ==>
              StoredRecords(canon, raws, SortRecords(NormalizeRecords(canon, [], raws).value))
  {
    AllGoodIff(canon, raws);
    CanonicalForm.AcceptedRecords(canon, [], raws);
    if CanonicalForm.AllOk(canon, raws) {
      var rs := CanonicalForm.RecordsOf(canon, raws);
      assert [] + rs == rs;
      EachStored(canon, raws);
      KeysMatch(canon, raws, rs);
      if DistinctKeys(rs) {
        SortedStored(canon, raws, rs);
      }
    }
  }

  /** A list of records is accepted exactly if each is good and no key repeats, and is stored. */
  lemma RecordListIff(canon: Canonical6, records: Json)
    ensures NormalizeRecordList(canon, records).Ok? <==> records.JList? && GoodRecords(canon, records.items)
    ensures NormalizeRecordList(canon, records).Ok? ==>
              StoredRecords(canon, records.items, NormalizeRecordList(canon, records).value)
  {
    if records.JList? {
      RecordsIff(canon, records.items);
    }
  }

  predicate Named(fields: map<string, Json>, field: string, name: string) {
    Trimmed(AsText(if field in fields then fields[field] else JNull)) == name
  }

  predicate TwoNamed(items: seq<Json>, a: string, b: string) {
    |items| == 2 && Trimmed(AsText(items[0])) == a && Trimmed(AsText(items[1])) == b
  }

  predicate GoodNameservers(fields: map<string, Json>) {
    && "nameservers" in fields && fields["nameservers"].JList?
    && TwoNamed(fields["nameservers"].items, "ns1.hyrule.host", "ns2.hyrule.host")
  }

  /** The identity of a managed zone. */
  predicate GoodIdentity(fields: map<string, Json>) {
    && GoodNameservers(fields)
    && Named(fields, "soa_mname", "ns1.hyrule.host") && Named(fields, "soa_rname", "hostmaster.hyrule.host")
    && "dnssec" in fields && fields["dnssec"] == JBool(true)
  }

  predicate GoodRevision(fields: map<string, Json>) {
    "revision" in fields && AsInt(fields["revision"]).Some? && AsInt(fields["revision"]).value >= 1
  }

  /** What a request must be. */
  ghost predicate GoodRequest(canon: Canonical6, j: Json) {
    && j.JObj? && GoodRevision(j.fields) && GoodIdentity(j.fields)
    && "records" in j.fields && j.fields["records"].JList? && GoodRecords(canon, j.fields["records"].items)
  }

  /** What is stored of it. */
  ghost predicate StoredPayload(canon: Canonical6, j: Json, p: Payload) {
    && GoodRequest(canon, j)
    && AsInt(j.fields["revision"]) == Some(p.revision)
    && p.nameservers == ["ns1.hyrule.host", "ns2.hyrule.host"]
    && p.soaMname == "ns1.hyrule.host" && p.soaRname == "hostmaster.hyrule.host"
    && StoredRecords(canon, j.fields["records"].items, p.records)
  }

  // ----- acceptance -----

  lemma ManagedNames()
    ensures IsHostname("ns1.hyrule.host") && IsHostname("ns2.hyrule.host") && IsHostname("hostmaster.hyrule.host")
  {
    HostnameOf("ns1");
    HostnameOf("ns2");
    HostnameOf("hostmaster");
    assert "ns1" + "." + "hyrule" + "." + "host" == "ns1.hyrule.host";
    assert "ns2" + "." + "hyrule" + "." + "host" == "ns2.hyrule.host";
    assert "hostmaster" + "." + "hyrule" + "." + "host" == "hostmaster.hyrule.host";
  }

  lemma WordIsLabel(l: string)
    requires 1 <= |l| <= 63 && forall i | 0 <= i < |l| :: LetterOrDigit(l[i])
    ensures HostLabel(l)
  {
  }

  lemma HostnameOf(first: string)
    requires 1 <= |first| <= 63 && forall i | 0 <= i < |first| :: LetterOrDigit(first[i])
    ensures IsHostname(first + "." + "hyrule" + "." + "host")
  {
    var parts := [first, "hyrule", "host"];
    WordIsLabel(first);
    WordIsLabel("hyrule");
    WordIsLabel("host");
    assert parts[1..] == ["hyrule", "host"] && ["hyrule", "host"][1..] == ["host"];
    assert Joined(["hyrule", "host"], '.') == "hyrule" + "." + "host";
    assert Joined(parts, '.') == first + "." + ("hyrule" + "." + "host");
    assert first + "." + ("hyrule" + "." + "host") == first + "." + "hyrule" + "." + "host";
    SplitMeets(parts, '.');
  }

  lemma NameIff(value: Json, name: string)
    requires IsHostname(name)
    ensures NormalizeHostname(value) == Ok(name) <==> Trimmed(AsText(value)) == name
  {
  }

  lemma {:induction false} NamesLonger(done: seq<string>, items: seq<Json>)
    ensures NormalizeHostnames(done, items).Ok? ==> |NormalizeHostnames(done, items).value| == |done| + |items|
    decreases |items|
  {
    if items != [] && NormalizeHostname(items[0]).Ok? {
      NamesLonger(done + [NormalizeHostname(items[0]).value], items[1..]);
    }
  }

  lemma TwoNames(items: seq<Json>, a: string, b: string)
    requires IsHostname(a) && IsHostname(b)
    ensures NormalizeHostnames([], items) == Ok([a, b]) <==> TwoNamed(items, a, b)
  {
    NamesLonger([], items);
    if |items| == 2 {
      NameIff(items[0], a);
      NameIff(items[1], b);
      TwoNamesLoop(items);
    }
  }

  lemma TwoNamesLoop(items: seq<Json>)
    requires |items| == 2
    ensures NormalizeHostnames([], items)
            == match NormalizeHostname(items[0])
               case Err(e) => Err(e)
               case Ok(x) =>
                 match NormalizeHostname(items[1])
                 case Err(e) => Err(e)
                 case Ok(y) => Ok([x, y])
  {
    assert items[1..][1..] == [];
    if NormalizeHostname(items[0]).Ok? {
      var x := NormalizeHostname(items[0]).value;
      assert [] + [x] == [x];
      assert items[1..] != [] && items[1..][0] == items[1];
      if NormalizeHostname(items[1]).Ok? {
        var y := NormalizeHostname(items[1]).value;
        assert [x] + [y] == [x, y];
        assert NormalizeHostnames([x], items[1..]) == NormalizeHostnames([x, y], []);
      }
    }
  }

  lemma {:induction false} StripLeftShorter(s: string)
    ensures |StripLeft(s)| <= |s|
  {
    if s != [] && IsSpace(s[0]) {
      StripLeftShorter(s[1..]);
    }
  }

  lemma {:induction false} StripRightShorter(s: string)
    ensures |StripRight(s)| <= |s|
  {
    if s != [] && IsSpace(s[|s| - 1]) {
      StripRightShorter(s[..|s| - 1]);
    }
  }

  lemma {:induction false} StripDotsShorter(s: string)
    ensures |StripDots(s)| <= |s|
  {
    if s != [] && s[|s| - 1] == '.' {
      StripDotsShorter(s[..|s| - 1]);
    }
  }

  lemma TrimmedShorter(s: string)
    ensures |Trimmed(s)| <= |s|
  {
    StripLeftShorter(s);
    StripRightShorter(StripLeft(s));
    StripDotsShorter(Lower(Strip(s)));
  }

  /** The characters of a text, one by one, are no names. */
  lemma LettersAreNoNames(s: string, name: string)
    requires s != [] && |name| > 1
    ensures Trimmed([s[0]]) != name
  {
    TrimmedShorter([s[0]]);
  }

  /** A list of the two names is the only value that is read as them. */
  lemma NamesIff(j: Json, a: string, b: string)
    requires IsHostname(a) && IsHostname(b) && |a| > 1
    ensures NormalizeNameservers(j) == Ok([a, b]) <==> j.JList? && TwoNamed(j.items, a, b)
  {
    match Iterated(j)
    case Err(_) =>
    case Ok(items) =>
      TwoNames(items, a, b);
      if j.JStr? && j.s != [] {
        LettersAreNoNames(j.s, a);
        assert AsText(items[0]) == [j.s[0]];
      }
  }

  lemma NameserversIff(fields: map<string, Json>)
    ensures NormalizeNameservers(Get(fields, "nameservers", JList([]))) == Ok(NAMESERVERS) <==> GoodNameservers(fields)
  {
    ManagedNames();
    NamesIff(Get(fields, "nameservers", JList([])), "ns1.hyrule.host", "ns2.hyrule.host");
  }

  lemma NamedIff(fields: map<string, Json>, field: string, name: string)
    requires IsHostname(name)
    ensures NormalizeHostname(Get(fields, field, JNull)) == Ok(name) <==> Named(fields, field, name)
  {
    NameIff(Get(fields, field, JNull), name);
  }

  lemma SoaNamesIff(fields: map<string, Json>)
    ensures NormalizeHostname(Get(fields, "soa_mname", JNull)) == Ok(SOA_MNAME)
            <==> Named(fields, "soa_mname", "ns1.hyrule.host")
    ensures NormalizeHostname(Get(fields, "soa_rname", JNull)) == Ok(SOA_RNAME)
            <==> Named(fields, "soa_rname", "hostmaster.hyrule.host")
  {
    ManagedNames();
    NamedIff(fields, "soa_mname", "ns1.hyrule.host");
    NamedIff(fields, "soa_rname", "hostmaster.hyrule.host");
  }

  lemma IdentityIs(ns: Result<seq<string>, Error>, m: Result<string, Error>, r: Result<string, Error>, dnssec: bool)
    ensures IdentityFrom(ns, m, r, dnssec).Ok? <==>
              ns == Ok(NAMESERVERS) && m == Ok(SOA_MNAME) && r == Ok(SOA_RNAME) && dnssec
    ensures IdentityFrom(ns, m, r, dnssec).Ok? ==> IdentityFrom(ns, m, r, dnssec).value == MANAGED
  {
  }

  /** A request without the managed names or without DNSSEC is refused. */
  lemma IdentityIff(fields: map<string, Json>)
    ensures NormalizeIdentity(fields).Ok? <==> GoodIdentity(fields)
    ensures NormalizeIdentity(fields).Ok? ==> NormalizeIdentity(fields).value == MANAGED
  {
    NameserversIff(fields);
    SoaNamesIff(fields);
    IdentityIs(
      NormalizeNameservers(Get(fields, "nameservers", JList([]))),
      NormalizeHostname(Get(fields, "soa_mname", JNull)),
      NormalizeHostname(Get(fields, "soa_rname", JNull)),
      Get(fields, "dnssec", JNull) == JBool(true));
  }

  lemma RevisionIff(fields: map<string, Json>)
    ensures NormalizeRevision(fields).Ok? <==> GoodRevision(fields)
    ensures NormalizeRevision(fields).Ok? ==> AsInt(fields["revision"]) == Some(NormalizeRevision(fields).value)
  {
  }

  lemma PayloadIs(canon: Canonical6, j: Json)
    requires j.JObj?
    ensures var revision, identity := NormalizeRevision(j.fields), NormalizeIdentity(j.fields);
            var records := NormalizeRecordList(canon, Get(j.fields, "records", JNull));
            && (NormalizePayload(canon, j).Ok? <==> revision.Ok? && identity.Ok? && records.Ok?)
            && (NormalizePayload(canon, j).Ok? ==>
                  NormalizePayload(canon, j).value
                  == Payload(revision.value, identity.value.nameservers, identity.value.mname,
                             identity.value.rname, records.value))
  {
  }

  /** A request is accepted exactly if each of its fields is as it must be, and what is stored of it is
      what it asks for. */
  lemma AcceptedIff(canon: Canonical6, j: Json)
    ensures NormalizePayload(canon, j).Ok? <==> GoodRequest(canon, j)
    ensures NormalizePayload(canon, j).Ok? ==> StoredPayload(canon, j, NormalizePayload(canon, j).value)
  {
    if j.JObj? {
      RevisionIff(j.fields);
      IdentityIff(j.fields);
      RecordListIff(canon, Get(j.fields, "records", JNull));
      PayloadIs(canon, j);
    }
  }
}
