/** Decoded JSON, and the coercions that the service applies to it. */
module Json {
  import opened Text
  import opened Wrappers

  /** A number with a fraction or an exponent is kept as its truncation and its Python text. */
  datatype Json =
    | JNull
    | JBool(b: bool)
    | JInt(n: int)
    | JFloat(truncated: int, text: string)
    | JStr(s: string)
    | JList(items: seq<Json>)
    | JObj(fields: map<string, Json>)

  /** dict.get with a default. */
  function Get(fields: map<string, Json>, key: string, default: Json): Json {
    if key in fields then fields[key] else default
  }

  /** int() of decoded JSON. */
  function AsInt(j: Json): Option<int> {
    match j
    case JInt(n) => Some(n)
    case JBool(b) => Some(if b then 1 else 0)
    case JFloat(n, _) => Some(n)
    case JStr(s) => ReadInt(Strip(s))
    case _ => None
  }

  function ReadInt(s: string): Option<int> {
    if s != [] && (s[0] == '-' || s[0] == '+') then
      match ReadDecimal(s[1..])
      case None => None
      case Some(n) =>
        var magnitude: int := n;
        Some(if s[0] == '-' then -magnitude else magnitude)
    else
      match ReadDecimal(s)
      case None => None
      case Some(n) => Some(n)
  }

  /** str() of decoded JSON; of a list or an object only the first character is kept, which no
      recogniser of the service accepts. */
  function AsText(j: Json): string {
    match j
    case JStr(s) => s
    case JNull => "None"
    case JBool(b) => if b then "True" else "False"
    case JInt(n) => if n < 0 then "-" + Decimal(-n) else Decimal(n)
    case JFloat(_, text) => text
    case JList(_) => "["
    case JObj(_) => "{"
  }

  lemma SignReads(t: string, m: nat, n: int)
    requires m + n == 0 && ReadDecimal(t) == Some(m)
    ensures ReadInt("+" + t) == Some(m) && ReadInt("-" + t) == Some(n)
  {
    assert ("-" + t)[1..] == t && ("+" + t)[1..] == t;
  }

  lemma UnsignedReads(t: string, m: nat)
    requires ReadDecimal(t) == Some(m) && t != [] && IsDigit(t[0])
    ensures ReadInt(t) == Some(m)
  {
  }

  lemma SignedReads(m: nat, n: int)
    requires m + n == 0
    ensures ReadInt(Decimal(m)) == Some(m) && ReadInt("+" + Decimal(m)) == Some(m)
    ensures ReadInt("-" + Decimal(m)) == Some(n)
  {
    ReadBackDecimal(m);
    assert Decimal(m)[0] in Decimal(m);
    UnsignedReads(Decimal(m), m);
    SignReads(Decimal(m), m, n);
  }

  lemma DigitsAreBare(t: string)
    requires t != [] && forall c | c in t :: IsDigit(c)
    ensures Bare(t) && Bare("+" + t) && Bare("-" + t)
  {
    assert t[0] in t && t[|t| - 1] in t;
    VisibleIsNotSpace(t[0]);
    VisibleIsNotSpace(t[|t| - 1]);
    VisibleIsNotSpace('-');
    VisibleIsNotSpace('+');
  }

  /** The text, with any white space around it, is read as that number. */
  ghost predicate ReadsAs(t: string, n: int) {
    forall a, b | AllSpace(a) && AllSpace(b) :: AsInt(JStr(a + t + b)) == Some(n)
  }

  lemma PaddedReads(t: string, n: int)
    requires Bare(t) && ReadInt(t) == Some(n)
    ensures ReadsAs(t, n)
  {
    forall a, b | AllSpace(a) && AllSpace(b) ensures AsInt(JStr(a + t + b)) == Some(n) {
      StripMeets(a, t, b);
    }
  }

  lemma IntTextReads(m: nat, n: int)
    requires m + n == 0
    ensures ReadsAs(Decimal(m), m) && ReadsAs("+" + Decimal(m), m) && ReadsAs("-" + Decimal(m), n)
  {
    SignedReads(m, n);
    DigitsAreBare(Decimal(m));
    PaddedReads(Decimal(m), m);
    PaddedReads("+" + Decimal(m), m);
    PaddedReads("-" + Decimal(m), n);
  }

  lemma TextOfNumber(m: nat, n: int)
    requires m + n == 0
    ensures AsText(JInt(m)) == Decimal(m) && (m > 0 ==> AsText(JInt(n)) == "-" + Decimal(m))
  {
    assert n < 0 ==> -n == m;
  }
}
