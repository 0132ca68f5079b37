/** Validation of requests: every accepted payload is brought into one canonical form. */
module Validation {
  import opened Json
  import Rdata
  import opened Text
  import opened Wrappers
  import opened Zones

  const MAX_RRSETS := 500
  const ALLOWED_TYPES := {"A", "AAAA", "CNAME", "MX", "TXT", "CAA", "SRV", "NS", "TLSA", "SVCB", "HTTPS"}

  function Invalid(code: string): Error {
    ApiError(422, code)
  }

  /** How the standard library writes an IPv6 address without a scope; nothing for other text. */
  type Canonical6 = string -> Option<string>

  /** The canonical text is a fixed point, is made of address characters, and has a colon. */
  ghost predicate Lawful(canon: Canonical6) {
    forall t | canon(t).Some? ::
      var c := canon(t).value;
      && canon(c) == Some(c)
      && ':' in c
      && forall x | x in c :: IsHex(x) || x == ':' || x == '.'
  }

  // ----- names -----

  predicate IsAlnum(c: char) {
    'a' <= c <= 'z' || IsDigit(c)
  }

  predicate HostLabel(l: string) {
    && 1 <= |l| <= 63
    && IsAlnum(l[0]) && IsAlnum(l[|l| - 1])
    && forall c | c in l :: IsAlnum(c) || c == '-'
  }

  predicate OwnerLabel(l: string) {
    || l == "*"
    || (&& 1 <= |l| <= 63
        && l[0] != '-' && l[|l| - 1] != '-'
        && forall c | c in l :: IsAlnum(c) || c == '_' || c == '-')
  }

  /** value.strip().lower().rstrip("."). */
  function Trimmed(value: string): string {
    StripDots(Lower(Strip(value)))
  }

  function ValidateZone(value: string): Result<string, Error> {
    var zone := Trimmed(value);
    var labels := Split(zone, '.');
    if |labels| == 2 && (forall l | l in labels :: HostLabel(l) && !("xn--" <= l)) then Ok(zone)
    else Err(Invalid("invalid_zone"))
  }

  predicate IsHostname(name: string) {
    |Split(name, '.')| >= 2 && forall l | l in Split(name, '.') :: HostLabel(l)
  }

  function NormalizeHostname(value: Json): Result<string, Error> {
    var hostname := Trimmed(AsText(value));
    if IsHostname(hostname) then Ok(hostname) else Err(Invalid("invalid_zone"))
  }

  /** Valid labels, and a wildcard at most in front. */
  predicate OwnerLabels(owner: string) {
    && (forall l | l in Split(owner, '.') :: OwnerLabel(l))
    && (forall l | l in Split(owner, '.')[1..] :: l != "*")
  }

  function OwnerOf(value: Json): string {
    var trimmed := Trimmed(AsText(value));
    if trimmed == [] then "@" else trimmed
  }

  function ValidateOwner(value: Json): Result<string, Error> {
    var owner := OwnerOf(value);
    if owner == "@" || OwnerLabels(owner) then Ok(owner) else Err(Rdata.INVALID_RECORD)
  }

  // ----- values -----

  predicate IsOctet(s: string) {
    && 1 <= |s| <= 3
    && (forall c | c in s :: IsDigit(c))
    && (s[0] == '0' ==> |s| == 1)
    && ReadDecimal(s).Some? && ReadDecimal(s).value <= 255
  }

  predicate IsIPv4(s: string) {
    |Split(s, '.')| == 4 && forall l | l in Split(s, '.') :: IsOctet(l)
  }

  /** str.partition: the text before the first such character; all of it if there is none. */
  function Before(s: string, c: char): (r: string)
    ensures r <= s && c !in r && (|r| < |s| ==> s[|r|] == c)
  {
    if s == [] || s[0] == c then [] else [s[0]] + Before(s[1..], c)
  }

  /** What follows the first such character. */
  function After(s: string, c: char): string {
    var head := Before(s, c);
    if |head| < |s| then s[|head| + 1..] else []
  }

  /** A canonical address with its scope as given; a scope is neither empty nor split again. */
  function WithScope(address: Option<string>, scope: string): Option<string> {
    if scope == [] || '%' in scope then None
    else
      match address
      case None => None
      case Some(c) => Some(c + "%" + scope)
  }

  /** An IPv6 address as the standard library prints it. */
  function CanonicalIPv6(canon: Canonical6, value: string): Option<string> {
    if '/' in value then None
    else if '%' !in value then canon(value)
    else WithScope(canon(Before(value, '%')), After(value, '%'))
  }

  function NormalizeText(canon: Canonical6, rtype: string, value: string): Result<string, Error> {
    if rtype == "A" then
      if IsIPv4(value) then Ok(value) else Err(Rdata.INVALID_RECORD)
    else if rtype == "AAAA" then
      if IsIPv4(value) then Err(Rdata.INVALID_RECORD)
      else
        match CanonicalIPv6(canon, value)
        case None => Err(Rdata.INVALID_RECORD)
        case Some(address) => Ok(address)
    else if rtype == "TXT" then Ok(Rdata.NormalizeTxtRdata(value))
    else if Rdata.Plain(value) then Ok(value)
    else Err(Rdata.INVALID_RECORD)
  }

  predicate CleanText(value: string) {
    value != "" && forall c | c in value :: c as int >= 32 || c == '\t'
  }

  function NormalizeValue(canon: Canonical6, rtype: string, raw: Json): Result<string, Error> {
    if !raw.JStr? then Err(Rdata.INVALID_RECORD)
    else
      var value := Strip(raw.s);
      if !CleanText(value) || |value| > 4096 then Err(Rdata.INVALID_RECORD)
      else NormalizeText(canon, rtype, value)
  }

  /** The remaining values, after those already collected; repeated values are dropped. */
  function NormalizeValues(canon: Canonical6, rtype: string, done: seq<string>, raws: seq<Json>)
    : Result<seq<string>, Error>
    decreases |raws|
  {
    if raws == [] then Ok(done)
    else
      match NormalizeValue(canon, rtype, raws[0])
      case Err(e) => Err(e)
      case Ok(value) => NormalizeValues(canon, rtype, if value in done then done else done + [value], raws[1..])
  }

  // ----- records -----

  function HeadOf(raw: Json): Result<Key, Error> {
    if !raw.JObj? then Err(Rdata.INVALID_RECORD)
    else
      var owner :- ValidateOwner(Get(raw.fields, "name", JStr("@")));
      var rtype := Upper(AsText(Get(raw.fields, "type", JStr(""))));
      if rtype !in ALLOWED_TYPES then Err(Rdata.INVALID_RECORD)
      else if owner == "@" && rtype in {"NS", "CNAME"} then Err(Invalid("protected_record"))
      else Ok(Key(owner, rtype))
  }

  function RestOf(canon: Canonical6, raw: Json, key: Key): Result<Record, Error>
    requires raw.JObj?
  {
    var ttl := AsInt(Get(raw.fields, "ttl", JInt(3600)));
    var values := Get(raw.fields, "values", JNull);
    if ttl.None? || !(60 <= ttl.value <= 86400) then Err(Rdata.INVALID_RECORD)
    else if !values.JList? || !(1 <= |values.items| <= 64) then Err(Rdata.INVALID_RECORD)
    else
      var normalized :- NormalizeValues(canon, key.rtype, [], values.items);
      Ok(Record(key.owner, key.rtype, ttl.value, normalized))
  }

  /** One record, given the keys of the records before it. */
  function NormalizeRecord(canon: Canonical6, raw: Json, seen: set<Key>): Result<Record, Error> {
    var key :- HeadOf(raw);
    if key in seen then Err(Invalid("duplicate_rrset")) else RestOf(canon, raw, key)
  }

  /** The remaining records, after those already collected. */
  function NormalizeRecords(canon: Canonical6, done: seq<Record>, raws: seq<Json>): Result<seq<Record>, Error>
    decreases |raws|
  {
    if raws == [] then Ok(done)
    else
      match NormalizeRecord(canon, raws[0], Keys(done))
      case Err(e) => Err(e)
      case Ok(record) => NormalizeRecords(canon, done + [record], raws[1..])
  }

  function Insert(r: Record, sorted: seq<Record>): seq<Record> {
    if sorted == [] || KeyLeq(r.Id(), sorted[0].Id()) then [r] + sorted
    else [sorted[0]] + Insert(r, sorted[1..])
  }

  /** list.sort by name and type. */
  function SortRecords(rs: seq<Record>): seq<Record> {
    if rs == [] then [] else Insert(rs[0], SortRecords(rs[1..]))
  }

  // ----- payloads -----

  function NormalizeHostnames(done: seq<string>, items: seq<Json>): Result<seq<string>, Error>
    decreases |items|
  {
    if items == [] then Ok(done)
    else
      match NormalizeHostname(items[0])
      case Err(e) => Err(e)
      case Ok(name) => NormalizeHostnames(done + [name], items[1..])
  }

  /** What iterating over the given nameservers yields. */
  function Iterated(j: Json): Result<seq<Json>, Error> {
    match j
    case JList(items) => Ok(items)
    case JStr(s) => Ok(seq(|s|, i requires 0 <= i < |s| => JStr([s[i]])))
    case JObj(_) => Err(Invalid("invalid_nameservers"))
    case _ => Err(UncaughtError)
  }

  /** The managed identity: nameservers, SOA names, and DNSSEC switched on. */
  datatype Identity = Identity(nameservers: seq<string>, mname: string, rname: string)

  const MANAGED := Identity(NAMESERVERS, SOA_MNAME, SOA_RNAME)

  /** The nameservers first, then the SOA names, then the DNSSEC switch. */
  function IdentityFrom(nameservers: Result<seq<string>, Error>, mname: Result<string, Error>,
    rname: Result<string, Error>, dnssec: bool): Result<Identity, Error>
  {
    match nameservers
    case Err(e) => Err(e)
    case Ok(ns) =>
      if ns != MANAGED.nameservers then Err(Invalid("invalid_nameservers"))
      else
        match mname
        case Err(e) => Err(e)
        case Ok(m) =>
          match rname
          case Err(e) => Err(e)
          case Ok(r) =>
            if Identity(ns, m, r) != MANAGED then Err(Invalid("invalid_soa"))
            else if !dnssec then Err(Invalid("dnssec_required"))
            else Ok(Identity(ns, m, r))
  }

  function NormalizeNameservers(j: Json): Result<seq<string>, Error> {
    match Iterated(j)
    case Err(e) => Err(e)
    case Ok(items) => NormalizeHostnames([], items)
  }

  function NormalizeIdentity(fields: map<string, Json>): Result<Identity, Error> {
    IdentityFrom(
      NormalizeNameservers(Get(fields, "nameservers", JList([]))),
      NormalizeHostname(Get(fields, "soa_mname", JNull)),
      NormalizeHostname(Get(fields, "soa_rname", JNull)),
      Get(fields, "dnssec", JNull) == JBool(true))
  }

  function NormalizeRecordList(canon: Canonical6, records: Json): Result<seq<Record>, Error> {
    if !records.JList? || |records.items| > MAX_RRSETS then Err(Invalid("invalid_records"))
    else
      match NormalizeRecords(canon, [], records.items)
      case Err(e) => Err(e)
      case Ok(normalized) => Ok(SortRecords(normalized))
  }

  function NormalizeRevision(fields: map<string, Json>): Result<nat, Error> {
    match if "revision" in fields then AsInt(fields["revision"]) else None
    case None => Err(Invalid("invalid_revision"))
    case Some(revision) => if revision < 1 then Err(Invalid("invalid_revision")) else Ok(revision)
  }

  function NormalizePayload(canon: Canonical6, payload: Json): Result<Payload, Error> {
    if !payload.JObj? then Err(ApiError(400, "invalid_json"))
    else
      var revision :- NormalizeRevision(payload.fields);
      var identity :- NormalizeIdentity(payload.fields);
      var records :- NormalizeRecordList(canon, Get(payload.fields, "records", JNull));
      Ok(Payload(revision, identity.nameservers, identity.mname, identity.rname, records))
  }

  // ----- the loops -----

  method ValidateValue(canon: Canonical6, rtype: string, raw: Json) returns (r: Result<string, Error>)
    ensures r == NormalizeValue(canon, rtype, raw)
  {
    if !raw.JStr? {
      return Err(Rdata.INVALID_RECORD);
    }
    var value := Strip(raw.s);
    if !CleanText(value) || |value| > 4096 {
      return Err(Rdata.INVALID_RECORD);
    }
    if rtype in {"A", "AAAA", "TXT"} {
      r := NormalizeText(canon, rtype, value);
    } else {
      r := Rdata.ValidateNonTxtRdata(value);
    }
  }

  /** The value loop of one record. */
  method ValidateValues(canon: Canonical6, rtype: string, raws: seq<Json>) returns (r: Result<seq<string>, Error>)
    ensures r == NormalizeValues(canon, rtype, [], raws)
  {
    var normalized: seq<string> := [];
    for i := 0 to |raws|
      invariant NormalizeValues(canon, rtype, normalized, raws[i..]) == NormalizeValues(canon, rtype, [], raws)
    {
      assert raws[i..][0] == raws[i] && raws[i..][1..] == raws[i + 1..];
      var value: string :- ValidateValue(canon, rtype, raws[i]);
      if value !in normalized {
        normalized := normalized + [value];
      }
    }
    return Ok(normalized);
  }

  method ValidateRecord(canon: Canonical6, raw: Json, seen: set<Key>) returns (r: Result<Record, Error>)
    ensures r == NormalizeRecord(canon, raw, seen)
    ensures r.Ok? ==> HeadOf(raw) == Ok(r.value.Id())
  {
    var key: Key :- HeadOf(raw);
    if key in seen {
      return Err(Invalid("duplicate_rrset"));
    }
    var ttl := AsInt(Get(raw.fields, "ttl", JInt(3600)));
    if ttl.None? || !(60 <= ttl.value <= 86400) {
      return Err(Rdata.INVALID_RECORD);
    }
    var values := Get(raw.fields, "values", JNull);
    if !values.JList? || !(1 <= |values.items| <= 64) {
      return Err(Rdata.INVALID_RECORD);
    }
    var normalized: seq<string> :- ValidateValues(canon, key.rtype, values.items);
    return Ok(Record(key.owner, key.rtype, ttl.value, normalized));
  }

  /** The record loop, with the set of keys seen so far. */
  method ValidateRecords(canon: Canonical6, raws: seq<Json>) returns (r: Result<seq<Record>, Error>)
    ensures r == NormalizeRecords(canon, [], raws)
  {
    var normalized: seq<Record> := [];
    var seen: set<Key> := {};
    for i := 0 to |raws|
      invariant NormalizeRecords(canon, normalized, raws[i..]) == NormalizeRecords(canon, [], raws)
      invariant seen == Keys(normalized)
    {
      assert raws[i..][0] == raws[i] && raws[i..][1..] == raws[i + 1..];
      var record: Record :- ValidateRecord(canon, raws[i], seen);
      KeysSnoc(normalized, record);
      seen := seen + {record.Id()};
      normalized := normalized + [record];
    }
    return Ok(normalized);
  }

  lemma KeysSnoc(rs: seq<Record>, r: Record)
    ensures Keys(rs + [r]) == Keys(rs) + {r.Id()}
  {
  }

  method ValidateHostnames(items: seq<Json>) returns (r: Result<seq<string>, Error>)
    ensures r == NormalizeHostnames([], items)
  {
    var names: seq<string> := [];
    for i := 0 to |items|
      invariant NormalizeHostnames(names, items[i..]) == NormalizeHostnames([], items)
    {
      assert items[i..][0] == items[i] && items[i..][1..] == items[i + 1..];
      var name: string :- NormalizeHostname(items[i]);
      names := names + [name];
    }
    return Ok(names);
  }

  method ValidateIdentity(fields: map<string, Json>) returns (r: Result<Identity, Error>)
    ensures r == NormalizeIdentity(fields)
  {
    var items: seq<Json> :- Iterated(Get(fields, "nameservers", JList([])));
    var nameservers: seq<string> :- ValidateHostnames(items);
    if nameservers != MANAGED.nameservers {
      return Err(Invalid("invalid_nameservers"));
    }
    var mname: string :- NormalizeHostname(Get(fields, "soa_mname", JNull));
    var rname: string :- NormalizeHostname(Get(fields, "soa_rname", JNull));
    if mname != MANAGED.mname || rname != MANAGED.rname {
      return Err(Invalid("invalid_soa"));
    }
    if Get(fields, "dnssec", JNull) != JBool(true) {
      return Err(Invalid("dnssec_required"));
    }
    return Ok(Identity(nameservers, mname, rname));
  }

  method ValidateRecordList(canon: Canonical6, records: Json) returns (r: Result<seq<Record>, Error>)
    ensures r == NormalizeRecordList(canon, records)
  {
    if !records.JList? || |records.items| > MAX_RRSETS {
      return Err(Invalid("invalid_records"));
    }
    var normalized: seq<Record> :- ValidateRecords(canon, records.items);
    return Ok(SortRecords(normalized));
  }

  /** Accepts and normalises exactly as the specification says, with the same error first. */
  method ValidatePayload(canon: Canonical6, payload: Json) returns (r: Result<Payload, Error>)
    ensures r == NormalizePayload(canon, payload)
  {
    if !payload.JObj? {
      return Err(ApiError(400, "invalid_json"));
    }
    var revision: nat :- NormalizeRevision(payload.fields);
    var identity: Identity :- ValidateIdentity(payload.fields);
    var records: seq<Record> :- ValidateRecordList(canon, Get(payload.fields, "records", JNull));
    return Ok(Payload(revision, identity.nameservers, identity.mname, identity.rname, records));
  }
}
