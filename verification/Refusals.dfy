/** What a refused request is answered: the first thing wrong with it, in the order of the service. */
module Refusals {
  import opened Acceptance
  import opened Json
  import opened Text
  import opened Validation
  import opened Wrappers
  import opened Zones

  function Unprocessable(code: string): Error {
    ApiError(422, code)
  }

  // ----- names -----

  /** At least two host labels, joined by dots. */
  ghost predicate HostnamePattern(name: string) {
    exists labels: seq<string> ::
      |labels| >= 2 && name == Joined(labels, '.') && forall l | l in labels :: HostPattern(l)
  }

  lemma LabelsAreHosts(labels: seq<string>)
    requires forall l | l in labels :: HostPattern(l)
    ensures forall l | l in labels :: HostLabel(l) && '.' !in l
  {
    forall l | l in labels ensures HostLabel(l) && '.' !in l {
      HostLabelIff(l);
      HostLabelHasNoDot(l);
    }
  }

  lemma HostnameIff(name: string)
    ensures IsHostname(name) <==> HostnamePattern(name)
  {
    if IsHostname(name) {
      SplitJoins(name, '.');
      forall l | l in Split(name, '.') ensures HostPattern(l) {
        HostLabelIff(l);
      }
    }
    if labels: seq<string> :| |labels| >= 2 && name == Joined(labels, '.') && forall l | l in labels :: HostPattern(l) {
      LabelsAreHosts(labels);
      SplitMeets(labels, '.');
    }
  }

  ghost predicate NamesHost(value: Json) {
    HostnamePattern(Trimmed(AsText(value)))
  }

  lemma HostAnswer(value: Json)
    ensures NormalizeHostname(value)
            == if NamesHost(value) then Ok(Trimmed(AsText(value))) else Err(Unprocessable("invalid_zone"))
  {
    HostnameIff(Trimmed(AsText(value)));
  }

  lemma {:induction false} HostsAnswer(done: seq<string>, items: seq<Json>)
    ensures NormalizeHostnames(done, items).Ok? <==> forall item | item in items :: NamesHost(item)
    ensures NormalizeHostnames(done, items).Err? ==>
              NormalizeHostnames(done, items).error == Unprocessable("invalid_zone")
    decreases |items|
  {
    if items != [] {
      HostAnswer(items[0]);
      assert forall item :: item in items <==> item == items[0] || item in items[1..];
      if NamesHost(items[0]) {
        HostsAnswer(done + [Trimmed(AsText(items[0]))], items[1..]);
      }
    }
  }

  // ----- identity -----

  /** What is given as nameservers: a text counts as the list of its characters. */
  function Listed(value: Json): Option<seq<Json>> {
    match value
    case JList(items) => Some(items)
    case JStr(s) => Some(seq(|s|, i requires 0 <= i < |s| => JStr([s[i]])))
    case _ => None
  }

  ghost function NameserverComplaint(value: Json): Error {
    match Listed(value)
    case None => if value.JObj? then Unprocessable("invalid_nameservers") else UncaughtError
    case Some(items) =>
      if exists item :: item in items && !NamesHost(item) then Unprocessable("invalid_zone")
      else Unprocessable("invalid_nameservers")
  }

  ghost function IdentityComplaint(fields: map<string, Json>): Error {
    var mname, rname := Get(fields, "soa_mname", JNull), Get(fields, "soa_rname", JNull);
    if !GoodNameservers(fields) then NameserverComplaint(Get(fields, "nameservers", JList([])))
    else if !NamesHost(mname) || !NamesHost(rname) then Unprocessable("invalid_zone")
    else if !Named(fields, "soa_mname", "ns1.hyrule.host") || !Named(fields, "soa_rname", "hostmaster.hyrule.host")
    then Unprocessable("invalid_soa")
    else Unprocessable("dnssec_required")
  }

  lemma NameserverAnswer(value: Json, expected: seq<string>)
    requires NormalizeNameservers(value) != Ok(expected)
    ensures NameserverComplaint(value)
            == match NormalizeNameservers(value)
               case Err(e) => e
               case Ok(_) => Unprocessable("invalid_nameservers")
  {
    match Iterated(value)
    case Err(_) =>
    case Ok(items) => HostsAnswer([], items);
  }

  lemma IdentityAnswer(fields: map<string, Json>)
    requires !GoodIdentity(fields)
    ensures NormalizeIdentity(fields) == Err(IdentityComplaint(fields))
  {
    var servers := Get(fields, "nameservers", JList([]));
    var mname, rname := Get(fields, "soa_mname", JNull), Get(fields, "soa_rname", JNull);
    NameserversIff(fields);
    SoaNamesIff(fields);
    HostAnswer(mname);
    HostAnswer(rname);
    if !GoodNameservers(fields) {
      NameserverAnswer(servers, NAMESERVERS);
    }
    IdentityFirst(NormalizeNameservers(servers), NormalizeHostname(mname), NormalizeHostname(rname),
      Get(fields, "dnssec", JNull) == JBool(true));
  }

  lemma IdentityFirst(ns: Result<seq<string>, Error>, m: Result<string, Error>, r: Result<string, Error>, dnssec: bool)
    ensures IdentityFrom(ns, m, r, dnssec).Err? ==>
              IdentityFrom(ns, m, r, dnssec).error
              == if ns.Err? then ns.error
                 else if ns.value != NAMESERVERS then Unprocessable("invalid_nameservers")
                 else if m.Err? then m.error
                 else if r.Err? then r.error
                 else if m.value != SOA_MNAME || r.value != SOA_RNAME then Unprocessable("invalid_soa")
                 else Unprocessable("dnssec_required")
  {
  }

  // ----- records -----

  function RequestedKeys(raws: seq<Json>): set<Key> {
    set raw | raw in raws :: RequestedKey(raw)
  }

  /** The answer to a record that is not good, or has one of the keys before it. */
  ghost function RecordComplaint(raw: Json, before: set<Key>): Error {
    if !raw.JObj? then Unprocessable("invalid_record")
    else
      var owner, rtype := RequestedOwner(raw.fields), RequestedType(raw.fields);
      if !(owner == "@" || OwnerNamePattern(owner)) || !GoodType(rtype) then Unprocessable("invalid_record")
      else if owner == "@" && (rtype == "NS" || rtype == "CNAME") then Unprocessable("protected_record")
      else if Key(owner, rtype) in before then Unprocessable("duplicate_rrset")
      else Unprocessable("invalid_record")
  }

  lemma {:induction false} ValuesAnswer(canon: Canonical6, rtype: string, done: seq<string>, raws: seq<Json>)
    ensures NormalizeValues(canon, rtype, done, raws).Err? ==>
              NormalizeValues(canon, rtype, done, raws).error == Unprocessable("invalid_record")
    decreases |raws|
  {
    if raws != [] && NormalizeValue(canon, rtype, raws[0]).Ok? {
      var v := NormalizeValue(canon, rtype, raws[0]).value;
      ValuesAnswer(canon, rtype, if v in done then done else done + [v], raws[1..]);
    }
  }

  lemma RestAnswer(canon: Canonical6, raw: Json, key: Key)
    requires raw.JObj?
    ensures RestOf(canon, raw, key).Err? ==> RestOf(canon, raw, key).error == Unprocessable("invalid_record")
  {
    var values := Get(raw.fields, "values", JNull);
    if values.JList? {
      ValuesAnswer(canon, key.rtype, [], values.items);
    }
  }

  lemma HeadFirst(fields: map<string, Json>, owner: Result<string, Error>, rtype: string)
    requires owner == ValidateOwner(Get(fields, "name", JStr("@"))) && rtype == RequestedType(fields)
    ensures HeadOf(JObj(fields)).Err? ==>
              HeadOf(JObj(fields)).error
              == if owner.Err? then owner.error
                 else if rtype !in ALLOWED_TYPES then Unprocessable("invalid_record")
                 else Unprocessable("protected_record")
  {
  }

  lemma HeadAnswer(raw: Json, before: set<Key>)
    ensures HeadOf(raw).Err? ==> HeadOf(raw).error == RecordComplaint(raw, before)
  {
    if raw.JObj? {
      var name := Get(raw.fields, "name", JStr("@"));
      OwnerIff(name, RequestedOwner(raw.fields));
      TypeIff(RequestedType(raw.fields));
      HeadFirst(raw.fields, ValidateOwner(name), RequestedType(raw.fields));
      HeadIs(raw.fields, ValidateOwner(name), RequestedType(raw.fields));
    }
  }

  lemma RecordAnswer(canon: Canonical6, raw: Json, before: set<Key>)
    ensures NormalizeRecord(canon, raw, before).Ok? <==> GoodRecord(canon, raw) && RequestedKey(raw) !in before
    ensures NormalizeRecord(canon, raw, before).Ok? ==>
              NormalizeRecord(canon, raw, before).value.Id() == RequestedKey(raw)
    ensures NormalizeRecord(canon, raw, before).Err? ==>
              NormalizeRecord(canon, raw, before).error == RecordComplaint(raw, before)
  {
    HeadIff(raw);
    HeadAnswer(raw, before);
    if HeadOf(raw).Ok? {
      RestIff(canon, raw, RequestedKey(raw));
      RestAnswer(canon, raw, RequestedKey(raw));
    }
  }

  /** The first record that is not good or repeats a key. */
  ghost predicate FirstWrong(canon: Canonical6, raws: seq<Json>, i: nat) {
    && i < |raws|
    && (forall raw | raw in raws[..i] :: GoodRecord(canon, raw)) && NoKeyTwice(raws[..i])
    && !(GoodRecord(canon, raws[i]) && RequestedKey(raws[i]) !in RequestedKeys(raws[..i]))
  }

  ghost predicate RecordsComplaint(canon: Canonical6, raws: seq<Json>, e: Error) {
    exists i: nat :: FirstWrong(canon, raws, i) && e == RecordComplaint(raws[i], RequestedKeys(raws[..i]))
  }

  lemma WrongAfter(canon: Canonical6, before: seq<Json>, raw: Json, rest: seq<Json>)
    requires (forall b | b in before :: GoodRecord(canon, b)) && NoKeyTwice(before)
    requires !(GoodRecord(canon, raw) && RequestedKey(raw) !in RequestedKeys(before))
    ensures RecordsComplaint(canon, before + [raw] + rest, RecordComplaint(raw, RequestedKeys(before)))
  {
    var all, i := before + [raw] + rest, |before|;
    assert all[..i] == before && all[i] == raw;
    assert FirstWrong(canon, all, i);
  }

  lemma KeysMore(before: seq<Json>, raw: Json)
    ensures RequestedKeys(before + [raw]) == RequestedKeys(before) + {RequestedKey(raw)}
  {
    forall k | k in RequestedKeys(before) + {RequestedKey(raw)} ensures k in RequestedKeys(before + [raw]) {
      var b :| (b in before || b == raw) && RequestedKey(b) == k;
      assert b in before + [raw];
    }
  }

  lemma NoKeyTwiceMore(before: seq<Json>, raw: Json)
    requires NoKeyTwice(before) && RequestedKey(raw) !in RequestedKeys(before)
    ensures NoKeyTwice(before + [raw])
  {
    forall i, j | 0 <= i < j < |before + [raw]|
      ensures RequestedKey((before + [raw])[i]) != RequestedKey((before + [raw])[j])
    {
      assert before[i] in before;
      if j < |before| {
        assert RequestedKey(before[i]) != RequestedKey(before[j]);
      }
    }
  }

  lemma {:induction false} RecordsAnswer(canon: Canonical6, done: seq<Record>, before: seq<Json>, raws: seq<Json>)
    requires (forall b | b in before :: GoodRecord(canon, b)) && NoKeyTwice(before)
    requires Keys(done) == RequestedKeys(before)
    ensures NormalizeRecords(canon, done, raws).Err? ==>
              RecordsComplaint(canon, before + raws, NormalizeRecords(canon, done, raws).error)
    decreases |raws|
  {
    if raws != [] {
      var raw, rest := raws[0], raws[1..];
      assert before + raws == before + [raw] + rest;
      RecordAnswer(canon, raw, Keys(done));
      if NormalizeRecord(canon, raw, Keys(done)).Err? {
        WrongAfter(canon, before, raw, rest);
      } else {
        var r := NormalizeRecord(canon, raw, Keys(done)).value;
        KeysSnoc(done, r);
        KeysMore(before, raw);
        NoKeyTwiceMore(before, raw);
        RecordsAnswer(canon, done + [r], before + [raw], rest);
      }
    }
  }

  // ----- requests -----

  ghost predicate Complaint(canon: Canonical6, j: Json, e: Error) {
    if !j.JObj? then e == ApiError(400, "invalid_json")
    else if !GoodRevision(j.fields) then e == Unprocessable("invalid_revision")
    else if !GoodIdentity(j.fields) then e == IdentityComplaint(j.fields)
    else
      var records := Get(j.fields, "records", JNull);
      if !records.JList? || |records.items| > 500 then e == Unprocessable("invalid_records")
      else RecordsComplaint(canon, records.items, e)
  }

  lemma RecordListAnswer(canon: Canonical6, records: Json)
    ensures NormalizeRecordList(canon, records).Err? ==>
              if !records.JList? || |records.items| > 500
              then NormalizeRecordList(canon, records).error == Unprocessable("invalid_records")
              else RecordsComplaint(canon, records.items, NormalizeRecordList(canon, records).error)
  {
    if records.JList? {
      RecordsAnswer(canon, [], [], records.items);
      assert [] + records.items == records.items;
    }
  }

  /** A request is refused exactly if it is not good, with the error for the first thing wrong. */
  lemma RefusalIs(canon: Canonical6, j: Json)
    ensures NormalizePayload(canon, j).Err? <==> !GoodRequest(canon, j)
    ensures NormalizePayload(canon, j).Err? ==> Complaint(canon, j, NormalizePayload(canon, j).error)
  {
    AcceptedIff(canon, j);
    if j.JObj? {
      IdentityIff(j.fields);
      if !GoodIdentity(j.fields) {
        IdentityAnswer(j.fields);
      }
      RecordListAnswer(canon, Get(j.fields, "records", JNull));
    }
  }
}
