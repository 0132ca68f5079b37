/** The state file: what the service writes, and what a starting process accepts and reads. */
module StateFile {
  import opened Encoding
  import opened Journal
  import opened Json
  import opened Wrappers
  import opened Zones

  datatype FileContent = Missing | Unreadable | Parsed(json: Json)

  function TransitionFields(t: Transition): (m: map<string, Json>)
    ensures "action" in m && "previous" in m
    ensures m["action"] == JStr(if t.Upsert? then "upsert" else "delete")
    ensures t.Upsert? ==> "desired" in m && m["desired"] == EncodePayload(t.desired)
    ensures m["previous"] ==
      match t {
        case Upsert(None, _) => JNull
        case Upsert(Some(p), _) => EncodePayload(p)
        case Delete(p) => EncodePayload(p)
      }
  {
    match t
    case Upsert(previous, desired) =>
      map["action" := JStr("upsert"),
          "previous" := if previous.Some? then EncodePayload(previous.value) else JNull,
          "desired" := EncodePayload(desired)]
    case Delete(committed) =>
      map["action" := JStr("delete"), "previous" := EncodePayload(committed)]
  }

  function EncodeZones(zones: map<string, Payload>): Json {
    JObj(map z | z in zones :: EncodePayload(zones[z]))
  }

  function EncodePending(pending: map<string, Transition>): Json {
    JObj(map z | z in pending :: JObj(TransitionFields(pending[z])))
  }

  function StateFields(s: State): (m: map<string, Json>)
    ensures m.Keys == {"version", "zones", "pending"}
    ensures m["version"] == JInt(2) && m["zones"] == EncodeZones(s.zones) && m["pending"] == EncodePending(s.pending)
  {
    assert |"version"| == |"pending"| && "version"[0] != "pending"[0];
    map["version" := JInt(2), "zones" := EncodeZones(s.zones), "pending" := EncodePending(s.pending)]
  }

  /** What json.dumps is given when the state is saved. */
  function EncodeState(s: State): Json {
    JObj(StateFields(s))
  }

  /** The shape of one journal entry. */
  predicate WellShaped(transition: Json) {
    && transition.JObj?
    && var previous := Get(transition.fields, "previous", JNull);
       match Get(transition.fields, "action", JNull)
       case JStr(action) =>
         if action == "upsert" then
           Get(transition.fields, "desired", JNull).JObj? && (previous.JNull? || previous.JObj?)
         else action == "delete" && previous.JObj?
       case _ => false
  }

  /** The journal of the file; an absent one counts as empty. */
  function PendingOf(state: map<string, Json>): Json {
    Get(state, "pending", JObj(map[]))
  }

  predicate Acceptable(state: Json) {
    && state.JObj? && Get(state.fields, "zones", JNull).JObj?
    && PendingOf(state.fields).JObj?
    && forall zone | zone in PendingOf(state.fields).fields :: WellShaped(PendingOf(state.fields).fields[zone])
  }

  /** The accepted state, with the journal made explicit and the current version. */
  function Upgraded(state: map<string, Json>): Json {
    JObj(state["pending" := PendingOf(state)]["version" := JInt(2)])
  }

  function LoadedState(file: FileContent): Result<Json, Error> {
    match file
    case Missing => Ok(EncodeState(EMPTY))
    case Unreadable => Err(RuntimeError)
    case Parsed(state) => if Acceptable(state) then Ok(Upgraded(state.fields)) else Err(RuntimeError)
  }

  /** The service's own loop over the journal entries. */
  method LoadState(file: FileContent) returns (r: Result<Json, Error>)
    ensures r == LoadedState(file)
  {
    if file.Missing? {
      return Ok(EncodeState(EMPTY));
    }
    if file.Unreadable? {
      return Err(RuntimeError);
    }
    var state := file.json;
    if !state.JObj? || !Get(state.fields, "zones", JNull).JObj? {
      return Err(RuntimeError);
    }
    var pending := PendingOf(state.fields);
    if !pending.JObj? {
      return Err(RuntimeError);
    }
    var rest := pending.fields.Keys;
    while rest != {}
      invariant rest <= pending.fields.Keys
      invariant forall zone | zone in pending.fields.Keys - rest :: WellShaped(pending.fields[zone])
    {
      var zone :| zone in rest;
      if !WellShaped(pending.fields[zone]) {
        return Err(RuntimeError);
      }
      rest := rest - {zone};
    }
    return Ok(Upgraded(state.fields));
  }

  // ----- reading it as a state -----

  function DecodeStrings(js: seq<Json>): (r: Option<seq<string>>)
    ensures r.Some? <==> forall i | 0 <= i < |js| :: js[i].JStr?
    ensures r.Some? ==> |r.value| == |js| && forall i | 0 <= i < |js| :: js[i] == JStr(r.value[i])
  {
    if forall i | 0 <= i < |js| :: js[i].JStr? then Some(seq(|js|, i requires 0 <= i < |js| => js[i].s)) else None
  }

  function DecodeRecord(j: Json): Option<Record> {
    if !j.JObj? then None
    else
      var name, rtype := Get(j.fields, "name", JNull), Get(j.fields, "type", JNull);
      var ttl, values := Get(j.fields, "ttl", JNull), Get(j.fields, "values", JNull);
      if !name.JStr? || !rtype.JStr? || !ttl.JInt? || ttl.n < 0 || !values.JList? then None
      else
        match DecodeStrings(values.items)
        case None => None
        case Some(vs) => Some(Record(name.s, rtype.s, ttl.n, vs))
  }

  function DecodeRecords(js: seq<Json>): Option<seq<Record>> {
    if js == [] then Some([])
    else
      match DecodeRecord(js[0])
      case None => None
      case Some(r) =>
        match DecodeRecords(js[1..])
        case None => None
        case Some(more) => Some([r] + more)
  }

  function DecodePayload(j: Json): Option<Payload> {
    if !j.JObj? then None
    else
      var revision, ns := Get(j.fields, "revision", JNull), Get(j.fields, "nameservers", JNull);
      var m, r := Get(j.fields, "soa_mname", JNull), Get(j.fields, "soa_rname", JNull);
      var records := Get(j.fields, "records", JNull);
      if !revision.JInt? || revision.n < 0 || !ns.JList? || !m.JStr? || !r.JStr? || !records.JList? then None
      else
        match DecodeStrings(ns.items)
        case None => None
        case Some(names) =>
          match DecodeRecords(records.items)
          case None => None
          case Some(rs) => Some(Payload(revision.n, names, m.s, r.s, rs))
  }

  function DecodeTransition(j: Json): Option<Transition> {
    if !WellShaped(j) then None
    else
      var previous := DecodePayload(Get(j.fields, "previous", JNull));
      if Get(j.fields, "action", JNull) == JStr("upsert") then
        match DecodePayload(Get(j.fields, "desired", JNull))
        case None => None
        case Some(desired) => Some(Upsert(previous, desired))
      else
        match previous
        case None => None
        case Some(committed) => Some(Delete(committed))
  }

  function DecodeZones(zones: map<string, Json>): Option<map<string, Payload>> {
    if forall z | z in zones :: DecodePayload(zones[z]).Some? then
      Some(map z | z in zones :: DecodePayload(zones[z]).value)
    else None
  }

  function DecodePending(pending: map<string, Json>): Option<map<string, Transition>> {
    if forall z | z in pending :: DecodeTransition(pending[z]).Some? then
      Some(map z | z in pending :: DecodeTransition(pending[z]).value)
    else None
  }

  /** The state as the methods of the store read it. */
  function DecodeState(j: Json): Option<State> {
    if !Acceptable(j) then None
    else
      match DecodeZones(Get(j.fields, "zones", JNull).fields)
      case None => None
      case Some(zones) =>
        match DecodePending(PendingOf(j.fields).fields)
        case None => None
        case Some(pending) => Some(State(zones, pending))
  }

  // ----- saving and loading -----

  lemma DecodesStrings(ss: seq<string>)
    ensures DecodeStrings(Strings(ss)) == Some(ss)
  {
    var js := Strings(ss);
    assert forall i | 0 <= i < |ss| :: js[i] == JStr(ss[i]) && js[i] == JStr(DecodeStrings(js).value[i]);
    assert DecodeStrings(js).value == ss;
  }

  lemma DecodesRecord(r: Record)
    ensures DecodeRecord(EncodeRecord(r)) == Some(r)
  {
    RecordGets(r, JNull);
    DecodesStrings(r.values);
  }

  lemma {:induction false} DecodesRecords(rs: seq<Record>)
    ensures DecodeRecords(EncodeRecords(rs)) == Some(rs)
  {
    if rs != [] {
      DecodesRecord(rs[0]);
      DecodesRecords(rs[1..]);
      assert EncodeRecords(rs)[1..] == EncodeRecords(rs[1..]);
      assert rs == [rs[0]] + rs[1..];
    }
  }

  lemma DecodesPayload(p: Payload)
    ensures DecodePayload(EncodePayload(p)) == Some(p)
  {
    PayloadGets(p, JNull);
    DecodesStrings(p.nameservers);
    DecodesRecords(p.records);
    assert Get(PayloadFields(p), "revision", JNull) == JInt(p.revision);
  }

  lemma ActionsDiffer()
    ensures "upsert" != "delete"
  {
  }

  lemma OwnTransitionIsShaped(t: Transition)
    ensures WellShaped(JObj(TransitionFields(t)))
  {
  }

  lemma DecodesTransition(t: Transition)
    ensures DecodeTransition(JObj(TransitionFields(t))) == Some(t)
  {
    ActionsDiffer();
    OwnTransitionIsShaped(t);
    match t
    case Upsert(previous, desired) =>
      DecodesPayload(desired);
      if previous.Some? {
        DecodesPayload(previous.value);
      }
    case Delete(committed) => DecodesPayload(committed);
  }

  lemma OwnStateFields(s: State)
    ensures Get(StateFields(s), "zones", JNull) == EncodeZones(s.zones)
    ensures PendingOf(StateFields(s)) == EncodePending(s.pending)
  {
  }

  lemma OwnStateUpgrades(s: State)
    ensures Upgraded(StateFields(s)) == EncodeState(s)
  {
    OwnStateFields(s);
    assert StateFields(s)["pending" := EncodePending(s.pending)]["version" := JInt(2)] == StateFields(s);
  }

  lemma OwnStateAcceptable(s: State)
    ensures Acceptable(EncodeState(s))
  {
    OwnStateFields(s);
    forall z | z in s.pending ensures WellShaped(EncodePending(s.pending).fields[z]) {
      OwnTransitionIsShaped(s.pending[z]);
    }
  }

  lemma ReadsZones(fields: map<string, Json>, zones: map<string, Payload>)
    requires fields.Keys == zones.Keys && forall z | z in zones :: DecodePayload(fields[z]) == Some(zones[z])
    ensures DecodeZones(fields) == Some(zones)
  {
    assert forall z | z in fields :: z in zones && DecodePayload(fields[z]) == Some(zones[z]);
    assert DecodeZones(fields).Some?;
    assert DecodeZones(fields).value == zones;
  }

  lemma ZoneEncoded(zones: map<string, Payload>, z: string)
    requires z in zones
    ensures z in EncodeZones(zones).fields && EncodeZones(zones).fields[z] == EncodePayload(zones[z])
  {
  }

  lemma ZoneDecodes(zones: map<string, Payload>, z: string)
    requires z in zones
    ensures DecodePayload(EncodeZones(zones).fields[z]) == Some(zones[z])
  {
    ZoneEncoded(zones, z);
    DecodesPayload(zones[z]);
  }

  lemma EncodedKeys(zones: map<string, Payload>)
    ensures EncodeZones(zones).fields.Keys == zones.Keys
  {
  }

  lemma ZonesDecode(zones: map<string, Payload>)
    ensures DecodeZones(EncodeZones(zones).fields) == Some(zones)
  {
    var fields := EncodeZones(zones).fields;
    EncodedKeys(zones);
    forall z | z in zones ensures DecodePayload(fields[z]) == Some(zones[z]) {
      ZoneDecodes(zones, z);
    }
    ReadsZones(fields, zones);
  }

  lemma ReadsPending(fields: map<string, Json>, pending: map<string, Transition>)
    requires fields.Keys == pending.Keys && forall z | z in pending :: DecodeTransition(fields[z]) == Some(pending[z])
    ensures DecodePending(fields) == Some(pending)
  {
    assert forall z | z in fields :: z in pending && DecodeTransition(fields[z]) == Some(pending[z]);
    assert DecodePending(fields).Some?;
    assert DecodePending(fields).value == pending;
  }

  lemma PendingDecodes(pending: map<string, Transition>)
    ensures DecodePending(EncodePending(pending).fields) == Some(pending)
  {
    var fields := EncodePending(pending).fields;
    forall z | z in pending ensures DecodeTransition(fields[z]) == Some(pending[z]) {
      DecodesTransition(pending[z]);
    }
    ReadsPending(fields, pending);
  }

  /** A restart never rejects the service's own state, and reads it back unchanged, both as the
      JSON that it goes on saving and as the state that it works on. */
  lemma OwnStateLoads(s: State)
    ensures LoadedState(Parsed(EncodeState(s))) == Ok(EncodeState(s))
    ensures DecodeState(EncodeState(s)) == Some(s)
  {
    OwnStateUpgrades(s);
    OwnStateAcceptable(s);
    OwnStateFields(s);
    ZonesDecode(s.zones);
    PendingDecodes(s.pending);
  }

  /** What an entry of the journal must hold. */
  predicate EntryShape(entry: Json) {
    && entry.JObj? && "action" in entry.fields
    && (|| (&& entry.fields["action"] == JStr("upsert")
            && "desired" in entry.fields && entry.fields["desired"].JObj?
            && ("previous" in entry.fields ==> entry.fields["previous"].JNull? || entry.fields["previous"].JObj?))
        || (&& entry.fields["action"] == JStr("delete")
            && "previous" in entry.fields && entry.fields["previous"].JObj?))
  }

  predicate FileShape(j: Json) {
    && j.JObj? && "zones" in j.fields && j.fields["zones"].JObj?
    && ("pending" in j.fields ==>
          && j.fields["pending"].JObj?
          && forall zone | zone in j.fields["pending"].fields :: EntryShape(j.fields["pending"].fields[zone]))
  }

  lemma ShapesAgree(entry: Json)
    ensures WellShaped(entry) <==> EntryShape(entry)
  {
    ActionsDiffer();
  }

  /** A file is accepted exactly if it has zones and, in any journal, entries of one of the two shapes. */
  lemma LoadsIff(j: Json)
    ensures LoadedState(Parsed(j)) == if FileShape(j) then Ok(Upgraded(j.fields)) else Err(RuntimeError)
  {
    forall entry ensures WellShaped(entry) <==> EntryShape(entry) {
      ShapesAgree(entry);
    }
  }

  predicate NoJournal(fields: map<string, Json>, zones: map<string, Payload>) {
    "pending" !in fields && "zones" in fields && fields["zones"] == EncodeZones(zones)
  }

  lemma JournalAdded(fields: map<string, Json>, zones: map<string, Payload>)
    requires NoJournal(fields, zones)
    ensures Upgraded(fields).fields == fields["pending" := JObj(map[])]["version" := JInt(2)]
    ensures Get(Upgraded(fields).fields, "zones", JNull) == EncodeZones(zones)
    ensures PendingOf(Upgraded(fields).fields) == JObj(map[])
    ensures Acceptable(JObj(fields)) && Acceptable(Upgraded(fields))
  {
    assert "pending"[0] != "version"[0];
  }

  /** A file from before there was a journal: it is read with an empty one, as of the current version,
      and whatever else it holds is kept. */
  lemma WithoutJournal(fields: map<string, Json>, zones: map<string, Payload>)
    requires NoJournal(fields, zones)
    ensures LoadedState(Parsed(JObj(fields))) == Ok(JObj(fields["pending" := JObj(map[])]["version" := JInt(2)]))
    ensures DecodeState(LoadedState(Parsed(JObj(fields))).value) == Some(State(zones, map[]))
  {
    JournalAdded(fields, zones);
    ZonesDecode(zones);
    ReadsPending(map[], map[]);
  }

  /** Without a file there are no zones, and one that cannot be read is an error. */
  lemma NoFileIsEmpty()
    ensures LoadedState(Missing).Ok? && DecodeState(LoadedState(Missing).value) == Some(State(map[], map[]))
    ensures LoadedState(Unreadable) == Err(RuntimeError)
  {
    OwnStateLoads(EMPTY);
  }
}
