/** Normalised payloads as the JSON that answers, requests and the state file share. */
module Encoding {
  import opened Json
  import opened Zones

  function Strings(ss: seq<string>): (js: seq<Json>)
    ensures |js| == |ss| && forall i | 0 <= i < |ss| :: js[i] == JStr(ss[i])
  {
    seq(|ss|, i requires 0 <= i < |ss| => JStr(ss[i]))
  }

  function RecordFields(r: Record): (m: map<string, Json>)
    ensures m.Keys == {"name", "type", "ttl", "values"}
    ensures m["name"] == JStr(r.name) && m["type"] == JStr(r.rtype)
    ensures m["ttl"] == JInt(r.ttl) && m["values"] == JList(Strings(r.values))
  {
    assert "name"[0] != "type"[0];
    map["name" := JStr(r.name), "type" := JStr(r.rtype), "ttl" := JInt(r.ttl), "values" := JList(Strings(r.values))]
  }

  function EncodeRecord(r: Record): Json {
    JObj(RecordFields(r))
  }

  function EncodeRecords(rs: seq<Record>): (js: seq<Json>)
    ensures |js| == |rs| && forall i | 0 <= i < |rs| :: js[i] == EncodeRecord(rs[i])
  {
    seq(|rs|, i requires 0 <= i < |rs| => EncodeRecord(rs[i]))
  }

  function PayloadFields(p: Payload): (m: map<string, Json>)
    ensures m.Keys == {"revision", "nameservers", "soa_mname", "soa_rname", "records", "dnssec"}
    ensures m["revision"] == JInt(p.revision) && m["nameservers"] == JList(Strings(p.nameservers))
    ensures m["soa_mname"] == JStr(p.soaMname) && m["soa_rname"] == JStr(p.soaRname)
    ensures m["records"] == JList(EncodeRecords(p.records)) && m["dnssec"] == JBool(true)
  {
    assert "soa_mname"[4] != "soa_rname"[4];
    map["revision" := JInt(p.revision), "nameservers" := JList(Strings(p.nameservers)),
        "soa_mname" := JStr(p.soaMname), "soa_rname" := JStr(p.soaRname),
        "records" := JList(EncodeRecords(p.records)), "dnssec" := JBool(true)]
  }

  function EncodePayload(p: Payload): Json {
    JObj(PayloadFields(p))
  }

  lemma RecordGets(r: Record, d: Json)
    ensures Get(RecordFields(r), "name", d) == JStr(r.name)
    ensures Get(RecordFields(r), "type", d) == JStr(r.rtype)
    ensures Get(RecordFields(r), "ttl", d) == JInt(r.ttl)
    ensures Get(RecordFields(r), "values", d) == JList(Strings(r.values))
  {
  }

  lemma PayloadGets(p: Payload, d: Json)
    ensures Get(PayloadFields(p), "nameservers", d) == JList(Strings(p.nameservers))
    ensures Get(PayloadFields(p), "soa_mname", d) == JStr(p.soaMname)
    ensures Get(PayloadFields(p), "soa_rname", d) == JStr(p.soaRname)
    ensures Get(PayloadFields(p), "dnssec", d) == JBool(true)
    ensures Get(PayloadFields(p), "records", d) == JList(EncodeRecords(p.records))
  {
  }
}
