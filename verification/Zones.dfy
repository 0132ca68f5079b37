/** Managed zones: the normalised payload, and the zone content that it stands for. */
module Zones {
  import opened Ordering
  import opened Text

  /** The fixed identity of every managed zone. */
  const NAMESERVERS := ["ns1.hyrule.host", "ns2.hyrule.host"]
  const SOA_MNAME := "ns1.hyrule.host"
  const SOA_RNAME := "hostmaster.hyrule.host"
  const DEFAULT_TTL := 3600

  /** What identifies an RRset inside a zone. */
  datatype Key = Key(owner: string, rtype: string)

  const APEX_NS := Key("@", "NS")

  datatype Record = Record(name: string, rtype: string, ttl: nat, values: seq<string>) {
    function Id(): Key {
      Key(name, rtype)
    }
  }

  datatype Payload = Payload(
    revision: nat,
    nameservers: seq<string>,
    soaMname: string,
    soaRname: string,
    records: seq<Record>)

  predicate KeyLeq(a: Key, b: Key) {
    if a.owner == b.owner then Leq(a.rtype, b.rtype) else Leq(a.owner, b.owner)
  }

  lemma KeyLeqIsTotalOrder()
    ensures TotalOrder(KeyLeq)
  {
    LeqIsTotalOrder();
  }

  /** sorted() of a set of keys. */
  ghost function SortKeys(keys: set<Key>): (r: seq<Key>)
    ensures Sorted(KeyLeq, r) && Distinct(r) && Elements(r) == keys
  {
    KeyLeqIsTotalOrder();
    SortSet(KeyLeq, keys)
  }

  lemma SortKeysUnique(r: seq<Key>, keys: set<Key>)
    requires Sorted(KeyLeq, r) && Distinct(r) && Elements(r) == keys
    ensures r == SortKeys(keys)
  {
    KeyLeqIsTotalOrder();
    SortedSetUnique(KeyLeq, r, keys);
  }

  function Keys(records: seq<Record>): set<Key> {
    set r | r in records :: r.Id()
  }

  ghost predicate DistinctKeys(records: seq<Record>) {
    forall i, j :: 0 <= i < j < |records| ==> records[i].Id() != records[j].Id()
  }

  /** What validation guarantees of a payload and the store relies on. */
  ghost predicate Managed(p: Payload) {
    && p.nameservers == NAMESERVERS
    && p.soaMname == SOA_MNAME
    && p.soaRname == SOA_RNAME
    && DistinctKeys(p.records)
    && APEX_NS !in Keys(p.records)
    && forall r | r in p.records :: r.values != []
  }

  /** Served content.  The SOA serial and whatever signing adds are not part of it. */
  datatype RRset = RRset(ttl: nat, values: set<string>)
  datatype Soa = Soa(mname: string, rname: string)
  datatype Content = Content(soa: Soa, rrsets: map<Key, RRset>)

  /** One resource record: a line of a zone file, or one zone-set command. */
  datatype Entry = Entry(key: Key, ttl: nat, value: string)

  function AddEntry(m: map<Key, RRset>, e: Entry): map<Key, RRset> {
    m[e.key := RRset(e.ttl, (if e.key in m then m[e.key].values else {}) + {e.value})]
  }

  /** Adds the entries one by one, in order. */
  function Load(m: map<Key, RRset>, entries: seq<Entry>): map<Key, RRset> {
    if entries == [] then m
    else AddEntry(Load(m, entries[..|entries| - 1]), entries[|entries| - 1])
  }

  function RecordEntries(r: Record): (es: seq<Entry>)
    ensures |es| == |r.values|
  {
    seq(|r.values|, i requires 0 <= i < |r.values| => Entry(r.Id(), r.ttl, r.values[i]))
  }

  function RecordsEntries(rs: seq<Record>): seq<Entry> {
    if rs == [] then [] else RecordsEntries(rs[..|rs| - 1]) + RecordEntries(rs[|rs| - 1])
  }

  function NsEntries(nameservers: seq<string>): seq<Entry> {
    seq(|nameservers|, i requires 0 <= i < |nameservers| => Entry(APEX_NS, DEFAULT_TTL, nameservers[i] + "."))
  }

  /** The zone's records, except the SOA, in the order in which the zone file lists them. */
  function Entries(p: Payload): seq<Entry> {
    NsEntries(p.nameservers) + RecordsEntries(p.records)
  }

  function ContentOf(p: Payload): Content {
    Content(Soa(p.soaMname, p.soaRname), Load(map[], Entries(p)))
  }

  /** The reference meaning of a payload, stated without any order of insertion. */
  ghost predicate Serves(c: Content, p: Payload) {
    && c.soa == Soa(p.soaMname, p.soaRname)
    && c.rrsets.Keys == Keys(p.records) + {APEX_NS}
    && c.rrsets[APEX_NS] == RRset(DEFAULT_TTL, set n | n in p.nameservers :: n + ".")
    && (forall r | r in p.records :: c.rrsets[r.Id()] == RRset(r.ttl, Elements(r.values)))
  }

  lemma ServesUnique(a: Content, b: Content, p: Payload)
    requires Serves(a, p) && Serves(b, p)
    ensures a == b
  {
  }

  lemma {:induction false} LoadAppend(m: map<Key, RRset>, a: seq<Entry>, b: seq<Entry>)
    ensures Load(m, a + b) == Load(Load(m, a), b)
  {
    if b == [] {
      assert a + b == a;
    } else {
      var n := |b| - 1;
      assert (a + b)[..|a + b| - 1] == a + b[..n];
      LoadAppend(m, a, b[..n]);
    }
  }

  lemma LoadSnoc(m: map<Key, RRset>, es: seq<Entry>, e: Entry)
    ensures Load(m, es + [e]) == AddEntry(Load(m, es), e)
  {
    assert (es + [e])[..|es|] == es;
  }

  function ValuesOf(es: seq<Entry>): set<string> {
    set e | e in es :: e.value
  }

  lemma ValuesSnoc(es: seq<Entry>, e: Entry)
    ensures ValuesOf(es + [e]) == ValuesOf(es) + {e.value}
  {
  }

  /** Loading entries that share a key and a TTL adds one RRset with their values. */
  lemma {:induction false} LoadOneKey(m: map<Key, RRset>, es: seq<Entry>, k: Key, ttl: nat)
    requires k !in m && es != []
    requires forall e | e in es :: e.key == k && e.ttl == ttl
    ensures Load(m, es) == m[k := RRset(ttl, ValuesOf(es))]
  {
    var init, last := es[..|es| - 1], es[|es| - 1];
    assert es == init + [last];
    LoadSnoc(m, init, last);
    ValuesSnoc(init, last);
    if init == [] {
      assert ValuesOf(init) == {};
    } else {
      LoadOneKey(m, init, k, ttl);
    }
  }

  lemma LoadRecord(m: map<Key, RRset>, r: Record)
    requires r.Id() !in m && r.values != []
    ensures Load(m, RecordEntries(r)) == m[r.Id() := RRset(r.ttl, Elements(r.values))]
  {
    var es := RecordEntries(r);
    LoadOneKey(m, es, r.Id(), r.ttl);
    forall v | v in r.values ensures v in ValuesOf(es) {
      var i :| 0 <= i < |r.values| && r.values[i] == v;
      assert es[i].value == v;
    }
    assert ValuesOf(es) == Elements(r.values);
  }

  ghost predicate Extended(m: map<Key, RRset>, out: map<Key, RRset>, rs: seq<Record>) {
    && out.Keys == m.Keys + Keys(rs)
    && (forall k | k in m :: out[k] == m[k])
    && (forall r | r in rs :: out[r.Id()] == RRset(r.ttl, Elements(r.values)))
  }

  lemma SplitLast(rs: seq<Record>)
    requires rs != [] && DistinctKeys(rs)
    ensures var n := |rs| - 1;
            rs == rs[..n] + [rs[n]] && Keys(rs) == Keys(rs[..n]) + {rs[n].Id()} && rs[n].Id() !in Keys(rs[..n])
  {
  }

  /** Loading records with fresh, distinct keys extends the map by exactly their RRsets. */
  lemma {:induction false} LoadRecords(m: map<Key, RRset>, rs: seq<Record>)
    requires DistinctKeys(rs) && Keys(rs) !! m.Keys
    requires forall r | r in rs :: r.values != []
    ensures Extended(m, Load(m, RecordsEntries(rs)), rs)
  {
    if rs == [] {
    } else {
      var n := |rs| - 1;
      SplitLast(rs);
      var init, last := rs[..n], rs[n];
      LoadRecords(m, init);
      var mid := Load(m, RecordsEntries(init));
      LoadAppend(m, RecordsEntries(init), RecordEntries(last));
      LoadRecord(mid, last);
      ExtendOne(m, mid, init, last);
      assert rs == init + [last];
    }
  }

  lemma ExtendOne(m: map<Key, RRset>, mid: map<Key, RRset>, init: seq<Record>, last: Record)
    requires Extended(m, mid, init) && last.Id() !in mid
    ensures Extended(m, mid[last.Id() := RRset(last.ttl, Elements(last.values))], init + [last])
  {
  }

  lemma LoadNameservers()
    ensures Load(map[], NsEntries(NAMESERVERS))
            == map[APEX_NS := RRset(DEFAULT_TTL, set n | n in NAMESERVERS :: n + ".")]
  {
    var es := NsEntries(NAMESERVERS);
    LoadOneKey(map[], es, APEX_NS, DEFAULT_TTL);
    forall n | n in NAMESERVERS ensures n + "." in ValuesOf(es) {
      var i :| 0 <= i < |NAMESERVERS| && NAMESERVERS[i] == n;
      assert es[i].value == n + ".";
    }
    assert ValuesOf(es) == set n | n in NAMESERVERS :: n + ".";
  }

  /** Loading a managed zone's entries from scratch yields the content it stands for. */
  lemma ContentIsExact(p: Payload)
    requires Managed(p)
    ensures Serves(ContentOf(p), p)
  {
    LoadNameservers();
    LoadAppend(map[], NsEntries(p.nameservers), RecordsEntries(p.records));
    LoadRecords(Load(map[], NsEntries(p.nameservers)), p.records);
  }

  /** The same records with the same values: in any order, and with values in any order. */
  ghost predicate SameRecords(p: Payload, q: Payload) {
    && Keys(p.records) == Keys(q.records)
    && forall a, b | a in p.records && b in q.records && a.Id() == b.Id() ::
         a.ttl == b.ttl && Elements(a.values) == Elements(b.values)
  }

  lemma SameMeaning(p: Payload, q: Payload, c: Content)
    requires Managed(p) && Managed(q) && SameRecords(p, q) && Serves(c, p)
    ensures Serves(c, q)
  {
    forall b | b in q.records ensures c.rrsets[b.Id()] == RRset(b.ttl, Elements(b.values)) {
      assert b.Id() in Keys(q.records);
      var a :| a in p.records && a.Id() == b.Id();
    }
  }

  /** Payloads that differ only in order stand for the same content, though the store tells them
      apart. */
  lemma OrderIsNotServed(p: Payload, q: Payload)
    requires Managed(p) && Managed(q) && SameRecords(p, q)
    ensures ContentOf(p) == ContentOf(q)
  {
    ContentIsExact(p);
    ContentIsExact(q);
    SameMeaning(p, q, ContentOf(p));
    ServesUnique(ContentOf(p), ContentOf(q), q);
  }

  function Unset(m: map<Key, RRset>, ks: seq<Key>): map<Key, RRset> {
    if ks == [] then m else Unset(m, ks[..|ks| - 1]) - {ks[|ks| - 1]}
  }

  lemma {:induction false} UnsetRemoves(m: map<Key, RRset>, ks: seq<Key>)
    ensures Unset(m, ks) == m - Elements(ks)
  {
    if ks == [] {
    } else {
      var n := |ks| - 1;
      UnsetRemoves(m, ks[..n]);
      assert ks == ks[..n] + [ks[n]];
      assert Elements(ks) == Elements(ks[..n]) + {ks[n]};
    }
  }

  /** Content on which an interrupted update of previous towards desired may have left a zone. */
  ghost predicate Reconcilable(c: Content, previous: Payload, desired: Payload) {
    && c.soa == Soa(SOA_MNAME, SOA_RNAME)
    && c.rrsets.Keys <= Keys(previous.records) + Keys(desired.records) + {APEX_NS}
    && APEX_NS in c.rrsets
    && c.rrsets[APEX_NS] == RRset(DEFAULT_TTL, set n | n in NAMESERVERS :: n + ".")
  }

  /** The unset/set transaction, from any such content, equals loading the desired zone from
      scratch. */
  lemma UpdateEqualsRebuild(c: Content, previous: Payload, desired: Payload, unset: seq<Key>)
    requires Managed(previous) && Managed(desired)
    requires Reconcilable(c, previous, desired)
    requires Elements(unset) == Keys(previous.records) + Keys(desired.records)
    ensures c.(rrsets := Load(Unset(c.rrsets, unset), RecordsEntries(desired.records))) == ContentOf(desired)
  {
    UnsetRemoves(c.rrsets, unset);
    LoadNameservers();
    var base := Load(map[], NsEntries(NAMESERVERS));
    assert Unset(c.rrsets, unset) == base;
    LoadAppend(map[], NsEntries(NAMESERVERS), RecordsEntries(desired.records));
  }

  /** Both ends of the update are such content, so replaying the transaction is harmless. */
  lemma EndsAreReconcilable(previous: Payload, desired: Payload)
    requires Managed(previous) && Managed(desired)
    ensures Reconcilable(ContentOf(previous), previous, desired)
    ensures Reconcilable(ContentOf(desired), previous, desired)
  {
    ContentIsExact(previous);
    ContentIsExact(desired);
  }
}
