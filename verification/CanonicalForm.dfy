/** What acceptance guarantees: the accepted form is canonical, independent of the order of the
    request's records, and printable. */
module CanonicalForm {
  import opened Encoding
  import opened Json
  import MasterFile
  import opened Ordering
  import Rdata
  import opened Text
  import opened Validation
  import opened Wrappers
  import opened Zones
  import opened ZonePrinter

  // ----- owners and types -----

  lemma TrimmedFixed(s: string)
    requires s != [] ==> !IsSpace(s[0]) && !IsSpace(s[|s| - 1]) && s[|s| - 1] != '.'
    requires forall c | c in s :: LowerChar(c) == c
    ensures Trimmed(s) == s
  {
  }

  predicate OwnerChar(c: char) {
    IsAlnum(c) || c == '_' || c == '-' || c == '*' || c == '.'
  }

  lemma LabelsCoverText(s: string)
    requires forall l | l in Split(s, '.') :: OwnerLabel(l)
    ensures forall c | c in s :: OwnerChar(c)
  {
    forall c | c in s ensures OwnerChar(c) {
      var i :| 0 <= i < |s| && s[i] == c;
      if c != '.' {
        SplitCovers(s, '.', i);
        var p :| p in Split(s, '.') && c in p;
        assert OwnerLabel(p);
      }
    }
  }

  predicate OwnerText(owner: string) {
    owner != [] && (owner == "@" || forall c | c in owner :: OwnerChar(c))
  }

  lemma OwnerIsText(value: Json)
    requires ValidateOwner(value).Ok?
    ensures OwnerText(ValidateOwner(value).value)
  {
    var owner := ValidateOwner(value).value;
    if owner != "@" {
      LabelsCoverText(owner);
    }
  }

  lemma OwnerTextFixed(owner: string)
    requires OwnerText(owner) && owner[|owner| - 1] != '.'
    ensures Trimmed(owner) == owner
  {
    assert owner[0] in owner && owner[|owner| - 1] in owner;
    VisibleIsNotSpace(owner[0]);
    VisibleIsNotSpace(owner[|owner| - 1]);
    TrimmedFixed(owner);
  }

  lemma SameOwner(a: Json, b: Json)
    requires OwnerOf(a) == OwnerOf(b)
    ensures ValidateOwner(a) == ValidateOwner(b)
  {
  }

  lemma OwnerOfFixed(owner: string)
    requires OwnerText(owner) && owner[|owner| - 1] != '.'
    ensures OwnerOf(JStr(owner)) == owner
  {
    OwnerTextFixed(owner);
  }

  lemma OwnerEnd(value: Json)
    ensures var owner := OwnerOf(value); owner != [] && owner[|owner| - 1] != '.'
  {
  }

  /** Accepted owners are fixed points of the validation of owners. */
  lemma OwnerIsFixed(value: Json)
    requires ValidateOwner(value).Ok?
    ensures ValidateOwner(JStr(OwnerOf(value))) == ValidateOwner(value) == Ok(OwnerOf(value))
  {
    OwnerIsText(value);
    OwnerEnd(value);
    OwnerOfFixed(OwnerOf(value));
    SameOwner(JStr(OwnerOf(value)), value);
  }

  lemma OwnerPrintable(owner: string)
    requires OwnerText(owner)
    ensures Simple(owner) && owner[0] != '$'
  {
    assert owner[0] in owner;
  }

  lemma TypeFixed(rtype: string)
    requires rtype in ALLOWED_TYPES
    ensures Upper(rtype) == rtype && Simple(rtype) && rtype != []
  {
  }

  // ----- values -----

  /** A stored value: stripped, clean, and a fixed point of the normalisation for its type. */
  predicate CanonicalValue(canon: Canonical6, rtype: string, v: string) {
    && CleanText(v) && !IsSpace(v[0]) && !IsSpace(v[|v| - 1])
    && NormalizeText(canon, rtype, v) == Ok(v)
  }

  lemma {:induction false} BeforeAppend(a: string, b: string, c: char)
    requires c !in a && (b == [] || b[0] == c)
    ensures Before(a + b, c) == a
  {
    if a == [] {
      assert a + b == b;
    } else {
      assert (a + b)[1..] == a[1..] + b;
      BeforeAppend(a[1..], b, c);
    }
  }

  lemma ColonIsNotIPv4(s: string)
    requires ':' in s
    ensures !IsIPv4(s)
  {
    var i :| 0 <= i < |s| && s[i] == ':';
    SplitCovers(s, '.', i);
  }

  lemma AddressCharIsClean(c: char)
    requires IsHex(c) || c == ':' || c == '.'
    ensures IsOrdinary(c) && !IsSpace(c) && c != '%' && c != '/' && c as int >= 32
  {
    VisibleIsNotSpace(c);
  }

  /** The canonical text of an address without a scope. */
  lemma BareIPv6IsCanonical(canon: Canonical6, t: string)
    requires Lawful(canon) && canon(t).Some?
    ensures CanonicalValue(canon, "AAAA", canon(t).value) && Simple(canon(t).value)
  {
    var c := canon(t).value;
    forall x | x in c ensures IsOrdinary(x) && !IsSpace(x) && x != '%' && x != '/' && x as int >= 32 {
      AddressCharIsClean(x);
    }
    assert c[0] in c && c[|c| - 1] in c;
    ColonIsNotIPv4(c);
  }

  lemma SplitScope(c: string, scope: string)
    requires '%' !in c
    ensures Before(c + "%" + scope, '%') == c && After(c + "%" + scope, '%') == scope
  {
    assert c + "%" + scope == c + ("%" + scope);
    BeforeAppend(c, "%" + scope, '%');
  }

  lemma ScopedText(c: string, scope: string)
    requires CleanText(c) && CleanText(scope) && '/' !in c && '/' !in scope
    ensures var v := c + "%" + scope;
            CleanText(v) && '/' !in v && '%' in v && v[0] == c[0] && v[|v| - 1] == scope[|scope| - 1]
  {
  }

  lemma BareIPv6Text(canon: Canonical6, t: string)
    requires Lawful(canon) && canon(t).Some?
    ensures '%' !in canon(t).value && '/' !in canon(t).value
  {
  }

  lemma ScopedIPv6IsCanonical(canon: Canonical6, t: string, scope: string)
    requires Lawful(canon) && canon(t).Some?
    requires CleanText(scope) && '%' !in scope && '/' !in scope && !IsSpace(scope[|scope| - 1])
    ensures CanonicalValue(canon, "AAAA", canon(t).value + "%" + scope)
  {
    var c := canon(t).value;
    BareIPv6IsCanonical(canon, t);
    BareIPv6Text(canon, t);
    ScopedText(c, scope);
    SplitScope(c, scope);
    ColonIsNotIPv4(c + "%" + scope);
  }

  /** The scope that a stripped, clean text carries. */
  lemma ScopeIsClean(v: string)
    requires CleanText(v) && !IsSpace(v[|v| - 1]) && After(v, '%') != []
    ensures CleanText(After(v, '%')) && !IsSpace(After(v, '%')[|After(v, '%')| - 1])
    ensures '/' !in v ==> '/' !in After(v, '%')
  {
    var scope := After(v, '%');
    forall x | x in scope ensures x as int >= 32 || x == '\t' {
      assert x in v;
    }
    assert forall x | x in scope :: x in v;
    assert scope[|scope| - 1] == v[|v| - 1];
  }

  lemma AddressIsCanonical(canon: Canonical6, v: string)
    requires Lawful(canon) && CleanText(v) && !IsSpace(v[0]) && !IsSpace(v[|v| - 1])
    requires CanonicalIPv6(canon, v).Some?
    ensures CanonicalValue(canon, "AAAA", CanonicalIPv6(canon, v).value)
  {
    if '%' !in v {
      BareIPv6IsCanonical(canon, v);
    } else {
      ScopeIsClean(v);
      ScopedIPv6IsCanonical(canon, Before(v, '%'), After(v, '%'));
    }
  }

  lemma {:induction false} EscapeIsClean(s: string)
    requires forall c | c in s :: c as int >= 32 || c == '\t'
    ensures forall c | c in Rdata.Escape(s) :: c as int >= 32 || c == '\t'
  {
    if s != [] {
      assert forall c | c in s[1..] :: c in s;
      EscapeIsClean(s[1..]);
      assert s[0] in s;
    }
  }

  lemma TxtIsClean(v: string)
    requires CleanText(v) && !IsSpace(v[0]) && !IsSpace(v[|v| - 1])
    ensures var r := Rdata.NormalizeTxtRdata(v); CleanText(r) && !IsSpace(r[0]) && !IsSpace(r[|r| - 1])
  {
    Rdata.ReplacesAreEscape(v);
    EscapeIsClean(v);
  }

  lemma TxtIsCanonical(canon: Canonical6, v: string)
    requires CleanText(v) && !IsSpace(v[0]) && !IsSpace(v[|v| - 1])
    ensures CanonicalValue(canon, "TXT", Rdata.NormalizeTxtRdata(v))
  {
    Rdata.TxtIdempotent(v);
    TxtIsClean(v);
  }

  /** Every stored value is canonical. */
  lemma ValueIsCanonical(canon: Canonical6, rtype: string, raw: Json)
    requires Lawful(canon) && NormalizeValue(canon, rtype, raw).Ok?
    ensures CanonicalValue(canon, rtype, NormalizeValue(canon, rtype, raw).value)
  {
    var v := Strip(raw.s);
    if rtype == "AAAA" {
      AddressIsCanonical(canon, v);
    } else if rtype == "TXT" {
      TxtIsCanonical(canon, v);
    }
  }

  lemma CanonicalValueFixed(canon: Canonical6, rtype: string, v: string)
    requires CanonicalValue(canon, rtype, v) && |v| <= 4096
    ensures NormalizeValue(canon, rtype, JStr(v)) == Ok(v)
  {
  }

  /** Plainness is guaranteed for every type but AAAA, and there for addresses without a scope. */
  lemma CanonicalValuePlain(canon: Canonical6, rtype: string, v: string)
    requires Lawful(canon) && CanonicalValue(canon, rtype, v)
    requires rtype == "AAAA" ==> '%' !in v
    ensures Rdata.Plain(v)
  {
    if rtype == "A" {
      IPv4IsSimple(v);
      SimpleRun(v);
    } else if rtype == "AAAA" {
      BareIPv6IsCanonical(canon, v);
      SimpleRun(v);
    } else if rtype == "TXT" {
      Rdata.TxtIdempotent(v);
      Rdata.QuotedFormIsPlain(v);
    }
  }

  lemma IPv4IsSimple(v: string)
    requires IsIPv4(v)
    ensures Simple(v)
  {
    forall c | c in v ensures IsOrdinary(c) {
      var i :| 0 <= i < |v| && v[i] == c;
      if c != '.' {
        SplitCovers(v, '.', i);
        var p :| p in Split(v, '.') && c in p;
        assert IsOctet(p);
      }
    }
  }

  // ----- records -----

  ghost predicate CanonicalValues(canon: Canonical6, rtype: string, vs: seq<string>) {
    Distinct(vs) && forall v | v in vs :: CanonicalValue(canon, rtype, v)
  }

  lemma {:induction false} ValuesAreCanonical(canon: Canonical6, rtype: string, done: seq<string>, raws: seq<Json>)
    requires Lawful(canon) && CanonicalValues(canon, rtype, done)
    ensures match NormalizeValues(canon, rtype, done, raws)
            case Err(_) => true
            case Ok(vs) =>
              && CanonicalValues(canon, rtype, vs)
              && |done| <= |vs| <= |done| + |raws|
              && (raws != [] ==> vs != [])
    decreases |raws|
  {
    if raws != [] && NormalizeValue(canon, rtype, raws[0]).Ok? {
      var v := NormalizeValue(canon, rtype, raws[0]).value;
      ValueIsCanonical(canon, rtype, raws[0]);
      ValuesAreCanonical(canon, rtype, if v in done then done else done + [v], raws[1..]);
    }
  }

  ghost predicate Fits(r: Record) {
    forall v | v in r.values :: |v| <= 4096
  }

  ghost predicate CanonicalRecord(canon: Canonical6, r: Record) {
    && OwnerText(r.name) && ValidateOwner(JStr(r.name)) == Ok(r.name)
    && r.rtype in ALLOWED_TYPES && !(r.name == "@" && r.rtype in {"NS", "CNAME"})
    && 60 <= r.ttl <= 86400 && 1 <= |r.values| <= 64
    && CanonicalValues(canon, r.rtype, r.values)
  }

  lemma HeadIsCanonical(raw: Json)
    requires HeadOf(raw).Ok?
    ensures var key := HeadOf(raw).value;
            && OwnerText(key.owner) && ValidateOwner(JStr(key.owner)) == Ok(key.owner)
            && key.rtype in ALLOWED_TYPES && !(key.owner == "@" && key.rtype in {"NS", "CNAME"})
  {
    var name := Get(raw.fields, "name", JStr("@"));
    OwnerIsText(name);
    OwnerIsFixed(name);
  }

  lemma RestIsCanonical(canon: Canonical6, raw: Json, key: Key)
    requires Lawful(canon) && raw.JObj? && RestOf(canon, raw, key).Ok?
    ensures var r := RestOf(canon, raw, key).value;
            && r.Id() == key && 60 <= r.ttl <= 86400 && 1 <= |r.values| <= 64
            && CanonicalValues(canon, r.rtype, r.values)
  {
    ValuesAreCanonical(canon, key.rtype, [], Get(raw.fields, "values", JNull).items);
  }

  lemma RecordIsCanonical(canon: Canonical6, raw: Json, seen: set<Key>)
    requires Lawful(canon) && NormalizeRecord(canon, raw, seen).Ok?
    ensures CanonicalRecord(canon, NormalizeRecord(canon, raw, seen).value)
    ensures HeadOf(raw) == Ok(NormalizeRecord(canon, raw, seen).value.Id())
  {
    HeadIsCanonical(raw);
    RestIsCanonical(canon, raw, HeadOf(raw).value);
  }

  lemma {:induction false} ValuesFixed(canon: Canonical6, rtype: string, done: seq<string>, vs: seq<string>)
    requires CanonicalValues(canon, rtype, done + vs)
    requires forall v | v in vs :: |v| <= 4096
    ensures NormalizeValues(canon, rtype, done, Strings(vs)) == Ok(done + vs)
    decreases |vs|
  {
    if vs == [] {
      assert done + vs == done;
    } else {
      var all := done + vs;
      assert all[|done|] == vs[0] && vs[0] in all;
      CanonicalValueFixed(canon, rtype, vs[0]);
      assert Strings(vs)[1..] == Strings(vs[1..]);
      assert all == done + [vs[0]] + vs[1..];
      assert forall v | v in vs[1..] :: v in vs;
      assert vs[0] !in done by {
        assert forall i | 0 <= i < |done| :: all[i] == done[i];
      }
      ValuesFixed(canon, rtype, done + [vs[0]], vs[1..]);
    }
  }

  lemma HeadFixed(canon: Canonical6, r: Record)
    requires CanonicalRecord(canon, r)
    ensures HeadOf(EncodeRecord(r)) == Ok(r.Id())
  {
    RecordGets(r, JStr("@"));
    RecordGets(r, JStr(""));
    TypeFixed(r.rtype);
  }

  lemma RestFixed(canon: Canonical6, r: Record)
    requires 60 <= r.ttl <= 86400 && 1 <= |r.values| <= 64
    requires NormalizeValues(canon, r.rtype, [], Strings(r.values)) == Ok(r.values)
    ensures RestOf(canon, EncodeRecord(r), r.Id()) == Ok(r)
  {
  }

  /** A canonical record whose values still fit is accepted unchanged. */
  lemma RecordFixed(canon: Canonical6, r: Record)
    requires CanonicalRecord(canon, r) && Fits(r)
    ensures HeadOf(EncodeRecord(r)) == Ok(r.Id())
    ensures RestOf(canon, EncodeRecord(r), r.Id()) == Ok(r)
  {
    HeadFixed(canon, r);
    assert [] + r.values == r.values;
    ValuesFixed(canon, r.rtype, [], r.values);
    RestFixed(canon, r);
  }

  ghost predicate CanonicalRecords(canon: Canonical6, rs: seq<Record>) {
    DistinctKeys(rs) && forall r | r in rs :: CanonicalRecord(canon, r)
  }

  lemma {:induction false} RecordsAreCanonical(canon: Canonical6, done: seq<Record>, raws: seq<Json>)
    requires Lawful(canon) && CanonicalRecords(canon, done)
    ensures match NormalizeRecords(canon, done, raws)
            case Err(_) => true
            case Ok(rs) => CanonicalRecords(canon, rs) && |rs| == |done| + |raws|
    decreases |raws|
  {
    if raws != [] && NormalizeRecord(canon, raws[0], Keys(done)).Ok? {
      var r := NormalizeRecord(canon, raws[0], Keys(done)).value;
      RecordIsCanonical(canon, raws[0], Keys(done));
      assert r.Id() !in Keys(done);
      AddRecord(canon, done, r);
      RecordsAreCanonical(canon, done + [r], raws[1..]);
    }
  }

  lemma AddRecord(canon: Canonical6, done: seq<Record>, r: Record)
    requires CanonicalRecords(canon, done) && CanonicalRecord(canon, r) && r.Id() !in Keys(done)
    ensures CanonicalRecords(canon, done + [r])
  {
  }

  lemma OneRecordFixed(canon: Canonical6, r: Record, seen: set<Key>)
    requires CanonicalRecord(canon, r) && Fits(r) && r.Id() !in seen
    ensures NormalizeRecord(canon, EncodeRecord(r), seen) == Ok(r)
  {
    RecordFixed(canon, r);
  }

  lemma ShiftFirst<T>(done: seq<T>, rest: seq<T>)
    requires rest != []
    ensures done + rest == done + [rest[0]] + rest[1..]
  {
  }

  lemma FirstIsNew(done: seq<Record>, rs: seq<Record>)
    requires DistinctKeys(done + rs) && rs != []
    ensures rs[0].Id() !in Keys(done)
  {
    var all := done + rs;
    assert all[|done|] == rs[0];
    assert forall i | 0 <= i < |done| :: all[i] == done[i];
  }

  lemma EncodeRest(rs: seq<Record>)
    requires rs != []
    ensures EncodeRecords(rs)[1..] == EncodeRecords(rs[1..])
  {
  }

  lemma {:induction false} RecordsFixed(canon: Canonical6, done: seq<Record>, rs: seq<Record>)
    requires DistinctKeys(done + rs) && forall r | r in rs :: CanonicalRecord(canon, r) && Fits(r)
    ensures NormalizeRecords(canon, done, EncodeRecords(rs)) == Ok(done + rs)
    decreases |rs|
  {
    if rs == [] {
      assert done + rs == done;
    } else {
      FirstIsNew(done, rs);
      assert rs[0] in rs;
      OneRecordFixed(canon, rs[0], Keys(done));
      EncodeRest(rs);
      ShiftFirst(done, rs);
      assert forall r | r in rs[1..] :: r in rs;
      RecordsFixed(canon, done + [rs[0]], rs[1..]);
    }
  }

  // ----- sorting -----

  ghost predicate SortedRecords(rs: seq<Record>) {
    forall i, j | 0 <= i < j < |rs| :: KeyLeq(rs[i].Id(), rs[j].Id())
  }

  lemma KeyLeqFacts(a: Key, b: Key, c: Key)
    ensures KeyLeq(a, b) || KeyLeq(b, a)
    ensures KeyLeq(a, b) && KeyLeq(b, a) ==> a == b
    ensures KeyLeq(a, b) && KeyLeq(b, c) ==> KeyLeq(a, c)
  {
    KeyLeqIsTotalOrder();
  }

  ghost predicate BelowAll(k: Key, rs: seq<Record>) {
    forall j | 0 <= j < |rs| :: KeyLeq(k, rs[j].Id())
  }

  lemma SortedCons(r: Record, rs: seq<Record>)
    requires SortedRecords(rs) && BelowAll(r.Id(), rs)
    ensures SortedRecords([r] + rs)
  {
  }

  lemma BelowHead(k: Key, rs: seq<Record>)
    requires SortedRecords(rs) && rs != [] && KeyLeq(k, rs[0].Id())
    ensures BelowAll(k, rs)
  {
    forall j | 0 <= j < |rs| ensures KeyLeq(k, rs[j].Id()) {
      KeyLeqFacts(k, rs[0].Id(), rs[j].Id());
    }
  }

  lemma BelowSame(k: Key, a: seq<Record>, r: Record, b: seq<Record>)
    requires multiset(a) == multiset(b) + multiset{r} && BelowAll(k, b) && KeyLeq(k, r.Id())
    ensures BelowAll(k, a)
  {
    forall j | 0 <= j < |a| ensures KeyLeq(k, a[j].Id()) {
      assert a[j] in multiset(a);
      assert a[j] == r || a[j] in b;
    }
  }

  lemma {:induction false} InsertSorts(r: Record, rs: seq<Record>)
    requires SortedRecords(rs)
    ensures SortedRecords(Insert(r, rs)) && multiset(Insert(r, rs)) == multiset(rs) + multiset{r}
  {
    if rs == [] {
    } else if KeyLeq(r.Id(), rs[0].Id()) {
      BelowHead(r.Id(), rs);
      SortedCons(r, rs);
    } else {
      var tail := Insert(r, rs[1..]);
      InsertSorts(r, rs[1..]);
      FirstAndRest(rs);
      KeyLeqFacts(r.Id(), rs[0].Id(), r.Id());
      BelowSame(rs[0].Id(), tail, r, rs[1..]);
      SortedCons(rs[0], tail);
    }
  }

  lemma {:induction false} SortSorts(rs: seq<Record>)
    ensures SortedRecords(SortRecords(rs)) && multiset(SortRecords(rs)) == multiset(rs)
  {
    if rs != [] {
      SortSorts(rs[1..]);
      InsertSorts(rs[0], SortRecords(rs[1..]));
      FirstAndRest(rs);
    }
  }

  lemma SortedRecordsHead(a: seq<Record>, b: seq<Record>)
    requires SortedRecords(a) && SortedRecords(b) && DistinctKeys(a) && multiset(a) == multiset(b) && a != []
    ensures b != [] && a[0] == b[0]
  {
    assert a[0] in multiset(a);
    assert a[0] in b;
    assert b[0] in multiset(b);
    assert b[0] in a;
    KeyLeqFacts(a[0].Id(), b[0].Id(), a[0].Id());
    KeyLeqFacts(b[0].Id(), a[0].Id(), b[0].Id());
    KeyLeqFacts(a[0].Id(), a[0].Id(), a[0].Id());
    var i :| 0 <= i < |a| && a[i] == b[0];
    var j :| 0 <= j < |b| && b[j] == a[0];
  }

  /** A sorted list of records with distinct keys is determined by its records. */
  lemma {:induction false} SortedRecordsUnique(a: seq<Record>, b: seq<Record>)
    requires SortedRecords(a) && SortedRecords(b) && DistinctKeys(a) && multiset(a) == multiset(b)
    ensures a == b
  {
    if a == [] {
      assert |multiset(b)| == 0;
    } else {
      SortedRecordsHead(a, b);
      TailMultiset(a);
      TailMultiset(b);
      SortedRecordsUnique(a[1..], b[1..]);
      assert a == [a[0]] + a[1..] && b == [b[0]] + b[1..];
    }
  }

  ghost function KeyBag(rs: seq<Record>): multiset<Key> {
    if rs == [] then multiset{} else KeyBag(rs[1..]) + multiset{rs[0].Id()}
  }

  lemma {:induction false} KeyBagMembers(rs: seq<Record>)
    ensures forall k :: k in KeyBag(rs) <==> k in Keys(rs)
  {
    if rs != [] {
      KeyBagMembers(rs[1..]);
      assert rs == [rs[0]] + rs[1..];
      assert Keys(rs) == {rs[0].Id()} + Keys(rs[1..]);
    }
  }

  ghost predicate NoRepeats(bag: multiset<Key>) {
    forall k :: bag[k] <= 1
  }

  lemma {:induction false} KeyBagCounts(rs: seq<Record>)
    ensures DistinctKeys(rs) <==> NoRepeats(KeyBag(rs))
  {
    if rs != [] {
      KeyBagCounts(rs[1..]);
      KeyBagMembers(rs[1..]);
      HeadKeyDistinct(rs);
      var k0, tail := rs[0].Id(), KeyBag(rs[1..]);
      assert KeyBag(rs) == tail + multiset{k0};
      if NoRepeats(KeyBag(rs)) {
        assert KeyBag(rs)[k0] == tail[k0] + 1;
        forall k ensures tail[k] <= 1 {
          assert KeyBag(rs)[k] <= 1;
        }
      }
      if NoRepeats(tail) && k0 !in tail {
        forall k ensures KeyBag(rs)[k] <= 1 {
          assert tail[k] <= 1;
        }
      }
    }
  }

  lemma HeadKeyDistinct(rs: seq<Record>)
    requires rs != []
    ensures DistinctKeys(rs) <==> DistinctKeys(rs[1..]) && rs[0].Id() !in Keys(rs[1..])
  {
  }

  lemma WithoutOne<T>(s: seq<T>, i: nat)
    requires 0 < i < |s|
    ensures s[1..][..i - 1] + s[1..][i..] == (s[..i] + s[i + 1..])[1..]
    ensures (s[..i] + s[i + 1..])[0] == s[0] && s[1..][i - 1] == s[i]
  {
  }

  lemma {:induction false} RemoveFromBag(rs: seq<Record>, i: nat)
    requires i < |rs|
    ensures KeyBag(rs) == KeyBag(rs[..i] + rs[i + 1..]) + multiset{rs[i].Id()}
  {
    if i > 0 {
      RemoveFromBag(rs[1..], i - 1);
      WithoutOne(rs, i);
    } else {
      assert rs[..0] + rs[1..] == rs[1..];
    }
  }

  lemma {:induction false} KeyBagPermutes(a: seq<Record>, b: seq<Record>)
    requires multiset(a) == multiset(b)
    ensures KeyBag(a) == KeyBag(b)
  {
    if a == [] {
      assert |multiset(b)| == 0;
    } else {
      var i := HeadElsewhere(a, b);
      KeyBagPermutes(a[1..], b[..i] + b[i + 1..]);
      RemoveFromBag(b, i);
    }
  }

  /** Distinctness of keys does not depend on the order of the records. */
  lemma DistinctKeysPermutes(a: seq<Record>, b: seq<Record>)
    requires multiset(a) == multiset(b)
    ensures DistinctKeys(a) <==> DistinctKeys(b)
  {
    KeyBagPermutes(a, b);
    KeyBagCounts(a);
    KeyBagCounts(b);
  }

  // ----- payloads -----

  /** A host name that the normalisation of host names leaves alone. */
  predicate FixedName(name: string) {
    NormalizeHostname(JStr(name)) == Ok(name)
  }

  lemma HostnameText(name: string)
    requires IsHostname(name)
    ensures forall c | c in name :: IsAlnum(c) || c == '-' || c == '.'
  {
    forall c | c in name ensures IsAlnum(c) || c == '-' || c == '.' {
      var i :| 0 <= i < |name| && name[i] == c;
      if c != '.' {
        SplitCovers(name, '.', i);
        var p :| p in Split(name, '.') && c in p;
        assert HostLabel(p);
      }
    }
  }

  lemma HostnameTrimmed(name: string)
    requires name != [] && name[|name| - 1] != '.' && forall c | c in name :: IsAlnum(c) || c == '-' || c == '.'
    ensures Trimmed(name) == name
  {
    assert name[0] in name && name[|name| - 1] in name;
    VisibleIsNotSpace(name[0]);
    VisibleIsNotSpace(name[|name| - 1]);
    TrimmedFixed(name);
  }

  lemma AcceptedHostname(value: Json, name: string)
    requires NormalizeHostname(value) == Ok(name)
    ensures IsHostname(name) && name == Trimmed(AsText(value))
  {
  }

  lemma TrimmedEnd(s: string)
    ensures Trimmed(s) == [] || Trimmed(s)[|Trimmed(s)| - 1] != '.'
  {
  }

  lemma HostnameNotEmpty(name: string)
    requires IsHostname(name)
    ensures name != []
  {
  }

  lemma TrimmedHostname(name: string)
    requires IsHostname(name) && Trimmed(name) == name
    ensures FixedName(name)
  {
  }

  lemma HostnameIsFixed(value: Json, name: string)
    requires NormalizeHostname(value) == Ok(name)
    ensures FixedName(name)
  {
    AcceptedHostname(value, name);
    HostnameNotEmpty(name);
    HostnameText(name);
    TrimmedEnd(AsText(value));
    HostnameTrimmed(name);
    TrimmedHostname(name);
  }

  ghost predicate FixedNames(names: seq<string>) {
    forall i | 0 <= i < |names| :: FixedName(names[i])
  }

  lemma {:induction false} HostnamesAreFixed(done: seq<string>, items: seq<Json>, names: seq<string>)
    requires FixedNames(done) && NormalizeHostnames(done, items) == Ok(names)
    ensures FixedNames(names)
    decreases |items|
  {
    if items != [] {
      var name := NormalizeHostname(items[0]).value;
      HostnameIsFixed(items[0], name);
      HostnamesAreFixed(done + [name], items[1..], names);
    }
  }

  lemma OneNameAccepted(done: seq<string>, name: string, items: seq<Json>)
    requires items != [] && items[0] == JStr(name) && FixedName(name)
    ensures NormalizeHostnames(done, items) == NormalizeHostnames(done + [name], items[1..])
  {
  }

  lemma {:induction false} FixedNamesAccepted(done: seq<string>, names: seq<string>)
    requires FixedNames(names)
    ensures NormalizeHostnames(done, Strings(names)) == Ok(done + names)
    decreases |names|
  {
    if names == [] {
      assert done + names == done;
    } else {
      OneNameAccepted(done, names[0], Strings(names));
      assert Strings(names)[1..] == Strings(names[1..]);
      ShiftFirst(done, names);
      FixedNamesAccepted(done + [names[0]], names[1..]);
    }
  }

  ghost predicate FixedIdentity(id: Identity) {
    id == MANAGED && FixedName(id.mname) && FixedName(id.rname) && FixedNames(id.nameservers)
  }

  lemma IdentityParts(ns: Result<seq<string>, Error>, m: Result<string, Error>, r: Result<string, Error>,
      dnssec: bool, id: Identity)
    requires IdentityFrom(ns, m, r, dnssec) == Ok(id)
    ensures id == MANAGED && ns == Ok(id.nameservers) && m == Ok(id.mname) && r == Ok(id.rname)
  {
  }

  lemma NameserversAreFixed(j: Json, names: seq<string>)
    requires NormalizeNameservers(j) == Ok(names)
    ensures FixedNames(names)
  {
    HostnamesAreFixed([], Iterated(j).value, names);
  }

  lemma IdentityIsFixed(fields: map<string, Json>, id: Identity)
    requires NormalizeIdentity(fields) == Ok(id)
    ensures FixedIdentity(id)
  {
    var ns := NormalizeNameservers(Get(fields, "nameservers", JList([])));
    var m, r := NormalizeHostname(Get(fields, "soa_mname", JNull)), NormalizeHostname(Get(fields, "soa_rname", JNull));
    IdentityParts(ns, m, r, Get(fields, "dnssec", JNull) == JBool(true), id);
    NameserversAreFixed(Get(fields, "nameservers", JList([])), id.nameservers);
    HostnameIsFixed(Get(fields, "soa_mname", JNull), id.mname);
    HostnameIsFixed(Get(fields, "soa_rname", JNull), id.rname);
  }

  ghost predicate CanonicalList(canon: Canonical6, rs: seq<Record>) {
    |rs| <= MAX_RRSETS && CanonicalRecords(canon, rs) && SortedRecords(rs)
  }

  function IdentityOf(p: Payload): Identity {
    Identity(p.nameservers, p.soaMname, p.soaRname)
  }

  /** The canonical form of a payload. */
  ghost predicate Canonical(canon: Canonical6, p: Payload) {
    p.revision >= 1 && FixedIdentity(IdentityOf(p)) && CanonicalList(canon, p.records)
  }

  lemma SortKeepsCanonical(canon: Canonical6, rs: seq<Record>)
    requires CanonicalRecords(canon, rs)
    ensures CanonicalRecords(canon, SortRecords(rs)) && SortedRecords(SortRecords(rs))
    ensures |SortRecords(rs)| == |rs|
  {
    var sorted := SortRecords(rs);
    SortSorts(rs);
    DistinctKeysPermutes(rs, sorted);
    forall r | r in sorted ensures CanonicalRecord(canon, r) {
      assert r in multiset(sorted);
      assert r in rs;
    }
    assert |multiset(sorted)| == |multiset(rs)|;
  }

  lemma ListIsCanonical(canon: Canonical6, records: Json)
    requires Lawful(canon) && NormalizeRecordList(canon, records).Ok?
    ensures CanonicalList(canon, NormalizeRecordList(canon, records).value)
  {
    RecordsAreCanonical(canon, [], records.items);
    SortKeepsCanonical(canon, NormalizeRecords(canon, [], records.items).value);
  }

  /** Every accepted payload is canonical: keys distinct and sorted, values clean and normalised. */
  lemma AcceptedIsCanonical(canon: Canonical6, j: Json)
    requires Lawful(canon) && NormalizePayload(canon, j).Ok?
    ensures Canonical(canon, NormalizePayload(canon, j).value)
  {
    IdentityIsFixed(j.fields, NormalizeIdentity(j.fields).value);
    ListIsCanonical(canon, Get(j.fields, "records", JNull));
  }

  lemma NameserversAccepted(names: seq<string>)
    requires FixedNames(names)
    ensures NormalizeNameservers(JList(Strings(names))) == Ok(names)
  {
    FixedNamesAccepted([], names);
    assert [] + names == names;
  }

  lemma IdentityAccepted(p: Payload)
    requires FixedIdentity(IdentityOf(p))
    ensures NormalizeIdentity(PayloadFields(p)) == Ok(IdentityOf(p))
  {
    PayloadGets(p, JList([]));
    PayloadGets(p, JNull);
    NameserversAccepted(p.nameservers);
    IdentityJoins(Ok(p.nameservers), Ok(p.soaMname), Ok(p.soaRname), IdentityOf(p));
  }

  lemma IdentityJoins(ns: Result<seq<string>, Error>, m: Result<string, Error>, r: Result<string, Error>, id: Identity)
    requires id == MANAGED && ns == Ok(id.nameservers) && m == Ok(id.mname) && r == Ok(id.rname)
    ensures IdentityFrom(ns, m, r, true) == Ok(id)
  {
  }

  lemma ListAccepted(canon: Canonical6, rs: seq<Record>)
    requires CanonicalList(canon, rs) && forall r | r in rs :: Fits(r)
    ensures NormalizeRecordList(canon, JList(EncodeRecords(rs))) == Ok(rs)
  {
    assert [] + rs == rs;
    RecordsFixed(canon, [], rs);
    SortSorts(rs);
    SortedRecordsUnique(rs, SortRecords(rs));
  }

  lemma PayloadJoins(canon: Canonical6, j: Json, p: Payload)
    requires j.JObj?
    requires NormalizeRevision(j.fields) == Ok(p.revision)
    requires NormalizeIdentity(j.fields) == Ok(IdentityOf(p))
    requires NormalizeRecordList(canon, Get(j.fields, "records", JNull)) == Ok(p.records)
    ensures NormalizePayload(canon, j) == Ok(p)
  {
  }

  lemma RevisionAccepted(p: Payload)
    requires p.revision >= 1
    ensures NormalizeRevision(PayloadFields(p)) == Ok(p.revision)
  {
  }

  lemma FittingIsFixed(canon: Canonical6, p: Payload)
    requires Canonical(canon, p) && forall r | r in p.records :: Fits(r)
    ensures NormalizePayload(canon, EncodePayload(p)) == Ok(p)
  {
    RevisionAccepted(p);
    IdentityAccepted(p);
    PayloadGets(p, JNull);
    ListAccepted(canon, p.records);
    PayloadJoins(canon, EncodePayload(p), p);
  }

  lemma ValueNeedsFit(canon: Canonical6, rtype: string, v: string)
    requires CanonicalValue(canon, rtype, v) && |v| > 4096
    ensures NormalizeValue(canon, rtype, JStr(v)).Err?
  {
    StripFixed(v);
  }

  lemma {:induction false} ValuesNeedFit(canon: Canonical6, rtype: string, done: seq<string>, vs: seq<string>)
    requires forall v | v in vs :: CanonicalValue(canon, rtype, v)
    requires NormalizeValues(canon, rtype, done, Strings(vs)).Ok?
    ensures forall v | v in vs :: |v| <= 4096
    decreases |vs|
  {
    if vs != [] {
      if |vs[0]| > 4096 {
        ValueNeedsFit(canon, rtype, vs[0]);
      }
      assert Strings(vs)[1..] == Strings(vs[1..]);
      var v := NormalizeValue(canon, rtype, JStr(vs[0])).value;
      ValuesNeedFit(canon, rtype, if v in done then done else done + [v], vs[1..]);
    }
  }

  lemma RecordNeedsFit(canon: Canonical6, r: Record, seen: set<Key>)
    requires CanonicalRecord(canon, r) && NormalizeRecord(canon, EncodeRecord(r), seen).Ok?
    ensures Fits(r)
  {
    HeadFixed(canon, r);
    RecordGets(r, JNull);
    ValuesNeedFit(canon, r.rtype, [], r.values);
  }

  lemma {:induction false} RecordsNeedFit(canon: Canonical6, done: seq<Record>, rs: seq<Record>)
    requires forall r | r in rs :: CanonicalRecord(canon, r)
    requires NormalizeRecords(canon, done, EncodeRecords(rs)).Ok?
    ensures forall r | r in rs :: Fits(r)
    decreases |rs|
  {
    if rs != [] {
      assert EncodeRecords(rs)[0] == EncodeRecord(rs[0]) && EncodeRecords(rs)[1..] == EncodeRecords(rs[1..]);
      RecordNeedsFit(canon, rs[0], Keys(done));
      RecordsNeedFit(canon, done + [NormalizeRecord(canon, EncodeRecord(rs[0]), Keys(done)).value], rs[1..]);
    }
  }

  lemma AcceptsRecords(canon: Canonical6, j: Json)
    requires NormalizePayload(canon, j).Ok?
    ensures NormalizeRecordList(canon, Get(j.fields, "records", JNull)).Ok?
  {
  }

  lemma FixedNeedsFit(canon: Canonical6, p: Payload)
    requires Canonical(canon, p) && NormalizePayload(canon, EncodePayload(p)).Ok?
    ensures forall r | r in p.records :: Fits(r)
  {
    PayloadGets(p, JNull);
    AcceptsRecords(canon, EncodePayload(p));
    RecordsNeedFit(canon, [], p.records);
  }

  /** Validating a canonical payload again, in the form in which it is stored and answered,
      accepts it unchanged if and only if its values still fit the limit of 4096 characters. */
  lemma CanonicalIsFixed(canon: Canonical6, p: Payload)
    requires Canonical(canon, p)
    ensures NormalizePayload(canon, EncodePayload(p)) == Ok(p) <==> forall r | r in p.records :: Fits(r)
  {
    if forall r | r in p.records :: Fits(r) {
      FittingIsFixed(canon, p);
    } else if NormalizePayload(canon, EncodePayload(p)).Ok? {
      FixedNeedsFit(canon, p);
    }
  }

  /** Validation is idempotent exactly as far as the quoted values fit. */
  lemma RevalidationAccepts(canon: Canonical6, j: Json)
    requires Lawful(canon) && NormalizePayload(canon, j).Ok?
    ensures NormalizePayload(canon, EncodePayload(NormalizePayload(canon, j).value)) == NormalizePayload(canon, j)
            <==> forall r | r in NormalizePayload(canon, j).value.records :: Fits(r)
  {
    AcceptedIsCanonical(canon, j);
    CanonicalIsFixed(canon, NormalizePayload(canon, j).value);
  }

  lemma LettersAreClean(s: string)
    requires s != [] && forall c | c in s :: 'a' <= c <= 'z'
    ensures CleanText(s) && Strip(s) == s && Strip(['"'] + s + ['"']) == ['"'] + s + ['"']
  {
    assert s[0] in s && s[|s| - 1] in s;
    VisibleIsNotSpace(s[0]);
    VisibleIsNotSpace(s[|s| - 1]);
    VisibleIsNotSpace('"');
    StripFixed(s);
    StripFixed(['"'] + s + ['"']);
  }

  lemma LettersAreQuoted(s: string)
    requires s != [] && forall c | c in s :: 'a' <= c <= 'z'
    ensures Rdata.NormalizeTxtRdata(s) == ['"'] + s + ['"']
  {
    Rdata.ReplacesAreEscape(s);
    Rdata.PlainEscape(s);
  }

  lemma NormalizesText(canon: Canonical6, raw: string)
    requires Strip(raw) == raw && CleanText(raw) && |raw| <= 4096
    ensures NormalizeValue(canon, "TXT", JStr(raw)) == Ok(Rdata.NormalizeTxtRdata(raw))
  {
  }

  lemma RefusesLong(canon: Canonical6, rtype: string, raw: string)
    requires Strip(raw) == raw && |raw| > 4096
    ensures NormalizeValue(canon, rtype, JStr(raw)).Err?
  {
  }

  /** The condition is needed: 4095 letters make an accepted TXT value whose quoted form is not
      accepted again. */
  lemma LongTextOutgrows(canon: Canonical6, s: string)
    requires |s| == 4095 && forall c | c in s :: 'a' <= c <= 'z'
    ensures var quoted := ['"'] + s + ['"'];
            && NormalizeValue(canon, "TXT", JStr(s)) == Ok(quoted)
            && NormalizeValue(canon, "TXT", JStr(quoted)).Err?
  {
    LettersAreClean(s);
    LettersAreQuoted(s);
    NormalizesText(canon, s);
    RefusesLong(canon, "TXT", ['"'] + s + ['"']);
  }

  // ----- the order of the records -----

  /** One record on its own. */
  function RecordOf(canon: Canonical6, raw: Json): Result<Record, Error> {
    NormalizeRecord(canon, raw, {})
  }

  ghost predicate AllOk(canon: Canonical6, raws: seq<Json>) {
    forall raw | raw in raws :: RecordOf(canon, raw).Ok?
  }

  ghost function RecordsOf(canon: Canonical6, raws: seq<Json>): seq<Record>
    requires AllOk(canon, raws)
  {
    if raws == [] then [] else [RecordOf(canon, raws[0]).value] + RecordsOf(canon, raws[1..])
  }

  lemma DistinctWithOne(done: seq<Record>, r: Record)
    requires DistinctKeys(done)
    ensures DistinctKeys(done + [r]) <==> r.Id() !in Keys(done)
  {
    var rs := done + [r];
    assert rs[|done|] == r;
    if r.Id() in Keys(done) {
      var i :| 0 <= i < |done| && done[i].Id() == r.Id();
      assert rs[i].Id() == rs[|done|].Id();
    }
  }

  lemma DistinctPrefix(a: seq<Record>, b: seq<Record>)
    requires DistinctKeys(a + b)
    ensures DistinctKeys(a)
  {
    assert forall i | 0 <= i < |a| :: (a + b)[i] == a[i];
  }

  lemma AllOkStep(canon: Canonical6, raws: seq<Json>)
    requires raws != []
    ensures AllOk(canon, raws) <==> RecordOf(canon, raws[0]).Ok? && AllOk(canon, raws[1..])
  {
  }

  /** Accepted on their own, and with keys that repeat neither each other's nor earlier ones. */
  ghost predicate Acceptable(canon: Canonical6, done: seq<Record>, raws: seq<Json>) {
    AllOk(canon, raws) && DistinctKeys(done + RecordsOf(canon, raws))
  }

  lemma AcceptableStep(canon: Canonical6, done: seq<Record>, raws: seq<Json>, r: Record)
    requires DistinctKeys(done) && raws != [] && RecordOf(canon, raws[0]) == Ok(r)
    ensures Acceptable(canon, done, raws) <==> r.Id() !in Keys(done) && Acceptable(canon, done + [r], raws[1..])
    ensures AllOk(canon, raws) ==>
              (AllOk(canon, raws[1..]) && done + RecordsOf(canon, raws) == done + [r] + RecordsOf(canon, raws[1..]))
  {
    AllOkStep(canon, raws);
    if AllOk(canon, raws) {
      assert done + RecordsOf(canon, raws) == done + [r] + RecordsOf(canon, raws[1..]);
      DistinctWithOne(done, r);
      if Acceptable(canon, done, raws) {
        DistinctPrefix(done + [r], RecordsOf(canon, raws[1..]));
      }
    }
  }

  lemma LoopStep(canon: Canonical6, done: seq<Record>, raws: seq<Json>)
    requires raws != []
    ensures RecordOf(canon, raws[0]).Err? ==> NormalizeRecords(canon, done, raws).Err?
    ensures RecordOf(canon, raws[0]).Ok? ==>
              var r := RecordOf(canon, raws[0]).value;
              if r.Id() in Keys(done) then NormalizeRecords(canon, done, raws).Err?
              else NormalizeRecords(canon, done, raws) == NormalizeRecords(canon, done + [r], raws[1..])
  {
  }

  /** The record loop accepts exactly when every record does on its own and no key repeats. */
  lemma {:induction false} AcceptedRecords(canon: Canonical6, done: seq<Record>, raws: seq<Json>)
    requires DistinctKeys(done)
    ensures NormalizeRecords(canon, done, raws).Ok? <==> Acceptable(canon, done, raws)
    ensures NormalizeRecords(canon, done, raws).Ok? ==>
              NormalizeRecords(canon, done, raws).value == done + RecordsOf(canon, raws)
    decreases |raws|
  {
    if raws == [] {
      assert done + RecordsOf(canon, raws) == done;
    } else {
      LoopStep(canon, done, raws);
      AllOkStep(canon, raws);
      if RecordOf(canon, raws[0]).Ok? {
        var r := RecordOf(canon, raws[0]).value;
        AcceptableStep(canon, done, raws, r);
        if r.Id() !in Keys(done) {
          DistinctWithOne(done, r);
          AcceptedRecords(canon, done + [r], raws[1..]);
        }
      }
    }
  }

  lemma {:induction false} RecordsOfWithout(canon: Canonical6, raws: seq<Json>, i: nat)
    requires AllOk(canon, raws) && i < |raws|
    ensures AllOk(canon, raws[..i] + raws[i + 1..])
    ensures multiset(RecordsOf(canon, raws))
            == multiset(RecordsOf(canon, raws[..i] + raws[i + 1..])) + multiset{RecordOf(canon, raws[i]).value}
  {
    assert forall raw | raw in raws[..i] + raws[i + 1..] :: raw in raws;
    if i > 0 {
      assert AllOk(canon, raws[1..]);
      RecordsOfWithout(canon, raws[1..], i - 1);
      WithoutOne(raws, i);
    } else {
      assert raws[..0] + raws[1..] == raws[1..];
    }
  }

  lemma {:induction false} RecordsOfPermutes(canon: Canonical6, a: seq<Json>, b: seq<Json>)
    requires multiset(a) == multiset(b) && AllOk(canon, a) && AllOk(canon, b)
    ensures multiset(RecordsOf(canon, a)) == multiset(RecordsOf(canon, b))
  {
    if a == [] {
      assert |multiset(b)| == 0;
    } else {
      var i := HeadElsewhere(a, b);
      RecordsOfWithout(canon, b, i);
      assert AllOk(canon, a[1..]);
      RecordsOfPermutes(canon, a[1..], b[..i] + b[i + 1..]);
    }
  }

  lemma AllOkPermutes(canon: Canonical6, a: seq<Json>, b: seq<Json>)
    requires multiset(a) == multiset(b)
    ensures AllOk(canon, a) ==> AllOk(canon, b)
  {
    if AllOk(canon, a) {
      forall raw | raw in b ensures RecordOf(canon, raw).Ok? {
        assert raw in multiset(b);
        assert raw in a;
      }
    }
  }

  lemma PermutedAccepts(canon: Canonical6, a: seq<Json>, b: seq<Json>)
    requires multiset(a) == multiset(b) && NormalizeRecordList(canon, JList(a)).Ok?
    ensures NormalizeRecordList(canon, JList(b)) == NormalizeRecordList(canon, JList(a))
  {
    AcceptedRecords(canon, [], a);
    AcceptedRecords(canon, [], b);
    AllOkPermutes(canon, a, b);
    var ra, rb := RecordsOf(canon, a), RecordsOf(canon, b);
    assert [] + ra == ra && [] + rb == rb;
    RecordsOfPermutes(canon, a, b);
    DistinctKeysPermutes(ra, rb);
    assert |a| == |multiset(a)| == |multiset(b)| == |b|;
    SortSorts(ra);
    SortSorts(rb);
    DistinctKeysPermutes(ra, SortRecords(ra));
    SortedRecordsUnique(SortRecords(ra), SortRecords(rb));
  }

  function WithRecords(fields: map<string, Json>, records: seq<Json>): Json {
    JObj(fields["records" := JList(records)])
  }

  /** Acceptance and the normalised payload do not depend on the order of the records. */
  lemma OrderIsIrrelevant(canon: Canonical6, fields: map<string, Json>, a: seq<Json>, b: seq<Json>)
    requires multiset(a) == multiset(b)
    ensures NormalizePayload(canon, WithRecords(fields, a)).Ok? <==> NormalizePayload(canon, WithRecords(fields, b)).Ok?
    ensures NormalizePayload(canon, WithRecords(fields, a)).Ok? ==>
              NormalizePayload(canon, WithRecords(fields, a)) == NormalizePayload(canon, WithRecords(fields, b))
  {
    if NormalizePayload(canon, WithRecords(fields, a)).Ok? {
      PermutedPayload(canon, fields, a, b);
    }
    if NormalizePayload(canon, WithRecords(fields, b)).Ok? {
      PermutedPayload(canon, fields, b, a);
    }
  }

  lemma OtherFields(fields: map<string, Json>, a: seq<Json>, b: seq<Json>)
    ensures NormalizeRevision(WithRecords(fields, a).fields) == NormalizeRevision(WithRecords(fields, b).fields)
    ensures NormalizeIdentity(WithRecords(fields, a).fields) == NormalizeIdentity(WithRecords(fields, b).fields)
  {
  }

  lemma PermutedPayload(canon: Canonical6, fields: map<string, Json>, a: seq<Json>, b: seq<Json>)
    requires multiset(a) == multiset(b) && NormalizePayload(canon, WithRecords(fields, a)).Ok?
    ensures NormalizePayload(canon, WithRecords(fields, b)) == NormalizePayload(canon, WithRecords(fields, a))
  {
    OtherFields(fields, a, b);
    PermutedAccepts(canon, a, b);
  }

  // ----- printing accepted payloads -----

  lemma CanonicalIsManaged(canon: Canonical6, p: Payload)
    requires Canonical(canon, p)
    ensures Managed(p)
  {
    forall r | r in p.records ensures r.Id() != APEX_NS && r.values != [] {
      assert CanonicalRecord(canon, r);
    }
  }

  lemma ValuePrintable(canon: Canonical6, r: Record, v: string)
    requires CanonicalRecord(canon, r) && v in r.values
    ensures Printable(Entry(r.Id(), r.ttl, v))
  {
    OwnerPrintable(r.name);
    TypeFixed(r.rtype);
    assert CanonicalValue(canon, r.rtype, v);
    if IsSpaceOrBreak(v[0]) {
      BlankIsSpace(v[0]);
    }
  }

  predicate IsSpaceOrBreak(c: char) {
    c == ' ' || c == '\t' || c == '\n'
  }

  lemma {:induction false} RecordsPrintable(canon: Canonical6, rs: seq<Record>)
    requires forall r | r in rs :: CanonicalRecord(canon, r)
    ensures forall e | e in RecordsEntries(rs) :: Printable(e)
  {
    if rs != [] {
      var n := |rs| - 1;
      RecordsPrintable(canon, rs[..n]);
      var es := RecordEntries(rs[n]);
      forall e | e in es ensures Printable(e) {
        var i :| 0 <= i < |es| && es[i] == e;
        ValuePrintable(canon, rs[n], rs[n].values[i]);
      }
    }
  }

  /** Every AAAA value reads as plain text. */
  predicate PlainAddresses(p: Payload) {
    forall r | r in p.records && r.rtype == "AAAA" :: forall v | v in r.values :: Rdata.Plain(v)
  }

  predicate ScopeFree(p: Payload) {
    forall r | r in p.records && r.rtype == "AAAA" :: forall v | v in r.values :: '%' !in v
  }

  lemma PlainExceptAddresses(canon: Canonical6, p: Payload)
    requires Lawful(canon) && Canonical(canon, p)
    ensures PlainValues(p.records) <==> PlainAddresses(p)
    ensures ScopeFree(p) ==> PlainAddresses(p)
  {
    forall r, v | r in p.records && v in r.values && (r.rtype != "AAAA" || '%' !in v) ensures Rdata.Plain(v) {
      assert CanonicalRecord(canon, r);
      assert CanonicalValue(canon, r.rtype, v);
      CanonicalValuePlain(canon, r.rtype, v);
    }
  }

  lemma ZoneIsSimple(value: string)
    requires ValidateZone(value).Ok?
    ensures ValidateZone(value).value != [] && Simple(ValidateZone(value).value)
  {
    var zone := ValidateZone(value).value;
    assert IsHostname(zone);
    HostnameText(zone);
    HostnameNotEmpty(zone);
  }

  /** The printed zone file of an accepted payload reads back as exactly what was accepted, if and
      only if no AAAA value carries a scope that means something to a master file; in particular
      whenever no address has a scope. */
  lemma AcceptedRoundTrip(canon: Canonical6, name: string, j: Json, today: nat)
    requires Lawful(canon) && ValidateZone(name).Ok? && NormalizePayload(canon, j).Ok?
    ensures var zone, p := ValidateZone(name).value, NormalizePayload(canon, j).value;
            && (ReadBackExactly(zone, p, today) <==> PlainAddresses(p))
            && (ScopeFree(p) ==> ReadBackExactly(zone, p, today))
  {
    var zone, p := ValidateZone(name).value, NormalizePayload(canon, j).value;
    AcceptedIsPrintable(canon, name, j);
    RoundTripIffPlain(zone, p, today);
  }

  lemma AcceptedIsPrintable(canon: Canonical6, name: string, j: Json)
    requires Lawful(canon) && ValidateZone(name).Ok? && NormalizePayload(canon, j).Ok?
    ensures var zone, p := ValidateZone(name).value, NormalizePayload(canon, j).value;
            && zone != [] && Simple(zone) && PrintablePayload(p) && Managed(p)
            && (PlainValues(p.records) <==> PlainAddresses(p)) && (ScopeFree(p) ==> PlainAddresses(p))
  {
    var p := NormalizePayload(canon, j).value;
    ZoneIsSimple(name);
    AcceptedIsCanonical(canon, j);
    CanonicalIsManaged(canon, p);
    RecordsPrintable(canon, p.records);
    PlainExceptAddresses(canon, p);
  }

  /** A server that loads the printed file of an accepted payload serves what the payload means. */
  lemma AcceptedLoads(canon: Canonical6, name: string, j: Json, today: nat)
    requires Lawful(canon) && ValidateZone(name).Ok? && NormalizePayload(canon, j).Ok?
    requires PlainAddresses(NormalizePayload(canon, j).value)
    ensures var zone, p := ValidateZone(name).value, NormalizePayload(canon, j).value;
            MasterFile.LoadZoneFile(zone, ZoneFileText(zone, p, today)) == Some(ContentOf(p))
  {
    AcceptedIsPrintable(canon, name, j);
    LoadPrinted(ValidateZone(name).value, NormalizePayload(canon, j).value, today);
  }

  /** The incremental update from one accepted payload to another, begun on any content that an
      interrupted attempt may have left, ends in the content that a server would load from the
      printed file of the new payload. */
  lemma UpdateEqualsLoading(canon: Canonical6, name: string, from: Json, into: Json, c: Content, unset: seq<Key>,
      today: nat)
    requires Lawful(canon) && ValidateZone(name).Ok?
    requires NormalizePayload(canon, from).Ok? && NormalizePayload(canon, into).Ok?
    requires PlainAddresses(NormalizePayload(canon, into).value)
    requires var previous, desired := NormalizePayload(canon, from).value, NormalizePayload(canon, into).value;
             Reconcilable(c, previous, desired) && Elements(unset) == Keys(previous.records) + Keys(desired.records)
    ensures var zone, desired := ValidateZone(name).value, NormalizePayload(canon, into).value;
            MasterFile.LoadZoneFile(zone, ZoneFileText(zone, desired, today))
            == Some(c.(rrsets := Load(Unset(c.rrsets, unset), RecordsEntries(desired.records))))
  {
    AcceptedIsPrintable(canon, name, from);
    AcceptedIsPrintable(canon, name, into);
    AcceptedLoads(canon, name, into, today);
    UpdateEqualsRebuild(c, NormalizePayload(canon, from).value, NormalizePayload(canon, into).value, unset);
  }

  ghost predicate ReadBackExactly(zone: string, p: Payload, today: nat) {
    MasterFile.ReadZoneFile(ZoneFileText(zone, p, today)) == Some(PrintedItems(zone, p, today))
  }

  const SCOPED := "fe80::1" + "%" + ";x"

  lemma ScopedIsNotPlain()
    ensures !Rdata.Plain(SCOPED)
  {
    Rdata.RunAppend(Rdata.NORMAL, "fe80::1" + "%", ";x");
    SimpleRun("fe80::1" + "%");
    assert Rdata.Next(Rdata.NORMAL, ";x"[0]) == None;
  }

  const SCOPED_RECORD := Record("@", "AAAA", 3600, [SCOPED])

  lemma ScopeText()
    ensures CleanText(";x") && '%' !in ";x" && '/' !in ";x"
  {
  }

  lemma ScopedIsCanonical(canon: Canonical6)
    requires Lawful(canon) && canon("fe80::1") == Some("fe80::1")
    ensures CanonicalValue(canon, "AAAA", SCOPED)
  {
    VisibleIsNotSpace('x');
    ScopeText();
    ScopedIPv6IsCanonical(canon, "fe80::1", ";x");
  }

  lemma ApexIsOwner()
    ensures OwnerText("@") && ValidateOwner(JStr("@")) == Ok("@")
  {
    VisibleIsNotSpace('@');
    TrimmedFixed("@");
  }

  lemma OneValue(canon: Canonical6, rtype: string, v: string)
    requires CanonicalValue(canon, rtype, v)
    ensures CanonicalValues(canon, rtype, [v])
  {
  }

  lemma OneValueRecord(canon: Canonical6, rtype: string, v: string)
    requires rtype in ALLOWED_TYPES && rtype !in {"NS", "CNAME"} && CanonicalValue(canon, rtype, v)
    ensures CanonicalRecord(canon, Record("@", rtype, 3600, [v]))
  {
    ApexIsOwner();
    OneValue(canon, rtype, v);
  }

  lemma ScopedRecordIsCanonical(canon: Canonical6)
    requires Lawful(canon) && canon("fe80::1") == Some("fe80::1")
    ensures CanonicalRecord(canon, SCOPED_RECORD)
  {
    ScopedIsCanonical(canon);
    OneValueRecord(canon, "AAAA", SCOPED);
  }

  lemma ScopedPayloadIsCanonical(canon: Canonical6, p: Payload)
    requires Canonical(canon, p) && CanonicalRecord(canon, SCOPED_RECORD)
    ensures Canonical(canon, p.(records := [SCOPED_RECORD]))
  {
    assert CanonicalList(canon, [SCOPED_RECORD]);
  }

  /** The condition is needed: with a scope that starts a comment, an accepted payload prints as a
      file that does not read back. */
  lemma ScopedAddressBreaks(canon: Canonical6, p: Payload, zone: string, today: nat)
    requires Lawful(canon) && canon("fe80::1") == Some("fe80::1")
    requires Canonical(canon, p) && zone != [] && Simple(zone)
    ensures var bad := p.(records := [SCOPED_RECORD]);
            NormalizePayload(canon, EncodePayload(bad)) == Ok(bad) && !ReadBackExactly(zone, bad, today)
  {
    var bad := p.(records := [SCOPED_RECORD]);
    ScopedRecordIsCanonical(canon);
    ScopedPayloadIsCanonical(canon, p);
    FittingIsFixed(canon, bad);
    ScopedPrintsBadly(canon, bad, zone, today);
  }

  lemma ScopedPrintsBadly(canon: Canonical6, bad: Payload, zone: string, today: nat)
    requires Canonical(canon, bad) && bad.records == [SCOPED_RECORD] && zone != [] && Simple(zone)
    ensures !ReadBackExactly(zone, bad, today)
  {
    RecordsPrintable(canon, bad.records);
    ScopedIsNotPlain();
    assert SCOPED_RECORD in bad.records && SCOPED in SCOPED_RECORD.values;
    RoundTripIffPlain(zone, bad, today);
  }
}
