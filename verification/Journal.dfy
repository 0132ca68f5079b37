/** The durable state of the control service: committed zones and the pending journal. */
module Journal {
  import opened Ordering
  import opened Text
  import opened Wrappers
  import opened Zones

  datatype Transition =
    | Upsert(previous: Option<Payload>, desired: Payload)
    | Delete(committed: Payload)

  datatype State = State(zones: map<string, Payload>, pending: map<string, Transition>)

  const EMPTY := State(map[], map[])

  function EffectiveDomain(s: State): set<string> {
    (set z | z in s.zones && (z in s.pending ==> s.pending[z].Upsert?))
    + (set z | z in s.pending && s.pending[z].Upsert?)
  }

  /** The intended zones: the committed ones with every pending transition carried out. */
  function Effective(s: State): map<string, Payload> {
    map z | z in EffectiveDomain(s) :: if z in s.pending then s.pending[z].desired else s.zones[z]
  }

  function StageUpsert(s: State, zone: string, desired: Payload): State {
    s.(pending := s.pending[zone := Upsert(Lookup(s.zones, zone), desired)])
  }

  function StageDelete(s: State, zone: string): State
    requires zone in s.zones
  {
    s.(pending := s.pending[zone := Delete(s.zones[zone])])
  }

  /** Moves one pending transition into the committed zones. */
  function Commit(s: State, zone: string): State
    requires zone in s.pending
  {
    State(
      match s.pending[zone] {
        case Upsert(_, desired) => s.zones[zone := desired]
        case Delete(_) => s.zones - {zone}
      },
      s.pending - {zone})
  }

  /** Staging changes the effective map at exactly one key. */
  lemma StageUpsertEffective(s: State, zone: string, desired: Payload)
    ensures Effective(StageUpsert(s, zone, desired)) == Effective(s)[zone := desired]
  {
  }

  lemma StageDeleteEffective(s: State, zone: string)
    requires zone in s.zones
    ensures Effective(StageDelete(s, zone)) == Effective(s) - {zone}
  {
  }

  /** Committing a pending transition leaves the effective map alone. */
  lemma CommitEffective(s: State, zone: string)
    requires zone in s.pending
    ensures Effective(Commit(s, zone)) == Effective(s)
  {
  }

  lemma EffectiveOfCommitted(s: State)
    requires s.pending == map[]
    ensures Effective(s) == s.zones
  {
  }

  ghost predicate AtMostOnePending(s: State) {
    forall y, z | y in s.pending && z in s.pending :: y == z
  }

  /** What holds of every state that the service ever writes. */
  ghost predicate Sound(s: State) {
    && AtMostOnePending(s)
    && (forall z | z in s.zones :: Managed(s.zones[z]))
    && (forall z | z in s.pending :: SoundTransition(s, z))
  }

  ghost predicate SoundTransition(s: State, zone: string)
    requires zone in s.pending
  {
    match s.pending[zone]
    case Upsert(previous, desired) =>
      && Managed(desired)
      && previous == Lookup(s.zones, zone)
      && (previous.Some? ==> desired.revision > previous.value.revision)
    case Delete(committed) =>
      Lookup(s.zones, zone) == Some(committed)
  }

  lemma SoundCommit(s: State, zone: string)
    requires Sound(s) && zone in s.pending
    ensures Sound(Commit(s, zone)) && Commit(s, zone).pending == map[]
  {
  }

  lemma OnlyPending(s: State, zone: string)
    requires AtMostOnePending(s) && zone in s.pending
    ensures s.pending.Keys == {zone}
  {
  }

  // ----- the generated Knot include -----

  const HEADER := "#" + " Generated by hyrule-dns-control. Do not edit."
  const MEMBER_TEMPLATE := "customer-member"
  const DOMAIN_PREFIX := "  - domain: "
  const TEMPLATE_PREFIX := "    template: "

  function ZoneLines(zones: seq<string>): seq<string> {
    if zones == [] then []
    else ZoneLines(zones[..|zones| - 1])
         + [DOMAIN_PREFIX + zones[|zones| - 1], TEMPLATE_PREFIX + MEMBER_TEMPLATE]
  }

  /** The lines of the include for a sorted list of zones. */
  function IncludeLines(zones: seq<string>): seq<string> {
    [HEADER] + if zones == [] then [] else ["zone:"] + ZoneLines(zones)
  }

  /** What Knot reads from the include: the name on every domain line. */
  function IncludedZones(lines: seq<string>): set<string> {
    set line | line in lines && DOMAIN_PREFIX <= line :: line[|DOMAIN_PREFIX|..]
  }

  ghost function IncludeOf(s: State): seq<string> {
    IncludeLines(SortNames(EffectiveDomain(s)))
  }

  lemma IncludedAppend(a: seq<string>, b: seq<string>)
    ensures IncludedZones(a + b) == IncludedZones(a) + IncludedZones(b)
  {
  }

  lemma {:induction false} ZoneLinesRead(zones: seq<string>)
    ensures IncludedZones(ZoneLines(zones)) == Elements(zones)
  {
    if zones != [] {
      var n := |zones| - 1;
      ZoneLinesRead(zones[..n]);
      var domain, template := DOMAIN_PREFIX + zones[n], TEMPLATE_PREFIX + MEMBER_TEMPLATE;
      assert template[2] != DOMAIN_PREFIX[2];
      assert domain[|DOMAIN_PREFIX|..] == zones[n];
      assert IncludedZones([domain]) == {zones[n]} by { assert domain in [domain]; }
      assert IncludedZones([template]) == {};
      assert [domain, template] == [domain] + [template];
      IncludedAppend([domain], [template]);
      IncludedAppend(ZoneLines(zones[..n]), [domain, template]);
      assert zones == zones[..n] + [zones[n]];
    }
  }

  lemma IncludeLinesRead(zones: seq<string>)
    ensures IncludedZones(IncludeLines(zones)) == Elements(zones)
  {
    ZoneLinesRead(zones);
    var header := [HEADER];
    assert header[0][0] == '#';
    assert IncludedZones(header) == {};
    var title := ["zone:"];
    assert title[0][0] != DOMAIN_PREFIX[0];
    assert IncludedZones(title) == {};
    IncludedAppend(title, ZoneLines(zones));
    IncludedAppend(header, if zones == [] then [] else title + ZoneLines(zones));
    if zones == [] {
      assert IncludedZones([]) == {} == Elements(zones);
    }
  }

  lemma DomainAfterCommit(s: State, zone: string)
    requires zone in s.pending
    ensures EffectiveDomain(Commit(s, zone)) == EffectiveDomain(s)
  {
  }

  lemma IncludeAfterCommit(s: State, zone: string)
    requires zone in s.pending
    ensures IncludeOf(Commit(s, zone)) == IncludeOf(s)
  {
    DomainAfterCommit(s, zone);
  }

  lemma EffectiveKeys(s: State)
    ensures Effective(s).Keys == EffectiveDomain(s)
  {
  }

  /** Whatever is pending, Knot reads from the include exactly the effective zones, so staging
      and committing a transition produce the same include. */
  lemma IncludeListsEffective(s: State)
    ensures IncludedZones(IncludeOf(s)) == Effective(s).Keys
    ensures forall z | z in s.pending :: IncludeOf(Commit(s, z)) == IncludeOf(s)
  {
    IncludeLinesRead(SortNames(EffectiveDomain(s)));
    EffectiveKeys(s);
    forall z | z in s.pending ensures IncludeOf(Commit(s, z)) == IncludeOf(s) {
      IncludeAfterCommit(s, z);
    }
  }

  /** The members that the lines list, each with its template; nothing for lines of another form. */
  function ReadMembers(lines: seq<string>): Option<seq<(string, string)>> {
    if lines == [] then Some([])
    else if |lines| == 1 || !(DOMAIN_PREFIX <= lines[0]) || !(TEMPLATE_PREFIX <= lines[1]) then None
    else
      match ReadMembers(lines[2..])
      case None => None
      case Some(more) => Some([(lines[0][|DOMAIN_PREFIX|..], lines[1][|TEMPLATE_PREFIX|..])] + more)
  }

  /** A comment, and then the section of the zones, if there are any. */
  function ReadInclude(lines: seq<string>): Option<seq<(string, string)>> {
    if lines == [] || !("#" <= lines[0]) then None
    else if |lines| == 1 then Some([])
    else if lines[1] != "zone:" then None
    else ReadMembers(lines[2..])
  }

  function Members(zones: seq<string>): (ms: seq<(string, string)>)
    ensures |ms| == |zones| && forall i | 0 <= i < |zones| :: ms[i] == (zones[i], "customer-member")
  {
    seq(|zones|, i requires 0 <= i < |zones| => (zones[i], "customer-member"))
  }

  lemma {:induction false} MembersSnoc(lines: seq<string>, zone: string, template: string)
    requires ReadMembers(lines).Some?
    ensures ReadMembers(lines + [DOMAIN_PREFIX + zone, TEMPLATE_PREFIX + template])
            == Some(ReadMembers(lines).value + [(zone, template)])
  {
    var d, t := DOMAIN_PREFIX + zone, TEMPLATE_PREFIX + template;
    if lines == [] {
      var two := lines + [d, t];
      assert two[2..] == lines && two[0] == d && two[1] == t;
      assert d[|DOMAIN_PREFIX|..] == zone && t[|TEMPLATE_PREFIX|..] == template;
      assert ReadMembers(two) == Some([(zone, template)] + []);
      assert ReadMembers(lines).value + [(zone, template)] == [(zone, template)] + [];
    } else {
      MembersSnoc(lines[2..], zone, template);
      assert (lines + [d, t])[2..] == lines[2..] + [d, t];
      assert (lines + [d, t])[0] == lines[0] && (lines + [d, t])[1] == lines[1];
      var first := (lines[0][|DOMAIN_PREFIX|..], lines[1][|TEMPLATE_PREFIX|..]);
      var more := ReadMembers(lines[2..]).value;
      assert [first] + (more + [(zone, template)]) == [first] + more + [(zone, template)];
    }
  }

  lemma {:induction false} MembersRead(zones: seq<string>)
    ensures ReadMembers(ZoneLines(zones)) == Some(Members(zones))
  {
    if zones != [] {
      var n := |zones| - 1;
      MembersRead(zones[..n]);
      MembersSnoc(ZoneLines(zones[..n]), zones[n], MEMBER_TEMPLATE);
      assert Members(zones) == Members(zones[..n]) + [(zones[n], "customer-member")];
    }
  }

  lemma IncludeReads(zones: seq<string>)
    ensures ReadInclude(IncludeLines(zones)) == Some(Members(zones))
  {
    MembersRead(zones);
    assert HEADER[..1] == "#";
    if zones != [] {
      assert ([HEADER] + (["zone:"] + ZoneLines(zones)))[2..] == ZoneLines(zones);
    }
  }

  lemma MembersAre(zones: seq<string>, names: set<string>)
    requires Elements(zones) == names
    ensures forall m: (string, string) | m in Members(zones) :: m.0 in names && m.1 == "customer-member"
    ensures forall zone | zone in names :: (zone, "customer-member") in Members(zones)
  {
    forall m: (string, string) | m in Members(zones) ensures m.0 in names && m.1 == "customer-member" {
      var i :| 0 <= i < |zones| && m == Members(zones)[i];
      assert zones[i] in Elements(zones);
    }
    forall zone | zone in names ensures (zone, "customer-member") in Members(zones) {
      assert zone in Elements(zones);
      var i :| 0 <= i < |zones| && zones[i] == zone;
      assert Members(zones)[i] == (zone, "customer-member");
    }
  }

  ghost predicate Increasing(members: seq<(string, string)>) {
    forall i, j | 0 <= i < j < |members| :: members[i].0 != members[j].0 && Leq(members[i].0, members[j].0)
  }

  lemma MembersIncrease(zones: seq<string>)
    requires Sorted(Leq, zones) && Distinct(zones)
    ensures Increasing(Members(zones))
  {
  }

  /** The include of a state lists each effective zone once, in order, with the template of the members. */
  lemma IncludeIsComplete(s: State)
    ensures ReadInclude(IncludeOf(s)).Some?
    ensures var members := ReadInclude(IncludeOf(s)).value;
            && Increasing(members)
            && (forall m: (string, string) | m in members :: m.0 in Effective(s) && m.1 == "customer-member")
            && (forall zone | zone in Effective(s) :: (zone, "customer-member") in members)
  {
    var zones := SortNames(EffectiveDomain(s));
    IncludeReads(zones);
    MembersAre(zones, EffectiveDomain(s));
    MembersIncrease(zones);
  }
}
