/**
 * The decisions of the record set handler's Create, Read, Update and Delete,
 * taken over plain inputs: the configured values, what listing the zone
 * returned, and the zone's apex name. The API calls themselves are not modelled.
 */
module RecordSets {
  import opened Wrappers
  import opened RoutingPolicies

  /** `dns.ResourceRecordSet`; an empty `rrdatas` and a `None` policy stand for unset fields. */
  datatype RecordSet = RecordSet(
    name: string,
    rtype: string,
    ttl: int,
    rrdatas: seq<string>,
    routingPolicy: Option<RoutingPolicy>)

  /** `dns.Change`: an empty `deletions` stands for the field being left unset. */
  datatype Change = Change(additions: seq<RecordSet>, deletions: seq<RecordSet>)

  /** The resource's configured attributes, as the framework reports them. */
  datatype Config = Config(
    zone: string,
    name: string,
    rtype: string,
    ttl: int,
    rrdatas: seq<string>,      // empty when unset
    routingPolicy: seq<Value>) // the raw `routing_policy` list, empty when unset

  /** The resource's stored state that Read refreshes. */
  datatype State = State(
    id: string,
    rtype: string,
    ttl: int,
    rrdatas: seq<string>,
    routingPolicy: seq<Value>,
    project: string)

  /** The record set a configuration describes. */
  function RecordOf(cfg: Config): RecordSet {
    RecordSet(cfg.name, cfg.rtype, cfg.ttl, cfg.rrdatas, Convert(cfg.routingPolicy))
  }

  // ---------------------------------------------------------------------------
  // The resource id

  /** Joins non-empty `parts` with `/` between them. */
  function Join(parts: seq<string>): string
    requires |parts| >= 1
    decreases |parts|
  {
    if |parts| == 1 then parts[0] else parts[0] + "/" + Join(parts[1..])
  }

  /** `projects/{project}/managedZones/{zone}/rrsets/{name}/{type}`. */
  function ResourceId(project: string, zone: string, name: string, rtype: string): string {
    Join(["projects", project, "managedZones", zone, "rrsets", name, rtype])
  }

  /** Splits a string at every `/`. */
  function Segments(s: string): (parts: seq<string>)
    ensures |parts| >= 1
    decreases |s|
  {
    if s == [] then [""]
    else
      var rest := Segments(s[1..]);
      if s[0] == '/' then [""] + rest else [[s[0]] + rest[0]] + rest[1..]
  }

  /** One segment of an id: non-empty and free of `/`. */
  predicate IsSegment(s: string) {
    |s| > 0 && '/' !in s
  }

  /** Reads an id back into (project, zone, name, type) when it has the id's layout. */
  function ParseId(id: string): Option<(string, string, string, string)> {
    var seg := Segments(id);
    if |seg| == 7 && seg[0] == "projects" && seg[2] == "managedZones" && seg[4] == "rrsets"
       && IsSegment(seg[1]) && IsSegment(seg[3]) && IsSegment(seg[5]) && IsSegment(seg[6])
    then Some((seg[1], seg[3], seg[5], seg[6]))
    else None
  }

  lemma {:induction false} SegmentsOfPlain(s: string)
    requires '/' !in s
    ensures Segments(s) == [s]
    decreases |s|
  {
    if s != [] {
      SegmentsOfPlain(s[1..]);
      assert [s[0]] + s[1..] == s;
    }
  }

  lemma {:induction false} SegmentsAfterPlain(a: string, b: string)
    requires '/' !in a
    ensures Segments(a + "/" + b) == [a] + Segments(b)
    decreases |a|
  {
    var s := a + "/" + b;
    if a == [] {
      assert s == "/" + b && s[1..] == b;
    } else {
      assert s[1..] == a[1..] + "/" + b;
      SegmentsAfterPlain(a[1..], b);
      assert [a[0]] + a[1..] == a;
    }
  }

  /** Splitting a join of slash-free parts gives the parts back. */
  lemma {:induction false} SegmentsOfJoin(parts: seq<string>)
    requires |parts| >= 1 && forall i | 0 <= i < |parts| :: '/' !in parts[i]
    ensures Segments(Join(parts)) == parts
    decreases |parts|
  {
    if |parts| == 1 {
      SegmentsOfPlain(parts[0]);
    } else {
      SegmentsOfJoin(parts[1..]);
      SegmentsAfterPlain(parts[0], Join(parts[1..]));
    }
  }

  lemma LiteralsPlain()
    ensures '/' !in "projects" && '/' !in "managedZones" && '/' !in "rrsets"
  {
  }

  /** The id determines its four parts: each reads back unchanged. */
  lemma IdRoundTrip(project: string, zone: string, name: string, rtype: string)
    requires IsSegment(project) && IsSegment(zone) && IsSegment(name) && IsSegment(rtype)
    ensures ParseId(ResourceId(project, zone, name, rtype)) == Some((project, zone, name, rtype))
  {
    LiteralsPlain();
    SegmentsOfJoin(["projects", project, "managedZones", zone, "rrsets", name, rtype]);
  }

  // ---------------------------------------------------------------------------
  // Reading the configuration

  /** `rrdata(d)`: the configured records, copied by index into a fresh slice. */
  method Rrdata(cfg: Config) returns (data: seq<string>)
    ensures data == cfg.rrdatas
  {
    if |cfg.rrdatas| == 0 {
      return [];
    }
    var count := |cfg.rrdatas|;
    var a := new string[count];
    for i := 0 to count
      invariant a[..i] == cfg.rrdatas[..i]
    {
      a[i] := cfg.rrdatas[i];
    }
    return a[..];
  }

  /** The record set a configuration describes, read through `rrdata` and `routingPolicy`. */
  method RecordFromConfig(cfg: Config) returns (rset: RecordSet)
    requires ConvertDefined(cfg.routingPolicy)
    ensures rset == RecordOf(cfg)
  {
    var rrdatas := Rrdata(cfg);
    var rp := FromConfig(cfg.routingPolicy);
    rset := RecordSet(cfg.name, cfg.rtype, cfg.ttl, rrdatas, rp);
  }

  // ---------------------------------------------------------------------------
  // Create

  predicate SameKey(r: RecordSet, name: string, rtype: string) {
    r.name == name && r.rtype == rtype
  }

  /** The listed record sets with the given name and type, in listing order. */
  function Conflicts(listed: seq<RecordSet>, name: string, rtype: string): (r: seq<RecordSet>)
    ensures |r| <= |listed|
    ensures forall x :: x in r <==> x in listed && SameKey(x, name, rtype)
  {
    if listed == [] then []
    else
      var last := listed[|listed| - 1];
      var init := listed[..|listed| - 1];
      assert listed == init + [last];
      Conflicts(init, name, rtype) + (if SameKey(last, name, rtype) then [last] else [])
  }

  /** Create's filter loop over the listing (an append loop). */
  method ConflictingRecords(listed: seq<RecordSet>, name: string, rtype: string)
    returns (deletions: seq<RecordSet>)
    ensures deletions == Conflicts(listed, name, rtype)
  {
    deletions := [];
    for i := 0 to |listed|
      invariant deletions == Conflicts(listed[..i], name, rtype)
    {
      assert listed[..i + 1][..i] == listed[..i];
      var record := listed[i];
      if record.rtype != rtype || record.name != name {
        continue;
      }
      deletions := deletions + [record];
    }
    assert listed[..|listed|] == listed;
  }

  /**
   * Create: one addition, the configured record set, and as deletions every
   * listed record set with the same name and type, so that a conflicting
   * record is replaced rather than reported; and the new resource id.
   */
  method Create(cfg: Config, project: string, listed: seq<RecordSet>) returns (chg: Change, id: string)
    requires ConvertDefined(cfg.routingPolicy)
    ensures chg.additions == [RecordOf(cfg)]
    ensures chg.deletions == Conflicts(listed, cfg.name, cfg.rtype)
    ensures chg.deletions == [] <==> forall x | x in listed :: !SameKey(x, cfg.name, cfg.rtype)
    ensures id == ResourceId(project, cfg.zone, cfg.name, cfg.rtype)
  {
    var rset := RecordSet(cfg.name, cfg.rtype, cfg.ttl, [], None);
    var rrdatas := Rrdata(cfg);
    if |rrdatas| > 0 {
      rset := rset.(rrdatas := rrdatas);
    }
    var rp := FromConfig(cfg.routingPolicy);
    if rp.Some? {
      rset := rset.(routingPolicy := rp);
    }
    chg := Change([rset], []);
    var deletions := ConflictingRecords(listed, cfg.name, cfg.rtype);
    if |deletions| > 0 {
      chg := chg.(deletions := deletions);
    }
    if deletions != [] {
      assert deletions[0] in deletions;
    }
    id := ResourceId(project, cfg.zone, cfg.name, cfg.rtype);
  }

  // ---------------------------------------------------------------------------
  // Read

  datatype ReadError = TooManyRecordSets(count: nat)

  /** The state after reading back the single listed record set `rs`. */
  function Refreshed(state: State, project: string, rs: RecordSet): State {
    state.(
      rtype := rs.rtype,
      ttl := rs.ttl,
      rrdatas := if |rs.rrdatas| > 0 then rs.rrdatas else state.rrdatas,
      routingPolicy := if rs.routingPolicy.Some? then Flattened(rs.routingPolicy) else state.routingPolicy,
      project := project)
  }

  /**
   * Read, given what listing the record sets with the resource's name and
   * type returned: none clears the id without an error, more than one is an
   * error, exactly one refreshes type, ttl, records (when there are any),
   * routing policy (when there is one) and project.
   */
  method Read(state: State, project: string, listed: seq<RecordSet>) returns (r: Result<State, ReadError>)
    ensures |listed| == 0 ==> r == Ok(state.(id := ""))
    ensures |listed| > 1 ==> r == Err(TooManyRecordSets(|listed|))
    ensures |listed| == 1 ==> r == Ok(Refreshed(state, project, listed[0]))
  {
    if |listed| == 0 {
      return Ok(state.(id := ""));
    }
    if |listed| > 1 {
      return Err(TooManyRecordSets(|listed|));
    }
    var rrset := listed[0];
    var s := state.(rtype := rrset.rtype, ttl := rrset.ttl);
    if |rrset.rrdatas| > 0 {
      s := s.(rrdatas := rrset.rrdatas);
    }
    if rrset.routingPolicy.Some? {
      var flat := Flatten(rrset.routingPolicy);
      s := s.(routingPolicy := flat);
    }
    s := s.(project := project);
    return Ok(s);
  }

  /**
   * What Read stores is what the next Update or Delete reads back: the stored
   * routing policy converts without failing, and to the listed policy itself
   * when that has one sub-policy with records in every item.
   */
  lemma ReadPolicyRoundTrip(state: State, project: string, rs: RecordSet)
    requires rs.routingPolicy.Some? && WellFormed(rs.routingPolicy.value)
    ensures ConvertDefined(Refreshed(state, project, rs).routingPolicy)
    ensures Convert(Refreshed(state, project, rs).routingPolicy) == rs.routingPolicy
  {
    RoundTrip(rs.routingPolicy.value);
  }

  // ---------------------------------------------------------------------------
  // Delete

  /** The result of looking up the managed zone. */
  datatype ZoneLookup = ZoneFound(dnsName: string) | ZoneLookupFailed

  datatype DeleteOutcome =
    | ApexNsKept                    // success, nothing submitted
    | DeletionSubmitted(chg: Change) // then the id is cleared
    | ZoneLookupError

  /** The zone's own NS record, which the API refuses to delete. */
  predicate IsApexNs(cfg: Config, apex: ZoneLookup) {
    cfg.rtype == "NS" && apex == ZoneFound(cfg.name)
  }

  /**
   * Delete: an NS record needs the zone's DNS name first; the apex NS record
   * is left in place and reported deleted; everything else is removed by a
   * deletion-only change. The lookup only matters for NS records.
   */
  method Delete(cfg: Config, apex: ZoneLookup) returns (out: DeleteOutcome)
    requires ConvertDefined(cfg.routingPolicy)
    ensures out == ApexNsKept <==> IsApexNs(cfg, apex)
    ensures out == ZoneLookupError <==> cfg.rtype == "NS" && apex == ZoneLookupFailed
    ensures out.DeletionSubmitted? ==> out.chg == Change([], [RecordOf(cfg)])
  {
    if cfg.rtype == "NS" {
      if apex.ZoneLookupFailed? {
        return ZoneLookupError;
      }
      if apex.dnsName == cfg.name {
        return ApexNsKept;
      }
    }
    var rset := RecordFromConfig(cfg);
    return DeletionSubmitted(Change([], [rset]));
  }

  // ---------------------------------------------------------------------------
  // Update

  /**
   * Update: delete the record set as the old values describe it and add the
   * one the new values describe (name and zone cannot change), then
   * recompute the id from the new type.
   */
  method Update(oldCfg: Config, newCfg: Config, project: string) returns (chg: Change, id: string)
    requires ConvertDefined(oldCfg.routingPolicy) && ConvertDefined(newCfg.routingPolicy)
    ensures chg.deletions == [RecordOf(oldCfg.(name := newCfg.name))]
    ensures chg.additions == [RecordOf(newCfg)]
    ensures id == ResourceId(project, newCfg.zone, newCfg.name, newCfg.rtype)
  {
    var recordName := newCfg.name;
    var oldCount := |oldCfg.rrdatas|;
    var oldPolicy := ConvertRoutingPolicy(oldCfg.routingPolicy);
    var addition := RecordFromConfig(newCfg);
    var oldRrdatas := new string[oldCount];
    for i := 0 to oldCount
      invariant oldRrdatas[..i] == oldCfg.rrdatas[..i]
    {
      oldRrdatas[i] := oldCfg.rrdatas[i];
    }
    assert oldRrdatas[..] == oldRrdatas[..oldCount];
    assert oldCfg.rrdatas[..oldCount] == oldCfg.rrdatas;
    var deletion := RecordSet(recordName, oldCfg.rtype, oldCfg.ttl, oldRrdatas[..], oldPolicy);
    chg := Change([addition], [deletion]);
    id := ResourceId(project, newCfg.zone, recordName, newCfg.rtype);
  }
}
