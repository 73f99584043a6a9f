/**
 * Conversion between the loosely typed `routing_policy` configuration block
 * and the API's routing policy (`convertRoutingPolicy`,
 * `flattenDnsRecordSetRoutingPolicy` and its WRR/GEO helpers).
 */
module RoutingPolicies {
  import opened Wrappers

  /** A WRR weight (a float64 in the API); it is only ever copied. */
  type Weight = real

  /** A dynamically typed configuration value, as the framework hands it over. */
  datatype Value =
    | Str(str: string)
    | Float(float: Weight)
    | List(elems: seq<Value>)
    | Dict(fields: map<string, Value>)
    | Nil  // nil, or a value of any other dynamic type

  datatype WrrItem = WrrItem(weight: Weight, rrdatas: seq<string>)
  datatype GeoItem = GeoItem(location: string, rrdatas: seq<string>)
  datatype WrrPolicy = WrrPolicy(items: seq<WrrItem>)
  datatype GeoPolicy = GeoPolicy(items: seq<GeoItem>)

  /** `RRSetRoutingPolicy`: two optional sub-policies, `None` standing for a nil pointer. */
  datatype RoutingPolicy = RoutingPolicy(wrr: Option<WrrPolicy>, geo: Option<GeoPolicy>)

  // ---------------------------------------------------------------------------
  // Reading the dynamic value

  /** `m[name]` where `m` is the value asserted to a map: nil for a missing key or a non-map. */
  function Field(v: Value, name: string): Value {
    if v.Dict? && name in v.fields then v.fields[name] else Nil
  }

  /** `v.([]interface{})` with the ok flag ignored: a non-list reads as an empty list. */
  function ListOf(v: Value): seq<Value> {
    if v.List? then v.elems else []
  }

  /** The strings of a list, or `None` when some element is not a string. */
  function StringsOf(vs: seq<Value>): (r: Option<seq<string>>)
    ensures r.Some? <==> forall j | 0 <= j < |vs| :: vs[j].Str?
    ensures r.Some? ==> |r.value| == |vs| && forall j | 0 <= j < |vs| :: vs[j] == Str(r.value[j])
  {
    if forall j | 0 <= j < |vs| :: vs[j].Str? then
      Some(seq(|vs|, j requires 0 <= j < |vs| => vs[j].str))
    else
      None
  }

  /** The rrdatas of one item: present, non-empty and all strings. */
  function ItemRrdatas(item: Value): Option<seq<string>> {
    var raw := ListOf(Field(item, "rrdatas"));
    if |raw| == 0 then None else StringsOf(raw)
  }

  function WrrItemOf(item: Value): (r: Option<WrrItem>)
    ensures r.Some? ==> |r.value.rrdatas| > 0
  {
    match ItemRrdatas(item)
    case None => None
    case Some(rrdatas) =>
      var w := Field(item, "weight");
      if w.Float? then Some(WrrItem(w.float, rrdatas)) else None
  }

  function GeoItemOf(item: Value): (r: Option<GeoItem>)
    ensures r.Some? ==> |r.value.rrdatas| > 0
  {
    match ItemRrdatas(item)
    case None => None
    case Some(rrdatas) =>
      var loc := Field(item, "location");
      if loc.Str? then Some(GeoItem(loc.str, rrdatas)) else None
  }

  /** Every item converts; the items keep their order. */
  function WrrItemsOf(items: seq<Value>): Option<seq<WrrItem>> {
    if forall i | 0 <= i < |items| :: WrrItemOf(items[i]).Some? then
      Some(seq(|items|, i requires 0 <= i < |items| => WrrItemOf(items[i]).value))
    else
      None
  }

  function GeoItemsOf(items: seq<Value>): Option<seq<GeoItem>> {
    if forall i | 0 <= i < |items| :: GeoItemOf(items[i]).Some? then
      Some(seq(|items|, i requires 0 <= i < |items| => GeoItemOf(items[i]).value))
    else
      None
  }

  /**
   * The item loop does not reach an unchecked assertion `item["rrdatas"].([]interface{})`
   * that fails: every item up to and including the first one that is rejected
   * holds an rrdatas list.
   */
  predicate WrrItemsDefined(items: seq<Value>)
    decreases |items|
  {
    items == [] ||
    (Field(items[0], "rrdatas").List? && (WrrItemOf(items[0]).Some? ==> WrrItemsDefined(items[1..])))
  }

  predicate GeoItemsDefined(items: seq<Value>)
    decreases |items|
  {
    items == [] ||
    (Field(items[0], "rrdatas").List? && (GeoItemOf(items[0]).Some? ==> GeoItemsDefined(items[1..])))
  }

  /** The WRR and GEO item lists of the single policy block. */
  function WrrRaw(ps: seq<Value>): seq<Value>
    requires |ps| == 1
  {
    ListOf(Field(ps[0], "wrr"))
  }

  function GeoRaw(ps: seq<Value>): seq<Value>
    requires |ps| == 1
  {
    ListOf(Field(ps[0], "geo"))
  }

  /** `convertRoutingPolicy` returns instead of panicking. */
  predicate ConvertDefined(ps: seq<Value>) {
    |ps| != 1 || !ps[0].Dict? ||
    (if |WrrRaw(ps)| > 0 then WrrItemsDefined(WrrRaw(ps)) else GeoItemsDefined(GeoRaw(ps)))
  }

  /** A policy with exactly one sub-policy, at least one item, and records in every item. */
  predicate WellFormed(p: RoutingPolicy) {
    match p
    case RoutingPolicy(Some(wrr), None) =>
      |wrr.items| > 0 && forall i | 0 <= i < |wrr.items| :: |wrr.items[i].rrdatas| > 0
    case RoutingPolicy(None, Some(geo)) =>
      |geo.items| > 0 && forall i | 0 <= i < |geo.items| :: |geo.items[i].rrdatas| > 0
    case _ => false
  }

  /**
   * What `convertRoutingPolicy` computes: none unless there is exactly one
   * block and it is a map; the WRR list when it is non-empty, else the GEO
   * list; none when any item of the chosen list is malformed.
   */
  function Convert(ps: seq<Value>): (r: Option<RoutingPolicy>)
    ensures r.Some? ==> |ps| == 1 && ps[0].Dict? && WellFormed(r.value)
  {
    if |ps| != 1 || !ps[0].Dict? then None
    else if |WrrRaw(ps)| > 0 then
      match WrrItemsOf(WrrRaw(ps))
      case None => None
      case Some(items) => Some(RoutingPolicy(Some(WrrPolicy(items)), None))
    else if |GeoRaw(ps)| > 0 then
      match GeoItemsOf(GeoRaw(ps))
      case None => None
      case Some(items) => Some(RoutingPolicy(None, Some(GeoPolicy(items))))
    else None
  }

  // ---------------------------------------------------------------------------
  // Converting, as the source does it

  /** The inner loop: copy the rrdatas of one item into a fresh slice, rejecting a non-string. */
  method ConvertRrdatas(irrdatas: seq<Value>) returns (rrdatas: Option<seq<string>>)
    ensures rrdatas == StringsOf(irrdatas)
  {
    var a := new string[|irrdatas|];
    for j := 0 to |irrdatas|
      invariant forall m | 0 <= m < j :: irrdatas[m] == Str(a[m])
    {
      if !irrdatas[j].Str? {
        return None;
      }
      a[j] := irrdatas[j].str;
    }
    assert forall m | 0 <= m < |irrdatas| :: irrdatas[m].Str?;
    assert a[..] == StringsOf(irrdatas).value;
    return Some(a[..]);
  }

  /** One WRR item of the outer loop. */
  method ConvertWrrItem(item: Value) returns (r: Option<WrrItem>)
    requires Field(item, "rrdatas").List?
    ensures r == WrrItemOf(item)
  {
    var irrdatas := Field(item, "rrdatas").elems;
    if |irrdatas| == 0 {
      return None;
    }
    var rrdatas := ConvertRrdatas(irrdatas);
    if rrdatas.None? {
      return None;
    }
    var weight := Field(item, "weight");
    if !weight.Float? {
      return None;
    }
    return Some(WrrItem(weight.float, rrdatas.value));
  }

  /** One GEO item of the outer loop. */
  method ConvertGeoItem(item: Value) returns (r: Option<GeoItem>)
    requires Field(item, "rrdatas").List?
    ensures r == GeoItemOf(item)
  {
    var irrdatas := Field(item, "rrdatas").elems;
    if |irrdatas| == 0 {
      return None;
    }
    var rrdatas := ConvertRrdatas(irrdatas);
    if rrdatas.None? {
      return None;
    }
    var location := Field(item, "location");
    if !location.Str? {
      return None;
    }
    return Some(GeoItem(location.str, rrdatas.value));
  }

  /** `convertRoutingPolicy`: fills the preallocated item slices by index. */
  method ConvertRoutingPolicy(ps: seq<Value>) returns (r: Option<RoutingPolicy>)
    requires ConvertDefined(ps)
    ensures r == Convert(ps)
  {
    if |ps| != 1 || !ps[0].Dict? {
      return None;
    }
    var wrrRawItems := ListOf(Field(ps[0], "wrr"));
    var geoRawItems := ListOf(Field(ps[0], "geo"));

    if |wrrRawItems| > 0 {
      var wrrItems := new WrrItem[|wrrRawItems|];
      var i := 0;
      while i < |wrrRawItems|
        invariant 0 <= i <= |wrrRawItems|
        invariant WrrItemsDefined(wrrRawItems[i..])
        invariant forall m | 0 <= m < i :: WrrItemOf(wrrRawItems[m]) == Some(wrrItems[m])
      {
        var item := ConvertWrrItem(wrrRawItems[i]);
        if item.None? {
          return None;
        }
        assert wrrRawItems[i..][1..] == wrrRawItems[i + 1..];
        wrrItems[i] := item.value;
        i := i + 1;
      }
      assert forall m | 0 <= m < |wrrRawItems| :: WrrItemOf(wrrRawItems[m]).Some?;
      assert wrrItems[..] == WrrItemsOf(wrrRawItems).value;
      return Some(RoutingPolicy(Some(WrrPolicy(wrrItems[..])), None));
    }

    if |geoRawItems| > 0 {
      var geoItems := new GeoItem[|geoRawItems|];
      var i := 0;
      while i < |geoRawItems|
        invariant 0 <= i <= |geoRawItems|
        invariant GeoItemsDefined(geoRawItems[i..])
        invariant forall m | 0 <= m < i :: GeoItemOf(geoRawItems[m]) == Some(geoItems[m])
      {
        var item := ConvertGeoItem(geoRawItems[i]);
        if item.None? {
          return None;
        }
        assert geoRawItems[i..][1..] == geoRawItems[i + 1..];
        geoItems[i] := item.value;
        i := i + 1;
      }
      assert forall m | 0 <= m < |geoRawItems| :: GeoItemOf(geoRawItems[m]).Some?;
      assert geoItems[..] == GeoItemsOf(geoRawItems).value;
      return Some(RoutingPolicy(None, Some(GeoPolicy(geoItems[..]))));
    }

    return None;
  }

  /** `routingPolicy(d)`: nil when the block is unset or empty, else the conversion. */
  method FromConfig(raw: seq<Value>) returns (rp: Option<RoutingPolicy>)
    requires ConvertDefined(raw)
    ensures rp == Convert(raw)
    ensures rp.Some? ==> |raw| == 1
  {
    if |raw| == 0 {
      return None;
    }
    rp := ConvertRoutingPolicy(raw);
  }

  // ---------------------------------------------------------------------------
  // Flattening back into the configuration shape

  function StringValues(ss: seq<string>): seq<Value> {
    seq(|ss|, i requires 0 <= i < |ss| => Str(ss[i]))
  }

  function WrrValue(item: WrrItem): Value {
    Dict(map["weight" := Float(item.weight), "rrdatas" := List(StringValues(item.rrdatas))])
  }

  function GeoValue(item: GeoItem): Value {
    Dict(map["location" := Str(item.location), "rrdatas" := List(StringValues(item.rrdatas))])
  }

  function WrrValues(items: seq<WrrItem>): seq<Value> {
    seq(|items|, i requires 0 <= i < |items| => WrrValue(items[i]))
  }

  function GeoValues(items: seq<GeoItem>): seq<Value> {
    seq(|items|, i requires 0 <= i < |items| => GeoValue(items[i]))
  }

  /** The single block: key `wrr` for a WRR sub-policy, key `geo` for a GEO one. */
  function PolicyFields(p: RoutingPolicy): map<string, Value> {
    var wrr := if p.wrr.Some? then map["wrr" := List(WrrValues(p.wrr.value.items))] else map[];
    var geo := if p.geo.Some? then map["geo" := List(GeoValues(p.geo.value.items))] else map[];
    wrr + geo
  }

  /** What `flattenDnsRecordSetRoutingPolicy` computes. */
  function Flattened(policy: Option<RoutingPolicy>): seq<Value> {
    match policy
    case None => []
    case Some(p) => [Dict(PolicyFields(p))]
  }

  /** `flattenDnsRecordSetRoutingPolicyWRR`: one map per item, appended in order. */
  method FlattenWrr(wrr: WrrPolicy) returns (ris: seq<Value>)
    ensures ris == WrrValues(wrr.items)
  {
    ris := [];
    for i := 0 to |wrr.items|
      invariant ris == WrrValues(wrr.items[..i])
    {
      assert wrr.items[..i + 1] == wrr.items[..i] + [wrr.items[i]];
      ris := ris + [WrrValue(wrr.items[i])];
    }
    assert wrr.items[..|wrr.items|] == wrr.items;
  }

  /** `flattenDnsRecordSetRoutingPolicyGEO`. */
  method FlattenGeo(geo: GeoPolicy) returns (ris: seq<Value>)
    ensures ris == GeoValues(geo.items)
  {
    ris := [];
    for i := 0 to |geo.items|
      invariant ris == GeoValues(geo.items[..i])
    {
      assert geo.items[..i + 1] == geo.items[..i] + [geo.items[i]];
      ris := ris + [GeoValue(geo.items[i])];
    }
    assert geo.items[..|geo.items|] == geo.items;
  }

  /** `flattenDnsRecordSetRoutingPolicy`. */
  method Flatten(policy: Option<RoutingPolicy>) returns (ps: seq<Value>)
    ensures ps == Flattened(policy)
  {
    if policy.None? {
      return [];
    }
    var p: map<string, Value> := map[];
    if policy.value.wrr.Some? {
      var ris := FlattenWrr(policy.value.wrr.value);
      p := p["wrr" := List(ris)];
    }
    if policy.value.geo.Some? {
      var ris := FlattenGeo(policy.value.geo.value);
      p := p["geo" := List(ris)];
    }
    assert p.Keys == PolicyFields(policy.value).Keys;
    assert p == PolicyFields(policy.value);
    return [Dict(p)];
  }

  // ---------------------------------------------------------------------------
  // Properties

  /**
   * A nil policy flattens to an empty list; any other policy to exactly one
   * map holding `wrr` iff there is a WRR sub-policy and `geo` iff there is a
   * GEO one, each with one entry per item in the same order.
   */
  lemma FlattenShape(policy: Option<RoutingPolicy>)
    ensures policy.None? ==> Flattened(policy) == []
    ensures policy.Some? ==> var ps := Flattened(policy); var p := policy.value;
      && |ps| == 1 && ps[0].Dict?
      && ps[0].fields.Keys <= {"wrr", "geo"}
      && ("wrr" in ps[0].fields <==> p.wrr.Some?)
      && ("geo" in ps[0].fields <==> p.geo.Some?)
      && (p.wrr.Some? ==> ListOf(ps[0].fields["wrr"]) == WrrValues(p.wrr.value.items)
                          && |WrrValues(p.wrr.value.items)| == |p.wrr.value.items|)
      && (p.geo.Some? ==> ListOf(ps[0].fields["geo"]) == GeoValues(p.geo.value.items)
                          && |GeoValues(p.geo.value.items)| == |p.geo.value.items|)
  {
  }

  lemma StringsRoundTrip(ss: seq<string>)
    ensures StringsOf(StringValues(ss)) == Some(ss)
  {
    assert StringsOf(StringValues(ss)).value == ss;
  }

  /** A flattened item converts back to itself exactly when it has records. */
  lemma WrrItemRoundTrip(item: WrrItem)
    ensures Field(WrrValue(item), "rrdatas").List?
    ensures WrrItemOf(WrrValue(item)) == (if |item.rrdatas| > 0 then Some(item) else None)
  {
    StringsRoundTrip(item.rrdatas);
  }

  lemma GeoItemRoundTrip(item: GeoItem)
    ensures Field(GeoValue(item), "rrdatas").List?
    ensures GeoItemOf(GeoValue(item)) == (if |item.rrdatas| > 0 then Some(item) else None)
  {
    StringsRoundTrip(item.rrdatas);
  }

  lemma {:induction false} WrrValuesDefined(items: seq<WrrItem>)
    ensures WrrItemsDefined(WrrValues(items))
    decreases |items|
  {
    if items != [] {
      WrrItemRoundTrip(items[0]);
      assert WrrValues(items)[1..] == WrrValues(items[1..]);
      WrrValuesDefined(items[1..]);
    }
  }

  lemma {:induction false} GeoValuesDefined(items: seq<GeoItem>)
    ensures GeoItemsDefined(GeoValues(items))
    decreases |items|
  {
    if items != [] {
      GeoItemRoundTrip(items[0]);
      assert GeoValues(items)[1..] == GeoValues(items[1..]);
      GeoValuesDefined(items[1..]);
    }
  }

  /** Converting a flattened policy never reaches a failing type assertion. */
  lemma FlattenedConvertDefined(policy: Option<RoutingPolicy>)
    ensures ConvertDefined(Flattened(policy))
  {
    if policy.Some? {
      var p := policy.value;
      if p.wrr.Some? {
        WrrValuesDefined(p.wrr.value.items);
      }
      if p.geo.Some? {
        GeoValuesDefined(p.geo.value.items);
      }
    }
  }

  lemma WrrItemsRoundTrip(items: seq<WrrItem>)
    requires forall i | 0 <= i < |items| :: |items[i].rrdatas| > 0
    ensures WrrItemsOf(WrrValues(items)) == Some(items)
  {
    var vs := WrrValues(items);
    forall i | 0 <= i < |items| ensures WrrItemOf(vs[i]) == Some(items[i]) {
      WrrItemRoundTrip(items[i]);
    }
    assert WrrItemsOf(vs).value == items;
  }

  lemma GeoItemsRoundTrip(items: seq<GeoItem>)
    requires forall i | 0 <= i < |items| :: |items[i].rrdatas| > 0
    ensures GeoItemsOf(GeoValues(items)) == Some(items)
  {
    var vs := GeoValues(items);
    forall i | 0 <= i < |items| ensures GeoItemOf(vs[i]) == Some(items[i]) {
      GeoItemRoundTrip(items[i]);
    }
    assert GeoItemsOf(vs).value == items;
  }

  /**
   * Round trip: a policy with one sub-policy, at least one item, and records
   * in every item survives flatten-then-convert unchanged.
   */
  lemma RoundTrip(p: RoutingPolicy)
    requires WellFormed(p)
    ensures ConvertDefined(Flattened(Some(p)))
    ensures Convert(Flattened(Some(p))) == Some(p)
  {
    FlattenedConvertDefined(Some(p));
    if p.wrr.Some? {
      WrrItemsRoundTrip(p.wrr.value.items);
    } else {
      GeoItemsRoundTrip(p.geo.value.items);
    }
  }

  /**
   * WRR takes precedence: when a flattened policy carries both sub-policies,
   * converting it back keeps the WRR one and drops the GEO one.
   */
  lemma WrrPrecedence(wrr: WrrPolicy, geo: GeoPolicy)
    requires |wrr.items| > 0 && forall i | 0 <= i < |wrr.items| :: |wrr.items[i].rrdatas| > 0
    ensures Convert(Flattened(Some(RoutingPolicy(Some(wrr), Some(geo))))) == Some(RoutingPolicy(Some(wrr), None))
  {
    WrrItemsRoundTrip(wrr.items);
  }

  /** A sub-policy without items does not survive the round trip. */
  lemma EmptyItemsLost()
    ensures Convert(Flattened(Some(RoutingPolicy(Some(WrrPolicy([])), None)))) == None
  {
  }

  /** Whatever a conversion produces converts again to itself after flattening. */
  lemma ConvertFlattenConvert(ps: seq<Value>)
    requires Convert(ps).Some?
    ensures Convert(Flattened(Convert(ps))) == Convert(ps)
  {
    RoundTrip(Convert(ps).value);
  }

  /**
   * How a successful conversion relates to its input: WRR is chosen whenever
   * its list is non-empty, and the chosen items keep order, weights or
   * locations, and records exactly.
   */
  lemma ConvertKeepsItems(ps: seq<Value>)
    requires Convert(ps).Some?
    ensures var p := Convert(ps).value;
      && (|WrrRaw(ps)| > 0 <==> p.wrr.Some?)
      && (p.wrr.Some? ==> var items := p.wrr.value.items;
            |items| == |WrrRaw(ps)| &&
            forall i | 0 <= i < |items| ::
              && Field(WrrRaw(ps)[i], "weight") == Float(items[i].weight)
              && ListOf(Field(WrrRaw(ps)[i], "rrdatas")) == StringValues(items[i].rrdatas))
      && (p.geo.Some? ==> var items := p.geo.value.items;
            |items| == |GeoRaw(ps)| &&
            forall i | 0 <= i < |items| ::
              && Field(GeoRaw(ps)[i], "location") == Str(items[i].location)
              && ListOf(Field(GeoRaw(ps)[i], "rrdatas")) == StringValues(items[i].rrdatas))
  {
    var p := Convert(ps).value;
    if p.wrr.Some? {
      var items := p.wrr.value.items;
      forall i | 0 <= i < |items|
        ensures ListOf(Field(WrrRaw(ps)[i], "rrdatas")) == StringValues(items[i].rrdatas)
      {
        assert WrrItemOf(WrrRaw(ps)[i]) == Some(items[i]);
      }
    }
    if p.geo.Some? {
      var items := p.geo.value.items;
      forall i | 0 <= i < |items|
        ensures ListOf(Field(GeoRaw(ps)[i], "rrdatas")) == StringValues(items[i].rrdatas)
      {
        assert GeoItemOf(GeoRaw(ps)[i]) == Some(items[i]);
      }
    }
  }

  /** Any malformed item in the chosen list makes the whole conversion none. */
  lemma MalformedItemRejected(ps: seq<Value>, i: nat)
    requires |ps| == 1
    requires (|WrrRaw(ps)| > 0 && i < |WrrRaw(ps)| && WrrItemOf(WrrRaw(ps)[i]).None?)
          || (|WrrRaw(ps)| == 0 && i < |GeoRaw(ps)| && GeoItemOf(GeoRaw(ps)[i]).None?)
    ensures Convert(ps) == None
  {
  }
}
