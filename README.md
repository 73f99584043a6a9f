# DNS record set resource: a verified model

This project models the logic of the Terraform provider's `google_dns_record_set`
resource handler (`mmv1/third_party/terraform/resources/resource_dns_record_set.go`)
that does not depend on the cloud DNS API:

- **Diff suppression of `rrdatas`** (`DiffSuppress`, `RecordKeys`). Old and new record
  lists are compared without regard to order, after a per-record-type key function:
  MX and DS records are lower-cased, TXT records lose every leading and trailing `"`
  and are lower-cased, AAAA records go through an IP canonicaliser, and other types
  are compared verbatim. The suppressor builds a `map[string]bool` from the old keys,
  flips an entry for each new key, and fails on a missing or already-flipped key or on
  an entry left unflipped. It is proved to return true exactly when the new keys are
  pairwise distinct and the two lists have the same set of keys. So duplicates in the
  old list collapse, while a duplicate in the new list always shows a diff. When the old
  keys are distinct, this is the same as equal multisets of keys. A change of
  `rrdatas.#` to `0` or `""` is never suppressed.
- **Routing policy conversion** (`RoutingPolicies`). The loosely typed `routing_policy`
  block is a `Value` tree: strings, floats, lists, maps and nil. It is converted into a
  WRR or GEO policy, and flattened back. Conversion yields none unless there is exactly
  one block and it is a map. A non-empty WRR list takes precedence over GEO. Any
  malformed item makes the result none. Otherwise the items keep their order, weights or
  locations, and records. The round trip convert(flatten(p)) = p holds when p has exactly
  one sub-policy with at least one item and records in every item.
- **Name validation** (`RecordName`). The name must be non-empty and end with `.`.
  Exactly one error is reported otherwise, and no warnings ever.
- **Create, Read, Update and Delete decisions** (`RecordSets`), over plain inputs: the
  configured values, the record sets a listing returned, and the zone's apex DNS name.
  - Create adds the configured record set. It deletes every listed record set with the
    same name and type, in listing order.
  - Read clears the id on zero results, fails on more than one, and otherwise refreshes
    the state.
  - Delete leaves the zone's apex NS record in place.
  - Update deletes the old record set and adds the new one.
  - Create and Update set the id to `projects/{project}/managedZones/{zone}/rrsets/{name}/{type}`.
    It is proved to read back into its four parts.

Loops in the source are loops here. The suppressor's map loops, the preallocated slices
that `convertRoutingPolicy`, `rrdata` and Update fill by index (arrays here), and the
append loops of the flatten helpers and of Create's conflict filter are all methods. Each
is proved equal to a specification function, and the properties are proved about those
functions.

One behaviour is described differently elsewhere: the suppressor is sometimes described
as comparing multisets with duplicates collapsed, with old `[x]` against new `[x, x]` as a
suppressed example. The code returns false for that input: the second `x` finds its entry
already flipped. The model follows the code (`DiffSuppress.NewDuplicatesShow`).

## Model

| member | source | states |
|---|---|---|
| `DiffSuppress.ListDiffSuppress` | mmv1/third_party/terraform/resources/resource_dns_record_set.go:47-69 | returns true iff the new keys are pairwise distinct and the key sets of both lists are equal |
| `DiffSuppress.SuppressedIffSameKeyMultiset` | mmv1/third_party/terraform/resources/resource_dns_record_set.go:47-69 | when the old keys are distinct, suppression is exactly equality of the multisets of keys (order is ignored, nothing else) |
| `DiffSuppress.OldDuplicatesCollapse` | mmv1/third_party/terraform/resources/resource_dns_record_set.go:49-53 | old `["a","a"]` against new `["a"]` is suppressed, for any key function |
| `DiffSuppress.NewDuplicatesShow` | mmv1/third_party/terraform/resources/resource_dns_record_set.go:54-61 | old `["a"]` against new `["a","a"]` is not suppressed, for any key function |
| `DiffSuppress.SelfSuppressedIffDistinct` | mmv1/third_party/terraform/resources/resource_dns_record_set.go:47-69 | a list compared with itself is suppressed iff its keys are distinct |
| `DiffSuppress.EmptyListsSuppressed` | mmv1/third_party/terraform/resources/resource_dns_record_set.go:47-69 | two empty lists are suppressed |
| `DiffSuppress.SingletonsSuppressed` | mmv1/third_party/terraform/resources/resource_dns_record_set.go:47-69 | two one-record lists are suppressed iff the records share a key |
| `DiffSuppress.DnsDiffSuppress` | mmv1/third_party/terraform/resources/resource_dns_record_set.go:15-42 | false when `rrdatas.#` changes to `0` or `""`, whatever the lists hold; false when either list is nil; otherwise the list suppression under the type's key function |
| `DiffSuppress.TxtQuotingSuppressed` | mmv1/third_party/terraform/resources/resource_dns_record_set.go:28-41 | for TXT, `["\"Foo\""]` against `["foo"]` is suppressed |
| `RecordKeys.TrimLeftQuotes` | mmv1/third_party/terraform/resources/resource_dns_record_set.go:36 | the result is the suffix left after a run of quotes, and does not start with a quote |
| `RecordKeys.TrimRightQuotes` | mmv1/third_party/terraform/resources/resource_dns_record_set.go:36 | the result is the prefix before a run of quotes, and does not end with a quote |
| `RecordKeys.TrimSplits` | mmv1/third_party/terraform/resources/resource_dns_record_set.go:36 | the trimmed text is a slice of the input with only quotes on either side, and has no quote at either end |
| `RecordKeys.TrimIdempotent` | mmv1/third_party/terraform/resources/resource_dns_record_set.go:36 | trimming twice is trimming once |
| `RecordKeys.TrimIgnoresSurroundingQuotes` | mmv1/third_party/terraform/resources/resource_dns_record_set.go:36 | any number of quotes added around a text do not change its trimmed form |
| `RecordKeys.TrimLower` | mmv1/third_party/terraform/resources/resource_dns_record_set.go:36 | trimming and lower-casing commute |
| `RecordKeys.ToLowerIdempotent` | mmv1/third_party/terraform/resources/resource_dns_record_set.go:34 | lower-casing twice is lower-casing once |
| `RecordKeys.NormalizeIdempotent` | mmv1/third_party/terraform/resources/resource_dns_record_set.go:28-40 | for every type but AAAA, the key of a key is the key itself |
| `RecordKeys.CaseInsensitiveKeys` | mmv1/third_party/terraform/resources/resource_dns_record_set.go:33-36 | for MX, DS and TXT, records equal up to letter case have equal keys |
| `RecordKeys.TxtIgnoresQuotes` | mmv1/third_party/terraform/resources/resource_dns_record_set.go:35-36 | for TXT, quotes around the text do not change the key |
| `RecordKeys.VerbatimKeys` | mmv1/third_party/terraform/resources/resource_dns_record_set.go:37-38 | for types other than AAAA, MX, DS and TXT, keys are equal iff the records are |
| `RecordKeys.TxtExample` | mmv1/third_party/terraform/resources/resource_dns_record_set.go:35-36 | `"\"Foo\""` and `"foo"` both have the TXT key `"foo"` |
| `RoutingPolicies.StringsOf` | mmv1/third_party/terraform/resources/resource_dns_record_set.go:529-535 | some iff every element is a string, and then the strings in order |
| `RoutingPolicies.WrrItemOf` | mmv1/third_party/terraform/resources/resource_dns_record_set.go:524-543 | an accepted WRR item always has at least one record |
| `RoutingPolicies.GeoItemOf` | mmv1/third_party/terraform/resources/resource_dns_record_set.go:556-575 | an accepted GEO item always has at least one record |
| `RoutingPolicies.Convert` | mmv1/third_party/terraform/resources/resource_dns_record_set.go:509-586 | a result exists only for exactly one map block, and it has one sub-policy, at least one item, and records in every item |
| `RoutingPolicies.ConvertRrdatas` | mmv1/third_party/terraform/resources/resource_dns_record_set.go:529-535 | the index-filling loop yields the item's strings, or none at the first non-string |
| `RoutingPolicies.ConvertWrrItem` | mmv1/third_party/terraform/resources/resource_dns_record_set.go:524-543 | one WRR item: none for empty or non-string records or a weight that is not a float |
| `RoutingPolicies.ConvertGeoItem` | mmv1/third_party/terraform/resources/resource_dns_record_set.go:556-575 | one GEO item: none for empty or non-string records or a location that is not a string |
| `RoutingPolicies.ConvertRoutingPolicy` | mmv1/third_party/terraform/resources/resource_dns_record_set.go:509-586 | the nested loops that fill the item slices compute `Convert`, whenever they do not reach a failing type assertion |
| `RoutingPolicies.FromConfig` | mmv1/third_party/terraform/resources/resource_dns_record_set.go:496-506 | an unset or empty block gives no policy; otherwise the conversion |
| `RoutingPolicies.FlattenWrr` | mmv1/third_party/terraform/resources/resource_dns_record_set.go:603-612 | one map with `weight` and `rrdatas` per item, in item order |
| `RoutingPolicies.FlattenGeo` | mmv1/third_party/terraform/resources/resource_dns_record_set.go:614-623 | one map with `location` and `rrdatas` per item, in item order |
| `RoutingPolicies.Flatten` | mmv1/third_party/terraform/resources/resource_dns_record_set.go:588-601 | computes `Flattened`: empty for nil, else one map built from the present sub-policies |
| `RoutingPolicies.FlattenShape` | mmv1/third_party/terraform/resources/resource_dns_record_set.go:588-601 | nil gives an empty list; otherwise exactly one map, with key `wrr` iff WRR is present and `geo` iff GEO is, and one entry per item |
| `RoutingPolicies.StringsRoundTrip` | mmv1/third_party/terraform/resources/resource_dns_record_set.go:529-535 | a flattened list of records reads back as the same records |
| `RoutingPolicies.WrrItemRoundTrip` | mmv1/third_party/terraform/resources/resource_dns_record_set.go:603-612 | a flattened WRR item converts back to itself iff it has records |
| `RoutingPolicies.GeoItemRoundTrip` | mmv1/third_party/terraform/resources/resource_dns_record_set.go:614-623 | a flattened GEO item converts back to itself iff it has records |
| `RoutingPolicies.FlattenedConvertDefined` | mmv1/third_party/terraform/resources/resource_dns_record_set.go:525 | converting a flattened policy never reaches a failing type assertion |
| `RoutingPolicies.WrrItemsRoundTrip` | mmv1/third_party/terraform/resources/resource_dns_record_set.go:522-544 | flattened WRR items with records convert back to the same items in the same order |
| `RoutingPolicies.GeoItemsRoundTrip` | mmv1/third_party/terraform/resources/resource_dns_record_set.go:554-576 | flattened GEO items with records convert back to the same items in the same order |
| `RoutingPolicies.RoundTrip` | mmv1/third_party/terraform/resources/resource_dns_record_set.go:509-623 | convert(flatten(p)) = p for a policy with one sub-policy, at least one item and records in every item |
| `RoutingPolicies.WrrPrecedence` | mmv1/third_party/terraform/resources/resource_dns_record_set.go:521-551 | a block holding both WRR and GEO converts to the WRR policy alone |
| `RoutingPolicies.EmptyItemsLost` | mmv1/third_party/terraform/resources/resource_dns_record_set.go:521-585 | a WRR sub-policy without items converts back to no policy |
| `RoutingPolicies.ConvertFlattenConvert` | mmv1/third_party/terraform/resources/resource_dns_record_set.go:509-623 | whatever a conversion produces survives flatten-then-convert unchanged |
| `RoutingPolicies.ConvertKeepsItems` | mmv1/third_party/terraform/resources/resource_dns_record_set.go:518-583 | WRR is chosen iff its list is non-empty; each item keeps its position, weight or location, and records |
| `RoutingPolicies.MalformedItemRejected` | mmv1/third_party/terraform/resources/resource_dns_record_set.go:523-576 | one malformed item in the chosen list makes the whole result none |
| `RecordName.ValidateTrailingDot` | mmv1/third_party/terraform/resources/resource_dns_record_set.go:625-638 | never a warning; no error iff the name ends with `.`; one error for the empty name, one naming the value otherwise |
| `RecordName.DotMakesValid` | mmv1/third_party/terraform/resources/resource_dns_record_set.go:632-637 | any name with a dot appended is accepted |
| `RecordName.ValidationExamples` | mmv1/third_party/terraform/resources/resource_dns_record_set.go:625-638 | `""` and `"example.com"` are rejected, `"example.com."` is accepted |
| `RecordSets.IdRoundTrip` | mmv1/third_party/terraform/resources/resource_dns_record_set.go:248 | the id splits back into project, zone, name and type when none is empty or holds `/` |
| `RecordSets.Rrdata` | mmv1/third_party/terraform/resources/resource_dns_record_set.go:484-494 | the records sent are exactly the configured ones, in order, empty when unset |
| `RecordSets.RecordFromConfig` | mmv1/third_party/terraform/resources/resource_dns_record_set.go:360-369 | the record set built from the configuration: name, type, ttl, records and converted policy |
| `RecordSets.Conflicts` | mmv1/third_party/terraform/resources/resource_dns_record_set.go:230-237 | a record set is in the result iff it was listed with the requested name and type |
| `RecordSets.ConflictingRecords` | mmv1/third_party/terraform/resources/resource_dns_record_set.go:230-237 | the append loop computes `Conflicts`, keeping listing order |
| `RecordSets.Create` | mmv1/third_party/terraform/resources/resource_dns_record_set.go:201-248 | adds the configured record set; deletes exactly the listed record sets of the same name and type, leaving deletions unset iff there are none; id from project, zone, name and type |
| `RecordSets.Read` | mmv1/third_party/terraform/resources/resource_dns_record_set.go:276-322 | zero records clear the id with no error; more than one is an error carrying the count; one refreshes type, ttl, records when non-empty, policy when present, and project |
| `RecordSets.ReadPolicyRoundTrip` | mmv1/third_party/terraform/resources/resource_dns_record_set.go:313-316 | a single-sub-policy routing policy that Read stores converts back to itself on the next Update or Delete |
| `RecordSets.Delete` | mmv1/third_party/terraform/resources/resource_dns_record_set.go:337-370 | the apex NS record is kept with success iff the type is NS and the zone's DNS name equals the name; an NS zone lookup failure is an error; otherwise one deletion of the configured record set and no additions |
| `RecordSets.Update` | mmv1/third_party/terraform/resources/resource_dns_record_set.go:405-459 | deletes the record set the old type, ttl, records and policy describe; adds the one the new values describe; id from the new type |

## Left out

- The DNS API calls (listing record sets, creating changes, fetching the managed zone) are left out as network I/O. So are polling a change to completion, the retry wrapper and the not-found handling. Their results appear only as inputs: the listed record sets and the zone lookup. API and polling errors are not modelled.
- Reading the user agent and the project, and the import step (`parseImportId`, `replaceVars`) are left out: they are helpers defined outside this file. The project is an input, and `IdRoundTrip` stands in for reading an id back.
- The schema literal is left out. It is declarative configuration that the framework enforces: required fields, "exactly one of", at most one policy block.
- AAAA keys (`net.ParseIP(...).String()`) are an uninterpreted key function `ipKey`, passed as a parameter. IPv6 canonicalisation is foreign library code.
- `strings.ToLower` is modelled on ASCII letters only. Unicode case mapping is not modelled.
- WRR weights are `real` values that are only copied. Float64 representation is not modelled because no arithmetic is done on them.
- Logging is left out.
- RoutingPolicies.ConvertRoutingPolicy: the unchecked assertion `item["rrdatas"].([]interface{})` would panic on a malformed item. The model makes this a precondition (`ConvertDefined`) instead of modelling the panic. The precondition covers exactly the items the loop reaches.
- RoutingPolicies.Flatten: the Go helpers store an item's records as a typed `[]string`. The model shows them as the framework hands them back after storing state: a list of strings, which is the form `convertRoutingPolicy` reads.
- RecordSets.Read: errors from storing attributes in the state (`d.Set`) are framework failures and are not modelled.
- RecordSets.Delete: clearing the id after a submitted deletion is not modelled as state. It is implied by the `DeletionSubmitted` outcome. `ApexNsKept` returns success without clearing it.
- DiffSuppress.DnsDiffSuppress: the framework's old and new lists are taken as already converted to string lists (`convertStringArr` is defined elsewhere). A nil list is `None`.
- TTL conversion to `int64` is not modelled: integers are unbounded here, and a Go `int` is 64 bits on the platforms the provider targets.
