# Verification of the agent's decision logic

The agent runs beside SAP systems on Google Cloud. It discovers their topology,
collects metrics as a collection definition says, watches its own services and
sends what it finds to Google Cloud. This project models the parts of it that
decide something, in Dafny, and proves what they decide. `dafny verify
dfyconfig.toml` checks all of it.

**Topology discovery** (`Resources`, `FactSets`, `MergeLaws`, `Topology`,
`DiscoveryTree`, `TopologyContraction`, `TopologyFields`, `TopologyJoins`,
`DiscoveryUpdate`, `HostResources`, `AppRecords`, `CloudLookups`,
`SharedDiscovery`, `LoadBalancers`).
Cloud resources are objects that are merged in place by URI and may share their
properties. A HANA replica tree is turned into a tree of components in which a
site that shares a load balancer group with the site above is absorbed, and its
own replication sites are hoisted. `DiscoveryTree` builds the objects and is
proved equal to the value that `Topology` specifies; `TopologyContraction` and
`TopologyFields` prove where every site, URI, source site and field ends up, by
following paths in the replica tree, and `TopologyJoins` which sites are absorbed.
`DiscoveryUpdate` has the two updates of the finished tree; `HostResources` and
`AppRecords` show that components that receive the same host objects learn nothing
from each other.
The code caches lookups for ten minutes, so that components usually hold the same
resource objects. `CloudLookups` models the cache, and `SharedDiscovery` builds the
tree through it and proves what such sharing cannot change.

**Collection definitions** (`Versions`, `VersionStrings`, `Metrics`, `Validation`,
`FailureCount`, `DefinitionMerge`, `MergeValidity`, `DefinitionContents`). The validator is a class whose state follows
the metrics one by one. It is proved to decide an order-free pairwise relation.
Merging consults only a map of the primary metrics and filters afterwards; the
contents of the result are determined exactly, and merging valid definitions
gives a valid one. `VersionStrings` and `DefinitionContents` say what both decide in
terms of the text of versions and the metrics in every section.

**State kept across calls** (`Heartbeat`, `HeartbeatLocks`, `HeartbeatRuns`,
`HeartbeatProgress`, `HanaConnections`, `SeriesKeys`, `KeyCollisions`,
`CumulativeSeries`, `ProcessList`, `CollectorRestart`). Each is a class with the
fields that the agent keeps, related to the history of its calls. `HeartbeatLocks`
lets any number of goroutines interleave between the single operations on the two
levels of locks and between the reads and writes they protect; `HeartbeatRuns`
proves the counters and answers of every run from that, `HeartbeatProgress` that
calls finish.

**Readers and fast forms** (`Text`, `HdbSql`, `OverrideFile`, `OverrideText`,
`WorkloadOverrides`, `MetricOverrides`, `BackupScan`). The tokeniser of hdbsql
rows, the reader of override files that notices the end of a metric only at the
next one, and the scan of sorted backups that stops early, each against a
statement about the whole input.

`Common` and `Text` hold sequence and string functions.

Where the code does less than one might expect, the exact condition is proved:

- A minus sign in front of an unquoted number is not part of any token, so that
  integers from hdbsql are read back exactly when they are not negative
  (`HdbSql.UnquotedInteger`).
- The comparison of instance lists is one-sided and is right about every new list
  exactly when the old one has no duplicates
  (`CollectorRestart.ExactOnlyIfDistinct`).
- The backup scan takes the zero time for no time, and finds the greatest time
  exactly unless that is the zero time and earlier times exist
  (`BackupScan.LatestIsGreatest`).
- Rows with cumulative columns panic exactly when two of them share a metric path
  and differ in value type (`CumulativeSeries.RunningSums.CreateMetricsForRow`).
- Two rows of a query can have the same series key. A row shares its key with another
  row, which has the same instance name and system ID, exactly when the text between
  the values of two label columns that follow each other in the key occurs in these
  values and that text a second time (`KeyCollisions.CollidesExactly`,
  `KeyCollisions.RowsCollide`).
- The number of validation failures depends on the order of metrics exactly when one
  key has a metric for all vendors and metrics for two others, validity never does
  (`FailureCount.CountIsOrderFreeExactly`, `Validation.Checks.ValidityOrderFree`).
- A line of an override file is read for no metric exactly when the last metric line
  before it has no name, or there is none, and no named one follows
  (`OverrideFile.InBlockExactly`).

Parameters stand for what the code cannot decide: the results of cloud lookups
and commands, which regular expressions compile, the parsing of floating-point
numbers, the printing of times, the clock, and the order in which Go visits a map.

## Model

| member | source | states |
|---|---|---|
| Resources.RemoveDuplicates | internal/system/discovery.go:171-215 | The merged list keeps the first resource object of every URI in order of first occurrence, and for every application name the first record of the entries with that URI, number included; its contents are those of the value-level merge, roles, related URIs and application names are united even when entries share properties objects within a URI, and entries that are not kept are not changed |
| Resources.MergeInto | internal/system/discovery.go:187-210 | Merging properties in place: roles are united, a non-empty host name replaces the stored one, application instances with new names are appended |
| Resources.RecordsExactly | internal/system/discovery.go:195-204 | Told from list positions: an entry keeps the first record of every application name among all entries with its URI, a name that none of them has is absent, and the records of the first entry with properties come first, unchanged |
| Resources.DedupKeepsRecords | internal/system/discovery.go:171-215 | Removing duplicates leaves entries of that kind only |
| Resources.DedupUris | internal/system/discovery.go:171-179 | URIs come out distinct and in order of first occurrence |
| Resources.DedupGroups | internal/system/discovery.go:171-215 | Every entry of the result is the in-order merge of the entries of its own URI, whatever lies between them, and no URI is lost or invented |
| Resources.GroupUnion | internal/system/discovery.go:181-209 | Over all duplicates of a URI, roles are the bitwise OR, related resources and application names the union, properties are present if any entry has them, and the kind is that of the first entry |
| Resources.GroupProps | internal/system/discovery.go:188-196 | The host name is the last non-empty one of the duplicates, the disk names are those of the first entry that has properties |
| Resources.DedupUriSet | internal/system/discovery.go:171-215 | The set of URIs is unchanged |
| Resources.DedupDistinct | internal/system/discovery.go:171-179 | A list without duplicate URIs is left as it is |
| Resources.DedupIdempotent | internal/system/discovery.go:171-215 | Removing duplicates twice is removing them once |
| Resources.DedupAbsorbs | internal/system/discovery.go:171-215 | Removing duplicates early changes nothing: rd(rd(a) + b) = rd(a + b) |
| MergeLaws.DedupBoth | internal/system/discovery.go:171-215 | Merging two lists without duplicates gives what merging all their entries at once gives: rd(rd(a) + rd(b)) = rd(a + b), contents included |
| DiscoveryTree.DiscoverReplicationSite | internal/system/discovery.go:663-736 | When every lookup returns new objects, the tree of new component objects built recursively in place has exactly the value of the specification, contents and region included, and no object occurs in it twice |
| SharedDiscovery.DiscoverReplicationSite | internal/system/discovery.go:663-736 | Whatever the cache returns, so that components hold the same resource objects and every merge reaches all of them, the tree has the structure, the lists of URIs and kinds in order, the sources and the hosts of the specification, and no component or site occurs in it twice |
| SharedDiscovery.SharedContraction | internal/system/discovery.go:663-736 | On such a tree too, the components are the sites that are not absorbed, each with the URIs of the sites that land in it and with its source |
| SharedDiscovery.SharedDatabases | internal/system/discovery.go:670-675 | and every instance in every component carries the database role, after all merges through shared objects |
| CloudLookups.CloudDiscovery.DiscoverResource | internal/system/clouddiscovery/cloud_discovery.go:226-335 | A lookup returns the cached object of its URI while that is young enough, else a new one that is remembered; known resources stay known and share properties within a URI only |
| CloudLookups.CloudDiscovery.RemoveDuplicates | internal/system/discovery.go:171-215 | Removing duplicates from resources in use elsewhere leaves every database role that a component relies on |
| DiscoveryTree.AbsorbSite | internal/system/discovery.go:711-720 | Absorbing a target merges its resources, hoists its replication sites and appends the instances of the load balancer group, and changes nothing else of the component |
| DiscoveryTree.AddSite | internal/system/discovery.go:724-730 | A target outside the group becomes a replication site whose source is this site, after those already there |
| DiscoveryTree.SiteGroup | internal/system/discovery.go:685-699 | No group exactly if no discovered instance is in any group; otherwise the first group that contains the first instance that is in any |
| Topology.GroupExactly | internal/system/discovery.go:685-699 | That relation between resources and groups has exactly one answer, the one the tree is built with |
| DiscoveryTree.MarkInstances | internal/system/discovery.go:670-683 | Every instance gains the database role and keeps its other roles; the region is that of the last instance whose virtual host name is the site name |
| Topology.MarkedExactly | internal/system/discovery.go:670-675 | Marking adds the database role to an instance and changes no other field and no other resource |
| Topology.Env.RegionIs | internal/system/discovery.go:677-683 | The region is that of the last instance whose host name is the site name |
| Topology.Env.NoRegion | internal/system/discovery.go:677-683 | and empty if there is none |
| TopologyContraction.Contraction | internal/system/discovery.go:663-736 | For every replica tree and all load balancer groups, the components are exactly the sites that are not absorbed; the resource list of each is exactly what removing duplicates leaves of the entries of the sites that land in it, in tree order, and its source is the name of the replica-tree parent of its top site however often it was hoisted, empty for the root |
| TopologyContraction.EntriesUnite | internal/system/discovery.go:171-215 | Every entry of every component unites the marked entries discovered for the sites that land there and keeps the first record of each application name: no role, application or related URI is lost or invented over several merges |
| TopologyContraction.ComponentCount | internal/system/discovery.go:663-736 | The number of components is the number of sites minus the number of absorbed sites |
| TopologyContraction.HeadPrefix | internal/system/discovery.go:663-736 | Every site lands in one component, that of a site at or above it that is not absorbed |
| TopologyContraction.PathsAreSites | internal/system/discovery.go:703-704 | The enumeration of sites behind these statements covers the sites of the replica tree and nothing else |
| TopologyContraction.PathsDistinct | internal/system/discovery.go:703-704 | and covers no site twice |
| TopologyContraction.UrisConserved | internal/system/discovery.go:663-736 | A URI is in some component exactly when it was discovered for some site |
| TopologyContraction.InstancesAreDatabases | internal/system/discovery.go:670-675 | Every instance in every component carries the database role, through all merges |
| TopologyJoins.JoinsExactly | internal/system/discovery.go:685-720 | If the kind of a resource depends on its URI only, a target is absorbed exactly when some discovered instance of its site is in a group and the first such group also has an instance discovered for a site that lands in the target's component |
| TopologyFields.ComponentsAreBuilt | internal/system/discovery.go:703-736 | Every component, wherever it was hoisted, is what discovery would build starting at its top site |
| TopologyFields.ComponentFields | internal/system/discovery.go:665-720 | The system ID, the region and the hosts of every component: no hosts if no discovered instance of its top site is in a group, otherwise the instances of the first such group, once for every target absorbed directly; those of absorbed targets are not carried over |
| DiscoveryUpdate.ClearDiskNames | internal/system/discovery.go:313-332 | The walk ends, no component reachable from either layer has disk device names left, and no other field changes |
| DiscoveryUpdate.VisitTop | internal/system/discovery.go:319-331 | A step of the walk lowers the number of components still on the stack or below it, and clears the visited component without losing one |
| DiscoveryUpdate.AddHostToTree | internal/system/discovery.go:594 | The lists of the chosen components grow by the missing host URIs, all others stay. Every entry of a chosen component unites exactly what that component's and the host's entries said before the update, and keeps their first record of every application name, however the components and the host share objects, if each list has distinct URIs |
| SharedDiscovery.AddHostShared | internal/system/discovery.go:584-594 | The same for the trees that discovery builds with cached objects and for a host whose resources come from the same cache: their lists have distinct URIs |
| DiscoveryUpdate.AddHostResources | internal/system/discovery.go:759-773 | The list of a component changes exactly if it is chosen, and then to its old list plus the host's resources without duplicates; nothing but those lists, the resources in them and the properties of these changes; the merges into one component teach the others nothing |
| HostResources.SoundStep | internal/system/discovery.go:759-773 | One more merge of the host keeps this, under any sharing of objects: every resource says what it said at first and no more than the host says about its URI, and the lists reached say what they and the host said at first |
| AppRecords.RecordsStep | internal/system/discovery.go:195-204 | The same for application records: under any sharing, the lists reached have the first record of every name that they and the host had at first |
| HostResources.NothingForgotten | internal/system/discovery.go:171-215 | Removing duplicates from any list makes no resource forget a role, an application or a related URI |
| DiscoveryUpdate.ChosenExactly | internal/system/discovery.go:759-773 | A component is chosen exactly when one of its URIs is that of the host's instance and no component above it has one |
| DiscoveryUpdate.HostListGrows | internal/system/discovery.go:765 | A chosen component keeps its list as a prefix, gains exactly the missing host URIs and keeps its URIs distinct |
| DiscoveryUpdate.DiscoveredTree | internal/system/discovery.go:663-736 | Trees built out of new objects meet what the two updates ask of a tree, with distinct URIs in every list, and no two of their components share a resource or a properties object |
| LoadBalancers.FindGroups | internal/system/discovery.go:541-573 | One group for every backend service, in order, with its members in order of reference |
| LoadBalancers.MembersExactly | internal/system/discovery.go:555-570 | A URI is in a group exactly when it is an instance that the load balancer names directly or through one instance group it names |
| LoadBalancers.GroupsExactly | internal/system/discovery.go:552-572 | There is a group for every backend service and for nothing else, in list order, with its URI and its members |
| LoadBalancers.MembersInOrder | internal/system/discovery.go:555-570 | Members come in the order of the references that lead to them |
| LoadBalancers.LastExactly | internal/system/discovery.go:543-547 | A URI is looked up as the last resource of the list that has it |
| Versions.CompareVersions | internal/collectiondefinition/validator.go:352-372 | The loop over padded parts decides which version is smaller at the first position where the two differ |
| Versions.Trichotomy | internal/collectiondefinition/validator.go:352-372 | Exactly one of earlier, later and equal in all parts holds |
| Versions.TotalPreorder | internal/collectiondefinition/validator.go:352-372 | Comparison is reflexive, antisymmetric up to equal parts, and transitive |
| Versions.PaddingIrrelevant | internal/collectiondefinition/validator.go:355-360 | A trailing zero part makes no difference |
| VersionStrings.IsVersionExactly | internal/collectiondefinition/validator.go:33-34 | A string is a version exactly if it consists of two or three runs of digits joined by dots |
| VersionStrings.EarlierExactly | internal/collectiondefinition/validator.go:352-372 | Versions are ordered by the first of three numbers in which they differ, told from the digits, a missing third number being 0 |
| VersionStrings.WrittenEarlier | internal/collectiondefinition/validator.go:352-372 | The same for versions written in decimal notation |
| VersionStrings.PlaceValue | internal/collectiondefinition/validator.go:352-372 | What digits are worth |
| Metrics.RecordedExactly | internal/collectiondefinition/collectiondefinition.go:402-408 | The map holds exactly the keys and vendors of the metrics recorded |
| Metrics.ClashesExactly | internal/collectiondefinition/collectiondefinition.go:569-587 | The test against the map is the pairwise vendor relation to every recorded metric with the same key |
| Metrics.OrderIrrelevant | internal/collectiondefinition/validator.go:280-301 | Whether any two metrics clash does not depend on their order |
| Validation.Validator.Validate | internal/collectiondefinition/validator.go:97-110 | Whatever the validator did before, it ends with the failures of the visited metrics in order, and it is valid exactly when every visited metric is well formed and any two with the same key have different vendors, neither of them ALL |
| Validation.Validator.ValidateMetricInfo | internal/collectiondefinition/validator.go:254-302 | The failures one metric adds, and that its vendor is recorded under its key exactly when it has a type and a label |
| Validation.Validator.ValidateMetricEvaluation | internal/collectiondefinition/validator.go:307-321 | The failures that evaluation rules add; alternatives may be empty |
| Validation.Validator.ValidateRule | internal/collectiondefinition/validator.go:326-350 | The failures one rule adds |
| DefinitionContents.WellFormedExactly | internal/collectiondefinition/validator.go:254-350 | What it takes for a metric to cause no failure by itself, told from the text of its minimum version and the parts of its rules |
| DefinitionContents.MinVersionExactly | internal/collectiondefinition/validator.go:259-266 | A metric adds exactly one failure for its minimum version, unless that is empty or two or three runs of digits joined by dots that are not above those of the agent's version |
| DefinitionContents.WrittenMinVersion | internal/collectiondefinition/validator.go:259-266 | For versions in decimal notation: one failure exactly if the numbers of the minimum version come lexicographically after the agent's |
| DefinitionContents.FailuresOfOneMore | internal/collectiondefinition/validator.go:254-302 | After any other metrics, a metric adds the failures it has alone, and one more exactly if an earlier metric with a type and a label clashes with it |
| DefinitionContents.VisitedExactly | internal/collectiondefinition/validator.go:112-224 | The validator visits the metrics of every list of every section but the indexserver.ini metrics |
| DefinitionContents.VisitedOnce | internal/collectiondefinition/validator.go:112-224 | and every list once |
| DefinitionContents.KeyExactly | internal/collectiondefinition/collectiondefinition.go:402 | Types without a colon: two metrics share a key exactly if they have the same type and label |
| Validation.Checks.OwnFailuresExactly | internal/collectiondefinition/validator.go:254-350 | When a metric causes no failure apart from its minimum version and other metrics |
| Validation.Checks.RuleFailuresExactly | internal/collectiondefinition/validator.go:326-350 | The number of failures of one rule, told from its conditions, values and regular expressions |
| Validation.Checks.RulesFailuresExactly | internal/collectiondefinition/validator.go:307-321 | No rules are one failure, one rule causes its own, alternatives cause the sum of theirs |
| Validation.Checks.NoFailuresExactly | internal/collectiondefinition/validator.go:97-302 | The stateful count is zero exactly when every metric is well formed and no two clash |
| Validation.Checks.ValidityOrderFree | internal/collectiondefinition/validator.go:97-302 | Reordering the metrics does not change validity |
| FailureCount.CountIsOrderFreeExactly | internal/collectiondefinition/validator.go:254-302 | The number of failures is the same for every order of the metrics exactly when no key has a metric for all vendors and metrics for two other vendors |
| FailureCount.SameCount | internal/collectiondefinition/validator.go:254-302 | Without such a key, any two orders give the same number of failures |
| FailureCount.CountsDiffer | internal/collectiondefinition/validator.go:254-302 | With such a key, two orders that give different numbers |
| FailureCount.OneKeyCount | internal/collectiondefinition/validator.go:283-301 | Well-formed metrics with one key fail once for every one that is not the first and repeats a vendor, comes after one for all vendors, or is for all vendors |
| FailureCount.CountDependsOnOrder | internal/collectiondefinition/validator.go:283-301 | Three metrics that give 2 or 1 |
| DefinitionMerge.Merge | internal/collectiondefinition/collectiondefinition.go:284-337 | The merged definition, section by section: admissible primary metrics, then admissible new secondary metrics in the lists that are merged, absent primary sections absent |
| DefinitionMerge.MapWorkload | internal/collectiondefinition/collectiondefinition.go:398-447 | The map of existing metrics records all primary metrics, including the indexserver.ini metrics that the validator does not visit |
| DefinitionMerge.MergeWorkloads | internal/collectiondefinition/collectiondefinition.go:377-395 | Each mergeable list is the primary list followed by the new secondary metrics; all other lists are the primary's |
| DefinitionMerge.MergeList | internal/collectiondefinition/collectiondefinition.go:480-564 | Secondary metrics that do not clash with an existing one are appended in order |
| DefinitionMerge.FilterList | internal/collectiondefinition/collectiondefinition.go:341-349 | Exactly the admissible metrics are kept, in order |
| DefinitionMerge.IsValidVersion | internal/collectiondefinition/collectiondefinition.go:351-370 | A metric is admissible when its minimum version is empty, or well formed and not newer than the agent's |
| MergeValidity.MergedListExactly | internal/collectiondefinition/collectiondefinition.go:480-587 | A merged list is the admissible primary metrics followed by the admissible secondary metrics that are compatible with every recorded primary metric, including those that are filtered out |
| MergeValidity.MergedContents | internal/collectiondefinition/collectiondefinition.go:284-587 | What the validator visits in a merged definition is, as a bag, the admissible primary metrics and the admissible new secondary metrics |
| MergeValidity.MergedValidExactly | internal/collectiondefinition/collectiondefinition.go:284-587 | A merged definition is valid exactly when the part taken from each side is valid on its own |
| MergeValidity.MergeOfValidIsValid | internal/collectiondefinition/collectiondefinition.go:284-587 | Two definitions that each pass the validator for a version merge into one that passes it without a failure |
| MergeValidity.MergedIsNotTooNew | internal/collectiondefinition/validator.go:259-266 | Validating a merged definition for the agent's version never reports a minimum version |
| DefinitionContents.AdmissibleExactly | internal/collectiondefinition/collectiondefinition.go:351-370 | The agent, at version 3.16, keeps a metric exactly if its minimum version is empty, or two or three runs of digits joined by dots that are not above 3.16 |
| DefinitionContents.KeptInOrder | internal/collectiondefinition/collectiondefinition.go:341-349 | A filtered list holds those metrics and no others, in order |
| DefinitionContents.MembersOfMerge | internal/collectiondefinition/collectiondefinition.go:284-395 | The metrics of the merged system, Corosync, Netweaver and custom sections, list by list: those of the primary list and, where lists are merged, those of the secondary list that clash with no primary metric, as far as the agent is new enough for them |
| DefinitionContents.MembersOfMergedHana | internal/collectiondefinition/collectiondefinition.go:284-395 | The same for the HANA section and its volumes |
| DefinitionContents.MembersOfMergedPacemaker | internal/collectiondefinition/collectiondefinition.go:284-395 | The same for the Pacemaker section |
| DefinitionContents.MappedExactly | internal/collectiondefinition/collectiondefinition.go:398-447 | What clashes are looked for with: the metrics of every primary list, those of indexserver.ini included |
| Heartbeat.Monitor.Register | internal/heartbeat/heartbeat.go:107-127 | A new name is registered with no missed heartbeats, a known name is refused without a change |
| Heartbeat.Registration.Beat | internal/heartbeat/heartbeat.go:119-123 | A beat resets the registration and no other |
| Heartbeat.Monitor.IncrementAll | internal/heartbeat/heartbeat.go:173-184 | Every registration gets one increment, and its counter is the number of increments since its registration or last beat, up to the threshold |
| Heartbeat.Monitor.GetStatuses | internal/heartbeat/heartbeat.go:187-197 | A service is healthy exactly when its increments since the last beat are below the threshold |
| HeartbeatRuns.CountersAreRight | internal/heartbeat/heartbeat.go:107-197 | At every moment of every interleaving of any number of goroutines, a counter is min(threshold, increments since registration or last beat), counted over the steps of the run, although the test, the read and the write of an increment are steps of their own |
| HeartbeatRuns.AnswerIsRight | internal/heartbeat/heartbeat.go:191-195 | The answer of GetStatuses for a service is right at the moment its registration is read |
| HeartbeatRuns.StatusesAreRight | internal/heartbeat/heartbeat.go:187-197 | When GetStatuses returns it has an answer for every registered name, and services it calls healthy still are |
| HeartbeatRuns.IncrementAllIsAtomic | internal/heartbeat/heartbeat.go:173-184 | When incrementAll returns, every registration has had exactly one increment since it began |
| HeartbeatLocks.StepKeepsCurrent | internal/heartbeat/heartbeat.go:176-181 | Between the test, the read and the write of an increment nobody else changes the counter, because of the lock of the registration |
| HeartbeatLocks.EntryWriterIsAlone | internal/heartbeat/heartbeat.go:120-121 | While somebody beats or increments a registration, nobody else beats, increments or reads it |
| HeartbeatLocks.WriterIsAlone | internal/heartbeat/heartbeat.go:108-109 | While somebody registers or increments, nobody else registers, increments or reads statuses |
| HeartbeatProgress.NoDeadlock | internal/heartbeat/heartbeat.go:107-197 | With writers that hold back new readers, an unfinished call implies that some unfinished call can take a step |
| HeartbeatProgress.CallsFinish | internal/heartbeat/heartbeat.go:107-197 | However they are scheduled, the calls under way take a bounded number of steps |
| HeartbeatRuns.RunKeepsInv | internal/heartbeat/heartbeat.go:107-197 | Every step of every run keeps the locks exclusive and consistent with what goroutines do, the counters right and the partial results right |
| HdbSql.RoundTrip | internal/databaseconnector/databaseconnector.go:289-295 | A row is split back into the fields it was made of exactly when all of them are NULL, quoted strings without quotes, or bare text that begins with a word character and has no quote or comma |
| HdbSql.TokensWellFormed | internal/databaseconnector/databaseconnector.go:289-295 | Whatever the row, only such fields are ever found |
| HdbSql.MinusIsDropped | internal/databaseconnector/databaseconnector.go:295 | A minus sign in front of a bare field is lost, in any column |
| HdbSql.ParseIntoValues | internal/databaseconnector/databaseconnector.go:297-365 | Columns are read in order up to the first that its variable cannot take, with the error of that column; a wrong number of columns changes nothing; two columns may share a variable |
| HdbSql.ReadPrinted | internal/databaseconnector/databaseconnector.go:297-319 | A printed row read into distinct strings leaves in every string what was printed in its column, NULL as the empty string |
| HdbSql.QuotedInteger | internal/databaseconnector/databaseconnector.go:320-329 | A quoted 64-bit integer is read back |
| HdbSql.UnquotedInteger | internal/databaseconnector/databaseconnector.go:320-329 | An unquoted integer is read as its absolute value, so it is read back exactly when it is not negative |
| HdbSql.TruthReads | internal/databaseconnector/databaseconnector.go:342-350 | The truth words are read as what they say, quoted or not, and other text is an error |
| HdbSql.FloatReads | internal/databaseconnector/databaseconnector.go:331-339 | A floating-point number is what parsing the text gives, quoted or not, and an error if parsing fails |
| HdbSql.TextReads | internal/databaseconnector/databaseconnector.go:312-319 | Text is read into a string or an untyped variable as it stands, without its quotes |
| HdbSql.NullReads | internal/databaseconnector/databaseconnector.go:320-352 | NULL is read as the empty string, zero or false |
| HdbSql.FieldsExactly | internal/databaseconnector/databaseconnector.go:295 | How the three forms of a field are written |
| HdbSql.QueryResults.Next | internal/databaseconnector/databaseconnector.go:259-271 | The cursor visits every row once, in order, and then stays |
| HdbSql.QueryResults.ReadRow | internal/databaseconnector/databaseconnector.go:274-287 | Reading before the first row is an error, otherwise the current row is read |
| HanaConnections.Connections.ConnectToDatabases | internal/hanamonitoring/hanamonitoring.go:464-513 | A pass attempts every instance whose key is not settled, in order, records the outcomes in the two maps, and returns the instances it connected |
| HanaConnections.Connections.CreateWorkerPool | internal/hanamonitoring/hanamonitoring.go:174-208 | The retry loop makes one pass and then one per tick, and ends with all keys connected at the first tick after which they are, or when cancelled |
| HanaConnections.EveryRun | internal/hanamonitoring/hanamonitoring.go:464-513 | Over every run of passes with arbitrary outcomes, no key is attempted again after it connected or failed to authenticate, none does both, and every key yields at most one database, and one exactly when it is connected |
| HanaConnections.OneDatabasePerKey | internal/hanamonitoring/hanamonitoring.go:510-511 | The databases of any attempts that never repeat a settled key have different keys, and are those of the connected keys |
| HanaConnections.PassTriesAll | internal/hanamonitoring/hanamonitoring.go:466-513 | After a pass every key has connected, has failed to authenticate or has just failed once more: no instance is given up |
| HanaConnections.PassInTurn | internal/hanamonitoring/hanamonitoring.go:466-513 | The attempts of a pass have the outcomes given for their instances and come in the order of the instances |
| HanaConnections.KeyExactly | internal/hanamonitoring/hanamonitoring.go:467-470 | Two instances share a key exactly if host, user and port are the same, unless a host or a user has a colon |
| HanaConnections.SettledIndependently | internal/hanamonitoring/hanamonitoring.go:467-509 | So an attempt for one instance tells nothing about an instance with another host, user or port |
| HanaConnections.AuthErrorForGood | internal/hanamonitoring/hanamonitoring.go:470-473 | After an authentication error a key is never connected, and connected keys stay connected |
| HanaConnections.AuthErrorRetriesForever | internal/hanamonitoring/hanamonitoring.go:191-205 | With an instance that failed to authenticate, the loop only ends when cancelled |
| CumulativeSeries.RunningSums.CreateCumulativeMetric | internal/hanamonitoring/hanamonitoring.go:608-659 | The first sample of a series emits nothing, every further one the sum of all samples of the series with the time of the first; a type assertion fails exactly when the kind differs from that of the series |
| CumulativeSeries.RunningSums.CreateMetricsForRow | internal/hanamonitoring/hanamonitoring.go:534-555 | The metrics of a row in column order; whatever the rows hold, a row panics exactly when two summed columns with one metric path have different value types |
| CumulativeSeries.RowYieldsUpTo | internal/hanamonitoring/hanamonitoring.go:534-555 | A row that does not panic gives what its columns yield, one after the other, told from the cells: a gauge with the value of the cell, a sum since the first sample of the series, or nothing |
| CumulativeSeries.GaugesExactly | internal/hanamonitoring/hanamonitoring.go:585-603 | What each type of gauge column emits, a cell of another type counting as zero or false |
| CumulativeSeries.SampleExactly | internal/hanamonitoring/hanamonitoring.go:625-650 | The value, time and key that a summed column takes from its cell |
| CumulativeSeries.PathExactly | internal/hanamonitoring/hanamonitoring.go:572-575 | The metric path of a column, with and without a name of its own |
| CumulativeSeries.LabelOfColumn | internal/hanamonitoring/hanamonitoring.go:557-568 | The labels of a row have, under the name of a label column, the text of the last such column |
| CumulativeSeries.OtherLabels | internal/hanamonitoring/hanamonitoring.go:557-568 | and keep the fixed labels under all other names |
| CumulativeSeries.EmitsFromTheSecondOn | internal/hanamonitoring/hanamonitoring.go:630-650 | A sample panics exactly when an earlier sample of its series is of another kind, emits nothing exactly when it is the first, and otherwise the sum since the first with the time of the first |
| CumulativeSeries.SeriesAreIndependent | internal/hanamonitoring/hanamonitoring.go:625-650 | Samples of other keys never change what a sample leads to, be it a panic |
| CumulativeSeries.TotalSnoc | internal/hanamonitoring/hanamonitoring.go:632-635 | Adding to the stored 64-bit sum with wrap-around gives the sum of the whole series |
| CumulativeSeries.WrapExactly | internal/hanamonitoring/hanamonitoring.go:634 | Wrapping around changes a number by a multiple of two to the 64th, and leaves 64-bit integers alone |
| CumulativeSeries.ConsistentIsUniform | internal/hanamonitoring/hanamonitoring.go:632-650 | If columns that share a metric path share a value type, all samples of a key are of one kind |
| CumulativeSeries.UniformIsConsistent | internal/hanamonitoring/hanamonitoring.go:632-650 | and the other way round, as soon as one row could be summed |
| SeriesKeys.PrepareKey | internal/hanamonitoring/hanamonitoring.go:678-690 | The key for some order in which the labels are visited |
| SeriesKeys.LeExactly | internal/hanamonitoring/hanamonitoring.go:687 | The entries are sorted lexicographically |
| SeriesKeys.KeyIsUnique | internal/hanamonitoring/hanamonitoring.go:678-690 | The key does not depend on that order |
| SeriesKeys.CleanKeysDiffer | internal/hanamonitoring/hanamonitoring.go:684-688 | Labels of any names, not only the same ones, are recovered from the key if no name has a separator and no value a comma |
| KeyCollisions.CollidesExactly | internal/hanamonitoring/hanamonitoring.go:678-690 | A row shares its key with another row of its query, with the same names and the same values of the fixed names, exactly when for two free names with none but fixed names between them in the key, the text between their two values occurs elsewhere in those values and that text |
| KeyCollisions.NeighboursExactly | internal/hanamonitoring/hanamonitoring.go:684-688 | For free names that are neighbours in the key, that is exactly when one of the two values contains a comma, the second name and a colon |
| KeyCollisions.KeyOrderExists | internal/hanamonitoring/hanamonitoring.go:684-688 | Every set of names has an order in which their entries come in the key |
| KeyCollisions.NeighboursCollide | internal/hanamonitoring/hanamonitoring.go:678-690 | Moving the separator from one value to its neighbour gives other labels with the same key |
| KeyCollisions.NeighboursText | internal/hanamonitoring/hanamonitoring.go:684-688 | The text of the shared key |
| KeyCollisions.RowsCollide | internal/hanamonitoring/hanamonitoring.go:534-539 | Two rows of one query, with the labels instance_name and sid and two label columns, whose series have the same key |
| OverrideFile.MetricEmitter.GetMetric | internal/workloadmanager/workloadcollector.go:428-456 | A call reads exactly the next block and consumes a line unless it is the last; the metric has the name of the block and says what its lines say |
| OverrideFile.CollectLines | internal/workloadmanager/workloadcollector.go:414-424 | The repeated calls end and give one metric for every block, in order |
| OverrideFile.BlocksAreNamed | internal/workloadmanager/workloadcollector.go:428-456 | The blocks are exactly the metric lines with a name, in order |
| OverrideFile.BlocksAreApart | internal/workloadmanager/workloadcollector.go:428-456 | Blocks do not overlap and come in order |
| OverrideFile.InBlockExactly | internal/workloadmanager/workloadcollector.go:428-456 | A line that is no metric line belongs to some block exactly when a named metric line comes after it or the last metric line before it has a name |
| OverrideFile.LastLabelWins | internal/workloadmanager/workloadcollector.go:449-450 | A label has the trimmed value of the last line with its key |
| OverrideText.LineMeans | internal/workloadmanager/workloadcollector.go:462-472 | A line of a key, a colon and a value, with white space around them, begins the metric with the name of the value if the key is metric, and otherwise says the value about the key; values may contain colons |
| OverrideText.LineIsIgnored | internal/workloadmanager/workloadcollector.go:463-471 | A line means nothing exactly if it is empty, begins with a number sign or has no colon |
| OverrideText.LineSplits | internal/workloadmanager/workloadcollector.go:467-472 | Every other line has that form |
| OverrideText.NamesOfText | internal/metricoverrides/metricoverrides.go:115-183 | The names that a file of text lines gives to either reader: every line with the key metric and a value adds it, in order, and no other line does |
| WorkloadOverrides.CollectOverrideMetrics | internal/workloadmanager/workloadcollector.go:404-425 | One metric for every block of the file, with the names of the metric lines in order; none if the file cannot be read |
| WorkloadOverrides.LastValueWins | internal/workloadmanager/workloadcollector.go:445-448 | The value is that of the last metric_value line, whatever parsing it gives |
| WorkloadOverrides.ValueIsZero | internal/workloadmanager/workloadcollector.go:430 | Without such a line it is zero |
| WorkloadOverrides.LabelsAre | internal/workloadmanager/workloadcollector.go:449-450 | The labels are those of the lines of the block |
| MetricOverrides.Collect | internal/metricoverrides/metricoverrides.go:90-111 | The typed reader emits the same name sequence, one metric for every block, and an error if the file cannot be read |
| MetricOverrides.LastValueWins | internal/metricoverrides/metricoverrides.go:139-151 | The value sent is the last metric_value as integer, else float, else truth value; an unreadable one leaves the type of the lines before it |
| MetricOverrides.ZeroIsSent | internal/metricoverrides/metricoverrides.go:116-122 | Without such a line it is the integer zero |
| MetricOverrides.LastTypeWins | internal/metricoverrides/metricoverrides.go:152-157 | A metric is cumulative exactly if the last metric_type line says so |
| MetricOverrides.GaugeWithoutType | internal/metricoverrides/metricoverrides.go:122 | and a gauge if there is none |
| Text.SignsAreRead | internal/metricoverrides/metricoverrides.go:140 | How integers of 64 bits are read |
| MetricOverrides.LabelsAre | internal/metricoverrides/metricoverrides.go:157-158 | The labels are those of the lines of the block, without the value and type lines |
| BackupScan.SortByTime | internal/workloadmanager/hanametrics.go:605 | The sort in place is a permutation in descending order of time |
| BackupScan.Scan | internal/workloadmanager/hanametrics.go:606-624 | The scan with early exit finds, for each type, the latest time apart from the zero time, and zero if there is none |
| BackupScan.FetchLastBackupTimestamps | internal/workloadmanager/hanametrics.go:582-635 | The same for the log in any order, and the two ways of failing |
| BackupScan.LatestIsGreatest | internal/workloadmanager/hanametrics.go:606-624 | What the scan finds is the greatest time of the type exactly unless that is the zero time and earlier times exist |
| BackupScan.ZeroTimeIsPassedOver | internal/workloadmanager/hanametrics.go:613-621 | Two backups for which it is not |
| BackupScan.LatestIsUnique | internal/workloadmanager/hanametrics.go:605-624 | The answer does not depend on the order of the log or of the sort |
| BackupScan.HanaBackupMetrics | internal/workloadmanager/hanametrics.go:498-542 | For each kind of backup its own tenant and time: the first tenant that attains the oldest of the latest times before now, or none, and that time; the first tenant that cannot be read is named for all kinds without a time |
| ProcessList.SeenProcessList.GetProcessList | internal/sapcontrolclient/sapcontrolclient.go:143-179 | The result is the response followed by exactly one gray entry without a process ID for every name an earlier successful call validly reported for the system number and this response lacks; a failed call changes nothing; no system number is stored twice |
| ProcessList.OthersDoNotLeakIn | internal/sapcontrolclient/sapcontrolclient.go:159-177 | Calls for other system numbers make no difference |
| ProcessList.ReportedInExactly | internal/sapcontrolclient/sapcontrolclient.go:157-164 | A response reports a name exactly if a process has it with a status and a real process ID, and it is neither empty nor sapcpe |
| CollectorRestart.SapInstancesEqual | internal/processmetrics/processmetrics.go:282-319 | Equal lengths and one-sided containment by system ID, type and number, with absent lists only equal to each other |
| CollectorRestart.DistinctIsExact | internal/processmetrics/processmetrics.go:282-319 | If the old list has no duplicates, the comparison holds exactly for the permutations of it |
| CollectorRestart.ExactOnlyIfDistinct | internal/processmetrics/processmetrics.go:299-317 | The comparison with an old list is right about every new list exactly when the old list has no duplicates |
| CollectorRestart.DuplicateIsMissed | internal/processmetrics/processmetrics.go:299-317 | With a duplicate, a replaced instance goes unnoticed |
| CollectorRestart.Collectors.Update | internal/processmetrics/processmetrics.go:322-352 | Collectors restart exactly at the readings that look different from the one before, and all contexts but the current one are cancelled |
| CollectorRestart.RestartsOnChange | internal/processmetrics/processmetrics.go:330-343 | If no reading has duplicates, the collectors restart exactly at the readings whose instances are not those of the reading before, the first being compared with no instances |

## Left out

- DefinitionMerge.Merge: requires that nothing would be appended to an absent section, because the copy of an absent section is nil and appending to it is a run-time error in the code.
- Resources.RemoveDuplicates: requires that resources share a properties object only if they have the same URI; with an object shared between URIs, merging one would change the other, which the value-level merge does not describe.
- DiscoveryTree.DiscoverReplicationSite: every lookup returns new objects, while the code caches them for ten minutes; SharedDiscovery.DiscoverReplicationSite is about cached objects. URIs and zones are given by functions.
- SharedDiscovery.DiscoverReplicationSite: the region and the contents of entries, apart from the database role, are not stated, because a merge through a shared object may change them at any later time; the kind of a resource is a function of its URI, as the code reads it off the URI.
- CloudLookups.CloudDiscovery.DiscoverResource: the cache is by URI, without the host names and addresses that lead to a URI, and a lookup does not move a host name from a parent that is no instance or extend related resources.
- DiscoveryUpdate.AddHostToTree: each list has distinct URIs, as discovery leaves them; host names and disk names of merged entries depend on the order of the merges when objects are shared, and are not stated.
- DiscoveryUpdate.ClearDiskNames: every replication site has a component, as discovery builds them; a missing one is a run-time error in the code.
- Heartbeat.Monitor.IncrementAll: the threshold is not negative, as the configuration check ahead of the constructor ensures.
- HeartbeatRuns.CountersAreRight: the number of goroutines is arbitrary but fixed in a run, and a beat is for a registered name.
- HdbSql.ParseIntoValues: works on characters, not on bytes that are no valid text.
- CumulativeSeries.RunningSums.CreateMetricsForRow: floating-point sums are over the reals, without rounding.
- BackupScan.SortByTime: sorts by selection; the library sort may order backups of equal time differently, which LatestIsUnique shows to be irrelevant.
- OverrideFile.MetricEmitter.GetMetric: lines are those the scanner delivers; a line that is too long ends the file early in the code.
- CollectorRestart.SapInstancesEqual: proto equality is equality of the lists of instances.
- Logging, usage metrics, panic recovery and the contents of error messages.
- Running commands, reading files, HTTP, SOAP and gRPC clients, and sending time series.
- The rest of SAP system discovery: application layers, overrides, instance properties and writing to Cloud Logging.
- Loading, broadcasting and refreshing collection definitions, and signature checks.
- The configuration of heartbeat tickers, cancellation of the monitor, and the monitor that does nothing.
- Submitting monitoring queries to the worker pool, query scheduling and the choice of instances by replication site.
- The collectors started by the restart loop, and the wait before they start.
- Reading backup logs and discovering tenants from the service file.
- Collecting system, Corosync, HANA and Pacemaker metrics: one branch per fact.
