# capa-annotator core, modelled in Dafny

capa-annotator is a Kubernetes controller. It writes EC2 capacity annotations onto
cluster-api MachineDeployments, so that the cluster autoscaler can scale a node group up
from zero. This project models and proves the controller's decision and data logic.

- **Reconcile step** (`Controller`). It resolves the AWSMachineTemplate, the instance
  type and the AWS region, then builds an AWS client and looks the instance type up. On
  success it writes three annotations: `machine.openshift.io/vCPU`,
  `machine.openshift.io/memoryMb` and `machine.openshift.io/GPU`. It also merges
  `kubernetes.io/arch=<arch>` into the comma-separated label list in
  `capacity.cluster-autoscaler.kubernetes.io/labels`. `Reconcile` is a method that
  changes a `DeploymentObject` in place. It is proved against `Plan` (the decision) and
  `Annotated` (the new annotations).
- **Label list** (`Labels`). Reading the list: split on `,`, trim white space, cut at the
  first `=`, and a later key wins. Writing it: one `key=value` entry per key, sorted as
  whole strings, joined with `,`. `ParseLabels` and `SerializeLabels` are loops, as in the
  source. Sorting is an in-place insertion sort over an array (`StringOrder.SortStrings`).
  Go's random map iteration order is an arbitrary choice in the model. The written string
  is proved equal to one canonical value, `SerializedLabels`.
- **Template and region resolution** (`ProviderSpec`). These are pure functions over an
  immutable store of Kubernetes objects (`Kube.Store`). The chain is MachineDeployment →
  AWSMachineTemplate, and MachineDeployment → Cluster → AWSCluster → region. Namespaces
  are defaulted, and the region annotation is the fallback.
- **AWS client decision logic** (`AwsClient`). It covers:
  - the choice of auth mode;
  - `validateRegion`, a loop with a `break`;
  - the DescribeRegions cache, a class whose `data` map and session region change in place;
  - the three-way endpoint decision of `NewValidatedClient`.

Several things are inputs rather than computations:
- The AWS SDK, the credential provider and the endpoint resolver are inputs. Their
  outcomes are passed as values, and the DescribeRegions call is a function parameter.
- The clock is an integer count of nanoseconds.
- The two IRSA environment variables are parameters.

Strings are sequences of Unicode scalar values, and `Text` models the Go `strings` and
`strconv` functions the code uses. Two facts make this faithful:
- every separator used here is ASCII;
- UTF-8 byte order equals code-point order.

So splitting and sorting on characters agrees with Go's byte-level functions.

Two behaviours of the code are worth stating outright, and the model follows them:
- A region is refused only when its opt-in status is exactly `not-opted-in`; every other
  status is accepted.
- A half-configured IRSA pair falls back to the default credential chain without an
  error. The repository's client tests expect a fail-fast, but they are out of date with
  `client.go` (they call a five-argument `newAWSSession`).

## Model

| member | source | states |
|---|---|---|
| Text.TrimSpace | pkg/controller/controller.go:158 | the result is the slice of the input between its leading and trailing white space (Go's `unicode.IsSpace` set); it starts and ends with a non-space and is the input itself when the input has no outer space |
| Text.Cut | pkg/controller/controller.go:158-159 | `SplitN(s, "=", 2)` yields two parts exactly when `=` occurs; the first part has no `=` and the parts rebuild `s` around the first `=` |
| Text.Split | pkg/controller/controller.go:157 | `strings.Split` yields at least one piece and no piece contains the separator |
| Text.Join | pkg/controller/controller.go:175 | `strings.Join` of no parts is empty; the result starts with the first part, followed by the separator when more parts follow |
| Text.JoinSplit | pkg/controller/controller.go:157 | joining the pieces of a split with the same separator gives back the string |
| Text.SplitJoin | pkg/controller/controller.go:157-175 | splitting a join of separator-free pieces gives back the pieces |
| Text.FormatInt | pkg/controller/controller.go:149-151 | `strconv.FormatInt(n, 10)` is a non-empty string of decimal digits, with a leading `-` exactly for negative numbers, and without leading zeros (a string starting with `0` is exactly `"0"`) |
| Text.ParseFormatInt | pkg/controller/controller.go:149-151 | the written count loses nothing: reading the decimal string back gives the number |
| Text.FormatIntInjective | pkg/controller/controller.go:149-151 | distinct counts are written as distinct strings |
| StringOrder.LessTotal | pkg/controller/controller.go:174 | Go's string order is total: two different strings are ordered one way or the other |
| StringOrder.LessTransitive | pkg/controller/controller.go:174 | Go's string order is transitive |
| StringOrder.LessAsymmetric | pkg/controller/controller.go:174 | Go's string order is asymmetric |
| StringOrder.LessIrreflexive | pkg/controller/controller.go:174 | no string is less than itself |
| StringOrder.AdjacentSortedIsSorted | pkg/controller/controller.go:174 | a list whose neighbours are in order is sorted as a whole |
| StringOrder.SortStrings | pkg/controller/controller.go:174 | `sort.Strings` leaves the slice in ascending order and a permutation of what it held |
| StringOrder.InsertDown | pkg/controller/controller.go:174 | one insertion step extends the sorted prefix by one element, leaves every slot after it untouched, and keeps the multiset of elements |
| StringOrder.Swap | pkg/controller/controller.go:174 | exchanging two slots changes only those slots and keeps the multiset |
| StringOrder.SortedPermutationIsStrict | pkg/controller/controller.go:169-174 | sorting a list without duplicates gives a strictly ascending list with the same elements |
| StringOrder.StrictlySortedUnique | pkg/controller/controller.go:169-174 | two strictly ascending lists with the same elements are equal, so the sorted output does not depend on the input order |
| StringOrder.LeastExists | pkg/controller/controller.go:174 | every non-empty finite set of strings has a least element |
| StringOrder.SortedElements | pkg/controller/controller.go:169-175 | every finite set of strings has a strictly ascending listing of exactly its elements |
| StringOrder.SortedElementsUnique | pkg/controller/controller.go:169-175 | any strictly ascending listing of a set is that canonical listing |
| Labels.ParsePiece | pkg/controller/controller.go:158-161 | a piece yields a label exactly when its trimmed text contains `=`; the key has no `=` and `key=value` is the trimmed piece |
| Labels.ParseLabels | pkg/controller/controller.go:154-163 | the loop over the split pieces builds exactly the map `ParsedLabels` denotes, a later piece overwriting an earlier one |
| Labels.SerializeLabels | pkg/controller/controller.go:168-175 | whatever order the map yields its keys in, the written string is the canonical one: the sorted `key=value` entries joined with `,` |
| Labels.Entry | pkg/controller/controller.go:171 | `fmt.Sprintf("%s=%s", k, v)` has the key's and value's lengths plus one, with `=` right after the key |
| Labels.EntryInjective | pkg/controller/controller.go:171 | for keys without `=`, `key=value` determines both key and value |
| Labels.EntriesOfKeys | pkg/controller/controller.go:169-172 | the entries written for the keys have no duplicates and are exactly the map's entries |
| Labels.ParsePieceWellFormed | pkg/controller/controller.go:157-161 | a piece of a split yields a key without `=`, `,` or leading space and a value without `,` or trailing space |
| Labels.ParsePiecesWellFormed | pkg/controller/controller.go:157-161 | every label read from the split pieces is well-formed |
| Labels.ParsedLabelsWellFormed | pkg/controller/controller.go:155-163 | whatever the annotation held, the labels read from it are well-formed |
| Labels.ParsePieceEntry | pkg/controller/controller.go:158-171 | a well-formed `key=value` entry reads back as its own key and value |
| Labels.ParsePiecesOfEntries | pkg/controller/controller.go:157-171 | reading a list of a map's entries gives back exactly the part of the map whose entries are listed |
| Labels.RoundTrip | pkg/controller/controller.go:153-175 | reading back the written label string of a well-formed map gives the same map |
| Labels.ParsedKeyDefined | pkg/controller/controller.go:157-161 | a key is in the parsed map only if some piece defines it |
| Labels.LastPieceWins | pkg/controller/controller.go:157-161 | a key's parsed value is the value of the last piece that defines it |
| Labels.SerializedPieces | pkg/controller/controller.go:169-175 | the pieces of a written label string are the map's entries in ascending order |
| Labels.SortedEntriesKeysDistinct | pkg/controller/controller.go:169-174 | no two of the sorted entries of a well-formed map define the same key |
| Labels.SerializedPiecesOnce | pkg/controller/controller.go:169-175 | the written string of a well-formed map has each label's entry as one of its pieces, and no key in two pieces |
| Labels.SingleLabel | pkg/controller/controller.go:169-175 | a map with a single label is written as that label's entry alone |
| ProviderSpec.TemplateKey | pkg/utils/providerspec.go:49-56 | the template is fetched by the reference's name, in the reference's namespace or in the MachineDeployment's when that is empty |
| ProviderSpec.ClusterKey | pkg/utils/providerspec.go:101-104 | the Cluster is looked up by the MachineDeployment's cluster name in the MachineDeployment's own namespace |
| ProviderSpec.AWSClusterKey | pkg/utils/providerspec.go:119-125 | the AWSCluster is looked up by the reference's name, in the reference's namespace or in the Cluster's when that is empty |
| ProviderSpec.AnnotatedRegion | pkg/utils/providerspec.go:89 | the region annotation counts exactly when it is present and non-empty, and then gives its value |
| ProviderSpec.ResolveAWSMachineTemplate | pkg/utils/providerspec.go:35-64 | succeeds exactly when the reference has a name, has kind AWSMachineTemplate and the object exists, and returns that object; an empty name fails before the kind is checked, then a wrong kind, then a missing object |
| ProviderSpec.ExtractInstanceType | pkg/utils/providerspec.go:67-75 | a nil template or an empty instance type is an error; otherwise the field is returned unchanged and is non-empty |
| ProviderSpec.RegionFromAWSCluster | pkg/utils/providerspec.go:98-137 | succeeds exactly when the chain holds: the Cluster exists in the MachineDeployment's namespace, its infrastructure reference is set and named, the AWSCluster exists in the reference's namespace (or the Cluster's), and its region is non-empty; each broken link gives its own error |
| ProviderSpec.ResolveRegion | pkg/utils/providerspec.go:78-95 | a successful chain wins even over the annotation; a failed or skipped chain falls through to the region annotation when present and non-empty; otherwise "unable to determine"; every success is non-empty |
| ProviderSpec.ResolvedRegionSource | pkg/utils/providerspec.go:78-95 | a resolved region comes from the cluster chain or from the region annotation, nowhere else |
| ProviderSpec.ResolutionIgnoresOtherAnnotations | pkg/utils/providerspec.go:35-137 | template and region resolution read no annotation other than the region annotation |
| AwsClient.SelectAuthMode | pkg/client/client.go:340-356 | IRSA is chosen exactly when both `AWS_ROLE_ARN` and `AWS_WEB_IDENTITY_TOKEN_FILE` are non-empty; a half-configured pair uses the default chain |
| AwsClient.NewAWSSession | pkg/client/client.go:333-367 | the session succeeds exactly when the SDK creates it, and then has the input region and the selected auth mode; a creation error is returned as is |
| AwsClient.FirstMatch | pkg/client/client.go:273-278 | finds the first non-nil entry naming the region, or reports that none does |
| AwsClient.RegionValidation | pkg/client/client.go:271-288 | the first non-nil entry naming the region decides: it is returned when its status is anything but `not-opted-in`, and "not opted in" is the error otherwise; "not a valid region" exactly when no entry names the region |
| AwsClient.ValidateRegion | pkg/client/client.go:271-288 | the search loop that stops at the first match returns exactly `RegionValidation` |
| AwsClient.CachedAnswer | pkg/client/client.go:243-267 | a usable entry (answer present, no error, younger than 30 minutes) is returned as is; otherwise the API's answer is |
| AwsClient.Usable | pkg/client/client.go:244-245 | an entry is used only when it holds an answer and no error; one as old as the 30-minute expiration or older is never used, and a younger one with an answer and no error always is |
| AwsClient.CachedData | pkg/client/client.go:243-267 | a hit or a failed call leaves the map exactly as it was; only a miss followed by a successful call changes it, and only at the access key, storing the new answer with time `now` |
| AwsClient.CachedDataValid | pkg/client/client.go:259-267 | errors are never cached: every stored entry holds an answer and no error, before and after any lookup |
| AwsClient.FailureNotCached | pkg/client/client.go:259-262 | a failed DescribeRegions call leaves the cache map unchanged |
| AwsClient.RefreshThenHit | pkg/client/client.go:243-267 | after a successful refresh, lookups for the same key within 30 minutes return that answer, call nothing and change nothing |
| AwsClient.ExpiredEntryMisses | pkg/client/client.go:244-245 | an entry 30 minutes old or older is not used |
| AwsClient.RegionCache.constructor | pkg/client/client.go:226-231 | a new cache is empty |
| AwsClient.RegionCache.GetCachedDescribeRegions | pkg/client/client.go:235-268 | a credential error is returned and nothing changes; otherwise the answer and the new map are `CachedAnswer` and `CachedData`; a request, sent to us-east-1, is recorded exactly on a miss; the session's region is restored; the no-error invariant is kept |
| AwsClient.ValidatedClient | pkg/client/client.go:303-324 | a resolvable region gives a client; an unknown endpoint requires region data ("could not retrieve region data" otherwise) and passes `validateRegion`'s error through; any other resolver error is "region not resolved" |
| AwsClient.ValidatedClientRegion | pkg/client/client.go:303-324 | a client is only ever built for a region the resolver knows, or one the region data lists as opted in |
| AwsClient.NewValidatedClient | pkg/client/client.go:293-331 | returns the session error unwrapped; consults the region cache only for an unknown endpoint, and then leaves it as `CachedData` with one us-east-1 request logged exactly on a miss; otherwise decides as `ValidatedClient` with the cache's answer |
| Controller.NormalizeArchitecture | pkg/controller/controller_test.go:507-531 | `arm64` stays arm64; every other architecture name, x86_64 included, becomes amd64 |
| Controller.Plan | pkg/controller/controller.go:101-142 | checks template, instance type, region and client in that order; each failure is returned (a client failure wrapped); an instance type missing from the cache skips without error; otherwise its descriptor is written |
| Controller.Reconcile | pkg/controller/controller.go:101-178 | returns `Plan`'s error; on an error or unknown instance type the annotations (even a nil map) are untouched; on success a nil map is created and the annotations become `Annotated` of the old ones |
| Controller.ExistingLabels | pkg/controller/controller.go:153-163 | with no labels annotation there are no existing labels; otherwise they are the parsed annotation, so the non-empty guard changes nothing (an empty string parses to no labels) |
| Controller.MergedLabels | pkg/controller/controller.go:165-166 | the existing labels plus the architecture label, which holds the descriptor's architecture; every other existing label keeps its value |
| Controller.Annotated | pkg/controller/controller.go:145-175 | after a write the four owned keys are present and hold the three counts in base 10 and the written merged labels |
| Controller.ArchLabelWellFormed | pkg/controller/controller.go:166 | the architecture label is a well-formed label for either architecture |
| Controller.MergedLabelsWellFormed | pkg/controller/controller.go:153-166 | the merged labels are all well-formed |
| Controller.AnnotatedCounts | pkg/controller/controller.go:149-151 | the three counts are written in base 10 and read back as the descriptor's vCPU, memory and GPU values |
| Controller.AnnotatedKeepsOthers | pkg/controller/controller.go:145-175 | every annotation other than the four owned keys keeps its value, and no other key is added |
| Controller.WriteOwned | pkg/controller/controller.go:149-175 | writing the four owned keys, whatever the values, adds those keys and changes no other |
| Controller.AnnotatedLabels | pkg/controller/controller.go:153-175 | the written labels read back as the existing labels with only the architecture label set; every other existing label keeps its value |
| Controller.SerializedLabelsNonEmpty | pkg/controller/controller.go:155-175 | the written label string is never empty, so the next reconcile parses it |
| Controller.ArchLabelOnce | pkg/controller/controller.go:166-175 | the written label list has the architecture entry with the descriptor's architecture, and no key appears in two pieces |
| Controller.AnnotatedIdempotent | pkg/controller/controller.go:145-175 | writing the annotations twice with the same descriptor gives the same map as writing them once |
| Controller.PlanIgnoresOwnedAnnotations | pkg/controller/controller.go:104-142 | changing only owned annotations does not change the reconcile decision |
| Controller.ReconcileIdempotent | pkg/controller/controller.go:101-178 | after a successful write, the next reconcile takes the same decision and leaves the annotations as they are |
| Controller.A1TwoXLargeExample | pkg/controller/controller_test.go:276-285 | the a1.2xlarge descriptor on an empty map gives "8", "16384", "0" and `kubernetes.io/arch=amd64` |

## Left out

- `Reconcile`, `SetupWithManager`, fetching and patching the MachineDeployment, the event recorder and all logging (pkg/controller/controller.go:48-99 and the `klog`/`Eventf` calls): this is controller-runtime plumbing with no decision logic.
- The instance-type cache: its source is not part of this model. It is an abstract map from (region, instance type) to a descriptor, and a missing key means "unknown instance type". Its TTL, pagination and single-flight refresh are not modelled. `Controller.NormalizeArchitecture` restates only the mapping its tests assert.
- The injected AWS client builder is a function from (namespace, region) to a client or an error. Through it, reconcile cannot see the builder's effect on the region cache. `AwsClient.NewValidatedClient` models the production builder on its own. The unused `secretName` argument is dropped.
- `NewClient`, `NewClientFromKeys`, the SDK pass-through methods and the user-agent handler (pkg/client/client.go:52-206, 369-374): thin wrappers over the AWS SDK. The client is represented only by its session configuration.
- The AWS SDK itself is represented only by what it returns:
  - session creation is an optional error;
  - the credential provider's answer is a value;
  - the endpoint resolver's outcome is one of three cases;
  - DescribeRegions is a function of the credentials and the target region. Its request flags (`AllRegions`, `DryRun`) are not modelled.
- Nil `RegionName` or `OptInStatus` pointers in a DescribeRegions answer are not modelled; the Go code would dereference them. Both fields are plain strings in the model.
- A Kubernetes `Get` that fails for any reason (not found, transient error) is an absent key in the store. A fetched object's name is its own field, as in the source.
- The region cache's mutex (pkg/client/client.go:217, 241-242): the lock is held for the whole lookup, so a sequential model is faithful. Concurrency in general is left out.
- Wall-clock time: the clock is an integer in nanoseconds, and `time.Since(t)` is `now - t`. Go's monotonic clock readings are not modelled.
- Integer widths: the int64 counts are unbounded integers. `FormatInt` agrees with Go on every int64.
- Go strings are byte strings that may hold invalid UTF-8. The model's strings are sequences of Unicode scalar values.
- Labels.SerializeLabels: it requires keys without `=`. The map reconcile builds always meets this, because parsed keys end before the first `=` and `kubernetes.io/arch` has none. Without it, two different labels could be written as the same entry, and the canonical form would count it once where Go writes it twice.
