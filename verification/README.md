# RukPak core logic in Dafny

RukPak turns bundles of Kubernetes manifests into installed releases. This project models the
parts of it that decide something and proves what they promise over all inputs, all runs and all
interleavings. Libraries the code calls (hashing, schema validation, tar and gzip, Helm, the API
server, the container registry) appear as parameters or as outcomes that the environment picks
freely, call by call; what is assumed of them is a named predicate in the lemma that needs it.

| module | what it covers |
|---|---|
| `Text`, `Paths` | splitting and joining text; lexical path cleaning as Go's `filepath` does it |
| `Naming` | SHA-224 digests as base-36 text, and the object names made from them |
| `Convert`, `RbacSemantics`, `RbacMeaning`, `BundledRbac` | registry+v1 to plain conversion, what RBAC objects mean on a cluster, what the generated ones mean, and what RBAC manifests carried by the bundle change |
| `ConfigMapSource`, `Admission` | unpacking from ConfigMaps, and the admission protocol that keeps them stable |
| `ImageCache` | the image unpack cache over a registry whose tags may move |
| `CrdUpgrade` | the CRD upgrade validator over whole histories of a CRD |
| `Archive`, `BaseDir`, `ChartArchive`, `BundleStorage` | file trees to archives and back, base directories, chart archives, local storage |
| `Conditions`, `Reconciler`, `Controller` | status conditions, one reconcile as stages, and the controller that runs it |
| `ReconcilerRuns`, `ReconcilerStatus`, `ReconcilerFixpoint`, `ReconcilerWatches`, `ReconcilerReports`, `ReconcilerErrors` | what every reconcile and every run keeps |
| `StableRelease` | admitted requests and reconciles of a ConfigMap bundle, in any order |
| `DynamicWatch`, `SoloWatch` | concurrent reconciles creating watches under one mutex, and one of them as the watch stage |

Code that works by changing things in place is a method or a class here, proved against a
function or predicate on values; the theorems are lemmas about those.

Main results:

- **RBAC meaning.** `RbacMeaning.MeaningPreserved`: by the generated objects an account may use a
  rule in a namespace exactly when the CSV lists it. It rests on names not clashing
  (`Naming.NamesDetermineDigests`), which rests on base-36 and big-endian arithmetic.
  `BundledRbac.OutputMeaning` gives the meaning of the whole output, RBAC manifests of the bundle
  included, on a cluster that keeps one object per kind, namespace and name, the last one applied.
- **Stable content.** `Admission.BundleContentIsStable`: in every run of admitted requests, while a
  bundle's source stands, any two successful unpacks return the same files.
- **Cache.** `ImageCache.RunKeepsAtMostOne`, `ServedIsFull`, `ResolvedSourceReproduces`, and
  `AlwaysFullIff` with `FullIffServed`, which say exactly which runs keep content and digest in step.
- **Reconcile.** `ReconcilerRuns.ActsOnceWhenReady`, `ReconcilerStatus.ReachableStatus`,
  `ReconcilerFixpoint.SuccessFreezesRelease` and `CleanSuccessesWriteAtMostOnce`,
  `ReconcilerReports.FailedCallIsLastAndNamed`, `ReconcilerErrors.ReconcileReturns`.
- **Stable release.** `StableRelease.ContentFreezesRelease` composes stable content with
  reconciling: while a ConfigMap bundle keeps its source, the first success freezes its release,
  whatever is requested in between.
- **Archives.** `Archive.RebuildArchive`, `BundleStorage.LoadAfterStore`, `BaseDir.BasedPresentsWrapped`,
  `ChartArchive.ChartArchive`.
- **CRDs.** `CrdUpgrade.RunKeepsValid`, `AddedVersionsAccept`, `StoredVersionsStayInSpec`.
- **Watches.** `DynamicWatch.WatchesOnce` and `NeverStuck`, over every interleaving of lock, check,
  watch, record and unlock; `SoloWatch.AloneIsWatchStage` ties them to the reconcile.

Where the code does less than one would expect, the code is followed and the exact condition is
proved:

- `generateName` can exceed the label limit by one character, exactly when base and hash together
  are 63 characters, because its guard does not count the dash (`Naming.NameLength`,
  `Naming.OverlongNameExists`).
- The target list `["", ""]` passes validation as all-namespaces but is not promoted to cluster
  scope; permissions then reach an ordinary namespace exactly when the list has one entry
  (`RbacMeaning.AllNamespacesNeedsOneTarget`). The loop that means to add a namespace-reading rule
  writes to a copy, so emitted rules are the CSV's own.
- A CRD update can break an object the validator should have looked at exactly when the schema
  changes at a version that was not served (`CrdUpgrade.BreaksExactlyWhenUnserved`). The error "could
  not find any versions in the new CRD" is never reported (`CrdUpgrade.Validate`).
- The output also holds the bundle's own RBAC manifests, after the generated objects. A generated
  object is replaced exactly when the bundle carries a manifest of the same kind, namespace and name
  (`RbacMeaning.NoOverwrites`). Without one, the cluster grants what the CSV lists, what manifests
  grant by themselves, and generated roles to whom manifests bind them
  (`BundledRbac.MeaningWithoutReplacement`). A listed grant is lost exactly when, for every permission
  that lists it, the role or the binding is replaced and nothing else grants it
  (`BundledRbac.ListedGrantLostIff`, `BundledRbac.ListedGrantLostExists`). A grant that neither the CSV
  lists nor the manifests make by themselves exists exactly when a bundled role in a generated one's
  place, or a bundled binding to a generated role, makes one (`BundledRbac.UnlistedGrantIff`,
  `BundledRbac.UnlistedGrantExists`).
- A status write and a finalizer write in one reconcile can lose the finalizers, because the answer
  to the first overwrites the object sent by the second. Where the API server answers with what it
  stores, that is exactly when finalizers were there, are to change, and the status is not settled
  (`ReconcilerFixpoint.FinalizersAfterSuccess`, `ReconcilerFixpoint.LostFinalizersExist`).
- `HasValidBundle` is only ever set to False and is never cleared (`ReconcilerStatus.RunKeepsConsistent`).
- Healthy does not imply Installed: it outlives it exactly when the bundle loads and rendering fails,
  or something later fails with the health gate off (`ReconcilerReports.WhenHealthyOutlivesInstalled`,
  `ReconcilerReports.HealthyWithoutInstalledExists`).
- `EnsureBaseDirFS` checks the cleaned base name but wraps with the name as given: content opens
  exactly when the given name is one segment, and `chart/` is accepted with nothing below the root
  that opens (`BaseDir.UsableExactlyWhenSegment`, `BaseDir.UnusableBaseExists`).
- A partial directory left by a failed unpack and a failed clean-up is served as complete, and a tag
  that moves within a call makes the reported digest wrong (`ImageCache.PartialDirectoryIsServed`,
  `ImageCache.MovedTagIsMisreported`). A call keeps the cache right exactly when it does not reach the
  removal, or a failed removal leaves only full directories and what is fetched or left over is the
  content of the digest that HEAD gave (`ImageCache.StepFullIff`); a call serves the digest it
  reports exactly when the cached directory it finds is full, or the fetch got that digest's content
  (`ImageCache.ServesItsDigestIff`).
- `docs/concepts/bundle-immutability.md` speaks of an immutable Bundle spec; the webhook in the code
  validates updates of BundleDeployments but does not forbid them, and the model follows the code.

## Model

| member | source | states |
|---|---|---|
| `Text.SplitJoin` | pkg/convert/registryv1.go:211 | splitting a joined non-empty list of separator-free parts gives the list back; used for the target annotation |
| `Paths.CleanIdempotent` | pkg/source/configmaps.go:37 | a cleaned path is a normal form |
| `Paths.JoinPathInjective` | pkg/source/configmaps.go:37-49 | a cleaned directory joined with a one-segment name determines both |
| `Naming.Base36RoundTrip` | pkg/util/hash.go:36-38 | reading base-36 text positionally gives the number back |
| `Naming.BigEndianInjective` | pkg/util/hash.go:36-37 | byte strings of one length denote different numbers |
| `Naming.DigestRange` | pkg/util/hash.go:24-38 | 28 bytes fit in 44 base-36 digits |
| `Naming.HashTextFacts` | pkg/util/hash.go:24-38 | a hash text is 1 to 44 digits and lower-case letters, without a leading zero, and determines the digest |
| `Naming.KeptBase` | pkg/convert/registryv1.go:343-345 | the truncation slice is always in range and keeps a prefix of the base |
| `Naming.NamesDetermineDigests` | pkg/convert/registryv1.go:338-348 | equal generated names come from equal digests, for any bases and truncation |
| `Naming.NameLength` | pkg/convert/registryv1.go:336-348 | truncated names are exactly 63 characters; others at most 64, and 64 iff base and hash sum to 63 |
| `Naming.OverlongNameExists` | pkg/convert/registryv1.go:343-347 | there is a base and digest whose name has 64 characters |
| `Convert.InstallNamespace` | pkg/convert/registryv1.go:175-180 | the install namespace is never empty: the requested one if given, else the suggested one if annotated, else the package name with -system |
| `Convert.TargetsAre` | pkg/convert/registryv1.go:187-193 | the targets are the requested ones; with none, every namespace if AllNamespaces is supported, else the install namespace if OwnNamespace is, else none |
| `Convert.AcceptedTargets` | pkg/convert/registryv1.go:144-165 | a target list is accepted iff a supported mode allows it: only "", one other namespace, or several without "" |
| `Convert.CollectDeployments` | pkg/convert/registryv1.go:207-228 | the deployments in order, and a service account under each name they use |
| `Convert.CollectAccounts` | pkg/convert/registryv1.go:244-254 | after all permissions, exactly the mentioned accounts are collected |
| `Convert.EmitAccounts` | pkg/convert/registryv1.go:291-297 | whatever the map order, every account but default is emitted, each once |
| `Convert.EmitNamespaced` | pkg/convert/registryv1.go:269-279 | one role and one binding per target and permission, in order; fails iff there is a target and a permission cannot be hashed |
| `Convert.EmitClusterWide` | pkg/convert/registryv1.go:281-289 | one cluster role and binding per cluster permission; fails iff one cannot be hashed |
| `Convert.EmitRbac` | pkg/convert/registryv1.go:256-289 | the RBAC section, with permissions promoted to cluster scope for the target list [""] |
| `Convert.EmitOthers` | pkg/convert/registryv1.go:318-328 | other manifests in order, namespaced ones moved to the install namespace; fails iff a kind is unsupported |
| `Convert.Convert` | pkg/convert/registryv1.go:174-334 | succeeds iff targets are accepted, no API services or webhooks are owned, permissions hash and kinds are supported; then the output, for exactly the requested or default targets, is the accounts in some order and the rest in fixed order; otherwise the error is the first thing in order that is not supported |
| `RbacMeaning.NamesDeterminePermissions` | pkg/convert/registryv1.go:272-286 | without digest collisions, permissions of one name are one permission |
| `RbacMeaning.RoleMeaning` | pkg/convert/registryv1.go:269-279 | generated roles and bindings grant a rule at a target iff a namespaced permission lists it |
| `RbacMeaning.ClusterRoleMeaning` | pkg/convert/registryv1.go:256-289 | generated cluster roles and bindings grant a rule iff a cluster-wide permission lists it |
| `RbacMeaning.MeaningPreserved` | pkg/convert/registryv1.go:239-289 | the generated objects grant an account a rule in a namespace iff the CSV asks for it; they give no other account anything |
| `RbacMeaning.GeneratedOnce` | pkg/convert/registryv1.go:269-289 | two generated RBAC objects of one kind, namespace and name are equal |
| `RbacMeaning.NoOverwrites` | pkg/convert/registryv1.go:291-328 | a generated account or RBAC object shares kind, namespace and name with a different output object iff a bundled manifest has them |
| `BundledRbac.HeldIff` | pkg/convert/registryv1.go:291-328 | a role or binding is on the cluster in the end iff it was generated and no manifest has its identity, or it is a manifest that no later one replaces |
| `BundledRbac.OutputMeaning` | pkg/convert/registryv1.go:239-328 | the cluster grants a rule iff a permission grants it by its own role and binding, both still there, or manifests do by themselves, or a bundled role in a generated one's place holds it, or a bundled binding refers to a generated role |
| `BundledRbac.MeaningWithoutReplacement` | pkg/convert/registryv1.go:239-328 | without a manifest of a generated identity: iff the CSV lists it, manifests grant it by themselves, or a bundled binding refers to a generated role |
| `BundledRbac.ListedGrantLostIff` | pkg/convert/registryv1.go:269-328 | a listed grant is lost iff the role or binding of every permission that lists it is replaced and nothing else grants it |
| `BundledRbac.ListedGrantLostExists` | pkg/convert/registryv1.go:269-328 | a bundle whose empty cluster role takes away what the CSV lists |
| `BundledRbac.UnlistedGrantIff` | pkg/convert/registryv1.go:269-328 | a grant neither listed nor made by manifests alone exists iff a manifest and a permission make one together |
| `BundledRbac.UnlistedGrantExists` | pkg/convert/registryv1.go:318-328 | a bundle whose manifest gives a guest account what the CSV asks for its own account only |
| `RbacMeaning.AllNamespacesNeedsOneTarget` | pkg/convert/registryv1.go:147-151 | with only "" as target, generated objects grant a permission in an ordinary namespace iff the list has one entry |
| `RbacMeaning.RepeatedEmptyTargetAccepted` | pkg/convert/registryv1.go:257 | the list ["", ""] is accepted and not promoted |
| `RbacMeaning.AccountsEmitted` | pkg/convert/registryv1.go:207-297 | an account other than default is generated exactly once if a generated binding or a deployment names it, else not at all |
| `RbacMeaning.BindingsCarried` | pkg/convert/registryv1.go:269-289 | each binding binds the account its permission names, or default, in the install namespace; each permission has its binding |
| `RbacMeaning.CRDsCarried` | pkg/convert/registryv1.go:313-316 | the CRDs of the output are the bundle's |
| `RbacMeaning.ObjectCount` | pkg/convert/registryv1.go:291-333 | the number of objects in closed form, per mode |
| `RbacMeaning.OutputUniqueUpToOrder` | pkg/convert/registryv1.go:292-297 | two conversions of one bundle give the same multiset of objects |
| `RbacMeaning.TargetsAnnotated` | pkg/convert/registryv1.go:210-211 | splitting a deployment's olm.targetNamespaces annotation gives the target list back |
| `RbacMeaning.DeploymentsCarried` | pkg/convert/registryv1.go:209-228 | emitted deployments are the bundle's, in the install namespace, template annotations overriding the CSV's |
| `RbacMeaning.OthersCarried` | pkg/convert/registryv1.go:318-328 | every other manifest is emitted unchanged but for the namespace of namespaced kinds |
| `ConfigMapSource.AddAll` | pkg/source/configmaps.go:48-63 | whatever the map order, exactly the map's files and their owners are recorded |
| `ConfigMapSource.CollectAll` | pkg/source/configmaps.go:35-64 | all files of all references are recorded iff every ConfigMap is there |
| `ConfigMapSource.CollectDuplicates` | pkg/source/configmaps.go:66-75 | the reported paths are those seen from more than one ConfigMap |
| `ConfigMapSource.Unpack` | pkg/source/configmaps.go:22-84 | succeeds iff the type and references are set, every ConfigMap exists and no path has two owners; the files are the contributed ones, and an error names a missing ConfigMap or exactly the paths with two owners |
| `ConfigMapSource.OneContentPerPath` | pkg/source/configmaps.go:48-57 | with valid keys and no clash, a path has one content however often it is contributed |
| `ConfigMapSource.UnpackDetermined` | pkg/source/configmaps.go:30-83 | the files are exactly the union, whatever the order of references and of map iteration |
| `Admission.ValidateConfigMapCreate` | internal/webhook/configmaps.go:24-52 | creation is admitted iff the ConfigMap is immutable or no configMaps bundle names it; the referrers are exactly such bundles |
| `Admission.ValidateConfigMapDelete` | internal/webhook/configmaps.go:58-73 | deletion is admitted iff no bundle lists the ConfigMap |
| `Admission.CheckBundleDeploymentSource` | internal/webhook/bundledeployment.go:61-104 | the answer for each type: an image is set; a git directory is set and inside; references are listed, inside, readable and to immutable ConfigMaps where those exist; any other type passes. Errors name exactly the bad references |
| `Admission.BundleEffects` | internal/webhook/bundledeployment.go:45-59 | a new bundle or source takes effect iff its source is admitted, a deletion always |
| `Admission.ConfigMapEffects` | internal/webhook/configmaps.go:24-73 | a valid new ConfigMap, an update or a deletion takes effect iff the webhook and the immutability rule let it |
| `Admission.StepKeepsSound` | internal/webhook/configmaps.go:24-73 | one request keeps every existing referenced ConfigMap immutable |
| `Admission.RunKeepsSound` | internal/webhook/bundledeployment.go:45-104 | so does every run |
| `Admission.StepPinsConfigMap` | internal/webhook/configmaps.go:54-73 | no request deletes or alters a ConfigMap that a configMaps bundle names |
| `Admission.RunPinsConfigMap` | internal/webhook/configmaps.go:54-73 | nor does any run during which the bundle keeps its source |
| `Admission.BundleContentIsStable` | pkg/source/configmaps.go:39-46 | a bundle that could be unpacked still can, and any two successful unpacks return the same files |
| `ImageCache.ImageRegistry.UnpackImage` | pkg/source/image_registry.go:165-196 | layers are applied in order; success means the directory holds all of them |
| `ImageCache.ImageRegistry.Cleanup` | pkg/source/image_registry.go:143-145 | the bundle's directories go, or what a failed removal leaves stays |
| `ImageCache.ImageRegistry.FetchInto` | pkg/source/image_registry.go:112-127 | the directory is created and filled, or removed again on failure |
| `ImageCache.ImageRegistry.Unpack` | pkg/source/image_registry.go:35-134 | the new cache and the result are those of the specified step, and it succeeds iff the image is set, parses and is authorised and a pinned directory, the directory of the digest from HEAD, or a whole fetch is there |
| `ImageCache.FailureIs` | pkg/source/image_registry.go:35-127 | a failure names the first thing in order that did not work |
| `ImageCache.UnmovedTagIsServedAgain` | pkg/source/image_registry.go:98-133 | a tag unpacked again where it was gives the same directory and source, and leaves the cache alone |
| `ImageCache.ResolvedSourceIs` | pkg/source/image_registry.go:88-161 | the resolved source is the pinned one as it was, or the repository at the digest from HEAD, options unchanged |
| `ImageCache.AdmittedHasImage` | internal/webhook/bundledeployment.go:63-66 | an image source is admitted iff no unpack of it fails for want of an image |
| `ImageCache.RunKeepsAtMostOne` | pkg/source/image_registry.go:105-127 | in every run, whatever fails, no bundle has two digest directories |
| `ImageCache.RunKeepsFull` | pkg/source/image_registry.go:106-130 | in every faithful run each cached directory is its digest's full content |
| `ImageCache.ServedIsFull` | pkg/source/image_registry.go:88-134 | a served directory is the full content of the digest in the resolved source, which stays cached |
| `ImageCache.ResolvedSourceReproduces` | pkg/source/image_registry.go:88-96 | unpacking a resolved source later, while cached, gives the same directory and source without the registry |
| `ImageCache.PinnedIsNeverEvicted` | pkg/source/image_registry.go:88-96 | a bundle that only unpacks a pinned cached source keeps its directory in every run |
| `ImageCache.StepFullIff` | pkg/source/image_registry.go:99-127 | from a cache of full directories, a call leaves one iff it does not reach the removal or what it leaves is its digest's content |
| `ImageCache.AlwaysFullIff` | pkg/source/image_registry.go:88-145 | over a whole run, every directory stays full iff every event is harmless where it happens |
| `ImageCache.ServesItsDigestIff` | pkg/source/image_registry.go:88-133 | from any cache, a success serves the content of the digest it reports iff the directory found is full, or the fetch got that content |
| `ImageCache.FullIffServed` | pkg/source/image_registry.go:88-133 | the cache is full iff every call answered from it serves the digest it reports |
| `ImageCache.MovedTagIsMisreported` | pkg/source/image_registry.go:99-131 | a tag that moves between HEAD and fetch: old digest reported and cached with the new content |
| `ImageCache.PartialDirectoryIsServed` | pkg/source/image_registry.go:116-127 | a partial directory left behind is served as if complete |
| `CrdUpgrade.ValidateExistingCRs` | internal/crd/crd.go:138-160 | succeeds iff the objects can be listed and all satisfy the schema |
| `CrdUpgrade.ValidateChanges` | internal/crd/crd.go:94-114 | succeeds iff objects at every served version with a changed schema satisfy the new one |
| `CrdUpgrade.ValidateAdditions` | internal/crd/crd.go:118-133 | succeeds iff objects at every served common version satisfy every added schema |
| `CrdUpgrade.ValidateCompatibility` | internal/crd/crd.go:76-136 | the whole compatibility check, as one condition |
| `CrdUpgrade.CompareStored` | internal/crd/crd.go:165-185 | the decision on possibly nil sets, with its error |
| `CrdUpgrade.GetStoredVersions` | internal/crd/crd.go:189-196 | the two sets, neither ever nil |
| `CrdUpgrade.SafeStorageVersionUpgrade` | internal/crd/crd.go:165-185 | safe iff every stored version is a version of the new CRD; the nil branches are not reached |
| `CrdUpgrade.Validate` | internal/crd/crd.go:37-64 | a new CRD passes; an existing one passes iff compatible and storage-safe, where a storage-safe one is refused iff some object at a served version that stays fails a schema it must meet, or cannot be listed; no-versions is never reported, nor data loss where stored versions are in the spec |
| `CrdUpgrade.RefusedIff` | internal/crd/crd.go:94-133 | the same over objects: the schemas to meet are the changed one of the version and, without a webhook, those of added versions |
| `CrdUpgrade.WebhookUpdatePasses` | internal/crd/crd.go:116-133 | an update with a conversion webhook that keeps stored versions and served schemas passes whatever objects there are |
| `CrdUpgrade.StoredAre` | internal/crd/crd.go:162-196 | a stored CRD lists the versions stored so far and those the spec stores at |
| `CrdUpgrade.SecondCheckSubsumesFirst` | internal/crd/crd.go:87-92 | the second storage check implies the first, and equals it where stored versions are in the spec |
| `CrdUpgrade.StoredVersionsStayInSpec` | internal/crd/crd.go:162-196 | in every run from creation, stored versions are in the spec and the two checks agree |
| `CrdUpgrade.RunKeepsValid` | internal/crd/crd.go:94-114 | through every run, an unchanged object valid at a served version stays valid there |
| `CrdUpgrade.AddedVersionsAccept` | internal/crd/crd.go:116-133 | without conversion, objects at served common versions are valid at added versions and stay so |
| `CrdUpgrade.BreaksExactlyWhenUnserved` | internal/crd/crd.go:105-107 | an admitted update can break an object iff the schema changed at an unserved version |
| `Archive.Walk` | pkg/util/tar.go:19-56 | the walk writes one entry per non-link node in order, and fails iff something is unreadable |
| `Archive.FSToTarGZ` | pkg/util/tar.go:16-63 | the archive of the tree, or failure iff something in it is unreadable |
| `Archive.RebuildArchive` | pkg/util/tar.go:16-63 | rebuilding the archive gives the tree without its symbolic links |
| `Archive.ArchiveByPath` | pkg/util/tar.go:19-56 | the archive holds exactly the files and directories of the tree, under their paths, with mode and data |
| `Archive.PrunedByPath` | pkg/util/tar.go:24-26 | pruning by path: links are gone, all else is as it was |
| `Archive.ReadableByPath` | pkg/util/tar.go:19-56 | a tree can be archived iff nothing at any path in it is broken |
| `Archive.ArchiveShape` | pkg/util/tar.go:19-47 | root first, each path once, parents before children |
| `Archive.PrunedItems` | pkg/util/tar.go:24-26 | links leave no trace: the pruned tree has the same entries |
| `BaseDir.EnsuresSingleDirectory` | pkg/util/fs.go:54-67 | the result shows exactly one directory in its root and ensuring it again changes nothing |
| `BaseDir.MultipleSegmentsRefused` | pkg/util/fs.go:55-58 | a base of two segments is refused |
| `BaseDir.BasedPresentsWrapped` | pkg/util/fs.go:69-90 | path translation shows, at every valid name, the tree below the base directory |
| `BaseDir.TranslatedNames` | pkg/util/fs.go:74-90 | any name below the base opens the rest of the name, the base opens the root, nothing else opens |
| `BaseDir.UsableExactlyWhenSegment` | pkg/util/fs.go:55-66 | content opens through an accepted wrapper iff the base name as given is one segment |
| `BaseDir.TrailingSlashLosesContent` | pkg/util/fs.go:55-90 | a segment with a slash after it is accepted, is listed in the root, and nothing below the root opens |
| `BaseDir.DotHidesContent` | pkg/util/fs.go:55-90 | the name . is accepted and the root is empty |
| `BaseDir.UnusableBaseExists` | pkg/util/fs.go:55-90 | an empty bundle with base chart/ is such a case |
| `BaseDir.WrappedArchive` | pkg/util/fs.go:74-90 | the archive of a wrapped tree is the original's with every path prefixed |
| `ChartArchive.ArchiveView` | pkg/util/tar.go:16-63 | walking any filesystem view by listing and opening gives the archive of the tree it presents, or none iff something in it is unreadable |
| `ChartArchive.ChartArchive` | pkg/provisioner/helm/helm.go:29-72 | the chart loader gets the bundle's archive if its root is one directory, else that archive with every path moved under the base |
| `BundleStorage.LocalDirectory.Load` | pkg/storage/localdir.go:31-42 | what rebuilding the owner's complete file gives, else an error |
| `BundleStorage.LocalDirectory.Store` | pkg/storage/localdir.go:44-60 | the new files, and success iff conversion, creation and copy succeed |
| `BundleStorage.LocalDirectory.Delete` | pkg/storage/localdir.go:62-64 | the file is gone, and a missing file is no error |
| `BundleStorage.LocalDirectory.URLFor` | pkg/storage/localdir.go:71-73 | the content URL is the base URL with the name of the owner's file |
| `BundleStorage.URLsApart` | pkg/storage/localdir.go:71-81 | different owners have different URLs |
| `BundleStorage.FilesApart` | pkg/storage/localdir.go:75-81 | different owners have different files |
| `BundleStorage.LoadAfterStore` | pkg/storage/storage.go:40-46 | after a Store and any operations of others, Load returns the pruned tree and the fallback is not consulted |
| `BundleStorage.FailedStore` | pkg/storage/localdir.go:44-60 | a failed conversion or creation keeps the stored bundle; a failed copy loses it |
| `BundleStorage.FailedDelete` | pkg/storage/localdir.go:62-64 | a failed deletion keeps the bundle, one of a missing file changes nothing |
| `BundleStorage.StoreLoaded` | pkg/storage/localdir.go:31-60 | storing what was loaded writes the same file |
| `BundleStorage.LoadAfterDelete` | pkg/storage/storage.go:40-46 | after Delete the fallback answers |
| `Conditions.FindSet` | internal/controllers/bundledeployment/bundledeployment.go:464-482 | a set condition is seen under its kind and nowhere else, with the time its status last changed |
| `Conditions.SetAgain` | internal/controllers/bundledeployment/bundledeployment.go:436-441 | saying again what is said changes nothing, not even the time |
| `Conditions.SetKeepsOnce` | internal/controllers/bundledeployment/bundledeployment.go:595-638 | each kind of condition appears at most once |
| `Controller.Controller.SetInstalledAndHealthyFalse` | internal/controllers/bundledeployment/bundledeployment.go:464-482 | Installed becomes False, and Healthy too if the gate is on |
| `Controller.Controller.FinalizeBundle` | internal/controllers/bundledeployment/bundledeployment.go:258-272 | does what the finalize stage says |
| `Controller.Controller.UnpackBundle` | internal/controllers/bundledeployment/bundledeployment.go:274-299 | does what the unpack stage says |
| `Controller.Controller.LoadBundle` | internal/controllers/bundledeployment/bundledeployment.go:301-327 | does what the load and render stage says |
| `Controller.Controller.GetReleaseState` | internal/controllers/bundledeployment/bundledeployment.go:493-522 | the class of the release; the error state comes exactly with an error |
| `Controller.Controller.RunPreflights` | internal/controllers/bundledeployment/bundledeployment.go:342-357 | every preflight runs in order until one fails |
| `Controller.Controller.Act` | internal/controllers/bundledeployment/bundledeployment.go:359-391 | installs, upgrades or reconciles, by class |
| `Controller.Controller.WatchObjects` | internal/controllers/bundledeployment/bundledeployment.go:393-435 | parses the manifest and watches its kinds, as the manifest stage says |
| `Controller.Controller.WatchAll` | internal/controllers/bundledeployment/bundledeployment.go:399-435 | objects are handled in order until one fails |
| `Controller.Controller.WatchObject` | internal/controllers/bundledeployment/bundledeployment.go:399-435 | an object is decoded and its kind watched unless watched already |
| `Controller.Controller.SetFinalConditions` | internal/controllers/bundledeployment/bundledeployment.go:436-461 | sets Installed, then Healthy if the gate is on |
| `Controller.Controller.ReconcileCopy` | internal/controllers/bundledeployment/bundledeployment.go:257-462 | the stages in order on the working copy |
| `Controller.Controller.ReconcileBundleDeployment` | internal/controllers/bundledeployment/bundledeployment.go:216-251 | the stored object changes only where its writes are needed and succeed |
| `ReconcilerErrors.InnerReturns` | internal/controllers/bundledeployment/bundledeployment.go:257-462 | the inner reconcile returns the message of the first outcome that failed, in the order of the calls |
| `ReconcilerErrors.ReconcileReturns` | internal/controllers/bundledeployment/bundledeployment.go:224-250 | no error iff it waits or completes and no write it made was refused; otherwise the first failure, together with a refused write |
| `ReconcilerErrors.ReleaseIs` | internal/controllers/bundledeployment/bundledeployment.go:359-391 | the release changes only by a reconcile that gets to install or upgrade it, and then is the deployed manifest or what the failure left |
| `ReconcilerReports.UnpackIsRecorded` | internal/controllers/bundledeployment/bundledeployment.go:258-299 | whatever comes after, the status says how unpacking went: source, URL and message, or neither and why |
| `ReconcilerErrors.StatusIsStored` | internal/controllers/bundledeployment/bundledeployment.go:229-248 | a changed status is written, and stored unless refused; after a refusal nothing else is written |
| `ReconcilerRuns.ActsOnceWhenReady` | internal/controllers/bundledeployment/bundledeployment.go:274-391 | an install, upgrade or reconcile comes only after exactly the calls that make it ready all succeeded, and only once |
| `ReconcilerRuns.StateErrorUnreachable` | internal/controllers/bundledeployment/bundledeployment.go:389-391 | the unexpected-state error is never returned |
| `ReconcilerStatus.InnerKeeps` | internal/controllers/bundledeployment/bundledeployment.go:257-462 | one reconcile keeps the status consistent and observes the generation |
| `ReconcilerStatus.RunKeepsConsistent` | internal/controllers/bundledeployment/bundledeployment.go:216-299 | so does every run, with writes failing or not; HasValidBundle once set stays and is never True |
| `ReconcilerStatus.ReachableStatus` | internal/controllers/bundledeployment/bundledeployment.go:595-638 | from the empty status, Unpacked is True iff there is a content URL iff there is a resolved source; the observed generation never runs ahead |
| `ReconcilerFixpoint.SettledReleaseStays` | internal/controllers/bundledeployment/bundledeployment.go:493-522 | a settled release is not changed by any reconcile, failing or not |
| `ReconcilerFixpoint.SuccessSettles` | internal/controllers/bundledeployment/bundledeployment.go:336-461 | a success leaves the desired manifest deployed, every kind watched and the status saying so |
| `ReconcilerFixpoint.SuccessFreezesRelease` | internal/controllers/bundledeployment/bundledeployment.go:359-388 | after a success no call of any further run installs or upgrades |
| `ReconcilerFixpoint.SettledIsFixed` | internal/controllers/bundledeployment/bundledeployment.go:226-250 | from a settled world a success changes at most the finalizers |
| `ReconcilerFixpoint.CleanSuccessesWriteAtMostOnce` | internal/controllers/bundledeployment/bundledeployment.go:226-250 | from any world, after the first clean success, any list of them writes no status and the finalizers at most once |
| `ReconcilerFixpoint.FinalizersAfterSuccess` | internal/controllers/bundledeployment/bundledeployment.go:229-248 | a clean success has its finalizers iff they were right, the status was settled or the answer to the status write brings them; where answers carry what is stored, iff they were right, none were there or the status was settled |
| `ReconcilerFixpoint.LostFinalizersExist` | internal/controllers/bundledeployment/bundledeployment.go:234-248 | a clean success that leaves the wrong finalizers |
| `ReconcilerWatches.InstalledMeansWatched` | internal/controllers/bundledeployment/bundledeployment.go:393-441 | a reconcile drops no watch and turns Installed True only with every kind of the manifest watched |
| `ReconcilerWatches.WatchedIsCalled` | internal/controllers/bundledeployment/bundledeployment.go:399-435 | a kind is newly watched iff one successful call of this reconcile watched it, and none is watched twice |
| `ReconcilerReports.ErrorsAreShown` | internal/controllers/bundledeployment/bundledeployment.go:257-462 | every outside error is carried by the condition that stands for the last call, which is not True |
| `ReconcilerReports.WhenHealthyOutlivesInstalled` | internal/controllers/bundledeployment/bundledeployment.go:312-321 | a reconcile leaves Healthy True without Installed iff Healthy was True, the bundle loads, and rendering fails or, with the gate off, one of the later calls fails |
| `ReconcilerReports.RenderFailureAfterSuccess` | internal/controllers/bundledeployment/bundledeployment.go:312-321 | after a clean success with the gate on, a failure to render leaves Healthy True and Installed not |
| `ReconcilerReports.HealthyWithoutInstalledExists` | internal/controllers/bundledeployment/bundledeployment.go:312-321 | two reconciles of a new BundleDeployment that end so |
| `ReconcilerReports.FailedCallIsLastAndNamed` | internal/controllers/bundledeployment/bundledeployment.go:257-462 | no call follows a failed one, and a condition's reason names the call that failed |
| `StableRelease.ContentFreezesRelease` | internal/controllers/bundledeployment/bundledeployment.go:274-388 | while a ConfigMap bundle keeps its source, after a success no reconcile installs or upgrades, whatever requests and failures come in between |
| `DynamicWatch.PendingHeld` | internal/controllers/bundledeployment/bundledeployment.go:407-431 | a kind watched but not recorded is in the hands of the mutex holder |
| `DynamicWatch.StepKeepsInv` | internal/controllers/bundledeployment/bundledeployment.go:407-431 | each step of any thread keeps the invariant and the recorded set |
| `DynamicWatch.WatchesOnce` | internal/controllers/bundledeployment/bundledeployment.go:399-441 | in every interleaving each kind is watched at most once, recorded equals watched when unlocked, and installed threads have all kinds recorded |
| `DynamicWatch.RecordedOnlyGrows` | internal/controllers/bundledeployment/bundledeployment.go:407-431 | the recorded set never shrinks |
| `DynamicWatch.WatchesAreCalls` | internal/controllers/bundledeployment/bundledeployment.go:410-426 | the log holds the successful Watch calls, in order |
| `DynamicWatch.NeverStuck` | internal/controllers/bundledeployment/bundledeployment.go:399-435 | in every interleaving, while a thread has not ended some such thread can take a step |
| `SoloWatch.AloneIsWatchStage` | internal/controllers/bundledeployment/bundledeployment.go:399-435 | a thread that finds the mutex free and runs alone ends, and does what the watch stage of a reconcile does |

## Left out

- Git, HTTP and pod-based image sources: network and library calls; a reconcile sees them as unpack outcomes.
- The mains, manager set-up, HTTP serving, logging and the event mappers: wiring.
- `isResourceNotFoundErr`, and the wrapping of not-found errors it triggers: it only rewords an error message.
- `postrenderer.Run`: adding two labels to each rendered object; its output is part of the manifest here.
- The panic in `Reconcile` when spec or metadata changed: the model's reconcile has no access to them.
- Reads of a stale cached BundleDeployment: every reconcile reads the stored object; the conflict such a read leads to is covered by refused writes.
- Admission races: each admission check and the write it guards is one step, and only ConfigMaps of the system namespace are in the state, as the webhook's namespace selector has it.
- Process crashes in the middle of an unpack or a store.
- The panic of the image source on a bundle of another type: the unpacker dispatches by type.
- Users and groups as subjects of bundled bindings, and aggregated cluster roles: only service accounts and plain rules have a meaning here.
- Helm's ordering of objects by kind: the output is applied in its own order, which is the order among objects of one kind.
- Helm's chart loader and the values of a bundle deployment: the model ends at the archive the loader is given.
- Keychains, TLS options and certificate pools of the image source: one authentication outcome.
- Manifest, YAML and JSON encodings, tar and gzip encodings: parsing a manifest into kinds is a function of its text, and archives are lists of entries.
- Reading a bundle directory into CSV, CRDs and other manifests (`RegistryV1ToPlain` before and after `Convert`): decoding only.
- File owners, groups and modification times in archives: owners and groups are unset by the writer, times are copied.
- Path-escape checks beyond the prefix test of the webhook.
- `Naming.HashTextFacts`: the hash function is not modelled; that distinct permissions have distinct digests is the assumption `CollisionFree` where it is needed.
- `Controller.Controller.WatchObjects`: one controller's own sequence; the mutex and interleavings are in `DynamicWatch`, tied to it by `SoloWatch`.
