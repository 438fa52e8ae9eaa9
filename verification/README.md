# Verification of the Cloud Storage FUSE CSI driver

A Dafny 4.11 model of the driver's decision logic, with proofs about every input, every run and every
interleaving. `dafny verify dfyconfig.toml` checks all of it.

The modules follow the driver's components.

- Metrics export: `MetricsText`, `LineWriter`, `MetricsEncoder` and `MetricsRoundTrip` model the streamed text,
  the writer that drops a line, the encoder and a strict Prometheus text reader. `MetricsPaths` and
  `MetricsAgreement` compare the in-place path with the registry path. `CollectorRegistry` is the manager.
- Node server: `NodeLifecycle` has publish, unpublish, stage and unstage calls as interleaved atomic steps over
  locks, the volume state store, its counter and once-only monitors, with driver restarts. `NodeInvariants`,
  `NodeMonitors`, `NodeCounter` and `NodeAccess` prove what every run keeps, `NodeCycle` what the calls get done
  from every reachable state. `NodeAssumptions` shows runs that break the theorems when the caller's guarantees
  are dropped.
- Sidecar: `Readiness` is the status pipe, the ready file and the startup probe. `MountArgs` and `ConfigTree`
  turn options into flags and a nested config.
- Mount options: `MountOptions`, `VolumeAttributes` and `FuseOptions` merge, translate and partition them.
- Profiles: `ScanWorker` and `PodGate` are the scanner and the runs of its one worker; `CacheBudget` and `RecommendMerge` the recommender.
- Routing: `RouteTable` allocates table ids; `SourceRouting` adds rules and routes.
- `GoStrings` and `SortedStrings` hold the string operations the components share.

Results that differ from what one would expect at first sight:

- The exported text does not always read back: a family called like a series of another one (`x_count` beside
  a summary `x`) confuses every Prometheus reader. `ExportReadsBackIff` gives the exact condition.
- The two export paths differ for a metric that repeats a bucket bound or quantile (`RepeatedBoundExample`).
  `PathsAgree` gives the exact condition for every metric. The text parser already rejects repeated label
  names and never yields nil points, so for scraped families only repeated bounds and names the client library
  refuses, such as reserved ones, matter.
- A device name with white space never finds its table line again, so its table grows on each call.
- An unknown cache medium makes cache-dir the relative path `.volumes/<volume>` in a sidecar and empty in a
  shared mount. `CacheDirProperIff` gives the exact condition.
- `mibToBytes` and `bytesToMiB` are not inverse below -1.
- The config keys of the log file and format are not protected, only their command line spellings; the model
  follows the code.
- After exit handling of a mount that had reported success the ready file is absent if and only if it could
  not be written, or the mount has a volume directory and the removal succeeds (`AbsentAfterReturn`).
- The monitor and counter theorems need staging paths that are never target paths, and the monitor theorems
  for staging paths also the CSI ordering of unstage after unpublish. `NodeAssumptions` has the runs that show
  it. Lock exclusion and the access check need neither.

Answers of the Kubernetes and storage APIs, clock readings, mount results, failures of network operations and
iteration orders of Go maps are parameters or nondeterministic choices.

## Model

| member | source | states |
|---|---|---|
| LineWriter.KeptConcat | pkg/metrics/metrics.go:327-352 | what passes the line-dropping writer does not depend on where the bytes are cut into writes |
| LineWriter.SkipFirstLineWriter.Write | pkg/metrics/metrics.go:334-352 | one write passes exactly what must pass, as far as the sink takes it, reports the bytes consumed and success exactly when all of it was taken, and keeps or clears the skip state as the newline rule says |
| LineWriter.SkipFirstLineWriter.WriteInChunks | pkg/metrics/metrics.go:334-352 | for every chunking of the encoder's bytes the sink holds the same text, cut at its limit, and success is reported exactly when it fits |
| MetricsEncoder.KeptBare | pkg/metrics/metrics.go:374-402 | told to skip, the writer turns a declared family without HELP into exactly its sample lines |
| MetricsEncoder.FamilyEncoder.Encode | pkg/metrics/metrics.go:374-402 | after any sequence of encoded families the sink holds the reference text of that sequence, cut at its limit; success exactly when it fits |
| MetricsEncoder.VisitsEachOnce | pkg/metrics/metrics.go:273-276 | from any random start a full round visits every mount exactly once |
| MetricsEncoder.EncodeMount | pkg/metrics/metrics.go:675-689 | the families of one mount are added in order; success exactly when the sink takes them all |
| MetricsEncoder.EncodeCollectorsSequentially | pkg/metrics/metrics.go:263-296 | whatever scrapes fail, the response is the reference text of exactly the mounts within the time budget, at least one, cut where the sink failed |
| MetricsEncoder.ExportPrefix | pkg/metrics/metrics.go:374-402 | encoding more families only extends the text |
| MetricsText.ExpectedMeaning | pkg/metrics/metrics.go:374-402 | the recovered family has the first type and help seen, and the samples, each with its suffix and text, of all mounts of that type in visit order |
| MetricsText.NoSampleLost | pkg/metrics/metrics.go:374-402 | every sample of every mount's family that agrees with the first in name and type is recovered |
| MetricsText.ExpectedAbsent | pkg/metrics/metrics.go:374-402 | a name no mount exports is not recovered |
| MetricsRoundTrip.ReadDoc | vendor/github.com/prometheus/common/expfmt/text_parse.go:553-566 | a written help text is read back without its leading blanks, and a blank one is lost |
| MetricsRoundTrip.StripsOnlyBlanks | vendor/github.com/prometheus/common/expfmt/text_parse.go:597-604 | leading blanks and tabs are stripped, and nothing else |
| MetricsRoundTrip.ReadSample | vendor/github.com/prometheus/common/expfmt/text_parse.go:802-841 | a written sample is read back with its own suffix and text into its family, unless a family is called like its series: then it goes there as a bare sample |
| MetricsRoundTrip.StrictReader | vendor/github.com/prometheus/common/expfmt/text_parse.go:553-586 | the reader refuses a second HELP or TYPE, an unknown type and a line that is neither comment nor sample |
| MetricsRoundTrip.ReadDeclaration | vendor/github.com/prometheus/common/expfmt/text_parse.go:553-586 | a strict reader accepts the HELP and TYPE lines of a new name exactly when no declared family has a series of that name, and then holds the help text and the type |
| MetricsRoundTrip.ReadsBack | pkg/metrics/metrics.go:327-402 | without a name collision a strict reader recovers every family in full and in order |
| MetricsRoundTrip.LosesLine | pkg/metrics/metrics.go:327-402 | with a collision reading fails or some family lacks one of its lines |
| MetricsRoundTrip.ExportReadsBackIff | pkg/metrics/metrics.go:327-402 | for every sequence of well-formed families, the exported text reads back as the intended families with all their samples if and only if no written name is a series name of another written family |
| MetricsRoundTrip.CollisionExample | pkg/metrics/metrics.go:374-402 | a summary and a counter called like its count series: the text does not read back as intended |
| MetricsEncoder.SequentialMetrics | pkg/metrics/metrics.go:263-296 | the whole response, over all chunkings, starts, budgets, failures of scrapes and of the sink; in full it reads back as the visited mounts' families if and only if their names do not collide |
| MetricsPaths.PointsAgree | pkg/metrics/metrics.go:883-901 | the quantile or bucket map agrees with the list it was built from exactly when no point is nil and no bound repeats |
| MetricsPaths.SortedPairsAt | pkg/metrics/metrics.go:645-652 | sorted label pairs are exactly the pairs of the label map |
| MetricsPaths.VariableCount | pkg/metrics/metrics.go:858-869 | each pair whose name no constant label takes comes out as often as it was given, and no other pair |
| MetricsPaths.VariableConcat | pkg/metrics/metrics.go:858-869 | in the given order: the labels of two lists are those of the first followed by those of the second |
| MetricsPaths.WithValueCount | pkg/metrics/metrics.go:792-812 | exactly the metrics that have a value of the family's type are kept, each as often as it was given |
| MetricsPaths.WithValueConcat | pkg/metrics/metrics.go:792-812 | ... and in the given order |
| MetricsPaths.PlainSchema | pkg/metrics/metrics.go:772-786 | a family that is not gRPC's carries the collector's own labels, and the volume prefix exactly under the volume schema |
| MetricsPaths.GrpcSchema | pkg/metrics/metrics.go:772-786 | a gRPC family has no prefix, and under the volume schema the four pod labels with an empty pod_uid |
| MetricsPaths.BareDecides | pkg/metrics/metrics.go:772-786 | a prefixed name is treated like the name without its prefix |
| MetricsPaths.LatencyName | pkg/metrics/metrics.go:454-486 | the one family that is called differently under the two schemas |
| MetricsPaths.ResolveOk | pkg/metrics/metrics.go:772-786 | the precomputed label pairs of every collector belong to the labels they stand for, also for gRPC families |
| MetricsPaths.RollbackOfVolumeSchema | pkg/metrics/metrics.go:441-486 | switching to the volume schema and back changes exactly the gRPC names that are prefixed twice |
| MetricsPaths.VolumeSchemaOfPodName | pkg/metrics/metrics.go:454-486 | a name of the pod schema normalizes to the volume schema's name exactly when it is not prefixed twice |
| MetricsAgreement.TransformLabels | pkg/metrics/metrics.go:838-848 | each given pair that no constant label replaces, as often as it was given and in order, followed by the constant pairs |
| MetricsAgreement.TransformMetricFamily | pkg/metrics/metrics.go:814-856 | the family is kept exactly when it has samples to export; then its metrics are those with a value, in order, changed in nothing but labels and timestamp, and the encoder writes exactly the wanted samples |
| MetricsAgreement.FilterVariableLabels | pkg/metrics/metrics.go:858-869 | each given pair that no constant label replaces, as often as it was given, as the in-place path keeps them |
| MetricsAgreement.MatchesLabelNames | pkg/metrics/metrics.go:871-881 | true exactly when the cached names are the metric's names in order |
| MetricsAgreement.DescAccepts | vendor/github.com/prometheus/client_golang/prometheus/desc.go:94-170 | the library's descriptor is good exactly when all names are valid and the variable label names are distinct |
| MetricsAgreement.ConstMetricIs | pkg/metrics/metrics.go:903-963 | a constant metric built from a descriptor with the metric's own names carries the metric's own label pairs |
| MetricsAgreement.EmitMetricFamily | pkg/metrics/metrics.go:923-963 | every accepted metric is emitted once, in order, and the cached descriptor never pairs a value with another label name |
| MetricsAgreement.ValuesAgree | pkg/metrics/metrics.go:792-812 | both paths read the same value exactly when the distribution is clean |
| MetricsAgreement.ReadValueLossless | pkg/metrics/metrics.go:903-920 | no value is lost: metrics that read the same have the same number, or the same count, sum and points |
| MetricsAgreement.PathsAgree | pkg/metrics/metrics.go:814-963 | the two export paths agree if and only if every metric with a value has valid, distinct label names and clean points |
| MetricsAgreement.RepeatedBoundExample | pkg/metrics/metrics.go:883-901 | a histogram that repeats a bucket bound comes out differently on the two paths, for every library and schema |
| Readiness.ReadMountOutcome | pkg/sidecar_mounter/startup_probe.go:53-71 | success exactly when the first message that is not a retried failure is a success; decode error and end of file likewise |
| Readiness.InvRun | pkg/sidecar_mounter/sidecar_mounter.go:146-172 | what every reachable state of the watcher, the waiter and the ready file keeps |
| Readiness.ReadyOnlyWhileMounted | pkg/sidecar_mounter/startup_probe.go:73-90 | in every interleaving the ready file exists only after a reported success and before exit handling removed it |
| Readiness.AbsentAfterReturn | pkg/sidecar_mounter/sidecar_mounter.go:312-319 | once exit handling returned the run is over, and the file is absent if and only if the messages read are no success, the write fails, or the mount has a volume directory and removal works |
| Readiness.ReadyFileLeftBehind | pkg/sidecar_mounter/startup_probe.go:109-117 | for every configuration without a volume directory or with a failing removal, a reachable end with gcsfuse gone and the ready file present |
| Readiness.ReturnedIsFinal | pkg/sidecar_mounter/sidecar_mounter.go:312-319 | exit handling returns last: nobody is left to touch the file |
| Readiness.NeverStuck | pkg/sidecar_mounter/sidecar_mounter.go:146-172 | once gcsfuse has exited no reachable state short of the end is stuck |
| Readiness.ExitIsHandled | pkg/sidecar_mounter/sidecar_mounter.go:312-319 | every run that cannot go on after the exit has finished exit handling, within a bounded number of steps |
| Readiness.FinishedOutcome | pkg/sidecar_mounter/startup_probe.go:73-90 | a finished watcher tried to write the ready file exactly when the reported messages amount to success |
| Readiness.OpenWriteEndBlocks | pkg/sidecar_mounter/sidecar_mounter.go:146-172 | with the parent's write end still open the watcher and the waiter are stuck |
| Readiness.CheckStartupProbe | pkg/sidecar_mounter/startup_probe.go:119-159 | a missing directory passes, another listing error is reported, otherwise the probe passes exactly when every volume directory holds a ready file, and lists the others with their reasons in order |
| Readiness.NotReadyEmpty | pkg/sidecar_mounter/startup_probe.go:119-159 | nothing is listed if and only if every volume is ready |
| Readiness.NotReadyConcat | pkg/sidecar_mounter/startup_probe.go:133-152 | volumes are listed in directory order |
| Readiness.NotReadyOne | pkg/sidecar_mounter/startup_probe.go:136-151 | a file and a volume with a ready file are skipped, another volume is listed with its reason |
| Readiness.ComplaintIs | pkg/sidecar_mounter/startup_probe.go:147-151 | the reason is the error text without the white space around it, or that the mount is in progress |
| Readiness.ProbePassesOnlyWhenMounted | pkg/sidecar_mounter/startup_probe.go:119-159 | the probe passes only while every volume's gcsfuse has reported a mount and exit handling has not removed its ready file, whatever else the directory holds |
| NodeInvariants.StepLock | pkg/util/volume_lock.go:45-60 | a step takes or gives back only its call's own lock, and takes it only when it is free |
| NodeInvariants.StepKey | pkg/util/volume_state_store_lock.go:59-90 | a step changes the store only under its own key |
| NodeInvariants.CoreRun | pkg/csi_driver/node.go:380-396 | over every interleaving, with no assumption on paths: two calls past their try-lock hold different locks, and every stored volume state is one created for its key |
| NodeInvariants.BaseRun | pkg/csi_driver/node.go:380-396 | with staging paths that are no target paths, also: a call about to store finds its key free, and a call about to cancel or delete holds the state that is stored |
| NodeCycle.PublishMounts | pkg/csi_driver/node.go:380-579 | from every reachable state in which the path is free and unused, a publish can run through: checked unless skipped, then mounted, one volume state stored and counted, the monitor live if wanted, the lock given back, nothing else touched |
| NodeCycle.PublishAgain | pkg/csi_driver/node.go:390-417 | a second publish repeats neither a passed check nor a started monitor, and mounts |
| NodeCycle.PublishDynamic | pkg/csi_driver/node.go:387-396 | a dynamic mount is mounted without a check and leaves no volume state |
| NodeCycle.CanMount | pkg/csi_driver/node.go:571-579 | over every run, a publish past its check can mount: its own mount is then the last event |
| NodeCycle.SharedPublishStarts | pkg/csi_driver/node.go:234-249 | a shared publish stores, counts and watches one volume state under its staging path |
| NodeCycle.UnpublishTakesAway | pkg/csi_driver/node.go:634-641 | an unpublish or unstage takes the path's volume state away, counts it off and cancels its monitor |
| NodeCycle.PublishThenUnpublish | pkg/csi_driver/node.go:380-641 | publish and unpublish leave store, counter and locks as they were, with the check before the mount and the monitor cancelled |
| NodeCycle.SharedPublishThenUnstage | pkg/csi_driver/node.go:1306-1341 | the same of a shared publish and the unstage of its staging path |
| NodeMonitors.InvRun | pkg/csi_driver/node.go:588-599 | the invariant that ties monitors, once-only starts, cancel functions and the store together |
| NodeMonitors.AtMostOneMonitor | pkg/csi_driver/node.go:588-599 | at most one uncancelled kernel-params monitor per key: always for target paths, for staging paths under the CSI ordering |
| NodeMonitors.NoStateNoMonitor | pkg/csi_driver/node.go:636-641 | while no volume state is stored for such a key every monitor ever started for it is cancelled |
| NodeMonitors.CancelledAfterUnpublish | pkg/csi_driver/node.go:1306-1341 | once unpublish, or an ordered unstage, has passed its cancel step every monitor ever started for its key is cancelled |
| NodeCounter.CountRun | pkg/util/volume_state_store_lock.go:59-90 | the counter is the number of entries corrected by the calls between their map step and their counter step |
| NodeCounter.CounterIsExact | pkg/util/volume_state_store_lock.go:59-90 | with no call between its two steps the counter equals the number of stored entries modulo 2^32, and exactly that number below 2^31 |
| NodeAccess.AccessRun | pkg/csi_driver/node.go:398-417 | over every interleaving, with no assumption on paths: a set access flag always stands for a check since the path's last unpublish |
| NodeAccess.CheckedBeforeMount | pkg/csi_driver/node.go:380-417 | over every interleaving, with no assumption on paths: every FUSE mount of a bucket other than "_" without the skip attribute is preceded by a successful check for the same path with no unpublish of it and no restart in between |
| NodeAssumptions.OverlapBreaksCounter | pkg/util/volume_state_store_lock.go:59-90 | a reachable state with counter two and one entry when a path serves as target and as staging path |
| NodeAssumptions.OverlapBreaksMonitors | pkg/csi_driver/node.go:239-273 | a reachable state with two live monitors for one key in that case |
| NodeAssumptions.UnorderedLeavesMonitor | pkg/csi_driver/node.go:1306-1341 | a reachable state with a live monitor behind the cancel step when unstage overlaps a shared publish |
| ConfigTree.Insert | pkg/sidecar_mounter/sidecar_mounter_config.go:466-494 | one flag adds its leaf and the levels above it to the represented tree, and fails only on a conflict |
| ConfigTree.WalkFinds | pkg/sidecar_mounter/sidecar_mounter_config.go:464-494 | following a path through the nested maps finds what the represented tree says |
| ConfigTree.PrepareConfigFile | pkg/sidecar_mounter/sidecar_mounter_config.go:457-494 | for every flag map and iteration order, failure if and only if the map is missing or one flag's tokens are a proper prefix of another's; otherwise every path leads to what the flag map determines, and every flag to the number its text spells, the truth value it names, or the text itself |
| ConfigTree.LeavesAreFlags | pkg/sidecar_mounter/sidecar_mounter_config.go:464-494 | the paths to leaves, joined by ':', are exactly the flags with their converted values |
| ConfigTree.HoldsNoConflict | pkg/sidecar_mounter/sidecar_mounter_config.go:466-494 | a tree that holds all flags exists only without a conflict |
| ConfigTree.IntegersConvert | pkg/sidecar_mounter/sidecar_mounter_config.go:473-479 | every decimal int64 comes back as that number |
| ConfigTree.ConvertStandsFor | pkg/sidecar_mounter/sidecar_mounter_config.go:473-479 | a text that spells an int64 becomes that number, the ten words for true and false their truth value, and any other text stays |
| GoStrings.AtoiSpells | pkg/sidecar_mounter/sidecar_mounter_config.go:473-474 | exactly the decimal spellings of an int64 are read, with sign and leading zeros, and as the number they spell |
| MountArgs.ProcessConfig | pkg/sidecar_mounter/sidecar_mounter_config.go:251-283 | one config file option: effect on the port, the config flags and the cache directory |
| MountArgs.ProcessFlag | pkg/sidecar_mounter/sidecar_mounter_config.go:286-394 | one command line option: disallowed flags, settings, app name, "o" and free flags |
| MountArgs.MountConfig.PrepareMountArgs | pkg/sidecar_mounter/sidecar_mounter_config.go:226-455 | for every option list, what each flag and each config flag is: the driver's own flags, the port or 0, the in-order comma join of "o" for shared mounts only, the cache-dir, the kernel-params key exactly when enabled, last values of free flags, and no barred flag at all; every setting has its last accepted value |
| MountArgs.JoinSnoc | pkg/sidecar_mounter/sidecar_mounter_config.go:383-391 | appending after a comma is joining the longer list |
| MountArgs.ReadConfig | pkg/sidecar_mounter/sidecar_mounter_config.go:253-262 | an option with a colon, no equals sign and no https is a config flag whose value follows the last colon |
| MountArgs.ReadEndpoint | pkg/sidecar_mounter/sidecar_mounter_config.go:255-258 | the custom endpoint keeps the colons of its value |
| MountArgs.ReadBare | pkg/sidecar_mounter/sidecar_mounter_config.go:286-305 | an option without a value is a flag with an empty one |
| MountArgs.SettingNames | pkg/sidecar_mounter/sidecar_mounter_config.go:307-376 | each setting has exactly one option name |
| MountArgs.AcceptsIff | pkg/sidecar_mounter/sidecar_mounter_config.go:344-372 | only the NUMA node must be a number and the memory ratio one in (0, 1]; every other setting takes any value |
| MountArgs.CacheDirs | pkg/sidecar_mounter/sidecar_mounter_config.go:402-427 | the directory of each medium, one per volume in a sidecar |
| MountArgs.CacheDirProperIff | pkg/sidecar_mounter/sidecar_mounter_config.go:402-427 | cache-dir is empty, the cache directory or a known medium's directory if and only if the medium is empty, ram or lssd, the mount is shared, or the cache directory is itself the relative path |
| MountArgs.UnknownMediumExample | pkg/sidecar_mounter/sidecar_mounter_config.go:402-427 | a sidecar mount with an unknown medium gets the relative cache-dir .volumes/vol |
| MountArgs.MergeFlags | pkg/sidecar_mounter/sidecar_mounter_config.go:202-210 | defaults fill only missing keys, in any order |
| MountOptions.Joiner.Process | pkg/csi_driver/utils.go:197-217 | one option: last value of gid, file-mode and dir-mode, first local socket address, set of the rest |
| MountOptions.JoinMountOptions | pkg/csi_driver/utils.go:183-234 | the sorted options of the meaning of both lists |
| MountOptions.Reread | pkg/csi_driver/utils.go:183-234 | any list of a meaning's options means the same again |
| MountOptions.MergeLaw | pkg/csi_driver/utils.go:183-234 | joining in stages equals one pass, for all lists |
| MountOptions.LastWins | pkg/csi_driver/utils.go:202-206 | the last gid, file-mode or dir-mode counts |
| MountOptions.FirstWins | pkg/csi_driver/utils.go:207-212 | the first local socket address counts |
| MountOptions.OptionsKinds | pkg/csi_driver/utils.go:227-233 | exactly which options the result holds, by kind |
| MountOptions.KindOfPair | pkg/csi_driver/utils.go:183-217 | how an option with a value is treated, by its key |
| MountOptions.KindOfWord | pkg/csi_driver/utils.go:197-217 | an option without a value is plain, and an empty one is skipped |
| MountOptions.MergedOptions | pkg/csi_driver/utils.go:183-234 | which options come out of joining two lists: every plain one, the last of each overwritable field unless empty, and the first address |
| SortedStrings.SortedIncreasing | pkg/csi_driver/utils.go:233-233 | the list is strictly increasing |
| VolumeAttributes.JoinsPlain | pkg/csi_driver/utils.go:236-249 | attributes never join an overwritable option or an address |
| VolumeAttributes.TranslatesSize | pkg/csi_driver/utils.go:268-284 | a size attribute becomes its option in megabytes, or is rejected |
| VolumeAttributes.TranslatesBool | pkg/csi_driver/utils.go:287-313 | a boolean attribute becomes its option, or is rejected |
| VolumeAttributes.TranslatesSwitch | pkg/csi_driver/utils.go:288-330 | an attribute that sets an argument, the log severity and the identity provider |
| VolumeAttributes.TranslatesSeconds | pkg/csi_driver/utils.go:316-325 | both spellings of the time to live, where a negative one is -1 |
| VolumeAttributes.MegabytesRoundDown | pkg/csi_driver/utils.go:274-282 | sizes are rounded down by the unit of their format, and a negative one is -1 |
| VolumeAttributes.AttributeOptions | pkg/csi_driver/utils.go:236-349 | every option an attribute stands for is in the result, and so is every plain option given |
| VolumeAttributes.MountOptionsWin | pkg/csi_driver/utils.go:253-255 | the volume's own mount options come last, so theirs count |
| VolumeAttributes.ApplyAttribute | pkg/csi_driver/utils.go:257-333 | one attribute: rejected exactly when its value is bad, else the arguments of one attribute more |
| VolumeAttributes.ParseVolumeAttributes | pkg/csi_driver/utils.go:252-349 | whatever the map iteration order, success exactly when every present attribute is good, and arguments that depend on the context alone |
| RouteTable.GetRtTables | pkg/csi_driver/network.go:238-264 | ids and names of the accepted lines, in order |
| RouteTable.ParseLineIs | pkg/csi_driver/network.go:245-261 | a line counts when its words are a number, a name and at most a comment |
| RouteTable.ParseWithTail | pkg/csi_driver/network.go:251-254 | after the name a comment is ignored and anything else spoils the line |
| RouteTable.AppendReadsBack | pkg/csi_driver/network.go:285-290 | for any text, with or without a final newline, and any white-space-free device the appended line adds exactly its own entry |
| RouteTable.FoundAgain | pkg/csi_driver/network.go:266-294 | the allocated line is found again if and only if the device name is free of white space |
| RouteTable.FindFreeId | pkg/csi_driver/network.go:285-292 | the least free id of 50..252, or all of them are taken |
| RouteTable.Network.GetGcsFuseTableId | pkg/csi_driver/network.go:266-294 | the known id without growth, the least free id with one line more, or failure with its cause |
| RouteTable.EntriesGrow | pkg/csi_driver/network.go:266-294 | over any run entries are only added, at the end |
| RouteTable.SameDeviceSameId | pkg/csi_driver/network.go:266-294 | a device asked for again gets the same id and the table does not grow |
| RouteTable.FreshIds | pkg/csi_driver/network.go:266-294 | ids allocated in a run lie in 50..252, differ from all earlier entries and from each other |
| SourceRouting.ChooseRoute | pkg/csi_driver/network.go:166-175 | the first route with both source and gateway, or none has both |
| SourceRouting.AddSourceRouteForDevice | pkg/csi_driver/network.go:158-216 | for every set of failing operations the exact outcome: the first complete route is used, table line, rule and route are added exactly when missing, the first failing step ends the call with what was added before it; on success the device is settled; a settled device is left unchanged whatever fails |
| SourceRouting.SettledAnswers | pkg/csi_driver/network.go:158-216 | whatever fails, a settled device adds no table line, and its table, when answered, already has the rule and the route |
| ScanWorker.SpacedSnoc | pkg/profiles/scanner.go:1614-1632 | a scan one period after a covering scan time keeps all scans spaced |
| ScanWorker.SpacedMeans | pkg/profiles/scanner.go:1614-1632 | two scans of a PV are a period apart, across a restart less than one second weaker |
| ScanWorker.Scanner.CalculateLastScanTime | pkg/profiles/scanner.go:1654-1680 | memory first, then the stored annotation, which is remembered |
| ScanWorker.Scanner.CheckPVRelevance | pkg/profiles/scanner.go:1607-1652 | irrelevant exactly for a PV without a profile; failed exactly when an API call failed or the scan time cannot be known; a scan is pending exactly when memory and annotation say so, and only when it is due against every recorded scan |
| ScanWorker.Scanner.UpdateLastSuccessfulScanInMemory | pkg/profiles/scanner.go:1524-1537 | nextScan is one period after the last scan |
| ScanWorker.Scanner.UpdatePVScanResult | pkg/profiles/scanner.go:1499-1519 | only a reported success reaches memory; a lost reply changes the annotation alone |
| ScanWorker.Scanner.SyncPV | pkg/profiles/scanner.go:834-915 | a scan is done exactly when it is pending; a patch that reached the API server leaves its whole second in the annotation, and only a reported success is recorded and remembered; the log stays spaced |
| ScanWorker.Scanner.EnqueueTrackedPVs | pkg/profiles/scanner.go:1758-1768 | the ticker enqueues exactly the tracked PVs that the relevance check would scan |
| PodGate.OthersSurvive | pkg/profiles/scanner.go:727-736 | every other gate survives as often as before |
| PodGate.OthersKeepOrder | pkg/profiles/scanner.go:727-736 | the surviving gates keep their order |
| PodGate.RemoveSchedulingGate | pkg/profiles/scanner.go:727-766 | the gate is removed exactly when present, all others kept |
| PodGate.CheckVolume | pkg/profiles/scanner.go:651-708 | one volume: an error exactly for a failed call, an unreadable time or stray results; else ready exactly when it resolves to a bound PV whose scan time, if relevant, is known |
| PodGate.CheckVolumes | pkg/profiles/scanner.go:651-708 | all volumes: ready exactly when each one is, and then every relevant PV's scan time comes from a successful patch or a stored annotation |
| PodGate.SyncPod | pkg/profiles/scanner.go:629-725 | exactly when each outcome is returned, for every pod lookup, volume and patch answer: gate removed, no gate, requeue, pod gone or failure; a removed gate means the other gates are kept, every claim is bound and every relevant PV has a scan time from a successful patch or a stored annotation |
| PodGate.RunWorker | pkg/profiles/scanner.go:542-617 | in every run of the one worker under a nondecreasing clock, PV and pod syncs mixed with restarts, stale views and lost replies: the full effect of every event, successive successful scans of a PV a period apart, less than one second weaker across a restart, and every pod sync safe |
| CollectorRegistry.Manager.RegisterMetricsCollector | pkg/metrics/metrics.go:502-561 | path set, list and registry stay in step and within the limit; the inconsistent return is unreachable; a collector whose identity changed is replaced and never refused for space |
| CollectorRegistry.Manager.UnregisterMetricsCollector | pkg/metrics/metrics.go:564-581 | exactly the path's collector goes |
| CollectorRegistry.OthersPresent | pkg/metrics/metrics.go:564-581 | deleting the found index removes the path and nothing else |
| CollectorRegistry.WithoutOne | pkg/metrics/metrics.go:535-537 | distinct paths and identities survive a removal, and the sets shrink by exactly one |
| CollectorRegistry.CountPaths | pkg/metrics/metrics.go:540-543 | the set's size is the list's length |
| CacheBudget.CeilDivLeast | pkg/util/util.go:430-432 | the least count that covers the amount |
| CacheBudget.MiBRoundTrip | pkg/profiles/recommender.go:1036-1049 | sizes survive the conversion exactly from -1 up; below that they come back one too large |
| CacheBudget.BudgetBound | pkg/profiles/recommender.go:495-505 | the budget is the largest whole number within the factored minimum of allocatable and limit |
| CacheBudget.Requirements | pkg/profiles/recommender.go:465-491 | the stat cache needs 1500 or 1700 bytes per object but at least 34 MiB, the file cache the whole bucket unless it is zonal |
| CacheBudget.FitsWhere | pkg/profiles/recommender.go:607-632 | which medium an entry of the priority list stands for, and when it fits |
| CacheBudget.RecommendStat | pkg/profiles/recommender.go:643-677 | an override is kept and charged to the memory, an unlimited one with the requirement; otherwise size and remainder add up to the budget and only an exhausted budget caps the size |
| CacheBudget.RecommendFile | pkg/profiles/recommender.go:577-638 | the first medium of the priority list that fits, with TPU falling back to RAM; unknown media are errors only when reached |
| CacheBudget.RecommendCacheConfigs | pkg/profiles/recommender.go:527-568 | the stat cache is sized first and the file cache gets the memory that is left; an error exactly when no priority list exists or an unknown medium is reached; without overrides or a custom cache the result is affordable |
| CacheBudget.KnownMedia | pkg/profiles/recommender.go:577-638 | a recommended medium is ram or lssd, and no answer is given exactly in the two failing cases |
| CacheBudget.WithinBudget | pkg/profiles/recommender.go:465-677 | without overrides or a custom cache, stat cache plus RAM file cache stay within the factored memory and an LSSD cache within the factored storage on a non-TPU node with local SSD |
| CacheBudget.EmittedSizes | pkg/profiles/recommender.go:1036-1042 | the emitted MiB values exceed the byte totals by less than 2 MiB |
| RecommendMerge.MergeMountOptionsOnMissingKeys | pkg/profiles/recommender.go:1144-1188 | an error exactly when some option is invalid, else the user's options and the first system option of each fresh normalized key |
| RecommendMerge.ValidIff | pkg/profiles/recommender.go:1057-1076 | which options are valid |
| RecommendMerge.KeyOfAssigned | pkg/profiles/recommender.go:1084-1089 | the key of an option with an equals sign |
| RecommendMerge.KeyOfConfig | pkg/profiles/recommender.go:1090-1094 | the key of an option with colons ends before the last one |
| RecommendMerge.KeyOfBare | pkg/profiles/recommender.go:1095-1096 | an option without either sign is its own key |
| RecommendMerge.NormalizeIs | pkg/profiles/recommender.go:1148-1158 | the two command line spellings count as their config file spellings, other keys as themselves in lower case |
| RecommendMerge.FreshKeys | pkg/profiles/recommender.go:1175-1187 | added options are system options whose normalized key the user does not give |
| RecommendMerge.FreshDistinct | pkg/profiles/recommender.go:1175-1187 | added options have different normalized keys |
| RecommendMerge.MergeIdempotent | pkg/profiles/recommender.go:1144-1188 | merging the same system options again changes nothing |
| RecommendMerge.HavingMerge | pkg/profiles/recommender.go:1144-1188 | a key given in any spelling and case keeps exactly the user's options; another key gets the first system option |
| RecommendMerge.ParseCacheOverrides | pkg/profiles/recommender.go:1099-1132 | an error exactly when a nonempty size is no number, else the last nonempty size under either spelling |
| RecommendMerge.MergeRecommended | pkg/profiles/recommender.go:420-461 | an error exactly when an option is invalid, a given size is no number or the recommendation has no answer; else exactly the user's options, the storage class options on fresh keys and the recommended cache options on keys not given, with the sizes in either order |
| RecommendMerge.EmittedOptions | pkg/profiles/recommender.go:437-453 | the recommended options carry the recommended sizes in MiB and the medium, the latter only with a nonempty file cache |
| FuseOptions.OptionsPartition | pkg/util/util.go:478-546 | for every good option set: mount(8) gets exactly the given rw, ro and allowed o= values, sysfs a read-ahead size exactly when one is given, and the sidecar exactly the options that are none of these and no request limit |
| FuseOptions.ClassIs | pkg/util/util.go:499-541 | exactly which options set a mount(8) value, the read-ahead size or the request limit |
| FuseOptions.AllowedValues | pkg/util/util.go:114-122 | the values that mount(8) may get |
| FuseOptions.GoodIff | pkg/util/util.go:510-535 | a read-ahead size is accepted exactly for a number from 0 up, a request limit up to 65535 pages |
| FuseOptions.LastLimitIs | pkg/util/util.go:524-541 | of several request limits the last of the sorted options counts |
| FuseOptions.LastReadAheadIs | pkg/util/util.go:510-522 | and so of several read-ahead sizes |
| FuseOptions.PrepareMountOptions | pkg/util/util.go:478-546 | the distinct options are partitioned: mount(8), sysfs, page limit and sidecar; an error exactly when a limit is bad |
| FuseOptions.PageLimit | pkg/util/util.go:491-541 | the page limit is the least page count covering the request and lies in 0..65535 |

## Left out

- Monitor ordering: the monitor theorems assume disjoint staging and target paths, and for staging paths the ordering of section "NodeUnstageVolume" of the CSI specification.
- SequentialMetrics: family names are of the classic form, letters, digits, underscores and colons; other names, which the encoder escapes or quotes as the client negotiated, are not modelled. Families have a sample and the sample lines of their type in the library's layout.
- EncodeCollectorsSequentially: the time budget is given as the number of mounts after which it is found used up, and a failing sink by how many bytes it takes.
- EmitMetricFamily: label order inside a sample, exemplars, created timestamps and native histogram fields are not modelled; numbers are reals, so NaN bounds are not either.
- DescAccepts: the library's own rules for valid names are a parameter; all strings count as valid UTF-8.
- CheckedBeforeMount: the check is kept per path, as in the code, not per bucket name.
- RunWorker: the resync period is fixed and valid, PVs are not deleted, and only the scanner writes its annotations; a scan counts when its patch was reported successful.
- CheckPVRelevance: override mode is not modelled; whether an API call of the check failed is a parameter.
- SyncPV: override mode and the Anywhere Cache part are not modelled.
- RegisterMetricsCollector: the socket symlink and registry errors other than a duplicate identity are not modelled; identities are compared, not hashed.
- AddSourceRouteForDevice: stands for the manager interface with an empty string for a missing address and listings in insertion order; a failed table update changes nothing.
- PrepareConfigFile: ends before the token url overwrite and the write of the YAML file.
- PrepareMountArgs: paths are joined without cleaning, and which ratios parse is a parameter.
- ParseVolumeAttributes: parsing a Kubernetes quantity is a parameter; which of several bad attributes is reported is not modelled.
- WithinBudget: int64 overflow and float rounding are not modelled.
- MergeMountOptionsOnMissingKeys: letters are folded as ASCII.
- AtMostOneMonitor: the monitor's own work on the kernel params file is not modelled.
- Kubernetes, storage, token, compute and monitoring clients; HTTP and gRPC serving; gzip; file descriptor passing; sysfs writes.
- The netlink network manager, webhook admission, sidecar spec construction, volume creation with labels, image version comparison.
- Device choice for a NUMA node, quantity and duration parsing, and flag files: they would only add easy members.
