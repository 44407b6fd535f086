# logfile-operator in Dafny

This is a model of the core of logfile-operator, a Kubernetes operator for log collection. A `LogFile` custom resource picks one of six deployment topologies by its `ProgrammeNum`:

- **1 and 2:** filebeat ships straight to Elasticsearch. Topology 1 uses a single node over http. Topology 2 uses a TLS cluster.
- **3 and 4:** filebeat goes through Logstash.
- **5 and 6:** filebeat goes through Kafka and then Logstash.

Kibana is deployed in every topology. A pod admission webhook injects a filebeat sidecar into every pod that declares log files in `logfile.huisebug.org/...` annotations.

The model covers six parts:

- **Sidecar injection** (`annotations.dfy`, `pathdirs.dfy`, `conflict.dfy`, `injector.dfy`): the annotation filter, `parseMetrics`, the directory and de-duplication closures, the mount-conflict check, the per-directory loop, the TLS step and the `Handle` switch.
- **The `LogFile` webhooks** (`logfile_api.dfy`): defaulting of storage sizes and node ports, and validation of the topology number.
- **Kafka storage** (`storage.dfy`): `FormatStorageint` and the summed claim of the single-node Kafka.
- **The reconciler** (`provisioning.dfy`): the guards of `Reconcile`, and the ordered creation steps of `Run` for every topology, with failures given as an oracle.
- **The per-topology configuration tables** (`filebeat.dfy`, `kibana.dfy`, `logstash.dfy`, with addresses and accounts in `endpoints.dfy`): generated documents are kept as structured records next to their rendered text.
- **Shared definitions** (`wrappers.dfy`, `gostrings.dfy`, `kube.dfy`): Go's string, split and integer functions and the Kubernetes object shapes.

Some inputs are parameters rather than computed:

- Go's unspecified map iteration order is the explicit `order` argument of `Injector.Handle`.
- The ConfigMap read by the webhook is an `Option` (a failed read is `None`).
- The Kubernetes client of the reconciler is a map from step to error.

Four behaviours of the code are easy to misread, and the model follows the code in each:

- `parseMetrics` stops at the first malformed annotation key and returns the paths gathered so far. It does not skip that key and carry on.
- The conflict check compares a directory with a mount path for equality, up to one trailing `/`. It does not look for a mount at a parent directory.
- The certificates secret is read without checking the error.
- The annotation pattern matches anywhere in the key. Only the first `.`-segment (`logfile`) and the single `/` decide whether a matched key contributes.

## Model

| member | source | states |
|---|---|---|
| AnnotationFilter.MatchString | controllers/pod_webhook_controller.go:43-85 | the unanchored regular-expression search succeeds iff the literal domain followed by a field character occurs at some offset |
| AnnotationFilter.FilterAnnotations | controllers/pod_webhook_controller.go:82-90 | the result holds exactly the annotations whose key matches, with their values unchanged |
| AnnotationFilter.ParseMetricsSound | controllers/pod_webhook_controller.go:95-123 | every extracted path is one `,`-segment of the value of some `logfile` key |
| AnnotationFilter.ParseMetricsStopsAtMalformed | controllers/pod_webhook_controller.go:99-111 | the first key without exactly one `/` or without a `.` in its domain ends the scan: nothing after it contributes |
| AnnotationFilter.ParseMetricsContribution | controllers/pod_webhook_controller.go:113-118 | a reached `logfile` key contributes its whole value split on `,`, in place between what comes before and after |
| AnnotationFilter.ParseMetricsEmptyIff | controllers/pod_webhook_controller.go:95-123 | with only well-formed keys, no paths iff no `logfile` key (an empty value still yields one path) |
| AnnotationFilter.FilteredKeyClassification | controllers/pod_webhook_controller.go:101-114 | a matched key with one `/` is always well formed, and it contributes iff it starts with `logfile.` |
| AnnotationFilter.ParseMetricsOrderDependent | controllers/pod_webhook_controller.go:82-111 | two annotations that both pass the filter (`logfile.huisebug.org/a/b` and `logfile.huisebug.org/app`) yield a path in one iteration order and none in the other |
| PathDirs.FilepathSplit | controllers/pod_webhook_controller.go:241 | `filepath.Split`: directory and file concatenate to the path, the file has no `/`, the directory is empty or ends in `/` |
| PathDirs.FilepathSplitUnique | controllers/pod_webhook_controller.go:241 | those three properties determine the split uniquely |
| PathDirs.Dirs | controllers/pod_webhook_controller.go:238-245 | one directory per path, in order |
| PathDirs.DedupLoop | controllers/pod_webhook_controller.go:248-259 | the map-size loop keeps each directory on first sight: no duplicates and the same elements as its input |
| PathDirs.DedupProperties | controllers/pod_webhook_controller.go:248-259 | de-duplication leaves no duplicates and loses no element |
| PathDirs.DedupFirstOccurrenceOrder | controllers/pod_webhook_controller.go:248-259 | the kept elements appear in the order of their first occurrence |
| PathDirs.DedupOfDistinct | controllers/pod_webhook_controller.go:248-259 | a list without duplicates is left as it is |
| PathDirs.DedupIdempotent | controllers/pod_webhook_controller.go:248-259 | de-duplicating twice equals de-duplicating once |
| PathDirs.LogDirsCharacterized | controllers/pod_webhook_controller.go:238-259 | the directories handled are exactly the paths' directories, once each, each empty or `/`-ended |
| MountConflict.MatchIsNormalizedEquality | controllers/pod_webhook_controller.go:326-334 | for a `/`-ended directory the test is equality after adding a missing trailing slash |
| MountConflict.TrailingSlashSymmetric | controllers/pod_webhook_controller.go:326-334 | a mount at `p` and at `p/` both cover directory `p/` |
| MountConflict.ParentNeverMatches | controllers/pod_webhook_controller.go:326-334 | a mount at a shorter path (a parent) never counts as covering the directory |
| MountConflict.EmptyDirNeverMatches | controllers/pod_webhook_controller.go:326-334 | the empty directory of a bare file name matches no mount |
| MountConflict.MatchingMounts | controllers/pod_webhook_controller.go:323-336 | the mounts of one container kept are exactly those at the directory, in their original order (a subsequence of the container's mounts) |
| MountConflict.MatchingMountsCounts | controllers/pod_webhook_controller.go:323-336 | each matching mount is kept as often as the container lists it, and no other mount is kept |
| MountConflict.DuplicateMountPoints | controllers/pod_webhook_controller.go:319-341 | a mount is reported iff some container has it at the directory |
| MountConflict.DuplicateMountPointsInOrder | controllers/pod_webhook_controller.go:319-341 | the report is the matching mounts of all containers' mounts laid end to end: container order, then mount order, with every occurrence kept |
| MountConflict.DuplicatesKept | controllers/pod_webhook_controller.go:319-341 | two containers that both mount `m` at the directory report `m` twice |
| Injector.LogVolumeNamesDistinct | controllers/pod_webhook_controller.go:348-355 | `logfile-operator-<i>` names differ for different positions |
| Injector.AddLogDirEffect | controllers/pod_webhook_controller.go:345-367 | with no conflict, one new emptyDir volume mounted at the directory in every container and the sidecar; with conflicts, only the sidecar gains the conflicting mounts |
| Injector.AddLogDirsExtends | controllers/pod_webhook_controller.go:316-369 | the loop only appends: volumes, each container's mounts and the sidecar's mounts grow and nothing else changes |
| Injector.LogDirOutcome | controllers/pod_webhook_controller.go:316-369 | for each directory, the loop's final state holds either its new volume and mounts or the sidecar's copies of its conflicts |
| Injector.AddedMountsAtGivenDirs | controllers/pod_webhook_controller.go:354-361 | every mount the loop adds to a pod container sits at one of the given directories |
| Injector.ConflictsIgnoreEarlierTurns | controllers/pod_webhook_controller.go:316-341 | with distinct `/`-ended directories, each turn's conflict check sees what it would see on the pod before the loop |
| Injector.AddedVolumesDistinct | controllers/pod_webhook_controller.go:346-353 | the volumes the loop adds are emptyDirs named for positions in range, pairwise distinct |
| Injector.Inject | controllers/pod_webhook_controller.go:228-431 | the mutation fails (the index panic) exactly when the pod has no containers |
| Injector.FinishEffect | controllers/pod_webhook_controller.go:371-431 | the TLS step and the final appends keep the loop's result as a prefix and add the init containers and the sidecar last |
| Injector.InjectShape | controllers/pod_webhook_controller.go:228-431 | metadata untouched; one container added last, the privileged `filebeat` sidecar starting with `confdir`; existing mounts and volumes kept as prefixes; init containers gain the TLS one exactly when `programmenumber` is `"2"`, before `genfilebeatyml` |
| Injector.InjectLogDirOutcome | controllers/pod_webhook_controller.go:316-369 | for paths with a `/`: each directory either gets volume `logfile-operator-<k>` mounted in every container, or its conflicting mounts are in the sidecar |
| Injector.LoopOutcomeSurvivesFinish | controllers/pod_webhook_controller.go:371-431 | what the loop established about volumes and mounts still holds in the returned pod |
| Injector.InjectedVolumesDistinct | controllers/pod_webhook_controller.go:230-384 | every volume the injection adds has a name no other added volume has |
| Injector.EarlierTurnShadowsRoot | controllers/pod_webhook_controller.go:319-357 | for directories `""` then `/`, the mount added at `""` is reported as a conflict for `/` |
| Injector.NoLogAnnotationsNoPaths | controllers/pod_webhook_controller.go:196-225 | a pod with no matching annotation declares no paths and is admitted unchanged |
| Injector.Handle | controllers/pod_webhook_controller.go:178-439 | undecodable request gives 400; opt-out label, then no paths, then an incomplete ConfigMap leave the pod unchanged; a panic iff all guards pass and there are no containers; otherwise the pod `Inject` builds from the ConfigMap and the paths, which has exactly one more container |
| LogFileApi.FillStorageFields | api/v1/logfile_webhook.go:49-79 | each storage field is replaced by its default exactly when it was empty in the snapshot taken before the loop |
| LogFileApi.DefaultStorageFields | api/v1/logfile_webhook.go:49-79 | a nil storage block becomes all defaults; otherwise empty fields are defaulted and others kept |
| LogFileApi.FillPortsFields | api/v1/logfile_webhook.go:80-104 | each node port is replaced by its default exactly when it was zero in the snapshot |
| LogFileApi.DefaultPortsFields | api/v1/logfile_webhook.go:80-104 | a nil port block becomes 31920 and 31056; otherwise zero ports are defaulted and others kept |
| LogFileApi.Default | api/v1/logfile_webhook.go:47-107 | only the storage and node-port blocks change, and both end up present |
| LogFileApi.DefaultFieldwise | api/v1/logfile_webhook.go:47-107 | field by field: the default exactly where the input was nil, empty or zero |
| LogFileApi.DefaultEstablishesDefaulted | api/v1/logfile_webhook.go:47-107 | after defaulting no size is empty and no port is zero |
| LogFileApi.DefaultFixesDefaulted | api/v1/logfile_webhook.go:47-107 | an already defaulted resource is left unchanged |
| LogFileApi.DefaultIdempotent | api/v1/logfile_webhook.go:47-107 | defaulting twice equals defaulting once |
| LogFileApi.Validate | api/v1/logfile_webhook.go:147-161 | accepted iff the topology is 1 to 6; the rejection carries the offending value |
| LogFileApi.ValidateCreate | api/v1/logfile_webhook.go:115-121 | creation is accepted iff the topology is supported |
| LogFileApi.ValidateUpdate | api/v1/logfile_webhook.go:124-137 | every update is refused |
| LogFileApi.ValidateDelete | api/v1/logfile_webhook.go:140-145 | every deletion is accepted |
| LogFileApi.DefaultPreservesValidity | api/v1/logfile_webhook.go:47-161 | defaulting cannot change the validation outcome |
| Storage.FormatStorageint | controllers/Create_Kafka.go:20-30 | the result is a 64-bit integer, and 0 whenever the text does not end in `Gi` |
| Storage.FormatStorageRoundTrip | controllers/Create_Kafka.go:20-30 | `<n>Gi` reads back as `n` for every 64-bit `n` |
| Storage.ReadsBeforeFirstG | controllers/Create_Kafka.go:21-27 | only the text before the first `G` is read |
| Storage.FormatStorageFirstG | controllers/Create_Kafka.go:22-23 | `1G5Gi` reads as 1 |
| Storage.FormatStorageNonInteger | controllers/Create_Kafka.go:23-26 | `Gi` and `xGi` read as 0 |
| Storage.FormatStorageTenGi | controllers/Create_Kafka.go:20-30 | the default size `10Gi` reads as 10 |
| Storage.AddInt64 | controllers/Create_Kafka.go:39 | Go's 64-bit addition: the exact sum whenever it fits |
| Storage.KafkaClaimLosesUnit | controllers/Create_Kafka.go:39-40 | with the default sizes the claim as written is `20`, which is 20 bytes, against 10 GiB for each input |
| Storage.KafkaClaimIsSum | controllers/Create_Kafka.go:39-40 | the claim with its unit reads back as the sum, and in bytes is the sum of the two sizes |
| Provisioning.Plan | controllers/logfile_controller.go:127-280 | every topology's plan starts with the filebeat ConfigMap and ends with the Kibana ConfigMap, Service and Deployment |
| Provisioning.PlanEnds | controllers/logfile_controller.go:127-280 | the filebeat ConfigMap is first and the Kibana steps last; the status update is not a creation step |
| Provisioning.PlanComponents | controllers/logfile_controller.go:137-262 | Logstash iff 3 to 6; single Kafka iff 5; Zookeeper and the Kafka cluster iff 6; single Elasticsearch iff 1, 3, 5; the cluster iff 2, 4, 6 |
| Provisioning.ValidTopologyHasBackend | controllers/logfile_controller.go:137-262 | a valid topology deploys exactly one Elasticsearch; an invalid one deploys only filebeat's ConfigMap and Kibana |
| Provisioning.PlanOrdered | controllers/logfile_controller.go:127-280 | the steps follow one global order, so none is performed twice |
| Provisioning.ExecuteStopsAtFirstFailure | controllers/logfile_controller.go:127-280 | without error every step ran; with one, a prefix ran, all but the last succeeded, and the error is the last step's |
| Provisioning.RunUpdatesStatusLast | controllers/logfile_controller.go:282-288 | the status update is reached only after every creation step succeeded, and only when not yet `Active` |
| Provisioning.Reconcile | controllers/logfile_controller.go:60-96 | not found: no error and no calls; a read error is returned; deleting or `Active`: no calls; steps run only for a live, inactive resource |
| Provisioning.ReconcileConverges | controllers/logfile_controller.go:87-95 | with no failures one reconcile provisions everything and sets `Active`, after which reconcile does nothing |
| Endpoints.EsSingleHost | controllers/Create_Filebeat.go:23 | the single Elasticsearch is reached at `elasticsearch.logfile-operator-system`, port 9200 |
| Endpoints.EsClusterHost | controllers/Create_Filebeat.go:38 | the Elasticsearch cluster is reached at `elasticsearch-master.logfile-operator-system`, port 9200 |
| Endpoints.LogstashBeatsHost | controllers/Create_Filebeat.go:55 | Logstash's beats input is reached at `logstash.logfile-operator-system`, port 5044 |
| Endpoints.KafkaSingleHost | controllers/Create_Filebeat.go:65 | the single Kafka is reached at `kafka.logfile-operator-system`, port 9092 |
| Endpoints.KafkaClusterHost | controllers/Create_Filebeat.go:79 | the Kafka cluster is reached through its headless Service, `kafka-cluster-headless.logfile-operator-system`, port 9092 |
| Endpoints.ElasticsearchDeployed | controllers/logfile_controller.go:206-262 | the Elasticsearch clients are pointed at is created by the plan, and https means the cluster |
| FilebeatConfig.FilebeatYml | controllers/Create_Filebeat.go:18-89 | the document is empty exactly when there is no output |
| FilebeatConfig.FilebeatConfigMapData | controllers/Create_Filebeat.go:90-93 | the data has exactly the keys `filebeat.yml` and `programmenumber` |
| FilebeatConfig.FilebeatOutputKinds | controllers/Create_Filebeat.go:18-89 | no output iff the topology is unsupported; Elasticsearch iff 1 or 2; Logstash iff 3 or 4; Kafka iff 5 or 6 |
| FilebeatConfig.FilebeatTargetDeployed | controllers/Create_Filebeat.go:18-89 | filebeat's target Service is created by the plan of the same topology; the CA file is given exactly over https |
| FilebeatConfig.FilebeatCredentials | controllers/Create_Filebeat.go:19-49 | the Elasticsearch outputs log in as `elastic` with `ELASTIC_PASSWORD`, an account Elasticsearch has |
| FilebeatConfig.ProgrammeNumberRoundTrip | controllers/Create_Filebeat.go:93 | `programmenumber` parses back to the topology number |
| FilebeatConfig.SidecarReadsFilebeatConfigMap | controllers/Create_Filebeat.go:90-93 | the webhook always finds both keys, and injects the TLS init container iff the topology is 2, the only one where filebeat uses the CA file |
| KibanaConfig.KibanaYml | controllers/Create_Kibana.go:23-42 | the document is empty exactly when there are no settings |
| KibanaConfig.KibanaConfigMapData | controllers/Create_Kibana.go:44-45 | one key, `kibana.yml`, empty iff the topology is unsupported |
| KibanaConfig.KibanaTargetsDeployedElasticsearch | controllers/Create_Kibana.go:23-42 | Kibana talks to the deployed Elasticsearch by its scheme, as `kibana_system` with that account's password |
| KibanaConfig.KibanaTlsAdditions | controllers/Create_Kibana.go:70-122 | `conf` volume, mount and locale always; the CA variable, read-only certs mount and secret volume appended exactly for the TLS cluster |
| KibanaConfig.KibanaCaMatchesScheme | controllers/Create_Kibana.go:98-122 | Kibana gets the CA variable iff it connects over https and iff it mounts the certificates, and the CA path lies inside that mount |
| KibanaConfig.KibanaTemplateWellFormed | controllers/Create_Kibana.go:77-180 | every mount names a volume, the probes target the named port, and `conf` refers to Kibana's ConfigMap |
| KibanaConfig.KibanaServicePort | controllers/Create_Kibana.go:197-214 | port `http` 5601 exists iff node ports are set (otherwise the source dereferences nil), on the resource's Kibana node port converted to 32 bits |
| KibanaConfig.KibanaServiceAfterDefault | controllers/Create_Kibana.go:212 | after defaulting the Service always exists, on 31056 or on the user's in-range port |
| LogstashConfig.AsWrittenUsesKibanaPassword | controllers/Create_Logstash.go:28-168 | every pipeline logs in as `elastic` with `KIBANA_PASSWORD`, which succeeds iff the two passwords are equal |
| LogstashConfig.PipelinesDifferOnlyInPassword | controllers/Create_Logstash.go:27-168 | the pipeline as written and the corrected one exist for the same topologies and are equal except for the output's password |
| LogstashConfig.AsWrittenLoginRefused | controllers/Create_Logstash.go:44-55 | with passwords `a` and `b` the as-written output is refused |
| LogstashConfig.LogstashOutputDeployed | controllers/Create_Logstash.go:28-168 | a pipeline exists iff the plan deploys Logstash; its output targets the deployed Elasticsearch by its scheme, with `cacert` exactly over https, and is let in |
| LogstashConfig.HandOffMatchesFilebeat | controllers/Create_Logstash.go:28-138 | beats input iff filebeat sends to Logstash, on the same port; Kafka input iff filebeat produces to Kafka, on the same broker and topic |
| LogstashConfig.LogstashConf | controllers/Create_Logstash.go:27-168 | `logstash.conf` is empty exactly without a pipeline |
| LogstashConfig.ConfHoldsCredentials | controllers/Create_Logstash.go:44-55 | the rendered `logstash.conf` of any pipeline contains its output's `user => "…"` and `password => …` lines |
| LogstashConfig.LogstashConfigMaps | controllers/Create_Logstash.go:170-188 | exactly two ConfigMaps are created, named `<name>yml` and `<name>conf` |
| LogstashConfig.LogstashConfigMapsContent | controllers/Create_Logstash.go:27-188 | `<name>yml` holds only `logstash.yml` with the fixed settings; `<name>conf` holds only `logstash.conf`, rendered from the pipeline as the source writes it: empty exactly outside topologies 3 to 6, and otherwise containing the login lines `user => "elastic"` and `password => <KIBANA_PASSWORD>` |
| LogstashConfig.AttachProbes | controllers/Create_Logstash.go:346-352 | the probes go to every container with the given name and to no other |
| LogstashConfig.LogstashCertsIffCacert | controllers/Create_Logstash.go:261-279 | the certs secret volume and read-only mount are present iff the output needs the CA file (4 and 6); the config volumes and mounts always come first |
| LogstashConfig.LogstashProbesIffBeats | controllers/Create_Logstash.go:314-352 | probes are set iff Logstash serves the beats port (3 and 4), on the `logstash` container, against its named port |
| LogstashConfig.LogstashTemplateWellFormed | controllers/Create_Logstash.go:223-307 | every mount names a volume and every probe a named port |
| LogstashConfig.ConfigMountsResolve | controllers/Create_Logstash.go:175-259 | each config mount's volume refers to the ConfigMap of that name, which holds the mount's sub-path key |

## Left out

- I/O and the Kubernetes API: reads, creates and status updates are oracles or parameters. The admission request decoding is an `Option<Pod>`. The JSON patch, and the 500 response when marshalling fails, are not modelled.
- `FilebeatfileGen` and its `yaml.Marshal`: kept as the structure it serialises, one `log` input with the parsed paths. The generated shell command lines are kept as the `Entrypoint` records they write.
- The contents of the TLS certificates and their base64 round trip: the certificate data is abstract.
- Logging, the sleeps in `Run` (80 s before each set-password Job, 20 s before Kibana), owner references and labels: none of them changes what is created.
- The Zookeeper, Kafka-cluster and Elasticsearch objects other than their creation steps: their manifests are static and are not part of this model.
- Comments and blank-line layout of the generated YAML and Logstash documents: the rendered text carries the same settings, not the same bytes.
- Storage.QuantityBytes: reads only the two quantity forms the claim can take (a bare integer, or an integer with `Gi`), not every Kubernetes quantity suffix.
- Injector.InjectLogDirOutcome: requires every path to contain a `/`. Without one, a directory `""` can shadow the root directory, as `Injector.EarlierTurnShadowsRoot` shows.
- Go's 64-bit `int` is modelled only where it matters: `strconv.Atoi`'s range, the wrapping `Sum`, and the `int32` node-port conversion. Position counters are unbounded.

## Findings

| source | as written | input that shows it | evidently intended | confidence | as-written member | corrected member |
|---|---|---|---|---|---|---|
| controllers/Create_Kafka.go:39-40 | the summed claim is rendered with `strconv.Itoa` and no unit, so it is read as bytes | default sizes `10Gi` and `10Gi`: the claim is `20`, i.e. 20 bytes | the sum in the inputs' unit, `20Gi` | high; not executed | Storage.KafkaClaimLosesUnit | Storage.KafkaClaimIsSum |
| controllers/Create_Logstash.go:44-55 | every Logstash pipeline logs in as `elastic` with `KIBANA_PASSWORD`, while Elasticsearch gives `elastic` the `ELASTIC_PASSWORD` | `ELASTIC_PASSWORD` `a`, `KIBANA_PASSWORD` `b`, topology 3: the output's login is refused | `elastic` with `ELASTIC_PASSWORD`, as filebeat's outputs do | medium; not executed | LogstashConfig.AsWrittenLoginRefused | LogstashConfig.LogstashOutputDeployed |

The Logstash ConfigMap is modelled as the code writes it: `LogstashConfig.LogstashConfigMaps` renders `PipelineAsWritten`, with the Kibana password. The corrected pipeline, `PipelineFor`, is the one `LogstashConfig.LogstashOutputDeployed` proves is let in. The pod-template lemmas use it too, but only for its input and CA file, which are the same in both pipelines.
