/**
  The filebeat sidecar's ConfigMap as the reconciler creates it: the
  `output.*` section chosen by the topology number, and the topology number
  itself, which the admission webhook reads back to decide on TLS.
 */
module FilebeatConfig {
  import opened Wrappers
  import opened GoStrings
  import opened LogFileApi
  import opened Provisioning
  import opened Endpoints
  import Injector
  import Kube

  /** Events larger than this are dropped by the Kafka output. */
  const MaxMessageBytes: int := 1000000

  /** Where filebeat ships what it reads. */
  datatype FilebeatOutput =
    | NoOutput
    | ToElasticsearch(scheme: Scheme, target: Endpoint, caFile: Option<string>, username: string, password: string)
    | ToLogstash(target: Endpoint)
    | ToKafka(target: Endpoint, topic: string, maxMessageBytes: int)

  /** The topology's output: Elasticsearch for 1 and 2, Logstash for 3 and 4, Kafka for 5 and 6, none otherwise. */
  function FilebeatOutputFor(spec: LogFileSpec): FilebeatOutput
  {
    match spec.programmeNum
    case 1 => ToElasticsearch(Http, EsSingleEndpoint, None, ElasticUser, spec.elasticPassword)
    case 2 => ToElasticsearch(Https, EsClusterEndpoint, Some(CaCertFile), ElasticUser, spec.elasticPassword)
    case 3 => ToLogstash(LogstashBeatsEndpoint)
    case 4 => ToLogstash(LogstashBeatsEndpoint)
    case 5 => ToKafka(KafkaSingleEndpoint, KafkaTopic, MaxMessageBytes)
    case 6 => ToKafka(KafkaClusterEndpoint, KafkaTopic, MaxMessageBytes)
    case _ => NoOutput
  }

  function HostPort(e: Endpoint): string
  {
    HostName(e) + ":" + Itoa(e.port)
  }

  /** The settings every case ends with: the HTTP monitoring endpoint. */
  const HttpSettings: string := "\nhttp.enabled: true\nhttp.host: 0.0.0.0\n"

  /** The text of `filebeat.yml`; the empty document when there is no output. */
  function FilebeatYml(out: FilebeatOutput): (r: string)
    ensures r == "" <==> out.NoOutput?
  {
    match out
    case NoOutput => ""
    case ToElasticsearch(scheme, target, caFile, username, password) =>
      "\noutput.elasticsearch:\n"
      + "  index: \"logfile-operator-filebeat-%{+yyyy.MM.dd}\"\n"
      + "  hosts: ['" + (if scheme == Http then "http://" else "https://") + HostPort(target) + "']\n"
      + (match caFile
         case Some(ca) => "  protocol: https\n  ssl.certificate_authorities: [\"" + ca + "\"]\n"
         case None => "")
      + "  username: " + username + "\n"
      + "  password: " + password + "\n"
      + "setup.template.name: \"logfile-operator-filebeat\"\n"
      + "setup.template.pattern: \"logfile-operator-filebeat-*\"\n"
      + HttpSettings
    case ToLogstash(target) =>
      "\noutput.logstash:\n  hosts: ['" + HostPort(target) + "']\n" + HttpSettings
    case ToKafka(target, topic, maxMessageBytes) =>
      "\noutput.kafka:\n  hosts: ['" + HostPort(target) + "']\n"
      + "  topic: " + topic + "\n"
      + "  max_message_bytes: " + Itoa(maxMessageBytes) + "\n"
      + HttpSettings
  }

  /** `FilebeatCreteConfigMap`'s data: the document and the topology number in decimal. */
  function FilebeatConfigMapData(spec: LogFileSpec): (r: map<string, string>)
    ensures r.Keys == {Injector.FilebeatYmlKey, Injector.ProgrammeNumberKey}
  {
    map[Injector.FilebeatYmlKey := FilebeatYml(FilebeatOutputFor(spec)),
        Injector.ProgrammeNumberKey := Itoa(spec.programmeNum)]
  }

  /**
    Every supported topology gives filebeat an output, of the kind the
    topology names, and only those do.
   */
  lemma FilebeatOutputKinds(spec: LogFileSpec)
    ensures FilebeatOutputFor(spec).NoOutput? <==> !SupportedTopology(spec.programmeNum)
    ensures FilebeatOutputFor(spec).ToElasticsearch? <==> spec.programmeNum in {1, 2}
    ensures FilebeatOutputFor(spec).ToLogstash? <==> spec.programmeNum in {3, 4}
    ensures FilebeatOutputFor(spec).ToKafka? <==> spec.programmeNum in {5, 6}
  {
  }

  /**
    The output points at a Service the plan for the same topology creates:
    the Elasticsearch that topology deploys (https exactly with the CA file),
    its Logstash, or its Kafka.
   */
  lemma FilebeatTargetDeployed(spec: LogFileSpec)
    requires !FilebeatOutputFor(spec).NoOutput?
    ensures FilebeatOutputFor(spec).target.service in Plan(spec.programmeNum)
    ensures FilebeatOutputFor(spec).ToElasticsearch? ==>
      && FilebeatOutputFor(spec).target == ElasticsearchEndpoint(spec.programmeNum)
      && FilebeatOutputFor(spec).scheme == ElasticsearchScheme(spec.programmeNum)
      && (FilebeatOutputFor(spec).caFile.Some? <==> FilebeatOutputFor(spec).scheme == Https)
    ensures FilebeatOutputFor(spec).ToLogstash? ==> LogstashDeployment in Plan(spec.programmeNum)
    ensures FilebeatOutputFor(spec).ToKafka? ==>
      (KafkaStatefulSet in Plan(spec.programmeNum) || KafkaClusterStatefulSet in Plan(spec.programmeNum))
  {
    var n := spec.programmeNum;
    PlanComponents(n);
    ElasticsearchDeployed(n);
    InPlan(LogstashService, n);
    InPlan(LogstashDeployment, n);
    InPlan(KafkaService, n);
    InPlan(KafkaClusterService, n);
  }

  /** Writing straight to Elasticsearch, filebeat logs in as `elastic` with that account's own password. */
  lemma FilebeatCredentials(spec: LogFileSpec)
    requires FilebeatOutputFor(spec).ToElasticsearch?
    ensures FilebeatOutputFor(spec).username == ElasticUser
    ensures FilebeatOutputFor(spec).password == spec.elasticPassword
    ensures Authenticates(spec, FilebeatOutputFor(spec).username, FilebeatOutputFor(spec).password)
  {
  }

  /** The topology number reads back with `strconv.Atoi` as the number written. */
  lemma ProgrammeNumberRoundTrip(spec: LogFileSpec)
    requires IsInt64(spec.programmeNum)
    ensures Atoi(FilebeatConfigMapData(spec)[Injector.ProgrammeNumberKey]) == Some(spec.programmeNum)
  {
    AtoiItoa(spec.programmeNum);
  }

  /**
    What the admission webhook sees in this ConfigMap: both keys it needs,
    always; and the TLS init container is injected exactly for topology 2,
    the one topology in which filebeat itself talks to the TLS cluster.
   */
  lemma SidecarReadsFilebeatConfigMap(spec: LogFileSpec)
    ensures Injector.ConfigMapReady(Some(FilebeatConfigMapData(spec)))
    ensures Injector.TlsRequired(FilebeatConfigMapData(spec)) <==> spec.programmeNum == 2
    ensures Injector.TlsRequired(FilebeatConfigMapData(spec)) <==>
      (FilebeatOutputFor(spec).ToElasticsearch? && FilebeatOutputFor(spec).caFile.Some?)
  {
    FilebeatConfigMapReady(spec);
    TlsOnlyForTopologyTwo(spec);
    CaFileOnlyForTopologyTwo(spec);
  }

  lemma FilebeatConfigMapReady(spec: LogFileSpec)
    ensures Injector.ConfigMapReady(Some(FilebeatConfigMapData(spec)))
  {
    var data := FilebeatConfigMapData(spec);
    assert Injector.FilebeatYmlKey in data.Keys && Injector.ProgrammeNumberKey in data.Keys;
  }

  lemma CaFileOnlyForTopologyTwo(spec: LogFileSpec)
    ensures (FilebeatOutputFor(spec).ToElasticsearch? && FilebeatOutputFor(spec).caFile.Some?) <==> spec.programmeNum == 2
  {
  }

  lemma TlsOnlyForTopologyTwo(spec: LogFileSpec)
    ensures Injector.TlsRequired(FilebeatConfigMapData(spec)) <==> spec.programmeNum == 2
  {
    var data := FilebeatConfigMapData(spec);
    assert Injector.ProgrammeNumberKey in data;
    assert Kube.Lookup(data, Injector.ProgrammeNumberKey) == Itoa(spec.programmeNum);
    TwoIsTwo();
    if Itoa(spec.programmeNum) == "2" {
      ItoaInjective(spec.programmeNum, 2);
    }
  }

  lemma TwoIsTwo()
    ensures Itoa(2) == "2"
  {
  }
}
