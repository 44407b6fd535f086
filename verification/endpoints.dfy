/**
  The in-cluster addresses the generated configurations of filebeat,
  Logstash and Kibana point at, and the accounts Elasticsearch is set up
  with. An address is named by the provisioning step that creates its
  Service, so that "the target is deployed" can be stated against the plan.
 */
module Endpoints {
  import opened Kube
  import opened LogFileApi
  import opened Provisioning

  datatype Scheme = Http | Https

  /** A Service created by `service` (its headless twin when `headless`), on `port`. */
  datatype Endpoint = Endpoint(service: Step, headless: bool, port: nat)

  /** `<name>[-headless].<namespace>`: the DNS name of the Service; the port is kept apart as a number. */
  function HostName(e: Endpoint): string
  {
    ObjectName(e.service) + (if e.headless then "-headless" else "") + "." + OperatorNamespace
  }

  const EsSingleEndpoint: Endpoint := Endpoint(ElasticsearchService, false, 9200)
  const EsClusterEndpoint: Endpoint := Endpoint(EsClusterService, false, 9200)
  const LogstashBeatsEndpoint: Endpoint := Endpoint(LogstashService, false, 5044)
  const KafkaSingleEndpoint: Endpoint := Endpoint(KafkaService, false, 9092)
  const KafkaClusterEndpoint: Endpoint := Endpoint(KafkaClusterService, true, 9092)

  const KafkaTopic: string := "kafka_log"
  /** CA certificate of the cluster's TLS, inside the mounted certs secret. */
  const CaCertFile: string := "/usr/share/elasticsearch/config/certs/ca.crt"
  const CertsSecretName: string := "elasticsearch-master-certs"
  const CertsMountDir: string := "/usr/share/elasticsearch/config/certs/"

  /** The cluster's certificates secret as a volume, and its read-only mount, as Kibana and Logstash add them. */
  const CertsSecretVolume: Volume := Volume(CertsSecretName, SecretRef(CertsSecretName))
  const CertsReadOnlyMount: VolumeMount := VolumeMount(CertsSecretName, CertsMountDir, "", true)

  // The host names and ports as they appear literally in the generated configurations.

  lemma EsSingleHost()
    ensures HostName(EsSingleEndpoint) == "elasticsearch.logfile-operator-system" && EsSingleEndpoint.port == 9200
  {
    assert HostName(EsSingleEndpoint) == "elasticsearch" + "." + OperatorNamespace;
  }

  lemma EsClusterHost()
    ensures HostName(EsClusterEndpoint) == "elasticsearch-master.logfile-operator-system" && EsClusterEndpoint.port == 9200
  {
    assert HostName(EsClusterEndpoint) == "elasticsearch-master" + "." + OperatorNamespace;
  }

  lemma LogstashBeatsHost()
    ensures HostName(LogstashBeatsEndpoint) == "logstash.logfile-operator-system" && LogstashBeatsEndpoint.port == 5044
  {
    assert HostName(LogstashBeatsEndpoint) == "logstash" + "." + OperatorNamespace;
  }

  lemma KafkaSingleHost()
    ensures HostName(KafkaSingleEndpoint) == "kafka.logfile-operator-system" && KafkaSingleEndpoint.port == 9092
  {
    assert HostName(KafkaSingleEndpoint) == "kafka" + "." + OperatorNamespace;
  }

  lemma KafkaClusterHost()
    ensures HostName(KafkaClusterEndpoint) == "kafka-cluster-headless.logfile-operator-system" && KafkaClusterEndpoint.port == 9092
  {
    KafkaClusterHostPrefix();
    assert "kafka-cluster-headless." + OperatorNamespace == "kafka-cluster-headless.logfile-operator-system";
  }

  lemma KafkaClusterHostPrefix()
    ensures HostName(KafkaClusterEndpoint) == "kafka-cluster-headless." + OperatorNamespace
  {
    assert HostName(KafkaClusterEndpoint) == "kafka-cluster" + "-headless" + "." + OperatorNamespace;
    assert "kafka-cluster" + "-headless" + "." == "kafka-cluster-headless.";
  }

  /**
    The Elasticsearch a topology deploys: the single node over http for
    1, 3 and 5, the TLS cluster for 2, 4 and 6.
   */
  function ElasticsearchScheme(n: int): Scheme
  {
    if n in {2, 4, 6} then Https else Http
  }

  function ElasticsearchEndpoint(n: int): Endpoint
  {
    if n in {2, 4, 6} then EsClusterEndpoint else EsSingleEndpoint
  }

  /** For a supported topology, the Elasticsearch clients are pointed at is the one the plan deploys, and https means the cluster. */
  lemma ElasticsearchDeployed(n: int)
    requires SupportedTopology(n)
    ensures ElasticsearchEndpoint(n).service in Plan(n)
    ensures ElasticsearchScheme(n) == Https <==> EsClusterStatefulSet in Plan(n)
  {
    PlanComponents(n);
  }

  // ---------------------------------------------------------------------
  // Accounts

  /** The superuser of the Elasticsearch images, and the user Kibana logs in as. */
  const ElasticUser: string := "elastic"
  const KibanaSystemUser: string := "kibana_system"

  /**
    The accounts Elasticsearch ends up with: the image creates `elastic`
    with `ELASTIC_PASSWORD`, and the set-password Job gives `kibana_system`
    `KIBANA_PASSWORD`.
   */
  function Accounts(spec: LogFileSpec): map<string, string>
  {
    map[ElasticUser := spec.elasticPassword, KibanaSystemUser := spec.kibanaPassword]
  }

  /** A client presenting `user` and `password` is let in. */
  predicate Authenticates(spec: LogFileSpec, user: string, password: string)
  {
    user in Accounts(spec) && Accounts(spec)[user] == password
  }
}
