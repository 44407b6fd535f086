/**
  Kibana as the reconciler creates it for each topology: the `kibana.yml`
  that points it at the deployed Elasticsearch, the Deployment's pod
  template with the TLS additions of the cluster topologies, and the
  NodePort Service.
 */
module KibanaConfig {
  import opened Wrappers
  import opened GoStrings
  import opened Kube
  import opened LogFileApi
  import opened Provisioning
  import opened Endpoints

  const KibanaYmlKey: string := "kibana.yml"
  const KibanaImage: string := "registry.cn-hangzhou.aliyuncs.com/huisebug/logfile-operator:kibana-8.5.0"
  const KibanaConfigDir: string := "/usr/share/kibana/config"
  const KibanaPort: int := 5601

  /** The Elasticsearch connection settings of `kibana.yml`. */
  datatype KibanaSettings = KibanaSettings(scheme: Scheme, target: Endpoint, username: string, password: string)

  /** Http to the single node for 1, 3 and 5, https to the cluster for 2, 4 and 6, nothing otherwise. */
  function KibanaSettingsFor(spec: LogFileSpec): Option<KibanaSettings>
  {
    var n := spec.programmeNum;
    if n in {1, 3, 5} then Some(KibanaSettings(Http, EsSingleEndpoint, KibanaSystemUser, spec.kibanaPassword))
    else if n in {2, 4, 6} then Some(KibanaSettings(Https, EsClusterEndpoint, KibanaSystemUser, spec.kibanaPassword))
    else None
  }

  /** The text of `kibana.yml`; the empty document without settings. */
  function KibanaYml(settings: Option<KibanaSettings>): (r: string)
    ensures r == "" <==> settings.None?
  {
    match settings
    case None => ""
    case Some(s) =>
      "\nserver.name: kibana\nserver.host: 0.0.0.0\n"
      + "elasticsearch.hosts: [ \"" + (if s.scheme == Http then "http://" else "https://")
      + HostName(s.target) + ":" + Itoa(s.target.port) + "\" ]\n"
      + "monitoring.ui.container.elasticsearch.enabled: true\n"
      + "elasticsearch.username: " + s.username + "\n"
      + "elasticsearch.password: " + s.password + "\n"
  }

  /** `KibanaCreteConfigMap`'s data: one key, whatever the topology. */
  function KibanaConfigMapData(spec: LogFileSpec): (r: map<string, string>)
    ensures r.Keys == {KibanaYmlKey}
    ensures r[KibanaYmlKey] == "" <==> !SupportedTopology(spec.programmeNum)
  {
    map[KibanaYmlKey := KibanaYml(KibanaSettingsFor(spec))]
  }

  /**
    For a supported topology Kibana is pointed at the Elasticsearch the plan
    deploys, by the scheme that Elasticsearch speaks, and logs in as
    `kibana_system` with the password the set-password Job gave that user.
   */
  lemma KibanaTargetsDeployedElasticsearch(spec: LogFileSpec)
    ensures KibanaSettingsFor(spec).Some? <==> SupportedTopology(spec.programmeNum)
    ensures KibanaSettingsFor(spec).Some? ==>
      var s := KibanaSettingsFor(spec).value;
      && s.target == ElasticsearchEndpoint(spec.programmeNum)
      && s.scheme == ElasticsearchScheme(spec.programmeNum)
      && s.target.service in Plan(spec.programmeNum)
      && s.username == KibanaSystemUser
      && Authenticates(spec, s.username, s.password)
  {
    if SupportedTopology(spec.programmeNum) {
      ElasticsearchDeployed(spec.programmeNum);
    }
  }

  // ---------------------------------------------------------------------
  // The Deployment

  /** The topologies whose Elasticsearch is the TLS cluster. */
  predicate UsesTlsCluster(n: int)
  {
    n == 2 || n == 4 || n == 6
  }

  const LocaleEnv: EnvVar := EnvVar("I18N_LOCALE", "zh-CN")
  const CaEnv: EnvVar := EnvVar("ELASTICSEARCH_SSL_CERTIFICATEAUTHORITIES", CaCertFile)
  /** The ConfigMap `kibana.yml` lives in, mounted over Kibana's configuration directory. */
  const ConfVolume: Volume := Volume("conf", ConfigMapRef(ObjectName(KibanaConfigMap)))
  const ConfMount: VolumeMount := Mount("conf", KibanaConfigDir)
  const KibanaProbe: Probe := Probe("kibana", 120, 60, 120)

  function KibanaPodTemplate(spec: LogFileSpec): PodTemplate
  {
    var tls := UsesTlsCluster(spec.programmeNum);
    var env := [LocaleEnv] + (if tls then [CaEnv] else []);
    var mounts := [ConfMount] + (if tls then [CertsReadOnlyMount] else []);
    var volumes := [ConfVolume] + (if tls then [CertsSecretVolume] else []);
    PodTemplate(volumes,
      [Container("kibana", KibanaImage, mounts, env, [ContainerPort("kibana", KibanaPort)], false,
                 ImageDefault, Some(KibanaProbe), Some(KibanaProbe))])
  }

  /**
    One container. The `conf` volume and mount and the locale come first for
    every topology; the CA variable, the read-only certificates mount and
    the secret volume are appended exactly when the topology deploys the TLS
    cluster, and nothing else is.
   */
  lemma KibanaTlsAdditions(spec: LogFileSpec)
    ensures var t := KibanaPodTemplate(spec);
      && |t.containers| == 1
      && var c := t.containers[0];
      && c.name == "kibana"
      && t.volumes[0] == ConfVolume && c.mounts[0] == ConfMount && c.env[0] == LocaleEnv
      && (EsClusterStatefulSet in Plan(spec.programmeNum) ==>
            t.volumes == [ConfVolume, CertsSecretVolume]
            && c.mounts == [ConfMount, CertsReadOnlyMount]
            && c.env == [LocaleEnv, CaEnv])
      && (EsClusterStatefulSet !in Plan(spec.programmeNum) ==>
            t.volumes == [ConfVolume] && c.mounts == [ConfMount] && c.env == [LocaleEnv])
  {
    PlanComponents(spec.programmeNum);
  }

  /**
    The CA path Kibana is given exists inside the certificates mount exactly
    when it is given, and the https settings come with it.
   */
  lemma KibanaCaMatchesScheme(spec: LogFileSpec)
    requires SupportedTopology(spec.programmeNum)
    ensures var c := KibanaPodTemplate(spec).containers[0];
      (CaEnv in c.env <==> KibanaSettingsFor(spec).value.scheme == Https)
      && (CaEnv in c.env <==> CertsReadOnlyMount in c.mounts)
      && HasPrefix(CaEnv.value, CertsReadOnlyMount.mountPath)
  {
    assert CaEnv.value == CertsMountDir + "ca.crt";
  }

  /** Every mount names a volume of the pod and every probe a port of the container. */
  lemma KibanaTemplateWellFormed(spec: LogFileSpec)
    ensures MountsResolve(KibanaPodTemplate(spec))
    ensures ProbesResolve(KibanaPodTemplate(spec))
    ensures ConfVolume.source.configMapName == ObjectName(KibanaConfigMap)
  {
    var t := KibanaPodTemplate(spec);
    var c := t.containers[0];
    assert c.ports[0].name == KibanaProbe.portName;
    forall m | m in c.mounts ensures exists v :: v in t.volumes && v.name == m.name {
      if m == ConfMount { assert t.volumes[0].name == m.name; }
      else { assert t.volumes[1].name == m.name; }
    }
  }

  // ---------------------------------------------------------------------
  // The Service

  /**
    `KibanaCreteService`'s one port: 5601 exposed on the node port the
    resource names, converted to 32 bits. Without node ports the source
    dereferences a nil pointer: no Service.
   */
  function KibanaServicePort(spec: LogFileSpec): (r: Option<ServicePort>)
    ensures r.Some? <==> spec.nodePorts.Some?
    ensures r.Some? ==> r.value.name == "http" && r.value.port == KibanaPort
    ensures r.Some? ==> r.value.nodePort == ToInt32(spec.nodePorts.value.kibana)
  {
    match spec.nodePorts
    case None => None
    case Some(np) => Some(ServicePort("http", KibanaPort, ToInt32(np.kibana)))
  }

  /**
    After the defaulting webhook there is always a Service, on the node port
    the user gave or on 31056 when they gave none.
   */
  lemma KibanaServiceAfterDefault(lf: LogFile)
    ensures KibanaServicePort(Default(lf).spec).Some?
    ensures lf.spec.nodePorts.None? || lf.spec.nodePorts.value.kibana == 0 ==>
      KibanaServicePort(Default(lf).spec).value.nodePort == DefaultKibanaNodePort
    ensures lf.spec.nodePorts.Some? && 0 < lf.spec.nodePorts.value.kibana < 0x8000_0000 ==>
      KibanaServicePort(Default(lf).spec).value.nodePort == lf.spec.nodePorts.value.kibana
  {
    DefaultFieldwise(lf);
    assert GetPort(Default(lf).spec.nodePorts.value, KibanaNodePort) == Default(lf).spec.nodePorts.value.kibana;
  }
}
