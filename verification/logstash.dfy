/**
  Logstash as the reconciler creates it for topologies 3 to 6: the pipeline
  (beats or Kafka in, Elasticsearch out), its two ConfigMaps, and the
  Deployment's pod template with the certificates and probe conditionals.
 */
module LogstashConfig {
  import opened Wrappers
  import opened GoStrings
  import opened Kube
  import opened LogFileApi
  import opened Provisioning
  import opened Endpoints
  import opened FilebeatConfig

  const LogstashYmlKey: string := "logstash.yml"
  const LogstashConfKey: string := "logstash.conf"
  const LogstashImage: string := "registry.cn-hangzhou.aliyuncs.com/huisebug/logfile-operator:logstash-8.5.0"
  /** `logstash.yml`: only binds the HTTP API, dropping the image's default monitoring hosts. */
  const LogstashYml: string := "\nhttp.host: \"0.0.0.0\"\n"

  datatype LogstashInput =
    | BeatsInput(port: int)
    | KafkaInput(bootstrap: Endpoint, topic: string)

  /** The `elasticsearch` output; `lineCodec` is the `line { format => "%{message}" }` codec. */
  datatype EsOutput = EsOutput(
    scheme: Scheme, target: Endpoint, index: string, lineCodec: bool,
    user: string, password: string, cacert: Option<string>)

  datatype Pipeline = Pipeline(input: LogstashInput, output: EsOutput)

  /**
    The pipeline of each topology, with the output logging in as `elastic`
    with `password`; no pipeline outside 3..6.
   */
  function PipelineWith(n: int, password: string): Option<Pipeline>
  {
    match n
    case 3 => Some(Pipeline(BeatsInput(LogstashBeatsEndpoint.port),
      EsOutput(Http, EsSingleEndpoint, "logfile-operator-logstash-%{+yyyy.MM.dd}", false, ElasticUser, password, None)))
    case 4 => Some(Pipeline(BeatsInput(LogstashBeatsEndpoint.port),
      EsOutput(Https, EsClusterEndpoint, "logfile-operator-logstash-%{+yyyy.MM.dd}", true, ElasticUser, password, Some(CaCertFile))))
    case 5 => Some(Pipeline(KafkaInput(KafkaSingleEndpoint, KafkaTopic),
      EsOutput(Http, EsSingleEndpoint, "logfile-operator-kafka-logstash-%{+yyyy.MM.dd}", true, ElasticUser, password, None)))
    case 6 => Some(Pipeline(KafkaInput(KafkaClusterEndpoint, KafkaTopic),
      EsOutput(Https, EsClusterEndpoint, "logfile-operator-kafka-cluster-logstash-%{+yyyy.MM.dd}", true, ElasticUser, password, Some(CaCertFile))))
    case _ => None
  }

  /** The pipeline as `LogstashCreteConfigMap` writes it: the Kibana password under the `elastic` user. */
  function PipelineAsWritten(spec: LogFileSpec): Option<Pipeline>
  {
    PipelineWith(spec.programmeNum, spec.kibanaPassword)
  }

  /** The pipeline with the `elastic` user's own password, as the rest of this model uses it. */
  function PipelineFor(spec: LogFileSpec): Option<Pipeline>
  {
    PipelineWith(spec.programmeNum, spec.elasticPassword)
  }

  /**
    As written, every topology with Logstash sends the Kibana password for
    `elastic`, so Elasticsearch lets Logstash in only when the two passwords
    the user chose happen to be equal.
   */
  lemma AsWrittenUsesKibanaPassword(spec: LogFileSpec)
    requires spec.programmeNum in {3, 4, 5, 6}
    ensures PipelineAsWritten(spec).Some?
    ensures PipelineAsWritten(spec).value.output.user == ElasticUser
    ensures PipelineAsWritten(spec).value.output.password == spec.kibanaPassword
    ensures Authenticates(spec, ElasticUser, PipelineAsWritten(spec).value.output.password) <==>
      spec.kibanaPassword == spec.elasticPassword
  {
  }

  /** The as-written and the corrected pipelines exist for the same topologies and differ only in the password. */
  lemma PipelinesDifferOnlyInPassword(spec: LogFileSpec)
    ensures PipelineAsWritten(spec).Some? <==> PipelineFor(spec).Some?
    ensures PipelineAsWritten(spec).Some? ==>
      PipelineAsWritten(spec).value ==
        PipelineFor(spec).value.(output := PipelineFor(spec).value.output.(password := spec.kibanaPassword))
  {
  }

  /** Distinct passwords, as the resource allows: the as-written output is refused. */
  lemma AsWrittenLoginRefused()
    ensures var spec := LogFileSpec(3, "a", "b", "", None, None);
      !Authenticates(spec, PipelineAsWritten(spec).value.output.user, PipelineAsWritten(spec).value.output.password)
  {
    AsWrittenUsesKibanaPassword(LogFileSpec(3, "a", "b", "", None, None));
  }

  /**
    The Elasticsearch output of every topology with Logstash goes to the
    Elasticsearch that topology deploys, by its scheme, with the CA file
    exactly over https, and is let in.
   */
  lemma LogstashOutputDeployed(spec: LogFileSpec)
    ensures PipelineFor(spec).Some? <==> LogstashDeployment in Plan(spec.programmeNum)
    ensures PipelineFor(spec).Some? ==>
      var out := PipelineFor(spec).value.output;
      && out.target == ElasticsearchEndpoint(spec.programmeNum)
      && out.scheme == ElasticsearchScheme(spec.programmeNum)
      && out.target.service in Plan(spec.programmeNum)
      && (out.cacert.Some? <==> out.scheme == Https)
      && Authenticates(spec, out.user, out.password)
  {
    PipelineIffLogstash(spec);
    if PipelineFor(spec).Some? {
      OutputTargetsDeployed(spec);
    }
  }

  lemma PipelineIffLogstash(spec: LogFileSpec)
    ensures PipelineFor(spec).Some? <==> LogstashDeployment in Plan(spec.programmeNum)
  {
    var n := spec.programmeNum;
    LogstashInPlan(n);
    InPlan(LogstashDeployment, n);
    InPlan(LogstashConfigMap, n);
  }

  lemma OutputTargetsDeployed(spec: LogFileSpec)
    requires PipelineFor(spec).Some?
    ensures var out := PipelineFor(spec).value.output;
      && out.target == ElasticsearchEndpoint(spec.programmeNum)
      && out.scheme == ElasticsearchScheme(spec.programmeNum)
      && out.target.service in Plan(spec.programmeNum)
      && (out.cacert.Some? <==> out.scheme == Https)
      && Authenticates(spec, out.user, out.password)
  {
    OutputShape(spec);
    ElasticsearchDeployed(spec.programmeNum);
    ElasticLetIn(spec);
  }

  lemma OutputShape(spec: LogFileSpec)
    requires PipelineFor(spec).Some?
    ensures var out := PipelineFor(spec).value.output;
      && out.target == ElasticsearchEndpoint(spec.programmeNum)
      && out.scheme == ElasticsearchScheme(spec.programmeNum)
      && (out.cacert.Some? <==> out.scheme == Https)
      && out.user == ElasticUser && out.password == spec.elasticPassword
      && SupportedTopology(spec.programmeNum)
  {
  }

  /** `elastic` with the resource's `ELASTIC_PASSWORD` is let in. */
  lemma ElasticLetIn(spec: LogFileSpec)
    ensures Authenticates(spec, ElasticUser, spec.elasticPassword)
  {
    var m := map[ElasticUser := spec.elasticPassword, KibanaSystemUser := spec.kibanaPassword];
    assert Accounts(spec) == m;
    assert m[ElasticUser] == spec.elasticPassword by {
      assert ElasticUser != KibanaSystemUser by { assert ElasticUser[0] != KibanaSystemUser[0]; }
    }
  }

  /**
    Filebeat and Logstash agree on the hand-off: with beats, Logstash listens
    on the port filebeat sends to; with Kafka, it consumes the topic from the
    broker filebeat produces to.
   */
  lemma HandOffMatchesFilebeat(spec: LogFileSpec)
    requires PipelineFor(spec).Some?
    ensures PipelineFor(spec).value.input.BeatsInput? <==> FilebeatOutputFor(spec).ToLogstash?
    ensures PipelineFor(spec).value.input.KafkaInput? <==> FilebeatOutputFor(spec).ToKafka?
    ensures FilebeatOutputFor(spec).ToLogstash? ==>
      && FilebeatOutputFor(spec).target.service == LogstashService
      && PipelineFor(spec).value.input.port == FilebeatOutputFor(spec).target.port
    ensures FilebeatOutputFor(spec).ToKafka? ==>
      && PipelineFor(spec).value.input.bootstrap == FilebeatOutputFor(spec).target
      && PipelineFor(spec).value.input.topic == FilebeatOutputFor(spec).topic
  {
  }

  // ---------------------------------------------------------------------
  // The two ConfigMaps

  function EndpointText(scheme: Scheme, e: Endpoint): string
  {
    (if scheme == Http then "http://" else "https://") + HostName(e) + ":" + Itoa(e.port)
  }

  function InputText(input: LogstashInput): string
  {
    match input
    case BeatsInput(port) => "input {\n  beats {\n    port => " + Itoa(port) + "\n  }\n}\n"
    case KafkaInput(bootstrap, topic) =>
      "input {\n  kafka {\n    bootstrap_servers => \"" + HostName(bootstrap) + ":" + Itoa(bootstrap.port) + "\"\n"
      + "    topics => \"" + topic + "\"\n    consumer_threads => 1\n"
      + "    auto_offset_reset => \"latest\"\n    codec => \"json\"\n  }\n}\n"
  }

  /** The login lines of the `elasticsearch` output. */
  function CredentialLines(user: string, password: string): string
  {
    "    user => \"" + user + "\"\n" + "    password => " + password + "\n"
  }

  function OutputText(out: EsOutput): string
  {
    "output {\n  elasticsearch {\n"
    + "    hosts => [\"" + EndpointText(out.scheme, out.target) + "\"]\n"
    + "    index => \"" + out.index + "\"\n"
    + (if out.lineCodec then "    codec => line { format => \"%{message}\"}\n" else "")
    + "    action => \"create\"\n"
    + CredentialLines(out.user, out.password)
    + ((match out.cacert
        case Some(ca) => "    ssl => true\n    cacert => '" + ca + "'\n"
        case None => "")
       + "  }\n  stdout {\n    codec => rubydebug\n  }\n}\n")
  }

  /** The rendered output holds its login lines. */
  lemma OutputHoldsCredentials(out: EsOutput)
    ensures Contains(OutputText(out), CredentialLines(out.user, out.password))
  {
    var head := "output {\n  elasticsearch {\n"
      + "    hosts => [\"" + EndpointText(out.scheme, out.target) + "\"]\n"
      + "    index => \"" + out.index + "\"\n"
      + (if out.lineCodec then "    codec => line { format => \"%{message}\"}\n" else "")
      + "    action => \"create\"\n";
    var tail := (match out.cacert
        case Some(ca) => "    ssl => true\n    cacert => '" + ca + "'\n"
        case None => "")
       + "  }\n  stdout {\n    codec => rubydebug\n  }\n}\n";
    assert OutputText(out) == head + CredentialLines(out.user, out.password) + tail;
    ContainsInfix(head, CredentialLines(out.user, out.password), tail);
  }

  /** The text of `logstash.conf`; the empty document without a pipeline. */
  function LogstashConf(p: Option<Pipeline>): (r: string)
    ensures r == "" <==> p.None?
  {
    match p
    case None => ""
    case Some(pl) => "\n" + InputText(pl.input) + OutputText(pl.output)
  }

  /**
    `LogstashCreteConfigMap`: two ConfigMaps, `<name>yml` and `<name>conf`,
    one key each; the pipeline is the one the source writes, with the Kibana
    password for `elastic`.
   */
  function LogstashConfigMaps(metaName: string, spec: LogFileSpec): (r: map<string, map<string, string>>)
    ensures r.Keys == {metaName + "yml", metaName + "conf"}
  {
    map[metaName + "yml" := map[LogstashYmlKey := LogstashYml],
        metaName + "conf" := map[LogstashConfKey := LogstashConf(PipelineAsWritten(spec))]]
  }

  /**
    The two ConfigMaps hold one key each: `logstash.yml` with the fixed
    settings, and `logstash.conf` with the as-written pipeline, empty exactly
    outside topologies 3 to 6; otherwise it logs in as `elastic` with the
    resource's `KIBANA_PASSWORD`.
   */
  lemma LogstashConfigMapsContent(metaName: string, spec: LogFileSpec)
    ensures LogstashConfigMaps(metaName, spec)[metaName + "yml"] == map[LogstashYmlKey := LogstashYml]
    ensures LogstashConfigMaps(metaName, spec)[metaName + "conf"] == map[LogstashConfKey := LogstashConf(PipelineAsWritten(spec))]
    ensures LogstashConfigMaps(metaName, spec)[metaName + "conf"][LogstashConfKey] == "" <==> spec.programmeNum !in {3, 4, 5, 6}
    ensures spec.programmeNum in {3, 4, 5, 6} ==>
      Contains(LogstashConfigMaps(metaName, spec)[metaName + "conf"][LogstashConfKey],
               CredentialLines(ElasticUser, spec.kibanaPassword))
  {
    YmlMapContent(metaName, spec);
    ConfMapContent(metaName, spec);
    var text := LogstashConf(PipelineAsWritten(spec));
    assert LogstashConfigMaps(metaName, spec)[metaName + "conf"][LogstashConfKey] == text;
    AsWrittenTopologies(spec);
    if spec.programmeNum in {3, 4, 5, 6} {
      AsWrittenConfLogin(spec);
    }
  }

  lemma AsWrittenTopologies(spec: LogFileSpec)
    ensures PipelineAsWritten(spec).Some? <==> spec.programmeNum in {3, 4, 5, 6}
  {
  }

  lemma AsWrittenConfLogin(spec: LogFileSpec)
    requires spec.programmeNum in {3, 4, 5, 6}
    ensures Contains(LogstashConf(PipelineAsWritten(spec)), CredentialLines(ElasticUser, spec.kibanaPassword))
  {
    var p := PipelineAsWritten(spec).value;
    AsWrittenUsesKibanaPassword(spec);
    ConfHoldsCredentials(p);
    assert CredentialLines(p.output.user, p.output.password) == CredentialLines(ElasticUser, spec.kibanaPassword);
  }

  /** The rendered `logstash.conf` of a pipeline holds its output's login lines. */
  lemma ConfHoldsCredentials(p: Pipeline)
    ensures Contains(LogstashConf(Some(p)), CredentialLines(p.output.user, p.output.password))
  {
    OutputHoldsCredentials(p.output);
    ContainsAfterPrefix("\n" + InputText(p.input), OutputText(p.output), CredentialLines(p.output.user, p.output.password));
  }

  lemma YmlMapContent(metaName: string, spec: LogFileSpec)
    ensures LogstashConfigMaps(metaName, spec)[metaName + "yml"] == map[LogstashYmlKey := LogstashYml]
  {
    var yml, conf := metaName + "yml", metaName + "conf";
    SuffixedNamesDiffer(metaName);
    var m := map[yml := map[LogstashYmlKey := LogstashYml], conf := map[LogstashConfKey := LogstashConf(PipelineAsWritten(spec))]];
    assert LogstashConfigMaps(metaName, spec) == m;
    assert m[yml] == map[LogstashYmlKey := LogstashYml];
  }

  lemma ConfMapContent(metaName: string, spec: LogFileSpec)
    ensures LogstashConfigMaps(metaName, spec)[metaName + "conf"] == map[LogstashConfKey := LogstashConf(PipelineAsWritten(spec))]
  {
    var yml, conf := metaName + "yml", metaName + "conf";
    var cm := map[LogstashConfKey := LogstashConf(PipelineAsWritten(spec))];
    var m := map[yml := map[LogstashYmlKey := LogstashYml], conf := cm];
    assert LogstashConfigMaps(metaName, spec) == m;
    assert m[conf] == cm;
  }

  lemma SuffixedNamesDiffer(metaName: string)
    ensures metaName + "yml" != metaName + "conf"
  {
    assert (metaName + "yml")[|metaName|] != (metaName + "conf")[|metaName|];
  }

  // ---------------------------------------------------------------------
  // The Deployment

  const LocaleEnv: EnvVar := EnvVar("I18N_LOCALE", "zh-CN")
  const LogstashLiveness: Probe := Probe("logstash", 120, 120, 120)
  const LogstashReadiness: Probe := Probe("logstash", 120, 30, 120)

  /** A volume backed by the ConfigMap of the same name. */
  function ConfigMapVolume(name: string): Volume
  {
    Volume(name, ConfigMapRef(name))
  }

  /** The two configuration files, each mounted by sub-path from its own ConfigMap. */
  function ConfigMounts(metaName: string): seq<VolumeMount>
  {
    [VolumeMount(metaName + "yml", "/usr/share/logstash/config/logstash.yml", LogstashYmlKey, false),
     VolumeMount(metaName + "conf", "/usr/share/logstash/pipeline/logstash.conf", LogstashConfKey, false)]
  }

  /** The loop over the containers: the probes go to each container with the given name and to no other. */
  function AttachProbes(cs: seq<Container>, name: string, liveness: Probe, readiness: Probe): (r: seq<Container>)
    ensures |r| == |cs|
    ensures forall i :: 0 <= i < |cs| && cs[i].name == name ==>
      r[i] == cs[i].(liveness := Some(liveness), readiness := Some(readiness))
    ensures forall i :: 0 <= i < |cs| && cs[i].name != name ==> r[i] == cs[i]
  {
    seq(|cs|, i requires 0 <= i < |cs| =>
      if cs[i].name == name then cs[i].(liveness := Some(liveness), readiness := Some(readiness)) else cs[i])
  }

  function LogstashPodTemplate(metaName: string, spec: LogFileSpec): PodTemplate
  {
    var n := spec.programmeNum;
    var certs := n == 4 || n == 6;
    var mounts := ConfigMounts(metaName) + (if certs then [CertsReadOnlyMount] else []);
    var volumes := [ConfigMapVolume(metaName + "yml"), ConfigMapVolume(metaName + "conf")]
      + (if certs then [CertsSecretVolume] else []);
    var containers := [Container("logstash", LogstashImage, mounts, [LocaleEnv],
      [ContainerPort("logstash", LogstashBeatsEndpoint.port)], false, ImageDefault, None, None)];
    PodTemplate(volumes,
      if n == 3 || n == 4 then AttachProbes(containers, "logstash", LogstashLiveness, LogstashReadiness)
      else containers)
  }

  /**
    The certificates secret and its read-only mount are present exactly when
    the pipeline's output needs the CA file; the two configuration volumes
    are always there.
   */
  lemma LogstashCertsIffCacert(metaName: string, spec: LogFileSpec)
    requires PipelineFor(spec).Some?
    ensures var t := LogstashPodTemplate(metaName, spec);
      && |t.containers| == 1
      && (CertsSecretVolume in t.volumes <==> PipelineFor(spec).value.output.cacert.Some?)
      && (CertsReadOnlyMount in t.containers[0].mounts <==> PipelineFor(spec).value.output.cacert.Some?)
      && t.volumes[..2] == [ConfigMapVolume(metaName + "yml"), ConfigMapVolume(metaName + "conf")]
      && t.containers[0].mounts[..2] == ConfigMounts(metaName)
  {
    var t := LogstashPodTemplate(metaName, spec);
    CertsNotAConfigVolume(metaName);
    if CertsSecretVolume in t.volumes {
      assert t.volumes[2] == CertsSecretVolume;
    }
  }

  lemma CertsNotAConfigVolume(metaName: string)
    ensures CertsSecretVolume != ConfigMapVolume(metaName + "yml")
    ensures CertsSecretVolume != ConfigMapVolume(metaName + "conf")
    ensures CertsReadOnlyMount !in ConfigMounts(metaName)
  {
  }

  /**
    The probes are set exactly when Logstash serves the beats port, that is
    for 3 and 4 (as a Kafka consumer it listens on nothing), and then on the
    `logstash` container, against the port it names.
   */
  lemma LogstashProbesIffBeats(metaName: string, spec: LogFileSpec)
    requires PipelineFor(spec).Some?
    ensures var c := LogstashPodTemplate(metaName, spec).containers[0];
      && c.name == "logstash"
      && (c.liveness.Some? <==> PipelineFor(spec).value.input.BeatsInput?)
      && (c.readiness.Some? <==> PipelineFor(spec).value.input.BeatsInput?)
      && (c.liveness.Some? ==> c.liveness == Some(LogstashLiveness) && c.readiness == Some(LogstashReadiness))
      && c.ports == [ContainerPort(LogstashLiveness.portName, LogstashBeatsEndpoint.port)]
  {
  }

  /** Every mount names a volume of the pod, and every probe a port of its container. */
  lemma LogstashTemplateWellFormed(metaName: string, spec: LogFileSpec)
    ensures MountsResolve(LogstashPodTemplate(metaName, spec))
    ensures ProbesResolve(LogstashPodTemplate(metaName, spec))
  {
    LogstashMountsResolve(metaName, spec);
    LogstashProbesResolve(metaName, spec);
  }

  lemma LogstashMountsResolve(metaName: string, spec: LogFileSpec)
    ensures MountsResolve(LogstashPodTemplate(metaName, spec))
  {
    var t := LogstashPodTemplate(metaName, spec);
    MountsParallelVolumes(metaName, spec);
    forall c, m | c in t.containers && m in c.mounts ensures exists v :: v in t.volumes && v.name == m.name {
      assert c == t.containers[0];
      var i :| 0 <= i < |c.mounts| && c.mounts[i] == m;
      assert t.volumes[i] in t.volumes;
    }
  }

  /** The single container's `i`-th mount is backed by the template's `i`-th volume. */
  lemma MountsParallelVolumes(metaName: string, spec: LogFileSpec)
    ensures var t := LogstashPodTemplate(metaName, spec);
      && |t.containers| == 1
      && |t.containers[0].mounts| == |t.volumes|
      && forall i :: 0 <= i < |t.volumes| ==> t.containers[0].mounts[i].name == t.volumes[i].name
  {
  }

  lemma LogstashProbesResolve(metaName: string, spec: LogFileSpec)
    ensures ProbesResolve(LogstashPodTemplate(metaName, spec))
  {
    var t := LogstashPodTemplate(metaName, spec);
    assert |t.containers| == 1;
    var c := t.containers[0];
    assert c.ports[0].name == LogstashLiveness.portName == LogstashReadiness.portName;
  }

  /**
    Each configuration mount refers to the ConfigMap of its own name, which
    holds the key the mount takes as its sub-path.
   */
  lemma ConfigMountsResolve(metaName: string, spec: LogFileSpec)
    ensures forall m :: m in ConfigMounts(metaName) ==>
      && ConfigMapVolume(m.name) in LogstashPodTemplate(metaName, spec).volumes
      && m.name in LogstashConfigMaps(metaName, spec)
      && m.subPath in LogstashConfigMaps(metaName, spec)[m.name]
  {
    ConfigVolumesPresent(metaName, spec);
    ConfigMapsHoldSubPaths(metaName, spec);
  }

  lemma ConfigVolumesPresent(metaName: string, spec: LogFileSpec)
    ensures forall m :: m in ConfigMounts(metaName) ==> ConfigMapVolume(m.name) in LogstashPodTemplate(metaName, spec).volumes
  {
    var ms := ConfigMounts(metaName);
    var vs := LogstashPodTemplate(metaName, spec).volumes;
    forall m | m in ms ensures ConfigMapVolume(m.name) in vs {
      assert m == ms[0] || m == ms[1];
      assert vs[0] == ConfigMapVolume(ms[0].name) && vs[1] == ConfigMapVolume(ms[1].name);
    }
  }

  lemma ConfigMapsHoldSubPaths(metaName: string, spec: LogFileSpec)
    ensures forall m :: m in ConfigMounts(metaName) ==>
      m.name in LogstashConfigMaps(metaName, spec) && m.subPath in LogstashConfigMaps(metaName, spec)[m.name]
  {
    var ms := ConfigMounts(metaName);
    forall m | m in ms
      ensures m.name in LogstashConfigMaps(metaName, spec) && m.subPath in LogstashConfigMaps(metaName, spec)[m.name]
    {
      assert m == ms[0] || m == ms[1];
      if m == ms[0] { YmlMapHoldsKey(metaName, spec); } else { ConfMapHoldsKey(metaName, spec); }
    }
  }

  lemma YmlMapHoldsKey(metaName: string, spec: LogFileSpec)
    ensures LogstashYmlKey in LogstashConfigMaps(metaName, spec)[metaName + "yml"]
  {
    YmlMapContent(metaName, spec);
  }

  lemma ConfMapHoldsKey(metaName: string, spec: LogFileSpec)
    ensures LogstashConfKey in LogstashConfigMaps(metaName, spec)[metaName + "conf"]
  {
    ConfMapContent(metaName, spec);
  }
}
