/**
  The slice of the Kubernetes core API objects that the operator reads or
  builds: pods, containers, volumes, mounts, environment variables, probes
  and service ports. Plain immutable records; no behaviour lives here.
 */
module Kube {
  import opened Wrappers

  datatype VolumeMount = VolumeMount(name: string, mountPath: string, subPath: string, readOnly: bool)

  datatype VolumeSource =
    | EmptyDir
    | ConfigMapRef(configMapName: string)
    | SecretRef(secretName: string)

  datatype Volume = Volume(name: string, source: VolumeSource)

  datatype EnvVar = EnvVar(name: string, value: string)

  /** A TCP-socket probe on a named container port. */
  datatype Probe = Probe(portName: string, periodSeconds: int, initialDelaySeconds: int, timeoutSeconds: int)

  datatype ContainerPort = ContainerPort(name: string, containerPort: int)

  /**
    What a container runs. Generated documents (the filebeat configuration,
    the TLS material) are kept structured instead of as shell text.
   */
  datatype Entrypoint =
    | ImageDefault
    | RunArgs(args: seq<string>)
    | WriteFilebeatConfig(inputs: seq<FilebeatInput>, baseConfig: string, target: string)
    | WriteCertificates(targetDir: string)

  /** One entry of the generated `filebeat.inputs` list. */
  datatype FilebeatInput = FilebeatInput(inputType: string, paths: seq<string>)

  datatype Container = Container(
    name: string,
    image: string,
    mounts: seq<VolumeMount>,
    env: seq<EnvVar>,
    ports: seq<ContainerPort>,
    privileged: bool,
    entry: Entrypoint,
    liveness: Option<Probe>,
    readiness: Option<Probe>)

  datatype Pod = Pod(
    name: string,
    namespace: string,
    labels: map<string, string>,
    annotations: map<string, string>,
    volumes: seq<Volume>,
    initContainers: seq<Container>,
    containers: seq<Container>)

  /** The pod template of a Deployment or StatefulSet: its volumes and containers. */
  datatype PodTemplate = PodTemplate(volumes: seq<Volume>, containers: seq<Container>)

  /** Every mount of every container names a volume of the template, as the API server requires. */
  predicate MountsResolve(t: PodTemplate)
  {
    forall c, m :: c in t.containers && m in c.mounts ==> exists v :: v in t.volumes && v.name == m.name
  }

  /** Every probe of every container targets a port the container names. */
  predicate ProbesResolve(t: PodTemplate)
  {
    forall c :: c in t.containers ==>
      && (c.liveness.Some? ==> exists p :: p in c.ports && p.name == c.liveness.value.portName)
      && (c.readiness.Some? ==> exists p :: p in c.ports && p.name == c.readiness.value.portName)
  }

  datatype ServicePort = ServicePort(name: string, port: int, nodePort: int)

  /** A mount with no sub-path that is writable. */
  function Mount(name: string, path: string): VolumeMount
  {
    VolumeMount(name, path, "", false)
  }

  /** Go's `m[k]` on a `map[string]string`: the zero value when absent. */
  function Lookup(m: map<string, string>, k: string): string
  {
    if k in m then m[k] else ""
  }
}
