/**
  The `LogFile` custom resource and its admission webhooks: the defaulting
  of storage sizes and node ports, and the validation of the topology number.
 */
module LogFileApi {
  import opened Wrappers

  datatype ResourceStorage = ResourceStorage(elasticsearch: string, kafka: string, zookeeper: string)

  datatype NodePorts = NodePorts(elasticsearch: int, kibana: int)

  datatype LogFileSpec = LogFileSpec(
    programmeNum: int,
    elasticPassword: string,
    kibanaPassword: string,
    storageClassName: string,
    resourceStorage: Option<ResourceStorage>,
    nodePorts: Option<NodePorts>)

  datatype LogFileStatus = LogFileStatus(status: string)

  /** `deleting` stands for a set deletion timestamp. */
  datatype LogFile = LogFile(name: string, namespace: string, spec: LogFileSpec, status: LogFileStatus, deleting: bool)

  const DefaultElasticsearchStorage: string := "100Gi"
  const DefaultKafkaStorage: string := "10Gi"
  const DefaultZookeeperStorage: string := "10Gi"
  const DefaultElasticsearchNodePort: int := 31920
  const DefaultKibanaNodePort: int := 31056

  // ---------------------------------------------------------------------
  // Storage sizes: the reflective loop over the three fields

  datatype StorageField = EsStorage | KafkaStorage | ZookeeperStorage

  /** The fields in declaration order, as reflection enumerates them. */
  const StorageFields: seq<StorageField> := [EsStorage, KafkaStorage, ZookeeperStorage]

  function GetStorage(rs: ResourceStorage, f: StorageField): string
  {
    match f
    case EsStorage => rs.elasticsearch
    case KafkaStorage => rs.kafka
    case ZookeeperStorage => rs.zookeeper
  }

  function SetStorage(rs: ResourceStorage, f: StorageField, v: string): (r: ResourceStorage)
    ensures GetStorage(r, f) == v
    ensures forall g :: g != f ==> GetStorage(r, g) == GetStorage(rs, g)
  {
    match f
    case EsStorage => rs.(elasticsearch := v)
    case KafkaStorage => rs.(kafka := v)
    case ZookeeperStorage => rs.(zookeeper := v)
  }

  function StorageDefault(f: StorageField): string
  {
    match f
    case EsStorage => DefaultElasticsearchStorage
    case KafkaStorage => DefaultKafkaStorage
    case ZookeeperStorage => DefaultZookeeperStorage
  }

  /**
    The loop body over `fields`: each field empty in the `snapshot` taken
    before the loop is set to its default in `rs`.
   */
  function FillStorage(snapshot: ResourceStorage, rs: ResourceStorage, fields: seq<StorageField>): ResourceStorage
    decreases |fields|
  {
    if |fields| == 0 then rs
    else
      var f := fields[0];
      var rs' := if GetStorage(snapshot, f) == "" then SetStorage(rs, f, StorageDefault(f)) else rs;
      FillStorage(snapshot, rs', fields[1..])
  }

  /** A listed field is defaulted exactly when the snapshot has it empty; an unlisted one is never touched. */
  lemma {:induction false} FillStorageFields(snapshot: ResourceStorage, rs: ResourceStorage, fields: seq<StorageField>)
    ensures forall f :: f in fields && GetStorage(snapshot, f) == "" ==>
      GetStorage(FillStorage(snapshot, rs, fields), f) == StorageDefault(f)
    ensures forall f :: f in fields && GetStorage(snapshot, f) != "" && GetStorage(rs, f) == GetStorage(snapshot, f) ==>
      GetStorage(FillStorage(snapshot, rs, fields), f) == GetStorage(snapshot, f)
    ensures forall f :: f !in fields ==> GetStorage(FillStorage(snapshot, rs, fields), f) == GetStorage(rs, f)
    decreases |fields|
  {
    if |fields| > 0 {
      var f := fields[0];
      var rs' := if GetStorage(snapshot, f) == "" then SetStorage(rs, f, StorageDefault(f)) else rs;
      FillStorageFields(snapshot, rs', fields[1..]);
      assert forall g :: g in fields <==> g == f || g in fields[1..];
    }
  }

  /** Storage defaulting: a nil block becomes the three defaults, then every empty field gets its default. */
  function DefaultStorage(rs: Option<ResourceStorage>): (r: ResourceStorage)
  {
    var base := if rs.None? then ResourceStorage(DefaultElasticsearchStorage, DefaultKafkaStorage, DefaultZookeeperStorage) else rs.value;
    FillStorage(base, base, StorageFields)
  }

  /** An empty storage field is replaced by its default; a non-empty one is kept; nil gives all three defaults. */
  lemma DefaultStorageFields(rs: Option<ResourceStorage>)
    ensures forall f :: rs.None? ==> GetStorage(DefaultStorage(rs), f) == StorageDefault(f)
    ensures forall f :: rs.Some? && GetStorage(rs.value, f) == "" ==> GetStorage(DefaultStorage(rs), f) == StorageDefault(f)
    ensures forall f :: rs.Some? && GetStorage(rs.value, f) != "" ==> GetStorage(DefaultStorage(rs), f) == GetStorage(rs.value, f)
  {
    var base := if rs.None? then ResourceStorage(DefaultElasticsearchStorage, DefaultKafkaStorage, DefaultZookeeperStorage) else rs.value;
    FillStorageFields(base, base, StorageFields);
    assert forall f :: f in StorageFields;
    assert forall f :: GetStorage(ResourceStorage(DefaultElasticsearchStorage, DefaultKafkaStorage, DefaultZookeeperStorage), f) == StorageDefault(f);
  }

  // ---------------------------------------------------------------------
  // Node ports: the same loop over two integer fields

  datatype PortField = EsNodePort | KibanaNodePort

  const PortFields: seq<PortField> := [EsNodePort, KibanaNodePort]

  function GetPort(np: NodePorts, f: PortField): int
  {
    match f
    case EsNodePort => np.elasticsearch
    case KibanaNodePort => np.kibana
  }

  function SetPort(np: NodePorts, f: PortField, v: int): (r: NodePorts)
    ensures GetPort(r, f) == v
    ensures forall g :: g != f ==> GetPort(r, g) == GetPort(np, g)
  {
    match f
    case EsNodePort => np.(elasticsearch := v)
    case KibanaNodePort => np.(kibana := v)
  }

  function PortDefault(f: PortField): int
  {
    match f
    case EsNodePort => DefaultElasticsearchNodePort
    case KibanaNodePort => DefaultKibanaNodePort
  }

  function FillPorts(snapshot: NodePorts, np: NodePorts, fields: seq<PortField>): NodePorts
    decreases |fields|
  {
    if |fields| == 0 then np
    else
      var f := fields[0];
      var np' := if GetPort(snapshot, f) == 0 then SetPort(np, f, PortDefault(f)) else np;
      FillPorts(snapshot, np', fields[1..])
  }

  lemma {:induction false} FillPortsFields(snapshot: NodePorts, np: NodePorts, fields: seq<PortField>)
    ensures forall f :: f in fields && GetPort(snapshot, f) == 0 ==>
      GetPort(FillPorts(snapshot, np, fields), f) == PortDefault(f)
    ensures forall f :: f in fields && GetPort(snapshot, f) != 0 && GetPort(np, f) == GetPort(snapshot, f) ==>
      GetPort(FillPorts(snapshot, np, fields), f) == GetPort(snapshot, f)
    ensures forall f :: f !in fields ==> GetPort(FillPorts(snapshot, np, fields), f) == GetPort(np, f)
    decreases |fields|
  {
    if |fields| > 0 {
      var f := fields[0];
      var np' := if GetPort(snapshot, f) == 0 then SetPort(np, f, PortDefault(f)) else np;
      FillPortsFields(snapshot, np', fields[1..]);
      assert forall g :: g in fields <==> g == f || g in fields[1..];
    }
  }

  function DefaultPorts(np: Option<NodePorts>): NodePorts
  {
    var base := if np.None? then NodePorts(DefaultElasticsearchNodePort, DefaultKibanaNodePort) else np.value;
    FillPorts(base, base, PortFields)
  }

  /** A zero port gets its default, a non-zero one is kept; nil gives both defaults. */
  lemma DefaultPortsFields(np: Option<NodePorts>)
    ensures forall f :: np.None? ==> GetPort(DefaultPorts(np), f) == PortDefault(f)
    ensures forall f :: np.Some? && GetPort(np.value, f) == 0 ==> GetPort(DefaultPorts(np), f) == PortDefault(f)
    ensures forall f :: np.Some? && GetPort(np.value, f) != 0 ==> GetPort(DefaultPorts(np), f) == GetPort(np.value, f)
  {
    var base := if np.None? then NodePorts(DefaultElasticsearchNodePort, DefaultKibanaNodePort) else np.value;
    FillPortsFields(base, base, PortFields);
    assert forall f :: f in PortFields;
    assert forall f :: GetPort(NodePorts(DefaultElasticsearchNodePort, DefaultKibanaNodePort), f) == PortDefault(f);
  }

  // ---------------------------------------------------------------------
  // Default

  /** The mutating webhook: only `resourceStorage` and `nodePorts` may change. */
  function Default(lf: LogFile): (r: LogFile)
    ensures r.(spec := lf.spec) == lf
    ensures r.spec.(resourceStorage := lf.spec.resourceStorage, nodePorts := lf.spec.nodePorts) == lf.spec
    ensures r.spec.resourceStorage.Some? && r.spec.nodePorts.Some?
  {
    lf.(spec := lf.spec.(resourceStorage := Some(DefaultStorage(lf.spec.resourceStorage)),
                         nodePorts := Some(DefaultPorts(lf.spec.nodePorts))))
  }

  /** Every storage size is non-empty and every node port non-zero after defaulting. */
  predicate Defaulted(spec: LogFileSpec)
  {
    && spec.resourceStorage.Some? && spec.nodePorts.Some?
    && (forall f :: GetStorage(spec.resourceStorage.value, f) != "")
    && (forall f :: GetPort(spec.nodePorts.value, f) != 0)
  }

  /** Field by field: defaults exactly where the input was nil, empty or zero, the input value elsewhere. */
  lemma DefaultFieldwise(lf: LogFile)
    ensures var s := Default(lf).spec;
      && (forall f :: GetStorage(s.resourceStorage.value, f) ==
            if lf.spec.resourceStorage.Some? && GetStorage(lf.spec.resourceStorage.value, f) != ""
            then GetStorage(lf.spec.resourceStorage.value, f) else StorageDefault(f))
      && (forall f :: GetPort(s.nodePorts.value, f) ==
            if lf.spec.nodePorts.Some? && GetPort(lf.spec.nodePorts.value, f) != 0
            then GetPort(lf.spec.nodePorts.value, f) else PortDefault(f))
  {
    DefaultStorageFields(lf.spec.resourceStorage);
    DefaultPortsFields(lf.spec.nodePorts);
  }

  lemma DefaultEstablishesDefaulted(lf: LogFile)
    ensures Defaulted(Default(lf).spec)
  {
    DefaultFieldwise(lf);
  }

  /** A spec that is already defaulted is left exactly as it is. */
  lemma DefaultFixesDefaulted(lf: LogFile)
    requires Defaulted(lf.spec)
    ensures Default(lf) == lf
  {
    DefaultFieldwise(lf);
    var s := Default(lf).spec;
    assert forall f :: GetStorage(s.resourceStorage.value, f) == GetStorage(lf.spec.resourceStorage.value, f);
    assert GetStorage(s.resourceStorage.value, EsStorage) == GetStorage(lf.spec.resourceStorage.value, EsStorage);
    assert GetStorage(s.resourceStorage.value, KafkaStorage) == GetStorage(lf.spec.resourceStorage.value, KafkaStorage);
    assert GetStorage(s.resourceStorage.value, ZookeeperStorage) == GetStorage(lf.spec.resourceStorage.value, ZookeeperStorage);
    assert GetPort(s.nodePorts.value, EsNodePort) == GetPort(lf.spec.nodePorts.value, EsNodePort);
    assert GetPort(s.nodePorts.value, KibanaNodePort) == GetPort(lf.spec.nodePorts.value, KibanaNodePort);
  }

  /** Defaulting twice is defaulting once. */
  lemma DefaultIdempotent(lf: LogFile)
    ensures Default(Default(lf)) == Default(lf)
  {
    DefaultEstablishesDefaulted(lf);
    DefaultFixesDefaulted(Default(lf));
  }

  // ---------------------------------------------------------------------
  // Validation

  datatype ValidationError =
    | InvalidProgrammeNum(name: string, value: int)
    | UpdateForbidden(name: string)

  /** The six supported deployment topologies. */
  predicate SupportedTopology(n: int)
  {
    n in {1, 2, 3, 4, 5, 6}
  }

  /** `validate`: a topology number outside 1..6 is rejected with the offending value. */
  function Validate(lf: LogFile): (r: Option<ValidationError>)
    ensures r.None? <==> SupportedTopology(lf.spec.programmeNum)
    ensures r.Some? ==> r.value == InvalidProgrammeNum(lf.name, lf.spec.programmeNum)
  {
    if lf.spec.programmeNum > 6 || lf.spec.programmeNum <= 0 then
      Some(InvalidProgrammeNum(lf.name, lf.spec.programmeNum))
    else None
  }

  function ValidateCreate(lf: LogFile): (r: Option<ValidationError>)
    ensures r.None? <==> SupportedTopology(lf.spec.programmeNum)
  {
    Validate(lf)
  }

  /** Updates are always refused: a change means delete and create again. */
  function ValidateUpdate(lf: LogFile, previous: LogFile): (r: Option<ValidationError>)
    ensures r.Some? && r.value.UpdateForbidden?
  {
    Some(UpdateForbidden(lf.name))
  }

  function ValidateDelete(lf: LogFile): (r: Option<ValidationError>)
    ensures r.None?
  {
    None
  }

  /** Defaulting does not touch the topology number, so it cannot change the validation outcome. */
  lemma DefaultPreservesValidity(lf: LogFile)
    ensures Validate(Default(lf)) == Validate(lf)
  {
  }
}
