/**
  Sidecar assembler and admission handler of the pod webhook: given the
  decoded pod and the filebeat ConfigMap snapshot, either admit the pod
  unchanged or add a filebeat configuration init container, a privileged
  filebeat sidecar, the volumes and mounts that expose every log directory
  to it, and (for topology 2) the TLS material for Elasticsearch.
 */
module Injector {
  import opened Wrappers
  import opened GoStrings
  import opened Kube
  import opened AnnotationFilter
  import opened PathDirs
  import opened MountConflict

  const InjectionLabel: string := "pod-admission-webhook-injection"
  const FilebeatYmlKey: string := "filebeat.yml"
  const ProgrammeNumberKey: string := "programmenumber"
  const FilebeatImage: string := "registry.cn-hangzhou.aliyuncs.com/huisebug/logfile-operator:filebeat-8.5.0"
  const ConfDirVolume: string := "confdir"
  const ConfDirPath: string := "/etc/filebeat/"
  const FilebeatConfigFile: string := "/etc/filebeat/filebeat.yml"
  const CertsVolume: string := "elasticsearch-master-certs"
  const CertsPath: string := "/usr/share/elasticsearch/config/certs"
  const TlsInitImage: string := "debian:stretch-slim"
  const LogVolumePrefix: string := "logfile-operator-"

  const ConfDirMount: VolumeMount := Mount(ConfDirVolume, ConfDirPath)
  const CertsMount: VolumeMount := Mount(CertsVolume, CertsPath)

  /** Name of the emptyDir volume created for the log directory at position `index`. */
  function LogVolumeName(index: nat): string
  {
    LogVolumePrefix + Itoa(index)
  }

  /** Distinct positions give distinct volume names. */
  lemma LogVolumeNamesDistinct(a: nat, b: nat)
    requires LogVolumeName(a) == LogVolumeName(b)
    ensures a == b
  {
    assert Itoa(a) == LogVolumeName(a)[|LogVolumePrefix|..];
    assert Itoa(b) == LogVolumeName(b)[|LogVolumePrefix|..];
    ItoaInjective(a, b);
  }

  function PlainContainer(name: string, image: string, mounts: seq<VolumeMount>, entry: Entrypoint): Container
  {
    Container(name, image, mounts, [], [], false, entry, None, None)
  }

  /** The init container that writes the generated filebeat configuration. */
  function GenConfigInit(paths: seq<string>, baseConfig: string): Container
  {
    PlainContainer("genfilebeatyml", FilebeatImage, [ConfDirMount],
      WriteFilebeatConfig([FilebeatInput("log", paths)], baseConfig, FilebeatConfigFile))
  }

  /** The sidecar as first built, before any log directory is mounted into it. */
  const SidecarBase: Container :=
    Container("filebeat", FilebeatImage, [ConfDirMount], [], [], true,
      RunArgs(["-e", "-c", FilebeatConfigFile]), None, None)

  /** The init container that materialises the Elasticsearch certificates. */
  const TlsInit: Container :=
    PlainContainer("genesclusterhttps", TlsInitImage, [CertsMount], WriteCertificates(CertsPath))

  /** The ConfigMap exists and holds both keys the injector reads. */
  predicate ConfigMapReady(configMap: Option<map<string, string>>)
  {
    configMap.Some? && FilebeatYmlKey in configMap.value && ProgrammeNumberKey in configMap.value
  }

  predicate TlsRequired(data: map<string, string>)
  {
    Lookup(data, ProgrammeNumberKey) == "2"
  }

  // ---------------------------------------------------------------------
  // The per-directory loop

  /** The pod being mutated together with the sidecar being built. */
  datatype Assembly = Assembly(pod: Pod, sidecar: Container)

  /** Same container apart from its mounts, and its old mounts kept in place as a prefix. */
  predicate MountsGrown(a: Container, b: Container)
  {
    a.(mounts := b.mounts) == b && IsPrefix(a.mounts, b.mounts)
  }

  /** `b` only appends: volumes, each container's mounts and the sidecar's mounts grow; nothing else moves. */
  predicate Extends(a: Assembly, b: Assembly)
  {
    && b.pod.(volumes := a.pod.volumes, containers := a.pod.containers) == a.pod
    && |b.pod.containers| == |a.pod.containers|
    && (forall i :: 0 <= i < |a.pod.containers| ==> MountsGrown(a.pod.containers[i], b.pod.containers[i]))
    && IsPrefix(a.pod.volumes, b.pod.volumes)
    && MountsGrown(a.sidecar, b.sidecar)
  }

  lemma PrefixTransitive<T>(a: seq<T>, b: seq<T>, c: seq<T>)
    requires IsPrefix(a, b) && IsPrefix(b, c)
    ensures IsPrefix(a, c)
  {
    assert c[..|a|] == c[..|b|][..|a|];
  }

  lemma ExtendsTransitive(a: Assembly, b: Assembly, c: Assembly)
    requires Extends(a, b) && Extends(b, c)
    ensures Extends(a, c)
  {
    forall i | 0 <= i < |a.pod.containers|
      ensures MountsGrown(a.pod.containers[i], c.pod.containers[i])
    {
      PrefixTransitive(a.pod.containers[i].mounts, b.pod.containers[i].mounts, c.pod.containers[i].mounts);
    }
    PrefixTransitive(a.pod.volumes, b.pod.volumes, c.pod.volumes);
    PrefixTransitive(a.sidecar.mounts, b.sidecar.mounts, c.sidecar.mounts);
  }

  function MountInAll(containers: seq<Container>, m: VolumeMount): (r: seq<Container>)
    ensures |r| == |containers|
    ensures forall i :: 0 <= i < |r| ==> r[i] == containers[i].(mounts := containers[i].mounts + [m])
  {
    seq(|containers|, i requires 0 <= i < |containers| => containers[i].(mounts := containers[i].mounts + [m]))
  }

  /**
    One turn of the loop for the directory at position `index`. Without a
    conflict: a new emptyDir volume, mounted at the directory in every pod
    container and in the sidecar. With one: the sidecar alone takes the
    conflicting mounts; the pod is untouched.
   */
  function AddLogDir(st: Assembly, dir: string, index: nat): Assembly
  {
    var dup := DuplicateMountPoints(dir, st.pod.containers);
    if |dup| == 0 then
      var m := Mount(LogVolumeName(index), dir);
      Assembly(
        st.pod.(volumes := st.pod.volumes + [Volume(LogVolumeName(index), EmptyDir)],
                containers := MountInAll(st.pod.containers, m)),
        st.sidecar.(mounts := st.sidecar.mounts + [m]))
    else
      Assembly(st.pod, st.sidecar.(mounts := st.sidecar.mounts + dup))
  }

  /** One turn only appends, and what it appends depends on whether the directory conflicts. */
  lemma AddLogDirEffect(st: Assembly, dir: string, index: nat)
    ensures var r := AddLogDir(st, dir, index);
      && Extends(st, r)
      && (DuplicateMountPoints(dir, st.pod.containers) == [] ==>
            && r.pod.volumes == st.pod.volumes + [Volume(LogVolumeName(index), EmptyDir)]
            && (forall i :: 0 <= i < |st.pod.containers| ==>
                  r.pod.containers[i].mounts == st.pod.containers[i].mounts + [Mount(LogVolumeName(index), dir)])
            && r.sidecar.mounts == st.sidecar.mounts + [Mount(LogVolumeName(index), dir)])
      && (DuplicateMountPoints(dir, st.pod.containers) != [] ==>
            && r.pod == st.pod
            && r.sidecar.mounts == st.sidecar.mounts + DuplicateMountPoints(dir, st.pod.containers))
  {
  }

  /** The loop over the de-duplicated directories, positions counted from `start`. */
  function AddLogDirs(st: Assembly, dirs: seq<string>, start: nat): Assembly
    decreases |dirs|
  {
    if |dirs| == 0 then st
    else AddLogDirs(AddLogDir(st, dirs[0], start), dirs[1..], start + 1)
  }

  /** The whole loop only appends. */
  lemma {:induction false} AddLogDirsExtends(st: Assembly, dirs: seq<string>, start: nat)
    ensures Extends(st, AddLogDirs(st, dirs, start))
    decreases |dirs|
  {
    if |dirs| > 0 {
      var next := AddLogDir(st, dirs[0], start);
      AddLogDirEffect(st, dirs[0], start);
      AddLogDirsExtends(next, dirs[1..], start + 1);
      ExtendsTransitive(st, next, AddLogDirs(st, dirs, start));
    } else {
      assert IsPrefix(st.pod.volumes, st.pod.volumes);
    }
  }

  /** Running the loop over `dirs` is running it over a prefix, then over the rest. */
  lemma {:induction false} AddLogDirsSplit(st: Assembly, dirs: seq<string>, start: nat, k: nat)
    requires k <= |dirs|
    ensures AddLogDirs(st, dirs, start) == AddLogDirs(AddLogDirs(st, dirs[..k], start), dirs[k..], start + k)
    decreases k
  {
    if k > 0 {
      assert dirs[..k][0] == dirs[0];
      assert dirs[..k][1..] == dirs[1..][..k - 1];
      assert dirs[k..] == dirs[1..][k - 1..];
      AddLogDirsSplit(AddLogDir(st, dirs[0], start), dirs[1..], start + 1, k - 1);
    } else {
      assert dirs[..0] == [];
      assert dirs[0..] == dirs;
    }
  }

  /** The state the loop is in when it reaches position `k`. */
  function StateAt(st: Assembly, dirs: seq<string>, start: nat, k: nat): Assembly
    requires k <= |dirs|
  {
    AddLogDirs(st, dirs[..k], start)
  }

  /**
    What the turn for directory `k` leaves in the final result. Without a
    conflict at that turn, the volume `logfile-operator-<start+k>` exists and
    is mounted at the directory in every pod container and in the sidecar;
    with one, every conflicting mount is in the sidecar.
   */
  lemma LogDirOutcome(st: Assembly, dirs: seq<string>, start: nat, k: nat)
    requires k < |dirs|
    ensures var before := StateAt(st, dirs, start, k);
            var fin := AddLogDirs(st, dirs, start);
            var name := LogVolumeName(start + k);
            && (DuplicateMountPoints(dirs[k], before.pod.containers) == [] ==>
                  && Volume(name, EmptyDir) in fin.pod.volumes
                  && (forall i :: 0 <= i < |fin.pod.containers| ==> Mount(name, dirs[k]) in fin.pod.containers[i].mounts)
                  && Mount(name, dirs[k]) in fin.sidecar.mounts)
            && (forall m :: m in DuplicateMountPoints(dirs[k], before.pod.containers) ==> m in fin.sidecar.mounts)
  {
    var before := StateAt(st, dirs, start, k);
    var after := AddLogDir(before, dirs[k], start + k);
    var fin := AddLogDirs(st, dirs, start);
    TurnInLoop(st, dirs, start, k);
    AddLogDirEffect(before, dirs[k], start + k);
    ExtendsKeeps(after, fin);
    var m := Mount(LogVolumeName(start + k), dirs[k]);
    if DuplicateMountPoints(dirs[k], before.pod.containers) == [] {
      assert after.pod.volumes[|before.pod.volumes|] == Volume(LogVolumeName(start + k), EmptyDir);
      forall i | 0 <= i < |fin.pod.containers| ensures m in fin.pod.containers[i].mounts {
        var ms := after.pod.containers[i].mounts;
        assert ms[|ms| - 1] == m;
      }
      assert after.sidecar.mounts[|after.sidecar.mounts| - 1] == m;
    }
  }

  /** The final result extends the state just after the turn at position `k`. */
  lemma TurnInLoop(st: Assembly, dirs: seq<string>, start: nat, k: nat)
    requires k < |dirs|
    ensures Extends(AddLogDir(StateAt(st, dirs, start, k), dirs[k], start + k), AddLogDirs(st, dirs, start))
  {
    var before := StateAt(st, dirs, start, k);
    AddLogDirsSplit(st, dirs, start, k);
    var rest := dirs[k..];
    assert rest[0] == dirs[k];
    var after := AddLogDir(before, dirs[k], start + k);
    assert AddLogDirs(before, rest, start + k) == AddLogDirs(after, rest[1..], start + k + 1);
    AddLogDirsExtends(after, rest[1..], start + k + 1);
  }

  /** What a state holds, a state extending it still holds. */
  lemma ExtendsKeeps(a: Assembly, b: Assembly)
    requires Extends(a, b)
    ensures forall v :: v in a.pod.volumes ==> v in b.pod.volumes
    ensures forall i, m :: 0 <= i < |a.pod.containers| && m in a.pod.containers[i].mounts ==> m in b.pod.containers[i].mounts
    ensures forall m :: m in a.sidecar.mounts ==> m in b.sidecar.mounts
  {
    assert b.pod.volumes[..|a.pod.volumes|] == a.pod.volumes;
    forall i, m | 0 <= i < |a.pod.containers| && m in a.pod.containers[i].mounts
      ensures m in b.pod.containers[i].mounts
    {
      assert b.pod.containers[i].mounts[..|a.pod.containers[i].mounts|] == a.pod.containers[i].mounts;
    }
    assert b.sidecar.mounts[..|a.sidecar.mounts|] == a.sidecar.mounts;
  }

  /** Mounts the loop adds to pod containers sit at one of the directories it was given. */
  lemma {:induction false} AddedMountsAtGivenDirs(st: Assembly, dirs: seq<string>, start: nat)
    ensures var fin := AddLogDirs(st, dirs, start);
            |fin.pod.containers| == |st.pod.containers| &&
            forall i, j :: 0 <= i < |st.pod.containers| && |st.pod.containers[i].mounts| <= j < |fin.pod.containers[i].mounts| ==>
              fin.pod.containers[i].mounts[j].mountPath in dirs
    decreases |dirs|
  {
    if |dirs| > 0 {
      var next := AddLogDir(st, dirs[0], start);
      var fin := AddLogDirs(st, dirs, start);
      AddedMountsAtGivenDirs(next, dirs[1..], start + 1);
      assert fin == AddLogDirs(next, dirs[1..], start + 1);
      AddLogDirEffect(st, dirs[0], start);
      AddLogDirsExtends(next, dirs[1..], start + 1);
      forall i, j | 0 <= i < |st.pod.containers| && |st.pod.containers[i].mounts| <= j < |fin.pod.containers[i].mounts|
        ensures fin.pod.containers[i].mounts[j].mountPath in dirs
      {
        var mid := next.pod.containers[i].mounts;
        if j < |mid| {
          assert fin.pod.containers[i].mounts[j] == mid[j];
          assert mid[j].mountPath == dirs[0];
        } else {
          assert fin.pod.containers[i].mounts[j].mountPath in dirs[1..];
        }
      }
    }
  }

  /**
    When every directory ends in `/` and none repeats, the mounts added at
    earlier turns never collide with a later directory: each turn's conflict
    check sees exactly what it would see on the pod the loop started from.
   */
  lemma ConflictsIgnoreEarlierTurns(st: Assembly, dirs: seq<string>, start: nat, k: nat)
    requires k < |dirs|
    requires NoDuplicates(dirs)
    requires forall j :: 0 <= j < |dirs| ==> HasSuffix(dirs[j], "/")
    ensures DuplicateMountPoints(dirs[k], StateAt(st, dirs, start, k).pod.containers)
         == DuplicateMountPoints(dirs[k], st.pod.containers)
  {
    var before := StateAt(st, dirs, start, k);
    AddedMountsAtGivenDirs(st, dirs[..k], start);
    AddLogDirsExtends(st, dirs[..k], start);
    forall i | 0 <= i < |st.pod.containers|
      ensures MatchingMounts(dirs[k], before.pod.containers[i].mounts) == MatchingMounts(dirs[k], st.pod.containers[i].mounts)
    {
      EarlierMountsDoNotMatch(dirs, k, st.pod.containers[i].mounts, before.pod.containers[i].mounts);
    }
    DuplicatesOfGrownContainers(dirs[k], st.pod.containers, before.pod.containers);
  }

  /** A container whose added mounts all sit at earlier (distinct, `/`-ended) directories keeps its matches for `dirs[k]`. */
  lemma EarlierMountsDoNotMatch(dirs: seq<string>, k: nat, was: seq<VolumeMount>, now: seq<VolumeMount>)
    requires k < |dirs|
    requires NoDuplicates(dirs)
    requires forall j :: 0 <= j < |dirs| ==> HasSuffix(dirs[j], "/")
    requires IsPrefix(was, now)
    requires forall j :: |was| <= j < |now| ==> now[j].mountPath in dirs[..k]
    ensures MatchingMounts(dirs[k], now) == MatchingMounts(dirs[k], was)
  {
    var added := now[|was|..];
    SeqSplitAt(now, |was|);
    MatchingMountsAppend(dirs[k], was, added);
    forall j | 0 <= j < |added| ensures !MountMatches(dirs[k], added[j].mountPath) {
      assert added[j] == now[|was| + j];
      var q :| 0 <= q < k && dirs[..k][q] == added[j].mountPath;
      assert dirs[q] != dirs[k];
      assert HasSuffix(dirs[q], "/");
    }
    NoMatchAmong(dirs[k], added);
  }

  lemma NoMatchAmong(dir: string, mounts: seq<VolumeMount>)
    requires forall j :: 0 <= j < |mounts| ==> !MountMatches(dir, mounts[j].mountPath)
    ensures MatchingMounts(dir, mounts) == []
  {
  }

  lemma {:induction false} DuplicatesOfGrownContainers(dir: string, a: seq<Container>, b: seq<Container>)
    requires |a| == |b|
    requires forall i :: 0 <= i < |a| ==> MatchingMounts(dir, b[i].mounts) == MatchingMounts(dir, a[i].mounts)
    ensures DuplicateMountPoints(dir, b) == DuplicateMountPoints(dir, a)
  {
    if |a| > 0 {
      assert forall i :: 0 <= i < |a| - 1 ==> a[1..][i] == a[i + 1] && b[1..][i] == b[i + 1];
      DuplicatesOfGrownContainers(dir, a[1..], b[1..]);
    }
  }

  /**
    The volumes the loop creates are emptyDirs named for positions in
    `[start, start + |dirs|)`, and no two share a name.
   */
  lemma {:induction false} AddedVolumesDistinct(st: Assembly, dirs: seq<string>, start: nat)
    ensures var fin := AddLogDirs(st, dirs, start);
            && |st.pod.volumes| <= |fin.pod.volumes|
            && (forall j :: |st.pod.volumes| <= j < |fin.pod.volumes| ==>
                  && fin.pod.volumes[j].source == EmptyDir
                  && exists idx :: start <= idx < start + |dirs| && fin.pod.volumes[j].name == LogVolumeName(idx))
            && (forall a, b :: |st.pod.volumes| <= a < b < |fin.pod.volumes| ==>
                  fin.pod.volumes[a].name != fin.pod.volumes[b].name)
    decreases |dirs|
  {
    if |dirs| > 0 {
      var fin := AddLogDirs(st, dirs, start);
      var next := AddLogDir(st, dirs[0], start);
      AddLogDirEffect(st, dirs[0], start);
      AddedVolumesDistinct(next, dirs[1..], start + 1);
      assert fin == AddLogDirs(next, dirs[1..], start + 1);
      var lo := |st.pod.volumes|;
      assert LogVolumesFrom(fin.pod.volumes, |next.pod.volumes|, start + 1, |dirs| - 1);
      if DuplicateMountPoints(dirs[0], st.pod.containers) == [] {
        AddLogDirsExtends(next, dirs[1..], start + 1);
        assert fin.pod.volumes[..|next.pod.volumes|] == next.pod.volumes;
        assert fin.pod.volumes[lo] == next.pod.volumes[lo];
        PrependLogVolume(fin.pod.volumes, lo, start, |dirs| - 1);
      } else {
        WidenLogVolumes(fin.pod.volumes, lo, start, |dirs| - 1);
      }
    }
  }

  /** From position `lo` on, distinct emptyDir volumes named for positions in `[start, start + count)`. */
  predicate LogVolumesFrom(vs: seq<Volume>, lo: nat, start: nat, count: nat)
  {
    && lo <= |vs|
    && (forall j :: lo <= j < |vs| ==> vs[j].source == EmptyDir && NamedForPosition(vs[j].name, start, count))
    && (forall a, b :: lo <= a < b < |vs| ==> vs[a].name != vs[b].name)
  }

  /** `name` is the log volume name of some position in `[start, start + count)`. */
  predicate NamedForPosition(name: string, start: nat, count: nat)
  {
    exists idx :: start <= idx < start + count && name == LogVolumeName(idx)
  }

  /** A turn that creates no volume still leaves a position unused. */
  lemma WidenLogVolumes(vs: seq<Volume>, lo: nat, start: nat, count: nat)
    requires LogVolumesFrom(vs, lo, start + 1, count)
    ensures LogVolumesFrom(vs, lo, start, count + 1)
  {
    forall j | lo <= j < |vs| ensures NamedForPosition(vs[j].name, start, count + 1) {
      assert NamedForPosition(vs[j].name, start + 1, count);
      var idx :| start + 1 <= idx < start + 1 + count && vs[j].name == LogVolumeName(idx);
    }
  }

  /** The volume of position `start`, in front of volumes named for later positions, keeps the names distinct. */
  lemma PrependLogVolume(vs: seq<Volume>, lo: nat, start: nat, count: nat)
    requires lo < |vs| && vs[lo] == Volume(LogVolumeName(start), EmptyDir)
    requires LogVolumesFrom(vs, lo + 1, start + 1, count)
    ensures LogVolumesFrom(vs, lo, start, count + 1)
  {
    forall j | lo <= j < |vs| ensures NamedForPosition(vs[j].name, start, count + 1) {
      if j > lo {
        assert NamedForPosition(vs[j].name, start + 1, count);
        var idx :| start + 1 <= idx < start + 1 + count && vs[j].name == LogVolumeName(idx);
      } else {
        assert vs[j].name == LogVolumeName(start);
      }
    }
    forall a, b | lo <= a < b < |vs| ensures vs[a].name != vs[b].name {
      if a == lo {
        assert NamedForPosition(vs[b].name, start + 1, count);
        var idx :| start + 1 <= idx < start + 1 + count && vs[b].name == LogVolumeName(idx);
        if vs[a].name == vs[b].name {
          LogVolumeNamesDistinct(start, idx);
        }
      }
    }
  }

  // ---------------------------------------------------------------------
  // The enrolled mutation

  /** For topology 2: the `genesclusterhttps` init container, its volume, and its mount in the sidecar. */
  function AddTls(st: Assembly): Assembly
  {
    Assembly(
      st.pod.(volumes := st.pod.volumes + [Volume(CertsVolume, EmptyDir)],
              initContainers := st.pod.initContainers + [TlsInit]),
      st.sidecar.(mounts := st.sidecar.mounts + [CertsMount]))
  }

  /** The pod with the `confdir` volume added and mounted into its first container. */
  function WithConfDir(pod: Pod): Pod
    requires |pod.containers| > 0
  {
    pod.(volumes := pod.volumes + [Volume(ConfDirVolume, EmptyDir)],
         containers := pod.containers[0 := pod.containers[0].(mounts := pod.containers[0].mounts + [ConfDirMount])])
  }

  /** The de-duplicated directories of the declared log paths. */
  function LogDirs(paths: seq<string>): seq<string>
  {
    Dedup(Dirs(paths))
  }

  /** The assembly the loop starts from. */
  function Initial(pod: Pod): Assembly
    requires |pod.containers| > 0
  {
    Assembly(WithConfDir(pod), SidecarBase)
  }

  /** The assembly once every log directory has been handled. */
  function AfterLoop(pod: Pod, paths: seq<string>): Assembly
    requires |pod.containers| > 0
  {
    AddLogDirs(Initial(pod), LogDirs(paths), 0)
  }

  /** TLS step, then the generator init container, then the sidecar appended last. */
  function Finish(st: Assembly, data: map<string, string>, paths: seq<string>): Pod
  {
    var st' := if TlsRequired(data) then AddTls(st) else st;
    st'.pod.(initContainers := st'.pod.initContainers + [GenConfigInit(paths, Lookup(data, FilebeatYmlKey))],
             containers := st'.pod.containers + [st'.sidecar])
  }

  /**
    The `default` branch of `Handle`. `None` stands for the index panic on a
    pod without containers.
   */
  function Inject(pod: Pod, data: map<string, string>, paths: seq<string>): (r: Option<Pod>)
    ensures r.None? <==> |pod.containers| == 0
  {
    if |pod.containers| == 0 then None
    else Some(Finish(AfterLoop(pod, paths), data, paths))
  }

  /** What finishing keeps of the loop's result, and what it appends. */
  lemma FinishEffect(st: Assembly, data: map<string, string>, paths: seq<string>)
    ensures var r := Finish(st, data, paths);
            var sidecar := r.containers[|st.pod.containers|];
            && r.(volumes := st.pod.volumes, initContainers := st.pod.initContainers, containers := st.pod.containers) == st.pod
            && r.containers == st.pod.containers + [sidecar]
            && MountsGrown(st.sidecar, sidecar)
            && IsPrefix(st.pod.volumes, r.volumes)
            && r.initContainers ==
                 st.pod.initContainers + (if TlsRequired(data) then [TlsInit] else []) + [GenConfigInit(paths, Lookup(data, FilebeatYmlKey))]
            && (TlsRequired(data) ==>
                  sidecar.mounts[|sidecar.mounts| - 1] == CertsMount && r.volumes[|r.volumes| - 1] == Volume(CertsVolume, EmptyDir))
            && (!TlsRequired(data) ==> r.volumes == st.pod.volumes && sidecar == st.sidecar)
  {
    var r := Finish(st, data, paths);
    assert r.containers[|st.pod.containers|] == (if TlsRequired(data) then AddTls(st) else st).sidecar;
  }

  /**
    The shape of an enrolled pod: metadata untouched; one more container, the
    filebeat sidecar, last; the original containers only gain mounts (the
    first one `confdir` before any log mount); volumes only appended, starting
    with `confdir`; init containers appended, the TLS one exactly for
    topology 2 and always before the generator.
   */
  lemma InjectShape(pod: Pod, data: map<string, string>, paths: seq<string>)
    requires |pod.containers| > 0
    ensures var r := Inject(pod, data, paths).value;
      && |r.containers| == |pod.containers| + 1
      && var sidecar := r.containers[|pod.containers|];
      && r.(volumes := pod.volumes, initContainers := pod.initContainers, containers := pod.containers) == pod
      && |r.containers| == |pod.containers| + 1
      && (forall i :: 0 <= i < |pod.containers| ==> MountsGrown(pod.containers[i], r.containers[i]))
      && IsPrefix(pod.containers[0].mounts + [ConfDirMount], r.containers[0].mounts)
      && IsPrefix(pod.volumes + [Volume(ConfDirVolume, EmptyDir)], r.volumes)
      && r.initContainers ==
           pod.initContainers + (if TlsRequired(data) then [TlsInit] else []) + [GenConfigInit(paths, Lookup(data, FilebeatYmlKey))]
      && MountsGrown(SidecarBase, sidecar) && sidecar.privileged
      && (TlsRequired(data) ==>
            sidecar.mounts[|sidecar.mounts| - 1] == CertsMount && r.volumes[|r.volumes| - 1] == Volume(CertsVolume, EmptyDir))
  {
    var start := Initial(pod);
    var st := AfterLoop(pod, paths);
    AddLogDirsExtends(start, LogDirs(paths), 0);
    FinishEffect(st, data, paths);
    var r := Inject(pod, data, paths).value;
    assert r == Finish(st, data, paths);
    forall i | 0 <= i < |pod.containers| ensures MountsGrown(pod.containers[i], r.containers[i]) {
      assert r.containers[i] == st.pod.containers[i];
      assert MountsGrown(start.pod.containers[i], st.pod.containers[i]);
      if i == 0 {
        PrefixTransitive(pod.containers[0].mounts, start.pod.containers[0].mounts, st.pod.containers[0].mounts);
      }
    }
    PrefixTransitive(start.pod.volumes, st.pod.volumes, r.volumes);
    PrefixTransitive(start.sidecar.mounts, st.sidecar.mounts, r.containers[|pod.containers|].mounts);
  }

  /** A path holding a `/` has a non-empty directory, which then ends in `/`. */
  lemma DirOfSlashedPath(p: string)
    requires '/' in p
    ensures HasSuffix(Dir(p), "/")
  {
  }

  lemma LogDirsEndInSlash(paths: seq<string>)
    requires forall j :: 0 <= j < |paths| ==> '/' in paths[j]
    ensures NoDuplicates(LogDirs(paths))
    ensures forall j :: 0 <= j < |LogDirs(paths)| ==> HasSuffix(LogDirs(paths)[j], "/")
  {
    var ds := LogDirs(paths);
    LogDirsCharacterized(paths);
    forall j | 0 <= j < |ds| ensures HasSuffix(ds[j], "/") {
      assert ds[j] in Dedup(Dirs(paths));
      var i :| 0 <= i < |paths| && ds[j] == Dir(paths[i]);
      DirOfSlashedPath(paths[i]);
    }
  }

  /**
    The per-directory outcome of an injection, for log paths that hold a `/`.
    The `k`-th directory either conflicts with a mount of the original pod
    (or with `confdir` in its first container), and then the sidecar takes
    those mounts; or it does not, and then the volume `logfile-operator-<k>`
    exists and every container, the sidecar included, mounts it there.
   */
  lemma InjectLogDirOutcome(pod: Pod, data: map<string, string>, paths: seq<string>, k: nat)
    requires |pod.containers| > 0
    requires forall j :: 0 <= j < |paths| ==> '/' in paths[j]
    requires k < |LogDirs(paths)|
    ensures var d := LogDirs(paths)[k];
            var conflicts := DuplicateMountPoints(d, WithConfDir(pod).containers);
            var r := Inject(pod, data, paths).value;
            && |r.containers| == |pod.containers| + 1
            && (conflicts == [] ==>
                  && Volume(LogVolumeName(k), EmptyDir) in r.volumes
                  && forall i :: 0 <= i < |r.containers| ==> Mount(LogVolumeName(k), d) in r.containers[i].mounts)
            && (forall m :: m in conflicts ==> m in r.containers[|pod.containers|].mounts)
  {
    AfterLoopOutcome(pod, paths, k);
    var conflicts := DuplicateMountPoints(LogDirs(paths)[k], WithConfDir(pod).containers);
    FinishKeepsOutcome(AfterLoop(pod, paths), data, paths, LogDirs(paths)[k], LogVolumeName(k), conflicts);
  }

  /** A directory's outcome in the loop's result, restated for the pod `Finish` returns. */
  lemma FinishKeepsOutcome(st: Assembly, data: map<string, string>, paths: seq<string>,
                           d: string, name: string, conflicts: seq<VolumeMount>)
    requires DirOutcome(st, d, name, conflicts)
    ensures var r := Finish(st, data, paths);
            && |r.containers| == |st.pod.containers| + 1
            && (conflicts == [] ==>
                  && Volume(name, EmptyDir) in r.volumes
                  && forall i :: 0 <= i < |r.containers| ==> Mount(name, d) in r.containers[i].mounts)
            && (forall m :: m in conflicts ==> m in r.containers[|st.pod.containers|].mounts)
  {
    var r := Finish(st, data, paths);
    LoopOutcomeSurvivesFinish(st, data, paths);
    if conflicts == [] {
      forall i | 0 <= i < |r.containers| ensures Mount(name, d) in r.containers[i].mounts {
        if i < |st.pod.containers| {
          assert r.containers[i] == st.pod.containers[i];
        }
      }
    }
  }

  /**
    What the loop leaves for one directory: without conflicts, the volume
    `name` mounted at `d` in every pod container and the sidecar; the sidecar
    holds every conflicting mount.
   */
  predicate DirOutcome(st: Assembly, d: string, name: string, conflicts: seq<VolumeMount>)
  {
    && (conflicts == [] ==>
          && Volume(name, EmptyDir) in st.pod.volumes
          && (forall i :: 0 <= i < |st.pod.containers| ==> Mount(name, d) in st.pod.containers[i].mounts)
          && Mount(name, d) in st.sidecar.mounts)
    && (forall m :: m in conflicts ==> m in st.sidecar.mounts)
  }

  /** The per-directory outcome once the loop has run, before the TLS step and the sidecar are added. */
  lemma AfterLoopOutcome(pod: Pod, paths: seq<string>, k: nat)
    requires |pod.containers| > 0
    requires forall j :: 0 <= j < |paths| ==> '/' in paths[j]
    requires k < |LogDirs(paths)|
    ensures |AfterLoop(pod, paths).pod.containers| == |pod.containers|
    ensures DirOutcome(AfterLoop(pod, paths), LogDirs(paths)[k], LogVolumeName(k),
                       DuplicateMountPoints(LogDirs(paths)[k], WithConfDir(pod).containers))
  {
    var dirs := LogDirs(paths);
    var start := Initial(pod);
    var fin := AddLogDirs(start, dirs, 0);
    var c0 := DuplicateMountPoints(dirs[k], StateAt(start, dirs, 0, k).pod.containers);
    var c1 := DuplicateMountPoints(dirs[k], WithConfDir(pod).containers);
    ConflictsAgainstOriginal(pod, paths, k);
    LogDirOutcomeFromZero(start, dirs, k);
    assert AfterLoop(pod, paths) == fin;
    DirOutcomeCongruent(fin, AfterLoop(pod, paths), dirs[k], LogVolumeName(k), LogVolumeName(k), c0, c1);
    AfterLoopKeepsContainers(pod, paths);
  }

  lemma DirOutcomeCongruent(a: Assembly, b: Assembly, d: string, n1: string, n2: string,
                            c1: seq<VolumeMount>, c2: seq<VolumeMount>)
    requires a == b && n1 == n2 && c1 == c2
    requires DirOutcome(a, d, n1, c1)
    ensures DirOutcome(b, d, n2, c2)
  {
  }

  /** Each turn's conflict check gives what it would give on the pod before the loop. */
  lemma ConflictsAgainstOriginal(pod: Pod, paths: seq<string>, k: nat)
    requires |pod.containers| > 0
    requires forall j :: 0 <= j < |paths| ==> '/' in paths[j]
    requires k < |LogDirs(paths)|
    ensures DuplicateMountPoints(LogDirs(paths)[k], StateAt(Initial(pod), LogDirs(paths), 0, k).pod.containers)
         == DuplicateMountPoints(LogDirs(paths)[k], WithConfDir(pod).containers)
  {
    LogDirsEndInSlash(paths);
    ConflictsIgnoreEarlierTurns(Initial(pod), LogDirs(paths), 0, k);
  }

  lemma LogDirOutcomeFolded(st: Assembly, dirs: seq<string>, start: nat, k: nat)
    requires k < |dirs|
    ensures DirOutcome(AddLogDirs(st, dirs, start), dirs[k], LogVolumeName(start + k),
                       DuplicateMountPoints(dirs[k], StateAt(st, dirs, start, k).pod.containers))
  {
    LogDirOutcome(st, dirs, start, k);
  }

  /** The loop run from the first index: the `k`-th directory gets the volume named after `k`. */
  lemma LogDirOutcomeFromZero(st: Assembly, dirs: seq<string>, k: nat)
    requires k < |dirs|
    ensures DirOutcome(AddLogDirs(st, dirs, 0), dirs[k], LogVolumeName(k),
                       DuplicateMountPoints(dirs[k], StateAt(st, dirs, 0, k).pod.containers))
  {
    var fin := AddLogDirs(st, dirs, 0);
    var c0 := DuplicateMountPoints(dirs[k], StateAt(st, dirs, 0, k).pod.containers);
    LogDirOutcomeFolded(st, dirs, 0, k);
    DirOutcomeCongruent(fin, fin, dirs[k], LogVolumeName(0 + k), LogVolumeName(k), c0, c0);
  }

  lemma AfterLoopKeepsContainers(pod: Pod, paths: seq<string>)
    requires |pod.containers| > 0
    ensures |AfterLoop(pod, paths).pod.containers| == |pod.containers|
  {
    AddLogDirsExtends(Initial(pod), LogDirs(paths), 0);
  }

  lemma LoopOutcomeSurvivesFinish(st: Assembly, data: map<string, string>, paths: seq<string>)
    ensures var r := Finish(st, data, paths);
            && |r.containers| == |st.pod.containers| + 1
            && (forall v :: v in st.pod.volumes ==> v in r.volumes)
            && (forall i :: 0 <= i < |st.pod.containers| ==> r.containers[i] == st.pod.containers[i])
            && (forall m :: m in st.sidecar.mounts ==> m in r.containers[|st.pod.containers|].mounts)
  {
    var r := Finish(st, data, paths);
    FinishEffect(st, data, paths);
    var sc := r.containers[|st.pod.containers|];
    assert sc.mounts[..|st.sidecar.mounts|] == st.sidecar.mounts;
    assert r.volumes[..|st.pod.volumes|] == st.pod.volumes;
    forall m | m in st.sidecar.mounts ensures m in sc.mounts {
      var j :| 0 <= j < |st.sidecar.mounts| && st.sidecar.mounts[j] == m;
      assert sc.mounts[j] == m;
    }
    forall v | v in st.pod.volumes ensures v in r.volumes {
      var j :| 0 <= j < |st.pod.volumes| && st.pod.volumes[j] == v;
      assert r.volumes[j] == v;
    }
  }

  /** Every volume the injection adds to the pod has its own name. */
  lemma InjectedVolumesDistinct(pod: Pod, data: map<string, string>, paths: seq<string>)
    requires |pod.containers| > 0
    ensures var r := Inject(pod, data, paths).value;
            && |pod.volumes| < |r.volumes|
            && forall a, b :: |pod.volumes| <= a < b < |r.volumes| ==> r.volumes[a].name != r.volumes[b].name
  {
    var dirs := LogDirs(paths);
    var start := Initial(pod);
    var st := AfterLoop(pod, paths);
    AddedVolumesDistinct(start, dirs, 0);
    AddLogDirsExtends(start, dirs, 0);
    FinishEffect(st, data, paths);
    var r := Inject(pod, data, paths).value;
    assert r == Finish(st, data, paths);
    var lo := |pod.volumes|;
    assert r.volumes[lo] == start.pod.volumes[lo] == Volume(ConfDirVolume, EmptyDir);
    forall a, b | lo <= a < b < |r.volumes| ensures r.volumes[a].name != r.volumes[b].name {
      NewVolumeNamesDiffer(pod, dirs, st, r.volumes, a, b);
    }
  }

  lemma NewVolumeNamesDiffer(pod: Pod, dirs: seq<string>, st: Assembly, vols: seq<Volume>, a: nat, b: nat)
    requires |pod.containers| > 0
    requires st == AddLogDirs(Initial(pod), dirs, 0)
    requires IsPrefix(st.pod.volumes, vols)
    requires vols == st.pod.volumes || vols == st.pod.volumes + [Volume(CertsVolume, EmptyDir)]
    requires |pod.volumes| <= a < b < |vols|
    ensures vols[a].name != vols[b].name
  {
    var start := Initial(pod);
    var lo := |pod.volumes|;
    AddedVolumesDistinct(start, dirs, 0);
    AddLogDirsExtends(start, dirs, 0);
    assert vols[lo] == start.pod.volumes[lo] == Volume(ConfDirVolume, EmptyDir);
    if b < |st.pod.volumes| {
      if a == lo {
        var idx :| 0 <= idx < |dirs| && st.pod.volumes[b].name == LogVolumeName(idx);
        assert LogVolumeName(idx)[0] != ConfDirVolume[0];
      }
    } else {
      assert vols[b].name == CertsVolume;
      if a != lo {
        var idx :| 0 <= idx < |dirs| && st.pod.volumes[a].name == LogVolumeName(idx);
        assert LogVolumeName(idx)[0] != CertsVolume[0];
      }
    }
  }

  /**
    Without a `/` in every path the conflict check does see earlier turns: a
    bare file name has directory `""`, whose new mount at `""` then counts as
    a mount at `/` for a later path in the root directory.
   */
  lemma EarlierTurnShadowsRoot(st: Assembly, start: nat)
    requires |st.pod.containers| > 0
    ensures Mount(LogVolumeName(start), "") in DuplicateMountPoints("/", StateAt(st, ["", "/"], start, 1).pod.containers)
  {
    var dirs := ["", "/"];
    var one: seq<string> := [""];
    assert dirs[..1] == one;
    assert one[1..] == [];
    EmptyDirNeverMatches2(st.pod.containers);
    var before := StateAt(st, dirs, start, 1);
    assert before == AddLogDirs(AddLogDir(st, "", start), [], start + 1);
    AddLogDirEffect(st, "", start);
    var ms := before.pod.containers[0].mounts;
    assert ms[|ms| - 1] == Mount(LogVolumeName(start), "");
  }

  lemma EmptyDirNeverMatches2(containers: seq<Container>)
    ensures DuplicateMountPoints("", containers) == []
  {
    if DuplicateMountPoints("", containers) != [] {
      var m := DuplicateMountPoints("", containers)[0];
      assert m in DuplicateMountPoints("", containers);
      EmptyDirNeverMatches(m.mountPath);
    }
  }

  lemma HeadIsMember(s: seq<string>)
    requires |s| > 0
    ensures s[0] in s
  {
  }

  /** A pod with no annotation the pattern accepts declares no log paths, and is admitted unchanged. */
  lemma NoLogAnnotationsNoPaths(pod: Pod, order: seq<string>)
    requires IsIterationOrder(order, FilterAnnotations(pod.annotations))
    requires forall k :: k in pod.annotations ==> !MatchString(k)
    ensures LogPaths(pod, order) == []
  {
    var f := FilterAnnotations(pod.annotations);
    assert forall k :: k !in f;
    if |order| > 0 {
      HeadIsMember(order);
    }
  }

  // ---------------------------------------------------------------------
  // Handle

  datatype Response =
    | Errored(code: int)
    | Patched(original: Pod, mutated: Pod)
    | Panicked

  /** The log file paths the pod declares, for one iteration order of its filtered annotations. */
  function LogPaths(pod: Pod, order: seq<string>): seq<string>
    requires IsIterationOrder(order, FilterAnnotations(pod.annotations))
  {
    ParseMetrics(EntriesInOrder(FilterAnnotations(pod.annotations), order))
  }

  /** The opt-out label is present with value `false`. */
  predicate OptedOut(pod: Pod)
  {
    Lookup(pod.labels, InjectionLabel) == "false"
  }

  /**
    The admission handler. `request` is the decoded pod (`None`: the decode
    failed), `configMap` the `filebeat-sidecar` ConfigMap snapshot (`None`:
    the read failed), `order` the order the filtered annotations are ranged
    over. Opt-out label, then no paths, then an incomplete ConfigMap admit
    the pod unchanged, in that order of precedence.
   */
  function Handle(request: Option<Pod>, configMap: Option<map<string, string>>, order: seq<string>): (r: Response)
    requires request.Some? ==> IsIterationOrder(order, FilterAnnotations(request.value.annotations))
    ensures request.None? <==> r == Errored(400)
    ensures request.Some? && OptedOut(request.value) ==> r == Patched(request.value, request.value)
    ensures request.Some? && LogPaths(request.value, order) == [] ==> r == Patched(request.value, request.value)
    ensures request.Some? && !ConfigMapReady(configMap) ==> r == Patched(request.value, request.value)
    ensures r.Panicked? <==> request.Some? && |request.value.containers| == 0 && !OptedOut(request.value)
                             && LogPaths(request.value, order) != [] && ConfigMapReady(configMap)
    ensures r.Patched? ==> r.original == request.value
    ensures request.Some? && !OptedOut(request.value) && LogPaths(request.value, order) != [] && ConfigMapReady(configMap)
            && |request.value.containers| > 0 ==>
      && r == Patched(request.value, Inject(request.value, configMap.value, LogPaths(request.value, order)).value)
      && |r.mutated.containers| == |r.original.containers| + 1
    ensures r.Patched? && r.mutated != r.original ==>
      && !OptedOut(request.value) && LogPaths(request.value, order) != [] && ConfigMapReady(configMap)
      && |r.mutated.containers| == |r.original.containers| + 1
  {
    if request.None? then Errored(400)
    else
      var pod := request.value;
      var paths := LogPaths(pod, order);
      if OptedOut(pod) then Patched(pod, pod)
      else if |paths| == 0 then Patched(pod, pod)
      else if !ConfigMapReady(configMap) then Patched(pod, pod)
      else
        match Inject(pod, configMap.value, paths)
        case None => Panicked
        case Some(mutated) =>
          InjectShape(pod, configMap.value, paths);
          Patched(pod, mutated)
  }
}
