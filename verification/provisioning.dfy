/**
  The `LogFile` reconciler: the guards of `Reconcile` and the ordered
  creation steps `Run` performs for each deployment topology. The Kubernetes
  client is an oracle: the map `failures` says which steps fail and with
  what error; every other step succeeds.
 */
module Provisioning {
  import opened Wrappers
  import opened LogFileApi

  const ActiveStatus: LogFileStatus := LogFileStatus("Active")
  const OperatorNamespace: string := "logfile-operator-system"

  datatype Step =
    | FilebeatConfigMap
    | KafkaService | KafkaStatefulSet
    | ZookeeperConfigMap | ZookeeperService | ZookeeperStatefulSet
    | KafkaClusterConfigMap | KafkaClusterService | KafkaClusterServiceAccount | KafkaClusterStatefulSet
    | LogstashConfigMap | LogstashDeployment | LogstashService
    | ElasticsearchConfigMap | ElasticsearchService | ElasticsearchStatefulSet | ElasticsearchKibanaUserJob
    | EsClusterDisruptionBudget | EsClusterSecret | EsClusterService | EsClusterStatefulSet | EsClusterKibanaUserJob
    | KibanaConfigMap | KibanaService | KibanaDeployment
    | UpdateStatus

  /** Name of the object a step creates, in the operator's namespace. */
  function ObjectName(s: Step): string
  {
    match s
    case FilebeatConfigMap => "filebeat-sidecar"
    case KafkaService | KafkaStatefulSet => "kafka"
    case ZookeeperConfigMap | ZookeeperService | ZookeeperStatefulSet => "kafka-cluster-zookeeper"
    case KafkaClusterConfigMap | KafkaClusterService | KafkaClusterServiceAccount | KafkaClusterStatefulSet => "kafka-cluster"
    case LogstashConfigMap | LogstashDeployment | LogstashService => "logstash"
    case ElasticsearchConfigMap | ElasticsearchService | ElasticsearchStatefulSet => "elasticsearch"
    case ElasticsearchKibanaUserJob => "elasticsearch-set-kibana-password"
    case EsClusterDisruptionBudget | EsClusterSecret | EsClusterService | EsClusterStatefulSet => "elasticsearch-master"
    case EsClusterKibanaUserJob => "elasticsearch-master-set-kibana-password"
    case KibanaConfigMap | KibanaService | KibanaDeployment => "kibana"
    case UpdateStatus => ""
  }

  function KafkaSteps(n: int): seq<Step>
  {
    if n == 5 then [KafkaService, KafkaStatefulSet]
    else if n == 6 then
      [ZookeeperConfigMap, ZookeeperService, ZookeeperStatefulSet,
       KafkaClusterConfigMap, KafkaClusterService, KafkaClusterServiceAccount, KafkaClusterStatefulSet]
    else []
  }

  function LogstashSteps(n: int): seq<Step>
  {
    if n in {3, 4, 5, 6} then [LogstashConfigMap, LogstashDeployment, LogstashService] else []
  }

  function ElasticsearchSteps(n: int): seq<Step>
  {
    if n in {1, 3, 5} then
      [ElasticsearchConfigMap, ElasticsearchService, ElasticsearchStatefulSet, ElasticsearchKibanaUserJob]
    else if n in {2, 4, 6} then
      [EsClusterDisruptionBudget, EsClusterSecret, EsClusterService, EsClusterStatefulSet, EsClusterKibanaUserJob]
    else []
  }

  const KibanaSteps: seq<Step> := [KibanaConfigMap, KibanaService, KibanaDeployment]

  /** The creation steps of `Run` for topology `n`, in order; the status update is not among them. */
  function Plan(n: int): (r: seq<Step>)
    ensures |r| >= 4
    ensures r[0] == FilebeatConfigMap
    ensures r[|r| - 3..] == KibanaSteps
  {
    var pre := [FilebeatConfigMap] + KafkaSteps(n) + LogstashSteps(n) + ElasticsearchSteps(n);
    assert (pre + KibanaSteps)[|pre|..] == KibanaSteps;
    pre + KibanaSteps
  }

  /**
    The filebeat ConfigMap comes first and the three Kibana steps last,
    whatever the topology, and the status update is not a creation step.
   */
  lemma PlanEnds(n: int)
    ensures Plan(n)[0] == FilebeatConfigMap
    ensures Plan(n)[|Plan(n)| - 3..] == KibanaSteps
    ensures UpdateStatus !in Plan(n)
  {
    InPlan(UpdateStatus, n);
    GroupRanks(n);
  }

  lemma InPlan(st: Step, n: int)
    ensures st in Plan(n) <==>
      st == FilebeatConfigMap || st in KafkaSteps(n) || st in LogstashSteps(n) || st in ElasticsearchSteps(n) || st in KibanaSteps
  {
  }

  /** Which components a topology deploys. */
  lemma PlanComponents(n: int)
    ensures LogstashConfigMap in Plan(n) <==> n in {3, 4, 5, 6}
    ensures KafkaStatefulSet in Plan(n) <==> n == 5
    ensures (ZookeeperStatefulSet in Plan(n) && KafkaClusterStatefulSet in Plan(n)) <==> n == 6
    ensures ElasticsearchStatefulSet in Plan(n) <==> n in {1, 3, 5}
    ensures EsClusterStatefulSet in Plan(n) <==> n in {2, 4, 6}
  {
    LogstashInPlan(n);
    KafkaInPlan(n);
    KafkaClusterInPlan(n);
    ElasticsearchInPlan(n);
    EsClusterInPlan(n);
  }

  lemma LogstashInPlan(n: int)
    ensures LogstashConfigMap in Plan(n) <==> n in {3, 4, 5, 6}
  {
    InPlanOnlyInGroup(LogstashConfigMap, n);
  }

  lemma KafkaInPlan(n: int)
    ensures KafkaStatefulSet in Plan(n) <==> n == 5
  {
    InPlanOnlyInGroup(KafkaStatefulSet, n);
  }

  lemma KafkaClusterInPlan(n: int)
    ensures (ZookeeperStatefulSet in Plan(n) && KafkaClusterStatefulSet in Plan(n)) <==> n == 6
  {
    InPlanOnlyInGroup(ZookeeperStatefulSet, n);
    InPlanOnlyInGroup(KafkaClusterStatefulSet, n);
  }

  lemma ElasticsearchInPlan(n: int)
    ensures ElasticsearchStatefulSet in Plan(n) <==> n in {1, 3, 5}
  {
    InPlanOnlyInGroup(ElasticsearchStatefulSet, n);
  }

  lemma EsClusterInPlan(n: int)
    ensures EsClusterStatefulSet in Plan(n) <==> n in {2, 4, 6}
  {
    InPlanOnlyInGroup(EsClusterStatefulSet, n);
  }

  /** A step is in the plan exactly when it is in the group of steps of its component. */
  lemma InPlanOnlyInGroup(st: Step, n: int)
    ensures 1 <= Rank(st) <= 9 ==> (st in Plan(n) <==> st in KafkaSteps(n))
    ensures 10 <= Rank(st) <= 12 ==> (st in Plan(n) <==> st in LogstashSteps(n))
    ensures 13 <= Rank(st) <= 21 ==> (st in Plan(n) <==> st in ElasticsearchSteps(n))
  {
    InPlan(st, n);
    GroupRanks(n);
  }

  lemma GroupRanks(n: int)
    ensures forall x :: x in KafkaSteps(n) ==> 1 <= Rank(x) <= 9
    ensures forall x :: x in LogstashSteps(n) ==> 10 <= Rank(x) <= 12
    ensures forall x :: x in ElasticsearchSteps(n) ==> 13 <= Rank(x) <= 21
    ensures forall x :: x in KibanaSteps ==> 22 <= Rank(x) <= 24
  {
  }

  /**
    A topology that passes validation deploys exactly one Elasticsearch
    flavour; one that does not deploys no backend at all, only the filebeat
    ConfigMap and Kibana.
   */
  lemma ValidTopologyHasBackend(n: int)
    ensures SupportedTopology(n) <==> (ElasticsearchStatefulSet in Plan(n) || EsClusterStatefulSet in Plan(n))
    ensures !(ElasticsearchStatefulSet in Plan(n) && EsClusterStatefulSet in Plan(n))
    ensures !SupportedTopology(n) ==> Plan(n) == [FilebeatConfigMap] + KibanaSteps
  {
    PlanComponents(n);
  }

  /** Position of a step in the declaration order, which is also the order `Run` performs steps in. */
  function Rank(st: Step): nat
  {
    match st
    case FilebeatConfigMap => 0
    case KafkaService => 1
    case KafkaStatefulSet => 2
    case ZookeeperConfigMap => 3
    case ZookeeperService => 4
    case ZookeeperStatefulSet => 5
    case KafkaClusterConfigMap => 6
    case KafkaClusterService => 7
    case KafkaClusterServiceAccount => 8
    case KafkaClusterStatefulSet => 9
    case LogstashConfigMap => 10
    case LogstashDeployment => 11
    case LogstashService => 12
    case ElasticsearchConfigMap => 13
    case ElasticsearchService => 14
    case ElasticsearchStatefulSet => 15
    case ElasticsearchKibanaUserJob => 16
    case EsClusterDisruptionBudget => 17
    case EsClusterSecret => 18
    case EsClusterService => 19
    case EsClusterStatefulSet => 20
    case EsClusterKibanaUserJob => 21
    case KibanaConfigMap => 22
    case KibanaService => 23
    case KibanaDeployment => 24
    case UpdateStatus => 25
  }

  predicate RankIncreasing(s: seq<Step>)
  {
    forall i, j :: 0 <= i < j < |s| ==> Rank(s[i]) < Rank(s[j])
  }

  /** Rank increasing between neighbours is rank increasing throughout. */
  lemma {:induction false} NeighboursSuffice(s: seq<Step>)
    requires forall i :: 0 <= i < |s| - 1 ==> Rank(s[i]) < Rank(s[i + 1])
    ensures RankIncreasing(s)
  {
    if |s| > 1 {
      var tail := s[1..];
      forall i | 0 <= i < |tail| - 1 ensures Rank(tail[i]) < Rank(tail[i + 1]) {
        assert tail[i] == s[i + 1] && tail[i + 1] == s[i + 2];
      }
      NeighboursSuffice(tail);
      forall i, j | 0 <= i < j < |s| ensures Rank(s[i]) < Rank(s[j]) {
        if i > 0 {
          assert s[i] == tail[i - 1] && s[j] == tail[j - 1];
        } else if j > 1 {
          assert s[1] == tail[0] && s[j] == tail[j - 1];
        }
      }
    }
  }

  lemma RankIncreasingAppend(a: seq<Step>, b: seq<Step>)
    requires RankIncreasing(a) && RankIncreasing(b)
    requires forall x, y :: x in a && y in b ==> Rank(x) < Rank(y)
    ensures RankIncreasing(a + b)
  {
    var s := a + b;
    forall i, j | 0 <= i < j < |s| ensures Rank(s[i]) < Rank(s[j]) {
      if j < |a| {
        assert s[i] == a[i] && s[j] == a[j];
      } else if i >= |a| {
        assert s[i] == b[i - |a|] && s[j] == b[j - |a|];
      } else {
        assert s[i] == a[i] && s[j] == b[j - |a|];
      }
    }
  }

  /**
    Steps run in one fixed global order (filebeat, Kafka, Zookeeper before the
    Kafka cluster, Logstash, Elasticsearch, Kibana), so no step is performed twice.
   */
  lemma PlanOrdered(n: int)
    ensures RankIncreasing(Plan(n))
    ensures forall i, j :: 0 <= i < j < |Plan(n)| ==> Plan(n)[i] != Plan(n)[j]
  {
    var f: seq<Step> := [FilebeatConfigMap];
    var k := KafkaSteps(n);
    var l := LogstashSteps(n);
    var e := ElasticsearchSteps(n);
    NeighboursSuffice(k);
    NeighboursSuffice(l);
    NeighboursSuffice(e);
    NeighboursSuffice(KibanaSteps);
    GroupRanks(n);
    RankIncreasingAppend(f, k);
    RankIncreasingAppend(f + k, l);
    RankIncreasingAppend(f + k + l, e);
    RankIncreasingAppend(f + k + l + e, KibanaSteps);
  }

  // ---------------------------------------------------------------------
  // Running the steps

  datatype RunResult = RunResult(executed: seq<Step>, error: Option<string>)

  /** Perform `steps` in order, stopping at the first one that fails. */
  function Execute(steps: seq<Step>, failures: map<Step, string>): (r: RunResult)
  {
    if |steps| == 0 then RunResult([], None)
    else if steps[0] in failures then RunResult([steps[0]], Some(failures[steps[0]]))
    else
      var rest := Execute(steps[1..], failures);
      RunResult([steps[0]] + rest.executed, rest.error)
  }

  /**
    Without error every step ran; with one, the steps that ran are a prefix
    of the plan, all but the last succeeded, and the error is the last one's.
   */
  lemma {:induction false} ExecuteStopsAtFirstFailure(steps: seq<Step>, failures: map<Step, string>)
    ensures var r := Execute(steps, failures);
      && (r.error.None? <==> forall i :: 0 <= i < |steps| ==> steps[i] !in failures)
      && (r.error.None? ==> r.executed == steps)
      && (r.error.Some? ==>
            && 0 < |r.executed| <= |steps|
            && r.executed == steps[..|r.executed|]
            && (forall i :: 0 <= i < |r.executed| - 1 ==> r.executed[i] !in failures)
            && r.executed[|r.executed| - 1] in failures
            && r.error.value == failures[r.executed[|r.executed| - 1]])
  {
    ExecuteSucceeds(steps, failures);
    ExecuteFails(steps, failures);
  }

  lemma {:induction false} ExecuteSucceeds(steps: seq<Step>, failures: map<Step, string>)
    ensures var r := Execute(steps, failures);
      && (r.error.None? <==> forall i :: 0 <= i < |steps| ==> steps[i] !in failures)
      && (r.error.None? ==> r.executed == steps)
  {
    if |steps| > 0 && steps[0] !in failures {
      var tail := steps[1..];
      ExecuteSucceeds(tail, failures);
      assert forall i :: 0 < i < |steps| ==> steps[i] == tail[i - 1];
      assert steps == [steps[0]] + tail;
    }
  }

  lemma {:induction false} ExecuteFails(steps: seq<Step>, failures: map<Step, string>)
    ensures var r := Execute(steps, failures);
      r.error.Some? ==>
        && 0 < |r.executed| <= |steps|
        && r.executed == steps[..|r.executed|]
        && (forall i :: 0 <= i < |r.executed| - 1 ==> r.executed[i] !in failures)
        && r.executed[|r.executed| - 1] in failures
        && r.error.value == failures[r.executed[|r.executed| - 1]]
  {
    if |steps| > 0 && steps[0] !in failures {
      var tail := steps[1..];
      ExecuteFails(tail, failures);
      var rest := Execute(tail, failures);
      var r := Execute(steps, failures);
      assert r.executed == [steps[0]] + rest.executed;
      if rest.error.Some? {
        assert r.executed == steps[..|r.executed|] by {
          assert steps == [steps[0]] + tail;
          assert rest.executed == tail[..|rest.executed|];
        }
        forall i | 0 <= i < |r.executed| - 1 ensures r.executed[i] !in failures {
          if i > 0 {
            assert r.executed[i] == rest.executed[i - 1];
          }
        }
      }
    }
  }

  /**
    `Run`: the plan, then the status update when the status is not yet
    `Active`. The update is the last call, so it is only reached once every
    creation step has succeeded.
   */
  function Run(lf: LogFile, failures: map<Step, string>): RunResult
  {
    var steps := Plan(lf.spec.programmeNum) + (if lf.status != ActiveStatus then [UpdateStatus] else []);
    Execute(steps, failures)
  }

  lemma RunUpdatesStatusLast(lf: LogFile, failures: map<Step, string>)
    ensures var r := Run(lf, failures);
            var plan := Plan(lf.spec.programmeNum);
      && (UpdateStatus in r.executed ==>
            && lf.status != ActiveStatus
            && r.executed == plan + [UpdateStatus]
            && forall i :: 0 <= i < |plan| ==> plan[i] !in failures)
      && ((forall i :: 0 <= i < |plan| ==> plan[i] !in failures) && UpdateStatus !in failures ==>
            r.error.None? && r.executed == plan + (if lf.status != ActiveStatus then [UpdateStatus] else []))
  {
    StatusUpdateOnlyAfterPlan(lf, failures);
    RunWithoutFailures(lf, failures);
  }

  lemma StatusUpdateOnlyAfterPlan(lf: LogFile, failures: map<Step, string>)
    ensures var r := Run(lf, failures);
            var plan := Plan(lf.spec.programmeNum);
      UpdateStatus in r.executed ==>
        && lf.status != ActiveStatus
        && r.executed == plan + [UpdateStatus]
        && forall i :: 0 <= i < |plan| ==> plan[i] !in failures
  {
    var plan := Plan(lf.spec.programmeNum);
    var steps := plan + (if lf.status != ActiveStatus then [UpdateStatus] else []);
    var r := Run(lf, failures);
    assert r == Execute(steps, failures);
    if UpdateStatus in r.executed {
      PlanEnds(lf.spec.programmeNum);
      UpdateReachedAtEnd(plan, steps, failures);
      assert |steps| == |plan| + 1;
    }
  }

  lemma RunWithoutFailures(lf: LogFile, failures: map<Step, string>)
    ensures var r := Run(lf, failures);
            var plan := Plan(lf.spec.programmeNum);
      (forall i :: 0 <= i < |plan| ==> plan[i] !in failures) && UpdateStatus !in failures ==>
        r.error.None? && r.executed == plan + (if lf.status != ActiveStatus then [UpdateStatus] else [])
  {
    var plan := Plan(lf.spec.programmeNum);
    var steps := plan + (if lf.status != ActiveStatus then [UpdateStatus] else []);
    assert Run(lf, failures) == Execute(steps, failures);
    if (forall i :: 0 <= i < |plan| ==> plan[i] !in failures) && UpdateStatus !in failures {
      forall i | 0 <= i < |steps| ensures steps[i] !in failures {
        if i < |plan| {
          assert steps[i] == plan[i];
        }
      }
      ExecuteSucceeds(steps, failures);
    }
  }

  lemma UpdateReachedAtEnd(plan: seq<Step>, steps: seq<Step>, failures: map<Step, string>)
    requires UpdateStatus !in plan
    requires steps == plan || steps == plan + [UpdateStatus]
    requires UpdateStatus in Execute(steps, failures).executed
    ensures steps == plan + [UpdateStatus]
    ensures Execute(steps, failures).executed == steps
    ensures forall i :: 0 <= i < |plan| ==> plan[i] !in failures
  {
    var r := Execute(steps, failures);
    ExecuteSucceeds(steps, failures);
    ExecuteFails(steps, failures);
    var k :| 0 <= k < |r.executed| && r.executed[k] == UpdateStatus;
    assert steps[k] == UpdateStatus;
    assert k == |plan|;
    assert |r.executed| == |steps|;
    assert r.executed == steps;
    forall i | 0 <= i < |plan| ensures plan[i] !in failures {
      assert plan[i] == steps[i] == r.executed[i];
    }
  }

  // ---------------------------------------------------------------------
  // Reconcile

  /** The outcome of reading the `LogFile` named by the request. */
  datatype Fetch =
    | NotFound
    | FetchFailed(err: string)
    | Found(lf: LogFile)

  /** The error `Reconcile` returns and the client calls it made after the read. */
  datatype ReconcileResult = ReconcileResult(error: Option<string>, calls: seq<Step>)

  function Reconcile(fetch: Fetch, failures: map<Step, string>): (r: ReconcileResult)
    ensures fetch.NotFound? ==> r == ReconcileResult(None, [])
    ensures fetch.FetchFailed? ==> r == ReconcileResult(Some(fetch.err), [])
    ensures fetch.Found? && fetch.lf.deleting ==> r == ReconcileResult(None, [])
    ensures fetch.Found? && fetch.lf.status == ActiveStatus ==> r == ReconcileResult(None, [])
    ensures r.calls != [] ==> fetch.Found? && !fetch.lf.deleting && fetch.lf.status != ActiveStatus
                              && r.calls[0] == FilebeatConfigMap
  {
    match fetch
    case NotFound => ReconcileResult(None, [])
    case FetchFailed(e) => ReconcileResult(Some(e), [])
    case Found(lf) =>
      if lf.deleting then ReconcileResult(None, [])
      else if lf.status == ActiveStatus then ReconcileResult(None, [])
      else
        var run := Run(lf, failures);
        PlanEnds(lf.spec.programmeNum);
        ReconcileResult(run.error, run.executed)
  }

  /**
    A live, not yet active `LogFile` whose steps all succeed is fully
    provisioned and marked `Active` in one reconcile, after which every
    further reconcile is a no-op.
   */
  lemma ReconcileConverges(lf: LogFile, failures: map<Step, string>)
    requires !lf.deleting && lf.status != ActiveStatus
    requires forall s :: s !in failures
    ensures Reconcile(Found(lf), failures) == ReconcileResult(None, Plan(lf.spec.programmeNum) + [UpdateStatus])
    ensures Reconcile(Found(lf.(status := ActiveStatus)), failures) == ReconcileResult(None, [])
  {
    RunUpdatesStatusLast(lf, failures);
  }
}
