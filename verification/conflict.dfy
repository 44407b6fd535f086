/**
  Mount conflict resolver of the pod admission webhook: which existing
  container mounts already sit at a log directory. Paths are compared for
  equality after adding a trailing `/` to the mount path when it has none;
  there is no prefix containment.
 */
module MountConflict {
  import opened GoStrings
  import opened Kube

  /** The source's test of one existing mount path against a log directory. */
  predicate MountMatches(dir: string, mountPath: string)
  {
    if HasSuffix(mountPath, "/") then dir == mountPath else dir == mountPath + "/"
  }

  /** A path in trailing-slash normal form. */
  function Normalize(p: string): (r: string)
    ensures HasSuffix(r, "/")
    ensures IsPrefix(p, r) && |r| <= |p| + 1
  {
    if HasSuffix(p, "/") then p else p + "/"
  }

  /**
    For the directories the resolver produces (ending in `/`) the test is
    equality of normal forms, so it ignores a trailing slash on either side.
   */
  lemma MatchIsNormalizedEquality(dir: string, mountPath: string)
    requires HasSuffix(dir, "/")
    ensures MountMatches(dir, mountPath) <==> Normalize(dir) == Normalize(mountPath)
  {
  }

  /** `/var/log/app` and `/var/log/app/` both cover the directory `/var/log/app/`. */
  lemma TrailingSlashSymmetric(p: string)
    requires !HasSuffix(p, "/")
    ensures MountMatches(p + "/", p)
    ensures MountMatches(p + "/", p + "/")
  {
    assert HasSuffix(p + "/", "/");
  }

  /** A mount at a proper ancestor (or any shorter path) never counts as covering the directory. */
  lemma ParentNeverMatches(dir: string, mountPath: string)
    requires |Normalize(mountPath)| < |dir|
    ensures !MountMatches(dir, mountPath)
  {
  }

  /** The empty directory of a slash-free path matches no mount at all. */
  lemma EmptyDirNeverMatches(mountPath: string)
    ensures !MountMatches("", mountPath)
  {
  }

  /** `a` can be obtained from `b` by deleting elements: `a` is `b`'s entries kept in their order. */
  predicate Subsequence<T(==)>(a: seq<T>, b: seq<T>)
    decreases |b|
  {
    |a| == 0 || (|b| > 0 && if a[0] == b[0] then Subsequence(a[1..], b[1..]) else Subsequence(a, b[1..]))
  }

  /**
    The mounts of one container that sit at `dir`: every matching entry,
    as often as it occurs, in its original order, and nothing else.
   */
  function MatchingMounts(dir: string, mounts: seq<VolumeMount>): (r: seq<VolumeMount>)
    ensures forall m :: m in r <==> m in mounts && MountMatches(dir, m.mountPath)
    ensures Subsequence(r, mounts)
    ensures |r| <= |mounts|
  {
    if |mounts| == 0 then []
    else
      var rest := MatchingMounts(dir, mounts[1..]);
      if MountMatches(dir, mounts[0].mountPath) then
        assert ([mounts[0]] + rest)[1..] == rest;
        [mounts[0]] + rest
      else
        assert |rest| > 0 ==> rest[0] in rest && rest[0] != mounts[0];
        rest
  }

  /** Every matching entry as often as it occurs, and no other entry. */
  lemma {:induction false} MatchingMountsCounts(dir: string, mounts: seq<VolumeMount>)
    ensures forall m ::
      multiset(MatchingMounts(dir, mounts))[m] == (if MountMatches(dir, m.mountPath) then multiset(mounts)[m] else 0)
  {
    if |mounts| > 0 {
      MatchingMountsCounts(dir, mounts[1..]);
      assert mounts == [mounts[0]] + mounts[1..];
      assert multiset(mounts) == multiset{mounts[0]} + multiset(mounts[1..]);
    }
  }

  lemma {:induction false} MatchingMountsAppend(dir: string, a: seq<VolumeMount>, b: seq<VolumeMount>)
    ensures MatchingMounts(dir, a + b) == MatchingMounts(dir, a) + MatchingMounts(dir, b)
  {
    if |a| == 0 {
      assert a + b == b;
    } else {
      assert (a + b)[1..] == a[1..] + b;
      MatchingMountsAppend(dir, a[1..], b);
    }
  }

  /** Every mount of every container, container by container. */
  function AllMounts(containers: seq<Container>): seq<VolumeMount>
  {
    if |containers| == 0 then [] else containers[0].mounts + AllMounts(containers[1..])
  }

  /**
    `Duplicate_mount_point`: every existing mount at `dir`, container by
    container and mount by mount, duplicates kept. Empty means "no conflict".
   */
  function DuplicateMountPoints(dir: string, containers: seq<Container>): (r: seq<VolumeMount>)
    ensures forall m :: m in r <==>
      exists c :: 0 <= c < |containers| && m in containers[c].mounts && MountMatches(dir, m.mountPath)
  {
    if |containers| == 0 then []
    else
      var rest := DuplicateMountPoints(dir, containers[1..]);
      assert forall m :: m in rest <==>
        exists c :: 1 <= c < |containers| && m in containers[c].mounts && MountMatches(dir, m.mountPath) by {
        forall m ensures m in rest <==>
          exists c :: 1 <= c < |containers| && m in containers[c].mounts && MountMatches(dir, m.mountPath)
        {
          if m in rest {
            var c :| 0 <= c < |containers| - 1 && m in containers[1..][c].mounts && MountMatches(dir, m.mountPath);
            assert containers[1..][c] == containers[c + 1];
          }
          if exists c :: 1 <= c < |containers| && m in containers[c].mounts && MountMatches(dir, m.mountPath) {
            var c :| 1 <= c < |containers| && m in containers[c].mounts && MountMatches(dir, m.mountPath);
            assert containers[1..][c - 1] == containers[c];
          }
        }
      }
      MatchingMounts(dir, containers[0].mounts) + rest
  }

  /**
    The conflicts are exactly the matching mounts of the containers' mounts
    laid end to end: container order first, then mount order, every
    occurrence kept, so two containers mounting the same volume at `dir`
    report it twice.
   */
  lemma DuplicateMountPointsInOrder(dir: string, containers: seq<Container>)
    ensures DuplicateMountPoints(dir, containers) == MatchingMounts(dir, AllMounts(containers))
    ensures Subsequence(DuplicateMountPoints(dir, containers), AllMounts(containers))
    ensures forall m ::
      multiset(DuplicateMountPoints(dir, containers))[m] == (if MountMatches(dir, m.mountPath) then multiset(AllMounts(containers))[m] else 0)
  {
    DuplicateMountPointsFlatten(dir, containers);
    MatchingMountsCounts(dir, AllMounts(containers));
  }

  lemma {:induction false} DuplicateMountPointsFlatten(dir: string, containers: seq<Container>)
    ensures DuplicateMountPoints(dir, containers) == MatchingMounts(dir, AllMounts(containers))
  {
    if |containers| > 0 {
      DuplicateMountPointsFlatten(dir, containers[1..]);
      MatchingMountsAppend(dir, containers[0].mounts, AllMounts(containers[1..]));
    }
  }

  /** Two containers that both mount `m` at the directory: the conflict list holds `m` twice. */
  lemma DuplicatesKept(dir: string, m: VolumeMount, a: Container, b: Container)
    requires MountMatches(dir, m.mountPath)
    requires a.mounts == [m] && b.mounts == [m]
    ensures DuplicateMountPoints(dir, [a, b]) == [m, m]
  {
    DuplicateMountPointsInOrder(dir, [a, b]);
    assert AllMounts([a, b]) == [m, m] by {
      assert [a, b][1..] == [b];
      assert [b][1..] == [];
      assert AllMounts([b]) == [m] + AllMounts([]);
      assert AllMounts([a, b]) == [m] + AllMounts([b]);
    }
    assert [m, m][1..] == [m];
  }
}
