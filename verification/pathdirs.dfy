/**
  Path directory resolver of the pod admission webhook: the directory of each
  declared log file (Go's `filepath.Split` on a Unix system), and the
  first-occurrence, order-preserving de-duplication of those directories.
 */
module PathDirs {

  /**
    `filepath.Split`: the path cut just after its last `/`. The directory part
    is empty or ends in `/`, and the file part holds no `/`.
   */
  function FilepathSplit(path: string): (r: (string, string))
    ensures r.0 + r.1 == path
    ensures '/' !in r.1
    ensures r.0 == "" || r.0[|r.0| - 1] == '/'
  {
    if |path| == 0 then ("", "")
    else if path[|path| - 1] == '/' then (path, "")
    else
      var (dir, file) := FilepathSplit(path[..|path| - 1]);
      assert path == path[..|path| - 1] + [path[|path| - 1]];
      (dir, file + [path[|path| - 1]])
  }

  /** The three properties pin the split down: there is only one way to cut a path so. */
  lemma {:induction false} FilepathSplitUnique(path: string, dir: string, file: string)
    requires dir + file == path
    requires '/' !in file
    requires dir == "" || dir[|dir| - 1] == '/'
    ensures FilepathSplit(path) == (dir, file)
  {
    if |file| == 0 {
      assert dir == path;
      if |path| > 0 {
        assert path[|path| - 1] == dir[|dir| - 1];
      }
    } else {
      var last := |path| - 1;
      assert path[last] == file[|file| - 1];
      assert path[..last] == dir + file[..|file| - 1];
      FilepathSplitUnique(path[..last], dir, file[..|file| - 1]);
      assert file == file[..|file| - 1] + [path[last]];
    }
  }

  function Dir(path: string): string
  {
    FilepathSplit(path).0
  }

  /** The first closure of the injector: each path's directory, in order. */
  function Dirs(paths: seq<string>): (r: seq<string>)
    ensures |r| == |paths|
    ensures forall i :: 0 <= i < |paths| ==> r[i] == Dir(paths[i])
  {
    seq(|paths|, i requires 0 <= i < |paths| => Dir(paths[i]))
  }

  // ---------------------------------------------------------------------
  // De-duplication

  /** Keep each value the first time it occurs. */
  function Dedup(s: seq<string>): seq<string>
  {
    if |s| == 0 then []
    else
      var r := Dedup(s[..|s| - 1]);
      if s[|s| - 1] in r then r else r + [s[|s| - 1]]
  }

  predicate NoDuplicates(s: seq<string>)
  {
    forall i, j :: 0 <= i < j < |s| ==> s[i] != s[j]
  }

  /** Position of the first occurrence of `x` in `s`. */
  function FirstIndex(s: seq<string>, x: string): (k: nat)
    requires x in s
    ensures k < |s| && s[k] == x && x !in s[..k]
  {
    if s[0] == x then 0 else 1 + FirstIndex(s[1..], x)
  }

  /**
    The second closure of the injector: a loop that appends an element when
    inserting it grows the `seen` map, as the source's `tempMap` does.
   */
  method DedupLoop(slc: seq<string>) returns (result: seq<string>)
    ensures result == Dedup(slc)
    ensures NoDuplicates(result)
    ensures forall x :: x in result <==> x in slc
  {
    result := [];
    var seen: set<string> := {};
    var i := 0;
    while i < |slc|
      invariant 0 <= i <= |slc|
      invariant result == Dedup(slc[..i])
      invariant seen == set x | x in result
    {
      var e := slc[i];
      assert e in seen <==> e in result;
      if e !in seen {
        assert |seen + {e}| == |seen| + 1;
      } else {
        assert seen + {e} == seen;
      }
      var l := |seen|;
      seen := seen + {e};
      if |seen| != l {
        result := result + [e];
      }
      assert slc[..i + 1][..i] == slc[..i];
      i := i + 1;
    }
    assert slc[..i] == slc;
    DedupProperties(slc);
  }

  /** No duplicates, and exactly the input's elements. */
  lemma {:induction false} DedupProperties(s: seq<string>)
    ensures NoDuplicates(Dedup(s))
    ensures forall x :: x in Dedup(s) <==> x in s
  {
    if |s| > 0 {
      var init := s[..|s| - 1];
      DedupProperties(init);
      assert s == init + [s[|s| - 1]];
    }
  }

  /** Dedup keeps first-occurrence order: earlier in the result means first seen earlier. */
  lemma {:induction false} DedupFirstOccurrenceOrder(s: seq<string>)
    ensures forall i, j :: 0 <= i < j < |Dedup(s)| ==>
      Dedup(s)[i] in s && Dedup(s)[j] in s && FirstIndex(s, Dedup(s)[i]) < FirstIndex(s, Dedup(s)[j])
  {
    if |s| > 0 {
      var init := s[..|s| - 1];
      var e := s[|s| - 1];
      var r0 := Dedup(init);
      DedupFirstOccurrenceOrder(init);
      DedupProperties(init);
      assert s == init + [e];
      forall x | x in init ensures FirstIndex(s, x) == FirstIndex(init, x) {
        FirstIndexOfPrefix(init, [e], x);
      }
      var r := Dedup(s);
      if e in r0 {
        assert r == r0;
        forall i, j | 0 <= i < j < |r|
          ensures r[i] in s && r[j] in s && FirstIndex(s, r[i]) < FirstIndex(s, r[j])
        {
          assert r0[i] in init && r0[j] in init;
        }
      } else {
        assert r == r0 + [e];
        assert e !in init;
        FirstIndexOfAppended(init, e);
        forall i, j | 0 <= i < j < |r|
          ensures r[i] in s && r[j] in s && FirstIndex(s, r[i]) < FirstIndex(s, r[j])
        {
          assert r[i] == r0[i] && r0[i] in init;
          if j < |r0| {
            assert r[j] == r0[j];
          } else {
            assert r[j] == e;
          }
        }
      }
    } else {
      assert Dedup(s) == [];
    }
  }

  lemma {:induction false} FirstIndexOfPrefix(a: seq<string>, b: seq<string>, x: string)
    requires x in a
    ensures FirstIndex(a + b, x) == FirstIndex(a, x)
  {
    if a[0] != x {
      assert (a + b)[1..] == a[1..] + b;
      FirstIndexOfPrefix(a[1..], b, x);
    }
  }

  lemma FirstIndexOfAppended(a: seq<string>, e: string)
    requires e !in a
    ensures FirstIndex(a + [e], e) == |a|
  {
    var s := a + [e];
    assert s[..|a|] == a;
    assert s[|a|] == e;
  }

  /** A list without duplicates is its own de-duplication. */
  lemma {:induction false} DedupOfDistinct(s: seq<string>)
    requires NoDuplicates(s)
    ensures Dedup(s) == s
  {
    if |s| > 0 {
      var init := s[..|s| - 1];
      assert NoDuplicates(init);
      DedupOfDistinct(init);
      assert s[|s| - 1] !in init;
      assert s == init + [s[|s| - 1]];
    }
  }

  /** De-duplicating twice is de-duplicating once. */
  lemma DedupIdempotent(s: seq<string>)
    ensures Dedup(Dedup(s)) == Dedup(s)
  {
    DedupProperties(s);
    DedupOfDistinct(Dedup(s));
  }

  /**
    The directories the injector works through for a list of paths: unique,
    each the directory of some path, and every path's directory among them.
   */
  lemma LogDirsCharacterized(paths: seq<string>)
    ensures NoDuplicates(Dedup(Dirs(paths)))
    ensures forall d :: d in Dedup(Dirs(paths)) <==> exists i :: 0 <= i < |paths| && d == Dir(paths[i])
    ensures forall d :: d in Dedup(Dirs(paths)) ==> d == "" || d[|d| - 1] == '/'
  {
    DedupProperties(Dirs(paths));
    var ds := Dirs(paths);
    forall d | d in Dedup(ds) ensures exists i :: 0 <= i < |paths| && d == Dir(paths[i]) {
      var i :| 0 <= i < |ds| && ds[i] == d;
    }
  }
}
