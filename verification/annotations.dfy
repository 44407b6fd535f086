/**
  Annotation filter and path extraction of the pod admission webhook: which
  pod annotations declare log files, and which log file paths they declare.
 */
module AnnotationFilter {
  import opened GoStrings

  /** The literal part of the pattern `logfile\.huisebug\.org\/[a-zA-Z\.]+`. */
  const AnnotationDomain: string := "logfile.huisebug.org/"

  /** The character class `[a-zA-Z.]` of the pattern. */
  predicate IsFieldChar(c: char)
  {
    'a' <= c <= 'z' || 'A' <= c <= 'Z' || c == '.'
  }

  /**
    The pattern matches at offset `i`: the literal domain followed by at least
    one field character (the `+` is satisfied by its first repetition).
   */
  predicate MatchesAt(key: string, i: nat)
  {
    && i + |AnnotationDomain| < |key|
    && key[i..i + |AnnotationDomain|] == AnnotationDomain
    && IsFieldChar(key[i + |AnnotationDomain|])
  }

  function MatchFrom(key: string, i: nat): (b: bool)
    ensures b <==> exists j: nat :: i <= j && MatchesAt(key, j)
    decreases |key| - i
  {
    if i + |AnnotationDomain| >= |key| then false
    else MatchesAt(key, i) || MatchFrom(key, i + 1)
  }

  /** `regexp.MatchString` for the annotation pattern: an unanchored search. */
  function MatchString(key: string): (b: bool)
    ensures b <==> exists j: nat :: MatchesAt(key, j)
  {
    MatchFrom(key, 0)
  }

  /**
    `filterAnnotations`: a fresh map holding exactly the entries whose key
    the pattern matches somewhere, with their values unchanged.
   */
  function FilterAnnotations(annotations: map<string, string>): (r: map<string, string>)
    ensures forall k :: k in r <==> k in annotations && exists j: nat :: MatchesAt(k, j)
    ensures forall k :: k in r ==> r[k] == annotations[k]
  {
    map k | k in annotations && MatchString(k) :: annotations[k]
  }

  // ---------------------------------------------------------------------
  // Ranging over a Go map

  /**
    `order` is one possible order of a Go `range` over `m`: every key exactly
    once. Go leaves the order unspecified, so the model takes it as input.
   */
  ghost predicate IsIterationOrder(order: seq<string>, m: map<string, string>)
  {
    && (forall i, j :: 0 <= i < j < |order| ==> order[i] != order[j])
    && (forall k :: k in m <==> k in order)
  }

  /** The (key, value) pairs a `range` over `m` visits, in the given order. */
  function EntriesInOrder(m: map<string, string>, order: seq<string>): (r: seq<(string, string)>)
    requires forall k :: k in order ==> k in m
    ensures |r| == |order|
    ensures forall i :: 0 <= i < |order| ==> r[i] == (order[i], m[order[i]])
  {
    seq(|order|, i requires 0 <= i < |order| => (order[i], m[order[i]]))
  }

  // ---------------------------------------------------------------------
  // parseMetrics

  /** The key splits on `/` into exactly two segments and its domain on `.` into at least two. */
  predicate WellFormedKey(key: string)
  {
    var keys := Split(key, '/');
    |keys| == 2 && |Split(keys[0], '.')| >= 2
  }

  /** A well-formed key whose first domain segment is `logfile`. */
  predicate IsLogfileKey(key: string)
  {
    WellFormedKey(key) && Split(Split(key, '/')[0], '.')[0] == "logfile"
  }

  /**
    `parseMetrics` over the entries in the order the map is ranged over. A
    malformed key ends the scan: the paths gathered before it are returned
    and every later entry is ignored. A `logfile` key contributes its value
    split on `,`; any other well-formed key contributes nothing.
   */
  function ParseMetrics(entries: seq<(string, string)>): seq<string>
  {
    if |entries| == 0 || !WellFormedKey(entries[0].0) then []
    else (if IsLogfileKey(entries[0].0) then Split(entries[0].1, ',') else []) + ParseMetrics(entries[1..])
  }

  /** Every extracted path comes from the value of some `logfile` key. */
  lemma {:induction false} ParseMetricsSound(entries: seq<(string, string)>, p: string)
    requires p in ParseMetrics(entries)
    ensures exists j :: 0 <= j < |entries| && IsLogfileKey(entries[j].0) && p in Split(entries[j].1, ',')
  {
    var head := if IsLogfileKey(entries[0].0) then Split(entries[0].1, ',') else [];
    if p !in head {
      ParseMetricsSound(entries[1..], p);
      var j :| 0 <= j < |entries[1..]| && IsLogfileKey(entries[1..][j].0) && p in Split(entries[1..][j].1, ',');
      assert entries[1..][j] == entries[j + 1];
    }
  }

  predicate AllWellFormed(entries: seq<(string, string)>)
  {
    forall j :: 0 <= j < |entries| ==> WellFormedKey(entries[j].0)
  }

  /** The first malformed key cuts the result off: nothing after it is read. */
  lemma {:induction false} ParseMetricsStopsAtMalformed(entries: seq<(string, string)>, i: nat)
    requires i < |entries|
    requires !WellFormedKey(entries[i].0)
    requires AllWellFormed(entries[..i])
    ensures ParseMetrics(entries) == ParseMetrics(entries[..i])
  {
    if i > 0 {
      assert WellFormedKey(entries[..i][0].0);
      var tail := entries[1..];
      assert tail[..i - 1] == entries[..i][1..];
      assert AllWellFormed(tail[..i - 1]) by {
        var pre := tail[..i - 1];
        forall j | 0 <= j < i - 1 ensures WellFormedKey(pre[j].0) {
          assert pre[j] == entries[..i][j + 1];
        }
      }
      ParseMetricsStopsAtMalformed(entries[1..], i - 1);
    }
  }

  /** Past a run of well-formed keys, results concatenate. */
  lemma {:induction false} ParseMetricsAppend(a: seq<(string, string)>, b: seq<(string, string)>)
    requires AllWellFormed(a)
    ensures ParseMetrics(a + b) == ParseMetrics(a) + ParseMetrics(b)
  {
    if |a| == 0 {
      assert a + b == b;
    } else {
      assert (a + b)[0] == a[0];
      assert (a + b)[1..] == a[1..] + b;
      assert AllWellFormed(a[1..]) by {
        forall j | 0 <= j < |a| - 1 ensures WellFormedKey(a[1..][j].0) {
          assert a[1..][j] == a[j + 1];
        }
      }
      ParseMetricsAppend(a[1..], b);
    }
  }

  /**
    An accepted `logfile` annotation reached by the scan appends its whole
    value split on `,`, in order, between what came before and after it.
   */
  lemma ParseMetricsContribution(entries: seq<(string, string)>, j: nat)
    requires j < |entries|
    requires AllWellFormed(entries[..j + 1])
    requires IsLogfileKey(entries[j].0)
    ensures ParseMetrics(entries) ==
      ParseMetrics(entries[..j]) + Split(entries[j].1, ',') + ParseMetrics(entries[j + 1..])
  {
    var pre := entries[..j];
    var suf := entries[j..];
    assert AllWellFormed(pre) by {
      forall i | 0 <= i < j ensures WellFormedKey(pre[i].0) {
        assert pre[i] == entries[..j + 1][i];
      }
    }
    SeqSplitAt(entries, j);
    ParseMetricsAppend(pre, suf);
    assert suf[0] == entries[j];
    assert suf[1..] == entries[j + 1..];
    ParseMetricsLogfileHead(suf);
    SeqConcatAssoc(ParseMetrics(pre), Split(entries[j].1, ','), ParseMetrics(entries[j + 1..]));
  }

  /** A leading `logfile` key contributes its value split on `,`, and the scan goes on. */
  lemma ParseMetricsLogfileHead(entries: seq<(string, string)>)
    requires |entries| > 0 && IsLogfileKey(entries[0].0)
    ensures ParseMetrics(entries) == Split(entries[0].1, ',') + ParseMetrics(entries[1..])
  {
  }

  lemma SeqConcatAssoc<T>(a: seq<T>, b: seq<T>, c: seq<T>)
    ensures a + (b + c) == a + b + c
  {
  }

  /**
    When no key is malformed, no paths at all means no `logfile` key at all;
    an empty value still yields one (empty) path.
   */
  lemma ParseMetricsEmptyIff(entries: seq<(string, string)>)
    requires AllWellFormed(entries)
    ensures ParseMetrics(entries) == [] <==> forall j :: 0 <= j < |entries| ==> !IsLogfileKey(entries[j].0)
  {
    if exists j :: 0 <= j < |entries| && IsLogfileKey(entries[j].0) {
      var j :| 0 <= j < |entries| && IsLogfileKey(entries[j].0);
      var pre := entries[..j + 1];
      assert AllWellFormed(pre) by {
        forall i | 0 <= i < j + 1 ensures WellFormedKey(pre[i].0) {
          assert pre[i] == entries[i];
        }
      }
      ParseMetricsContribution(entries, j);
      assert |Split(entries[j].1, ',')| > 0;
    } else {
      ParseMetricsNoLogfileKey(entries);
    }
  }

  /** Without a `logfile` key nothing is extracted. */
  lemma {:induction false} ParseMetricsNoLogfileKey(entries: seq<(string, string)>)
    requires forall j :: 0 <= j < |entries| ==> !IsLogfileKey(entries[j].0)
    ensures ParseMetrics(entries) == []
  {
    if |entries| > 0 {
      assert forall j :: 0 <= j < |entries| - 1 ==> entries[1..][j] == entries[j + 1];
      ParseMetricsNoLogfileKey(entries[1..]);
    }
  }

  /**
    Which path a key takes once it has passed the filter: with exactly one `/`
    its domain always has a `.` (so it is well formed), and it contributes
    exactly when the key starts with `logfile.`.
   */
  lemma FilteredKeyClassification(key: string)
    requires exists j: nat :: MatchesAt(key, j)
    requires |Split(key, '/')| == 2
    ensures WellFormedKey(key)
    ensures IsLogfileKey(key) <==> HasPrefix(key, "logfile.")
  {
    var i: nat :| MatchesAt(key, i);
    var domain := key[..i + 20];
    DomainOfMatchedKey(key, i);
    DomainHasDot(key, i);
    assert '.' in domain;
    CountPositive(domain, '.');
    assert |Split(domain, '.')| >= 2;
    DomainHeadIsLogfile(domain, i + 7);
    PrefixOfDomain(key, i + 20);
  }

  lemma DomainHasDot(key: string, i: nat)
    requires MatchesAt(key, i)
    ensures key[..i + 20][i + 7] == '.'
  {
    assert key[i..i + 21][7] == AnnotationDomain[7];
  }

  lemma PrefixOfDomain(key: string, n: nat)
    requires 8 <= n <= |key|
    ensures HasPrefix(key, "logfile.") <==> key[..n][..8] == "logfile."
  {
    assert key[..n][..8] == key[..8];
  }

  /** The slash of the match is the key's only slash, so the domain is everything before it. */
  lemma DomainOfMatchedKey(key: string, i: nat)
    requires MatchesAt(key, i)
    requires |Split(key, '/')| == 2
    ensures Split(key, '/')[0] == key[..i + 20]
  {
    var slash := i + 20;
    assert key[slash] == '/' by {
      assert key[i..i + 21][20] == AnnotationDomain[20];
    }
    SeqSplitAt(key, slash);
    CountAppend(key[..slash], key[slash..], '/');
    assert key[slash..][0] == '/';
    CountPositive(key[slash..], '/');
    if '/' in key[..slash] {
      CountPositive(key[..slash], '/');
    }
    SplitHead(key, '/', slash);
  }

  /** For a domain with a `.` at or after offset 7, its first `.`-segment is `logfile` iff it starts with `logfile.`. */
  lemma DomainHeadIsLogfile(domain: string, dot: nat)
    requires 7 <= dot < |domain| && domain[dot] == '.'
    ensures Split(domain, '.')[0] == "logfile" <==> domain[..8] == "logfile."
  {
    var w := "logfile";
    assert '.' !in w;
    SplitHeadEquals(domain, '.', w);
    assert w + ['.'] == "logfile.";
    assert |domain| != |w|;
  }

  /** The two keys of the order example, both inside the annotation domain. */
  const MalformedExampleKey: string := "logfile.huisebug.org/a/b"
  const LogfileExampleKey: string := "logfile.huisebug.org/app"

  /** Both example keys survive `filterAnnotations`, so `parseMetrics` sees them. */
  lemma ExampleKeysMatch()
    ensures MatchString(MalformedExampleKey)
    ensures MatchString(LogfileExampleKey)
  {
    assert MalformedExampleKey[..|AnnotationDomain|] == AnnotationDomain;
    assert MatchesAt(MalformedExampleKey, 0);
    assert LogfileExampleKey[..|AnnotationDomain|] == AnnotationDomain;
    assert MatchesAt(LogfileExampleKey, 0);
  }

  /** A matched key with two `/` after the domain: malformed. */
  lemma TwoSlashKeyMalformed()
    ensures !WellFormedKey(MalformedExampleKey)
  {
    var parts := ["logfile.huisebug.org", "a", "b"];
    assert Join(parts[1..], '/') == "a/b";
    assert Join(parts, '/') == MalformedExampleKey;
    SplitJoin(parts, '/');
  }

  /** A matched key with one `/` whose domain starts with `logfile`: a `logfile` key. */
  lemma OneSlashKeyIsLogfile()
    ensures IsLogfileKey(LogfileExampleKey)
  {
    SlashSplitExample();
    DotSplitExample();
  }

  lemma SlashSplitExample()
    ensures Split(LogfileExampleKey, '/') == ["logfile.huisebug.org", "app"]
  {
    var parts := ["logfile.huisebug.org", "app"];
    assert Join(parts, '/') == LogfileExampleKey;
    SplitJoin(parts, '/');
  }

  lemma DotSplitExample()
    ensures Split("logfile.huisebug.org", '.') == ["logfile", "huisebug", "org"]
  {
    var parts := ["logfile", "huisebug", "org"];
    assert Join(parts[1..], '.') == "huisebug.org";
    assert Join(parts, '.') == "logfile.huisebug.org";
    SplitJoin(parts, '.');
  }

  /** A malformed key seen first hides the `logfile` key after it. */
  lemma MalformedFirst()
    ensures ParseMetrics([(MalformedExampleKey, "x"), (LogfileExampleKey, "/p.log")]) == []
  {
    TwoSlashKeyMalformed();
  }

  /** Seen first, the `logfile` key contributes its path before the scan stops. */
  lemma MalformedSecond()
    ensures ParseMetrics([(LogfileExampleKey, "/p.log"), (MalformedExampleKey, "x")]) == ["/p.log"]
  {
    var e2 := [(LogfileExampleKey, "/p.log"), (MalformedExampleKey, "x")];
    OneSlashKeyIsLogfile();
    ParseMetricsLogfileHead(e2);
    SplitNoSeparator("/p.log", ',');
    TwoSlashKeyMalformed();
    assert e2[1..] == [(MalformedExampleKey, "x")];
    assert ParseMetrics(e2[1..]) == [];
  }

  /**
    The enrolment decision depends on map iteration order: two annotations
    that both pass the filter yield a path in one order and none in the
    other.
   */
  lemma ParseMetricsOrderDependent()
    ensures MatchString(MalformedExampleKey) && MatchString(LogfileExampleKey)
    ensures ParseMetrics([(MalformedExampleKey, "x"), (LogfileExampleKey, "/p.log")]) == []
    ensures ParseMetrics([(LogfileExampleKey, "/p.log"), (MalformedExampleKey, "x")]) == ["/p.log"]
  {
    ExampleKeysMatch();
    MalformedFirst();
    MalformedSecond();
  }
}
