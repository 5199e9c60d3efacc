/** Value types shared by the Ethernet repair tool: command results, suspicions, diagnoses. */
module Types {

  datatype Option<T> = None | Some(value: T)

  /** The outcome of one external command. */
  datatype CommandResult = CommandResult(cmd: seq<string>, returncode: int, stdout: string, stderr: string)

  /** What the diagnoser may suspect is wrong with an interface. */
  datatype Suspicion = InterfaceMissing | LinkDown | NoIpv4 | NoRoute | NoInternet | DnsBroken

  /** The suspicions in declaration order. */
  const AllSuspicions: seq<Suspicion> :=
    [InterfaceMissing, LinkDown, NoIpv4, NoRoute, NoInternet, DnsBroken]

  /** The set of tags is closed: every suspicion is one of the six, each listed once. */
  lemma SuspicionsClosed(s: Suspicion)
    ensures s in AllSuspicions
    ensures |AllSuspicions| == 6
    ensures forall i, j :: 0 <= i < j < |AllSuspicions| ==> AllSuspicions[i] != AllSuspicions[j]
  {
  }

  /** Human-readable label of each suspicion. */
  const SuspicionLabels: map<Suspicion, string> := map[
    InterfaceMissing := "Interface missing",
    LinkDown := "Link down",
    NoIpv4 := "No IPv4 address",
    NoRoute := "No default route",
    NoInternet := "No internet (ICMP)",
    DnsBroken := "DNS resolution failing"
  ]

  /** Every suspicion has exactly one label. */
  lemma LabelsTotal(s: Suspicion)
    ensures s in SuspicionLabels && SuspicionLabels[s] != []
    ensures SuspicionLabels.Keys == set t | t in AllSuspicions
  {
  }

  /** How `/etc/resolv.conf` is set up. */
  datatype ResolvConfMode = SystemdStub | SystemdFull | Manual | Other

  /** A score in hundredths: 100 stands for 1.0. */
  type Score = nat

  type Entry = (Suspicion, Score)

  /**
   * The suspicion scores of a diagnosis, in dictionary insertion order.
   * Keys are distinct, as in a dictionary.
   */
  predicate DistinctKeys(scores: seq<Entry>)
  {
    forall i, j :: 0 <= i < j < |scores| ==> scores[i].0 != scores[j].0
  }

  datatype Diagnosis = Diagnosis(iface: string, scores: seq<Entry>)

  /** Places `x` before the first entry whose score is not above its own. */
  function InsertDesc(x: Entry, t: seq<Entry>): seq<Entry>
  {
    if t == [] then [x]
    else if t[0].1 <= x.1 then [x] + t
    else [t[0]] + InsertDesc(x, t[1..])
  }

  /** A stable sort by descending score (Python's `sorted(..., reverse=True)`). */
  function SortDesc(s: seq<Entry>): seq<Entry>
  {
    if s == [] then [] else InsertDesc(s[0], SortDesc(s[1..]))
  }

  predicate NonIncreasing(s: seq<Entry>)
  {
    forall i, j :: 0 <= i < j < |s| ==> s[i].1 >= s[j].1
  }

  /** The entries whose score is `v`, in order. */
  function WithScore(s: seq<Entry>, v: Score): seq<Entry>
  {
    if s == [] then []
    else (if s[0].1 == v then [s[0]] else []) + WithScore(s[1..], v)
  }

  /** `Diagnosis.sorted_scores`. */
  function SortedScores(d: Diagnosis): seq<Entry>
  {
    SortDesc(d.scores)
  }

  /** `Diagnosis.top_suspicion`: the first ranked suspicion, or NoInternet when there is none. */
  function TopSuspicion(d: Diagnosis): Suspicion
  {
    var ranked := SortedScores(d);
    if ranked == [] then NoInternet else ranked[0].0
  }

  lemma {:induction false} InsertDescPerm(x: Entry, t: seq<Entry>)
    ensures multiset(InsertDesc(x, t)) == multiset([x]) + multiset(t)
  {
    if t != [] && t[0].1 > x.1 {
      InsertDescPerm(x, t[1..]);
      assert t == [t[0]] + t[1..];
    }
  }

  /** The ranking holds exactly the diagnosis's entries, each as often as it occurs there. */
  lemma {:induction false} SortDescPerm(s: seq<Entry>)
    ensures multiset(SortDesc(s)) == multiset(s)
  {
    if s != [] {
      SortDescPerm(s[1..]);
      InsertDescPerm(s[0], SortDesc(s[1..]));
      assert s == [s[0]] + s[1..];
    }
  }

  lemma {:induction false} InsertDescBounded(x: Entry, t: seq<Entry>, b: Score)
    requires x.1 <= b
    requires forall k :: 0 <= k < |t| ==> t[k].1 <= b
    ensures forall k :: 0 <= k < |InsertDesc(x, t)| ==> InsertDesc(x, t)[k].1 <= b
  {
    if t != [] && t[0].1 > x.1 {
      InsertDescBounded(x, t[1..], b);
    }
  }

  lemma {:induction false} InsertDescOrdered(x: Entry, t: seq<Entry>)
    requires NonIncreasing(t)
    ensures NonIncreasing(InsertDesc(x, t))
  {
    if t != [] {
      if t[0].1 <= x.1 {
        var r := [x] + t;
        forall i, j | 0 <= i < j < |r| ensures r[i].1 >= r[j].1 {
          if i > 0 {
            assert r[i] == t[i - 1] && r[j] == t[j - 1];
          } else if j > 1 {
            assert r[j] == t[j - 1];
          }
        }
      } else {
        InsertDescOrdered(x, t[1..]);
        InsertDescBounded(x, t[1..], t[0].1);
        var q := InsertDesc(x, t[1..]);
        var r := [t[0]] + q;
        forall i, j | 0 <= i < j < |r| ensures r[i].1 >= r[j].1 {
          if i > 0 {
            assert r[i] == q[i - 1] && r[j] == q[j - 1];
          } else {
            assert r[j] == q[j - 1];
          }
        }
      }
    }
  }

  /** The ranking is non-increasing in score. */
  lemma {:induction false} SortDescOrdered(s: seq<Entry>)
    ensures NonIncreasing(SortDesc(s))
  {
    if s != [] {
      SortDescOrdered(s[1..]);
      InsertDescOrdered(s[0], SortDesc(s[1..]));
    }
  }

  lemma {:induction false} WithScoreInsert(x: Entry, t: seq<Entry>, v: Score)
    ensures WithScore(InsertDesc(x, t), v)
         == (if x.1 == v then [x] else []) + WithScore(t, v)
  {
    if t != [] {
      if t[0].1 <= x.1 {
        assert InsertDesc(x, t) == [x] + t;
        assert ([x] + t)[1..] == t;
      } else {
        WithScoreInsert(x, t[1..], v);
        assert ([t[0]] + InsertDesc(x, t[1..]))[1..] == InsertDesc(x, t[1..]);
        if x.1 == v {
          // t[0] scores above x, so it is not kept for score v.
          assert t[0].1 != v;
        }
      }
    }
  }

  /** Entries with equal scores keep their relative order (the sort is stable). */
  lemma {:induction false} SortDescStable(s: seq<Entry>, v: Score)
    ensures WithScore(SortDesc(s), v) == WithScore(s, v)
  {
    if s != [] {
      SortDescStable(s[1..], v);
      WithScoreInsert(s[0], SortDesc(s[1..]), v);
    }
  }

  /** Entry `k` has the largest score of `s`, and every earlier entry scores strictly less. */
  predicate FirstMax(s: seq<Entry>, k: int)
  {
    0 <= k < |s|
    && (forall j :: 0 <= j < |s| ==> s[j].1 <= s[k].1)
    && (forall j :: 0 <= j < k ==> s[j].1 < s[k].1)
  }

  /**
   * The first ranked entry is the earliest entry with the largest score:
   * ties go to the entry inserted first.
   */
  lemma {:induction false} SortDescHead(s: seq<Entry>)
    requires s != []
    ensures exists k :: FirstMax(s, k) && SortDesc(s)[0] == s[k]
  {
    if |s| == 1 {
      assert FirstMax(s, 0);
    } else {
      var tail := s[1..];
      SortDescHead(tail);
      var k :| FirstMax(tail, k) && SortDesc(tail)[0] == tail[k];
      var t := SortDesc(tail);
      if t[0].1 <= s[0].1 {
        assert SortDesc(s)[0] == s[0];
        forall j | 0 <= j < |s| ensures s[j].1 <= s[0].1 {
          if j > 0 { assert s[j] == tail[j - 1]; }
        }
        assert FirstMax(s, 0);
      } else {
        assert SortDesc(s)[0] == t[0] == s[k + 1];
        forall j | 0 <= j < |s| ensures s[j].1 <= s[k + 1].1 {
          if j > 0 { assert s[j] == tail[j - 1]; }
        }
        forall j | 0 <= j < k + 1 ensures s[j].1 < s[k + 1].1 {
          if j > 0 { assert s[j] == tail[j - 1]; }
        }
        assert FirstMax(s, k + 1);
      }
    }
  }

  /** The top suspicion scores at least as high as every suspicion of the diagnosis. */
  lemma TopSuspicionIsMax(d: Diagnosis)
    requires d.scores != []
    ensures exists k :: FirstMax(d.scores, k) && d.scores[k].0 == TopSuspicion(d)
  {
    SortDescHead(d.scores);
  }

  /** An empty diagnosis points at the internet connection. */
  lemma TopSuspicionEmpty(d: Diagnosis)
    requires d.scores == []
    ensures TopSuspicion(d) == NoInternet
  {
  }
}
