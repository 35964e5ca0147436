/** `rank_job_tool` of main.py: keep the job records that carry a numeric
    score, sort them by score from highest to lowest (stably, as Python's
    `sorted(..., reverse=True)` does) and keep the first `top_k`. */
module Ranking {
  import opened Py

  /** What `rank_job_tool` returns. The two envelopes differ in the name of
      their job list: `"jobs"` on success, `"ranked_jobs"` when the input is
      not a list. `Raised` is the AttributeError that escapes the tool when an
      element of the list is not a dictionary. */
  datatype RankReply =
    | Ranked(jobs: seq<Value>, topK: int, totalJobsIn: nat, totalJobsRanked: nat)
    | NotAList(rankedJobs: seq<Value>, topK: int, totalJobsIn: nat, totalJobsRanked: nat, error: string)
    | Raised(message: string)

  const NotAListError := "Invalid input: jobs must be a list."

  /** The score of a job record when `isinstance(j.get("score"), (int, float))`
      accepts it. Python's `bool` is a subclass of `int`, so `True` and `False`
      are the scores 1 and 0. */
  function Score(job: Value): Option<int>
  {
    if !job.Dict? then None
    else
      match DictGet(job.entries, "score")
      case Int(i) => Some(i)
      case Bool(b) => Some(if b then 1 else 0)
      case _ => None
  }

  /** The sort key `j["score"]` of a job with a numeric score. */
  function Key(job: Value): int
  {
    match Score(job)
    case Some(k) => k
    case None => 0
  }

  /** The list comprehension `[j for j in jobs if isinstance(j.get("score"), ...)]`:
      the scored jobs in input order, each as many times as it occurs, or the
      AttributeError of the first element that is not a dictionary. */
  function ScoredJobs(jobs: seq<Value>): (r: Result<seq<Value>>)
    ensures r.Ok? <==> forall i :: 0 <= i < |jobs| ==> jobs[i].Dict?
    ensures r.Ok? ==> |r.value| <= |jobs|
    // The comprehension stops at the first element that is not a dictionary.
    ensures r.Raise? ==>
      exists i :: 0 <= i < |jobs| && !jobs[i].Dict? && r.error == NoGetMessage(jobs[i]) &&
        forall j :: 0 <= j < i ==> jobs[j].Dict?
  {
    if jobs == [] then Ok([])
    else if !jobs[0].Dict? then Raise(NoGetMessage(jobs[0]))
    else
      match ScoredJobs(jobs[1..])
      case Raise(e) => Raise(e)
      case Ok(rest) => Ok(if Score(jobs[0]).Some? then [jobs[0]] + rest else rest)
  }

  /** The filter keeps every job with a numeric score, as often as it occurs,
      and nothing else. */
  lemma {:induction false} ScoredJobsCounts(jobs: seq<Value>, v: Value)
    requires ScoredJobs(jobs).Ok?
    ensures multiset(ScoredJobs(jobs).value)[v] == if Score(v).Some? then multiset(jobs)[v] else 0
  {
    if jobs != [] {
      ScoredJobsCounts(jobs[1..], v);
      assert jobs == [jobs[0]] + jobs[1..];
    }
  }

  /** Ordered from the highest key to the lowest. */
  ghost predicate SortedDesc(s: seq<Value>)
  {
    forall i, j :: 0 <= i < j < |s| ==> Key(s[i]) >= Key(s[j])
  }

  /** Inserts `x` in front of the first element whose key is not greater than
      its own, so that it stays ahead of the equal keys already there. */
  function Insert(x: Value, s: seq<Value>): (r: seq<Value>)
    ensures |r| == |s| + 1
  {
    if s == [] || Key(s[0]) <= Key(x) then [x] + s
    else [s[0]] + Insert(x, s[1..])
  }

  lemma {:induction false} InsertPermutes(x: Value, s: seq<Value>)
    ensures multiset(Insert(x, s)) == multiset(s) + multiset{x}
  {
    if s != [] && Key(s[0]) > Key(x) {
      InsertPermutes(x, s[1..]);
      assert s == [s[0]] + s[1..];
    }
  }

  /** The stable descending sort that `sorted(valid_jobs, key=..., reverse=True)` performs. */
  function SortDesc(s: seq<Value>): (r: seq<Value>)
    ensures |r| == |s|
  {
    if s == [] then []
    else Insert(s[0], SortDesc(s[1..]))
  }

  /** The sort's output is a permutation of its input. */
  lemma {:induction false} SortDescPermutes(s: seq<Value>)
    ensures multiset(SortDesc(s)) == multiset(s)
  {
    if s != [] {
      SortDescPermutes(s[1..]);
      InsertPermutes(s[0], SortDesc(s[1..]));
      assert s == [s[0]] + s[1..];
    }
  }

  lemma {:induction false} InsertSorted(x: Value, s: seq<Value>)
    requires SortedDesc(s)
    ensures SortedDesc(Insert(x, s))
  {
    if s != [] && Key(s[0]) > Key(x) {
      var rest := Insert(x, s[1..]);
      InsertSorted(x, s[1..]);
      // The head of `rest` is `x` or `s[1]`, both no higher than `s[0]`.
      assert Key(rest[0]) <= Key(s[0]);
      forall i, j | 0 <= i < j < |rest| + 1
        ensures Key(([s[0]] + rest)[i]) >= Key(([s[0]] + rest)[j])
      {
        if i == 0 && j > 1 {
          assert Key(rest[0]) >= Key(rest[j - 1]);
        }
      }
      assert Insert(x, s) == [s[0]] + rest;
    }
  }

  /** The sort's output is ordered from the highest score to the lowest. */
  lemma {:induction false} SortDescSorted(s: seq<Value>)
    ensures SortedDesc(SortDesc(s))
  {
    if s != [] {
      SortDescSorted(s[1..]);
      InsertSorted(s[0], SortDesc(s[1..]));
    }
  }

  /** The end of Python's slice `s[:k]` on a list of length `n`: a negative
      bound counts from the end. */
  function SliceEnd(n: nat, k: int): (e: nat)
    ensures e <= n
  {
    if k >= 0 then (if k <= n then k else n)
    else if n + k >= 0 then n + k
    else 0
  }

  /** `rank_job_tool(tool_context, jobs, top_k)`. */
  function RankJobTool(jobs: Value, topK: int): (r: RankReply)
    ensures !jobs.List? ==> r.NotAList? && r.rankedJobs == [] && r.totalJobsIn == 0 && r.totalJobsRanked == 0
    ensures r.NotAList? <==> !jobs.List?
    ensures r.NotAList? ==> r.error == NotAListError
    // The AttributeError escapes exactly when some element is not a dictionary.
    ensures r.Raised? <==> jobs.List? && exists i :: 0 <= i < |jobs.items| && !jobs.items[i].Dict?
    ensures r.Raised? ==>
      exists i :: 0 <= i < |jobs.items| && !jobs.items[i].Dict? && r.message == NoGetMessage(jobs.items[i]) &&
        forall j :: 0 <= j < i ==> jobs.items[j].Dict?
    ensures !r.Raised? ==> r.topK == topK
    ensures r.Ranked? ==> r.totalJobsIn == |jobs.items| && r.totalJobsRanked == |r.jobs| <= r.totalJobsIn
  {
    if !jobs.List? then NotAList([], topK, 0, 0, NotAListError)
    else
      match ScoredJobs(jobs.items)
      case Raise(e) => Raised(e)
      case Ok(valid) =>
        var sorted := SortDesc(valid);
        var top := sorted[..SliceEnd(|sorted|, topK)];
        Ranked(top, topK, |jobs.items|, |top|)
  }

  /** The jobs of `s` whose key is `k`, in the order of `s`. */
  function WithKey(s: seq<Value>, k: int): seq<Value>
  {
    if s == [] then []
    else (if Key(s[0]) == k then [s[0]] else []) + WithKey(s[1..], k)
  }

  lemma {:induction false} WithKeyConcat(a: seq<Value>, b: seq<Value>, k: int)
    ensures WithKey(a + b, k) == WithKey(a, k) + WithKey(b, k)
  {
    if a != [] {
      assert (a + b)[0] == a[0];
      assert (a + b)[1..] == a[1..] + b;
      WithKeyConcat(a[1..], b, k);
    } else {
      assert a + b == b;
    }
  }

  lemma {:induction false} WithKeyInsert(x: Value, s: seq<Value>, k: int)
    ensures WithKey(Insert(x, s), k) == (if Key(x) == k then [x] else []) + WithKey(s, k)
  {
    if s == [] || Key(s[0]) <= Key(x) {
      WithKeyConcat([x], s, k);
      assert WithKey([x], k) == (if Key(x) == k then [x] else []) + WithKey([], k);
    } else {
      WithKeyInsert(x, s[1..], k);
      var rest := Insert(x, s[1..]);
      WithKeyConcat([s[0]], rest, k);
      WithKeyConcat([s[0]], s[1..], k);
      assert WithKey([s[0]], k) == (if Key(s[0]) == k then [s[0]] else []) + WithKey([], k);
      assert s == [s[0]] + s[1..];
      assert Key(x) != k || Key(s[0]) != k;
    }
  }

  /** The sort is stable: for every score, the jobs with that score come out
      in the order they went in. */
  lemma {:induction false} SortKeepsTies(s: seq<Value>, k: int)
    ensures WithKey(SortDesc(s), k) == WithKey(s, k)
  {
    if s != [] {
      SortKeepsTies(s[1..], k);
      WithKeyInsert(s[0], SortDesc(s[1..]), k);
    }
  }

  /** The input's jobs whose score is `k`, in input order. */
  function ScoredWithKey(jobs: seq<Value>, k: int): seq<Value>
  {
    if jobs == [] then []
    else (if Score(jobs[0]) == Some(k) then [jobs[0]] else []) + ScoredWithKey(jobs[1..], k)
  }

  /** The filter keeps the input's order: for every score, its jobs with that
      score are the input's jobs with that score, in the same order. */
  lemma {:induction false} ScoredJobsKeepsOrder(jobs: seq<Value>, k: int)
    requires ScoredJobs(jobs).Ok?
    ensures WithKey(ScoredJobs(jobs).value, k) == ScoredWithKey(jobs, k)
  {
    if jobs != [] {
      ScoredJobsKeepsOrder(jobs[1..], k);
      var rest := ScoredJobs(jobs[1..]).value;
      if Score(jobs[0]).Some? {
        WithKeyConcat([jobs[0]], rest, k);
        assert WithKey([jobs[0]], k) == (if Key(jobs[0]) == k then [jobs[0]] else []) + WithKey([], k);
      }
    }
  }

  /** How a successful reply is built: the first jobs of the sorted scored jobs. */
  lemma RankedShape(jobs: Value, topK: int)
    requires RankJobTool(jobs, topK).Ranked?
    ensures jobs.List? && ScoredJobs(jobs.items).Ok?
    ensures var sorted := SortDesc(ScoredJobs(jobs.items).value);
      RankJobTool(jobs, topK).jobs == sorted[..SliceEnd(|sorted|, topK)]
  {
  }

  lemma PrefixMultiset(s: seq<Value>, n: nat)
    requires n <= |s|
    ensures multiset(s[..n]) <= multiset(s)
    ensures multiset(s) - multiset(s[..n]) == multiset(s[n..])
  {
    assert s == s[..n] + s[n..];
  }

  /** Only jobs with a numeric score reach the output, and they are the
      caller's own records: every output job is a dictionary of the input whose
      score is numeric, appearing no more often than it did there. */
  lemma RankedAreScoredInputs(jobs: Value, topK: int)
    requires RankJobTool(jobs, topK).Ranked?
    ensures var r := RankJobTool(jobs, topK);
      forall v :: v in r.jobs ==> v in jobs.items && v.Dict? && Score(v).Some?
    ensures var r := RankJobTool(jobs, topK);
      multiset(r.jobs) <= multiset(jobs.items)
  {
    RankedShape(jobs, topK);
    var out := RankJobTool(jobs, topK).jobs;
    var valid := ScoredJobs(jobs.items).value;
    var sorted := SortDesc(valid);
    PrefixMultiset(sorted, SliceEnd(|sorted|, topK));
    SortDescPermutes(valid);
    assert multiset(out) <= multiset(valid);
    forall v
      ensures multiset(out)[v] <= multiset(jobs.items)[v]
      ensures v in out ==> v in jobs.items && v.Dict? && Score(v).Some?
    {
      assert multiset(out)[v] <= multiset(valid)[v];
      ScoredJobsCounts(jobs.items, v);
    }
  }

  /** The output is ordered by score, from the highest to the lowest. */
  lemma RankedIsSortedDesc(jobs: Value, topK: int)
    requires RankJobTool(jobs, topK).Ranked?
    ensures var r := RankJobTool(jobs, topK);
      forall i, j :: 0 <= i < j < |r.jobs| ==> Key(r.jobs[i]) >= Key(r.jobs[j])
  {
    RankedShape(jobs, topK);
    SortDescSorted(ScoredJobs(jobs.items).value);
  }

  /** Jobs with equal scores keep their input order: for every score, the
      output's jobs with that score are the first ones of the input's jobs
      with that score. */
  lemma RankedKeepsTieOrder(jobs: Value, topK: int, k: int)
    requires RankJobTool(jobs, topK).Ranked?
    ensures var r := RankJobTool(jobs, topK);
      var tiesIn := ScoredWithKey(jobs.items, k);
      var tiesOut := WithKey(r.jobs, k);
      |tiesOut| <= |tiesIn| && tiesOut == tiesIn[..|tiesOut|]
  {
    RankedShape(jobs, topK);
    var valid := ScoredJobs(jobs.items).value;
    SortedPrefixTies(valid, SliceEnd(|valid|, topK), k);
    ScoredJobsKeepsOrder(jobs.items, k);
  }

  lemma SortedPrefixTies(s: seq<Value>, n: nat, k: int)
    requires n <= |s|
    ensures var tiesIn := WithKey(s, k);
      var tiesOut := WithKey(SortDesc(s)[..n], k);
      |tiesOut| <= |tiesIn| && tiesOut == tiesIn[..|tiesOut|]
  {
    var sorted := SortDesc(s);
    assert sorted == sorted[..n] + sorted[n..];
    WithKeyConcat(sorted[..n], sorted[n..], k);
    SortKeepsTies(s, k);
  }

  /** The output is the first jobs of the sorted scored jobs: `min(top_k, n)` of
      them for a non-negative `top_k`, where `n` is their number, and all but
      the last `-top_k` of them (at least none) for a negative one, as a Python
      slice does. No job left out scores higher than any job kept. */
  lemma RankedIsTopK(jobs: Value, topK: int)
    requires RankJobTool(jobs, topK).Ranked?
    ensures var r := RankJobTool(jobs, topK);
      var valid := ScoredJobs(jobs.items).value;
      && (topK >= 0 ==> |r.jobs| == if topK <= |valid| then topK else |valid|)
      && (topK < 0 ==> |r.jobs| == if |valid| + topK >= 0 then |valid| + topK else 0)
      && r.jobs == SortDesc(valid)[..|r.jobs|]
      && forall x, y :: x in multiset(valid) - multiset(r.jobs) && y in r.jobs ==> Key(x) <= Key(y)
  {
    RankedShape(jobs, topK);
    var valid := ScoredJobs(jobs.items).value;
    var sorted := SortDesc(valid);
    var n := SliceEnd(|sorted|, topK);
    SortDescSorted(valid);
    SortDescPermutes(valid);
    PrefixMultiset(sorted, n);
    forall x, y | x in multiset(valid) - multiset(sorted[..n]) && y in sorted[..n]
      ensures Key(x) <= Key(y)
    {
      assert x in sorted[n..];
      var i :| n <= i < |sorted| && sorted[i] == x;
      var j :| 0 <= j < n && sorted[j] == y;
    }
  }

  /** Three jobs scored 90, 60 and 90 with `top_k` 2: the two 90s come out,
      in their input order. */
  lemma TiesExample(a: Value, b: Value, c: Value)
    requires Score(a) == Some(90) && Score(b) == Some(60) && Score(c) == Some(90)
    ensures RankJobTool(List([a, b, c]), 2) == Ranked([a, c], 2, 3, 2)
  {
    ExampleScored(a, b, c);
    ExampleSorted(a, b, c);
    RankedFrom([a, b, c], 2, [a, b, c], [a, c, b]);
    assert [a, c, b][..2] == [a, c];
  }

  /** A list whose elements are all dictionaries is ranked from its scored jobs. */
  lemma RankedFrom(items: seq<Value>, topK: int, scored: seq<Value>, sorted: seq<Value>)
    requires ScoredJobs(items) == Ok(scored) && SortDesc(scored) == sorted
    ensures RankJobTool(List(items), topK) ==
      Ranked(sorted[..SliceEnd(|sorted|, topK)], topK, |items|, SliceEnd(|sorted|, topK))
  {
  }

  lemma ExampleScored(a: Value, b: Value, c: Value)
    requires Score(a).Some? && Score(b).Some? && Score(c).Some?
    ensures ScoredJobs([a, b, c]) == Ok([a, b, c])
  {
    assert [a, b, c][1..] == [b, c];
    assert [b, c][1..] == [c];
    assert [c][1..] == [];
    assert [c] + [] == [c];
    assert ScoredJobs([c]) == Ok([c]);
    assert [b] + [c] == [b, c];
    assert ScoredJobs([b, c]) == Ok([b, c]);
    assert [a] + [b, c] == [a, b, c];
  }

  lemma ExampleSorted(a: Value, b: Value, c: Value)
    requires Score(a) == Some(90) && Score(b) == Some(60) && Score(c) == Some(90)
    ensures SortDesc([a, b, c]) == [a, c, b]
  {
    assert [a, b, c][1..] == [b, c];
    assert [b, c][1..] == [c];
    assert [c][1..] == [];
    assert SortDesc([c]) == [c] by {
      assert Insert(c, []) == [c];
    }
    assert Insert(b, [c]) == [c, b] by {
      assert Insert(b, []) == [b];
    }
    assert SortDesc([b, c]) == [c, b];
    assert Insert(a, [c, b]) == [a, c, b];
  }
}
