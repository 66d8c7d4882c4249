/**
 * What `run_evaluation` does with the records of a run (frontend/evaluation.py): it appends
 * them to the table persisted by earlier runs, then groups the whole table by
 * (dataset, method) and reports, per group, the accuracy in percent, the mean response
 * time and the mean total token count.
 *
 * The persisted table is a sequence of records; pandas' floating-point means become exact
 * rationals (`real`) computed from natural-number tallies.
 */
module Summary {
  import opened Wrappers
  import opened Evaluation

  // ----- Persisting -----

  /** The table written back: the rows already on disk (`None` when there is no file yet)
      followed by the records of this run. */
  function Persist(existing: Option<seq<Record>>, batch: seq<Record>): (table: seq<Record>)
    ensures |table| == |existing.GetOr([])| + |batch|
    ensures table[..|existing.GetOr([])|] == existing.GetOr([])
    ensures table[|existing.GetOr([])|..] == batch
  {
    match existing
    case None => batch
    case Some(rows) => rows + batch
  }

  /** Rows are neither merged nor dropped: the table holds every old row and every new
      record, as often as each occurs. */
  lemma PersistKeepsDuplicates(existing: Option<seq<Record>>, batch: seq<Record>)
    ensures multiset(Persist(existing, batch)) == multiset(existing.GetOr([])) + multiset(batch)
  {
    var table := Persist(existing, batch);
    var rows := existing.GetOr([]);
    assert table == rows + batch;
  }

  /** Two runs one after the other leave the table that one run over both batches of
      records would have left. */
  lemma PersistAccumulates(existing: Option<seq<Record>>, first: seq<Record>, second: seq<Record>)
    ensures Persist(Some(Persist(existing, first)), second) == Persist(existing, first + second)
  {
    var rows := existing.GetOr([]);
    assert Persist(existing, first) == rows + first;
    assert (rows + first) + second == rows + (first + second);
  }

  // ----- Grouping -----

  /** The tallies behind one group's statistics: its size, its correct records, the sum of
      its response times, and the sum and number of its present total token counts. */
  datatype Stats = Stats(size: nat, correct: nat, timeSum: nat, tokenSum: nat, tokenCount: nat)
  {
    /** The tallies of two disjoint parts of a table, added. */
    function Plus(other: Stats): Stats {
      Stats(size + other.size, correct + other.correct, timeSum + other.timeSum,
            tokenSum + other.tokenSum, tokenCount + other.tokenCount)
    }

    /** Tallies that some sequence of records can produce. */
    predicate Consistent() {
      correct <= size && tokenCount <= size && (tokenCount == 0 ==> tokenSum == 0)
    }
  }

  /** Record `r` falls in the group of dataset `d` and method `m`. */
  predicate InGroup(r: Record, d: string, m: string) {
    r.dataset == d && r.strategy == m
  }

  /** The tallies of one record, counted in its group. */
  function One(r: Record): (s: Stats)
    ensures s.size == 1 && s.Consistent()
  {
    Stats(1, if r.isCorrect then 1 else 0, r.responseTime,
          r.totalTokens.GetOr(0), if r.totalTokens.Some? then 1 else 0)
  }

  /** The tallies of group (`d`, `m`) over `table`. */
  function Tally(table: seq<Record>, d: string, m: string): (s: Stats)
    ensures s.Consistent()
    ensures s.size <= |table|
  {
    if table == [] then Stats(0, 0, 0, 0, 0)
    else
      var rest := Tally(table[..|table| - 1], d, m);
      if InGroup(table[|table| - 1], d, m) then rest.Plus(One(table[|table| - 1])) else rest
  }

  /** The records of group (`d`, `m`), in table order: the rows pandas collects under that key. */
  function Group(table: seq<Record>, d: string, m: string): (g: seq<Record>)
    ensures |g| <= |table|
    ensures forall r :: r in g ==> r in table && InGroup(r, d, m)
  {
    if table == [] then []
    else
      var rest := Group(table[..|table| - 1], d, m);
      if InGroup(table[|table| - 1], d, m) then rest + [table[|table| - 1]] else rest
  }

  /** Every record of the group is counted once, and nothing else is. */
  lemma {:induction false} TallyCountsGroup(table: seq<Record>, d: string, m: string)
    ensures Tally(table, d, m).size == |Group(table, d, m)|
    ensures (forall r :: r in table ==> !InGroup(r, d, m)) ==> Tally(table, d, m).size == 0
    ensures (exists r :: r in table && InGroup(r, d, m)) ==> Tally(table, d, m).size > 0
  {
    if table != [] {
      var init := table[..|table| - 1];
      TallyCountsGroup(init, d, m);
      assert table == init + [table[|table| - 1]];
      assert forall r :: r in init ==> r in table;
      if exists r :: r in table && InGroup(r, d, m) {
        var r :| r in table && InGroup(r, d, m);
        if r != table[|table| - 1] {
          assert r in init;
        }
      }
    }
  }

  /** `groupby` loses and invents nothing: every row with key (`d`, `m`) is in the group as
      often as it is in the table, and no other row is in it. */
  lemma {:induction false} GroupComplete(table: seq<Record>, d: string, m: string)
    ensures forall r :: InGroup(r, d, m) ==> multiset(Group(table, d, m))[r] == multiset(table)[r]
    ensures forall r :: !InGroup(r, d, m) ==> multiset(Group(table, d, m))[r] == 0
    ensures forall r :: r in table && InGroup(r, d, m) ==> r in Group(table, d, m)
  {
    if table != [] {
      var init, last := table[..|table| - 1], table[|table| - 1];
      GroupComplete(init, d, m);
      assert table == init + [last];
      var g := Group(init, d, m);
      if InGroup(last, d, m) {
        assert Group(table, d, m) == g + [last];
      }
    }
  }

  /** The tallies of a sequence of records, each counted. */
  function Sum(rows: seq<Record>): (s: Stats)
    ensures s.size == |rows| && s.Consistent()
  {
    if rows == [] then Stats(0, 0, 0, 0, 0) else Sum(rows[..|rows| - 1]).Plus(One(rows[|rows| - 1]))
  }

  /** Grouping then aggregating: the tallies of group (`d`, `m`) are those of the rows the
      group collects, so the aggregates below are means over exactly those rows. */
  lemma {:induction false} TallyIsGroupSum(table: seq<Record>, d: string, m: string)
    ensures Tally(table, d, m) == Sum(Group(table, d, m))
  {
    if table != [] {
      var init, last := table[..|table| - 1], table[|table| - 1];
      TallyIsGroupSum(init, d, m);
      if InGroup(last, d, m) {
        var g := Group(init, d, m);
        assert (g + [last])[..|g|] == g;
      }
    }
  }

  /** Appending a record counts it in its own group and nowhere else. */
  lemma TallySnoc(table: seq<Record>, r: Record, d: string, m: string)
    ensures Tally(table + [r], d, m) == if InGroup(r, d, m) then Tally(table, d, m).Plus(One(r)) else Tally(table, d, m)
  {
    assert (table + [r])[..|table|] == table;
  }

  /** Tallying a table made of two parts adds the tallies of the parts. */
  lemma {:induction false} TallyAppend(a: seq<Record>, b: seq<Record>, d: string, m: string)
    ensures Tally(a + b, d, m) == Tally(a, d, m).Plus(Tally(b, d, m))
    decreases |b|
  {
    if b == [] {
      assert a + b == a;
    } else {
      var init, last := b[..|b| - 1], b[|b| - 1];
      TallyAppend(a, init, d, m);
      assert b == init + [last];
      assert a + b == (a + init) + [last];
      TallySnoc(a + init, last, d, m);
      TallySnoc(init, last, d, m);
    }
  }

  /** The tallies of a persisted table combine those of the old rows and of the new records. */
  lemma TallyPersist(existing: Option<seq<Record>>, batch: seq<Record>, d: string, m: string)
    ensures Tally(Persist(existing, batch), d, m)
         == Tally(existing.GetOr([]), d, m).Plus(Tally(batch, d, m))
  {
    var rows := existing.GetOr([]);
    assert Persist(existing, batch) == rows + batch;
    TallyAppend(rows, batch, d, m);
  }

  // ----- Statistics -----

  /** `100 * c / n` as an exact rational: the mean of `c` ones and `n - c` zeros, times 100. */
  function Percent(c: nat, n: nat): (p: real)
    requires 0 < n
    ensures p * n as real == (100 * c) as real
    ensures c <= n ==> 0.0 <= p <= 100.0
    ensures c == n ==> p == 100.0
    ensures c == 0 ==> p == 0.0
  {
    (100 * c) as real / n as real
  }

  /** The exact mean of `n` values summing to `sum`. */
  function Mean(sum: nat, n: nat): (r: real)
    requires 0 < n
    ensures r * n as real == sum as real
    ensures 0.0 <= r
  {
    sum as real / n as real
  }

  /** `group["is_correct"].mean() * 100` for a group with tallies `s`; a key with no rows
      has no entry. */
  function Accuracy(s: Stats): (acc: Option<real>)
    ensures acc.Some? <==> s.size > 0
    ensures acc.Some? && s.Consistent() ==> 0.0 <= acc.value <= 100.0
    ensures acc.Some? ==> acc.value * s.size as real == (100 * s.correct) as real
  {
    if s.size == 0 then None else Some(Percent(s.correct, s.size))
  }

  /** `group["response_time_s"].mean()` */
  function AverageTime(s: Stats): (avg: Option<real>)
    ensures avg.Some? <==> s.size > 0
    ensures avg.Some? ==> avg.value * s.size as real == s.timeSum as real
  {
    if s.size == 0 then None else Some(Mean(s.timeSum, s.size))
  }

  /** `group["total_tokens"].mean()`: missing counts are skipped, and a group with no
      count at all has no mean. */
  function AverageTokens(s: Stats): (avg: Option<real>)
    ensures avg.Some? <==> s.tokenCount > 0
    ensures avg.Some? ==> avg.value * s.tokenCount as real == s.tokenSum as real
  {
    if s.tokenCount == 0 then None else Some(Mean(s.tokenSum, s.tokenCount))
  }

  /** The statistics of exactly the keys that occur in the table exist: accuracy and mean
      time for every group with a row, the token mean for every group with a count. */
  lemma StatisticsDefined(table: seq<Record>, d: string, m: string)
    ensures Accuracy(Tally(table, d, m)).Some? <==> exists r :: r in table && InGroup(r, d, m)
    ensures AverageTime(Tally(table, d, m)).Some? <==> exists r :: r in table && InGroup(r, d, m)
    ensures AverageTokens(Tally(table, d, m)).Some? ==> Accuracy(Tally(table, d, m)).Some?
  {
    TallyCountsGroup(table, d, m);
  }

  /** A group whose records are all correct has accuracy 100, one with none correct 0. */
  lemma AccuracyExtremes(table: seq<Record>, d: string, m: string)
    requires Tally(table, d, m).size > 0
    ensures Tally(table, d, m).correct == Tally(table, d, m).size ==> Accuracy(Tally(table, d, m)) == Some(100.0)
    ensures Tally(table, d, m).correct == 0 ==> Accuracy(Tally(table, d, m)) == Some(0.0)
  {
  }

  /** The worked example: two records of gsm8k under cod, one correct and one not, give an
      accuracy of 50. */
  lemma AccuracyExample(r1: Record, r2: Record)
    requires InGroup(r1, "gsm8k", "cod") && InGroup(r2, "gsm8k", "cod")
    requires r1.isCorrect && !r2.isCorrect
    ensures Accuracy(Tally([r1, r2], "gsm8k", "cod")) == Some(50.0)
  {
    assert [r1, r2][..1] == [r1];
    assert [r1][..0] == [];
    assert Tally([r1], "gsm8k", "cod") == One(r1);
    assert Tally([r1, r2], "gsm8k", "cod") == One(r1).Plus(One(r2));
  }

  // ----- A whole run -----

  /** `run_evaluation` on one dataset: evaluate it and append its records to the persisted
      table, which is returned. */
  method RunEvaluation(existing: Option<seq<Record>>, datasetName: string, dataset: seq<Item>,
                       backend: (nat, string) -> Call)
    returns (table: seq<Record>)
    ensures table == Persist(existing, Results(datasetName, dataset, backend))
  {
    var allResults := [];
    var results := EvaluateDataset(datasetName, dataset, backend);
    allResults := allResults + results;
    assert allResults == results;
    match existing
    case None => table := allResults;
    case Some(oldRows) => table := oldRows + allResults;
  }

  /** Requests for strategy `m` that returned, over the first `n` items. */
  function Successes(backend: (nat, string) -> Call, m: string, n: nat): nat {
    if n == 0 then 0 else Successes(backend, m, n - 1) + (if backend(n - 1, m).Returned? then 1 else 0)
  }

  /** The requests of `qs` made with strategy `m`. */
  function StrategyCount(qs: seq<Request>, m: string): (c: nat)
    ensures c <= |qs|
  {
    if qs == [] then 0
    else StrategyCount(qs[..|qs| - 1], m) + (if qs[|qs| - 1].strategy == m then 1 else 0)
  }

  lemma {:induction false} StrategyCountAppend(a: seq<Request>, b: seq<Request>, m: string)
    ensures StrategyCount(a + b, m) == StrategyCount(a, m) + StrategyCount(b, m)
    decreases |b|
  {
    if b == [] {
      assert a + b == a;
    } else {
      StrategyCountAppend(a, b[..|b| - 1], m);
      assert (a + b)[..|a + b| - 1] == a + b[..|b| - 1];
    }
  }

  /** Group (`d`, `m`) of the records built for `qs` under dataset `name` holds one record per
      request with strategy `m` when `d` is `name`, and none otherwise. */
  lemma {:induction false} BuildTally(name: string, qs: seq<Request>, d: string, m: string)
    ensures Tally(Build(name, qs), d, m).size == if d == name then StrategyCount(qs, m) else 0
  {
    if qs != [] {
      var init := qs[..|qs| - 1];
      BuildTally(name, init, d, m);
      assert qs == init + [qs[|qs| - 1]];
      BuildAppend(name, init, [qs[|qs| - 1]]);
      TallyAppend(Build(name, init), Build(name, [qs[|qs| - 1]]), d, m);
      assert Build(name, [qs[|qs| - 1]])[..0] == [];
    }
  }

  /** Among the first `k` strategies on item `i`, strategy `Methods[t]` contributed one
      request exactly when it is among them and returned. */
  lemma {:induction false} MethodRequestsStrategy(dataset: seq<Item>, backend: (nat, string) -> Call,
                                                  i: nat, k: nat, t: nat)
    requires i < |dataset| && k <= |Methods| && t < |Methods|
    ensures StrategyCount(MethodRequests(dataset, backend, i, k), Methods[t])
         == (if t < k && backend(i, Methods[t]).Returned? then 1 else 0)
  {
    if k > 0 {
      var tail := Attempt(dataset, backend, i, Methods[k - 1]);
      MethodRequestsStrategy(dataset, backend, i, k - 1, t);
      MethodRequestsStep(dataset, backend, i, k);
      StrategyCountAppend(MethodRequests(dataset, backend, i, k - 1), tail, Methods[t]);
      AttemptShape(dataset, backend, i, Methods[k - 1]);
      MethodsDistinct(k - 1, t);
      if tail != [] {
        assert tail[0] in tail;
        assert tail[..0] == [];
      }
    }
  }

  /** All strategies run on item `i` contribute one request with strategy `Methods[t]`
      when it returned, and none when it raised. */
  lemma ItemStrategy(dataset: seq<Item>, backend: (nat, string) -> Call, i: nat, t: nat)
    requires i < |dataset| && t < |Methods|
    ensures StrategyCount(MethodRequests(dataset, backend, i, |Methods|), Methods[t])
         == if backend(i, Methods[t]).Returned? then 1 else 0
  {
    MethodRequestsStrategy(dataset, backend, i, |Methods|, t);
  }

  /** One more item's requests add one request with strategy `m` when its request with `m`
      returned, and none otherwise. */
  lemma SuccessesStep(backend: (nat, string) -> Call, m: string, n: nat,
                      done: seq<Request>, more: seq<Request>, all: seq<Request>)
    requires 0 < n && all == done + more
    requires StrategyCount(done, m) == Successes(backend, m, n - 1)
    requires StrategyCount(more, m) == if backend(n - 1, m).Returned? then 1 else 0
    ensures StrategyCount(all, m) == Successes(backend, m, n)
  {
    StrategyCountAppend(done, more, m);
  }

  /** Over the first `n` items, strategy `m` contributed one request per item on which it
      returned. */
  lemma {:induction false} ItemRequestsStrategy(dataset: seq<Item>, backend: (nat, string) -> Call, n: nat, m: string)
    requires n <= |dataset| && m in Methods
    ensures StrategyCount(ItemRequests(dataset, backend, n), m) == Successes(backend, m, n)
  {
    if n > 0 {
      var done := ItemRequests(dataset, backend, n - 1);
      var more := MethodRequests(dataset, backend, n - 1, |Methods|);
      ItemRequestsStrategy(dataset, backend, n - 1, m);
      ItemStrategy(dataset, backend, n - 1, Rank(m));
      ItemRequestsStep(dataset, backend, n);
      SuccessesStep(backend, m, n, done, more, ItemRequests(dataset, backend, n));
    }
  }

  /** Records of a run fall only in groups of the evaluated dataset and a strategy of `Methods`. */
  lemma ResultsOtherGroups(name: string, dataset: seq<Item>, backend: (nat, string) -> Call, d: string, m: string)
    requires d != name || m !in Methods
    ensures Tally(Results(name, dataset, backend), d, m).size == 0
  {
    EvaluationRecords(name, dataset, backend);
    TallyCountsGroup(Results(name, dataset, backend), d, m);
  }

  /** After a run, the group (`d`, `m`) has grown by one row per item whose request with
      strategy `m` returned when `d` is the evaluated dataset and `m` a strategy of
      `Methods`, and by nothing otherwise. */
  lemma RunGroupSizes(existing: Option<seq<Record>>, name: string, dataset: seq<Item>,
                      backend: (nat, string) -> Call, d: string, m: string)
    ensures Tally(Persist(existing, Results(name, dataset, backend)), d, m).size
         == Tally(existing.GetOr([]), d, m).size
            + (if d == name && m in Methods then Successes(backend, m, |dataset|) else 0)
  {
    TallyPersist(existing, Results(name, dataset, backend), d, m);
    if d == name && m in Methods {
      ItemRequestsStrategy(dataset, backend, |dataset|, m);
      BuildTally(name, ItemRequests(dataset, backend, |dataset|), d, m);
    } else {
      ResultsOtherGroups(name, dataset, backend, d, m);
    }
  }
}
