/**
 * The batch evaluator (`evaluate_dataset` in frontend/evaluation.py): every dataset item
 * is sent to the backend once per strategy, in the order of `Methods`; a call that raises
 * is skipped, every other call yields one scored record.
 *
 * The backend is an oracle: `backend(i, m)` is what the request for item `i` with
 * strategy `m` produced, together with the clock difference measured around it.
 */
module Evaluation {
  import opened Wrappers
  import Text
  import Prompts

  /** `METHODS`: the strategies every item is run through, in this order. */
  const Methods: seq<string> := ["standard", "cot", "cod"]

  /** One dataset entry; either field may be missing from the JSON object. */
  datatype Item = Item(question: Option<string>, answer: Option<string>)

  /** The fields of the backend's JSON reply that the evaluator reads; any may be absent.
      Durations are abstract naturals. */
  datatype Reply = Reply(
    response: Option<string>,
    promptTokens: Option<nat>,
    completionTokens: Option<nat>,
    totalTokens: Option<nat>,
    inferenceTime: Option<nat>)

  /** The outcome of one request: the post or the JSON decoding raised, or a reply came
      back, `elapsed` being the end reading of the clock minus the start reading. */
  datatype Call = Raised | Returned(reply: Reply, elapsed: nat)

  /** A request that came back: the item's position and entry, the strategy, the reply
      and the measured duration. */
  datatype Request = Request(index: nat, item: Item, strategy: string, reply: Reply, elapsed: nat)

  /** One row of the results table. */
  datatype Record = Record(
    dataset: string,
    index: nat,
    question: string,
    strategy: string,  // the `method` column
    response: string,
    correctAnswer: string,
    isCorrect: bool,
    promptTokens: Option<nat>,
    completionTokens: Option<nat>,
    totalTokens: Option<nat>,
    responseTime: nat)

  /** `item.get("question", "")` */
  function QuestionOf(item: Item): string {
    item.question.GetOr("")
  }

  /** `item.get("answer", "").strip()` */
  function ReferenceOf(item: Item): string {
    Text.Strip(item.answer.GetOr(""))
  }

  /** `resp.get("response", "").strip()` */
  function ResponseOf(reply: Reply): string {
    Text.Strip(reply.response.GetOr(""))
  }

  /** The scoring rule: an empty reference never scores; otherwise the reference must occur,
      ignoring case, in the response. Both arguments arrive already stripped. */
  function Score(reference: string, response: string): bool {
    reference != [] && Text.IsSubstring(Text.Lower(reference), Text.Lower(response))
  }

  /** `resp.get("inference_time_s") or (end_time - start_time)`: the reported duration when it
      is truthy (present and non-zero), the measured one otherwise. */
  function ResponseTime(reply: Reply, elapsed: nat): (t: nat)
    ensures reply.inferenceTime.Some? && reply.inferenceTime.value != 0 ==> t == reply.inferenceTime.value
    ensures reply.inferenceTime == None || reply.inferenceTime == Some(0) ==> t == elapsed
  {
    match reply.inferenceTime
    case Some(reported) => if reported != 0 then reported else elapsed
    case None => elapsed
  }

  /** The record built for a request that came back. */
  function RecordOf(name: string, q: Request): Record {
    var reference := ReferenceOf(q.item);
    var response := ResponseOf(q.reply);
    Record(name, q.index, QuestionOf(q.item), q.strategy, response, reference, Score(reference, response),
           q.reply.promptTokens, q.reply.completionTokens, q.reply.totalTokens,
           ResponseTime(q.reply, q.elapsed))
  }

  // ----- The specification of the loop -----

  /** What the request for item `i` and strategy `m` contributes: nothing when it raised,
      the request and its reply otherwise. */
  function Attempt(dataset: seq<Item>, backend: (nat, string) -> Call, i: nat, m: string): seq<Request>
    requires i < |dataset|
  {
    match backend(i, m)
    case Raised => []
    case Returned(reply, elapsed) => [Request(i, dataset[i], m, reply, elapsed)]
  }

  /** The requests of item `i` that came back, among the first `k` strategies, in order. */
  function MethodRequests(dataset: seq<Item>, backend: (nat, string) -> Call, i: nat, k: nat): seq<Request>
    requires i < |dataset| && k <= |Methods|
  {
    if k == 0 then []
    else MethodRequests(dataset, backend, i, k - 1) + Attempt(dataset, backend, i, Methods[k - 1])
  }

  /** The requests that came back for the first `n` items, in order. */
  function ItemRequests(dataset: seq<Item>, backend: (nat, string) -> Call, n: nat): seq<Request>
    requires n <= |dataset|
  {
    if n == 0 then []
    else ItemRequests(dataset, backend, n - 1) + MethodRequests(dataset, backend, n - 1, |Methods|)
  }

  /** One record per request, in the same order. */
  function Build(name: string, qs: seq<Request>): (rs: seq<Record>)
    ensures |rs| == |qs|
  {
    seq(|qs|, j requires 0 <= j < |qs| => RecordOf(name, qs[j]))
  }

  /** All records of a run over `dataset`. */
  function Results(name: string, dataset: seq<Item>, backend: (nat, string) -> Call): seq<Record> {
    Build(name, ItemRequests(dataset, backend, |dataset|))
  }

  /** Record `j` is the one built from request `j`. */
  lemma BuildAt(name: string, qs: seq<Request>)
    ensures forall j :: 0 <= j < |qs| ==> Build(name, qs)[j] == RecordOf(name, qs[j])
  {
  }

  /** Building the requests of two runs one after the other builds their records one after
      the other. */
  lemma BuildAppend(name: string, a: seq<Request>, b: seq<Request>)
    ensures Build(name, a + b) == Build(name, a) + Build(name, b)
  {
    assert forall j :: 0 <= j < |a + b| ==> Build(name, a + b)[j] == (Build(name, a) + Build(name, b))[j];
  }

  // ----- The loop -----

  /** `evaluate_dataset`: the outer loop, over the items in order. */
  method EvaluateDataset(datasetName: string, dataset: seq<Item>, backend: (nat, string) -> Call)
    returns (results: seq<Record>)
    ensures results == Results(datasetName, dataset, backend)
  {
    results := [];
    for i := 0 to |dataset|
      invariant results == Build(datasetName, ItemRequests(dataset, backend, i))
    {
      var records := EvaluateItem(datasetName, dataset, backend, i);
      ItemRequestsStep(dataset, backend, i + 1);
      BuildAppend(datasetName, ItemRequests(dataset, backend, i), MethodRequests(dataset, backend, i, |Methods|));
      results := results + records;
    }
  }

  /** The inner loop of `evaluate_dataset` on item `i`: every strategy in turn, skipping a
      request that raised. */
  method EvaluateItem(datasetName: string, dataset: seq<Item>, backend: (nat, string) -> Call, i: nat)
    returns (records: seq<Record>)
    requires i < |dataset|
    ensures records == Build(datasetName, MethodRequests(dataset, backend, i, |Methods|))
  {
    var item := dataset[i];
    var question := QuestionOf(item);
    var correctAnswer := ReferenceOf(item);
    records := [];
    for k := 0 to |Methods|
      invariant records == Build(datasetName, MethodRequests(dataset, backend, i, k))
    {
      var strategy := Methods[k];
      var call := backend(i, strategy);
      MethodRequestsStep(dataset, backend, i, k + 1);
      if call.Raised? {
        continue;
      }
      var record := BuildRecord(datasetName, i, item, question, correctAnswer, strategy, call.reply, call.elapsed);
      BuildAppend(datasetName, MethodRequests(dataset, backend, i, k), [Request(i, item, strategy, call.reply, call.elapsed)]);
      records := records + [record];
    }
  }

  /** The body of the inner loop once a reply has come back: strip the response, score it,
      copy the token counts and choose the duration. It follows the source's statements one
      by one (the score starts false and is set only for a non-empty reference); its
      contract ties them to `Score`, `ResponseTime` and `RecordOf`. */
  method BuildRecord(datasetName: string, i: nat, ghost item: Item, question: string, correctAnswer: string,
                     strategy: string, reply: Reply, elapsed: nat)
    returns (record: Record)
    requires question == QuestionOf(item) && correctAnswer == ReferenceOf(item)
    ensures record == RecordOf(datasetName, Request(i, item, strategy, reply, elapsed))
  {
    var responseText := Text.Strip(reply.response.GetOr(""));
    var isCorrect := false;
    if correctAnswer != [] {
      isCorrect := Text.IsSubstring(Text.Lower(correctAnswer), Text.Lower(responseText));
    }
    var promptTokens := reply.promptTokens;
    var completionTokens := reply.completionTokens;
    var totalTokens := reply.totalTokens;
    var responseTime := if reply.inferenceTime.Some? && reply.inferenceTime.value != 0
      then reply.inferenceTime.value else elapsed;
    record := Record(datasetName, i, question, strategy, responseText, correctAnswer,
                     isCorrect, promptTokens, completionTokens, totalTokens, responseTime);
  }

  // ----- Scoring -----

  /** An empty reference never scores; a non-empty one scores exactly when its lower-case
      form occurs somewhere in the lower-case response. */
  lemma ScoreRule(reference: string, response: string)
    ensures reference == [] ==> !Score(reference, response)
    ensures Score(reference, response) ==>
      reference != [] && exists i :: Text.OccursAt(Text.Lower(reference), Text.Lower(response), i)
    ensures reference != [] && (exists i :: Text.OccursAt(Text.Lower(reference), Text.Lower(response), i)) ==>
      Score(reference, response)
  {
    Text.IsSubstringIff(Text.Lower(reference), Text.Lower(response));
  }

  /** A non-empty reference that appears in the response scores, whatever surrounds it. */
  lemma ScoreContains(reference: string, before: string, after: string)
    requires reference != []
    ensures Score(reference, before + reference + after)
  {
    var hay := Text.Lower(before + reference + after);
    var needle := Text.Lower(reference);
    Text.LowerAppend(before + reference, after);
    Text.LowerAppend(before, reference);
    assert hay == Text.Lower(before) + needle + Text.Lower(after);
    assert hay[|before|..|before| + |reference|] == needle;
    Text.FoundAt(needle, hay, |before|);
  }

  /** Case does not matter: a reference scores against a response exactly when it scores
      with either side written in lower case. */
  lemma ScoreIgnoresCase(reference: string, response: string)
    ensures Score(reference, response) == Score(Text.Lower(reference), response)
    ensures Score(reference, response) == Score(reference, Text.Lower(response))
  {
    Text.LowerIdempotent(reference);
    Text.LowerIdempotent(response);
  }

  /** The worked example: reference "42" against "The answer is 42." scores. */
  lemma ScoreExample()
    ensures Score("42", "The answer is 42.")
  {
    ScoreContains("42", "The answer is ", ".");
    assert "The answer is " + "42" + "." == "The answer is 42.";
  }

  // ----- The strategies -----

  /** The position of strategy `m` in `Methods`. */
  function Rank(m: string): (r: nat)
    requires m in Methods
    ensures r < |Methods| && Methods[r] == m
  {
    if m == "standard" then 0 else if m == "cot" then 1 else 2
  }

  /** No strategy is listed twice. */
  lemma MethodsDistinct(a: nat, b: nat)
    requires a < |Methods| && b < |Methods|
    ensures Methods[a] == Methods[b] <==> a == b
  {
    if a != b {
      assert Methods[a][2] != Methods[b][2];
    }
  }

  /** The evaluator runs exactly the strategies the backend has templates for. */
  lemma MethodsMatchRegistry()
    ensures forall m :: m in Methods <==> m in Prompts.Templates
  {
    assert Prompts.Templates.Keys == {"standard", "cot", "cod"};
  }

  // ----- Facts about the requests -----

  /** Request `q` is one the loop sends: for an item of `dataset` and a strategy of
      `Methods`, and `backend` answered it with the reply and duration `q` carries. */
  ghost predicate Genuine(dataset: seq<Item>, backend: (nat, string) -> Call, q: Request) {
    q.index < |dataset| && q.strategy in Methods && q.item == dataset[q.index]
    && backend(q.index, q.strategy) == Returned(q.reply, q.elapsed)
  }

  /** Where a request stands in the item-major, strategy-minor order of the loop. */
  function Position(q: Request): nat
    requires q.strategy in Methods
  {
    |Methods| * q.index + Rank(q.strategy)
  }

  /** Requests for item `i` that raised, among the first `k` strategies. */
  function FailedAttempts(backend: (nat, string) -> Call, i: nat, k: nat): nat
    requires k <= |Methods|
  {
    if k == 0 then 0
    else FailedAttempts(backend, i, k - 1) + (if backend(i, Methods[k - 1]).Raised? then 1 else 0)
  }

  /** Requests that raised, over the first `n` items and all strategies. */
  function Failures(backend: (nat, string) -> Call, n: nat): nat {
    if n == 0 then 0 else Failures(backend, n - 1) + FailedAttempts(backend, n - 1, |Methods|)
  }

  /** Every request of `qs` is a genuine one for item `i` and one of the first `k` strategies. */
  ghost predicate FromItem(dataset: seq<Item>, backend: (nat, string) -> Call, qs: seq<Request>, i: nat, k: nat) {
    forall j :: 0 <= j < |qs| ==>
      qs[j].index == i && qs[j].strategy in Methods && Rank(qs[j].strategy) < k && Genuine(dataset, backend, qs[j])
  }

  /** The strategies of `qs` follow the order of `Methods`, each at most once. */
  ghost predicate RanksIncrease(qs: seq<Request>) {
    forall j1, j2 :: 0 <= j1 < j2 < |qs| ==>
      qs[j1].strategy in Methods && qs[j2].strategy in Methods
      && Rank(qs[j1].strategy) < Rank(qs[j2].strategy)
  }

  /** `qs` holds a request for item `i` and strategy `m`. */
  ghost predicate Listed(qs: seq<Request>, i: nat, m: string) {
    exists j :: 0 <= j < |qs| && qs[j].index == i && qs[j].strategy == m
  }

  /** Every request for item `i` among the first `k` strategies that returned is in `qs`. */
  ghost predicate CoversItem(backend: (nat, string) -> Call, qs: seq<Request>, i: nat, k: nat)
    requires k <= |Methods|
  {
    forall k' :: 0 <= k' < k && backend(i, Methods[k']).Returned? ==> Listed(qs, i, Methods[k'])
  }

  /** Every request of `qs` is a genuine one for one of the first `n` items. */
  ghost predicate FromItems(dataset: seq<Item>, backend: (nat, string) -> Call, qs: seq<Request>, n: nat) {
    forall j :: 0 <= j < |qs| ==> qs[j].index < n && Genuine(dataset, backend, qs[j])
  }

  /** The requests of `qs` stand in strictly increasing loop order. */
  ghost predicate PositionsIncrease(qs: seq<Request>) {
    forall j1, j2 :: 0 <= j1 < j2 < |qs| ==>
      qs[j1].strategy in Methods && qs[j2].strategy in Methods && Position(qs[j1]) < Position(qs[j2])
  }

  /** Every request among the first `n` items that returned is in `qs`. */
  ghost predicate CoversItems(backend: (nat, string) -> Call, qs: seq<Request>, n: nat) {
    forall i, k :: 0 <= i < n && 0 <= k < |Methods| && backend(i, Methods[k]).Returned? ==> Listed(qs, i, Methods[k])
  }

  /** A request contributes itself when it returned and nothing when it raised. */
  lemma AttemptShape(dataset: seq<Item>, backend: (nat, string) -> Call, i: nat, m: string)
    requires i < |dataset|
    ensures |Attempt(dataset, backend, i, m)| == (if backend(i, m).Returned? then 1 else 0)
    ensures forall q :: q in Attempt(dataset, backend, i, m) ==>
      q.index == i && q.strategy == m && (m in Methods ==> Genuine(dataset, backend, q))
  {
  }

  // Each inductive lemma below takes one step with the help of a "join" lemma that works
  // on arbitrary sequences of requests.

  lemma MethodRequestsStep(dataset: seq<Item>, backend: (nat, string) -> Call, i: nat, k: nat)
    requires i < |dataset| && 0 < k <= |Methods|
    ensures MethodRequests(dataset, backend, i, k)
         == MethodRequests(dataset, backend, i, k - 1) + Attempt(dataset, backend, i, Methods[k - 1])
  {
  }

  lemma ItemRequestsStep(dataset: seq<Item>, backend: (nat, string) -> Call, n: nat)
    requires 0 < n <= |dataset|
    ensures ItemRequests(dataset, backend, n)
         == ItemRequests(dataset, backend, n - 1) + MethodRequests(dataset, backend, n - 1, |Methods|)
  {
  }

  lemma {:induction false} MethodRequestsCount(dataset: seq<Item>, backend: (nat, string) -> Call, i: nat, k: nat)
    requires i < |dataset| && k <= |Methods|
    ensures |MethodRequests(dataset, backend, i, k)| + FailedAttempts(backend, i, k) == k
  {
    if k > 0 {
      MethodRequestsCount(dataset, backend, i, k - 1);
      MethodRequestsStep(dataset, backend, i, k);
      AttemptShape(dataset, backend, i, Methods[k - 1]);
    }
  }

  lemma {:induction false} MethodRequestsFrom(dataset: seq<Item>, backend: (nat, string) -> Call, i: nat, k: nat)
    requires i < |dataset| && k <= |Methods|
    ensures FromItem(dataset, backend, MethodRequests(dataset, backend, i, k), i, k)
  {
    if k > 0 {
      MethodRequestsFrom(dataset, backend, i, k - 1);
      MethodRequestsStep(dataset, backend, i, k);
      AttemptShape(dataset, backend, i, Methods[k - 1]);
      JoinFromItem(dataset, backend, MethodRequests(dataset, backend, i, k - 1),
                   Attempt(dataset, backend, i, Methods[k - 1]), MethodRequests(dataset, backend, i, k), i, k);
    }
  }

  lemma JoinFromItem(dataset: seq<Item>, backend: (nat, string) -> Call,
                     a: seq<Request>, b: seq<Request>, ab: seq<Request>, i: nat, k: nat)
    requires ab == a + b && 0 < k <= |Methods|
    requires FromItem(dataset, backend, a, i, k - 1)
    requires forall q :: q in b ==> q.index == i && q.strategy == Methods[k - 1] && Genuine(dataset, backend, q)
    ensures FromItem(dataset, backend, ab, i, k)
  {
    MethodsDistinct(Rank(Methods[k - 1]), k - 1);
    forall j | 0 <= j < |ab|
      ensures ab[j].index == i && ab[j].strategy in Methods && Rank(ab[j].strategy) < k
      ensures Genuine(dataset, backend, ab[j])
    {
      if j < |a| {
        assert ab[j] == a[j];
      } else {
        assert ab[j] == b[j - |a|] && b[j - |a|] in b;
      }
    }
  }

  lemma {:induction false} MethodRequestsSorted(dataset: seq<Item>, backend: (nat, string) -> Call, i: nat, k: nat)
    requires i < |dataset| && k <= |Methods|
    ensures RanksIncrease(MethodRequests(dataset, backend, i, k))
  {
    if k > 0 {
      MethodRequestsSorted(dataset, backend, i, k - 1);
      MethodRequestsFrom(dataset, backend, i, k - 1);
      MethodRequestsStep(dataset, backend, i, k);
      AttemptShape(dataset, backend, i, Methods[k - 1]);
      JoinRanks(dataset, backend, MethodRequests(dataset, backend, i, k - 1),
                Attempt(dataset, backend, i, Methods[k - 1]), MethodRequests(dataset, backend, i, k), i, k);
    }
  }

  lemma JoinRanks(dataset: seq<Item>, backend: (nat, string) -> Call,
                  a: seq<Request>, b: seq<Request>, ab: seq<Request>, i: nat, k: nat)
    requires ab == a + b && 0 < k <= |Methods| && |b| <= 1
    requires RanksIncrease(a) && FromItem(dataset, backend, a, i, k - 1)
    requires forall q :: q in b ==> q.strategy == Methods[k - 1]
    ensures RanksIncrease(ab)
  {
    MethodsDistinct(Rank(Methods[k - 1]), k - 1);
    forall j1, j2 | 0 <= j1 < j2 < |ab|
      ensures ab[j1].strategy in Methods && ab[j2].strategy in Methods
      ensures Rank(ab[j1].strategy) < Rank(ab[j2].strategy)
    {
      if j2 < |a| {
        assert ab[j1] == a[j1] && ab[j2] == a[j2];
      } else {
        assert ab[j1] == a[j1] && ab[j2] == b[0] && b[0] in b;
      }
    }
  }

  lemma {:induction false} MethodRequestsCover(dataset: seq<Item>, backend: (nat, string) -> Call, i: nat, k: nat)
    requires i < |dataset| && k <= |Methods|
    ensures CoversItem(backend, MethodRequests(dataset, backend, i, k), i, k)
  {
    if k > 0 {
      MethodRequestsCover(dataset, backend, i, k - 1);
      MethodRequestsStep(dataset, backend, i, k);
      AttemptShape(dataset, backend, i, Methods[k - 1]);
      JoinCoverItem(backend, MethodRequests(dataset, backend, i, k - 1),
                    Attempt(dataset, backend, i, Methods[k - 1]), MethodRequests(dataset, backend, i, k), i, k);
    }
  }

  lemma JoinCoverItem(backend: (nat, string) -> Call, a: seq<Request>, b: seq<Request>, ab: seq<Request>, i: nat, k: nat)
    requires ab == a + b && 0 < k <= |Methods|
    requires CoversItem(backend, a, i, k - 1)
    requires |b| == (if backend(i, Methods[k - 1]).Returned? then 1 else 0)
    requires forall q :: q in b ==> q.index == i && q.strategy == Methods[k - 1]
    ensures CoversItem(backend, ab, i, k)
  {
    forall k' | 0 <= k' < k && backend(i, Methods[k']).Returned?
      ensures Listed(ab, i, Methods[k'])
    {
      if k' < k - 1 {
        var j :| 0 <= j < |a| && a[j].index == i && a[j].strategy == Methods[k'];
        assert ab[j] == a[j];
      } else {
        assert ab[|a|] == b[0] && b[0] in b;
      }
    }
  }

  lemma CountStep(total: nat, done: nat, more: nat, failed: nat, failedBefore: nat, failedNow: nat, n: nat)
    requires 0 < n && total == done + more && failed == failedBefore + failedNow
    requires done + failedBefore == |Methods| * (n - 1) && more + failedNow == |Methods|
    ensures total + failed == |Methods| * n
  {
  }

  lemma {:induction false} ItemRequestsCount(dataset: seq<Item>, backend: (nat, string) -> Call, n: nat)
    requires n <= |dataset|
    ensures |ItemRequests(dataset, backend, n)| + Failures(backend, n) == |Methods| * n
  {
    if n > 0 {
      ItemRequestsCount(dataset, backend, n - 1);
      MethodRequestsCount(dataset, backend, n - 1, |Methods|);
      ItemRequestsStep(dataset, backend, n);
      CountStep(|ItemRequests(dataset, backend, n)|, |ItemRequests(dataset, backend, n - 1)|,
                |MethodRequests(dataset, backend, n - 1, |Methods|)|, Failures(backend, n),
                Failures(backend, n - 1), FailedAttempts(backend, n - 1, |Methods|), n);
    }
  }

  lemma {:induction false} ItemRequestsFrom(dataset: seq<Item>, backend: (nat, string) -> Call, n: nat)
    requires n <= |dataset|
    ensures FromItems(dataset, backend, ItemRequests(dataset, backend, n), n)
  {
    if n > 0 {
      ItemRequestsFrom(dataset, backend, n - 1);
      MethodRequestsFrom(dataset, backend, n - 1, |Methods|);
      ItemRequestsStep(dataset, backend, n);
      JoinFromItems(dataset, backend, ItemRequests(dataset, backend, n - 1),
                    MethodRequests(dataset, backend, n - 1, |Methods|), ItemRequests(dataset, backend, n), n);
    }
  }

  lemma JoinFromItems(dataset: seq<Item>, backend: (nat, string) -> Call,
                      a: seq<Request>, b: seq<Request>, ab: seq<Request>, n: nat)
    requires ab == a + b && 0 < n
    requires FromItems(dataset, backend, a, n - 1)
    requires FromItem(dataset, backend, b, n - 1, |Methods|)
    ensures FromItems(dataset, backend, ab, n)
  {
    forall j | 0 <= j < |ab|
      ensures ab[j].index < n && Genuine(dataset, backend, ab[j])
    {
      if j < |a| {
        assert ab[j] == a[j];
      } else {
        assert ab[j] == b[j - |a|];
      }
    }
  }

  lemma {:induction false} ItemRequestsSorted(dataset: seq<Item>, backend: (nat, string) -> Call, n: nat)
    requires n <= |dataset|
    ensures PositionsIncrease(ItemRequests(dataset, backend, n))
  {
    if n > 0 {
      ItemRequestsSorted(dataset, backend, n - 1);
      ItemRequestsFrom(dataset, backend, n - 1);
      MethodRequestsSorted(dataset, backend, n - 1, |Methods|);
      MethodRequestsFrom(dataset, backend, n - 1, |Methods|);
      ItemRequestsStep(dataset, backend, n);
      JoinPositions(dataset, backend, ItemRequests(dataset, backend, n - 1),
                    MethodRequests(dataset, backend, n - 1, |Methods|), ItemRequests(dataset, backend, n), n);
    }
  }

  lemma JoinPositions(dataset: seq<Item>, backend: (nat, string) -> Call,
                      a: seq<Request>, b: seq<Request>, ab: seq<Request>, n: nat)
    requires ab == a + b && 0 < n
    requires PositionsIncrease(a) && FromItems(dataset, backend, a, n - 1)
    requires RanksIncrease(b) && FromItem(dataset, backend, b, n - 1, |Methods|)
    ensures PositionsIncrease(ab)
  {
    forall j1, j2 | 0 <= j1 < j2 < |ab|
      ensures ab[j1].strategy in Methods && ab[j2].strategy in Methods
      ensures Position(ab[j1]) < Position(ab[j2])
    {
      if j2 < |a| {
        assert ab[j1] == a[j1] && ab[j2] == a[j2];
      } else if j1 < |a| {
        assert ab[j1] == a[j1] && ab[j2] == b[j2 - |a|];
      } else {
        assert ab[j1] == b[j1 - |a|] && ab[j2] == b[j2 - |a|];
      }
    }
  }

  lemma {:induction false} ItemRequestsCover(dataset: seq<Item>, backend: (nat, string) -> Call, n: nat)
    requires n <= |dataset|
    ensures CoversItems(backend, ItemRequests(dataset, backend, n), n)
  {
    if n > 0 {
      ItemRequestsCover(dataset, backend, n - 1);
      MethodRequestsCover(dataset, backend, n - 1, |Methods|);
      ItemRequestsStep(dataset, backend, n);
      JoinCovers(backend, ItemRequests(dataset, backend, n - 1),
                 MethodRequests(dataset, backend, n - 1, |Methods|), ItemRequests(dataset, backend, n), n);
    }
  }

  lemma JoinCovers(backend: (nat, string) -> Call, a: seq<Request>, b: seq<Request>, ab: seq<Request>, n: nat)
    requires ab == a + b && 0 < n
    requires CoversItems(backend, a, n - 1)
    requires CoversItem(backend, b, n - 1, |Methods|)
    ensures CoversItems(backend, ab, n)
  {
    forall i, k | 0 <= i < n && 0 <= k < |Methods| && backend(i, Methods[k]).Returned?
      ensures Listed(ab, i, Methods[k])
    {
      if i < n - 1 {
        var j :| 0 <= j < |a| && a[j].index == i && a[j].strategy == Methods[k];
        assert ab[j] == a[j];
      } else {
        var j :| 0 <= j < |b| && b[j].index == i && b[j].strategy == Methods[k];
        assert ab[|a| + j] == b[j];
      }
    }
  }

  // ----- What the loop produces -----

  /** Record `r` is one the loop builds: it names the dataset, one of its items and a
      strategy of `Methods`; that request returned; every other field is taken from the
      item and the reply (the token counts unchanged, absent ones absent); the score is
      the scoring rule applied to the stored reference and response. */
  ghost predicate FromCall(name: string, dataset: seq<Item>, backend: (nat, string) -> Call, r: Record) {
    && r.dataset == name
    && r.index < |dataset|
    && r.strategy in Methods
    && backend(r.index, r.strategy).Returned?
    && var item, reply, elapsed := dataset[r.index], backend(r.index, r.strategy).reply,
                                   backend(r.index, r.strategy).elapsed;
       && r.question == QuestionOf(item)
       && r.correctAnswer == ReferenceOf(item)
       && r.response == ResponseOf(reply)
       && r.isCorrect == Score(r.correctAnswer, r.response)
       && r.promptTokens == reply.promptTokens
       && r.completionTokens == reply.completionTokens
       && r.totalTokens == reply.totalTokens
       && r.responseTime == ResponseTime(reply, elapsed)
  }

  /** One record per request that returned: the table holds three records per item, less
      one for every request that raised; a run in which nothing raises yields exactly
      three per item. */
  lemma EvaluationCount(name: string, dataset: seq<Item>, backend: (nat, string) -> Call)
    ensures |Results(name, dataset, backend)| == |Methods| * |dataset| - Failures(backend, |dataset|)
    ensures Failures(backend, |dataset|) == 0 ==> |Results(name, dataset, backend)| == 3 * |dataset|
  {
    ItemRequestsCount(dataset, backend, |dataset|);
  }

  /** Every record is built from its own item and its own reply, as `FromCall` says. */
  lemma EvaluationRecords(name: string, dataset: seq<Item>, backend: (nat, string) -> Call)
    ensures forall r :: r in Results(name, dataset, backend) ==> FromCall(name, dataset, backend, r)
  {
    var qs := ItemRequests(dataset, backend, |dataset|);
    var rs := Results(name, dataset, backend);
    ItemRequestsFrom(dataset, backend, |dataset|);
    BuildAt(name, qs);
    forall r | r in rs
      ensures FromCall(name, dataset, backend, r)
    {
      var j :| 0 <= j < |rs| && rs[j] == r;
      assert Genuine(dataset, backend, qs[j]);
    }
  }

  /** Records come out item by item, and within an item in the order of `Methods`; hence
      no (item, strategy) pair has two records. */
  lemma EvaluationOrder(name: string, dataset: seq<Item>, backend: (nat, string) -> Call, j1: nat, j2: nat)
    requires j1 < j2 < |Results(name, dataset, backend)|
    ensures Results(name, dataset, backend)[j1].strategy in Methods
    ensures Results(name, dataset, backend)[j2].strategy in Methods
    ensures Results(name, dataset, backend)[j1].index < Results(name, dataset, backend)[j2].index
         || (Results(name, dataset, backend)[j1].index == Results(name, dataset, backend)[j2].index
             && Rank(Results(name, dataset, backend)[j1].strategy)
                < Rank(Results(name, dataset, backend)[j2].strategy))
    ensures (Results(name, dataset, backend)[j1].index, Results(name, dataset, backend)[j1].strategy)
         != (Results(name, dataset, backend)[j2].index, Results(name, dataset, backend)[j2].strategy)
  {
    var qs := ItemRequests(dataset, backend, |dataset|);
    ItemRequestsSorted(dataset, backend, |dataset|);
    BuildAt(name, qs);
    assert qs[j1].strategy in Methods && qs[j2].strategy in Methods && Position(qs[j1]) < Position(qs[j2]);
  }

  /** A record for item `i` and strategy `m` is present exactly when `i` is an item,
      `m` a strategy of `Methods`, and that request did not raise. */
  lemma EvaluationComplete(name: string, dataset: seq<Item>, backend: (nat, string) -> Call, i: nat, m: string)
    ensures (exists r :: r in Results(name, dataset, backend) && r.index == i && r.strategy == m)
        <==> (i < |dataset| && m in Methods && backend(i, m).Returned?)
  {
    var qs := ItemRequests(dataset, backend, |dataset|);
    var rs := Results(name, dataset, backend);
    EvaluationRecords(name, dataset, backend);
    ItemRequestsCover(dataset, backend, |dataset|);
    BuildAt(name, qs);
    if i < |dataset| && m in Methods && backend(i, m).Returned? {
      var k := Rank(m);
      var j :| 0 <= j < |qs| && qs[j].index == i && qs[j].strategy == Methods[k];
      assert rs[j] in rs;
    }
  }
}
