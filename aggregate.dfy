/** The window aggregator: `CollectStatItems` folds the records buffered
    since the previous refresh tick into one `StatItem` (main.go:187-210). */
module Aggregate {
  import opened Wrappers
  import opened Text
  import opened Counting
  import opened Records

  /** The Go runtime error raised by `strings.Split(request, "/")[1]` when the
      request holds no '/'; `record` is the index of the offending record. */
  datatype Panic = IndexOutOfRange(record: nat)

  /** The status-class counter of the record's class, if it is 2 to 5,
      goes up by one; the other fields stay. */
  function TallyClass(item: StatItem, status: int): StatItem
  {
    var c := StatusClass(status);
    item.(status2xx := item.status2xx + (if c == 2 then 1 else 0),
          status3xx := item.status3xx + (if c == 3 then 1 else 0),
          status4xx := item.status4xx + (if c == 4 then 1 else 0),
          status5xx := item.status5xx + (if c == 5 then 1 else 0))
  }

  /** The summary after one more record with the given status and section. */
  function AddRecord(item: StatItem, status: int, section: string): (r: StatItem)
    ensures r.hits == item.hits + 1
    ensures r.status2xx + r.status3xx + r.status4xx + r.status5xx
            <= item.status2xx + item.status3xx + item.status4xx + item.status5xx + 1
    ensures section in r.topSections && IntToString(status) in r.topStatus
    ensures r.status2xx == item.status2xx + (if StatusClass(status) == 2 then 1 else 0)
    ensures r.status3xx == item.status3xx + (if StatusClass(status) == 3 then 1 else 0)
    ensures r.status4xx == item.status4xx + (if StatusClass(status) == 4 then 1 else 0)
    ensures r.status5xx == item.status5xx + (if StatusClass(status) == 5 then 1 else 0)
    ensures r.topSections == Bump(item.topSections, section)
    ensures r.topStatus == Bump(item.topStatus, IntToString(status))
  {
    var tallied := TallyClass(item, status);
    tallied.(hits := item.hits + 1,
             topSections := Bump(item.topSections, section),
             topStatus := Bump(item.topStatus, IntToString(status)))
  }

  /** The `switch` on `Status / 100` of the loop body. */
  method SwitchClass(item: StatItem, status: int) returns (r: StatItem)
    ensures r == TallyClass(item, status)
  {
    r := item;
    match StatusClass(status) {
      case 2 => r := r.(status2xx := r.status2xx + 1);
      case 3 => r := r.(status3xx := r.status3xx + 1);
      case 4 => r := r.(status4xx := r.status4xx + 1);
      case 5 => r := r.(status5xx := r.status5xx + 1);
      case _ =>
    }
  }

  /** What `CollectStatItems` computes for a batch, record by record in
      batch order, failing at the first record whose request has no '/'. */
  function Summarize(batch: seq<CommonLog>): (r: Result<StatItem, Panic>)
    ensures r.Success? ==> r.value.hits == |batch|
    ensures r.Failure? ==> r.error.record < |batch|
  {
    if batch == [] then Success(EmptyItem)
    else
      var n := |batch| - 1;
      match Summarize(batch[..n])
      case Failure(p) => Failure(p)
      case Success(item) =>
        match Section(batch[n].request)
        case None => Failure(IndexOutOfRange(n))
        case Some(section) => Success(AddRecord(item, batch[n].status, section))
  }

  /** `CollectStatItems`: the loop over the buffered records. */
  method CollectStatItems(logStats: seq<CommonLog>) returns (r: Result<StatItem, Panic>)
    ensures r == Summarize(logStats)
  {
    var item := EmptyItem;
    var i := 0;
    while i < |logStats|
      invariant 0 <= i <= |logStats|
      invariant Summarize(logStats[..i]) == Success(item)
    {
      var event := logStats[i];
      ghost var before := item;
      SummarizeStep(logStats, i, item);
      item := SwitchClass(item, event.status);
      item := item.(hits := item.hits + 1);
      var parts := Split(event.request, '/');
      if |parts| < 2 {
        FailureSticks(logStats, i + 1);
        return Failure(IndexOutOfRange(i));
      }
      var section := "/" + parts[1];
      item := item.(topSections := Bump(item.topSections, section));
      item := item.(topStatus := Bump(item.topStatus, IntToString(event.status)));
      assert item == AddRecord(before, event.status, section);
      i := i + 1;
    }
    assert logStats[..i] == logStats;
    return Success(item);
  }

  /** One more record: the summary of the longer prefix is the summary of
      the shorter one with that record added, or the panic it raises. */
  lemma SummarizeStep(batch: seq<CommonLog>, i: nat, item: StatItem)
    requires i < |batch| && Summarize(batch[..i]) == Success(item)
    ensures var parts := Split(batch[i].request, '/');
      Summarize(batch[..i + 1])
      == if |parts| < 2 then Failure(IndexOutOfRange(i))
         else Success(AddRecord(item, batch[i].status, "/" + parts[1]))
  {
    assert batch[..i + 1][..i] == batch[..i];
    SplitHasSecond(batch[i].request, '/');
  }

  /** Once a prefix of the batch fails, the whole batch fails the same way. */
  lemma {:induction false} FailureSticks(batch: seq<CommonLog>, k: nat)
    requires k <= |batch|
    requires Summarize(batch[..k]).Failure?
    ensures Summarize(batch) == Summarize(batch[..k])
    decreases |batch| - k
  {
    if k < |batch| {
      assert batch[..k + 1][..k] == batch[..k];
      FailureSticks(batch, k + 1);
    } else {
      assert batch[..k] == batch;
    }
  }

  /** Every record's request holds a '/', so its section exists. */
  predicate AllSectioned(batch: seq<CommonLog>)
  {
    forall i :: 0 <= i < |batch| ==> '/' in batch[i].request
  }

  /** Reference counts, defined record by record and independently of the
      aggregation: records of status class k, records in section s, records
      whose status prints as t, records with status exactly `status`. */
  function CountClass(batch: seq<CommonLog>, k: int): nat
  {
    if batch == [] then 0
    else CountClass(batch[..|batch| - 1], k)
         + (if StatusClass(batch[|batch| - 1].status) == k then 1 else 0)
  }

  function CountSection(batch: seq<CommonLog>, s: string): nat
  {
    if batch == [] then 0
    else CountSection(batch[..|batch| - 1], s)
         + (if Section(batch[|batch| - 1].request) == Some(s) then 1 else 0)
  }

  function CountStatusText(batch: seq<CommonLog>, t: string): nat
  {
    if batch == [] then 0
    else CountStatusText(batch[..|batch| - 1], t)
         + (if IntToString(batch[|batch| - 1].status) == t then 1 else 0)
  }

  function CountStatus(batch: seq<CommonLog>, status: int): nat
  {
    if batch == [] then 0
    else CountStatus(batch[..|batch| - 1], status)
         + (if batch[|batch| - 1].status == status then 1 else 0)
  }

  /** The aggregation fails exactly when some request lacks a '/', and then
      it names the first such record. */
  lemma {:induction false} SummarizeFails(batch: seq<CommonLog>)
    ensures Summarize(batch).Success? <==> AllSectioned(batch)
    ensures Summarize(batch).Failure? ==>
      var i := Summarize(batch).error.record;
      i < |batch| && '/' !in batch[i].request && AllSectioned(batch[..i])
  {
    if batch != [] {
      var n := |batch| - 1;
      SummarizeFails(batch[..n]);
      AllSectionedSnoc(batch);
      if Summarize(batch[..n]).Failure? {
        var i := Summarize(batch[..n]).error.record;
        assert batch[..n][..i] == batch[..i];
        assert batch[..n][i] == batch[i];
      }
    }
  }

  /** A batch is all sectioned exactly when all but its last record are and
      the last one is. */
  lemma AllSectionedSnoc(batch: seq<CommonLog>)
    requires batch != []
    ensures AllSectioned(batch) <==>
      AllSectioned(batch[..|batch| - 1]) && '/' in batch[|batch| - 1].request
  {
    var n := |batch| - 1;
    assert forall j :: 0 <= j < n ==> batch[..n][j] == batch[j];
  }

  /** Each field of a successful summary is the matching reference count:
      hits is the batch length, each class count counts its class, and each
      map holds exactly the sections (status texts) that occur, with the
      number of records carrying them. */
  lemma {:induction false} SummaryCounts(batch: seq<CommonLog>)
    requires Summarize(batch).Success?
    ensures var item := Summarize(batch).value;
      && item.hits == |batch|
      && item.status2xx == CountClass(batch, 2)
      && item.status3xx == CountClass(batch, 3)
      && item.status4xx == CountClass(batch, 4)
      && item.status5xx == CountClass(batch, 5)
      && (forall s :: s in item.topSections <==> CountSection(batch, s) > 0)
      && (forall s :: s in item.topSections ==> item.topSections[s] == CountSection(batch, s))
      && (forall t :: t in item.topStatus <==> CountStatusText(batch, t) > 0)
      && (forall t :: t in item.topStatus ==> item.topStatus[t] == CountStatusText(batch, t))
  {
    if batch != [] {
      SummaryCounts(batch[..|batch| - 1]);
    }
  }

  /** The four class counts never exceed the batch size; records outside
      200-599 count toward the hits only. */
  lemma {:induction false} ClassCountsBounded(batch: seq<CommonLog>)
    ensures CountClass(batch, 2) + CountClass(batch, 3) + CountClass(batch, 4)
            + CountClass(batch, 5) <= |batch|
  {
    if batch != [] {
      ClassCountsBounded(batch[..|batch| - 1]);
    }
  }

  /** Status2xx + Status3xx + Status4xx + Status5xx <= Hits. */
  lemma ClassesWithinHits(batch: seq<CommonLog>)
    requires Summarize(batch).Success?
    ensures var item := Summarize(batch).value;
      item.status2xx + item.status3xx + item.status4xx + item.status5xx <= item.hits
  {
    SummaryCounts(batch);
    ClassCountsBounded(batch);
  }

  /** The values of both maps sum to the number of hits. */
  lemma {:induction false} MapsSumToHits(batch: seq<CommonLog>)
    requires Summarize(batch).Success?
    ensures var item := Summarize(batch).value;
      MapSum(item.topSections) == item.hits && MapSum(item.topStatus) == item.hits
  {
    if batch != [] {
      var n := |batch| - 1;
      var item := Summarize(batch[..n]).value;
      MapsSumToHits(batch[..n]);
      MapSumBump(item.topSections, Section(batch[n].request).value);
      MapSumBump(item.topStatus, IntToString(batch[n].status));
    }
  }

  /** Counting status texts is counting statuses, since `Itoa` is injective. */
  lemma {:induction false} CountStatusTextIsCountStatus(batch: seq<CommonLog>, status: int)
    ensures CountStatusText(batch, IntToString(status)) == CountStatus(batch, status)
  {
    if batch != [] {
      CountStatusTextIsCountStatus(batch[..|batch| - 1], status);
      IntToStringInjective(batch[|batch| - 1].status, status);
    }
  }

  /** Every key of TopStatus is the decimal text of a status in the batch,
      and TopStatus[Itoa(s)] counts the records with status s. */
  lemma {:induction false} TopStatusKeys(batch: seq<CommonLog>, t: string, status: int)
    requires Summarize(batch).Success?
    ensures t in Summarize(batch).value.topStatus ==>
      exists i :: 0 <= i < |batch| && t == IntToString(batch[i].status)
    ensures var m := Summarize(batch).value.topStatus;
      (IntToString(status) in m <==> CountStatus(batch, status) > 0) &&
      (IntToString(status) in m ==> m[IntToString(status)] == CountStatus(batch, status))
  {
    SummaryCounts(batch);
    CountStatusTextIsCountStatus(batch, status);
    if t in Summarize(batch).value.topStatus {
      TextOccurs(batch, t);
    }
  }

  lemma {:induction false} TextOccurs(batch: seq<CommonLog>, t: string)
    requires CountStatusText(batch, t) > 0
    ensures exists i :: 0 <= i < |batch| && t == IntToString(batch[i].status)
  {
    var n := |batch| - 1;
    if IntToString(batch[n].status) != t {
      TextOccurs(batch[..n], t);
      var i :| 0 <= i < n && t == IntToString(batch[..n][i].status);
      assert batch[..n][i] == batch[i];
    }
  }
}
