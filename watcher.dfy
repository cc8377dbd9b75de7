/** The objects `Run` updates in place (main.go:46-73, 162-218, 220-273) and
    the start-up guard of `main` (main.go:284-303). The aggregation itself,
    the top-N report and the alert decision are the pure functions of the
    Aggregate, Report and Alert modules; the methods here are proved against
    them. */
module Watcher {
  import opened Wrappers
  import opened GoInt
  import opened Records
  import opened Aggregate
  import opened Report
  import opened Alert

  /** `StatsTotal`: counters since start-up and the latest top-N reports. */
  class StatsTotal {
    var totalHits: int
    var total2xx: int
    var total3xx: int
    var total4xx: int
    var total5xx: int
    var topSectionsMsg: string
    var topStatusMsg: string

    constructor()
      ensures Counters() == Zero && topSectionsMsg == "" && topStatusMsg == ""
    {
      totalHits, total2xx, total3xx, total4xx, total5xx := 0, 0, 0, 0, 0;
      topSectionsMsg, topStatusMsg := "", "";
    }

    function Counters(): Counts
      reads this
    {
      Counts(totalHits, total2xx, total3xx, total4xx, total5xx)
    }
  }

  /** `StatsAvg`: the averages of the last alert interval, and, for the
      `tmpStat` of `Run`, the accumulator they are computed from. */
  class StatsAvg {
    var avgHits: int
    var avg2xx: int
    var avg3xx: int
    var avg4xx: int
    var avg5xx: int

    constructor()
      ensures Counters() == Zero
    {
      avgHits, avg2xx, avg3xx, avg4xx, avg5xx := 0, 0, 0, 0, 0;
    }

    function Counters(): Counts
      reads this
    {
      Counts(avgHits, avg2xx, avg3xx, avg4xx, avg5xx)
    }
  }

  /** The "alert" view of the terminal layout; only its background colour
      is modelled. */
  class AlertView {
    var bgColor: Color

    constructor()
      ensures bgColor == ColorDefault
    {
      bgColor := ColorDefault;
    }
  }

  /** The check `main` makes before starting: the alert interval must be a
      multiple of the refresh interval. A zero refresh interval makes the
      floating-point remainder NaN; the program then stops either at the
      guard or at the division by zero that computes `CollectionNum`, so it
      is a rejection here. On success the
      value is `CollectionNum`, the number of refresh windows per alert
      window. */
  function StartUp(config: Config): (r: Result<int, ConfigError>)
    ensures r.Success? ==> config.refreshInterval != 0
  {
    if config.refreshInterval == 0 then Failure(IntervalsNotMultiple)
    else if Rem(config.alertInterval, config.refreshInterval) != 0 then Failure(IntervalsNotMultiple)
    else Success(Quot(config.alertInterval, config.refreshInterval))
  }

  /** An accepted configuration's alert interval is exactly `CollectionNum`
      refresh intervals, and with positive intervals there is at least one
      window per alert. */
  lemma StartUpSound(config: Config)
    requires StartUp(config).Success?
    ensures StartUp(config).value * config.refreshInterval == config.alertInterval
    ensures config.refreshInterval > 0 && config.alertInterval > 0 ==> StartUp(config).value >= 1
  {
    var q := StartUp(config).value;
    assert config.refreshInterval * q == q * config.refreshInterval;
  }

  /** Every alert interval that is a multiple `k` of a non-zero refresh
      interval is accepted, with `CollectionNum == k`. */
  lemma StartUpComplete(config: Config, k: int)
    requires config.refreshInterval != 0
    requires k * config.refreshInterval == config.alertInterval
    ensures StartUp(config) == Success(k)
  {
    var a, r := config.alertInterval, config.refreshInterval;
    assert a - r * k == 0;
    QuotUnique(a, r, k);
  }

  /** A zero refresh interval is always rejected. */
  lemma StartUpZeroRefresh(config: Config)
    requires config.refreshInterval == 0
    ensures StartUp(config).Failure?
  {
  }

  /** The defaults: ten-second windows, two-minute alerts, twelve windows. */
  lemma StartUpDefault()
    ensures StartUp(DefaultConfig) == Success(12)
  {
    StartUpComplete(DefaultConfig, 12);
  }

  /** `Logwatcher`, with its embedded `*StatsTotal` and `*StatsAvg` as the
      `totals` and `avg` objects. */
  class Logwatcher {
    const config: Config
    const collectionNum: int
    const totals: StatsTotal
    const avg: StatsAvg
    var alertMsg: seq<string>
    var alertState: bool

    /** The struct literal of `main`, built once the guard has passed. */
    constructor(config: Config)
      requires StartUp(config).Success?
      ensures this.config == config && collectionNum == StartUp(config).value
      ensures fresh(totals) && fresh(avg)
      ensures totals.Counters() == Zero && totals.topSectionsMsg == "" && totals.topStatusMsg == ""
      ensures avg.Counters() == Zero
      ensures alertMsg == [] && !alertState
    {
      this.config := config;
      collectionNum := Quot(config.alertInterval, config.refreshInterval);
      totals := new StatsTotal();
      avg := new StatsAvg();
      alertMsg := [];
      alertState := false;
    }

    /** Adds a window's counters to the accumulator and to the totals, and
        replaces the two top-N reports by those of the window. */
    method LoadOnRefresh(item: StatItem, tmpStat: StatsAvg)
      modifies totals, tmpStat
      ensures tmpStat.Counters() == old(tmpStat.Counters()).Plus(WindowCounts(item))
      ensures totals.Counters() == old(totals.Counters()).Plus(WindowCounts(item))
      ensures IsReport(item.topSections, totals.topSectionsMsg)
      ensures IsReport(item.topStatus, totals.topStatusMsg)
    {
      tmpStat.avgHits := tmpStat.avgHits + item.hits;
      tmpStat.avg2xx := tmpStat.avg2xx + item.status2xx;
      tmpStat.avg3xx := tmpStat.avg3xx + item.status3xx;
      tmpStat.avg4xx := tmpStat.avg4xx + item.status4xx;
      tmpStat.avg5xx := tmpStat.avg5xx + item.status5xx;

      totals.totalHits := totals.totalHits + item.hits;
      totals.total2xx := totals.total2xx + item.status2xx;
      totals.total3xx := totals.total3xx + item.status3xx;
      totals.total4xx := totals.total4xx + item.status4xx;
      totals.total5xx := totals.total5xx + item.status5xx;

      totals.topSectionsMsg := SortMap(item.topSections);
      totals.topStatusMsg := SortMap(item.topStatus);
    }

    /** The averages are the accumulated counters divided, with Go's
        truncating division (`Quot`), by the number of windows per alert. Dividing
        by zero panics in Go, hence the precondition. */
    method LoadOnAlert(tmpStat: StatsAvg)
      requires collectionNum != 0
      modifies avg
      ensures avg.Counters() == old(tmpStat.Counters()).Over(collectionNum)
    {
      avg.avgHits := Quot(tmpStat.avgHits, collectionNum);
      avg.avg2xx := Quot(tmpStat.avg2xx, collectionNum);
      avg.avg3xx := Quot(tmpStat.avg3xx, collectionNum);
      avg.avg4xx := Quot(tmpStat.avg4xx, collectionNum);
      avg.avg5xx := Quot(tmpStat.avg5xx, collectionNum);
    }

    /** Resets the accumulator to zero. */
    method PurgeTmpStat(tmpStat: StatsAvg)
      modifies tmpStat
      ensures tmpStat.Counters() == Zero
    {
      tmpStat.avgHits := 0;
      tmpStat.avg2xx := 0;
      tmpStat.avg3xx := 0;
      tmpStat.avg4xx := 0;
      tmpStat.avg5xx := 0;
    }

    function Status(view: AlertView): AlertStatus
      reads this, view
    {
      AlertStatus(alertState, alertMsg, view.bgColor)
    }

    /** The alert decision on the current average, `date` standing for the
        clock reading of `Date()`. */
    method UpdateAlertView(date: string, view: AlertView)
      modifies this`alertMsg, this`alertState, view`bgColor
      ensures Status(view) == Evaluate(old(Status(view)), avg.avgHits, config.alertThreshold, date)
    {
      if avg.avgHits > config.alertThreshold {
        alertMsg := alertMsg + [AlertText(avg.avgHits, date)];
        view.bgColor := ColorRed;
        alertState := true;
      } else {
        if avg.avgHits < config.alertThreshold {
          if alertState {
            alertMsg := alertMsg + [RecoverText(avg.avgHits, date)];
            view.bgColor := ColorGreen;
            alertState := false;
          } else {
            view.bgColor := ColorDefault;
          }
        }
      }
    }
  }

  /** The state of `Run`'s event loop: the log watcher, the accumulator
      `tmpStat`, the alert view and the records received since the last
      refresh. `windows` are all window summaries since start-up and
      `pending` those since the last alert tick. */
  class Pipeline {
    const lw: Logwatcher
    const tmpStat: StatsAvg
    const view: AlertView
    var logStats: seq<CommonLog>
    ghost var windows: seq<StatItem>
    ghost var pending: seq<StatItem>

    /** The accumulator is not the averages object, the totals are the sum
        of all windows, the accumulator the sum of
        the windows of the current alert interval, and the alert status is
        consistent. */
    ghost predicate Valid()
      reads this, lw, lw.totals, tmpStat, view
    {
      && tmpStat != lw.avg
      && lw.collectionNum > 0
      && lw.totals.Counters() == SumWindows(windows)
      && tmpStat.Counters() == SumWindows(pending)
      && Consistent(lw.Status(view))
    }

    /** `main` after its guard, and `Run` before its loop. The tickers
        panic on non-positive intervals, hence the first precondition. */
    constructor(config: Config)
      requires config.refreshInterval > 0 && config.alertInterval > 0 && config.logInterval > 0
      requires StartUp(config).Success?
      ensures Valid()
      ensures lw.config == config && lw.collectionNum == StartUp(config).value
      ensures logStats == [] && windows == [] && pending == []
      ensures lw.Status(view) == Initial
    {
      StartUpSound(config);
      lw := new Logwatcher(config);
      tmpStat := new StatsAvg();
      view := new AlertView();
      logStats := [];
      windows := [];
      pending := [];
      new;
      InitialConsistent();
    }

    /** A parsed record arrives on the tail channel. */
    method Record(entry: CommonLog)
      requires Valid()
      modifies this`logStats
      ensures Valid()
      ensures logStats == old(logStats) + [entry]
    {
      logStats := logStats + [entry];
    }

    /** The refresh tick: summarise the window, load it into the totals and
        the accumulator, and empty the window. A request without '/' makes
        Go panic; the model reports it and changes nothing. */
    method RefreshTick() returns (o: Outcome<Panic>)
      requires Valid()
      modifies this`logStats, this`windows, this`pending, lw.totals, tmpStat
      ensures Valid()
      ensures Summarize(old(logStats)).Failure? ==>
                var s := Summarize(old(logStats));
                o == Fail(s.error) && logStats == old(logStats)
                && windows == old(windows) && pending == old(pending)
                && unchanged(lw.totals, tmpStat)
      ensures Summarize(old(logStats)).Success? ==>
                var item := Summarize(old(logStats)).value;
                && o == Pass && logStats == []
                && windows == old(windows) + [item] && pending == old(pending) + [item]
                && IsReport(item.topSections, lw.totals.topSectionsMsg)
                && IsReport(item.topStatus, lw.totals.topStatusMsg)
    {
      var r := CollectStatItems(logStats);
      if r.Failure? {
        return Fail(r.error);
      }
      var item := r.value;
      lw.LoadOnRefresh(item, tmpStat);
      logStats := [];
      SumWindowsStep(windows, item);
      SumWindowsStep(pending, item);
      windows := windows + [item];
      pending := pending + [item];
      o := Pass;
    }

    /** The alert tick: average the accumulator over the windows per alert,
        reset it, and run the alert decision on the new average. */
    method AlertTick(date: string)
      requires Valid()
      modifies lw`alertMsg, lw`alertState, lw.avg, tmpStat, view, this`pending
      ensures Valid()
      ensures lw.avg.Counters() == SumWindows(old(pending)).Over(lw.collectionNum)
      ensures pending == [] && tmpStat.Counters() == Zero
      ensures lw.Status(view) == Evaluate(old(lw.Status(view)), lw.avg.avgHits, lw.config.alertThreshold, date)
    {
      lw.LoadOnAlert(tmpStat);
      lw.PurgeTmpStat(tmpStat);
      pending := [];
      lw.UpdateAlertView(date, view);
      EvaluatePreserves(old(lw.Status(view)), lw.avg.avgHits, lw.config.alertThreshold, date);
    }
  }

  /** Adding one window adds its counters to the sum. */
  lemma SumWindowsStep(ws: seq<StatItem>, item: StatItem)
    ensures SumWindows(ws + [item]) == SumWindows(ws).Plus(WindowCounts(item))
  {
    assert (ws + [item])[..|ws|] == ws;
  }
}
