/** The values the statistics pipeline passes around: a parsed access-log
    record, one refresh window's summary, the five counters shared by the
    totals and the averages, and the configuration. */
module Records {
  import opened Wrappers
  import opened GoInt
  import opened Text

  /** One common-log-format line, already parsed. `Bytes` is an int64 in Go. */
  datatype CommonLog = CommonLog(
    ip: string,
    identifier: string,
    user: string,
    date: string,
    httpMethod: string,
    request: string,
    proto: string,
    status: int,
    bytes: int)

  /** The summary of one refresh window (its timestamp, read from the clock,
      is not modelled). */
  datatype StatItem = StatItem(
    hits: int,
    status2xx: int,
    status3xx: int,
    status4xx: int,
    status5xx: int,
    topSections: map<string, int>,
    topStatus: map<string, int>)

  /** The window summary before any record is seen. */
  const EmptyItem := StatItem(0, 0, 0, 0, 0, map[], map[])

  /** The hit and status-class counters; both the running totals and the
      average accumulator are shaped like this. */
  datatype Counts = Counts(hits: int, c2xx: int, c3xx: int, c4xx: int, c5xx: int)
  {
    /** Field-wise sum. */
    function Plus(other: Counts): Counts
    {
      Counts(hits + other.hits, c2xx + other.c2xx, c3xx + other.c3xx,
             c4xx + other.c4xx, c5xx + other.c5xx)
    }

    /** Field-wise Go integer division. */
    function Over(n: int): Counts
      requires n != 0
    {
      Counts(Quot(hits, n), Quot(c2xx, n), Quot(c3xx, n), Quot(c4xx, n), Quot(c5xx, n))
    }
  }

  const Zero := Counts(0, 0, 0, 0, 0)

  /** The counters a window contributes to the totals and the accumulator. */
  function WindowCounts(item: StatItem): Counts
  {
    Counts(item.hits, item.status2xx, item.status3xx, item.status4xx, item.status5xx)
  }

  /** Field-wise sum of the counters of a sequence of windows. */
  function SumWindows(ws: seq<StatItem>): Counts
  {
    if ws == [] then Zero
    else SumWindows(ws[..|ws| - 1]).Plus(WindowCounts(ws[|ws| - 1]))
  }

  /** Summing windows is associative: the totals over two stretches of
      windows are the sum of the totals of each. */
  lemma {:induction false} SumWindowsAppend(ws: seq<StatItem>, vs: seq<StatItem>)
    ensures SumWindows(ws + vs) == SumWindows(ws).Plus(SumWindows(vs))
  {
    if vs == [] {
      assert ws + vs == ws;
    } else {
      var last := |vs| - 1;
      assert (ws + vs)[..|ws + vs| - 1] == ws + vs[..last];
      SumWindowsAppend(ws, vs[..last]);
    }
  }

  /** If each of `n` windows saw `h` hits, together they saw `n * h`. */
  lemma {:induction false} SumOfEqualWindows(ws: seq<StatItem>, h: int)
    requires forall i :: 0 <= i < |ws| ==> ws[i].hits == h
    ensures SumWindows(ws).hits == |ws| * h
  {
    if ws != [] {
      var n := |ws| - 1;
      SumOfEqualWindows(ws[..n], h);
      assert SumWindows(ws).hits == n * h + h;
      Distributes(h, n + 1, 1);
      assert (n + 1) * h == n * h + h;
    }
  }

  /** If each of `n` windows saw `h` hits, the average over them is `h`. */
  lemma AverageOfEqualWindows(ws: seq<StatItem>, h: int)
    requires |ws| > 0
    requires forall i :: 0 <= i < |ws| ==> ws[i].hits == h
    ensures SumWindows(ws).Over(|ws|).hits == h
  {
    SumOfEqualWindows(ws, h);
    var n := |ws|;
    QuotUnique(n * h, n, h);
  }

  /** `Status / 100` in Go. */
  function StatusClass(status: int): (c: int)
    ensures status >= 0 ==> 100 * c <= status < 100 * c + 100
    ensures status < 0 ==> 100 * c - 100 < status <= 100 * c
  {
    Quot(status, 100)
  }

  /** The class is k (2..5) exactly for the statuses k00 to k99; every other
      status, negative ones included, falls outside 2..5. */
  lemma StatusClassRange(status: int, k: int)
    requires 2 <= k <= 5
    ensures StatusClass(status) == k <==> k * 100 <= status < k * 100 + 100
  {
  }

  /** `"/" + strings.Split(request, "/")[1]`, or None where index 1 does not
      exist (Go panics there). */
  function Section(request: string): (r: Option<string>)
    ensures r.Some? <==> '/' in request
  {
    SplitHasSecond(request, '/');
    var parts := Split(request, '/');
    if |parts| >= 2 then Some("/" + parts[1]) else None
  }

  /** The section is "/" followed by the text between the first and the
      second '/' of the request. */
  lemma SectionOfPath(pre: string, piece: string, post: string)
    requires '/' !in pre && '/' !in piece
    requires post == [] || post[0] == '/'
    ensures Section(pre + "/" + piece + post) == Some("/" + piece)
  {
    SecondPiece(pre, '/', piece, post);
  }

  /** The request of the sample log line next to the parser,
      "/assets/avatars/avatar4.png", is in section "/assets" (the request is
      written as its three pieces so that the verifier need not unfold the
      literal). */
  lemma SectionExample(request: string)
    requires request == "/" + "assets" + "/avatars/avatar4.png"
    ensures Section(request) == Some("/assets")
  {
    var piece, post := "assets", "/avatars/avatar4.png";
    assert "" + "/" + piece + post == request;
    SectionOfPath("", piece, post);
    assert "/" + piece == "/assets";
  }

  /** Command-line configuration (config.go). */
  datatype Config = Config(
    refreshInterval: int,
    alertInterval: int,
    alertThreshold: int,
    logInterval: int,
    logFile: string)

  const DefaultConfig := Config(10, 120, 400, 500, "/var/log/nginx/access.log")

  datatype ConfigError = IntervalsNotMultiple
}
