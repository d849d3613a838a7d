/**
 * The missed-block tracker of union-monitor.py (get_missed_blocks): a window of
 * missed-block events bounded by the slashing window, updated once per poll
 * from the blocks the chain produced since the last observed height.
 *
 * The block source is an input: `blocks[i]` is the outcome of fetching height
 * `lastHeight + 1 + i`; a height past the end of `blocks` counts as a fetch
 * failure.
 */
module MissedBlocks {
  import opened Util
  import opened Config

  /** One block the validator did not sign: its height and its timestamp (whole seconds). */
  datatype MissedEvent = MissedEvent(height: int, timestamp: int)

  /** What fetching one height gave. */
  datatype BlockOutcome =
    | Fetched(time: int, signed: bool)  // the block, its time, and whether the validator's address is among the signatures
    | ServerError500                    // HTTP 500 on that height: skipped
    | FetchFailed                       // any other failure: aborts the scan

  /** What fetching the latest block gave. */
  datatype LatestBlock = LatestFetched(height: int) | LatestUnreachable

  /** The four values get_missed_blocks returns. */
  datatype ScanReport = ScanReport(missed: int, currentHeight: int, totalMissed: nat, avgBlockTime: real)

  /** The window after a scan together with the report. */
  datatype ScanResult = ScanResult(window: seq<MissedEvent>, report: ScanReport)

  function OutcomeAt(blocks: seq<BlockOutcome>, i: nat): BlockOutcome {
    if i < |blocks| then blocks[i] else FetchFailed
  }

  /** How many heights lie in (last, latest]. */
  function Steps(last: int, latest: int): nat {
    if latest > last then latest - last else 0
  }

  /** Appending to the deque created with maxlen = SlashingWindow: a full deque drops its front. */
  function Push(d: seq<MissedEvent>, e: MissedEvent): (r: seq<MissedEvent>)
    requires |d| <= SlashingWindow
    ensures r == KeepLast(d + [e], SlashingWindow)
    ensures r[|r| - 1] == e
  {
    if |d| < SlashingWindow then d + [e] else d[1..] + [e]
  }

  /** The trim loop: drop front events that are at least a window behind `latest`, and stop at the first that is not. */
  function TrimAged(d: seq<MissedEvent>, latest: int): (r: seq<MissedEvent>)
    ensures |r| <= |d|
    ensures r != [] ==> latest - r[0].height < SlashingWindow
    ensures |r| < |d| ==> latest - d[0].height >= SlashingWindow
    decreases |d|
  {
    if d != [] && latest - d[0].height >= SlashingWindow then TrimAged(d[1..], latest) else d
  }

  /** The trim loop removes events from the front only. */
  lemma {:induction false} TrimAgedIsSuffix(d: seq<MissedEvent>, latest: int)
    ensures TrimAged(d, latest) == d[|d| - |TrimAged(d, latest)|..]
    decreases |d|
  {
    if d != [] && latest - d[0].height >= SlashingWindow {
      TrimAgedIsSuffix(d[1..], latest);
      assert d[1..][|d[1..]| - |TrimAged(d, latest)|..] == d[|d| - |TrimAged(d, latest)|..];
    }
  }

  /** Every event the trim loop pops was at least a window behind the latest height. */
  lemma {:induction false} TrimAgedPoppedAged(d: seq<MissedEvent>, latest: int)
    ensures forall i :: 0 <= i < |d| - |TrimAged(d, latest)| ==> latest - d[i].height >= SlashingWindow
    decreases |d|
  {
    if d != [] && latest - d[0].height >= SlashingWindow {
      TrimAgedPoppedAged(d[1..], latest);
      forall i | 0 <= i < |d| - |TrimAged(d, latest)| ensures latest - d[i].height >= SlashingWindow {
        if i > 0 {
          assert d[i] == d[1..][i - 1];
        }
      }
    }
  }

  /** The window the height loop starts from: emptied after a jump of more than a window, trimmed otherwise. */
  function StartWindow(d: seq<MissedEvent>, last: int, latest: int): (r: seq<MissedEvent>)
    ensures |r| <= |d|
    ensures latest - last > SlashingWindow ==> r == []
    ensures r != [] ==> latest - r[0].height < SlashingWindow
  {
    if latest - last > SlashingWindow then [] else TrimAged(d, latest)
  }

  /** The start window is the newest part of the old window: events only leave from the front. */
  lemma StartWindowIsSuffix(d: seq<MissedEvent>, last: int, latest: int)
    ensures var r := StartWindow(d, last, latest);
            r == d[|d| - |r|..]
  {
    TrimAgedIsSuffix(d, latest);
  }

  /** The number of heights processed before the first fatal fetch failure among the first n. */
  function Processed(blocks: seq<BlockOutcome>, n: nat): (k: nat)
    ensures k <= n
    ensures forall i :: 0 <= i < k ==> !OutcomeAt(blocks, i).FetchFailed?
    ensures k < n ==> OutcomeAt(blocks, k).FetchFailed?
  {
    if n == 0 then 0
    else
      var k := Processed(blocks, n - 1);
      if k < n - 1 || OutcomeAt(blocks, n - 1).FetchFailed? then k else n
  }

  /** A failure at a height that every earlier height got past is where processing stops. */
  lemma ProcessedStopsAt(blocks: seq<BlockOutcome>, i: nat, n: nat)
    requires i < n && Processed(blocks, i) == i && OutcomeAt(blocks, i).FetchFailed?
    ensures Processed(blocks, n) == i
  {
  }

  /** The event appended for the i-th height, if the validator did not sign it. */
  function MissedAt(blocks: seq<BlockOutcome>, last: int, i: nat): seq<MissedEvent> {
    match OutcomeAt(blocks, i)
    case Fetched(t, false) => [MissedEvent(last + 1 + i, t)]
    case _ => []
  }

  /** The events appended, in order, while the first k heights are processed. */
  function NewEvents(blocks: seq<BlockOutcome>, last: int, k: nat): (r: seq<MissedEvent>)
    ensures |r| <= k
  {
    if k == 0 then [] else NewEvents(blocks, last, k - 1) + MissedAt(blocks, last, k - 1)
  }

  /** The timestamp recorded for the i-th height, if its block was fetched. */
  function TimeAt(blocks: seq<BlockOutcome>, i: nat): seq<int> {
    match OutcomeAt(blocks, i)
    case Fetched(t, _) => [t]
    case _ => []
  }

  /** The block timestamps recorded while the first k heights are processed. */
  function BlockTimes(blocks: seq<BlockOutcome>, k: nat): (r: seq<int>)
    ensures |r| <= k
  {
    if k == 0 then [] else BlockTimes(blocks, k - 1) + TimeAt(blocks, k - 1)
  }

  /** (last - first) / (count - 1) over the recorded timestamps, 0 when fewer than two. */
  function AvgBlockTime(times: seq<int>): (avg: real)
    ensures |times| < 2 ==> avg == 0.0
  {
    if |times| > 1 then (times[|times| - 1] - times[0]) as real / (|times| - 1) as real else 0.0
  }

  /**
   * One call of get_missed_blocks on a window `d` with last observed height `last`.
   * The deque's maxlen makes the window the last SlashingWindow events of the
   * start window followed by the appended events.
   */
  function Scan(d: seq<MissedEvent>, last: int, latest: LatestBlock, blocks: seq<BlockOutcome>): (r: ScanResult)
    requires |d| <= SlashingWindow
    ensures |r.window| <= SlashingWindow
    ensures r.report.totalMissed == |r.window|
    ensures r.report.missed >= -1
    ensures r.report.missed == -1 ==> r.report.avgBlockTime == 0.0
  {
    match latest
    case LatestUnreachable => ScanResult(d, ScanReport(-1, last, |d|, 0.0))
    case LatestFetched(latestHeight) =>
      var n := Steps(last, latestHeight);
      var k := Processed(blocks, n);
      var added := NewEvents(blocks, last, k);
      var w := KeepLast(StartWindow(d, last, latestHeight) + added, SlashingWindow);
      if k < n then ScanResult(w, ScanReport(-1, last + k, |w|, 0.0))
      else ScanResult(w, ScanReport(|added|, last + k, |w|, AvgBlockTime(BlockTimes(blocks, k))))
  }

  /** Heights strictly increase along the window (so no height occurs twice). */
  ghost predicate Ascending(d: seq<MissedEvent>) {
    forall i, j :: 0 <= i < j < |d| ==> d[i].height < d[j].height
  }

  /** No event lies above height h. */
  ghost predicate NoneAbove(d: seq<MissedEvent>, h: int) {
    forall i :: 0 <= i < |d| ==> d[i].height <= h
  }

  /** What holds of the window between two polls whose last observed height is `last`. */
  ghost predicate WindowInvariant(d: seq<MissedEvent>, last: int) {
    |d| <= SlashingWindow && Ascending(d) && NoneAbove(d, last)
  }

  /** The appended events have strictly ascending heights, all in (last, last + k]. */
  lemma {:induction false} NewEventsRange(blocks: seq<BlockOutcome>, last: int, k: nat)
    ensures Ascending(NewEvents(blocks, last, k))
    ensures forall i :: 0 <= i < |NewEvents(blocks, last, k)| ==>
              last < NewEvents(blocks, last, k)[i].height <= last + k
  {
    if k > 0 {
      NewEventsRange(blocks, last, k - 1);
    }
  }

  /**
   * An event is appended for a height exactly when that height lies among the
   * first k visited and its block was fetched without the validator's signature.
   */
  lemma {:induction false} NewEventsExactly(blocks: seq<BlockOutcome>, last: int, k: nat, e: MissedEvent)
    ensures e in NewEvents(blocks, last, k) <==>
              last < e.height <= last + k && OutcomeAt(blocks, e.height - last - 1) == Fetched(e.timestamp, false)
  {
    if k > 0 {
      NewEventsExactly(blocks, last, k - 1, e);
    }
  }

  /** A time is recorded exactly when some processed height's block was fetched with that time. */
  lemma {:induction false} BlockTimesExactly(blocks: seq<BlockOutcome>, k: nat, t: int)
    ensures t in BlockTimes(blocks, k) <==>
              exists i :: 0 <= i < k && OutcomeAt(blocks, i).Fetched? && OutcomeAt(blocks, i).time == t
  {
    if k > 0 {
      BlockTimesExactly(blocks, k - 1, t);
      if t in BlockTimes(blocks, k) && t !in BlockTimes(blocks, k - 1) {
        assert OutcomeAt(blocks, k - 1).Fetched? && OutcomeAt(blocks, k - 1).time == t;
      }
    }
  }

  /** Times are recorded in height order: processing more heights only appends. */
  lemma {:induction false} BlockTimesInOrder(blocks: seq<BlockOutcome>, k: nat, k': nat)
    requires k <= k'
    ensures |BlockTimes(blocks, k)| <= |BlockTimes(blocks, k')|
    ensures BlockTimes(blocks, k) == BlockTimes(blocks, k')[..|BlockTimes(blocks, k)|]
    decreases k' - k
  {
    if k < k' {
      BlockTimesInOrder(blocks, k, k' - 1);
      var a, b := BlockTimes(blocks, k), BlockTimes(blocks, k' - 1);
      assert BlockTimes(blocks, k') == b + TimeAt(blocks, k' - 1);
      assert (b + TimeAt(blocks, k' - 1))[..|a|] == b[..|a|];
    } else {
      assert BlockTimes(blocks, k) == BlockTimes(blocks, k)[..|BlockTimes(blocks, k)|];
    }
  }

  /** On an ascending window the trim loop keeps exactly the events less than a window behind `latest`. */
  lemma {:induction false} TrimAgedKeepsRecent(d: seq<MissedEvent>, latest: int, e: MissedEvent)
    requires Ascending(d)
    ensures e in TrimAged(d, latest) <==> e in d && latest - e.height < SlashingWindow
  {
    if d != [] && latest - d[0].height >= SlashingWindow {
      assert Ascending(d[1..]);
      TrimAgedKeepsRecent(d[1..], latest, e);
      if e in d && e !in d[1..] {
        assert e == d[0];
      }
      if e in d && latest - e.height < SlashingWindow {
        var j :| 0 <= j < |d| && d[j] == e;
        assert j != 0;
        assert e in d[1..];
      }
    } else if e in d && d != [] {
      var j :| 0 <= j < |d| && d[j] == e;
      assert d[0].height <= e.height;
    }
  }

  /** Ascending order and an upper bound survive dropping a prefix. */
  lemma SuffixKeeps(d: seq<MissedEvent>, m: nat, h: int)
    requires m <= |d| && Ascending(d) && NoneAbove(d, h)
    ensures Ascending(d[m..]) && NoneAbove(d[m..], h)
  {
    assert forall i :: 0 <= i < |d[m..]| ==> d[m..][i] == d[m + i];
  }

  /** Everything at or below h followed by everything above h, each ascending, is ascending. */
  lemma ConcatAscending(a: seq<MissedEvent>, b: seq<MissedEvent>, h: int)
    requires Ascending(a) && NoneAbove(a, h) && Ascending(b)
    requires forall i :: 0 <= i < |b| ==> h < b[i].height
    ensures Ascending(a + b)
  {
    forall i, j | 0 <= i < j < |a + b| ensures (a + b)[i].height < (a + b)[j].height {
      if j < |a| {
      } else if i >= |a| {
        assert (a + b)[i] == b[i - |a|] && (a + b)[j] == b[j - |a|];
      } else {
        assert (a + b)[i] == a[i] && (a + b)[j] == b[j - |a|];
      }
    }
  }

  /** The window and height a poll leaves when the latest height was fetched. */
  lemma ScanFetched(d: seq<MissedEvent>, last: int, h: int, blocks: seq<BlockOutcome>)
    requires |d| <= SlashingWindow
    ensures var k := Processed(blocks, Steps(last, h));
            && Scan(d, last, LatestFetched(h), blocks).window
               == KeepLast(StartWindow(d, last, h) + NewEvents(blocks, last, k), SlashingWindow)
            && Scan(d, last, LatestFetched(h), blocks).report.currentHeight == last + k
  {
  }

  /** Keeping the last elements keeps ascending order and an upper bound. */
  lemma KeepLastKeeps(all: seq<MissedEvent>, h: int)
    requires Ascending(all) && NoneAbove(all, h)
    ensures Ascending(KeepLast(all, SlashingWindow)) && NoneAbove(KeepLast(all, SlashingWindow), h)
  {
    if |all| > SlashingWindow {
      SuffixKeeps(all, |all| - SlashingWindow, h);
    }
  }

  /** The start window followed by the new events is ascending and at or below last + k. */
  lemma StartThenNew(d: seq<MissedEvent>, last: int, h: int, blocks: seq<BlockOutcome>, k: nat)
    requires WindowInvariant(d, last)
    ensures Ascending(StartWindow(d, last, h) + NewEvents(blocks, last, k))
    ensures NoneAbove(StartWindow(d, last, h) + NewEvents(blocks, last, k), last + k)
  {
    var start := StartWindow(d, last, h);
    var added := NewEvents(blocks, last, k);
    if h - last <= SlashingWindow {
      TrimAgedIsSuffix(d, h);
      SuffixKeeps(d, |d| - |start|, last);
    }
    NewEventsRange(blocks, last, k);
    ConcatAscending(start, added, last);
    var all := start + added;
    forall i | 0 <= i < |all| ensures all[i].height <= last + k {
      if i >= |start| {
        assert all[i] == added[i - |start|];
      }
    }
  }

  /**
   * A poll keeps the window ascending, within the slashing window's length and at
   * or below the height it reports; the next poll starts just above that height,
   * so no height is ever appended twice.
   */
  lemma ScanKeepsInvariant(d: seq<MissedEvent>, last: int, latest: LatestBlock, blocks: seq<BlockOutcome>)
    requires WindowInvariant(d, last)
    ensures last <= Scan(d, last, latest, blocks).report.currentHeight
    ensures WindowInvariant(Scan(d, last, latest, blocks).window, Scan(d, last, latest, blocks).report.currentHeight)
  {
    if latest.LatestFetched? {
      var h := latest.height;
      var k := Processed(blocks, Steps(last, h));
      ScanFetched(d, last, h, blocks);
      StartThenNew(d, last, h, blocks, k);
      KeepLastKeeps(StartWindow(d, last, h) + NewEvents(blocks, last, k), last + k);
    }
  }

  /**
   * After a jump of more than a window the result does not depend on what the
   * window held, and holds only heights above `last`.
   */
  lemma ScanResetForgetsWindow(d1: seq<MissedEvent>, d2: seq<MissedEvent>, last: int, h: int, blocks: seq<BlockOutcome>)
    requires |d1| <= SlashingWindow && |d2| <= SlashingWindow
    requires h - last > SlashingWindow
    ensures Scan(d1, last, LatestFetched(h), blocks) == Scan(d2, last, LatestFetched(h), blocks)
    ensures forall i :: 0 <= i < |Scan(d1, last, LatestFetched(h), blocks).window| ==>
              last < Scan(d1, last, LatestFetched(h), blocks).window[i].height
  {
    var added := NewEvents(blocks, last, Processed(blocks, Steps(last, h)));
    NewEventsRange(blocks, last, Processed(blocks, Steps(last, h)));
    ScanFetched(d1, last, h, blocks);
    ScanFetched(d2, last, h, blocks);
    assert StartWindow(d1, last, h) + added == added;
    assert StartWindow(d2, last, h) + added == added;
    KeptAbove(added, last);
  }

  /** Keeping the last events of a sequence that lies at or below `hi` keeps it there. */
  lemma KeptAtMost(all: seq<MissedEvent>, hi: int)
    requires forall i :: 0 <= i < |all| ==> all[i].height <= hi
    ensures forall i :: 0 <= i < |KeepLast(all, SlashingWindow)| ==> KeepLast(all, SlashingWindow)[i].height <= hi
  {
    var w := KeepLast(all, SlashingWindow);
    KeepLastIsSuffix(all, SlashingWindow);
    forall i | 0 <= i < |w| ensures w[i].height <= hi {
      assert w[i] == all[|all| - |w| + i];
    }
  }

  /** Keeping the last events of a sequence that lies above `last` keeps it above `last`. */
  lemma KeptAbove(added: seq<MissedEvent>, last: int)
    requires forall i :: 0 <= i < |added| ==> last < added[i].height
    ensures forall i :: 0 <= i < |KeepLast(added, SlashingWindow)| ==> last < KeepLast(added, SlashingWindow)[i].height
  {
    var w := KeepLast(added, SlashingWindow);
    KeepLastIsSuffix(added, SlashingWindow);
    forall i | 0 <= i < |w| ensures last < w[i].height {
      assert w[i] == added[|added| - |w| + i];
    }
  }

  /** Without a reset, the start window followed by the new events lies within a window below h. */
  lemma TrimThenNewRecent(d: seq<MissedEvent>, last: int, h: int, blocks: seq<BlockOutcome>, k: nat)
    requires WindowInvariant(d, last)
    requires h - last <= SlashingWindow && k <= Steps(last, h)
    ensures var all := TrimAged(d, h) + NewEvents(blocks, last, k);
            forall i :: 0 <= i < |all| ==> h - all[i].height < SlashingWindow && (last <= h ==> all[i].height <= h)
  {
    var start := TrimAged(d, h);
    var added := NewEvents(blocks, last, k);
    NewEventsRange(blocks, last, k);
    TrimAgedIsSuffix(d, h);
    SuffixKeeps(d, |d| - |start|, last);
    var all := start + added;
    forall i | 0 <= i < |all|
      ensures h - all[i].height < SlashingWindow && (last <= h ==> all[i].height <= h)
    {
      if i < |start| {
        assert all[i] == start[i];
        assert start[i] in start;
        TrimAgedKeepsRecent(d, h, start[i]);
      } else {
        assert all[i] == added[i - |start|];
      }
    }
  }

  /**
   * Without a reset, every event left in the window is less than a window behind
   * the latest height; when the chain did not go backwards, the newest and the
   * oldest event are less than a window apart.
   */
  lemma ScanTrimKeepsRecent(d: seq<MissedEvent>, last: int, h: int, blocks: seq<BlockOutcome>)
    requires WindowInvariant(d, last)
    requires h - last <= SlashingWindow
    ensures var w := Scan(d, last, LatestFetched(h), blocks).window;
            forall i :: 0 <= i < |w| ==> h - w[i].height < SlashingWindow
    ensures var w := Scan(d, last, LatestFetched(h), blocks).window;
            last <= h ==> forall i, j :: 0 <= i < |w| && 0 <= j < |w| ==> w[j].height - w[i].height < SlashingWindow
  {
    var k := Processed(blocks, Steps(last, h));
    ScanFetched(d, last, h, blocks);
    TrimThenNewRecent(d, last, h, blocks, k);
    var all := TrimAged(d, h) + NewEvents(blocks, last, k);
    assert StartWindow(d, last, h) == TrimAged(d, h);
    KeptAbove(all, h - SlashingWindow);
    if last <= h {
      KeptAtMost(all, h);
    }
  }

  /**
   * The report of a poll whose latest height was fetched: the reported height is
   * the last one handled before the first fatal failure, and the miss count is
   * the sentinel -1 exactly when such a failure cut the scan short; otherwise it
   * is the number of events appended.
   */
  lemma ScanProgress(d: seq<MissedEvent>, last: int, h: int, blocks: seq<BlockOutcome>)
    requires |d| <= SlashingWindow
    ensures var r := Scan(d, last, LatestFetched(h), blocks);
            var c := r.report.currentHeight;
            && last <= c <= last + Steps(last, h)
            && (forall j :: 0 <= j < c - last ==> !OutcomeAt(blocks, j).FetchFailed?)
            && (r.report.missed == -1 <==> c < last + Steps(last, h))
            && (r.report.missed == -1 ==> OutcomeAt(blocks, c - last).FetchFailed?)
            && (r.report.missed != -1 ==> r.report.missed == |NewEvents(blocks, last, c - last)|)
  {
  }

  /** When the latest block cannot be fetched nothing changes and the sentinel is returned. */
  lemma ScanUnreachable(d: seq<MissedEvent>, last: int, blocks: seq<BlockOutcome>)
    requires |d| <= SlashingWindow
    ensures Scan(d, last, LatestUnreachable, blocks) == ScanResult(d, ScanReport(-1, last, |d|, 0.0))
  {
  }

  /** The span of evenly spaced timestamps is the spacing times the number of gaps. */
  lemma {:induction false} EvenSpan(times: seq<int>, step: int)
    requires |times| >= 1
    requires forall i :: 0 <= i < |times| - 1 ==> times[i + 1] - times[i] == step
    ensures times[|times| - 1] - times[0] == (|times| - 1) * step
  {
    if |times| > 1 {
      EvenSpan(times[..|times| - 1], step);
      assert times[..|times| - 1][|times| - 2] == times[|times| - 2];
    }
  }

  /** The average block time of blocks produced every `step` seconds is `step`. */
  lemma AvgOfEvenSpacing(times: seq<int>, step: int)
    requires |times| >= 2
    requires forall i :: 0 <= i < |times| - 1 ==> times[i + 1] - times[i] == step
    ensures AvgBlockTime(times) == step as real
  {
    EvenSpan(times, step);
    var gaps := (|times| - 1) as real;
    assert (times[|times| - 1] - times[0]) as real == gaps * step as real;
    QuotientOfProduct(gaps, step as real);
  }

  /** Dividing a product by one of its nonzero factors gives the other. */
  lemma QuotientOfProduct(n: real, x: real)
    requires n > 0.0
    ensures (n * x) / n == x
  {
  }

  /** The deque of missed-block events, created with maxlen = SlashingWindow. */
  class MissedWindow {
    var events: seq<MissedEvent>

    ghost predicate Valid()
      reads this
    {
      |events| <= SlashingWindow
    }

    constructor ()
      ensures Valid() && events == []
    {
      events := [];
    }

    method Clear()
      modifies this
      ensures Valid() && events == []
    {
      events := [];
    }

    method PopLeft() returns (e: MissedEvent)
      requires Valid() && events != []
      modifies this
      ensures Valid()
      ensures e == old(events)[0] && events == old(events)[1..]
    {
      e := events[0];
      events := events[1..];
    }

    method Append(e: MissedEvent)
      requires Valid()
      modifies this
      ensures Valid()
      ensures events == Push(old(events), e)
    {
      if |events| < SlashingWindow {
        events := events + [e];
      } else {
        events := events[1..] + [e];
      }
    }
  }

  /** The first step of get_missed_blocks: empty the window after a jump of more than a window, else pop aged events from its front. */
  method ResetOrTrim(window: MissedWindow, lastHeight: int, latestHeight: int)
    requires window.Valid()
    modifies window
    ensures window.Valid()
    ensures window.events == StartWindow(old(window.events), lastHeight, latestHeight)
  {
    if latestHeight - lastHeight > SlashingWindow {
      window.Clear();
    } else {
      while window.events != [] && latestHeight - window.events[0].height >= SlashingWindow
        invariant window.Valid()
        invariant TrimAged(window.events, latestHeight) == TrimAged(old(window.events), latestHeight)
        decreases |window.events|
      {
        var _ := window.PopLeft();
      }
    }
  }

  /** What processing the i-th height adds to the appended events and to the recorded timestamps. */
  lemma HeightStep(blocks: seq<BlockOutcome>, last: int, i: nat)
    requires Processed(blocks, i) == i && !OutcomeAt(blocks, i).FetchFailed?
    ensures Processed(blocks, i + 1) == i + 1
    ensures NewEvents(blocks, last, i + 1) == NewEvents(blocks, last, i) + MissedAt(blocks, last, i)
    ensures BlockTimes(blocks, i + 1) == BlockTimes(blocks, i) + TimeAt(blocks, i)
    ensures MissedAt(blocks, last, i) == [] ==> NewEvents(blocks, last, i + 1) == NewEvents(blocks, last, i)
  {
    if MissedAt(blocks, last, i) == [] {
      assert NewEvents(blocks, last, i) + [] == NewEvents(blocks, last, i);
    }
  }

  /** Appending the i-th height's missed event to the deque keeps it equal to the last W of all events so far. */
  lemma PushStep(start: seq<MissedEvent>, blocks: seq<BlockOutcome>, last: int, i: nat, t: int)
    requires OutcomeAt(blocks, i) == Fetched(t, false)
    ensures |KeepLast(start + NewEvents(blocks, last, i), SlashingWindow)| <= SlashingWindow
    ensures Push(KeepLast(start + NewEvents(blocks, last, i), SlashingWindow), MissedEvent(last + 1 + i, t))
            == KeepLast(start + NewEvents(blocks, last, i + 1), SlashingWindow)
  {
    var e := MissedEvent(last + 1 + i, t);
    var added := NewEvents(blocks, last, i);
    assert NewEvents(blocks, last, i + 1) == added + [e];
    KeepLastPush(start + added, e, SlashingWindow);
    assert start + (added + [e]) == (start + added) + [e];
  }

  /**
   * The height loop of get_missed_blocks: visit lastHeight+1 .. latestHeight in
   * ascending order, appending an event for every block the validator did not
   * sign, skipping heights that gave HTTP 500, and stopping at the first other
   * failure (`ok` false).
   */
  method ScanHeights(window: MissedWindow, lastHeight: int, latestHeight: int, blocks: seq<BlockOutcome>)
    returns (missed: nat, currentHeight: int, blockTimes: seq<int>, ok: bool)
    requires window.Valid()
    modifies window
    ensures window.Valid()
    ensures var k := Processed(blocks, Steps(lastHeight, latestHeight));
            && ok == (k == Steps(lastHeight, latestHeight))
            && currentHeight == lastHeight + k
            && missed == |NewEvents(blocks, lastHeight, k)|
            && blockTimes == BlockTimes(blocks, k)
            && window.events == KeepLast(old(window.events) + NewEvents(blocks, lastHeight, k), SlashingWindow)
  {
    ghost var start := window.events;
    ghost var n := Steps(lastHeight, latestHeight);
    assert start + NewEvents(blocks, lastHeight, 0) == start;
    missed, currentHeight, blockTimes := 0, lastHeight, [];
    var i: nat := 0;
    while lastHeight + 1 + i <= latestHeight
      invariant i <= n && Processed(blocks, i) == i
      invariant window.Valid() && window.events == KeepLast(start + NewEvents(blocks, lastHeight, i), SlashingWindow)
      invariant missed == |NewEvents(blocks, lastHeight, i)|
      invariant blockTimes == BlockTimes(blocks, i)
      invariant currentHeight == lastHeight + i
    {
      var height := lastHeight + 1 + i;
      match OutcomeAt(blocks, i) {
      case Fetched(t, signed) =>
        HeightStep(blocks, lastHeight, i);
        blockTimes := blockTimes + [t];
        if !signed {
          PushStep(start, blocks, lastHeight, i, t);
          missed := missed + 1;
          window.Append(MissedEvent(height, t));
        }
      case ServerError500 =>
        HeightStep(blocks, lastHeight, i);
      case FetchFailed =>
        ProcessedStopsAt(blocks, i, n);
        return missed, currentHeight, blockTimes, false;
      }
      currentHeight := height;
      i := i + 1;
    }
    ok := true;
  }

  /** get_missed_blocks: update `window` in place and return the report. */
  method GetMissedBlocks(lastHeight: int, window: MissedWindow, latest: LatestBlock, blocks: seq<BlockOutcome>)
    returns (report: ScanReport)
    requires window.Valid()
    modifies window
    ensures window.Valid()
    ensures ScanResult(window.events, report) == Scan(old(window.events), lastHeight, latest, blocks)
  {
    if latest.LatestUnreachable? {
      return ScanReport(-1, lastHeight, |window.events|, 0.0);
    }
    var latestHeight := latest.height;
    ResetOrTrim(window, lastHeight, latestHeight);
    var missed, currentHeight, blockTimes, ok := ScanHeights(window, lastHeight, latestHeight, blocks);
    if !ok {
      return ScanReport(-1, currentHeight, |window.events|, 0.0);
    }
    report := ScanReport(missed, currentHeight, |window.events|, AvgBlockTime(blockTimes));
  }
}
