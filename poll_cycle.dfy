/**
 * The poll loop of monitor() in union-monitor.py: each cycle fetches the
 * validator status and the missed-block report, copies them into the monitor
 * state, counts consecutive failures (shutting down at the fifth), emits the
 * threshold alerts and the batched missed-block alert, and moves last_height on.
 *
 * `Decide`, `Cycle` and `Run` are the specification on values; the class
 * `MonitorState` with `PollCycle` and `Monitor` is the imperative loop, proved
 * equal to it.
 */
module PollLoop {
  import opened Util
  import opened Config
  import opened MissedBlocks
  import opened ValidatorStatus

  /** Consecutive failed cycles after which the monitor sends the critical alert and exits. */
  const MaxFailures: nat := 5
  /** missed_since_last_alert must exceed this for the batched missed-block alert. */
  const MissedAlertBatch: int := 5
  /** Voting power below this raises the low-voting-power alert. */
  const MinVotingPower: int := 1000
  /** Average block time (seconds) above this raises the slow-block alert. */
  const MaxBlockTime: real := 10.0
  /** Delegator count below this raises the low-delegator alert. */
  const MinDelegators: int := 10
  /** Uptime below 100 - threshold*100 (that is, 80) raises the high-miss-rate alert. */
  const MissRateLimit: real := 100.0 - SlashingThreshold * 100.0

  /** The Telegram alerts the loop can send, one constructor per message. */
  datatype AlertKind =
    | StartHeightUnavailable  // initial height fetch gave 0
    | RpcUnreachable          // critical error, the loop exits
    | NotInActiveSet
    | NotSynced
    | Jailed
    | LowVotingPower
    | SlowBlockTime
    | LowDelegatorCount
    | HighMissRate
    | MissedBatch             // "missed N blocks since last alert"

  /** Position of an alert in the order the loop sends them. */
  function SendOrder(k: AlertKind): nat {
    match k
    case StartHeightUnavailable => 0
    case RpcUnreachable => 1
    case NotInActiveSet => 2
    case NotSynced => 3
    case Jailed => 4
    case LowVotingPower => 5
    case SlowBlockTime => 6
    case LowDelegatorCount => 7
    case HighMissRate => 8
    case MissedBatch => 9
  }

  /** Alerts appear in send order, so none appears twice. */
  predicate InSendOrder(alerts: seq<AlertKind>) {
    forall i, j :: 0 <= i < j < |alerts| ==> SendOrder(alerts[i]) < SendOrder(alerts[j])
  }

  /** Uptime over the slashing window, in percent. */
  function Uptime(totalMissed: int): (u: real)
    ensures totalMissed <= 0 ==> u == 100.0
    ensures totalMissed > 0 ==> u == 100.0 - totalMissed as real
    ensures 0 <= totalMissed <= SlashingWindow ==> 0.0 <= u <= 100.0
    ensures u < MissRateLimit <==> totalMissed > 20
  {
    if totalMissed > 0 then 100.0 * (1.0 - totalMissed as real / SlashingWindow as real) else 100.0
  }

  /** The threshold alerts, in the order the loop checks them. */
  const ThresholdKinds: seq<AlertKind> :=
    [NotInActiveSet, NotSynced, Jailed, LowVotingPower, SlowBlockTime, LowDelegatorCount, HighMissRate]

  /** Whether the check for alert kind k fires on this cycle's snapshot, block time and uptime. */
  predicate Fires(k: AlertKind, s: Snapshot, avgBlockTime: real, uptime: real)
    ensures Fires(k, s, avgBlockTime, uptime) ==> k in ThresholdKinds
  {
    match k
    case NotInActiveSet => !s.active && s.votingPower.None?
    case NotSynced => s.catchingUp
    case Jailed => s.jailed
    case LowVotingPower => s.votingPower.Some? && s.votingPower.value < MinVotingPower
    case SlowBlockTime => avgBlockTime > MaxBlockTime
    case LowDelegatorCount => s.delegatorCount.Some? && s.delegatorCount.value < MinDelegators
    case HighMissRate => uptime < MissRateLimit
    case _ => false
  }

  /** The kinds of ks whose check fires, in the order of ks (each check is an independent `if`). */
  function Checked(ks: seq<AlertKind>, s: Snapshot, avgBlockTime: real, uptime: real): (r: seq<AlertKind>)
    ensures forall k :: k in r <==> k in ks && Fires(k, s, avgBlockTime, uptime)
  {
    if ks == [] then []
    else if Fires(ks[0], s, avgBlockTime, uptime) then [ks[0]] + Checked(ks[1..], s, avgBlockTime, uptime)
    else Checked(ks[1..], s, avgBlockTime, uptime)
  }

  /** Checking keeps the order of the kinds checked. */
  lemma {:induction false} CheckedInOrder(ks: seq<AlertKind>, s: Snapshot, avgBlockTime: real, uptime: real)
    requires InSendOrder(ks)
    ensures InSendOrder(Checked(ks, s, avgBlockTime, uptime))
  {
    if ks != [] {
      var tail := ks[1..];
      forall i, j | 0 <= i < j < |tail| ensures SendOrder(tail[i]) < SendOrder(tail[j]) {
        assert tail[i] == ks[i + 1] && tail[j] == ks[j + 1];
      }
      CheckedInOrder(tail, s, avgBlockTime, uptime);
      var rest := Checked(tail, s, avgBlockTime, uptime);
      if Fires(ks[0], s, avgBlockTime, uptime) {
        var r := [ks[0]] + rest;
        forall i, j | 0 <= i < j < |r| ensures SendOrder(r[i]) < SendOrder(r[j]) {
          if i == 0 {
            assert r[j] == rest[j - 1] && rest[j - 1] in tail;
            var m :| 0 <= m < |tail| && tail[m] == r[j];
            assert ks[m + 1] == r[j];
          } else {
            assert r[i] == rest[i - 1] && r[j] == rest[j - 1];
          }
        }
      }
    }
  }

  /** The alerts that depend only on this cycle's snapshot, block time and uptime, in send order. */
  function ThresholdAlerts(s: Snapshot, avgBlockTime: real, uptime: real): (r: seq<AlertKind>)
    ensures forall k :: k in r <==> k in ThresholdKinds && Fires(k, s, avgBlockTime, uptime)
  {
    Checked(ThresholdKinds, s, avgBlockTime, uptime)
  }

  /** The threshold alerts are sent in send order, so none is sent twice in a cycle. */
  lemma ThresholdAlertsInOrder(s: Snapshot, avgBlockTime: real, uptime: real)
    ensures InSendOrder(ThresholdAlerts(s, avgBlockTime, uptime))
  {
    CheckedInOrder(ThresholdKinds, s, avgBlockTime, uptime);
  }

  /** Each threshold alert fires exactly when its own condition holds, independently of the others. */
  lemma ThresholdAlertConditions(s: Snapshot, avgBlockTime: real, uptime: real)
    ensures var r := ThresholdAlerts(s, avgBlockTime, uptime);
            && (NotInActiveSet in r <==> !s.active && s.votingPower.None?)
            && (NotSynced in r <==> s.catchingUp)
            && (Jailed in r <==> s.jailed)
            && (LowVotingPower in r <==> s.votingPower.Some? && s.votingPower.value < MinVotingPower)
            && (SlowBlockTime in r <==> avgBlockTime > MaxBlockTime)
            && (LowDelegatorCount in r <==> s.delegatorCount.Some? && s.delegatorCount.value < MinDelegators)
            && (HighMissRate in r <==> uptime < MissRateLimit)
            && StartHeightUnavailable !in r && RpcUnreachable !in r && MissedBatch !in r
  {
  }

  /** The batched alert is sent last, so appending it keeps the send order. */
  lemma MissedBatchLast(alerts: seq<AlertKind>)
    requires InSendOrder(alerts) && MissedBatch !in alerts
    ensures InSendOrder(alerts + [MissedBatch])
  {
    var r := alerts + [MissedBatch];
    forall i, j | 0 <= i < j < |r| ensures SendOrder(r[i]) < SendOrder(r[j]) {
      if j < |alerts| {
        assert r[i] == alerts[i] && r[j] == alerts[j];
      } else {
        assert r[i] == alerts[i];
        assert r[i] != MissedBatch;
      }
    }
  }

  /** A cycle counts as failed when the status fetch failed and the block scan returned the sentinel. */
  predicate CycleFailed(s: Snapshot, report: ScanReport) {
    !s.active && report.missed == -1
  }

  /** What one cycle decides: the new failure count and accumulator, the alerts sent, and whether the loop exits. */
  datatype Decision = Decision(failures: nat, missedSinceLastAlert: int, alerts: seq<AlertKind>, stop: bool)

  /** The decisions of one cycle, given the failure count and accumulator before it. */
  function Decide(failures: nat, sinceLast: int, s: Snapshot, report: ScanReport): (d: Decision)
    ensures d.failures == (if CycleFailed(s, report) then failures + 1 else 0)
    ensures d.stop <==> CycleFailed(s, report) && failures + 1 >= MaxFailures
    ensures d.stop ==> d.alerts == [RpcUnreachable] && d.missedSinceLastAlert == sinceLast
    ensures !d.stop ==> d.failures < MaxFailures && RpcUnreachable !in d.alerts
    ensures report.missed <= 0 ==> d.missedSinceLastAlert == sinceLast
    ensures !d.stop && sinceLast <= MissedAlertBatch ==> d.missedSinceLastAlert <= MissedAlertBatch
    ensures sinceLast >= 0 ==> d.missedSinceLastAlert >= 0
  {
    var f := if CycleFailed(s, report) then failures + 1 else 0;
    if f >= MaxFailures then
      Decision(f, sinceLast, [RpcUnreachable], true)
    else
      var alerts := ThresholdAlerts(s, report.avgBlockTime, Uptime(report.totalMissed));
      if report.missed > 0 then
        var acc := sinceLast + report.missed;
        if acc > MissedAlertBatch then Decision(f, 0, alerts + [MissedBatch], false)
        else Decision(f, acc, alerts, false)
      else Decision(f, sinceLast, alerts, false)
  }

  /**
   * The alerts of a cycle that does not exit: the threshold alerts, each fired by
   * its own check, then the batched missed-block alert exactly when the
   * accumulator exceeds 5, which also resets it.
   */
  lemma DecideAlerts(failures: nat, sinceLast: int, s: Snapshot, report: ScanReport)
    ensures var d := Decide(failures, sinceLast, s, report);
            !d.stop ==> InSendOrder(d.alerts)
    ensures var d := Decide(failures, sinceLast, s, report);
            !d.stop ==> forall k :: k != MissedBatch ==>
              (k in d.alerts <==> k in ThresholdKinds && Fires(k, s, report.avgBlockTime, Uptime(report.totalMissed)))
    ensures var d := Decide(failures, sinceLast, s, report);
            MissedBatch in d.alerts <==> !d.stop && report.missed > 0 && sinceLast + report.missed > MissedAlertBatch
    ensures var d := Decide(failures, sinceLast, s, report);
            MissedBatch in d.alerts ==> d.missedSinceLastAlert == 0
    ensures var d := Decide(failures, sinceLast, s, report);
            !d.stop && MissedBatch !in d.alerts ==> d.missedSinceLastAlert == sinceLast + (if report.missed > 0 then report.missed else 0)
  {
    var d := Decide(failures, sinceLast, s, report);
    var alerts := ThresholdAlerts(s, report.avgBlockTime, Uptime(report.totalMissed));
    ThresholdAlertsInOrder(s, report.avgBlockTime, Uptime(report.totalMissed));
    assert MissedBatch !in alerts;
    if d.stop {
    } else if report.missed > 0 && sinceLast + report.missed > MissedAlertBatch {
      assert d.alerts == alerts + [MissedBatch];
      MissedBatchLast(alerts);
    } else {
      assert d.alerts == alerts;
    }
  }

  /**
   * The not-in-active-set alert follows the status requests, not the validator
   * set: it is sent when the requests failed and the loop goes on, and never
   * when they succeeded, also when the validator is missing from the set.
   */
  lemma ActiveSetAlertMeansStatusFailure(failures: nat, sinceLast: int, fetch: StatusFetch, address: string, report: ScanReport)
    ensures var d := Decide(failures, sinceLast, Status(fetch, address), report);
            NotInActiveSet in d.alerts <==> fetch.StatusUnreachable? && !d.stop
  {
    var snap := Status(fetch, address);
    DecideAlerts(failures, sinceLast, snap, report);
    assert Fires(NotInActiveSet, snap, report.avgBlockTime, Uptime(report.totalMissed)) <==> fetch.StatusUnreachable?;
  }

  /** The inputs of one cycle: the status requests, the latest block and the per-height block outcomes. */
  datatype Poll = Poll(status: StatusFetch, latest: LatestBlock, blocks: seq<BlockOutcome>)

  /** A missed-block window holds at most W events, as the deque's maxlen guarantees. */
  type Window = w: seq<MissedEvent> | |w| <= SlashingWindow

  /** The loop's state that carries over from one cycle to the next. */
  datatype LoopState = LoopState(lastHeight: int, window: Window, failures: nat, missedSinceLastAlert: int)

  /** The state in which the loop starts, from the initial height. */
  function Initial(height: int): (s: LoopState)
    ensures LoopInvariant(s) && s.lastHeight == height && s.failures == 0
  {
    LoopState(height, [], 0, 0)
  }

  /** The alerts sent before the loop starts. */
  function StartupAlerts(height: int): (r: seq<AlertKind>)
    ensures StartHeightUnavailable in r <==> height == 0
    ensures |r| <= 1
  {
    if height == 0 then [StartHeightUnavailable] else []
  }

  datatype CycleResult = CycleResult(next: LoopState, decision: Decision)

  /** One loop iteration on values. On exit last_height is not updated, but the window already is. */
  function Cycle(address: string, s: LoopState, p: Poll): (c: CycleResult)
    ensures c.next.failures == c.decision.failures
    ensures c.next.missedSinceLastAlert == c.decision.missedSinceLastAlert
    ensures c.decision.stop ==> c.next.lastHeight == s.lastHeight
  {
    var res := Scan(s.window, s.lastHeight, p.latest, p.blocks);
    var d := Decide(s.failures, s.missedSinceLastAlert, Status(p.status, address), res.report);
    CycleResult(LoopState(if d.stop then s.lastHeight else res.report.currentHeight, res.window,
                          d.failures, d.missedSinceLastAlert), d)
  }

  /** The state invariant the loop keeps between cycles. */
  ghost predicate LoopInvariant(s: LoopState) {
    WindowInvariant(s.window, s.lastHeight)
    && s.failures < MaxFailures
    && 0 <= s.missedSinceLastAlert <= MissedAlertBatch
  }

  /**
   * A cycle that does not exit keeps the invariant: the window stays ascending,
   * bounded by W and below the new last_height, so the next cycle never appends
   * a height twice; the accumulator stays within 0 .. 5.
   */
  lemma CycleKeepsInvariant(address: string, s: LoopState, p: Poll)
    requires LoopInvariant(s)
    ensures var c := Cycle(address, s, p);
            !c.decision.stop ==> LoopInvariant(c.next) && s.lastHeight <= c.next.lastHeight
    ensures var c := Cycle(address, s, p);
            c.decision.stop ==> Ascending(c.next.window)
  {
    ScanKeepsInvariant(s.window, s.lastHeight, p.latest, p.blocks);
  }

  datatype RunResult = RunResult(cycles: seq<seq<AlertKind>>, final: LoopState, shutDown: bool)

  /**
   * A loop that runs `step` on each poll in turn, from state s, until a step
   * says to stop: the alerts of each cycle, the final state, and whether it stopped.
   */
  function Fold(step: (LoopState, Poll) -> CycleResult, s: LoopState, polls: seq<Poll>): (r: RunResult)
    ensures |r.cycles| <= |polls|
    ensures !r.shutDown ==> |r.cycles| == |polls|
    ensures r.shutDown ==> r.cycles != []
    decreases |polls|
  {
    if polls == [] then RunResult([], s, false)
    else
      var c := step(s, polls[0]);
      if c.decision.stop then RunResult([c.decision.alerts], c.next, true)
      else
        var rest := Fold(step, c.next, polls[1..]);
        RunResult([c.decision.alerts] + rest.cycles, rest.final, rest.shutDown)
  }

  /** Folding one more poll after a fold that did not stop adds that poll's step. */
  lemma {:induction false} FoldSnoc(step: (LoopState, Poll) -> CycleResult, s: LoopState, polls: seq<Poll>, p: Poll)
    requires !Fold(step, s, polls).shutDown
    ensures var r := Fold(step, s, polls);
            var c := step(r.final, p);
            Fold(step, s, polls + [p]) == RunResult(r.cycles + [c.decision.alerts], c.next, c.decision.stop)
    decreases |polls|
  {
    if polls == [] {
      assert (polls + [p])[1..] == [];
    } else {
      var c := step(s, polls[0]);
      assert (polls + [p])[0] == polls[0];
      assert (polls + [p])[1..] == polls[1..] + [p];
      FoldSnoc(step, c.next, polls[1..], p);
    }
  }

  /** Once a fold has stopped, later polls change nothing. */
  lemma {:induction false} FoldStopsEarly(step: (LoopState, Poll) -> CycleResult, s: LoopState, polls: seq<Poll>, later: seq<Poll>)
    requires Fold(step, s, polls).shutDown
    ensures Fold(step, s, polls + later) == Fold(step, s, polls)
    decreases |polls|
  {
    var c := step(s, polls[0]);
    assert (polls + later)[0] == polls[0];
    if !c.decision.stop {
      assert (polls + later)[1..] == polls[1..] + later;
      FoldStopsEarly(step, c.next, polls[1..], later);
    }
  }

  /** The fold over the first i + 1 polls is the fold over the first i followed by the step on poll i. */
  lemma FoldPrefixStep(step: (LoopState, Poll) -> CycleResult, s: LoopState, polls: seq<Poll>, i: nat)
    requires i < |polls| && !Fold(step, s, polls[..i]).shutDown
    ensures var r := Fold(step, s, polls[..i]);
            var c := step(r.final, polls[i]);
            Fold(step, s, polls[..i + 1]) == RunResult(r.cycles + [c.decision.alerts], c.next, c.decision.stop)
  {
    FoldSnoc(step, s, polls[..i], polls[i]);
    assert polls[..i + 1] == polls[..i] + [polls[i]];
  }

  /** A prefix fold that used up the polls or stopped is the whole fold. */
  lemma FoldPrefixFinished(step: (LoopState, Poll) -> CycleResult, s: LoopState, polls: seq<Poll>, i: nat)
    requires i <= |polls|
    requires i == |polls| || Fold(step, s, polls[..i]).shutDown
    ensures Fold(step, s, polls) == Fold(step, s, polls[..i])
  {
    if i < |polls| {
      FoldStopsEarly(step, s, polls[..i], polls[i..]);
      assert polls[..i] + polls[i..] == polls;
    } else {
      assert polls[..i] == polls;
    }
  }

  /** One cycle of the monitor for this address, as a step of the loop. */
  function Step(address: string): (LoopState, Poll) -> CycleResult {
    (t: LoopState, p: Poll) => Cycle(address, t, p)
  }

  /** The monitor's loop over a finite sequence of polls: the alerts of each cycle, the final state, and whether it exited. */
  function Run(address: string, s: LoopState, polls: seq<Poll>): RunResult {
    Fold(Step(address), s, polls)
  }

  /** A step that sends the critical alert, alone, exactly when it stops. */
  ghost predicate CriticalOnlyAtStop(step: (LoopState, Poll) -> CycleResult) {
    forall t: LoopState, p: Poll ::
      var c := step(t, p);
      (c.decision.stop ==> c.decision.alerts == [RpcUnreachable]) && (!c.decision.stop ==> RpcUnreachable !in c.decision.alerts)
  }

  /** A fold of such a step sends the critical alert once, as the only alert of its last cycle, and only when it stops. */
  lemma {:induction false} FoldCriticalAlertOnlyAtExit(step: (LoopState, Poll) -> CycleResult, s: LoopState, polls: seq<Poll>)
    requires CriticalOnlyAtStop(step)
    ensures var r := Fold(step, s, polls);
            forall i :: 0 <= i < |r.cycles| ==> (RpcUnreachable in r.cycles[i] <==> r.shutDown && i == |r.cycles| - 1)
    ensures var r := Fold(step, s, polls);
            r.shutDown ==> r.cycles[|r.cycles| - 1] == [RpcUnreachable]
    decreases |polls|
  {
    if polls != [] {
      var c := step(s, polls[0]);
      if !c.decision.stop {
        FoldCriticalAlertOnlyAtExit(step, c.next, polls[1..]);
        var rest := Fold(step, c.next, polls[1..]);
        var r := Fold(step, s, polls);
        assert r.cycles == [c.decision.alerts] + rest.cycles;
        forall i | 1 <= i < |r.cycles| ensures r.cycles[i] == rest.cycles[i - 1] { }
      }
    }
  }

  /** A monitor cycle sends the critical alert, alone, exactly when the loop exits. */
  lemma StepCriticalOnlyAtStop(address: string)
    ensures CriticalOnlyAtStop(Step(address))
  {
    forall t: LoopState, p: Poll
      ensures var c := Step(address)(t, p);
              (c.decision.stop ==> c.decision.alerts == [RpcUnreachable]) && (!c.decision.stop ==> RpcUnreachable !in c.decision.alerts)
    {
      assert Step(address)(t, p) == Cycle(address, t, p);
    }
  }

  /** The critical alert is sent exactly once, as the only alert of the last cycle, and only when the loop exits. */
  lemma RunCriticalAlertOnlyAtExit(address: string, s: LoopState, polls: seq<Poll>)
    ensures var r := Run(address, s, polls);
            forall i :: 0 <= i < |r.cycles| ==> (RpcUnreachable in r.cycles[i] <==> r.shutDown && i == |r.cycles| - 1)
    ensures var r := Run(address, s, polls);
            r.shutDown ==> r.cycles[|r.cycles| - 1] == [RpcUnreachable]
  {
    StepCriticalOnlyAtStop(address);
    FoldCriticalAlertOnlyAtExit(Step(address), s, polls);
  }

  /** If the loop starts in the invariant, the invariant holds after every run that did not exit. */
  lemma {:induction false} RunKeepsInvariant(address: string, s: LoopState, polls: seq<Poll>)
    requires LoopInvariant(s)
    ensures var r := Run(address, s, polls);
            !r.shutDown ==> LoopInvariant(r.final) && s.lastHeight <= r.final.lastHeight
    ensures Ascending(Run(address, s, polls).final.window)
    decreases |polls|
  {
    if polls != [] {
      var c := Cycle(address, s, polls[0]);
      CycleKeepsInvariant(address, s, polls[0]);
      if !c.decision.stop {
        RunKeepsInvariant(address, c.next, polls[1..]);
      }
    }
  }

  /** A poll where both the status requests and the latest-block request fail. */
  predicate Unreachable(p: Poll) {
    p.status.StatusUnreachable? && p.latest.LatestUnreachable?
  }

  /** Enough consecutive unreachable polls make the loop exit on the fifth failure in a row. */
  lemma {:induction false} UnreachableShutsDown(address: string, s: LoopState, polls: seq<Poll>)
    requires s.failures < MaxFailures
    requires MaxFailures - s.failures <= |polls|
    requires forall j :: 0 <= j < MaxFailures - s.failures ==> Unreachable(polls[j])
    ensures Run(address, s, polls).shutDown
    ensures |Run(address, s, polls).cycles| == MaxFailures - s.failures
    decreases MaxFailures - s.failures
  {
    var c := Cycle(address, s, polls[0]);
    assert Unreachable(polls[0]);
    assert c.decision.failures == s.failures + 1;
    if !c.decision.stop {
      forall j | 0 <= j < MaxFailures - c.next.failures ensures Unreachable(polls[1..][j]) {
        assert polls[1..][j] == polls[j + 1];
      }
      UnreachableShutsDown(address, c.next, polls[1..]);
    }
  }

  /** The loop never exits sooner than after 5 - failures cycles: every exit needs five failures in a row. */
  lemma {:induction false} ShutDownNeedsFailures(address: string, s: LoopState, polls: seq<Poll>)
    ensures var r := Run(address, s, polls);
            r.shutDown ==> |r.cycles| >= MaxFailures - s.failures
    decreases |polls|
  {
    if polls != [] {
      var c := Cycle(address, s, polls[0]);
      if !c.decision.stop {
        ShutDownNeedsFailures(address, c.next, polls[1..]);
      }
    }
  }

  /** A run that exits in a state without failures lasted at least five cycles and sent the critical alert last, and only then. */
  lemma ExitedRunEndsInCriticalAlert(address: string, s: LoopState, polls: seq<Poll>)
    requires s.failures == 0
    ensures var r := Run(address, s, polls);
            r.shutDown ==> |r.cycles| >= MaxFailures && r.cycles[|r.cycles| - 1] == [RpcUnreachable]
    ensures var r := Run(address, s, polls);
            forall i :: 0 <= i < |r.cycles| && (!r.shutDown || i < |r.cycles| - 1) ==> RpcUnreachable !in r.cycles[i]
  {
    RunCriticalAlertOnlyAtExit(address, s, polls);
    ShutDownNeedsFailures(address, s, polls);
  }

  /** The fields of union-monitor.py's MonitorState. */
  class MonitorState {
    var lastHeight: int
    var missedSinceLastAlert: int
    var totalMissed: int
    var totalBlocks: int
    var avgBlockTime: real
    var active: bool
    var catchingUp: bool
    var votingPower: Option<int>
    var totalVotingPower: Option<int>
    var rank: Option<nat>
    var jailed: bool
    var delegatorCount: Option<int>
    var uptime: Option<real>

    constructor()
      ensures lastHeight == 0 && missedSinceLastAlert == 0 && totalMissed == 0 && totalBlocks == 0
      ensures avgBlockTime == 0.0 && !active && !catchingUp && !jailed
      ensures votingPower.None? && totalVotingPower.None? && rank.None? && delegatorCount.None? && uptime.None?
    {
      lastHeight := 0;
      missedSinceLastAlert := 0;
      totalMissed := 0;
      totalBlocks := 0;
      avgBlockTime := 0.0;
      active := false;
      catchingUp := false;
      votingPower := None;
      totalVotingPower := None;
      rank := None;
      jailed := false;
      delegatorCount := None;
      uptime := None;
    }

    /** The status fields hold this snapshot, as `/status` displays them. */
    ghost predicate Shows(snap: Snapshot)
      reads this
    {
      && active == snap.active && catchingUp == snap.catchingUp
      && votingPower == snap.votingPower && totalVotingPower == snap.totalVotingPower
      && rank == snap.rank && jailed == snap.jailed && delegatorCount == snap.delegatorCount
    }

    /** The part of the state that carries over between cycles, with the loop's local failure counter. */
    function Carried(window: MissedWindow, failures: nat): LoopState
      requires window.Valid()
      reads this, window
    {
      LoopState(lastHeight, window.events, failures, missedSinceLastAlert)
    }
  }

  /** Copy the fetched snapshot and report into the state and compute the uptime. */
  method Record(st: MonitorState, snap: Snapshot, report: ScanReport)
    modifies st
    ensures st.active == snap.active && st.catchingUp == snap.catchingUp
    ensures st.votingPower == snap.votingPower && st.totalVotingPower == snap.totalVotingPower
    ensures st.rank == snap.rank && st.jailed == snap.jailed && st.delegatorCount == snap.delegatorCount
    ensures st.totalMissed == report.totalMissed && st.avgBlockTime == report.avgBlockTime
    ensures st.uptime == Some(Uptime(report.totalMissed))
    ensures st.lastHeight == old(st.lastHeight) && st.missedSinceLastAlert == old(st.missedSinceLastAlert)
    ensures st.totalBlocks == old(st.totalBlocks)
  {
    st.active := snap.active;
    st.catchingUp := snap.catchingUp;
    st.votingPower := snap.votingPower;
    st.totalVotingPower := snap.totalVotingPower;
    st.rank := snap.rank;
    st.jailed := snap.jailed;
    st.delegatorCount := snap.delegatorCount;
    st.totalMissed := report.totalMissed;
    st.avgBlockTime := report.avgBlockTime;
    st.uptime := Some(Uptime(report.totalMissed));
  }

  /** One iteration of the while-loop body: update the state, send alerts, and say whether to exit. */
  method PollCycle(st: MonitorState, window: MissedWindow, failures: nat, address: string, p: Poll)
    returns (newFailures: nat, alerts: seq<AlertKind>, stop: bool)
    requires window.Valid()
    modifies st, window
    ensures window.Valid()
    ensures var res := Scan(old(window.events), old(st.lastHeight), p.latest, p.blocks);
            var snap := Status(p.status, address);
            && st.active == snap.active && st.catchingUp == snap.catchingUp
            && st.votingPower == snap.votingPower && st.totalVotingPower == snap.totalVotingPower
            && st.rank == snap.rank && st.jailed == snap.jailed && st.delegatorCount == snap.delegatorCount
            && st.totalMissed == res.report.totalMissed && st.avgBlockTime == res.report.avgBlockTime
            && st.uptime == Some(Uptime(res.report.totalMissed))
            && st.totalBlocks == old(st.totalBlocks)
    ensures st.totalMissed == |window.events|
    ensures var c := Cycle(address, old(st.Carried(window, failures)), p);
            && st.Carried(window, newFailures) == c.next
            && alerts == c.decision.alerts && stop == c.decision.stop
  {
    var snap := Status(p.status, address);
    ghost var c := Cycle(address, st.Carried(window, failures), p);
    ghost var last := st.lastHeight;
    ghost var res := Scan(window.events, last, p.latest, p.blocks);
    var report := GetMissedBlocks(st.lastHeight, window, p.latest, p.blocks);
    assert report == res.report && window.events == res.window;
    ghost var d := Decide(failures, st.missedSinceLastAlert, snap, report);
    assert c == CycleResult(LoopState(if d.stop then last else report.currentHeight, window.events,
                                      d.failures, d.missedSinceLastAlert), d);
    Record(st, snap, report);

    if !snap.active && report.missed == -1 {
      newFailures := failures + 1;
      if newFailures >= MaxFailures {
        alerts, stop := [RpcUnreachable], true;
        return;
      }
    } else {
      newFailures := 0;
    }

    alerts := ThresholdAlerts(snap, st.avgBlockTime, st.uptime.value);

    if report.missed > 0 {
      st.missedSinceLastAlert := st.missedSinceLastAlert + report.missed;
      if st.missedSinceLastAlert > MissedAlertBatch {
        alerts := alerts + [MissedBatch];
        st.missedSinceLastAlert := 0;
      }
    }

    st.lastHeight := report.currentHeight;
    stop := false;
  }

  /** The `while True` loop over the polls, until they run out or the loop exits. */
  method PollUntilExit(st: MonitorState, window: MissedWindow, address: string, polls: seq<Poll>)
    returns (cycles: seq<seq<AlertKind>>, shutDown: bool)
    requires window.Valid()
    modifies st, window
    ensures var r := Run(address, old(st.Carried(window, 0)), polls);
            && cycles == r.cycles && shutDown == r.shutDown
            && window.events == r.final.window && st.lastHeight == r.final.lastHeight
            && st.missedSinceLastAlert == r.final.missedSinceLastAlert
    ensures |cycles| > 0 ==>
              && st.Shows(Status(polls[|cycles| - 1].status, address))
              && st.totalMissed == |window.events| && st.uptime == Some(Uptime(|window.events|))
  {
    ghost var init := st.Carried(window, 0);
    var failures: nat := 0;
    cycles, shutDown := [], false;
    var i := 0;
    while i < |polls| && !shutDown
      invariant 0 <= i <= |polls|
      invariant window.Valid()
      invariant var r := Run(address, init, polls[..i]);
                cycles == r.cycles && shutDown == r.shutDown && st.Carried(window, failures) == r.final
      invariant |cycles| == i
      invariant i > 0 ==>
                  && st.Shows(Status(polls[i - 1].status, address))
                  && st.totalMissed == |window.events| && st.uptime == Some(Uptime(|window.events|))
      decreases |polls| - i
    {
      FoldPrefixStep(Step(address), init, polls, i);
      var alerts, stop;
      failures, alerts, stop := PollCycle(st, window, failures, address, polls[i]);
      cycles := cycles + [alerts];
      shutDown := stop;
      i := i + 1;
    }
    FoldPrefixFinished(Step(address), init, polls, i);
  }

  /**
   * monitor(): the startup alert, then the loop over the polls until the
   * fifth consecutive failure. Its result is `Run` from the initial state.
   */
  method Monitor(address: string, initialHeight: int, polls: seq<Poll>)
    returns (startup: seq<AlertKind>, cycles: seq<seq<AlertKind>>, shutDown: bool)
    ensures startup == StartupAlerts(initialHeight)
    ensures var r := Run(address, Initial(initialHeight), polls);
            cycles == r.cycles && shutDown == r.shutDown
    ensures shutDown ==> |cycles| >= MaxFailures && cycles[|cycles| - 1] == [RpcUnreachable]
    ensures forall i :: 0 <= i < |cycles| && (!shutDown || i < |cycles| - 1) ==> RpcUnreachable !in cycles[i]
  {
    var lastHeight := initialHeight;
    startup := [];
    if lastHeight == 0 {
      startup := [StartHeightUnavailable];
    }
    var st := new MonitorState();
    st.lastHeight := lastHeight;
    var window := new MissedWindow();
    ghost var init := Initial(initialHeight);
    assert st.Carried(window, 0) == init;
    ExitedRunEndsInCriticalAlert(address, init, polls);
    cycles, shutDown := PollUntilExit(st, window, address, polls);
  }
}
