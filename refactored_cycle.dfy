/**
 * The loop body of monitor() in the refactored monitor.py. Its status and
 * missed-block report come from the clients in validator_api/, which are
 * network calls outside this model, so both are inputs here. Compared with
 * union-monitor.py the cycle records one history entry before the failure
 * check and has no sync-status alert.
 */
module RefactoredLoop {
  import opened Util
  import opened Config
  import opened MissedBlocks
  import opened ValidatorStatus
  import opened PollLoop
  import opened HistoryStore

  /** The values validator_api/validator_status.py returns; the trailing uptime is discarded by the loop. */
  datatype StubStatus = StubStatus(
    active: bool,
    votingPower: Option<int>,
    totalVotingPower: Option<int>,
    rank: Option<nat>,
    jailed: bool,
    delegatorCount: Option<int>)

  /** The status as the shared alert checks see it: this loop never checks syncing. */
  function AsSnapshot(s: StubStatus): Snapshot {
    Snapshot(s.active, false, s.votingPower, s.totalVotingPower, s.rank, s.jailed, s.delegatorCount)
  }

  /** monitor.py's cycle never sends the not-synced alert; every other alert is decided as in union-monitor.py. */
  lemma NeverNotSynced(failures: nat, sinceLast: int, s: StubStatus, report: ScanReport)
    ensures NotSynced !in Decide(failures, sinceLast, AsSnapshot(s), report).alerts
  {
    var d := Decide(failures, sinceLast, AsSnapshot(s), report);
    DecideAlerts(failures, sinceLast, AsSnapshot(s), report);
    if !d.stop {
      assert NotSynced in d.alerts ==> Fires(NotSynced, AsSnapshot(s), report.avgBlockTime, Uptime(report.totalMissed));
    }
  }

  /** The fields of monitor.py's MonitorState, with paused_until, which pause_command adds to it. */
  class MonitorState {
    var lastHeight: int
    var missedSinceLastAlert: int
    var totalMissed: int
    var totalBlocks: int
    var avgBlockTime: real
    var active: bool
    var votingPower: Option<int>
    var totalVotingPower: Option<int>
    var rank: Option<nat>
    var jailed: bool
    var delegatorCount: Option<int>
    var uptime: Option<real>
    var slashingWindow: int
    var pausedUntil: Option<int>

    constructor()
      ensures lastHeight == 0 && missedSinceLastAlert == 0 && totalMissed == 0 && totalBlocks == 0
      ensures avgBlockTime == 0.0 && !active && !jailed
      ensures votingPower.None? && totalVotingPower.None? && rank.None? && delegatorCount.None? && uptime.None?
      ensures slashingWindow == SlashingWindow && pausedUntil.None?
    {
      lastHeight := 0;
      missedSinceLastAlert := 0;
      totalMissed := 0;
      totalBlocks := 0;
      avgBlockTime := 0.0;
      active := false;
      votingPower := None;
      totalVotingPower := None;
      rank := None;
      jailed := false;
      delegatorCount := None;
      uptime := None;
      slashingWindow := SlashingWindow;
      pausedUntil := None;
    }
  }

  /** Copy the stubs' values into the state and compute the uptime. */
  method Record(st: MonitorState, s: StubStatus, report: ScanReport)
    modifies st
    ensures st.active == s.active && st.votingPower == s.votingPower && st.totalVotingPower == s.totalVotingPower
    ensures st.rank == s.rank && st.jailed == s.jailed && st.delegatorCount == s.delegatorCount
    ensures st.totalMissed == report.totalMissed && st.avgBlockTime == report.avgBlockTime
    ensures st.uptime == Some(Uptime(report.totalMissed))
    ensures st.lastHeight == old(st.lastHeight) && st.missedSinceLastAlert == old(st.missedSinceLastAlert)
    ensures st.totalBlocks == old(st.totalBlocks) && st.slashingWindow == old(st.slashingWindow)
    ensures st.pausedUntil == old(st.pausedUntil)
  {
    st.active := s.active;
    st.votingPower := s.votingPower;
    st.totalVotingPower := s.totalVotingPower;
    st.rank := s.rank;
    st.jailed := s.jailed;
    st.delegatorCount := s.delegatorCount;
    st.totalMissed := report.totalMissed;
    st.avgBlockTime := report.avgBlockTime;
    st.uptime := Some(Uptime(report.totalMissed));
  }

  /**
   * One iteration of monitor.py's loop: record the values, append
   * (now, total_missed) to the history (also on the cycle that exits), then
   * the failure counter, alerts, accumulator and last_height as in union-monitor.py.
   */
  method RefactoredCycle(st: MonitorState, history: History, failures: nat, s: StubStatus, report: ScanReport, now: int)
    returns (newFailures: nat, alerts: seq<AlertKind>, stop: bool)
    modifies st, history
    ensures history.Contents() == AppendEntry(old(history.Contents()), now, report.totalMissed)
    ensures st.active == s.active && st.votingPower == s.votingPower && st.totalVotingPower == s.totalVotingPower
    ensures st.rank == s.rank && st.jailed == s.jailed && st.delegatorCount == s.delegatorCount
    ensures st.totalMissed == report.totalMissed && st.avgBlockTime == report.avgBlockTime
    ensures st.uptime == Some(Uptime(report.totalMissed))
    ensures st.totalBlocks == old(st.totalBlocks) && st.slashingWindow == old(st.slashingWindow)
    ensures st.pausedUntil == old(st.pausedUntil)
    ensures var d := Decide(failures, old(st.missedSinceLastAlert), AsSnapshot(s), report);
            && newFailures == d.failures && alerts == d.alerts && stop == d.stop
            && st.missedSinceLastAlert == d.missedSinceLastAlert
            && st.lastHeight == (if stop then old(st.lastHeight) else report.currentHeight)
  {
    Record(st, s, report);
    history.Append(now, st.totalMissed);

    if !s.active && report.missed == -1 {
      newFailures := failures + 1;
      if newFailures >= MaxFailures {
        alerts, stop := [RpcUnreachable], true;
        return;
      }
    } else {
      newFailures := 0;
    }

    alerts := ThresholdAlerts(AsSnapshot(s), st.avgBlockTime, st.uptime.value);

    if report.missed > 0 {
      st.missedSinceLastAlert := st.missedSinceLastAlert + report.missed;
      if st.missedSinceLastAlert > MissedAlertBatch {
        alerts := alerts + [MissedBatch];
        st.missedSinceLastAlert := 0;
      }
    }

    st.lastHeight := report.currentHeight;
    stop := false;
  }
}
