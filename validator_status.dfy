/**
 * The pure part of get_validator_status in union-monitor.py: from the node's
 * status and the validator set it fetched, the snapshot the poll loop reads
 * (active flag, sync flag, voting power, total voting power, rank, jailed flag,
 * delegator count). The HTTP requests are replaced by the `StatusFetch` input.
 */
module ValidatorStatus {
  import opened Util

  /** One entry of the validator set: consensus address, voting power, jailed flag. */
  datatype Validator = Validator(address: string, votingPower: int, jailed: bool)

  /** What the status requests gave. */
  datatype StatusFetch =
    | StatusUnreachable
      // any request raised: the function returns (False, None, ..., None)
    | StatusFetched(catchingUp: bool, validators: seq<Validator>, delegatorShares: Option<int>)
      // delegatorShares: the integer part of delegator_shares, None when the REST call was not 200

  /** The values the poll loop copies into its state. A Python None in a flag position reads as false. */
  datatype Snapshot = Snapshot(
    active: bool,
    catchingUp: bool,
    votingPower: Option<int>,
    totalVotingPower: Option<int>,
    rank: Option<nat>,
    jailed: bool,
    delegatorCount: Option<int>)

  /** 10^18: delegator shares are scaled by this. */
  const ShareScale: int := 1_000_000_000_000_000_000

  /** The sum of every validator's voting power. */
  function TotalVotingPower(vals: seq<Validator>): (total: int)
    ensures (forall j :: 0 <= j < |vals| ==> vals[j].votingPower >= 0) ==> total >= 0
  {
    if vals == [] then 0
    else
      var init := vals[..|vals| - 1];
      assert forall j :: 0 <= j < |init| ==> init[j] == vals[j];
      TotalVotingPower(init) + vals[|vals| - 1].votingPower
  }

  /** The sum over a concatenation is the sum of the sums. */
  lemma {:induction false} TotalVotingPowerAppend(a: seq<Validator>, b: seq<Validator>)
    ensures TotalVotingPower(a + b) == TotalVotingPower(a) + TotalVotingPower(b)
    decreases |b|
  {
    if b == [] {
      assert a + b == a;
    } else {
      assert (a + b)[..|a + b| - 1] == a + b[..|b| - 1];
      TotalVotingPowerAppend(a, b[..|b| - 1]);
    }
  }

  /** With no negative voting power, each validator's power is at most the total. */
  lemma {:induction false} TotalBoundsEach(vals: seq<Validator>, i: nat)
    requires i < |vals|
    requires forall j :: 0 <= j < |vals| ==> vals[j].votingPower >= 0
    ensures vals[i].votingPower <= TotalVotingPower(vals)
  {
    var init := vals[..|vals| - 1];
    if i < |vals| - 1 {
      assert init[i] == vals[i];
      TotalBoundsEach(init, i);
    }
  }

  /** The position of the first validator with the given address (Python's next(...) over the set). */
  function FindValidator(vals: seq<Validator>, address: string): (r: Option<nat>)
    ensures r.Some? ==> r.value < |vals| && vals[r.value].address == address
    ensures r.Some? ==> forall j :: 0 <= j < r.value ==> vals[j].address != address
    ensures r.None? ==> forall j :: 0 <= j < |vals| ==> vals[j].address != address
  {
    if vals == [] then None
    else if vals[0].address == address then Some(0)
    else match FindValidator(vals[1..], address)
      case None => None
      case Some(i) => Some(i + 1)
  }

  /**
   * Whether validator j comes before validator i when the set is sorted by voting
   * power in descending order; Python's sort is stable, so equal powers keep
   * their order in the set.
   */
  predicate SortsBefore(vals: seq<Validator>, j: nat, i: nat)
    requires j < |vals| && i < |vals|
  {
    vals[j].votingPower > vals[i].votingPower || (vals[j].votingPower == vals[i].votingPower && j < i)
  }

  /** How many of the first m validators sort before validator i. */
  function CountBefore(vals: seq<Validator>, i: nat, m: nat): nat
    requires i < |vals| && m <= |vals|
  {
    if m == 0 then 0 else CountBefore(vals, i, m - 1) + if SortsBefore(vals, m - 1, i) then 1 else 0
  }

  /** The 1-based position of validator i in the stable descending sort by voting power. */
  function Rank(vals: seq<Validator>, i: nat): (rank: nat)
    requires i < |vals|
    ensures 1 <= rank <= |vals|
  {
    CountBeforeBound(vals, i, |vals|);
    CountBefore(vals, i, |vals|) + 1
  }

  lemma {:induction false} CountBeforeBound(vals: seq<Validator>, i: nat, m: nat)
    requires i < |vals| && m <= |vals|
    ensures CountBefore(vals, i, m) <= (if i < m then m - 1 else m)
  {
    if m > 0 {
      CountBeforeBound(vals, i, m - 1);
    }
  }

  /** Whatever sorts before i also sorts before j when i sorts before j, and i itself does too. */
  lemma {:induction false} CountBeforeMonotone(vals: seq<Validator>, i: nat, j: nat, m: nat)
    requires i < |vals| && j < |vals| && m <= |vals|
    requires SortsBefore(vals, i, j)
    ensures CountBefore(vals, i, m) + (if i < m then 1 else 0) <= CountBefore(vals, j, m)
  {
    if m > 0 {
      CountBeforeMonotone(vals, i, j, m - 1);
    }
  }

  /** A validator that sorts before another has a smaller rank. */
  lemma RankOrder(vals: seq<Validator>, i: nat, j: nat)
    requires i < |vals| && j < |vals|
    requires SortsBefore(vals, i, j)
    ensures Rank(vals, i) < Rank(vals, j)
  {
    CountBeforeMonotone(vals, i, j, |vals|);
  }

  /**
   * Distinct validators have distinct ranks, so the ranks are exactly 1 .. |vals|
   * and give each validator's position in the sorted set.
   */
  lemma RankDistinct(vals: seq<Validator>, i: nat, j: nat)
    requires i < |vals| && j < |vals| && i != j
    ensures Rank(vals, i) != Rank(vals, j)
  {
    if SortsBefore(vals, i, j) {
      RankOrder(vals, i, j);
    } else {
      RankOrder(vals, j, i);
    }
  }

  /** The validator with the most power (earliest among equals) has rank 1. */
  lemma RankOneIsTop(vals: seq<Validator>, i: nat)
    requires i < |vals|
    ensures Rank(vals, i) == 1 <==> forall j :: 0 <= j < |vals| && j != i ==> !SortsBefore(vals, j, i)
  {
    if Rank(vals, i) == 1 {
      forall j | 0 <= j < |vals| && j != i ensures !SortsBefore(vals, j, i) {
        if SortsBefore(vals, j, i) {
          RankOrder(vals, j, i);
        }
      }
    } else {
      var m := |vals|;
      CountNoneBefore(vals, i, m);
    }
  }

  /** If nothing sorts before i, nothing is counted. */
  lemma {:induction false} CountNoneBefore(vals: seq<Validator>, i: nat, m: nat)
    requires i < |vals| && m <= |vals|
    ensures (forall j :: 0 <= j < m && j != i ==> !SortsBefore(vals, j, i)) ==> CountBefore(vals, i, m) == 0
  {
    if m > 0 {
      CountNoneBefore(vals, i, m - 1);
    }
  }

  /** The delegator count: the integer part of the shares floor-divided by 10^18. */
  function DelegatorCount(shares: Option<int>): (r: Option<int>)
    ensures r.None? <==> shares.None?
    ensures shares.Some? ==> r.value * ShareScale <= shares.value < (r.value + 1) * ShareScale
  {
    match shares
    case None => None
    case Some(n) => Some(n / ShareScale)
  }

  /** get_validator_status on the fetched data, for the validator with consensus address `address`. */
  function Status(fetch: StatusFetch, address: string): (s: Snapshot)
    ensures s.votingPower.Some? <==> s.rank.Some?
    ensures s.rank.Some? ==> fetch.StatusFetched? && 1 <= s.rank.value <= |fetch.validators|
    ensures s.totalVotingPower.Some? <==> fetch.StatusFetched?
    ensures s.jailed || s.delegatorCount.Some? ==> s.votingPower.Some?
  {
    match fetch
    case StatusUnreachable => Snapshot(false, false, None, None, None, false, None)
    case StatusFetched(catchingUp, vals, shares) =>
      match FindValidator(vals, address)
      case None => Snapshot(true, catchingUp, None, Some(TotalVotingPower(vals)), None, false, None)
      case Some(i) =>
        Snapshot(true, catchingUp, Some(vals[i].votingPower), Some(TotalVotingPower(vals)),
                 Some(Rank(vals, i)), vals[i].jailed, DelegatorCount(shares))
  }

  /**
   * The snapshot's active flag is true whenever the requests succeeded, also when
   * the validator is missing from the set; only then is the voting power unknown
   * while the flag is true.
   */
  lemma StatusActiveMeansFetched(fetch: StatusFetch, address: string)
    ensures Status(fetch, address).active <==> fetch.StatusFetched?
    ensures Status(fetch, address).active && Status(fetch, address).votingPower.None? <==>
              fetch.StatusFetched? && forall j :: 0 <= j < |fetch.validators| ==> fetch.validators[j].address != address
    ensures fetch.StatusFetched? ==> Status(fetch, address).catchingUp == fetch.catchingUp
    ensures fetch.StatusUnreachable? ==> Status(fetch, address) == Snapshot(false, false, None, None, None, false, None)
  {
  }

  /**
   * A validator found in the set gets its own power, a rank in 1 .. |set|, its own
   * jailed flag, the node's sync flag and the delegator count of the shares.
   */
  lemma StatusOfListedValidator(catchingUp: bool, vals: seq<Validator>, shares: Option<int>, address: string, i: nat)
    requires i < |vals| && vals[i].address == address
    requires forall j :: 0 <= j < i ==> vals[j].address != address
    ensures var s := Status(StatusFetched(catchingUp, vals, shares), address);
            && s.votingPower == Some(vals[i].votingPower)
            && s.rank.Some? && 1 <= s.rank.value <= |vals|
            && s.rank == Some(Rank(vals, i))
            && s.jailed == vals[i].jailed
            && s.totalVotingPower == Some(TotalVotingPower(vals))
            && s.active && s.catchingUp == catchingUp
            && s.delegatorCount == DelegatorCount(shares)
  {
    assert FindValidator(vals, address) == Some(i);
  }
}
