/**
 * The two pieces of telegram_bot/alerts.py with logic in them: the argument
 * check of the /pause command, which sets paused_until, and the missed-block
 * percentage that /status and /missed display. Sending the replies is left
 * out; a command's reply is returned as a `Reply` value.
 */
module TelegramCommands {
  import opened Util
  import opened Config
  import opened PollLoop
  import opened RefactoredLoop

  /** Pauses are limited to 1 .. 24 hours. */
  const MaxPauseHours: nat := 24
  const SecondsPerHour: nat := 3600

  /** The three replies of /pause. */
  datatype Reply =
    | Usage               // "Usage: /pause <hours> (e.g., /pause 2)"
    | OutOfRange          // "Please specify a number between 1 and 24 hours."
    | Paused(hours: nat)  // "Alerts paused for N hour(s)."

  predicate IsDigit(c: char) {
    '0' <= c <= '9'
  }

  /** str.isdigit: non-empty, and every character a digit. */
  predicate IsDigits(s: string)
    ensures IsDigits(s) ==> forall i :: 0 <= i < |s| ==> s[i] != '-' && s[i] != '+' && s[i] != '.' && s[i] != ' '
  {
    |s| > 0 && forall i :: 0 <= i < |s| ==> IsDigit(s[i])
  }

  /** int() of a string of digits: its decimal value; leading zeros are allowed. */
  function DecimalValue(s: string): (n: nat)
    requires forall i :: 0 <= i < |s| ==> IsDigit(s[i])
    ensures n == 0 <==> forall i :: 0 <= i < |s| ==> s[i] == '0'
  {
    if s == [] then 0
    else
      assert IsDigit(s[|s| - 1]);
      var init := s[..|s| - 1];
      assert forall i :: 0 <= i < |init| ==> init[i] == s[i];
      DecimalValue(init) * 10 + (s[|s| - 1] as int - '0' as int)
  }

  /** The decimal digits of n, without leading zeros. */
  function DecimalString(n: nat): (s: string)
    ensures IsDigits(s)
  {
    var d := [(n % 10 + '0' as int) as char];
    if n < 10 then d else DecimalString(n / 10) + d
  }

  /** Reading the digits of n gives back n. */
  lemma {:induction false} DecimalRoundTrip(n: nat)
    ensures DecimalValue(DecimalString(n)) == n
  {
    var s := DecimalString(n);
    if n >= 10 {
      DecimalRoundTrip(n / 10);
      assert s[..|s| - 1] == DecimalString(n / 10);
    }
  }

  /** The reply /pause gives for its arguments. */
  function PauseReply(args: seq<string>): (r: Reply)
    ensures r.Usage? <==> args == [] || !IsDigits(args[0])
    ensures r.OutOfRange? <==> args != [] && IsDigits(args[0]) && !(1 <= DecimalValue(args[0]) <= MaxPauseHours)
    ensures r.Paused? ==> args != [] && IsDigits(args[0]) && r.hours == DecimalValue(args[0]) && 1 <= r.hours <= MaxPauseHours
  {
    if args == [] || !IsDigits(args[0]) then Usage
    else
      var hours := DecimalValue(args[0]);
      if hours <= 0 || hours > MaxPauseHours then OutOfRange else Paused(hours)
  }

  /** Every whole number of hours from 1 to 24, written in decimal, is accepted as that many hours. */
  lemma PauseAcceptsEveryHour(h: nat, rest: seq<string>)
    requires 1 <= h <= MaxPauseHours
    ensures PauseReply([DecimalString(h)] + rest) == Paused(h)
  {
    DecimalRoundTrip(h);
  }

  /** An argument with a sign or a decimal point is not all digits, so it only gets the usage reply. */
  lemma PauseRejectsNonDigits(arg: string, rest: seq<string>, i: nat)
    requires i < |arg| && (arg[i] == '-' || arg[i] == '+' || arg[i] == '.')
    ensures PauseReply([arg] + rest) == Usage
  {
    assert ([arg] + rest)[0] == arg;
  }

  /** "0" and "25" are out of range; "007" is seven hours, as int() reads it. */
  lemma PauseBoundaries()
    ensures PauseReply(["0"]) == OutOfRange
    ensures PauseReply(["25"]) == OutOfRange
    ensures PauseReply(["24"]) == Paused(24)
    ensures PauseReply(["007"]) == Paused(7)
    ensures PauseReply([]) == Usage
    ensures PauseReply([""]) == Usage
  {
    assert "25"[..1] == "2";
    assert "24"[..1] == "2";
    assert "007"[..2] == "00" && "00"[..1] == "0";
  }

  /**
   * pause_command: on an accepted argument paused_until becomes now + hours
   * hours, replacing any earlier pause; otherwise it is left as it was.
   */
  method Pause(st: RefactoredLoop.MonitorState, args: seq<string>, now: int) returns (reply: Reply)
    modifies st`pausedUntil
    ensures reply == PauseReply(args)
    ensures reply.Paused? ==> st.pausedUntil == Some(now + reply.hours * SecondsPerHour)
    ensures !reply.Paused? ==> st.pausedUntil == old(st.pausedUntil)
  {
    if |args| == 0 || !IsDigits(args[0]) {
      return Usage;
    }
    var hours := DecimalValue(args[0]);
    if hours <= 0 || hours > MaxPauseHours {
      return OutOfRange;
    }
    st.pausedUntil := Some(now + hours * SecondsPerHour);
    reply := Paused(hours);
  }

  /** missed_percentage in /status and /missed: the share of the slashing window missed, in percent. */
  function MissedPercentage(totalMissed: int): (p: real)
    ensures totalMissed <= 0 ==> p == 0.0
    ensures totalMissed > 0 ==> p + Uptime(totalMissed) == 100.0
    ensures 0 <= totalMissed <= SlashingWindow ==> 0.0 <= p <= 100.0
    ensures p > SlashingThreshold * 100.0 <==> Uptime(totalMissed) < MissRateLimit
  {
    if totalMissed > 0 then totalMissed as real / SlashingWindow as real * 100.0 else 0.0
  }
}
