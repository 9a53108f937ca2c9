/**
 * Wall-clock deadlines of a turn (crates/tinyagents-harness/src/turn_deadline.rs and
 * crates/tinyagents-harness/src/turn_policy.rs). Durations and instants are nanoseconds.
 */
module TurnDeadline {
  import opened Text
  import opened Decimal

  const SECOND: nat := 1_000_000_000
  const MILLISECOND: nat := 1_000_000
  const U64_MAX: nat := 0xFFFF_FFFF_FFFF_FFFF

  const DEFAULT_TURN_BACKSTOP_SECS: nat := 900
  const WIND_DOWN_MARGIN: nat := 120 * SECOND
  const HARD_STOP_MARGIN: nat := 60 * SECOND
  const CLOSE_RESERVE: nat := 10 * SECOND
  const DEFAULT_AGENT_TURN_TIMEOUT_SECS: nat := 3_600
  const LOCAL_AGENT_TURN_TIMEOUT_SECS: nat := 14_400
  const LOCAL_WEB_TURN_BACKSTOP_GRACE_SECS: nat := 300

  function Min(a: nat, b: nat): nat {
    if a <= b then a else b
  }

  /** `str::parse::<u64>`: digits behind an optional plus sign, within range. */
  function ParseU64(s: string): Option<nat> {
    if s != [] && s[0] == '+' then ParseDigits(s[1..], U64_MAX) else ParseDigits(s, U64_MAX)
  }

  function SecondsOr(value: Option<string>, default: nat): nat {
    if value.None? then default
    else match ParseU64(Trim(value.value)) case Some(secs) => secs case None => default
  }

  function ParseBackstop(value: Option<string>): Option<nat> {
    var secs := SecondsOr(value, DEFAULT_TURN_BACKSTOP_SECS);
    if secs > 0 then Some(secs * SECOND) else None
  }

  // ------------------------------------------------------------- the deadline

  datatype Deadline = Deadline(started: nat, backstop: nat) {

    function WindDownAfter(): nat {
      SaturatingSub(backstop, Min(WIND_DOWN_MARGIN, backstop / 5))
    }

    function HardStopAfter(): nat {
      SaturatingSub(backstop, Min(HARD_STOP_MARGIN, backstop / 10))
    }

    function ElapsedAt(now: nat): nat {
      SaturatingSub(now, started)
    }

    function HardStopRemaining(now: nat): nat {
      SaturatingSub(HardStopAfter(), ElapsedAt(now))
    }

    function CloseBudget(now: nat): nat {
      SaturatingSub(SaturatingSub(backstop, ElapsedAt(now)), CLOSE_RESERVE)
    }

    /** The ceiling in milliseconds, cut to end at the hard stop but never to zero. */
    function ClampWallClockMs(configuredMs: Option<nat>, now: nat): nat {
      var remainingMs := Min(HardStopRemaining(now) / MILLISECOND, U64_MAX);
      var atLeastOne := if remainingMs < 1 then 1 else remainingMs;
      if configuredMs.None? then atLeastOne else Min(configuredMs.value, atLeastOne)
    }
  }

  /** The two stop points are strictly ordered before the backstop exactly from ten
      nanoseconds on; shorter backstops lose a margin to truncating division. */
  lemma StopPointsAreOrdered(d: Deadline)
    ensures d.WindDownAfter() < d.HardStopAfter() < d.backstop <==> d.backstop >= 10
  {
    var b := d.backstop;
    if b < 10 {
      assert b / 10 == 0;
    } else {
      assert b / 10 >= 1 && b / 5 >= 2 * (b / 10);
    }
  }

  /** Not every positive backstop leaves a margin. */
  lemma ShortBackstopHasNoMargin()
    ensures var d := Deadline(0, 9); d.HardStopAfter() == d.backstop
    ensures var d := Deadline(0, 4); d.WindDownAfter() == d.backstop
  {
  }

  /** Every backstop that parsing can return is far above that bound. */
  lemma ParsedBackstopIsOrdered(value: Option<string>, started: nat)
    requires ParseBackstop(value).Some?
    ensures var d := Deadline(started, ParseBackstop(value).value);
            && d.WindDownAfter() < d.HardStopAfter() < d.backstop
            && d.backstop - d.HardStopAfter() >= 100 * MILLISECOND
            && d.HardStopAfter() - d.WindDownAfter() >= 100 * MILLISECOND
  {
    var secs := SecondsOr(value, DEFAULT_TURN_BACKSTOP_SECS);
    var b := secs * SECOND;
    assert b >= SECOND;
    StopPointsAreOrdered(Deadline(started, b));
    assert b / 10 == secs * (SECOND / 10) && b / 5 == secs * (SECOND / 5);
    assert SECOND / 10 == 100 * MILLISECOND && SECOND / 5 == 200 * MILLISECOND;
  }

  // ------------------------------------------------------- ceilings and clamping

  function SaturatingMulU64(a: nat, b: nat): nat {
    Min(a * b, U64_MAX)
  }

  function ParseSecsMs(value: Option<string>, defaultSecs: nat): Option<nat> {
    var secs := SecondsOr(value, defaultSecs);
    if secs > 0 then Some(SaturatingMulU64(secs, 1_000)) else None
  }

  function TurnWallClockMs(value: Option<string>, local: bool): Option<nat> {
    ParseSecsMs(value, if local then LOCAL_AGENT_TURN_TIMEOUT_SECS else DEFAULT_AGENT_TURN_TIMEOUT_SECS)
  }

  function LocalTurnBackstopSecs(value: Option<string>): Option<nat> {
    match TurnWallClockMs(value, true)
    case None => None
    case Some(ms) => Some(ms / 1_000 + LOCAL_WEB_TURN_BACKSTOP_GRACE_SECS)
  }

  lemma TurnCeilingIsPositive(value: Option<string>, local: bool)
    ensures TurnWallClockMs(value, local).Some? ==> 1_000 <= TurnWallClockMs(value, local).value <= U64_MAX
  {
  }

  /** The clamped ceiling is zero only when the configured one is. */
  lemma ClampIsZeroOnlyIfConfigured(d: Deadline, configuredMs: Option<nat>, now: nat)
    ensures d.ClampWallClockMs(configuredMs, now) == 0 <==> configuredMs == Some(0)
  {
  }

  /** What a clamped ceiling can be: zero as configured, the floor of one, or within what is left. */
  lemma ClampCases(d: Deadline, configuredMs: Option<nat>, now: nat)
    ensures var left, ms := d.HardStopRemaining(now), d.ClampWallClockMs(configuredMs, now);
      if configuredMs == Some(0) then ms == 0
      else if left < MILLISECOND then ms == 1
      else ms * MILLISECOND <= left
  {
    var left := d.HardStopRemaining(now);
    if left < MILLISECOND {
      assert left / MILLISECOND == 0;
    } else {
      assert left / MILLISECOND >= 1;
      assert (left / MILLISECOND) * MILLISECOND <= left;
    }
  }

  /** A clamped turn ends after its hard stop exactly when that had already passed, or when less
      than a millisecond was left and the one-millisecond floor applied. */
  lemma ClampOverrunsIff(d: Deadline, configuredMs: Option<nat>, now: nat)
    ensures d.ElapsedAt(now) + d.ClampWallClockMs(configuredMs, now) * MILLISECOND > d.HardStopAfter()
       <==> d.ElapsedAt(now) > d.HardStopAfter()
            || (configuredMs != Some(0) && d.HardStopRemaining(now) < MILLISECOND)
  {
    ClampCases(d, configuredMs, now);
  }

  /** One nanosecond before the hard stop of a ten-second backstop the clamp still grants a whole
      millisecond. */
  lemma ClampCanOverrun()
    ensures var d, now := Deadline(0, 10 * SECOND), 9 * SECOND - 1;
      && d.HardStopAfter() == 9 * SECOND && d.ElapsedAt(now) < d.HardStopAfter()
      && d.ElapsedAt(now) + d.ClampWallClockMs(None, now) * MILLISECOND > d.HardStopAfter()
  {
    ClampOverrunsIff(Deadline(0, 10 * SECOND), None, 9 * SECOND - 1);
  }

  /** Up to the hard stop, a turn started under any parsed ceiling ends before any parsed
      backstop drops it, and always gets some time. */
  lemma TurnEndsBeforeBackstop(backstop: Option<string>, ceiling: Option<string>, local: bool, started: nat, now: nat)
    requires ParseBackstop(backstop).Some?
    requires var d := Deadline(started, ParseBackstop(backstop).value); d.ElapsedAt(now) <= d.HardStopAfter()
    ensures var d := Deadline(started, ParseBackstop(backstop).value);
            var ms := d.ClampWallClockMs(TurnWallClockMs(ceiling, local), now);
            ms >= 1 && d.ElapsedAt(now) + ms * MILLISECOND < d.backstop
  {
    var d := Deadline(started, ParseBackstop(backstop).value);
    var configured := TurnWallClockMs(ceiling, local);
    var ms := d.ClampWallClockMs(configured, now);
    ParsedBackstopIsOrdered(backstop, started);
    TurnCeilingIsPositive(ceiling, local);
    ClampIsZeroOnlyIfConfigured(d, configured, now);
    ClampCases(d, configured, now);
  }

  /** The close may run until the reserve before the backstop, and no later. */
  lemma CloseLeavesReserve(d: Deadline, now: nat)
    ensures d.CloseBudget(now) > 0 ==> d.ElapsedAt(now) + d.CloseBudget(now) + CLOSE_RESERVE == d.backstop
    ensures d.CloseBudget(now) == 0 <==> d.ElapsedAt(now) + CLOSE_RESERVE >= d.backstop
  {
  }

  /** Winding down exactly at its point leaves the close a positive budget whenever a fifth of
      the backstop exceeds the reserve. */
  lemma WindDownFundsClose(d: Deadline, now: nat)
    requires d.ElapsedAt(now) == d.WindDownAfter()
    ensures d.CloseBudget(now) > 0 <==> d.backstop / 5 > CLOSE_RESERVE
  {
  }

  /** The outer backstop of a local turn lies above the harness's own ceiling, whatever the
      override, so the harness's timeout fires first. */
  lemma LocalBackstopExceedsCeiling(value: Option<string>)
    ensures LocalTurnBackstopSecs(value).Some? <==> TurnWallClockMs(value, true).Some?
    ensures LocalTurnBackstopSecs(value).Some? ==>
      && LocalTurnBackstopSecs(value).value * 1_000 > TurnWallClockMs(value, true).value
      && LocalTurnBackstopSecs(value).value <= U64_MAX
  {
  }
}
