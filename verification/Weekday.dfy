/** Weekday offsets of calendar phrases (crates/tinyagents-harness-tools/src/time_parse.rs). */
module Weekday {

  datatype Direction = Next | This | Last | Since

  /** Days from today, a `current` weekday, to the `target` weekday; Monday is 0. */
  function DayOffset(direction: Direction, current: int, target: int): int {
    match direction
    case Next => var ahead := (target - current) % 7; if ahead == 0 then 7 else ahead
    case This => target - current
    case Last => var behind := (current - target) % 7; if behind == 0 then -7 else -behind
    case Since => -((current - target) % 7)
  }

  predicate IsTarget(current: int, target: int, days: int) {
    (current + days) % 7 == target
  }

  /** Two days apart by less than a week that fall on one weekday are the same day. */
  lemma SameWeekday(a: int, b: int)
    requires a % 7 == b % 7 && -7 < a - b < 7
    ensures a == b
  {
  }

  /** Days on the target weekday closer than a week to each other are the same day. */
  lemma OneTargetPerWeek(current: int, target: int, a: int, b: int)
    requires IsTarget(current, target, a) && IsTarget(current, target, b) && -7 < a - b < 7
    ensures a == b
  {
    SameWeekday(current + a, current + b);
  }

  /** "Next" is the first such day strictly after today. */
  lemma NextIsNearest(current: int, target: int, days: int)
    requires 0 <= current < 7 && 0 <= target < 7
    ensures var offset := DayOffset(Next, current, target);
      && 1 <= offset <= 7 && IsTarget(current, target, offset)
      && (days > 0 && IsTarget(current, target, days) ==> offset <= days)
  {
    var offset := DayOffset(Next, current, target);
    if 0 < days < offset && IsTarget(current, target, days) && IsTarget(current, target, offset) {
      OneTargetPerWeek(current, target, days, offset);
    }
  }

  /** "Last" is the last such day strictly before today. */
  lemma LastIsNearest(current: int, target: int, days: int)
    requires 0 <= current < 7 && 0 <= target < 7
    ensures var offset := DayOffset(Last, current, target);
      && -7 <= offset <= -1 && IsTarget(current, target, offset)
      && (days < 0 && IsTarget(current, target, days) ==> days <= offset)
  {
    var offset := DayOffset(Last, current, target);
    if offset < days < 0 && IsTarget(current, target, days) && IsTarget(current, target, offset) {
      OneTargetPerWeek(current, target, days, offset);
    }
  }

  /** "Since" is the last such day up to today. */
  lemma SinceIsNearest(current: int, target: int, days: int)
    requires 0 <= current < 7 && 0 <= target < 7
    ensures var offset := DayOffset(Since, current, target);
      && -6 <= offset <= 0 && IsTarget(current, target, offset)
      && (days <= 0 && IsTarget(current, target, days) ==> days <= offset)
  {
    var offset := DayOffset(Since, current, target);
    if offset < days <= 0 && IsTarget(current, target, days) && IsTarget(current, target, offset) {
      OneTargetPerWeek(current, target, days, offset);
    }
  }

  /** "This" is the one such day of the current week. */
  lemma ThisIsInWeek(current: int, target: int, days: int)
    requires 0 <= current < 7 && 0 <= target < 7
    ensures IsTarget(current, target, days) && 0 <= current + days < 7 <==> days == DayOffset(This, current, target)
  {
  }
}
