/**
 * Calendar dates as business-day ordinals: day n + 1 is the business day after day n,
 * so counting and offsetting business days is integer arithmetic.
 */
module Dates {
  type Date = int

  /** Business days in [start, end); negative when end comes first. */
  function BusdaysBetween(start: Date, end: Date): int {
    end - start
  }

  /** The business day `days` business days after `date`. */
  function BusdaysOffset(date: Date, days: int): Date {
    date + days
  }
}
