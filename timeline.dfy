/** The fixed year timeline of the clicker: one background per year from
    START_YEAR to END_YEAR, and the years at which the banknote count clears. */
module Timeline {

  const START_YEAR: int := 1841
  const END_YEAR: int := 1911
  /** One step per year of the timeline (the length of the background list). */
  const TOTAL_STEPS: int := END_YEAR - START_YEAR + 1
  const RESET_YEARS: set<int> := {1841, 1844, 1845, 1850, 1851, 1863, 1870, 1879, 1891, 1901, 1911}

  /** The index clamp of setBackground: max(0, min(index, len - 1)). */
  function Clamp(index: int, len: int): (r: int)
    ensures 0 <= r
    ensures len >= 1 ==> r < len
    ensures 0 <= index < len ==> r == index
    ensures index < 0 ==> r == 0
    ensures len >= 1 && index >= len ==> r == len - 1
    ensures len <= 0 ==> r == 0
  {
    if index < 0 || len <= 0 then 0 else if index >= len then len - 1 else index
  }

  /** The background index shown once the count is c: the first year before
      any advance, and year number c - 1 afterwards. */
  function BackgroundFor(c: int): int {
    if c <= 0 then 0 else c - 1
  }

  /** Advancing the count to c moves the background onto a reset year and so
      zeroes the banknote count. The first advance (c == 1) never does: its
      background index 0 equals the current one, so the year check is skipped
      although 1841 is a reset year. */
  predicate ResetsAt(c: int) {
    c >= 2 && START_YEAR + (c - 1) in RESET_YEARS
  }

  /** The banknote count after n advances from the start: it rises by one per
      advance and drops to zero on an advance that ResetsAt. */
  function PoundsAfter(n: nat): nat
    decreases n
  {
    if n == 0 then 0 else if ResetsAt(n) then 0 else PoundsAfter(n - 1) + 1
  }

  lemma {:induction false} PoundsAtMostCount(n: nat)
    ensures PoundsAfter(n) <= n
    decreases n
  {
    if n > 0 && !ResetsAt(n) {
      PoundsAtMostCount(n - 1);
    }
  }

  /** k is the most recent point at or before n where the banknote count was
      zero by construction: the start (0) or an advance that ResetsAt. */
  ghost predicate IsLastReset(n: nat, k: nat) {
    k <= n && (k == 0 || ResetsAt(k)) && forall j :: k < j <= n ==> !ResetsAt(j)
  }

  /** Reference characterisation: the banknote count is the number of advances
      since the last reset. */
  lemma {:induction false} PoundsSinceLastReset(n: nat, k: nat)
    requires IsLastReset(n, k)
    ensures PoundsAfter(n) == n - k
    decreases n
  {
    if n > k {
      assert !ResetsAt(n);
      PoundsSinceLastReset(n - 1, k);
    }
  }

  /** The last reset step at or before n, read off RESET_YEARS by hand:
      years 1844, 1845, 1850, 1851, 1863, 1870, 1879, 1891, 1901, 1911 are
      reached at counts 4, 5, 10, 11, 23, 30, 39, 51, 61, 71. */
  function LastResetStep(n: nat): (k: nat)
    ensures k <= n
  {
    if n >= 71 then 71 else if n >= 61 then 61 else if n >= 51 then 51
    else if n >= 39 then 39 else if n >= 30 then 30 else if n >= 23 then 23
    else if n >= 11 then 11 else if n >= 10 then 10 else if n >= 5 then 5
    else if n >= 4 then 4 else 0
  }

  lemma LastResetStepIsLast(n: nat)
    requires n <= TOTAL_STEPS
    ensures IsLastReset(n, LastResetStep(n))
  {
  }

  /** Over the whole timeline the banknote count never exceeds 11, and it
      reaches 11 (after 22 advances, in 1862): one more than MAX_BANKNOTES. */
  lemma PoundsAtMostEleven(n: nat)
    requires n <= TOTAL_STEPS
    ensures PoundsAfter(n) <= 11
    ensures PoundsAfter(22) == 11
  {
    LastResetStepIsLast(n);
    PoundsSinceLastReset(n, LastResetStep(n));
    LastResetStepIsLast(22);
    PoundsSinceLastReset(22, LastResetStep(22));
  }

  /** At the end of the timeline (1911, a reset year) the banknote count is 0. */
  lemma PoundsZeroAtCompletion()
    ensures PoundsAfter(TOTAL_STEPS) == 0
  {
  }
}
