/**
 * The pure parts of src/pages/IntermediatePage.tsx: how far each of the seven
 * element icons is filled for an overall percentage, and the day/night rule.
 */
module IntermediatePage {

  /** The number of element icons (the length of `elements`). */
  const IconCount: nat := 7
  /** The share of the overall percentage that one icon covers. */
  const PerIcon: real := 100.0 / IconCount as real

  function Clamp(x: real, lo: real, hi: real): (r: real)
    requires lo <= hi
    ensures lo <= r <= hi
    ensures lo <= x <= hi ==> r == x
  {
    if x < lo then lo else if hi < x then hi else x
  }

  /** Percentage at which icon `index` starts to fill. */
  function IconStart(index: int): (start: real)
    ensures index <= 0 ==> start <= 0.0
    ensures IconCount as int <= index ==> 100.0 <= start
  {
    index as real * PerIcon
  }

  /** Percentage at which icon `index` is full. */
  function IconEnd(index: int): (end: real)
    ensures end == IconStart(index) + PerIcon
  {
    (index + 1) as real * PerIcon
  }

  /** `getIconProgress`: the fill of icon `index`, in percent, for overall progress `total`. */
  function IconProgress(index: int, total: real): (r: real)
    ensures 0.0 <= r <= 100.0
    ensures total <= IconStart(index) ==> r == 0.0
    ensures IconEnd(index) <= total ==> r == 100.0
    ensures IconStart(index) < total < IconEnd(index) ==> 0.0 < r < 100.0
  {
    if total <= IconStart(index) then 0.0
    else if total >= IconEnd(index) then 100.0
    else ((total - IconStart(index)) / PerIcon) * 100.0
  }

  /** The fill of one icon is the overall progress, measured in icons and clamped to the icon. */
  lemma IconProgressAsClamp(index: int, total: real)
    ensures IconProgress(index, total) == 100.0 * Clamp(total / PerIcon - index as real, 0.0, 1.0)
  {
  }

  /** For a fixed icon, more overall progress never empties it. */
  lemma IconProgressMonotone(index: int, p: real, q: real)
    requires p <= q
    ensures IconProgress(index, p) <= IconProgress(index, q)
  {
  }

  /** For fixed overall progress, an earlier icon is at least as full as a later one. */
  lemma IconProgressEarlierFirst(i: int, j: int, total: real)
    requires i <= j
    ensures IconProgress(j, total) <= IconProgress(i, total)
  {
  }

  /** Total fill, in percent, of icons 0 .. n-1. */
  function SumIcons(n: nat, total: real): (sum: real)
    ensures 0.0 <= sum <= 100.0 * n as real
  {
    if n == 0 then 0.0 else SumIcons(n - 1, total) + IconProgress(n - 1, total)
  }

  lemma {:induction false} SumIconsClamp(n: nat, total: real)
    ensures SumIcons(n, total) == 100.0 * Clamp(total / PerIcon, 0.0, n as real)
  {
    if n > 0 {
      SumIconsClamp(n - 1, total);
      IconProgressAsClamp(n - 1, total);
    }
  }

  /** Rescaling from icons to percent: seven icons of 100/7 percent each. */
  lemma ClampIconsToPercent(total: real)
    ensures 100.0 * Clamp(total * 7.0 / 100.0, 0.0, 7.0) == 7.0 * Clamp(total, 0.0, 100.0)
  {
    if total < 0.0 {
      assert total * 7.0 / 100.0 < 0.0;
    } else if 100.0 < total {
      assert 7.0 < total * 7.0 / 100.0;
    }
  }

  /** The seven icons together show exactly the overall percentage, clamped to [0, 100]. */
  lemma IconsShowTotal(total: real)
    ensures SumIcons(IconCount, total) == IconCount as real * Clamp(total, 0.0, 100.0)
  {
    SumIconsClamp(IconCount, total);
    assert total / PerIcon == total * 7.0 / 100.0;
    ClampIconsToPercent(total);
  }

  const MsPerHour: int := 60 * 60 * 1000
  /** The page shifts the clock by eight hours to read UTC+8. */
  const Utc8OffsetMs: int := 8 * MsPerHour

  /** `getUTCHours` of a time value in milliseconds since the epoch (floor division, then modulo 24). */
  function UtcHour(timeMs: int): (h: int)
    ensures 0 <= h < 24
  {
    (timeMs / MsPerHour) % 24
  }

  /** The hour in UTC+8 that `checkDaytime` reads. */
  function Utc8Hour(nowMs: int): (h: int)
    ensures 0 <= h < 24
    ensures h == (UtcHour(nowMs) + 8) % 24
  {
    assert (nowMs + Utc8OffsetMs) / MsPerHour == nowMs / MsPerHour + 8;
    UtcHour(nowMs + Utc8OffsetMs)
  }

  /** The hour rule inside `checkDaytime`. */
  predicate IsDaytimeHour(hour: int)
  {
    hour >= 6 && hour < 18
  }

  /** Of any two hours twelve apart on the clock, exactly one is daytime. */
  lemma DaytimeHourFlips(h: int)
    requires 0 <= h < 24
    ensures IsDaytimeHour(h) != IsDaytimeHour((h + 12) % 24)
  {
  }

  /** `checkDaytime`: daytime from 06:00 to 18:00 in UTC+8, that is 22:00 to 10:00 in UTC. */
  function IsDaytime(nowMs: int): (r: bool)
    ensures r <==> 22 <= UtcHour(nowMs) || UtcHour(nowMs) < 10
  {
    IsDaytimeHour(Utc8Hour(nowMs))
  }

  /** Day and night each last twelve hours: twelve hours later the mode has flipped. */
  lemma DaytimeFlipsAfterTwelveHours(nowMs: int)
    ensures IsDaytime(nowMs + 12 * MsPerHour) == !IsDaytime(nowMs)
  {
    var q := nowMs / MsPerHour;
    assert (nowMs + 12 * MsPerHour) / MsPerHour == q + 12;
    assert UtcHour(nowMs + 12 * MsPerHour) == (q % 24 + 12) % 24;
  }
}
