/** Signal levels: how many of its bars a reading fills (3GPP TS 27.007, section 8.69). */
module SignalLevel {

  datatype Kind = Gsm | Cdma | Lte | Wcdma | TdScdma | Nr
  datatype Bars = Four | Five

  const SIGNAL_RSSI_MAXIMUM := -1
  const SIGNAL_LEVEL_UNSET := -1
  const SIGNAL_LEVEL_INVALID := 0

  function Top(b: Bars): int { if b.Four? then 4 else 5 }

  function Table(k: Kind, b: Bars): (t: seq<int>)
    ensures |t| == Top(b) + 1 && Ascending(t)
  {
    match (k, b)
    case (Gsm, Five) => [-110, -109, -103, -97, -91, -85]
    case (Cdma, Five) => [-113, -112, -106, -99, -92, -85]
    case (Lte, Five) => [-121, -120, -115, -110, -105, -97]
    case (Wcdma, Five) => [-113, -112, -105, -99, -93, -87]
    case (TdScdma, Five) => [-112, -111, -105, -99, -93, -87]
    case (Nr, Five) => [-121, -120, -115, -110, -105, -97]
    case (Gsm, Four) => [-110, -103, -97, -91, -85]
    case (Cdma, Four) => [-113, -106, -99, -92, -85]
    case (Lte, Four) => [-121, -115, -109, -103, -97]
    case (Wcdma, Four) => [-113, -105, -99, -93, -87]
    case (TdScdma, Four) => [-112, -105, -99, -93, -87]
    case (Nr, Four) => [-121, -115, -109, -103, -97]
  }

  predicate Ascending(t: seq<int>) {
    forall i, j | 0 <= i < j < |t| :: t[i] < t[j]
  }

  /** The scan from `top` down to the first threshold that is met. */
  function Level(t: seq<int>, top: int, reading: int): int
    requires -1 <= top < |t|
    decreases top + 1
  {
    if top < 0 then SIGNAL_LEVEL_INVALID
    else if reading >= t[top] then top
    else Level(t, top - 1, reading)
  }

  /** The level loop shared by the six signal classes. */
  method ScanLevel(t: seq<int>, top: int, reading: int) returns (level: int)
    requires -1 <= top < |t|
    ensures level == Level(t, top, reading)
  {
    level := SIGNAL_LEVEL_INVALID;
    var i := top;
    while i >= 0
      invariant -1 <= i <= top && level == SIGNAL_LEVEL_INVALID
      invariant Level(t, top, reading) == Level(t, i, reading)
    {
      if reading >= t[i] {
        level := i;
        break;
      }
      i := i - 1;
    }
  }

  /** The level is the greatest index whose threshold is met, or zero if none is. */
  lemma {:induction false} LevelIsGreatestMet(t: seq<int>, top: int, reading: int)
    requires -1 <= top < |t|
    ensures var level := Level(t, top, reading);
            && 0 <= level && (top >= 0 ==> level <= top)
            && (level == 0 || reading >= t[level])
            && forall j | level < j <= top :: reading < t[j]
    decreases top + 1
  {
    if top >= 0 && reading < t[top] {
      LevelIsGreatestMet(t, top - 1, reading);
    }
  }

  /** How many of the thresholds with index 1 up to `n` are met. */
  function Met(t: seq<int>, n: nat, reading: int): nat
    requires n < |t|
  {
    if n == 0 then 0 else Met(t, n - 1, reading) + if reading >= t[n] then 1 else 0
  }

  /** On an ascending table the level counts the thresholds above the lowest that are met. */
  lemma {:induction false} LevelCountsThresholds(t: seq<int>, n: nat, reading: int)
    requires n < |t| && Ascending(t)
    ensures Level(t, n, reading) == Met(t, n, reading)
  {
    if n > 0 {
      LevelCountsThresholds(t, n - 1, reading);
    }
  }

  /** A stronger reading never has a lower level. */
  lemma LevelIsMonotone(t: seq<int>, top: int, reading: int, stronger: int)
    requires -1 <= top < |t| && reading <= stronger
    ensures Level(t, top, reading) <= Level(t, top, stronger)
  {
    LevelIsGreatestMet(t, top, reading);
    LevelIsGreatestMet(t, top, stronger);
  }

  function LevelOf(k: Kind, b: Bars, reading: int): int {
    Level(Table(k, b), Top(b), reading)
  }

  /** GetSignalLevel: a level that was set explicitly wins; an invalid reading has none. */
  function SignalLevelOf(k: Kind, b: Bars, setLevel: int, reading: int): int {
    if setLevel != SIGNAL_LEVEL_UNSET then setLevel
    else if reading < SIGNAL_RSSI_MAXIMUM then LevelOf(k, b, reading)
    else SIGNAL_LEVEL_INVALID
  }

  /** Both settings of a kind begin and end with the same threshold, and the first of five bars is
      filled one dB above the lowest.  LTE and NR share their tables, and with four bars these rise
      by the same step from bar to bar. */
  lemma TableShape(k: Kind)
    ensures var t4, t5 := Table(k, Four), Table(k, Five); t4[0] == t5[0] && t4[4] == t5[5] && t5[1] == t5[0] + 1
    ensures Table(Lte, Four) == Table(Nr, Four) && Table(Lte, Five) == Table(Nr, Five)
    ensures forall i | 0 <= i <= 4 :: Table(Lte, Four)[i] == -121 + 6 * i
  {
  }

  /** The lowest reading that fills a bar when there are five. */
  function FirstBar(k: Kind): int { Table(k, Five)[1] }

  /** The two settings give a reading the same level exactly when it fills no bar at all; from
      the first bar on, five bars always show more than four. */
  lemma SettingsDiffer(k: Kind, reading: int)
    ensures LevelOf(k, Four, reading) <= LevelOf(k, Five, reading)
    ensures LevelOf(k, Four, reading) == LevelOf(k, Five, reading) <==> reading < FirstBar(k)
  {
    var t4, t5 := Table(k, Four), Table(k, Five);
    var l4, l5 := LevelOf(k, Four, reading), LevelOf(k, Five, reading);
    LevelIsGreatestMet(t4, 4, reading);
    LevelIsGreatestMet(t5, 5, reading);
    assert t5[1] <= t4[1] && t5[2] <= t4[1] && t5[3] <= t4[2] && t5[4] <= t4[3] && t5[5] <= t4[4];
    assert l4 > 0 ==> reading >= t5[l4 + 1];
  }
}
