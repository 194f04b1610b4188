/** The global bar setting: six threshold tables and the bar count, switched one word at a
    time by `InitSignalBar` and read, while it may be running, by the level scans.

    `InitSignalBar` holds the lock exclusively and the WCDMA scan holds it shared; the
    other five scans take no lock.  Neither do the assignment operators of the six signal
    classes, which load the shared bar count and store it again. */
module SignalBar {
  import opened SignalLevel

  type Thread = nat

  /** The order in which `InitSignalBar` switches the tables; the bar count comes last. */
  const ORDER: seq<Kind> := [Gsm, Cdma, Lte, Wcdma, TdScdma, Nr]

  datatype Writer = NoWriter | Writing(target: Bars, written: nat)

  datatype Progress =
    | Started                                 // about to load the bar count
    | Scanning(i: int, loaded: Bars)          // next index; the bar count loaded at the start
    | Finished(level: int, loaded: Bars)
    | OutOfRange                              // read past the end of the table

  datatype Reader = Reader(kind: Kind, reading: int, progress: Progress)

  datatype State = State(
    four: set<Kind>,                          // kinds whose table is the four-bar one
    bar: Bars,                                // signalBar_
    writer: Writer,
    readers: map<Thread, Reader>,
    copies: map<Thread, Bars>)                // assignments between their load and their store

  datatype Event =
    | BeginWrite(target: Bars)
    | WriteNext
    | EndWrite
    | BeginRead(thread: Thread, kind: Kind, reading: int)
    | LoadBar(thread: Thread)
    | Compare(thread: Thread)
    | LoadCopy(thread: Thread)
    | StoreCopy(thread: Thread)

  /** What a process does: the settings that `InitSignalBar` is called with, and whether signal
      objects are assigned to each other. */
  datatype Use = Use(calls: set<Bars>, copying: bool)

  const INIT := State({}, Five, NoWriter, map[], map[])

  predicate Locked(r: Reader) { r.kind.Wcdma? }

  predicate Active(r: Reader) { r.progress.Started? || r.progress.Scanning? }

  function Installed(four: set<Kind>, k: Kind): Bars { if k in four then Four else Five }

  function Switch(four: set<Kind>, k: Kind, b: Bars): set<Kind> {
    if b.Four? then four + {k} else four - {k}
  }

  /** A scan is reached only with a valid reading. */
  predicate Enabled(use: Use, s: State, e: Event) {
    match e
    case BeginWrite(b) =>
      b in use.calls && s.writer.NoWriter?
      && forall t | t in s.readers :: !(Locked(s.readers[t]) && Active(s.readers[t]))
    case WriteNext => s.writer.Writing? && s.writer.written <= |ORDER|
    case EndWrite => s.writer.Writing? && s.writer.written == |ORDER| + 1
    case BeginRead(t, k, reading) =>
      t !in s.readers && reading < SIGNAL_RSSI_MAXIMUM && (k.Wcdma? ==> s.writer.NoWriter?)
    case LoadBar(t) => t in s.readers && s.readers[t].progress.Started?
    case Compare(t) => t in s.readers && s.readers[t].progress.Scanning?
    case LoadCopy(t) => use.copying && t !in s.copies
    case StoreCopy(t) => t in s.copies
  }

  /** One turn of the scan loop on the table installed for the kind at that moment. */
  function Turn(r: Reader, table: seq<int>): Progress
    requires r.progress.Scanning?
  {
    var i, b := r.progress.i, r.progress.loaded;
    if i < 0 then Finished(SIGNAL_LEVEL_INVALID, b)
    else if i >= |table| then OutOfRange
    else if r.reading >= table[i] then Finished(i, b)
    else Scanning(i - 1, b)
  }

  function Next(use: Use, s: State, e: Event): State
    requires Enabled(use, s, e)
  {
    match e
    case BeginWrite(b) => s.(writer := Writing(b, 0))
    case WriteNext =>
      var n, b := s.writer.written, s.writer.target;
      if n < |ORDER| then s.(four := Switch(s.four, ORDER[n], b), writer := Writing(b, n + 1))
      else s.(bar := b, writer := Writing(b, n + 1))
    case EndWrite => s.(writer := NoWriter)
    case BeginRead(t, k, reading) => s.(readers := s.readers[t := Reader(k, reading, Started)])
    case LoadBar(t) =>
      s.(readers := s.readers[t := s.readers[t].(progress := Scanning(Top(s.bar), s.bar))])
    case Compare(t) =>
      var r := s.readers[t];
      s.(readers := s.readers[t := r.(progress := Turn(r, Table(r.kind, Installed(s.four, r.kind))))])
    case LoadCopy(t) => s.(copies := s.copies[t := s.bar])
    case StoreCopy(t) => s.(bar := s.copies[t], copies := s.copies - {t})
  }

  ghost predicate Run(use: Use, ss: seq<State>, es: seq<Event>) {
    && |ss| == |es| + 1
    && ss[0] == INIT
    && forall i | 0 <= i < |es| :: Enabled(use, ss[i], es[i]) && ss[i + 1] == Next(use, ss[i], es[i])
  }

  /** All tables and the bar count are those of one setting. */
  predicate Settled(s: State, b: Bars) {
    s.bar == b && forall k: Kind :: Installed(s.four, k) == b
  }

  /** A scan that has so far seen only the table it loaded the bar count for. */
  predicate OnTrack(r: Reader) {
    match r.progress
    case Started => true
    case Scanning(i, b) => -1 <= i <= Top(b) && LevelOf(r.kind, b, r.reading) == Level(Table(r.kind, b), i, r.reading)
    case Finished(level, b) => level == LevelOf(r.kind, b, r.reading)
    case OutOfRange => false
  }

  // ----------------------------------------------- the lock, without assignments

  predicate WriterInv(s: State) {
    match s.writer
    case NoWriter => Settled(s, s.bar)
    case Writing(b, n) =>
      && n <= |ORDER| + 1
      && (forall m | 0 <= m < |ORDER| && m < n :: Installed(s.four, ORDER[m]) == b)
      && (n == |ORDER| + 1 ==> s.bar == b)
  }

  predicate LockedInv(s: State, r: Reader) {
    OnTrack(r) && (r.progress.Scanning? ==> r.progress.loaded == s.bar)
  }

  ghost predicate Inv(s: State) {
    && WriterInv(s)
    && s.copies == map[]
    && (s.writer.Writing? ==> forall t | t in s.readers :: !(Locked(s.readers[t]) && Active(s.readers[t])))
    && (forall t | t in s.readers && Locked(s.readers[t]) :: LockedInv(s, s.readers[t]))
  }

  lemma AllKinds(four: set<Kind>, b: Bars)
    requires forall m | 0 <= m < |ORDER| :: Installed(four, ORDER[m]) == b
    ensures forall k: Kind :: Installed(four, k) == b
  {
    forall k: Kind ensures Installed(four, k) == b {
      assert k == ORDER[0] || k == ORDER[1] || k == ORDER[2] || k == ORDER[3] || k == ORDER[4] || k == ORDER[5];
    }
  }

  lemma StepKeepsInv(use: Use, s: State, e: Event)
    requires !use.copying && Inv(s) && Enabled(use, s, e)
    ensures Inv(Next(use, s, e))
  {
    var s' := Next(use, s, e);
    if e.EndWrite? {
      AllKinds(s'.four, s'.bar);
    }
    assert WriterInv(s');
    forall t | t in s'.readers && Locked(s'.readers[t]) ensures LockedInv(s', s'.readers[t]) {
      assert t in s.readers && s.readers[t] == s'.readers[t] ==> LockedInv(s, s.readers[t]);
    }
  }

  lemma {:induction false} Reachable(use: Use, ss: seq<State>, es: seq<Event>, i: nat)
    requires !use.copying && Run(use, ss, es) && i < |ss|
    ensures Inv(ss[i])
  {
    if i > 0 {
      Reachable(use, ss, es, i - 1);
      StepKeepsInv(use, ss[i - 1], es[i - 1]);
    }
  }

  // ----------------------------------------------- asking for the same setting again

  /** A scan that is on track and has loaded no setting but `b`. */
  predicate SeesOnly(r: Reader, b: Bars) {
    OnTrack(r) && (r.progress.Scanning? || r.progress.Finished? ==> r.progress.loaded == b)
  }

  /** No assignment is about to store another bar count than that of `b`. */
  predicate NoneStale(s: State, b: Bars) {
    forall t | t in s.copies :: s.copies[t] == b
  }

  /** The setting is `b`, and calls and assignments that are under way set it to `b` again. */
  predicate Keeps(s: State, b: Bars) {
    Settled(s, b) && NoneStale(s, b) && (s.writer.Writing? ==> s.writer.target == b)
  }

  predicate Repeats(e: Event, b: Bars) { e.BeginWrite? ==> e.target == b }

  lemma RepeatingKeeps(use: Use, s: State, e: Event, b: Bars)
    requires Enabled(use, s, e) && Keeps(s, b) && Repeats(e, b)
    ensures Keeps(Next(use, s, e), b)
  {
    var s' := Next(use, s, e);
    forall k: Kind ensures Installed(s'.four, k) == b {
      assert Installed(s.four, k) == b;
    }
  }

  lemma RepeatingIsUnseen(use: Use, s: State, e: Event, b: Bars, t: Thread)
    requires Enabled(use, s, e) && Keeps(s, b)
    requires t in s.readers ==> SeesOnly(s.readers[t], b)
    ensures var s' := Next(use, s, e);
            (t in s.readers ==> t in s'.readers) && (t in s'.readers ==> SeesOnly(s'.readers[t], b))
  {
  }

  /** From a state in which the setting is `b` and nothing under way sets another, as long as
      calls only ask for `b` again, a scan of any kind that begins there sees `b` and nothing
      else, even where calls and assignments overlap it and whatever was asked for before. */
  lemma {:induction false} RepeatingIsHarmless(
      use: Use, ss: seq<State>, es: seq<Event>, i: nat, j: nat, t: Thread, b: Bars)
    requires Run(use, ss, es) && i <= j < |ss|
    requires Keeps(ss[i], b)
    requires t in ss[i].readers ==> SeesOnly(ss[i].readers[t], b)
    requires forall m | i <= m < j :: Repeats(es[m], b)
    ensures Keeps(ss[j], b) && (t in ss[j].readers ==> SeesOnly(ss[j].readers[t], b))
    ensures t in ss[i].readers ==> t in ss[j].readers
    decreases j
  {
    if i < j {
      hide Next, Enabled, SeesOnly, Keeps;
      RepeatingIsHarmless(use, ss, es, i, j - 1, t, b);
      assert ss[j - 1 + 1] == Next(use, ss[j - 1], es[j - 1]);
      RepeatingKeeps(use, ss[j - 1], es[j - 1], b);
      RepeatingIsUnseen(use, ss[j - 1], es[j - 1], b, t);
    }
  }

  /** No call of `InitSignalBar` runs in the states `i` to `j` of a run. */
  predicate Quiet(ss: seq<State>, i: nat, j: nat)
    requires i <= j < |ss|
  {
    forall m | i <= m <= j :: ss[m].writer.NoWriter?
  }

  /** A scan of any kind that begins in a settled state, with no assignment about to store
      another bar count, and during which `InitSignalBar` does not run gives the level of the
      setting in force.  Without assignments every state in which no call runs is such a state. */
  lemma UndisturbedScanIsConsistent(use: Use, ss: seq<State>, es: seq<Event>, i: nat, j: nat, t: Thread)
    requires Run(use, ss, es) && i <= j < |ss| && Quiet(ss, i, j)
    requires !use.copying || Keeps(ss[i], ss[i].bar)
    requires t in ss[i].readers ==> ss[i].readers[t].progress.Started?
    ensures ss[j].bar == ss[i].bar && (t in ss[j].readers ==> SeesOnly(ss[j].readers[t], ss[i].bar))
    ensures t in ss[i].readers ==> t in ss[j].readers
  {
    forall m | i <= m < j ensures Repeats(es[m], ss[i].bar) {
      assert ss[m].writer.NoWriter? && ss[m + 1].writer.NoWriter?;
    }
    hide Next, Enabled;
    if !use.copying {
      Reachable(use, ss, es, i);
      assert ss[i].writer.NoWriter?;
    }
    RepeatingIsHarmless(use, ss, es, i, j, t, ss[i].bar);
  }

  // ------------------------------------------------------------ building runs

  /** From state `i` on, which is settled at `b` and in which nobody scans or writes, only the
      settings in `asked` are asked for; unless `stale`, no assignment that is under way at `i`
      will store another bar count. */
  ghost predicate Since(ss: seq<State>, es: seq<Event>, i: nat, b: Bars, asked: set<Bars>, stale: bool) {
    && i <= |es| < |ss|
    && ss[i].writer.NoWriter? && ss[i].readers == map[] && Settled(ss[i], b)
    && (stale || NoneStale(ss[i], b))
    && forall m | i <= m < |es| && es[m].BeginWrite? :: es[m].target in asked
  }

  lemma Extend(use: Use, ss: seq<State>, es: seq<Event>, e: Event)
    returns (ss': seq<State>, es': seq<Event>, s: State)
    requires Run(use, ss, es) && Enabled(use, ss[|es|], e)
    ensures Run(use, ss', es') && s == ss'[|es'|] == Next(use, ss[|es|], e)
    ensures forall i: nat, b, asked, stale |
              Since(ss, es, i, b, asked, stale) && (e.BeginWrite? ==> e.target in asked) ::
              Since(ss', es', i, b, asked, stale)
  {
    s := Next(use, ss[|es|], e);
    ss', es' := ss + [s], es + [e];
  }

  /** A whole call of `InitSignalBar`. */
  lemma WriteAll(use: Use, b: Bars, ss: seq<State>, es: seq<Event>)
    returns (ss': seq<State>, es': seq<Event>, s: State)
    requires Run(use, ss, es) && b in use.calls
    requires ss[|es|].writer.NoWriter? && ss[|es|].readers == map[]
    ensures Run(use, ss', es') && s == ss'[|es'|]
    ensures s.writer.NoWriter? && s.readers == map[] && Settled(s, b) && s.copies == ss[|es|].copies
  {
    var held := ss[|es|].copies;
    hide Since, Run;
    ss', es', s := Extend(use, ss, es, BeginWrite(b));
    for n := 0 to |ORDER|
      invariant Run(use, ss', es') && |ss'| == |es'| + 1 && s == ss'[|es'|]
      invariant s.writer == Writing(b, n) && s.readers == map[] && s.copies == held
      invariant forall m | 0 <= m < n :: Installed(s.four, ORDER[m]) == b
    {
      ss', es', s := Extend(use, ss', es', WriteNext);
    }
    ss', es', s := Extend(use, ss', es', WriteNext);
    ss', es', s := Extend(use, ss', es', EndWrite);
    AllKinds(s.four, b);
  }

  /** Four bars in force, five in an assignment that loaded them earlier: once that is stored,
      even a locked scan runs past the end of its table, with no call of `InitSignalBar` near.
      The other way round it returns a level of its four bars that is too high. */
  lemma StaleCopy(use: Use, b: Bars) returns (ss: seq<State>, es: seq<Event>, i: nat)
    requires use.copying && Four in use.calls && b in use.calls
    ensures Run(use, ss, es) && Since(ss, es, i, b, {}, true)
    ensures 0 in ss[|es|].readers && ss[|es|].readers[0] ==
              Reader(Wcdma, -90, if b.Four? then OutOfRange else Finished(4, Four))
    ensures !OnTrack(ss[|es|].readers[0])
  {
    var s := INIT;
    ss, es := [s], [];
    if b.Five? {
      ss, es, s := WriteAll(use, Four, ss, es);
    }
    ss, es, s := Extend(use, ss, es, LoadCopy(0));
    ss, es, s := WriteAll(use, b, ss, es);
    i := |es|;
    assert Since(ss, es, i, b, {}, true) && Installed(s.four, Wcdma) == b;
    hide Run, Since, Settled, NoneStale;
    ss, es, s := Extend(use, ss, es, StoreCopy(0));
    ss, es, s := Extend(use, ss, es, BeginRead(0, Wcdma, -90));
    ss, es, s := Extend(use, ss, es, LoadBar(0));
    ss, es, s := Extend(use, ss, es, Compare(0));
    LevelIsGreatestMet(Table(Wcdma, Four), 4, -90);
  }

  /** A GSM scan loads five bars, then the table is switched to the four-bar one. */
  lemma ScanPastTheEnd(use: Use) returns (ss: seq<State>, es: seq<Event>)
    requires Four in use.calls
    ensures Run(use, ss, es) && Since(ss, es, 0, Five, {Four}, false)
    ensures 0 in ss[|es|].readers && ss[|es|].readers[0] == Reader(Gsm, -90, OutOfRange)
  {
    var s := INIT;
    ss, es := [s], [];
    assert Run(use, ss, es) && Since(ss, es, 0, Five, {Four}, false);
    hide Run, Since;
    ss, es, s := Extend(use, ss, es, BeginRead(0, Gsm, -90));
    ss, es, s := Extend(use, ss, es, LoadBar(0));
    ss, es, s := Extend(use, ss, es, BeginWrite(Four));
    ss, es, s := Extend(use, ss, es, WriteNext);
    ss, es, s := Extend(use, ss, es, Compare(0));
  }

  /** A scan that has turned down the top of the four-bar table. */
  lemma HalfwayDown(use: Use, k: Kind) returns (ss: seq<State>, es: seq<Event>, i: nat, s: State)
    requires Four in use.calls && (k.Lte? || k.Nr?)
    ensures Run(use, ss, es) && s == ss[|es|] && Since(ss, es, i, Four, {Five}, false)
    ensures s.writer.NoWriter? && s.readers == map[0 := Reader(k, -105, Scanning(3, Four))]
  {
    s := INIT;
    ss, es := [s], [];
    ss, es, s := WriteAll(use, Four, ss, es);
    i := |es|;
    assert Since(ss, es, i, Four, {Five}, false) && Installed(s.four, k) == Four;
    hide Run, Since, Settled, NoneStale;
    ss, es, s := Extend(use, ss, es, BeginRead(0, k, -105));
    ss, es, s := Extend(use, ss, es, LoadBar(0));
    ss, es, s := Extend(use, ss, es, Compare(0));
  }

  /** In the other direction the index stays in range but the level can belong to neither
      setting: an LTE or NR reading of -105 dBm has level 2 of four and 4 of five bars. */
  lemma TornLevel(use: Use, k: Kind) returns (ss: seq<State>, es: seq<Event>, i: nat)
    requires Four in use.calls && Five in use.calls && (k.Lte? || k.Nr?)
    ensures Run(use, ss, es) && Since(ss, es, i, Four, {Five}, false)
    ensures 0 in ss[|es|].readers && ss[|es|].readers[0] == Reader(k, -105, Finished(3, Four))
    ensures LevelOf(k, Four, -105) == 2 && LevelOf(k, Five, -105) == 4
  {
    var s;
    ss, es, i, s := HalfwayDown(use, k);
    hide Run, Since, Settled, NoneStale;
    ss, es, s := Extend(use, ss, es, BeginWrite(Five));
    var at := if k.Lte? then 2 else 5;
    for n := 0 to at + 1
      invariant Run(use, ss, es) && |ss| == |es| + 1 && s == ss[|es|] && Since(ss, es, i, Four, {Five}, false)
      invariant s.writer == Writing(Five, n) && s.readers == map[0 := Reader(k, -105, Scanning(3, Four))]
      invariant forall m | 0 <= m < n :: Installed(s.four, ORDER[m]) == Five
    {
      hide Table;
      ss, es, s := Extend(use, ss, es, WriteNext);
    }
    assert ORDER[at] == k;
    ss, es, s := Extend(use, ss, es, Compare(0));
    AtMinus105(k);
  }

  lemma AtMinus105(k: Kind)
    requires k.Lte? || k.Nr?
    ensures LevelOf(k, Four, -105) == 2 && LevelOf(k, Five, -105) == 4
  {
    LevelIsGreatestMet(Table(k, Four), 4, -105);
    LevelIsGreatestMet(Table(k, Five), 5, -105);
  }

  // -------------------------------------------------- exactly when scans are safe

  ghost predicate LockedOnTrack(s: State) {
    forall t | t in s.readers && Locked(s.readers[t]) :: OnTrack(s.readers[t])
  }

  ghost predicate LockedAlwaysConsistent(use: Use) {
    forall ss: seq<State>, es: seq<Event> | Run(use, ss, es) :: LockedOnTrack(ss[|es|])
  }

  /** Whatever `InitSignalBar` calls are interleaved with it, a WCDMA scan stays inside its
      table and ends with the level of one whole setting, in a process that does not assign
      signal objects or never asks for four bars. */
  lemma LockedScanIsConsistent(use: Use, ss: seq<State>, es: seq<Event>, i: nat, t: Thread)
    requires Run(use, ss, es) && i < |ss| && (!use.copying || use.calls <= {Five})
    requires t in ss[i].readers && ss[i].readers[t].kind.Wcdma?
    ensures OnTrack(ss[i].readers[t])
  {
    if !use.copying {
      Reachable(use, ss, es, i);
      assert LockedInv(ss[i], ss[i].readers[t]);
    } else {
      RepeatingIsHarmless(use, ss, es, 0, i, t, Five);
    }
  }

  /** The lock keeps WCDMA scans consistent if and only if signal objects are not assigned to
      each other, or four bars are never asked for: the assignment stores the shared bar count
      without taking the lock. */
  lemma LockSufficesIff(use: Use)
    ensures LockedAlwaysConsistent(use) <==> !use.copying || use.calls <= {Five}
  {
    if !use.copying || use.calls <= {Five} {
      forall ss: seq<State>, es: seq<Event> | Run(use, ss, es) ensures LockedOnTrack(ss[|es|]) {
        forall t | t in ss[|es|].readers && Locked(ss[|es|].readers[t]) ensures OnTrack(ss[|es|].readers[t]) {
          LockedScanIsConsistent(use, ss, es, |es|, t);
        }
      }
    } else {
      var other :| other in use.calls && other != Five;
      var ss, es, i := StaleCopy(use, other);
      assert !LockedOnTrack(ss[|es|]);
    }
  }

  /** Every scan has seen one whole setting. */
  ghost predicate AllOnTrack(s: State) {
    forall t | t in s.readers :: OnTrack(s.readers[t])
  }

  /** A process that does everything. */
  const ANY := Use({Four, Five}, true)

  /** Once the setting is `b`, if only settings in `asked` are asked for and assignments may be
      stale or not, scans of all kinds are consistent in every interleaving. */
  ghost predicate AlwaysConsistent(b: Bars, asked: set<Bars>, stale: bool) {
    forall ss: seq<State>, es: seq<Event>, i: nat | Run(ANY, ss, es) && Since(ss, es, i, b, asked, stale) ::
      AllOnTrack(ss[|es|])
  }

  lemma SinceWeaken(ss: seq<State>, es: seq<Event>, i: nat, b: Bars, asked: set<Bars>, more: set<Bars>,
                    stale: bool, maybe: bool)
    requires Since(ss, es, i, b, asked, stale) && asked <= more && (stale ==> maybe)
    ensures Since(ss, es, i, b, more, maybe)
  {
  }

  /** For each setting: once it is in force, scans of all kinds are consistent in every
      interleaving if and only if no other setting is asked for and no assignment is about to
      store the bar count of another.  Asking for the same one again is harmless even where the
      call overlaps a scan; asking for the other one can send a scan past the end of its table,
      or give it a level of neither setting. */
  lemma UnlockedScansConsistentIff(b: Bars, asked: set<Bars>, stale: bool)
    ensures AlwaysConsistent(b, asked, stale) <==> asked <= {b} && !stale
  {
    if asked <= {b} && !stale {
      forall ss: seq<State>, es: seq<Event>, i: nat | Run(ANY, ss, es) && Since(ss, es, i, b, asked, stale)
        ensures AllOnTrack(ss[|es|])
      {
        forall t | t in ss[|es|].readers ensures OnTrack(ss[|es|].readers[t]) {
          RepeatingIsHarmless(ANY, ss, es, i, |es|, t, b);
        }
      }
    } else if stale {
      var ss, es, i := StaleCopy(ANY, b);
      SinceWeaken(ss, es, i, b, {}, asked, true, stale);
      assert !AllOnTrack(ss[|es|]);
    } else {
      var other :| other in asked && other != b;
      OtherSettingDisturbs(b, asked, other);
    }
  }

  lemma OtherSettingDisturbs(b: Bars, asked: set<Bars>, other: Bars)
    requires other in asked && other != b
    ensures !AlwaysConsistent(b, asked, false)
  {
    if b.Five? {
      var ss, es := ScanPastTheEnd(ANY);
      SinceWeaken(ss, es, 0, Five, {other}, asked, false, false);
      assert !OnTrack(ss[|es|].readers[0]);
    } else {
      var ss, es, i := TornLevel(ANY, Lte);
      SinceWeaken(ss, es, i, Four, {other}, asked, false, false);
      assert !OnTrack(ss[|es|].readers[0]);
    }
  }

  // ------------------------------------------- which kinds can show neither setting

  predicate OfOneSetting(k: Kind, reading: int, level: int) {
    level == LevelOf(k, Four, reading) || level == LevelOf(k, Five, reading)
  }

  /** The five-bar table is the four-bar one with a threshold put in below its bars. */
  predicate Shifted(k: Kind) {
    forall n | 1 <= n <= 4 :: Table(k, Five)[n + 1] == Table(k, Four)[n]
  }

  /** A scan that got down to `i` on the four-bar table and goes on with a shifted one. */
  lemma ShiftIsUnseen(k: Kind, i: int, reading: int)
    requires Shifted(k) && -1 <= i <= 4 && LevelOf(k, Four, reading) == Level(Table(k, Four), i, reading)
    ensures OfOneSetting(k, reading, Level(Table(k, Five), i, reading))
  {
    var t4, t5 := Table(k, Four), Table(k, Five);
    LevelIsGreatestMet(t4, 4, reading);
    LevelIsGreatestMet(t4, i, reading);
    LevelIsGreatestMet(t5, 5, reading);
    LevelIsGreatestMet(t5, i, reading);
    if 0 <= i {
      assert t5[i + 1] == t4[i] || i == 0;
      assert i < 4 ==> t5[i + 2] == t4[i + 1];
    }
  }

  predicate AllFive(s: State) { forall k: Kind :: Installed(s.four, k) == Five }

  /** Five bars are being installed, or are installed, over four. */
  predicate Turning(s: State) {
    && (s.bar.Five? ==> AllFive(s))
    && (forall t | t in s.copies && s.copies[t].Five? :: AllFive(s))
    && match s.writer
       case NoWriter => true
       case Writing(b, n) =>
         b.Five? && n <= |ORDER| + 1 && forall m | 0 <= m < |ORDER| && m < n :: Installed(s.four, ORDER[m]) == Five
  }

  predicate OnOneSide(s: State, r: Reader) {
    match r.progress
    case Started => true
    case Scanning(i, Five) =>
      && Installed(s.four, r.kind) == Five && -1 <= i <= 5
      && LevelOf(r.kind, Five, r.reading) == Level(Table(r.kind, Five), i, r.reading)
    case Scanning(i, Four) =>
      && -1 <= i <= 4
      && if Installed(s.four, r.kind) == Four
         then LevelOf(r.kind, Four, r.reading) == Level(Table(r.kind, Four), i, r.reading)
         else OfOneSetting(r.kind, r.reading, Level(Table(r.kind, Five), i, r.reading))
    case Finished(level, _) => OfOneSetting(r.kind, r.reading, level)
    case OutOfRange => false
  }

  lemma TurningStep(use: Use, s: State, e: Event)
    requires Enabled(use, s, e) && Turning(s) && Repeats(e, Five)
    ensures Turning(Next(use, s, e))
    ensures forall k: Kind :: Installed(s.four, k) == Five ==> Installed(Next(use, s, e).four, k) == Five
  {
    var s' := Next(use, s, e);
    forall k: Kind ensures Installed(s.four, k) == Five ==> Installed(s'.four, k) == Five {}
    if AllFive(s) {
      forall k: Kind ensures Installed(s'.four, k) == Five {
        assert Installed(s.four, k) == Five;
      }
    }
    if e.WriteNext? && s.writer.written == |ORDER| {
      AllKinds(s.four, Five);
    }
  }

  lemma TableTurns(s: State, s': State, r: Reader)
    requires OnOneSide(s, r) && Shifted(r.kind)
    requires Installed(s.four, r.kind) == Five ==> Installed(s'.four, r.kind) == Five
    ensures OnOneSide(s', r)
  {
    if r.progress.Scanning? && r.progress.loaded.Four? && Installed(s.four, r.kind) == Four {
      ShiftIsUnseen(r.kind, r.progress.i, r.reading);
    }
  }

  lemma ScanBegins(s: State, r: Reader)
    requires Turning(s) && Shifted(r.kind)
    ensures OnOneSide(s, r.(progress := Scanning(Top(s.bar), s.bar)))
  {
    if s.bar.Four? {
      ShiftIsUnseen(r.kind, 4, r.reading);
    } else {
      assert Installed(s.four, r.kind) == Five;
    }
  }

  lemma ScanTurns(s: State, r: Reader)
    requires OnOneSide(s, r) && r.progress.Scanning?
    ensures OnOneSide(s, r.(progress := Turn(r, Table(r.kind, Installed(s.four, r.kind)))))
  {
  }

  lemma TurningScanStep(use: Use, s: State, e: Event, t: Thread, k: Kind)
    requires Enabled(use, s, e) && Turning(s) && Repeats(e, Five) && Shifted(k)
    requires t in s.readers && s.readers[t].kind == k ==> OnOneSide(s, s.readers[t])
    ensures var s' := Next(use, s, e);
            t in s'.readers && s'.readers[t].kind == k ==> OnOneSide(s', s'.readers[t])
  {
    TurningStep(use, s, e);
    var s' := Next(use, s, e);
    if t in s.readers && s.readers[t].kind == k {
      hide Turning, Shifted, Turn;
      if e == LoadBar(t) {
        ScanBegins(s, s.readers[t]);
        TableTurns(s, s', s'.readers[t]);
      } else if e == Compare(t) {
        ScanTurns(s, s.readers[t]);
        TableTurns(s, s', s'.readers[t]);
      } else {
        TableTurns(s, s', s.readers[t]);
      }
    }
  }

  lemma {:induction false} TurningRun(
      use: Use, ss: seq<State>, es: seq<Event>, i: nat, j: nat, t: Thread, k: Kind)
    requires Run(use, ss, es) && i <= j < |ss| && Since(ss, es, i, Four, {Five}, false) && Shifted(k)
    ensures Turning(ss[j])
    ensures t in ss[j].readers && ss[j].readers[t].kind == k ==> OnOneSide(ss[j], ss[j].readers[t])
    decreases j
  {
    if i < j {
      TurningRun(use, ss, es, i, j - 1, t, k);
      assert Repeats(es[j - 1], Five) && ss[j - 1 + 1] == Next(use, ss[j - 1], es[j - 1]);
      hide Next, Enabled, Turning, OnOneSide, Shifted;
      TurningStep(use, ss[j - 1], es[j - 1]);
      TurningScanStep(use, ss[j - 1], es[j - 1], t, k);
    }
  }

  /** At the end of the run thread `t` has a level of neither setting for kind `k`, or none. */
  ghost predicate Torn(ss: seq<State>, es: seq<Event>, i: nat, t: Thread, k: Kind) {
    && Run(ANY, ss, es) && Since(ss, es, i, Four, {Five}, false)
    && t in ss[|es|].readers && ss[|es|].readers[t].kind == k
    && match ss[|es|].readers[t].progress
       case Finished(level, _) => !OfOneSetting(k, ss[|es|].readers[t].reading, level)
       case OutOfRange => true
       case _ => false
  }

  /** When five bars are asked for over four, a scan can end with a level of neither setting if
      and only if it is an LTE or an NR scan: the five-bar tables of the other kinds are shifted. */
  lemma TornIff(k: Kind)
    ensures (exists ss, es, i, t :: Torn(ss, es, i, t, k)) <==> k.Lte? || k.Nr?
  {
    if k.Lte? || k.Nr? {
      var ss, es, i := TornLevel(ANY, k);
      assert Torn(ss, es, i, 0, k);
    } else {
      assert Shifted(k);
      forall ss, es, i, t ensures !Torn(ss, es, i, t, k) {
        if Torn(ss, es, i, t, k) {
          TurningRun(ANY, ss, es, i, |es|, t, k);
        }
      }
    }
  }

  // ------------------------------------------------------ one thread on its own

  const SIGNAL_FOUR_BARS := 4

  /** Four bars have to be asked for; any other number stands for five. */
  function AskedFor(bar: int): Bars { if bar == SIGNAL_FOUR_BARS then Four else Five }

  class Setting {
    var four: set<Kind>
    var signalBar: Bars

    ghost predicate Holds(b: Bars)
      reads this
    {
      Settled(State(four, signalBar, NoWriter, map[], map[]), b)
    }

    constructor ()
      ensures Holds(Five)
    {
      four, signalBar := {}, Five;
    }

    /** Leaves every table and the bar count at one setting, whatever they were before. */
    method InitSignalBar(bar: int)
      modifies this
      ensures Holds(AskedFor(bar))
      ensures Holds(Four) <==> bar == 4
      ensures Holds(Five) <==> bar != 4
    {
      var b := AskedFor(bar);
      for n := 0 to |ORDER|
        invariant forall m | 0 <= m < n :: Installed(four, ORDER[m]) == b
      {
        four := Switch(four, ORDER[n], b);
      }
      signalBar := b;
      AllKinds(four, b);
    }

    method GetSignalLevel(k: Kind, setLevel: int, reading: int) returns (level: int)
      requires Holds(signalBar)
      ensures level == SignalLevelOf(k, signalBar, setLevel, reading)
      ensures setLevel != -1 ==> level == setLevel
      ensures setLevel == -1 && reading >= -1 ==> level == 0
      ensures setLevel == -1 && reading < -1 ==>
                var t := Table(k, signalBar);
                && 0 <= level < |t| && (level == 0 || reading >= t[level])
                && forall j | level < j < |t| :: reading < t[j]
    {
      level := setLevel;
      if setLevel == SIGNAL_LEVEL_UNSET {
        level := SIGNAL_LEVEL_INVALID;
        if reading < SIGNAL_RSSI_MAXIMUM {
          level := ScanLevel(Table(k, Installed(four, k)), Top(signalBar), reading);
          LevelIsGreatestMet(Table(k, signalBar), Top(signalBar), reading);
        }
      }
    }
  }
}
