/** Marshalling of signal information and the signal lists sent between processes. */
module Signals {
  import opened Options
  import opened Wire
  import opened TaggedList
  import SignalLevel

  /** `level` is signalLevel_, -1 when no level was set explicitly. */
  datatype Signal =
    | Gsm(rxlev: Word, ber: Word, level: Word)
    | Cdma(rssi: Word, ecno: Word, level: Word)
    | Wcdma(rxlev: Word, rscp: Word, ecio: Word, ber: Word, level: Word)
    | TdScdma(rscp: Word, level: Word)
    | Lte(rxlev: Word, rsrp: Word, rsrq: Word, snr: Word, level: Word)
    | Nr(rsrp: Word, rsrq: Word, sinr: Word, level: Word)

  const MAX_SIGNAL_NUM := 2

  /** Marshalling, tag first. */
  function Put(s: Signal, t: Words): Words {
    match s
    case Gsm(rxlev, ber, level) => Int(1, Int(rxlev, Int(ber, Int(level, t))))
    case Cdma(rssi, ecno, level) => Int(2, Int(rssi, Int(ecno, Int(level, t))))
    case Wcdma(rxlev, rscp, ecio, ber, level) =>
      Int(3, Int(rxlev, Int(rscp, Int(ecio, Int(ber, Int(level, t))))))
    case TdScdma(rscp, level) => Int(4, Int(rscp, Int(level, t)))
    case Lte(rxlev, rsrp, rsrq, snr, level) =>
      Int(5, Int(rxlev, Int(rsrp, Int(rsrq, Int(snr, Int(level, t))))))
    case Nr(rsrp, rsrq, sinr, level) => Int(6, Int(rsrp, Int(rsrq, Int(sinr, Int(level, t)))))
  }

  // ReadFromParcel of the six classes, each on a newly made object.

  function GsmFields(c: Cursor): Parsed<Signal> {
    var rxlev := NextInt(c, 0);
    var ber := NextInt(rxlev.at, 0);
    var level := NextInt(ber.at, -1);
    Parsed(Gsm(rxlev.value, ber.value, level.value), level.at)
  }

  function CdmaFields(c: Cursor): Parsed<Signal> {
    var rssi := NextInt(c, -1);
    var ecno := NextInt(rssi.at, -1);
    var level := NextInt(ecno.at, -1);
    Parsed(Cdma(rssi.value, ecno.value, level.value), level.at)
  }

  function WcdmaFields(c: Cursor): Parsed<Signal> {
    var rxlev := NextInt(c, 0);
    var rscp := NextInt(rxlev.at, 0);
    var ecio := NextInt(rscp.at, 0);
    var ber := NextInt(ecio.at, 0);
    var level := NextInt(ber.at, -1);
    Parsed(Wcdma(rxlev.value, rscp.value, ecio.value, ber.value, level.value), level.at)
  }

  function TdScdmaFields(c: Cursor): Parsed<Signal> {
    var rscp := NextInt(c, 0);
    var level := NextInt(rscp.at, -1);
    Parsed(TdScdma(rscp.value, level.value), level.at)
  }

  function LteFields(c: Cursor): Parsed<Signal> {
    var rxlev := NextInt(c, 0);
    var rsrp := NextInt(rxlev.at, 0);
    var rsrq := NextInt(rsrp.at, 0);
    var snr := NextInt(rsrq.at, 0);
    var level := NextInt(snr.at, -1);
    Parsed(Lte(rxlev.value, rsrp.value, rsrq.value, snr.value, level.value), level.at)
  }

  function NrFields(c: Cursor): Parsed<Signal> {
    var rsrp := NextInt(c, 0);
    var rsrq := NextInt(rsrp.at, 0);
    var sinr := NextInt(rsrq.at, 0);
    var level := NextInt(sinr.at, -1);
    Parsed(Nr(rsrp.value, rsrq.value, sinr.value, level.value), level.at)
  }

  /** The switch on the network type in `ProcessSignalInfo`. */
  function Fields(tag: Word, c: Cursor): Option<Parsed<Signal>> {
    if tag == 1 then Some(GsmFields(c))
    else if tag == 2 then Some(CdmaFields(c))
    else if tag == 5 then Some(LteFields(c))
    else if tag == 3 then Some(WcdmaFields(c))
    else if tag == 4 then Some(TdScdmaFields(c))
    else if tag == 6 then Some(NrFields(c))
    else None
  }

  /** A record is read for the six tags and for no other. */
  lemma KnownTags(tag: Word, c: Cursor)
    ensures Fields(tag, c).Some? <==> 1 <= tag <= 6
  {
  }

  lemma SignalWrites(s: Signal, t: Words)
    ensures Put(s, t) == Put(s, []) + t
  {
    hide Int;
    WriteFacts();
    assert [] + t == t;
  }

  lemma SignalsWrite()
    ensures Writes(Put)
  {
    forall s: Signal, t: Words { SignalWrites(s, t); }
  }

  ghost predicate ReadsBackSignal(s: Signal, t: Words) {
    var tag := LaxInt(Cursor(Put(s, t), true));
    Fields(tag.value, tag.at) == Some(Parsed(s, Cursor(t, true)))
  }

  lemma SignalRoundTrip(s: Signal, t: Words)
    ensures ReadsBackSignal(s, t)
  {
    hide NextInt, LaxInt, Int;
    ReadFacts();
  }

  function Whole(s: Signal): Signal { s }

  lemma SignalsDispatch()
    ensures Dispatches(Put, Fields, Whole)
  {
    forall s: Signal, t: Words
      ensures var tag := LaxInt(Cursor(Put(s, t), true));
              Fields(tag.value, tag.at) == Some(Parsed(Whole(s), Cursor(t, true)))
    {
      SignalRoundTrip(s, t);
    }
  }

  /** A list of signals of any kinds is read back as it was, if and only if it has fewer than
      a thousand records. */
  lemma SignalListRoundTrip(xs: Vec<Signal>, t: Words)
    ensures List(Fields, Counted(Put, xs, []) + t) == Listing(xs, t) <==> |xs| < 1000
  {
    SignalsDispatch();
    SignalsWrite();
    CountedWrites(Put, xs, t);
    FrameRoundTrip(Put, Fields, Whole, xs, t);
    assert MapSent(Whole, xs) == xs;
  }

  /** The part of `UpdateSignalInfo` after the interface token. */
  method UpdateSignalInfo(slotId: Word, vec: Vec<Signal>, p: Parcel) returns (ok: bool)
    modifies p
    ensures ok <==> |vec| <= 2
    ensures p.unread == old(p.unread) + Int(slotId, if ok then Counted(Put, vec, []) else [])
  {
    p.Write(Int(slotId, []));
    ok := |vec| <= MAX_SIGNAL_NUM;
    if ok {
      SignalsWrite();
      p.WriteCounted(Put, vec);
    }
  }

  /** Whatever `UpdateSignalInfo` sends, a reader gets back: the slot, then the list. */
  lemma UpdateIsReadable(slotId: Word, vec: Vec<Signal>, t: Words)
    requires |vec| <= MAX_SIGNAL_NUM
    ensures var slot := LaxInt(Cursor(Int(slotId, Counted(Put, vec, []) + t), true));
            slot.value == slotId && List(Fields, slot.at.rest) == Listing(vec, t)
  {
    ReadFacts();
    SignalListRoundTrip(vec, t);
  }

  // ------------------------------------------------------- levels after a transfer

  function KindOf(s: Signal): SignalLevel.Kind {
    match s
    case Gsm(_, _, _) => SignalLevel.Gsm
    case Cdma(_, _, _) => SignalLevel.Cdma
    case Wcdma(_, _, _, _, _) => SignalLevel.Wcdma
    case TdScdma(_, _) => SignalLevel.TdScdma
    case Lte(_, _, _, _, _) => SignalLevel.Lte
    case Nr(_, _, _, _) => SignalLevel.Nr
  }

  /** The value the level is computed from. */
  function ReadingOf(s: Signal): Word {
    match s
    case Gsm(rxlev, _, _) => rxlev
    case Cdma(rssi, _, _) => rssi
    case Wcdma(_, rscp, _, _, _) => rscp
    case TdScdma(rscp, _) => rscp
    case Lte(_, rsrp, _, _, _) => rsrp
    case Nr(rsrp, _, _, _) => rsrp
  }

  /** The kind is the tag a signal is sent with, and the reading one of the words sent: the second
      of a WCDMA or LTE signal, the first of any other. */
  lemma ReadingIsSent(s: Signal)
    ensures Put(s, [])[0] == match KindOf(s)
                             case Gsm => 1 case Cdma => 2 case Wcdma => 3
                             case TdScdma => 4 case Lte => 5 case Nr => 6
    ensures var at := if s.Wcdma? || s.Lte? then 2 else 1; at < |Put(s, [])| && Put(s, [])[at] == ReadingOf(s)
    ensures Put(s, [])[|Put(s, [])| - 1] == s.level
  {
  }

  function LevelUnder(bars: SignalLevel.Bars, s: Signal): int {
    SignalLevel.SignalLevelOf(KindOf(s), bars, s.level, ReadingOf(s))
  }

  /** Making any signal object calls `InitSignalBar()`, which installs five bars; so reading a
      list that holds a record leaves the process with five. */
  function BarsAfterReading(before: SignalLevel.Bars, records: seq<Signal>): SignalLevel.Bars {
    if records == [] then before else SignalLevel.Five
  }

  /** A level survives marshalling and reading into the same process if and only if five bars
      were in force, or the level was set explicitly, or the reading is invalid or too weak to
      fill a bar: reading the record back resets a four-bar setting. */
  lemma LevelAfterTransfer(before: SignalLevel.Bars, xs: Vec<Signal>, t: Words, i: nat)
    requires i < |xs| < MAX_SIZE
    ensures var got := List(Fields, Counted(Put, xs, []) + t).records;
            && |got| == |xs|
            && (LevelUnder(BarsAfterReading(before, got), got[i]) == LevelUnder(before, xs[i])
                <==>
                || before.Five?
                || xs[i].level != SignalLevel.SIGNAL_LEVEL_UNSET
                || ReadingOf(xs[i]) >= SignalLevel.SIGNAL_RSSI_MAXIMUM
                || ReadingOf(xs[i]) < SignalLevel.FirstBar(KindOf(xs[i])))
  {
    SignalListRoundTrip(xs, t);
    SignalLevel.SettingsDiffer(KindOf(xs[i]), ReadingOf(xs[i]));
  }
}
