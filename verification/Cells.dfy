/** Marshalling of cell information and the cell lists sent between processes. */
module Cells {
  import opened Options
  import opened Wire
  import opened TaggedList

  /** The fields every kind of cell has. */
  datatype Base = Base(
    mcc: Text, mnc: Text, cellId: Word,
    timeStamp: Uint64, signalLevel: Word, signalIntensity: Word, isCamped: bool)

  datatype Cell =
    | Gsm(base: Base, arfcn: Word, bsic: Word, lac: Word)
    | Cdma(base: Base, baseId: Word, latitude: Word, longitude: Word, nid: Word, sid: Word)
    | Wcdma(base: Base, uarfcn: Word, psc: Word, lac: Word)
    | TdScdma(base: Base, uarfcn: Word, cpid: Word, lac: Word)
    | Lte(base: Base, earfcn: Word, pci: Word, tac: Word)
    | Nr(base: Base, nrArfcn: Word, pci: Word, tac: Word, nci: Int64, rsrp: Word, rsrq: Word)

  const MAX_CELL_NUM := 10

  /** Marshalling, tag first; every kind ends with the same four fields. */
  function PutTail(b: Base, t: Words): Words {
    Ulong(b.timeStamp, Int(b.signalLevel, Int(b.signalIntensity, Bool(b.isCamped, t))))
  }

  function Put(x: Cell, t: Words): Words {
    match x
    case Gsm(b, arfcn, bsic, lac) =>
      Int(1, Str(b.mcc, Str(b.mnc, Int(arfcn, Int(b.cellId, Int(bsic, Int(lac, PutTail(b, t))))))))
    case Cdma(b, baseId, latitude, longitude, nid, sid) =>
      Int(2, Int(baseId, Int(latitude, Int(longitude, Int(nid, Int(sid, PutTail(b, t)))))))
    case Wcdma(b, uarfcn, psc, lac) =>
      Int(3, Str(b.mcc, Str(b.mnc, Int(uarfcn, Int(b.cellId, Int(psc, Int(lac, PutTail(b, t))))))))
    case TdScdma(b, uarfcn, cpid, lac) =>
      Int(4, Str(b.mcc, Str(b.mnc, Int(uarfcn, Int(b.cellId, Int(cpid, Int(lac, PutTail(b, t))))))))
    case Lte(b, earfcn, pci, tac) =>
      Int(5, Str(b.mcc, Str(b.mnc, Int(earfcn, Int(b.cellId, Int(pci, Int(tac, PutTail(b, t))))))))
    case Nr(b, nrArfcn, pci, tac, nci, rsrp, rsrq) =>
      Int(6, Str(b.mcc, Str(b.mnc, Int(b.cellId, Int(nrArfcn, Int(pci, Int(tac,
        Long(nci, Int(rsrp, Int(rsrq, PutTail(b, t)))))))))))
  }

  // ReadFromParcel of the six classes, each on a newly made object.

  /** The last four fields, on top of those already read. */
  function Tail(c: Cursor, mcc: Text, mnc: Text, cellId: Word): Parsed<Base> {
    var timeStamp := NextUlong(c, 0);
    var signalLevel := NextInt(timeStamp.at, 0);
    var signalIntensity := NextInt(signalLevel.at, 0);
    var isCamped := NextBool(signalIntensity.at, false);
    Parsed(Base(mcc, mnc, cellId, timeStamp.value, signalLevel.value, signalIntensity.value, isCamped.value),
           isCamped.at)
  }

  function GsmFields(c: Cursor): Parsed<Cell> {
    var mcc := NextText(c, []);
    var mnc := NextText(mcc.at, []);
    var arfcn := NextInt(mnc.at, 0);
    var cellId := NextInt(arfcn.at, 0);
    var bsic := NextInt(cellId.at, 0);
    var lac := NextInt(bsic.at, 0);
    var base := Tail(lac.at, mcc.value, mnc.value, cellId.value);
    Parsed(Gsm(base.value, arfcn.value, bsic.value, lac.value), base.at)
  }

  function CdmaFields(c: Cursor): Parsed<Cell> {
    var baseId := NextInt(c, 0);
    var latitude := NextInt(baseId.at, 0);
    var longitude := NextInt(latitude.at, 0);
    var nid := NextInt(longitude.at, 0);
    var sid := NextInt(nid.at, 0);
    var base := Tail(sid.at, [], [], 0);
    Parsed(Cdma(base.value, baseId.value, latitude.value, longitude.value, nid.value, sid.value), base.at)
  }

  function WcdmaFields(c: Cursor): Parsed<Cell> {
    var mcc := NextText(c, []);
    var mnc := NextText(mcc.at, []);
    var uarfcn := NextInt(mnc.at, 0);
    var cellId := NextInt(uarfcn.at, 0);
    var psc := NextInt(cellId.at, 0);
    var lac := NextInt(psc.at, 0);
    var base := Tail(lac.at, mcc.value, mnc.value, cellId.value);
    Parsed(Wcdma(base.value, uarfcn.value, psc.value, lac.value), base.at)
  }

  function TdScdmaFields(c: Cursor): Parsed<Cell> {
    var mcc := NextText(c, []);
    var mnc := NextText(mcc.at, []);
    var uarfcn := NextInt(mnc.at, 0);
    var cellId := NextInt(uarfcn.at, 0);
    var cpid := NextInt(cellId.at, 0);
    var lac := NextInt(cpid.at, 0);
    var base := Tail(lac.at, mcc.value, mnc.value, cellId.value);
    Parsed(TdScdma(base.value, uarfcn.value, cpid.value, lac.value), base.at)
  }

  function LteFields(c: Cursor): Parsed<Cell> {
    var mcc := NextText(c, []);
    var mnc := NextText(mcc.at, []);
    var earfcn := NextInt(mnc.at, 0);
    var cellId := NextInt(earfcn.at, 0);
    var pci := NextInt(cellId.at, 0);
    var tac := NextInt(pci.at, 0);
    var base := Tail(tac.at, mcc.value, mnc.value, cellId.value);
    Parsed(Lte(base.value, earfcn.value, pci.value, tac.value), base.at)
  }

  function NrFields(c: Cursor): Parsed<Cell> {
    var mcc := NextText(c, []);
    var mnc := NextText(mcc.at, []);
    var cellId := NextInt(mnc.at, 0);
    var nrArfcn := NextInt(cellId.at, 0);
    var pci := NextInt(nrArfcn.at, 0);
    var tac := NextInt(pci.at, 0);
    var nci := NextLong(tac.at, 0);
    var rsrp := NextInt(nci.at, 0);
    var rsrq := NextInt(rsrp.at, 0);
    var base := Tail(rsrq.at, mcc.value, mnc.value, cellId.value);
    Parsed(Nr(base.value, nrArfcn.value, pci.value, tac.value, nci.value, rsrp.value, rsrq.value), base.at)
  }

  /** The switch on the cell type in `ProcessCellInfo`. */
  function Fields(tag: Word, c: Cursor): Option<Parsed<Cell>> {
    if tag == 1 then Some(GsmFields(c))
    else if tag == 5 then Some(LteFields(c))
    else if tag == 3 then Some(WcdmaFields(c))
    else if tag == 2 then Some(CdmaFields(c))
    else if tag == 4 then Some(TdScdmaFields(c))
    else if tag == 6 then Some(NrFields(c))
    else None
  }

  /** A record is read for the six tags and for no other. */
  lemma KnownTags(tag: Word, c: Cursor)
    ensures Fields(tag, c).Some? <==> 1 <= tag <= 6
  {
  }

  /** What arrives: everything, except that a CDMA cell's codes and cell id are not sent. */
  function Sent(x: Cell): Cell {
    match x
    case Cdma(b, baseId, latitude, longitude, nid, sid) =>
      Cdma(b.(mcc := [], mnc := [], cellId := 0), baseId, latitude, longitude, nid, sid)
    case _ => x
  }

  ghost predicate ReadsBackCell(x: Cell, t: Words) {
    var tag := LaxInt(Cursor(Put(x, t), true));
    Fields(tag.value, tag.at) == Some(Parsed(Sent(x), Cursor(t, true)))
  }

  lemma CellRoundTrip(x: Cell, t: Words)
    ensures ReadsBackCell(x, t)
  {
    hide NextInt, NextBool, NextLong, NextUlong, NextText, LaxInt, Int, Bool, Long, Ulong, Str;
    ReadFacts();
  }

  lemma CellsDispatch()
    ensures Dispatches(Put, Fields, Sent)
  {
    forall x: Cell, t: Words
      ensures var tag := LaxInt(Cursor(Put(x, t), true));
              Fields(tag.value, tag.at) == Some(Parsed(Sent(x), Cursor(t, true)))
    {
      CellRoundTrip(x, t);
    }
  }

  lemma CellWrites(x: Cell, t: Words)
    ensures Put(x, t) == Put(x, []) + t
  {
    hide Int, Bool, Long, Ulong, Str;
    WriteFacts();
    assert [] + t == t;
  }

  lemma CellsWrite()
    ensures Writes(Put)
  {
    forall x: Cell, t: Words { CellWrites(x, t); }
  }

  /** `operator==` of the six classes: a CDMA cell ignores what is not sent, and only an NR
      cell compares time stamps. */
  predicate Same(x: Cell, y: Cell) {
    match (x, y)
    case (Gsm(b, arfcn, bsic, lac), Gsm(b', arfcn', bsic', lac')) =>
      SameBase(b, b') && arfcn == arfcn' && bsic == bsic' && lac == lac'
    case (Cdma(b, baseId, latitude, longitude, nid, sid), Cdma(b', baseId', latitude', longitude', nid', sid')) =>
      baseId == baseId' && latitude == latitude' && longitude == longitude' && nid == nid' && sid == sid'
      && b.signalLevel == b'.signalLevel && b.signalIntensity == b'.signalIntensity && b.isCamped == b'.isCamped
    case (Wcdma(b, uarfcn, psc, lac), Wcdma(b', uarfcn', psc', lac')) =>
      SameBase(b, b') && uarfcn == uarfcn' && psc == psc' && lac == lac'
    case (TdScdma(b, uarfcn, cpid, lac), TdScdma(b', uarfcn', cpid', lac')) =>
      SameBase(b, b') && uarfcn == uarfcn' && cpid == cpid' && lac == lac'
    case (Lte(b, earfcn, pci, tac), Lte(b', earfcn', pci', tac')) =>
      SameBase(b, b') && earfcn == earfcn' && pci == pci' && tac == tac'
    case (Nr(b, nrArfcn, pci, tac, nci, rsrp, rsrq), Nr(b', nrArfcn', pci', tac', nci', rsrp', rsrq')) =>
      SameBase(b, b') && b.timeStamp == b'.timeStamp && nrArfcn == nrArfcn' && pci == pci' && tac == tac'
      && nci == nci' && rsrp == rsrp' && rsrq == rsrq'
    case _ => false
  }

  predicate SameBase(b: Base, b': Base) {
    && b.mcc == b'.mcc && b.mnc == b'.mnc && b.cellId == b'.cellId
    && b.signalLevel == b'.signalLevel && b.signalIntensity == b'.signalIntensity && b.isCamped == b'.isCamped
  }

  lemma SentIsSame(x: Cell)
    ensures Same(Sent(x), x)
  {
  }

  /** What the comparison looks at: all that is sent, except that only NR cells compare their
      time stamps. */
  function Compared(x: Cell): Cell {
    match x
    case Gsm(b, arfcn, bsic, lac) => Gsm(b.(timeStamp := 0), arfcn, bsic, lac)
    case Cdma(b, baseId, latitude, longitude, nid, sid) =>
      Cdma(b.(timeStamp := 0, mcc := [], mnc := [], cellId := 0), baseId, latitude, longitude, nid, sid)
    case Wcdma(b, uarfcn, psc, lac) => Wcdma(b.(timeStamp := 0), uarfcn, psc, lac)
    case TdScdma(b, uarfcn, cpid, lac) => TdScdma(b.(timeStamp := 0), uarfcn, cpid, lac)
    case Lte(b, earfcn, pci, tac) => Lte(b.(timeStamp := 0), earfcn, pci, tac)
    case Nr(_, _, _, _, _, _, _) => x
  }

  lemma SameIsCompared(x: Cell, y: Cell)
    ensures Same(x, y) <==> Compared(x) == Compared(y)
  {
  }

  /** Two cells are sent alike, whatever follows, if and only if the same arrives. */
  lemma SentAlike(x: Cell, y: Cell, t: Words, u: Words)
    ensures Put(x, t) == Put(y, u) <==> Sent(x) == Sent(y) && t == u
  {
    CellRoundTrip(x, t);
    CellRoundTrip(y, u);
    if Sent(x) == Sent(y) {
      SentIsEnough(x, t);
      SentIsEnough(y, t);
    }
  }

  lemma SentIsEnough(x: Cell, t: Words)
    ensures Put(Sent(x), t) == Put(x, t)
  {
  }

  /** Cells with equal time stamps are the same by the comparison of their kind if and only if
      they are sent alike; in general, two are the same if and only if they are sent alike with
      the time stamps of all but NR cells cleared. */
  lemma ComparisonIsEncoding(x: Cell, y: Cell)
    ensures x.base.timeStamp == y.base.timeStamp ==> (Same(x, y) <==> Put(x, []) == Put(y, []))
    ensures Same(x, y) <==> Put(Compared(x), []) == Put(Compared(y), [])
  {
    hide Put, Same;
    SameIsCompared(x, y);
    SentAlike(x, y, [], []);
    SentAlike(Compared(x), Compared(y), [], []);
  }

  /** A list of cells of any kinds comes back in order and whole, up to what CDMA cells do not
      send, if and only if it has fewer than a thousand records; each cell then equals the
      original by its own `operator==`. */
  lemma CellListRoundTrip(xs: Vec<Cell>, t: Words)
    ensures List(Fields, Counted(Put, xs, []) + t) == Listing(MapSent(Sent, xs), t) <==> |xs| < 1000
    ensures |xs| < 1000 ==>
              var got := List(Fields, Counted(Put, xs, []) + t).records;
              |got| == |xs| && forall i | 0 <= i < |xs| :: Same(got[i], xs[i])
  {
    CellsDispatch();
    CellsWrite();
    CountedWrites(Put, xs, t);
    FrameRoundTrip(Put, Fields, Sent, xs, t);
    forall i | 0 <= i < |xs| ensures Same(Sent(xs[i]), xs[i]) {
      SentIsSame(xs[i]);
    }
  }

  /** The part of `UpdateCellInfo` after the interface token. */
  method UpdateCellInfo(slotId: Word, vec: Vec<Cell>, p: Parcel) returns (ok: bool)
    modifies p
    ensures ok <==> 1 <= |vec| <= 10
    ensures p.unread == old(p.unread) + Int(slotId, if ok then Counted(Put, vec, []) else [])
  {
    hide Put, Each, Writes;
    p.Write(Int(slotId, []));
    ok := 0 < |vec| <= MAX_CELL_NUM;
    if ok {
      CellsWrite();
      p.WriteCounted(Put, vec);
    }
  }
}
