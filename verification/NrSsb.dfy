/** SSB information of the serving cell and its neighbours.  The serving list is sent without
    a length and every list is cut to a fixed size on the way. */
module NrSsb {
  import opened Wire

  const SCELL_SSB_LIST := 8
  const NBCELL_SSB_LIST := 4
  const MAX_NBCELL_COUNT := 4

  datatype Ssb = Ssb(ssbId: Word, rsrp: Word)

  datatype Neighbour = Neighbour(pci: Word, arfcn: Word, rsrp: Word, sinr: Word, ssbList: seq<Ssb>)

  datatype Info = Info(
    arfcn: Word, cid: Int64, pci: Word, rsrp: Word, sinr: Word, timeAdvance: Word,
    sCellSsbList: seq<Ssb>, nbCellCount: Word, nbCellSsbList: seq<Neighbour>)

  const BLANK := Info(0, 0, 0, 0, 0, 0, [], 0, [])

  function Take<T>(xs: seq<T>, n: nat): (r: seq<T>)
    ensures r <= xs && |r| == if |xs| < n then |xs| else n
  {
    if |xs| <= n then xs else xs[..n]
  }

  function Clamp(n: Word): Word { if n > MAX_NBCELL_COUNT then MAX_NBCELL_COUNT else n }

  // ---------------------------------------------------------------- the codec

  function PutSsb(s: Ssb, t: Words): Words { Int(s.ssbId, Int(s.rsrp, t)) }

  function PutNeighbour(n: Neighbour, t: Words): Words {
    Int(n.pci, Int(n.arfcn, Int(n.rsrp, Int(n.sinr, Each(PutSsb, Take(n.ssbList, NBCELL_SSB_LIST), t)))))
  }

  function PutBase(x: Info, t: Words): Words {
    Int(x.arfcn, Long(x.cid, Int(x.pci, Int(x.rsrp, Int(x.sinr, Int(x.timeAdvance, t))))))
  }

  function PutServing(x: Info, t: Words): Words {
    PutBase(x, Each(PutSsb, Take(x.sCellSsbList, SCELL_SSB_LIST), t))
  }

  function PutNeighbours(x: Info, t: Words): Words {
    Int(x.nbCellCount, Each(PutNeighbour, Take(x.nbCellSsbList, Positive(x.nbCellCount)), t))
  }

  function Put(x: Info, t: Words): Words { PutServing(x, PutNeighbours(x, t)) }

  function NextSsb(c: Cursor): Parsed<Ssb> {
    var ssbId := NextInt(c, 0);
    var rsrp := NextInt(ssbId.at, 0);
    Parsed(Ssb(ssbId.value, rsrp.value), rsrp.at)
  }

  function NextNeighbour(c: Cursor): Parsed<Neighbour> {
    var pci := NextInt(c, 0);
    var arfcn := NextInt(pci.at, 0);
    var rsrp := NextInt(arfcn.at, 0);
    var sinr := NextInt(rsrp.at, 0);
    var ssbs := ListOf(NextSsb, NBCELL_SSB_LIST, sinr.at);
    Parsed(Neighbour(pci.value, arfcn.value, rsrp.value, sinr.value, ssbs.value), ssbs.at)
  }

  function NextBase(was: Info, c: Cursor): (r: Parsed<Info>)
    ensures r.value.sCellSsbList == was.sCellSsbList
    ensures r.value.nbCellCount == was.nbCellCount && r.value.nbCellSsbList == was.nbCellSsbList
  {
    var arfcn := NextInt(c, was.arfcn);
    var cid := NextLong(arfcn.at, was.cid);
    var pci := NextInt(cid.at, was.pci);
    var rsrp := NextInt(pci.at, was.rsrp);
    var sinr := NextInt(rsrp.at, was.sinr);
    var timeAdvance := NextInt(sinr.at, was.timeAdvance);
    Parsed(was.(arfcn := arfcn.value, cid := cid.value, pci := pci.value, rsrp := rsrp.value,
                sinr := sinr.value, timeAdvance := timeAdvance.value), timeAdvance.at)
  }

  /** What is read is appended to the serving list that is there. */
  function NextServing(was: Info, c: Cursor): Parsed<Info> {
    var base := NextBase(was, c);
    var ssbs := ListOf(NextSsb, SCELL_SSB_LIST, base.at);
    Parsed(base.value.(sCellSsbList := was.sCellSsbList + ssbs.value), ssbs.at)
  }

  function NextNeighbours(was: Info, c: Cursor): (r: Parsed<Info>)
    ensures !c.ok ==> r == Parsed(was, c)
  {
    var count := NextInt(c, was.nbCellCount);
    if !count.at.ok then Parsed(was, count.at)
    else
      var n := Clamp(count.value);
      var nbs := ListOf(NextNeighbour, Positive(n), count.at);
      Parsed(was.(nbCellCount := n, nbCellSsbList := was.nbCellSsbList + nbs.value), nbs.at)
  }

  function Next(was: Info, c: Cursor): Parsed<Info> {
    var serving := NextServing(was, c);
    NextNeighbours(serving.value, serving.at)
  }

  // ------------------------------------------------------------- truncation

  function Cut(n: Neighbour): Neighbour { n.(ssbList := Take(n.ssbList, 4)) }

  function Truncated(x: Info): Info {
    x.(sCellSsbList := Take(x.sCellSsbList, 8),
       nbCellSsbList := MapSent(Cut, Take(x.nbCellSsbList, Positive(x.nbCellCount))))
  }

  predicate FourSsbs(n: Neighbour) { |n.ssbList| >= NBCELL_SSB_LIST }

  /** What writing demands of the lists: the loops index them without looking at their sizes.
      A count over the limit is refused before that. */
  predicate Indexable(x: Info) {
    x.nbCellCount <= MAX_NBCELL_COUNT ==>
      && Positive(x.nbCellCount) <= |x.nbCellSsbList|
      && forall n | n in x.nbCellSsbList[..Positive(x.nbCellCount)] :: FourSsbs(n)
  }

  lemma SsbsReadBack(xs: seq<Ssb>, t: Words)
    ensures ListOf(NextSsb, |xs|, Cursor(Each(PutSsb, xs, t), true)) == Parsed(xs, Cursor(t, true))
  {
    ReadFacts();
    ListRoundTrip(PutSsb, NextSsb, (s: Ssb) => true, (s: Ssb) => s, xs, t);
    assert MapSent((s: Ssb) => s, xs) == xs;
  }

  lemma NeighbourReadsBack(n: Neighbour, t: Words)
    requires FourSsbs(n)
    ensures NextNeighbour(Cursor(PutNeighbour(n, t), true)) == Parsed(Cut(n), Cursor(t, true))
  {
    hide NextInt, Int, NextSsb, PutSsb;
    ReadFacts();
    SsbsReadBack(Take(n.ssbList, NBCELL_SSB_LIST), t);
  }

  lemma {:induction false} NeighboursReadBack(ns: seq<Neighbour>, t: Words)
    requires forall n | n in ns :: FourSsbs(n)
    ensures ListOf(NextNeighbour, |ns|, Cursor(Each(PutNeighbour, ns, t), true)) ==
            Parsed(MapSent(Cut, ns), Cursor(t, true))
  {
    hide NextNeighbour, PutNeighbour;
    if ns != [] {
      NeighbourReadsBack(ns[0], Each(PutNeighbour, ns[1..], t));
      NeighboursReadBack(ns[1..], t);
      assert MapSent(Cut, ns) == [Cut(ns[0])] + MapSent(Cut, ns[1..]);
    }
  }

  // ------------------------------------------------------------ the theorems

  lemma RecordsWrite()
    ensures Writes(PutSsb) && Writes(PutNeighbour)
  {
    hide Int;
    WriteFacts();
    forall s: Ssb, t: Words ensures PutSsb(s, t) == PutSsb(s, []) + t {
      assert [] + t == t;
    }
    forall n: Neighbour, t: Words ensures PutNeighbour(n, t) == PutNeighbour(n, []) + t {
      EachWrites(PutSsb, Take(n.ssbList, NBCELL_SSB_LIST), t);
    }
  }

  lemma NeighboursWrite(x: Info, t: Words)
    ensures PutNeighbours(x, t) == PutNeighbours(x, []) + t
    ensures PutNeighbours(x, []) ==
            [x.nbCellCount] + Each(PutNeighbour, Take(x.nbCellSsbList, Positive(x.nbCellCount)), [])
  {
    hide PutNeighbour, Writes;
    RecordsWrite();
    EachWrites(PutNeighbour, Take(x.nbCellSsbList, Positive(x.nbCellCount)), t);
  }

  lemma ServingWrites(x: Info, t: Words)
    ensures PutServing(x, t) == PutServing(x, []) + t
    ensures PutServing(x, []) == PutBase(x, []) + Each(PutSsb, Take(x.sCellSsbList, SCELL_SSB_LIST), [])
  {
    hide Int, Long, PutSsb, Writes;
    RecordsWrite();
    WriteFacts();
    var ssbs := Each(PutSsb, Take(x.sCellSsbList, SCELL_SSB_LIST), []);
    EachWrites(PutSsb, Take(x.sCellSsbList, SCELL_SSB_LIST), t);
    assert [] + ssbs == ssbs;
  }

  /** What is written does not depend on what follows. */
  lemma PutWrites(x: Info, t: Words)
    ensures Put(x, t) == Put(x, []) + t
    ensures Put(x, []) == PutServing(x, []) + PutNeighbours(x, [])
  {
    hide PutServing, PutNeighbours;
    NeighboursWrite(x, t);
    ServingWrites(x, PutNeighbours(x, t));
    ServingWrites(x, PutNeighbours(x, []));
  }

  /** Reading into a blank object what was written for an object gives that object cut to the
      fixed sizes and leaves what followed, if and only if the serving list has all its entries. */
  lemma SsbRoundTrip(x: Info, t: Words)
    requires x.nbCellCount <= MAX_NBCELL_COUNT && Indexable(x)
    ensures Next(BLANK, Cursor(Put(x, []) + t, true)) == Parsed(Truncated(x), Cursor(t, true))
            <==> |x.sCellSsbList| >= 8
  {
    PutWrites(x, t);
    if |x.sCellSsbList| >= SCELL_SSB_LIST {
      InfoReadsBack(x, t);
    }
  }

  lemma BaseReadsBack(x: Info, t: Words)
    ensures NextBase(BLANK, Cursor(PutBase(x, t), true)) ==
            Parsed(x.(sCellSsbList := [], nbCellCount := 0, nbCellSsbList := []), Cursor(t, true))
  {
    hide NextInt, NextLong, Int, Long;
    ReadFacts();
  }

  lemma ServingReadsBack(x: Info, t: Words)
    requires |x.sCellSsbList| >= SCELL_SSB_LIST
    ensures NextServing(BLANK, Cursor(PutServing(x, t), true)) ==
            Parsed(Truncated(x).(nbCellCount := 0, nbCellSsbList := []), Cursor(t, true))
  {
    hide NextBase, PutBase, NextSsb, PutSsb;
    var ssbs := Take(x.sCellSsbList, SCELL_SSB_LIST);
    BaseReadsBack(x, Each(PutSsb, ssbs, t));
    SsbsReadBack(ssbs, t);
    assert [] + ssbs == ssbs;
  }

  lemma InfoReadsBack(x: Info, t: Words)
    requires x.nbCellCount <= MAX_NBCELL_COUNT && Indexable(x) && |x.sCellSsbList| >= SCELL_SSB_LIST
    ensures Next(BLANK, Cursor(Put(x, t), true)) == Parsed(Truncated(x), Cursor(t, true))
  {
    hide NextInt, Int, NextServing, PutServing, NextNeighbour, PutNeighbour, Cut, FourSsbs, MapSent, Each;
    ReadFacts();
    ServingReadsBack(x, PutNeighbours(x, t));
    var nbs := Take(x.nbCellSsbList, Positive(x.nbCellCount));
    NeighboursReadBack(nbs, t);
    assert [] + MapSent(Cut, nbs) == MapSent(Cut, nbs);
  }

  /** Cutting again changes nothing, and a cut object is written as the original was. */
  lemma TruncationIsIdempotent(x: Info, t: Words)
    ensures Truncated(Truncated(x)) == Truncated(x)
    ensures Put(Truncated(x), t) == Put(x, t)
  {
    var ns := Take(x.nbCellSsbList, Positive(x.nbCellCount));
    CutNeighboursWriteAlike(ns, t);
    assert MapSent(Cut, MapSent(Cut, ns)) == MapSent(Cut, ns);
  }

  lemma {:induction false} CutNeighboursWriteAlike(ns: seq<Neighbour>, t: Words)
    ensures Each(PutNeighbour, MapSent(Cut, ns), t) == Each(PutNeighbour, ns, t)
  {
    if ns != [] {
      CutNeighboursWriteAlike(ns[1..], t);
      assert MapSent(Cut, ns)[1..] == MapSent(Cut, ns[1..]);
      var tail := Each(PutNeighbour, ns[1..], t);
      assert PutNeighbour(Cut(ns[0]), tail) == PutNeighbour(ns[0], tail);
    }
  }

  // ------------------------------------------------------ what a reader accepts

  lemma SsbsExact(n: nat, c: Cursor)
    ensures var r := ListOf(NextSsb, n, c); r.at.ok ==> c.rest == Each(PutSsb, r.value, r.at.rest)
  {
    assert ReadsExactly(PutSsb, NextSsb) by {
      ExactFacts();
    }
    ListExact(PutSsb, NextSsb, n, c);
  }

  lemma NeighbourExact(c: Cursor)
    requires NextNeighbour(c).at.ok
    ensures c.ok && c.rest == PutNeighbour(NextNeighbour(c).value, NextNeighbour(c).at.rest)
    ensures FourSsbs(NextNeighbour(c).value) && Cut(NextNeighbour(c).value) == NextNeighbour(c).value
  {
    hide NextInt, Int, NextSsb, PutSsb;
    ExactFacts();
    var sinr := NextInt(NextInt(NextInt(NextInt(c, 0).at, 0).at, 0).at, 0);
    SsbsExact(NBCELL_SSB_LIST, sinr.at);
  }

  lemma {:induction false} NeighboursExact(n: nat, c: Cursor)
    requires ListOf(NextNeighbour, n, c).at.ok
    ensures var r := ListOf(NextNeighbour, n, c);
            && c.rest == Each(PutNeighbour, r.value, r.at.rest)
            && MapSent(Cut, r.value) == r.value
            && forall x | x in r.value :: FourSsbs(x)
  {
    hide PutNeighbour, NextNeighbour, FourSsbs, Cut;
    if n > 0 {
      var head := NextNeighbour(c);
      NeighbourExact(c);
      NeighboursExact(n - 1, head.at);
      var tail := ListOf(NextNeighbour, n - 1, head.at);
      assert ([head.value] + tail.value)[1..] == tail.value;
    }
  }

  lemma BaseExact(was: Info, c: Cursor)
    requires NextBase(was, c).at.ok
    ensures var r := NextBase(was, c); c.ok && c.rest == PutBase(r.value, r.at.rest)
  {
    hide NextInt, Int, NextLong, Long;
    ExactFacts();
  }

  lemma ServingExact(c: Cursor)
    requires NextServing(BLANK, c).at.ok
    ensures var r := NextServing(BLANK, c);
            && c.ok && c.rest == PutServing(r.value, r.at.rest)
            && |r.value.sCellSsbList| == SCELL_SSB_LIST && r.value.nbCellSsbList == []
  {
    hide NextInt, Int, NextLong, Long, NextSsb, PutSsb;
    var base := NextBase(BLANK, c);
    SsbsExact(SCELL_SSB_LIST, base.at);
    BaseExact(BLANK, c);
    var ssbs := ListOf(NextSsb, SCELL_SSB_LIST, base.at);
    assert [] + ssbs.value == ssbs.value;
  }

  /** Where the neighbour count lies in what is read. */
  const COUNT_AT := 7 + 2 * SCELL_SSB_LIST

  lemma {:induction false} AfterSsbs(xs: seq<Ssb>, t: Words)
    ensures |Each(PutSsb, xs, t)| == 2 * |xs| + |t|
    ensures forall i | 0 <= i < |t| :: Each(PutSsb, xs, t)[2 * |xs| + i] == t[i]
  {
    if xs != [] {
      AfterSsbs(xs[1..], t);
    }
  }

  lemma AfterServing(x: Info, t: Words)
    requires |x.sCellSsbList| == SCELL_SSB_LIST
    ensures |PutServing(x, t)| == COUNT_AT + |t|
    ensures t != [] ==> PutServing(x, t)[COUNT_AT] == t[0]
  {
    hide PutSsb;
    AfterSsbs(x.sCellSsbList, t);
  }

  lemma SameServing(x: Info, y: Info, t: Words)
    requires y == x.(nbCellCount := y.nbCellCount, nbCellSsbList := y.nbCellSsbList)
    ensures PutServing(x, t) == PutServing(y, t)
  {
  }

  /** Every accepted parcel holds, up to where the reader stops, exactly what would be written
      for the object that was read, if and only if its neighbour count is not over the limit. */
  lemma AcceptedIsWritten(c: Cursor)
    requires Next(BLANK, c).at.ok
    ensures var r := Next(BLANK, c);
            && c.ok && |c.rest| > COUNT_AT && Truncated(r.value) == r.value && Indexable(r.value)
            && r.value.nbCellCount == (if c.rest[COUNT_AT] > 4 then 4 else c.rest[COUNT_AT])
            && (c.rest == Put(r.value, r.at.rest) <==> c.rest[COUNT_AT] <= 4)
  {
    hide NextServing, PutServing, NextNeighbour, PutNeighbour, PutSsb;
    ServingExact(c);
    var s := NextServing(BLANK, c);
    var r := Next(BLANK, c);
    var count := NextInt(s.at, 0);
    var nbs := ListOf(NextNeighbour, Positive(Clamp(count.value)), count.at);
    NeighboursExact(Positive(Clamp(count.value)), count.at);
    assert [] + nbs.value == nbs.value;
    AfterServing(s.value, s.at.rest);
    AfterServing(r.value, PutNeighbours(r.value, r.at.rest));
    SameServing(s.value, r.value, s.at.rest);
    assert s.at.rest == Int(count.value, count.at.rest);
  }

  /** Without anything to read the object stays as it was. */
  lemma NothingToRead(was: Info)
    ensures Next(was, Cursor([], true)) == Parsed(was, Cursor([], false))
  {
    assert was.sCellSsbList + [] == was.sCellSsbList;
  }

  /** What an object had in its lists stays in front of what is read; all else is replaced. */
  lemma ReadAppends(was: Info, c: Cursor)
    ensures var read := Next(BLANK, c);
            read.at.ok ==>
              Next(was, c) == read.(value := read.value.(
                sCellSsbList := was.sCellSsbList + read.value.sCellSsbList,
                nbCellSsbList := was.nbCellSsbList + read.value.nbCellSsbList))
  {
    hide NextSsb, NextNeighbour;
    var base := NextBase(BLANK, c);
    var ssbs := ListOf(NextSsb, SCELL_SSB_LIST, base.at);
    var count := NextInt(ssbs.at, 0);
    var nbs := ListOf(NextNeighbour, Positive(Clamp(count.value)), count.at);
    assert [] + ssbs.value == ssbs.value && [] + nbs.value == nbs.value;
  }

  // ---------------------------------------------------------------- the object

  class SsbInformation {
    var arfcn: Word
    var cid: Int64
    var pci: Word
    var rsrp: Word
    var sinr: Word
    var timeAdvance: Word
    var sCellSsbList: seq<Ssb>
    var nbCellCount: Word
    var nbCellSsbList: seq<Neighbour>

    function Value(): Info
      reads this
    {
      Info(arfcn, cid, pci, rsrp, sinr, timeAdvance, sCellSsbList, nbCellCount, nbCellSsbList)
    }

    constructor ()
      ensures Value() == BLANK
    {
      arfcn, cid, pci, rsrp, sinr, timeAdvance := 0, 0, 0, 0, 0, 0;
      sCellSsbList, nbCellCount, nbCellSsbList := [], 0, [];
    }

    /** Keeps no more neighbours than are sent, so that the count is the length of the list. */
    method SetNbCellSsbList(count: Word, list: seq<Neighbour>)
      requires Positive(Clamp(count)) <= |list|
      modifies this`nbCellCount, this`nbCellSsbList
      ensures nbCellCount == Clamp(count) && nbCellSsbList == list[..Positive(Clamp(count))]
      ensures nbCellCount == if count > 4 then 4 else count
      ensures |nbCellSsbList| == if count > 4 then 4 else if count < 0 then 0 else count
    {
      nbCellSsbList := [];
      nbCellCount := Clamp(count);
      var i := 0;
      while i < nbCellCount
        invariant 0 <= i <= Positive(nbCellCount) && nbCellCount == Clamp(count)
        invariant nbCellSsbList == list[..i]
      {
        nbCellSsbList := nbCellSsbList + [list[i]];
        i := i + 1;
      }
    }

    method MarshallingNbCellSsbId(p: Parcel) returns (ok: bool)
      requires Indexable(Value())
      modifies p
      ensures ok <==> nbCellCount <= 4
      ensures p.unread == old(p.unread) + if ok then PutNeighbours(Value(), []) else []
    {
      hide PutNeighbour, PutNeighbours, Each, Take, Positive, Writes, Indexable;
      ghost var start := p.unread;
      if nbCellCount > MAX_NBCELL_COUNT {
        return false;
      }
      RecordsWrite();
      p.Write([nbCellCount]);
      var nbs := Take(nbCellSsbList, Positive(nbCellCount));
      p.WriteEach(PutNeighbour, nbs);
      NeighboursWrite(Value(), []);
      Regroup(start, [nbCellCount], Each(PutNeighbour, nbs, []));
      ok := true;
    }

    method Marshalling(p: Parcel) returns (ok: bool)
      requires Indexable(Value())
      modifies p
      ensures ok <==> nbCellCount <= 4
      ensures p.unread == old(p.unread) + if ok then Put(Value(), []) else PutServing(Value(), [])
    {
      hide PutBase, PutSsb, PutServing, PutNeighbours, Put, Writes;
      RecordsWrite();
      PutWrites(Value(), []);
      ServingWrites(Value(), []);
      p.Write(PutBase(Value(), []));
      p.WriteEach(PutSsb, Take(sCellSsbList, SCELL_SSB_LIST));
      ok := MarshallingNbCellSsbId(p);
    }

    /** Appends what is read to the lists that are there. */
    method ReadFromParcel(p: Parcel) returns (ok: bool)
      modifies this, p
      ensures Parsed(Value(), Cursor(p.unread, ok)) == Next(old(Value()), Cursor(old(p.unread), true))
    {
      hide NextBase, NextSsb, NextNeighbours;
      var was := Value();
      var base;
      ok, base := p.Run(c => NextBase(was, c));
      arfcn, cid, pci := base.arfcn, base.cid, base.pci;
      rsrp, sinr, timeAdvance := base.rsrp, base.sinr, base.timeAdvance;
      if !ok {
        assert sCellSsbList + [] == sCellSsbList;
        return;
      }
      var ssbs;
      ok, ssbs := p.ReadList(NextSsb, SCELL_SSB_LIST);
      sCellSsbList := sCellSsbList + ssbs;
      if ok {
        ok := ReadFromParcelForNbCell(p);
      }
    }

    method ReadFromParcelForNbCell(p: Parcel) returns (ok: bool)
      modifies this, p
      ensures Parsed(Value(), Cursor(p.unread, ok)) == NextNeighbours(old(Value()), Cursor(old(p.unread), true))
    {
      hide NextNeighbour;
      var count;
      ok, count := p.ReadInt32();
      if !ok {
        return;
      }
      nbCellCount := Clamp(count);
      var nbs;
      ok, nbs := p.ReadList(NextNeighbour, Positive(nbCellCount));
      nbCellSsbList := nbCellSsbList + nbs;
    }
  }
}
