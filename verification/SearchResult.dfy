/** The result of a network search and the two callbacks that read more words after it. */
module SearchResult {
  import opened Wire

  const AVAILABLE_NETWORK_LIST_LENGTH := 50

  datatype Network = Network(
    operatorLongName: Text, operatorShortName: Text, operatorNumeric: Text,
    networkPlmnState: Word, rat: Word, rscp: Word)

  datatype Result = Result(listSize: Word, operatorInfoList: seq<Network>)

  const EMPTY := Result(0, [])

  // ---------------------------------------------------------------- the codec

  /** Every element is preceded by a word that says it is present. */
  function PutNetwork(x: Network, t: Words): Words {
    Int(1, Str(x.operatorLongName, Str(x.operatorShortName, Str(x.operatorNumeric,
      Int(x.networkPlmnState, Int(x.rat, Int(x.rscp, t)))))))
  }

  /** The names are read without looking at failures, the numbers are checked. */
  function NextNetwork(c: Cursor): Parsed<Network> {
    var present := NextInt(c, 0);
    var here := present.at.(ok := present.at.ok && present.value != 0);
    if !here.ok then Parsed(Network([], [], [], 0, 0, 0), here)
    else
      var longName := LaxText(here);
      var shortName := LaxText(longName.at);
      var numeric := LaxText(shortName.at);
      var state := NextInt(numeric.at, 0);
      var rat := NextInt(state.at, 0);
      var rscp := NextInt(rat.at, 0);
      Parsed(Network(longName.value, shortName.value, numeric.value, state.value, rat.value, rscp.value), rscp.at)
  }

  /** The size that is written is the stored one, not the length of the list. */
  function Put(x: Result, t: Words): Words { Int(x.listSize, Each(PutNetwork, x.operatorInfoList, t)) }

  function Next(was: Result, c: Cursor): Parsed<Result> {
    var size := NextInt(c, was.listSize);
    if !size.at.ok then Parsed(was, size.at)
    else if size.value > AVAILABLE_NETWORK_LIST_LENGTH then Parsed(was.(listSize := size.value), size.at.(ok := false))
    else
      var list := ListOf(NextNetwork, Positive(size.value), size.at);
      Parsed(Result(size.value, was.operatorInfoList + list.value), list.at)
  }

  /** The stored size is the length of the list and not over the limit; a negative size counts
      as the size of an empty list. */
  predicate Fits(x: Result) {
    x.listSize <= 50 && |x.operatorInfoList| == Positive(x.listSize)
  }

  lemma NetworkWrites()
    ensures Writes(PutNetwork)
  {
    hide Int, Str;
    WriteFacts();
    forall x: Network, t: Words ensures PutNetwork(x, t) == PutNetwork(x, []) + t {
      assert [] + t == t;
    }
  }

  lemma NetworksReadBack(xs: seq<Network>, t: Words)
    ensures ListOf(NextNetwork, |xs|, Cursor(Each(PutNetwork, xs, t), true)) == Parsed(xs, Cursor(t, true))
  {
    assert ReadsBack(PutNetwork, NextNetwork, (x: Network) => true, (x: Network) => x) by {
      hide Int, Str, NextInt, LaxText;
      ReadFacts();
    }
    hide PutNetwork, NextNetwork, ReadsBack;
    ListRoundTrip(PutNetwork, NextNetwork, (x: Network) => true, (x: Network) => x, xs, t);
    assert MapSent((x: Network) => x, xs) == xs;
  }

  lemma PutWrites(x: Result, t: Words)
    ensures Put(x, t) == Put(x, []) + t
  {
    hide PutNetwork, Writes;
    NetworkWrites();
    EachWrites(PutNetwork, x.operatorInfoList, t);
  }

  /** A written result is read back, with its end found, if and only if it fits; and nothing
      else ever comes back as the result that was sent. */
  lemma ResultRoundTrip(x: Result, t: Words)
    ensures var r := Next(EMPTY, Cursor(Put(x, []) + t, true));
            && (r.at.ok && r.value == x <==> Fits(x))
            && (Fits(x) ==> r.at.rest == t)
  {
    hide PutNetwork, NextNetwork;
    PutWrites(x, t);
    var r := Next(EMPTY, Cursor(Put(x, t), true));
    assert Put(x, t)[1..] == Each(PutNetwork, x.operatorInfoList, t);
    if Fits(x) {
      NetworksReadBack(x.operatorInfoList, t);
      assert [] + x.operatorInfoList == x.operatorInfoList;
    }
  }

  // ------------------------------------------------------------- the callbacks

  datatype Answer = NoResult | Answered(result: Result)

  function Unmarshalled(c: Cursor): Parsed<Answer> {
    var r := Next(EMPTY, c);
    Parsed(if r.at.ok then Answered(r.value) else NoResult, r.at)
  }

  /** The search handler hands on what it could read and the word after it. */
  function SearchAnswer(c: Cursor): Parsed<(Answer, Word)> {
    var r := Unmarshalled(c);
    var error := LaxInt(r.at);
    Parsed((r.value, error.value), error.at)
  }

  /** The manual scan handler hands on what it could read, a flag and a slot. */
  function ScanAnswer(c: Cursor): Parsed<(Answer, bool, Word)> {
    var r := Unmarshalled(c);
    var isFinish := LaxBool(r.at);
    var slotId := LaxInt(isFinish.at);
    Parsed((r.value, isFinish.value, slotId.value), slotId.at)
  }

  /** The search handler is given the result that was sent if and only if it fits, and then
      the error code that was sent with it. */
  lemma SearchDelivers(x: Result, error: Word, t: Words)
    ensures var r := SearchAnswer(Cursor(Put(x, []) + Int(error, t), true));
            && (r.value.0 == Answered(x) <==> Fits(x))
            && (Fits(x) ==> r == Parsed((Answered(x), error), Cursor(t, true)))
  {
    hide Next, Put;
    ResultRoundTrip(x, Int(error, t));
    ReadFacts();
  }

  lemma ScanDelivers(x: Result, isFinish: bool, slotId: Word, t: Words)
    ensures var r := ScanAnswer(Cursor(Put(x, []) + Bool(isFinish, Int(slotId, t)), true));
            && (r.value.0 == Answered(x) <==> Fits(x))
            && (Fits(x) ==> r == Parsed((Answered(x), isFinish, slotId), Cursor(t, true)))
  {
    hide Next, Put;
    ResultRoundTrip(x, Bool(isFinish, Int(slotId, t)));
    assert Bool(isFinish, Int(slotId, t))[1..] == Int(slotId, t);
    ReadFacts();
  }

  /** A refused result still leaves its words behind: both handlers go on with the word after the
      size, which is the first of the list and not what was sent after it. */
  lemma RefusedMisreads(size: Word, first: Word, second: Word, t: Words)
    requires size > 50
    ensures SearchAnswer(Cursor(Int(size, Int(first, t)), true)).value == (NoResult, first)
    ensures ScanAnswer(Cursor(Int(size, Int(first, Int(second, t))), true)).value == (NoResult, first != 0, second)
  {
    hide Int, NextInt, LaxInt;
    ReadFacts();
    assert LaxBool(Cursor(Int(first, Int(second, t)), false)).value == (first != 0);
  }

  /** Without anything to read, both handlers hand on no result and zeros. */
  lemma NothingToRead(was: Result)
    ensures Next(was, Cursor([], true)) == Parsed(was, Cursor([], false))
    ensures SearchAnswer(Cursor([], true)).value == (NoResult, 0)
    ensures ScanAnswer(Cursor([], true)).value == (NoResult, false, 0)
  {
  }

  /** A network that is marked as absent ends the reading. */
  lemma AbsentIsRefused(c: Cursor)
    ensures NextNetwork(c).at.ok ==> |c.rest| > 0 && c.rest[0] != 0
  {
  }

  /** An accepted result is appended to the networks that are there. */
  lemma ReadAppends(was: Result, c: Cursor)
    ensures var read := Next(EMPTY, c);
            read.at.ok ==>
              Next(was, c) == read.(value := Result(read.value.listSize,
                                                    was.operatorInfoList + read.value.operatorInfoList))
  {
    hide NextNetwork;
    var list := ListOf(NextNetwork, Positive(NextInt(c, 0).value), NextInt(c, 0).at).value;
    assert [] + list == list;
  }

  // ---------------------------------------------------------------- the object

  class SearchResult {
    var listSize: Word
    var operatorInfoList: seq<Network>

    function Value(): Result
      reads this
    {
      Result(listSize, operatorInfoList)
    }

    constructor ()
      ensures Value() == EMPTY
    {
      listSize, operatorInfoList := 0, [];
    }

    method Marshalling(p: Parcel)
      modifies p
      ensures p.unread == old(p.unread) + Put(Value(), [])
    {
      hide PutNetwork, Writes;
      NetworkWrites();
      p.Write([listSize]);
      p.WriteEach(PutNetwork, operatorInfoList);
      assert Put(Value(), []) == [listSize] + Each(PutNetwork, operatorInfoList, []);
    }

    /** Appends to the list that is there. */
    method ReadFromParcel(p: Parcel) returns (ok: bool)
      modifies this, p
      ensures Parsed(Value(), Cursor(p.unread, ok)) == Next(old(Value()), Cursor(old(p.unread), true))
    {
      hide NextNetwork;
      var size;
      ok, size := p.ReadInt32();
      if !ok {
        return;
      }
      listSize := size;
      if listSize > AVAILABLE_NETWORK_LIST_LENGTH {
        return false;
      }
      ghost var was, read := operatorInfoList, [];
      ghost var list := ListOf(NextNetwork, Positive(listSize), Cursor(p.unread, true));
      var i := 0;
      while i < listSize
        invariant 0 <= i <= Positive(listSize) && listSize == size
        invariant operatorInfoList == was + read
        invariant ReadSoFar(NextNetwork, list, read, Positive(listSize) - i, Cursor(p.unread, true))
      {
        ReadOneMore(NextNetwork, list, read, Positive(listSize) - i, Cursor(p.unread, true));
        var network;
        ok, network := p.Run(NextNetwork);
        if !ok {
          return;
        }
        operatorInfoList := operatorInfoList + [network];
        read := read + [network];
        i := i + 1;
      }
      assert read + [] == read;
      ok := true;
    }
  }

  method Unmarshalling(p: Parcel) returns (r: SearchResult?)
    modifies p
    ensures r != null ==> fresh(r)
    ensures Parsed(if r == null then NoResult else Answered(r.Value()), Cursor(p.unread, r != null)) ==
            Unmarshalled(Cursor(old(p.unread), true))
  {
    hide Next;
    var param := new SearchResult();
    var ok := param.ReadFromParcel(p);
    r := if ok then param else null;
  }

  method OnGetNetworkSearchInformation(p: Parcel) returns (callback: SearchResult?, error: Word)
    modifies p
    ensures callback != null ==> fresh(callback)
    ensures var r := SearchAnswer(Cursor(old(p.unread), true));
            && p.unread == r.at.rest
            && r.value == (if callback == null then NoResult else Answered(callback.Value()), error)
  {
    hide Unmarshalled;
    callback := Unmarshalling(p);
    var _, e := p.ReadInt32();
    error := e;
  }

  method OnStartManualNetworkScanCallback(p: Parcel) returns (callback: SearchResult?, isFinish: bool, slotId: Word)
    modifies p
    ensures callback != null ==> fresh(callback)
    ensures var r := ScanAnswer(Cursor(old(p.unread), true));
            && p.unread == r.at.rest
            && r.value == (if callback == null then NoResult else Answered(callback.Value()), isFinish, slotId)
  {
    hide Unmarshalled;
    callback := Unmarshalling(p);
    var _, finished := p.ReadInt32();
    isFinish := finished != 0;
    var _, slot := p.ReadInt32();
    slotId := slot;
  }
}
