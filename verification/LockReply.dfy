/** The answers of the SIM lock calls.

    `UnlockPin` reads the two extra words of an answer when the answer's own code says
    success; `SetLockState` instead looks at what its result cell already holds. */
module LockReply {
  import opened Wire
  import Rendezvous

  const UNLOCK_INCORRECT: Word := -1

  /** *result, *resultTmp and *reMainTmp. */
  datatype Cells = Cells(code: Word, result: Word, remain: Word)

  /** LockStatusResponse. */
  datatype Response = Response(result: Word, remain: Word)

  function WordAt(data: Words, i: nat): Word { if i < |data| then data[i] else 0 }

  function PinStep(c: Cells, data: Words): Cells {
    if WordAt(data, 0) == 0 then Cells(0, WordAt(data, 1), WordAt(data, 2)) else c.(code := WordAt(data, 0))
  }

  function LockStep(c: Cells, data: Words): Cells {
    if c.result == 0 then Cells(WordAt(data, 0), WordAt(data, 1), WordAt(data, 2))
    else c.(code := WordAt(data, 0))
  }

  /** The reader that `UnlockPin` passes to its callback, as it runs on a delivered parcel. */
  method ReadPinAnswer(c: Cells, data: Parcel) returns (r: Cells)
    modifies data
    ensures r == PinStep(c, old(data.unread))
  {
    var _, code := data.ReadInt32();
    r := c.(code := code);
    if r.code == 0 {
      var _, result := data.ReadInt32();
      var _, remain := data.ReadInt32();
      r := r.(result := result, remain := remain);
    }
  }

  /** The reader that `SetLockState` passes to its callback. */
  method ReadLockAnswer(c: Cells, data: Parcel) returns (r: Cells)
    modifies data
    ensures r == LockStep(c, old(data.unread))
  {
    var _, code := data.ReadInt32();
    r := c.(code := code);
    if r.result == 0 {
      var _, result := data.ReadInt32();
      var _, remain := data.ReadInt32();
      r := r.(result := result, remain := remain);
    }
  }

  /** What the caller of either function gets once the wait has succeeded. */
  function Answer(c: Cells, was: Response): (Word, Response) {
    (c.code,
     if c.code != 0 then was
     else Response(c.result, if c.result == UNLOCK_INCORRECT then c.remain else was.remain))
  }

  function Fresh(stubFail: Word): Cells { Cells(stubFail, 0, 0) }

  /** For every single delivered parcel, complete or cut short, the two calls give the caller
      the same code, result and remaining attempts. */
  lemma OneDeliveryAgrees(stubFail: Word, data: Words, was: Response)
    ensures Answer(LockStep(Fresh(stubFail), data), was) == Answer(PinStep(Fresh(stubFail), data), was)
  {
  }

  /** What the caller gets for one delivered parcel: on success the result, with the remaining
      attempts if the code was wrong; on an error nothing but the error. */
  lemma AnswerOfParcel(stubFail: Word, code: Word, result: Word, remain: Word, t: Words, was: Response)
    ensures Answer(PinStep(Fresh(stubFail), Int(code, Int(result, Int(remain, t)))), was) ==
            (code, if code != 0 then was else Response(result, if result == -1 then remain else was.remain))
  {
  }

  // ------------------------------------------------ the calls in every interleaving

  /** How either call copies its cells out. */
  function Give(out: Response, cells: Response): Response {
    Response(cells.result, if cells.result == UNLOCK_INCORRECT then cells.remain else out.remain)
  }

  datatype Which = UnlockPin | SetLockState

  function CallOf(which: Which, was: Response, stubFail: Rendezvous.ErrorCode): Rendezvous.Call<Response> {
    Rendezvous.Call(
      was, Response(0, 0), stubFail,
      (code: Word, cells: Response) => if which.UnlockPin? then code == 0 else cells.result == 0,
      Give)
  }

  function ReplyIn(data: Words): Rendezvous.Reply<Response> {
    Rendezvous.Reply(WordAt(data, 0), Response(WordAt(data, 1), WordAt(data, 2)))
  }

  /** The two writes of a delivery, code first and then the words if the reader takes them, are
      what the reader does to its cells. */
  lemma WritesAreReaders(which: Which, was: Response, stubFail: Rendezvous.ErrorCode, c: Cells, data: Words)
    ensures var reply, held := ReplyIn(data), Response(c.result, c.remain);
            var words := if CallOf(which, was, stubFail).takes(reply.code, held) then reply.payload else held;
            Cells(reply.code, words.result, words.remain) ==
            if which.UnlockPin? then PinStep(c, data) else LockStep(c, data)
  {
  }

  /** In every interleaving with at most one accepted delivery either call ends safely; when it
      is answered, its caller gets what one undisturbed delivery of that parcel gives. */
  lemma LockCallIsSafe(
      which: Which, was: Response, stubFail: Rendezvous.ErrorCode,
      ss: seq<Rendezvous.State<Response>>, es: seq<Rendezvous.Event<Response>>, i: nat)
    requires Rendezvous.Run(CallOf(which, was, stubFail), ss, es)
    requires i < |ss| && Rendezvous.AtMostOne(ss[i])
    ensures Rendezvous.EndsSafely(ss[i], CallOf(which, was, stubFail))
    ensures ss[i].place.Returned? && ss[i].place.how.Answered? ==>
              exists d :: Rendezvous.Complete(ss[i], d) && forall data | ReplyIn(data) == ss[i].replies[d] ::
                (ss[i].place.code, ss[i].out) == Answer(LockStep(Fresh(stubFail), data), was)
                                              == Answer(PinStep(Fresh(stubFail), data), was)
  {
    Rendezvous.CallIsSafe(CallOf(which, was, stubFail), ss, es, i);
    if ss[i].place.Returned? && ss[i].place.how.Answered? {
      var d :| Rendezvous.Complete(ss[i], d) && Rendezvous.AnswerOf(ss[i], CallOf(which, was, stubFail), d);
      forall data | ReplyIn(data) == ss[i].replies[d]
        ensures (ss[i].place.code, ss[i].out) == Answer(LockStep(Fresh(stubFail), data), was)
                                              == Answer(PinStep(Fresh(stubFail), data), was)
      {
        OneDeliveryAgrees(stubFail, data, was);
      }
    }
  }

  // ------------------------------------------------------- several deliveries

  function PinAll(c: Cells, ds: seq<Words>): Cells {
    if ds == [] then c else PinStep(PinAll(c, ds[..|ds| - 1]), ds[|ds| - 1])
  }

  function LockAll(c: Cells, ds: seq<Words>): Cells {
    if ds == [] then c else LockStep(LockAll(c, ds[..|ds| - 1]), ds[|ds| - 1])
  }

  /** The first delivery with a nonzero result word, or else the last delivery. */
  function Sticking(ds: seq<Words>): (d: Words)
    requires ds != []
  {
    if |ds| == 1 || WordAt(ds[0], 1) != 0 then ds[0] else Sticking(ds[1..])
  }

  lemma {:induction false} StickingSnoc(ds: seq<Words>, d: Words)
    requires ds != []
    ensures Sticking(ds + [d]) == if WordAt(Sticking(ds), 1) != 0 then Sticking(ds) else d
  {
    assert (ds + [d])[0] == ds[0];
    if |ds| > 1 {
      StickingSnoc(ds[1..], d);
      assert (ds + [d])[1..] == ds[1..] + [d];
    } else {
      assert (ds + [d])[1..] == [d];
    }
  }

  lemma {:induction false} CellsAfter(stubFail: Word, ds: seq<Words>)
    requires ds != []
    ensures var d := Sticking(ds);
            LockAll(Fresh(stubFail), ds) == Cells(WordAt(ds[|ds| - 1], 0), WordAt(d, 1), WordAt(d, 2))
    ensures var last := ds[|ds| - 1];
            && PinAll(Fresh(stubFail), ds).code == WordAt(last, 0)
            && (WordAt(last, 0) == 0 ==> PinAll(Fresh(stubFail), ds) == Cells(0, WordAt(last, 1), WordAt(last, 2)))
  {
    var front, last := ds[..|ds| - 1], ds[|ds| - 1];
    if front == [] {
      assert PinAll(Fresh(stubFail), front) == Fresh(stubFail);
    } else {
      CellsAfter(stubFail, front);
      StickingSnoc(front, last);
      assert ds == front + [last];
    }
  }

  /** Delivery `i` is the last that reports success. */
  predicate LastSuccess(ds: seq<Words>, i: nat) {
    i < |ds| && WordAt(ds[i], 0) == 0 && forall j | i < j < |ds| :: WordAt(ds[j], 0) != 0
  }

  /** The PIN cells hold the last code, and the words of the last delivery that reported
      success. */
  lemma {:induction false} PinCellsAfter(stubFail: Word, ds: seq<Words>, i: nat)
    requires LastSuccess(ds, i)
    ensures PinAll(Fresh(stubFail), ds) == Cells(WordAt(ds[|ds| - 1], 0), WordAt(ds[i], 1), WordAt(ds[i], 2))
  {
    if i < |ds| - 1 {
      PinCellsAfter(stubFail, ds[..|ds| - 1], i);
    }
  }

  /** While no delivery reports success the words stay as they were made. */
  lemma {:induction false} PinCellsUntouched(stubFail: Word, ds: seq<Words>)
    requires ds != [] && forall i | 0 <= i < |ds| :: WordAt(ds[i], 0) != 0
    ensures PinAll(Fresh(stubFail), ds) == Cells(WordAt(ds[|ds| - 1], 0), 0, 0)
  {
    var front := ds[..|ds| - 1];
    if front == [] {
      assert PinAll(Fresh(stubFail), front) == Fresh(stubFail);
    } else {
      PinCellsUntouched(stubFail, front);
    }
  }

  /** With several deliveries before the caller looks, the calls agree if and only if the last
      one reports an error, or the first one with a nonzero result carries the same answer. */
  lemma DeliveriesAgree(stubFail: Word, ds: seq<Words>, was: Response)
    requires ds != []
    ensures var first, last := Sticking(ds), ds[|ds| - 1];
            Answer(LockAll(Fresh(stubFail), ds), was) == Answer(PinAll(Fresh(stubFail), ds), was)
            <==>
            || WordAt(last, 0) != 0
            || (WordAt(first, 1) == WordAt(last, 1)
                && (WordAt(last, 1) == UNLOCK_INCORRECT ==> WordAt(first, 2) == WordAt(last, 2)))
  {
    CellsAfter(stubFail, ds);
  }
}
