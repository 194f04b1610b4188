/** The one-shot rendezvous between a client call and the raw-parcel callback it sends.

    The client sends a request with a callback, waits for it, and copies the answer out.
    The callback runs on an IPC thread; it reaches the client's result cells through weak
    references, so it can find them gone.  Every access to shared data is one step. */
module Rendezvous {
  import opened Wire

  /** An error code; success is zero. */
  type ErrorCode = w: Word | w != 0 witness 1

  /** What a delivered parcel says: a return code and, on success, a payload. */
  datatype Reply<T> = Reply(code: Word, payload: T)

  /** Why a call ended. */
  datatype How = SendFailed | TimedOut | Answered

  datatype Place =
    | Calling                                // the request is being sent
    | Waiting                                // WaitForResult
    | Woken                                  // WaitForResult returned true
    | Copying                                // *result was success
    | Leaving
    | Returned(code: Word, how: How)

  datatype Stage =
    | Arrived                                // descriptor accepted, or same process
    | Holding                                // weak references locked
    | CodeWritten
    | Written
    | Emptied                                // weak references were gone
    | Finished(wrote: bool)

  datatype State<T> = State(
    place: Place,
    out: T,                                  // the caller's out parameter
    code: Word,                              // *result
    payload: T,                              // *imeiTmp and the like
    done: bool,
    replies: map<nat, Reply<T>>,
    stage: map<nat, Stage>)

  datatype Event<T> =
    | Send(ret: Word)
    | Mismatch                               // a delivery with another descriptor
    | Arrive(delivery: nat, reply: Reply<T>)
    | Lock(delivery: nat)
    | WriteCode(delivery: nat)
    | WritePayload(delivery: nat)
    | Notify(delivery: nat)
    | Wake
    | TimeOut
    | Check
    | Copy
    | Return

  /** One of the raw-callback calls: the caller's out parameter, a fresh payload cell, the code
      the result cell starts with, whether the reader goes on to the payload with what the
      cells then hold, and how a payload is copied out. */
  datatype Call<!T> = Call(
    out: T, blank: T, stubFail: ErrorCode, takes: (Word, T) -> bool, give: (T, T) -> T)

  /** A reader that takes the payload of a first answer that reports success. */
  predicate TakesSuccess<T>(call: Call<T>) { call.takes(0, call.blank) }

  function Start<T>(call: Call<T>): State<T> {
    State(Calling, call.out, call.stubFail, call.blank, false, map[], map[])
  }

  predicate Holds(g: Stage) { g.Holding? || g.CodeWritten? || g.Written? }

  /** The result cells live while the client is in the call or a callback has locked them. */
  predicate CellsAlive<T>(s: State<T>) {
    !s.place.Returned? || exists d | d in s.stage :: Holds(s.stage[d])
  }

  predicate At<T>(s: State<T>, d: nat, g: Stage) { d in s.stage && s.stage[d] == g }

  predicate Enabled<T>(s: State<T>, e: Event<T>) {
    match e
    case Send(_) => s.place.Calling?
    case Mismatch => true
    case Arrive(d, _) => d !in s.stage
    case Lock(d) => At(s, d, Arrived)
    case WriteCode(d) => At(s, d, Holding) && d in s.replies
    case WritePayload(d) => At(s, d, CodeWritten) && d in s.replies
    case Notify(d) => At(s, d, Written) || At(s, d, Emptied)
    case Wake => s.place.Waiting? && s.done
    case TimeOut => s.place.Waiting? && !s.done
    case Check => s.place.Woken?
    case Copy => s.place.Copying?
    case Return => s.place.Leaving?
  }

  function Next<T>(call: Call<T>, s: State<T>, e: Event<T>): State<T>
    requires Enabled(s, e)
  {
    match e
    case Send(ret) => s.(place := if ret != 0 then Returned(ret, SendFailed) else Waiting)
    case Mismatch => s
    case Arrive(d, reply) => s.(stage := s.stage[d := Arrived], replies := s.replies[d := reply])
    case Lock(d) => s.(stage := s.stage[d := if CellsAlive(s) then Holding else Emptied])
    case WriteCode(d) => s.(code := s.replies[d].code, stage := s.stage[d := CodeWritten])
    case WritePayload(d) =>
      s.(payload := if call.takes(s.code, s.payload) then s.replies[d].payload else s.payload,
         stage := s.stage[d := Written])
    case Notify(d) => s.(done := true, stage := s.stage[d := Finished(s.stage[d].Written?)])
    case Wake => s.(place := Woken)
    case TimeOut => s.(place := Returned(call.stubFail, TimedOut))
    case Check => s.(place := if s.code == 0 then Copying else Leaving)
    case Copy => s.(out := call.give(s.out, s.payload), place := Leaving)
    case Return => s.(place := Returned(s.code, Answered))
  }

  ghost predicate Run<T>(call: Call<T>, ss: seq<State<T>>, es: seq<Event<T>>) {
    && |ss| == |es| + 1
    && ss[0] == Start(call)
    && forall i | 0 <= i < |es| :: Enabled(ss[i], es[i]) && ss[i + 1] == Next(call, ss[i], es[i])
  }

  /** The service answers a request at most once. */
  ghost predicate AtMostOne<T>(s: State<T>) {
    forall d, d' | d in s.stage && d' in s.stage :: d == d'
  }

  /** Delivery `d` has been written out in full and signalled. */
  predicate Complete<T>(s: State<T>, d: nat) {
    At(s, d, Finished(true)) && d in s.replies
  }

  ghost predicate CellsMatch<T>(s: State<T>, call: Call<T>, d: nat)
    requires d in s.stage && d in s.replies
  {
    var reply := s.replies[d];
    match s.stage[d]
    case Arrived => s.code == call.stubFail && s.payload == call.blank
    case Holding => s.code == call.stubFail && s.payload == call.blank
    case CodeWritten => s.code == reply.code && s.payload == call.blank
    case Written => s.code == reply.code && (reply.code == 0 ==> s.payload == reply.payload)
    case Emptied => s.place.Returned?
    case Finished(wrote) =>
      if wrote then s.code == reply.code && (reply.code == 0 ==> s.payload == reply.payload)
      else s.place.Returned?
  }

  ghost predicate Inv<T>(s: State<T>, call: Call<T>) {
    && s.stage.Keys == s.replies.Keys
    && (forall d | d in s.stage :: CellsMatch(s, call, d))
    && (s.stage == map[] ==> s.code == call.stubFail && s.payload == call.blank)
    && (s.done ==> exists d :: d in s.stage && s.stage[d].Finished?)
    && match s.place
       case Calling => s.out == call.out
       case Waiting => s.out == call.out
       case Woken => s.out == call.out && exists d :: Complete(s, d)
       case Copying => s.out == call.out && s.code == 0 && exists d :: Complete(s, d)
       case Leaving =>
         s.out == (if s.code == 0 then call.give(call.out, s.payload) else call.out) && exists d :: Complete(s, d)
       case Returned(code, how) =>
         if how.Answered? then exists d :: Complete(s, d) && AnswerOf(s, call, d) else s.out == call.out && code != 0
  }

  /** The caller got exactly delivery `d`: its code, and its payload if that says success. */
  ghost predicate AnswerOf<T>(s: State<T>, call: Call<T>, d: nat)
    requires d in s.replies && s.place.Returned?
  {
    && s.place.code == s.replies[d].code
    && s.out == if s.place.code == 0 then call.give(call.out, s.replies[d].payload) else call.out
  }

  predicate ByClient<T>(e: Event<T>) {
    e.Send? || e.Wake? || e.TimeOut? || e.Check? || e.Copy? || e.Return?
  }

  lemma ClientKeepsInv<T>(s: State<T>, e: Event<T>, call: Call<T>)
    requires TakesSuccess(call) && Inv(s, call) && Enabled(s, e) && AtMostOne(s) && ByClient(e)
    ensures Inv(Next(call, s, e), call)
  {
    var s' := Next(call, s, e);
    if s.place.Woken? || s.place.Copying? || s.place.Leaving? {
      var d :| Complete(s, d);
      assert Complete(s', d);
    } else if e.Wake? {
      var d :| d in s.stage && s.stage[d].Finished?;
      assert Complete(s', d);
    }
  }

  lemma DeliveryKeepsInv<T>(s: State<T>, e: Event<T>, call: Call<T>)
    requires TakesSuccess(call) && Inv(s, call) && Enabled(s, e) && !ByClient(e)
    requires AtMostOne(s) && AtMostOne(Next(call, s, e))
    ensures Inv(Next(call, s, e), call)
  {
    var s' := Next(call, s, e);
    if s.place.Returned? && s.place.how.Answered? {
      var d :| Complete(s, d) && AnswerOf(s, call, d);
      assert Complete(s', d) && AnswerOf(s', call, d);
    } else if s.place.Woken? || s.place.Copying? || s.place.Leaving? {
      var d :| Complete(s, d);
      assert Complete(s', d);
    }
    if e.Arrive? {
      assert e.delivery in s'.stage;
      assert forall d | d in s.stage :: d in s'.stage;
      assert s.stage.Keys == {};
    }
    if s'.done {
      var d :| if s.done then d in s.stage && s.stage[d].Finished? else e.Notify? && d == e.delivery;
      assert d in s'.stage && s'.stage[d].Finished?;
    }
  }

  /** Deliveries are never forgotten, so a run that ends with one had no more before. */
  lemma {:induction false} Reachable<T>(
      call: Call<T>, ss: seq<State<T>>, es: seq<Event<T>>, i: nat)
    requires TakesSuccess(call) && Run(call, ss, es) && i < |ss| && AtMostOne(ss[i])
    ensures Inv(ss[i], call)
  {
    if i > 0 {
      assert ss[i - 1].stage.Keys <= ss[i].stage.Keys;
      Reachable(call, ss, es, i - 1);
      hide Inv;
      if ByClient(es[i - 1]) {
        ClientKeepsInv(ss[i - 1], es[i - 1], call);
      } else {
        DeliveryKeepsInv(ss[i - 1], es[i - 1], call);
      }
    }
  }

  /** A call that returned with an answer gave the caller exactly one delivery; one that
      failed to send or timed out returned an error and left the out parameter alone. */
  ghost predicate EndsSafely<T>(s: State<T>, call: Call<T>) {
    s.place.Returned? ==>
      if s.place.how.Answered? then exists d :: Complete(s, d) && AnswerOf(s, call, d)
      else s.place.code != 0 && s.out == call.out
  }

  /** In every interleaving with at most one accepted delivery the call ends safely, and
      success means that the out parameter is that delivery's payload. */
  lemma CallIsSafe<T>(call: Call<T>, ss: seq<State<T>>, es: seq<Event<T>>, i: nat)
    requires TakesSuccess(call) && Run(call, ss, es) && i < |ss| && AtMostOne(ss[i])
    ensures EndsSafely(ss[i], call)
    ensures ss[i].place.Returned? && ss[i].place.code == 0 ==>
              exists d :: Complete(ss[i], d) && ss[i].replies[d].code == 0
                          && ss[i].out == call.give(call.out, ss[i].replies[d].payload)
  {
    Reachable(call, ss, es, i);
    if ss[i].place.Returned? && ss[i].place.how.Answered? {
      var d :| Complete(ss[i], d) && AnswerOf(ss[i], call, d);
      assert Complete(ss[i], d) && ss[i].replies[d].code == ss[i].place.code;
    }
  }

  /** What an unanswered call returns: the code of the request that could not be sent, or the
      code its result cell started with. */
  lemma {:induction false} FailureCode<T>(call: Call<T>, ss: seq<State<T>>, es: seq<Event<T>>, i: nat)
    requires Run(call, ss, es) && i < |ss| && ss[i].place.Returned? && !ss[i].place.how.Answered?
    ensures ss[i].place.how.SendFailed? ==> exists j :: 0 <= j < i && es[j] == Send(ss[i].place.code)
    ensures ss[i].place.how.TimedOut? ==> ss[i].place.code == call.stubFail && TimeOut in es[..i]
  {
    var e := es[i - 1];
    if ss[i - 1].place == ss[i].place {
      FailureCode(call, ss, es, i - 1);
      assert es[..i] == es[..i - 1] + [e];
    } else {
      assert es[..i][i - 1] == e;
      assert e.TimeOut? || e == Send(ss[i].place.code);
    }
  }

  lemma LateStep<T>(call: Call<T>, s: State<T>, e: Event<T>)
    requires Enabled(s, e) && s.place.Returned?
    ensures var s' := Next(call, s, e); s'.place == s.place && s'.out == s.out
    ensures var s' := Next(call, s, e);
            !CellsAlive(s) ==> !CellsAlive(s') && s'.code == s.code && s'.payload == s.payload
  {
    var s' := Next(call, s, e);
    if !CellsAlive(s) {
      forall d | d in s'.stage ensures !Holds(s'.stage[d]) {
        assert d in s.stage ==> !Holds(s.stage[d]);
      }
    }
  }

  /** No delivery is between locking the weak references and signalling. */
  ghost predicate NoneWriting<T>(s: State<T>) {
    forall d | d in s.stage :: s.stage[d].Arrived? || s.stage[d].Emptied? || s.stage[d].Finished?
  }

  /** After the call has returned nothing changes what the caller sees, and, for any number
      of deliveries, once none is writing the cells no later one writes them. */
  lemma {:induction false} LateDeliveryIsHarmless<T>(
      call: Call<T>, ss: seq<State<T>>, es: seq<Event<T>>, i: nat, j: nat)
    requires Run(call, ss, es) && i <= j < |ss|
    requires ss[i].place.Returned?
    ensures ss[j].place == ss[i].place && ss[j].out == ss[i].out
    ensures NoneWriting(ss[i]) ==>
              && NoneWriting(ss[j]) && !CellsAlive(ss[j])
              && ss[j].code == ss[i].code && ss[j].payload == ss[i].payload
    decreases j
  {
    if i < j {
      LateDeliveryIsHarmless(call, ss, es, i, j - 1);
      LateStep(call, ss[j - 1], es[j - 1]);
    }
  }

  lemma Extend<T>(call: Call<T>, ss: seq<State<T>>, es: seq<Event<T>>, e: Event<T>)
    returns (ss': seq<State<T>>, es': seq<Event<T>>, s: State<T>)
    requires Run(call, ss, es) && Enabled(ss[|es|], e)
    ensures Run(call, ss', es') && es' == es + [e] && s == ss'[|es'|] == Next(call, ss[|es|], e)
  {
    s := Next(call, ss[|es|], e);
    ss', es' := ss + [s], es + [e];
  }

  /** A call that times out while an answer has arrived, after one that was not for it: the answer
      finds the cells gone and is only signalled. */
  lemma TimesOut<T>(call: Call<T>, reply: Reply<T>) returns (ss: seq<State<T>>, es: seq<Event<T>>)
    ensures Run(call, ss, es)
    ensures es == [Send(0), Mismatch, Arrive(0, reply), TimeOut, Lock(0), Notify(0)]
    ensures ss[6] == State(Returned(call.stubFail, TimedOut), call.out, call.stubFail, call.blank, true,
                           map[0 := reply], map[0 := Finished(false)])
  {
    var s := Start(call);
    ss, es := [s], [];
    assert Run(call, ss, es);
    hide Run;
    ss, es, s := Extend(call, ss, es, Send(0));
    ss, es, s := Extend(call, ss, es, Mismatch);
    ss, es, s := Extend(call, ss, es, Arrive(0, reply));
    ss, es, s := Extend(call, ss, es, TimeOut);
    assert s.stage == map[0 := Arrived];
    ss, es, s := Extend(call, ss, es, Lock(0));
    assert s.stage == map[0 := Emptied];
    ss, es, s := Extend(call, ss, es, Notify(0));
  }

  /** A run in which a delivery has written its code. */
  lemma FirstWrite<T>(call: Call<T>, p: T) returns (ss: seq<State<T>>, es: seq<Event<T>>, s: State<T>)
    ensures Run(call, ss, es) && s == ss[|es|]
    ensures s == State(Waiting, call.out, 0, call.blank, false, map[0 := Reply(0, p)], map[0 := CodeWritten])
  {
    s := Start(call);
    ss, es := [s], [];
    assert Run(call, ss, es);
    hide Run;
    ss, es, s := Extend(call, ss, es, Send(0));
    ss, es, s := Extend(call, ss, es, Arrive(0, Reply(0, p)));
    assert s == State(Waiting, call.out, call.stubFail, call.blank, false, map[0 := Reply(0, p)], map[0 := Arrived]);
    ss, es, s := Extend(call, ss, es, Lock(0));
    ss, es, s := Extend(call, ss, es, WriteCode(0));
  }

  /** A run in which one delivery has been signalled and the client has seen success. */
  lemma FirstDelivery<T>(call: Call<T>, p: T) returns (ss: seq<State<T>>, es: seq<Event<T>>, s: State<T>)
    requires TakesSuccess(call)
    ensures Run(call, ss, es) && s == ss[|es|]
    ensures s == State(Copying, call.out, 0, p, true, map[0 := Reply(0, p)], map[0 := Finished(true)])
  {
    ss, es, s := FirstWrite(call, p);
    hide Run;
    ss, es, s := Extend(call, ss, es, WritePayload(0));
    ss, es, s := Extend(call, ss, es, Notify(0));
    assert s == State(Waiting, call.out, 0, p, true, map[0 := Reply(0, p)], map[0 := Finished(true)]);
    ss, es, s := Extend(call, ss, es, Wake);
    ss, es, s := Extend(call, ss, es, Check);
  }

  /** With a second accepted delivery the guarantee is lost, whatever the call: the error code
      of the second can be returned together with the payload of the first. */
  lemma TwoDeliveriesTear<T>(call: Call<T>, p: T, q: T) returns (ss: seq<State<T>>, es: seq<Event<T>>)
    requires TakesSuccess(call)
    ensures Run(call, ss, es)
    ensures ss[|es|].stage.Keys == {0, 1}
    ensures ss[|es|].replies == map[0 := Reply(0, p), 1 := Reply(7, q)]
    ensures ss[|es|].place == Returned(7, Answered) && ss[|es|].out == call.give(call.out, p)
    ensures !EndsSafely(ss[|es|], call)
  {
    var s;
    ss, es, s := FirstDelivery(call, p);
    hide Run;
    ss, es, s := Extend(call, ss, es, Arrive(1, Reply(7, q)));
    ss, es, s := Extend(call, ss, es, Lock(1));
    ss, es, s := Extend(call, ss, es, WriteCode(1));
    assert s.stage == map[0 := Finished(true), 1 := CodeWritten];
    ss, es, s := Extend(call, ss, es, Copy);
    ss, es, s := Extend(call, ss, es, Return);
  }

  /** The call ends safely in every interleaving in which it accepts at most `n` deliveries. */
  ghost predicate AlwaysSafe<T(!new)>(call: Call<T>, n: nat) {
    forall ss: seq<State<T>>, es: seq<Event<T>> | Run(call, ss, es) && |ss[|es|].stage| <= n ::
      EndsSafely(ss[|es|], call)
  }

  lemma FewMeansAtMostOne<T>(s: State<T>)
    requires |s.stage| <= 1
    ensures AtMostOne(s)
  {
    forall d, d' | d in s.stage && d' in s.stage ensures d == d' {
      var others := s.stage.Keys - {d};
      assert |others| == |s.stage.Keys| - 1;
    }
  }

  /** Every call is safe in every interleaving if and only if it accepts no more than one
      delivery. */
  lemma SafeIffAtMostOne<T(!new)>(call: Call<T>, n: nat)
    requires TakesSuccess(call)
    ensures AlwaysSafe(call, n) <==> n <= 1
  {
    hide EndsSafely;
    if n <= 1 {
      forall ss: seq<State<T>>, es: seq<Event<T>> | Run(call, ss, es) && |ss[|es|].stage| <= n
        ensures EndsSafely(ss[|es|], call)
      {
        FewMeansAtMostOne(ss[|es|]);
        CallIsSafe(call, ss, es, |es|);
      }
    } else {
      var ss, es := TwoDeliveriesTear(call, call.blank, call.blank);
      assert |ss[|es|].stage.Keys| == 2;
    }
  }

  // ------------------------------------------------------- the callback object

  /** The call `GetImei`: the payload is read when the code just read is success. */
  function ImeiCall(out: Text, stubFail: ErrorCode): Call<Text> {
    var blank: Text := [];
    Call(out, blank, stubFail, (code: Word, _: Text) => code == 0, (_: Text, imei: Text) => imei)
  }

  /** What the callback of `GetImei` reads from a delivered parcel. */
  function ImeiReply(data: Words): Reply<Text> {
    var code := LaxInt(Cursor(data, true));
    var imei: Text := if code.value == 0 then LaxText(code.at).value else [];
    Reply(code.value, imei)
  }

  /** A delivery that runs without another step in between. */
  function Delivered(call: Call<Text>, s: State<Text>, d: nat, data: Words): State<Text>
    requires d !in s.stage
  {
    var s1 := Next(call, Next(call, s, Arrive(d, ImeiReply(data))), Lock(d));
    if s1.stage[d].Emptied? then Next(call, s1, Notify(d))
    else Next(call, Next(call, Next(call, s1, WriteCode(d)), WritePayload(d)), Notify(d))
  }

  lemma ArrivalHoldsNothing<T>(call: Call<T>, s: State<T>, d: nat, reply: Reply<T>)
    requires d !in s.stage
    ensures CellsAlive(Next(call, s, Arrive(d, reply))) <==> CellsAlive(s)
  {
    var s' := Next(call, s, Arrive(d, reply));
    if CellsAlive(s) && s.place.Returned? {
      var h :| h in s.stage && Holds(s.stage[h]);
      assert h in s'.stage && s'.stage[h] == s.stage[h];
    }
  }

  /** A delivered answer reaches the cells of a call that is still there: the code, the text if
      the code is success, and the signal; whatever the parcel goes on with. */
  lemma ImeiArrives(out: Text, stubFail: ErrorCode, s: State<Text>, d: nat, code: Word, imei: Text, t: Words)
    requires d !in s.stage && CellsAlive(s)
    ensures var s' := Delivered(ImeiCall(out, stubFail), s, d, Int(code, Str(imei, t)));
            s'.done && s'.code == code && s'.payload == if code == 0 then imei else s.payload
  {
    ReadFacts();
    ArrivalHoldsNothing(ImeiCall(out, stubFail), s, d, ImeiReply(Int(code, Str(imei, t))));
  }

  /** A call that is gone keeps its cells. */
  lemma ImeiArrivesLate(out: Text, stubFail: ErrorCode, s: State<Text>, d: nat, data: Words)
    requires d !in s.stage && !CellsAlive(s)
    ensures var s' := Delivered(ImeiCall(out, stubFail), s, d, data);
            s'.done && s'.code == s.code && s'.payload == s.payload
  {
    ArrivalHoldsNothing(ImeiCall(out, stubFail), s, d, ImeiReply(data));
  }

  /** In every interleaving in which the one accepted delivery is that of a parcel with an IMEI,
      an answered `GetImei` returns success and that IMEI. */
  lemma GetImeiReturnsImei(
      out: Text, stubFail: ErrorCode, ss: seq<State<Text>>, es: seq<Event<Text>>, i: nat, imei: Text, t: Words)
    requires Run(ImeiCall(out, stubFail), ss, es) && i < |ss| && AtMostOne(ss[i])
    requires ss[i].place.Returned? && ss[i].place.how.Answered?
    requires forall d | d in ss[i].replies :: ss[i].replies[d] == ImeiReply(Int(0, Str(imei, t)))
    ensures ss[i].place.code == 0 && ss[i].out == imei
  {
    ReadFacts();
    CallIsSafe(ImeiCall(out, stubFail), ss, es, i);
  }

  /** RawParcelCallbackStub with the reader that `GetImei` gives it. */
  class ImeiCallback {
    var code: Word
    var payload: Text
    var done: bool

    predicate Mirrors(s: State<Text>)
      reads this
    {
      code == s.code && payload == s.payload && done == s.done
    }

    /** `sameProcess`: a writer was passed and has filled `data`; otherwise the descriptor
        that came with it is checked. */
    method Transfer(sameProcess: bool, descriptorMatches: bool, data: Parcel,
                    ghost out: Text, ghost stubFail: ErrorCode, ghost s: State<Text>, ghost d: nat, alive: bool)
      requires Mirrors(s) && d !in s.stage && alive == CellsAlive(s)
      modifies this, data
      ensures Mirrors(if !sameProcess && !descriptorMatches then s
                      else Delivered(ImeiCall(out, stubFail), s, d, old(data.unread)))
      ensures !sameProcess && !descriptorMatches ==> unchanged(this)
      ensures sameProcess || descriptorMatches ==>
                var word := LaxInt(Cursor(old(data.unread), true));
                && done
                && code == (if alive then word.value else old(code))
                && payload == if alive && word.value == 0 then LaxText(word.at).value else old(payload)
    {
      ArrivalHoldsNothing(ImeiCall(out, stubFail), s, d, ImeiReply(data.unread));
      if !sameProcess && !descriptorMatches {
        return;
      }
      if alive {
        var word := LaxInt(Cursor(data.unread, true));
        code, data.unread := word.value, word.at.rest;
        if code == 0 {
          var text := LaxText(Cursor(data.unread, true));
          payload, data.unread := text.value, text.at.rest;
        }
      }
      done := true;
    }
  }
}
