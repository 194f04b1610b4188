/** The load-and-wait handshake of the eSIM client's `GetProxy`.

    Threads share one condition variable and one proxy mutex; each call makes its own
    callback object, which the system ability manager may fill in before, during or long
    after the call. */
module LoadHandshake {
  import opened Options

  type Thread = nat
  type Call = nat
  type Remote = nat

  /** EsimServiceClientCallback: remoteObject_ and isLoadSAFailed_. */
  datatype Cell = Cell(remote: Option<Remote>, failed: bool)

  /** Where a thread is inside `GetProxy`; a thread that is not there is not in the map. */
  datatype Place =
    | Loading(call: Call)                   // LoadSystemAbility requested
    | Waiting(call: Call)                   // in wait_for
    | Woken(call: Call)                     // past wait_for
    | Connecting(call: Call, remote: Remote)

  datatype State = State(
    proxy: Option<Remote>,
    holder: Option<Thread>,                 // of mutexProxy_
    place: map<Thread, Place>,
    cells: map<Call, Cell>,
    calls: nat)                             // calls below this one have been made

  datatype Event =
    | Hit(thread: Thread)
    | Enter(thread: Thread)                 // proxy_ is null: make a callback object
    | Answer(thread: Thread, accepted: bool) // LoadSystemAbility's result
    | Success(call: Call, remote: Option<Remote>)
    | Failure(call: Call)
    | Wake(thread: Thread)                  // predicate holds, or the time is up
    | Take(thread: Thread)                  // copy remoteObject_, give up if null
    | Connect(thread: Thread, connected: bool) // register, cast, install
    | Evict                                 // a death notification drops the proxy

  const INIT := State(None, None, map[], map[], 0)

  predicate Enabled(s: State, e: Event) {
    match e
    case Hit(t) => s.holder.None? && s.proxy.Some? && t !in s.place
    case Enter(t) => s.holder.None? && s.proxy.None? && t !in s.place
    case Answer(t, _) => t in s.place && s.place[t].Loading?
    case Success(call, _) => call in s.cells
    case Failure(call) => call in s.cells
    case Wake(t) => t in s.place && s.place[t].Waiting? && s.place[t].call in s.cells
    case Take(t) => t in s.place && s.place[t].Woken? && s.place[t].call in s.cells
    case Connect(t, _) => t in s.place && s.place[t].Connecting?
    case Evict => s.holder.None?
  }

  function Leave(s: State, t: Thread): State {
    s.(holder := None, place := s.place - {t})
  }

  function Next(s: State, e: Event): State
    requires Enabled(s, e)
  {
    match e
    case Hit(_) => s
    case Enter(t) =>
      s.(holder := Some(t), place := s.place[t := Loading(s.calls)],
         cells := s.cells[s.calls := Cell(None, false)], calls := s.calls + 1)
    case Answer(t, accepted) =>
      if accepted then s.(place := s.place[t := Waiting(s.place[t].call)]) else Leave(s, t)
    case Success(call, r) => s.(cells := s.cells[call := s.cells[call].(remote := r)])
    case Failure(call) => s.(cells := s.cells[call := s.cells[call].(failed := true)])
    case Wake(t) => s.(place := s.place[t := Woken(s.place[t].call)])
    case Take(t) =>
      var call := s.place[t].call;
      if s.cells[call].remote.None? then Leave(s, t)
      else s.(place := s.place[t := Connecting(call, s.cells[call].remote.value)])
    case Connect(t, connected) =>
      Leave(s.(proxy := if connected then Some(s.place[t].remote) else None), t)
    case Evict => s.(proxy := None)
  }

  ghost predicate Run(ss: seq<State>, es: seq<Event>) {
    && |ss| == |es| + 1
    && ss[0] == INIT
    && forall i | 0 <= i < |es| :: Enabled(ss[i], es[i]) && ss[i + 1] == Next(ss[i], es[i])
  }

  /** Only the holder of the proxy mutex is inside, and it works on the newest call. */
  ghost predicate Inv(s: State) {
    && (forall t | t in s.place :: s.holder == Some(t))
    && (s.holder.Some? ==> s.holder.value in s.place && s.proxy.None?)
    && (forall t | t in s.place :: s.place[t].call in s.cells && s.place[t].call == s.calls - 1)
    && (forall call | call in s.cells :: call < s.calls)
  }

  lemma {:induction false} Reachable(ss: seq<State>, es: seq<Event>, i: nat)
    requires Run(ss, es) && i < |ss|
    ensures Inv(ss[i])
  {
    if i > 0 {
      Reachable(ss, es, i - 1);
    }
  }

  function Waiters(s: State): set<Thread> {
    set t | t in s.place && s.place[t].Waiting?
  }

  lemma OneElement(a: set<Thread>, t: Thread)
    requires a <= {t}
    ensures |a| <= 1
  {
    if a != {} {
      assert a == {t};
    }
  }

  /** At most one thread ever waits on the condition variable, the holder of the proxy
      mutex. */
  lemma SoleWaiter(ss: seq<State>, es: seq<Event>, i: nat)
    requires Run(ss, es) && i < |ss|
    ensures |Waiters(ss[i])| <= 1
    ensures forall t | t in Waiters(ss[i]) :: ss[i].holder == Some(t)
  {
    Reachable(ss, es, i);
    if ss[i].holder.Some? {
      OneElement(Waiters(ss[i]), ss[i].holder.value);
    } else {
      assert Waiters(ss[i]) == {};
    }
  }

  /** A call that was made and is no longer being worked on. */
  ghost predicate Abandoned(s: State, call: Call) {
    call < s.calls && forall t | t in s.place :: s.place[t].call != call
  }

  /** Where the `notify_one` of a success callback goes: to the one thread that waits, which is
      waiting for that very call if and only if the call is the newest that was made.  Otherwise
      the call is abandoned, and what the waiter waits for stays as it was. */
  lemma NotificationReachesItsCall(ss: seq<State>, es: seq<Event>, i: nat, t: Thread)
    requires Run(ss, es) && i < |es| && es[i].Success? && t in Waiters(ss[i])
    ensures Waiters(ss[i]) == {t}
    ensures var own := ss[i].place[t].call;
            && (own == es[i].call <==> es[i].call == ss[i].calls - 1)
            && (own != es[i].call ==>
                  && Abandoned(ss[i], es[i].call)
                  && own in ss[i].cells && own in ss[i + 1].cells && ss[i + 1].cells[own] == ss[i].cells[own])
  {
    Reachable(ss, es, i);
  }

  lemma Extend(ss: seq<State>, es: seq<Event>, e: Event) returns (ss': seq<State>, es': seq<Event>, s: State)
    requires Run(ss, es) && Enabled(ss[|es|], e)
    ensures Run(ss', es') && es' == es + [e] && ss <= ss' && s == ss'[|es'|] == Next(ss[|es|], e)
  {
    s := Next(ss[|es|], e);
    ss', es' := ss + [s], es + [e];
  }

  /** A run in which thread 0 gives up its call, thread 1 waits for its own, and the success
      that arrives late for the first wakes the second. */
  lemma LateSuccessWakesAnother() returns (ss: seq<State>, es: seq<Event>)
    ensures Run(ss, es) && |es| == 7 && es[6] == Success(0, Some(7))
    ensures Waiters(ss[6]) == {1} && ss[6].place[1].call == 1 && Abandoned(ss[6], 0)
    ensures Waiters(ss[7]) == {1} && 1 in ss[7].cells && ss[7].cells[1] == Cell(None, false)
  {
    var s := INIT;
    ss, es := [s], [];
    assert Run(ss, es);
    hide Run;
    ss, es, s := Extend(ss, es, Enter(0));
    ss, es, s := Extend(ss, es, Answer(0, true));
    ss, es, s := Extend(ss, es, Wake(0));
    ss, es, s := Extend(ss, es, Take(0));
    assert s == State(None, None, map[], map[0 := Cell(None, false)], 1);
    ss, es, s := Extend(ss, es, Enter(1));
    ss, es, s := Extend(ss, es, Answer(1, true));
    assert s.place == map[1 := Waiting(1)];
    ss, es, s := Extend(ss, es, Success(0, Some(7)));
  }

  /** Event `m` makes the callback object `call`. */
  predicate MadeAt(ss: seq<State>, es: seq<Event>, m: nat, call: Call)
    requires |ss| == |es| + 1
  {
    m < |es| && es[m].Enter? && ss[m].calls == call
  }

  /** After the call was made and before event `i`, a success callback gave `r` to it. */
  ghost predicate Given(ss: seq<State>, es: seq<Event>, i: nat, call: Call, r: Remote)
    requires Run(ss, es) && i < |ss|
  {
    exists m, j :: 0 <= m < j < i && MadeAt(ss, es, m, call) && es[j] == Success(call, Some(r))
  }

  lemma {:induction false} CallMade(ss: seq<State>, es: seq<Event>, i: nat, call: Call) returns (m: nat)
    requires Run(ss, es) && i < |ss| && call < ss[i].calls
    ensures m < i && MadeAt(ss, es, m, call)
    decreases i
  {
    if call < ss[i - 1].calls {
      m := CallMade(ss, es, i - 1, call);
    } else {
      m := i - 1;
    }
  }

  /** What a callback object holds was put there by a success callback for that object. */
  lemma {:induction false} CellsAreGiven(ss: seq<State>, es: seq<Event>, i: nat, call: Call, r: Remote)
    requires Run(ss, es) && i < |ss|
    requires call in ss[i].cells && ss[i].cells[call].remote == Some(r)
    ensures Given(ss, es, i, call, r)
    decreases i
  {
    Reachable(ss, es, i - 1);
    if es[i - 1] == Success(call, Some(r)) {
      var m := CallMade(ss, es, i - 1, call);
    } else {
      CellsAreGiven(ss, es, i - 1, call, r);
    }
  }

  lemma {:induction false} ConnectingIsGiven(ss: seq<State>, es: seq<Event>, i: nat, t: Thread)
    requires Run(ss, es) && i < |ss|
    requires t in ss[i].place && ss[i].place[t].Connecting?
    ensures Given(ss, es, i, ss[i].place[t].call, ss[i].place[t].remote)
    decreases i
  {
    var now := ss[i].place[t];
    if t in ss[i - 1].place && ss[i - 1].place[t] == now {
      ConnectingIsGiven(ss, es, i - 1, t);
    } else {
      CellsAreGiven(ss, es, i - 1, now.call, now.remote);
    }
  }

  /** A new proxy is installed only by a thread that holds the lock, and it is the remote
      that an earlier success callback gave to that call's own callback object. */
  lemma InstalledIsOwnRemote(ss: seq<State>, es: seq<Event>, i: nat)
    requires Run(ss, es) && i < |es|
    requires ss[i + 1].proxy.Some? && ss[i + 1].proxy != ss[i].proxy
    ensures es[i].Connect? && ss[i].proxy.None? && ss[i].holder == Some(es[i].thread)
    ensures es[i].thread in ss[i].place
            && Given(ss, es, i, ss[i].place[es[i].thread].call, ss[i + 1].proxy.value)
  {
    Reachable(ss, es, i);
    ConnectingIsGiven(ss, es, i, es[i].thread);
  }

  /** A call that gets to connecting caches a proxy if and only if it could register and cast,
      and then the remote that was given to its own callback object. */
  lemma ConnectingInstalls(ss: seq<State>, es: seq<Event>, i: nat)
    requires Run(ss, es) && i < |es| && es[i].Connect?
    ensures es[i].thread in ss[i].place
    ensures ss[i + 1].proxy.Some? <==> es[i].connected
    ensures es[i].connected ==> Given(ss, es, i, ss[i].place[es[i].thread].call, ss[i + 1].proxy.value)
  {
    Reachable(ss, es, i);
    ConnectingIsGiven(ss, es, i, es[i].thread);
  }

  /** The events that end a call: a refused load, a wait that brought no remote, or connecting. */
  predicate Ends(s: State, e: Event, t: Thread)
    requires Enabled(s, e)
  {
    || e == Answer(t, false)
    || (e == Take(t) && s.cells[s.place[t].call].remote.None?)
    || (e.Connect? && e.thread == t)
  }

  /** Exactly these events end a call, and each leaves the lock free and nobody inside. */
  lemma CallsEnd(ss: seq<State>, es: seq<Event>, i: nat, t: Thread)
    requires Run(ss, es) && i < |es| && t in ss[i].place
    ensures t !in ss[i + 1].place <==> Ends(ss[i], es[i], t)
    ensures Ends(ss[i], es[i], t) ==> ss[i + 1].holder.None? && ss[i + 1].place == map[]
  {
    Reachable(ss, es, i);
    Reachable(ss, es, i + 1);
  }

  /** A load that succeeds: the remote that is given ends up as the proxy. */
  lemma LoadSucceeds(r: Remote) returns (ss: seq<State>, es: seq<Event>)
    ensures Run(ss, es) && ss[|es|].proxy == Some(r) && ss[|es|].holder.None?
    ensures ss[|es|].calls == 1 && ss[|es|].place == map[]
    ensures es == [Enter(0), Answer(0, true), Success(0, Some(r)), Wake(0), Take(0), Connect(0, true)]
  {
    var s := INIT;
    ss, es := [s], [];
    assert Run(ss, es);
    hide Run;
    ss, es, s := Extend(ss, es, Enter(0));
    ss, es, s := Extend(ss, es, Answer(0, true));
    ss, es, s := Extend(ss, es, Success(0, Some(r)));
    ss, es, s := Extend(ss, es, Wake(0));
    ss, es, s := Extend(ss, es, Take(0));
    assert s.place == map[0 := Connecting(0, r)];
    ss, es, s := Extend(ss, es, Connect(0, true));
  }

  /** A load that fails: the call ends without a proxy. */
  lemma LoadFails(ss: seq<State>, es: seq<Event>, t: Thread) returns (ss': seq<State>, es': seq<Event>)
    requires Run(ss, es) && ss[|es|].holder.None? && ss[|es|].proxy.None? && ss[|es|].place == map[]
    ensures var call := ss[|es|].calls;
            && Run(ss', es') && es' == es + [Enter(t), Answer(t, true), Failure(call), Wake(t), Take(t)]
            && ss'[|es'|] == ss[|es|].(cells := ss[|es|].cells[call := Cell(None, true)], calls := call + 1)
  {
    var s;
    ss', es', s := Extend(ss, es, Enter(t));
    assert s.place == map[t := Loading(ss[|es|].calls)];
    hide Run;
    ss', es', s := Extend(ss', es', Answer(t, true));
    ss', es', s := Extend(ss', es', Failure(s.calls - 1));
    ss', es', s := Extend(ss', es', Wake(t));
    assert s.place == map[t := Woken(s.calls - 1)];
    ss', es', s := Extend(ss', es', Take(t));
    assert s.place == map[];
  }

  /** A proxy that was loaded serves another thread, is dropped, and the next load fails. */
  lemma LoadedThenLost(r: Remote) returns (ss: seq<State>, es: seq<Event>)
    ensures Run(ss, es) && |es| == 13
    ensures es[6..] == [Hit(1), Evict, Enter(1), Answer(1, true), Failure(1), Wake(1), Take(1)]
    ensures ss[13].proxy.None? && ss[13].holder.None? && 1 in ss[13].cells && ss[13].cells[1] == Cell(None, true)
  {
    var s;
    ss, es := LoadSucceeds(r);
    ss, es, s := Extend(ss, es, Hit(1));
    ss, es, s := Extend(ss, es, Evict);
    ss, es := LoadFails(ss, es, 1);
  }

  /** Nobody takes up an abandoned call again, so a success that arrives late for it is
      stored in its callback object and never becomes the proxy. */
  lemma {:induction false} LateSuccessIsIgnored(ss: seq<State>, es: seq<Event>, i: nat, j: nat, call: Call)
    requires Run(ss, es) && i <= j < |es|
    requires Abandoned(ss[i], call)
    ensures Abandoned(ss[j], call)
    ensures es[j].Success? && es[j].call == call ==> ss[j + 1].proxy == ss[j].proxy
    ensures ss[j + 1].proxy.Some? && ss[j + 1].proxy != ss[j].proxy ==>
              es[j].Connect? && ss[j].place[es[j].thread].call != call
    decreases j
  {
    if i < j {
      LateSuccessIsIgnored(ss, es, i, j - 1, call);
    }
  }
}
