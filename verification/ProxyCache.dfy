/** The cached service proxy of the three clients and its binder death notifications.

    `GetProxy` runs under the proxy mutex, but remotes die and notifications are produced
    at any moment, so a lookup is three steps (find, register, install) between which
    deaths can fall; a notification is handled only when the mutex is free. */
module ProxyCache {
  import opened Options

  /** A remote object; only a proxy object (a remote in another process) can be watched. */
  datatype Remote = Remote(id: nat, isProxyObject: bool)
  type Recipient = nat

  datatype Client = CoreService | Esim | StateRegistry

  /** Where the holder of the proxy mutex is inside `GetProxy`. */
  datatype Section =
    | Free
    | Found(remote: Remote)
    | Watched(remote: Remote, recipient: Recipient)

  datatype State = State(
    proxy: Option<Remote>,                    // proxy_
    recipient: Option<Recipient>,             // deathRecipient_
    section: Section,
    newest: Recipient,                         // recipients below this one exist
    dead: set<Remote>,
    watching: set<(Remote, Recipient)>,       // registered with a live remote
    pending: set<(Remote, Recipient)>,        // notifications not yet handled
    silenced: set<Recipient>,                 // recipients whose isValid_ is false
    destroyed: bool)

  datatype Event =
    | Hit                                     // GetProxy finds proxy_ set
    | Miss                                    // no ability manager, or no such service
    | Find(remote: Remote)                    // a remote is handed out, alive or not
    | Register(added: bool)                   // AddDeathRecipient's answer
    | Install(castable: bool)                 // whether iface_cast gives a proxy
    | Die(remote: Remote)
    | Deliver(remote: Remote, recipient: Recipient, again: bool)
    | Destroy

  const INIT := State(None, None, Free, 0, {}, {}, {}, {}, false)

  /** Registering on a dead remote fails; on a live one it may fail too. */
  predicate Enabled(k: Client, s: State, e: Event) {
    match e
    case Hit => s.section.Free? && !s.destroyed && s.proxy.Some?
    case Miss => s.section.Free? && !s.destroyed && s.proxy.None?
    case Find(r) => s.section.Free? && !s.destroyed && s.proxy.None?
    case Register(added) =>
      s.section.Found? && (added && s.section.remote.isProxyObject ==> s.section.remote !in s.dead)
    case Install(_) => s.section.Watched?
    case Die(r) => r !in s.dead
    case Deliver(r, d, _) => s.section.Free? && (r, d) in s.pending && (s.destroyed ==> d in s.silenced)
    case Destroy => s.section.Free? && !s.destroyed && !k.StateRegistry?
  }

  /** The critical section of `RemoveDeathRecipient` once the remote has been matched. */
  function Evict(s: State): State
    requires s.proxy.Some?
  {
    s.(watching := if s.recipient.Some? then s.watching - {(s.proxy.value, s.recipient.value)} else s.watching,
       proxy := None)
  }

  function Next(k: Client, s: State, e: Event): State
    requires Enabled(k, s, e)
  {
    match e
    case Hit => s
    case Miss => s
    case Find(r) => s.(section := Found(r))
    case Register(added) =>
      var r, d := s.section.remote, s.newest;
      var s1 := s.(newest := d + 1, recipient := if k.Esim? then Some(d) else s.recipient);
      if !r.isProxyObject then s1.(section := Watched(r, d))
      else if added then s1.(section := Watched(r, d), watching := s.watching + {(r, d)})
      else s1.(section := Free)
    case Install(castable) =>
      s.(section := Free,
         proxy := if castable then Some(s.section.remote) else None,
         recipient := if k.Esim? then s.recipient else Some(s.section.recipient))
    case Die(r) =>
      var fired := set w | w in s.watching && w.0 == r;
      s.(dead := s.dead + {r}, watching := s.watching - fired, pending := s.pending + fired)
    case Deliver(r, d, again) =>
      var s1 := if again then s else s.(pending := s.pending - {(r, d)});
      if d !in s.silenced && s.proxy == Some(r) then Evict(s1) else s1
    case Destroy =>
      var s1 := if s.proxy.Some? then Evict(s) else s;
      s1.(destroyed := true,
          silenced := if k.CoreService? && s.recipient.Some? then s.silenced + {s.recipient.value} else s.silenced)
  }

  /** What `GetProxy` hands to its caller, for the events that end a call. */
  function Returned(k: Client, s: State, e: Event): Option<Option<Remote>>
    requires Enabled(k, s, e)
  {
    match e
    case Hit => Some(s.proxy)
    case Miss => Some(None)
    case Register(added) =>
      if s.section.remote.isProxyObject && !added then Some(None) else None
    case Install(castable) => Some(if castable then Some(s.section.remote) else None)
    case _ => None
  }

  /** A run: its states `ss` and the events `es` that lead from each to the next. */
  ghost predicate Run(k: Client, ss: seq<State>, es: seq<Event>) {
    && |ss| == |es| + 1
    && ss[0] == INIT
    && forall i | 0 <= i < |es| :: Enabled(k, ss[i], es[i]) && ss[i + 1] == Next(k, ss[i], es[i])
  }

  // ------------------------------------------------------------ the invariant

  predicate WatchedOrPending(s: State, r: Remote, d: Recipient) {
    (r, d) in s.watching || (r, d) in s.pending
  }

  ghost predicate Inv(s: State) {
    && (forall w | w in s.watching :: w.0 !in s.dead && w.0.isProxyObject)
    && (forall w | w in s.pending :: w.0 in s.dead && w.0.isProxyObject)
    && (!s.section.Free? ==> s.proxy.None? && !s.destroyed)
    && (s.destroyed ==> s.proxy.None?)
    && (s.silenced != {} ==> s.destroyed)
    && (s.section.Watched? && s.section.remote.isProxyObject ==>
          WatchedOrPending(s, s.section.remote, s.section.recipient))
    && (s.proxy.Some? && s.proxy.value.isProxyObject ==>
          s.recipient.Some? && WatchedOrPending(s, s.proxy.value, s.recipient.value))
  }

  /** Esim stores the recipient before registering it, so while it waits to install the
      recipient stored is already the one being registered. */
  predicate EarlyRecipient(k: Client, s: State) {
    k.Esim? && s.section.Watched? ==> s.recipient == Some(s.section.recipient)
  }

  lemma StepKeepsInv(k: Client, s: State, e: Event)
    requires Inv(s) && EarlyRecipient(k, s) && Enabled(k, s, e)
    ensures Inv(Next(k, s, e)) && EarlyRecipient(k, Next(k, s, e))
  {
  }

  lemma {:induction false} Reachable(k: Client, ss: seq<State>, es: seq<Event>, i: nat)
    requires Run(k, ss, es) && i < |ss|
    ensures Inv(ss[i]) && EarlyRecipient(k, ss[i])
  {
    if i > 0 {
      Reachable(k, ss, es, i - 1);
      StepKeepsInv(k, ss[i - 1], es[i - 1]);
    }
  }

  // ------------------------------------------------------------- main results

  /** No death is lost: a cached proxy whose remote is dead still has that remote's own
      notification to come, so when none is left no dead proxy is cached. */
  lemma NoLostDeath(k: Client, ss: seq<State>, es: seq<Event>, i: nat)
    requires Run(k, ss, es) && i < |ss|
    requires ss[i].proxy.Some? && ss[i].proxy.value.isProxyObject
    ensures ss[i].proxy.value in ss[i].dead ==>
              ss[i].recipient.Some? && (ss[i].proxy.value, ss[i].recipient.value) in ss[i].pending
    ensures ss[i].pending == {} ==> ss[i].proxy.value !in ss[i].dead
  {
    Reachable(k, ss, es, i);
  }

  /** A cached proxy is given up only for no proxy, and only by a notification for that very
      remote, which is then dead, or by the destructor. */
  lemma EvictionCause(k: Client, ss: seq<State>, es: seq<Event>, i: nat)
    requires Run(k, ss, es) && i < |es|
    requires ss[i].proxy.Some? && ss[i + 1].proxy != ss[i].proxy
    ensures ss[i + 1].proxy.None?
    ensures es[i].Destroy?
            || (es[i].Deliver? && Some(es[i].remote) == ss[i].proxy
                && es[i].remote.isProxyObject && es[i].remote in ss[i].dead)
  {
    Reachable(k, ss, es, i);
  }

  predicate Evicts(e: Event, r: Remote) {
    e.Destroy? || (e.Deliver? && e.remote == r)
  }

  /** Between two evictions the cached proxy does not change, and every call of `GetProxy`
      that ends in between returns it, whatever stale, duplicate or late notifications of
      earlier remotes are handled meanwhile. */
  lemma {:induction false} OneProxyPerEpoch(
      k: Client, ss: seq<State>, es: seq<Event>, i: nat, j: nat, r: Remote)
    requires Run(k, ss, es) && i <= j < |ss|
    requires ss[i].proxy == Some(r)
    requires forall m | i <= m < j :: !Evicts(es[m], r)
    ensures ss[j].proxy == Some(r)
    ensures forall m | i <= m < j && Returned(k, ss[m], es[m]).Some? ::
              Returned(k, ss[m], es[m]).value == Some(r)
    decreases j
  {
    if i < j {
      OneProxyPerEpoch(k, ss, es, i, j - 1, r);
      Reachable(k, ss, es, j - 1);
    }
  }

  /** In every run a lookup that gets to the end caches and returns the remote it found, if that
      can be cast to the service, and nothing otherwise. */
  lemma InstallingCaches(k: Client, ss: seq<State>, es: seq<Event>, i: nat)
    requires Run(k, ss, es) && i < |es| && es[i].Install?
    ensures ss[i].section.Watched? && ss[i + 1].section.Free?
    ensures ss[i + 1].proxy == if es[i].castable then Some(ss[i].section.remote) else None
    ensures Returned(k, ss[i], es[i]) == Some(ss[i + 1].proxy)
    ensures ss[i + 1].recipient == Some(ss[i].section.recipient)
  {
    Reachable(k, ss, es, i);
  }

  /** Once a core service client is destroyed its stored recipient no longer calls it. */
  lemma {:induction false} DestroyedIsSilent(ss: seq<State>, es: seq<Event>, i: nat)
    requires Run(CoreService, ss, es) && i < |ss| && ss[i].destroyed
    ensures ss[i].recipient.Some? ==> ss[i].recipient.value in ss[i].silenced
  {
    Reachable(CoreService, ss, es, i - 1);
    if ss[i - 1].destroyed {
      DestroyedIsSilent(ss, es, i - 1);
    }
  }

  /** A remote that died and is neither cached nor about to be. */
  ghost predicate Retired(s: State, r: Remote) {
    r in s.dead && s.proxy != Some(r) && !(s.section.Watched? && s.section.remote == r)
  }

  lemma {:induction false} RetiredForGood(
      k: Client, ss: seq<State>, es: seq<Event>, i: nat, j: nat, r: Remote)
    requires Run(k, ss, es) && i <= j < |ss|
    requires r.isProxyObject && Retired(ss[i], r)
    ensures Retired(ss[j], r)
    decreases j
  {
    if i < j {
      RetiredForGood(k, ss, es, i, j - 1, r);
    }
  }

  lemma {:induction false} DestroyedForGood(k: Client, ss: seq<State>, es: seq<Event>, i: nat, j: nat)
    requires Run(k, ss, es) && i <= j < |ss| && ss[i].destroyed
    ensures ss[j].destroyed && ss[j].proxy.None?
    decreases j
  {
    Reachable(k, ss, es, j);
    if i < j {
      DestroyedForGood(k, ss, es, i, j - 1);
    }
  }

  /** Each watched remote is cached during at most one stretch of a run: once dropped it is
      never cached again. */
  lemma {:induction false} OneEpochPerRemote(
      k: Client, ss: seq<State>, es: seq<Event>, i: nat, j: nat, m: nat, r: Remote)
    requires Run(k, ss, es) && i <= j <= m < |ss|
    requires r.isProxyObject && ss[i].proxy == Some(r) && ss[j].proxy != Some(r)
    ensures ss[m].proxy != Some(r)
    decreases j - i
  {
    Reachable(k, ss, es, i);
    if ss[i + 1].proxy == Some(r) {
      OneEpochPerRemote(k, ss, es, i + 1, j, m, r);
    } else if es[i].Deliver? {
      RetiredForGood(k, ss, es, i + 1, m, r);
    } else {
      DestroyedForGood(k, ss, es, i + 1, m);
    }
  }

  /** A service object in the client's own process is never dropped before the destructor. */
  lemma LocalServiceStays(k: Client, ss: seq<State>, es: seq<Event>, i: nat, j: nat, r: Remote)
    requires Run(k, ss, es) && i <= j < |ss|
    requires !r.isProxyObject && ss[i].proxy == Some(r)
    requires forall m | i <= m < j :: !es[m].Destroy?
    ensures ss[j].proxy == Some(r)
  {
    forall m | i <= m < j ensures !Evicts(es[m], r) {
      Reachable(k, ss, es, m);
    }
    OneProxyPerEpoch(k, ss, es, i, j, r);
  }

  lemma Extend(k: Client, ss: seq<State>, es: seq<Event>, e: Event)
    returns (ss': seq<State>, es': seq<Event>, s: State)
    requires Run(k, ss, es) && Enabled(k, ss[|es|], e)
    ensures Run(k, ss', es') && es' == es + [e] && s == ss'[|es'|] == Next(k, ss[|es|], e)
  {
    s := Next(k, ss[|es|], e);
    ss', es' := ss + [s], es + [e];
  }

  /** An undisturbed lookup of a live remote in another process. */
  lemma Connect(k: Client, ss: seq<State>, es: seq<Event>, r: Remote)
    returns (ss': seq<State>, es': seq<Event>, s: State)
    requires Run(k, ss, es) && r.isProxyObject
    requires var s := ss[|es|]; s.section.Free? && s.proxy.None? && !s.destroyed && r !in s.dead
    ensures Run(k, ss', es') && es' == es + [Find(r), Register(true), Install(true)] && s == ss'[|es'|]
    ensures var was := ss[|es|];
            s == was.(proxy := Some(r), recipient := Some(was.newest), newest := was.newest + 1,
                      watching := was.watching + {(r, was.newest)})
  {
    ss', es', s := Extend(k, ss, es, Find(r));
    ss', es', s := Extend(k, ss', es', Register(true));
    ss', es', s := Extend(k, ss', es', Install(true));
  }

  /** A service that dies and comes back as another remote: the client drops the first, connects
      to the second, and keeps it through a second delivery of the first one's notification. */
  lemma DeathAndReconnect(k: Client, a: Remote, b: Remote) returns (ss: seq<State>, es: seq<Event>)
    requires a != b && a.isProxyObject && b.isProxyObject
    ensures Run(k, ss, es) && ss[|es|].proxy == Some(b) && ss[|es|].pending == {}
    ensures es == [Find(a), Register(true), Install(true), Die(a), Deliver(a, 0, true),
                   Find(b), Register(true), Install(true), Deliver(a, 0, false), Hit]
  {
    var s := INIT;
    ss, es := [s], [];
    ss, es, s := Connect(k, ss, es, a);
    hide Run;
    assert s == State(Some(a), Some(0), Free, 1, {}, {(a, 0)}, {}, {}, false);
    ss, es, s := Extend(k, ss, es, Die(a));
    assert s == State(Some(a), Some(0), Free, 1, {a}, {}, {(a, 0)}, {}, false);
    ss, es, s := Extend(k, ss, es, Deliver(a, 0, true));
    assert s == State(None, Some(0), Free, 1, {a}, {}, {(a, 0)}, {}, false);
    ss, es, s := Connect(k, ss, es, b);
    assert s == State(Some(b), Some(1), Free, 2, {a}, {(b, 1)}, {(a, 0)}, {}, false);
    ss, es, s := Extend(k, ss, es, Deliver(a, 0, false));
    ss, es, s := Extend(k, ss, es, Hit);
  }

  // --------------------------------------------------------- the client object

  /** What the environment answers during one lookup. */
  datatype Lookup = Lookup(found: Option<Remote>, newest: Recipient, added: bool, castable: bool)

  /** A remote was found, and a recipient registered with it if it can be watched. */
  predicate Registers(env: Lookup) {
    env.found.Some? && (env.found.value.isProxyObject ==> env.added)
  }

  predicate Connects(env: Lookup) { Registers(env) && env.castable }

  /** `watching` is what is registered with live remotes on behalf of this client. */
  class ServiceClient {
    const kind: Client
    var proxy: Option<Remote>
    var recipient: Option<Recipient>
    var watching: set<(Remote, Recipient)>

    constructor (kind: Client)
      ensures this.kind == kind && Mirrors(INIT)
    {
      this.kind := kind;
      proxy, recipient, watching := None, None, {};
    }

    predicate Mirrors(s: State)
      reads this
    {
      proxy == s.proxy && recipient == s.recipient && watching == s.watching
    }

    /** A lookup that no other step falls into takes the object where the machine's steps
        take the state, and returns what they return. */
    method GetProxy(env: Lookup, ghost s: State) returns (result: Option<Remote>)
      requires Mirrors(s) && LookupPossible(s, env)
      modifies this
      ensures result == proxy
      ensures Mirrors(AfterLookup(kind, s, env))
      ensures result == LookupResult(kind, s, env)
      ensures result == if old(proxy).Some? then old(proxy) else if Connects(env) then env.found else None
      ensures old(proxy).Some? || env.found.None? ==> recipient == old(recipient) && watching == old(watching)
      ensures old(proxy).None? && env.found.Some? ==>
                && (recipient == if kind.Esim? || Registers(env) then Some(env.newest) else old(recipient))
                && (watching == old(watching) + if env.found.value.isProxyObject && env.added
                                                then {(env.found.value, env.newest)} else {})
    {
      if proxy.Some? {
        return proxy;
      }
      if env.found.None? {
        return None;
      }
      var obj := env.found.value;
      if kind.Esim? {
        recipient := Some(env.newest);
      }
      if obj.isProxyObject {
        if !env.added {
          return None;
        }
        watching := watching + {(obj, env.newest)};
      }
      proxy := if env.castable then Some(obj) else None;
      if !kind.Esim? {
        recipient := Some(env.newest);
      }
      return proxy;
    }

    /** `remote` is the weak reference of a notification and `promoted` what it promotes to;
        while the proxy is held its own remote promotes to itself.  A proxy that is dropped
        has its stored recipient unregistered. */
    method RemoveDeathRecipient(remote: Option<Remote>, promoted: Option<Remote>, isRemoteDied: bool)
      requires promoted.Some? ==> promoted == remote
      requires remote.Some? && proxy == remote ==> promoted == remote
      modifies this`proxy, this`watching
      ensures proxy == if isRemoteDied && (remote.None? || old(proxy) != remote) then old(proxy) else None
      ensures watching == if proxy != old(proxy) && recipient.Some?
                          then old(watching) - {(old(proxy).value, recipient.value)} else old(watching)
    {
      if isRemoteDied && remote.None? {
        return;
      }
      if proxy.None? {
        return;
      }
      if isRemoteDied && proxy != promoted {
        return;
      }
      if recipient.Some? {
        watching := watching - {(proxy.value, recipient.value)};
      }
      proxy := None;
    }
  }

  /** The events of one undisturbed lookup. */
  function LookupEvents(s: State, env: Lookup): seq<Event> {
    if s.proxy.Some? then [Hit]
    else if env.found.None? then [Miss]
    else if env.found.value.isProxyObject && !env.added then [Find(env.found.value), Register(false)]
    else [Find(env.found.value), Register(env.added), Install(env.castable)]
  }

  predicate LookupPossible(s: State, env: Lookup) {
    s.section.Free? && !s.destroyed && env.newest == s.newest
    && (env.found.Some? && env.found.value.isProxyObject && env.added ==> env.found.value !in s.dead)
  }

  function AfterLookup(k: Client, s: State, env: Lookup): State
    requires LookupPossible(s, env)
  {
    var es := LookupEvents(s, env);
    var s1 := Next(k, s, es[0]);
    if |es| == 1 then s1
    else
      var s2 := Next(k, s1, es[1]);
      if |es| == 2 then s2 else Next(k, s2, es[2])
  }

  function LookupResult(k: Client, s: State, env: Lookup): Option<Remote>
    requires LookupPossible(s, env)
  {
    var es := LookupEvents(s, env);
    if |es| == 1 then Returned(k, s, es[0]).value
    else
      var s1 := Next(k, s, es[0]);
      if |es| == 2 then Returned(k, s1, es[1]).value
      else Returned(k, Next(k, s1, es[1]), es[2]).value
  }

  /** Handling a notification, or destroying the client, changes the cached proxy and the
      registrations exactly as `RemoveDeathRecipient` does. */
  lemma NotificationIsRemoval(k: Client, s: State, e: Event)
    requires Inv(s) && Enabled(k, s, e) && (e.Destroy? || e.Deliver?)
    ensures var s' := Next(k, s, e);
            && s'.proxy == (if e.Deliver? && s.proxy != Some(e.remote) then s.proxy else None)
            && s'.recipient == s.recipient
            && s'.watching == if s'.proxy != s.proxy && s.recipient.Some?
                              then s.watching - {(s.proxy.value, s.recipient.value)} else s.watching
  {
    assert e.Deliver? && e.recipient in s.silenced ==> s.destroyed;
  }
}
