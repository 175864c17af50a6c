/** The epoll event loop: socket dispatchers, the server's two dispatcher maps, and the kernel's
    interest list, which caches what each dispatcher wants to hear about. */
module SocketServer {
  import opened Wrappers

  /** The bits of an event mask; a mask is the set of its bits. */
  datatype Event = DeRead | DeWrite | DeConnect | DeClose | DeAccept
  type Events = set<Event>

  datatype ConnState = CsClosed | CsConnecting | CsConnected

  const INVALID_SOCKET := -1
  const READ_WRITE: Events := {DeRead, DeWrite}

  datatype EpollMask = EpollMask(pollIn: bool, pollOut: bool)
  const NOTHING := EpollMask(false, false)

  function GetEpollEvents(ff: Events): EpollMask {
    EpollMask(DeRead in ff || DeAccept in ff, DeWrite in ff || DeConnect in ff)
  }

  /** One entry of the kernel's interest list. */
  datatype Interest = Interest(mask: EpollMask, key: nat)

  /** A SocketDispatcher; saved is saved_enabled_events_, with None for -1. */
  datatype Dispatcher = Dispatcher(fd: int, udp: bool, state: ConnState, enabled: Events, saved: Option<Events>) {
    /** The events the kernel was last told about, while a batch holds updates back. */
    function Reference(): Events {
      if saved == None then enabled else saved.value
    }
  }

  /** The dispatcher and descriptor that a key was issued for. */
  datatype Binding = Binding(dispatcher: nat, fd: int)

  /** The server and its kernel. A dispatcher's address is its number in sockets. The last four
      fields are history: keys issued, sockets whose kernel mask lags, and how often one joined the
      interest list inside its own batch with events already enabled. */
  datatype State = State(
    nextKey: nat,
    byKey: map<nat, nat>,
    byDispatcher: map<nat, nat>,
    epoll: map<int, Interest>,
    sockets: seq<Dispatcher>,
    ledger: map<nat, Binding>,
    stale: set<nat>,
    eagerAdds: nat)

  // ----- The invariant -----

  /** A live key leads to a dispatcher that leads back, means what it meant when it was issued,
      and is the key under which the kernel watches that dispatcher's descriptor. */
  ghost predicate KeyOk(s: State, k: nat)
    requires k in s.byKey
  {
    var d := s.byKey[k];
    && d in s.byDispatcher && s.byDispatcher[d] == k
    && d < |s.sockets| && s.sockets[d].fd >= 0
    && k in s.ledger && s.ledger[k] == Binding(d, s.sockets[d].fd)
    && s.sockets[d].fd in s.epoll && s.epoll[s.sockets[d].fd].key == k
  }

  ghost predicate DispatcherOk(s: State, d: nat)
    requires d in s.byDispatcher
  {
    && s.byDispatcher[d] in s.byKey && s.byKey[s.byDispatcher[d]] == d
    && d < |s.sockets| && s.sockets[d].fd in s.epoll && MaskFollows(s, d)
  }

  /** The kernel watches nothing but the descriptors of registered dispatchers. */
  ghost predicate WatchOk(s: State, fd: int)
    requires fd in s.epoll
  {
    var k := s.epoll[fd].key;
    k in s.byKey && s.byKey[k] < |s.sockets| && s.sockets[s.byKey[k]].fd == fd
  }

  /** Kernel mask against wanted mask: equal, unless the socket is stale, and then the kernel
      watches a socket that wants nothing. */
  ghost predicate MaskFollows(s: State, d: nat)
    requires d < |s.sockets| && s.sockets[d].fd in s.epoll
  {
    var kernel, wanted := s.epoll[s.sockets[d].fd].mask, GetEpollEvents(s.sockets[d].Reference());
    if d in s.stale then kernel != NOTHING == wanted else kernel == wanted
  }

  ghost predicate SocketOk(s: State, d: nat)
    requires d < |s.sockets|
  {
    d in s.byDispatcher || s.sockets[d].saved == None || s.sockets[d].saved == Some({})
  }

  ghost predicate Ok(s: State) {
    && (forall k {:trigger KeyOk(s, k)} :: k in s.byKey ==> KeyOk(s, k))
    && (forall d {:trigger DispatcherOk(s, d)} :: d in s.byDispatcher ==> DispatcherOk(s, d))
    && (forall fd {:trigger WatchOk(s, fd)} :: fd in s.epoll ==> WatchOk(s, fd))
    && (forall d {:trigger SocketOk(s, d)} :: 0 <= d < |s.sockets| ==> SocketOk(s, d))
    && (forall k :: k in s.ledger <==> 0 <= k < s.nextKey)
    && (s.eagerAdds == 0 ==> s.stale == {})
  }

  /** What no step undoes: issued keys keep their meaning, sockets keep their numbers. */
  ghost predicate Extends(s: State, t: State) {
    && |s.sockets| <= |t.sockets|
    && (forall k :: k in s.ledger ==> k in t.ledger && t.ledger[k] == s.ledger[k])
    && s.eagerAdds <= t.eagerAdds
  }

  // ----- The steps on maps and kernel -----

  function WithSocket(s: State, d: nat, x: Dispatcher): State
    requires d < |s.sockets|
  {
    s.(sockets := s.sockets[d := x])
  }

  /** Add: a new key, and an interest entry with the events enabled now. */
  function Added(s: State, d: nat): State
    requires d < |s.sockets|
  {
    if d in s.byDispatcher then s else
    var x := s.sockets[d];
    var mask := GetEpollEvents(x.enabled);
    var eager := x.saved != None && mask != NOTHING;
    s.(nextKey := s.nextKey + 1,
       byKey := s.byKey[s.nextKey := d],
       byDispatcher := s.byDispatcher[d := s.nextKey],
       epoll := s.epoll[x.fd := Interest(mask, s.nextKey)],
       ledger := s.ledger[s.nextKey := Binding(d, x.fd)],
       stale := if eager then s.stale + {d} else s.stale - {d},
       eagerAdds := s.eagerAdds + if eager then 1 else 0)
  }

  function Removed(s: State, d: nat): State
    requires d < |s.sockets|
  {
    if d !in s.byDispatcher then s else
    s.(byKey := s.byKey - {s.byDispatcher[d]},
       byDispatcher := s.byDispatcher - {d},
       epoll := s.epoll - {s.sockets[d].fd},
       stale := s.stale - {d})
  }

  function Updated(s: State, d: nat): State
    requires d < |s.sockets|
  {
    if d !in s.byDispatcher then s else
    var x := s.sockets[d];
    s.(epoll := s.epoll[x.fd := Interest(GetEpollEvents(x.enabled), s.byDispatcher[d])], stale := s.stale - {d})
  }

  /** A change of the enabled events, reported to the kernel if its view changes and no batch runs. */
  function WithEvents(s: State, d: nat, events: Events): State
    requires d < |s.sockets|
  {
    var x := s.sockets[d];
    var t := WithSocket(s, d, x.(enabled := events));
    if GetEpollEvents(events) != GetEpollEvents(x.enabled) && x.saved == None then Updated(t, d) else t
  }

  lemma AddedKeyOk(s: State, d: nat, k: nat)
    requires Ok(s) && d < |s.sockets| && d !in s.byDispatcher && s.sockets[d].fd >= 0 && s.sockets[d].fd !in s.epoll
    requires k in Added(s, d).byKey
    ensures KeyOk(Added(s, d), k)
  {
    if k in s.byKey { assert KeyOk(s, k); }
  }

  lemma AddedDispatcherOk(s: State, d: nat, e: nat)
    requires Ok(s) && d < |s.sockets| && d !in s.byDispatcher && s.sockets[d].fd >= 0 && s.sockets[d].fd !in s.epoll
    requires e in Added(s, d).byDispatcher
    ensures DispatcherOk(Added(s, d), e)
  {
    assert SocketOk(s, d);
    if e in s.byDispatcher { assert DispatcherOk(s, e) && KeyOk(s, s.byDispatcher[e]); }
  }

  lemma AddedKeeps(s: State, d: nat)
    requires Ok(s) && d < |s.sockets| && s.sockets[d].fd >= 0
    requires d !in s.byDispatcher ==> s.sockets[d].fd !in s.epoll
    ensures Ok(Added(s, d)) && Extends(s, Added(s, d))
  {
    var t := Added(s, d);
    if d !in s.byDispatcher {
      forall k | k in t.byKey ensures KeyOk(t, k) { AddedKeyOk(s, d, k); }
      forall e | e in t.byDispatcher ensures DispatcherOk(t, e) { AddedDispatcherOk(s, d, e); }
      forall f | f in t.epoll ensures WatchOk(t, f) {
        if f in s.epoll { assert WatchOk(s, f) && KeyOk(s, s.epoll[f].key); }
      }
      forall e | 0 <= e < |t.sockets| ensures SocketOk(t, e) { assert SocketOk(s, e); }
    }
  }

  /** Close zeroes the saved events first, so that the removal also ends the batch's claim. */
  lemma RemovedKeeps(s: State, d: nat, saved: Option<Events>)
    requires Ok(s) && d < |s.sockets| && (saved == None || saved == Some({}))
    ensures var t := Removed(WithSocket(s, d, s.sockets[d].(saved := saved)), d);
            Ok(t) && Extends(s, t) && d !in t.byDispatcher
  {
    var t := Removed(WithSocket(s, d, s.sockets[d].(saved := saved)), d);
    if d in s.byDispatcher { assert DispatcherOk(s, d) && KeyOk(s, s.byDispatcher[d]); }
    forall k | k in t.byKey ensures KeyOk(t, k) { assert KeyOk(s, k); }
    forall e | e in t.byDispatcher ensures DispatcherOk(t, e) {
      assert DispatcherOk(s, e) && KeyOk(s, s.byDispatcher[e]);
    }
    forall f | f in t.epoll ensures WatchOk(t, f) { assert WatchOk(s, f); }
    forall e | 0 <= e < |t.sockets| ensures SocketOk(t, e) { assert SocketOk(s, e); }
  }

  /** Nothing depends on a socket that is not registered. */
  lemma UnregisteredKeeps(s: State, d: nat, x: Dispatcher)
    requires Ok(s) && d < |s.sockets| && d !in s.byDispatcher && (x.saved == None || x.saved == Some({}))
    ensures var t := WithSocket(s, d, x); Ok(t) && Extends(s, t)
  {
    var t := WithSocket(s, d, x);
    forall k | k in t.byKey ensures KeyOk(t, k) { assert KeyOk(s, k); }
    forall e | e in t.byDispatcher ensures DispatcherOk(t, e) { assert DispatcherOk(s, e); }
    forall f | f in t.epoll ensures WatchOk(t, f) { assert WatchOk(s, f) && KeyOk(s, s.epoll[f].key); }
    forall e | 0 <= e < |t.sockets| ensures SocketOk(t, e) { assert SocketOk(s, e); }
  }

  /** Nothing depends on a socket that does not exist yet. */
  lemma NewSocketKeeps(s: State, x: Dispatcher)
    requires Ok(s) && x.saved == None
    ensures var t := s.(sockets := s.sockets + [x]);
            Ok(t) && Extends(s, t) && |s.sockets| !in t.byDispatcher
  {
    var t := s.(sockets := s.sockets + [x]);
    forall k | k in t.byKey ensures KeyOk(t, k) { assert KeyOk(s, k); }
    forall e | e in t.byDispatcher ensures DispatcherOk(t, e) { assert DispatcherOk(s, e); }
    forall f | f in t.epoll ensures WatchOk(t, f) { assert WatchOk(s, f) && KeyOk(s, s.epoll[f].key); }
    forall e | 0 <= e < |t.sockets| ensures SocketOk(t, e) { if e < |s.sockets| { assert SocketOk(s, e); } }
    forall e | e in s.byDispatcher ensures e < |s.sockets| { assert DispatcherOk(s, e); }
  }

  /** The start of a batch freezes the reference events. */
  function BatchStarted(s: State, d: nat): State
    requires d < |s.sockets|
  {
    WithSocket(s, d, s.sockets[d].(saved := Some(s.sockets[d].enabled)))
  }

  /** The end of a batch reports the difference accumulated since its start. */
  function BatchFinished(s: State, d: nat): State
    requires d < |s.sockets|
  {
    var x := s.sockets[d];
    var t := WithSocket(s, d, x.(saved := None));
    if x.saved != None && GetEpollEvents(x.enabled) != GetEpollEvents(x.saved.value) then Updated(t, d) else t
  }

  /** A registered socket may change in any way that does not change what it is measured against. */
  lemma SameMaskKeeps(s: State, d: nat, x: Dispatcher)
    requires Ok(s) && d < |s.sockets| && x.fd == s.sockets[d].fd
    requires GetEpollEvents(x.Reference()) == GetEpollEvents(s.sockets[d].Reference())
    requires d in s.byDispatcher || x.saved == s.sockets[d].saved
    ensures Ok(WithSocket(s, d, x)) && Extends(s, WithSocket(s, d, x))
  {
    var t := WithSocket(s, d, x);
    forall k | k in t.byKey ensures KeyOk(t, k) { assert KeyOk(s, k); }
    forall e | e in t.byDispatcher ensures DispatcherOk(t, e) { assert DispatcherOk(s, e); }
    forall f | f in t.epoll ensures WatchOk(t, f) { assert WatchOk(s, f); }
    forall e | 0 <= e < |t.sockets| ensures SocketOk(t, e) { assert SocketOk(s, e); }
  }

  /** An update outside a batch makes up for any change of events. */
  lemma UpdatedKeeps(s: State, d: nat, x: Dispatcher)
    requires Ok(s) && d in s.byDispatcher && d < |s.sockets| && x.fd == s.sockets[d].fd && x.saved == None
    ensures var t := Updated(WithSocket(s, d, x), d); Ok(t) && Extends(s, t)
  {
    var t := Updated(WithSocket(s, d, x), d);
    assert DispatcherOk(s, d) && KeyOk(s, s.byDispatcher[d]);
    forall k | k in t.byKey ensures KeyOk(t, k) { assert KeyOk(s, k); }
    forall e | e in t.byDispatcher ensures DispatcherOk(t, e) {
      assert DispatcherOk(s, e) && KeyOk(s, s.byDispatcher[e]);
    }
    forall f | f in t.epoll ensures WatchOk(t, f) { if f in s.epoll { assert WatchOk(s, f); } }
    forall e | 0 <= e < |t.sockets| ensures SocketOk(t, e) { assert SocketOk(s, e); }
  }

  lemma BatchStartedKeeps(s: State, d: nat)
    requires Ok(s) && d in s.byDispatcher && d < |s.sockets| && s.sockets[d].saved == None
    ensures Ok(BatchStarted(s, d)) && Extends(s, BatchStarted(s, d))
  {
    SameMaskKeeps(s, d, s.sockets[d].(saved := Some(s.sockets[d].enabled)));
  }

  lemma BatchFinishedKeeps(s: State, d: nat)
    requires Ok(s) && d < |s.sockets| && s.sockets[d].saved != None
    ensures Ok(BatchFinished(s, d)) && Extends(s, BatchFinished(s, d))
  {
    var x := s.sockets[d].(saved := None);
    if d !in s.byDispatcher {
      UnregisteredKeeps(s, d, x);
    } else if GetEpollEvents(x.enabled) == GetEpollEvents(s.sockets[d].saved.value) {
      SameMaskKeeps(s, d, x);
    } else {
      UpdatedKeeps(s, d, x);
    }
  }

  lemma WithEventsKeeps(s: State, d: nat, events: Events)
    requires Ok(s) && d < |s.sockets|
    ensures Ok(WithEvents(s, d, events)) && Extends(s, WithEvents(s, d, events))
  {
    var x := s.sockets[d].(enabled := events);
    if d !in s.byDispatcher {
      assert SocketOk(s, d);
      UnregisteredKeeps(s, d, x);
    } else if x.saved != None || GetEpollEvents(events) == GetEpollEvents(s.sockets[d].enabled) {
      SameMaskKeeps(s, d, x);
    } else {
      UpdatedKeeps(s, d, x);
    }
  }

  /** Sockets outside a batch stay outside, sockets inside one stay inside. */
  ghost predicate SameBatches(s: State, t: State) {
    && |s.sockets| <= |t.sockets|
    && (forall d :: 0 <= d < |s.sockets| ==> (s.sockets[d].saved == None <==> t.sockets[d].saved == None))
    && (forall d :: |s.sockets| <= d < |t.sockets| ==> t.sockets[d].saved == None)
  }

  ghost predicate Idle(s: State) {
    forall d :: 0 <= d < |s.sockets| ==> s.sockets[d].saved == None
  }

  /** The main invariant, spelled out: inside a batch the kernel watches a registered socket for the
      events saved at its start, outside for what it has enabled, if and only if it is not stale. */
  lemma KernelFollows(s: State, d: nat)
    requires Ok(s) && d in s.byDispatcher
    ensures d < |s.sockets| && s.sockets[d].fd in s.epoll
    ensures s.epoll[s.sockets[d].fd].key == s.byDispatcher[d]
    ensures var x := s.sockets[d];
            d !in s.stale
            <==> s.epoll[x.fd].mask == GetEpollEvents(if x.saved == None then x.enabled else x.saved.value)
  {
    assert DispatcherOk(s, d) && KeyOk(s, s.byDispatcher[d]);
  }

  // ----- What the operating system and the application decide -----

  datatype ConnectOutcome = Connected | InProgress | Refused

  /** A public call on the socket numbered target; descriptors are the operating system's answers. */
  datatype Call =
    | Create(target: nat, udp: bool, newFd: int)
    | Connect(target: nat, newFd: int, outcome: ConnectOutcome)
    | Send(target: nat, blocked: bool)
    | Recv(target: nat, success: bool)
    | Listen(target: nat, ok: bool)
    | Accept(target: nat, newFd: int)
    | Close(target: nat)
    | CreateSocket(udp: bool, newFd: int)

  /** What the application does inside each signal of one event. */
  datatype Handlers = Handlers(onConnect: seq<Call>, onAccept: seq<Call>, onRead: seq<Call>,
                               onWrite: seq<Call>, onClose: seq<Call>)

  /** One ready descriptor, with the answers to the error and peek queries made about it. */
  datatype Ready = Ready(fd: int, pollIn: bool, pollOut: bool, error: bool, eof: bool, handlers: Handlers)

  /** An event as copied out of the kernel. */
  datatype Gathered = Gathered(key: nat, readable: bool, writable: bool, error: bool, eof: bool, handlers: Handlers)

  /** A signal emitted by a dispatcher: the event it is for, and what the application does in it. */
  datatype Signal = Emitted(dispatcher: nat, event: Event, calls: seq<Call>)

  /** An event handed to a dispatcher, with the descriptor that dispatcher then had, and the signals it emits. */
  datatype Delivery = Delivery(key: nat, dispatcher: nat, fd: int, signals: seq<Signal>)

  // ----- The public calls -----

  /** The descriptor the system returns: never one that is open, and none at all on failure. */
  function OpenDescriptor(s: State, choice: int): (fd: int)
    ensures fd == INVALID_SOCKET || (fd >= 0 && forall i :: 0 <= i < |s.sockets| ==> s.sockets[i].fd != fd)
  {
    if choice >= 0 && forall i :: 0 <= i < |s.sockets| ==> s.sockets[i].fd != choice then choice else INVALID_SOCKET
  }

  function Closed(s: State, d: nat): (t: State)
    requires d < |s.sockets|
    ensures |t.sockets| == |s.sockets|
  {
    var x := s.sockets[d];
    if x.fd == INVALID_SOCKET then s else
    var saved := if x.saved != None then Some({}) else None;
    var r := Removed(WithSocket(s, d, x.(saved := saved)), d);
    WithEvents(WithSocket(r, d, x.(saved := saved, fd := INVALID_SOCKET, state := CsClosed)), d, {})
  }

  /** PhysicalSocket::Create: a new descriptor, and for datagram sockets all events at once. */
  function Opened(s: State, d: nat, udp: bool, newFd: int): (t: State)
    requires d < |s.sockets|
    ensures |t.sockets| == |s.sockets|
  {
    var r := Closed(s, d);
    var q := WithSocket(r, d, r.sockets[d].(fd := OpenDescriptor(r, newFd), udp := udp));
    if udp then WithEvents(q, d, READ_WRITE) else q
  }

  /** Create, including the registration that Initialize performs. */
  function Created(s: State, d: nat, udp: bool, newFd: int): (t: State)
    requires d < |s.sockets|
    ensures |t.sockets| == |s.sockets|
  {
    var p := Opened(s, d, udp, newFd);
    if p.sockets[d].fd == INVALID_SOCKET then p else Added(p, d)
  }

  function Rearmed(s: State, d: nat, state: ConnState, events: Events): (t: State)
    requires d < |s.sockets|
    ensures |t.sockets| == |s.sockets|
  {
    WithEvents(WithSocket(s, d, s.sockets[d].(state := state)), d, events)
  }

  function ConnectedTo(s: State, d: nat, newFd: int, outcome: ConnectOutcome): (t: State)
    requires d < |s.sockets|
    ensures |t.sockets| == |s.sockets|
  {
    if s.sockets[d].state != CsClosed then s else
    var r := if s.sockets[d].fd == INVALID_SOCKET then Created(s, d, false, newFd) else s;
    var x := r.sockets[d];
    if x.fd == INVALID_SOCKET then r else
    match outcome
    case Refused => r
    case Connected => Rearmed(r, d, CsConnected, x.enabled + READ_WRITE)
    case InProgress => Rearmed(r, d, CsConnecting, x.enabled + READ_WRITE + {DeConnect})
  }

  function CalledOn(s: State, d: nat, call: Call): (t: State)
    requires d < |s.sockets|
    ensures |t.sockets| >= |s.sockets|
  {
    var enabled := s.sockets[d].enabled;
    match call
    case Create(_, udp, newFd) => Created(s, d, udp, newFd)
    case Connect(_, newFd, outcome) => ConnectedTo(s, d, newFd, outcome)
    case Send(_, blocked) => if blocked then WithEvents(s, d, enabled + {DeWrite}) else s
    case Recv(_, success) => if success || s.sockets[d].udp then WithEvents(s, d, enabled + {DeRead}) else s
    case Listen(_, ok) => if ok then Rearmed(s, d, CsConnecting, enabled + {DeAccept}) else s
    case Accept(_, newFd) => Accepted(s, d, newFd)
    case Close(_) => Closed(s, d)
    case CreateSocket(_, _) => s
  }

  /** CreateSocket of the server: a new closed dispatcher, then Create on it. */
  function SocketCreated(s: State, udp: bool, newFd: int): (t: State)
    ensures |t.sockets| >= |s.sockets|
  {
    var t := s.(sockets := s.sockets + [Dispatcher(INVALID_SOCKET, false, CsClosed, {}, None)]);
    Created(t, |s.sockets|, udp, newFd)
  }

  /** A call, which does nothing if it names no socket. */
  function Called(s: State, call: Call): (t: State)
    ensures |t.sockets| >= |s.sockets|
  {
    if call.CreateSocket? then SocketCreated(s, call.udp, call.newFd)
    else if call.target < |s.sockets| then CalledOn(s, call.target, call) else s
  }

  /** Accept re-arms the listening socket and wraps the new descriptor in a registered socket. */
  function Accepted(s: State, d: nat, newFd: int): (t: State)
    requires d < |s.sockets|
    ensures |t.sockets| >= |s.sockets|
  {
    var r := WithEvents(s, d, s.sockets[d].enabled + {DeAccept});
    var fd := OpenDescriptor(r, newFd);
    if fd == INVALID_SOCKET then r else
    Added(r.(sockets := r.sockets + [Dispatcher(fd, false, CsConnected, READ_WRITE, None)]), |r.sockets|)
  }

  function AllCalled(s: State, calls: seq<Call>): (t: State)
    ensures |t.sockets| >= |s.sockets|
    decreases |calls|
  {
    if calls == [] then s else AllCalled(Called(s, calls[0]), calls[1..])
  }

  /** What every call keeps. */
  ghost predicate Keeps(s: State, t: State) {
    Ok(t) && Extends(s, t) && SameBatches(s, t)
  }

  lemma KeepsTransitive(s: State, t: State, u: State)
    requires Keeps(s, t) && Keeps(t, u)
    ensures Keeps(s, u)
  {}

  lemma RearmedKeeps(s: State, d: nat, state: ConnState, events: Events)
    requires Ok(s) && d < |s.sockets|
    ensures Keeps(s, Rearmed(s, d, state, events)) && Rearmed(s, d, state, events).eagerAdds == s.eagerAdds
  {
    var t := WithSocket(s, d, s.sockets[d].(state := state));
    SameMaskKeeps(s, d, t.sockets[d]);
    WithEventsKeeps(t, d, events);
    KeepsTransitive(s, t, WithEvents(t, d, events));
  }

  lemma RegisteredIsOpen(s: State, d: nat)
    requires Ok(s) && d in s.byDispatcher
    ensures d < |s.sockets| && s.sockets[d].fd >= 0
  {
    assert DispatcherOk(s, d) && KeyOk(s, s.byDispatcher[d]);
  }

  lemma QuietWithEvents(s: State, d: nat, events: Events)
    requires d < |s.sockets| && d !in s.byDispatcher
    ensures WithEvents(s, d, events) == WithSocket(s, d, s.sockets[d].(enabled := events))
  {}

  /** Closed in one piece. */
  lemma ClosedIs(s: State, d: nat)
    requires d < |s.sockets| && s.sockets[d].fd != INVALID_SOCKET
    ensures var x := s.sockets[d];
            var saved := if x.saved != None then Some({}) else None;
            var r := Removed(WithSocket(s, d, x.(saved := saved)), d);
            Closed(s, d) == WithSocket(r, d, Dispatcher(INVALID_SOCKET, x.udp, CsClosed, {}, saved))
  {
    var x := s.sockets[d];
    var saved := if x.saved != None then Some({}) else None;
    var r := Removed(WithSocket(s, d, x.(saved := saved)), d);
    var y := x.(saved := saved, fd := INVALID_SOCKET, state := CsClosed);
    QuietWithEvents(WithSocket(r, d, y), d, {});
    assert r.sockets[d := y][d := y.(enabled := {})] == r.sockets[d := y.(enabled := {})];
  }

  lemma ClosedKeeps(s: State, d: nat)
    requires Ok(s) && d < |s.sockets|
    ensures var t := Closed(s, d);
            && Keeps(s, t) && d !in t.byDispatcher && t.eagerAdds == s.eagerAdds
            && t.sockets[d].fd == INVALID_SOCKET
            && (s.sockets[d].fd == INVALID_SOCKET ==> t == s)
  {
    var x := s.sockets[d];
    if x.fd == INVALID_SOCKET {
      if d in s.byDispatcher { RegisteredIsOpen(s, d); }
    } else {
      var saved := if x.saved != None then Some({}) else None;
      ClosedIs(s, d);
      RemovedKeeps(s, d, saved);
      UnregisteredKeeps(Removed(WithSocket(s, d, x.(saved := saved)), d), d,
                        Dispatcher(INVALID_SOCKET, x.udp, CsClosed, {}, saved));
    }
  }

  lemma OpenedKeeps(s: State, d: nat, udp: bool, newFd: int)
    requires Ok(s) && d < |s.sockets|
    ensures var r, t := Closed(s, d), Opened(s, d, udp, newFd);
            && Keeps(s, t) && t.eagerAdds == s.eagerAdds && d !in t.byDispatcher
            && t.sockets[d].fd == OpenDescriptor(r, newFd) && t.sockets[d].fd !in t.epoll
            && t.sockets[d].saved == r.sockets[d].saved
            && t.sockets[d].enabled == if udp then READ_WRITE else r.sockets[d].enabled
  {
    var r := Closed(s, d);
    ClosedKeeps(s, d);
    assert SocketOk(r, d);
    var fd := OpenDescriptor(r, newFd);
    forall f | f in r.epoll ensures f != fd { assert WatchOk(r, f) && KeyOk(r, r.epoll[f].key); }
    var x := r.sockets[d].(fd := fd, udp := udp);
    UnregisteredKeeps(r, d, x);
    QuietWithEvents(WithSocket(r, d, x), d, READ_WRITE);
    WithEventsKeeps(WithSocket(r, d, x), d, READ_WRITE);
  }

  /** Creating a socket keeps everything, and registers it if the system gave a descriptor. */
  lemma CreatedKeeps(s: State, d: nat, udp: bool, newFd: int)
    requires Ok(s) && d < |s.sockets|
    ensures Keeps(s, Created(s, d, udp, newFd))
    ensures d in Created(s, d, udp, newFd).byDispatcher <==> OpenDescriptor(Closed(s, d), newFd) != INVALID_SOCKET
    ensures Created(s, d, udp, newFd).eagerAdds == s.eagerAdds + if IsEagerCreate(s, d, udp, newFd) then 1 else 0
  {
    var p := Opened(s, d, udp, newFd);
    OpenedKeeps(s, d, udp, newFd);
    if p.sockets[d].fd != INVALID_SOCKET {
      AddedKeeps(p, d);
      KeepsTransitive(s, p, Added(p, d));
    }
    ClosedKeeps(s, d);
    if s.sockets[d].fd != INVALID_SOCKET { ClosedIs(s, d); }
  }

  /** The calls that leave the kernel ahead of a running batch: the socket is recreated inside its
      own batch and joins the interest list with events already enabled. A stream socket does so
      only if it was armed while closed; a datagram socket always does. */
  predicate IsEager(s: State, call: Call) {
    && !call.CreateSocket? && call.target < |s.sockets|
    && match call
       case Create(d, udp, newFd) => IsEagerCreate(s, d, udp, newFd)
       case Connect(d, newFd, _) => IsEagerConnect(s, d, newFd)
       case _ => false
  }

  predicate IsEagerConnect(s: State, d: nat, newFd: int)
    requires d < |s.sockets|
  {
    s.sockets[d].state == CsClosed && s.sockets[d].fd == INVALID_SOCKET && IsEagerCreate(s, d, false, newFd)
  }

  predicate IsEagerCreate(s: State, d: nat, udp: bool, newFd: int)
    requires d < |s.sockets|
  {
    && s.sockets[d].saved != None
    && OpenDescriptor(Closed(s, d), newFd) != INVALID_SOCKET
    && (udp || (s.sockets[d].fd == INVALID_SOCKET && GetEpollEvents(s.sockets[d].enabled) != NOTHING))
  }

  lemma ConnectedKeeps(s: State, d: nat, newFd: int, outcome: ConnectOutcome)
    requires Ok(s) && d < |s.sockets|
    ensures Keeps(s, ConnectedTo(s, d, newFd, outcome))
    ensures ConnectedTo(s, d, newFd, outcome).eagerAdds
         == s.eagerAdds + if IsEagerConnect(s, d, newFd) then 1 else 0
  {
    if s.sockets[d].state != CsClosed { return; }
    var r := s;
    if s.sockets[d].fd == INVALID_SOCKET {
      CreatedKeeps(s, d, false, newFd);
      r := Created(s, d, false, newFd);
    }
    var x := r.sockets[d];
    if x.fd != INVALID_SOCKET && outcome != Refused {
      var state := if outcome == Connected then CsConnected else CsConnecting;
      var events := x.enabled + READ_WRITE + if outcome == Connected then {} else {DeConnect};
      RearmedKeeps(r, d, state, events);
      KeepsTransitive(s, r, Rearmed(r, d, state, events));
      assert outcome == Connected ==> events == x.enabled + READ_WRITE;
    }
  }

  lemma AcceptedKeeps(s: State, d: nat, newFd: int)
    requires Ok(s) && d < |s.sockets|
    ensures Keeps(s, Accepted(s, d, newFd)) && Accepted(s, d, newFd).eagerAdds == s.eagerAdds
  {
    var events := s.sockets[d].enabled + {DeAccept};
    var r := WithEvents(s, d, events);
    WithEventsKeeps(s, d, events);
    var fd := OpenDescriptor(r, newFd);
    if fd != INVALID_SOCKET {
      var x := Dispatcher(fd, false, CsConnected, READ_WRITE, None);
      var q := r.(sockets := r.sockets + [x]);
      NewSocketKeeps(r, x);
      forall f | f in r.epoll ensures f != fd { assert WatchOk(r, f); }
      AddedKeeps(q, |r.sockets|);
    }
  }

  lemma CreateSocketKeeps(s: State, udp: bool, newFd: int)
    requires Ok(s)
    ensures Keeps(s, SocketCreated(s, udp, newFd)) && SocketCreated(s, udp, newFd).eagerAdds == s.eagerAdds
  {
    var x := Dispatcher(INVALID_SOCKET, false, CsClosed, {}, None);
    var t := s.(sockets := s.sockets + [x]);
    NewSocketKeeps(s, x);
    CreatedKeeps(t, |s.sockets|, udp, newFd);
    assert t.sockets[|s.sockets|] == x;
    KeepsTransitive(s, t, Created(t, |s.sockets|, udp, newFd));
  }

  /** Every public call, wherever it is made, keeps the invariant, the meaning of the keys, and the
      batches; and it is eager exactly when it adds to eagerAdds. */
  lemma CalledKeeps(s: State, call: Call)
    requires Ok(s)
    ensures Keeps(s, Called(s, call))
    ensures Called(s, call).eagerAdds == s.eagerAdds + if IsEager(s, call) then 1 else 0
  {
    if call.CreateSocket? {
      CreateSocketKeeps(s, call.udp, call.newFd);
    } else if call.target < |s.sockets| {
      CalledOnKeeps(s, call.target, call);
    }
  }

  lemma CalledOnKeeps(s: State, d: nat, call: Call)
    requires Ok(s) && d < |s.sockets| && !call.CreateSocket? && call.target == d
    ensures Keeps(s, CalledOn(s, d, call))
    ensures CalledOn(s, d, call).eagerAdds == s.eagerAdds + if IsEager(s, call) then 1 else 0
  {
    match call
    case Create(_, udp, newFd) => CreatedKeeps(s, d, udp, newFd);
    case Connect(_, newFd, outcome) => ConnectedKeeps(s, d, newFd, outcome);
    case Send(_, _) => WithEventsKeeps(s, d, s.sockets[d].enabled + {DeWrite});
    case Recv(_, _) => WithEventsKeeps(s, d, s.sockets[d].enabled + {DeRead});
    case Listen(_, _) => RearmedKeeps(s, d, CsConnecting, s.sockets[d].enabled + {DeAccept});
    case Accept(_, newFd) => AcceptedKeeps(s, d, newFd);
    case Close(_) => ClosedKeeps(s, d);
  }

  lemma {:induction false} AllCalledKeeps(s: State, calls: seq<Call>)
    requires Ok(s)
    ensures Keeps(s, AllCalled(s, calls))
    decreases |calls|
  {
    if calls != [] {
      CalledKeeps(s, calls[0]);
      AllCalledKeeps(Called(s, calls[0]), calls[1..]);
    }
  }

  // ----- One event -----

  /** The five signals of an event, in order. */
  function EventAt(i: nat): Event {
    if i == 0 then DeConnect else if i == 1 then DeAccept else if i == 2 then DeRead else if i == 3 then DeWrite
        else DeClose
  }

  function CallsAt(h: Handlers, i: nat): seq<Call> {
    if i == 0 then h.onConnect else if i == 1 then h.onAccept else if i == 2 then h.onRead
    else if i == 3 then h.onWrite else h.onClose
  }

  /** The event is disabled before its handler runs; a close event disables all. */
  function Disabled(s: State, d: nat, event: Event): (t: State)
    requires d < |s.sockets|
    ensures |t.sockets| == |s.sockets|
  {
    WithEvents(s, d, if event == DeClose then {} else s.sockets[d].enabled - {event})
  }

  function Signalled(s: State, d: nat, event: Event, ff: Events, calls: seq<Call>): (t: State)
    requires d < |s.sockets|
    ensures |t.sockets| >= |s.sockets|
  {
    if event !in ff then s else AllCalled(Disabled(s, d, event), calls)
  }

  lemma SignalledKeeps(s: State, d: nat, event: Event, ff: Events, calls: seq<Call>)
    requires Ok(s) && d < |s.sockets|
    ensures Keeps(s, Signalled(s, d, event, ff, calls))
  {
    if event in ff {
      var events := if event == DeClose then {} else s.sockets[d].enabled - {event};
      WithEventsKeeps(s, d, events);
      AllCalledKeeps(WithEvents(s, d, events), calls);
      KeepsTransitive(s, WithEvents(s, d, events), AllCalled(WithEvents(s, d, events), calls));
    }
  }

  /** The first n signals of an event. */
  function AfterSignals(s: State, d: nat, ff: Events, h: Handlers, n: nat): (t: State)
    requires d < |s.sockets|
    ensures |t.sockets| >= |s.sockets|
  {
    if n == 0 then s else Signalled(AfterSignals(s, d, ff, h, n - 1), d, EventAt(n - 1), ff, CallsAt(h, n - 1))
  }

  /** All signals of one event, between the start and the end of the batch. */
  function BatchHandled(s: State, d: nat, ff: Events, h: Handlers): (t: State)
    requires d < |s.sockets|
    ensures |t.sockets| >= |s.sockets|
  {
    var all: nat := 5;
    AfterSignals(s, d, ff, h, all)
  }

  function StateAfter(ff: Events, state: ConnState): ConnState {
    if DeClose in ff then CsClosed else if DeConnect in ff then CsConnected else state
  }

  function BatchBegun(s: State, d: nat, ff: Events): (t: State)
    requires d < |s.sockets|
    ensures |t.sockets| == |s.sockets|
  {
    BatchStarted(WithSocket(s, d, s.sockets[d].(state := StateAfter(ff, s.sockets[d].state))), d)
  }

  /** OnEvent. */
  function EventHandled(s: State, d: nat, ff: Events, h: Handlers): (t: State)
    requires d < |s.sockets|
    ensures |t.sockets| >= |s.sockets|
  {
    BatchFinished(BatchHandled(BatchBegun(s, d, ff), d, ff, h), d)
  }

  lemma FiveSignals(s: State, d: nat, ff: Events, h: Handlers)
    requires d < |s.sockets|
    ensures var s1 := Signalled(s, d, DeConnect, ff, h.onConnect);
            var s2 := Signalled(s1, d, DeAccept, ff, h.onAccept);
            var s3 := Signalled(s2, d, DeRead, ff, h.onRead);
            var s4 := Signalled(s3, d, DeWrite, ff, h.onWrite);
            BatchHandled(s, d, ff, h) == Signalled(s4, d, DeClose, ff, h.onClose)
  {
    var all: nat := 5;
    assert AfterSignals(s, d, ff, h, all - 5) == s;
    assert AfterSignals(s, d, ff, h, all - 4) == Signalled(s, d, DeConnect, ff, h.onConnect);
    assert AfterSignals(s, d, ff, h, all - 3)
        == Signalled(AfterSignals(s, d, ff, h, all - 4), d, DeAccept, ff, h.onAccept);
    assert AfterSignals(s, d, ff, h, all - 2) == Signalled(AfterSignals(s, d, ff, h, all - 3), d, DeRead, ff, h.onRead);
    assert AfterSignals(s, d, ff, h, all - 1)
        == Signalled(AfterSignals(s, d, ff, h, all - 2), d, DeWrite, ff, h.onWrite);
  }

  lemma {:induction false} AfterSignalsKeeps(s: State, d: nat, ff: Events, h: Handlers, n: nat)
    requires Ok(s) && d < |s.sockets|
    ensures Keeps(s, AfterSignals(s, d, ff, h, n))
  {
    if n > 0 {
      var t := AfterSignals(s, d, ff, h, n - 1);
      AfterSignalsKeeps(s, d, ff, h, n - 1);
      SignalledKeeps(t, d, EventAt(n - 1), ff, CallsAt(h, n - 1));
      KeepsTransitive(s, t, Signalled(t, d, EventAt(n - 1), ff, CallsAt(h, n - 1)));
    }
  }

  lemma BatchHandledKeeps(s: State, d: nat, ff: Events, h: Handlers)
    requires Ok(s) && d < |s.sockets|
    ensures Keeps(s, BatchHandled(s, d, ff, h))
  {
    var all: nat := 5;
    AfterSignalsKeeps(s, d, ff, h, all);
  }

  /** The batch of d, and no other, is running. */
  ghost predicate OnlyBatch(s: State, d: nat) {
    forall e :: 0 <= e < |s.sockets| ==> (s.sockets[e].saved == None <==> e != d)
  }

  lemma BatchBegunKeeps(s: State, d: nat, ff: Events)
    requires Ok(s) && Idle(s) && d in s.byDispatcher && d < |s.sockets|
    ensures var t := BatchBegun(s, d, ff); Ok(t) && Extends(s, t) && OnlyBatch(t, d)
  {
    var x := s.sockets[d].(state := StateAfter(ff, s.sockets[d].state));
    SameMaskKeeps(s, d, x);
    BatchStartedKeeps(WithSocket(s, d, x), d);
  }

  /** An event, whatever its handlers do, keeps the invariant and leaves no batch running. */
  lemma EventKeeps(s: State, d: nat, ff: Events, h: Handlers)
    requires Ok(s) && Idle(s) && d in s.byDispatcher && d < |s.sockets|
    ensures var t := EventHandled(s, d, ff, h); Ok(t) && Extends(s, t) && Idle(t)
    ensures OnlyBatch(BatchHandled(BatchBegun(s, d, ff), d, ff, h), d)
  {
    var s0 := BatchBegun(s, d, ff);
    BatchBegunKeeps(s, d, ff);
    var s1 := BatchHandled(s0, d, ff, h);
    BatchHandledKeeps(s0, d, ff, h);
    BatchFinishedKeeps(s1, d);
  }

  /** ProcessEvents: which events a ready descriptor stands for. */
  function Fired(requested: Events, readable: bool, writable: bool, error: bool, eof: bool): Events {
    (if !readable then {}
     else if DeAccept in requested then {DeAccept}
     else if error || eof then {DeClose}
     else {DeRead})
    + (if !writable then {}
       else if DeConnect !in requested then {DeWrite}
       else if !error then {DeConnect}
       else {DeClose})
  }

  function Processed(s: State, d: nat, g: Gathered): (t: State)
    requires d < |s.sockets|
    ensures |t.sockets| >= |s.sockets|
  {
    var ff := Fired(s.sockets[d].enabled, g.readable, g.writable, g.error, g.eof);
    if ff == {} then s else EventHandled(s, d, ff, g.handlers)
  }

  function SignalOf(d: nat, event: Event, ff: Events, calls: seq<Call>): seq<Signal> {
    if event in ff then [Emitted(d, event, calls)] else []
  }

  /** The signals of an event, in order. */
  function Signals(d: nat, ff: Events, h: Handlers): seq<Signal> {
    SignalOf(d, DeConnect, ff, h.onConnect) + SignalOf(d, DeAccept, ff, h.onAccept)
    + SignalOf(d, DeRead, ff, h.onRead) + SignalOf(d, DeWrite, ff, h.onWrite) + SignalOf(d, DeClose, ff, h.onClose)
  }

  /** Handing an event to the dispatcher of a live key. */
  function Delivered(s: State, g: Gathered): Delivery
    requires g.key in s.byKey && s.byKey[g.key] < |s.sockets|
  {
    var d := s.byKey[g.key];
    var x := s.sockets[d];
    Delivery(g.key, d, x.fd, Signals(d, Fired(x.enabled, g.readable, g.writable, g.error, g.eof), g.handlers))
  }

  // ----- Waiting -----

  function WatchedKeys(epoll: map<int, Interest>): set<nat> {
    set fd | fd in epoll :: epoll[fd].key
  }

  /** The events epoll_wait copies out: ready descriptors it watches, cut down to their masks. */
  function Gather(epoll: map<int, Interest>, round: seq<Ready>): (events: seq<Gathered>)
    ensures forall i :: 0 <= i < |events| ==> events[i].key in WatchedKeys(epoll)
  {
    if round == [] then []
    else
      var r, rest := round[0], Gather(epoll, round[1..]);
      if r.fd !in epoll then rest else
      var i := epoll[r.fd];
      [Gathered(i.key, r.pollIn && i.mask.pollIn, r.pollOut && i.mask.pollOut, r.error, r.eof, r.handlers)] + rest
  }

  function Dispatched(s: State, events: seq<Gathered>): State
    decreases |events|
  {
    if events == [] then s
    else if events[0].key !in s.byKey || s.byKey[events[0].key] >= |s.sockets| then Dispatched(s, events[1..])
    else Dispatched(Processed(s, s.byKey[events[0].key], events[0]), events[1..])
  }

  /** Who gets what while the events are dispatched. */
  function Deliveries(s: State, events: seq<Gathered>): seq<Delivery>
    decreases |events|
  {
    if events == [] then []
    else if events[0].key !in s.byKey || s.byKey[events[0].key] >= |s.sockets| then Deliveries(s, events[1..])
    else [Delivered(s, events[0])] + Deliveries(Processed(s, s.byKey[events[0].key], events[0]), events[1..])
  }

  lemma ProcessedKeeps(s: State, d: nat, g: Gathered)
    requires Ok(s) && Idle(s) && d in s.byDispatcher && d < |s.sockets|
    ensures var t := Processed(s, d, g); Ok(t) && Extends(s, t) && Idle(t)
  {
    EventKeeps(s, d, Fired(s.sockets[d].enabled, g.readable, g.writable, g.error, g.eof), g.handlers);
  }

  /** Events gathered in state s0 reach only dispatchers that were registered under their key in
      s0, on the descriptor they had in s0, however the handlers of earlier events close, reopen
      and create sockets; all others are dropped. */
  lemma {:induction false} DeliveredAsGathered(s0: State, s: State, events: seq<Gathered>)
    requires Ok(s0) && Ok(s) && Idle(s) && Extends(s0, s)
    requires forall i :: 0 <= i < |events| ==> events[i].key in s0.byKey
    ensures forall i :: 0 <= i < |Deliveries(s, events)| ==> AsBefore(Deliveries(s, events)[i], s0)
    ensures var t := Dispatched(s, events); Ok(t) && Extends(s, t) && Idle(t)
    decreases |events|
  {
    if events != [] {
      var k := events[0].key;
      assert KeyOk(s0, k);
      if k in s.byKey {
        assert KeyOk(s, k);
        ProcessedKeeps(s, s.byKey[k], events[0]);
        DeliveredAsGathered(s0, Processed(s, s.byKey[k], events[0]), events[1..]);
      } else {
        DeliveredAsGathered(s0, s, events[1..]);
      }
    }
  }

  lemma WatchedAreRegistered(s: State)
    requires Ok(s)
    ensures WatchedKeys(s.epoll) <= s.byKey.Keys
  {
    forall fd | fd in s.epoll ensures s.epoll[fd].key in s.byKey { assert WatchOk(s, fd); }
  }

  /** What select would report if descriptors were read once, before any handler runs: for each
      registered key its descriptor's readiness, cut down to the events enabled then. */
  function SelectGather(s: State, keys: seq<nat>, ready: map<int, Ready>): (events: seq<Gathered>)
    ensures forall i :: 0 <= i < |events| ==> events[i].key in s.byKey
  {
    if keys == [] then [] else SelectOne(s, keys[0], ready) + SelectGather(s, keys[1..], ready)
  }

  function SelectOne(s: State, key: nat, ready: map<int, Ready>): (events: seq<Gathered>)
    ensures |events| <= 1 && (events != [] ==> events[0].key in s.byKey)
  {
    if key !in s.byKey || s.byKey[key] >= |s.sockets| then [] else
    var x := s.sockets[s.byKey[key]];
    if x.fd !in ready then [] else [Selected(key, ready[x.fd], GetEpollEvents(x.enabled))]
  }

  function Selected(key: nat, r: Ready, watched: EpollMask): Gathered {
    Gathered(key, r.pollIn && watched.pollIn, r.pollOut && watched.pollOut, r.error, r.eof, r.handlers)
  }

  // ----- Whole runs -----

  datatype Action = Application(call: Call) | Wait(round: seq<Ready>)

  const INITIAL := State(0, map[], map[], map[], [], map[], {}, 0)

  function Ran(s: State, actions: seq<Action>): State
    decreases |actions|
  {
    if actions == [] then s else
    Ran(match actions[0]
        case Application(call) => Called(s, call)
        case Wait(round) => Dispatched(s, Gather(s.epoll, round)), actions[1..])
  }

  lemma {:induction false} RanKeeps(s: State, actions: seq<Action>)
    requires Ok(s) && Idle(s)
    ensures var t := Ran(s, actions); Ok(t) && Idle(t) && Extends(s, t)
    decreases |actions|
  {
    if actions != [] {
      match actions[0] {
        case Application(call) =>
          CalledKeeps(s, call);
          RanKeeps(Called(s, call), actions[1..]);
        case Wait(round) =>
          WatchedAreRegistered(s);
          DeliveredAsGathered(s, s, Gather(s.epoll, round));
          RanKeeps(Dispatched(s, Gather(s.epoll, round)), actions[1..]);
      }
    }
  }

  class PhysicalSocketServer {
    var nextDispatcherKey: nat
    var dispatcherByKey: map<nat, nat>
    var keyByDispatcher: map<nat, nat>
    var sockets: seq<Dispatcher>
    /** The kernel's interest list. */
    var epoll: map<int, Interest>

    ghost var ledger: map<nat, Binding>
    ghost var stale: set<nat>
    ghost var eagerAdds: nat
    ghost var deliveries: seq<Delivery>

    ghost function View(): State
      reads this
    {
      State(nextDispatcherKey, dispatcherByKey, keyByDispatcher, epoll, sockets, ledger, stale, eagerAdds)
    }

    constructor ()
      ensures Ok(View()) && Idle(View()) && sockets == [] && eagerAdds == 0 && deliveries == []
    {
      nextDispatcherKey, sockets := 0, [];
      dispatcherByKey, keyByDispatcher, epoll := map[], map[], map[];
      ledger, stale, eagerAdds, deliveries := map[], {}, 0, [];
    }

    // ----- PhysicalSocketServer -----

    method Add(d: nat)
      requires d < |sockets|
      modifies this
      ensures View() == Added(old(View()), d) && deliveries == old(deliveries)
    {
      if d in keyByDispatcher {
        return;
      }
      var key := nextDispatcherKey;
      nextDispatcherKey := nextDispatcherKey + 1;
      dispatcherByKey := dispatcherByKey[key := d];
      keyByDispatcher := keyByDispatcher[d := key];
      ledger := ledger[key := Binding(d, sockets[d].fd)];
      AddEpoll(d, key);
    }

    method AddEpoll(d: nat, key: nat)
      requires d < |sockets|
      modifies this`epoll, this`stale, this`eagerAdds
      ensures epoll == old(epoll)[sockets[d].fd := Interest(GetEpollEvents(sockets[d].enabled), key)]
      ensures sockets[d].saved != None && GetEpollEvents(sockets[d].enabled) != NOTHING ==>
                stale == old(stale) + {d} && eagerAdds == old(eagerAdds) + 1
      ensures !(sockets[d].saved != None && GetEpollEvents(sockets[d].enabled) != NOTHING) ==>
                stale == old(stale) - {d} && eagerAdds == old(eagerAdds)
    {
      epoll := epoll[sockets[d].fd := Interest(GetEpollEvents(sockets[d].enabled), key)];
      if sockets[d].saved != None && GetEpollEvents(sockets[d].enabled) != NOTHING {
        stale, eagerAdds := stale + {d}, eagerAdds + 1;
      } else {
        stale := stale - {d};
      }
    }

    method Remove(d: nat)
      requires d < |sockets|
      modifies this`dispatcherByKey, this`keyByDispatcher, this`epoll, this`stale
      ensures View() == Removed(old(View()), d)
    {
      if d !in keyByDispatcher {
        return;
      }
      var key := keyByDispatcher[d];
      keyByDispatcher := keyByDispatcher - {d};
      dispatcherByKey := dispatcherByKey - {key};
      epoll := epoll - {sockets[d].fd};
      stale := stale - {d};
    }

    method Update(d: nat)
      requires d < |sockets|
      modifies this`epoll, this`stale
      ensures View() == Updated(old(View()), d)
    {
      if d !in keyByDispatcher {
        return;
      }
      epoll := epoll[sockets[d].fd := Interest(GetEpollEvents(sockets[d].enabled), keyByDispatcher[d])];
      stale := stale - {d};
    }

    // ----- SocketDispatcher -----

    method MaybeUpdateDispatcher(d: nat, oldEvents: Events)
      requires d < |sockets|
      modifies this`epoll, this`stale
      ensures View() == if GetEpollEvents(sockets[d].enabled) != GetEpollEvents(oldEvents) && sockets[d].saved == None
                        then Updated(old(View()), d) else old(View())
    {
      if GetEpollEvents(sockets[d].enabled) != GetEpollEvents(oldEvents) && sockets[d].saved == None {
        Update(d);
      }
    }

    method SetEnabledEvents(d: nat, events: Events)
      requires d < |sockets|
      modifies this`sockets, this`epoll, this`stale
      ensures View() == WithEvents(old(View()), d, events)
    {
      var oldEvents := sockets[d].enabled;
      sockets := sockets[d := sockets[d].(enabled := events)];
      MaybeUpdateDispatcher(d, oldEvents);
    }

    method EnableEvents(d: nat, events: Events)
      requires d < |sockets|
      modifies this`sockets, this`epoll, this`stale
      ensures View() == WithEvents(old(View()), d, old(sockets[d].enabled) + events)
    {
      var oldEvents := sockets[d].enabled;
      sockets := sockets[d := sockets[d].(enabled := oldEvents + events)];
      MaybeUpdateDispatcher(d, oldEvents);
    }

    method DisableEvents(d: nat, events: Events)
      requires d < |sockets|
      modifies this`sockets, this`epoll, this`stale
      ensures View() == WithEvents(old(View()), d, old(sockets[d].enabled) - events)
    {
      var oldEvents := sockets[d].enabled;
      sockets := sockets[d := sockets[d].(enabled := oldEvents - events)];
      MaybeUpdateDispatcher(d, oldEvents);
    }

    method StartBatchedEventUpdates(d: nat)
      requires d < |sockets| && sockets[d].saved == None
      modifies this`sockets
      ensures View() == BatchStarted(old(View()), d)
    {
      sockets := sockets[d := sockets[d].(saved := Some(sockets[d].enabled))];
    }

    method FinishBatchedEventUpdates(d: nat)
      requires d < |sockets| && sockets[d].saved != None
      modifies this`sockets, this`epoll, this`stale
      ensures View() == BatchFinished(old(View()), d)
    {
      var oldEvents := sockets[d].saved.value;
      sockets := sockets[d := sockets[d].(saved := None)];
      MaybeUpdateDispatcher(d, oldEvents);
    }

    method CloseSocket(d: nat)
      requires d < |sockets|
      modifies this
      ensures View() == Closed(old(View()), d) && deliveries == old(deliveries)
    {
      var x := sockets[d];
      if x.fd == INVALID_SOCKET {
        return;
      }
      var saved := x.saved;
      if saved != None {
        saved := Some({});
      }
      sockets := sockets[d := x.(saved := saved)];
      Remove(d);
      sockets := sockets[d := x.(saved := saved, fd := INVALID_SOCKET, state := CsClosed)];
      SetEnabledEvents(d, {});
    }

    method CreateOn(d: nat, udp: bool, newFd: int) returns (ok: bool)
      requires d < |sockets|
      modifies this
      ensures View() == Created(old(View()), d, udp, newFd) && deliveries == old(deliveries)
      ensures |sockets| == old(|sockets|) && ok == (sockets[d].fd != INVALID_SOCKET)
    {
      CloseSocket(d);
      var fd := SocketCall(newFd);
      sockets := sockets[d := sockets[d].(fd := fd, udp := udp)];
      if udp {
        SetEnabledEvents(d, READ_WRITE);
      }
      if fd == INVALID_SOCKET {
        return false;
      }
      Add(d);
      return true;
    }

    /** The system call that opens a descriptor. */
    method SocketCall(choice: int) returns (fd: int)
      ensures fd == OpenDescriptor(View(), choice)
    {
      fd := if choice >= 0 && forall i :: 0 <= i < |sockets| ==> sockets[i].fd != choice then choice
          else INVALID_SOCKET;
    }

    method ConnectOn(d: nat, newFd: int, outcome: ConnectOutcome)
      requires d < |sockets|
      modifies this
      ensures View() == ConnectedTo(old(View()), d, newFd, outcome) && deliveries == old(deliveries)
    {
      if sockets[d].state != CsClosed {
        return;
      }
      if sockets[d].fd == INVALID_SOCKET {
        var ok := CreateOn(d, false, newFd);
        if !ok {
          return;
        }
      }
      var events := READ_WRITE;
      match outcome {
        case Connected =>
          sockets := sockets[d := sockets[d].(state := CsConnected)];
        case InProgress =>
          sockets := sockets[d := sockets[d].(state := CsConnecting)];
          events := events + {DeConnect};
        case Refused =>
          return;
      }
      assert sockets[d].enabled + (READ_WRITE + {DeConnect}) == sockets[d].enabled + READ_WRITE + {DeConnect};
      EnableEvents(d, events);
    }

    method AcceptOn(d: nat, newFd: int)
      requires d < |sockets|
      modifies this
      ensures View() == Accepted(old(View()), d, newFd) && deliveries == old(deliveries)
    {
      EnableEvents(d, {DeAccept});
      var fd := SocketCall(newFd);
      if fd == INVALID_SOCKET {
        return;
      }
      sockets := sockets + [Dispatcher(fd, false, CsConnected, READ_WRITE, None)];
      Add(|sockets| - 1);
    }

    method CreateSocketOn(udp: bool, newFd: int)
      modifies this
      ensures View() == SocketCreated(old(View()), udp, newFd) && deliveries == old(deliveries)
    {
      sockets := sockets + [Dispatcher(INVALID_SOCKET, false, CsClosed, {}, None)];
      var _ := CreateOn(|sockets| - 1, udp, newFd);
    }

    method Call(call: Call)
      modifies this
      ensures View() == Called(old(View()), call) && deliveries == old(deliveries)
    {
      if call.CreateSocket? {
        CreateSocketOn(call.udp, call.newFd);
        return;
      }
      var d := call.target;
      if d >= |sockets| {
        return;
      }
      match call {
        case Create(_, udp, newFd) => var _ := CreateOn(d, udp, newFd);
        case Connect(_, newFd, outcome) => ConnectOn(d, newFd, outcome);
        case Send(_, blocked) => if blocked { EnableEvents(d, {DeWrite}); }
        case Recv(_, success) => if success || sockets[d].udp { EnableEvents(d, {DeRead}); }
        case Listen(_, ok) =>
          if ok {
            sockets := sockets[d := sockets[d].(state := CsConnecting)];
            EnableEvents(d, {DeAccept});
          }
        case Accept(_, newFd) => AcceptOn(d, newFd);
        case Close(_) => CloseSocket(d);
      }
    }

    /** A signal: the application's handler makes its calls. */
    method Signal(calls: seq<Call>)
      modifies this
      ensures View() == AllCalled(old(View()), calls) && deliveries == old(deliveries)
    {
      var i := 0;
      while i < |calls|
        invariant 0 <= i <= |calls|
        invariant AllCalled(View(), calls[i..]) == AllCalled(old(View()), calls)
        invariant deliveries == old(deliveries)
      {
        assert calls[i..][0] == calls[i] && calls[i..][1..] == calls[i + 1..];
        Call(calls[i]);
        i := i + 1;
      }
    }

    method DisableAndSignal(d: nat, event: Event, ff: Events, calls: seq<Call>) returns (ghost made: seq<Signal>)
      requires d < |sockets|
      modifies this
      ensures View() == Signalled(old(View()), d, event, ff, calls) && deliveries == old(deliveries)
      ensures made == SignalOf(d, event, ff, calls)
    {
      made := [];
      if event in ff {
        if event == DeClose {
          SetEnabledEvents(d, {});
        } else {
          DisableEvents(d, {event});
        }
        made := [Emitted(d, event, calls)];
        Signal(calls);
      }
    }

    method HandleBatch(d: nat, ff: Events, h: Handlers) returns (ghost made: seq<Signal>)
      requires d < |sockets|
      modifies this
      ensures View() == BatchHandled(old(View()), d, ff, h) && deliveries == old(deliveries)
      ensures made == Signals(d, ff, h)
    {
      ghost var s := View();
      FiveSignals(s, d, ff, h);
      ghost var connect := DisableAndSignal(d, DeConnect, ff, h.onConnect);
      ghost var accept := DisableAndSignal(d, DeAccept, ff, h.onAccept);
      ghost var read := DisableAndSignal(d, DeRead, ff, h.onRead);
      ghost var write := DisableAndSignal(d, DeWrite, ff, h.onWrite);
      ghost var close := DisableAndSignal(d, DeClose, ff, h.onClose);
      made := connect + accept + read + write + close;
    }

    method OnEvent(d: nat, ff: Events, h: Handlers) returns (ghost made: seq<Signal>)
      requires Ok(View()) && Idle(View()) && d in keyByDispatcher && d < |sockets|
      modifies this
      ensures View() == EventHandled(old(View()), d, ff, h) && deliveries == old(deliveries)
      ensures made == Signals(d, ff, h)
    {
      EventKeeps(View(), d, ff, h);
      if DeConnect in ff {
        sockets := sockets[d := sockets[d].(state := CsConnected)];
      }
      if DeClose in ff {
        sockets := sockets[d := sockets[d].(state := CsClosed)];
      }
      assert View() == WithSocket(old(View()), d, old(sockets[d]).(state := StateAfter(ff, old(sockets[d].state))));
      StartBatchedEventUpdates(d);
      made := HandleBatch(d, ff, h);
      FinishBatchedEventUpdates(d);
    }

    method ProcessEvents(d: nat, g: Gathered) returns (ghost made: seq<Signal>)
      requires Ok(View()) && Idle(View()) && d in keyByDispatcher && d < |sockets|
      modifies this
      ensures View() == Processed(old(View()), d, g) && deliveries == old(deliveries)
      ensures var ff := Fired(old(sockets[d].enabled), g.readable, g.writable, g.error, g.eof);
              made == Signals(d, ff, g.handlers)
    {
      var requested := sockets[d].enabled;
      var ff: Events := {};
      if g.readable {
        if DeAccept in requested {
          ff := ff + {DeAccept};
        } else if g.error || g.eof {
          ff := ff + {DeClose};
        } else {
          ff := ff + {DeRead};
        }
      }
      if g.writable {
        if DeConnect in requested {
          if !g.error {
            ff := ff + {DeConnect};
          } else {
            ff := ff + {DeClose};
          }
        } else {
          ff := ff + {DeWrite};
        }
      }
      assert ff == Fired(requested, g.readable, g.writable, g.error, g.eof);
      made := [];
      if ff != {} {
        made := OnEvent(d, ff, g.handlers);
      }
    }

    /** The dispatcher of a live key gets its event. */
    method Deliver(g: Gathered)
      requires Ok(View()) && Idle(View()) && g.key in dispatcherByKey && dispatcherByKey[g.key] < |sockets|
      modifies this
      ensures View() == Processed(old(View()), old(dispatcherByKey[g.key]), g)
      ensures deliveries == old(deliveries) + [Delivered(old(View()), g)]
      ensures Ok(View()) && Idle(View()) && Extends(old(View()), View())
    {
      var d := dispatcherByKey[g.key];
      assert KeyOk(View(), g.key);
      ProcessedKeeps(View(), d, g);
      ghost var fd := sockets[d].fd;
      ghost var made := ProcessEvents(d, g);
      deliveries := deliveries + [Delivery(g.key, d, fd, made)];
    }

    /** One round of the event loop. */
    method WaitEpoll(round: seq<Ready>)
      requires Ok(View()) && Idle(View())
      modifies this
      ensures View() == Dispatched(old(View()), Gather(old(epoll), round))
      ensures deliveries == old(deliveries) + Deliveries(old(View()), Gather(old(epoll), round))
      ensures Ok(View()) && Idle(View()) && Extends(old(View()), View())
      ensures forall i :: old(|deliveries|) <= i < |deliveries| ==> AsBefore(deliveries[i], old(View()))
    {
      ghost var s := View();
      var events := Gather(epoll, round);
      WatchedAreRegistered(s);
      DeliveredAsGathered(s, s, events);
      for i := 0 to |events|
        invariant Ok(View()) && Idle(View())
        invariant Dispatched(View(), events[i..]) == Dispatched(s, events)
        invariant deliveries + Deliveries(View(), events[i..]) == old(deliveries) + Deliveries(s, events)
      {
        var key := events[i].key;
        assert events[i..][0] == events[i] && events[i..][1..] == events[i + 1..];
        if key !in dispatcherByKey {
          continue;
        }
        assert KeyOk(View(), key);
        Deliver(events[i]);
      }
    }

    /** One round of the fallback loop. It asks each dispatcher for its descriptor only after
        handlers have run, yet acts as if all descriptors had been read before. */
    method WaitSelect(keys: seq<nat>, ready: map<int, Ready>)
      requires Ok(View()) && Idle(View())
      requires forall i :: 0 <= i < |keys| ==> keys[i] in dispatcherByKey
      requires forall i, j :: 0 <= i < j < |keys| ==> keys[i] != keys[j]
      modifies this
      ensures Ok(View()) && Idle(View()) && Extends(old(View()), View())
      ensures View() == Dispatched(old(View()), SelectGather(old(View()), keys, ready))
      ensures deliveries == old(deliveries) + Deliveries(old(View()), SelectGather(old(View()), keys, ready))
      ensures forall i :: old(|deliveries|) <= i < |deliveries| ==> AsBefore(deliveries[i], old(View()))
    {
      ghost var s := View();
      ghost var events := SelectGather(s, keys, ready);
      DeliveredAsGathered(s, s, events);
      var watched := FillSets(keys, ready);
      var pending := ready;
      for i := 0 to |keys|
        invariant Ok(View()) && Idle(View()) && Extends(s, View())
        invariant Dispatched(View(), SelectGather(s, keys[i..], ready)) == Dispatched(s, events)
        invariant deliveries + Deliveries(View(), SelectGather(s, keys[i..], ready))
               == old(deliveries) + Deliveries(s, events)
        invariant forall j :: i <= j < |keys| ==> Awaited(s, keys[j], watched, pending, ready)
      {
        assert keys[i..][0] == keys[i] && keys[i..][1..] == keys[i + 1..];
        var left := HandleSelected(keys[i], watched, pending, s, ready, SelectGather(s, keys[i + 1..], ready));
        StillAwaited(s, keys, i, watched, pending, left, ready);
        pending := left;
      }
    }

    /** The first loop: each descriptor joins the sets for the events enabled now. */
    method FillSets(keys: seq<nat>, ready: map<int, Ready>) returns (watched: map<int, EpollMask>)
      requires Ok(View())
      requires forall i :: 0 <= i < |keys| ==> keys[i] in dispatcherByKey
      ensures forall i :: 0 <= i < |keys| ==> Awaited(View(), keys[i], watched, ready, ready)
    {
      watched := map fd | fd in ready :: NOTHING;
      for i := 0 to |keys|
        invariant watched.Keys == ready.Keys
        invariant forall j :: 0 <= j < i ==> Awaited(View(), keys[j], watched, ready, ready)
      {
        assert KeyOk(View(), keys[i]);
        var x := sockets[dispatcherByKey[keys[i]]];
        if x.fd in ready {
          watched := watched[x.fd := GetEpollEvents(x.enabled)];
        }
        forall j | 0 <= j < i ensures Awaited(View(), keys[j], watched, ready, ready) { assert KeyOk(View(), keys[j]); }
      }
    }

    /** One dispatcher's turn in the second loop; its descriptor leaves the sets. */
    method HandleSelected(key: nat, watched: map<int, EpollMask>, pending: map<int, Ready>,
                          ghost s: State, ghost ready: map<int, Ready>, ghost rest: seq<Gathered>)
      returns (left: map<int, Ready>)
      requires Ok(s) && Ok(View()) && Idle(View()) && Extends(s, View()) && key in s.byKey
      requires Awaited(s, key, watched, pending, ready)
      modifies this
      ensures Ok(View()) && Idle(View()) && Extends(s, View())
      ensures Dispatched(View(), rest) == Dispatched(old(View()), SelectOne(s, key, ready) + rest)
      ensures deliveries + Deliveries(View(), rest)
           == old(deliveries) + Deliveries(old(View()), SelectOne(s, key, ready) + rest)
      ensures left == pending || left == pending - {s.sockets[s.byKey[key]].fd}
    {
      left := pending;
      assert KeyOk(s, key);
      ghost var events := SelectOne(s, key, ready) + rest;
      if events != rest { assert events[1..] == rest; } else { assert SelectOne(s, key, ready) == []; }
      if key !in dispatcherByKey {
        return;
      }
      assert KeyOk(View(), key);
      var d := dispatcherByKey[key];
      var fd := sockets[d].fd;
      if fd in pending {
        left := pending - {fd};
        var g := Selected(key, pending[fd], watched[fd]);
        assert SelectOne(s, key, ready) == [g];
        Deliver(g);
      }
    }
  }

  /** The descriptor sets still hold what a registered dispatcher wanted, and its readiness. */
  ghost predicate Awaited(s: State, key: nat, watched: map<int, EpollMask>, pending: map<int, Ready>,
      ready: map<int, Ready>) {
    && key in s.byKey && s.byKey[key] < |s.sockets|
    && var x := s.sockets[s.byKey[key]];
       && (x.fd in pending <==> x.fd in ready)
       && (x.fd in ready ==>
             x.fd in watched && watched[x.fd] == GetEpollEvents(x.enabled) && pending[x.fd] == ready[x.fd])
  }

  lemma StillAwaited(s: State, keys: seq<nat>, i: nat, watched: map<int, EpollMask>,
                     pending: map<int, Ready>, left: map<int, Ready>, ready: map<int, Ready>)
    requires Ok(s) && i < |keys| && forall j :: i <= j < |keys| ==> Awaited(s, keys[j], watched, pending, ready)
    requires forall j, k :: 0 <= j < k < |keys| ==> keys[j] != keys[k]
    requires keys[i] in s.byKey && s.byKey[keys[i]] < |s.sockets|
    requires left == pending || left == pending - {s.sockets[s.byKey[keys[i]]].fd}
    ensures forall j :: i < j < |keys| ==> Awaited(s, keys[j], watched, left, ready)
  {
    forall j | i < j < |keys| ensures Awaited(s, keys[j], watched, left, ready) {
      assert Awaited(s, keys[j], watched, pending, ready) && Awaited(s, keys[i], watched, pending, ready);
      DifferentDescriptors(s, keys[i], keys[j]);
    }
  }

  lemma DifferentDescriptors(s: State, j: nat, k: nat)
    requires Ok(s) && j in s.byKey && k in s.byKey && j != k
    ensures s.byKey[j] < |s.sockets| && s.byKey[k] < |s.sockets|
    ensures s.sockets[s.byKey[j]].fd != s.sockets[s.byKey[k]].fd
  {
    assert KeyOk(s, j) && KeyOk(s, k);
  }

  /** The delivery is to the dispatcher its key had in the state, on the descriptor it had there. */
  ghost predicate AsBefore(x: Delivery, s: State) {
    && x.key in s.byKey && s.byKey[x.key] == x.dispatcher
    && x.dispatcher < |s.sockets| && s.sockets[x.dispatcher].fd == x.fd
  }
}
