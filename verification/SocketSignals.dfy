/** What the application hears: which signals a round makes, in terms of what each socket waits for. */
module SocketSignals {
  import opened SocketServer
  import opened SocketRuns
  import opened Wrappers

  // ----- From a ready descriptor to an event -----

  ghost predicate IsRegistered(s: State, fd: int) {
    exists d :: d in s.byDispatcher && d < |s.sockets| && s.sockets[d].fd == fd
  }

  /** The entries of a round that are for descriptors of registered sockets. */
  ghost function Registered(s: State, round: seq<Ready>): seq<Ready> {
    if round == [] then []
    else (if IsRegistered(s, round[0].fd) then [round[0]] else []) + Registered(s, round[1..])
  }

  /** An event tells what the entry says, cut down to what the socket waits for. */
  ghost predicate Reports(s: State, g: Gathered, r: Ready) {
    && g.key in s.byKey && s.byKey[g.key] < |s.sockets|
    && var x := s.sockets[s.byKey[g.key]];
       && x.fd == r.fd
       && (g.readable <==> r.pollIn && (DeRead in x.enabled || DeAccept in x.enabled))
       && (g.writable <==> r.pollOut && (DeWrite in x.enabled || DeConnect in x.enabled))
       && g.error == r.error && g.eof == r.eof && g.handlers == r.handlers
  }

  /** Between events, with no eager addition so far. */
  ghost predicate Calm(s: State) {
    Ok(s) && Idle(s) && s.eagerAdds == 0
  }

  lemma RunIsCalm(actions: seq<Action>)
    requires RunAbides(NotEager, INITIAL, actions)
    ensures Calm(Ran(INITIAL, actions))
  {
    RanKeeps(INITIAL, actions);
    RunCount(INITIAL, actions);
  }

  lemma WatchedIffRegistered(s: State, fd: int)
    requires Ok(s)
    ensures fd in s.epoll <==> IsRegistered(s, fd)
  {
    if fd in s.epoll {
      assert WatchOk(s, fd) && KeyOk(s, s.epoll[fd].key);
    }
    forall d | d in s.byDispatcher && d < |s.sockets| && s.sockets[d].fd == fd ensures fd in s.epoll {
      KernelFollows(s, d);
    }
  }

  lemma WatchedForWanted(s: State, fd: int)
    requires Calm(s) && fd in s.epoll
    ensures var k := s.epoll[fd].key;
            && k in s.byKey && s.byKey[k] < |s.sockets| && s.sockets[s.byKey[k]].fd == fd
            && var e, mask := s.sockets[s.byKey[k]].enabled, s.epoll[fd].mask;
               && (mask.pollIn <==> DeRead in e || DeAccept in e)
               && (mask.pollOut <==> DeWrite in e || DeConnect in e)
  {
    assert WatchOk(s, fd) && KeyOk(s, s.epoll[fd].key);
    KernelFollows(s, s.byKey[s.epoll[fd].key]);
  }

  lemma {:induction false} GatherReports(s: State, round: seq<Ready>)
    requires Calm(s)
    ensures AllReport(s, Gather(s.epoll, round), Registered(s, round))
  {
    if round != [] {
      GatherReports(s, round[1..]);
      FirstReport(s, round, Gather(s.epoll, round[1..]), Registered(s, round[1..]));
    }
  }

  ghost predicate AllReport(s: State, events: seq<Gathered>, entries: seq<Ready>) {
    |events| == |entries| && forall i :: 0 <= i < |events| ==> Reports(s, events[i], entries[i])
  }

  lemma {:induction false} FirstReport(s: State, round: seq<Ready>, events: seq<Gathered>, entries: seq<Ready>)
    requires Calm(s) && round != [] && AllReport(s, events, entries)
    requires events == Gather(s.epoll, round[1..]) && entries == Registered(s, round[1..])
    ensures AllReport(s, Gather(s.epoll, round), Registered(s, round))
  {
    var r := round[0];
    WatchedIffRegistered(s, r.fd);
    if r.fd in s.epoll {
      var g := EventFor(s, r);
      assert Gather(s.epoll, round) == [g] + events && Registered(s, round) == [r] + entries;
    } else {
      assert Gather(s.epoll, round) == events && Registered(s, round) == [] + entries;
    }
  }

  lemma EventFor(s: State, r: Ready) returns (g: Gathered)
    requires Calm(s) && r.fd in s.epoll
    ensures var i := s.epoll[r.fd];
            g == Gathered(i.key, r.pollIn && i.mask.pollIn, r.pollOut && i.mask.pollOut, r.error, r.eof, r.handlers)
    ensures Reports(s, g, r)
  {
    var i := s.epoll[r.fd];
    g := Gathered(i.key, r.pollIn && i.mask.pollIn, r.pollOut && i.mask.pollOut, r.error, r.eof, r.handlers);
    WatchedForWanted(s, r.fd);
  }

  /** Over every run without eager calls, a round's events are, in order, those of its entries for registered
      sockets; and an event is readable exactly if the descriptor is ready for input and the socket waits to read
      or accept, writable exactly if it is ready for output and the socket waits to write or connect. */
  lemma EventsAreWanted(actions: seq<Action>, round: seq<Ready>)
    requires RunAbides(NotEager, INITIAL, actions)
    ensures var s := Ran(INITIAL, actions);
            var events, entries := Gather(s.epoll, round), Registered(s, round);
            |events| == |entries| && forall i :: 0 <= i < |events| ==> Reports(s, events[i], entries[i])
  {
    RunIsCalm(actions);
    GatherReports(Ran(INITIAL, actions), round);
  }

  /** The keys whose descriptors select has an answer for. */
  function Answered(s: State, keys: seq<nat>, ready: map<int, Ready>): seq<nat>
    requires forall k :: k in keys ==> k in s.byKey && s.byKey[k] < |s.sockets|
  {
    if keys == [] then []
    else (if s.sockets[s.byKey[keys[0]]].fd in ready then [keys[0]] else []) + Answered(s, keys[1..], ready)
  }

  ghost predicate ReportsKey(s: State, g: Gathered, key: nat, ready: map<int, Ready>)
    requires key in s.byKey && s.byKey[key] < |s.sockets|
  {
    var fd := s.sockets[s.byKey[key]].fd;
    g.key == key && fd in ready && ready[fd].fd == fd && Reports(s, g, ready[fd])
  }

  /** The fallback loop hears the same, whether or not the kernel's interest list lags. */
  lemma {:induction false} SelectReports(s: State, keys: seq<nat>, ready: map<int, Ready>)
    requires forall k :: k in keys ==> k in s.byKey && s.byKey[k] < |s.sockets|
    requires forall fd :: fd in ready ==> ready[fd].fd == fd
    ensures |SelectGather(s, keys, ready)| == |Answered(s, keys, ready)|
    ensures forall i :: 0 <= i < |SelectGather(s, keys, ready)| ==>
              && Answered(s, keys, ready)[i] in s.byKey && s.byKey[Answered(s, keys, ready)[i]] < |s.sockets|
              && ReportsKey(s, SelectGather(s, keys, ready)[i], Answered(s, keys, ready)[i], ready)
  {
    if keys != [] {
      assert keys[0] in keys;
      SelectReports(s, keys[1..], ready);
    }
  }

  // ----- From an event to the signals -----

  /** What a socket with the events e enabled tells the application of a descriptor on which it hears input or
      output: a finished connection, a waiting peer, data, room to write, or the end. */
  function Told(d: nat, e: Events, input: bool, output: bool, r: Ready): seq<Signal> {
    (if output && DeConnect in e && !r.error then [Emitted(d, DeConnect, r.handlers.onConnect)] else [])
    + (if input && DeAccept in e then [Emitted(d, DeAccept, r.handlers.onAccept)] else [])
    + (if input && DeAccept !in e && !r.error && !r.eof then [Emitted(d, DeRead, r.handlers.onRead)] else [])
    + (if output && DeConnect !in e then [Emitted(d, DeWrite, r.handlers.onWrite)] else [])
    + (if (input && DeAccept !in e && (r.error || r.eof)) || (output && DeConnect in e && r.error)
       then [Emitted(d, DeClose, r.handlers.onClose)] else [])
  }

  lemma SignalsAreTold(d: nat, e: Events, g: Gathered, r: Ready)
    requires g.error == r.error && g.eof == r.eof && g.handlers == r.handlers
    ensures Signals(d, Fired(e, g.readable, g.writable, g.error, g.eof), g.handlers)
         == Told(d, e, g.readable, g.writable, r)
  {
    var ff := Fired(e, g.readable, g.writable, g.error, g.eof);
    assert DeConnect in ff <==> g.writable && DeConnect in e && !r.error;
    assert DeAccept in ff <==> g.readable && DeAccept in e;
    assert DeRead in ff <==> g.readable && DeAccept !in e && !r.error && !r.eof;
    assert DeWrite in ff <==> g.writable && DeConnect !in e;
    assert DeClose in ff <==> (g.readable && DeAccept !in e && (r.error || r.eof))
                              || (g.writable && DeConnect in e && r.error);
  }

  function Turn(s: State, g: Gathered): seq<Delivery> {
    if g.key in s.byKey && s.byKey[g.key] < |s.sockets| then [Delivered(s, g)] else []
  }

  lemma {:induction false} LastDelivery(s: State, before: seq<Gathered>, g: Gathered)
    ensures Deliveries(s, before + [g]) == Deliveries(s, before) + Turn(Dispatched(s, before), g)
    decreases |before|
  {
    if before == [] {
      assert before + [g] == [g] && [g][1..] == [];
    } else {
      assert (before + [g])[1..] == before[1..] + [g];
      var key := before[0].key;
      if key in s.byKey && s.byKey[key] < |s.sockets| {
        LastDelivery(Processed(s, s.byKey[key], before[0]), before[1..], g);
      } else {
        LastDelivery(s, before[1..], g);
      }
    }
  }

  lemma SameSocket(s0: State, s: State, key: nat)
    requires Ok(s0) && Ok(s) && Extends(s0, s) && key in s0.byKey && key in s.byKey
    ensures s.byKey[key] == s0.byKey[key] && s.byKey[key] < |s.sockets| && s.byKey[key] < |s0.sockets|
    ensures s.sockets[s.byKey[key]].fd == s0.sockets[s.byKey[key]].fd
  {
    assert KeyOk(s0, key) && KeyOk(s, key);
  }

  /** The signals that the k-th entry for a registered socket makes, in every round of every run without eager
      calls: what the socket waited for when the round began decides what is heard, what it waits for when its turn
      comes decides what is told. If an earlier handler has closed it, nothing is. */
  lemma {:induction false} RoundTells(actions: seq<Action>, round: seq<Ready>, k: nat)
    requires RunAbides(NotEager, INITIAL, actions) && k < |Registered(Ran(INITIAL, actions), round)|
    ensures var s0 := Ran(INITIAL, actions);
            var events, r := Gather(s0.epoll, round), Registered(s0, round)[k];
            && |events| == |Registered(s0, round)|
            && var s, key := Dispatched(s0, events[..k]), events[k].key;
               && key in s0.byKey && s0.byKey[key] < |s0.sockets| && s0.sockets[s0.byKey[key]].fd == r.fd
               && var d := s0.byKey[key];
                  var e := s0.sockets[d].enabled;
                  var input := r.pollIn && (DeRead in e || DeAccept in e);
                  var output := r.pollOut && (DeWrite in e || DeConnect in e);
                  && (key in s.byKey ==> s.byKey[key] == d < |s.sockets|)
                  && Deliveries(s0, events[..k + 1])
                     == Deliveries(s0, events[..k])
                        + if key !in s.byKey then []
                          else [Delivery(key, d, r.fd, Told(d, s.sockets[d].enabled, input, output, r))]
  {
    var s0 := Ran(INITIAL, actions);
    RunIsCalm(actions);
    GatherReports(s0, round);
    EventTells(s0, Gather(s0.epoll, round), Registered(s0, round)[k], k);
  }

  lemma {:induction false} EventTells(s0: State, events: seq<Gathered>, r: Ready, k: nat)
    requires Ok(s0) && Idle(s0) && k < |events| && Reports(s0, events[k], r)
    requires forall i :: 0 <= i < |events| ==> events[i].key in s0.byKey
    ensures var s, key := Dispatched(s0, events[..k]), events[k].key;
            && (key in s.byKey ==> s.byKey[key] == s0.byKey[key] < |s.sockets|)
            && Deliveries(s0, events[..k + 1])
               == Deliveries(s0, events[..k]) + if key in s.byKey then [HeardBy(s0, s, key, r)] else []
  {
    var s, key := Dispatched(s0, events[..k]), events[k].key;
    DeliveredAsGathered(s0, s0, events[..k]);
    LastDelivery(s0, events[..k], events[k]);
    assert events[..k + 1] == events[..k] + [events[k]];
    if key in s.byKey {
      SameSocket(s0, s, key);
      SignalsAreTold(s.byKey[key], s.sockets[s.byKey[key]].enabled, events[k], r);
    }
  }

  /** The same for the k-th answered key of a round of the fallback loop, in any state between events. */
  lemma SelectTells(s0: State, keys: seq<nat>, ready: map<int, Ready>, k: nat)
    requires Ok(s0) && Idle(s0) && forall fd :: fd in ready ==> ready[fd].fd == fd
    requires forall k :: k in keys ==> k in s0.byKey && s0.byKey[k] < |s0.sockets|
    requires k < |Answered(s0, keys, ready)|
    ensures var events, key := SelectGather(s0, keys, ready), Answered(s0, keys, ready)[k];
            && |events| == |Answered(s0, keys, ready)|
            && var s := Dispatched(s0, events[..k]);
               && key in s0.byKey && s0.byKey[key] < |s0.sockets| && s0.sockets[s0.byKey[key]].fd in ready
               && var d := s0.byKey[key];
                  var e, r := s0.sockets[d].enabled, ready[s0.sockets[d].fd];
                  var input := r.pollIn && (DeRead in e || DeAccept in e);
                  var output := r.pollOut && (DeWrite in e || DeConnect in e);
                  && (key in s.byKey ==> s.byKey[key] == d < |s.sockets|)
                  && Deliveries(s0, events[..k + 1])
                     == Deliveries(s0, events[..k])
                        + if key !in s.byKey then []
                          else [Delivery(key, d, r.fd, Told(d, s.sockets[d].enabled, input, output, r))]
  {
    SelectReports(s0, keys, ready);
    var key := Answered(s0, keys, ready)[k];
    EventTells(s0, SelectGather(s0, keys, ready), ready[s0.sockets[s0.byKey[key]].fd], k);
  }

  /** Heard with the events enabled in s0, told with those enabled in s. */
  function HeardBy(s0: State, s: State, key: nat, r: Ready): Delivery
    requires key in s0.byKey && s0.byKey[key] < |s0.sockets| && s0.byKey[key] < |s.sockets|
  {
    var d := s0.byKey[key];
    var e := s0.sockets[d].enabled;
    var input, output := r.pollIn && (DeRead in e || DeAccept in e), r.pollOut && (DeWrite in e || DeConnect in e);
    Delivery(key, d, r.fd, Told(d, s.sockets[d].enabled, input, output, r))
  }

  /** A registered socket whose descriptor alone is ready. */
  lemma {:induction false} SocketTold(s: State, d: nat, r: Ready)
    requires Calm(s) && d in s.byDispatcher && d < |s.sockets| && r.fd == s.sockets[d].fd
    ensures var e, h := s.sockets[d].enabled, r.handlers;
            Deliveries(s, Gather(s.epoll, [r])) == [Delivery(s.byDispatcher[d], d, r.fd,
                (if r.pollOut && DeConnect in e && !r.error then [Emitted(d, DeConnect, h.onConnect)] else [])
                + (if r.pollIn && DeAccept in e then [Emitted(d, DeAccept, h.onAccept)] else [])
                + (if r.pollIn && DeRead in e && DeAccept !in e && !r.error && !r.eof
                   then [Emitted(d, DeRead, h.onRead)] else [])
                + (if r.pollOut && DeWrite in e && DeConnect !in e then [Emitted(d, DeWrite, h.onWrite)] else [])
                + (if (r.pollIn && DeRead in e && DeAccept !in e && (r.error || r.eof))
                      || (r.pollOut && DeConnect in e && r.error)
                   then [Emitted(d, DeClose, h.onClose)] else []))]
  {
    var g := GatheredOne(s, d, r);
    assert [g][1..] == [];
    SignalsAreTold(d, s.sockets[d].enabled, g, r);
    assert Delivered(s, g).signals == Told(d, s.sockets[d].enabled, g.readable, g.writable, r);
  }

  lemma SameKey(s: State, d: nat, key: nat)
    requires Ok(s) && d in s.byDispatcher && d < |s.sockets| && key in s.byKey && s.byKey[key] < |s.sockets|
    requires s.sockets[s.byKey[key]].fd == s.sockets[d].fd
    ensures key == s.byDispatcher[d] && s.byKey[key] == d
  {
    assert KeyOk(s, key) && DispatcherOk(s, d) && KeyOk(s, s.byDispatcher[d]);
  }

  // ----- From a call to the signal it asks for -----

  /** The signals of a round in which one descriptor alone is ready. */
  function Hears(s: State, r: Ready): seq<Signal> {
    var made := Deliveries(s, Gather(s.epoll, [r]));
    if |made| == 1 then made[0].signals else []
  }

  /** Socket d is registered with descriptor fd and waits for the events e. */
  ghost predicate Waits(s: State, d: nat, fd: int, e: Events) {
    d in s.byDispatcher && d < |s.sockets| && s.sockets[d].fd == fd && s.sockets[d].enabled == e
  }

  lemma OutsideCall(s: State, call: Call)
    requires Calm(s)
    ensures Calm(Called(s, call))
  {
    CalledKeeps(s, call);
  }

  lemma WithEventsWaits(s: State, d: nat, fd: int, e: Events, events: Events)
    requires Waits(s, d, fd, e)
    ensures Waits(WithEvents(s, d, events), d, fd, events)
  {
  }

  /** After Listen, a waiting peer runs the accept handler. */
  lemma ListenThenAccept(s: State, d: nat, r: Ready)
    requires Calm(s) && d in s.byDispatcher && d < |s.sockets| && r.fd == s.sockets[d].fd && r.pollIn
    ensures Emitted(d, DeAccept, r.handlers.onAccept) in Hears(Called(s, Listen(d, true)), r)
  {
    var t := Called(s, Listen(d, true));
    OutsideCall(s, Listen(d, true));
    WithEventsWaits(WithSocket(s, d, s.sockets[d].(state := CsConnecting)), d, r.fd, s.sockets[d].enabled,
        s.sockets[d].enabled + {DeAccept});
    SocketTold(t, d, r);
  }

  /** After Recv, new data runs the read handler. */
  lemma RecvThenRead(s: State, d: nat, r: Ready)
    requires Calm(s) && d in s.byDispatcher && d < |s.sockets| && r.fd == s.sockets[d].fd
    requires DeAccept !in s.sockets[d].enabled && r.pollIn && !r.error && !r.eof
    ensures Emitted(d, DeRead, r.handlers.onRead) in Hears(Called(s, Recv(d, true)), r)
  {
    var t := Called(s, Recv(d, true));
    OutsideCall(s, Recv(d, true));
    WithEventsWaits(s, d, r.fd, s.sockets[d].enabled, s.sockets[d].enabled + {DeRead});
    SocketTold(t, d, r);
  }

  /** After a blocked Send, new room runs the write handler. */
  lemma SendThenWrite(s: State, d: nat, r: Ready)
    requires Calm(s) && d in s.byDispatcher && d < |s.sockets| && r.fd == s.sockets[d].fd
    requires DeConnect !in s.sockets[d].enabled && r.pollOut
    ensures Emitted(d, DeWrite, r.handlers.onWrite) in Hears(Called(s, Send(d, true)), r)
  {
    var t := Called(s, Send(d, true));
    OutsideCall(s, Send(d, true));
    WithEventsWaits(s, d, r.fd, s.sockets[d].enabled, s.sockets[d].enabled + {DeWrite});
    SocketTold(t, d, r);
  }

  /** After a Connect in progress, a descriptor ready for output runs the connect handler, or the close handler
      if there is an error. */
  lemma ConnectThenTold(s: State, d: nat, newFd: int, r: Ready)
    requires Calm(s) && d in s.byDispatcher && d < |s.sockets| && r.fd == s.sockets[d].fd
    requires s.sockets[d].state == CsClosed && r.pollOut
    ensures var told := Hears(Called(s, Connect(d, newFd, InProgress)), r);
            if r.error then Emitted(d, DeClose, r.handlers.onClose) in told
            else Emitted(d, DeConnect, r.handlers.onConnect) in told
  {
    var t := Called(s, Connect(d, newFd, InProgress));
    OutsideCall(s, Connect(d, newFd, InProgress));
    Started(s, d, newFd);
    SocketTold(t, d, r);
  }

  /** A Connect that succeeds at once lets the socket read and write; one that is refused changes nothing. */
  lemma ConnectedThenTold(s: State, d: nat, newFd: int, r: Ready)
    requires Calm(s) && d in s.byDispatcher && d < |s.sockets| && r.fd == s.sockets[d].fd
    requires s.sockets[d].state == CsClosed && s.sockets[d].enabled !! {DeAccept, DeConnect}
    ensures var told := Hears(Called(s, Connect(d, newFd, Connected)), r);
            && (r.pollIn && !r.error && !r.eof ==> Emitted(d, DeRead, r.handlers.onRead) in told)
            && (r.pollIn && (r.error || r.eof) ==> Emitted(d, DeClose, r.handlers.onClose) in told)
            && (r.pollOut ==> Emitted(d, DeWrite, r.handlers.onWrite) in told)
    ensures Called(s, Connect(d, newFd, Refused)) == s
  {
    var t := Called(s, Connect(d, newFd, Connected));
    OutsideCall(s, Connect(d, newFd, Connected));
    RegisteredIsOpen(s, d);
    WithEventsWaits(WithSocket(s, d, s.sockets[d].(state := CsConnected)), d, r.fd, s.sockets[d].enabled,
        s.sockets[d].enabled + READ_WRITE);
    SocketTold(t, d, r);
  }

  lemma AddedWaits(s: State, d: nat)
    requires d < |s.sockets| && d !in s.byDispatcher
    ensures Waits(Added(s, d), d, s.sockets[d].fd, s.sockets[d].enabled)
  {
  }

  /** An accepted connection reads and writes at once. */
  lemma AcceptThenTold(s: State, d: nat, r: Ready)
    requires Calm(s) && d < |s.sockets| && r.fd >= 0 && forall i :: 0 <= i < |s.sockets| ==> s.sockets[i].fd != r.fd
    ensures var told, n := Hears(Called(s, Accept(d, r.fd)), r), |s.sockets|;
            && (r.pollIn && !r.error && !r.eof ==> Emitted(n, DeRead, r.handlers.onRead) in told)
            && (r.pollIn && (r.error || r.eof) ==> Emitted(n, DeClose, r.handlers.onClose) in told)
            && (r.pollOut ==> Emitted(n, DeWrite, r.handlers.onWrite) in told)
  {
    var n, t := |s.sockets|, Called(s, Accept(d, r.fd));
    OutsideCall(s, Accept(d, r.fd));
    AcceptedWaits(s, d, r.fd);
    SocketTold(t, n, r);
  }

  lemma AcceptedWaits(s: State, d: nat, fd: int)
    requires Ok(s) && d < |s.sockets| && fd >= 0 && forall i :: 0 <= i < |s.sockets| ==> s.sockets[i].fd != fd
    ensures Waits(Called(s, Accept(d, fd)), |s.sockets|, fd, {DeRead, DeWrite})
  {
    var q := WithEvents(s, d, s.sockets[d].enabled + {DeAccept});
    WithEventsKeeps(s, d, s.sockets[d].enabled + {DeAccept});
    assert OpenDescriptor(q, fd) == fd;
    var x := Dispatcher(fd, false, CsConnected, READ_WRITE, None);
    NewSocketKeeps(q, x);
    AddedWaits(q.(sockets := q.sockets + [x]), |s.sockets|);
  }

  /** A new datagram socket reads and writes at once; a new stream socket is told nothing. */
  lemma CreateThenTold(s: State, udp: bool, r: Ready)
    requires Calm(s) && r.fd >= 0 && forall i :: 0 <= i < |s.sockets| ==> s.sockets[i].fd != r.fd
    ensures var told, n := Hears(Called(s, CreateSocket(udp, r.fd)), r), |s.sockets|;
            && (udp && r.pollIn && !r.error && !r.eof ==> Emitted(n, DeRead, r.handlers.onRead) in told)
            && (udp && r.pollOut ==> Emitted(n, DeWrite, r.handlers.onWrite) in told)
            && (!udp ==> told == [])
  {
    var n, t := |s.sockets|, Called(s, CreateSocket(udp, r.fd));
    OutsideCall(s, CreateSocket(udp, r.fd));
    CreatedWaits(s, udp, r.fd);
    SocketTold(t, n, r);
  }

  lemma CreatedWaits(s: State, udp: bool, fd: int)
    requires Ok(s) && fd >= 0 && forall i :: 0 <= i < |s.sockets| ==> s.sockets[i].fd != fd
    ensures Waits(Called(s, CreateSocket(udp, fd)), |s.sockets|, fd, if udp then {DeRead, DeWrite} else {})
  {
    var x := Dispatcher(INVALID_SOCKET, false, CsClosed, {}, None);
    var q, n := s.(sockets := s.sockets + [x]), |s.sockets|;
    NewSocketKeeps(s, x);
    assert Closed(q, n) == q;
    assert OpenDescriptor(q, fd) == fd;
    OpenedKeeps(q, n, udp, fd);
    AddedWaits(Opened(q, n, udp, fd), n);
  }

  /** A closed socket is told nothing more of its old descriptor. */
  lemma CloseThenNothing(s: State, d: nat, r: Ready)
    requires Calm(s) && d in s.byDispatcher && d < |s.sockets| && r.fd == s.sockets[d].fd
    ensures Hears(Called(s, Close(d)), r) == []
  {
    var t := Called(s, Close(d));
    OutsideCall(s, Close(d));
    RegisteredIsOpen(s, d);
    ClosedKeeps(s, d);
    ClosedIs(s, d);
    forall e | e in t.byDispatcher && e < |t.sockets| ensures t.sockets[e].fd != r.fd {
      if t.sockets[e].fd == r.fd {
        assert DispatcherOk(s, e) && DispatcherOk(s, d);
        SameKey(s, d, s.byDispatcher[e]);
      }
    }
    WatchedIffRegistered(t, r.fd);
    assert Gather(t.epoll, [r]) == [];
  }

  // ----- Until it is asked for again -----

  const SILENT := Handlers([], [], [], [], [])

  /** Nothing but the enabled events of d and the kernel's view of them changes. */
  ghost predicate SameButEvents(s: State, t: State, d: nat) {
    && d < |s.sockets| == |t.sockets| && t.sockets[d].fd == s.sockets[d].fd && t.sockets[d].state == s.sockets[d].state
    && t.byDispatcher == s.byDispatcher && t.eagerAdds == s.eagerAdds
  }

  lemma SignalledAlone(s: State, d: nat, event: Event, ff: Events)
    requires d < |s.sockets|
    ensures var e, t := s.sockets[d].enabled, Signalled(s, d, event, ff, []);
            && SameButEvents(s, t, d)
            && t.sockets[d].enabled == if event !in ff then e else if event == DeClose then {} else e - {event}
  {
  }

  /** A close event closes, else a connect event connects. */
  function WithState(s: State, d: nat, ff: Events): State
    requires d < |s.sockets|
  {
    if DeClose in ff then WithSocket(s, d, s.sockets[d].(state := CsClosed))
    else if DeConnect in ff then WithSocket(s, d, s.sockets[d].(state := CsConnected))
    else s
  }

  lemma EdgesAlone(s: State, d: nat, ff: Events)
    requires d < |s.sockets|
    ensures SameButEvents(WithState(s, d, ff), BatchBegun(s, d, ff), d) && SameButEvents(s, BatchFinished(s, d), d)
    ensures BatchBegun(s, d, ff).sockets[d].enabled == s.sockets[d].enabled == BatchFinished(s, d).sockets[d].enabled
  {
  }

  /** Handlers that make no call: each event told is waited for no longer, and after a close none is. */
  lemma ToldOnce(s: State, d: nat, ff: Events)
    requires d < |s.sockets|
    ensures var t, e := EventHandled(s, d, ff, SILENT), s.sockets[d].enabled;
            SameButEvents(WithState(s, d, ff), t, d) && t.sockets[d].enabled == if DeClose in ff then {} else e - ff
  {
    var s0, e := BatchBegun(s, d, ff), s.sockets[d].enabled;
    EdgesAlone(s, d, ff);
    FiveAlone(s0, d, ff);
    EdgesAlone(BatchHandled(s0, d, ff, SILENT), d, ff);
  }

  lemma FiveAlone(s0: State, d: nat, ff: Events)
    requires d < |s0.sockets|
    ensures var t, e := BatchHandled(s0, d, ff, SILENT), s0.sockets[d].enabled;
            SameButEvents(s0, t, d) && t.sockets[d].enabled == if DeClose in ff then {} else e - ff
  {
    FiveSignals(s0, d, ff, SILENT);
    SignalledAlone(s0, d, DeConnect, ff);
    var s1 := Signalled(s0, d, DeConnect, ff, []);
    SignalledAlone(s1, d, DeAccept, ff);
    var s2 := Signalled(s1, d, DeAccept, ff, []);
    SignalledAlone(s2, d, DeRead, ff);
    var s3 := Signalled(s2, d, DeRead, ff, []);
    SignalledAlone(s3, d, DeWrite, ff);
    var s4 := Signalled(s3, d, DeWrite, ff, []);
    SignalledAlone(s4, d, DeClose, ff);
    if DeClose !in ff { FourTaken(s0.sockets[d].enabled, ff, s4.sockets[d].enabled); }
  }

  lemma FourTaken(e: Events, ff: Events, rest: Events)
    requires DeClose !in ff
    requires forall x :: x in rest <==> x in e && (x in ff ==> x !in {DeConnect, DeAccept, DeRead, DeWrite})
    ensures rest == e - ff
  {
    forall x: Event ensures x in rest <==> x in e - ff {
      match x
      case DeRead => case DeWrite => case DeConnect => case DeClose => case DeAccept =>
    }
  }

  /** A socket that waits to read and write, and whose handlers never call it, is told once of data and room;
      however its descriptor is found then, it is told nothing. */
  lemma {:induction false} NotToldAgain(s: State, d: nat, r: Ready, again: Ready)
    requires Calm(s) && d in s.byDispatcher && d < |s.sockets| && r.fd == again.fd == s.sockets[d].fd
    requires s.sockets[d].enabled == {DeRead, DeWrite} && r.handlers == SILENT
    requires r.pollIn && r.pollOut && !r.error && !r.eof
    ensures Hears(s, r) == [Emitted(d, DeRead, []), Emitted(d, DeWrite, [])]
    ensures Hears(Dispatched(s, Gather(s.epoll, [r])), again) == []
  {
    var t := Dispatched(s, Gather(s.epoll, [r]));
    SocketTold(s, d, r);
    BothTaken(s, d, r);
    SocketTold(t, d, again);
  }

  lemma {:induction false} BothTaken(s: State, d: nat, r: Ready)
    requires Calm(s) && d in s.byDispatcher && d < |s.sockets| && r.fd == s.sockets[d].fd
    requires s.sockets[d].enabled == {DeRead, DeWrite} && r.handlers == SILENT
    requires r.pollIn && r.pollOut && !r.error && !r.eof
    ensures var t := Dispatched(s, Gather(s.epoll, [r])); Calm(t) && Waits(t, d, r.fd, {})
  {
    var ff, e := {DeRead, DeWrite}, s.sockets[d].enabled;
    assert Fired(e, true, true, false, false) == ff && e - ff == {};
    SilentRound(s, d, r, ff);
  }

  /** A round in which one descriptor alone is ready, and handlers make no call. */
  lemma {:induction false} SilentRound(s: State, d: nat, r: Ready, ff: Events)
    requires Calm(s) && d in s.byDispatcher && d < |s.sockets| && r.fd == s.sockets[d].fd && r.handlers == SILENT
    requires var e := s.sockets[d].enabled;
             ff == Fired(e, r.pollIn && (DeRead in e || DeAccept in e), r.pollOut && (DeWrite in e || DeConnect in e),
                         r.error, r.eof) != {}
    ensures var t := Dispatched(s, Gather(s.epoll, [r]));
            && Calm(t) && Waits(t, d, r.fd, if DeClose in ff then {} else s.sockets[d].enabled - ff)
            && t.sockets[d].state == WithState(s, d, ff).sockets[d].state
  {
    var g := GatheredOne(s, d, r);
    OneEvent(s, g);
    EventKeeps(s, d, ff, SILENT);
    ToldOnce(s, d, ff);
  }

  lemma GatheredOne(s: State, d: nat, r: Ready) returns (g: Gathered)
    requires Calm(s) && d in s.byDispatcher && d < |s.sockets| && r.fd == s.sockets[d].fd
    ensures Gather(s.epoll, [r]) == [g] && g.key == s.byDispatcher[d] && g.key in s.byKey && s.byKey[g.key] == d
    ensures Reports(s, g, r)
  {
    assert DispatcherOk(s, d);
    assert IsRegistered(s, r.fd);
    GatherReports(s, [r]);
    assert Registered(s, [r]) == [r] by { assert [r][1..] == []; }
    g := Gather(s.epoll, [r])[0];
    SameKey(s, d, g.key);
  }

  /** A Connect in progress, and then a round in which the descriptor of the socket is ready for output. */
  function AfterAttempt(s: State, d: nat, newFd: int, r: Ready): State {
    var t := Called(s, Connect(d, newFd, InProgress));
    Dispatched(t, Gather(t.epoll, [r]))
  }

  lemma {:induction false} Attempted(s: State, d: nat, newFd: int, r: Ready)
    requires Calm(s) && d in s.byDispatcher && d < |s.sockets| && r.fd == s.sockets[d].fd
    requires s.sockets[d].state == CsClosed && !r.pollIn && r.pollOut && r.handlers == SILENT
    ensures var t, e := AfterAttempt(s, d, newFd, r), s.sockets[d].enabled;
            && Calm(t) && Waits(t, d, r.fd, if r.error then {} else e + {DeRead, DeWrite} - {DeConnect})
            && t.sockets[d].state == if r.error then CsClosed else CsConnected
  {
    var t := Called(s, Connect(d, newFd, InProgress));
    var e := s.sockets[d].enabled + READ_WRITE + {DeConnect};
    var ff := {if r.error then DeClose else DeConnect};
    OutsideCall(s, Connect(d, newFd, InProgress));
    Started(s, d, newFd);
    assert Fired(e, false, true, r.error, r.eof) == ff;
    SilentRound(t, d, r, ff);
    assert e - {DeConnect} == s.sockets[d].enabled + {DeRead, DeWrite} - {DeConnect};
  }

  lemma Started(s: State, d: nat, newFd: int)
    requires Ok(s) && d in s.byDispatcher && d < |s.sockets| && s.sockets[d].state == CsClosed
    ensures Waits(Called(s, Connect(d, newFd, InProgress)), d, s.sockets[d].fd,
                  s.sockets[d].enabled + READ_WRITE + {DeConnect})
  {
    RegisteredIsOpen(s, d);
    WithEventsWaits(WithSocket(s, d, s.sockets[d].(state := CsConnecting)), d, s.sockets[d].fd, s.sockets[d].enabled,
        s.sockets[d].enabled + READ_WRITE + {DeConnect});
  }

  /** A connection that failed can be attempted again, and the next attempt is told of like the first. */
  lemma FailedThenRetried(s: State, d: nat, newFd: int, r: Ready, again: Ready)
    requires Calm(s) && d in s.byDispatcher && d < |s.sockets| && r.fd == again.fd == s.sockets[d].fd
    requires s.sockets[d].state == CsClosed && !r.pollIn && r.pollOut && r.error && r.handlers == SILENT
    requires again.pollOut && !again.error
    ensures var t := AfterAttempt(s, d, newFd, r);
            Emitted(d, DeConnect, again.handlers.onConnect) in Hears(Called(t, Connect(d, newFd, InProgress)), again)
  {
    Attempted(s, d, newFd, r);
    ConnectThenTold(AfterAttempt(s, d, newFd, r), d, newFd, again);
  }

  /** A connection that was made is not attempted again. */
  lemma MadeThenKept(s: State, d: nat, newFd: int, r: Ready, outcome: ConnectOutcome)
    requires Calm(s) && d in s.byDispatcher && d < |s.sockets| && r.fd == s.sockets[d].fd
    requires s.sockets[d].state == CsClosed && !r.pollIn && r.pollOut && !r.error && r.handlers == SILENT
    ensures var t := AfterAttempt(s, d, newFd, r); Called(t, Connect(d, newFd, outcome)) == t
  {
    Attempted(s, d, newFd, r);
  }
}
