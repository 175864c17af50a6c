/** Whole runs of the event loop: when the kernel's interest list keeps up with what the sockets want, at every
    point of the run, and a run in which it does not. */
module SocketRuns {
  import opened SocketServer
  import opened Wrappers

  /** Two rules for the calls that handlers make while events of socket d are signalled. NotEager is exact;
      Tame can be read off the calls: no datagram Create of d itself, and nothing that would arm d while it is
      closed. */
  datatype Rule = NotEager | Tame

  predicate Abides(rule: Rule, s: State, d: nat, call: Call) {
    match rule
    case NotEager => !IsEager(s, call)
    case Tame =>
      !call.CreateSocket? && call.target == d < |s.sockets| ==>
        && !(call.Create? && call.udp)
        && (s.sockets[d].fd == INVALID_SOCKET ==> !call.Send? && !call.Recv? && !call.Listen? && !call.Accept?)
  }

  /** Every call abides when it is made. */
  predicate CallsAbide(rule: Rule, s: State, d: nat, calls: seq<Call>)
    decreases |calls|
  {
    calls == [] || (Abides(rule, s, d, calls[0]) && CallsAbide(rule, Called(s, calls[0]), d, calls[1..]))
  }

  predicate SignalsAbide(rule: Rule, s: State, d: nat, ff: Events, h: Handlers, n: nat)
    requires d < |s.sockets|
  {
    n == 0 || (SignalsAbide(rule, s, d, ff, h, n - 1)
               && (EventAt(n - 1) in ff ==>
                     CallsAbide(rule, Disabled(AfterSignals(s, d, ff, h, n - 1), d, EventAt(n - 1)), d,
                         CallsAt(h, n - 1))))
  }

  predicate EventAbides(rule: Rule, s: State, d: nat, g: Gathered)
    requires d < |s.sockets|
  {
    var ff, all: nat := Fired(s.sockets[d].enabled, g.readable, g.writable, g.error, g.eof), 5;
    ff == {} || SignalsAbide(rule, BatchBegun(s, d, ff), d, ff, g.handlers, all)
  }

  predicate EventsAbide(rule: Rule, s: State, events: seq<Gathered>)
    decreases |events|
  {
    if events == [] then true
    else if events[0].key !in s.byKey || s.byKey[events[0].key] >= |s.sockets| then EventsAbide(rule, s, events[1..])
    else
      var d := s.byKey[events[0].key];
      EventAbides(rule, s, d, events[0]) && EventsAbide(rule, Processed(s, d, events[0]), events[1..])
  }

  /** Calls outside of handlers are free. */
  predicate RunAbides(rule: Rule, s: State, actions: seq<Action>)
    decreases |actions|
  {
    actions == []
    || match actions[0]
       case Application(call) => RunAbides(rule, Called(s, call), actions[1..])
       case Wait(round) =>
         var events := Gather(s.epoll, round);
         EventsAbide(rule, s, events) && RunAbides(rule, Dispatched(s, events), actions[1..])
  }

  lemma {:induction false} CallsCount(s: State, d: nat, calls: seq<Call>)
    requires Ok(s)
    ensures AllCalled(s, calls).eagerAdds >= s.eagerAdds
    ensures AllCalled(s, calls).eagerAdds == s.eagerAdds <==> CallsAbide(NotEager, s, d, calls)
    decreases |calls|
  {
    if calls != [] {
      CalledKeeps(s, calls[0]);
      CallsCount(Called(s, calls[0]), d, calls[1..]);
    }
  }

  lemma SignalCount(s: State, d: nat, event: Event, ff: Events, calls: seq<Call>)
    requires Ok(s) && d < |s.sockets|
    ensures Signalled(s, d, event, ff, calls).eagerAdds >= s.eagerAdds
    ensures Signalled(s, d, event, ff, calls).eagerAdds == s.eagerAdds
            <==> (event in ff ==> CallsAbide(NotEager, Disabled(s, d, event), d, calls))
  {
    if event in ff {
      DisabledKeeps(s, d, event);
      CallsCount(Disabled(s, d, event), d, calls);
    }
  }

  lemma {:induction false} SignalsCount(s: State, d: nat, ff: Events, h: Handlers, n: nat)
    requires Ok(s) && d < |s.sockets|
    ensures AfterSignals(s, d, ff, h, n).eagerAdds >= s.eagerAdds
    ensures AfterSignals(s, d, ff, h, n).eagerAdds == s.eagerAdds <==> SignalsAbide(NotEager, s, d, ff, h, n)
  {
    if n > 0 {
      SignalsCount(s, d, ff, h, n - 1);
      AfterSignalsKeeps(s, d, ff, h, n - 1);
      SignalCount(AfterSignals(s, d, ff, h, n - 1), d, EventAt(n - 1), ff, CallsAt(h, n - 1));
    }
  }

  lemma DisabledKeeps(s: State, d: nat, event: Event)
    requires Ok(s) && d < |s.sockets|
    ensures Keeps(s, Disabled(s, d, event)) && Disabled(s, d, event).eagerAdds == s.eagerAdds
    ensures Disabled(s, d, event).sockets[d].fd == s.sockets[d].fd
  {
    WithEventsKeeps(s, d, if event == DeClose then {} else s.sockets[d].enabled - {event});
  }

  lemma EventCount(s: State, d: nat, g: Gathered)
    requires Ok(s) && Idle(s) && d in s.byDispatcher && d < |s.sockets|
    ensures Processed(s, d, g).eagerAdds >= s.eagerAdds
    ensures Processed(s, d, g).eagerAdds == s.eagerAdds <==> EventAbides(NotEager, s, d, g)
  {
    var ff, all: nat := Fired(s.sockets[d].enabled, g.readable, g.writable, g.error, g.eof), 5;
    if ff != {} {
      BatchBegunKeeps(s, d, ff);
      SignalsCount(BatchBegun(s, d, ff), d, ff, g.handlers, all);
    }
  }

  lemma {:induction false} EventsCount(s: State, events: seq<Gathered>)
    requires Ok(s) && Idle(s)
    ensures Dispatched(s, events).eagerAdds >= s.eagerAdds
    ensures Dispatched(s, events).eagerAdds == s.eagerAdds <==> EventsAbide(NotEager, s, events)
    decreases |events|
  {
    if events != [] {
      var k := events[0].key;
      if k in s.byKey {
        assert KeyOk(s, k);
        ProcessedKeeps(s, s.byKey[k], events[0]);
        EventCount(s, s.byKey[k], events[0]);
        EventsCount(Processed(s, s.byKey[k], events[0]), events[1..]);
      } else {
        EventsCount(s, events[1..]);
      }
    }
  }

  /** The counter of eager additions is right: it stays put exactly if no handler's call is eager when made. */
  lemma {:induction false} RunCount(s: State, actions: seq<Action>)
    requires Ok(s) && Idle(s)
    ensures Ran(s, actions).eagerAdds >= s.eagerAdds
    ensures Ran(s, actions).eagerAdds == s.eagerAdds <==> RunAbides(NotEager, s, actions)
    decreases |actions|
  {
    if actions != [] {
      match actions[0] {
        case Application(call) =>
          CalledKeeps(s, call);
          RunCount(Called(s, call), actions[1..]);
        case Wait(round) =>
          var events := Gather(s.epoll, round);
          WatchedAreRegistered(s);
          DeliveredAsGathered(s, s, events);
          EventsCount(s, events);
          RunCount(Dispatched(s, events), actions[1..]);
      }
    }
  }

  /** Over every run in which no handler's call is eager when made, the kernel watches every registered
      socket for exactly the events it has enabled. */
  lemma KernelNeverLags(actions: seq<Action>)
    requires RunAbides(NotEager, INITIAL, actions)
    ensures var t := Ran(INITIAL, actions);
            forall d :: d in t.byDispatcher ==>
              && d < |t.sockets| && t.sockets[d].fd in t.epoll
              && t.epoll[t.sockets[d].fd] == Interest(GetEpollEvents(t.sockets[d].enabled), t.byDispatcher[d])
  {
    RanKeeps(INITIAL, actions);
    RunCount(INITIAL, actions);
    var t := Ran(INITIAL, actions);
    forall d | d in t.byDispatcher
      ensures d < |t.sockets| && t.sockets[d].fd in t.epoll
      ensures t.epoll[t.sockets[d].fd] == Interest(GetEpollEvents(t.sockets[d].enabled), t.byDispatcher[d])
    {
      KernelFollows(t, d);
    }
  }

  // ----- Tame handlers -----

  /** A closed socket wants nothing. */
  ghost predicate Dormant(s: State, d: nat)
    requires d < |s.sockets|
  {
    s.sockets[d].fd == INVALID_SOCKET ==> GetEpollEvents(s.sockets[d].enabled) == NOTHING
  }

  lemma CreatedAlone(s: State, e: nat, udp: bool, newFd: int, d: nat)
    requires d < |s.sockets| && e < |s.sockets| && d != e
    ensures Created(s, e, udp, newFd).sockets[d] == s.sockets[d]
  {
    var r := Closed(s, e);
    assert r.sockets[d] == s.sockets[d];
    assert Opened(s, e, udp, newFd).sockets[d] == r.sockets[d];
  }

  lemma ConnectedAlone(s: State, e: nat, newFd: int, outcome: ConnectOutcome, d: nat)
    requires d < |s.sockets| && e < |s.sockets| && d != e
    ensures ConnectedTo(s, e, newFd, outcome).sockets[d] == s.sockets[d]
  {
    if s.sockets[e].state == CsClosed && s.sockets[e].fd == INVALID_SOCKET { CreatedAlone(s, e, false, newFd, d); }
  }

  lemma OthersUntouched(s: State, call: Call, d: nat)
    requires d < |s.sockets| && (call.CreateSocket? || call.target != d)
    ensures Called(s, call).sockets[d] == s.sockets[d]
  {
    if call.CreateSocket? {
      var t := s.(sockets := s.sockets + [Dispatcher(INVALID_SOCKET, false, CsClosed, {}, None)]);
      CreatedAlone(t, |s.sockets|, call.udp, call.newFd, d);
    } else if call.target < |s.sockets| {
      match call
      case Create(e, udp, newFd) => CreatedAlone(s, e, udp, newFd, d);
      case Connect(e, newFd, outcome) => ConnectedAlone(s, e, newFd, outcome, d);
      case _ =>
    }
  }

  lemma TameCall(s: State, d: nat, call: Call)
    requires Ok(s) && OnlyBatch(s, d) && d < |s.sockets| && Dormant(s, d) && Abides(Tame, s, d, call)
    ensures !IsEager(s, call)
    ensures Dormant(Called(s, call), d)
  {
    if call.CreateSocket? || call.target != d {
      OthersUntouched(s, call, d);
    } else {
      TameCallOn(s, d, call);
    }
  }

  lemma TameCallOn(s: State, d: nat, call: Call)
    requires Ok(s) && d < |s.sockets| && Dormant(s, d) && Abides(Tame, s, d, call)
    requires !call.CreateSocket? && call.target == d
    ensures !IsEager(s, call)
    ensures Dormant(CalledOn(s, d, call), d)
  {
    match call
    case Create(_, _, newFd) => TameCreate(s, d, newFd);
    case Connect(_, newFd, outcome) => TameConnect(s, d, newFd, outcome);
    case Close(_) => ClosedKeeps(s, d); if s.sockets[d].fd != INVALID_SOCKET { ClosedIs(s, d); }
    case _ => StaysOpen(s, d, call);
  }

  lemma StaysOpen(s: State, d: nat, call: Call)
    requires d < |s.sockets| && (call.Send? || call.Recv? || call.Listen? || call.Accept?)
    ensures CalledOn(s, d, call).sockets[d].fd == s.sockets[d].fd
  {
  }

  lemma TameConnect(s: State, d: nat, newFd: int, outcome: ConnectOutcome)
    requires Ok(s) && d < |s.sockets| && Dormant(s, d)
    ensures !IsEagerConnect(s, d, newFd) && Dormant(ConnectedTo(s, d, newFd, outcome), d)
  {
    if s.sockets[d].state == CsClosed {
      var r := s;
      if s.sockets[d].fd == INVALID_SOCKET {
        TameCreate(s, d, newFd);
        r := Created(s, d, false, newFd);
      }
      assert r.sockets[d].fd != INVALID_SOCKET ==> ConnectedTo(s, d, newFd, outcome).sockets[d].fd == r.sockets[d].fd;
    }
  }

  lemma TameCreate(s: State, d: nat, newFd: int)
    requires Ok(s) && d < |s.sockets| && Dormant(s, d)
    ensures !IsEagerCreate(s, d, false, newFd) && Dormant(Created(s, d, false, newFd), d)
  {
    OpenedKeeps(s, d, false, newFd);
    if s.sockets[d].fd != INVALID_SOCKET { ClosedIs(s, d); } else { ClosedKeeps(s, d); }
  }

  lemma {:induction false} TameCalls(s: State, d: nat, calls: seq<Call>)
    requires Ok(s) && OnlyBatch(s, d) && d < |s.sockets| && Dormant(s, d) && CallsAbide(Tame, s, d, calls)
    ensures CallsAbide(NotEager, s, d, calls) && Dormant(AllCalled(s, calls), d)
    decreases |calls|
  {
    if calls != [] {
      TameCall(s, d, calls[0]);
      CalledKeeps(s, calls[0]);
      TameCalls(Called(s, calls[0]), d, calls[1..]);
    }
  }

  lemma {:induction false} TameSignals(s: State, d: nat, ff: Events, h: Handlers, n: nat)
    requires Ok(s) && OnlyBatch(s, d) && d < |s.sockets| && Dormant(s, d) && SignalsAbide(Tame, s, d, ff, h, n)
    ensures SignalsAbide(NotEager, s, d, ff, h, n) && Dormant(AfterSignals(s, d, ff, h, n), d)
  {
    if n > 0 {
      TameSignals(s, d, ff, h, n - 1);
      AfterSignalsKeeps(s, d, ff, h, n - 1);
      var t, event := AfterSignals(s, d, ff, h, n - 1), EventAt(n - 1);
      if event in ff {
        DisabledKeeps(t, d, event);
        DisabledDormant(t, d, event);
        TameCalls(Disabled(t, d, event), d, CallsAt(h, n - 1));
      }
    }
  }

  lemma DisabledDormant(s: State, d: nat, event: Event)
    requires d < |s.sockets| && Dormant(s, d)
    ensures Dormant(Disabled(s, d, event), d)
  {
  }

  lemma {:induction false} TameEvents(s: State, events: seq<Gathered>)
    requires Ok(s) && Idle(s) && EventsAbide(Tame, s, events)
    ensures EventsAbide(NotEager, s, events)
    decreases |events|
  {
    if events != [] {
      var g := events[0];
      if g.key in s.byKey {
        assert KeyOk(s, g.key);
        var d := s.byKey[g.key];
        var ff, all: nat := Fired(s.sockets[d].enabled, g.readable, g.writable, g.error, g.eof), 5;
        if ff != {} {
          BatchBegunKeeps(s, d, ff);
          TameSignals(BatchBegun(s, d, ff), d, ff, g.handlers, all);
        }
        ProcessedKeeps(s, d, g);
        TameEvents(Processed(s, d, g), events[1..]);
      } else {
        TameEvents(s, events[1..]);
      }
    }
  }

  /** If no handler of a socket's event makes a datagram Create of that socket or arms it while it is closed,
      no call is eager, so the kernel never lags. */
  lemma {:induction false} TameRun(s: State, actions: seq<Action>)
    requires Ok(s) && Idle(s) && RunAbides(Tame, s, actions)
    ensures RunAbides(NotEager, s, actions)
    decreases |actions|
  {
    if actions != [] {
      match actions[0] {
        case Application(call) =>
          CalledKeeps(s, call);
          TameRun(Called(s, call), actions[1..]);
        case Wait(round) =>
          var events := Gather(s.epoll, round);
          TameEvents(s, events);
          WatchedAreRegistered(s);
          DeliveredAsGathered(s, s, events);
          TameRun(Dispatched(s, events), actions[1..]);
      }
    }
  }

  // ----- Inside a batch -----

  /** The state after the first n calls of the i-th signal's handler, while an event of d is handled. */
  function Midway(s: State, d: nat, ff: Events, h: Handlers, i: nat, n: nat): State
    requires d < |s.sockets| && n <= |CallsAt(h, i)|
  {
    AllCalled(Disabled(AfterSignals(BatchBegun(s, d, ff), d, ff, h, i), d, EventAt(i)), CallsAt(h, i)[..n])
  }

  lemma {:induction false} FirstCalls(s: State, d: nat, calls: seq<Call>, n: nat)
    requires n <= |calls| && CallsAbide(NotEager, s, d, calls)
    ensures CallsAbide(NotEager, s, d, calls[..n])
    decreases n
  {
    if n > 0 {
      assert calls[..n][0] == calls[0] && calls[..n][1..] == calls[1..][..n - 1];
      FirstCalls(Called(s, calls[0]), d, calls[1..], n - 1);
    }
  }

  lemma {:induction false} FirstSignals(s: State, d: nat, ff: Events, h: Handlers, i: nat, n: nat)
    requires d < |s.sockets| && i <= n && SignalsAbide(NotEager, s, d, ff, h, n)
    ensures SignalsAbide(NotEager, s, d, ff, h, i)
  {
    if i < n { FirstSignals(s, d, ff, h, i, n - 1); }
  }

  lemma {:induction false} InsideEvent(s: State, d: nat, g: Gathered, i: nat, n: nat)
    requires Ok(s) && Idle(s) && d in s.byDispatcher && d < |s.sockets| && s.eagerAdds == 0
    requires EventAbides(NotEager, s, d, g) && i < 5 && n <= |CallsAt(g.handlers, i)|
    requires EventAt(i) in Fired(s.sockets[d].enabled, g.readable, g.writable, g.error, g.eof)
    ensures var ff := Fired(s.sockets[d].enabled, g.readable, g.writable, g.error, g.eof);
            var u := Midway(s, d, ff, g.handlers, i, n);
            Ok(u) && OnlyBatch(u, d) && u.eagerAdds == 0
  {
    var ff, all: nat := Fired(s.sockets[d].enabled, g.readable, g.writable, g.error, g.eof), 5;
    BatchBegunKeeps(s, d, ff);
    FirstSignals(BatchBegun(s, d, ff), d, ff, g.handlers, i + 1, all);
    InsideSignals(BatchBegun(s, d, ff), d, ff, g.handlers, i, n);
  }

  lemma InsideSignals(s: State, d: nat, ff: Events, h: Handlers, i: nat, n: nat)
    requires Ok(s) && OnlyBatch(s, d) && d < |s.sockets| && s.eagerAdds == 0 && n <= |CallsAt(h, i)|
    requires EventAt(i) in ff && SignalsAbide(NotEager, s, d, ff, h, i + 1)
    ensures var u := AllCalled(Disabled(AfterSignals(s, d, ff, h, i), d, EventAt(i)), CallsAt(h, i)[..n]);
            Ok(u) && OnlyBatch(u, d) && u.eagerAdds == 0
  {
    SignalsCount(s, d, ff, h, i);
    AfterSignalsKeeps(s, d, ff, h, i);
    InsideCalls(AfterSignals(s, d, ff, h, i), d, EventAt(i), CallsAt(h, i), n);
  }

  lemma InsideCalls(t: State, d: nat, event: Event, calls: seq<Call>, n: nat)
    requires Ok(t) && OnlyBatch(t, d) && d < |t.sockets| && t.eagerAdds == 0 && n <= |calls|
    requires CallsAbide(NotEager, Disabled(t, d, event), d, calls)
    ensures var u := AllCalled(Disabled(t, d, event), calls[..n]);
            Ok(u) && OnlyBatch(u, d) && u.eagerAdds == 0
  {
    var v := Disabled(t, d, event);
    DisabledKeeps(t, d, event);
    FirstCalls(v, d, calls, n);
    CallsCount(v, d, calls[..n]);
    AllCalledKeeps(v, calls[..n]);
  }

  /** What holds before the k-th event of a run's last round, for InsideEvent to build on. */
  lemma {:induction false} BeforeEvent(actions: seq<Action>, round: seq<Ready>, k: nat)
    requires RunAbides(NotEager, INITIAL, actions + [Wait(round)])
    requires k < |Gather(Ran(INITIAL, actions).epoll, round)|
    ensures var events := Gather(Ran(INITIAL, actions).epoll, round);
            var s := Dispatched(Ran(INITIAL, actions), events[..k]);
            && Ok(s) && Idle(s) && s.eagerAdds == 0
            && (events[k].key in s.byKey ==>
                  var d := s.byKey[events[k].key];
                  d in s.byDispatcher && d < |s.sockets| && EventAbides(NotEager, s, d, events[k]))
  {
    LastRound(INITIAL, actions, round);
    RanKeeps(INITIAL, actions);
    RunCount(INITIAL, actions);
    EarlierEvents(Ran(INITIAL, actions), Gather(Ran(INITIAL, actions).epoll, round), k);
  }

  /** At every point inside the handling of every event of a run without eager calls: only the handled socket
      is in a batch, and the kernel's mask of a registered socket is that of its saved events in its own batch,
      and of its enabled events otherwise. */
  lemma KernelNeverLagsInside(actions: seq<Action>, round: seq<Ready>, k: nat, i: nat, n: nat, e: nat)
    requires RunAbides(NotEager, INITIAL, actions + [Wait(round)]) && k < |Gather(Ran(INITIAL, actions).epoll, round)|
    requires var events := Gather(Ran(INITIAL, actions).epoll, round);
             var s, g := Dispatched(Ran(INITIAL, actions), events[..k]), events[k];
             && g.key in s.byKey && s.byKey[g.key] < |s.sockets| && i < 5 && n <= |CallsAt(g.handlers, i)|
             && EventAt(i) in Fired(s.sockets[s.byKey[g.key]].enabled, g.readable, g.writable, g.error, g.eof)
    ensures var events := Gather(Ran(INITIAL, actions).epoll, round);
            var s, g := Dispatched(Ran(INITIAL, actions), events[..k]), events[k];
            var d := s.byKey[g.key];
            var u := Midway(s, d, Fired(s.sockets[d].enabled, g.readable, g.writable, g.error, g.eof), g.handlers,
                            i, n);
            && OnlyBatch(u, d)
            && (e in u.byDispatcher ==>
                  && e < |u.sockets| && u.sockets[e].fd in u.epoll
                  && u.epoll[u.sockets[e].fd].mask == GetEpollEvents(u.sockets[e].Reference()))
  {
    var events := Gather(Ran(INITIAL, actions).epoll, round);
    var s, g := Dispatched(Ran(INITIAL, actions), events[..k]), events[k];
    var d := s.byKey[g.key];
    BeforeEvent(actions, round, k);
    InsideEvent(s, d, g, i, n);
    var u := Midway(s, d, Fired(s.sockets[d].enabled, g.readable, g.writable, g.error, g.eof), g.handlers, i, n);
    if e in u.byDispatcher { KernelFollows(u, e); }
  }

  lemma {:induction false} LastRound(s: State, actions: seq<Action>, round: seq<Ready>)
    requires RunAbides(NotEager, s, actions + [Wait(round)])
    ensures RunAbides(NotEager, s, actions)
    ensures EventsAbide(NotEager, Ran(s, actions), Gather(Ran(s, actions).epoll, round))
    decreases |actions|
  {
    var all := actions + [Wait(round)];
    if actions == [] {
      assert all[0] == Wait(round);
    } else {
      assert all[0] == actions[0] && all[1..] == actions[1..] + [Wait(round)];
      match actions[0] {
        case Application(call) => LastRound(Called(s, call), actions[1..], round);
        case Wait(first) => LastRound(Dispatched(s, Gather(s.epoll, first)), actions[1..], round);
      }
    }
  }

  lemma {:induction false} EarlierEvents(s: State, events: seq<Gathered>, k: nat)
    requires Ok(s) && Idle(s) && s.eagerAdds == 0 && k < |events| && EventsAbide(NotEager, s, events)
    ensures var t := Dispatched(s, events[..k]);
            && Ok(t) && Idle(t) && t.eagerAdds == 0
            && (events[k].key in t.byKey ==>
                  var d := t.byKey[events[k].key];
                  d in t.byDispatcher && d < |t.sockets| && EventAbides(NotEager, t, d, events[k]))
    decreases k
  {
    var key := events[0].key;
    if key in s.byKey { assert KeyOk(s, key); }
    if k > 0 {
      assert events[..k][0] == events[0] && events[..k][1..] == events[1..][..k - 1];
      if key in s.byKey {
        ProcessedKeeps(s, s.byKey[key], events[0]);
        EventCount(s, s.byKey[key], events[0]);
        EarlierEvents(Processed(s, s.byKey[key], events[0]), events[1..], k - 1);
      } else {
        EarlierEvents(s, events[1..], k - 1);
      }
    }
  }

  /** The end of a batch brings the kernel up to date unless, just before it, the kernel's mask differs from
      that of the saved events and nothing is enabled: then, and only then, the kernel keeps the old mask. */
  lemma BatchEndExact(s: State, d: nat)
    requires Ok(s) && d in s.byDispatcher && d < |s.sockets| && s.sockets[d].saved != None
    ensures var x, t := s.sockets[d], BatchFinished(s, d);
            && x.fd in s.epoll && x.fd in t.epoll && t.sockets[d].fd == x.fd
            && (t.epoll[x.fd].mask == GetEpollEvents(x.enabled)
                <==> s.epoll[x.fd].mask == GetEpollEvents(x.saved.value) || GetEpollEvents(x.enabled) != NOTHING)
  {
    assert DispatcherOk(s, d);
  }

  lemma EagerCreate(s: State, d: nat, fd: int)
    requires Ok(s) && d in s.byDispatcher && d < |s.sockets| && s.sockets[d].saved != None
    requires fd >= 0 && forall i :: 0 <= i < |s.sockets| ==> s.sockets[i].fd != fd
    ensures var t := Created(s, d, true, fd);
            && d in t.byDispatcher && t.sockets[d].fd == fd && t.sockets[d].saved == Some({})
            && fd in t.epoll && t.epoll[fd].mask == EpollMask(true, true)
  {
    RegisteredIsOpen(s, d);
    ClosedIs(s, d);
    OpenedKeeps(s, d, true, fd);
  }

  /** A datagram socket that its own write handler closes and reopens during an error event: the
      kernel goes on watching it for input and output although it has nothing enabled. */
  lemma EagerReopenLags(s: State, d: nat, fd: int)
    requires Ok(s) && Idle(s) && d in s.byDispatcher && d < |s.sockets|
    requires fd >= 0 && forall i :: 0 <= i < |s.sockets| ==> s.sockets[i].fd != fd
    ensures var t := EventHandled(s, d, {DeWrite, DeClose}, Handlers([], [], [], [Create(d, true, fd)], []));
            && d in t.byDispatcher && t.sockets[d].fd == fd && t.sockets[d].enabled == {}
            && fd in t.epoll && t.epoll[fd].mask == EpollMask(true, true)
  {
    var ff, calls := {DeWrite, DeClose}, [Create(d, true, fd)];
    var x := s.sockets[d].(state := CsClosed);
    var r := WithSocket(s, d, x);
    SameMaskKeeps(s, d, x);
    BatchStartedKeeps(r, d);
    var s0 := BatchStarted(r, d);
    var w := WithEvents(s0, d, x.enabled - {DeWrite});
    WithEventsKeeps(s0, d, x.enabled - {DeWrite});
    EagerCreate(w, d, fd);
    var c := Created(w, d, true, fd);
    assert AllCalled(w, calls) == c by { assert calls[1..] == []; }
    FiveSignals(s0, d, ff, Handlers([], [], [], calls, []));
    assert Disabled(c, d, DeClose) == WithEvents(c, d, {});
  }

  /** A whole run that ends so: a datagram socket is made, and one round reports it readable and writable with
      an error; its write handler recreates it. */
  lemma EagerRunLags(fd: int, newFd: int)
    requires fd >= 0 && newFd >= 0 && fd != newFd
    ensures var h := Handlers([], [], [], [Create(0, true, newFd)], []);
            var t := Ran(INITIAL, [Application(CreateSocket(true, fd)), Wait([Ready(fd, true, true, true, false, h)])]);
            && 0 in t.byDispatcher && 0 < |t.sockets| && t.sockets[0].fd == newFd && t.sockets[0].enabled == {}
            && newFd in t.epoll && t.epoll[newFd].mask == EpollMask(true, true)
  {
    var h := Handlers([], [], [], [Create(0, true, newFd)], []);
    var wait := Wait([Ready(fd, true, true, true, false, h)]);
    var s := Called(INITIAL, CreateSocket(true, fd));
    FirstSocket(fd);
    RanTwice(INITIAL, CreateSocket(true, fd), wait.round);
    var g := Gathered(0, true, true, true, false, h);
    assert Gather(s.epoll, wait.round) == [g] by { assert wait.round[1..] == []; }
    OneEvent(s, g);
    CalledKeeps(INITIAL, CreateSocket(true, fd));
    EagerReopenLags(s, 0, newFd);
    assert Fired(s.sockets[0].enabled, true, true, true, false) == {DeWrite, DeClose};
  }

  lemma RanTwice(s: State, call: Call, round: seq<Ready>)
    ensures var t := Called(s, call);
            Ran(s, [Application(call), Wait(round)]) == Dispatched(t, Gather(t.epoll, round))
  {
    var both, last, t := [Application(call), Wait(round)], [Wait(round)], Called(s, call);
    assert both[0] == Application(call) && both[1..] == last && last[1..] == [];
    assert Ran(t, last) == Dispatched(t, Gather(t.epoll, round));
  }

  lemma OneEvent(s: State, g: Gathered)
    requires g.key in s.byKey && s.byKey[g.key] < |s.sockets|
    ensures Dispatched(s, [g]) == Processed(s, s.byKey[g.key], g)
  {
    assert [g][1..] == [];
  }

  lemma FirstSocket(fd: int)
    requires fd >= 0
    ensures var s := Called(INITIAL, CreateSocket(true, fd));
            && s.byKey == map[0 := 0] && s.byDispatcher == map[0 := 0]
            && s.sockets == [Dispatcher(fd, true, CsClosed, READ_WRITE, None)]
            && s.epoll == map[fd := Interest(EpollMask(true, true), 0)]
  {
    var x := Dispatcher(INVALID_SOCKET, false, CsClosed, {}, None);
    var s := INITIAL.(sockets := [x]);
    assert INITIAL.sockets + [x] == [x];
    assert Closed(s, 0) == s;
    assert OpenDescriptor(s, fd) == fd;
  }
}
