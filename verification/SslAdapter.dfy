/** OpenSSLAdapter: sending through an SSL engine that may block in the middle of a write. */
module SslAdapters {
  import opened Buffers

  datatype SslState = SslNone | SslWait | SslConnecting | SslConnected | SslError

  /** What SSL_write does: take everything, take some (at least one byte), or fail. */
  datatype Written = WroteAll | WroteSome(most: nat) | WantRead | WantWrite | ZeroReturn | Fatal

  /** What SSL_read does, as far as the adapter's state is concerned. */
  datatype Received = GotData | ReadWantsRead | ReadWantsWrite | ReadZeroReturn | ReadFatal

  /** What a handshake step does; a completed handshake still has to pass the certificate check. */
  datatype Handshake = Completes(certificateGood: bool) | Wants | Fails

  /** The record of a session with the engine: the write it is blocked in, the bytes it took, the bytes
      Send reported as sent, how many bytes it took twice, and in how many partial retries. */
  datatype Session = Session(blocked: seq<Byte>, accepted: seq<Byte>, reported: seq<Byte>, duplicated: nat,
      partials: nat)

  const FRESH := Session([], [], [], 0, 0)

  /** The adapter; misretried: a blocked write was retried with other bytes. */
  datatype State = State(
    state: SslState, ssl: bool, readNeedsWrite: bool, writeNeedsRead: bool, pending: seq<Byte>,
    session: Session, misretried: bool, writesAfterError: nat)

  const NEW := State(SslNone, false, false, false, [], FRESH, false, 0)

  /** How many bytes the engine takes; -1 for an error. */
  function Taken(o: Written, data: seq<Byte>): (n: int)
    requires data != []
    ensures -1 <= n <= |data| && n != 0
    ensures n == |data| || o != WroteAll
  {
    match o
    case WroteAll => |data|
    case WroteSome(n) => if n == 0 then 1 else if n < |data| then n else |data|
    case _ => -1
  }

  // ---- The adapter's operations as functions ----

  function CleanedUp(s: State): State {
    s.(state := SslNone, ssl := false, readNeedsWrite := false, writeNeedsRead := false, pending := [],
        session := FRESH)
  }

  function Offered(e: Session, data: seq<Byte>, o: Written): Session
    requires data != []
  {
    var n := Taken(o, data);
    if n > 0 then e.(blocked := [], accepted := e.accepted + data[..n])
    else if o == WantRead || o == WantWrite then e.(blocked := data)
    else e
  }

  function SslWritten(s: State, data: seq<Byte>, o: Written): State
    requires data != []
  {
    s.(writeNeedsRead := o == WantRead,
       state := if o == Fatal then SslError else s.state,
       session := Offered(s.session, data, o),
       misretried := s.misretried || (s.session.blocked != [] && s.session.blocked != data),
       writesAfterError := s.writesAfterError + if s.state == SslError then 1 else 0)
  }

  /** n bytes of a buffer went out that will be offered again. */
  function Repeated(e: Session, n: nat): Session {
    e.(duplicated := e.duplicated + n, partials := e.partials + 1)
  }

  function Reported(e: Session, data: seq<Byte>): Session {
    e.(reported := e.reported + data)
  }

  /** The pending data is offered again, whole; it is forgotten only if it is taken whole. */
  function Retried(s: State, o: Written): State
    requires s.pending != []
  {
    var n := Taken(o, s.pending);
    var t := SslWritten(s, s.pending, o);
    if n == |s.pending| then t.(pending := [])
    else if n > 0 then t.(session := Repeated(t.session, n))
    else t
  }

  /** What Send returns, and the state it leaves. */
  function SentFresh(s: State, data: seq<Byte>, o: Written): (int, State)
  {
    if data == [] then (0, s)
    else
      var n := Taken(o, data);
      var t := SslWritten(s, data, o);
      if o == WantRead || o == WantWrite then (|data|, t.(pending := data, session := Reported(t.session, data)))
      else if n > 0 then (n, t.(session := Reported(t.session, data[..n])))
      else (-1, t)
  }

  function Sent(s: State, data: seq<Byte>, retry: Written, o: Written): (int, State) {
    if s.state != SslConnected then (-1, s)
    else if s.pending == [] then SentFresh(s, data, o)
    else
      var t := Retried(s, retry);
      if t.pending != [] then (-1, t) else SentFresh(t, data, o)
  }

  function AfterRecv(s: State, length: nat, r: Received): State {
    if s.state != SslConnected || length == 0 then s
    else s.(readNeedsWrite := r == ReadWantsWrite, state := if r == ReadFatal then SslError else SslConnected)
  }

  function Continued(s: State, h: Handshake): (bool, State) {
    match h
    case Completes(good) => if good then (true, s.(state := SslConnected)) else (false, CleanedUp(s))
    case Wants => (true, s)
    case Fails => (false, s)
  }

  function Begun(s: State, h: Handshake): (bool, State) {
    var (ok, t) := Continued(s.(ssl := true), h);
    (ok, if ok then t else CleanedUp(t))
  }

  function Started(s: State, connected: bool, h: Handshake): State {
    if s.state != SslNone then s
    else if !connected then s.(state := SslWait)
    else
      var (ok, t) := Begun(s.(state := SslConnecting), h);
      if ok then t else t.(state := SslError)
  }

  function Connected(s: State, h: Handshake): State {
    if s.state != SslWait then s else Begun(s.(state := SslConnecting), h).1
  }

  /** The handshake part that read and write events share. */
  function Stepped(s: State, h: Handshake): State {
    if s.state != SslConnecting then s
    else
      var (ok, t) := Continued(s, h);
      if ok then t else t.(state := SslError)
  }

  // ---- Runs: calls, and what the engine does in them ----

  datatype Call =
    | StartSSL(connected: bool, h: Handshake)
    | OnConnectEvent(h: Handshake)
    | OnReadEvent(h: Handshake, during: seq<Call>)
    | OnWriteEvent(h: Handshake, during: seq<Call>, retry: Written)
    | Send(data: seq<Byte>, retry: Written, o: Written)
    | Recv(length: nat, r: Received)
    | Close

  function Next(s: State, c: Call): State
    decreases c, 0
  {
    match c
    case StartSSL(connected, h) => Started(s, connected, h)
    case OnConnectEvent(h) => Connected(s, h)
    case OnReadEvent(h, during) =>
      if s.state == SslConnected && s.writeNeedsRead then Run(s, during) else Stepped(s, h)
    case OnWriteEvent(h, during, retry) =>
      if s.state != SslConnected then Stepped(s, h)
      else
        var t := if s.readNeedsWrite then Run(s, during) else s;
        if t.pending == [] then t else Retried(t, retry)
    case Send(data, retry, o) => Sent(s, data, retry, o).1
    case Recv(length, r) => AfterRecv(s, length, r)
    case Close => CleanedUp(s)
  }

  function Run(s: State, calls: seq<Call>): State
    decreases calls, 0
  {
    if calls == [] then s else Run(Next(s, calls[0]), calls[1..])
  }

  // ---- The class ----

  class OpenSSLAdapter {
    var state: SslState
    var ssl: bool
    var readNeedsWrite: bool
    var writeNeedsRead: bool
    var pending: seq<Byte>
    ghost var session: Session
    ghost var misretried: bool
    ghost var writesAfterError: nat

    ghost function View(): State
      reads this
    {
      State(state, ssl, readNeedsWrite, writeNeedsRead, pending, session, misretried, writesAfterError)
    }

    constructor ()
      ensures View() == NEW
    {
      state, ssl, readNeedsWrite, writeNeedsRead, pending := SslNone, false, false, false, [];
      session, misretried, writesAfterError := FRESH, false, 0;
    }

    method Cleanup()
      modifies this
      ensures View() == CleanedUp(old(View()))
    {
      state, readNeedsWrite, writeNeedsRead, pending, ssl := SslNone, false, false, [], false;
      session := FRESH;
    }

    method DoSslWrite(data: seq<Byte>, o: Written) returns (n: int)
      requires ssl && data != [] && (pending == [] || data == pending)
      modifies this
      ensures View() == SslWritten(old(View()), data, o)
      ensures n == Taken(o, data)
    {
      writesAfterError := writesAfterError + if state == SslError then 1 else 0;
      misretried := misretried || (session.blocked != [] && session.blocked != data);
      session := Offered(session, data, o);
      writeNeedsRead := false;
      n := Taken(o, data);
      match o {
        case WantRead => writeNeedsRead := true;
        case Fatal => state := SslError;
        case _ =>
      }
    }

    method Retry(o: Written) returns (done: bool)
      requires ssl && pending != []
      modifies this
      ensures View() == Retried(old(View()), o)
      ensures done == (pending == [])
    {
      var n := DoSslWrite(pending, o);
      done := n == |pending|;
      if done {
        pending := [];
      } else if n > 0 {
        session := Repeated(session, n);
      }
    }

    method Send(data: seq<Byte>, retry: Written, o: Written) returns (n: int)
      requires Valid(View())
      modifies this
      ensures (n, View()) == Sent(old(View()), data, retry, o)
    {
      if state != SslConnected {
        return -1;
      }
      if pending != [] {
        var done := Retry(retry);
        if !done {
          return -1;
        }
      }
      n := SendFresh(data, o);
    }

    method SendFresh(data: seq<Byte>, o: Written) returns (n: int)
      requires ssl && pending == []
      modifies this
      ensures (n, View()) == SentFresh(old(View()), data, o)
    {
      if data == [] {
        return 0;
      }
      n := DoSslWrite(data, o);
      if o == WantRead || o == WantWrite {
        pending, session := data, Reported(session, data);
        n := |data|;
      } else if n > 0 {
        session := Reported(session, data[..n]);
      }
    }

    method Recv(length: nat, r: Received)
      modifies this
      ensures View() == AfterRecv(old(View()), length, r)
    {
      if state != SslConnected || length == 0 {
        return;
      }
      readNeedsWrite := false;
      match r {
        case ReadWantsWrite => readNeedsWrite := true;
        case ReadFatal => state := SslError;
        case _ =>
      }
    }

    method ContinueSSL(h: Handshake) returns (ok: bool)
      modifies this
      ensures (ok, View()) == Continued(old(View()), h)
    {
      match h {
        case Completes(good) =>
          if !good {
            Cleanup();
            return false;
          }
          state := SslConnected;
          ok := true;
        case Wants => ok := true;
        case Fails => ok := false;
      }
    }

    method BeginSSL(h: Handshake) returns (ok: bool)
      modifies this
      ensures (ok, View()) == Begun(old(View()), h)
    {
      ssl := true;
      ok := ContinueSSL(h);
      if !ok {
        Cleanup();
      }
    }

    method StartSSL(connected: bool, h: Handshake)
      modifies this
      ensures View() == Started(old(View()), connected, h)
    {
      if state != SslNone {
        return;
      }
      if !connected {
        state := SslWait;
        return;
      }
      state := SslConnecting;
      var ok := BeginSSL(h);
      if !ok {
        state := SslError;
      }
    }

    method OnConnectEvent(h: Handshake)
      modifies this
      ensures View() == Connected(old(View()), h)
    {
      if state == SslWait {
        state := SslConnecting;
        var _ := BeginSSL(h);
      }
    }

    /** The write handlers run if a write waits for a read, and may make any calls. */
    method OnReadEvent(h: Handshake, during: seq<Call>)
      requires Valid(View())
      modifies this
      ensures View() == Next(old(View()), Call.OnReadEvent(h, during))
      decreases during, 1
    {
      if state == SslConnected && writeNeedsRead {
        Handle(during);
      } else {
        Step(h);
      }
    }

    method Step(h: Handshake)
      modifies this
      ensures View() == Stepped(old(View()), h)
    {
      if state == SslConnecting {
        var ok := ContinueSSL(h);
        if !ok {
          state := SslError;
        }
      }
    }

    /** The read handlers run before the retry, and may make any calls. */
    method OnWriteEvent(h: Handshake, during: seq<Call>, retry: Written)
      requires Valid(View())
      modifies this
      ensures View() == Next(old(View()), Call.OnWriteEvent(h, during, retry))
      decreases during, 1
    {
      if state != SslConnected {
        Step(h);
        return;
      }
      if readNeedsWrite {
        Handle(during);
        RunKeepsValid(old(View()), during);
      }
      if pending != [] {
        var _ := Retry(retry);
      }
    }

    method Handle(calls: seq<Call>)
      requires Valid(View())
      modifies this
      ensures View() == Run(old(View()), calls)
      decreases calls, 0
    {
      if calls == [] {
        return;
      }
      NextKeepsValid(View(), calls[0]);
      match calls[0] {
        case StartSSL(connected, h) => StartSSL(connected, h);
        case OnConnectEvent(h) => OnConnectEvent(h);
        case OnReadEvent(h, during) => OnReadEvent(h, during);
        case OnWriteEvent(h, during, retry) => OnWriteEvent(h, during, retry);
        case Send(data, retry, o) => var _ := Send(data, retry, o);
        case Recv(length, r) => Recv(length, r);
        case Close => Cleanup();
      }
      Handle(calls[1..]);
    }
  }

  // ---- What every run keeps ----

  /** A blocked write is what is pending, and was never retried with anything else; what the engine took
      and what is pending account for what was reported, byte for byte unless a retry was partial. */
  ghost predicate Valid(s: State) {
    && (s.session.blocked != [] ==> s.pending == s.session.blocked)
    && !s.misretried
    && (s.pending != [] || s.state in {SslConnecting, SslConnected} ==> s.ssl)
    && (s.state in {SslNone, SslWait, SslConnecting} ==> s.pending == [])
    && Accounts(s.session, s.pending)
  }

  ghost predicate Accounts(e: Session, pending: seq<Byte>) {
    && |e.accepted| + |pending| == |e.reported| + e.duplicated
    && (e.partials == 0 <==> e.duplicated == 0)
    && (e.partials == 0 ==> e.accepted + pending == e.reported)
  }

  lemma TakenAll(e: Session, pending: seq<Byte>, n: nat)
    requires Accounts(e, pending) && n == |pending|
    ensures Accounts(e.(accepted := e.accepted + pending[..n], blocked := []), [])
  {
    assert pending[..n] == pending;
    assert e.accepted + pending + [] == e.accepted + pending;
  }

  lemma TakenPart(e: Session, pending: seq<Byte>, n: nat)
    requires Accounts(e, pending) && 0 < n < |pending|
    ensures Accounts(Repeated(e.(accepted := e.accepted + pending[..n], blocked := []), n), pending)
  {
  }

  lemma TakenNew(e: Session, data: seq<Byte>)
    requires Accounts(e, [])
    ensures Accounts(Reported(e, data), data)
    ensures Accounts(Reported(e.(accepted := e.accepted + data, blocked := []), data), [])
  {
    assert e.accepted + [] == e.accepted;
    assert e.accepted + data + [] == e.accepted + data;
  }

  lemma RetryKeepsValid(s: State, o: Written)
    requires Valid(s) && s.pending != []
    ensures Valid(Retried(s, o))
    ensures !o.WroteSome? ==> Retried(s, o).session.partials == s.session.partials
  {
    var n := Taken(o, s.pending);
    if n == |s.pending| {
      TakenAll(s.session, s.pending, n);
    } else if n > 0 {
      TakenPart(s.session, s.pending, n);
    }
  }

  lemma SendKeepsValid(s: State, data: seq<Byte>, o: Written)
    requires Valid(s) && s.state == SslConnected && s.pending == []
    ensures Valid(SentFresh(s, data, o).1)
  {
    if data != [] {
      var n := Taken(o, data);
      var e := s.session;
      if n > 0 {
        TakenNew(e, data[..n]);
      } else {
        TakenNew(e, data);
        assert o == WantRead || o == WantWrite ==>
                 Reported(Offered(e, data, o), data) == Reported(e, data).(blocked := data);
      }
    }
  }

  lemma NextKeepsValid(s: State, c: Call)
    requires Valid(s)
    ensures Valid(Next(s, c))
    decreases c, 0
  {
    match c
    case OnReadEvent(h, during) => if s.state == SslConnected { RunKeepsValid(s, during); }
    case OnWriteEvent(h, during, retry) =>
      if s.state == SslConnected {
        RunKeepsValid(s, during);
        var t := if s.readNeedsWrite then Run(s, during) else s;
        if t.pending != [] { RetryKeepsValid(t, retry); }
      }
    case Send(data, retry, o) =>
      if s.state == SslConnected {
        if s.pending == [] {
          SendKeepsValid(s, data, o);
        } else {
          RetryKeepsValid(s, retry);
          var t := Retried(s, retry);
          if t.pending == [] && t.state == SslConnected { SendKeepsValid(t, data, o); }
        }
      }
    case _ =>
  }

  /** Every run, whatever the engine and the handlers do. */
  lemma {:induction false} RunKeepsValid(s: State, calls: seq<Call>)
    requires Valid(s)
    ensures Valid(Run(s, calls))
    decreases calls, 0
  {
    if calls != [] {
      NextKeepsValid(s, calls[0]);
      RunKeepsValid(Next(s, calls[0]), calls[1..]);
    }
  }

  /** The bytes taken and pending are those reported, in order, exactly if no retry was partial. */
  lemma ExactIffNoPartialRetry(calls: seq<Call>)
    ensures var s := Run(NEW, calls); s.session.accepted + s.pending == s.session.reported <==> s.session.partials == 0
  {
    RunKeepsValid(NEW, calls);
  }

  /** A connected adapter whose first write was blocked. */
  function Waiting(data: seq<Byte>): State {
    State(SslConnected, true, false, false, data, Session(data, [], data, 0, 0), false, 0)
  }

  lemma BlockedSend(data: seq<Byte>)
    requires data != []
    ensures Sent(Started(NEW, true, Completes(true)), data, WroteAll, WantWrite).1 == Waiting(data)
  {
    assert [] + data == data;
  }

  /** A partial retry: the first byte goes out twice. */
  lemma PartialRetryRepeats(data: seq<Byte>)
    requires |data| > 1
    ensures var s := Sent(Started(NEW, true, Completes(true)), data, WroteAll, WantWrite).1;
            var t := Next(Next(s, OnWriteEvent(Wants, [], WroteSome(1))), OnWriteEvent(Wants, [], WroteAll));
            t.session.reported == data && t.session.accepted == [data[0]] + data && t.pending == []
  {
    BlockedSend(data);
    var p := Retried(Waiting(data), WroteSome(1));
    assert p.session.accepted == [data[0]] by { assert [] + data[..1] == [data[0]]; }
    assert p.pending == data && p.session.reported == data;
    assert data[..|data|] == data;
  }

  // ---- Wake-ups ----

  /** A read that waits for a write is taken up again by the next write event, and a write that waits for a
      read by the next read event; a write that waits for a write is not. */
  lemma WaitersWake(s: State, h: Handshake, during: seq<Call>, retry: Written, data: seq<Byte>)
    requires s.state == SslConnected && s.pending == [] && data != []
    ensures var t := AfterRecv(s, 1, ReadWantsWrite);
            Run(t, during).pending == [] ==> Next(t, OnWriteEvent(h, during, retry)) == Run(t, during)
    ensures var t := Sent(s, data, retry, WantRead).1;
            Next(t, OnReadEvent(h, during)) == Run(t, during)
    ensures var t := Sent(s, data, retry, WantWrite).1;
            Next(t, OnReadEvent(h, during)) == t
  {
  }

  /** The engine takes whole buffers or nothing. */
  predicate Whole(c: Call)
    decreases c, 0
  {
    match c
    case OnReadEvent(_, during) => AllWhole(during)
    case OnWriteEvent(_, during, retry) => !retry.WroteSome? && AllWhole(during)
    case Send(_, retry, o) => !retry.WroteSome? && !o.WroteSome?
    case _ => true
  }

  predicate AllWhole(calls: seq<Call>)
    decreases calls, 0
  {
    calls == [] || (Whole(calls[0]) && AllWhole(calls[1..]))
  }

  lemma {:induction false} WholeNextIsExact(s: State, c: Call)
    requires Valid(s) && s.session.partials == 0 && Whole(c)
    ensures Next(s, c).session.partials == 0
    decreases c, 0
  {
    match c
    case OnReadEvent(h, during) => if s.state == SslConnected { WholeRunIsExact(s, during); }
    case OnWriteEvent(h, during, retry) => if s.state == SslConnected { WholeRunIsExact(s, during); }
    case _ =>
  }

  /** With such an engine, nothing reported is lost, repeated or reordered. */
  lemma {:induction false} WholeRunIsExact(s: State, calls: seq<Call>)
    requires Valid(s) && s.session.partials == 0 && AllWhole(calls)
    ensures Run(s, calls).session.partials == 0
    ensures var t := Run(s, calls); t.session.accepted + t.pending == t.session.reported
    decreases calls, 0
  {
    RunKeepsValid(s, calls);
    if calls != [] {
      NextKeepsValid(s, calls[0]);
      WholeNextIsExact(s, calls[0]);
      WholeRunIsExact(Next(s, calls[0]), calls[1..]);
    }
  }

  /** What Send returns is what it reports: a prefix of the data, or nothing. */
  lemma {:induction false} SendReportsPrefix(s: State, data: seq<Byte>, retry: Written, o: Written)
    ensures var (n, t) := Sent(s, data, retry, o);
            -1 <= n <= |data| && t.session.reported == s.session.reported + if n > 0 then data[..n] else []
    ensures s.pending != [] && Sent(s, data, retry, o).0 >= 0 ==> retry.WroteAll? || retry.WroteSome?
  {
    assert s.session.reported + [] == s.session.reported;
    if s.state == SslConnected {
      if s.pending == [] {
        FreshReportsPrefix(s, data, o);
      } else {
        var t := Retried(s, retry);
        assert t.session.reported == s.session.reported;
        if t.pending == [] { FreshReportsPrefix(t, data, o); }
      }
    }
  }

  lemma FreshReportsPrefix(s: State, data: seq<Byte>, o: Written)
    ensures var (n, t) := SentFresh(s, data, o);
            -1 <= n <= |data| && t.session.reported == s.session.reported + if n > 0 then data[..n] else []
  {
    assert s.session.reported + [] == s.session.reported;
    assert data[..|data|] == data;
  }

  // ---- No data without a good handshake ----

  predicate Good(h: Handshake) {
    h == Completes(true)
  }

  /** No handshake step of the call completes with a certificate that passes the check. */
  predicate Ungood(c: Call)
    decreases c, 0
  {
    match c
    case StartSSL(_, h) => !Good(h)
    case OnConnectEvent(h) => !Good(h)
    case OnReadEvent(h, during) => !Good(h) && AllUngood(during)
    case OnWriteEvent(h, during, _) => !Good(h) && AllUngood(during)
    case _ => true
  }

  predicate AllUngood(calls: seq<Call>)
    decreases calls, 0
  {
    calls == [] || (Ungood(calls[0]) && AllUngood(calls[1..]))
  }

  /** Nothing was offered to the engine, and nothing is kept for it. */
  predicate Silent(s: State) {
    s.state != SslConnected && s.session.accepted == s.session.reported == s.session.blocked == [] && s.pending == []
  }

  /** Without a handshake that completes with a good certificate no call reaches the connected state, and no
      byte reaches the engine, however handlers are nested. */
  lemma {:induction false} SilentUntilVerified(s: State, calls: seq<Call>)
    requires Silent(s) && AllUngood(calls)
    ensures Silent(Run(s, calls)) && Silent(NEW)
    decreases calls
  {
    if calls != [] {
      assert Silent(Next(s, calls[0]));
      SilentUntilVerified(Next(s, calls[0]), calls[1..]);
    }
  }

  /** A handshake that completes with a bad certificate leaves no engine and no connection; one with a good
      certificate connects. */
  lemma CertificateDecides(s: State, good: bool)
    ensures s.state == SslNone ==>
              var t := Next(s, StartSSL(true, Completes(good)));
              if good then t.state == SslConnected && t.ssl else t.state == SslError && !t.ssl && t.pending == []
    ensures s.state == SslWait ==>
              var t := Next(s, OnConnectEvent(Completes(good)));
              if good then t.state == SslConnected && t.ssl else t.state == SslNone && !t.ssl && t.pending == []
    ensures s.state == SslConnecting ==>
              var t := Next(s, OnReadEvent(Completes(good), []));
              if good then t.state == SslConnected else t.state == SslError && !t.ssl && t.pending == []
  {
  }

  // ---- Writes after a fatal error ----

  /** The event is not one whose read handlers end in a fatal error with data pending: nothing checks
      the state between those handlers and the retry. */
  predicate Stops(s: State, c: Call)
    decreases c, 0
  {
    && (c.OnReadEvent? && s.state == SslConnected && s.writeNeedsRead ==> AllStop(s, c.during))
    && (c.OnWriteEvent? && s.state == SslConnected && s.readNeedsWrite ==>
      AllStop(s, c.during) && (Run(s, c.during).state == SslError ==> Run(s, c.during).pending == []))
  }

  predicate AllStop(s: State, calls: seq<Call>)
    decreases calls, 0
  {
    calls == [] || (Stops(s, calls[0]) && AllStop(Next(s, calls[0]), calls[1..]))
  }

  /** The engine is written to after a fatal error exactly if some event, nested ones included, is such an event. */
  lemma {:induction false} StoppedIffGuarded(s: State, calls: seq<Call>)
    requires Valid(s)
    ensures Run(s, calls).writesAfterError >= s.writesAfterError
    ensures Run(s, calls).writesAfterError == s.writesAfterError <==> AllStop(s, calls)
    decreases calls, 0
  {
    if calls != [] {
      NextKeepsValid(s, calls[0]);
      NextStopsIffGuarded(s, calls[0]);
      StoppedIffGuarded(Next(s, calls[0]), calls[1..]);
    }
  }

  lemma {:induction false} NextStopsIffGuarded(s: State, c: Call)
    requires Valid(s)
    ensures Next(s, c).writesAfterError >= s.writesAfterError
    ensures Next(s, c).writesAfterError == s.writesAfterError <==> Stops(s, c)
    decreases c, 0
  {
    match c
    case OnReadEvent(h, during) =>
      if s.state == SslConnected && s.writeNeedsRead { StoppedIffGuarded(s, during); }
    case OnWriteEvent(h, during, retry) =>
      if s.state == SslConnected && s.readNeedsWrite { StoppedIffGuarded(s, during); }
    case Send(data, retry, o) => SendStopsAtError(s, data, retry, o);
    case _ =>
  }

  lemma SendStopsAtError(s: State, data: seq<Byte>, retry: Written, o: Written)
    ensures Sent(s, data, retry, o).1.writesAfterError == s.writesAfterError
  {
    if s.state == SslConnected && s.pending != [] {
      var t := Retried(s, retry);
      assert t.writesAfterError == s.writesAfterError;
      assert t.pending == [] ==> t.state == SslConnected;
    }
  }

  /** A read handler that meets a fatal error does not stop the retry behind it. */
  lemma HandlerErrorThenRetry(data: seq<Byte>)
    requires data != []
    ensures var s := Sent(Started(NEW, true, Completes(true)), data, WroteAll, WantWrite).1;
            var t := AfterRecv(s, 1, ReadWantsWrite);
            Next(t, OnWriteEvent(Wants, [Recv(1, ReadFatal)], WroteAll)).writesAfterError == 1
  {
    var s := Sent(Started(NEW, true, Completes(true)), data, WroteAll, WantWrite).1;
    var t := AfterRecv(s, 1, ReadWantsWrite);
    var script := [Recv(1, ReadFatal)];
    assert script[1..] == [] && Run(t, script) == Next(t, script[0]);
  }
}
