/** OpenSSLStreamAdapter: a handshake over a stream, and the check of the peer's certificate. */
module SslStreamAdapters {
  import opened Buffers
  import opened Wrappers

  datatype SslState = SslNone | SslWait | SslConnecting | SslConnected | SslError | SslClosed

  datatype Algorithm = Md5 | Sha1 | Sha224 | Sha256 | Sha384 | Sha512 | UnknownAlgorithm

  datatype Digest = Digest(algorithm: Algorithm, value: seq<Byte>)

  /** A certificate, by the digests that can be computed of it. */
  datatype Cert = Cert(digests: map<Algorithm, seq<Byte>>)

  type Chain = seq<Cert>

  /** What happened at the engine and the stream: clear-text reads and writes, engine reads and writes
      of application data, those of them without a matching certificate, and uses of a dead engine;
      and the chains the peer presented. */
  datatype Audit = Audit(clearOps: nat, appOps: nat, unmatchedOps: nat, deadOps: nat, presented: seq<Chain>)

  /** refused: the engine has given the handshake up. */
  datatype State = State(
    state: SslState, ssl: bool, refused: bool, timer: bool, clientAuth: bool, verified: bool,
    chain: Option<Chain>, digest: Option<Digest>,
    readNeedsWrite: bool, writeNeedsRead: bool, audit: Audit)

  function New(clientAuth: bool): State {
    State(SslNone, false, false, false, clientAuth, false, None, None, false, false, Audit(0, 0, 0, 0, []))
  }

  // ---- What the engine and the handlers do, chosen by the environment ----

  datatype HandshakeResult = Completes | WantsRead(timeout: bool) | WantsWrite | Fails

  /** A handshake step: the engine may present a certificate chain on the way, and the handler of the
      event that the step may signal, before it returns, runs a script of calls. */
  datatype Handshake = Handshake(presented: Option<Chain>, result: HandshakeResult, script: seq<Call>)

  /** Read: flush lists how much each read of a flush gives, 0 for an error. */
  datatype Transfer = Done(left: nat, flush: seq<nat>) | WantRead | WantWrite | ZeroReturn | Failure

  datatype Call =
    | StartSSL(open: bool, setup: bool, h: Handshake)
    | OnEvent(open: bool, readWrite: bool, close: bool, setup: bool, first: Handshake, second: Handshake)
    | OnTimeout(h: Handshake)
    | SetPeerCertificateDigest(digest: Digest)
    | Read(length: nat, t: Transfer)
    | Write(length: nat, t: Transfer)
    | Close

  // ---- The operations as functions ----

  function DigestSize(a: Algorithm): nat {
    match a
    case Md5 => 16
    case Sha1 => 20
    case Sha224 => 28
    case Sha256 => 32
    case Sha384 => 48
    case Sha512 => 64
    case UnknownAlgorithm => 0
  }

  predicate Matches(chain: Chain, d: Digest) {
    chain != [] && d.algorithm in chain[0].digests && chain[0].digests[d.algorithm] == d.value
  }

  predicate Waiting(s: State) {
    s.clientAuth && !s.verified
  }

  function CleanedUp(s: State): State {
    s.(state := if s.state == SslError then SslError else SslClosed, ssl := false, chain := None, timer := false)
  }

  function Failed(s: State): State {
    CleanedUp(s.(state := SslError))
  }

  /** VerifyPeerCertificate. */
  function Verified(s: State): (bool, State) {
    if s.digest.Some? && s.chain.Some? && Matches(s.chain.value, s.digest.value) then (true, s.(verified := true))
        else (false, s)
  }

  /** The engine's callback: without a digest yet, the chain is kept for later and accepted for now. */
  function Presented(s: State, chain: Chain): (bool, State) {
    var t := s.(chain := Some(chain), audit := s.audit.(presented := s.audit.presented + [chain]));
    if s.digest == None then (true, t) else Verified(t)
  }

  function Heard(s: State, presented: Option<Chain>): (bool, State) {
    match presented
    case None => (true, s)
    case Some(chain) => Presented(s, chain)
  }

  /** The step begins: the timer is cleared, and the engine is used. */
  function Entered(s: State): State {
    s.(timer := false, audit := s.audit.(deadOps := s.audit.deadOps + if s.ssl then 0 else 1))
  }

  function Settled(s: State, result: HandshakeResult): State {
    match result
    case Completes => s.(state := SslConnected)
    case WantsRead(timeout) => s.(timer := timeout)
    case WantsWrite => s
    case Fails => s.(refused := true)
  }

  /** The engine takes part only if it is alive. A refused certificate fails the step, and a failed
      handshake never completes. */
  function Negotiated(s: State, h: Handshake): (HandshakeResult, State) {
    var (accepted, t) := Heard(Entered(s), h.presented);
    var result := if s.refused || !accepted then Fails else h.result;
    (result, Settled(t, result))
  }

  /** ContinueSSL: whether it succeeded, and the state after the handlers it signals. */
  function Continued(s: State, h: Handshake): (bool, State)
    decreases h, 0
  {
    var (result, t) := Negotiated(s, h);
    match result
    case Completes => (true, if Waiting(t) then t else Run(t, h.script))
    case Fails => (false, Run(t, h.script))
    case _ => (true, t)
  }

  function Begun(s: State, setup: bool, h: Handshake): (bool, State)
    decreases h, 1
  {
    if !setup then (false, s) else Continued(s.(ssl := true), h)
  }

  function Started(s: State, open: bool, setup: bool, h: Handshake): State
    decreases h, 2
  {
    if s.state != SslNone then s
    else if !open then s.(state := SslWait)
    else OrFailed(Begun(s.(state := SslConnecting), setup, h)).1
  }

  function OrFailed(r: (bool, State)): (bool, State) {
    if r.0 then r else (false, Failed(r.1))
  }

  function DigestSet(s: State, d: Digest): State {
    if DigestSize(d.algorithm) == 0 || DigestSize(d.algorithm) != |d.value| then s
    else
      var t := s.(digest := Some(d));
      if s.chain == None then t
      else
        var (ok, u) := Verified(t);
        if ok then u else Failed(u)
  }

  /** An engine read or write of application data. */
  function Used(s: State): State {
    var matched := s.digest.Some? && s.chain.Some? && Matches(s.chain.value, s.digest.value);
    s.(audit := s.audit.(appOps := s.audit.appOps + 1,
                         unmatchedOps := s.audit.unmatchedOps + (if s.clientAuth && !matched then 1 else 0),
                         deadOps := s.audit.deadOps + if s.ssl then 0 else 1))
  }

  function Cleared(s: State): State {
    s.(audit := s.audit.(clearOps := s.audit.clearOps + 1))
  }

  /** FlushInput: reads of at most 2048 bytes until nothing is left, or an error. */
  function Flushed(s: State, left: nat, codes: seq<nat>): State
    decreases left
  {
    if left == 0 then s
    else
      var most := if 2048 < left then 2048 else left;
      var t := Used(s);
      if codes == [] then Flushed(t, left - most, [])
      else if codes[0] == 0 then Failed(t)
      else Flushed(t, left - (if codes[0] < most then codes[0] else most), codes[1..])
  }

  function ReadFrom(s: State, length: nat, r: Transfer): State {
    if s.state == SslNone then Cleared(s)
    else if s.state != SslConnected || Waiting(s) || length == 0 then s
    else
      var t := Used(s).(readNeedsWrite := r == WantWrite);
      match r
      case Done(left, flush) => Flushed(t, left, flush)
      case ZeroReturn => CleanedUp(t)
      case Failure => Failed(t)
      case _ => t
  }

  function WrittenTo(s: State, length: nat, r: Transfer): State {
    if s.state == SslNone then Cleared(s)
    else if s.state != SslConnected || Waiting(s) || length == 0 then s
    else
      var t := Used(s).(writeNeedsRead := r == WantRead);
      if r == ZeroReturn || r == Failure then Failed(t) else t
  }

  /** OnEvent, part by part; a failed handshake ends it. */
  function Opened(s: State, setup: bool, h: Handshake): (bool, State)
    decreases h, 2
  {
    if s.state != SslWait then (true, s) else OrFailed(Begun(s.(state := SslConnecting), setup, h))
  }

  function Ready(s: State, h: Handshake): (bool, State)
    decreases h, 1
  {
    if s.state != SslConnecting then (true, s) else OrFailed(Continued(s, h))
  }

  /** A call the assertions forbid is left out: a timeout without a timer, a second digest. */
  function Next(s: State, c: Call): State
    decreases c, 0
  {
    match c
    case StartSSL(open, setup, h) => Started(s, open, setup, h)
    case OnEvent(open, readWrite, close, setup, first, second) =>
      var (proceed, t) := if open then Opened(s, setup, first) else (true, s);
      if !proceed then t
      else
        var (ready, u) := if readWrite then Ready(t, second) else (true, t);
        if ready && close then CleanedUp(u) else u
    case OnTimeout(h) => if s.timer then Continued(s.(timer := false), h).1 else s
    case SetPeerCertificateDigest(d) => if s.verified || s.digest.Some? then s else DigestSet(s, d)
    case Read(length, r) => ReadFrom(s, length, r)
    case Write(length, r) => WrittenTo(s, length, r)
    case Close => CleanedUp(s)
  }

  function Run(s: State, calls: seq<Call>): State
    decreases calls, 0
  {
    if calls == [] then s else Run(Next(s, calls[0]), calls[1..])
  }

  // ---- What every run keeps ----

  ghost predicate Valid(s: State) {
    && (s.ssl <==> s.state in {SslConnecting, SslConnected})
    && (s.timer ==> s.state == SslConnecting)
    && Trusted(s)
  }

  /** The part that does not depend on the handshake state: no engine operation without a matching
      certificate or on a dead engine; a verified certificate was presented and matches. */
  ghost predicate Trusted(s: State) {
    && s.audit.deadOps == 0 && s.audit.unmatchedOps == 0
    && (s.chain.Some? ==> s.ssl && s.chain.value in s.audit.presented)
    && (s.verified ==> s.digest.Some? && Vouched(s.audit.presented, s.digest.value))
    && (s.verified && s.ssl ==> s.chain.Some?)
    && (s.state == SslConnected ==> !s.refused)
    && (s.digest.Some? && s.chain.Some? && !s.refused ==> s.verified && Matches(s.chain.value, s.digest.value))
    && (s.state in {SslNone, SslWait} ==> !s.verified)
    && (s.clientAuth && s.audit.appOps > 0 ==> s.verified)
  }

  function Rank(state: SslState): nat {
    match state
    case SslNone => 0
    case SslWait => 1
    case SslConnecting => 2
    case SslConnected => 3
    case SslError => 4
    case SslClosed => 4
  }

  /** The state only moves on; clear text ends when SslNone is left, application data at the end. */
  predicate Forward(s: State, t: State) {
    && Rank(s.state) <= Rank(t.state) && t.clientAuth == s.clientAuth
    && (s.state != SslNone ==> t.audit.clearOps == s.audit.clearOps)
    && (Rank(s.state) == 4 ==> t.audit.appOps == s.audit.appOps)
  }

  ghost predicate Vouched(presented: seq<Chain>, d: Digest) {
    exists c :: c in presented && Matches(c, d)
  }

  lemma CleanupKeepsValid(s: State)
    requires Trusted(s)
    ensures Valid(CleanedUp(s)) && Valid(Failed(s))
    ensures Forward(s, CleanedUp(s)) && Forward(s, Failed(s))
  {
  }

  lemma VouchedMore(presented: seq<Chain>, chain: Chain, d: Digest)
    ensures Vouched(presented, d) ==> Vouched(presented + [chain], d)
    ensures Matches(chain, d) ==> Vouched(presented + [chain], d)
  {
    assert chain in presented + [chain];
    if Vouched(presented, d) {
      var c :| c in presented && Matches(c, d);
      assert c in presented + [chain];
    }
  }

  lemma HeardKeeps(s: State, presented: Option<Chain>)
    requires Trusted(s) && s.ssl && s.state == SslConnecting
    ensures var (ok, t) := Heard(s, presented);
            t.ssl && t.timer == s.timer && t.audit.clearOps == s.audit.clearOps && t.state == s.state
            && t.refused == s.refused
            && (ok ==> Trusted(t)) && Trusted(t.(refused := true))
  {
    if presented.Some? && s.digest.Some? { VouchedMore(s.audit.presented, presented.value, s.digest.value); }
  }

  lemma {:induction false} NegotiatedKeeps(s: State, h: Handshake)
    requires Valid(s) && s.state == SslConnecting
    ensures var (result, t) := Negotiated(s, h);
            Valid(t) && Forward(s, t) && (result == Completes ==> t.state == SslConnected)
                && (result != Completes ==> t.state == SslConnecting)
  {
    assert Trusted(Entered(s));
    HeardKeeps(Entered(s), h.presented);
  }

  lemma ContinuedKeeps(s: State, h: Handshake)
    requires Valid(s) && s.state == SslConnecting
    ensures Valid(Continued(s, h).1)
    ensures Forward(s, Continued(s, h).1)
    decreases h, 0
  {
    NegotiatedKeeps(s, h);
    RunKeepsValid(Negotiated(s, h).1, h.script);
  }

  lemma BegunKeeps(s: State, setup: bool, h: Handshake)
    requires Valid(s) && s.state in {SslNone, SslWait}
    ensures Valid(OrFailed(Begun(s.(state := SslConnecting), setup, h)).1)
    ensures Forward(s, OrFailed(Begun(s.(state := SslConnecting), setup, h)).1)
    decreases h, 1
  {
    var t := s.(state := SslConnecting);
    if setup { ContinuedKeeps(t.(ssl := true), h); }
    CleanupKeepsValid(Begun(t, setup, h).1);
  }

  lemma UsedKeeps(s: State)
    requires Valid(s) && s.state == SslConnected && !Waiting(s)
    ensures Valid(Used(s)) && !Waiting(Used(s))
    ensures Forward(s, Used(s))
  {
  }

  lemma {:induction false} FlushedKeeps(s: State, left: nat, codes: seq<nat>)
    requires Valid(s) && s.state == SslConnected && !Waiting(s)
    ensures Valid(Flushed(s, left, codes))
    ensures Forward(s, Flushed(s, left, codes))
    decreases left
  {
    if left > 0 {
      var most := if 2048 < left then 2048 else left;
      UsedKeeps(s);
      CleanupKeepsValid(Used(s));
      if codes == [] {
        FlushedKeeps(Used(s), left - most, []);
      } else if codes[0] != 0 {
        FlushedKeeps(Used(s), left - (if codes[0] < most then codes[0] else most), codes[1..]);
      }
    }
  }

  lemma ReadKeeps(s: State, length: nat, r: Transfer)
    requires Valid(s)
    ensures Valid(ReadFrom(s, length, r)) && Valid(WrittenTo(s, length, r))
    ensures Forward(s, ReadFrom(s, length, r)) && Forward(s, WrittenTo(s, length, r))
  {
    if s.state == SslConnected && !Waiting(s) {
      UsedKeeps(s);
      var t := Used(s).(readNeedsWrite := r == WantWrite);
      CleanupKeepsValid(t);
      CleanupKeepsValid(Used(s).(writeNeedsRead := r == WantRead));
      if r.Done? { FlushedKeeps(t, r.left, r.flush); }
    }
  }

  lemma DigestKeeps(s: State, d: Digest)
    requires Valid(s) && !s.verified && s.digest == None
    ensures Valid(DigestSet(s, d))
    ensures Forward(s, DigestSet(s, d))
  {
    var t := s.(digest := Some(d));
    if s.chain.Some? {
      var (ok, u) := Verified(t);
      if ok {
        assert s.chain.value in u.audit.presented;
      } else {
        assert CleanedUp(u.(state := SslError)) == CleanedUp(s.(state := SslError)).(digest := Some(d));
        CleanupKeepsValid(s);
      }
    }
  }

  lemma OpenedKeeps(s: State, setup: bool, h: Handshake)
    requires Valid(s)
    ensures Valid(Opened(s, setup, h).1)
    ensures Forward(s, Opened(s, setup, h).1)
    decreases h, 2
  {
    if s.state == SslWait { BegunKeeps(s, setup, h); }
  }

  lemma ReadyKeeps(s: State, h: Handshake)
    requires Valid(s)
    ensures Valid(Ready(s, h).1)
    ensures Forward(s, Ready(s, h).1)
    decreases h, 1
  {
    if s.state == SslConnecting {
      ContinuedKeeps(s, h);
      CleanupKeepsValid(Continued(s, h).1);
    }
  }

  /** The parts of an event, one after the other. */
  lemma EventKeeps(s: State, c: Call)
    requires Valid(s) && c.OnEvent?
    ensures Valid(Next(s, c))
    ensures Forward(s, Next(s, c))
    decreases c, 0
  {
    var (proceed, t) := if c.open then Opened(s, c.setup, c.first) else (true, s);
    assert Valid(t) && Forward(s, t) by { if c.open { OpenedKeeps(s, c.setup, c.first); } }
    var (ready, u) := if c.readWrite then Ready(t, c.second) else (true, t);
    assert Valid(u) && Forward(t, u) by { if c.readWrite { ReadyKeeps(t, c.second); } }
    CleanupKeepsValid(u);
    assert Next(s, c) == if !proceed then t else if ready && c.close then CleanedUp(u) else u;
  }

  lemma NextKeepsValid(s: State, c: Call)
    requires Valid(s)
    ensures Valid(Next(s, c))
    ensures Forward(s, Next(s, c))
    decreases c, 1
  {
    match c
    case StartSSL(open, setup, h) => if s.state == SslNone && open { BegunKeeps(s, setup, h); }
    case OnEvent(_, _, _, _, _, _) => EventKeeps(s, c);
    case OnTimeout(h) => if s.timer { ContinuedKeeps(s.(timer := false), h); }
    case SetPeerCertificateDigest(d) => if !s.verified && s.digest == None { DigestKeeps(s, d); }
    case Read(length, r) => ReadKeeps(s, length, r);
    case Write(length, r) => ReadKeeps(s, length, r);
    case Close => CleanupKeepsValid(s);
  }

  /** Every run, whatever the engine, the peer and the handlers do. */
  lemma {:induction false} RunKeepsValid(s: State, calls: seq<Call>)
    requires Valid(s)
    ensures Valid(Run(s, calls))
    ensures Forward(s, Run(s, calls))
    decreases calls, 0
  {
    if calls != [] {
      NextKeepsValid(s, calls[0]);
      RunKeepsValid(Next(s, calls[0]), calls[1..]);
    }
  }

  /** Once StartSSL has taken effect, no run returns to clear text. */
  lemma ClearTextEnds(s: State, calls: seq<Call>)
    requires Valid(s) && s.state != SslNone
    ensures Run(s, calls).state != SslNone && Run(s, calls).audit.clearOps == s.audit.clearOps
  {
    RunKeepsValid(s, calls);
  }

  /** With client authentication, application data meets the engine only after a certificate that the
      peer presented matched the digest; the timer runs only while connecting, with a live engine. */
  lemma DataOnlyAfterMatch(clientAuth: bool, calls: seq<Call>)
    ensures var s := Run(New(clientAuth), calls);
            && s.audit.unmatchedOps == 0 && s.audit.deadOps == 0
            && (s.timer ==> s.state == SslConnecting && s.ssl)
            && (s.state == SslConnected && s.verified ==>
                  s.digest.Some? && s.chain.Some? && Matches(s.chain.value, s.digest.value))
            && (s.verified ==> s.digest.Some? && Vouched(s.audit.presented, s.digest.value))
  {
    RunKeepsValid(New(clientAuth), calls);
  }

  /** The same without any name for a match: once application data has met the engine, the first certificate of
      some chain that the peer presented has exactly the digest that was set. */
  lemma DataHasDigest(calls: seq<Call>)
    requires Run(New(true), calls).audit.appOps > 0
    ensures var s := Run(New(true), calls);
            && s.digest.Some?
            && var d := s.digest.value;
               exists c: Chain :: c in s.audit.presented && c != [] && d.algorithm in c[0].digests
                                  && c[0].digests[d.algorithm] == d.value
  {
    RunKeepsValid(New(true), calls);
    var s := Run(New(true), calls);
    var c: Chain :| c in s.audit.presented && Matches(c, s.digest.value);
    assert c in s.audit.presented && c[0].digests[s.digest.value.algorithm] == s.digest.value.value;
  }

  /** A digest that does not match the certificate already presented ends the connection. */
  lemma WrongDigestEnds(s: State, d: Digest)
    requires Valid(s) && s.chain.Some? && !s.verified && s.digest == None
    requires DigestSize(d.algorithm) == |d.value| > 0
    ensures var c := s.chain.value;
            var match' := c != [] && d.algorithm in c[0].digests && c[0].digests[d.algorithm] == d.value;
            && DigestSet(s, d).state == (if match' then s.state else SslError)
            && (DigestSet(s, d).verified <==> match')
  {
  }

  /** The lengths, in bytes, that a digest may have. */
  predicate LengthOk(d: Digest) {
    match d.algorithm
    case Md5 => |d.value| == 16
    case Sha1 => |d.value| == 20
    case Sha224 => |d.value| == 28
    case Sha256 => |d.value| == 32
    case Sha384 => |d.value| == 48
    case Sha512 => |d.value| == 64
    case UnknownAlgorithm => false
  }

  /** A digest of a wrong length, or of an unknown algorithm, changes nothing. */
  lemma LengthDecides(s: State, d: Digest)
    requires !s.verified && s.digest == None
    ensures if LengthOk(d) then DigestSet(s, d).digest == Some(d) else DigestSet(s, d) == s
  {
  }

  function PeerPresents(chain: Chain): Call {
    StartSSL(true, true, Handshake(Some(chain), Completes, []))
  }

  /** A handshake with a peer that presents a chain, a digest set afterwards, and a write: the write reaches the
      engine if the first certificate of the chain has the digest, and otherwise the adapter is in error. Without
      a digest, only an adapter that does not ask for one writes. */
  lemma LateDigestDecides(clientAuth: bool, chain: Chain, d: Digest, length: nat)
    requires LengthOk(d) && length > 0
    ensures var match' := chain != [] && d.algorithm in chain[0].digests && chain[0].digests[d.algorithm] == d.value;
            var s, write := Next(New(clientAuth), PeerPresents(chain)), Write(length, WantRead);
            var t := Next(Next(s, SetPeerCertificateDigest(d)), write);
            && t.state == (if match' then SslConnected else SslError) && t.audit.appOps == (if match' then 1 else 0)
            && Next(s, write).state == SslConnected && Next(s, write).audit.appOps == if clientAuth then 0 else 1
  {
    CompletesAtOnce(New(clientAuth), chain);
  }

  /** The same with the digest set first. */
  lemma EarlyDigestDecides(clientAuth: bool, chain: Chain, d: Digest, length: nat)
    requires LengthOk(d) && length > 0
    ensures var match' := chain != [] && d.algorithm in chain[0].digests && chain[0].digests[d.algorithm] == d.value;
            var s := Next(New(clientAuth), SetPeerCertificateDigest(d));
            var t := Next(Next(s, PeerPresents(chain)), Write(length, WantRead));
            t.state == (if match' then SslConnected else SslError) && t.audit.appOps == if match' then 1 else 0
  {
    CompletesAtOnce(New(clientAuth).(digest := Some(d)), chain);
  }

  /** A handshake that presents a chain and completes in one step. */
  lemma CompletesAtOnce(s: State, chain: Chain)
    requires s.state == SslNone && !s.refused
    ensures var (ok, t) := Presented(Entered(s.(state := SslConnecting, ssl := true)), chain);
            Next(s, PeerPresents(chain)) == if ok then t.(state := SslConnected) else Failed(t.(refused := true))
  {
    var h, begun := Handshake(Some(chain), Completes, []), s.(state := SslConnecting, ssl := true);
    assert Run(Negotiated(begun, h).1, h.script) == Negotiated(begun, h).1;
    assert Begun(s.(state := SslConnecting), true, h) == Continued(begun, h);
    assert Started(s, true, true, h) == OrFailed(Continued(begun, h)).1;
  }

  // ---- The class ----

  class OpenSSLStreamAdapter {
    var state: SslState
    var ssl: bool
    var refused: bool
    var timer: bool
    const clientAuth: bool
    var verified: bool
    var chain: Option<Chain>
    var digest: Option<Digest>
    var readNeedsWrite: bool
    var writeNeedsRead: bool
    ghost var audit: Audit

    ghost function View(): State
      reads this
    {
      State(state, ssl, refused, timer, clientAuth, verified, chain, digest, readNeedsWrite, writeNeedsRead, audit)
    }

    constructor (clientAuth: bool)
      ensures View() == New(clientAuth)
    {
      this.clientAuth := clientAuth;
      state, ssl, refused, timer, verified, chain, digest := SslNone, false, false, false, false, None, None;
      readNeedsWrite, writeNeedsRead := false, false;
      audit := Audit(0, 0, 0, 0, []);
    }

    predicate WaitingToVerifyPeerCertificate()
      reads this
    {
      clientAuth && !verified
    }

    method Cleanup()
      modifies this
      ensures View() == CleanedUp(old(View()))
    {
      if state != SslError {
        state := SslClosed;
      }
      ssl, chain, timer := false, None, false;
    }

    method Error()
      modifies this
      ensures View() == Failed(old(View()))
    {
      state := SslError;
      Cleanup();
    }

    method VerifyPeerCertificate() returns (ok: bool)
      modifies this
      ensures (ok, View()) == Verified(old(View()))
    {
      if digest == None || chain == None || !Matches(chain.value, digest.value) {
        return false;
      }
      verified := true;
      ok := true;
    }

    method SSLVerifyCallback(presented: Chain) returns (ok: bool)
      modifies this
      ensures (ok, View()) == Presented(old(View()), presented)
    {
      chain := Some(presented);
      audit := audit.(presented := audit.presented + [presented]);
      if digest == None {
        return true;
      }
      ok := VerifyPeerCertificate();
    }

    /** SSL_connect or SSL_accept. */
    method Negotiate(h: Handshake) returns (result: HandshakeResult)
      modifies this
      ensures (result, View()) == Negotiated(old(View()), h)
    {
      Enter();
      var accepted := true;
      if h.presented.Some? {
        accepted := SSLVerifyCallback(h.presented.value);
      }
      result := if refused || !accepted then Fails else h.result;
      Settle(result);
    }

    method Enter()
      modifies this
      ensures View() == Entered(old(View()))
    {
      timer := false;
      audit := audit.(deadOps := audit.deadOps + if ssl then 0 else 1);
    }

    method Settle(result: HandshakeResult)
      modifies this
      ensures View() == Settled(old(View()), result)
    {
      match result {
        case Completes => state := SslConnected;
        case WantsRead(timeout) => timer := timeout;
        case WantsWrite =>
        case Fails => refused := true;
      }
    }

    method ContinueSSL(h: Handshake) returns (ok: bool)
      requires Valid(View()) && state == SslConnecting
      modifies this
      ensures (ok, View()) == Continued(old(View()), h)
      decreases h, 0
    {
      NegotiatedKeeps(View(), h);
      var result := Negotiate(h);
      ok := result != Fails;
      if result == Fails || (result == Completes && !WaitingToVerifyPeerCertificate()) {
        Handle(h.script);
      }
    }

    method BeginSSL(setup: bool, h: Handshake) returns (ok: bool)
      requires Valid(View().(ssl := true)) && state == SslConnecting
      modifies this
      ensures (ok, View()) == Begun(old(View()), setup, h)
      decreases h, 1
    {
      if !setup {
        return false;
      }
      ssl := true;
      ok := ContinueSSL(h);
    }

    method StartSSL(open: bool, setup: bool, h: Handshake)
      requires Valid(View())
      modifies this
      ensures View() == Started(old(View()), open, setup, h)
      decreases Call.StartSSL(open, setup, h), 0
    {
      if state != SslNone {
        return;
      }
      if !open {
        state := SslWait;
        return;
      }
      state := SslConnecting;
      var ok := BeginSSL(setup, h);
      if !ok {
        Error();
      }
    }

    method OnOpen(setup: bool, h: Handshake) returns (ok: bool)
      requires Valid(View())
      modifies this
      ensures (ok, View()) == Opened(old(View()), setup, h)
      decreases h, 2
    {
      if state != SslWait {
        return true;
      }
      state := SslConnecting;
      ok := BeginSSL(setup, h);
      if !ok {
        Error();
      }
    }

    method OnReady(h: Handshake) returns (ok: bool)
      requires Valid(View())
      modifies this
      ensures (ok, View()) == Ready(old(View()), h)
      decreases h, 1
    {
      if state != SslConnecting {
        return true;
      }
      ok := ContinueSSL(h);
      if !ok {
        Error();
      }
    }

    method OnEvent(open: bool, readWrite: bool, close: bool, setup: bool, first: Handshake, second: Handshake)
      requires Valid(View())
      modifies this
      ensures View() == Next(old(View()), Call.OnEvent(open, readWrite, close, setup, first, second))
      decreases Call.OnEvent(open, readWrite, close, setup, first, second), 0
    {
      if open {
        OpenedKeeps(View(), setup, first);
        var ok := OnOpen(setup, first);
        if !ok {
          return;
        }
      }
      if readWrite {
        var ok := OnReady(second);
        if !ok {
          return;
        }
      }
      if close {
        Cleanup();
      }
    }

    /** The timer's task; the result of the handshake step is ignored. */
    method OnTimeout(h: Handshake)
      requires Valid(View()) && timer
      modifies this
      ensures View() == Next(old(View()), Call.OnTimeout(h))
      decreases Call.OnTimeout(h), 0
    {
      timer := false;
      var _ := ContinueSSL(h);
    }

    method SetPeerCertificateDigest(d: Digest)
      requires !verified && digest == None
      modifies this
      ensures View() == DigestSet(old(View()), d)
    {
      if DigestSize(d.algorithm) == 0 || DigestSize(d.algorithm) != |d.value| {
        return;
      }
      digest := Some(d);
      if chain == None {
        return;
      }
      var ok := VerifyPeerCertificate();
      if !ok {
        Error();
      }
    }

    ghost method PassThrough()
      modifies this`audit
      ensures View() == Cleared(old(View()))
    {
      audit := audit.(clearOps := audit.clearOps + 1);
    }

    ghost method Use()
      modifies this`audit
      ensures View() == Used(old(View()))
    {
      audit := Used(View()).audit;
    }

    method FlushInput(left: nat, codes: seq<nat>)
      modifies this
      ensures View() == Flushed(old(View()), left, codes)
    {
      var rest, i := left, 0;
      while rest > 0
        invariant i <= |codes|
        invariant Flushed(View(), rest, codes[i..]) == Flushed(old(View()), left, codes)
        decreases rest
      {
        var most := if 2048 < rest then 2048 else rest;
        Use();
        if i == |codes| {
          rest := rest - most;
        } else if codes[i] == 0 {
          Error();
          return;
        } else {
          rest := rest - if codes[i] < most then codes[i] else most;
          i := i + 1;
        }
      }
    }

    method Read(length: nat, r: Transfer)
      modifies this
      ensures View() == ReadFrom(old(View()), length, r)
    {
      if state == SslNone {
        PassThrough();
        return;
      }
      if state != SslConnected || WaitingToVerifyPeerCertificate() || length == 0 {
        return;
      }
      Use();
      readNeedsWrite := r == WantWrite;
      match r {
        case Done(left, flush) => FlushInput(left, flush);
        case WantRead =>
        case WantWrite =>
        case ZeroReturn => Cleanup();
        case Failure => Error();
      }
    }

    method Write(length: nat, r: Transfer)
      modifies this
      ensures View() == WrittenTo(old(View()), length, r)
    {
      if state == SslNone {
        PassThrough();
        return;
      }
      if state != SslConnected || WaitingToVerifyPeerCertificate() || length == 0 {
        return;
      }
      Use();
      writeNeedsRead := r == WantRead;
      if r == ZeroReturn || r == Failure {
        Error();
      }
    }

    /** Handlers run while a step of the handshake is on the stack; calls the assertions forbid are left out. */
    method Handle(calls: seq<Call>)
      requires Valid(View())
      modifies this
      ensures View() == Run(old(View()), calls)
      decreases calls, 0
    {
      if calls == [] {
        return;
      }
      NextKeepsValid(View(), calls[0]);
      match calls[0] {
        case StartSSL(open, setup, h) => StartSSL(open, setup, h);
        case OnEvent(open, readWrite, close, setup, first, second) =>
          OnEvent(open, readWrite, close, setup, first, second);
        case OnTimeout(h) => if timer { OnTimeout(h); }
        case SetPeerCertificateDigest(d) => if !verified && digest == None { SetPeerCertificateDigest(d); }
        case Read(length, r) => Read(length, r);
        case Write(length, r) => Write(length, r);
        case Close => Cleanup();
      }
      Handle(calls[1..]);
    }
  }
}
