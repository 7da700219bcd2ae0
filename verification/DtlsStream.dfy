/** The TLS/DTLS stream adapter of openssl_stream_adapter.cc: a six-state machine over a
    wrapped stream, with a peer certificate whose digest is signalled separately. Results
    of the TLS library, of the wrapped stream and of the clock are inputs; so is what the
    listener does when it is called back, which may be to call the adapter again. */
module DtlsStream {
  import opened Bytes
  import opened Wrappers

  datatype SslState = SslNone | SslWait | SslConnecting | SslConnected | SslError | SslClosed

  datatype Cert = Cert(der: seq<Byte>)
  type Chain = seq<Cert>
  datatype Digest = Digest(algorithm: string, value: seq<Byte>)

  /** What an observer of the adapter can see happen. */
  datatype Event =
    | LeftNone                                                 // clear-text operation ended
    | Cleartext                                                // a read or write passed through in clear
    | AppData(chain: Option<Chain>, digest: Option<Digest>)    // SSL_read or SSL_write on user data
    | HandshakeDone(open: bool)                                // the library reported success; open at once or not
    | DigestGiven(result: DigestResult)                        // a digest was accepted
    | LateOpen                                                 // the wrapped stream opened after StartSSL
    | Open                                                     // SE_OPEN issued by the adapter
    | RelayedOpen                                              // SE_OPEN relayed before StartSSL

  /** What becomes of a digest: kept for a certificate to come, refused, or matched, before
      the handshake is over or late. */
  datatype DigestResult = Kept | Refused | Early | Late

  /** What is counted: SE_OPEN, handshakes that end with or without it, digests that match
      late, streams that open late, and digests in all. */
  datatype Kind = Opens | Direct | Pending | LateDigest | LateStream | Digests

  predicate Is(e: Event, kind: Kind) {
    match kind
    case Opens => e.Open?
    case Direct => e == HandshakeDone(true)
    case Pending => e == HandshakeDone(false)
    case LateDigest => e == DigestGiven(Late)
    case LateStream => e.LateOpen?
    case Digests => e.DigestGiven?
  }

  function Count(log: seq<Event>, kind: Kind): nat {
    if log == [] then 0
    else if Is(log[|log| - 1], kind) then Count(log[..|log| - 1], kind) + 1
    else Count(log[..|log| - 1], kind)
  }

  lemma CountExtended(log: seq<Event>, e: Event, kind: Kind)
    ensures Count(log + [e], kind) == if Is(e, kind) then Count(log, kind) + 1 else Count(log, kind)
  {
    assert (log + [e])[..|log|] == log;
  }

  /** Callers keep their contracts: one digest, and no opening of a stream that is open. */
  predicate InContract(log: seq<Event>) {
    Count(log, Digests) <= 1 && Count(log, LateStream) == 0
  }

  predicate Shaken(log: seq<Event>) {
    HandshakeDone(true) in log || HandshakeDone(false) in log
  }

  predicate AnyDigest(log: seq<Event>) {
    DigestGiven(Kept) in log || DigestGiven(Refused) in log || DigestGiven(Early) in log || DigestGiven(Late) in log
  }

  predicate Trusted(log: seq<Event>) {
    HandshakeDone(true) in log || DigestGiven(Late) in log
  }

  lemma MembersExtended(log: seq<Event>, e: Event)
    ensures LeftNone in log + [e] <==> LeftNone in log || e.LeftNone?
    ensures Shaken(log + [e]) <==> Shaken(log) || e.HandshakeDone?
    ensures AnyDigest(log + [e]) <==> AnyDigest(log) || e.DigestGiven?
    ensures Trusted(log + [e]) <==> Trusted(log) || e == HandshakeDone(true) || e == DigestGiven(Late)
  {
    assert e.HandshakeDone? ==> e == HandshakeDone(e.open);
    assert e.DigestGiven? ==> e == DigestGiven(e.result) && (e.result.Kept? || e.result.Refused? || e.result.Early? || e.result.Late?);
  }

  /** What the end of the handshake leaves in the history. */
  function HandshakeEvents(open: bool): seq<Event> {
    if open then [HandshakeDone(true), Open] else [HandshakeDone(false)]
  }

  /** What an SE_OPEN that is passed on leaves in the history. */
  function RelayEvents(early: bool): seq<Event> {
    if early then [RelayedOpen] else [LateOpen, Open]
  }

  /** What an event of the wrapped stream leaves in the history while no handshake is to be made. */
  function Traces(e: Call, state: SslState): seq<Event>
    requires e.StreamEvent?
  {
    LeavingEvents(e.close && state.SslNone?) + (if e.open then RelayEvents(state.SslNone?) else [])
  }

  /** No handshake is waiting to begin or going on. */
  predicate Settled(state: SslState) {
    !state.SslWait? && !state.SslConnecting?
  }

  /** What an accepted digest leaves in the history. */
  function DigestEvents(result: DigestResult): seq<Event> {
    if result.Late? then [DigestGiven(Late), Open] else [DigestGiven(result)]
  }

  // ----- Events passed on -----

  datatype Signals = Signals(open: bool, read: bool, write: bool, close: bool)

  // ----- Inputs -----

  /** What SSL_connect or SSL_accept reports. */
  datatype HandshakeResult = Success | WantRead(hasTimeout: bool) | WantWrite | Failure

  /** One ContinueSSL: the chains the library presents to the verify callback, its result,
      and what listeners do if they are signalled. */
  datatype Handshake = Handshake(chains: seq<Chain>, result: HandshakeResult, listener: seq<Call>)

  datatype IoResult = IoOk | IoShort(flushOk: bool) | IoWantRead | IoWantWrite | IoZeroReturn | IoFailed

  datatype Call =
    | StartSSL(streamOpen: bool, setupOk: bool, first: Handshake)
    | SetPeerCertificateDigest(accepted: bool, digest: Digest)
    | Read(length: nat, result: IoResult)
    | Write(length: nat, result: IoResult)
    | Close
    | StreamEvent(open: bool, read: bool, write: bool, close: bool, setupOk: bool,
                  first: Handshake, next: Handshake, listener: seq<Call>)
    | Timeout(retry: Handshake)
    | DeliverPosted(listener: seq<Call>)

  // ----- Causes -----

  /** How many digests a call, with all that listeners do meanwhile, may have accepted, and
      how many openings of the wrapped stream it may report. */
  function Causes(call: Call, kind: Kind): nat
    decreases call, 0
  {
    match call
    case StartSSL(_, _, first) => CausesIn(first.listener, |first.listener|, kind)
    case SetPeerCertificateDigest(accepted, _) => if accepted && kind.Digests? then 1 else 0
    case StreamEvent(open, _, _, _, _, first, next, listener) =>
      (if open && kind.LateStream? then 1 else 0)
      + (CausesIn(first.listener, |first.listener|, kind) + CausesIn(next.listener, |next.listener|, kind))
      + CausesIn(listener, |listener|, kind)
    case Timeout(retry) => CausesIn(retry.listener, |retry.listener|, kind)
    case DeliverPosted(listener) => CausesIn(listener, |listener|, kind)
    case _ => 0
  }

  /** The first n calls. */
  function CausesIn(calls: seq<Call>, n: nat, kind: Kind): nat
    requires n <= |calls|
    decreases calls, n
  {
    if n == 0 then 0 else CausesIn(calls, n - 1, kind) + Causes(calls[n - 1], kind)
  }

  function AllCauses(calls: seq<Call>, kind: Kind): nat {
    CausesIn(calls, |calls|, kind)
  }

  /** No more digests and late openings are added to the history than that. */
  predicate Within(log: seq<Event>, log': seq<Event>, digests: nat, opens: nat) {
    Count(log', Digests) <= Count(log, Digests) + digests && Count(log', LateStream) <= Count(log, LateStream) + opens
  }

  lemma NothingCounted(log: seq<Event>, e: Event)
    requires !e.DigestGiven? && !e.LateOpen?
    ensures Within(log, log + [e], 0, 0)
  {
    CountsExtended(log, e);
  }

  lemma HandshakeCounted(log: seq<Event>, open: bool)
    ensures Within(log, log + HandshakeEvents(open), 0, 0)
  {
    NothingCounted(log, HandshakeDone(open));
    if open {
      NothingCounted(log + [HandshakeDone(true)], Open);
      assert log + HandshakeEvents(open) == log + [HandshakeDone(true)] + [Open];
    }
  }

  lemma RelayCounted(log: seq<Event>, early: bool)
    ensures Within(log, log + RelayEvents(early), 0, 1)
  {
    if early {
      CountsExtended(log, RelayedOpen);
    } else {
      CountsExtended(log, LateOpen);
      CountsExtended(log + [LateOpen], Open);
      assert log + RelayEvents(early) == log + [LateOpen] + [Open];
    }
  }

  function LeavingEvents(leaves: bool): seq<Event> {
    if leaves then [LeftNone] else []
  }

  lemma CleanupCounted(log: seq<Event>, leaves: bool)
    ensures Within(log, log + LeavingEvents(leaves), 0, 0)
  {
    if leaves {
      NothingCounted(log, LeftNone);
    } else {
      assert log + [] == log;
    }
  }

  lemma DigestCounted(log: seq<Event>, result: DigestResult)
    ensures Within(log, log + DigestEvents(result), 1, 0)
  {
    CountsExtended(log, DigestGiven(result));
    if result.Late? {
      CountsExtended(log + [DigestGiven(Late)], Open);
      assert log + DigestEvents(result) == log + [DigestGiven(Late)] + [Open];
    }
  }

  lemma UserCounted(log: seq<Event>, state: SslState, waiting: bool, length: nat, chain: Option<Chain>, digest: Option<Digest>)
    ensures Within(log, log + UserEvents(state, waiting, length, chain, digest), 0, 0)
  {
    if UserEvents(state, waiting, length, chain, digest) != [] {
      NothingCounted(log, if state.SslNone? then Cleartext else AppData(chain, digest));
    } else {
      assert log + [] == log;
    }
  }

  // ----- Reads and writes -----

  datatype StreamResult = SrPassed | SrSuccess | SrBlock | SrEos | SrError

  /** Whether a read or write reaches the library. */
  predicate Flows(state: SslState, waiting: bool, length: nat) {
    state.SslConnected? && !waiting && length > 0
  }

  /** What the caller of Read or Write is told. */
  function UserResult(reading: bool, state: SslState, waiting: bool, length: nat, result: IoResult): StreamResult {
    match state
    case SslNone => SrPassed
    case SslWait => SrBlock
    case SslConnecting => SrBlock
    case SslError => SrError
    case SslClosed => if reading then SrEos else SrError
    case SslConnected =>
      if waiting then SrBlock
      else if length == 0 || result.IoOk? then SrSuccess
      else if result.IoWantRead? || result.IoWantWrite? then SrBlock
      else if result.IoZeroReturn? then (if reading then SrEos else SrError)
      else if result.IoShort? && !reading then SrSuccess
      else SrError
  }

  function UserState(reading: bool, state: SslState, waiting: bool, length: nat, result: IoResult): SslState {
    if !Flows(state, waiting, length) then state
    else
      match result
      case IoShort(flushOk) => if reading && !flushOk then SslError else state
      case IoZeroReturn => if reading then SslClosed else SslError
      case IoFailed => SslError
      case _ => state
  }

  function UserEvents(state: SslState, waiting: bool, length: nat, chain: Option<Chain>, digest: Option<Digest>): seq<Event> {
    if state.SslNone? then [Cleartext]
    else if Flows(state, waiting, length) then [AppData(chain, digest)]
    else []
  }

  // ----- Properties of histories -----

  /** VerifyPeerCertificate's comparison. */
  ghost predicate Matches(digestOf: (string, Cert) -> Option<seq<Byte>>, chain: Option<Chain>, digest: Option<Digest>) {
    chain.Some? && digest.Some? && |chain.value| > 0 && digestOf(digest.value.algorithm, chain.value[0]) == Some(digest.value.value)
  }

  ghost predicate RefusesSome(digestOf: (string, Cert) -> Option<seq<Byte>>, digest: Option<Digest>, chains: seq<Chain>) {
    digest.Some? && exists i :: 0 <= i < |chains| && !Matches(digestOf, Some(chains[i]), digest)
  }

  ghost predicate SafeAt(log: seq<Event>, i: nat, auth: bool, digestOf: (string, Cert) -> Option<seq<Byte>>)
    requires i < |log|
  {
    && (log[i].Cleartext? ==> LeftNone !in log[..i])
    && (log[i].AppData? ==> Shaken(log[..i]) && (auth ==> Matches(digestOf, log[i].chain, log[i].digest)))
  }

  /** Nothing passes in clear once the adapter has left SSL_NONE, and user data goes to the
      library only after the handshake and, with client authentication, only while the
      recorded peer certificate has the signalled digest. */
  ghost predicate Safe(log: seq<Event>, auth: bool, digestOf: (string, Cert) -> Option<seq<Byte>>) {
    forall i :: 0 <= i < |log| ==> SafeAt(log, i, auth, digestOf)
  }

  lemma SafeExtended(log: seq<Event>, e: Event, auth: bool, digestOf: (string, Cert) -> Option<seq<Byte>>)
    requires Safe(log, auth, digestOf)
    requires e.Cleartext? ==> LeftNone !in log
    requires e.AppData? ==> Shaken(log) && (auth ==> Matches(digestOf, e.chain, e.digest))
    ensures Safe(log + [e], auth, digestOf)
  {
    forall i | 0 <= i < |log + [e]|
      ensures SafeAt(log + [e], i, auth, digestOf)
    {
      if i < |log| {
        assert SafeAt(log, i, auth, digestOf);
        assert (log + [e])[..i] == log[..i];
      } else {
        assert (log + [e])[..i] == log;
      }
    }
  }

  predicate Dead(state: SslState) {
    state.SslError? || state.SslClosed?
  }

  /** What any stretch of execution respects: history is kept, clear text never comes
      back, and a torn-down adapter stays torn down. */
  ghost predicate Later(state: SslState, log: seq<Event>, state': SslState, log': seq<Event>) {
    log <= log' && (!state.SslNone? ==> !state'.SslNone?) && (Dead(state) ==> Dead(state'))
  }

  // ----- When SE_OPEN is issued -----

  /** What SE_OPEN is issued for: a handshake with a trusted peer, a matching digest after the
      handshake, or a stream that opens late. */
  predicate Opening(e: Event) {
    e == HandshakeDone(true) || e == DigestGiven(Late) || e.LateOpen?
  }

  ghost predicate OrderlyAt(log: seq<Event>, i: nat, auth: bool)
    requires i < |log|
  {
    && (log[i].Open? ==> i > 0 && Opening(log[i - 1]))
    && (Opening(log[i]) ==> i + 1 < |log| && log[i + 1].Open?)
    && (log[i].HandshakeDone? ==> !Shaken(log[..i]) && if auth then log[i].open ==> AnyDigest(log[..i]) else log[i].open)
    && (log[i] == DigestGiven(Late) ==> Shaken(log[..i]))
  }

  /** SE_OPEN follows its cause and nothing else, and there is one handshake at most. */
  ghost predicate Orderly(log: seq<Event>, auth: bool) {
    forall i :: 0 <= i < |log| ==> OrderlyAt(log, i, auth)
  }

  lemma OrderlyExtended(log: seq<Event>, e: Event, auth: bool)
    requires Orderly(log, auth) && !e.Open? && !Opening(e) && (e.HandshakeDone? ==> !Shaken(log) && auth)
    ensures Orderly(log + [e], auth)
  {
    forall i | 0 <= i < |log + [e]|
      ensures OrderlyAt(log + [e], i, auth)
    {
      if i < |log| {
        assert OrderlyAt(log, i, auth);
        assert (log + [e])[..i] == log[..i];
      }
    }
  }

  lemma OrderlyOpened(log: seq<Event>, e: Event, auth: bool)
    requires Orderly(log, auth) && Opening(e) && (e == DigestGiven(Late) ==> Shaken(log))
    requires e.HandshakeDone? ==> !Shaken(log) && (auth ==> AnyDigest(log))
    ensures Orderly(log + [e, Open], auth)
  {
    var log' := log + [e, Open];
    forall i | 0 <= i < |log'|
      ensures OrderlyAt(log', i, auth)
    {
      if i < |log| {
        assert OrderlyAt(log, i, auth);
      }
      if i <= |log| {
        assert log'[..i] == log[..i];
      }
    }
  }

  /** The counts of an orderly history, up to a point. */
  ghost predicate Balanced(p: seq<Event>, pending: bool, auth: bool) {
    && Count(p, Opens) - Count(p, LateStream) == Count(p, Direct) + Count(p, LateDigest) - (if pending then 1 else 0)
    && (if Shaken(p) then Count(p, Direct) + Count(p, Pending) == 1 else Count(p, Direct) == 0 && Count(p, Pending) == 0 && Count(p, LateDigest) == 0)
    && Count(p, LateDigest) <= Count(p, Digests) && (Count(p, Digests) > 0 <==> AnyDigest(p))
    && (Count(p, Direct) + Count(p, LateDigest) > 0 <==> Trusted(p))
    && (auth ==> Count(p, Direct) + Count(p, LateDigest) <= Count(p, Digests))
    && (!auth ==> Count(p, Pending) == 0)
  }

  ghost predicate Due(log: seq<Event>, n: nat)
    requires n <= |log|
  {
    n > 0 && Opening(log[n - 1])
  }

  lemma BalancedNext(log: seq<Event>, n: nat, auth: bool)
    requires n < |log| && Orderly(log, auth) && Balanced(log[..n], Due(log, n), auth)
    ensures Balanced(log[..n] + [log[n]], Due(log, n + 1), auth)
  {
    var p, e := log[..n], log[n];
    CountsExtended(p, e);
    MembersExtended(p, e);
    assert OrderlyAt(log, n, auth);
    assert Due(log, n) ==> e.Open? by {
      if n > 0 {
        assert OrderlyAt(log, n - 1, auth);
      }
    }
  }

  lemma CountsExtended(log: seq<Event>, e: Event)
    ensures forall kind :: Count(log + [e], kind) == if Is(e, kind) then Count(log, kind) + 1 else Count(log, kind)
  {
    forall kind
      ensures Count(log + [e], kind) == if Is(e, kind) then Count(log, kind) + 1 else Count(log, kind)
    {
      CountExtended(log, e, kind);
    }
  }

  lemma {:induction false} BalancedUpTo(log: seq<Event>, n: nat, auth: bool)
    requires n <= |log| && Orderly(log, auth)
    ensures Balanced(log[..n], Due(log, n), auth)
  {
    if n > 0 {
      BalancedUpTo(log, n - 1, auth);
      BalancedNext(log, n - 1, auth);
      assert log[..n - 1] + [log[n - 1]] == log[..n];
    }
  }

  /** The counts of a whole history. */
  lemma Accounts(log: seq<Event>, auth: bool)
    requires Orderly(log, auth)
    ensures Balanced(log, false, auth)
  {
    BalancedUpTo(log, |log|, auth);
    assert log[..|log|] == log;
    if log != [] {
      assert OrderlyAt(log, |log| - 1, auth);
    }
  }

  // ----- The machine -----

  /** The adapter's fields, with its history. */
  datatype Adapter = Adapter(
    auth: bool, digestOf: (string, Cert) -> Option<seq<Byte>>,
    state: SslState,
    ssl: bool,         // ssl_ is allocated
    rejected: bool,    // the verify callback refused a certificate on this ssl_
    timer: bool,       // timeout_task_ is running
    chain: Option<Chain>,
    verified: bool,
    digest: Option<Digest>,
    readNeedsWrite: bool,
    writeNeedsRead: bool,
    posted: nat,       // SE_OPEN tasks in the owner's queue
    log: seq<Event>)

  ghost function Fresh(auth: bool, digestOf: (string, Cert) -> Option<seq<Byte>>): Adapter {
    Adapter(auth, digestOf, SslNone, false, false, false, None, false, None, false, false, 0, [])
  }

  /** WaitingToVerifyPeerCertificate. */
  ghost predicate Waiting(a: Adapter) {
    a.auth && !a.verified
  }

  /** The handshake is over and the peer is as trusted as it has to be. */
  ghost predicate Ready(a: Adapter) {
    Shaken(a.log) && !Waiting(a)
  }

  ghost function Cleaned(a: Adapter): Adapter {
    a.(state := if a.state.SslError? then SslError else SslClosed, ssl := false, chain := None, timer := false,
       log := a.log + LeavingEvents(a.state.SslNone?))
  }

  ghost function Failed(a: Adapter): Adapter {
    Cleaned(a.(state := SslError))
  }

  /** The verify callback. While the digest is unknown every certificate is provisionally
      accepted. */
  ghost function Presented(a: Adapter, chain: Chain): Adapter {
    a.(chain := Some(chain), verified := a.verified || Matches(a.digestOf, Some(chain), a.digest),
       rejected := a.rejected || (a.digest.Some? && !Matches(a.digestOf, Some(chain), a.digest)))
  }

  ghost function PresentedAll(a: Adapter, chains: seq<Chain>, n: nat): Adapter
    requires n <= |chains|
  {
    if n == 0 then a else Presented(PresentedAll(a, chains, n - 1), chains[n - 1])
  }

  /** The library has reported success. */
  ghost function Joined(a: Adapter): Adapter {
    a.(state := SslConnected, log := a.log + HandshakeEvents(!Waiting(a)))
  }

  datatype Outcome = Outcome(adapter: Adapter, failed: bool)

  /** Acts on the library's result, which is never success once a certificate is refused. */
  ghost function AfterStep(a: Adapter, result: HandshakeResult, listener: seq<Call>): Outcome
    decreases listener, |listener| + 1
  {
    match if a.rejected then Failure else result
    case Success => Outcome(if Waiting(a) then Joined(a) else AfterAll(Joined(a), listener, |listener|), false)
    case WantRead(hasTimeout) => Outcome(a.(timer := a.timer || hasTimeout), false)
    case WantWrite => Outcome(a, false)
    case Failure => Outcome(AfterAll(a, listener, |listener|), true)
  }

  ghost function AfterContinue(a: Adapter, h: Handshake): Outcome
    decreases h, 1
  {
    AfterStep(PresentedAll(a.(timer := false), h.chains, |h.chains|), h.result, h.listener)
  }

  ghost function AfterBegin(a: Adapter, setupOk: bool, first: Handshake): Outcome
    decreases first, 2
  {
    if setupOk then AfterContinue(a.(ssl := true, rejected := false), first) else Outcome(a, true)
  }

  ghost function OrFailed(o: Outcome): Adapter {
    if o.failed then Failed(o.adapter) else o.adapter
  }

  ghost function AfterStart(a: Adapter, streamOpen: bool, setupOk: bool, first: Handshake): Adapter
    decreases first, 3
  {
    var b := a.(log := a.log + [LeftNone]);
    if !a.state.SslNone? then a
    else if !streamOpen then b.(state := SslWait)
    else OrFailed(AfterBegin(b.(state := SslConnecting), setupOk, first))
  }

  ghost function AfterTimeout(a: Adapter, retry: Handshake): Adapter
    decreases retry, 2
  {
    if a.timer then AfterContinue(a, retry).adapter else a
  }

  ghost function DigestOutcome(a: Adapter, d: Digest): DigestResult {
    if a.chain.None? then Kept else if !Matches(a.digestOf, a.chain, Some(d)) then Refused else if a.state.SslConnected? then Late else Early
  }

  /** The digest may come before the certificate, during the handshake or after it. */
  ghost function AfterDigest(a: Adapter, d: Digest): Adapter {
    var result := DigestOutcome(a, d);
    var b := a.(digest := Some(d), log := a.log + DigestEvents(result));
    match result
    case Kept => b
    case Refused => Failed(b)
    case Early => b.(verified := true)
    case Late => b.(verified := true, posted := a.posted + 1)
  }

  /** A read or write of user data. */
  ghost function AfterUser(a: Adapter, reading: bool, length: nat, result: IoResult): Adapter {
    var b := a.(log := a.log + UserEvents(a.state, Waiting(a), length, a.chain, a.digest));
    if !Flows(a.state, Waiting(a), length) then b
    else
      var c := if reading then b.(readNeedsWrite := result.IoWantWrite?) else b.(writeNeedsRead := result.IoWantRead?);
      Ended(c, UserState(reading, a.state, Waiting(a), length, result))
  }

  ghost function Ended(a: Adapter, state: SslState): Adapter {
    match state
    case SslError => Failed(a)
    case SslClosed => Cleaned(a)
    case _ => a
  }

  ghost function AfterOpen(a: Adapter, setupOk: bool, first: Handshake): Outcome
    decreases first, 3
  {
    if !a.state.SslWait? then Outcome(a, false)
    else
      var o := AfterBegin(a.(state := SslConnecting), setupOk, first);
      Outcome(OrFailed(o), o.failed)
  }

  ghost function AfterReady(a: Adapter, h: Handshake): Outcome
    decreases h, 2
  {
    if !a.state.SslConnecting? then Outcome(a, false)
    else
      var o := AfterContinue(a, h);
      Outcome(OrFailed(o), o.failed)
  }

  /** What readiness goes on to the listener. */
  ghost function Readable(a: Adapter, read: bool, write: bool): bool {
    (a.state.SslNone? && read) || (a.state.SslConnected? && (read || (write && a.readNeedsWrite)))
  }

  ghost function Writeable(a: Adapter, read: bool, write: bool): bool {
    (a.state.SslNone? && write) || (a.state.SslConnected? && (write || (read && a.writeNeedsRead)))
  }

  /** The close part of OnEvent, and the SE_OPEN that is about to be passed on. */
  ghost function Concluded(a: Adapter, close: bool, relay: bool, early: bool): Adapter {
    var b := if close then Cleaned(a) else a;
    b.(log := b.log + if relay then RelayEvents(early) else [])
  }

  /** What goes on to the listener, and the adapter when it does. */
  datatype Passing = Passing(adapter: Adapter, signals: Signals)

  /** The open part of OnEvent. */
  ghost function Opened(a: Adapter, e: Call): Outcome
    requires e.StreamEvent?
    decreases e, 0
  {
    if e.open then AfterOpen(a, e.setupOk, e.first) else Outcome(a, false)
  }

  /** The read and write part. */
  ghost function Woken(a: Adapter, e: Call): Outcome
    requires e.StreamEvent?
    decreases e, 0
  {
    if e.read || e.write then AfterReady(a, e.next) else Outcome(a, false)
  }

  ghost function BeforeSignal(a: Adapter, e: Call): Passing
    requires e.StreamEvent?
    decreases e, 1
  {
    var close := Signals(false, false, false, true);
    var b := Opened(a, e).adapter;
    if Opened(a, e).failed then Passing(b, close)
    else if Woken(b, e).failed then Passing(Woken(b, e).adapter, close)
    else
      var relay := e.open && !a.state.SslWait?;
      Passing(Concluded(Woken(b, e).adapter, e.close, relay, a.state.SslNone?),
              Signals(relay, Readable(b, e.read, e.write), Writeable(b, e.read, e.write), e.close))
  }

  predicate AnySignal(signals: Signals) {
    signals.open || signals.read || signals.write || signals.close
  }

  ghost function AfterEvent(a: Adapter, e: Call): Adapter
    requires e.StreamEvent?
    decreases e, 2
  {
    var p := BeforeSignal(a, e);
    if AnySignal(p.signals) then AfterAll(p.adapter, e.listener, |e.listener|) else p.adapter
  }

  ghost function After(a: Adapter, call: Call): Adapter
    decreases call, 3
  {
    match call
    case StartSSL(streamOpen, setupOk, first) => AfterStart(a, streamOpen, setupOk, first)
    case SetPeerCertificateDigest(accepted, d) => if accepted then AfterDigest(a, d) else a
    case Read(length, result) => AfterUser(a, true, length, result)
    case Write(length, result) => AfterUser(a, false, length, result)
    case Close => Cleaned(a)
    case StreamEvent(_, _, _, _, _, _, _, _) => AfterEvent(a, call)
    case Timeout(retry) => AfterTimeout(a, retry)
    case DeliverPosted(listener) =>
      if a.posted > 0 then AfterAll(a.(posted := a.posted - 1), listener, |listener|) else a
  }

  /** The first n calls, each with all that its listeners do. */
  ghost function AfterAll(a: Adapter, calls: seq<Call>, n: nat): Adapter
    requires n <= |calls|
    decreases calls, n
  {
    if n == 0 then a else After(AfterAll(a, calls, n - 1), calls[n - 1])
  }

  // ----- The invariant -----

  ghost predicate History(a: Adapter) {
    && Safe(a.log, a.auth, a.digestOf)
    && (LeftNone in a.log <==> !a.state.SslNone?)
    && Orderly(a.log, a.auth)
    && (a.state.SslConnected? ==> Shaken(a.log))
    && (Shaken(a.log) ==> a.state.SslConnected? || a.state.SslError? || a.state.SslClosed?)
    && (a.digest.Some? <==> AnyDigest(a.log)) && (a.verified ==> a.digest.Some?)
    && (a.auth && Trusted(a.log) ==> a.verified)
    && (a.auth && Shaken(a.log) && a.verified ==> Trusted(a.log))
  }

  /** Holds also in the middle of starting up or failing. */
  ghost predicate Core(a: Adapter) {
    && History(a)
    && (a.timer ==> a.state.SslConnecting? && a.ssl)
    && (a.state.SslNone? || a.state.SslWait? ==> !a.ssl && a.chain.None? && !a.verified)
    && (a.state.SslConnected? ==> a.ssl && !a.rejected)
    && (a.state.SslError? || a.state.SslClosed? ==> !a.ssl && a.chain.None?)
    && (a.verified && a.chain.Some? && !a.rejected ==> Matches(a.digestOf, a.chain, a.digest))
    && (a.verified && (a.state.SslConnecting? || a.state.SslConnected?) ==> a.chain.Some?)
  }

  ghost predicate Valid(a: Adapter) {
    Core(a) && (a.state.SslConnecting? ==> a.ssl)
  }

  /** Nothing is undone, and no more causes of SE_OPEN are recorded than allowed. */
  ghost predicate Onward(a: Adapter, b: Adapter, digests: nat, opens: nat) {
    b.auth == a.auth && b.digestOf == a.digestOf && Later(a.state, a.log, b.state, b.log) && Within(a.log, b.log, digests, opens)
  }

  lemma OnwardChained(a: Adapter, b: Adapter, c: Adapter, n1: nat, m1: nat, n2: nat, m2: nat)
    requires Onward(a, b, n1, m1) && Onward(b, c, n2, m2)
    ensures Onward(a, c, n1 + n2, m1 + m2)
  {
  }

  /** What happened, unless SE_OPEN is issued for it. */
  lemma Recorded(log: seq<Event>, e: Event, auth: bool, digestOf: (string, Cert) -> Option<seq<Byte>>)
    requires Safe(log, auth, digestOf) && Orderly(log, auth) && !e.Open? && !Opening(e)
    requires e.Cleartext? ==> LeftNone !in log
    requires e.AppData? ==> Shaken(log) && (auth ==> Matches(digestOf, e.chain, e.digest))
    requires e.HandshakeDone? ==> !Shaken(log) && auth
    ensures Safe(log + [e], auth, digestOf) && Orderly(log + [e], auth)
    ensures (LeftNone in log + [e] <==> LeftNone in log || e.LeftNone?) && (Shaken(log + [e]) <==> Shaken(log) || e.HandshakeDone?)
    ensures (AnyDigest(log + [e]) <==> AnyDigest(log) || e.DigestGiven?) && (Trusted(log + [e]) <==> Trusted(log))
  {
    SafeExtended(log, e, auth, digestOf);
    OrderlyExtended(log, e, auth);
    MembersExtended(log, e);
  }

  /** SE_OPEN is issued for `e`. */
  lemma RecordedOpening(log: seq<Event>, e: Event, auth: bool, digestOf: (string, Cert) -> Option<seq<Byte>>)
    requires Safe(log, auth, digestOf) && Orderly(log, auth) && Opening(e)
    requires e == DigestGiven(Late) ==> Shaken(log)
    requires e.HandshakeDone? ==> !Shaken(log) && (auth ==> AnyDigest(log))
    ensures Safe(log + [e, Open], auth, digestOf) && Orderly(log + [e, Open], auth)
    ensures (LeftNone in log + [e, Open] <==> LeftNone in log) && (Shaken(log + [e, Open]) <==> Shaken(log) || e.HandshakeDone?)
    ensures (AnyDigest(log + [e, Open]) <==> AnyDigest(log) || e.DigestGiven?) && (Trusted(log + [e, Open]) <==> Trusted(log) || !e.LateOpen?)
  {
    SafeExtended(log, e, auth, digestOf);
    SafeExtended(log + [e], Open, auth, digestOf);
    OrderlyOpened(log, e, auth);
    MembersExtended(log, e);
    MembersExtended(log + [e], Open);
    assert log + [e, Open] == log + [e] + [Open];
  }

  // ----- Tearing down -----

  lemma CleanedKeeps(a: Adapter)
    requires History(a)
    ensures Valid(Cleaned(a)) && Dead(Cleaned(a).state) && Onward(a, Cleaned(a), 0, 0)
  {
    CleanupCounted(a.log, a.state.SslNone?);
    if a.state.SslNone? {
      Recorded(a.log, LeftNone, a.auth, a.digestOf);
    } else {
      assert a.log + [] == a.log;
    }
  }

  lemma FailedKeeps(a: Adapter)
    requires History(a) && !a.state.SslNone?
    ensures Valid(Failed(a)) && Failed(a).state.SslError? && Failed(a).log == a.log && Onward(a, Failed(a), 0, 0)
  {
    assert a.log + [] == a.log;
    CleanedKeeps(a.(state := SslError));
  }

  // ----- The handshake -----

  lemma PresentedKeeps(a: Adapter, chain: Chain)
    requires Valid(a) && a.state.SslConnecting?
    ensures Valid(Presented(a, chain))
  {
  }

  /** The chain presented last is recorded, and one that does not match is not forgotten. */
  lemma {:induction false} PresentedAllKeeps(a: Adapter, chains: seq<Chain>, n: nat)
    requires Valid(a) && a.state.SslConnecting? && n <= |chains|
    ensures var b := PresentedAll(a, chains, n);
            && Valid(b) && b == a.(chain := b.chain, verified := b.verified, rejected := b.rejected)
            && b.chain == (if n == 0 then a.chain else Some(chains[n - 1]))
            && b.rejected == (a.rejected || RefusesSome(a.digestOf, a.digest, chains[..n]))
  {
    if n > 0 {
      PresentedAllKeeps(a, chains, n - 1);
      PresentedKeeps(PresentedAll(a, chains, n - 1), chains[n - 1]);
      RefusesNext(a.digestOf, a.digest, chains, n - 1);
    }
  }

  lemma RefusesNext(digestOf: (string, Cert) -> Option<seq<Byte>>, digest: Option<Digest>, chains: seq<Chain>, n: nat)
    requires n < |chains|
    ensures RefusesSome(digestOf, digest, chains[..n + 1])
            <==> RefusesSome(digestOf, digest, chains[..n]) || (digest.Some? && !Matches(digestOf, Some(chains[n]), digest))
  {
    var shorter, longer := chains[..n], chains[..n + 1];
    assert longer[n] == chains[n] && forall i :: 0 <= i < n ==> longer[i] == shorter[i];
  }

  lemma JoinedKeeps(a: Adapter)
    requires Valid(a) && a.state.SslConnecting? && !a.timer && !a.rejected
    ensures Valid(Joined(a)) && Onward(a, Joined(a), 0, 0)
  {
    HandshakeCounted(a.log, !Waiting(a));
    if Waiting(a) {
      Recorded(a.log, HandshakeDone(false), a.auth, a.digestOf);
    } else {
      RecordedOpening(a.log, HandshakeDone(true), a.auth, a.digestOf);
    }
  }

  lemma {:induction false} StepKeeps(a: Adapter, result: HandshakeResult, listener: seq<Call>)
    requires Valid(a) && a.state.SslConnecting? && !a.timer
    ensures var o := AfterStep(a, result, listener);
            Valid(o.adapter) && Onward(a, o.adapter, AllCauses(listener, Digests), AllCauses(listener, LateStream))
    decreases listener, |listener| + 1
  {
    match if a.rejected then Failure else result
    case Success =>
      JoinedKeeps(a);
      if !Waiting(a) {
        AllKeeps(Joined(a), listener, |listener|);
        OnwardChained(a, Joined(a), AfterAll(Joined(a), listener, |listener|), 0, 0, AllCauses(listener, Digests), AllCauses(listener, LateStream));
      }
    case WantRead(_) =>
    case WantWrite =>
    case Failure => AllKeeps(a, listener, |listener|);
  }

  lemma {:induction false} ContinueKeeps(a: Adapter, h: Handshake)
    requires Valid(a) && a.state.SslConnecting?
    ensures var o := AfterContinue(a, h);
            Valid(o.adapter) && Onward(a, o.adapter, AllCauses(h.listener, Digests), AllCauses(h.listener, LateStream))
    decreases h, 1
  {
    var b := a.(timer := false);
    PresentedAllKeeps(b, h.chains, |h.chains|);
    StepKeeps(PresentedAll(b, h.chains, |h.chains|), h.result, h.listener);
  }

  lemma {:induction false} BeginKeeps(a: Adapter, setupOk: bool, first: Handshake)
    requires Core(a) && a.state.SslConnecting? && !a.ssl && a.chain.None?
    ensures var b := OrFailed(AfterBegin(a, setupOk, first));
            Valid(b) && Onward(a, b, AllCauses(first.listener, Digests), AllCauses(first.listener, LateStream))
    decreases first, 2
  {
    var o := AfterBegin(a, setupOk, first);
    if setupOk {
      ContinueKeeps(a.(ssl := true, rejected := false), first);
    }
    if o.failed {
      FailedKeeps(o.adapter);
    }
  }

  lemma {:induction false} StartKeeps(a: Adapter, streamOpen: bool, setupOk: bool, first: Handshake)
    requires Valid(a)
    ensures var b := AfterStart(a, streamOpen, setupOk, first);
            Valid(b) && !b.state.SslNone? && Onward(a, b, AllCauses(first.listener, Digests), AllCauses(first.listener, LateStream))
    decreases first, 3
  {
    if a.state.SslNone? {
      var b := a.(log := a.log + [LeftNone]);
      NothingCounted(a.log, LeftNone);
      Recorded(a.log, LeftNone, a.auth, a.digestOf);
      if streamOpen {
        BeginKeeps(b.(state := SslConnecting), setupOk, first);
      }
    }
  }

  lemma {:induction false} TimeoutKeeps(a: Adapter, retry: Handshake)
    requires Valid(a)
    ensures var b := AfterTimeout(a, retry);
            Valid(b) && Onward(a, b, AllCauses(retry.listener, Digests), AllCauses(retry.listener, LateStream))
    decreases retry, 2
  {
    if a.timer {
      ContinueKeeps(a, retry);
    }
  }

  // ----- Digests and user data -----

  /** The history once the digest has been recorded. */
  lemma DigestRecorded(a: Adapter, result: DigestResult)
    requires History(a) && (result.Late? ==> a.state.SslConnected?)
    ensures var log := a.log + DigestEvents(result);
            && Safe(log, a.auth, a.digestOf) && Orderly(log, a.auth) && AnyDigest(log) && (LeftNone in log <==> LeftNone in a.log)
            && (Shaken(log) <==> Shaken(a.log)) && (Trusted(log) <==> Trusted(a.log) || result.Late?)
  {
    if result.Late? {
      RecordedOpening(a.log, DigestGiven(Late), a.auth, a.digestOf);
    } else {
      Recorded(a.log, DigestGiven(result), a.auth, a.digestOf);
    }
  }

  lemma DigestValid(a: Adapter, d: Digest)
    requires Valid(a) && !DigestOutcome(a, d).Refused?
    ensures Valid(AfterDigest(a, d))
  {
    DigestRecorded(a, DigestOutcome(a, d));
    if a.chain.Some? {
      DigestMatched(a, d);
    }
  }

  /** A certificate that was presented matches: the adapter is connecting or connected. */
  lemma DigestMatched(a: Adapter, d: Digest)
    requires Valid(a) && a.chain.Some? && !DigestOutcome(a, d).Refused?
    ensures AfterDigest(a, d) == a.(digest := Some(d), verified := true, posted := AfterDigest(a, d).posted, log := a.log + DigestEvents(DigestOutcome(a, d)))
    ensures Matches(a.digestOf, a.chain, Some(d)) && (a.state.SslConnecting? || a.state.SslConnected?)
    ensures DigestOutcome(a, d).Late? <==> a.state.SslConnected?
  {
  }

  lemma DigestRefused(a: Adapter, d: Digest)
    requires Valid(a) && DigestOutcome(a, d).Refused?
    ensures Valid(AfterDigest(a, d)) && AfterDigest(a, d).log == a.log + DigestEvents(Refused)
  {
    DigestRecorded(a, Refused);
    FailedKeeps(a.(digest := Some(d), log := a.log + DigestEvents(Refused)));
  }

  lemma DigestKeeps(a: Adapter, d: Digest)
    requires Valid(a)
    ensures Valid(AfterDigest(a, d)) && Onward(a, AfterDigest(a, d), 1, 0)
  {
    DigestCounted(a.log, DigestOutcome(a, d));
    if DigestOutcome(a, d).Refused? {
      DigestRefused(a, d);
    } else {
      DigestValid(a, d);
    }
  }

  lemma UserRecorded(a: Adapter, length: nat)
    requires Valid(a)
    ensures var b := a.(log := a.log + UserEvents(a.state, Waiting(a), length, a.chain, a.digest)); Valid(b) && Onward(a, b, 0, 0)
  {
    UserCounted(a.log, a.state, Waiting(a), length, a.chain, a.digest);
    if UserEvents(a.state, Waiting(a), length, a.chain, a.digest) == [] {
      assert a.log + [] == a.log;
    } else {
      Recorded(a.log, if a.state.SslNone? then Cleartext else AppData(a.chain, a.digest), a.auth, a.digestOf);
    }
  }

  lemma UserKeeps(a: Adapter, reading: bool, length: nat, result: IoResult)
    requires Valid(a)
    ensures Valid(AfterUser(a, reading, length, result)) && Onward(a, AfterUser(a, reading, length, result), 0, 0)
  {
    UserRecorded(a, length);
    var b := a.(log := a.log + UserEvents(a.state, Waiting(a), length, a.chain, a.digest));
    if Flows(a.state, Waiting(a), length) {
      var c := if reading then b.(readNeedsWrite := result.IoWantWrite?) else b.(writeNeedsRead := result.IoWantRead?);
      FlagsFree(a, b, c);
      EndedKeeps(c, UserState(reading, a.state, Waiting(a), length, result));
      OnwardChained(a, c, AfterUser(a, reading, length, result), 0, 0, 0, 0);
    }
  }

  /** The two flags are free. */
  lemma FlagsFree(a: Adapter, b: Adapter, c: Adapter)
    requires Valid(b) && Onward(a, b, 0, 0) && c == b.(readNeedsWrite := c.readNeedsWrite, writeNeedsRead := c.writeNeedsRead)
    ensures Valid(c) && Onward(a, c, 0, 0)
  {
  }

  lemma EndedKeeps(a: Adapter, state: SslState)
    requires Valid(a) && a.state.SslConnected?
    ensures Valid(Ended(a, state)) && Onward(a, Ended(a, state), 0, 0)
  {
    match state
    case SslError => FailedKeeps(a);
    case SslClosed => CleanedKeeps(a);
    case _ =>
  }

  // ----- Events of the wrapped stream -----

  lemma {:induction false} OpenKeeps(a: Adapter, setupOk: bool, first: Handshake)
    requires Valid(a)
    ensures var b := AfterOpen(a, setupOk, first).adapter;
            Valid(b) && Onward(a, b, AllCauses(first.listener, Digests), AllCauses(first.listener, LateStream))
    decreases first, 3
  {
    if a.state.SslWait? {
      BeginKeeps(a.(state := SslConnecting), setupOk, first);
    }
  }

  lemma {:induction false} ReadyKeeps(a: Adapter, h: Handshake)
    requires Valid(a)
    ensures var b := AfterReady(a, h).adapter;
            Valid(b) && Onward(a, b, AllCauses(h.listener, Digests), AllCauses(h.listener, LateStream))
    decreases h, 2
  {
    if a.state.SslConnecting? {
      ContinueKeeps(a, h);
      var o := AfterContinue(a, h);
      if o.failed {
        FailedKeeps(o.adapter);
      }
    }
  }

  lemma RelayedKeeps(a: Adapter, early: bool)
    requires Valid(a) && (!early ==> !a.state.SslNone?)
    ensures var b := a.(log := a.log + RelayEvents(early)); Valid(b) && Onward(a, b, 0, 1)
  {
    RelayCounted(a.log, early);
    if early {
      Recorded(a.log, RelayedOpen, a.auth, a.digestOf);
    } else {
      RecordedOpening(a.log, LateOpen, a.auth, a.digestOf);
    }
  }

  lemma ConcludedKeeps(a: Adapter, close: bool, relay: bool, early: bool)
    requires Valid(a) && (!early ==> !a.state.SslNone?)
    ensures var b := Concluded(a, close, relay, early); Valid(b) && Onward(a, b, 0, if relay then 1 else 0)
  {
    var b := if close then Cleaned(a) else a;
    if close {
      CleanedKeeps(a);
    }
    if relay {
      RelayedKeeps(b, early);
    } else {
      assert b.log + [] == b.log;
    }
  }

  lemma {:induction false} OpenedKeeps(a: Adapter, e: Call)
    requires Valid(a) && e.StreamEvent?
    ensures var b := Opened(a, e).adapter;
            Valid(b) && Onward(a, b, AllCauses(e.first.listener, Digests), AllCauses(e.first.listener, LateStream))
    decreases e, 0
  {
    if e.open {
      OpenKeeps(a, e.setupOk, e.first);
    }
  }

  lemma {:induction false} WokenKeeps(a: Adapter, e: Call)
    requires Valid(a) && e.StreamEvent?
    ensures var b := Woken(a, e).adapter;
            Valid(b) && Onward(a, b, AllCauses(e.next.listener, Digests), AllCauses(e.next.listener, LateStream))
    decreases e, 0
  {
    if e.read || e.write {
      ReadyKeeps(a, e.next);
    }
  }

  lemma {:induction false} BeforeKeeps(a: Adapter, e: Call)
    requires Valid(a) && e.StreamEvent?
    ensures var b := BeforeSignal(a, e).adapter;
            Valid(b) && Onward(a, b, AllCauses(e.first.listener, Digests) + AllCauses(e.next.listener, Digests),
                               (if e.open then 1 else 0) + (AllCauses(e.first.listener, LateStream) + AllCauses(e.next.listener, LateStream)))
    decreases e, 1
  {
    OpenedKeeps(a, e);
    if !Opened(a, e).failed {
      WokenKeeps(Opened(a, e).adapter, e);
      NextKeeps(a, e, Opened(a, e).adapter, AllCauses(e.first.listener, Digests), AllCauses(e.first.listener, LateStream),
                AllCauses(e.next.listener, Digests), AllCauses(e.next.listener, LateStream));
    }
  }

  lemma NextKeeps(a: Adapter, e: Call, b: Adapter, n1: nat, m1: nat, n2: nat, m2: nat)
    requires e.StreamEvent? && !Opened(a, e).failed && b == Opened(a, e).adapter && Onward(a, b, n1, m1)
    requires Valid(Woken(b, e).adapter) && Onward(b, Woken(b, e).adapter, n2, m2)
    ensures var d := BeforeSignal(a, e).adapter; Valid(d) && Onward(a, d, n1 + n2, (if e.open then 1 else 0) + (m1 + m2))
  {
    var c := Woken(b, e).adapter;
    OnwardChained(a, b, c, n1, m1, n2, m2);
    if !Woken(b, e).failed {
      var relay := e.open && !a.state.SslWait?;
      ConcludedKeeps(c, e.close, relay, a.state.SslNone?);
      OnwardChained(a, c, Concluded(c, e.close, relay, a.state.SslNone?), n1 + n2, m1 + m2, 0, if relay then 1 else 0);
    }
  }

  lemma {:induction false} EventKeeps(a: Adapter, e: Call)
    requires Valid(a) && e.StreamEvent?
    ensures Valid(AfterEvent(a, e)) && Onward(a, AfterEvent(a, e), Causes(e, Digests), Causes(e, LateStream))
    decreases e, 2
  {
    BeforeKeeps(a, e);
    var p := BeforeSignal(a, e);
    if AnySignal(p.signals) {
      AllKeeps(p.adapter, e.listener, |e.listener|);
    }
  }

  lemma SimpleKeeps(a: Adapter, call: Call)
    requires Valid(a) && (call.SetPeerCertificateDigest? || call.Read? || call.Write? || call.Close?)
    ensures Valid(After(a, call)) && Onward(a, After(a, call), Causes(call, Digests), Causes(call, LateStream))
  {
    match call
    case SetPeerCertificateDigest(accepted, d) => DigestKeeps(a, d);
    case Read(length, result) => UserKeeps(a, true, length, result);
    case Write(length, result) => UserKeeps(a, false, length, result);
    case Close => CleanedKeeps(a);
  }

  /** Every call, with all that listeners do meanwhile, keeps the invariant. */
  lemma {:induction false} CallKeeps(a: Adapter, call: Call)
    requires Valid(a)
    ensures Valid(After(a, call)) && Onward(a, After(a, call), Causes(call, Digests), Causes(call, LateStream))
    decreases call, 3
  {
    match call
    case StartSSL(streamOpen, setupOk, first) => StartKeeps(a, streamOpen, setupOk, first);
    case StreamEvent(_, _, _, _, _, _, _, _) => EventKeeps(a, call);
    case Timeout(retry) => TimeoutKeeps(a, retry);
    case DeliverPosted(listener) =>
      if a.posted > 0 {
        AllKeeps(a.(posted := a.posted - 1), listener, |listener|);
      }
    case _ => SimpleKeeps(a, call);
  }

  lemma {:induction false} AllKeeps(a: Adapter, calls: seq<Call>, n: nat)
    requires Valid(a) && n <= |calls|
    ensures Valid(AfterAll(a, calls, n)) && Onward(a, AfterAll(a, calls, n), CausesIn(calls, n, Digests), CausesIn(calls, n, LateStream))
    decreases calls, n
  {
    if n > 0 {
      var b := AfterAll(a, calls, n - 1);
      AllKeeps(a, calls, n - 1);
      CallKeeps(b, calls[n - 1]);
      OnwardChained(a, b, After(b, calls[n - 1]), CausesIn(calls, n - 1, Digests), CausesIn(calls, n - 1, LateStream),
                    Causes(calls[n - 1], Digests), Causes(calls[n - 1], LateStream));
    }
  }

  // ----- Laws -----

  lemma {:induction false} AllKeepsFrom(a: Adapter, calls: seq<Call>, i: nat, n: nat)
    requires Valid(a) && i <= n <= |calls|
    ensures var b, c := AfterAll(a, calls, i), AfterAll(a, calls, n); Valid(b) && Valid(c) && Later(b.state, b.log, c.state, c.log)
    decreases n - i
  {
    AllKeeps(a, calls, i);
    if i < n {
      CallKeeps(AfterAll(a, calls, i), calls[i]);
      AllKeepsFrom(a, calls, i + 1, n);
    }
  }

  /** Once StartSSL or Close has been called, the adapter has left clear-text operation. */
  lemma LeavesClear(a: Adapter, calls: seq<Call>, i: nat)
    requires Valid(a) && i < |calls| && (calls[i].StartSSL? || calls[i].Close?)
    ensures LeftNone in AfterAll(a, calls, |calls|).log
  {
    AllKeeps(a, calls, i);
    var b := AfterAll(a, calls, i);
    if calls[i].StartSSL? {
      StartKeeps(b, calls[i].streamOpen, calls[i].setupOk, calls[i].first);
    } else {
      CleanedKeeps(b);
    }
    AllKeepsFrom(a, calls, i + 1, |calls|);
  }

  /** Once closed, an adapter never comes back. */
  lemma CloseIsFinal(a: Adapter, calls: seq<Call>, i: nat)
    requires Valid(a) && i < |calls| && calls[i].Close?
    ensures Dead(AfterAll(a, calls, |calls|).state)
  {
    AllKeeps(a, calls, i);
    CleanedKeeps(AfterAll(a, calls, i));
    AllKeepsFrom(a, calls, i + 1, |calls|);
  }

  /** One step of the handshake while the listener does nothing. */
  lemma ContinueIdle(a: Adapter, h: Handshake)
    requires Valid(a) && a.state.SslConnecting? && h.listener == []
    ensures var o, refused := AfterContinue(a, h), a.rejected || RefusesSome(a.digestOf, a.digest, h.chains);
            && o.failed == (refused || h.result.Failure?)
            && o.adapter.state == (if !o.failed && h.result.Success? then SslConnected else SslConnecting)
            && o.adapter.log == a.log + (if !o.failed && h.result.Success? then HandshakeEvents(!Waiting(o.adapter)) else [])
            && o.adapter.timer == (!o.failed && h.result == WantRead(true))
            && o.adapter.digest == a.digest && o.adapter.rejected == refused && o.adapter.posted == a.posted
            && o.adapter.chain == (if h.chains == [] then a.chain else Some(h.chains[|h.chains| - 1]))
  {
    var b := a.(timer := false);
    PresentedAllKeeps(b, h.chains, |h.chains|);
    assert h.chains[..|h.chains|] == h.chains && a.log + [] == a.log;
    StepIdle(PresentedAll(b, h.chains, |h.chains|), h.result);
  }

  lemma StepIdle(a: Adapter, result: HandshakeResult)
    ensures AfterStep(a, result, [])
            == if a.rejected || result.Failure? then Outcome(a, true)
               else if result.Success? then Outcome(Joined(a), false)
               else Outcome(a.(timer := a.timer || result == WantRead(true)), false)
  {
    assert AfterAll(a, [], 0) == a && AfterAll(Joined(a), [], 0) == Joined(a);
  }

  lemma FailedIs(a: Adapter)
    ensures Failed(a) == a.(state := SslError, ssl := false, chain := None, timer := false)
  {
    assert a.log + [] == a.log;
  }

  /** StartSSL begins the handshake, or waits for the stream; it is accepted only once. */
  lemma StartLaws(a: Adapter, streamOpen: bool, setupOk: bool, first: Handshake)
    requires Valid(a)
    ensures var b := After(a, StartSSL(streamOpen, setupOk, first));
            && (!a.state.SslNone? ==> b == a)
            && (a.state.SslNone? && !streamOpen ==> b.state.SslWait? && b.log == a.log + [LeftNone])
            && (a.state.SslNone? && streamOpen && !setupOk ==> b.state.SslError? && b.log == a.log + [LeftNone])
            && (a.state.SslNone? && streamOpen && setupOk && first.listener == [] ==>
                  var ok := first.result.Success? && !RefusesSome(a.digestOf, a.digest, first.chains);
                  && b.log == a.log + [LeftNone] + (if ok then HandshakeEvents(!Waiting(b)) else [])
                  && b.state == if ok then SslConnected else if first.result.Failure? || RefusesSome(a.digestOf, a.digest, first.chains) then SslError else SslConnecting)
  {
    if a.state.SslNone? && streamOpen {
      BeginLaws(a.(log := a.log + [LeftNone]).(state := SslConnecting), setupOk, first) by {
        Recorded(a.log, LeftNone, a.auth, a.digestOf);
      }
    }
  }

  lemma BeginLaws(a: Adapter, setupOk: bool, first: Handshake)
    requires Core(a) && a.state.SslConnecting? && !a.ssl && a.chain.None?
    ensures var b := OrFailed(AfterBegin(a, setupOk, first));
            && (!setupOk ==> b.state.SslError? && b.log == a.log)
            && (setupOk && first.listener == [] ==>
                  var refused := first.result.Failure? || RefusesSome(a.digestOf, a.digest, first.chains);
                  && b.state == (if refused then SslError else if first.result.Success? then SslConnected else SslConnecting)
                  && b.log == a.log + if !refused && first.result.Success? then HandshakeEvents(!Waiting(b)) else [])
  {
    FailedIs(AfterBegin(a, setupOk, first).adapter);
    if setupOk && first.listener == [] {
      ContinueIdle(a.(ssl := true, rejected := false), first);
    }
  }

  /** What a digest that is accepted does, by when it comes. */
  lemma DigestLaws(a: Adapter, d: Digest)
    requires Valid(a)
    ensures var b := After(a, SetPeerCertificateDigest(true, d));
            && b.digest == Some(d)
            && (a.chain.None? ==> b.state == a.state && b.verified == a.verified && b.log == a.log + [DigestGiven(Kept)])
            && (a.chain.Some? && !Matches(a.digestOf, a.chain, Some(d)) ==> b.state.SslError? && !b.ssl && b.log == a.log + [DigestGiven(Refused)])
            && (a.chain.Some? && Matches(a.digestOf, a.chain, Some(d)) ==>
                  && b.state == a.state && b.verified
                  && if a.state.SslConnected? then b.log == a.log + [DigestGiven(Late), Open] && b.posted == a.posted + 1
                     else b.log == a.log + [DigestGiven(Early)] && b.posted == a.posted)
  {
    if DigestOutcome(a, d).Refused? {
      DigestRefused(a, d);
    }
  }

  /** When each answer is given to a reader or writer. */
  lemma UserLaws(reading: bool, state: SslState, waiting: bool, length: nat, result: IoResult)
    ensures var r := UserResult(reading, state, waiting, length, result);
            && (r.SrPassed? <==> state.SslNone?)
            && (r.SrSuccess? ==> state.SslConnected? && !waiting)
            && (state.SslWait? || state.SslConnecting? || (state.SslConnected? && waiting) ==> r.SrBlock?)
            && (state.SslConnected? && !waiting && length == 0 ==> r.SrSuccess?)
            && (state.SslConnected? && !waiting && length > 0 ==>
                  && (r.SrSuccess? <==> result.IoOk? || (result.IoShort? && !reading)) && (r.SrBlock? <==> result.IoWantRead? || result.IoWantWrite?))
            && (r.SrEos? <==> reading && (state.SslClosed? || (state.SslConnected? && !waiting && length > 0 && result.IoZeroReturn?)))
            && (state.SslError? ==> r.SrError?)
            && (UserState(reading, state, waiting, length, result) != state ==> Flows(state, waiting, length) && (r.SrError? || r.SrEos?))
  {
  }

  /** Listeners are called when there is something to signal: what they read or write then
      reaches the library. */
  lemma ListenersCalled(a: Adapter, read: bool, write: bool)
    requires Valid(a) && a.state.SslConnected? && !Waiting(a)
    ensures var idle, io := Handshake([], WantWrite, []), [Read(1, IoOk)];
            After(a, StreamEvent(false, read, write, false, true, idle, idle, io)).log
            == a.log + if read || write then [AppData(a.chain, a.digest)] else []
  {
    assert a.log + [] == a.log && a.(log := a.log + []) == a;
    OneRead(a);
  }

  lemma PostedListenerCalled(a: Adapter)
    requires Valid(a) && a.state.SslConnected? && !Waiting(a)
    ensures After(a, DeliverPosted([Read(1, IoOk)])).log == a.log + if a.posted > 0 then [AppData(a.chain, a.digest)] else []
  {
    assert a.log + [] == a.log;
    if a.posted > 0 {
      OneRead(a.(posted := a.posted - 1));
    }
  }

  lemma OneRead(a: Adapter)
    requires a.state.SslConnected? && !Waiting(a)
    ensures AfterAll(a, [Read(1, IoOk)], 1).log == a.log + [AppData(a.chain, a.digest)]
  {
    assert AfterAll(a, [Read(1, IoOk)], 0) == a;
  }

  /** And the listener of SE_OPEN may write at once. */
  lemma OpenListenerCalled(digestOf: (string, Cert) -> Option<seq<Byte>>)
    ensures After(Fresh(false, digestOf), StartSSL(true, true, Handshake([], Success, [Write(1, IoOk)]))).log
            == [LeftNone, HandshakeDone(true), Open, AppData(None, None)]
  {
    var write := [Write(1, IoOk)];
    var b := Fresh(false, digestOf).(log := [] + [LeftNone], state := SslConnecting, ssl := true);
    var c := Joined(b);
    assert PresentedAll(b, [], 0) == b;
    assert AfterAll(c, write, 1) == After(AfterAll(c, write, 0), write[0]);
    assert c.log == [LeftNone, HandshakeDone(true), Open];
  }

  /** What goes on to the listener while no handshake is to be made. */
  ghost function Passed(a: Adapter, e: Call): Signals
    requires e.StreamEvent?
  {
    Signals(e.open, Readable(a, e.read, e.write), Writeable(a, e.read, e.write), e.close)
  }

  /** An event of the stream while no handshake is to be made: exactly what goes on to the
      listener, and what it leaves in the history before the listener runs. */
  lemma SettledEvent(a: Adapter, e: Call)
    requires Valid(a) && e.StreamEvent? && Settled(a.state)
    ensures var p := BeforeSignal(a, e);
            && p.signals == Passed(a, e) && (if e.close then Dead(p.adapter.state) else p.adapter.state == a.state)
            && p.adapter.log == a.log + Traces(e, a.state) && p.adapter.log <= After(a, e).log
  {
    SettledPassing(a, e);
    var p := BeforeSignal(a, e);
    ConcludedLog(a, e.close, e.open, a.state.SslNone?);
    SettledKeeps(a, e);
  }

  lemma SettledPassing(a: Adapter, e: Call)
    requires e.StreamEvent? && Settled(a.state)
    ensures BeforeSignal(a, e) == Passing(Concluded(a, e.close, e.open, a.state.SslNone?), Passed(a, e))
  {
    assert AfterOpen(a, e.setupOk, e.first) == Outcome(a, false) && AfterReady(a, e.next) == Outcome(a, false);
    assert Opened(a, e) == Outcome(a, false) && Woken(a, e) == Outcome(a, false);
  }

  lemma SettledKeeps(a: Adapter, e: Call)
    requires Valid(a) && e.StreamEvent?
    ensures BeforeSignal(a, e).adapter.log <= After(a, e).log
  {
    BeforeKeeps(a, e);
    AllKeeps(BeforeSignal(a, e).adapter, e.listener, |e.listener|);
    assert After(a, e) == AfterEvent(a, e);
  }

  lemma ConcludedLog(a: Adapter, close: bool, relay: bool, early: bool)
    ensures Concluded(a, close, relay, early).log == a.log + (LeavingEvents(close && a.state.SslNone?) + if relay then RelayEvents(early) else [])
  {
    var relayed := if relay then RelayEvents(early) else [];
    ConcatAssociates(a.log, LeavingEvents(close && a.state.SslNone?), relayed);
    assert a.log + [] == a.log;
  }

  /** A handshake that fails on an event of the stream tears the adapter down, and the
      listener is told that it is closed, and nothing else. */
  lemma FailingEvent(a: Adapter, e: Call)
    requires Valid(a) && e.StreamEvent? && a.state.SslConnecting? && !e.open && (e.read || e.write) && e.next.listener == []
    requires e.next.result.Failure? || a.rejected || RefusesSome(a.digestOf, a.digest, e.next.chains)
    ensures var p := BeforeSignal(a, e);
            p.adapter.state.SslError? && !p.adapter.ssl && p.adapter.log == a.log && p.signals == Signals(false, false, false, true)
  {
    ContinueIdle(a, e.next);
    var o := AfterContinue(a, e.next);
    FailedIs(o.adapter);
    assert AfterReady(a, e.next) == Outcome(Failed(o.adapter), true);
    assert Opened(a, e) == Outcome(a, false) && Woken(a, e) == Outcome(Failed(o.adapter), true);
    assert a.log + [] == a.log;
  }

  // ----- A handshake from beginning to end -----

  /** The handshake that a call carries on. */
  function StepOf(call: Call): Option<Handshake> {
    match call
    case StartSSL(streamOpen, setupOk, first) => if streamOpen && setupOk then Some(first) else None
    case StreamEvent(open, read, write, close, setupOk, first, next, listener) =>
      if close || listener != [] then None
      else if open then (if setupOk && !read && !write then Some(first) else None)
      else if read || write then Some(next) else None
    case Timeout(retry) => Some(retry)
    case _ => None
  }

  /** The adapter is where a handshake carried by this call can go on. */
  ghost predicate Awaits(a: Adapter, call: Call) {
    match call
    case StartSSL(_, _, _) => a.state.SslNone?
    case StreamEvent(open, _, _, _, _, _, _, _) => if open then a.state.SslWait? else a.state.SslConnecting?
    case Timeout(_) => a.timer
    case _ => false
  }

  /** Every chain that is presented has the digest, and the listener does nothing. */
  ghost predicate Trustworthy(h: Handshake, d: Digest, digestOf: (string, Cert) -> Option<seq<Byte>>) {
    h.listener == [] && forall i :: 0 <= i < |h.chains| ==> Matches(digestOf, Some(h.chains[i]), Some(d))
  }

  /** A handshake with a trustworthy peer is under way or over; the digest is known or not. */
  ghost predicate Along(a: Adapter, d: Digest, given: bool) {
    && Valid(a) && a.auth && !Dead(a.state) && !a.rejected
    && a.digest == (if given then Some(d) else None)
    && (a.chain.Some? ==> Matches(a.digestOf, a.chain, Some(d)))
    && (a.verified <==> given && a.chain.Some?)
    && (a.state.SslConnected? ==> a.chain.Some?)
    && Count(a.log, Digests) == (if given then 1 else 0) && Count(a.log, LateStream) == 0
  }

  /** Where the next step of the handshake begins. */
  ghost function Poised(a: Adapter): Adapter {
    if a.state.SslNone? then a.(log := a.log + [LeftNone], state := SslConnecting, ssl := true, rejected := false)
    else if a.state.SslWait? then a.(state := SslConnecting, ssl := true, rejected := false)
    else a
  }

  lemma PoisedAlong(a: Adapter, d: Digest, given: bool)
    requires Along(a, d, given) && !a.state.SslConnected?
    ensures Along(Poised(a), d, given) && Poised(a).state.SslConnecting?
  {
    if a.state.SslNone? {
      Recorded(a.log, LeftNone, a.auth, a.digestOf);
      CountsExtended(a.log, LeftNone);
    }
  }

  lemma PresentedAlong(a: Adapter, h: Handshake, d: Digest, given: bool)
    requires Along(a, d, given) && a.state.SslConnecting? && Trustworthy(h, d, a.digestOf)
    ensures var b := PresentedAll(a.(timer := false), h.chains, |h.chains|);
            Along(b, d, given) && b.state.SslConnecting? && !b.timer && (h.chains != [] ==> b.chain.Some?)
            && b == a.(timer := false, chain := b.chain, verified := b.verified)
  {
    PresentedAlongTo(a.(timer := false), h, d, given, |h.chains|);
  }

  lemma {:induction false} PresentedAlongTo(a: Adapter, h: Handshake, d: Digest, given: bool, n: nat)
    requires Along(a, d, given) && a.state.SslConnecting? && Trustworthy(h, d, a.digestOf) && n <= |h.chains|
    ensures var b := PresentedAll(a, h.chains, n);
            Along(b, d, given) && (n > 0 ==> b.chain.Some?) && b == a.(chain := b.chain, verified := b.verified)
  {
    if n > 0 {
      PresentedAlongTo(a, h, d, given, n - 1);
      PresentedKeeps(PresentedAll(a, h.chains, n - 1), h.chains[n - 1]);
    }
  }

  /** A step of a trustworthy handshake: it goes on, or ends connected. */
  lemma StepAlong(a: Adapter, h: Handshake, d: Digest, given: bool)
    requires Along(a, d, given) && a.state.SslConnecting? && Trustworthy(h, d, a.digestOf)
    requires !h.result.Failure? && (h.result.Success? ==> h.chains != [])
    ensures var o := AfterContinue(a, h);
            !o.failed && Along(o.adapter, d, given) && (if h.result.Success? then o.adapter.state.SslConnected? else o.adapter.state.SslConnecting?)
            && o.adapter.timer == (h.result == WantRead(true))
  {
    PresentedAlong(a, h, d, given);
    var b := PresentedAll(a.(timer := false), h.chains, |h.chains|);
    StepIdle(b, h.result);
    if h.result.Success? {
      JoinedAlong(b, d, given);
    }
  }

  lemma JoinedAlong(a: Adapter, d: Digest, given: bool)
    requires Along(a, d, given) && a.state.SslConnecting? && !a.timer && a.chain.Some?
    ensures Along(Joined(a), d, given)
  {
    JoinedKeeps(a);
    NoDigestInHandshake(a.log, !Waiting(a));
  }

  lemma NoDigestInHandshake(log: seq<Event>, open: bool)
    ensures Count(log + HandshakeEvents(open), Digests) == Count(log, Digests) && Count(log + HandshakeEvents(open), LateStream) == Count(log, LateStream)
  {
    CountsExtended(log, HandshakeDone(open));
    if open {
      CountsExtended(log + [HandshakeDone(true)], Open);
      assert log + HandshakeEvents(open) == log + [HandshakeDone(true)] + [Open];
    }
  }

  /** The call that carries a step on does just that. */
  lemma CallSteps(a: Adapter, call: Call)
    requires Valid(a) && StepOf(call).Some? && Awaits(a, call)
    requires !AfterContinue(Poised(a), StepOf(call).value).failed
    ensures After(a, call) == AfterContinue(Poised(a), StepOf(call).value).adapter
  {
    match call
    case StartSSL(streamOpen, setupOk, first) =>
      var b := a.(log := a.log + [LeftNone]).(state := SslConnecting);
      assert Poised(a) == b.(ssl := true, rejected := false);
      assert AfterBegin(b, true, first) == AfterContinue(Poised(a), first);
      assert AfterStart(a, streamOpen, setupOk, first) == AfterContinue(Poised(a), first).adapter;
    case StreamEvent(open, _, _, _, _, _, _, _) => EventSteps(a, call);
    case Timeout(_) =>
  }

  lemma EventSteps(a: Adapter, e: Call)
    requires e.StreamEvent? && StepOf(e).Some? && Awaits(a, e)
    requires !AfterContinue(Poised(a), StepOf(e).value).failed
    ensures After(a, e) == AfterContinue(Poised(a), StepOf(e).value).adapter
  {
    var o := AfterContinue(Poised(a), StepOf(e).value);
    var b := o.adapter;
    if e.open {
      var c := a.(state := SslConnecting);
      assert Poised(a) == c.(ssl := true, rejected := false);
      assert AfterBegin(c, true, e.first) == o;
      assert AfterOpen(a, e.setupOk, e.first) == o;
      assert Opened(a, e) == o && Woken(b, e) == Outcome(b, false);
    } else {
      assert AfterReady(a, e.next) == o;
      assert Opened(a, e) == Outcome(a, false) && Woken(a, e) == o;
    }
    StepPassed(a, e, b);
  }

  lemma StepPassed(a: Adapter, e: Call, b: Adapter)
    requires e.StreamEvent? && !e.close && e.listener == [] && !Opened(a, e).failed && (e.open ==> a.state.SslWait?)
    requires Woken(Opened(a, e).adapter, e) == Outcome(b, false)
    ensures After(a, e) == b
  {
    assert b.log + [] == b.log && b.(log := b.log + []) == b;
    assert BeforeSignal(a, e).adapter == b && AfterAll(b, e.listener, 0) == b;
    assert After(a, e) == AfterEvent(a, e);
  }

  lemma CallAlong(a: Adapter, call: Call, d: Digest, given: bool)
    requires Along(a, d, given) && StepOf(call).Some? && Awaits(a, call)
    requires var h := StepOf(call).value; Trustworthy(h, d, a.digestOf) && !h.result.Failure? && (h.result.Success? ==> h.chains != [])
    ensures var b := After(a, call);
            Along(b, d, given) && b.digestOf == a.digestOf && (if StepOf(call).value.result.Success? then b.state.SslConnected? else b.state.SslConnecting?)
            && b.timer == (StepOf(call).value.result == WantRead(true))
  {
    PoisedAlong(a, d, given);
    StepAlong(Poised(a), StepOf(call).value, d, given);
    CallSteps(a, call);
    CallKeeps(a, call);
  }

  /** The digest may be given at any time. */
  lemma DigestAlong(a: Adapter, d: Digest)
    requires Along(a, d, false)
    ensures Along(After(a, SetPeerCertificateDigest(true, d)), d, true)
    ensures After(a, SetPeerCertificateDigest(true, d)).state == a.state && After(a, SetPeerCertificateDigest(true, d)).timer == a.timer
  {
    DigestKeeps(a, d);
    DigestLaws(a, d);
    var result := DigestOutcome(a, d);
    OneDigestCounted(a.log, result);
  }

  lemma OneDigestCounted(log: seq<Event>, result: DigestResult)
    ensures Count(log + DigestEvents(result), Digests) == Count(log, Digests) + 1 && Count(log + DigestEvents(result), LateStream) == Count(log, LateStream)
  {
    CountsExtended(log, DigestGiven(result));
    if result.Late? {
      CountsExtended(log + [DigestGiven(Late)], Open);
      assert log + DigestEvents(result) == log + [DigestGiven(Late)] + [Open];
    }
  }

  /** Connected, with the digest known, is open: once. */
  lemma AlongOpens(a: Adapter, d: Digest)
    requires Along(a, d, true) && a.state.SslConnected?
    ensures Count(a.log, Opens) == 1 && !Waiting(a)
  {
    Accounts(a.log, a.auth);
  }

  /** The calls of a whole handshake: StartSSL on an open stream, or StartSSL and then the
      opening; events and timeouts while the library asks for more; and success. */
  ghost predicate Conversation(es: seq<Call>, f: nat, d: Digest, digestOf: (string, Cert) -> Option<seq<Byte>>) {
    && f < |es| && f <= 1 && es[0].StartSSL?
    && (f == 1 ==> !es[0].streamOpen && es[1].StreamEvent? && es[1].open)
    && (forall i :: f <= i < |es| ==> CarriesOn(es[i], i == |es| - 1, d, digestOf))
    && (forall i :: f < i < |es| ==> (es[i].StreamEvent? && !es[i].open) || (es[i].Timeout? && SetsTimer(es[i - 1])))
  }

  ghost predicate CarriesOn(call: Call, last: bool, d: Digest, digestOf: (string, Cert) -> Option<seq<Byte>>) {
    && StepOf(call).Some?
    && var h := StepOf(call).value;
       Trustworthy(h, d, digestOf) && !h.result.Failure? && (h.result.Success? <==> last) && (last ==> h.chains != [])
  }

  predicate SetsTimer(call: Call) {
    StepOf(call).Some? && StepOf(call).value.result == WantRead(true)
  }

  /** Where the adapter is once i of the calls have been made. */
  ghost predicate Stage(a: Adapter, es: seq<Call>, f: nat, i: nat)
    requires i <= |es|
  {
    if i == 0 then a.state.SslNone?
    else if i <= f then a.state.SslWait?
    else if i < |es| then a.state.SslConnecting? && (SetsTimer(es[i - 1]) ==> a.timer)
    else a.state.SslConnected?
  }

  lemma StageNext(a: Adapter, es: seq<Call>, f: nat, i: nat, d: Digest, given: bool)
    requires Conversation(es, f, d, a.digestOf) && i < |es| && Along(a, d, given) && Stage(a, es, f, i)
    ensures var b := After(a, es[i]); Along(b, d, given) && Stage(b, es, f, i + 1) && b.digestOf == a.digestOf
  {
    if i == 0 && f == 1 {
      WaitAlong(a, es[0], d, given);
    } else {
      assert CarriesOn(es[i], i == |es| - 1, d, a.digestOf);
      CallAlong(a, es[i], d, given);
    }
  }

  lemma WaitAlong(a: Adapter, call: Call, d: Digest, given: bool)
    requires call.StartSSL? && !call.streamOpen && a.state.SslNone? && Along(a, d, given)
    ensures var b := After(a, call); Along(b, d, given) && b.state.SslWait? && b.digestOf == a.digestOf
  {
    CallKeeps(a, call);
    CountsExtended(a.log, LeftNone);
    assert After(a, call) == AfterStart(a, false, call.setupOk, call.first);
  }

  /** The conversation with the digest given after k of its calls. */
  function WithDigest(es: seq<Call>, k: nat, d: Digest): seq<Call>
    requires k <= |es|
  {
    es[..k] + [SetPeerCertificateDigest(true, d)] + es[k..]
  }

  lemma {:induction false} StageBefore(digestOf: (string, Cert) -> Option<seq<Byte>>, es: seq<Call>, f: nat, k: nat, d: Digest, n: nat)
    requires Conversation(es, f, d, digestOf) && n <= k <= |es|
    ensures var a := AfterAll(Fresh(true, digestOf), WithDigest(es, k, d), n); Along(a, d, false) && Stage(a, es, f, n) && a.digestOf == digestOf
  {
    if n == 0 {
      FreshValid(true, digestOf);
    } else {
      StageBefore(digestOf, es, f, k, d, n - 1);
      StageNext(AfterAll(Fresh(true, digestOf), WithDigest(es, k, d), n - 1), es, f, n - 1, d, false);
      assert WithDigest(es, k, d)[n - 1] == es[n - 1];
    }
  }

  lemma {:induction false} StageAfter(digestOf: (string, Cert) -> Option<seq<Byte>>, es: seq<Call>, f: nat, k: nat, d: Digest, n: nat)
    requires Conversation(es, f, d, digestOf) && k <= n <= |es|
    ensures var a := AfterAll(Fresh(true, digestOf), WithDigest(es, k, d), n + 1); Along(a, d, true) && Stage(a, es, f, n) && a.digestOf == digestOf
    decreases n
  {
    var calls := WithDigest(es, k, d);
    if n == k {
      StageBefore(digestOf, es, f, k, d, k);
      var a := AfterAll(Fresh(true, digestOf), calls, k);
      DigestAlong(a, d);
      CallKeeps(a, SetPeerCertificateDigest(true, d));
      assert calls[k] == SetPeerCertificateDigest(true, d);
    } else {
      StageAfter(digestOf, es, f, k, d, n - 1);
      StageNext(AfterAll(Fresh(true, digestOf), calls, n), es, f, n - 1, d, true);
      assert calls[n] == es[n - 1];
    }
  }

  /** With client authentication, a handshake with a peer that has the digest ends connected
      and is announced exactly once, however many steps it takes, whether the stream was open
      from the start, and whenever the digest is given. */
  lemma HandshakeOpens(digestOf: (string, Cert) -> Option<seq<Byte>>, es: seq<Call>, f: nat, k: nat, d: Digest)
    requires Conversation(es, f, d, digestOf) && k <= |es|
    ensures var calls := WithDigest(es, k, d); var a := AfterAll(Fresh(true, digestOf), calls, |calls|);
            a.state.SslConnected? && a.verified && Count(a.log, Opens) == 1
  {
    StageAfter(digestOf, es, f, k, d, |es|);
    AlongOpens(AfterAll(Fresh(true, digestOf), WithDigest(es, k, d), |es| + 1), d);
  }

  // ----- The adapter as written -----

  class StreamAdapter {
    const clientAuth: bool
    const digestOf: (string, Cert) -> Option<seq<Byte>>

    var state: SslState
    var ssl: bool
    var rejected: bool
    var timer: bool
    var chain: Option<Chain>
    var verified: bool
    var digest: Option<Digest>
    var readNeedsWrite: bool
    var writeNeedsRead: bool
    var posted: nat

    ghost var log: seq<Event>

    ghost function View(): Adapter
      reads this
    {
      Adapter(clientAuth, digestOf, state, ssl, rejected, timer, chain, verified, digest, readNeedsWrite, writeNeedsRead, posted, log)
    }

    predicate WaitingToVerifyPeerCertificate()
      reads this
    {
      clientAuth && !verified
    }

    constructor (clientAuth: bool, digestOf: (string, Cert) -> Option<seq<Byte>>)
      ensures View() == Fresh(clientAuth, digestOf)
    {
      this.clientAuth, this.digestOf := clientAuth, digestOf;
      state, ssl, rejected, timer, chain, verified, digest := SslNone, false, false, false, None, false, None;
      readNeedsWrite, writeNeedsRead, posted := false, false, 0;
      log := [];
    }

    // ----- Tearing down -----

    method Cleanup()
      modifies this
      ensures View() == Cleaned(old(View()))
    {
      log := log + LeavingEvents(state.SslNone?);
      if !state.SslError? {
        state := SslClosed;
      }
      ssl, chain, timer := false, None, false;
    }

    /** Error, without the signal. */
    method Fail()
      modifies this
      ensures View() == Failed(old(View()))
    {
      state := SslError;
      Cleanup();
    }

    // ----- The listener -----

    /** SignalEvent: the listener is called and may call the adapter. */
    method Signal(listener: seq<Call>)
      requires Valid(View())
      modifies this
      ensures Valid(View()) && View() == AfterAll(old(View()), listener, |listener|)
      decreases listener, 0
    {
      var i := 0;
      while i < |listener|
        invariant 0 <= i <= |listener| && Valid(View()) && View() == AfterAll(old(View()), listener, i)
      {
        CallKeeps(View(), listener[i]);
        Do(listener[i]);
        i := i + 1;
      }
    }

    method Do(call: Call)
      requires Valid(View())
      modifies this
      ensures View() == After(old(View()), call)
      decreases call, 3
    {
      match call
      case StartSSL(streamOpen, setupOk, first) => DoStartSSL(streamOpen, setupOk, first);
      case SetPeerCertificateDigest(accepted, d) => var ok := DoSetPeerCertificateDigest(accepted, d);
      case Read(length, result) => var r := DoRead(length, result);
      case Write(length, result) => var r := DoWrite(length, result);
      case Close => Cleanup();
      case StreamEvent(_, _, _, _, _, _, _, _) => var signals := OnEvent(call);
      case Timeout(retry) => OnTimeout(retry);
      case DeliverPosted(listener) =>
        if posted > 0 {
          posted := posted - 1;
          Signal(listener);
        }
    }

    // ----- The handshake -----

    method VerifyPeerCertificate() returns (ok: bool)
      requires chain.Some?
      modifies this`verified
      ensures ok <==> Matches(digestOf, chain, digest)
      ensures verified == (old(verified) || ok)
    {
      if digest.None? || |chain.value| == 0 {
        return false;
      }
      ok := digestOf(digest.value.algorithm, chain.value[0]) == Some(digest.value.value);
      if ok {
        verified := true;
      }
    }

    /** SSLVerifyCallback. */
    method VerifyCallback(presented: Chain)
      modifies this`chain, this`verified, this`rejected
      ensures View() == Presented(old(View()), presented)
    {
      chain := Some(presented);
      if digest.Some? {
        var ok := VerifyPeerCertificate();
        if !ok {
          rejected := true;
        }
      }
    }

    method PresentChains(chains: seq<Chain>)
      modifies this`chain, this`verified, this`rejected
      ensures View() == PresentedAll(old(View()), chains, |chains|)
    {
      var i := 0;
      while i < |chains|
        invariant 0 <= i <= |chains| && View() == PresentedAll(old(View()), chains, i)
      {
        VerifyCallback(chains[i]);
        i := i + 1;
      }
    }

    /** One step of the handshake. */
    method ContinueSSL(h: Handshake) returns (failed: bool)
      requires Valid(View()) && state.SslConnecting?
      modifies this
      ensures Valid(View()) && Outcome(View(), failed) == AfterContinue(old(View()), h)
      decreases h, 1
    {
      ContinueKeeps(View(), h);
      timer := false;
      PresentedAllKeeps(View(), h.chains, |h.chains|);
      PresentChains(h.chains);
      failed := HandshakeStep(h.result, h.listener);
    }

    /** Acts on the library's result. */
    method HandshakeStep(result: HandshakeResult, listener: seq<Call>) returns (failed: bool)
      requires Valid(View()) && state.SslConnecting? && !timer
      modifies this
      ensures Outcome(View(), failed) == AfterStep(old(View()), result, listener)
      decreases listener, 1
    {
      failed := false;
      match if rejected then Failure else result
      case Success =>
        JoinedKeeps(View());
        log := log + HandshakeEvents(!WaitingToVerifyPeerCertificate());
        state := SslConnected;
        if !WaitingToVerifyPeerCertificate() {
          Signal(listener);
        }
      case WantRead(hasTimeout) =>
        if hasTimeout {
          timer := true;
        }
      case WantWrite =>
      case Failure =>
        Signal(listener);
        failed := true;
    }

    method BeginSSL(setupOk: bool, first: Handshake) returns (failed: bool)
      requires Core(View()) && state.SslConnecting? && !ssl && chain.None?
      modifies this
      ensures Outcome(View(), failed) == AfterBegin(old(View()), setupOk, first)
      decreases first, 2
    {
      if !setupOk {
        return true;
      }
      ssl, rejected := true, false;
      failed := ContinueSSL(first);
    }

    /** Accepted once only, and from then on nothing passes in clear. */
    method DoStartSSL(streamOpen: bool, setupOk: bool, first: Handshake)
      requires Valid(View())
      modifies this
      ensures View() == AfterStart(old(View()), streamOpen, setupOk, first)
      decreases first, 3
    {
      if !state.SslNone? {
        return;
      }
      Recorded(log, LeftNone, clientAuth, digestOf);
      log := log + [LeftNone];
      if !streamOpen {
        state := SslWait;
        return;
      }
      state := SslConnecting;
      var failed := BeginSSL(setupOk, first);
      if failed {
        Fail();
      }
    }

    /** The timer's task. The result of ContinueSSL is not looked at. */
    method OnTimeout(retry: Handshake)
      requires Valid(View())
      modifies this
      ensures View() == AfterTimeout(old(View()), retry)
      decreases retry, 2
    {
      if timer {
        timer := false;
        assert ssl;  // DTLSv1_handle_timeout(ssl_)
        var failed := ContinueSSL(retry);
      }
    }

    method DoSetPeerCertificateDigest(accepted: bool, d: Digest) returns (ok: bool)
      modifies this
      ensures View() == if accepted then AfterDigest(old(View()), d) else old(View())
      ensures ok <==> accepted && !DigestOutcome(old(View()), d).Refused?
    {
      if !accepted {  // unknown algorithm or wrong length
        return false;
      }
      log := log + DigestEvents(DigestOutcome(View(), d));
      digest := Some(d);
      if chain.None? {
        return true;
      }
      ok := VerifyPeerCertificate();
      if !ok {
        Fail();
      } else if state.SslConnected? {
        posted := posted + 1;  // PostEvent(SE_OPEN | SE_READ | SE_WRITE)
      }
    }

    // ----- User data -----

    method DoWrite(length: nat, result: IoResult) returns (r: StreamResult)
      requires Valid(View())
      modifies this
      ensures View() == AfterUser(old(View()), false, length, result)
      ensures r == UserResult(false, old(state), old(WaitingToVerifyPeerCertificate()), length, result)
    {
      log := log + UserEvents(state, WaitingToVerifyPeerCertificate(), length, chain, digest);
      match state {
        case SslNone => return SrPassed;
        case SslWait => return SrBlock;
        case SslConnecting => return SrBlock;
        case SslConnected =>
          if WaitingToVerifyPeerCertificate() {
            return SrBlock;
          }
        case SslError => return SrError;
        case SslClosed => return SrError;
      }
      if length == 0 {
        return SrSuccess;
      }
      assert ssl;  // SSL_write(ssl_)
      r := SslWritten(result);
    }

    method SslWritten(result: IoResult) returns (r: StreamResult)
      requires state.SslConnected?
      modifies this
      ensures View() == Ended(old(View()).(writeNeedsRead := result.IoWantRead?), UserState(false, SslConnected, false, 1, result))
      ensures r == UserResult(false, SslConnected, false, 1, result)
    {
      writeNeedsRead := false;
      if result.IoWantRead? {
        writeNeedsRead := true;
        return SrBlock;
      }
      r := WriteEnded(result);
    }

    method WriteEnded(result: IoResult) returns (r: StreamResult)
      requires state.SslConnected? && !result.IoWantRead?
      modifies this
      ensures View() == Ended(old(View()), UserState(false, SslConnected, false, 1, result))
      ensures r == UserResult(false, SslConnected, false, 1, result)
    {
      match result
      case IoOk => r := SrSuccess;
      case IoShort(_) => r := SrSuccess;
      case IoWantWrite => r := SrBlock;
      case IoZeroReturn =>
        Fail();
        r := SrError;
      case IoFailed =>
        Fail();
        r := SrError;
    }

    method DoRead(length: nat, result: IoResult) returns (r: StreamResult)
      requires Valid(View())
      modifies this
      ensures View() == AfterUser(old(View()), true, length, result)
      ensures r == UserResult(true, old(state), old(WaitingToVerifyPeerCertificate()), length, result)
    {
      log := log + UserEvents(state, WaitingToVerifyPeerCertificate(), length, chain, digest);
      match state {
        case SslNone => return SrPassed;
        case SslWait => return SrBlock;
        case SslConnecting => return SrBlock;
        case SslConnected =>
          if WaitingToVerifyPeerCertificate() {
            return SrBlock;
          }
        case SslClosed => return SrEos;
        case SslError => return SrError;
      }
      if length == 0 {
        return SrSuccess;
      }
      assert ssl;  // SSL_read(ssl_)
      r := SslReadDone(result);
    }

    method SslReadDone(result: IoResult) returns (r: StreamResult)
      requires state.SslConnected?
      modifies this
      ensures View() == Ended(old(View()).(readNeedsWrite := result.IoWantWrite?), UserState(true, SslConnected, false, 1, result))
      ensures r == UserResult(true, SslConnected, false, 1, result)
    {
      readNeedsWrite := false;
      if result.IoWantWrite? {
        readNeedsWrite := true;
        return SrBlock;
      }
      r := ReadEnded(result);
    }

    method ReadEnded(result: IoResult) returns (r: StreamResult)
      requires state.SslConnected? && !result.IoWantWrite?
      modifies this
      ensures View() == Ended(old(View()), UserState(true, SslConnected, false, 1, result))
      ensures r == UserResult(true, SslConnected, false, 1, result)
    {
      match result
      case IoOk => r := SrSuccess;
      case IoShort(flushOk) =>
        FlushInput(flushOk);
        r := SrError;
      case IoWantRead => r := SrBlock;
      case IoZeroReturn =>
        Cleanup();
        r := SrEos;
      case IoFailed =>
        Fail();
        r := SrError;
    }

    /** The rest of a short read is thrown away. */
    method FlushInput(ok: bool)
      modifies this
      ensures View() == if ok then old(View()) else Failed(old(View()))
    {
      if !ok {
        Fail();
      }
    }

    // ----- Events of the wrapped stream -----

    /** The SE_OPEN part: starts the handshake in SSL_WAIT, and otherwise passes the event on. */
    method OnOpen(setupOk: bool, first: Handshake) returns (pass: bool, failed: bool)
      requires Valid(View())
      modifies this
      ensures Valid(View()) && Outcome(View(), failed) == AfterOpen(old(View()), setupOk, first) && pass == !old(state.SslWait?)
      decreases first, 3
    {
      OpenKeeps(View(), setupOk, first);
      pass, failed := false, false;
      if !state.SslWait? {
        pass := true;
      } else {
        state := SslConnecting;
        failed := BeginSSL(setupOk, first);
        if failed {
          Fail();
        }
      }
    }

    /** The SE_READ and SE_WRITE part: which of the two go on to the listener. */
    method OnReady(read: bool, write: bool, h: Handshake) returns (readable: bool, writeable: bool, failed: bool)
      requires Valid(View())
      modifies this
      ensures Outcome(View(), failed) == AfterReady(old(View()), h)
      ensures readable == Readable(old(View()), read, write) && writeable == Writeable(old(View()), read, write)
      decreases h, 3
    {
      readable, writeable, failed := false, false, false;
      if state.SslNone? {
        readable, writeable := read, write;
      } else if state.SslConnecting? {
        failed := ContinueSSL(h);
        if failed {
          Fail();
        }
      } else if state.SslConnected? {
        if (read && writeNeedsRead) || write {
          writeable := true;
        }
        if (write && readNeedsWrite) || read {
          readable := true;
        }
      }
    }

    method OpenPart(e: Call) returns (relay: bool, failed: bool)
      requires Valid(View()) && e.StreamEvent?
      modifies this
      ensures Valid(View()) && Outcome(View(), failed) == Opened(old(View()), e) && relay == (e.open && !old(state.SslWait?))
      decreases e, 0
    {
      relay, failed := false, false;
      if e.open {
        relay, failed := OnOpen(e.setupOk, e.first);
      }
    }

    method ReadyPart(e: Call) returns (readable: bool, writeable: bool, failed: bool)
      requires Valid(View()) && e.StreamEvent?
      modifies this
      ensures Outcome(View(), failed) == Woken(old(View()), e)
      ensures readable == Readable(old(View()), e.read, e.write) && writeable == Writeable(old(View()), e.read, e.write)
      decreases e, 0
    {
      readable, writeable, failed := false, false, false;
      if e.read || e.write {
        readable, writeable, failed := OnReady(e.read, e.write, e.next);
      }
    }

    /** The close part, and the SE_OPEN that is about to be passed on. */
    method ClosePart(close: bool, ghost relay: bool, ghost early: bool)
      modifies this
      ensures View() == Concluded(old(View()), close, relay, early)
    {
      if close {
        Cleanup();
      }
      log := log + if relay then RelayEvents(early) else [];
    }

    /** OnEvent up to its own signal. */
    method PassOn(e: Call) returns (signals: Signals)
      requires Valid(View()) && e.StreamEvent?
      modifies this
      ensures Passing(View(), signals) == BeforeSignal(old(View()), e)
      decreases e, 1
    {
      ghost var early := state.SslNone?;
      var relay, failed := OpenPart(e);
      if failed {
        return Signals(false, false, false, true);
      }
      var readable, writeable, failed' := ReadyPart(e);
      if failed' {
        return Signals(false, false, false, true);
      }
      ClosePart(e.close, relay, early);
      signals := Signals(relay, readable, writeable, e.close);
    }

    /** Events of the wrapped stream. The listener is signalled if there is anything to signal. */
    method OnEvent(e: Call) returns (signals: Signals)
      requires Valid(View()) && e.StreamEvent?
      modifies this
      ensures View() == AfterEvent(old(View()), e) && signals == BeforeSignal(old(View()), e).signals
      decreases e, 2
    {
      BeforeKeeps(View(), e);
      signals := PassOn(e);
      if signals.open || signals.read || signals.write || signals.close {
        Signal(e.listener);
      }
    }
  }

  // ----- Runs -----

  lemma FreshValid(auth: bool, digestOf: (string, Cert) -> Option<seq<Byte>>)
    ensures Valid(Fresh(auth, digestOf))
  {
  }

  /** Every run, re-entrant listeners included, ends as the machine says. It has a safe
      history, and a running timer finds a handshake in progress on a live ssl_. SE_OPEN is
      issued as often as the handshake ends with a trusted peer, a matching digest comes
      late, or the stream opens late. If callers keep their contracts, it is with client
      authentication issued once when handshake and verification are both over, and not
      before; without, once for the handshake, and a second time exactly if a matching digest
      comes after it. */
  method Run(clientAuth: bool, digestOf: (string, Cert) -> Option<seq<Byte>>, calls: seq<Call>) returns (a: StreamAdapter)
    ensures fresh(a) && a.View() == AfterAll(Fresh(clientAuth, digestOf), calls, |calls|) && Valid(a.View())
    ensures Safe(a.log, clientAuth, digestOf)
    ensures a.timer ==> a.state.SslConnecting? && a.ssl
    ensures (exists i :: 0 <= i < |calls| && (calls[i].StartSSL? || calls[i].Close?)) ==> LeftNone in a.log
    ensures (exists i :: 0 <= i < |calls| && calls[i].Close?) ==> Dead(a.state)
    ensures Count(a.log, Opens) == Count(a.log, Direct) + Count(a.log, LateDigest) + Count(a.log, LateStream)
    ensures Count(a.log, Digests) <= AllCauses(calls, Digests) && Count(a.log, LateStream) <= AllCauses(calls, LateStream)
    ensures Count(a.log, Direct) + Count(a.log, Pending) == if Shaken(a.log) then 1 else 0
    ensures clientAuth && InContract(a.log) ==> Count(a.log, Opens) == if Ready(a.View()) then 1 else 0
    ensures !clientAuth && InContract(a.log) ==> Count(a.log, Opens) == (if Shaken(a.log) then 1 else 0) + Count(a.log, LateDigest) <= 2
    ensures !clientAuth && InContract(a.log) ==> (Count(a.log, Opens) == 2 <==> Count(a.log, LateDigest) == 1)
  {
    a := new StreamAdapter(clientAuth, digestOf);
    FreshValid(clientAuth, digestOf);
    a.Signal(calls);
    Outcomes(clientAuth, digestOf, calls);
  }

  lemma Outcomes(auth: bool, digestOf: (string, Cert) -> Option<seq<Byte>>, calls: seq<Call>)
    ensures var a := AfterAll(Fresh(auth, digestOf), calls, |calls|);
            && Valid(a) && a.auth == auth && a.digestOf == digestOf && Balanced(a.log, false, auth)
            && Count(a.log, Digests) <= AllCauses(calls, Digests) && Count(a.log, LateStream) <= AllCauses(calls, LateStream)
            && ((exists i :: 0 <= i < |calls| && (calls[i].StartSSL? || calls[i].Close?)) ==> LeftNone in a.log)
            && ((exists i :: 0 <= i < |calls| && calls[i].Close?) ==> Dead(a.state))
  {
    var start := Fresh(auth, digestOf);
    FreshValid(auth, digestOf);
    AllKeeps(start, calls, |calls|);
    Accounts(AfterAll(start, calls, |calls|).log, auth);
    if i :| 0 <= i < |calls| && (calls[i].StartSSL? || calls[i].Close?) {
      LeavesClear(start, calls, i);
    }
    if i :| 0 <= i < |calls| && calls[i].Close? {
      CloseIsFinal(start, calls, i);
    }
  }

  /** Without client authentication the open event can be issued twice: by the handshake,
      and again by a matching digest that arrives later. */
  lemma OpenTwice(digestOf: (string, Cert) -> Option<seq<Byte>>, cert: Cert, d: Digest)
    requires digestOf(d.algorithm, cert) == Some(d.value)
    ensures var a := After(After(Fresh(false, digestOf), StartSSL(true, true, Handshake([[cert]], Success, []))), SetPeerCertificateDigest(true, d));
            Valid(a) && InContract(a.log) && Count(a.log, Opens) == 2
  {
    var start, h := Fresh(false, digestOf), Handshake([[cert]], Success, []);
    FreshValid(false, digestOf);
    StartLaws(start, true, true, h);
    CallKeeps(start, StartSSL(true, true, h));
    var a := After(start, StartSSL(true, true, h));
    FirstChain(start, h);
    assert Matches(digestOf, a.chain, Some(d));
    DigestLaws(a, d);
    CallKeeps(a, SetPeerCertificateDigest(true, d));
    OneLateDigest();
    Accounts(After(a, SetPeerCertificateDigest(true, d)).log, false);
  }

  lemma FirstChain(a: Adapter, h: Handshake)
    requires Valid(a) && a.state.SslNone? && a.digest.None? && h.chains != [] && h.listener == [] && h.result.Success?
    ensures After(a, StartSSL(true, true, h)).chain == Some(h.chains[|h.chains| - 1])
  {
    var b := a.(log := a.log + [LeftNone]).(state := SslConnecting);
    Recorded(a.log, LeftNone, a.auth, a.digestOf);
    ContinueIdle(b.(ssl := true, rejected := false), h);
    assert AfterBegin(b, true, h) == AfterContinue(b.(ssl := true, rejected := false), h);
    assert AfterStart(a, true, true, h) == OrFailed(AfterBegin(b, true, h));
  }

  lemma OneLateDigest()
    ensures var log := [] + [LeftNone] + HandshakeEvents(true) + [DigestGiven(Late), Open];
            Count(log, LateDigest) == 1 && Count(log, Digests) == 1 && Count(log, LateStream) == 0
  {
    var log := [LeftNone, HandshakeDone(true), Open];
    assert [] + [LeftNone] + HandshakeEvents(true) + [DigestGiven(Late), Open] == log + [DigestGiven(Late)] + [Open];
    CountsExtended(log, DigestGiven(Late));
    CountsExtended(log + [DigestGiven(Late)], Open);
    NoneCounted(log, LateDigest);
    NoneCounted(log, Digests);
    NoneCounted(log, LateStream);
  }

  lemma NoneCounted(log: seq<Event>, kind: Kind)
    requires forall i :: 0 <= i < |log| ==> !Is(log[i], kind)
    ensures Count(log, kind) == 0
  {
  }
}
