/** The sending half of openssl_adapter.cc: bytes the library could not take are kept and
    offered again. Results of the library are inputs, and so is what listeners do when they
    are signalled, which may be to send, receive or close. */
module PendingWrites {
  import opened Bytes

  // ----- Subsequences -----

  /** `r` is what is left of `s` after some elements are dropped. */
  predicate Embeds<T(==)>(r: seq<T>, s: seq<T>) {
    r == [] || (s != [] && (Embeds(r, s[1..]) || (r[0] == s[0] && Embeds(r[1..], s[1..]))))
  }

  lemma {:induction false} EmbedsItself<T>(s: seq<T>)
    ensures Embeds(s, s)
  {
    if s != [] {
      EmbedsItself(s[1..]);
    }
  }

  lemma TailOfConcat<T>(a: seq<T>, b: seq<T>)
    requires a != []
    ensures (a + b)[0] == a[0] && (a + b)[1..] == a[1..] + b
  {
  }

  lemma {:induction false} EmbedsBefore<T>(r: seq<T>, x: seq<T>, s: seq<T>)
    requires Embeds(r, s)
    ensures Embeds(r, x + s)
  {
    if x == [] {
      assert x + s == s;
    } else {
      EmbedsBefore(r, x[1..], s);
      TailOfConcat(x, s);
    }
  }

  lemma {:induction false} EmbedsInserted<T>(r: seq<T>, a: seq<T>, x: seq<T>, p: seq<T>)
    requires Embeds(r, a + p)
    ensures Embeds(r, a + x + p)
    decreases |a|
  {
    if a == [] {
      assert a + p == p && a + x + p == x + p;
      EmbedsBefore(r, x, p);
    } else if r != [] {
      TailOfConcat(a, p);
      TailOfConcat(a, x);
      TailOfConcat(a + x, p);
      if Embeds(r, (a + p)[1..]) {
        EmbedsInserted(r, a[1..], x, p);
      } else {
        EmbedsInserted(r[1..], a[1..], x, p);
      }
    }
  }

  lemma {:induction false} EmbedsAppended<T>(r: seq<T>, s: seq<T>, t: seq<T>)
    requires Embeds(r, s)
    ensures Embeds(r + t, s + t)
    decreases |s|
  {
    if r == [] {
      EmbedsItself(t);
      assert r + t == t;
      EmbedsBefore(t, s, t);
    } else {
      TailOfConcat(r, t);
      TailOfConcat(s, t);
      if Embeds(r, s[1..]) {
        EmbedsAppended(r, s[1..], t);
      } else {
        EmbedsAppended(r[1..], s[1..], t);
      }
    }
  }

  /** No loss and no duplication is no surplus: an embedding of equal length is equality. */
  lemma {:induction false} EmbedsEqualLength<T>(r: seq<T>, s: seq<T>)
    requires Embeds(r, s)
    ensures |r| <= |s| && (|r| == |s| ==> r == s)
    decreases |s|
  {
    if r != [] {
      if Embeds(r, s[1..]) {
        EmbedsEqualLength(r, s[1..]);
      } else {
        EmbedsEqualLength(r[1..], s[1..]);
        assert r == [r[0]] + r[1..] && s == [s[0]] + s[1..];
      }
    }
  }

  // ----- The adapter -----

  datatype SslState = SslNone | SslWait | SslConnecting | SslConnected | SslError

  /** What SSL_write does with what it is offered; a part is a proper part of two bytes or more. */
  datatype WriteResult = All | Part(n: nat) | WantRead | WantWrite | ZeroReturn | Failed

  datatype ReadResult = ReadOk | ReadBlocked(needsWrite: bool) | ReadFailed

  datatype Call =
    | StartSSL(connected: bool)
    | ConnectEvent
    | Handshake(ok: bool)
    | Send(data: seq<Byte>, retry: WriteResult, first: WriteResult)
    | Recv(got: ReadResult)
    | WriteEvent(readers: seq<Call>, result: WriteResult, writers: seq<Call>)
    | ReadEvent(writers: seq<Call>, readers: seq<Call>)
    | Close

  /** How much of `data` SSL_write takes: with partial writes enabled any positive amount. */
  function Taken(data: seq<Byte>, result: WriteResult): (n: nat)
    requires data != []
    ensures n <= |data| && (n > 0 <==> result.All? || result.Part?)
    ensures n == |data| <==> result.All? || (result.Part? && |data| == 1)
  {
    match result
    case All => |data|
    case Part(n) => if n == 0 || |data| == 1 then 1 else if n < |data| then n else |data| - 1
    case _ => 0
  }

  predicate Blocks(result: WriteResult) {
    result.WantRead? || result.WantWrite?
  }

  /** What Send returns while connected, with -1 for SOCKET_ERROR. */
  function SendResult(pending: seq<Byte>, data: seq<Byte>, retry: WriteResult, first: WriteResult): (ret: int)
    ensures -1 <= ret <= |data|
  {
    if pending != [] && Taken(pending, retry) < |pending| then -1
    else if data == [] then 0
    else if Blocks(first) then |data|
    else if Taken(data, first) > 0 then Taken(data, first)
    else -1
  }

  // ----- The history of library calls -----

  /** One call of SSL_write: with pending data again or with new data, and how much it took. */
  datatype Attempt = Attempt(retry: bool, offered: seq<Byte>, taken: nat)

  /** A retry that stops half way: its data stays pending as a whole. */
  predicate HalfWay(w: Attempt) {
    w.retry && 0 < w.taken < |w.offered|
  }

  predicate NoneHalfWay(ws: seq<Attempt>) {
    forall i :: 0 <= i < |ws| ==> !HalfWay(ws[i])
  }

  /** All bytes the library was given and took, in order. */
  function TakenBy(ws: seq<Attempt>): seq<Byte> {
    if ws == [] then []
    else
      var w := ws[|ws| - 1];
      TakenBy(ws[..|ws| - 1]) + w.offered[..if w.taken <= |w.offered| then w.taken else 0]
  }

  function Surplus(ws: seq<Attempt>): nat {
    if ws == [] then 0
    else
      var w := ws[|ws| - 1];
      Surplus(ws[..|ws| - 1]) + if HalfWay(w) then w.taken else 0
  }

  lemma Logged(ws: seq<Attempt>, w: Attempt)
    requires w.taken <= |w.offered|
    ensures TakenBy(ws + [w]) == TakenBy(ws) + w.offered[..w.taken]
    ensures Surplus(ws + [w]) == Surplus(ws) + if HalfWay(w) then w.taken else 0
    ensures NoneHalfWay(ws + [w]) <==> NoneHalfWay(ws) && !HalfWay(w)
  {
    assert (ws + [w])[..|ws|] == ws && (ws + [w])[|ws|] == w;
  }

  lemma {:induction false} SurplusIsHalfWay(ws: seq<Attempt>)
    ensures Surplus(ws) == 0 <==> NoneHalfWay(ws)
  {
    if ws != [] {
      var n := |ws| - 1;
      SurplusIsHalfWay(ws[..n]);
      assert forall i :: 0 <= i < n ==> ws[..n][i] == ws[i];
    }
  }

  // ----- The specification -----

  /** What an adapter holds, its history since the last Cleanup, and all calls of the library
      there ever were. */
  datatype Snapshot = Snapshot(state: SslState, pending: seq<Byte>, readNeedsWrite: bool, writeNeedsRead: bool,
                               reported: seq<Byte>, writes: seq<Attempt>, ever: seq<Attempt>)

  const Initial := Snapshot(SslNone, [], false, false, [], [], [])

  function StateAfter(state: SslState, result: WriteResult): SslState {
    if result.Failed? then SslError else state
  }

  /** The pending data, if there is any, is offered again: it stays unless all of it is taken. */
  function AfterRetry(s: Snapshot, result: WriteResult): Snapshot {
    if s.pending == [] then s
    else
      var n := Taken(s.pending, result);
      s.(state := StateAfter(s.state, result), writeNeedsRead := result.WantRead?,
         pending := if n == |s.pending| then [] else s.pending,
         writes := s.writes + [Attempt(true, s.pending, n)], ever := s.ever + [Attempt(true, s.pending, n)])
  }

  /** New data is offered, and kept if the library has no room. */
  function AfterNew(s: Snapshot, data: seq<Byte>, result: WriteResult): Snapshot {
    if data == [] then s
    else
      var n := Taken(data, result);
      s.(state := StateAfter(s.state, result), writeNeedsRead := result.WantRead?, pending := if Blocks(result) then data else [],
         reported := s.reported + (if Blocks(result) then data else data[..n]),
         writes := s.writes + [Attempt(false, data, n)], ever := s.ever + [Attempt(false, data, n)])
  }

  function AfterSend(s: Snapshot, data: seq<Byte>, retry: WriteResult, first: WriteResult): Snapshot {
    if !s.state.SslConnected? then s
    else
      var s' := AfterRetry(s, retry);
      if s'.pending != [] then s' else AfterNew(s', data, first)
  }

  /** The pending data goes first, and unless all of it is taken nothing else is tried. */
  lemma SendCases(s: Snapshot, data: seq<Byte>, retry: WriteResult, first: WriteResult)
    requires s.state.SslConnected?
    ensures var s', ret := AfterRetry(s, retry), SendResult(s.pending, data, retry, first);
            && s'.reported == s.reported
            && if s'.pending == []
               then s'.state.SslConnected? && AfterSend(s, data, retry, first) == AfterNew(s', data, first) && ret == SendResult([], data, first, first)
               else AfterSend(s, data, retry, first) == s' && ret == -1
  {
  }

  function AfterRecv(s: Snapshot, got: ReadResult): Snapshot {
    if !s.state.SslConnected? then s
    else s.(state := if got.ReadFailed? then SslError else s.state, readNeedsWrite := got.ReadBlocked? && got.needsWrite)
  }

  function After(s: Snapshot, call: Call): Snapshot
    decreases call, 0
  {
    match call
    case StartSSL(connected) => if s.state.SslNone? then s.(state := if connected then SslConnecting else SslWait) else s
    case ConnectEvent => if s.state.SslWait? then s.(state := SslConnecting) else s
    case Handshake(ok) => if s.state.SslConnecting? then s.(state := if ok then SslConnected else SslError) else s
    case Send(data, retry, first) => AfterSend(s, data, retry, first)
    case Recv(got) => AfterRecv(s, got)
    case WriteEvent(readers, result, writers) =>
      if !s.state.SslConnected? then s
      else AfterAll(AfterRetry(if s.readNeedsWrite then AfterAll(s, readers, |readers|) else s, result), writers, |writers|)
    case ReadEvent(writers, readers) =>
      if !s.state.SslConnected? then s
      else AfterAll(if s.writeNeedsRead then AfterAll(s, writers, |writers|) else s, readers, |readers|)
    case Close => Initial.(ever := s.ever)
  }

  /** The first n calls, each with all that its listeners do. */
  function AfterAll(s: Snapshot, calls: seq<Call>, n: nat): Snapshot
    requires n <= |calls|
    decreases calls, n
  {
    if n == 0 then s else After(AfterAll(s, calls, n - 1), calls[n - 1])
  }

  /** In this script of calls, and in those of the listeners, no retry takes a part. */
  predicate AllOrNothing(call: Call)
    decreases call, 0
  {
    match call
    case Send(_, retry, _) => !retry.Part?
    case WriteEvent(readers, result, writers) => !result.Part? && EachAllOrNothing(readers) && EachAllOrNothing(writers)
    case ReadEvent(writers, readers) => EachAllOrNothing(writers) && EachAllOrNothing(readers)
    case _ => true
  }

  predicate EachAllOrNothing(calls: seq<Call>)
    decreases calls, 1
  {
    forall i :: 0 <= i < |calls| ==> AllOrNothing(calls[i])
  }

  // ----- Laws -----

  /** What was reported has been taken or is pending, and the surplus is what half-way retries took. */
  ghost predicate Balanced(s: Snapshot) {
    Embeds(s.reported, TakenBy(s.writes) + s.pending) && |TakenBy(s.writes)| + |s.pending| == |s.reported| + Surplus(s.writes)
  }

  /** A retry loses nothing, and repeats what it took if it stops half way. */
  lemma RetryBalanced(s: Snapshot, result: WriteResult)
    requires Balanced(s)
    ensures Balanced(AfterRetry(s, result))
  {
    if s.pending != [] {
      var n, taken := Taken(s.pending, result), TakenBy(s.writes);
      Logged(s.writes, Attempt(true, s.pending, n));
      EmbedsInserted(s.reported, taken, s.pending[..n], s.pending);
      if n == |s.pending| {
        assert taken + s.pending[..n] + [] == taken + s.pending;
      }
    }
  }

  /** New data is promised as far as it is taken or kept. */
  lemma NewBalanced(s: Snapshot, data: seq<Byte>, result: WriteResult)
    requires Balanced(s) && s.pending == []
    ensures Balanced(AfterNew(s, data, result))
  {
    if data != [] {
      var n, taken := Taken(data, result), TakenBy(s.writes);
      Logged(s.writes, Attempt(false, data, n));
      assert taken + [] == taken && taken + data[..n] + [] == taken + data[..n];
      EmbedsAppended(s.reported, taken, data[..n]);
      EmbedsAppended(s.reported, taken, data);
      assert n == 0 ==> taken + data[..n] == taken;
    }
  }

  /** Whatever is called, and whatever listeners do, nothing that was reported is lost. */
  lemma {:induction false} BalancedAfter(s: Snapshot, call: Call)
    requires Balanced(s)
    ensures Balanced(After(s, call))
    decreases call, 0
  {
    match call
    case Send(data, retry, first) =>
      RetryBalanced(s, retry);
      var s' := AfterRetry(s, retry);
      if s'.pending == [] {
        NewBalanced(s', data, first);
      }
    case WriteEvent(readers, result, writers) =>
      BalancedAll(s, readers, |readers|);
      var mid := if s.readNeedsWrite then AfterAll(s, readers, |readers|) else s;
      RetryBalanced(mid, result);
      BalancedAll(AfterRetry(mid, result), writers, |writers|);
    case ReadEvent(writers, readers) =>
      BalancedAll(s, writers, |writers|);
      BalancedAll(if s.writeNeedsRead then AfterAll(s, writers, |writers|) else s, readers, |readers|);
    case _ =>
  }

  lemma {:induction false} BalancedAll(s: Snapshot, calls: seq<Call>, n: nat)
    requires n <= |calls| && Balanced(s)
    ensures Balanced(AfterAll(s, calls, n))
    decreases calls, n
  {
    if n > 0 {
      BalancedAll(s, calls, n - 1);
      BalancedAfter(AfterAll(s, calls, n - 1), calls[n - 1]);
    }
  }

  /** A script is done call by call. */
  lemma {:induction false} AfterPrefix(s: Snapshot, calls: seq<Call>, more: seq<Call>, n: nat)
    requires n <= |calls|
    ensures AfterAll(s, calls + more, n) == AfterAll(s, calls, n)
  {
    if n > 0 {
      AfterPrefix(s, calls, more, n - 1);
      assert (calls + more)[n - 1] == calls[n - 1];
    }
  }

  lemma AfterOneMore(s: Snapshot, calls: seq<Call>, call: Call)
    ensures AfterAll(s, calls + [call], |calls| + 1) == After(AfterAll(s, calls, |calls|), call)
  {
    AfterPrefix(s, calls, [call], |calls|);
    assert (calls + [call])[|calls|] == call;
  }

  /** Whatever is called, and whatever listeners do, no call of the library is forgotten. */
  lemma {:induction false} EverGrows(s: Snapshot, call: Call)
    ensures s.ever <= After(s, call).ever
    decreases call, 0
  {
    match call
    case WriteEvent(readers, result, writers) =>
      EverGrowsAll(s, readers, |readers|);
      var mid := AfterRetry(if s.readNeedsWrite then AfterAll(s, readers, |readers|) else s, result);
      EverGrowsAll(mid, writers, |writers|);
    case ReadEvent(writers, readers) =>
      EverGrowsAll(s, writers, |writers|);
      var mid := if s.writeNeedsRead then AfterAll(s, writers, |writers|) else s;
      EverGrowsAll(mid, readers, |readers|);
    case _ =>
  }

  lemma {:induction false} EverGrowsAll(s: Snapshot, calls: seq<Call>, n: nat)
    requires n <= |calls|
    ensures s.ever <= AfterAll(s, calls, n).ever
    decreases calls, n
  {
    if n > 0 {
      EverGrowsAll(s, calls, n - 1);
      EverGrows(AfterAll(s, calls, n - 1), calls[n - 1]);
    }
  }

  /** A write event while connected offers the library, once, whatever is pending when the
      readers are done, before anything the writers do. */
  lemma WriteEventRetries(s: Snapshot, e: Call)
    requires e.WriteEvent? && s.state.SslConnected?
    ensures var mid := if s.readNeedsWrite then AfterAll(s, e.readers, |e.readers|) else s;
            mid.pending != [] ==> mid.ever + [Attempt(true, mid.pending, Taken(mid.pending, e.result))] <= After(s, e).ever
    ensures (!s.readNeedsWrite || e.readers == []) && e.writers == [] ==>
              After(s, e).ever == s.ever + if s.pending == [] then [] else [Attempt(true, s.pending, Taken(s.pending, e.result))]
  {
    var mid := if s.readNeedsWrite then AfterAll(s, e.readers, |e.readers|) else s;
    EverGrowsAll(AfterRetry(mid, e.result), e.writers, |e.writers|);
    assert s.ever + [] == s.ever;
  }

  lemma IdleWrite(s: Snapshot, result: WriteResult)
    requires s.state.SslConnected?
    ensures After(s, WriteEvent([], result, [])) == AfterRetry(s, result)
  {
    assert AfterAll(s, [], 0) == s && AfterAll(AfterRetry(s, result), [], 0) == AfterRetry(s, result);
  }

  /** If nobody interferes and the library takes all, nothing is pending afterwards. */
  lemma FlushedIdle(s: Snapshot, e: Call)
    requires e.WriteEvent? && s.state.SslConnected?
    ensures e.readers == [] && e.writers == [] && e.result.All? ==>
              var s' := After(s, e);
              s'.state == s.state && s'.pending == [] && s'.reported == s.reported && TakenBy(s'.writes) == TakenBy(s.writes) + s.pending
  {
    if s.pending != [] {
      Logged(s.writes, Attempt(true, s.pending, |s.pending|));
      assert s.pending[..|s.pending|] == s.pending;
    } else {
      assert TakenBy(s.writes) + [] == TakenBy(s.writes);
    }
    assert AfterAll(s, [], 0) == s && AfterAll(AfterRetry(s, All), [], 0) == AfterRetry(s, All);
  }

  /** Send offers the pending data first and the new data only once that is gone. */
  lemma SendOffers(s: Snapshot, data: seq<Byte>, retry: WriteResult, first: WriteResult)
    requires s.state.SslConnected?
    ensures var again := if s.pending == [] then [] else [Attempt(true, s.pending, Taken(s.pending, retry))];
            var blocked := s.pending != [] && Taken(s.pending, retry) < |s.pending|;
            After(s, Send(data, retry, first)).ever
            == s.ever + again + if data == [] || blocked then [] else [Attempt(false, data, Taken(data, first))]
  {
    assert s.ever + [] == s.ever;
  }

  /** What a listener sends when it is signalled is sent. */
  lemma ListenersHeard(s: Snapshot, data: seq<Byte>, retry: WriteResult)
    requires s.state.SslConnected? && s.pending == []
    ensures var send := Send(data, All, All);
            && After(s, WriteEvent([], retry, [send])).reported == s.reported + data
            && (s.readNeedsWrite ==> After(s, WriteEvent([send], retry, [])).reported == s.reported + data)
            && After(s, ReadEvent([], [send])).reported == s.reported + data
            && (s.writeNeedsRead ==> After(s, ReadEvent([send], [])).reported == s.reported + data)
  {
    var send := Send(data, All, All);
    var sent := After(s, send);
    assert data[..|data|] == data && s.reported + [] == s.reported;
    assert sent.reported == s.reported + data && sent.pending == [];
    assert AfterAll(s, [send], 1) == sent;
    assert AfterAll(s, [], 0) == s && AfterAll(sent, [], 0) == sent;
  }

  /** After an error nothing happens until the socket is closed. */
  lemma ErrorIsFinal(s: Snapshot, call: Call)
    requires s.state.SslError?
    ensures After(s, call) == if call.Close? then Initial.(ever := s.ever) else s
  {
  }

  /** A failed write is an error, and so is a failed read or handshake. */
  lemma FailuresAreErrors(s: Snapshot, data: seq<Byte>)
    requires s.state.SslConnected?
    ensures s.pending != [] ==> After(s, Send(data, Failed, All)).state.SslError? && After(s, WriteEvent([], Failed, [])).state.SslError?
    ensures s.pending == [] && data != [] ==> After(s, Send(data, All, Failed)).state.SslError?
    ensures After(s, Recv(ReadFailed)).state.SslError? && After(s.(state := SslConnecting), Handshake(false)).state.SslError?
  {
    assert AfterAll(AfterRetry(s, Failed), [], 0) == AfterRetry(s, Failed);
  }

  /** A retry counts as stopped half way exactly if it takes a proper part. */
  lemma RetryHalfWay(s: Snapshot, result: WriteResult)
    requires s.pending != []
    ensures NoneHalfWay(AfterRetry(s, result).writes) <==> NoneHalfWay(s.writes) && !(result.Part? && |s.pending| > 1)
  {
    Logged(s.writes, Attempt(true, s.pending, Taken(s.pending, result)));
  }

  lemma NewNotHalfWay(s: Snapshot, data: seq<Byte>, result: WriteResult)
    ensures NoneHalfWay(AfterNew(s, data, result).writes) <==> NoneHalfWay(s.writes)
  {
    if data != [] {
      Logged(s.writes, Attempt(false, data, Taken(data, result)));
    }
  }

  /** If no retry of the script takes a part, none of the calls of the library did. */
  lemma {:induction false} NoneHalfWayAfter(s: Snapshot, call: Call)
    requires AllOrNothing(call) && NoneHalfWay(s.writes)
    ensures NoneHalfWay(After(s, call).writes)
    decreases call, 0
  {
    match call
    case Send(data, retry, first) =>
      var s' := AfterRetry(s, retry);
      if s.pending != [] {
        RetryHalfWay(s, retry);
      }
      NewNotHalfWay(s', data, first);
    case WriteEvent(readers, result, writers) =>
      NoneHalfWayAll(s, readers, |readers|);
      var mid := if s.readNeedsWrite then AfterAll(s, readers, |readers|) else s;
      if mid.pending != [] {
        RetryHalfWay(mid, result);
      }
      NoneHalfWayAll(AfterRetry(mid, result), writers, |writers|);
    case ReadEvent(writers, readers) =>
      NoneHalfWayAll(s, writers, |writers|);
      var mid := if s.writeNeedsRead then AfterAll(s, writers, |writers|) else s;
      NoneHalfWayAll(mid, readers, |readers|);
    case _ =>
  }

  lemma {:induction false} NoneHalfWayAll(s: Snapshot, calls: seq<Call>, n: nat)
    requires n <= |calls| && NoneHalfWay(s.writes)
    ensures EachAllOrNothing(calls) ==> NoneHalfWay(AfterAll(s, calls, n).writes)
    decreases calls, n
  {
    if n > 0 && EachAllOrNothing(calls) {
      NoneHalfWayAll(s, calls, n - 1);
      NoneHalfWayAfter(AfterAll(s, calls, n - 1), calls[n - 1]);
    }
  }

  /** Connecting, whether the socket is connected already or not. */
  function Connecting(connected: bool): (calls: seq<Call>) {
    if connected then [StartSSL(true), Handshake(true)] else [StartSSL(false), ConnectEvent, Handshake(true)]
  }

  /** One chunk, taken at once or, if the library blocks, when the socket is writable again. */
  function Sending(data: seq<Byte>, blocks: bool, wantsRead: bool): seq<Call> {
    if blocks then [Send(data, All, if wantsRead then WantRead else WantWrite), WriteEvent([], All, [])] else [Send(data, All, All)]
  }

  datatype Chunk = Chunk(data: seq<Byte>, blocks: bool, wantsRead: bool)

  function Script(connected: bool, chunks: seq<Chunk>): seq<Call> {
    if chunks == [] then Connecting(connected)
    else
      var c := chunks[|chunks| - 1];
      Script(connected, chunks[..|chunks| - 1]) + Sending(c.data, c.blocks, c.wantsRead)
  }

  function Joined(chunks: seq<Chunk>): seq<Byte> {
    if chunks == [] then [] else Joined(chunks[..|chunks| - 1]) + chunks[|chunks| - 1].data
  }

  /** Everything went through, and nothing is left. */
  predicate Through(s: Snapshot, data: seq<Byte>) {
    s.state.SslConnected? && s.pending == [] && s.reported == data && TakenBy(s.writes) == data
  }

  lemma ConnectedThrough(connected: bool)
    ensures Through(AfterAll(Initial, Connecting(connected), |Connecting(connected)|), [])
  {
    var calls := Connecting(connected);
    assert AfterAll(Initial, calls, 1) == After(AfterAll(Initial, calls, 0), calls[0]);
    assert AfterAll(Initial, calls, 2) == After(AfterAll(Initial, calls, 1), calls[1]);
  }

  lemma SentThrough(s: Snapshot, sent: seq<Byte>, data: seq<Byte>)
    requires Through(s, sent)
    ensures Through(After(s, Send(data, All, All)), sent + data)
  {
    if data == [] {
      assert sent + data == sent;
    } else {
      Logged(s.writes, Attempt(false, data, |data|));
      assert data[..|data|] == data;
    }
  }

  lemma BlockedThrough(s: Snapshot, sent: seq<Byte>, data: seq<Byte>, result: WriteResult)
    requires Through(s, sent) && Blocks(result)
    ensures Through(After(After(s, Send(data, All, result)), WriteEvent([], All, [])), sent + data)
  {
    var s' := After(s, Send(data, All, result));
    if data == [] {
      assert sent + data == sent;
    } else {
      Logged(s.writes, Attempt(false, data, 0));
      assert data[..0] == [] && sent + [] == sent;
    }
    FlushedIdle(s', WriteEvent([], All, []));
  }

  /** Whatever is sent over a working connection, in whatever chunks, reaches the library in
      order and exactly once, if the library takes what it had no room for when the socket
      becomes writable. */
  lemma {:induction false} AllGoesThrough(connected: bool, chunks: seq<Chunk>)
    ensures var calls := Script(connected, chunks); Through(AfterAll(Initial, calls, |calls|), Joined(chunks))
  {
    if chunks == [] {
      ConnectedThrough(connected);
    } else {
      var n := |chunks| - 1;
      AllGoesThrough(connected, chunks[..n]);
      ChunkThrough(Script(connected, chunks[..n]), Joined(chunks[..n]), chunks[n]);
    }
  }

  lemma ChunkThrough(calls: seq<Call>, sent: seq<Byte>, c: Chunk)
    requires Through(AfterAll(Initial, calls, |calls|), sent)
    ensures var calls' := calls + Sending(c.data, c.blocks, c.wantsRead); Through(AfterAll(Initial, calls', |calls'|), sent + c.data)
  {
    var s := AfterAll(Initial, calls, |calls|);
    if c.blocks {
      var send, ready := Send(c.data, All, if c.wantsRead then WantRead else WantWrite), WriteEvent([], All, []);
      AfterOneMore(Initial, calls, send);
      AfterOneMore(Initial, calls + [send], ready);
      assert calls + [send] + [ready] == calls + [send, ready];
      BlockedThrough(s, sent, c.data, send.first);
    } else {
      AfterOneMore(Initial, calls, Send(c.data, All, All));
      SentThrough(s, sent, c.data);
    }
  }

  class TlsSocket {
    var state: SslState
    var pending: seq<Byte>
    var readNeedsWrite: bool
    var writeNeedsRead: bool

    // since the last Cleanup:
    ghost var reported: seq<Byte>   // what Send has told its callers is sent
    ghost var writes: seq<Attempt>  // the calls of SSL_write
    ghost var ever: seq<Attempt>    // the same and all before it
    ghost var owed: seq<Byte>       // what the library insists on being given next; empty if anything will do

    ghost predicate Valid()
      reads this
    {
      && (pending != [] ==> state.SslConnected? || state.SslError?)
      && (owed != [] ==> owed == pending)
    }

    ghost function View(): Snapshot
      reads this
    {
      Snapshot(state, pending, readNeedsWrite, writeNeedsRead, reported, writes, ever)
    }

    constructor ()
      ensures Valid() && View() == Initial
    {
      state, pending, readNeedsWrite, writeNeedsRead := SslNone, [], false, false;
      reported, writes, ever, owed := [], [], [], [];
    }

    /** Pending data is discarded with the connection. */
    method Cleanup()
      modifies this
      ensures Valid() && View() == Initial.(ever := old(ever))
    {
      state, readNeedsWrite, writeNeedsRead, pending := SslNone, false, false, [];
      reported, writes, owed := [], [], [];
    }

    /** The library may only be called again with what it is owed. */
    method DoSslWrite(data: seq<Byte>, result: WriteResult) returns (ret: int)
      requires data != [] && (pending == [] || data == pending)
      requires owed != [] ==> data == owed
      modifies this`state, this`writeNeedsRead, this`writes, this`ever, this`owed
      ensures writes == old(writes) + [Attempt(pending != [], data, Taken(data, result))]
      ensures ever == old(ever) + [Attempt(pending != [], data, Taken(data, result))]
      ensures ret == if Taken(data, result) > 0 then Taken(data, result) else -1
      ensures owed == if Blocks(result) then data else []
      ensures state == StateAfter(old(state), result) && writeNeedsRead == result.WantRead?
    {
      writeNeedsRead := false;
      ret := -1;
      owed := [];
      match result {
        case All => ret := |data|;
        case Part(_) => ret := Taken(data, result);
        case WantRead => writeNeedsRead := true;
        case WantWrite =>
        case ZeroReturn =>
        case Failed => state := SslError;
      }
      if Blocks(result) {
        owed := data;
      }
      ghost var w := Attempt(pending != [], data, Taken(data, result));
      writes, ever := writes + [w], ever + [w];
    }

    /** Offers the pending data again. Unless all of it is taken, all of it is kept. */
    method Retry(result: WriteResult) returns (done: bool)
      requires Valid() && pending != []
      modifies this`state, this`writeNeedsRead, this`writes, this`ever, this`owed, this`pending
      ensures Valid() && View() == AfterRetry(old(View()), result) && (done <==> pending == [])
    {
      var ret := DoSslWrite(pending, result);
      done := ret == |pending|;
      if done {
        pending := [];
      }
    }

    /** A first attempt. What the library does not take for want of room is kept and
        reported as sent. */
    method Offer(data: seq<Byte>, result: WriteResult) returns (ret: int)
      requires Valid() && pending == [] && data != [] && state.SslConnected?
      modifies this`state, this`writeNeedsRead, this`writes, this`ever, this`owed, this`pending, this`reported
      ensures Valid() && View() == AfterNew(old(View()), data, result)
      ensures ret == SendResult([], data, result, result) && reported == old(reported) + if ret > 0 then data[..ret] else []
    {
      assert data[..0] == [] && data[..|data|] == data && reported + [] == reported;
      ret := DoSslWrite(data, result);
      if Blocks(result) {
        pending := data;
        ret := |data|;
      }
      reported := reported + if ret > 0 then data[..ret] else [];
    }

    method DoSend(data: seq<Byte>, retry: WriteResult, first: WriteResult) returns (ret: int)
      requires Valid()
      modifies this`state, this`writeNeedsRead, this`writes, this`ever, this`owed, this`pending, this`reported
      ensures Valid() && View() == AfterSend(old(View()), data, retry, first)
      ensures ret == if old(state.SslConnected?) then SendResult(old(pending), data, retry, first) else if old(state.SslNone?) then |data| else -1
      ensures old(state.SslConnected?) ==> reported == old(reported) + if ret > 0 then data[..ret] else []
    {
      match state {
        case SslNone => return |data|;  // passed on in clear: not this adapter's bytes
        case SslWait => return -1;
        case SslConnecting => return -1;
        case SslConnected =>
        case SslError => return -1;
      }
      SendCases(View(), data, retry, first);
      if pending != [] {
        var done := Retry(retry);
        if !done {
          return -1;
        }
      }
      if data == [] {
        return 0;
      }
      ret := Offer(data, first);
    }

    method DoRecv(got: ReadResult)
      requires Valid()
      modifies this`readNeedsWrite, this`state
      ensures Valid() && View() == AfterRecv(old(View()), got)
    {
      if state.SslConnected? {
        readNeedsWrite := false;
        match got
        case ReadOk =>
        case ReadBlocked(needsWrite) => readNeedsWrite := needsWrite;
        case ReadFailed => state := SslError;
      }
    }

    /** Listeners are signalled and call back. */
    method Signal(listeners: seq<Call>)
      requires Valid()
      modifies this
      ensures Valid() && View() == AfterAll(old(View()), listeners, |listeners|)
      decreases listeners, 0
    {
      var i := 0;
      while i < |listeners|
        invariant 0 <= i <= |listeners| && Valid() && View() == AfterAll(old(View()), listeners, i)
      {
        Do(listeners[i]);
        i := i + 1;
      }
    }

    method Do(call: Call)
      requires Valid()
      modifies this
      ensures Valid() && View() == After(old(View()), call)
      decreases call, 2
    {
      match call {
        case StartSSL(connected) =>
          if state.SslNone? {
            state := if connected then SslConnecting else SslWait;
          }
        case ConnectEvent =>
          if state.SslWait? {
            state := SslConnecting;
          }
        case Handshake(ok) =>
          if state.SslConnecting? {
            state := if ok then SslConnected else SslError;
          }
        case Send(data, retry, first) => var ret := DoSend(data, retry, first);
        case Recv(got) => DoRecv(got);
        case WriteEvent(_, _, _) => OnWriteEvent(call);
        case ReadEvent(_, _) => OnReadEvent(call);
        case Close => Cleanup();
      }
    }

    /** Readers may have changed everything by the time the pending data is looked at. */
    method OnWriteEvent(e: Call)
      requires Valid() && e.WriteEvent?
      modifies this
      ensures Valid() && View() == After(old(View()), e)
      ensures old(state.SslConnected?) && e.result.All? && e.readers == [] && e.writers == [] ==>
                pending == [] && TakenBy(writes) == TakenBy(old(writes)) + old(pending) && reported == old(reported) && state.SslConnected?
      decreases e, 1
    {
      if state.SslConnected? {
        FlushedIdle(View(), e);
        if readNeedsWrite {
          Signal(e.readers);
        }
        if pending != [] {
          var done := Retry(e.result);
        }
        Signal(e.writers);
      }
    }

    method OnReadEvent(e: Call)
      requires Valid() && e.ReadEvent?
      modifies this
      ensures Valid() && View() == After(old(View()), e)
      decreases e, 1
    {
      if state.SslConnected? {
        if writeNeedsRead {
          Signal(e.writers);
        }
        Signal(e.readers);
      }
    }
  }

  /** Over every run, what Send reported has been taken by the library or is pending, in
      order and with nothing lost. Nothing is taken twice if and only if no call of the
      library was a retry that stopped half way; and so it is in every run in which the
      library takes all or nothing of what it is offered again. */
  method Run(calls: seq<Call>) returns (a: TlsSocket)
    ensures fresh(a) && a.Valid() && a.View() == AfterAll(Initial, calls, |calls|)
    ensures Embeds(a.reported, TakenBy(a.writes) + a.pending)
    ensures TakenBy(a.writes) + a.pending == a.reported <==> NoneHalfWay(a.writes)
    ensures EachAllOrNothing(calls) ==> TakenBy(a.writes) + a.pending == a.reported
  {
    a := new TlsSocket();
    a.Signal(calls);
    BalancedAll(Initial, calls, |calls|);
    NoneHalfWayAll(Initial, calls, |calls|);
    EmbedsEqualLength(a.reported, TakenBy(a.writes) + a.pending);
    SurplusIsHalfWay(a.writes);
  }

  /** Whenever a retry stops half way, what it took is taken again. */
  lemma TakenTwice(s: Snapshot, data: seq<Byte>, n: nat)
    requires s.state.SslConnected? && s.pending == [] && 0 < n < |data|
    ensures var s1 := After(s, Send(data, All, WantWrite));
            var s2 := After(After(s1, WriteEvent([], Part(n), [])), WriteEvent([], All, []));
            && s2.pending == [] && s2.reported == s.reported + data
            && TakenBy(s2.writes) == TakenBy(s.writes) + data[..n] + data && !NoneHalfWay(s2.writes)
  {
    var s1 := After(s, Send(data, All, WantWrite));
    IdleWrite(s1, Part(n));
    IdleWrite(AfterRetry(s1, Part(n)), All);
    TwiceTaken(s, data, n);
  }

  lemma TwiceTaken(s: Snapshot, data: seq<Byte>, n: nat)
    requires s.state.SslConnected? && s.pending == [] && 0 < n < |data|
    ensures var s2 := AfterRetry(AfterRetry(AfterSend(s, data, All, WantWrite), Part(n)), All);
            TakenBy(s2.writes) == TakenBy(s.writes) + data[..n] + data && !NoneHalfWay(s2.writes)
  {
    var s1 := AfterSend(s, data, All, WantWrite);
    Logged(s.writes, Attempt(false, data, 0));
    Logged(s1.writes, Attempt(true, data, n));
    Logged(s1.writes + [Attempt(true, data, n)], Attempt(true, data, |data|));
    assert data[..0] == [] && data[..|data|] == data && TakenBy(s.writes) + [] == TakenBy(s.writes);
  }
}
