/** The socket server and its dispatchers on epoll (physical_socket_server.cc): a registry of
    keys, a cached interest mask per socket, and updates batched across handlers that may
    close and reopen any socket. Objects are named by their addresses, which, like
    descriptors, may be used again. */
module Dispatchers {
  import opened Bytes
  import opened Wrappers

  type Addr = int
  type Fd = int
  type Key = int

  datatype Flag = Read | Write | Connect | Accept | Closed
  datatype Ready = In | Out

  /** GetEpollEvents. */
  function EpollEvents(ff: set<Flag>): set<Ready> {
    (if Read in ff || Accept in ff then {In} else {}) + (if Write in ff || Connect in ff then {Out} else {})
  }

  datatype Sock = Sock(fd: Option<Fd>, enabled: set<Flag>, saved: Option<set<Flag>>, udp: bool) {
    /** What the kernel is meant to have been told: the flags in force, or during a batch
        those in force when it began. */
    function Announced(): set<Flag> {
      if saved.Some? then saved.value else enabled
    }

    /** After events `ff` have been reported to handlers that do nothing. */
    ghost function SwitchedOff(ff: set<Flag>): Sock {
      this.(enabled := if Closed in ff then {} else enabled - ff)
    }
  }

  datatype Interest = Interest(key: Key, mask: set<Ready>)

  /** A socket once it is closed. A batch that is under way forgets the flags it saved. */
  function ClosedSock(s: Sock): Sock {
    if s.fd.None? then s else Sock(None, {}, if s.saved.Some? then Some({}) else None, s.udp)
  }

  /** A closed socket after socket() has returned `fd`. */
  function OpenedSock(s: Sock, fd: Option<Fd>, datagram: bool): Sock {
    Sock(fd, if datagram then {Read, Write} else s.enabled, s.saved, datagram)
  }

  /** To register this socket is to tell the kernel of flags that the batch has not saved. */
  predicate RegistersEarly(s: Sock) {
    s.saved.Some? && EpollEvents(s.enabled) != {}
  }

  // ----- Inputs -----

  datatype ConnectResult = Done | InProgress | Refused

  /** What handlers and other callers do to sockets. `fd` is what socket() returned; a
      descriptor in use is never returned. */
  datatype Action =
    | New(a: Addr)
    | Wrap(a: Addr, newFd: Fd, datagram: bool)
    | Create(a: Addr, fd: Option<Fd>, datagram: bool)
    | DoConnect(a: Addr, fd: Option<Fd>, result: ConnectResult)
    | Enable(a: Addr, events: set<Flag>)       // Recv, Send, Listen and Accept on an open socket
    | Resubscribe(a: Addr, events: set<Flag>)  // Accept and a datagram's Recv, on a closed one as well
    | Close(a: Addr)
    | Delete(a: Addr)

  /** What is done when a socket signals. The handlers are told which socket it is. */
  type Handlers = (Flag, Addr) -> seq<Action>

  ghost predicate Quiet(handlers: Handlers) {
    forall f, a :: handlers(f, a) == []
  }

  /** Done to the socket whose event is being handled, this may register it with flags that
      are already on. */
  predicate Risky(act: Action) {
    (act.Create? && act.datagram) || act.Resubscribe?
  }

  ghost predicate CarefulActs(acts: seq<Action>, a: Addr) {
    forall i :: 0 <= i < |acts| && acts[i].a == a ==> !Risky(acts[i])
  }

  /** No handler re-creates its own socket as a datagram socket or switches on flags of its
      own socket after closing it. Other sockets may be treated in any way. */
  ghost predicate Careful(handlers: Handlers) {
    forall f, a :: CarefulActs(handlers(f, a), a)
  }

  /** How the mistimed registrations and those still untold may change between two moments:
      new ones only under new keys, and untold ones only if new. */
  ghost predicate Mistiming(m: set<Key>, u: set<Key>, next: Key, m': set<Key>, u': set<Key>, next': Key) {
    next <= next' && m <= m' && u' <= u + (m' - m) && forall k :: k in m' && k !in m ==> next <= k < next'
  }

  lemma MistimingChained(m0: set<Key>, u0: set<Key>, n0: Key, m1: set<Key>, u1: set<Key>, n1: Key, m2: set<Key>, u2: set<Key>, n2: Key)
    requires Mistiming(m0, u0, n0, m1, u1, n1) && Mistiming(m1, u1, n1, m2, u2, n2)
    ensures Mistiming(m0, u0, n0, m2, u2, n2)
  {
  }

  /** One ready descriptor, with the error and end-of-stream probes and the handlers' doings. */
  datatype Report = Report(fd: Fd, readable: bool, writable: bool, hangup: bool, error: bool, eof: bool, handlers: Handlers)

  /** The same once the kernel has attached the key. */
  datatype Gathered = Gathered(key: Key, report: Report)

  datatype Round = Interrupted | Failed | TimedOut | Ready(reports: seq<Report>, wakeUp: bool, late: bool)

  /** One return of epoll_wait: what it was told to watch for, and what has become ready. */
  datatype Poll = Poll(kernel: map<Fd, Interest>, reports: seq<Report>)

  /** The computation of ff in ProcessEvents. */
  function Triggered(requested: set<Flag>, udp: bool, readable: bool, writable: bool, error: bool, eof: bool): (ff: set<Flag>)
    ensures ff == {} <==> !readable && !writable
    ensures Accept in ff ==> Accept in requested
    ensures Connect in ff ==> Connect in requested && !error
    ensures Connect in requested ==> Write !in ff
    ensures Closed in ff ==> error || (eof && !udp)
    ensures error && readable ==> Read !in ff
  {
    (if !readable then {}
     else if Accept in requested then {Accept}
     else if error || (eof && !udp) then {Closed}
     else {Read})
    +
    (if !writable then {}
     else if Connect !in requested then {Write}
     else if error then {Closed}
     else {Connect})
  }

  /** Connection events come before data, and the close comes last. */
  function Rank(f: Flag): nat {
    match f
    case Connect => 0
    case Accept => 1
    case Read => 2
    case Write => 3
    case Closed => 4
  }

  // ----- The registry -----

  ghost predicate Inverse(byKey: map<Key, Addr>, keyBy: map<Addr, Key>, nextKey: Key) {
    && (forall a :: a in keyBy ==> keyBy[a] in byKey && byKey[keyBy[a]] == a)
    && (forall k :: k in byKey ==> k < nextKey && byKey[k] in keyBy && keyBy[byKey[k]] == k)
  }

  lemma InverseAdded(byKey: map<Key, Addr>, keyBy: map<Addr, Key>, nextKey: Key, a: Addr)
    requires Inverse(byKey, keyBy, nextKey) && a !in keyBy
    ensures Inverse(byKey[nextKey := a], keyBy[a := nextKey], nextKey + 1)
  {
  }

  lemma InverseRemoved(byKey: map<Key, Addr>, keyBy: map<Addr, Key>, nextKey: Key, a: Addr)
    requires Inverse(byKey, keyBy, nextKey) && a in keyBy
    ensures Inverse(byKey - {keyBy[a]}, keyBy - {a}, nextKey)
  {
  }

  /** Each key was issued for one opening of one socket, and no other key for the same. */
  ghost predicate Issued(registrations: seq<int>, opens: int) {
    && (forall k :: 0 <= k < |registrations| ==> registrations[k] < opens)
    && (forall j, k :: 0 <= j < k < |registrations| ==> registrations[j] != registrations[k])
  }

  /** Registered sockets are still the ones their keys were issued for. */
  ghost predicate Identified(keyBy: map<Addr, Key>, opening: map<Addr, int>, registrations: seq<int>) {
    forall a :: a in keyBy ==> 0 <= keyBy[a] < |registrations| && a in opening && registrations[keyBy[a]] == opening[a]
  }

  /** A registered socket is in the kernel's table under its key, with a mask that is the
      announced one exactly if the registration is not among the untold. */
  ghost predicate Installed(a: Addr, key: Key, sockets: map<Addr, Sock>, kernel: map<Fd, Interest>, untold: set<Key>) {
    && a in sockets && sockets[a].fd.Some? && sockets[a].fd.value in kernel
    && kernel[sockets[a].fd.value].key == key
    && Agrees(sockets[a], kernel[sockets[a].fd.value].mask, key in untold)
  }

  ghost predicate AllInstalled(keyBy: map<Addr, Key>, sockets: map<Addr, Sock>, kernel: map<Fd, Interest>, untold: set<Key>) {
    forall a :: a in keyBy ==> Installed(a, keyBy[a], sockets, kernel, untold)
  }

  /** The kernel's mask is the announced one, or else it is not empty although the announced
      one is. */
  ghost predicate Agrees(s: Sock, mask: set<Ready>, stale: bool) {
    if stale then mask != {} && EpollEvents(s.Announced()) == {} else mask == EpollEvents(s.Announced())
  }

  /** The kernel's table holds nothing else. */
  ghost predicate NoOther(byKey: map<Key, Addr>, sockets: map<Addr, Sock>, kernel: map<Fd, Interest>) {
    forall fd :: fd in kernel ==> kernel[fd].key in byKey && byKey[kernel[fd].key] in sockets &&
                                  sockets[byKey[kernel[fd].key]].fd == Some(fd)
  }

  /** Unregistered sockets are closed. */
  ghost predicate OpenOnlyIfRegistered(keyBy: map<Addr, Key>, sockets: map<Addr, Sock>, except: set<Addr>) {
    forall a :: a in sockets && a !in keyBy && a !in except ==> sockets[a].fd.None?
  }

  /** Only the socket whose event is being handled batches its updates, and if it has been
      closed since, its saved flags have been cleared. */
  ghost predicate Batching(sockets: map<Addr, Sock>, keyBy: map<Addr, Key>, busy: Option<Addr>) {
    && (forall a :: a in sockets ==> (sockets[a].saved.Some? <==> busy == Some(a)))
    && (busy.Some? ==> busy.value in sockets && (busy.value in keyBy || sockets[busy.value].saved == Some({})))
  }

  lemma InstalledAdded(byKey: map<Key, Addr>, keyBy: map<Addr, Key>, nextKey: Key, sockets: map<Addr, Sock>,
                       kernel: map<Fd, Interest>, untold: set<Key>, untold': set<Key>, a: Addr, fd: Fd, mask: set<Ready>)
    requires Inverse(byKey, keyBy, nextKey) && AllInstalled(keyBy, sockets, kernel, untold) && NoOther(byKey, sockets, kernel)
    requires a in sockets && a !in keyBy && sockets[a].fd == Some(fd) && fd !in kernel
    requires untold - {nextKey} == untold' - {nextKey} && Agrees(sockets[a], mask, nextKey in untold')
    ensures AllInstalled(keyBy[a := nextKey], sockets, kernel[fd := Interest(nextKey, mask)], untold')
    ensures NoOther(byKey[nextKey := a], sockets, kernel[fd := Interest(nextKey, mask)])
  {
    var keyBy', kernel' := keyBy[a := nextKey], kernel[fd := Interest(nextKey, mask)];
    forall b | b in keyBy'
      ensures Installed(b, keyBy'[b], sockets, kernel', untold')
    {
      if b != a {
        assert Installed(b, keyBy[b], sockets, kernel, untold);
        assert keyBy[b] in untold <==> keyBy[b] in untold - {nextKey};
        assert keyBy[b] in untold' <==> keyBy[b] in untold' - {nextKey};
      }
    }
  }

  lemma InstalledRemoved(byKey: map<Key, Addr>, keyBy: map<Addr, Key>, nextKey: Key, sockets: map<Addr, Sock>,
                         kernel: map<Fd, Interest>, untold: set<Key>, a: Addr)
    requires Inverse(byKey, keyBy, nextKey) && AllInstalled(keyBy, sockets, kernel, untold) && NoOther(byKey, sockets, kernel)
    requires a in keyBy && Installed(a, keyBy[a], sockets, kernel, untold)
    ensures AllInstalled(keyBy - {a}, sockets, kernel - {sockets[a].fd.value}, untold)
    ensures NoOther(byKey - {keyBy[a]}, sockets, kernel - {sockets[a].fd.value})
  {
    var keyBy', kernel' := keyBy - {a}, kernel - {sockets[a].fd.value};
    forall b | b in keyBy'
      ensures Installed(b, keyBy'[b], sockets, kernel', untold)
    {
      assert Installed(b, keyBy[b], sockets, kernel, untold);
    }
  }

  /** A socket's flags change, and its mask in the kernel with them. */
  lemma InstalledChanged(byKey: map<Key, Addr>, keyBy: map<Addr, Key>, nextKey: Key, sockets: map<Addr, Sock>,
                         kernel: map<Fd, Interest>, untold: set<Key>, untold': set<Key>, a: Addr, s: Sock, mask: set<Ready>)
    requires Inverse(byKey, keyBy, nextKey) && AllInstalled(keyBy, sockets, kernel, untold) && NoOther(byKey, sockets, kernel)
    requires a in keyBy && Installed(a, keyBy[a], sockets, kernel, untold) && s.fd == sockets[a].fd
    requires Agrees(s, mask, keyBy[a] in untold') && (untold' == untold || untold' == untold - {keyBy[a]})
    ensures AllInstalled(keyBy, sockets[a := s], kernel[s.fd.value := Interest(keyBy[a], mask)], untold')
    ensures NoOther(byKey, sockets[a := s], kernel[s.fd.value := Interest(keyBy[a], mask)])
  {
    var sockets', kernel' := sockets[a := s], kernel[s.fd.value := Interest(keyBy[a], mask)];
    forall b | b in keyBy
      ensures Installed(b, keyBy[b], sockets', kernel', untold')
    {
      assert Installed(b, keyBy[b], sockets, kernel, untold);
    }
  }

  /** An unregistered socket changes. */
  lemma InstalledElsewhere(byKey: map<Key, Addr>, keyBy: map<Addr, Key>, nextKey: Key, sockets: map<Addr, Sock>,
                           kernel: map<Fd, Interest>, untold: set<Key>, a: Addr, s: Sock)
    requires Inverse(byKey, keyBy, nextKey) && AllInstalled(keyBy, sockets, kernel, untold) && NoOther(byKey, sockets, kernel)
    requires a !in keyBy
    ensures AllInstalled(keyBy, sockets[a := s], kernel, untold) && NoOther(byKey, sockets[a := s], kernel)
  {
    forall b | b in keyBy
      ensures Installed(b, keyBy[b], sockets[a := s], kernel, untold)
    {
      assert Installed(b, keyBy[b], sockets, kernel, untold);
    }
  }

  lemma InstalledWithout(byKey: map<Key, Addr>, keyBy: map<Addr, Key>, nextKey: Key, sockets: map<Addr, Sock>,
                         kernel: map<Fd, Interest>, untold: set<Key>, a: Addr)
    requires Inverse(byKey, keyBy, nextKey) && AllInstalled(keyBy, sockets, kernel, untold) && NoOther(byKey, sockets, kernel)
    requires a !in keyBy
    ensures AllInstalled(keyBy, sockets - {a}, kernel, untold) && NoOther(byKey, sockets - {a}, kernel)
  {
    forall b | b in keyBy
      ensures Installed(b, keyBy[b], sockets - {a}, kernel, untold)
    {
      assert Installed(b, keyBy[b], sockets, kernel, untold);
    }
  }

  ghost predicate SteadyIn(sockets: map<Addr, Sock>, busy: Option<Addr>) {
    busy.Some? && busy.value in sockets && sockets[busy.value].fd.None? ==> sockets[busy.value].enabled == {}
  }

  /** What happened: an event was delivered to an opening of a socket and became these flags,
      or it was dropped, or an action came from outside. */
  datatype Entry = Delivered(g: Gathered, opening: int, a: Addr, ff: set<Flag>) | Dropped(g: Gathered) | Outer(act: Action)

  /** Every event went to the opening its key was issued for, or was dropped because that
      had been closed: the key is known no more. */
  ghost predicate Genuine(log: seq<Entry>, registrations: seq<int>, byKey: map<Key, Addr>) {
    forall i :: 0 <= i < |log| ==> GenuineEntry(log[i], registrations, byKey)
  }

  ghost predicate GenuineEntry(e: Entry, registrations: seq<int>, byKey: map<Key, Addr>) {
    match e
    case Delivered(g, opening, _, _) => 0 <= g.key < |registrations| && opening == registrations[g.key]
    case Dropped(g) => 0 <= g.key < |registrations| && g.key !in byKey
    case Outer(_) => true
  }

  lemma KeyIssued(byKey: map<Key, Addr>, keyBy: map<Addr, Key>, opening: map<Addr, int>, registrations: seq<int>, opens: int,
                  log: seq<Entry>, a: Addr)
    requires Issued(registrations, opens) && Identified(keyBy, opening, registrations) && Genuine(log, registrations, byKey)
    requires a in opening && opening[a] == opens
    ensures Issued(registrations + [opens], opens + 1)
    ensures Identified(keyBy[a := |registrations|], opening, registrations + [opens])
    ensures Genuine(log, registrations + [opens], byKey[|registrations| := a])
  {
    forall i | 0 <= i < |log|
      ensures GenuineEntry(log[i], registrations + [opens], byKey[|registrations| := a])
    {
      assert GenuineEntry(log[i], registrations, byKey);
    }
  }

  ghost predicate Tables(byKey: map<Key, Addr>, keyBy: map<Addr, Key>, nextKey: Key, sockets: map<Addr, Sock>, kernel: map<Fd, Interest>,
                         opening: map<Addr, int>, opens: int, registrations: seq<int>, busy: Option<Addr>, untold: set<Key>,
                         log: seq<Entry>, except: set<Addr>) {
    && nextKey == |registrations|
    && Inverse(byKey, keyBy, nextKey)
    && Issued(registrations, opens)
    && Identified(keyBy, opening, registrations)
    && AllInstalled(keyBy, sockets, kernel, untold)
    && NoOther(byKey, sockets, kernel)
    && OpenOnlyIfRegistered(keyBy, sockets, except)
    && Batching(sockets, keyBy, busy)
    && Genuine(log, registrations, byKey)
    && (forall k :: k in untold ==> k < nextKey)
  }

  lemma SwitchedOffNothing(s: Sock, none: set<Flag>)
    requires none == {}
    ensures s.SwitchedOff(none) == s
  {
    assert s.enabled - none == s.enabled;
  }

  lemma UpdatedTwice(m: map<Addr, Sock>, a: Addr, s: Sock, t: Sock)
    ensures m[a := s][a := t] == m[a := t]
  {
  }

  lemma UpdatedToItself(m: map<Addr, Sock>, a: Addr)
    requires a in m
    ensures m[a := m[a]] == m
  {
  }

  lemma RemovedAfterUpdate(m: map<Addr, Sock>, a: Addr, s: Sock)
    ensures m[a := s] - {a} == m - {a}
  {
  }

  /** A descriptor is free after the close exactly if it was free before or was the socket's own. */
  lemma FreeAfterClose(kernel: map<Fd, Interest>, s: Sock, fd: Fd)
    requires s.fd.Some? ==> s.fd.value in kernel
    ensures fd !in (if s.fd.Some? then kernel - {s.fd.value} else kernel) <==> fd !in kernel || s.fd == Some(fd)
  {
  }

  /** What the kernel returns when the descriptors of `reports` become ready. */
  function Reported(kernel: map<Fd, Interest>, reports: seq<Report>): seq<Gathered> {
    if reports == [] then []
    else
      var front, r := Reported(kernel, reports[..|reports| - 1]), reports[|reports| - 1];
      if r.fd !in kernel then front
      else front + [Gathered(kernel[r.fd].key, r.(readable := r.readable && In in kernel[r.fd].mask, writable := r.writable && Out in kernel[r.fd].mask))]
  }

  // ----- The machine -----

  /** What was done: a handler was signalled, or an action carried out. */
  datatype Deed = Raised(a: Addr, f: Flag) | Did(act: Action)

  /** The server and its sockets, with their history. */
  datatype World = World(
    byKey: map<Key, Addr>,
    keyBy: map<Addr, Key>,
    nextKey: Key,
    sockets: map<Addr, Sock>,
    kernel: map<Fd, Interest>,         // the epoll instance's table
    opening: map<Addr, int>,           // which of all sockets ever opened this is
    opens: int,
    registrations: seq<int>,           // what each key was issued for
    busy: Option<Addr>,                // whose OnEvent is on the stack
    mistimed: set<Key>,                // registrations made in the socket's own batch with flags already on
    untold: set<Key>,                  // those of them for which the kernel has been told nothing since
    log: seq<Entry>,
    polls: seq<Poll>,                  // every return of epoll_wait with events
    deeds: seq<Deed>)

  ghost const Initial := World(map[], map[], 0, map[], map[], map[], 0, [], None, {}, {}, [], [], [])

  // ----- The server's table -----

  /** Add and AddEpoll. A duplicate is refused. */
  ghost function Added(w: World, a: Addr): World {
    if a in w.keyBy || a !in w.sockets || w.sockets[a].fd.None? then w
    else
      var s, key := w.sockets[a], w.nextKey;
      var early := if RegistersEarly(s) then {key} else {};
      w.(byKey := w.byKey[key := a], keyBy := w.keyBy[a := key], nextKey := key + 1,
         kernel := w.kernel[s.fd.value := Interest(key, EpollEvents(s.enabled))],
         registrations := w.registrations + [w.opens], opens := w.opens + 1, mistimed := w.mistimed + early, untold := w.untold + early)
  }

  /** Remove and RemoveEpoll. An unknown dispatcher is ignored. */
  ghost function Removed(w: World, a: Addr): World {
    if a !in w.keyBy || a !in w.sockets || w.sockets[a].fd.None? then w
    else w.(keyBy := w.keyBy - {a}, byKey := w.byKey - {w.keyBy[a]}, kernel := w.kernel - {w.sockets[a].fd.value})
  }

  /** Update and UpdateEpoll. Sockets not yet added are left alone. */
  ghost function Updated(w: World, a: Addr): World {
    if a !in w.keyBy || a !in w.sockets || w.sockets[a].fd.None? then w
    else
      w.(kernel := w.kernel[w.sockets[a].fd.value := Interest(w.keyBy[a], EpollEvents(w.sockets[a].enabled))],
         untold := w.untold - {w.keyBy[a]})
  }

  // ----- Flags -----

  ghost function MaybeUpdated(w: World, a: Addr, oldEvents: set<Flag>): World {
    if a in w.sockets && EpollEvents(w.sockets[a].enabled) != EpollEvents(oldEvents) && w.sockets[a].saved.None? then Updated(w, a) else w
  }

  ghost function WithSock(w: World, a: Addr, s: Sock): World {
    w.(sockets := w.sockets[a := s])
  }

  /** SetEnabledEvents. */
  ghost function WithFlags(w: World, a: Addr, events: set<Flag>): World
    requires a in w.sockets
  {
    MaybeUpdated(WithSock(w, a, w.sockets[a].(enabled := events)), a, w.sockets[a].enabled)
  }

  ghost function Started(w: World, a: Addr): World
    requires a in w.sockets
  {
    WithSock(w, a, w.sockets[a].(saved := Some(w.sockets[a].enabled))).(busy := Some(a))
  }

  ghost function Finished(w: World, a: Addr): World
    requires a in w.sockets
  {
    MaybeUpdated(WithSock(w, a, w.sockets[a].(saved := None)).(busy := None), a, w.sockets[a].Announced())
  }

  // ----- Sockets -----

  /** The saved flags go before the registration, the descriptor after it, and the flags last. */
  ghost function Shut(w: World, a: Addr): World
    requires a in w.sockets
  {
    var s := w.sockets[a].(saved := if w.sockets[a].saved.Some? then Some({}) else None);
    if w.sockets[a].fd.None? then w
    else WithFlags(WithSock(Removed(WithSock(w, a, s), a), a, s.(fd := None)), a, {})
  }

  /** The call of socket() on a closed socket, and the flags of a datagram socket. */
  ghost function Opened(w: World, a: Addr, fd: Option<Fd>, datagram: bool): World
    requires a in w.sockets
  {
    var v := WithSock(w, a, w.sockets[a].(fd := fd, udp := datagram)).(opening := w.opening[a := w.opens]);
    if datagram then WithFlags(v, a, {Read, Write}) else v
  }

  /** socket() never returns a descriptor in use. */
  ghost function Reopened(w: World, a: Addr, fd: Option<Fd>, datagram: bool): World
    requires a in w.sockets
  {
    if fd.Some? && fd.value !in w.kernel then Added(Opened(w, a, fd, datagram), a) else Opened(w, a, None, datagram)
  }

  ghost function Created(w: World, a: Addr, fd: Option<Fd>, datagram: bool): World
    requires a in w.sockets
  {
    Reopened(Shut(w, a), a, fd, datagram)
  }

  function ConnectFlags(result: ConnectResult): set<Flag> {
    match result
    case Done => {Read, Write}
    case InProgress => {Read, Write, Connect}
    case Refused => {}
  }

  /** The outcome of connect() on an open socket. */
  ghost function ConnectDone(w: World, a: Addr, result: ConnectResult): World
    requires a in w.sockets
  {
    if result.Refused? then w else WithFlags(w, a, w.sockets[a].enabled + ConnectFlags(result))
  }

  /** A failed attempt may leave a new socket behind. */
  ghost function Connected(w: World, a: Addr, fd: Option<Fd>, result: ConnectResult): World
    requires a in w.sockets
  {
    if w.sockets[a].fd.Some? then ConnectDone(w, a, result)
    else
      var v := Created(w, a, fd, false);
      if v.sockets[a].fd.None? then v else ConnectDone(v, a, result)
  }

  const NewSock := Sock(None, {}, None, false)

  ghost function Wrapped(w: World, a: Addr, fd: Fd, datagram: bool): World {
    if a in w.sockets || fd in w.kernel then w
    else Reopened(WithFlags(WithSock(w, a, NewSock), a, {Read, Write}), a, Some(fd), datagram)
  }

  /** The destructor. An object is not destroyed while its own OnEvent is on the stack. */
  ghost function Destroyed(w: World, a: Addr): World {
    if a in w.sockets && w.sockets[a].saved.None? then var v := Shut(w, a); v.(sockets := v.sockets - {a}) else w
  }

  ghost function Performed(w: World, act: Action): World {
    match act
    case New(a) => if a in w.sockets then w else WithSock(w, a, NewSock)
    case Wrap(a, fd, datagram) => Wrapped(w, a, fd, datagram)
    case Create(a, fd, datagram) => if a in w.sockets then Created(w, a, fd, datagram) else w
    case DoConnect(a, fd, result) => if a in w.sockets then Connected(w, a, fd, result) else w
    case Enable(a, events) =>
      if a in w.sockets && w.sockets[a].fd.Some? then WithFlags(w, a, w.sockets[a].enabled + events) else w
    case Resubscribe(a, events) => if a in w.sockets then WithFlags(w, a, w.sockets[a].enabled + events) else w
    case Close(a) => if a in w.sockets then Shut(w, a) else w
    case Delete(a) => Destroyed(w, a)
  }

  ghost function AfterAct(w: World, act: Action): World {
    Performed(w, act).(deeds := w.deeds + [Did(act)])
  }

  ghost function AfterActs(w: World, acts: seq<Action>, n: nat): World
    requires n <= |acts|
  {
    if n == 0 then w else AfterAct(AfterActs(w, acts, n - 1), acts[n - 1])
  }

  // ----- Events -----

  /** One signal of OnEvent: the flag is switched off, then the handlers run. */
  ghost function AfterSignal(w: World, a: Addr, f: Flag, handlers: Handlers): World {
    if a !in w.sockets then w
    else
      var v := WithFlags(w, a, if f.Closed? then {} else w.sockets[a].enabled - {f});
      AfterActs(v.(deeds := w.deeds + [Raised(a, f)]), handlers(f, a), |handlers(f, a)|)
  }

  /** Connection events come before data, and the close comes last. */
  const Order: seq<Flag> := [Connect, Accept, Read, Write, Closed]

  ghost function AfterSignals(w: World, a: Addr, ff: set<Flag>, handlers: Handlers, n: nat): World
    requires n <= |Order|
  {
    if n == 0 then w
    else
      var v := AfterSignals(w, a, ff, handlers, n - 1);
      if Order[n - 1] in ff then AfterSignal(v, a, Order[n - 1], handlers) else v
  }

  /** Handlers run between the two ends of a batch. */
  ghost function AfterEvent(w: World, a: Addr, ff: set<Flag>, handlers: Handlers): World {
    if a !in w.sockets then w
    else
      var v := AfterSignals(Started(w, a), a, ff, handlers, |Order|);
      if a in v.sockets then Finished(v, a) else v
  }

  /** What a report becomes for a socket. */
  function TriggeredBy(s: Sock, r: Report): set<Flag> {
    Triggered(s.enabled, s.udp, r.readable, r.writable, r.hangup && r.error, r.eof)
  }

  ghost function AfterProcess(w: World, a: Addr, r: Report): World {
    if a !in w.sockets || TriggeredBy(w.sockets[a], r) == {} then w else AfterEvent(w, a, TriggeredBy(w.sockets[a], r), r.handlers)
  }

  // ----- Waiting -----

  /** One turn of the loop over what epoll_wait returned. */
  ghost function AfterDispatch(w: World, g: Gathered): World {
    if g.key !in w.byKey then w.(log := w.log + [Dropped(g)])
    else
      var a := w.byKey[g.key];
      if a !in w.opening || a !in w.sockets then w
      else AfterProcess(w.(log := w.log + [Delivered(g, w.opening[a], a, TriggeredBy(w.sockets[a], g.report))]), a, g.report)
  }

  ghost function AfterDispatches(w: World, gathered: seq<Gathered>, n: nat): World
    requires n <= |gathered|
  {
    if n == 0 then w else AfterDispatch(AfterDispatches(w, gathered, n - 1), gathered[n - 1])
  }

  /** One return of epoll_wait with events. */
  ghost function AfterServe(w: World, reports: seq<Report>): World {
    var gathered := Reported(w.kernel, reports);
    AfterDispatches(w, gathered, |gathered|).(polls := w.polls + [Poll(w.kernel, reports)])
  }

  ghost function AfterRound(w: World, round: Round): World {
    if round.Ready? then AfterServe(w, round.reports) else w
  }

  /** A timeout, an error, a wake-up or the time being up ends the waiting. */
  predicate Stops(round: Round) {
    round.Failed? || round.TimedOut? || (round.Ready? && (round.late || round.wakeUp))
  }

  ghost function AfterWait(w: World, rounds: seq<Round>): World
    decreases |rounds|
  {
    if rounds == [] then w
    else if Stops(rounds[0]) then AfterRound(w, rounds[0])
    else AfterWait(AfterRound(w, rounds[0]), rounds[1..])
  }

  datatype Step = Outside(act: Action) | Wait(rounds: seq<Round>)

  ghost function AfterStep(w: World, step: Step): World {
    match step
    case Outside(act) => AfterAct(w.(log := w.log + [Outer(act)]), act)
    case Wait(rounds) => AfterWait(w, rounds)
  }

  ghost function AfterSteps(w: World, steps: seq<Step>, n: nat): World
    requires n <= |steps|
  {
    if n == 0 then w else AfterStep(AfterSteps(w, steps, n - 1), steps[n - 1])
  }

  // ----- The invariant -----

  /** Valid, except that the sockets of `except` may be open without being registered. */
  ghost predicate Consistent(w: World, except: set<Addr>) {
    && Tables(w.byKey, w.keyBy, w.nextKey, w.sockets, w.kernel, w.opening, w.opens, w.registrations, w.busy, w.untold, w.log, except)
    && w.untold <= w.mistimed && forall k :: k in w.mistimed ==> 0 <= k < w.nextKey
  }

  ghost predicate Valid(w: World) {
    Consistent(w, {})
  }

  /** What was issued and done stays so; new mistimed registrations have new keys, and only
      they become untold. */
  ghost predicate Onward(w: World, v: World) {
    && w.registrations <= v.registrations && w.log <= v.log && w.deeds <= v.deeds && w.polls <= v.polls
    && Mistiming(w.mistimed, w.untold, w.nextKey, v.mistimed, v.untold, v.nextKey)
  }

  lemma OnwardChained(u: World, v: World, w: World)
    requires Onward(u, v) && Onward(v, w)
    ensures Onward(u, w)
  {
    MistimingChained(u.mistimed, u.untold, u.nextKey, v.mistimed, v.untold, v.nextKey, w.mistimed, w.untold, w.nextKey);
  }

  /** The registration is still the one its socket was opened for. */
  lemma InstalledHere(w: World, a: Addr, except: set<Addr>)
    requires Consistent(w, except) && a in w.keyBy
    ensures Installed(a, w.keyBy[a], w.sockets, w.kernel, w.untold)
  {
  }

  // ----- Flags -----

  /** The kernel hears of it when a socket's record becomes `s`. */
  ghost predicate Tells(w: World, a: Addr, s: Sock) {
    a in w.sockets && a in w.keyBy && s.saved.None? && EpollEvents(s.enabled) != EpollEvents(w.sockets[a].Announced())
  }

  /** A socket's record changes, and the kernel hears of it if it should. */
  ghost function Changed(w: World, a: Addr, s: Sock, busy: Option<Addr>): World {
    if Tells(w, a, s) && s.fd.Some?
    then w.(sockets := w.sockets[a := s], busy := busy, kernel := w.kernel[s.fd.value := Interest(w.keyBy[a], EpollEvents(s.enabled))],
            untold := w.untold - {w.keyBy[a]})
    else w.(sockets := w.sockets[a := s], busy := busy)
  }

  lemma FlagsChanged(w: World, a: Addr, events: set<Flag>)
    requires a in w.sockets && (a in w.keyBy ==> w.sockets[a].fd.Some?)
    ensures WithFlags(w, a, events) == Changed(w, a, w.sockets[a].(enabled := events), w.busy)
  {
  }

  lemma StartChanged(w: World, a: Addr)
    requires a in w.sockets
    ensures Started(w, a) == Changed(w, a, w.sockets[a].(saved := Some(w.sockets[a].enabled)), Some(a))
  {
  }

  lemma FinishChanged(w: World, a: Addr)
    requires a in w.sockets && (a in w.keyBy ==> w.sockets[a].fd.Some?)
    ensures Finished(w, a) == Changed(w, a, w.sockets[a].(saved := None), None)
  {
  }

  lemma ChangeKeeps(w: World, a: Addr, s: Sock, busy: Option<Addr>, except: set<Addr>)
    requires Consistent(w, except) && a in w.sockets && s.fd == w.sockets[a].fd && (a in w.keyBy ==> s.fd.Some?)
    requires s.saved.Some? ==> s.Announced() == w.sockets[a].Announced()
    requires (busy == w.busy && s.saved == w.sockets[a].saved) || (w.busy.None? && busy == Some(a) && s.saved.Some? && a in w.keyBy)
             || (w.busy == Some(a) && busy.None? && s.saved.None?)
    ensures Consistent(Changed(w, a, s, busy), except) && Onward(w, Changed(w, a, s, busy))
  {
    if a in w.keyBy {
      InstalledHere(w, a, except);
      var fd := s.fd.value;
      if Tells(w, a, s) {
        InstalledChanged(w.byKey, w.keyBy, w.nextKey, w.sockets, w.kernel, w.untold, w.untold - {w.keyBy[a]}, a, s, EpollEvents(s.enabled));
      } else {
        InstalledChanged(w.byKey, w.keyBy, w.nextKey, w.sockets, w.kernel, w.untold, w.untold, a, s, w.kernel[fd].mask);
        assert w.kernel[fd := Interest(w.keyBy[a], w.kernel[fd].mask)] == w.kernel;
      }
    } else {
      InstalledElsewhere(w.byKey, w.keyBy, w.nextKey, w.sockets, w.kernel, w.untold, a, s);
    }
  }

  lemma FlagsKeep(w: World, a: Addr, events: set<Flag>, except: set<Addr>)
    requires Consistent(w, except) && a in w.sockets
    ensures Consistent(WithFlags(w, a, events), except) && Onward(w, WithFlags(w, a, events))
    ensures WithFlags(w, a, events) == Changed(w, a, w.sockets[a].(enabled := events), w.busy)
  {
    if a in w.keyBy {
      InstalledHere(w, a, except);
    }
    FlagsChanged(w, a, events);
    ChangeKeeps(w, a, w.sockets[a].(enabled := events), w.busy, except);
  }

  lemma StartKeeps(w: World, a: Addr)
    requires Valid(w) && a in w.keyBy && w.busy.None?
    ensures a in w.sockets && Valid(Started(w, a)) && Onward(w, Started(w, a))
  {
    InstalledHere(w, a, {});
    StartChanged(w, a);
    ChangeKeeps(w, a, w.sockets[a].(saved := Some(w.sockets[a].enabled)), Some(a), {});
  }

  lemma FinishKeeps(w: World, a: Addr)
    requires Valid(w) && a in w.sockets && w.busy == Some(a)
    ensures Valid(Finished(w, a)) && Onward(w, Finished(w, a))
    ensures Finished(w, a) == Changed(w, a, w.sockets[a].(saved := None), None)
  {
    if a in w.keyBy {
      InstalledHere(w, a, {});
    }
    FinishChanged(w, a);
    ChangeKeeps(w, a, w.sockets[a].(saved := None), None, {});
  }

  // ----- Sockets -----

  /** The world once an open socket has been closed. */
  ghost function Without(w: World, a: Addr): World
    requires a in w.sockets && a in w.keyBy && w.sockets[a].fd.Some?
  {
    w.(sockets := w.sockets[a := ClosedSock(w.sockets[a])], keyBy := w.keyBy - {a}, byKey := w.byKey - {w.keyBy[a]},
       kernel := w.kernel - {w.sockets[a].fd.value})
  }

  lemma ShutIs(w: World, a: Addr)
    requires Valid(w) && a in w.sockets
    ensures a in w.keyBy <==> w.sockets[a].fd.Some?
    ensures Shut(w, a) == if a in w.keyBy then Without(w, a) else w
  {
    if a in w.keyBy {
      InstalledHere(w, a, {});
      var s := w.sockets[a].(saved := if w.sockets[a].saved.Some? then Some({}) else None);
      UpdatedTwice(w.sockets, a, s, s.(fd := None));
      UpdatedTwice(w.sockets, a, s.(fd := None), s.(fd := None, enabled := {}));
      var v := WithSock(Removed(WithSock(w, a, s), a), a, s.(fd := None));
      FlagsChanged(v, a, {});
    }
  }

  lemma ShutKeeps(w: World, a: Addr)
    requires Valid(w) && a in w.sockets
    ensures Valid(Shut(w, a)) && Onward(w, Shut(w, a)) && a in Shut(w, a).sockets && a !in Shut(w, a).keyBy
  {
    ShutIs(w, a);
    if a in w.keyBy {
      InstalledHere(w, a, {});
      InverseRemoved(w.byKey, w.keyBy, w.nextKey, a);
      InstalledRemoved(w.byKey, w.keyBy, w.nextKey, w.sockets, w.kernel, w.untold, a);
      InstalledElsewhere(w.byKey - {w.keyBy[a]}, w.keyBy - {a}, w.nextKey, w.sockets, w.kernel - {w.sockets[a].fd.value}, w.untold, a,
                         ClosedSock(w.sockets[a]));
    }
  }

  /** The world once socket() has been called. */
  ghost function Socketed(w: World, a: Addr, fd: Option<Fd>, datagram: bool): World
    requires a in w.sockets
  {
    w.(sockets := w.sockets[a := OpenedSock(w.sockets[a], fd, datagram)], opening := w.opening[a := w.opens])
  }

  lemma OpenedKeeps(w: World, a: Addr, fd: Option<Fd>, datagram: bool)
    requires Valid(w) && a in w.sockets && a !in w.keyBy
    ensures Opened(w, a, fd, datagram) == Socketed(w, a, fd, datagram)
    ensures Consistent(Opened(w, a, fd, datagram), if fd.Some? then {a} else {}) && Onward(w, Opened(w, a, fd, datagram))
  {
    var s := w.sockets[a].(fd := fd, udp := datagram);
    var v := WithSock(w, a, s).(opening := w.opening[a := w.opens]);
    InstalledElsewhere(w.byKey, w.keyBy, w.nextKey, w.sockets, w.kernel, w.untold, a, s);
    assert Consistent(v, if fd.Some? then {a} else {});
    if datagram {
      UpdatedTwice(w.sockets, a, s, s.(enabled := {Read, Write}));
      FlagsKeep(v, a, {Read, Write}, if fd.Some? then {a} else {});
    }
  }

  lemma AddedKeeps(w: World, a: Addr)
    requires Consistent(w, {a}) && a in w.sockets && a !in w.keyBy && w.sockets[a].fd.Some? && w.sockets[a].fd.value !in w.kernel
    requires a in w.opening && w.opening[a] == w.opens
    ensures Valid(Added(w, a)) && Onward(w, Added(w, a))
  {
    var s := w.sockets[a];
    var early := if RegistersEarly(s) then {w.nextKey} else {};
    KeyIssued(w.byKey, w.keyBy, w.opening, w.registrations, w.opens, w.log, a);
    InverseAdded(w.byKey, w.keyBy, w.nextKey, a);
    InstalledAdded(w.byKey, w.keyBy, w.nextKey, w.sockets, w.kernel, w.untold, w.untold + early, a, s.fd.value, EpollEvents(s.enabled));
  }

  /** The invariant is kept, and the same event goes on being handled. */
  ghost predicate Kept(w: World, v: World) {
    Valid(v) && Onward(w, v) && v.busy == w.busy && v.log == w.log && v.polls == w.polls
  }

  lemma KeptChained(u: World, v: World, w: World)
    requires Kept(u, v) && Kept(v, w)
    ensures Kept(u, w)
  {
    OnwardChained(u, v, w);
  }

  lemma ReopenedKeeps(w: World, a: Addr, fd: Option<Fd>, datagram: bool)
    requires Valid(w) && a in w.sockets && a !in w.keyBy
    ensures var v := Reopened(w, a, fd, datagram);
            Kept(w, v) && v.deeds == w.deeds && a in v.sockets
  {
    if fd.Some? && fd.value !in w.kernel {
      OpenedKeeps(w, a, fd, datagram);
      var v := Opened(w, a, fd, datagram);
      AddedKeeps(v, a);
      OnwardChained(w, v, Added(v, a));
    } else {
      OpenedKeeps(w, a, None, datagram);
    }
  }

  lemma CreatedKeeps(w: World, a: Addr, fd: Option<Fd>, datagram: bool)
    requires Valid(w) && a in w.sockets
    ensures var v := Created(w, a, fd, datagram); Kept(w, v) && a in v.sockets
  {
    ShutKeeps(w, a);
    ShutIs(w, a);
    var u := Shut(w, a);
    ReopenedKeeps(u, a, fd, datagram);
    KeptChained(w, u, Reopened(u, a, fd, datagram));
  }

  lemma FlagsKept(w: World, a: Addr, events: set<Flag>)
    requires Valid(w) && a in w.sockets
    ensures Kept(w, WithFlags(w, a, events)) && WithFlags(w, a, events).deeds == w.deeds
    ensures WithFlags(w, a, events).sockets == w.sockets[a := w.sockets[a].(enabled := events)]
    ensures WithFlags(w, a, events).mistimed == w.mistimed && WithFlags(w, a, events).keyBy == w.keyBy
    ensures WithFlags(w, a, events).untold == if Tells(w, a, w.sockets[a].(enabled := events)) then w.untold - {w.keyBy[a]} else w.untold
  {
    FlagsKeep(w, a, events, {});
    if a in w.keyBy {
      InstalledHere(w, a, {});
    }
  }

  lemma ConnectDoneKeeps(w: World, a: Addr, result: ConnectResult)
    requires Valid(w) && a in w.sockets
    ensures Kept(w, ConnectDone(w, a, result))
  {
    if !result.Refused? {
      FlagsKept(w, a, w.sockets[a].enabled + ConnectFlags(result));
    }
  }

  lemma ConnectedKeeps(w: World, a: Addr, fd: Option<Fd>, result: ConnectResult)
    requires Valid(w) && a in w.sockets
    ensures Kept(w, Connected(w, a, fd, result))
  {
    if w.sockets[a].fd.Some? {
      ConnectDoneKeeps(w, a, result);
    } else {
      CreatedKeeps(w, a, fd, false);
      var v := Created(w, a, fd, false);
      if v.sockets[a].fd.Some? {
        ConnectDoneKeeps(v, a, result);
        KeptChained(w, v, ConnectDone(v, a, result));
      }
    }
  }

  /** A new object, at any address not in use. */
  lemma NewKeeps(w: World, a: Addr)
    requires Valid(w) && a !in w.sockets
    ensures a !in w.keyBy && Kept(w, WithSock(w, a, NewSock))
  {
    if a in w.keyBy {
      InstalledHere(w, a, {});
    } else {
      InstalledElsewhere(w.byKey, w.keyBy, w.nextKey, w.sockets, w.kernel, w.untold, a, NewSock);
    }
  }

  lemma WrappedKeeps(w: World, a: Addr, fd: Fd, datagram: bool)
    requires Valid(w)
    ensures Kept(w, Wrapped(w, a, fd, datagram))
  {
    if a !in w.sockets && fd !in w.kernel {
      NewKeeps(w, a);
      var u := WithSock(w, a, NewSock);
      FlagsKept(u, a, {Read, Write});
      var v := WithFlags(u, a, {Read, Write});
      KeptChained(w, u, v);
      ReopenedKeeps(v, a, Some(fd), datagram);
      KeptChained(w, v, Reopened(v, a, Some(fd), datagram));
    }
  }

  lemma DestroyedKeeps(w: World, a: Addr)
    requires Valid(w)
    ensures Kept(w, Destroyed(w, a))
  {
    if a in w.sockets && w.sockets[a].saved.None? {
      ShutKeeps(w, a);
      ShutIs(w, a);
      var v := Shut(w, a);
      InstalledWithout(v.byKey, v.keyBy, v.nextKey, v.sockets, v.kernel, v.untold, a);
    }
  }

  lemma OpeningKeeps(w: World, act: Action)
    requires Valid(w) && (act.New? || act.Wrap? || act.Create? || act.DoConnect?)
    ensures Kept(w, Performed(w, act))
  {
    match act
    case New(a) =>
      if a !in w.sockets {
        NewKeeps(w, a);
      }
    case Wrap(a, fd, datagram) => WrappedKeeps(w, a, fd, datagram);
    case Create(a, fd, datagram) =>
      if a in w.sockets {
        CreatedKeeps(w, a, fd, datagram);
      }
    case DoConnect(a, fd, result) =>
      if a in w.sockets {
        ConnectedKeeps(w, a, fd, result);
      }
  }

  lemma PerformedKeeps(w: World, act: Action)
    requires Valid(w)
    ensures Kept(w, Performed(w, act))
  {
    match act
    case Enable(a, events) =>
      if a in w.sockets {
        FlagsKept(w, a, w.sockets[a].enabled + events);
      }
    case Resubscribe(a, events) =>
      if a in w.sockets {
        FlagsKept(w, a, w.sockets[a].enabled + events);
      }
    case Close(a) =>
      if a in w.sockets {
        ShutKeeps(w, a);
        ShutIs(w, a);
      }
    case Delete(a) => DestroyedKeeps(w, a);
    case _ => OpeningKeeps(w, act);
  }

  /** Whatever is done to a socket keeps the tables. */
  lemma ActKeeps(w: World, act: Action)
    requires Valid(w)
    ensures Kept(w, AfterAct(w, act))
  {
    PerformedKeeps(w, act);
  }

  lemma {:induction false} ActsKeep(w: World, acts: seq<Action>, n: nat)
    requires Valid(w) && n <= |acts|
    ensures Kept(w, AfterActs(w, acts, n))
  {
    if n > 0 {
      ActsKeep(w, acts, n - 1);
      var v := AfterActs(w, acts, n - 1);
      ActKeeps(v, acts[n - 1]);
      KeptChained(w, v, AfterAct(v, acts[n - 1]));
    }
  }

  // ----- Events -----

  /** The socket whose event is being handled is still there. */
  lemma BusyThere(w: World)
    requires Valid(w) && w.busy.Some?
    ensures w.busy.value in w.sockets
  {
  }

  lemma SignalKeeps(w: World, a: Addr, f: Flag, handlers: Handlers)
    requires Valid(w) && w.busy == Some(a)
    ensures Kept(w, AfterSignal(w, a, f, handlers))
  {
    BusyThere(w);
    var events := if f.Closed? then {} else w.sockets[a].enabled - {f};
    FlagsKept(w, a, events);
    var v := WithFlags(w, a, events).(deeds := w.deeds + [Raised(a, f)]);
    ActsKeep(v, handlers(f, a), |handlers(f, a)|);
    KeptChained(w, v, AfterActs(v, handlers(f, a), |handlers(f, a)|));
  }

  lemma {:induction false} SignalsKeep(w: World, a: Addr, ff: set<Flag>, handlers: Handlers, n: nat)
    requires Valid(w) && w.busy == Some(a) && n <= |Order|
    ensures Kept(w, AfterSignals(w, a, ff, handlers, n))
  {
    if n > 0 {
      SignalsKeep(w, a, ff, handlers, n - 1);
      var v := AfterSignals(w, a, ff, handlers, n - 1);
      if Order[n - 1] in ff {
        SignalKeeps(v, a, Order[n - 1], handlers);
        KeptChained(w, v, AfterSignal(v, a, Order[n - 1], handlers));
      }
    }
  }

  lemma EventKeeps(w: World, a: Addr, ff: set<Flag>, handlers: Handlers)
    requires Valid(w) && a in w.keyBy && w.busy.None?
    ensures Kept(w, AfterEvent(w, a, ff, handlers))
  {
    StartKeeps(w, a);
    var u := Started(w, a);
    SignalsKeep(u, a, ff, handlers, |Order|);
    var v := AfterSignals(u, a, ff, handlers, |Order|);
    OnwardChained(w, u, v);
    BusyThere(v);
    FinishKeeps(v, a);
    OnwardChained(w, v, Finished(v, a));
  }

  lemma ProcessKeeps(w: World, a: Addr, r: Report)
    requires Valid(w) && a in w.keyBy && w.busy.None?
    ensures Kept(w, AfterProcess(w, a, r))
  {
    if a in w.sockets {
      EventKeeps(w, a, TriggeredBy(w.sockets[a], r), r.handlers);
    }
  }

  // ----- Waiting -----

  /** The socket a key was issued for is still open. */
  ghost predicate Alive(w: World, key: Key) {
    0 <= key < |w.registrations| && exists a :: a in w.keyBy && a in w.opening && w.opening[a] == w.registrations[key]
  }

  /** Holding a key is the same as being the opening it was issued for. */
  lemma AliveIffRegistered(w: World, key: Key)
    requires Valid(w) && 0 <= key < w.nextKey
    ensures Alive(w, key) <==> key in w.byKey
  {
    if key in w.byKey {
      var a := w.byKey[key];
      assert a in w.keyBy && a in w.opening && w.opening[a] == w.registrations[key];
    }
    if Alive(w, key) {
      var a :| a in w.keyBy && a in w.opening && w.opening[a] == w.registrations[key];
      assert w.registrations[w.keyBy[a]] == w.registrations[key];
      assert w.keyBy[a] in w.byKey;
    }
  }

  /** Between events. */
  ghost predicate Idle(w: World) {
    Valid(w) && w.busy.None?
  }

  lemma LogGrows(w: World, e: Entry)
    requires Valid(w) && GenuineEntry(e, w.registrations, w.byKey)
    ensures var v := w.(log := w.log + [e]); Valid(v) && Onward(w, v)
  {
  }

  /** An event is delivered to the opening its key was issued for, and is then processed, or
      it is dropped, exactly if that opening has been closed. */
  lemma DispatchKeeps(w: World, g: Gathered)
    requires Idle(w) && 0 <= g.key < w.nextKey
    ensures var v := AfterDispatch(w, g);
            && Idle(v) && Onward(w, v) && v.polls == w.polls
            && if Alive(w, g.key)
               then g.key in w.byKey && w.byKey[g.key] in w.sockets &&
                    var a := w.byKey[g.key];
                    && v.log == w.log + [Delivered(g, w.registrations[g.key], a, TriggeredBy(w.sockets[a], g.report))]
                    && v == AfterProcess(w.(log := v.log), a, g.report)
               else v == w.(log := w.log + [Dropped(g)])
  {
    AliveIffRegistered(w, g.key);
    if g.key in w.byKey {
      var a := w.byKey[g.key];
      InstalledHere(w, a, {});
      var e := Delivered(g, w.opening[a], a, TriggeredBy(w.sockets[a], g.report));
      var u := w.(log := w.log + [e]);
      LogGrows(w, e);
      ProcessKeeps(u, a, g.report);
      OnwardChained(w, u, AfterProcess(u, a, g.report));
    } else {
      LogGrows(w, Dropped(g));
    }
  }

  lemma DispatchLogged(w: World, g: Gathered)
    requires Idle(w) && 0 <= g.key < w.nextKey
    ensures Logged(w, AfterDispatch(w, g), [g])
  {
    DispatchKeeps(w, g);
    NextLog(w.log, AfterDispatch(w, g).log[|w.log|]);
  }

  ghost predicate KeysKnown(w: World, gathered: seq<Gathered>) {
    forall i :: 0 <= i < |gathered| ==> 0 <= gathered[i].key < w.nextKey
  }

  /** Between the two worlds exactly these events were logged, and nothing came from outside. */
  ghost predicate Logged(w: World, v: World, events: seq<Gathered>) {
    EventsIn(v.log) == EventsIn(w.log) + events && OuterIn(v.log) == OuterIn(w.log)
  }

  lemma LoggedChained(u: World, v: World, w: World, events: seq<Gathered>, g: Gathered)
    requires Logged(u, v, events) && Logged(v, w, [g])
    ensures Logged(u, w, events + [g])
  {
    ConcatAssociates(EventsIn(u.log), events, [g]);
  }

  lemma NoneLogged(w: World)
    ensures Logged(w, w, [])
  {
    assert EventsIn(w.log) + [] == EventsIn(w.log);
  }

  lemma NextLogged(w: World, v: World, gathered: seq<Gathered>, n: nat)
    requires n < |gathered| && Idle(v) && 0 <= gathered[n].key < v.nextKey && Logged(w, v, gathered[..n])
    ensures Logged(w, AfterDispatch(v, gathered[n]), gathered[..n + 1])
  {
    DispatchLogged(v, gathered[n]);
    LoggedChained(w, v, AfterDispatch(v, gathered[n]), gathered[..n], gathered[n]);
    assert gathered[..n] + [gathered[n]] == gathered[..n + 1];
  }

  lemma {:induction false} DispatchesKeep(w: World, gathered: seq<Gathered>, n: nat) returns (v: World)
    requires Idle(w) && n <= |gathered| && KeysKnown(w, gathered)
    ensures v == AfterDispatches(w, gathered, n) && Idle(v) && Onward(w, v) && v.polls == w.polls && Logged(w, v, gathered[..n])
  {
    if n == 0 {
      v := w;
      NoneLogged(w);
    } else {
      var u := DispatchesKeep(w, gathered, n - 1);
      v := AfterDispatch(u, gathered[n - 1]);
      DispatchKeeps(u, gathered[n - 1]);
      OnwardChained(w, u, v);
      NextLogged(w, u, gathered, n - 1);
    }
  }

  /** The events of the log, and the actions from outside. */
  ghost function EventsIn(log: seq<Entry>): seq<Gathered> {
    EventsUpTo(log, |log|)
  }

  ghost function EventsUpTo(log: seq<Entry>, n: nat): seq<Gathered>
    requires n <= |log|
  {
    if n == 0 then [] else EventsUpTo(log, n - 1) + if log[n - 1].Outer? then [] else [log[n - 1].g]
  }

  ghost function OuterIn(log: seq<Entry>): seq<Action> {
    OuterUpTo(log, |log|)
  }

  ghost function OuterUpTo(log: seq<Entry>, n: nat): seq<Action>
    requires n <= |log|
  {
    if n == 0 then [] else OuterUpTo(log, n - 1) + if log[n - 1].Outer? then [log[n - 1].act] else []
  }

  lemma {:induction false} SameBefore(log: seq<Entry>, e: Entry, n: nat)
    requires n <= |log|
    ensures EventsUpTo(log + [e], n) == EventsUpTo(log, n) && OuterUpTo(log + [e], n) == OuterUpTo(log, n)
  {
    if n > 0 {
      SameBefore(log, e, n - 1);
      assert (log + [e])[n - 1] == log[n - 1];
    }
  }

  lemma NextLog(log: seq<Entry>, e: Entry)
    ensures EventsIn(log + [e]) == if e.Outer? then EventsIn(log) else EventsIn(log) + [e.g]
    ensures OuterIn(log + [e]) == if e.Outer? then OuterIn(log) + [e.act] else OuterIn(log)
  {
    SameBefore(log, e, |log|);
    assert (log + [e])[|log|] == e && EventsIn(log) + [] == EventsIn(log) && OuterIn(log) + [] == OuterIn(log);
  }

  /** Every event that epoll_wait ever returned is in the log, once and in order. */
  ghost predicate Accounted(w: World) {
    EventsIn(w.log) == Polled(w.polls)
  }

  /** Reported for a registered socket, and only what that socket wants to hear of, unless
      the kernel has yet to be told of its flags. */
  ghost predicate Wanted(w: World, g: Gathered) {
    && 0 <= g.key < w.nextKey && g.key in w.byKey && w.byKey[g.key] in w.sockets
    && (g.key !in w.untold && g.report.readable ==> In in EpollEvents(w.sockets[w.byKey[g.key]].Announced()))
    && (g.key !in w.untold && g.report.writable ==> Out in EpollEvents(w.sockets[w.byKey[g.key]].Announced()))
  }

  lemma {:induction false} AllWanted(w: World, reports: seq<Report>)
    requires Valid(w)
    ensures forall i :: 0 <= i < |Reported(w.kernel, reports)| ==> Wanted(w, Reported(w.kernel, reports)[i])
  {
    if reports != [] {
      var front, r := reports[..|reports| - 1], reports[|reports| - 1];
      AllWanted(w, front);
      if r.fd in w.kernel {
        var interest := w.kernel[r.fd];
        GatheredWanted(w, Gathered(interest.key, r.(readable := r.readable && In in interest.mask, writable := r.writable && Out in interest.mask)));
      }
    }
  }

  lemma GatheredWanted(w: World, g: Gathered)
    requires Valid(w) && g.report.fd in w.kernel && g.key == w.kernel[g.report.fd].key
    requires g.report.readable ==> In in w.kernel[g.report.fd].mask
    requires g.report.writable ==> Out in w.kernel[g.report.fd].mask
    ensures Wanted(w, g)
  {
    InstalledHere(w, w.byKey[g.key], {});
  }

  lemma ServeKeeps(w: World, reports: seq<Report>)
    requires Idle(w) && Accounted(w)
    ensures var v := AfterServe(w, reports);
            Idle(v) && Onward(w, v) && Accounted(v) && v.polls == w.polls + [Poll(w.kernel, reports)] && OuterIn(v.log) == OuterIn(w.log)
  {
    var gathered := Reported(w.kernel, reports);
    AllWanted(w, reports);
    assert KeysKnown(w, gathered);
    var v := DispatchesKeep(w, gathered, |gathered|);
    assert gathered[..|gathered|] == gathered;
    NextPoll(w.polls, Poll(w.kernel, reports));
  }

  lemma RoundKeeps(w: World, round: Round)
    requires Idle(w) && Accounted(w)
    ensures var v := AfterRound(w, round);
            Idle(v) && Onward(w, v) && Accounted(v) && ReportsOf(v.polls) == ReportsOf(w.polls) + ServedBy(round) && OuterIn(v.log) == OuterIn(w.log)
  {
    if round.Ready? {
      ServeKeeps(w, round.reports);
      NextReports(w.polls, Poll(w.kernel, round.reports));
    } else {
      assert ReportsOf(w.polls) + [] == ReportsOf(w.polls);
    }
  }

  lemma {:induction false} WaitKeeps(w: World, rounds: seq<Round>)
    requires Idle(w) && Accounted(w)
    ensures var v := AfterWait(w, rounds);
            Idle(v) && Onward(w, v) && Accounted(v) && ReportsOf(v.polls) == ReportsOf(w.polls) + Served(rounds) && OuterIn(v.log) == OuterIn(w.log)
    decreases |rounds|
  {
    if rounds == [] {
      assert ReportsOf(w.polls) + [] == ReportsOf(w.polls);
    } else {
      RoundKeeps(w, rounds[0]);
      var v := AfterRound(w, rounds[0]);
      if !Stops(rounds[0]) {
        WaitKeeps(v, rounds[1..]);
        OnwardChained(w, v, AfterWait(v, rounds[1..]));
        ConcatAssociates(ReportsOf(w.polls), ServedBy(rounds[0]), Served(rounds[1..]));
      } else {
        assert ServedBy(rounds[0]) + [] == ServedBy(rounds[0]);
      }
    }
  }

  lemma StepKeeps(w: World, step: Step)
    requires Idle(w) && Accounted(w)
    ensures var v := AfterStep(w, step);
            && Idle(v) && Onward(w, v) && Accounted(v) && ReportsOf(v.polls) == ReportsOf(w.polls) + ServedIn(step)
            && OuterIn(v.log) == OuterIn(w.log) + if step.Outside? then [step.act] else []
  {
    match step
    case Outside(act) =>
      var u := w.(log := w.log + [Outer(act)]);
      LogGrows(w, Outer(act));
      NextLog(w.log, Outer(act));
      ActKeeps(u, act);
      OnwardChained(w, u, AfterAct(u, act));
      assert ReportsOf(w.polls) + [] == ReportsOf(w.polls);
    case Wait(rounds) =>
      WaitKeeps(w, rounds);
      assert OuterIn(w.log) + [] == OuterIn(w.log);
  }

  lemma InitialValid()
    ensures Idle(Initial) && Accounted(Initial)
  {
  }

  /** What the history holds of the steps so far. */
  ghost predicate Told(w: World, steps: seq<Step>, n: nat)
    requires n <= |steps|
  {
    ReportsOf(w.polls) == AllServed(steps, n) && OuterIn(w.log) == OutsideActs(steps, n)
  }

  lemma StepTold(w: World, steps: seq<Step>, n: nat)
    requires Idle(w) && Accounted(w) && n < |steps| && Told(w, steps, n)
    ensures Told(AfterStep(w, steps[n]), steps, n + 1)
  {
    StepKeeps(w, steps[n]);
  }

  // ----- Accounts -----

  /** All that the returns of epoll_wait carried. */
  ghost function Polled(polls: seq<Poll>): seq<Gathered> {
    PolledUpTo(polls, |polls|)
  }

  ghost function PolledUpTo(polls: seq<Poll>, n: nat): seq<Gathered>
    requires n <= |polls|
  {
    if n == 0 then [] else PolledUpTo(polls, n - 1) + Reported(polls[n - 1].kernel, polls[n - 1].reports)
  }

  function ReportsOf(polls: seq<Poll>): seq<seq<Report>> {
    seq(|polls|, i requires 0 <= i < |polls| => polls[i].reports)
  }

  function ServedBy(round: Round): seq<seq<Report>> {
    if round.Ready? then [round.reports] else []
  }

  /** The rounds that are reached and have events. */
  function Served(rounds: seq<Round>): seq<seq<Report>> {
    if rounds == [] then [] else ServedBy(rounds[0]) + if Stops(rounds[0]) then [] else Served(rounds[1..])
  }

  /** No error is reached. */
  function Succeeds(rounds: seq<Round>): bool {
    if rounds == [] then true else !rounds[0].Failed? && (Stops(rounds[0]) || Succeeds(rounds[1..]))
  }

  lemma {:induction false} PolledBefore(polls: seq<Poll>, poll: Poll, n: nat)
    requires n <= |polls|
    ensures PolledUpTo(polls + [poll], n) == PolledUpTo(polls, n)
  {
    if n > 0 {
      PolledBefore(polls, poll, n - 1);
      assert (polls + [poll])[n - 1] == polls[n - 1];
    }
  }

  lemma NextPoll(polls: seq<Poll>, poll: Poll)
    ensures Polled(polls + [poll]) == Polled(polls) + Reported(poll.kernel, poll.reports)
  {
    PolledBefore(polls, poll, |polls|);
    assert (polls + [poll])[|polls|] == poll;
  }

  lemma NextReports(polls: seq<Poll>, poll: Poll)
    ensures ReportsOf(polls + [poll]) == ReportsOf(polls) + [poll.reports]
  {
  }

  /** What a run gets out of epoll_wait. */
  function ServedIn(step: Step): seq<seq<Report>> {
    if step.Wait? then Served(step.rounds) else []
  }

  function AllServed(steps: seq<Step>, n: nat): seq<seq<Report>>
    requires n <= |steps|
  {
    if n == 0 then [] else AllServed(steps, n - 1) + ServedIn(steps[n - 1])
  }

  function OutsideActs(steps: seq<Step>, n: nat): seq<Action>
    requires n <= |steps|
  {
    if n == 0 then [] else OutsideActs(steps, n - 1) + if steps[n - 1].Outside? then [steps[n - 1].act] else []
  }

  // ----- What an action does, exactly -----

  /** socket() succeeds with a descriptor that is free once the socket itself is closed. */
  ghost predicate Available(w: World, a: Addr, fd: Option<Fd>)
    requires a in w.sockets
  {
    fd.Some? && (fd.value !in w.kernel || fd == w.sockets[a].fd)
  }

  /** The socket after a connection attempt. */
  ghost function ConnectedSock(w: World, a: Addr, fd: Option<Fd>, result: ConnectResult): Sock
    requires a in w.sockets
  {
    var s := if w.sockets[a].fd.Some? then w.sockets[a] else OpenedSock(w.sockets[a], if Available(w, a, fd) then fd else None, false);
    if s.fd.Some? then s.(enabled := s.enabled + ConnectFlags(result)) else s
  }

  /** The sockets after an action. */
  ghost function SocketsAfter(w: World, act: Action): map<Addr, Sock> {
    var a := act.a;
    if a !in w.sockets then
      match act
      case New(_) => w.sockets[a := NewSock]
      case Wrap(_, fd, datagram) => if fd in w.kernel then w.sockets else w.sockets[a := Sock(Some(fd), {Read, Write}, None, datagram)]
      case _ => w.sockets
    else
      match act
      case Create(_, fd, datagram) => w.sockets[a := OpenedSock(ClosedSock(w.sockets[a]), if Available(w, a, fd) then fd else None, datagram)]
      case DoConnect(_, fd, result) => w.sockets[a := ConnectedSock(w, a, fd, result)]
      case Enable(_, events) => if w.sockets[a].fd.Some? then w.sockets[a := w.sockets[a].(enabled := w.sockets[a].enabled + events)] else w.sockets
      case Resubscribe(_, events) => w.sockets[a := w.sockets[a].(enabled := w.sockets[a].enabled + events)]
      case Close(_) => w.sockets[a := ClosedSock(w.sockets[a])]
      case Delete(_) => if w.busy == Some(a) then w.sockets else w.sockets - {a}
      case _ => w.sockets
  }

  /** The socket whose event is being handled would be registered with flags already on. */
  ghost predicate Mistimes(w: World, act: Action) {
    && act.a in w.sockets
    && match act
       case Create(a, fd, datagram) => Available(w, a, fd) && RegistersEarly(OpenedSock(ClosedSock(w.sockets[a]), fd, datagram))
       case DoConnect(a, fd, _) => Available(w, a, fd) && w.sockets[a].fd.None? && RegistersEarly(OpenedSock(w.sockets[a], fd, false))
       case _ => false
  }

  /** The kernel is told a new mask for the registration the action finds. */
  ghost predicate TellsBy(w: World, act: Action) {
    && act.a in w.sockets
    && match act
       case Enable(a, events) => Tells(w, a, w.sockets[a].(enabled := w.sockets[a].enabled + events))
       case Resubscribe(a, events) => Tells(w, a, w.sockets[a].(enabled := w.sockets[a].enabled + events))
       case DoConnect(a, fd, result) => Tells(w, a, ConnectedSock(w, a, fd, result))
       case _ => false
  }

  ghost function UntoldAfter(w: World, act: Action): set<Key> {
    (if TellsBy(w, act) && act.a in w.keyBy then w.untold - {w.keyBy[act.a]} else w.untold) + (if Mistimes(w, act) then {w.nextKey} else {})
  }

  ghost predicate Exact(w: World, act: Action) {
    && Performed(w, act).untold == UntoldAfter(w, act)
    && Performed(w, act).sockets == SocketsAfter(w, act)
    && Performed(w, act).mistimed == w.mistimed + if Mistimes(w, act) then {w.nextKey} else {}
  }

  /** Registered under a new key with the mask of its flags, or not at all. */
  lemma ReopenedIs(w: World, a: Addr, fd: Option<Fd>, datagram: bool)
    requires Valid(w) && a in w.sockets && a !in w.keyBy
    ensures var v, ok := Reopened(w, a, fd, datagram), fd.Some? && fd.value !in w.kernel;
            var s := OpenedSock(w.sockets[a], if ok then fd else None, datagram);
            && v.sockets == w.sockets[a := s] && v.keyBy == (if ok then w.keyBy[a := w.nextKey] else w.keyBy)
            && v.mistimed == w.mistimed + (if ok && RegistersEarly(s) then {w.nextKey} else {})
            && v.untold == w.untold + (if ok && RegistersEarly(s) then {w.nextKey} else {})
            && v.nextKey == (if ok then w.nextKey + 1 else w.nextKey)
            && (ok ==> fd.value in v.kernel && v.kernel[fd.value] == Interest(w.nextKey, EpollEvents(s.enabled)))
  {
    if fd.Some? && fd.value !in w.kernel {
      OpenedKeeps(w, a, fd, datagram);
    } else {
      OpenedKeeps(w, a, None, datagram);
    }
  }

  lemma CreatedIs(w: World, a: Addr, fd: Option<Fd>, datagram: bool)
    requires Valid(w) && a in w.sockets
    ensures var v, ok := Created(w, a, fd, datagram), Available(w, a, fd);
            var s := OpenedSock(ClosedSock(w.sockets[a]), if ok then fd else None, datagram);
            && v.sockets == w.sockets[a := s] && (a in v.keyBy <==> ok)
            && v.mistimed == w.mistimed + (if ok && RegistersEarly(s) then {w.nextKey} else {})
            && v.untold == w.untold + (if ok && RegistersEarly(s) then {w.nextKey} else {})
            && (ok ==> v.keyBy[a] == w.nextKey)
  {
    ShutIs(w, a);
    ShutKeeps(w, a);
    if a in w.keyBy {
      InstalledHere(w, a, {});
    }
    if fd.Some? {
      FreeAfterClose(w.kernel, w.sockets[a], fd.value);
    }
    var u := Shut(w, a);
    assert u.sockets[a] == ClosedSock(w.sockets[a]);
    UpdatedTwice(w.sockets, a, u.sockets[a], OpenedSock(u.sockets[a], if Available(w, a, fd) then fd else None, datagram));
    ReopenedIs(u, a, fd, datagram);
  }

  lemma ConnectDoneIs(w: World, a: Addr, result: ConnectResult)
    requires Valid(w) && a in w.sockets
    ensures var v := ConnectDone(w, a, result);
            var s := w.sockets[a].(enabled := w.sockets[a].enabled + ConnectFlags(result));
            && v.sockets == w.sockets[a := s] && v.mistimed == w.mistimed
            && v.untold == if !result.Refused? && Tells(w, a, s) then w.untold - {w.keyBy[a]} else w.untold
  {
    if result.Refused? {
      assert w.sockets[a].enabled + {} == w.sockets[a].enabled;
      UpdatedToItself(w.sockets, a);
    } else {
      FlagsKept(w, a, w.sockets[a].enabled + ConnectFlags(result));
    }
  }

  lemma ConnectExact(w: World, act: Action)
    requires Valid(w) && act.DoConnect?
    ensures Exact(w, act)
  {
    var a := act.a;
    NoneAdded(w);
    if a in w.sockets {
      if w.sockets[a].fd.Some? {
        ConnectDoneIs(w, a, act.result);
      } else {
        ConnectOpens(w, act);
      }
    }
  }

  lemma ConnectOpens(w: World, act: Action)
    requires Valid(w) && act.DoConnect? && act.a in w.sockets && w.sockets[act.a].fd.None?
    ensures Exact(w, act)
  {
    var a := act.a;
    ShutIs(w, a);
    CreatedKeeps(w, a, act.fd, false);
    CreatedIs(w, a, act.fd, false);
    var v := Created(w, a, act.fd, false);
    if v.sockets[a].fd.Some? {
      ConnectDoneIs(v, a, act.result);
      UpdatedTwice(w.sockets, a, v.sockets[a], ConnectedSock(w, a, act.fd, act.result));
    }
  }

  lemma WrapExact(w: World, act: Action)
    requires Valid(w) && act.Wrap?
    ensures Exact(w, act)
  {
    var a, fd := act.a, act.newFd;
    if a !in w.sockets && fd !in w.kernel {
      NewKeeps(w, a);
      var u := WithSock(w, a, NewSock);
      FlagsKept(u, a, {Read, Write});
      var v := WithFlags(u, a, {Read, Write});
      UpdatedTwice(w.sockets, a, NewSock, v.sockets[a]);
      UpdatedTwice(w.sockets, a, v.sockets[a], Sock(Some(fd), {Read, Write}, None, act.datagram));
      FlagsKeep(u, a, {Read, Write}, {});
      ReopenedIs(v, a, Some(fd), act.datagram);
    }
  }

  lemma DeleteExact(w: World, act: Action)
    requires Valid(w) && act.Delete?
    ensures Exact(w, act)
  {
    var a := act.a;
    NoneAdded(w);
    if a in w.sockets {
      ShutIs(w, a);
      RemovedAfterUpdate(w.sockets, a, ClosedSock(w.sockets[a]));
    }
  }

  lemma FlagsExact(w: World, act: Action)
    requires Valid(w) && (act.Enable? || act.Resubscribe?)
    ensures Exact(w, act)
  {
    NoneAdded(w);
    if act.a in w.sockets {
      FlagsKept(w, act.a, w.sockets[act.a].enabled + act.events);
      ShutIs(w, act.a);
    }
  }

  lemma NoneAdded(w: World)
    ensures w.mistimed + {} == w.mistimed && w.untold + {} == w.untold
  {
  }

  lemma CloseExact(w: World, act: Action)
    requires Valid(w) && act.Close?
    ensures Exact(w, act)
  {
    NoneAdded(w);
    if act.a in w.sockets {
      ShutIs(w, act.a);
      UpdatedToItself(w.sockets, act.a);
    }
  }

  lemma CreateExact(w: World, act: Action)
    requires Valid(w) && act.Create?
    ensures Exact(w, act)
  {
    if act.a in w.sockets {
      CreatedIs(w, act.a, act.fd, act.datagram);
    }
  }

  /** The sockets after any action, and exactly which registrations it mistimes or mends. */
  lemma ActExact(w: World, act: Action)
    requires Valid(w)
    ensures Exact(w, act)
  {
    match act
    case New(_) => assert w.mistimed + {} == w.mistimed && w.untold + {} == w.untold;
    case Wrap(_, _, _) => WrapExact(w, act);
    case Create(_, _, _) => CreateExact(w, act);
    case DoConnect(a, _, _) => ConnectExact(w, act);
    case Enable(_, _) => FlagsExact(w, act);
    case Resubscribe(_, _) => FlagsExact(w, act);
    case Close(_) => CloseExact(w, act);
    case Delete(_) => DeleteExact(w, act);
  }

  // ----- Careful handlers -----

  /** If the socket whose event is being handled has been closed, its flags are off. */
  ghost predicate Steady(w: World) {
    SteadyIn(w.sockets, w.busy)
  }

  /** The same without a mistimed registration. */
  ghost predicate Timely(w: World, v: World) {
    Steady(v) && v.mistimed == w.mistimed
  }

  lemma HarmlessKeeps(w: World, act: Action)
    requires Valid(w) && Steady(w) && (w.busy == Some(act.a) ==> !Risky(act))
    ensures Timely(w, AfterAct(w, act))
  {
    ActExact(w, act);
    ActKeeps(w, act);
    HarmlessSockets(w, act);
  }

  lemma HarmlessSockets(w: World, act: Action)
    requires Valid(w) && Steady(w) && (w.busy == Some(act.a) ==> !Risky(act))
    ensures !Mistimes(w, act) && SteadyIn(SocketsAfter(w, act), w.busy)
  {
  }

  lemma {:induction false} CarefulKeeps(w: World, acts: seq<Action>, n: nat)
    requires Valid(w) && Steady(w) && n <= |acts| && (w.busy.Some? ==> CarefulActs(acts, w.busy.value))
    ensures Timely(w, AfterActs(w, acts, n))
  {
    if n > 0 {
      CarefulKeeps(w, acts, n - 1);
      ActsKeep(w, acts, n - 1);
      HarmlessKeeps(AfterActs(w, acts, n - 1), acts[n - 1]);
    }
  }

  lemma CarefulSignal(w: World, a: Addr, f: Flag, handlers: Handlers)
    requires Valid(w) && Steady(w) && w.busy == Some(a) && Careful(handlers)
    ensures Timely(w, AfterSignal(w, a, f, handlers))
  {
    BusyThere(w);
    var events := if f.Closed? then {} else w.sockets[a].enabled - {f};
    FlagsKept(w, a, events);
    var v := WithFlags(w, a, events).(deeds := w.deeds + [Raised(a, f)]);
    assert CarefulActs(handlers(f, a), a);
    CarefulKeeps(v, handlers(f, a), |handlers(f, a)|);
  }

  lemma {:induction false} CarefulSignals(w: World, a: Addr, ff: set<Flag>, handlers: Handlers, n: nat)
    requires Valid(w) && Steady(w) && w.busy == Some(a) && Careful(handlers) && n <= |Order|
    ensures Timely(w, AfterSignals(w, a, ff, handlers, n))
  {
    if n > 0 {
      CarefulSignals(w, a, ff, handlers, n - 1);
      SignalsKeep(w, a, ff, handlers, n - 1);
      if Order[n - 1] in ff {
        CarefulSignal(AfterSignals(w, a, ff, handlers, n - 1), a, Order[n - 1], handlers);
      }
    }
  }

  lemma CarefulProcess(w: World, a: Addr, r: Report)
    requires Idle(w) && a in w.keyBy && Careful(r.handlers)
    ensures AfterProcess(w, a, r).mistimed == w.mistimed
  {
    InstalledHere(w, a, {});
    var ff := TriggeredBy(w.sockets[a], r);
    StartKeeps(w, a);
    var u := Started(w, a);
    CarefulSignals(u, a, ff, r.handlers, |Order|);
    SignalsKeep(u, a, ff, r.handlers, |Order|);
    var v := AfterSignals(u, a, ff, r.handlers, |Order|);
    FinishKeeps(v, a);
  }

  lemma CarefulDispatch(w: World, g: Gathered)
    requires Idle(w) && 0 <= g.key < w.nextKey && Careful(g.report.handlers)
    ensures AfterDispatch(w, g).mistimed == w.mistimed
  {
    DispatchKeeps(w, g);
    AliveIffRegistered(w, g.key);
    if g.key in w.byKey {
      var a := w.byKey[g.key];
      var e := Delivered(g, w.registrations[g.key], a, TriggeredBy(w.sockets[a], g.report));
      LogGrows(w, e);
      CarefulProcess(w.(log := w.log + [e]), a, g.report);
    }
  }

  lemma {:induction false} CarefulDispatches(w: World, gathered: seq<Gathered>, n: nat)
    requires Idle(w) && n <= |gathered| && KeysKnown(w, gathered)
    requires forall i :: 0 <= i < |gathered| ==> Careful(gathered[i].report.handlers)
    ensures AfterDispatches(w, gathered, n).mistimed == w.mistimed
  {
    if n > 0 {
      CarefulDispatches(w, gathered, n - 1);
      var v := DispatchesKeep(w, gathered, n - 1);
      CarefulDispatch(v, gathered[n - 1]);
    }
  }

  ghost predicate CarefulReports(reports: seq<Report>) {
    forall i :: 0 <= i < |reports| ==> Careful(reports[i].handlers)
  }

  ghost predicate CarefulRounds(rounds: seq<Round>) {
    forall i :: 0 <= i < |rounds| && rounds[i].Ready? ==> CarefulReports(rounds[i].reports)
  }

  ghost predicate CarefulSteps(steps: seq<Step>) {
    forall i :: 0 <= i < |steps| && steps[i].Wait? ==> CarefulRounds(steps[i].rounds)
  }

  lemma {:induction false} ReportedCareful(kernel: map<Fd, Interest>, reports: seq<Report>)
    requires CarefulReports(reports)
    ensures forall i :: 0 <= i < |Reported(kernel, reports)| ==> Careful(Reported(kernel, reports)[i].report.handlers)
  {
    if reports != [] {
      ReportedCareful(kernel, reports[..|reports| - 1]);
      assert Careful(reports[|reports| - 1].handlers);
    }
  }

  lemma CarefulServe(w: World, reports: seq<Report>)
    requires Idle(w) && CarefulReports(reports)
    ensures AfterServe(w, reports).mistimed == w.mistimed
  {
    var gathered := Reported(w.kernel, reports);
    AllWanted(w, reports);
    assert KeysKnown(w, gathered);
    ReportedCareful(w.kernel, reports);
    CarefulDispatches(w, gathered, |gathered|);
  }

  lemma {:induction false} CarefulWait(w: World, rounds: seq<Round>)
    requires Idle(w) && Accounted(w) && CarefulRounds(rounds)
    ensures AfterWait(w, rounds).mistimed == w.mistimed
    decreases |rounds|
  {
    if rounds != [] {
      if rounds[0].Ready? {
        CarefulServe(w, rounds[0].reports);
      }
      RoundKeeps(w, rounds[0]);
      if !Stops(rounds[0]) {
        assert CarefulRounds(rounds[1..]);
        CarefulWait(AfterRound(w, rounds[0]), rounds[1..]);
      }
    }
  }

  lemma CarefulStep(w: World, step: Step)
    requires Idle(w) && Accounted(w) && (step.Wait? ==> CarefulRounds(step.rounds))
    ensures AfterStep(w, step).mistimed == w.mistimed
  {
    if step.Outside? {
      LogGrows(w, Outer(step.act));
      HarmlessKeeps(w.(log := w.log + [Outer(step.act)]), step.act);
    } else {
      CarefulWait(w, step.rounds);
    }
  }

  // ----- Signals raised and actions carried out -----

  ghost function Dids(acts: seq<Action>, n: nat): seq<Deed>
    requires n <= |acts|
  {
    if n == 0 then [] else Dids(acts, n - 1) + [Did(acts[n - 1])]
  }

  /** What one event comes to: the handlers of each of its flags are signalled, by rank, and
      then do what they do. */
  ghost function DeedsFor(a: Addr, ff: set<Flag>, handlers: Handlers, n: nat): seq<Deed>
    requires n <= |Order|
  {
    if n == 0 then []
    else DeedsFor(a, ff, handlers, n - 1) + if Order[n - 1] in ff then SignalDeeds(a, Order[n - 1], handlers) else []
  }

  ghost function SignalDeeds(a: Addr, f: Flag, handlers: Handlers): seq<Deed> {
    [Raised(a, f)] + Dids(handlers(f, a), |handlers(f, a)|)
  }

  lemma {:induction false} ActsDone(w: World, acts: seq<Action>, n: nat)
    requires n <= |acts|
    ensures AfterActs(w, acts, n).deeds == w.deeds + Dids(acts, n)
  {
    if n == 0 {
      assert w.deeds + [] == w.deeds;
    } else {
      ActsDone(w, acts, n - 1);
      ConcatAssociates(w.deeds, Dids(acts, n - 1), [Did(acts[n - 1])]);
    }
  }

  lemma SignalDone(w: World, a: Addr, f: Flag, handlers: Handlers)
    requires a in w.sockets
    ensures AfterSignal(w, a, f, handlers).deeds == w.deeds + SignalDeeds(a, f, handlers)
  {
    var v := WithFlags(w, a, if f.Closed? then {} else w.sockets[a].enabled - {f}).(deeds := w.deeds + [Raised(a, f)]);
    ActsDone(v, handlers(f, a), |handlers(f, a)|);
    ConcatAssociates(w.deeds, [Raised(a, f)], Dids(handlers(f, a), |handlers(f, a)|));
  }

  lemma {:induction false} SignalsDone(w: World, a: Addr, ff: set<Flag>, handlers: Handlers, n: nat)
    requires Valid(w) && w.busy == Some(a) && n <= |Order|
    ensures AfterSignals(w, a, ff, handlers, n).deeds == w.deeds + DeedsFor(a, ff, handlers, n)
  {
    if n == 0 {
      assert w.deeds + [] == w.deeds;
    } else {
      SignalsDone(w, a, ff, handlers, n - 1);
      SignalsKeep(w, a, ff, handlers, n - 1);
      var v := AfterSignals(w, a, ff, handlers, n - 1);
      NextSignalDone(w.deeds, v, a, ff, handlers, n);
    }
  }

  lemma NextSignalDone(before: seq<Deed>, v: World, a: Addr, ff: set<Flag>, handlers: Handlers, n: nat)
    requires 0 < n <= |Order| && Valid(v) && v.busy == Some(a) && v.deeds == before + DeedsFor(a, ff, handlers, n - 1)
    ensures (if Order[n - 1] in ff then AfterSignal(v, a, Order[n - 1], handlers) else v).deeds == before + DeedsFor(a, ff, handlers, n)
  {
    if Order[n - 1] in ff {
      BusyThere(v);
      SignalDone(v, a, Order[n - 1], handlers);
      ConcatAssociates(before, DeedsFor(a, ff, handlers, n - 1), SignalDeeds(a, Order[n - 1], handlers));
    } else {
      assert DeedsFor(a, ff, handlers, n) == DeedsFor(a, ff, handlers, n - 1);
    }
  }

  /** An event that reaches its socket raises exactly the signals the report calls for, by
      rank, and carries out exactly what their handlers do. */
  lemma ProcessDone(w: World, a: Addr, r: Report)
    requires Idle(w) && a in w.keyBy
    ensures a in w.sockets && AfterProcess(w, a, r).deeds == w.deeds + DeedsFor(a, TriggeredBy(w.sockets[a], r), r.handlers, |Order|)
  {
    InstalledHere(w, a, {});
    var ff := TriggeredBy(w.sockets[a], r);
    if ff == {} {
      NoDeeds(a, ff, r.handlers, |Order|);
      assert w.deeds + [] == w.deeds;
    } else {
      StartKeeps(w, a);
      var u := Started(w, a);
      SignalsDone(u, a, ff, r.handlers, |Order|);
      SignalsKeep(u, a, ff, r.handlers, |Order|);
      BusyThere(AfterSignals(u, a, ff, r.handlers, |Order|));
    }
  }

  lemma {:induction false} NoDeeds(a: Addr, ff: set<Flag>, handlers: Handlers, n: nat)
    requires ff == {} && n <= |Order|
    ensures DeedsFor(a, ff, handlers, n) == []
  {
    if n > 0 {
      NoDeeds(a, ff, handlers, n - 1);
    }
  }

  /** Which signals a report calls for, from what the socket has enabled. */
  lemma TriggeredExactly(s: Sock, r: Report)
    ensures var ff, bad := TriggeredBy(s, r), r.hangup && r.error;
            && (Accept in ff <==> r.readable && Accept in s.enabled)
            && (Read in ff <==> r.readable && Accept !in s.enabled && !bad && (!r.eof || s.udp))
            && (Connect in ff <==> r.writable && Connect in s.enabled && !bad)
            && (Write in ff <==> r.writable && Connect !in s.enabled)
            && (Closed in ff <==> (r.readable && Accept !in s.enabled && (bad || (r.eof && !s.udp))) || (r.writable && Connect in s.enabled && bad))
  {
  }

  /** What an entry of the history came to. */
  ghost function EntryDeeds(e: Entry): seq<Deed> {
    match e
    case Delivered(g, _, a, ff) => DeedsFor(a, ff, g.report.handlers, |Order|)
    case Dropped(_) => []
    case Outer(act) => [Did(act)]
  }

  ghost function LogDeeds(log: seq<Entry>, n: nat): seq<Deed>
    requires n <= |log|
  {
    if n == 0 then [] else LogDeeds(log, n - 1) + EntryDeeds(log[n - 1])
  }

  /** All signals raised and all actions carried out are those of the history. */
  ghost predicate AllDone(w: World) {
    w.deeds == LogDeeds(w.log, |w.log|)
  }

  lemma {:induction false} SameDeeds(log: seq<Entry>, longer: seq<Entry>, n: nat)
    requires log <= longer && n <= |log|
    ensures LogDeeds(longer, n) == LogDeeds(log, n)
  {
    if n > 0 {
      SameDeeds(log, longer, n - 1);
      DeedsStep(log, n);
      DeedsStep(longer, n);
    }
  }

  lemma DeedsStep(log: seq<Entry>, n: nat)
    requires 0 < n <= |log|
    ensures LogDeeds(log, n) == LogDeeds(log, n - 1) + EntryDeeds(log[n - 1])
  {
  }

  lemma NextDeeds(w: World, v: World, e: Entry)
    requires AllDone(w) && v.log == w.log + [e] && v.deeds == w.deeds + EntryDeeds(e)
    ensures AllDone(v)
  {
    SameDeeds(w.log, v.log, |w.log|);
    assert v.log[|w.log|] == e;
  }

  lemma DispatchDone(w: World, g: Gathered)
    requires Idle(w) && 0 <= g.key < w.nextKey && AllDone(w)
    ensures AllDone(AfterDispatch(w, g))
  {
    DispatchKeeps(w, g);
    AliveIffRegistered(w, g.key);
    var v := AfterDispatch(w, g);
    if g.key in w.byKey {
      var a := w.byKey[g.key];
      var e := Delivered(g, w.registrations[g.key], a, TriggeredBy(w.sockets[a], g.report));
      LogGrows(w, e);
      ProcessDone(w.(log := w.log + [e]), a, g.report);
      NextDeeds(w, v, e);
    } else {
      assert w.deeds + [] == w.deeds;
      NextDeeds(w, v, Dropped(g));
    }
  }

  lemma {:induction false} DispatchesDone(w: World, gathered: seq<Gathered>, n: nat)
    requires Idle(w) && n <= |gathered| && KeysKnown(w, gathered) && AllDone(w)
    ensures AllDone(AfterDispatches(w, gathered, n))
  {
    if n > 0 {
      DispatchesDone(w, gathered, n - 1);
      NextDispatchDone(w, gathered, n - 1);
    }
  }

  lemma NextDispatchDone(w: World, gathered: seq<Gathered>, n: nat)
    requires Idle(w) && n < |gathered| && KeysKnown(w, gathered) && AllDone(AfterDispatches(w, gathered, n))
    ensures AllDone(AfterDispatch(AfterDispatches(w, gathered, n), gathered[n]))
  {
    var v := DispatchesKeep(w, gathered, n);
    DispatchDone(v, gathered[n]);
  }

  lemma ServeDone(w: World, reports: seq<Report>)
    requires Idle(w) && AllDone(w)
    ensures AllDone(AfterServe(w, reports))
  {
    var gathered := Reported(w.kernel, reports);
    AllWanted(w, reports);
    assert KeysKnown(w, gathered);
    DispatchesDone(w, gathered, |gathered|);
  }

  lemma {:induction false} WaitDone(w: World, rounds: seq<Round>)
    requires Idle(w) && Accounted(w) && AllDone(w)
    ensures AllDone(AfterWait(w, rounds))
    decreases |rounds|
  {
    if rounds != [] {
      if rounds[0].Ready? {
        ServeDone(w, rounds[0].reports);
      }
      RoundKeeps(w, rounds[0]);
      if !Stops(rounds[0]) {
        WaitDone(AfterRound(w, rounds[0]), rounds[1..]);
      }
    }
  }

  lemma StepDone(w: World, step: Step)
    requires Idle(w) && Accounted(w) && AllDone(w)
    ensures AllDone(AfterStep(w, step))
  {
    match step
    case Outside(act) => NextDeeds(w, AfterStep(w, step), Outer(act)) by {
      LogGrows(w, Outer(act));
      ActKeeps(w.(log := w.log + [Outer(act)]), act);
    }
    case Wait(rounds) => WaitDone(w, rounds);
  }

  // ----- Single events -----

  lemma {:induction false} OneSignal(w: World, a: Addr, f: Flag, handlers: Handlers, n: nat)
    requires n <= |Order|
    ensures AfterSignals(w, a, {f}, handlers, n) == if n <= Rank(f) then w else AfterSignal(w, a, f, handlers)
  {
    if n > 0 {
      OneSignal(w, a, f, handlers, n - 1);
      OrderRanks(n - 1);
    }
  }

  lemma OrderRanks(i: nat)
    requires i < |Order|
    ensures forall f :: Order[i] == f <==> Rank(f) == i
  {
    assert Order[0] == Connect && Order[1] == Accept && Order[2] == Read && Order[3] == Write && Order[4] == Closed;
  }

  /** A handler that closes its own socket when there is something to read: the socket is
      closed and no longer registered. */
  lemma HandlerCloses(w: World, a: Addr, r: Report)
    requires Idle(w) && a in w.keyBy && a in w.sockets && TriggeredBy(w.sockets[a], r) == {Read} && r.handlers(Read, a) == [Close(a)]
    ensures var v := AfterProcess(w, a, r); a !in v.keyBy && a in v.sockets && v.sockets[a].fd.None?
  {
    StartKeeps(w, a);
    var u := Started(w, a);
    OneSignal(u, a, Read, r.handlers, |Order|);
    SignalKeeps(u, a, Read, r.handlers);
    ClosedBySignal(u, a, r.handlers);
    FinishKeeps(AfterSignal(u, a, Read, r.handlers), a);
  }

  lemma ClosedBySignal(w: World, a: Addr, handlers: Handlers)
    requires Valid(w) && w.busy == Some(a) && handlers(Read, a) == [Close(a)]
    ensures var v := AfterSignal(w, a, Read, handlers); a !in v.keyBy && a in v.sockets && v.sockets[a].fd.None?
  {
    BusyThere(w);
    var events := w.sockets[a].enabled - {Read};
    FlagsKept(w, a, events);
    var v := WithFlags(w, a, events).(deeds := w.deeds + [Raised(a, Read)]);
    OneAct(v, Close(a));
    ShutKeeps(v, a);
    ShutIs(v, a);
  }

  ghost function Below(ff: set<Flag>, n: nat): set<Flag> {
    set f | f in ff && Rank(f) < n
  }

  lemma BelowNext(ff: set<Flag>, n: nat)
    requires 0 < n <= |Order|
    ensures Below(ff, n) == Below(ff, n - 1) + if Order[n - 1] in ff then {Order[n - 1]} else {}
    ensures Closed !in Below(ff, n - 1)
  {
    OrderRanks(n - 1);
  }

  lemma AllBelow(ff: set<Flag>)
    ensures Below(ff, |Order|) == ff
  {
    forall f | f in ff
      ensures Rank(f) < 5
    {
    }
  }

  lemma QuietSignal(w: World, a: Addr, f: Flag, handlers: Handlers)
    requires Valid(w) && w.busy == Some(a) && handlers(f, a) == []
    ensures a in w.sockets && AfterSignal(w, a, f, handlers).sockets == w.sockets[a := w.sockets[a].SwitchedOff({f})]
  {
    BusyThere(w);
    var events := if f.Closed? then {} else w.sockets[a].enabled - {f};
    FlagsKept(w, a, events);
    assert AfterActs(WithFlags(w, a, events).(deeds := w.deeds + [Raised(a, f)]), [], 0) == WithFlags(w, a, events).(deeds := w.deeds + [Raised(a, f)]);
  }

  lemma {:induction false} QuietSignals(w: World, a: Addr, ff: set<Flag>, handlers: Handlers, n: nat)
    requires Valid(w) && w.busy == Some(a) && n <= |Order| && Quiet(handlers)
    ensures a in w.sockets && AfterSignals(w, a, ff, handlers, n).sockets == w.sockets[a := w.sockets[a].SwitchedOff(Below(ff, n))]
  {
    BusyThere(w);
    if n == 0 {
      SwitchedOffNothing(w.sockets[a], Below(ff, 0));
      UpdatedToItself(w.sockets, a);
    } else {
      QuietSignals(w, a, ff, handlers, n - 1);
      SignalsKeep(w, a, ff, handlers, n - 1);
      BelowNext(ff, n);
      var v := AfterSignals(w, a, ff, handlers, n - 1);
      if Order[n - 1] in ff {
        QuietSignal(v, a, Order[n - 1], handlers);
        SwitchedOffNext(w.sockets[a], Below(ff, n - 1), Order[n - 1]);
        UpdatedTwice(w.sockets, a, v.sockets[a], v.sockets[a].SwitchedOff({Order[n - 1]}));
      } else {
        assert Below(ff, n) == Below(ff, n - 1);
      }
    }
  }

  lemma SwitchedOffNext(s: Sock, ff: set<Flag>, f: Flag)
    requires Closed !in ff
    ensures s.SwitchedOff(ff).SwitchedOff({f}) == s.SwitchedOff(ff + {f})
  {
    assert s.enabled - ff - {f} == s.enabled - (ff + {f});
  }

  /** With handlers that do nothing, exactly the signalled flags go off, and all on a close. */
  lemma QuietProcess(w: World, a: Addr, r: Report)
    requires Idle(w) && a in w.keyBy && Quiet(r.handlers)
    ensures a in w.sockets && AfterProcess(w, a, r).sockets == w.sockets[a := w.sockets[a].SwitchedOff(TriggeredBy(w.sockets[a], r))]
  {
    InstalledHere(w, a, {});
    var ff := TriggeredBy(w.sockets[a], r);
    if ff == {} {
      SwitchedOffNothing(w.sockets[a], ff);
      UpdatedToItself(w.sockets, a);
    } else {
      StartKeeps(w, a);
      var u := Started(w, a);
      QuietSignals(u, a, ff, r.handlers, |Order|);
      AllBelow(ff);
      SignalsKeep(u, a, ff, r.handlers, |Order|);
      var v := AfterSignals(u, a, ff, r.handlers, |Order|);
      FinishKeeps(v, a);
      QuietSockets(w, a, ff, u, v);
    }
  }

  lemma QuietSockets(w: World, a: Addr, ff: set<Flag>, u: World, v: World)
    requires a in w.sockets && u == Started(w, a) && v.sockets == u.sockets[a := u.sockets[a].SwitchedOff(ff)] && w.sockets[a].saved.None?
    requires a in v.sockets && Finished(v, a) == Changed(v, a, v.sockets[a].(saved := None), None)
    ensures Finished(v, a).sockets == w.sockets[a := w.sockets[a].SwitchedOff(ff)]
  {
    UpdatedTwice(w.sockets, a, u.sockets[a], v.sockets[a]);
    UpdatedTwice(w.sockets, a, v.sockets[a], v.sockets[a].(saved := None));
  }

  lemma {:induction false} TwoSignals(w: World, a: Addr, handlers: Handlers, n: nat)
    requires n <= |Order|
    ensures AfterSignals(w, a, {Write, Closed}, handlers, n)
            == if n <= 3 then w
               else if n == 4 then AfterSignal(w, a, Write, handlers)
               else AfterSignal(AfterSignal(w, a, Write, handlers), a, Closed, handlers)
  {
    if n > 0 {
      TwoSignals(w, a, handlers, n - 1);
      OrderRanks(n - 1);
    }
  }

  /** A datagram socket gets an event for writing and closing. Its write handler re-creates
      the socket; the close that follows in the same event switches the new socket's flags
      off, and the kernel never hears of it. */
  lemma StaleMask(w: World, a: Addr, fd: Fd, handlers: Handlers)
    requires Idle(w) && a in w.keyBy && fd !in w.kernel
    requires handlers(Write, a) == [Create(a, Some(fd), true)] && handlers(Closed, a) == []
    ensures var v := AfterEvent(w, a, {Write, Closed}, handlers);
            && a in v.keyBy && v.keyBy[a] in v.untold && a in v.sockets && v.sockets[a].enabled == {} && v.sockets[a].fd == Some(fd)
            && fd in v.kernel && v.kernel[fd].mask == {In, Out}
  {
    StartKeeps(w, a);
    var u := Started(w, a);
    TwoSignals(u, a, handlers, |Order|);
    SignalKeeps(u, a, Write, handlers);
    var x := AfterSignal(u, a, Write, handlers);
    Recreated(u, a, fd, handlers);
    SignalKeeps(x, a, Closed, handlers);
    SwitchedOffSilently(x, a, fd, handlers);
  }

  lemma Recreated(w: World, a: Addr, fd: Fd, handlers: Handlers)
    requires Valid(w) && w.busy == Some(a) && fd !in w.kernel && handlers(Write, a) == [Create(a, Some(fd), true)]
    ensures var v := AfterSignal(w, a, Write, handlers);
            && a in v.sockets && v.sockets[a] == Sock(Some(fd), {Read, Write}, Some({}), true)
            && a in v.keyBy && v.keyBy[a] in v.untold && fd in v.kernel && v.kernel[fd].mask == {In, Out}
  {
    BusyThere(w);
    var events := w.sockets[a].enabled - {Write};
    FlagsKept(w, a, events);
    SameDescriptors(w, a, events);
    var v := WithFlags(w, a, events).(deeds := w.deeds + [Raised(a, Write)]);
    OneAct(v, Create(a, Some(fd), true));
    RecreatedIn(v, a, fd);
  }

  lemma OneAct(w: World, act: Action)
    ensures AfterActs(w, [act], 1) == AfterAct(w, act)
  {
    assert AfterActs(w, [act], 0) == w;
  }

  lemma SameDescriptors(w: World, a: Addr, events: set<Flag>)
    requires Valid(w) && a in w.sockets
    ensures WithFlags(w, a, events).kernel.Keys == w.kernel.Keys
  {
    if a in w.keyBy {
      InstalledHere(w, a, {});
    }
    FlagsKeep(w, a, events, {});
  }

  lemma RecreatedIn(w: World, a: Addr, fd: Fd)
    requires Valid(w) && w.busy == Some(a) && a in w.sockets && fd !in w.kernel
    ensures var v := Created(w, a, Some(fd), true);
            && a in v.sockets && v.sockets[a] == Sock(Some(fd), {Read, Write}, Some({}), true)
            && a in v.keyBy && v.keyBy[a] in v.untold && fd in v.kernel && v.kernel[fd].mask == {In, Out}
  {
    ShutKeeps(w, a);
    ShutIs(w, a);
    ReopenedIs(Shut(w, a), a, Some(fd), true);
  }

  lemma SwitchedOffSilently(w: World, a: Addr, fd: Fd, handlers: Handlers)
    requires Valid(w) && w.busy == Some(a) && handlers(Closed, a) == []
    requires a in w.sockets && w.sockets[a] == Sock(Some(fd), {Read, Write}, Some({}), true)
    requires a in w.keyBy && w.keyBy[a] in w.untold && fd in w.kernel && w.kernel[fd].mask == {In, Out}
    ensures var x := AfterSignal(w, a, Closed, handlers);
            a in x.sockets && x.busy == Some(a) &&
            var v := Finished(x, a);
            && a in v.keyBy && v.keyBy[a] in v.untold && a in v.sockets && v.sockets[a].enabled == {} && v.sockets[a].fd == Some(fd)
            && fd in v.kernel && v.kernel[fd].mask == {In, Out}
  {
    QuietSignal(w, a, Closed, handlers);
    FlagsKept(w, a, {});
    FlagsKeep(w, a, {}, {});
    var x := AfterSignal(w, a, Closed, handlers);
    assert x == WithFlags(w, a, {}).(deeds := w.deeds + [Raised(a, Closed)]);
    FinishKeeps(x, a);
  }

  // ----- Between events -----

  /** The kernel's mask for a registered socket. */
  ghost function Watched(w: World, a: Addr): set<Ready>
    requires Valid(w) && a in w.keyBy
  {
    InstalledHere(w, a, {});
    w.kernel[w.sockets[a].fd.value].mask
  }

  /** What agreement means while no event is being handled. */
  lemma Outcome(w: World)
    requires Idle(w)
    ensures forall a, k :: (a in w.keyBy && w.keyBy[a] == k) <==> (k in w.byKey && w.byKey[k] == a)
    ensures forall a :: a in w.sockets ==> (w.sockets[a].fd.Some? <==> a in w.keyBy)
    ensures forall a :: a in w.keyBy ==> a in w.sockets && Watched(w, a) >= EpollEvents(w.sockets[a].enabled)
    ensures forall a :: a in w.keyBy ==> (Watched(w, a) == EpollEvents(w.sockets[a].enabled) <==> w.keyBy[a] !in w.untold)
  {
    forall a | a in w.keyBy
      ensures a in w.sockets && w.sockets[a].fd.Some? && Watched(w, a) >= EpollEvents(w.sockets[a].enabled)
      ensures Watched(w, a) == EpollEvents(w.sockets[a].enabled) <==> w.keyBy[a] !in w.untold
    {
      InstalledHere(w, a, {});
    }
  }

  // ----- Whole runs -----

  /** What holds once n steps have been made. */
  ghost predicate Sound(w: World, steps: seq<Step>, n: nat)
    requires n <= |steps|
  {
    Idle(w) && Accounted(w) && AllDone(w) && Told(w, steps, n) && (CarefulSteps(steps) ==> w.mistimed == {})
  }

  lemma SoundNext(w: World, steps: seq<Step>, n: nat)
    requires n < |steps| && Sound(w, steps, n)
    ensures Sound(AfterStep(w, steps[n]), steps, n + 1)
  {
    StepKeeps(w, steps[n]);
    StepDone(w, steps[n]);
    StepTold(w, steps, n);
    if CarefulSteps(steps) {
      CarefulStep(w, steps[n]);
    }
  }

  /** Over every run the invariant holds, the history tells of every step, and with careful
      handlers nothing is ever mistimed. */
  lemma {:induction false} RunSound(steps: seq<Step>, n: nat)
    requires n <= |steps|
    ensures Sound(AfterSteps(Initial, steps, n), steps, n)
  {
    if n == 0 {
      InitialValid();
    } else {
      RunSound(steps, n - 1);
      SoundNext(AfterSteps(Initial, steps, n - 1), steps, n - 1);
    }
  }

  // ----- The server as written -----

  class SocketServer {
    var byKey: map<Key, Addr>
    var keyBy: map<Addr, Key>
    var nextKey: Key
    var sockets: map<Addr, Sock>
    var kernel: map<Fd, Interest>

    ghost var opening: map<Addr, int>
    ghost var opens: int
    ghost var registrations: seq<int>
    ghost var busy: Option<Addr>
    ghost var mistimed: set<Key>
    ghost var untold: set<Key>
    ghost var log: seq<Entry>
    ghost var polls: seq<Poll>
    ghost var deeds: seq<Deed>

    ghost function View(): World
      reads this
    {
      World(byKey, keyBy, nextKey, sockets, kernel, opening, opens, registrations, busy, mistimed, untold, log, polls, deeds)
    }

    constructor ()
      ensures View() == Initial
    {
      byKey, keyBy, nextKey, sockets, kernel := map[], map[], 0, map[], map[];
      opening, opens, registrations, busy, mistimed, untold, log, polls, deeds := map[], 0, [], None, {}, {}, [], [], [];
    }

    // ----- The server's table -----

    /** Add and AddEpoll. A duplicate is refused. */
    method Add(a: Addr)
      requires a !in keyBy ==> a in sockets && sockets[a].fd.Some?
      modifies this`byKey, this`keyBy, this`nextKey, this`kernel, this`registrations, this`opens, this`mistimed, this`untold
      ensures View() == Added(old(View()), a)
    {
      if a in keyBy {
        return;
      }
      ghost var early := if RegistersEarly(sockets[a]) then {nextKey} else {};
      Install(a, sockets[a].fd.value, EpollEvents(sockets[a].enabled));
      Issue(early);
    }

    method Install(a: Addr, fd: Fd, mask: set<Ready>)
      modifies this`byKey, this`keyBy, this`nextKey, this`kernel
      ensures nextKey == old(nextKey) + 1 && byKey == old(byKey)[old(nextKey) := a] && keyBy == old(keyBy)[a := old(nextKey)]
      ensures kernel == old(kernel)[fd := Interest(old(nextKey), mask)]
    {
      var key := nextKey;
      nextKey := nextKey + 1;
      byKey, keyBy := byKey[key := a], keyBy[a := key];
      kernel := kernel[fd := Interest(key, mask)];
    }

    ghost method Issue(early: set<Key>)
      modifies this`registrations, this`opens, this`mistimed, this`untold
      ensures registrations == old(registrations) + [old(opens)] && opens == old(opens) + 1
      ensures mistimed == old(mistimed) + early && untold == old(untold) + early
    {
      registrations, opens, mistimed, untold := registrations + [opens], opens + 1, mistimed + early, untold + early;
    }

    /** Remove and RemoveEpoll. An unknown dispatcher is ignored. */
    method Remove(a: Addr)
      requires a in keyBy ==> a in sockets && sockets[a].fd.Some?
      modifies this`byKey, this`keyBy, this`kernel
      ensures View() == Removed(old(View()), a)
    {
      if a !in keyBy {
        return;
      }
      var key := keyBy[a];
      keyBy, byKey := keyBy - {a}, byKey - {key};
      kernel := kernel - {sockets[a].fd.value};
    }

    /** Update and UpdateEpoll. Sockets not yet added are left alone. */
    method Update(a: Addr)
      requires a in keyBy ==> a in sockets && sockets[a].fd.Some?
      modifies this`kernel, this`untold
      ensures View() == Updated(old(View()), a)
    {
      if a in keyBy {
        kernel := kernel[sockets[a].fd.value := Interest(keyBy[a], EpollEvents(sockets[a].enabled))];
        untold := untold - {keyBy[a]};
      }
    }

    // ----- Flags -----

    method MaybeUpdateDispatcher(a: Addr, oldEvents: set<Flag>)
      requires a in sockets && (a in keyBy ==> sockets[a].fd.Some?)
      modifies this`kernel, this`untold
      ensures View() == MaybeUpdated(old(View()), a, oldEvents)
    {
      if EpollEvents(sockets[a].enabled) != EpollEvents(oldEvents) && sockets[a].saved.None? {
        Update(a);
      }
    }

    method SetEnabledEvents(a: Addr, events: set<Flag>)
      requires a in sockets && (a in keyBy ==> sockets[a].fd.Some?)
      modifies this`sockets, this`kernel, this`untold
      ensures View() == WithFlags(old(View()), a, events)
    {
      var oldEvents := sockets[a].enabled;
      sockets := sockets[a := sockets[a].(enabled := events)];
      MaybeUpdateDispatcher(a, oldEvents);
    }

    method StartBatchedEventUpdates(a: Addr)
      requires a in sockets
      modifies this`sockets, this`busy
      ensures View() == Started(old(View()), a)
    {
      sockets := sockets[a := sockets[a].(saved := Some(sockets[a].enabled))];
      busy := Some(a);
    }

    method FinishBatchedEventUpdates(a: Addr)
      requires a in sockets && sockets[a].saved.Some? && (a in keyBy ==> sockets[a].fd.Some?)
      modifies this`sockets, this`busy, this`kernel, this`untold
      ensures View() == Finished(old(View()), a)
    {
      var oldEvents := sockets[a].saved.value;
      sockets := sockets[a := sockets[a].(saved := None)];
      busy := None;
      MaybeUpdateDispatcher(a, oldEvents);
    }

    // ----- Sockets -----

    /** A closed socket is left alone. */
    method DoClose(a: Addr)
      requires a in sockets
      modifies this`sockets, this`byKey, this`keyBy, this`kernel, this`untold
      ensures View() == Shut(old(View()), a)
    {
      if sockets[a].fd.None? {
        return;
      }
      var s := sockets[a].(saved := if sockets[a].saved.Some? then Some({}) else None);
      sockets := sockets[a := s];
      Remove(a);
      sockets := sockets[a := s.(fd := None)];
      SetEnabledEvents(a, {});
    }

    /** The call of socket() on a closed socket, and the flags of a datagram socket. */
    method Open(a: Addr, fd: Option<Fd>, datagram: bool)
      requires a in sockets && a !in keyBy
      modifies this`sockets, this`opening, this`kernel, this`untold
      ensures View() == Opened(old(View()), a, fd, datagram)
    {
      sockets := sockets[a := sockets[a].(fd := fd, udp := datagram)];
      opening := opening[a := opens];
      if datagram {
        SetEnabledEvents(a, {Read, Write});
      }
    }

    method Reopen(a: Addr, fd: Option<Fd>, datagram: bool) returns (ok: bool)
      requires Valid(View()) && a in sockets && a !in keyBy
      modifies this`sockets, this`byKey, this`keyBy, this`kernel, this`opening, this`nextKey, this`registrations, this`opens, this`mistimed, this`untold
      ensures View() == Reopened(old(View()), a, fd, datagram) && (ok <==> fd.Some? && fd.value !in old(kernel))
    {
      ok := fd.Some? && fd.value !in kernel;
      OpenedKeeps(View(), a, if ok then fd else None, datagram);
      Open(a, if ok then fd else None, datagram);
      if ok {
        Add(a);
      }
    }

    method DoCreate(a: Addr, fd: Option<Fd>, datagram: bool) returns (ok: bool)
      requires Valid(View()) && a in sockets
      modifies this`sockets, this`byKey, this`keyBy, this`kernel, this`opening, this`nextKey, this`registrations, this`opens, this`mistimed, this`untold
      ensures View() == Created(old(View()), a, fd, datagram) && (ok <==> Available(old(View()), a, fd))
    {
      CreatedIs(View(), a, fd, datagram);
      ShutKeeps(View(), a);
      ghost var w := Shut(View(), a);
      DoClose(a);
      ReopenedIs(w, a, fd, datagram);
      ok := Reopen(a, fd, datagram);
    }

    method DoConnect(a: Addr, fd: Option<Fd>, result: ConnectResult) returns (ok: bool)
      requires Valid(View()) && a in sockets
      modifies this`sockets, this`byKey, this`keyBy, this`kernel, this`opening, this`nextKey, this`registrations, this`opens, this`mistimed, this`untold
      ensures View() == Connected(old(View()), a, fd, result) && (ok <==> a in sockets && sockets[a].fd.Some? && !result.Refused?)
    {
      ConnectedKeeps(View(), a, fd, result);
      if sockets[a].fd.None? {
        CreatedKeeps(View(), a, fd, false);
        CreatedIs(View(), a, fd, false);
        ok := DoCreate(a, fd, false);
        if !ok {
          return;
        }
      }
      ok := FinishConnect(a, result);
    }

    /** The outcome of connect() on an open socket. */
    method FinishConnect(a: Addr, result: ConnectResult) returns (ok: bool)
      requires a in sockets && sockets[a].fd.Some?
      modifies this`sockets, this`kernel, this`untold
      ensures View() == ConnectDone(old(View()), a, result) && (ok <==> !result.Refused?)
      ensures a in sockets && sockets[a].fd.Some?
    {
      if result.Refused? {
        return false;
      }
      SetEnabledEvents(a, sockets[a].enabled + (if result.Done? then {Read, Write} else {Read, Write, Connect}));
      ok := true;
    }

    /** WrapSocket, for a descriptor that accept() returned. */
    method WrapSocket(a: Addr, fd: Fd, datagram: bool)
      requires Valid(View())
      modifies this`sockets, this`byKey, this`keyBy, this`kernel, this`opening, this`nextKey, this`registrations, this`opens, this`mistimed, this`untold
      ensures View() == Wrapped(old(View()), a, fd, datagram)
    {
      if a !in sockets && fd !in kernel {
        NewKeeps(View(), a);
        sockets := sockets[a := NewSock];
        FlagsKept(View(), a, {Read, Write});
        SetEnabledEvents(a, {Read, Write});
        var ok := Reopen(a, Some(fd), datagram);
      }
    }

    /** The destructor. An object is not destroyed while its own OnEvent is on the stack. */
    method DeleteSocket(a: Addr)
      modifies this`sockets, this`byKey, this`keyBy, this`kernel, this`untold
      ensures View() == Destroyed(old(View()), a)
    {
      if a in sockets && sockets[a].saved.None? {
        DoClose(a);
        sockets := sockets - {a};
      }
    }

    /** Whatever handlers and other callers do to sockets. */
    method Act(act: Action)
      requires Valid(View())
      modifies this`sockets, this`byKey, this`keyBy, this`kernel, this`opening, this`nextKey, this`registrations, this`opens, this`mistimed, this`untold, this`deeds
      ensures View() == AfterAct(old(View()), act)
    {
      Carry(act);
      deeds := deeds + [Did(act)];
    }

    method Carry(act: Action)
      requires Valid(View())
      modifies this`sockets, this`byKey, this`keyBy, this`kernel, this`opening, this`nextKey, this`registrations, this`opens, this`mistimed, this`untold
      ensures View() == Performed(old(View()), act)
    {
      var a := act.a;
      if a in sockets {
        ShutIs(View(), a);
      }
      match act {
        case New(_) =>
          if a !in sockets {
            sockets := sockets[a := NewSock];
          }
        case Wrap(_, fd, datagram) => WrapSocket(a, fd, datagram);
        case Create(_, fd, datagram) =>
          if a in sockets {
            var ok := DoCreate(a, fd, datagram);
          }
        case DoConnect(_, fd, result) =>
          if a in sockets {
            var ok := DoConnect(a, fd, result);
          }
        case Enable(_, events) =>
          if a in sockets && sockets[a].fd.Some? {
            SetEnabledEvents(a, sockets[a].enabled + events);
          }
        case Resubscribe(_, events) =>
          if a in sockets {
            SetEnabledEvents(a, sockets[a].enabled + events);
          }
        case Close(_) =>
          if a in sockets {
            DoClose(a);
          }
        case Delete(_) => DeleteSocket(a);
      }
    }

    method Perform(acts: seq<Action>)
      requires Valid(View())
      modifies this`sockets, this`byKey, this`keyBy, this`kernel, this`opening, this`nextKey, this`registrations, this`opens, this`mistimed, this`untold, this`deeds
      ensures View() == AfterActs(old(View()), acts, |acts|)
    {
      ghost var w := View();
      var i := 0;
      while i < |acts|
        invariant 0 <= i <= |acts| && View() == AfterActs(w, acts, i)
      {
        ActNext(w, acts, i);
        i := i + 1;
      }
    }

    method ActNext(ghost w: World, acts: seq<Action>, i: nat)
      requires Valid(w) && i < |acts| && View() == AfterActs(w, acts, i)
      modifies this`sockets, this`byKey, this`keyBy, this`kernel, this`opening, this`nextKey, this`registrations, this`opens, this`mistimed, this`untold, this`deeds
      ensures View() == AfterActs(w, acts, i + 1)
    {
      ActsKeep(w, acts, i);
      Act(acts[i]);
    }

    // ----- Events -----

    /** One signal of OnEvent: the flag is switched off, then the handlers run. */
    method Raise(a: Addr, ff: set<Flag>, f: Flag, handlers: Handlers)
      requires Valid(View()) && busy == Some(a)
      modifies this`sockets, this`byKey, this`keyBy, this`kernel, this`opening, this`nextKey, this`registrations, this`opens, this`mistimed, this`untold, this`deeds
      ensures Kept(old(View()), View()) && View() == if f in ff then AfterSignal(old(View()), a, f, handlers) else old(View())
    {
      if f in ff {
        SignalKeeps(View(), a, f, handlers);
        BusyThere(View());
        ShutIs(View(), a);
        FlagsKept(View(), a, if f.Closed? then {} else sockets[a].enabled - {f});
        SetEnabledEvents(a, if f.Closed? then {} else sockets[a].enabled - {f});
        deeds := deeds + [Raised(a, f)];
        Perform(handlers(f, a));
      }
    }

    /** Handlers run between the two ends of a batch. */
    method OnEvent(a: Addr, ff: set<Flag>, handlers: Handlers)
      requires Idle(View()) && a in keyBy && a in sockets
      modifies this`sockets, this`byKey, this`keyBy, this`kernel, this`opening, this`nextKey, this`registrations, this`opens, this`mistimed, this`untold, this`busy, this`deeds
      ensures View() == AfterEvent(old(View()), a, ff, handlers)
    {
      StartKeeps(View(), a);
      StartBatchedEventUpdates(a);
      RaiseAll(a, ff, handlers);
      BusyThere(View());
      ShutIs(View(), a);
      FinishBatchedEventUpdates(a);
    }

    /** The signals, in the order in which the code has them. */
    method RaiseAll(a: Addr, ff: set<Flag>, handlers: Handlers)
      requires Valid(View()) && busy == Some(a)
      modifies this`sockets, this`byKey, this`keyBy, this`kernel, this`opening, this`nextKey, this`registrations, this`opens, this`mistimed, this`untold, this`deeds
      ensures Kept(old(View()), View()) && View() == AfterSignals(old(View()), a, ff, handlers, |Order|)
    {
      ghost var w := View();
      SignalsKeep(w, a, ff, handlers, |Order|);
      Unrolled(w, a, ff, handlers);
      Raise(a, ff, Connect, handlers);
      Raise(a, ff, Accept, handlers);
      Raise(a, ff, Read, handlers);
      Raise(a, ff, Write, handlers);
      Raise(a, ff, Closed, handlers);
    }

    // ----- Waiting -----

    method ProcessEvents(a: Addr, r: Report)
      requires Idle(View()) && a in keyBy && a in sockets
      modifies this`sockets, this`byKey, this`keyBy, this`kernel, this`opening, this`nextKey, this`registrations, this`opens, this`mistimed, this`untold, this`busy, this`deeds
      ensures View() == AfterProcess(old(View()), a, r)
    {
      var ff := TriggeredBy(sockets[a], r);
      if ff != {} {
        OnEvent(a, ff, r.handlers);
      }
    }

    /** One turn of the loop over what epoll_wait returned. */
    method Dispatch(g: Gathered)
      requires Idle(View()) && 0 <= g.key < nextKey
      modifies this`sockets, this`byKey, this`keyBy, this`kernel, this`opening, this`nextKey, this`registrations, this`opens, this`mistimed, this`untold, this`busy, this`log, this`deeds
      ensures View() == AfterDispatch(old(View()), g)
    {
      if g.key !in byKey {
        log := log + [Dropped(g)];
        return;
      }
      var a := byKey[g.key];
      InstalledHere(View(), a, {});
      ghost var e := Delivered(g, opening[a], a, TriggeredBy(sockets[a], g.report));
      LogGrows(View(), e);
      log := log + [e];
      ProcessEvents(a, g.report);
    }

    /** epoll_wait: ready descriptors under their keys, as far as their masks ask for them. */
    method Gather(reports: seq<Report>) returns (gathered: seq<Gathered>)
      ensures gathered == Reported(kernel, reports)
    {
      gathered := [];
      var i := 0;
      while i < |reports|
        invariant 0 <= i <= |reports| && gathered == Reported(kernel, reports[..i])
      {
        assert reports[..i + 1][..i] == reports[..i];
        var r := reports[i];
        if r.fd in kernel {
          var interest := kernel[r.fd];
          gathered := gathered + [Gathered(interest.key, r.(readable := r.readable && In in interest.mask, writable := r.writable && Out in interest.mask))];
        }
        i := i + 1;
      }
      assert reports[..i] == reports;
    }

    /** The loop over what epoll_wait returned, whatever its handlers do. */
    method DispatchAll(gathered: seq<Gathered>)
      requires Idle(View()) && KeysKnown(View(), gathered)
      modifies this`sockets, this`byKey, this`keyBy, this`kernel, this`opening, this`nextKey, this`registrations, this`opens, this`mistimed, this`untold, this`busy, this`log, this`deeds
      ensures View() == AfterDispatches(old(View()), gathered, |gathered|)
    {
      ghost var w := View();
      var i := 0;
      while i < |gathered|
        invariant 0 <= i <= |gathered| && View() == AfterDispatches(w, gathered, i)
      {
        DispatchNext(w, gathered, i);
        i := i + 1;
      }
    }

    method DispatchNext(ghost w: World, gathered: seq<Gathered>, i: nat)
      requires Idle(w) && KeysKnown(w, gathered) && i < |gathered| && View() == AfterDispatches(w, gathered, i)
      modifies this`sockets, this`byKey, this`keyBy, this`kernel, this`opening, this`nextKey, this`registrations, this`opens, this`mistimed, this`untold, this`busy, this`log, this`deeds
      ensures View() == AfterDispatches(w, gathered, i + 1)
    {
      ghost var v := DispatchesKeep(w, gathered, i);
      Dispatch(gathered[i]);
    }

    /** One return of epoll_wait with events. */
    method Serve(reports: seq<Report>)
      requires Idle(View()) && Accounted(View())
      modifies this`sockets, this`byKey, this`keyBy, this`kernel, this`opening, this`nextKey, this`registrations, this`opens, this`mistimed, this`untold, this`busy, this`log, this`polls, this`deeds
      ensures View() == AfterServe(old(View()), reports)
    {
      ghost var poll := Poll(kernel, reports);
      AllWanted(View(), reports);
      var gathered := Gather(reports);
      assert KeysKnown(View(), gathered);
      DispatchAll(gathered);
      polls := old(polls) + [poll];
    }

    /** Rounds of epoll_wait until the time is up, an error, or a wake-up by a handler. */
    method WaitEpoll(rounds: seq<Round>) returns (ok: bool)
      requires Idle(View()) && Accounted(View())
      modifies this`sockets, this`byKey, this`keyBy, this`kernel, this`opening, this`nextKey, this`registrations, this`opens, this`mistimed, this`untold, this`busy, this`log, this`polls, this`deeds
      ensures View() == AfterWait(old(View()), rounds) && ok == Succeeds(rounds)
    {
      var i := 0;
      assert rounds[0..] == rounds;
      while i < |rounds|
        invariant 0 <= i <= |rounds| && Idle(View()) && Accounted(View())
        invariant AfterWait(View(), rounds[i..]) == AfterWait(old(View()), rounds) && Succeeds(rounds[i..]) == Succeeds(rounds)
      {
        assert rounds[i..][1..] == rounds[i + 1..];
        RoundKeeps(View(), rounds[i]);
        if rounds[i].Ready? {
          Serve(rounds[i].reports);
        }
        if Stops(rounds[i]) {
          return !rounds[i].Failed?;
        }
        i := i + 1;
      }
      return true;
    }

    method DoStep(step: Step)
      requires Idle(View()) && Accounted(View())
      modifies this`sockets, this`byKey, this`keyBy, this`kernel, this`opening, this`nextKey, this`registrations, this`opens, this`mistimed, this`untold, this`busy, this`log, this`polls, this`deeds
      ensures View() == AfterStep(old(View()), step)
    {
      match step {
        case Outside(act) =>
          LogGrows(View(), Outer(act));
          log := log + [Outer(act)];
          Act(act);
        case Wait(rounds) => var ok := WaitEpoll(rounds);
      }
    }

    method StepNext(steps: seq<Step>, i: nat)
      requires i < |steps| && View() == AfterSteps(Initial, steps, i)
      modifies this`sockets, this`byKey, this`keyBy, this`kernel, this`opening, this`nextKey, this`registrations, this`opens, this`mistimed, this`untold, this`busy, this`log, this`polls, this`deeds
      ensures View() == AfterSteps(Initial, steps, i + 1)
    {
      RunSound(steps, i);
      DoStep(steps[i]);
    }
  }

  ghost function AfterFlag(w: World, a: Addr, ff: set<Flag>, f: Flag, handlers: Handlers): World {
    if f in ff then AfterSignal(w, a, f, handlers) else w
  }

  lemma Unrolled(w: World, a: Addr, ff: set<Flag>, handlers: Handlers)
    ensures var w1 := AfterFlag(w, a, ff, Connect, handlers);
            var w2 := AfterFlag(w1, a, ff, Accept, handlers);
            var w3 := AfterFlag(w2, a, ff, Read, handlers);
            var w4 := AfterFlag(w3, a, ff, Write, handlers);
            AfterSignals(w, a, ff, handlers, |Order|) == AfterFlag(w4, a, ff, Closed, handlers)
  {
    var w1 := AfterFlag(w, a, ff, Connect, handlers);
    var w2 := AfterFlag(w1, a, ff, Accept, handlers);
    var w3 := AfterFlag(w2, a, ff, Read, handlers);
    var w4 := AfterFlag(w3, a, ff, Write, handlers);
    assert AfterSignals(w, a, ff, handlers, 0) == w;
    assert AfterSignals(w, a, ff, handlers, 1) == w1;
    assert AfterSignals(w, a, ff, handlers, 2) == w2;
    assert AfterSignals(w, a, ff, handlers, 3) == w3;
    assert AfterSignals(w, a, ff, handlers, 4) == w4;
  }

  // ----- Runs -----

  /** Every run ends as the machine says. The two tables stay inverse and no key is issued
      twice. Every event that epoll_wait returned is accounted for once and in order:
      delivered to the opening its key was issued for, or dropped because that is closed. The
      signals raised and the actions carried out are those of the events delivered and of the
      steps. The kernel watches every open socket for at least what it has enabled, and for
      exactly that if and only if its registration is not one of those that were mistimed and
      never followed by an update. If handlers are careful with their own sockets, there are
      none. */
  method Run(steps: seq<Step>) returns (s: SocketServer)
    ensures fresh(s) && s.View() == AfterSteps(Initial, steps, |steps|) && Idle(s.View())
    ensures forall a, k :: (a in s.keyBy && s.keyBy[a] == k) <==> (k in s.byKey && s.byKey[k] == a)
    ensures forall j, k :: 0 <= j < k < |s.registrations| ==> s.registrations[j] != s.registrations[k]
    ensures Genuine(s.log, s.registrations, s.byKey) && EventsIn(s.log) == Polled(s.polls)
    ensures ReportsOf(s.polls) == AllServed(steps, |steps|) && OuterIn(s.log) == OutsideActs(steps, |steps|)
    ensures s.deeds == LogDeeds(s.log, |s.log|)
    ensures forall a :: a in s.sockets ==> (s.sockets[a].fd.Some? <==> a in s.keyBy)
    ensures forall a :: a in s.keyBy ==> Watched(s.View(), a) >= EpollEvents(s.sockets[a].enabled)
    ensures forall a :: a in s.keyBy ==> (Watched(s.View(), a) == EpollEvents(s.sockets[a].enabled) <==> s.keyBy[a] !in s.untold)
    ensures s.untold <= s.mistimed && forall k :: k in s.mistimed ==> 0 <= k < |s.registrations|
    ensures CarefulSteps(steps) ==> s.mistimed == {} && forall a :: a in s.keyBy ==> Watched(s.View(), a) == EpollEvents(s.sockets[a].enabled)
  {
    s := RunSteps(steps);
    RunSound(steps, |steps|);
    Outcome(s.View());
  }

  method RunSteps(steps: seq<Step>) returns (s: SocketServer)
    ensures fresh(s) && s.View() == AfterSteps(Initial, steps, |steps|)
  {
    s := new SocketServer();
    var i := 0;
    while i < |steps|
      invariant 0 <= i <= |steps| && fresh(s) && s.View() == AfterSteps(Initial, steps, i)
    {
      s.StepNext(steps, i);
      i := i + 1;
    }
  }
}
