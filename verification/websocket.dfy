/** WebSocket connections: the peer map, the users' queues and their consumers at the broker,
    and the watchdog that removes dead peers in two phases. */
module WebSocket {
  import opened Options

  type Addr = nat

  /** A user's queue, its routing key and its consumer tag are constants followed by the user. */
  type User = string

  /** `since` and the clock count milliseconds. `alive` is the state of the socket. */
  datatype Peer = Peer(user: User, since: nat, alive: bool)

  const GRACE_SECONDS: nat := 5

  predicate InGracePeriod(p: Peer, now: nat)
    requires p.since <= now
  {
    (now - p.since) / 1000 < GRACE_SECONDS
  }

  /** The watchdog finds this peer dead. */
  predicate Expired(p: Peer, now: nat)
    requires p.since <= now
  {
    !InGracePeriod(p, now) && !p.alive
  }

  // ---- the server, one operation at a time ------------------------------------------------

  /** `consumers` gives for each user's tag the peer address that its consumer holds. */
  datatype Server = Server(
    peers: map<Addr, Peer>,
    queues: set<User>,
    bound: set<User>,
    consumers: map<User, Addr>)

  ghost predicate ClockAhead(s: Server, now: nat) {
    forall a | a in s.peers :: s.peers[a].since <= now
  }

  function Inserted(s: Server, addr: Addr, user: User, now: nat): Server {
    s.(peers := s.peers[addr := Peer(user, now, true)])
  }

  function DeclaredQueue(s: Server, user: User): Server {
    s.(queues := s.queues + {user})
  }

  /** Naming a missing queue is a channel error: the channel closes and its consumers go. */
  function BoundQueue(s: Server, user: User): Server {
    if user in s.queues then s.(bound := s.bound + {user}) else s.(consumers := map[])
  }

  /** Cancels the consumer under the user's tag, then consumes for the new address. */
  function Consuming(s: Server, user: User, addr: Addr): Server {
    if user in s.queues then s.(consumers := s.consumers[user := addr]) else s.(consumers := map[])
  }

  /** Deleting a queue removes its binding and cancels its consumers; a missing queue is fine. */
  function DeletedQueue(s: Server, user: User): Server {
    s.(queues := s.queues - {user}, bound := s.bound - {user}, consumers := s.consumers - {user})
  }

  ghost function ExpiredPeers(s: Server, now: nat): set<Addr>
    requires ClockAhead(s, now)
  {
    set a | a in s.peers && Expired(s.peers[a], now)
  }

  ghost function UsersOf(s: Server, addrs: set<Addr>): set<User>
    requires addrs <= s.peers.Keys
  {
    set a | a in addrs :: s.peers[a].user
  }

  /** The server without the dead peers, and without the queues of their users. */
  ghost function Swept(s: Server, now: nat): Server
    requires ClockAhead(s, now)
  {
    var dead := ExpiredPeers(s, now);
    var users := UsersOf(s, dead);
    Server(s.peers - dead, s.queues - users, s.bound - users, s.consumers - users)
  }

  /** A peer of the user is dead and was connected five seconds ago or longer. */
  ghost predicate HasDeadPeer(s: Server, now: nat, user: User) {
    exists a :: a in s.peers && s.peers[a].user == user && !s.peers[a].alive && now - s.peers[a].since >= 5000
  }

  /** What a sweep leaves: every peer but those dead for five seconds, and of a user's queue,
      binding and consumer all or nothing, as the user has no such peer or has one. */
  lemma SweptLeaves(s: Server, now: nat)
    requires ClockAhead(s, now)
    ensures var z := Swept(s, now);
            && (forall a :: a in z.peers <==> a in s.peers && (s.peers[a].alive || now - s.peers[a].since < 5000))
            && (forall a | a in z.peers :: z.peers[a] == s.peers[a])
            && (forall u :: u in z.queues <==> u in s.queues && !HasDeadPeer(s, now, u))
            && (forall u :: u in z.bound <==> u in s.bound && !HasDeadPeer(s, now, u))
            && (forall u :: u in z.consumers <==> u in s.consumers && !HasDeadPeer(s, now, u))
            && (forall u | u in z.consumers :: z.consumers[u] == s.consumers[u])
  {
    var dead := ExpiredPeers(s, now);
    assert forall a :: a in dead <==> a in s.peers && !s.peers[a].alive && now - s.peers[a].since >= 5000;
    forall u ensures u in UsersOf(s, dead) <==> HasDeadPeer(s, now, u) {
      if HasDeadPeer(s, now, u) {
        var a :| a in s.peers && s.peers[a].user == u && !s.peers[a].alive && now - s.peers[a].since >= 5000;
        assert a in dead;
      }
    }
  }

  class WebSocketServer {
    var server: Server

    constructor ()
      ensures server == Server(map[], {}, {}, map[])
    {
      server := Server(map[], {}, {}, map[]);
    }

    /** `handle_connection` from its first message on, undisturbed. The latest connection of a
        user takes the user's consumer over. */
    method HandleConnection(addr: Addr, user: User, now: nat)
      modifies this
      ensures server.peers == old(server.peers)[addr := Peer(user, now, true)]
      ensures server.queues == old(server.queues) + {user} && server.bound == old(server.bound) + {user}
      ensures server.consumers == old(server.consumers)[user := addr]
    {
      server := Inserted(server, addr, user, now);
      server := DeclaredQueue(server, user);
      server := BoundQueue(server, user);
      server := Consuming(server, user, addr);
    }

    method RemoveDisconnectedPeersAndQueues(now: nat)
      requires ClockAhead(server, now)
      modifies this
      ensures server == Swept(old(server), now)
      ensures forall a :: a in server.peers <==>
                a in old(server).peers && (old(server).peers[a].alive || now - old(server).peers[a].since < 5000)
      ensures forall a | a in server.peers :: server.peers[a] == old(server).peers[a]
      ensures forall u :: u in server.queues <==> u in old(server).queues && !HasDeadPeer(old(server), now, u)
      ensures forall u :: u in server.bound <==> u in old(server).bound && !HasDeadPeer(old(server), now, u)
      ensures forall u :: u in server.consumers <==> u in old(server).consumers && !HasDeadPeer(old(server), now, u)
      ensures forall u | u in server.consumers :: server.consumers[u] == old(server).consumers[u]
    {
      ghost var before := server;
      var disconnected: set<Addr> := {};
      var todo := server.peers.Keys;
      while todo != {}
        invariant todo <= before.peers.Keys && disconnected <= before.peers.Keys - todo
        invariant disconnected == ExpiredPeers(before, now) - todo
        invariant server == Server(before.peers, before.queues - UsersOf(before, disconnected),
                                   before.bound - UsersOf(before, disconnected),
                                   before.consumers - UsersOf(before, disconnected))
        decreases todo
      {
        var addr :| addr in todo;
        var peer := server.peers[addr];
        if !InGracePeriod(peer, now) && !peer.alive {
          assert UsersOf(before, disconnected + {addr}) == UsersOf(before, disconnected) + {peer.user};
          server := DeletedQueue(server, peer.user);
          disconnected := disconnected + {addr};
        }
        todo := todo - {addr};
      }
      server := server.(peers := server.peers - disconnected);
      SweptLeaves(before, now);
    }

    /** The unwrapped lookup of `post_event_message`: without the peer the consumer panics. */
    method PeerOf(addr: Addr) returns (peer: Option<Peer>)
      ensures peer.Some? <==> addr in server.peers
      ensures peer.Some? ==> peer.value == server.peers[addr]
    {
      peer := if addr in server.peers then Some(server.peers[addr]) else None;
    }
  }

  // ---- interleavings ----------------------------------------------------------------------

  datatype Stage = QueueNext | BindNext | ConsumeNext

  /** The first phase holds the lock of the peer map; between the phases it is free. */
  datatype Sweep = Idle | Scanning(todo: set<Addr>, dead: set<Addr>) | Removing(dead: set<Addr>)

  /** A message that the broker has handed to a consumer: the user it is for and the address the
      consumer holds. `since` is history, -1 without a peer: with it the address names one
      connection. */
  datatype Delivery = Delivery(user: User, addr: Addr, since: int)

  /** `inflight`: messages handed over and waiting for the lock, by a number of their own. */
  datatype State = State(
    server: Server,
    now: nat,
    connecting: map<Addr, Stage>,
    sweep: Sweep,
    inflight: map<nat, Delivery>)

  datatype Step =
    | Connect(addr: Addr, user: User)
    | DeclareQueue(addr: Addr)
    | BindQueue(addr: Addr)
    | Consume(addr: Addr)
    | Disconnect(addr: Addr)
    | Tick(ms: nat)
    | SweepStart
    | SweepPeer(addr: Addr)
    | SweepUnlock
    | SweepRemove
      // The broker hands a message to the user's consumer. Cancelling the consumer later does
      // not take it back.
    | Receive(job: nat, user: User)
      // The consumer has the lock and looks its peer up.
    | Lookup(job: nat)

  function DeadOf(sweep: Sweep): set<Addr> {
    match sweep
    case Idle => {}
    case Scanning(_, dead) => dead
    case Removing(dead) => dead
  }

  /** New connections come from addresses that are not in use. Connecting and looking a peer up
      need the lock of the peer map. */
  predicate Enabled(s: State, t: Step) {
    match t
    case Connect(a, _) =>
      !s.sweep.Scanning? && a !in s.server.peers && a !in s.connecting && a !in DeadOf(s.sweep)
    case DeclareQueue(a) => a in s.connecting && s.connecting[a] == QueueNext && a in s.server.peers
    case BindQueue(a) => a in s.connecting && s.connecting[a] == BindNext && a in s.server.peers
    case Consume(a) => a in s.connecting && s.connecting[a] == ConsumeNext && a in s.server.peers
    case Disconnect(a) => a in s.server.peers
    case Tick(_) => true
    case SweepStart => s.sweep.Idle?
    case SweepPeer(a) =>
      s.sweep.Scanning? && a in s.sweep.todo && a in s.server.peers && s.server.peers[a].since <= s.now
    case SweepUnlock => s.sweep.Scanning? && s.sweep.todo == {}
    case SweepRemove => s.sweep.Removing?
    case Receive(job, u) => job !in s.inflight && u in s.server.consumers
    case Lookup(job) => !s.sweep.Scanning? && job in s.inflight
  }

  function Next(s: State, t: Step): State
    requires Enabled(s, t)
  {
    match t
    case Connect(a, u) =>
      s.(server := Inserted(s.server, a, u, s.now), connecting := s.connecting[a := QueueNext])
    case DeclareQueue(a) =>
      s.(server := DeclaredQueue(s.server, s.server.peers[a].user), connecting := s.connecting[a := BindNext])
    case BindQueue(a) =>
      s.(server := BoundQueue(s.server, s.server.peers[a].user), connecting := s.connecting[a := ConsumeNext])
    case Consume(a) =>
      s.(server := Consuming(s.server, s.server.peers[a].user, a), connecting := s.connecting - {a})
    case Disconnect(a) =>
      s.(server := s.server.(peers := s.server.peers[a := s.server.peers[a].(alive := false)]))
    case Tick(ms) => s.(now := s.now + ms)
    case SweepStart => s.(sweep := Scanning(s.server.peers.Keys, {}))
    case SweepPeer(a) =>
      if Expired(s.server.peers[a], s.now) then
        s.(server := DeletedQueue(s.server, s.server.peers[a].user),
           sweep := Scanning(s.sweep.todo - {a}, s.sweep.dead + {a}))
      else s.(sweep := Scanning(s.sweep.todo - {a}, s.sweep.dead))
    case SweepUnlock => s.(sweep := Removing(s.sweep.dead))
    case SweepRemove => s.(server := s.server.(peers := s.server.peers - s.sweep.dead), sweep := Idle)
    case Receive(job, u) =>
      var a := s.server.consumers[u];
      var since := if a in s.server.peers then s.server.peers[a].since else -1;
      s.(inflight := s.inflight[job := Delivery(u, a, since)])
    case Lookup(job) => s.(inflight := s.inflight - {job})
  }

  /** Connections finish within the grace period: the watchdog examines none that is older and
      still under way. */
  predicate FinishesInGrace(s: State, t: Step) {
    (t.SweepPeer? && t.addr in s.connecting && t.addr in s.server.peers && s.server.peers[t.addr].since <= s.now)
    ==> InGracePeriod(s.server.peers[t.addr], s.now)
  }

  /** Examining one peer. Up to 4999 milliseconds after connecting, or with a live socket, only the
      list of peers to examine changes; from 5000 on a dead one is given up. */
  lemma SweepPeerByAge(s: State, a: Addr)
    requires Enabled(s, SweepPeer(a))
    ensures var z, p := Next(s, SweepPeer(a)), s.server.peers[a];
            if p.alive || s.now - p.since <= 4999
            then z == s.(sweep := Scanning(s.sweep.todo - {a}, s.sweep.dead))
            else && a in z.sweep.dead && z.sweep.todo == s.sweep.todo - {a} && z.server.peers == s.server.peers
                 && z.server.queues == s.server.queues - {p.user} && z.server.bound == s.server.bound - {p.user}
                 && z.server.consumers == s.server.consumers - {p.user}
  {
  }

  // ---- no dangling consumer ---------------------------------------------------------------

  /** Every consumer's queue exists, and its address is that of a peer of the same user that the
      watchdog has not given up. */
  ghost predicate NoDangling(s: State) {
    forall u | u in s.server.consumers ::
      && u in s.server.queues
      && s.server.consumers[u] in s.server.peers
      && s.server.peers[s.server.consumers[u]].user == u
      && s.server.consumers[u] !in DeadOf(s.sweep)
  }

  ghost predicate ConnectingPeers(s: State) {
    forall a | a in s.connecting :: a in s.server.peers && a !in DeadOf(s.sweep)
  }

  ghost predicate PeersSound(s: State) {
    && ClockAhead(s.server, s.now)
    && (s.sweep.Scanning? ==> s.sweep.todo <= s.server.peers.Keys)
    && s.server.bound <= s.server.queues
    && forall a | a in DeadOf(s.sweep) && a in s.server.peers :: Expired(s.server.peers[a], s.now)
  }

  ghost predicate Sound(s: State) {
    NoDangling(s) && ConnectingPeers(s) && PeersSound(s)
  }

  lemma StepKeepsPeersSound(s: State, t: Step)
    requires Enabled(s, t) && Sound(s)
    ensures PeersSound(Next(s, t))
  {
  }

  lemma StepKeepsConsumersSound(s: State, t: Step)
    requires Enabled(s, t) && FinishesInGrace(s, t) && Sound(s)
    ensures NoDangling(Next(s, t)) && ConnectingPeers(Next(s, t))
  {
  }

  lemma StepKeepsSound(s: State, t: Step)
    requires Enabled(s, t) && FinishesInGrace(s, t) && Sound(s)
    ensures Sound(Next(s, t))
  {
    StepKeepsPeersSound(s, t);
    StepKeepsConsumersSound(s, t);
  }

  ghost predicate IsRun(s: State, ts: seq<Step>)
    decreases |ts|
  {
    ts == [] || (Enabled(s, ts[0]) && FinishesInGrace(s, ts[0]) && IsRun(Next(s, ts[0]), ts[1..]))
  }

  function After(s: State, ts: seq<Step>): State
    requires IsRun(s, ts)
    decreases |ts|
  {
    if ts == [] then s else After(Next(s, ts[0]), ts[1..])
  }

  /** The state before step i of a run. */
  function StateAt(s: State, ts: seq<Step>, i: nat): (z: State)
    requires IsRun(s, ts) && i <= |ts|
    ensures i < |ts| ==> Enabled(z, ts[i])
    decreases i
  {
    if i == 0 then s else StateAt(Next(s, ts[0]), ts[1..], i - 1)
  }

  const START: State := State(Server(map[], {}, {}, map[]), 0, map[], Idle, map[])

  lemma {:induction false} SoundAfterEveryRun(s: State, ts: seq<Step>)
    requires IsRun(s, ts) && Sound(s)
    ensures Sound(After(s, ts))
    decreases |ts|
  {
    if ts == [] {
    } else {
      StepKeepsSound(s, ts[0]);
      SoundAfterEveryRun(Next(s, ts[0]), ts[1..]);
    }
  }

  lemma StepThenRun(s: State, t: Step, ts: seq<Step>)
    requires Enabled(s, t) && FinishesInGrace(s, t) && IsRun(Next(s, t), ts)
    ensures IsRun(s, [t] + ts) && After(s, [t] + ts) == After(Next(s, t), ts)
  {
    assert ([t] + ts)[1..] == ts;
  }

  lemma {:induction false} RunsCompose(s: State, one: seq<Step>, two: seq<Step>)
    requires IsRun(s, one) && IsRun(After(s, one), two)
    ensures IsRun(s, one + two) && After(s, one + two) == After(After(s, one), two)
    decreases |one|
  {
    if one == [] {
      assert one + two == two;
    } else {
      RunsCompose(Next(s, one[0]), one[1..], two);
      assert (one + two)[1..] == one[1..] + two;
    }
  }

  // ---- from the hand-over to the lookup ----------------------------------------------------

  /** In every reachable state the broker finds a peer of the user behind the user's consumer. */
  lemma ReceiveNamesPeer(ts: seq<Step>, job: nat, user: User)
    requires IsRun(START, ts) && Enabled(After(START, ts), Receive(job, user))
    ensures var s := After(START, ts);
            && user in s.server.queues
            && s.server.consumers[user] in s.server.peers
            && s.server.peers[s.server.consumers[user]].user == user
  {
    SoundAfterEveryRun(START, ts);
  }

  /** The lookup would find the connection the message was handed over for. */
  predicate Reaches(s: State, d: Delivery) {
    d.addr in s.server.peers && s.server.peers[d.addr].user == d.user && s.server.peers[d.addr].since == d.since
  }

  predicate FindsExpired(s: State, t: Step, addr: Addr)
    requires Enabled(s, t)
  {
    t == SweepPeer(addr) && Expired(s.server.peers[addr], s.now)
  }

  /** A sweep finds the peer at the address expired and comes to its end. `found` tells whether
      the sweep under way has found it already. */
  ghost predicate SweptSince(s: State, ts: seq<Step>, addr: Addr, found: bool)
    requires IsRun(s, ts)
    decreases |ts|
  {
    ts != [] &&
    ((found && ts[0].SweepRemove?)
     || SweptSince(Next(s, ts[0]), ts[1..], addr, found || FindsExpired(s, ts[0], addr)))
  }

  ghost predicate FoundExpiredSince(s: State, ts: seq<Step>, addr: Addr)
    requires IsRun(s, ts)
    decreases |ts|
  {
    ts != [] && (FindsExpired(s, ts[0], addr) || FoundExpiredSince(Next(s, ts[0]), ts[1..], addr))
  }

  /** The connection is gone, and whoever holds its address now connected later. */
  ghost predicate Gone(s: State, d: Delivery) {
    d.since < s.now && (d.addr in s.server.peers ==> d.since < s.server.peers[d.addr].since)
  }

  lemma {:induction false} GoneStaysGone(s: State, ts: seq<Step>, d: Delivery)
    requires IsRun(s, ts) && Gone(s, d)
    ensures Gone(After(s, ts), d)
    ensures d.addr !in s.server.peers && (forall t | t in ts :: t.Connect? ==> t.addr != d.addr)
            ==> d.addr !in After(s, ts).server.peers
    decreases |ts|
  {
    if ts == [] {
    } else {
      assert ts[0] in ts;
      GoneStaysGone(Next(s, ts[0]), ts[1..], d);
    }
  }

  /** One step, seen by a message in flight to a peer that is there. */
  lemma StepOfReached(s: State, t: Step, d: Delivery)
    requires Enabled(s, t) && Sound(s) && Reaches(s, d)
    ensures var s' := Next(s, t);
            if t.SweepRemove? && d.addr in DeadOf(s.sweep) then Gone(s', d) && d.addr !in s'.server.peers
            else Reaches(s', d)
                 && (d.addr in DeadOf(s'.sweep) <==> d.addr in DeadOf(s.sweep) || FindsExpired(s, t, d.addr))
  {
  }

  lemma {:induction false} ReachesUntilSwept(s: State, ts: seq<Step>, d: Delivery)
    requires IsRun(s, ts) && Sound(s) && Reaches(s, d)
    ensures var swept := SweptSince(s, ts, d.addr, d.addr in DeadOf(s.sweep));
            && (Reaches(After(s, ts), d) <==> !swept)
            && (swept && (forall t | t in ts :: t.Connect? ==> t.addr != d.addr)
                ==> d.addr !in After(s, ts).server.peers)
    decreases |ts|
  {
    if ts == [] {
    } else {
      var t, s' := ts[0], Next(s, ts[0]);
      assert t in ts;
      StepKeepsSound(s, t);
      StepOfReached(s, t, d);
      if t.SweepRemove? && d.addr in DeadOf(s.sweep) {
        GoneStaysGone(s', ts[1..], d);
      } else {
        ReachesUntilSwept(s', ts[1..], d);
      }
    }
  }
  lemma {:induction false} SweptIffFound(s: State, ts: seq<Step>, addr: Addr, found: bool)
    requires IsRun(s, ts) && After(s, ts).sweep.Idle?
    requires found ==> addr in DeadOf(s.sweep)
    ensures SweptSince(s, ts, addr, found) <==> found || FoundExpiredSince(s, ts, addr)
    decreases |ts|
  {
    if ts == [] {
    } else {
      SweptIffFound(Next(s, ts[0]), ts[1..], addr, (found && !ts[0].SweepRemove?) || FindsExpired(s, ts[0], addr));
    }
  }

  lemma {:induction false} InflightUntilLookup(s: State, ts: seq<Step>, job: nat)
    requires IsRun(s, ts) && job in s.inflight && Lookup(job) !in ts
    ensures job in After(s, ts).inflight && After(s, ts).inflight[job] == s.inflight[job]
    decreases |ts|
  {
    if ts == [] {
    } else {
      assert ts[0] in ts;
      InflightUntilLookup(Next(s, ts[0]), ts[1..], job);
    }
  }

  /** At any moment between the hand-over and the lookup, the lookup reaches the connection the
      message was handed over for exactly when no sweep that found that connection expired has
      ended since; between sweeps, exactly when none has found it expired. Otherwise, unless a
      new connection has taken the address, the lookup finds no peer and the consumer panics. */
  lemma DeliveryFindsPeer(before: seq<Step>, job: nat, user: User, after: seq<Step>)
    requires IsRun(START, before) && Enabled(After(START, before), Receive(job, user))
    requires IsRun(Next(After(START, before), Receive(job, user)), after) && Lookup(job) !in after
    ensures var s := Next(After(START, before), Receive(job, user));
            var z := After(s, after);
            && job in z.inflight && z.inflight[job].user == user
            && var d := z.inflight[job];
               && (Reaches(z, d) <==> !SweptSince(s, after, d.addr, false))
               && (z.sweep.Idle? ==> (Reaches(z, d) <==> !FoundExpiredSince(s, after, d.addr)))
               && (!Reaches(z, d) && (forall t | t in after :: t.Connect? ==> t.addr != d.addr)
                   ==> d.addr !in z.server.peers)
               && (!z.sweep.Scanning? ==> Enabled(z, Lookup(job)) && job !in Next(z, Lookup(job)).inflight)
  {
    SoundAfterEveryRun(START, before);
    var s := Next(After(START, before), Receive(job, user));
    StepKeepsSound(After(START, before), Receive(job, user));
    InflightUntilLookup(s, after, job);
    ReachesUntilSwept(s, after, s.inflight[job]);
    if After(s, after).sweep.Idle? {
      SweptIffFound(s, after, s.inflight[job].addr, false);
    }
  }

  /** A peer that stalled before declaring its queue, and whose socket has died. */
  function Stalled(user: User): State {
    State(Server(map[0 := Peer(user, 0, false)], {}, {}, map[]), 5000, map[0 := QueueNext], Idle, map[])
  }

  /** The same peer after the first phase of a sweep. */
  function GivenUp(user: User): State {
    Stalled(user).(sweep := Removing({0}))
  }

  /** A sound state in which a connection is older than the grace period: the sweep gives the
      peer up while its handler still runs. */
  lemma SlowConnectionIsGivenUp(user: User)
    ensures Sound(Stalled(user)) && Enabled(Stalled(user), SweepStart)
    ensures var scanning := Next(Stalled(user), SweepStart);
            && Enabled(scanning, SweepPeer(0)) && !FinishesInGrace(scanning, SweepPeer(0))
            && Enabled(Next(scanning, SweepPeer(0)), SweepUnlock)
            && Next(Next(scanning, SweepPeer(0)), SweepUnlock) == GivenUp(user)
  {
    var scanning := Next(Stalled(user), SweepStart);
    assert scanning.sweep == Scanning({0}, {});
    var scanned := Next(scanning, SweepPeer(0));
    assert scanned.sweep == Scanning({}, {0});
    assert scanned.server == Stalled(user).server;
  }

  /** Its handler then completes between the phases, the second phase removes the peer, and the
      next delivery to the user finds no peer: the grace period is needed. */
  lemma SlowConnectionDangles(user: User)
    ensures Enabled(GivenUp(user), DeclareQueue(0))
    ensures var declared := Next(GivenUp(user), DeclareQueue(0));
            Enabled(declared, BindQueue(0)) && Enabled(Next(declared, BindQueue(0)), Consume(0))
    ensures var consuming := Next(Next(Next(GivenUp(user), DeclareQueue(0)), BindQueue(0)), Consume(0));
            && Enabled(consuming, SweepRemove)
            && Enabled(Next(consuming, SweepRemove), Receive(0, user))
            && Next(consuming, SweepRemove).server.consumers[user]
               !in Next(consuming, SweepRemove).server.peers
  {
    var declared := Next(GivenUp(user), DeclareQueue(0));
    assert user in declared.server.queues;
    var bound := Next(declared, BindQueue(0));
    assert bound.server.queues == declared.server.queues && bound.connecting[0] == ConsumeNext;
    var consuming := Next(bound, Consume(0));
    assert consuming.server.consumers[user] == 0 && consuming.sweep == Removing({0});
  }

  // ---- an undisturbed sweep ---------------------------------------------------------------

  /** What the first phase has done of a sweep that began in s0. */
  ghost predicate PartlySwept(s0: State, s: State)
    requires ClockAhead(s0.server, s0.now)
  {
    && s.sweep.Scanning? && s.now == s0.now && s.connecting == s0.connecting && s.inflight == s0.inflight
    && s.sweep.todo <= s0.server.peers.Keys
    && s.sweep.dead == ExpiredPeers(s0.server, s0.now) - s.sweep.todo
    && var users := UsersOf(s0.server, s.sweep.dead);
       s.server == Server(s0.server.peers, s0.server.queues - users, s0.server.bound - users,
                          s0.server.consumers - users)
  }

  lemma ScanStep(s0: State, s: State, a: Addr)
    requires ClockAhead(s0.server, s0.now) && PartlySwept(s0, s)
    requires Enabled(s, SweepPeer(a))
    ensures PartlySwept(s0, Next(s, SweepPeer(a)))
  {
    var s' := Next(s, SweepPeer(a));
    if Expired(s0.server.peers[a], s0.now) {
      assert UsersOf(s0.server, s.sweep.dead + {a}) == UsersOf(s0.server, s.sweep.dead) + {s0.server.peers[a].user};
    }
    assert s'.sweep.dead == ExpiredPeers(s0.server, s0.now) - s'.sweep.todo;
  }

  /** In whatever order the peers are scanned, an undisturbed sweep leaves what the method
      leaves. */
  lemma {:induction false} UndisturbedSweep(s0: State, s: State, order: seq<Addr>)
    requires ClockAhead(s0.server, s0.now) && PartlySwept(s0, s)
    requires ScansAll(s, order)
    ensures var z := Scanned(s, order);
            && Enabled(z, SweepUnlock)
            && Next(Next(z, SweepUnlock), SweepRemove)
               == s0.(server := Swept(s0.server, s0.now), sweep := Idle)
    decreases |order|
  {
    if order == [] {
      assert s.sweep.dead == ExpiredPeers(s0.server, s0.now);
    } else {
      ScanStep(s0, s, order[0]);
      UndisturbedSweep(s0, Next(s, SweepPeer(order[0])), order[1..]);
    }
  }

  ghost predicate ScansAll(s: State, order: seq<Addr>)
    decreases |order|
  {
    if order == [] then s.sweep.Scanning? && s.sweep.todo == {}
    else Enabled(s, SweepPeer(order[0])) && ScansAll(Next(s, SweepPeer(order[0])), order[1..])
  }

  function Scanned(s: State, order: seq<Addr>): (z: State)
    requires ScansAll(s, order)
    ensures Enabled(z, SweepUnlock)
    decreases |order|
  {
    if order == [] then s else Scanned(Next(s, SweepPeer(order[0])), order[1..])
  }

  /** A message handed over before a sweep that finds its peer expired: the lookup after the
      sweep finds no peer. */
  lemma SweepOvertakesDelivery(s: State, job: nat, order: seq<Addr>)
    requires Sound(s) && s.sweep.Idle? && job in s.inflight && Reaches(s, s.inflight[job])
    requires Expired(s.server.peers[s.inflight[job].addr], s.now)
    requires ScansAll(Next(s, SweepStart), order)
    ensures var z := Next(Next(Scanned(Next(s, SweepStart), order), SweepUnlock), SweepRemove);
            Enabled(z, Lookup(job)) && z.inflight[job].addr !in z.server.peers
  {
    UndisturbedSweep(s, Next(s, SweepStart), order);
  }

  // ---- consumers that are lost ------------------------------------------------------------

  /** The steps of one connection without interference. */
  function Connection(addr: Addr, user: User): seq<Step> {
    [Connect(addr, user), DeclareQueue(addr), BindQueue(addr), Consume(addr)]
  }

  /** They end where `HandleConnection` ends. */
  lemma UndisturbedConnection(s: State, addr: Addr, user: User)
    requires Enabled(s, Connect(addr, user))
    ensures IsRun(s, Connection(addr, user))
    ensures After(s, Connection(addr, user)).server
         == Server(s.server.peers[addr := Peer(user, s.now, true)], s.server.queues + {user},
                   s.server.bound + {user}, s.server.consumers[user := addr])
    ensures After(s, Connection(addr, user)).(server := s.server) == s
  {
    var s1 := Next(s, Connect(addr, user));
    var s2 := Next(s1, DeclareQueue(addr));
    var s3 := Next(s2, BindQueue(addr));
    var s4 := Next(s3, Consume(addr));
    assert s4.connecting == s.connecting;
    StepThenRun(s3, Consume(addr), []);
    StepThenRun(s2, BindQueue(addr), [Consume(addr)]);
    StepThenRun(s1, DeclareQueue(addr), [BindQueue(addr), Consume(addr)]);
    StepThenRun(s, Connect(addr, user), [DeclareQueue(addr), BindQueue(addr), Consume(addr)]);
  }

  lemma SweepOfOnlyPeer(s: State, addr: Addr)
    requires s.sweep.Idle? && s.server.peers.Keys == {addr} && addr !in s.connecting
    requires s.server.peers[addr].since <= s.now && Expired(s.server.peers[addr], s.now)
    ensures var ts := [SweepStart, SweepPeer(addr), SweepUnlock, SweepRemove];
            && IsRun(s, ts)
            && var z := After(s, ts);
               z.server.peers == map[] && z.sweep.Idle? && z.inflight == s.inflight
  {
    var s1 := Next(s, SweepStart);
    var s2 := Next(s1, SweepPeer(addr));
    assert s2.sweep == Scanning({}, {addr});
    var s3 := Next(s2, SweepUnlock);
    StepThenRun(s3, SweepRemove, []);
    StepThenRun(s2, SweepUnlock, [SweepRemove]);
    StepThenRun(s1, SweepPeer(addr), [SweepUnlock, SweepRemove]);
    StepThenRun(s, SweepStart, [SweepPeer(addr), SweepUnlock, SweepRemove]);
  }

  /** A message is handed over for a peer whose socket has died. */
  function HandOver(user: User): seq<Step> {
    Connection(7, user) + [Disconnect(7), Tick(6000), Receive(0, user)]
  }

  lemma HandedOver(user: User)
    ensures IsRun(START, HandOver(user))
    ensures var s := After(START, HandOver(user));
            && s.server.peers == map[7 := Peer(user, 0, false)] && s.connecting == map[] && s.sweep.Idle?
            && s.now == 6000 && s.inflight == map[0 := Delivery(user, 7, 0)]
  {
    UndisturbedConnection(START, 7, user);
    var s := After(START, Connection(7, user));
    var s1 := Next(s, Disconnect(7));
    var s2 := Next(s1, Tick(6000));
    StepThenRun(s2, Receive(0, user), []);
    StepThenRun(s1, Tick(6000), [Receive(0, user)]);
    StepThenRun(s, Disconnect(7), [Tick(6000), Receive(0, user)]);
    RunsCompose(START, Connection(7, user), [Disconnect(7), Tick(6000), Receive(0, user)]);
  }

  /** Then a sweep runs: from the start, with every connection done within the grace period, a
      state is reached in which the lookup finds no peer. */
  lemma OvertakenFromStart(user: User)
    ensures var ts := HandOver(user) + [SweepStart, SweepPeer(7), SweepUnlock, SweepRemove];
            && IsRun(START, ts)
            && var z := After(START, ts);
               Enabled(z, Lookup(0)) && z.inflight[0] == Delivery(user, 7, 0) && 7 !in z.server.peers
  {
    HandedOver(user);
    SweepOfOnlyPeer(After(START, HandOver(user)), 7);
    RunsCompose(START, HandOver(user), [SweepStart, SweepPeer(7), SweepUnlock, SweepRemove]);
  }

  /** How a user's consumer can go: a sweep finds an expired peer of the user, whoever else of
      the user's is connected; or any handler names a queue that is missing, which closes the
      channel of all consumers. */
  predicate Loses(s: State, t: Step, user: User)
    requires Enabled(s, t)
  {
    match t
    case SweepPeer(a) => Expired(s.server.peers[a], s.now) && s.server.peers[a].user == user
    case BindQueue(a) => s.server.peers[a].user !in s.server.queues
    case Consume(a) => s.server.peers[a].user !in s.server.queues
    case _ => false
  }

  predicate Gains(s: State, t: Step, user: User)
    requires Enabled(s, t)
  {
    t.Consume? && s.server.peers[t.addr].user == user && user in s.server.queues
  }

  lemma ConsumerChangesIff(s: State, t: Step, user: User)
    requires Enabled(s, t)
    ensures user in Next(s, t).server.consumers
       <==> Gains(s, t, user) || (user in s.server.consumers && !Loses(s, t, user))
  {
  }

  ghost predicate KeptFrom(s: State, ts: seq<Step>, user: User, i: nat)
    requires IsRun(s, ts)
  {
    forall j | i <= j < |ts| :: !Loses(StateAt(s, ts, j), ts[j], user)
  }

  lemma KeptFromNext(s: State, ts: seq<Step>, user: User, i: nat)
    requires IsRun(s, ts) && ts != []
    ensures KeptFrom(s, ts, user, i + 1) <==> KeptFrom(Next(s, ts[0]), ts[1..], user, i)
  {
    var s', rest := Next(s, ts[0]), ts[1..];
    assert forall j | 0 <= j < |rest| :: StateAt(s', rest, j) == StateAt(s, ts, j + 1) && rest[j] == ts[j + 1];
    assert forall j | 0 < j < |ts| :: StateAt(s', rest, j - 1) == StateAt(s, ts, j) && rest[j - 1] == ts[j];
  }

  ghost predicate RegainedAt(s: State, ts: seq<Step>, user: User, i: nat)
    requires IsRun(s, ts) && i < |ts|
  {
    Gains(StateAt(s, ts, i), ts[i], user) && KeptFrom(s, ts, user, i + 1)
  }

  /** After any run a user has a consumer exactly when the user had one and no step took it, or a
      connection of the user was completed and no step since has taken the consumer. */
  lemma {:induction false} ConsumerAfterRunIff(s: State, ts: seq<Step>, user: User)
    requires IsRun(s, ts)
    ensures user in After(s, ts).server.consumers
       <==> (user in s.server.consumers && KeptFrom(s, ts, user, 0))
            || exists i | 0 <= i < |ts| :: RegainedAt(s, ts, user, i)
    decreases |ts|
  {
    if ts == [] {
    } else {
      var s', rest := Next(s, ts[0]), ts[1..];
      ConsumerAfterRunIff(s', rest, user);
      ConsumerChangesIff(s, ts[0], user);
      KeptFromNext(s, ts, user, 0);
      assert StateAt(s, ts, 0) == s;
      forall i | 0 <= i < |rest| ensures RegainedAt(s', rest, user, i) <==> RegainedAt(s, ts, user, i + 1) {
        KeptFromNext(s, ts, user, i + 1);
        assert StateAt(s', rest, i) == StateAt(s, ts, i + 1);
      }
      assert forall i | 0 < i < |ts| && RegainedAt(s, ts, user, i) :: RegainedAt(s', rest, user, i - 1);
      assert RegainedAt(s, ts, user, 0) <==> Gains(s, ts[0], user) && KeptFrom(s, ts, user, 1);
      assert KeptFrom(s, ts, user, 0) <==> !Loses(s, ts[0], user) && KeptFrom(s, ts, user, 1);
    }
  }

  /** A user's reconnect that a sweep meets between declaring and binding the queue closes the
      channel: every user loses the consumer, and every live peer stays in the map unheard. */
  lemma RacingReconnectSilencesAll(s: State, dead: Addr, joining: Addr)
    requires Sound(s) && s.sweep.Idle?
    requires dead in s.server.peers && Expired(s.server.peers[dead], s.now) && dead !in s.connecting
    requires joining in s.connecting && s.connecting[joining] == BindNext
    requires s.server.peers[joining].user == s.server.peers[dead].user
    ensures var ts := [SweepStart, SweepPeer(dead), BindQueue(joining)];
            && IsRun(s, ts)
            && After(s, ts).server.consumers == map[] && After(s, ts).server.peers == s.server.peers
  {
    var s1 := Next(s, SweepStart);
    var s2 := Next(s1, SweepPeer(dead));
    StepThenRun(s2, BindQueue(joining), []);
    StepThenRun(s1, SweepPeer(dead), [BindQueue(joining)]);
    StepThenRun(s, SweepStart, [SweepPeer(dead), BindQueue(joining)]);
  }

  /** The first user's connection has died; the user reconnects and has declared the queue. */
  function Reconnecting(first: User): seq<Step> {
    [Disconnect(0), Tick(5000), Connect(2, first), DeclareQueue(2)]
  }

  /** Such a state is reached from the start: the other user is connected and heard before the
      sweep, and is alive and silent after its third step. */
  lemma SilencedFromStart(first: User, other: User)
    requires first != other
    ensures var ts := Connection(0, first) + Connection(1, other) + Reconnecting(first);
            var race := [SweepStart, SweepPeer(0), BindQueue(2)];
            && IsRun(START, ts) && other in After(START, ts).server.consumers
            && IsRun(After(START, ts), race)
            && var z := After(After(START, ts), race).server;
               z.consumers == map[] && 1 in z.peers && z.peers[1] == Peer(other, 0, true)
  {
    UndisturbedConnection(START, 0, first);
    var s1 := After(START, Connection(0, first));
    UndisturbedConnection(s1, 1, other);
    var s2 := After(s1, Connection(1, other));
    var s3 := Next(s2, Disconnect(0));
    var s4 := Next(s3, Tick(5000));
    var s5 := Next(s4, Connect(2, first));
    var s6 := Next(s5, DeclareQueue(2));
    StepThenRun(s5, DeclareQueue(2), []);
    StepThenRun(s4, Connect(2, first), [DeclareQueue(2)]);
    StepThenRun(s3, Tick(5000), [Connect(2, first), DeclareQueue(2)]);
    StepThenRun(s2, Disconnect(0), [Tick(5000), Connect(2, first), DeclareQueue(2)]);
    RunsCompose(START, Connection(0, first), Connection(1, other));
    RunsCompose(START, Connection(0, first) + Connection(1, other), Reconnecting(first));
    SoundAfterEveryRun(START, Connection(0, first) + Connection(1, other) + Reconnecting(first));
    RacingReconnectSilencesAll(s6, 0, 2);
  }

  /** A live peer that holds its user's consumer keeps it over an undisturbed sweep exactly when
      no other connection of that user has expired: queues are per user, not per connection. */
  lemma LivePeerKeepsConsumerIff(s: State, order: seq<Addr>, user: User)
    requires Sound(s) && s.sweep.Idle? && ScansAll(Next(s, SweepStart), order)
    requires user in s.server.consumers && s.server.peers[s.server.consumers[user]].alive
    ensures var after := Next(Next(Scanned(Next(s, SweepStart), order), SweepUnlock), SweepRemove).server;
            && s.server.consumers[user] in after.peers
            && (user in after.consumers
                <==> forall a | a in s.server.peers && Expired(s.server.peers[a], s.now) :: s.server.peers[a].user != user)
  {
    UndisturbedSweep(s, Next(s, SweepStart), order);
  }


  /** A user without a consumer and without a connection under way gets none back, whatever
      happens, until the user connects again. */
  lemma {:induction false} SilentUntilReconnect(s: State, ts: seq<Step>, user: User)
    requires IsRun(s, ts) && user !in s.server.consumers
    requires forall a | a in s.connecting :: a in s.server.peers && s.server.peers[a].user != user
    requires forall t | t in ts :: t.Connect? ==> t.user != user
    requires Sound(s)
    ensures user !in After(s, ts).server.consumers
    decreases |ts|
  {
    if ts == [] {
    } else {
      assert ts[0] in ts;
      StepKeepsSound(s, ts[0]);
      SilentUntilReconnect(Next(s, ts[0]), ts[1..], user);
    }
  }
}
