/** The master server's list of game servers. Times are seconds. */
module MasterRegistry {
  import opened Base
  import opened Decimal

  const HEARTBEAT_TIMEOUT_SEC: real := 90.0
  const KMP_PROTOCOL_VERSION: U32 := 1

  type U16 = x: int | 0 <= x < 0x1_0000
  type Peer = nat

  /** The fields a heartbeat refreshes, besides its arrival time. */
  datatype Info = Info(currentPlayers: nat, maxPlayers: nat, timeOfDay: Float)

  datatype Entry = Entry(serverName: string, address: string, port: U16, info: Info, lastHeartbeat: real, peer: Peer)

  /** externalIP is empty when the game server does not report one. */
  datatype RegisterMsg = RegisterMsg(version: U32, serverName: string, externalIP: string, port: U16, info: Info)

  datatype Registry = Registry(servers: map<string, Entry>, peers: set<Peer>)

  /** `order` is the order in which the hash map is walked. */
  datatype Event =
    | Connect(peer: Peer)
    | Register(peer: Peer, ip: string, msg: RegisterMsg, now: real)
    | Heartbeat(peer: Peer, ip: string, port: U16, info: Info, now: real, order: seq<string>)
    | Deregister(peer: Peer)
    | Disconnect(peer: Peer)
    | Prune(now: real)

  function MakeKey(ip: string, port: U16): string {
    ip + ":" + Numeral(port)
  }

  /** Addresses may contain colons themselves; the last colon ends the address. */
  lemma MakeKeyInjective(ip: string, port: U16, ip': string, port': U16)
    ensures MakeKey(ip, port) == MakeKey(ip', port') <==> ip == ip' && port == port'
  {
    hide Numeral;
    var k, n, n' := MakeKey(ip, port), Numeral(port), Numeral(port');
    LastColon(ip, n);
    LastColon(ip', n');
    if k == MakeKey(ip', port') {
      assert |ip| == |ip'|;
      assert ip == k[..|ip|] && ip' == k[..|ip|];
      assert n == k[|ip| + 1..] && n' == k[|ip| + 1..];
      NumeralInjective(port, port');
    }
  }

  lemma LastColon(ip: string, digits: string)
    requires forall i :: 0 <= i < |digits| ==> '0' <= digits[i] <= '9'
    ensures var k := ip + ":" + digits;
      k[|ip|] == ':' && forall i :: |ip| < i < |k| ==> k[i] != ':'
  {
  }

  function ExternalIP(msg: RegisterMsg, ip: string): string {
    if msg.externalIP != "" then msg.externalIP else ip
  }

  function OnRegister(r: Registry, peer: Peer, ip: string, msg: RegisterMsg, now: real): Registry {
    if msg.version != KMP_PROTOCOL_VERSION then r
    else
      var address := ExternalIP(msg, ip);
      r.(servers := r.servers[MakeKey(address, msg.port) :=
          Entry(msg.serverName, address, msg.port, msg.info, now, peer)])
  }

  /** The first entry, in walking order, registered by this peer with this port. */
  function FirstMatch(servers: map<string, Entry>, order: seq<string>, peer: Peer, port: U16): Option<string> {
    if order == [] then None
    else if order[0] in servers && servers[order[0]].peer == peer && servers[order[0]].port == port then Some(order[0])
    else FirstMatch(servers, order[1..], peer, port)
  }

  function Refreshed(r: Registry, key: string, info: Info, now: real): Registry
    requires key in r.servers
  {
    r.(servers := r.servers[key := r.servers[key].(info := info, lastHeartbeat := now)])
  }

  lemma {:induction false} MatchExact(servers: map<string, Entry>, order: seq<string>, peer: Peer, port: U16)
    ensures var m := FirstMatch(servers, order, peer, port);
      && (m.Some? ==> m.value in order && m.value in servers)
      && (m.Some? ==> servers[m.value].peer == peer && servers[m.value].port == port)
      && (m.None? ==> forall k :: k in order && k in servers ==> servers[k].peer != peer || servers[k].port != port)
  {
    if order != [] {
      MatchExact(servers, order[1..], peer, port);
      assert forall k :: k in order ==> k == order[0] || k in order[1..];
    }
  }

  function OnHeartbeat(r: Registry, peer: Peer, ip: string, port: U16, info: Info, now: real, order: seq<string>): Registry {
    var key := MakeKey(ip, port);
    if key in r.servers then Refreshed(r, key, info, now)
    else
      var m := FirstMatch(r.servers, order, peer, port);
      if m.Some? && m.value in r.servers then Refreshed(r, m.value, info, now) else r
  }

  function Without(servers: map<string, Entry>, peer: Peer): map<string, Entry> {
    map k | k in servers && servers[k].peer != peer :: servers[k]
  }

  function Pruned(servers: map<string, Entry>, now: real): map<string, Entry> {
    map k | k in servers && now - servers[k].lastHeartbeat <= HEARTBEAT_TIMEOUT_SEC :: servers[k]
  }

  function On(r: Registry, e: Event): Registry {
    match e
    case Connect(p) => r.(peers := r.peers + {p})
    case Register(p, ip, msg, now) => OnRegister(r, p, ip, msg, now)
    case Heartbeat(p, ip, port, info, now, order) => OnHeartbeat(r, p, ip, port, info, now, order)
    case Deregister(p) => r.(servers := Without(r.servers, p))
    case Disconnect(p) => Registry(Without(r.servers, p), r.peers - {p})
    case Prune(now) => r.(servers := Pruned(r.servers, now))
  }

  /** Packets arrive between the connect and the disconnect of their peer. */
  ghost predicate Lawful(r: Registry, e: Event) {
    match e
    case Connect(p) => p !in r.peers
    case Prune(_) => true
    case Heartbeat(p, _, _, _, _, order) => p in r.peers && Enumerates(order, r.servers.Keys)
    case _ => e.peer in r.peers
  }

  ghost predicate RegistryOk(r: Registry) {
    forall k :: k in r.servers ==>
      k == MakeKey(r.servers[k].address, r.servers[k].port) && r.servers[k].peer in r.peers
  }

  function After(events: seq<Event>): Registry {
    if events == [] then Registry(map[], {}) else On(After(events[..|events| - 1]), events[|events| - 1])
  }

  ghost predicate LawfulRun(events: seq<Event>) {
    events == [] || (LawfulRun(events[..|events| - 1]) && Lawful(After(events[..|events| - 1]), events[|events| - 1]))
  }

  lemma StepKeepsRegistry(r: Registry, e: Event)
    requires RegistryOk(r) && Lawful(r, e)
    ensures RegistryOk(On(r, e))
  {
    hide MakeKey, FirstMatch, Enumerates;
    if e.Heartbeat? {
      MatchExact(r.servers, e.order, e.peer, e.port);
    }
  }

  /** In every state of every run an entry's key is its address and port, and the
      connection that registered it is up. */
  lemma {:induction false} RegistryOverRuns(events: seq<Event>)
    requires LawfulRun(events)
    ensures RegistryOk(After(events))
  {
    hide On, Lawful;
    if events != [] {
      RegistryOverRuns(events[..|events| - 1]);
      StepKeepsRegistry(After(events[..|events| - 1]), events[|events| - 1]);
    }
  }

  /** Two entries never have the same address and port. */
  lemma OneEntryPerAddress(events: seq<Event>, k: string, k': string)
    requires LawfulRun(events) && k in After(events).servers && k' in After(events).servers
    ensures var s := After(events).servers;
      s[k].address == s[k'].address && s[k].port == s[k'].port <==> k == k'
  {
    RegistryOverRuns(events);
  }

  /** A heartbeat changes nothing exactly when nothing is registered under
      the sender's own address and nothing by this connection with this port. */
  lemma HeartbeatIgnoredIff(r: Registry, e: Event)
    requires e.Heartbeat? && Lawful(r, e)
    requires forall k :: k in r.servers ==> r.servers[k].lastHeartbeat < e.now
    ensures On(r, e) == r <==>
      MakeKey(e.ip, e.port) !in r.servers
      && forall k :: k in r.servers ==> r.servers[k].peer != e.peer || r.servers[k].port != e.port
  {
    hide MakeKey, FirstMatch;
    MatchExact(r.servers, e.order, e.peer, e.port);
    var key := MakeKey(e.ip, e.port);
    if key in r.servers {
      assert On(r, e).servers[key].lastHeartbeat == e.now;
    } else {
      var m := FirstMatch(r.servers, e.order, e.peer, e.port);
      if m.Some? {
        assert On(r, e).servers[m.value].lastHeartbeat == e.now;
      }
    }
  }

  /** Entry k of r' is what the change makes of it; the others are as they were. */
  ghost predicate OnlyChanged(r: Registry, r': Registry, k: string) {
    && r'.peers == r.peers && r'.servers.Keys == r.servers.Keys + {k}
    && forall j :: j in r.servers && j != k ==> j in r'.servers && r'.servers[j] == r.servers[j]
  }

  /** A registration of protocol version 1 is stored under its external address, else
      the one it came from, and its port; any other changes nothing. */
  lemma RegisterExact(r: Registry, peer: Peer, ip: string, msg: RegisterMsg, now: real)
    ensures var r' := On(r, Register(peer, ip, msg, now));
      if msg.version != 1 then r' == r
      else
        var address := if msg.externalIP == "" then ip else msg.externalIP;
        var k := MakeKey(address, msg.port);
        && OnlyChanged(r, r', k)
        && r'.servers[k] == Entry(msg.serverName, address, msg.port, msg.info, now, peer)
  {
    hide MakeKey;
  }

  /** A heartbeat is for the entry at the sender's own address if there is one, else
      for the first walked that this connection registered with this port. */
  ghost predicate MeantFor(r: Registry, e: Event, k: string)
    requires e.Heartbeat?
  {
    if MakeKey(e.ip, e.port) in r.servers then k == MakeKey(e.ip, e.port)
    else exists i :: FirstOurs(r, e, i) && k == e.order[i]
  }

  ghost predicate Ours(r: Registry, e: Event, i: int)
    requires e.Heartbeat?
  {
    && 0 <= i < |e.order| && e.order[i] in r.servers
    && r.servers[e.order[i]].peer == e.peer && r.servers[e.order[i]].port == e.port
  }

  ghost predicate FirstOurs(r: Registry, e: Event, i: int)
    requires e.Heartbeat?
  {
    Ours(r, e, i) && forall j :: 0 <= j < i ==> !Ours(r, e, j)
  }

  lemma {:induction false} FirstMatchIs(r: Registry, e: Event, n: nat)
    requires e.Heartbeat? && n <= |e.order| && forall j :: 0 <= j < n ==> !Ours(r, e, j)
    ensures var m := FirstMatch(r.servers, e.order[n..], e.peer, e.port);
      if m.Some? then exists i :: FirstOurs(r, e, i) && m.value == e.order[i] else forall i :: !Ours(r, e, i)
    decreases |e.order| - n
  {
    if n < |e.order| {
      assert e.order[n..][1..] == e.order[n + 1..];
      if Ours(r, e, n) {
        assert FirstOurs(r, e, n);
      } else {
        FirstMatchIs(r, e, n + 1);
      }
    }
  }

  /** A heartbeat refreshes the player counts, the time of day and the arrival time of
      the one entry it is meant for, and without one it is ignored. */
  lemma HeartbeatExact(r: Registry, e: Event)
    requires e.Heartbeat?
    ensures var r' := On(r, e);
      && (forall k :: MeantFor(r, e, k) ==>
            && k in r.servers && OnlyChanged(r, r', k)
            && r'.servers[k].info == e.info && r'.servers[k].lastHeartbeat == e.now
            && r'.servers[k].(info := r.servers[k].info, lastHeartbeat := r.servers[k].lastHeartbeat) == r.servers[k])
      && ((forall k :: !MeantFor(r, e, k)) ==> r' == r)
  {
    hide MakeKey, FirstMatch;
    FirstMatchIs(r, e, 0);
    assert e.order[0..] == e.order;
    var m := FirstMatch(r.servers, e.order, e.peer, e.port);
    if MakeKey(e.ip, e.port) in r.servers {
      assert MeantFor(r, e, MakeKey(e.ip, e.port));
    } else if m.Some? {
      assert MeantFor(r, e, m.value);
      forall k | MeantFor(r, e, k) ensures k == m.value {
        OneFirst(r, e, k, m.value);
      }
    } else {
      assert forall k :: !MeantFor(r, e, k);
    }
  }

  lemma OneFirst(r: Registry, e: Event, k: string, k': string)
    requires e.Heartbeat? && MakeKey(e.ip, e.port) !in r.servers && MeantFor(r, e, k) && MeantFor(r, e, k')
    ensures k == k'
  {
    hide MakeKey;
    var i :| FirstOurs(r, e, i) && k == e.order[i];
    var j :| FirstOurs(r, e, j) && k' == e.order[j];
    FirstIsOne(r, e, i, j);
  }

  lemma FirstIsOne(r: Registry, e: Event, i: int, j: int)
    requires e.Heartbeat? && FirstOurs(r, e, i) && FirstOurs(r, e, j)
    ensures i == j
  {
    NotBefore(r, e, i, j);
    NotBefore(r, e, j, i);
  }

  lemma NotBefore(r: Registry, e: Event, i: int, j: int)
    requires e.Heartbeat? && FirstOurs(r, e, i) && Ours(r, e, j)
    ensures i <= j
  {
  }

  /** Deregistering or losing a connection removes exactly what it registered, and
      pruning exactly what was last heard of more than 90 s ago. */
  lemma RemovalsExact(r: Registry, p: Peer, now: real, k: string)
    ensures k in On(r, Deregister(p)).servers <==> k in r.servers && r.servers[k].peer != p
    ensures k in On(r, Disconnect(p)).servers <==> k in r.servers && r.servers[k].peer != p
    ensures k in On(r, Prune(now)).servers <==> k in r.servers && now - r.servers[k].lastHeartbeat <= 90.0
    ensures forall e: Event :: (e.Deregister? || e.Disconnect? || e.Prune?) && k in On(r, e).servers ==>
      On(r, e).servers[k] == r.servers[k]
    ensures On(r, Connect(p)).servers == r.servers
  {
  }

  class MasterServer {
    var servers: map<string, Entry>
    ghost var peers: set<Peer>

    ghost function View(): Registry
      reads this
    {
      Registry(servers, peers)
    }

    constructor ()
      ensures View() == After([])
    {
      servers, peers := map[], {};
    }

    /** A connection by itself registers nothing. */
    method HandleConnect(peer: Peer)
      modifies this`peers
      ensures View() == On(old(View()), Connect(peer))
    {
      peers := peers + {peer};
    }

    method HandleRegister(peer: Peer, ip: string, msg: RegisterMsg, now: real) returns (isNew: bool)
      modifies this`servers
      ensures View() == On(old(View()), Register(peer, ip, msg, now))
      ensures isNew <==> |servers| == |old(servers)| + 1
    {
      if msg.version != KMP_PROTOCOL_VERSION {
        return false;
      }
      var address := ip;
      if msg.externalIP != "" {
        address := msg.externalIP;
      }
      var key := MakeKey(address, msg.port);
      isNew := key !in servers;
      servers := servers[key := Entry(msg.serverName, address, msg.port, msg.info, now, peer)];
      KeyCount(old(servers), key, servers[key]);
    }

    method HandleHeartbeat(peer: Peer, ip: string, port: U16, info: Info, now: real, order: seq<string>)
      requires Enumerates(order, servers.Keys)
      modifies this`servers
      ensures View() == On(old(View()), Heartbeat(peer, ip, port, info, now, order))
    {
      hide MakeKey;
      var key := MakeKey(ip, port);
      if key in servers {
        servers := servers[key := servers[key].(info := info, lastHeartbeat := now)];
        return;
      }
      var i := 0;
      while i < |order|
        invariant i <= |order| && servers == old(servers)
        invariant FirstMatch(servers, order, peer, port) == FirstMatch(servers, order[i..], peer, port)
      {
        var k := order[i];
        assert k in servers.Keys;
        if servers[k].peer == peer && servers[k].port == port {
          servers := servers[k := servers[k].(info := info, lastHeartbeat := now)];
          return;
        }
        assert order[i..][1..] == order[i + 1..];
        i := i + 1;
      }
    }

    /** Deregistration, and the sweep when a peer disconnects. */
    method EraseOf(peer: Peer)
      modifies this`servers
      ensures servers == Without(old(servers), peer)
    {
      var todo := servers.Keys;
      while todo != {}
        invariant todo <= servers.Keys <= old(servers).Keys
        invariant forall k :: k in servers ==> servers[k] == old(servers)[k]
        invariant forall k :: k in old(servers) && k !in todo ==> (k in servers <==> old(servers)[k].peer != peer)
        decreases |todo|
      {
        var k :| k in todo;
        todo := todo - {k};
        if servers[k].peer == peer {
          servers := map j | j in servers && j != k :: servers[j];
        }
      }
    }

    method HandleDeregister(peer: Peer)
      modifies this`servers
      ensures View() == On(old(View()), Deregister(peer))
    {
      EraseOf(peer);
    }

    method HandleDisconnect(peer: Peer)
      modifies this
      ensures View() == On(old(View()), Disconnect(peer))
    {
      EraseOf(peer);
      peers := peers - {peer};
    }

    method PruneStaleServers(now: real)
      modifies this`servers
      ensures View() == On(old(View()), Prune(now))
    {
      var todo := servers.Keys;
      while todo != {}
        invariant todo <= servers.Keys <= old(servers).Keys
        invariant forall k :: k in servers ==> servers[k] == old(servers)[k]
        invariant forall k :: k in old(servers) && k !in todo ==>
          (k in servers <==> now - old(servers)[k].lastHeartbeat <= HEARTBEAT_TIMEOUT_SEC)
        decreases |todo|
      {
        var k :| k in todo;
        todo := todo - {k};
        var elapsed := now - servers[k].lastHeartbeat;
        if elapsed > HEARTBEAT_TIMEOUT_SEC {
          servers := map j | j in servers && j != k :: servers[j];
        }
      }
    }
  }

  lemma KeyCount(m: map<string, Entry>, key: string, e: Entry)
    ensures |m[key := e]| == |m| + (if key in m then 0 else 1)
  {
    assert m[key := e].Keys == m.Keys + {key};
    assert |m[key := e]| == |m[key := e].Keys| && |m| == |m.Keys|;
  }
}
