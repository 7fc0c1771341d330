/** Online presence: the map of user to live sockets that the connection
    handlers keep, and the list every connected client keeps from the events it
    is sent. One process; a client receives its events in order. */
module Presence {
  import opened Common

  type UserId = string
  type SocketId = string
  type Index = map<UserId, set<SocketId>>

  /** `presence:update`. */
  datatype Update = Update(userId: UserId, isOnline: bool)

  // ----- The handlers ------------------------------------------------------------

  function SocketsOf(index: Index, user: UserId): set<SocketId> {
    if user in index then index[user] else {}
  }

  function Connected(index: Index, user: UserId, socket: SocketId): Index {
    index[user := SocketsOf(index, user) + {socket}]
  }

  function ConnectBroadcast(index: Index, user: UserId): Option<Update> {
    if SocketsOf(index, user) == {} then Some(Update(user, true)) else None
  }

  function Disconnected(index: Index, user: UserId, socket: SocketId): Index {
    if user !in index then index
    else
      var left := index[user] - {socket};
      if left == {} then index - {user} else index[user := left]
  }

  function DisconnectBroadcast(index: Index, user: UserId, socket: SocketId): Option<Update> {
    if user in index && index[user] - {socket} == {} then Some(Update(user, false)) else None
  }

  class PresenceHandlers {
    var onlineUserSockets: Index

    constructor ()
      ensures onlineUserSockets == map[]
    {
      onlineUserSockets := map[];
    }

    /** Returns the ids of `presence:initial`, sent to the new socket, and what
        is broadcast to the others. */
    method OnConnection(user: UserId, socket: SocketId) returns (initial: set<UserId>, broadcast: Option<Update>)
      modifies this
      ensures onlineUserSockets == Connected(old(onlineUserSockets), user, socket)
      ensures initial == onlineUserSockets.Keys
      ensures broadcast == ConnectBroadcast(old(onlineUserSockets), user)
    {
      var userSockets := if user in onlineUserSockets then onlineUserSockets[user] else {};
      var wasOffline := |userSockets| == 0;
      userSockets := userSockets + {socket};
      onlineUserSockets := onlineUserSockets[user := userSockets];
      initial := onlineUserSockets.Keys;
      broadcast := None;
      if wasOffline {
        broadcast := Some(Update(user, true));
      }
    }

    method OnDisconnect(user: UserId, socket: SocketId) returns (broadcast: Option<Update>)
      modifies this
      ensures onlineUserSockets == Disconnected(old(onlineUserSockets), user, socket)
      ensures broadcast == DisconnectBroadcast(old(onlineUserSockets), user, socket)
    {
      broadcast := None;
      if user in onlineUserSockets {
        var userSockets := onlineUserSockets[user] - {socket};
        onlineUserSockets := onlineUserSockets[user := userSockets];
        if |userSockets| == 0 {
          onlineUserSockets := onlineUserSockets - {user};
          broadcast := Some(Update(user, false));
        }
      }
    }
  }

  // ----- The whole system ----------------------------------------------------------

  datatype Event = Connect(user: UserId, socket: SocketId) | Disconnect(socket: SocketId)

  /** `live`: which user each live socket belongs to. `views`: the online list
      each live client holds. */
  datatype System = System(live: map<SocketId, UserId>, index: Index, views: map<SocketId, set<UserId>>)

  const START := System(map[], map[], map[])

  function Fold(view: set<UserId>, update: Option<Update>): set<UserId> {
    if update.None? then view
    else if update.value.isOnline then view + {update.value.userId}
    else view - {update.value.userId}
  }

  function Deliver(views: map<SocketId, set<UserId>>, update: Option<Update>): map<SocketId, set<UserId>> {
    map s | s in views :: Fold(views[s], update)
  }

  /** A new socket has a fresh id; only a live one disconnects. */
  predicate Possible(s: System, ev: Event) {
    match ev
    case Connect(_, socket) => socket !in s.live
    case Disconnect(socket) => socket in s.live
  }

  function Step(s: System, ev: Event): System
    requires Possible(s, ev)
  {
    match ev
    case Connect(user, socket) =>
      var index := Connected(s.index, user, socket);
      System(s.live[socket := user], index,
             Deliver(s.views, ConnectBroadcast(s.index, user))[socket := index.Keys])
    case Disconnect(socket) =>
      var user := s.live[socket];
      System(s.live - {socket}, Disconnected(s.index, user, socket),
             Deliver(s.views - {socket}, DisconnectBroadcast(s.index, user, socket)))
  }

  predicate PossibleRun(s: System, evs: seq<Event>)
    decreases |evs|
  {
    evs == [] || (Possible(s, evs[0]) && PossibleRun(Step(s, evs[0]), evs[1..]))
  }

  function Run(s: System, evs: seq<Event>): System
    requires PossibleRun(s, evs)
    decreases |evs|
  {
    if evs == [] then s else Run(Step(s, evs[0]), evs[1..])
  }

  /** The stored sets are exactly the live sockets, none is empty, and every
      live client holds exactly the key set. */
  ghost predicate Exact(s: System) {
    && (forall u, k :: u in s.index && k in s.index[u] <==> k in s.live && s.live[k] == u)
    && (forall u :: u in s.index ==> s.index[u] != {})
    && s.views.Keys == s.live.Keys
    && (forall k :: k in s.views ==> s.views[k] == s.index.Keys)
  }

  lemma ConnectKeepsExact(s: System, user: UserId, socket: SocketId)
    requires Exact(s) && socket !in s.live
    ensures Exact(Step(s, Connect(user, socket)))
  {
    var t := Step(s, Connect(user, socket));
    assert t.index.Keys == s.index.Keys + {user};
    forall k | k in t.views ensures t.views[k] == t.index.Keys {
      if k != socket {
        assert t.views[k] == Fold(s.views[k], ConnectBroadcast(s.index, user));
      }
    }
    assert socket in t.index[user];
  }

  lemma DisconnectKeepsExact(s: System, socket: SocketId)
    requires Exact(s) && socket in s.live
    ensures Exact(Step(s, Disconnect(socket)))
  {
    var user := s.live[socket];
    var t := Step(s, Disconnect(socket));
    assert user in s.index && socket in s.index[user];
    forall k | k in t.views ensures t.views[k] == t.index.Keys {
      assert t.views[k] == Fold(s.views[k], DisconnectBroadcast(s.index, user, socket));
    }
  }

  /** The index is exact after every run, and so is every observer. */
  lemma {:induction false} RunKeepsExact(s: System, evs: seq<Event>)
    requires Exact(s) && PossibleRun(s, evs)
    ensures Exact(Run(s, evs))
    decreases |evs|
  {
    if evs != [] {
      match evs[0] {
        case Connect(user, socket) => ConnectKeepsExact(s, user, socket);
        case Disconnect(socket) => DisconnectKeepsExact(s, socket);
      }
      RunKeepsExact(Step(s, evs[0]), evs[1..]);
    }
  }

  /** From the empty server: the keys are exactly the users with a live socket,
      no stored set is empty, and every observer's fold equals the key set. */
  lemma {:induction false} PresenceIsExact(evs: seq<Event>)
    requires PossibleRun(START, evs)
    ensures var s := Run(START, evs);
            && (forall u :: u in s.index <==> exists k :: k in s.live && s.live[k] == u)
            && (forall u :: u in s.index ==> s.index[u] == set k | k in s.live && s.live[k] == u)
            && (forall k :: k in s.live ==> k in s.views && s.views[k] == s.index.Keys)
  {
    RunKeepsExact(START, evs);
    var s := Run(START, evs);
    forall u | u in s.index ensures exists k :: k in s.live && s.live[k] == u {
      var k :| k in s.index[u];
      assert k in s.live;
    }
    forall u | exists k :: k in s.live && s.live[k] == u ensures u in s.index {
      var k :| k in s.live && s.live[k] == u;
    }
  }

  /** In every reachable state a connect is announced if and only if its user had no
      live socket, and a disconnect if and only if it was the user's last one. */
  lemma {:induction false} AnnouncedIff(evs: seq<Event>, user: UserId, socket: SocketId)
    requires PossibleRun(START, evs)
    ensures var s := Run(START, evs);
            && (socket !in s.live ==>
                  ConnectBroadcast(s.index, user)
                  == if exists k :: k in s.live && s.live[k] == user then None else Some(Update(user, true)))
            && (socket in s.live && s.live[socket] == user ==>
                  DisconnectBroadcast(s.index, user, socket)
                  == if exists k :: k in s.live && k != socket && s.live[k] == user then None else Some(Update(user, false)))
  {
    RunKeepsExact(START, evs);
    var s := Run(START, evs);
    if k :| k in s.live && s.live[k] == user {
      assert k in s.index[user];
    }
    if user in s.index {
      var some :| some in s.index[user];
      assert some in s.live && s.live[some] == user;
      if other :| other in s.index[user] - {socket} {
        assert other in s.live && other != socket && s.live[other] == user;
      }
      forall k | k in s.live && k != socket && s.live[k] == user ensures k in s.index[user] - {socket} {
      }
    }
  }
}
