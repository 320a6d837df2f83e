/**
 * The peer-connection manager of utils/peer.ts, class `PeerConnection`.
 *
 * The PeerJS transport is abstracted: a data connection is an object with the
 * remote peer's id and an `open` flag, and what the transport reports (the
 * peer opening, failing or accepting a connection, a connection opening,
 * delivering data, closing or failing, the bring-up timer firing) arrives as
 * a call of the matching `On…` method. A listener callback is a `Listener`
 * value, and whether it throws when handed an event is given as the set
 * `failing`. Every event handed out is recorded as a `Delivery`.
 */
module Peer {
  import opened Wrappers

  const MockPeerId: string := "mock-peer-id"
  const SystemSender: string := "system"
  const NotInitialized: string := "Cannot connect: Peer not initialized"
  const TimedOut: string := "Peer initialization timed out"
  const Connected: string := "connected"
  const Disconnected: string := "disconnected"

  /** A data connection of the transport: the remote peer's id and whether the channel is open. */
  class DataConnection {
    const peer: string
    var open: bool

    constructor (peer: string)
      ensures this.peer == peer && !open
    {
      this.peer := peer;
      open := false;
    }
  }

  /** The transport's peer, known by the id it was created with. */
  datatype Endpoint = Endpoint(id: string)

  /** What a call of `initialize` settles to at once: `null`, an id, or a promise still pending. */
  datatype InitResult = NullResult | PeerId(id: string) | Pending

  /** A listener callback, compared by identity. */
  datatype Listener = Listener(callback: nat)

  /** The remover `addEventListener` returns. */
  datatype Unsubscriber = Unsubscriber(callback: Listener)

  datatype EventKind = MessageEvent | StatusEvent | ErrorEvent

  /** Event data: a text the manager writes itself, or a payload the transport delivered. */
  datatype EventData<D> = Note(text: string) | Payload(value: D)

  datatype PeerEvent<D> = PeerEvent(kind: EventKind, data: EventData<D>, senderId: string)

  /** One listener called with one event, and whether the call threw. */
  datatype Delivery<D> = Delivery(listener: Listener, event: PeerEvent<D>, threw: bool)

  /** Every listener, in list order, got the event once, whether or not an earlier one threw. */
  predicate Delivered<D(==)>(deliveries: seq<Delivery<D>>, listeners: seq<Listener>, event: PeerEvent<D>, failing: set<Listener>)
  {
    && |deliveries| == |listeners|
    && forall i :: 0 <= i < |listeners| ==> deliveries[i] == Delivery(listeners[i], event, listeners[i] in failing)
  }

  predicate Distinct<T(==)>(s: seq<T>)
  {
    forall i, j :: 0 <= i < j < |s| ==> s[i] != s[j]
  }

  /** `s.filter(y => y !== x)`. */
  function Without<T(==,!new)>(s: seq<T>, x: T): (r: seq<T>)
    ensures |r| <= |s|
    ensures forall y :: y in r <==> y in s && y != x
  {
    if s == [] then []
    else (if s[0] == x then [] else [s[0]]) + Without(s[1..], x)
  }

  /** Filtering keeps the order of what is left: it distributes over concatenation. */
  lemma {:induction false} WithoutAppend<T(!new)>(a: seq<T>, b: seq<T>, x: T)
    ensures Without(a + b, x) == Without(a, x) + Without(b, x)
  {
    if a == [] {
      assert a + b == b;
    } else {
      assert (a + b)[0] == a[0] && (a + b)[1..] == a[1..] + b;
      WithoutAppend(a[1..], b, x);
    }
  }

  /** Filtering out what is not there changes nothing; in particular filtering twice is filtering once. */
  lemma {:induction false} WithoutAbsent<T(!new)>(s: seq<T>, x: T)
    requires x !in s
    ensures Without(s, x) == s
  {
    if s != [] {
      assert x !in s[1..];
      WithoutAbsent(s[1..], x);
      assert s == [s[0]] + s[1..];
    }
  }

  lemma {:induction false} WithoutDistinct<T(!new)>(s: seq<T>, x: T)
    requires Distinct(s)
    ensures Distinct(Without(s, x))
  {
    if s != [] {
      var rest := Without(s[1..], x);
      assert Distinct(s[1..]) by {
        forall i, j | 0 <= i < j < |s[1..]| ensures s[1..][i] != s[1..][j] {
          assert s[1..][i] == s[i + 1] && s[1..][j] == s[j + 1];
        }
      }
      WithoutDistinct(s[1..], x);
      if s[0] != x {
        assert s[0] !in s[1..];
        var r := [s[0]] + rest;
        forall i, j | 0 <= i < j < |r| ensures r[i] != r[j] {
          assert r[j] == rest[j - 1] && r[j] in rest;
          if i > 0 {
            assert r[i] == rest[i - 1];
          }
        }
      } else {
        assert [] + rest == rest;
      }
    }
  }

  /** The keys, in map order, whose connection is open: `getConnectedPeers`. */
  function OpenKeys(order: seq<string>, connections: map<string, DataConnection>): (r: seq<string>)
    requires forall k :: k in order ==> k in connections
    reads connections.Values
    ensures |r| <= |order|
    ensures forall k :: k in r <==> k in order && connections[k].open
  {
    if order == [] then []
    else (if connections[order[0]].open then [order[0]] else []) + OpenKeys(order[1..], connections)
  }

  /** The connected peers are listed in map order: the listing distributes over concatenation. */
  lemma {:induction false} OpenKeysAppend(a: seq<string>, b: seq<string>, connections: map<string, DataConnection>)
    requires forall k :: k in a + b ==> k in connections
    ensures OpenKeys(a + b, connections) == OpenKeys(a, connections) + OpenKeys(b, connections)
  {
    if a == [] {
      assert a + b == b;
    } else {
      assert (a + b)[0] == a[0] && (a + b)[1..] == a[1..] + b;
      OpenKeysAppend(a[1..], b, connections);
    }
  }

  class PeerConnection<D(==)> {
    var peer: Option<Endpoint>
    /** `connections`, a JavaScript `Map`: the entries, and the order their keys were first set in. */
    var connections: map<string, DataConnection>
    var order: seq<string>
    var eventListeners: seq<Listener>
    var initializing: bool
    var initializationFailed: bool
    /** The bring-up promise is pending and its 10-second timer armed. */
    var bringUpPending: bool
    /** Every connection handed to `handleConnection`; only these have handlers to fire. */
    ghost var handled: set<DataConnection>

    ghost predicate Valid()
      reads this
    {
      && (forall k :: k in connections <==> k in order)
      && Distinct(order)
      && (forall k :: k in connections ==> connections[k].peer == k && connections[k] in handled)
      && (initializing ==> bringUpPending && !initializationFailed)
      && (bringUpPending ==> initializing || initializationFailed)
    }

    constructor ()
      ensures Valid()
      ensures peer.None? && connections == map[] && order == [] && eventListeners == []
      ensures !initializing && !initializationFailed && !bringUpPending && handled == {}
    {
      peer := None;
      connections := map[];
      order := [];
      eventListeners := [];
      initializing := false;
      initializationFailed := false;
      bringUpPending := false;
      handled := {};
    }

    /**
     * `initialize()`, up to the point where it returns or awaits the peer.
     * `bringUp` is the public key of the generated key pair, or `None` when key
     * generation or the creation of the peer threw.
     */
    method Initialize(bringUp: Option<string>) returns (r: InitResult)
      requires Valid()
      modifies this
      ensures Valid()
      ensures old(initializing) ==> r == NullResult && unchanged(this)
      ensures !old(initializing) && old(initializationFailed) ==> r == PeerId(MockPeerId) && unchanged(this)
      ensures !old(initializing) && !old(initializationFailed) && old(peer).Some? && old(peer).value.id != "" ==>
        r == PeerId(old(peer).value.id) && unchanged(this)
      ensures !old(initializing) && !old(initializationFailed) && !(old(peer).Some? && old(peer).value.id != "") ==>
        && (bringUp.None? ==> r == PeerId(MockPeerId) && !initializing && initializationFailed && peer == old(peer)
                              && bringUpPending == old(bringUpPending))
        && (bringUp.Some? ==> r == Pending && initializing && !initializationFailed && bringUpPending
                              && peer == Some(Endpoint(bringUp.value)))
      ensures connections == old(connections) && order == old(order) && eventListeners == old(eventListeners)
      ensures handled == old(handled)
      ensures old(initializationFailed) ==> initializationFailed
    {
      if initializing {
        return NullResult;
      }
      if initializationFailed {
        return PeerId(MockPeerId);
      }
      if peer.Some? && peer.value.id != "" {
        return PeerId(peer.value.id);
      }
      initializing := true;
      match bringUp {
        case None =>
          initializing := false;
          initializationFailed := true;
          return PeerId(MockPeerId);
        case Some(publicKey) =>
          peer := Some(Endpoint(publicKey));
          bringUpPending := true;
          return Pending;
      }
    }

    /** The peer's `open` event: the timer is cleared and a pending bring-up resolves with the id. */
    method OnPeerOpen(id: string) returns (resolved: Option<string>)
      requires Valid()
      modifies this
      ensures Valid()
      ensures resolved == (if old(bringUpPending) then Some(id) else None)
      ensures !initializing && !bringUpPending && initializationFailed == old(initializationFailed)
      ensures peer == old(peer) && connections == old(connections) && order == old(order)
      ensures eventListeners == old(eventListeners) && handled == old(handled)
    {
      resolved := if bringUpPending then Some(id) else None;
      bringUpPending := false;
      initializing := false;
    }

    /** The bring-up timer fires: initialization has failed and the promise rejects. */
    method OnInitTimeout() returns (rejection: string)
      requires Valid() && bringUpPending
      modifies this
      ensures Valid()
      ensures rejection == TimedOut
      ensures !initializing && initializationFailed && !bringUpPending
      ensures peer == old(peer) && connections == old(connections) && order == old(order)
      ensures eventListeners == old(eventListeners) && handled == old(handled)
    {
      initializing := false;
      initializationFailed := true;
      bringUpPending := false;
      rejection := TimedOut;
    }

    /** The peer's `error` event: listeners hear of it, and during bring-up initialization has failed. */
    method OnPeerError(message: string, failing: set<Listener>) returns (deliveries: seq<Delivery<D>>)
      requires Valid()
      modifies this
      ensures Valid()
      ensures Delivered(deliveries, eventListeners, PeerEvent(ErrorEvent, Note(message), SystemSender), failing)
      ensures old(initializing) ==> !initializing && initializationFailed
      ensures !old(initializing) ==> !initializing && initializationFailed == old(initializationFailed)
      ensures bringUpPending == old(bringUpPending) && peer == old(peer)
      ensures connections == old(connections) && order == old(order)
      ensures eventListeners == old(eventListeners) && handled == old(handled)
    {
      deliveries := NotifyListeners(PeerEvent(ErrorEvent, Note(message), SystemSender), failing);
      if initializing {
        initializationFailed := true;
        initializing := false;
      }
    }

    /** The peer's `connection` event: an incoming connection is registered. */
    method OnIncomingConnection(conn: DataConnection)
      requires Valid()
      modifies this
      ensures Valid()
      ensures connections == old(connections)[conn.peer := conn]
      ensures order == if conn.peer in old(connections) then old(order) else old(order) + [conn.peer]
      ensures handled == old(handled) + {conn}
      ensures peer == old(peer) && eventListeners == old(eventListeners)
      ensures initializing == old(initializing) && initializationFailed == old(initializationFailed)
      ensures bringUpPending == old(bringUpPending)
    {
      HandleConnection(conn);
    }

    /**
     * `connect(peerId)`. Without a peer, listeners get one error event and the
     * result is `null`; when the transport's dial throws the result is `null`
     * and nothing changes; otherwise the new connection is registered and
     * returned. `dialThrows` stands for the transport throwing.
     */
    method Connect(peerId: string, dialThrows: bool, failing: set<Listener>)
      returns (conn: DataConnection?, deliveries: seq<Delivery<D>>)
      requires Valid()
      modifies this
      ensures Valid()
      ensures old(peer).None? ==>
        && conn == null
        && Delivered(deliveries, eventListeners, PeerEvent(ErrorEvent, Note(NotInitialized), SystemSender), failing)
        && connections == old(connections) && order == old(order) && handled == old(handled)
      ensures old(peer).Some? && dialThrows ==>
        conn == null && deliveries == [] && connections == old(connections) && order == old(order) && handled == old(handled)
      ensures old(peer).Some? && !dialThrows ==>
        && conn != null && fresh(conn) && conn.peer == peerId && !conn.open
        && deliveries == []
        && connections == old(connections)[peerId := conn]
        && order == (if peerId in old(connections) then old(order) else old(order) + [peerId])
        && handled == old(handled) + {conn}
      ensures peer == old(peer) && eventListeners == old(eventListeners)
      ensures initializing == old(initializing) && initializationFailed == old(initializationFailed)
      ensures bringUpPending == old(bringUpPending)
    {
      if peer.None? {
        deliveries := NotifyListeners(PeerEvent(ErrorEvent, Note(NotInitialized), SystemSender), failing);
        return null, deliveries;
      }
      deliveries := [];
      if dialThrows {
        return null, deliveries;
      }
      conn := new DataConnection(peerId);
      HandleConnection(conn);
    }

    /** `handleConnection(conn)`: the connection takes the entry for its peer, replacing any earlier one. */
    method HandleConnection(conn: DataConnection)
      requires Valid()
      modifies this
      ensures Valid()
      ensures connections == old(connections)[conn.peer := conn]
      ensures order == if conn.peer in old(connections) then old(order) else old(order) + [conn.peer]
      ensures handled == old(handled) + {conn}
      ensures peer == old(peer) && eventListeners == old(eventListeners)
      ensures initializing == old(initializing) && initializationFailed == old(initializationFailed)
      ensures bringUpPending == old(bringUpPending)
    {
      if conn.peer !in connections {
        order := order + [conn.peer];
      }
      connections := connections[conn.peer := conn];
      handled := handled + {conn};
    }

    /** A connection's `open` event: the channel is open and listeners hear `connected`. */
    method OnConnectionOpen(conn: DataConnection, failing: set<Listener>) returns (deliveries: seq<Delivery<D>>)
      requires Valid() && conn in handled
      modifies this, conn
      ensures Valid()
      ensures conn.open
      ensures Delivered(deliveries, eventListeners, PeerEvent(StatusEvent, Note(Connected), conn.peer), failing)
      ensures unchanged(this)
    {
      conn.open := true;
      deliveries := NotifyListeners(PeerEvent(StatusEvent, Note(Connected), conn.peer), failing);
    }

    /** A connection's `data` event: listeners get a message event carrying the data. */
    method OnConnectionData(conn: DataConnection, data: D, failing: set<Listener>) returns (deliveries: seq<Delivery<D>>)
      requires Valid() && conn in handled
      ensures Delivered(deliveries, eventListeners, PeerEvent(MessageEvent, Payload(data), conn.peer), failing)
    {
      deliveries := NotifyListeners(PeerEvent(MessageEvent, Payload(data), conn.peer), failing);
    }

    /**
     * A connection's `close` event: the entry for its peer id is deleted and
     * listeners hear `disconnected`. The entry goes by key, so the close of a
     * connection that has since been replaced removes its replacement.
     */
    method OnConnectionClose(conn: DataConnection, failing: set<Listener>) returns (deliveries: seq<Delivery<D>>)
      requires Valid() && conn in handled
      modifies this, conn
      ensures Valid()
      ensures !conn.open
      ensures connections == old(connections) - {conn.peer}
      ensures order == Without(old(order), conn.peer)
      ensures Delivered(deliveries, eventListeners, PeerEvent(StatusEvent, Note(Disconnected), conn.peer), failing)
      ensures peer == old(peer) && eventListeners == old(eventListeners) && handled == old(handled)
      ensures initializing == old(initializing) && initializationFailed == old(initializationFailed)
      ensures bringUpPending == old(bringUpPending)
    {
      conn.open := false;
      WithoutDistinct(order, conn.peer);
      connections := connections - {conn.peer};
      order := Without(order, conn.peer);
      deliveries := NotifyListeners(PeerEvent(StatusEvent, Note(Disconnected), conn.peer), failing);
    }

    /** A connection's `error` event: listeners hear of it; the connections are untouched. */
    method OnConnectionError(conn: DataConnection, message: string, failing: set<Listener>)
      returns (deliveries: seq<Delivery<D>>)
      requires Valid() && conn in handled
      ensures Delivered(deliveries, eventListeners, PeerEvent(ErrorEvent, Note(message), conn.peer), failing)
    {
      deliveries := NotifyListeners(PeerEvent(ErrorEvent, Note(message), conn.peer), failing);
    }

    /** `addEventListener(callback)`: the callback goes last; the remover is returned. */
    method AddEventListener(callback: Listener) returns (unsubscribe: Unsubscriber)
      requires Valid()
      modifies this
      ensures Valid()
      ensures eventListeners == old(eventListeners) + [callback]
      ensures unsubscribe == Unsubscriber(callback)
      ensures peer == old(peer) && connections == old(connections) && order == old(order) && handled == old(handled)
      ensures initializing == old(initializing) && initializationFailed == old(initializationFailed)
      ensures bringUpPending == old(bringUpPending)
    {
      eventListeners := eventListeners + [callback];
      unsubscribe := Unsubscriber(callback);
    }

    /** Calling the remover: every occurrence of its callback goes, the others keep their order. */
    method Unsubscribe(unsubscribe: Unsubscriber)
      requires Valid()
      modifies this
      ensures Valid()
      ensures eventListeners == Without(old(eventListeners), unsubscribe.callback)
      ensures peer == old(peer) && connections == old(connections) && order == old(order) && handled == old(handled)
      ensures initializing == old(initializing) && initializationFailed == old(initializationFailed)
      ensures bringUpPending == old(bringUpPending)
    {
      eventListeners := Without(eventListeners, unsubscribe.callback);
    }

    /** `notifyListeners(event)`: each listener in turn, a throwing one caught so the rest still run. */
    method NotifyListeners(event: PeerEvent<D>, failing: set<Listener>) returns (deliveries: seq<Delivery<D>>)
      ensures Delivered(deliveries, eventListeners, event, failing)
    {
      deliveries := [];
      var i := 0;
      while i < |eventListeners|
        invariant 0 <= i <= |eventListeners|
        invariant Delivered(deliveries, eventListeners[..i], event, failing)
      {
        var listener := eventListeners[i];
        var threw := listener in failing;
        deliveries := deliveries + [Delivery(listener, event, threw)];
        i := i + 1;
      }
      assert eventListeners[..i] == eventListeners;
    }

    /**
     * `sendMessage(peerId, message)`: true exactly when there is an entry for
     * the peer, it is open, and the transport's send does not throw.
     */
    method SendMessage(peerId: string, message: D, sendThrows: bool) returns (sent: bool)
      requires Valid()
      ensures sent <==> peerId in connections && connections[peerId].open && !sendThrows
    {
      if peerId in connections && connections[peerId].open {
        sent := !sendThrows;
      } else {
        sent := false;
      }
    }

    /** `getConnectedPeers()`: the keys whose connection is open, in map order, each once. */
    function GetConnectedPeers(): (r: seq<string>)
      requires Valid()
      reads this, connections.Values
      ensures forall k :: k in r <==> k in connections && connections[k].open
      ensures Distinct(r)
    {
      OpenKeysDistinct(order, connections);
      OpenKeys(order, connections)
    }

    /**
     * `disconnect()`: every connection is closed, the map and the listener list
     * are emptied and the peer dropped. The initialization flags are kept.
     */
    method Disconnect()
      requires Valid()
      modifies this, connections.Values
      ensures Valid()
      ensures forall c :: c in old(connections).Values ==> !c.open
      ensures connections == map[] && order == [] && eventListeners == [] && peer.None?
      ensures initializing == old(initializing) && initializationFailed == old(initializationFailed)
      ensures bringUpPending == old(bringUpPending) && handled == old(handled)
    {
      var i := 0;
      while i < |order|
        invariant 0 <= i <= |order|
        invariant forall j :: 0 <= j < i ==> !connections[order[j]].open
        invariant unchanged(this)
        modifies connections.Values
      {
        connections[order[i]].open := false;
        i := i + 1;
      }
      connections := map[];
      order := [];
      eventListeners := [];
      peer := None;
    }
  }

  lemma {:induction false} OpenKeysDistinct(order: seq<string>, connections: map<string, DataConnection>)
    requires forall k :: k in order ==> k in connections
    requires Distinct(order)
    ensures Distinct(OpenKeys(order, connections))
  {
    if order != [] {
      assert Distinct(order[1..]) by {
        forall i, j | 0 <= i < j < |order[1..]| ensures order[1..][i] != order[1..][j] {
          assert order[1..][i] == order[i + 1] && order[1..][j] == order[j + 1];
        }
      }
      OpenKeysDistinct(order[1..], connections);
      var rest := OpenKeys(order[1..], connections);
      if connections[order[0]].open {
        assert order[0] !in order[1..];
        var r := [order[0]] + rest;
        forall i, j | 0 <= i < j < |r| ensures r[i] != r[j] {
          assert r[j] == rest[j - 1] && r[j] in rest;
          if i > 0 {
            assert r[i] == rest[i - 1];
          }
        }
      } else {
        assert [] + rest == rest;
      }
    }
  }
}
