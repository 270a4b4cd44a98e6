/**
 * The 0.4.0 SDK object (`GizwitsWS`) and its WebSocket connections. A device
 * gets two connections, one per data type, registered under the device's
 * endpoint and the data type, so devices on the same endpoint share them.
 *
 * Sockets are a state field; the messages handed to an open socket are
 * appended to `sent`; a `setTimeout` of a login is recorded by its delay in
 * `scheduledLogins`; callback invocations are appended to the gateway's
 * `events`. The environment drives the socket and message handlers.
 */
module GizwitsV4 {
  import opened Wrappers
  import opened Bytes
  import opened SubFrame
  import opened Inbound
  import opened Directory
  import opened Session

  /** The values of a connection's mutable fields at one moment. */
  datatype ConnFields = ConnFields(
    subscribedDids: seq<string>, loginFailedCount: nat, socket: SocketState,
    lastConnectMillis: int, sent: seq<Message>, scheduledLogins: seq<nat>)

  /** `Connection`: one WebSocket of one data type and the dids subscribed over it. */
  class Connection {
    var subscribedDids: seq<string>
    const dataType: DataType
    const url: string
    var loginFailedCount: nat
    var socket: SocketState
    var lastConnectMillis: int
    var sent: seq<Message>
    var scheduledLogins: seq<nat>

    ghost predicate Valid()
      reads this
    {
      NoDuplicates(subscribedDids)
    }

    /** The current values of the mutable fields. */
    ghost function Fields(): ConnFields
      reads this
    {
      ConnFields(subscribedDids, loginFailedCount, socket, lastConnectMillis, sent, scheduledLogins)
    }

    constructor (wsInfo: string, dataType: DataType)
      ensures Valid()
      ensures this.dataType == dataType && url == WsUrl(wsInfo)
      ensures subscribedDids == [] && loginFailedCount == 0 && socket == NoSocket
      ensures lastConnectMillis == 0 && sent == [] && scheduledLogins == []
    {
      subscribedDids := [];
      this.dataType := dataType;
      url := WsUrl(wsInfo);
      loginFailedCount := 0;
      socket := NoSocket;
      lastConnectMillis := 0;
      sent := [];
      scheduledLogins := [];
    }

    /** `_addSubscribeDid`. */
    method AddSubscribeDid(did: string)
      modifies this`subscribedDids
      ensures old(Valid()) ==> Valid()
      ensures subscribedDids == AddDid(old(subscribedDids), did)
    {
      var found := Search(subscribedDids, did);
      if found.None? {
        subscribedDids := subscribedDids + [did];
      }
      if NoDuplicates(old(subscribedDids)) {
        AddDidSpec(old(subscribedDids), did);
      }
    }

    /** `_removeSubscribeDid`. */
    method RemoveSubscribeDid(did: string)
      modifies this`subscribedDids
      ensures old(Valid()) ==> Valid()
      ensures subscribedDids == RemoveDid(old(subscribedDids), did)
    {
      var found := Search(subscribedDids, did);
      if found.Some? {
        var i := found.value;
        subscribedDids := subscribedDids[..i] + subscribedDids[i + 1..];
      }
      if NoDuplicates(old(subscribedDids)) {
        RemoveDidSpec(old(subscribedDids), did);
      }
    }

    /** `_sendJson`: the message goes out only on an open socket; the result says whether it did. */
    method SendJson(m: Message) returns (ok: bool)
      modifies this`sent
      ensures ok <==> socket == Open
      ensures sent == old(sent) + if ok then [m] else []
    {
      ok := socket == Open;
      if ok {
        sent := sent + [m];
      }
    }

    /** After a send-triggered reconnect: the time of the reconnect, and the
        login scheduled 2 s on. */
    method RecordRetry(now: int)
      modifies this`lastConnectMillis, this`scheduledLogins
      ensures lastConnectMillis == now && scheduledLogins == old(scheduledLogins) + [RETRY_SEND_TIME]
    {
      lastConnectMillis := now;
      scheduledLogins := scheduledLogins + [RETRY_SEND_TIME];
    }

    /** `_login`. */
    method Login()
      modifies this`sent
      ensures sent == old(sent) + if socket == Open then [LoginReq(P0Type(dataType))] else []
    {
      var _ := SendJson(LoginReq(P0Type(dataType)));
    }

    /** `_subscribeDevices`: one request listing the subscribed dids, last added first. */
    method SubscribeDevices()
      modifies this`sent
      ensures sent == old(sent) + if socket == Open then [SubscribeReq(Reverse(subscribedDids))] else []
    {
      var reqData: seq<string> := [];
      var i := |subscribedDids|;
      while i > 0
        invariant 0 <= i <= |subscribedDids|
        invariant reqData == Reverse(subscribedDids[i..])
        invariant sent == old(sent)
      {
        ReverseStep(subscribedDids, i);
        i := i - 1;
        reqData := reqData + [subscribedDids[i]];
      }
      assert subscribedDids[0..] == subscribedDids;
      var _ := SendJson(SubscribeReq(reqData));
    }

    /** `_connectWS`: a new socket replaces the old one. */
    method ConnectWS()
      modifies this`socket
      ensures socket == Connecting
    {
      socket := Connecting;
    }

    /** `_tryLoginAgain`: counts the rejection, then either schedules the next
        login after count × 5 s or, past three retries, closes the socket. */
    method TryLoginAgain()
      modifies this`loginFailedCount, this`socket, this`scheduledLogins
      ensures loginFailedCount == old(loginFailedCount) + 1
      ensures match RetryDecision(loginFailedCount)
              case GiveUp => socket == Closed && scheduledLogins == old(scheduledLogins)
              case RetryAfter(delay) => socket == old(socket) && scheduledLogins == old(scheduledLogins) + [delay]
    {
      loginFailedCount := loginFailedCount + 1;
      if loginFailedCount > MAX_LOGIN_RETRIES {
        socket := Closed;
        return;
      }
      var waitTime := loginFailedCount * RETRY_WAIT_TIME;
      scheduledLogins := scheduledLogins + [waitTime];
    }

    /** `_onWSOpen`: the socket is open, log in. */
    method OnOpen()
      modifies this`socket, this`sent
      ensures socket == Open
      ensures sent == old(sent) + [LoginReq(P0Type(dataType))]
    {
      socket := Open;
      Login();
    }

    /** The socket reports `onclose`: its `readyState` is now CLOSED. */
    method OnClose()
      modifies this`socket
      ensures socket == Closed
    {
      socket := Closed;
    }

    /** The `login_res` message: success resets the failure count and
        subscribes; a rejection goes to `_tryLoginAgain`. */
    method OnLoginRes(success: bool)
      modifies this`loginFailedCount, this`socket, this`scheduledLogins, this`sent
      ensures old(Valid()) ==> Valid()
      ensures success ==> loginFailedCount == 0 && socket == old(socket) && scheduledLogins == old(scheduledLogins)
                          && sent == old(sent) + if socket == Open then [SubscribeReq(Reverse(subscribedDids))] else []
      ensures !success ==> sent == old(sent) && loginFailedCount == old(loginFailedCount) + 1
                           && match RetryDecision(loginFailedCount)
                              case GiveUp => socket == Closed && scheduledLogins == old(scheduledLogins)
                              case RetryAfter(delay) => socket == old(socket) && scheduledLogins == old(scheduledLogins) + [delay]
    {
      if success {
        loginFailedCount := 0;
        SubscribeDevices();
      } else {
        TryLoginAgain();
      }
    }

    /** The `subscribe_res` message, on the custom connection only: `onConnected`
        for each accepted did and, for each rejected did, its removal and an
        error, both lists walked from the back. (The source indexes the rejected
        list with an undeclared variable; see the as-written model below.) */
    method OnSubscribeRes(successDids: seq<string>, failedDids: seq<string>, callbacks: Callbacks) returns (events: seq<Event>)
      modifies this`subscribedDids
      ensures old(Valid()) ==> Valid()
      ensures dataType == Custom ==>
                subscribedDids == RemoveAll(old(subscribedDids), Reverse(failedDids))
                && events == ConnectedEvents(callbacks, Reverse(successDids)) + FailureEvents(callbacks, Reverse(failedDids))
      ensures dataType != Custom ==> subscribedDids == old(subscribedDids) && events == []
    {
      events := [];
      if dataType != Custom {
        return;
      }
      events := ConnectedLoop(successDids, callbacks);
      var failures := RemoveFailed(failedDids, callbacks);
      events := events + failures;
    }

    /** The rejected dids of `subscribe_res`, from the back: removal and error. */
    method RemoveFailed(failedDids: seq<string>, callbacks: Callbacks) returns (events: seq<Event>)
      modifies this`subscribedDids
      ensures old(Valid()) ==> Valid()
      ensures subscribedDids == RemoveAll(old(subscribedDids), Reverse(failedDids))
      ensures events == FailureEvents(callbacks, Reverse(failedDids))
    {
      events := [];
      var j := |failedDids|;
      while j > 0
        invariant 0 <= j <= |failedDids|
        invariant old(Valid()) ==> Valid()
        invariant subscribedDids == RemoveAll(old(subscribedDids), Reverse(failedDids[j..]))
        invariant events == FailureEvents(callbacks, Reverse(failedDids[j..]))
      {
        ReverseStep(failedDids, j);
        j := j - 1;
        RemoveAllStep(old(subscribedDids), Reverse(failedDids[j + 1..]), failedDids[j], callbacks);
        RemoveSubscribeDid(failedDids[j]);
        events := events + ErrorEvents(callbacks, ConnectErrorMsg(failedDids[j]));
      }
      assert failedDids[0..] == failedDids;
    }
  }

  /** The accepted dids of `subscribe_res`, from the back, when `onConnected` is set. */
  method ConnectedLoop(successDids: seq<string>, callbacks: Callbacks) returns (events: seq<Event>)
    ensures events == ConnectedEvents(callbacks, Reverse(successDids))
  {
    events := [];
    if callbacks.onConnected {
      var i := |successDids|;
      while i > 0
        invariant 0 <= i <= |successDids|
        invariant events == ConnectedEvents(callbacks, Reverse(successDids[i..]))
      {
        ReverseStep(successDids, i);
        i := i - 1;
        events := events + [Connected(successDids[i])];
      }
      assert successDids[0..] == successDids;
    }
  }

  /** `subscribe_res` as the corrected handler treats it: the dids left
      subscribed and the callback invocations. */
  function SubscribeRes(dataType: DataType, subscribed: seq<string>, successDids: seq<string>, failedDids: seq<string>,
                        callbacks: Callbacks): (seq<string>, seq<Event>)
  {
    if dataType != Custom then (subscribed, [])
    else (RemoveAll(subscribed, Reverse(failedDids)),
          ConnectedEvents(callbacks, Reverse(successDids)) + FailureEvents(callbacks, Reverse(failedDids)))
  }

  /** `subscribe_res` as 0.4.0 writes it: after the accepted dids are reported,
      the first pass over the rejected ones reads `failedDids[j]`, whose index
      is declared nowhere, and throws; nothing is removed and no error is sent. */
  function SubscribeResAsWritten(dataType: DataType, subscribed: seq<string>, successDids: seq<string>, failedDids: seq<string>,
                                 callbacks: Callbacks): (seq<string>, seq<Event>)
  {
    if dataType != Custom then (subscribed, [])
    else (subscribed, ConnectedEvents(callbacks, Reverse(successDids)))
  }

  /** Corrected, a rejected did is no longer subscribed and the others stay. */
  lemma SubscribeResDropsRejected(subscribed: seq<string>, successDids: seq<string>, failedDids: seq<string>, callbacks: Callbacks)
    requires NoDuplicates(subscribed)
    ensures var (after, _) := SubscribeRes(Custom, subscribed, successDids, failedDids, callbacks);
            NoDuplicates(after) && forall d :: d in after <==> d in subscribed && d !in failedDids
  {
    RemoveAllSpec(subscribed, Reverse(failedDids));
    ReverseSpec(failedDids);
    forall d
      ensures d in Reverse(failedDids) <==> d in failedDids
    {
      if d in failedDids {
        var i :| 0 <= i < |failedDids| && failedDids[i] == d;
        assert Reverse(failedDids)[|failedDids| - 1 - i] == d;
      }
    }
  }

  /** As written, any subscribed did the cloud rejects stays subscribed and
      the application hears nothing about it; corrected, it is dropped and
      reported whenever `onError` is set. */
  lemma SubscribeResAsWrittenKeepsRejected(subscribed: seq<string>, successDids: seq<string>, failedDids: seq<string>,
                                           callbacks: Callbacks, d: string)
    requires NoDuplicates(subscribed) && d in subscribed && d in failedDids
    ensures var (after, events) := SubscribeResAsWritten(Custom, subscribed, successDids, failedDids, callbacks);
            d in after && Error(ConnectErrorMsg(d)) !in events
    ensures var (after, events) := SubscribeRes(Custom, subscribed, successDids, failedDids, callbacks);
            d !in after && (callbacks.onError ==> Error(ConnectErrorMsg(d)) in events)
  {
    SubscribeResDropsRejected(subscribed, successDids, failedDids, callbacks);
    ConnectedEventsSpec(callbacks, Reverse(successDids), []);
    var i :| 0 <= i < |failedDids| && failedDids[i] == d;
    ReverseSpec(failedDids);
    assert Reverse(failedDids)[|failedDids| - 1 - i] == d;
    if callbacks.onError {
      FailureEventsReport(callbacks, Reverse(failedDids), d);
    }
  }

  /** The branch `s2c_raw` takes in 0.4.0 once the action is located: the
      status report always, a list report only on the custom connection with
      `onUpdateSubDevices` set, the add/delete answers are only logged, and
      any other action (or none) is forwarded. */
  function RouteV4(action: Option<Byte>, t: DataType, callbacks: Callbacks): Handling
  {
    if action == Some(ACTION_REPORT_SUBDEVICE_STATUS) then OnlineStatus
    else if action == Some(ACTION_GET_SUBDEVICE_LIST_RESP) || action == Some(ACTION_REPORT_SUBDEVICE_LIST) then
      (if callbacks.onUpdateSubDevices && t == Custom then ListReport else Acknowledged)
    else if action == Some(ACTION_ADD_SUBDEVICE_RESP) || action == Some(ACTION_DELETE_SUBDEVICE_RESP) then Acknowledged
    else Forward
  }

  /** A list frame (get-list answer or spontaneous report) carrying a
      well-formed report is routed to the cache refresh exactly when the
      custom connection has a listener, and the refreshed cache keys every
      listed did to the last record carrying it. */
  lemma ListFrameRefreshesCache(sn: int, action: Byte, gs: seq<Group>, t: DataType, callbacks: Callbacks, did: string)
    requires action == ACTION_GET_SUBDEVICE_LIST_RESP || action == ACTION_REPORT_SUBDEVICE_LIST
    requires GroupsOk(gs)
    ensures var loc := LocateScan(Frame(sn, action, EncodeReport(gs)), CMD_TRANS_BUSINESS);
            RouteV4(loc.action, t, callbacks) == (if callbacks.onUpdateSubDevices && t == Custom then ListReport else Acknowledged)
            && DecodeReport(loc.payload) == Decoded(Entries(gs), true)
            && Lookup(PutAll([], DecodeReport(loc.payload).entries), did) == LastWithDid(Entries(gs), did)
  {
    ScanFindsBusinessAction(CMD_TRANS_BUSINESS, sn, action, EncodeReport(gs));
    ReportRoundTrip(gs);
    ReportCache(gs, did);
  }

  /** A status frame for a 32-bit `subDid` is routed to the status update on
      either connection and sets the flag of the first cached entry with that
      `subDid` to the reported state, leaving the rest of the caches alone. */
  lemma OnlineFrameSetsFlag(sn: int, subDid: nat, online: bool, t: DataType, callbacks: Callbacks,
                            caches: map<string, Cache>, did: string)
    requires subDid < TWO_32
    ensures var loc := LocateScan(Frame(sn, ACTION_REPORT_SUBDEVICE_STATUS, Be32(subDid) + [if online then 1 else 0]), CMD_TRANS_BUSINESS);
            RouteV4(loc.action, t, callbacks) == OnlineStatus
            && DecodeOnlineReport(loc.payload) == Some((subDid, online))
            && OnlineUpdated(caches, did, loc.payload)
               == if did in caches then caches[did := SetOnline(caches[did], subDid, online)] else caches
  {
    var payload := Be32(subDid) + [if online then 1 else 0];
    ScanFindsBusinessAction(CMD_TRANS_BUSINESS, sn, ACTION_REPORT_SUBDEVICE_STATUS, payload);
    OnlinePayloadDecodes(subDid, online);
  }

  /** The status payload for a 32-bit `subDid` reads back as that `subDid` and flag. */
  lemma OnlinePayloadDecodes(subDid: nat, online: bool)
    requires subDid < TWO_32
    ensures DecodeOnlineReport(Be32(subDid) + [if online then 1 else 0]) == Some((subDid, online))
  {
    var payload := Be32(subDid) + [if online then 1 else 0];
    assert payload[..4] == Be32(subDid);
    Be32RoundTrip(subDid);
  }

  /** A status frame cut short before its four `subDid` bytes changes no cache. */
  lemma ShortOnlineFrameIgnored(sn: int, payload: seq<Byte>, caches: map<string, Cache>, did: string)
    requires |payload| < 4
    ensures var loc := LocateScan(Frame(sn, ACTION_REPORT_SUBDEVICE_STATUS, payload), CMD_TRANS_BUSINESS);
            DecodeOnlineReport(loc.payload).None? && OnlineUpdated(caches, did, loc.payload) == caches
  {
    ScanFindsBusinessAction(CMD_TRANS_BUSINESS, sn, ACTION_REPORT_SUBDEVICE_STATUS, payload);
  }

  /** A business frame with an action the SDK does not handle goes to the
      application as it came, on either connection. */
  lemma OtherFramesForwarded(sn: int, action: Byte, payload: seq<Byte>, t: DataType, callbacks: Callbacks)
    requires action !in {ACTION_REPORT_SUBDEVICE_STATUS, ACTION_ADD_SUBDEVICE_RESP, ACTION_DELETE_SUBDEVICE_RESP,
                         ACTION_GET_SUBDEVICE_LIST_RESP, ACTION_REPORT_SUBDEVICE_LIST}
    ensures RouteV4(LocateScan(Frame(sn, action, payload), CMD_TRANS_BUSINESS).action, t, callbacks) == Forward
  {
    ScanFindsBusinessAction(CMD_TRANS_BUSINESS, sn, action, payload);
    OtherActionsForwarded(action, t, callbacks);
  }

  /** The routing step alone: an action outside the five sub-device ones is forwarded. */
  lemma OtherActionsForwarded(action: Byte, t: DataType, callbacks: Callbacks)
    requires action !in {ACTION_REPORT_SUBDEVICE_STATUS, ACTION_ADD_SUBDEVICE_RESP, ACTION_DELETE_SUBDEVICE_RESP,
                         ACTION_GET_SUBDEVICE_LIST_RESP, ACTION_REPORT_SUBDEVICE_LIST}
    ensures RouteV4(Some(action), t, callbacks) == Forward
  {
  }

  /** `_getConntionsKey` in 0.4.0: the device's endpoint and the data type. */
  function Key(device: Device, t: DataType): string
  {
    ConnectionKey(ConnInfo(device), t)
  }

  /** The two connections of a device sit under different keys. */
  lemma KeysDiffer(device: Device)
    ensures Key(device, AttrsV4) != Key(device, Custom)
  {
    if Key(device, AttrsV4) == Key(device, Custom) {
      ConnectionKeyInjective(ConnInfo(device), AttrsV4, ConnInfo(device), Custom);
    }
  }

  /** `GizwitsWS` (0.4.0): the bound devices (filled by the HTTP calls, given
      here), the sub-device caches per parent did, the connection registry, the
      frame sequence number `_gloabSN`, and the application's callbacks. */
  class Gateway {
    var sn: int
    const boundDevices: map<string, Device>
    var subDevices: map<string, Cache>
    var connections: map<string, Connection>
    const callbacks: Callbacks
    var events: seq<Event>

    ghost predicate Valid()
      reads this
    {
      forall d | d in subDevices :: DistinctDids(subDevices[d])
    }

    constructor (boundDevices: map<string, Device>, callbacks: Callbacks)
      ensures Valid()
      ensures sn == 1 && this.boundDevices == boundDevices && this.callbacks == callbacks
      ensures subDevices == map[] && connections == map[] && events == []
      ensures Unaliased()
    {
      sn := 1;
      this.boundDevices := boundDevices;
      subDevices := map[];
      connections := map[];
      this.callbacks := callbacks;
      events := [];
    }

    /** `_sendError`. */
    method SendError(msg: string)
      modifies this`events
      ensures events == old(events) + ErrorEvents(callbacks, msg)
    {
      if callbacks.onError {
        events := events + [Error(msg)];
      }
    }

    /** No connection object is registered under two keys: `_connect`
        registers each new connection under its own key only. */
    ghost predicate Unaliased()
      reads this
    {
      forall k, k' | k in connections && k' in connections && k != k' :: connections[k] != connections[k']
    }

    /** What `_connect(device, t)` did to the connection under `Key(device, t)`:
        a registered one (the same object) gained the did and, if its socket
        was open, re-sent its subscription, otherwise got a new socket; a
        missing one was created and registered, connecting, with the did as
        its only subscription. */
    twostate predicate Reconnected(device: Device, t: DataType)
      reads this`connections, connections.Values`subscribedDids, connections.Values`loginFailedCount,
            connections.Values`socket, connections.Values`sent
    {
      Key(device, t) in connections
      && var conn := connections[Key(device, t)];
         if Key(device, t) in old(connections) then
           conn == old(connections[Key(device, t)])
           && conn.subscribedDids == AddDid(old(conn.subscribedDids), device.did)
           && conn.loginFailedCount == old(conn.loginFailedCount)
           && if old(conn.socket) == Open
              then conn.socket == Open && conn.sent == old(conn.sent) + [SubscribeReq(Reverse(conn.subscribedDids))]
              else conn.socket == Connecting && conn.sent == old(conn.sent)
         else
           fresh(conn) && conn.dataType == t && conn.url == WsUrl(ConnInfo(device))
           && conn.subscribedDids == [device.did] && conn.socket == Connecting
           && conn.loginFailedCount == 0 && conn.sent == []
    }

    /** `_connect`: finds or creates the connection of this type for the
        device's endpoint and subscribes the device on it; a connection whose
        socket is not open gets a new socket (and is registered), an open one
        re-sends its subscription. */
    method ConnectOne(device: Device, t: DataType)
      modifies this`connections, connections.Values
      ensures Reconnected(device, t)
      ensures device.did in connections[Key(device, t)].subscribedDids
      ensures connections == old(connections)[Key(device, t) := connections[Key(device, t)]]
      ensures forall k | k in old(connections) :: k in connections && connections[k] == old(connections[k])
      ensures forall c | c in connections.Values :: c in old(connections.Values) || fresh(c)
      ensures forall c | c in old(connections.Values) && c != connections[Key(device, t)] :: unchanged(c)
      ensures forall c | c in old(connections.Values) ::
                c.lastConnectMillis == old(c.lastConnectMillis) && c.scheduledLogins == old(c.scheduledLogins)
      ensures Key(device, t) !in old(connections) ==>
                connections[Key(device, t)].lastConnectMillis == 0 && connections[Key(device, t)].scheduledLogins == []
      ensures old(Unaliased()) ==> Unaliased()
    {
      var key := Key(device, t);
      var conn: Connection;
      if key in connections {
        conn := connections[key];
      } else {
        conn := new Connection(ConnInfo(device), t);
      }
      conn.AddSubscribeDid(device.did);
      if conn.socket != Open {
        conn.ConnectWS();
        connections := connections[key := conn];
      } else {
        conn.SubscribeDevices();
      }
    }

    /** The two `_connect` calls `connect` and `_sendJson` make: afterwards
        both connections of the device are registered with the device
        subscribed on each; registered connections stay registered and keep
        their reconnect timestamp and scheduled logins, and those of other
        keys do not change. When no connection sat under two keys, each of
        the two went through `_connect` once: a new socket unless it was
        open, a re-sent subscription if it was. */
    method ConnectDevice(device: Device)
      modifies this`connections, connections.Values
      ensures forall c | c in connections.Values :: c in old(connections.Values) || fresh(c)
      ensures forall t: DataType :: Key(device, t) in connections && device.did in connections[Key(device, t)].subscribedDids
      ensures forall k :: k in connections <==> k in old(connections) || k == Key(device, AttrsV4) || k == Key(device, Custom)
      ensures forall k | k in old(connections) :: k in connections && connections[k] == old(connections[k])
      ensures forall c | c in old(connections.Values) ::
                c.lastConnectMillis == old(c.lastConnectMillis) && c.scheduledLogins == old(c.scheduledLogins)
      ensures forall c | c in old(connections.Values) && c != connections[Key(device, AttrsV4)]
                         && c != connections[Key(device, Custom)] :: unchanged(c)
      ensures old(Unaliased()) ==> Unaliased() && Reconnected(device, AttrsV4) && Reconnected(device, Custom)
    {
      KeysDiffer(device);
      ConnectOne(device, AttrsV4);
      ghost var first := connections[Key(device, AttrsV4)];
      ghost var mid := connections;
      if old(Unaliased()) && Key(device, Custom) in old(connections) {
        assert old(connections[Key(device, Custom)]) in old(connections.Values);
        assert mid[Key(device, Custom)] == old(connections[Key(device, Custom)]) != first;
        assert unchanged(mid[Key(device, Custom)]);
      }
      ConnectOne(device, Custom);
      assert connections[Key(device, AttrsV4)] == first;
      if first != connections[Key(device, Custom)] {
        assert device.did in first.subscribedDids;
      }
      forall t: DataType
        ensures Key(device, t) in connections && device.did in connections[Key(device, t)].subscribedDids
      {
        if t == AttrsV4 {
          assert connections[Key(device, t)] == first;
        }
      }
      forall c | c in old(connections.Values)
        ensures c in mid.Values
      {
        var k :| k in old(connections) && old(connections[k]) == c;
        assert mid[k] == c;
      }
    }

    /** `connect`: both connections of a bound device end up registered with
        the device subscribed on each. */
    method Connect(did: string)
      modifies this`connections, this`events, connections.Values
      ensures forall c | c in connections.Values :: c in old(connections.Values) || fresh(c)
      ensures did !in boundDevices ==>
                events == old(events) + ErrorEvents(callbacks, "Device is not bound.") && connections == old(connections)
      ensures did in boundDevices ==>
                events == old(events)
                && (forall t: DataType :: Key(boundDevices[did], t) in connections
                                         && boundDevices[did].did in connections[Key(boundDevices[did], t)].subscribedDids)
                && (forall k :: k in connections <==> k in old(connections) || k == Key(boundDevices[did], AttrsV4) || k == Key(boundDevices[did], Custom))
                && (forall k | k in old(connections) :: k in connections && connections[k] == old(connections[k]))
                && (forall c | c in old(connections.Values) ::
                      c.lastConnectMillis == old(c.lastConnectMillis) && c.scheduledLogins == old(c.scheduledLogins))
                && forall c | c in old(connections.Values) && c != connections[Key(boundDevices[did], AttrsV4)]
                              && c != connections[Key(boundDevices[did], Custom)] :: unchanged(c)
      ensures did !in boundDevices ==> forall c | c in old(connections.Values) :: unchanged(c)
      ensures did in boundDevices && old(Unaliased()) ==>
                Reconnected(boundDevices[did], AttrsV4) && Reconnected(boundDevices[did], Custom)
      ensures old(Unaliased()) ==> Unaliased()
    {
      if did !in boundDevices {
        SendError("Device is not bound.");
        return;
      }
      ConnectDevice(boundDevices[did]);
    }

    /** `_sendJson` of the SDK object: an error when the device has no
        connection of this type; otherwise the message goes out if the socket
        is open, and if not, and the last reconnect was more than 5 s before
        `now`, the device is connected again and a login is scheduled 2 s on. */
    method SendJson(device: Device, t: DataType, m: Message, now: int)
      modifies this`connections, this`events, connections.Values
      ensures forall c | c in connections.Values :: c in old(connections.Values) || fresh(c)
      ensures Key(device, t) !in old(connections) ==>
                events == old(events) + ErrorEvents(callbacks, NotConnectedMsg(t))
                && connections == old(connections) && forall c | c in old(connections.Values) :: unchanged(c)
      ensures Key(device, t) in old(connections) ==> events == old(events)
      ensures Key(device, t) in old(connections) && old(connections[Key(device, t)].socket) == Open ==>
                connections == old(connections)
                && connections[Key(device, t)].sent == old(connections[Key(device, t)].sent) + [m]
                && connections[Key(device, t)].socket == Open
                && connections[Key(device, t)].Fields()
                   == old(connections[Key(device, t)].Fields()).(sent := old(connections[Key(device, t)].sent) + [m])
                && forall c | c in old(connections.Values) && c != connections[Key(device, t)] :: unchanged(c)
      ensures Key(device, t) in old(connections) && old(connections[Key(device, t)].socket) != Open
              && !CooldownExpired(now, old(connections[Key(device, t)].lastConnectMillis)) ==>
                connections == old(connections) && forall c | c in old(connections.Values) :: unchanged(c)
      ensures Key(device, t) in old(connections) && old(connections[Key(device, t)].socket) != Open
              && CooldownExpired(now, old(connections[Key(device, t)].lastConnectMillis)) ==>
                Retried(device, t, now)
      ensures old(Unaliased()) ==> Unaliased()
    {
      var key := Key(device, t);
      if key !in connections {
        SendError(NotConnectedMsg(t));
        return;
      }
      var conn := connections[key];
      if conn.socket == Open {
        var _ := conn.SendJson(m);
      } else if CooldownExpired(now, conn.lastConnectMillis) {
        // `conn._sendJson` sends nothing on a socket that is not open and reports false
        RetryConnect(device, t, now);
      }
    }

    /** What the retry of `_sendJson` did after the send on the connection
        under `Key(device, t)` failed: the two `_connect` calls of
        `ConnectDevice` (the registry gains at most the device's two keys,
        registered connections stay registered, the others are unchanged),
        then that connection records `now` and schedules a login 2 s on;
        every other connection keeps its timestamp and scheduled logins.
        When no connection sat under two keys, the failed one was not open
        and so got a new socket with nothing sent. */
    twostate predicate Retried(device: Device, t: DataType, now: int)
      reads this, connections.Values
    {
      var key := Key(device, t);
      key in old(connections) && key in connections && connections[key] == old(connections[key])
      && connections[key].lastConnectMillis == now
      && connections[key].scheduledLogins == old(connections[key].scheduledLogins) + [RETRY_SEND_TIME]
      && (forall t': DataType :: Key(device, t') in connections && device.did in connections[Key(device, t')].subscribedDids)
      && (forall k :: k in connections <==> k in old(connections) || k == Key(device, AttrsV4) || k == Key(device, Custom))
      && (forall k | k in old(connections) :: k in connections && connections[k] == old(connections[k]))
      && (forall k | k in old(connections) && connections[k] != connections[Key(device, AttrsV4)]
                     && connections[k] != connections[Key(device, Custom)] :: unchanged(connections[k]))
      && (forall k | k in old(connections) && connections[k] != connections[key] ::
            connections[k].lastConnectMillis == old(connections[k].lastConnectMillis)
            && connections[k].scheduledLogins == old(connections[k].scheduledLogins))
      && (old(Unaliased()) ==>
            connections[key].socket == Connecting && connections[key].sent == old(connections[key].sent)
            && Reconnected(device, AttrsV4) && Reconnected(device, Custom))
    }

    /** The retry of `_sendJson` after a failed send: both `_connect` calls,
        then the connection that failed records the time and schedules a
        login 2 s on. */
    method RetryConnect(device: Device, t: DataType, now: int)
      requires Key(device, t) in connections && connections[Key(device, t)].socket != Open
      modifies this`connections, connections.Values
      ensures forall c | c in connections.Values :: c in old(connections.Values) || fresh(c)
      ensures Retried(device, t, now)
      ensures old(Unaliased()) ==> Unaliased()
    {
      var conn := connections[Key(device, t)];
      ConnectDevice(device);
      conn.RecordRetry(now);
    }
  
    /** The key of the custom connection of a bound device. */
    function CustomKey(did: string): string
      requires did in boundDevices
    {
      Key(boundDevices[did], Custom)
    }

    /** What sending `msgs` one after the other on a device's custom
        connection does when that connection is missing (one error each,
        nothing else changes) or open (they all go out, in order, and nothing
        else changes). */
    twostate predicate SentOnCustom(did: string, msgs: seq<Message>)
      requires did in boundDevices
      reads this, connections.Values
    {
      var key := CustomKey(did);
      (key !in old(connections) ==>
         events == old(events) + Repeated(ErrorEvents(callbacks, NotConnectedMsg(Custom)), |msgs|)
         && connections == old(connections) && forall c | c in old(connections.Values) :: c.Fields() == old(c.Fields()))
      && (key in old(connections) && old(connections[key].socket) == Open ==>
         connections == old(connections) && events == old(events) && connections[key].socket == Open
         && connections[key].sent == old(connections[key].sent) + msgs
         && connections[key].Fields() == old(connections[key].Fields()).(sent := old(connections[key].sent) + msgs)
         && forall c | c in old(connections.Values) && c != connections[key] :: c.Fields() == old(c.Fields()))
    }

    /** What sending one frame on a device's custom connection does when that
        connection is registered but its socket is not open: nothing inside
        the 5 s cooldown, and after it the reconnect `Retried` describes. */
    twostate predicate RetriedOnCustom(did: string, now: int)
      requires did in boundDevices
      reads this, connections.Values
    {
      var key := CustomKey(did);
      (key in old(connections) && old(connections[key].socket) != Open
       && !CooldownExpired(now, old(connections[key].lastConnectMillis)) ==>
         events == old(events) && connections == old(connections)
         && forall c | c in old(connections.Values) :: unchanged(c))
      && (key in old(connections) && old(connections[key].socket) != Open
          && CooldownExpired(now, old(connections[key].lastConnectMillis)) ==>
            events == old(events) && Retried(boundDevices[did], Custom, now))
    }

    /** `SentOnCustom(did, msgs)` measured from an earlier state given by its
        connection map `conns0`, its events `events0` and the field values
        `fields0` its connections had then. */
    ghost predicate SentSince(did: string, conns0: map<string, Connection>, events0: seq<Event>,
                              fields0: map<Connection, ConnFields>, msgs: seq<Message>)
      requires did in boundDevices
      reads this, conns0.Values
    {
      var key := CustomKey(did);
      (key !in conns0 ==>
         events == events0 + Repeated(ErrorEvents(callbacks, NotConnectedMsg(Custom)), |msgs|)
         && connections == conns0 && forall c | c in conns0.Values :: c in fields0 && c.Fields() == fields0[c])
      && (key in conns0 && conns0[key] in fields0 && fields0[conns0[key]].socket == Open ==>
         connections == conns0 && events == events0
         && conns0[key].Fields() == fields0[conns0[key]].(sent := fields0[conns0[key]].sent + msgs)
         && forall c | c in conns0.Values && c != conns0[key] :: c in fields0 && c.Fields() == fields0[c])
    }

    /** `updateSubDevices`: a bound device is sent a get-list frame numbered
        with the current sequence number, which then advances. */
    method UpdateSubDevices(did: string, now: int)
      modifies this`sn, this`connections, this`events, connections.Values
      ensures forall c | c in connections.Values :: c in old(connections.Values) || fresh(c)
      ensures did !in boundDevices ==>
                sn == old(sn) && events == old(events) + ErrorEvents(callbacks, "Device is not bound.")
                && connections == old(connections) && forall c | c in old(connections.Values) :: unchanged(c)
      ensures did in boundDevices ==> sn == old(sn) + 1 && SentOnCustom(did, [ListRequest(did, old(sn))])
    {
      if did !in boundDevices {
        SendError("Device is not bound.");
        return;
      }
      var data := BuildListFrame(sn);
      sn := sn + 1;
      SendOnCustom(did, RawReq(did, data), now);
    }

    /** `addSubDevice`: a bound device is sent an add frame listing the
        candidates' MACs, numbered with the current sequence number, which
        then advances. */
    method AddSubDevice(did: string, cs: seq<Candidate>, now: int)
      requires AsciiMacs(cs) && 10 + |MacEntries(cs)| <= 128
      modifies this`sn, this`connections, this`events, connections.Values
      ensures forall c | c in connections.Values :: c in old(connections.Values) || fresh(c)
      ensures did !in boundDevices ==>
                sn == old(sn) && events == old(events) + ErrorEvents(callbacks, "Device is not bound.")
                && connections == old(connections) && forall c | c in old(connections.Values) :: unchanged(c)
      ensures did in boundDevices ==> sn == old(sn) + 1 && SentOnCustom(did, [AddRequest(did, old(sn), cs)])
    {
      if did !in boundDevices {
        SendError("Device is not bound.");
        return;
      }
      var data := BuildAddFrame(sn, cs);
      sn := sn + 1;
      SendOnCustom(did, RawReq(did, data), now);
    }

    /** `deleteSubDevice`: after the checks (targets given, device bound, a
        cache for it), one delete frame per target found in the cache, each
        with the next sequence number. */
    method DeleteSubDevice(did: string, targets: Option<seq<string>>, now: int)
      modifies this`sn, this`connections, this`events, connections.Values
      ensures forall c | c in connections.Values :: c in old(connections.Values) || fresh(c)
      ensures targets.None? || did !in boundDevices || did !in subDevices ==>
                sn == old(sn) && connections == old(connections) && forall c | c in old(connections.Values) :: unchanged(c)
      ensures targets.None? ==> events == old(events) + ErrorEvents(callbacks, "Please special valid subDevices.")
      ensures targets.Some? && did !in boundDevices ==> events == old(events) + ErrorEvents(callbacks, "Device is not bound.")
      ensures targets.Some? && did in boundDevices && did !in subDevices ==>
                events == old(events) + ErrorEvents(callbacks, "Device do not have subDevices be cached.")
      ensures targets.Some? && did in boundDevices && did in subDevices ==>
                var found := Found(subDevices[did], targets.value);
                sn == old(sn) + |found| && SentOnCustom(did, DeleteRequests(did, old(sn), found))
    {
      if targets.None? {
        SendError("Please special valid subDevices.");
        return;
      }
      if did !in boundDevices {
        SendError("Device is not bound.");
        return;
      }
      if did !in subDevices {
        SendError("Device do not have subDevices be cached.");
        return;
      }
      SendDeletes(did, subDevices[did], targets.value, now);
    }

    /** `_processSubdevicesReport`: the parent's cache is replaced by the
        report's entries; `complete` is false where the source throws, and
        the entries read before stay. */
    method ProcessSubdevicesReport(did: string, payload: seq<Byte>) returns (complete: bool)
      modifies this`subDevices
      ensures old(Valid()) ==> Valid()
      ensures subDevices == old(subDevices)[did := PutAll([], DecodeReport(payload).entries)]
      ensures complete == DecodeReport(payload).complete
    {
      var cache;
      cache, complete := ReadReport(payload);
      subDevices := subDevices[did := cache];
    }

    /** `_processSubdeviceOnlineReport`: `ok` is false where `getUint32`
        throws on a payload shorter than four bytes. */
    method ProcessSubdeviceOnlineReport(did: string, payload: seq<Byte>) returns (ok: bool)
      modifies this`subDevices
      ensures old(Valid()) ==> Valid()
      ensures subDevices == OnlineUpdated(old(subDevices), did, payload)
      ensures ok == DecodeOnlineReport(payload).Some?
    {
      if |payload| < 4 {
        return false;
      }
      var subDid := FromBe32(payload[..4]);
      var online := |payload| > 4 && payload[4] != 0;
      if did in subDevices {
        SetOnlineEffect(subDevices[did], subDid, online);
        var patched := PatchOnline(subDevices[did], subDid, online);
        subDevices := subDevices[did := patched];
      }
      ok := true;
    }

    /** `_notifySubdevices`. */
    method NotifySubdevices(did: string)
      modifies this`events
      ensures events == old(events) + Notification(callbacks, did, subDevices)
    {
      if !callbacks.onUpdateSubDevices {
        return;
      }
      var list: seq<SubDeviceInfo> := [];
      if did in subDevices {
        list := CollectInfos(subDevices[did]);
      }
      events := events + [SubDevicesUpdated(did, list)];
    }

    /** The `s2c_raw` message on the connection under `key`: for a bound
        parent (the did cut to 22 characters), the located action selects a
        status update, a cache refresh, a log line or forwarding; each
        update is followed by a notification unless its payload was cut
        short. */
    method OnRaw(key: string, rawDid: string, raw: seq<Byte>)
      requires key in connections
      modifies this`subDevices, this`events
      ensures old(Valid()) ==> Valid()
      ensures TruncateDid(rawDid) !in boundDevices ==> subDevices == old(subDevices) && events == old(events)
      ensures var did := TruncateDid(rawDid);
              var loc := LocateScan(raw, CMD_TRANS_BUSINESS);
              did in boundDevices ==>
                match RouteV4(loc.action, connections[key].dataType, callbacks)
                case OnlineStatus =>
                  subDevices == OnlineUpdated(old(subDevices), did, loc.payload)
                  && events == old(events) + (if DecodeOnlineReport(loc.payload).Some? then Notification(callbacks, did, subDevices) else [])
                case ListReport =>
                  subDevices == old(subDevices)[did := PutAll([], DecodeReport(loc.payload).entries)]
                  && events == old(events) + (if DecodeReport(loc.payload).complete then Notification(callbacks, did, subDevices) else [])
                case Acknowledged =>
                  subDevices == old(subDevices) && events == old(events)
                case Forward =>
                  subDevices == old(subDevices)
                  && events == old(events) + (if callbacks.onReceivedRaw then [ReceivedRaw(boundDevices[did].did, raw)] else [])
    {
      var did := TruncateDid(rawDid);
      if did !in boundDevices {
        return;
      }
      var loc := LocateAction(raw, CMD_TRANS_BUSINESS);
      match RouteV4(loc.action, connections[key].dataType, callbacks)
      case OnlineStatus =>
        var ok := ProcessSubdeviceOnlineReport(did, loc.payload);
        if ok {
          NotifySubdevices(did);
        }
      case ListReport =>
        var complete := ProcessSubdevicesReport(did, loc.payload);
        if complete {
          NotifySubdevices(did);
        }
      case Acknowledged =>
      case Forward =>
        if callbacks.onReceivedRaw {
          events := events + [ReceivedRaw(boundDevices[did].did, raw)];
        }
    }

    /** `_onWSOpen` on the connection under `key`: it logs in. */
    method OnWSOpen(key: string)
      requires key in connections
      modifies {connections[key]}`socket, {connections[key]}`sent
      ensures connections[key].socket == Open
      ensures connections[key].sent == old(connections[key].sent) + [LoginReq(P0Type(connections[key].dataType))]
      ensures connections[key].subscribedDids == old(connections[key].subscribedDids)
      ensures connections[key].loginFailedCount == old(connections[key].loginFailedCount)
      ensures connections[key].scheduledLogins == old(connections[key].scheduledLogins)
      ensures connections[key].lastConnectMillis == old(connections[key].lastConnectMillis)
    {
      connections[key].OnOpen();
    }

    /** `_onWSClose` on the connection under `key`: an error for the application. */
    method OnWSClose(key: string)
      requires key in connections
      modifies this`events, {connections[key]}`socket
      ensures connections[key].socket == Closed
      ensures connections[key].Fields() == old(connections[key].Fields()).(socket := Closed)
      ensures events == old(events) + ErrorEvents(callbacks, "Websocket Connect failed, please try again after a moment.")
    {
      connections[key].OnClose();
      SendError("Websocket Connect failed, please try again after a moment.");
    }

    /** `_onWSError`. */
    method OnWSError()
      modifies this`events
      ensures events == old(events) + ErrorEvents(callbacks, "Websocket on error")
    {
      SendError("Websocket on error");
    }

    /** The `subscribe_res` message on the connection under `key`, with the
        corrected handling of the rejected dids. */
    method OnSubscribeRes(key: string, successDids: seq<string>, failedDids: seq<string>)
      requires key in connections
      modifies this`events, {connections[key]}`subscribedDids
      ensures old(connections[key].Valid()) ==> connections[key].Valid()
      ensures connections[key].Fields() == old(connections[key].Fields()).(subscribedDids := connections[key].subscribedDids)
      ensures var (after, emitted) := SubscribeRes(connections[key].dataType, old(connections[key].subscribedDids),
                                                   successDids, failedDids, callbacks);
              connections[key].subscribedDids == after && events == old(events) + emitted
    {
      var emitted := connections[key].OnSubscribeRes(successDids, failedDids, callbacks);
      events := events + emitted;
    }

    /** The `s2c_invalid_msg` message on the connection under `key`: code 1009
        (not logged in) retries the login, any other code is reported. */
    method OnInvalidMsg(key: string, errorCode: int, msg: string)
      requires key in connections
      modifies this`events, {connections[key]}`loginFailedCount, {connections[key]}`socket, {connections[key]}`scheduledLogins
      ensures var conn := connections[key];
              errorCode == ERROR_CODE_RELOGIN ==>
                events == old(events) && conn.loginFailedCount == old(conn.loginFailedCount) + 1
                && conn.subscribedDids == old(conn.subscribedDids) && conn.sent == old(conn.sent)
                && conn.lastConnectMillis == old(conn.lastConnectMillis)
                && match RetryDecision(conn.loginFailedCount)
                   case GiveUp => conn.socket == Closed && conn.scheduledLogins == old(conn.scheduledLogins)
                   case RetryAfter(delay) => conn.socket == old(conn.socket) && conn.scheduledLogins == old(conn.scheduledLogins) + [delay]
      ensures var conn := connections[key];
              errorCode != ERROR_CODE_RELOGIN ==>
                events == old(events) + ErrorEvents(callbacks, InvalidMsgText(errorCode, msg)) && unchanged(conn)
    {
      if errorCode == ERROR_CODE_RELOGIN {
        connections[key].TryLoginAgain();
      } else {
        SendError(InvalidMsgText(errorCode, msg));
      }
    }

    /** The loop of `deleteSubDevice` over the targets. */
    method SendDeletes(did: string, cache: Cache, ts: seq<string>, now: int)
      requires did in boundDevices
      modifies this`sn, this`connections, this`events, connections.Values
      ensures forall c | c in connections.Values :: c in old(connections.Values) || fresh(c)
      ensures sn == old(sn) + |Found(cache, ts)| && SentOnCustom(did, DeleteRequests(did, old(sn), Found(cache, ts)))
    {
      ghost var fields0 := map c | c in connections.Values :: c.Fields();
      SentSinceNothing(did, fields0);
      SendDeletesSince(did, cache, ts, now, connections, events, fields0);
    }

    /** The loop of `deleteSubDevice`, measured from the state the loop starts in. */
    method SendDeletesSince(did: string, cache: Cache, ts: seq<string>, now: int, ghost conns0: map<string, Connection>,
                            ghost events0: seq<Event>, ghost fields0: map<Connection, ConnFields>)
      requires did in boundDevices && SentSince(did, conns0, events0, fields0, [])
      modifies this`sn, this`connections, this`events, connections.Values
      ensures forall c | c in connections.Values :: c in old(connections.Values) || fresh(c)
      ensures sn == old(sn) + |Found(cache, ts)|
      ensures SentSince(did, conns0, events0, fields0, DeleteRequests(did, old(sn), Found(cache, ts)))
    {
      var i := 0;
      ghost var found: seq<SubDevice> := [];
      while i < |ts|
        invariant 0 <= i <= |ts|
        invariant forall c | c in connections.Values :: c in old(connections.Values) || fresh(c)
        invariant found == Found(cache, ts[..i])
        invariant sn == old(sn) + |found|
        invariant SentSince(did, conns0, events0, fields0, DeleteRequests(did, old(sn), found))
      {
        FoundSnoc(cache, ts, i);
        SendFoundSince(did, cache, ts[i], now, conns0, events0, fields0, old(sn), found);
        found := found + if Lookup(cache, ts[i]).Some? then [Lookup(cache, ts[i]).value] else [];
        i := i + 1;
      }
      assert ts[..i] == ts;
    }

    /** One pass of the loop of `deleteSubDevice`: the target is looked up in
        the cache and, when it is there, its delete frame is sent with the
        next sequence number. */
    method SendFoundSince(did: string, cache: Cache, target: string, now: int, ghost conns0: map<string, Connection>,
                          ghost events0: seq<Event>, ghost fields0: map<Connection, ConnFields>,
                          ghost sn0: int, ghost found: seq<SubDevice>)
      requires did in boundDevices && sn == sn0 + |found|
      requires SentSince(did, conns0, events0, fields0, DeleteRequests(did, sn0, found))
      modifies this`sn, this`connections, this`events, connections.Values
      ensures forall c | c in connections.Values :: c in old(connections.Values) || fresh(c)
      ensures var more := found + if Lookup(cache, target).Some? then [Lookup(cache, target).value] else [];
              sn == sn0 + |more| && SentSince(did, conns0, events0, fields0, DeleteRequests(did, sn0, more))
    {
      var entry := Lookup(cache, target);
      if entry.Some? {
        DeleteRequestsSnoc(did, sn0, found, entry.value, sn);
        SendDeleteSince(did, entry.value, now, conns0, events0, fields0, DeleteRequests(did, sn0, found));
      }
    }

    /** Nothing sent yet: `SentSince` holds of the current state itself. */
    lemma SentSinceNothing(did: string, fields0: map<Connection, ConnFields>)
      requires did in boundDevices
      requires fields0 == map c | c in connections.Values :: c.Fields()
      ensures SentSince(did, connections, events, fields0, [])
    {
    }

    /** `SendDelete` as a step of the loop: the frames sent so far, then this one. */
    method SendDeleteSince(did: string, e: SubDevice, now: int, ghost conns0: map<string, Connection>,
                           ghost events0: seq<Event>, ghost fields0: map<Connection, ConnFields>,
                           ghost msgs: seq<Message>)
      requires did in boundDevices && SentSince(did, conns0, events0, fields0, msgs)
      modifies this`sn, this`connections, this`events, connections.Values
      ensures forall c | c in connections.Values :: c in old(connections.Values) || fresh(c)
      ensures sn == old(sn) + 1 && SentSince(did, conns0, events0, fields0, msgs + [DeleteRequest(did, old(sn), e)])
    {
      ghost var key := CustomKey(did);
      ghost var err := ErrorEvents(callbacks, NotConnectedMsg(Custom));
      label Before:
      SendDelete(did, e, now);
      if key !in conns0 {
        assert key !in old@Before(connections);
        RepeatedExtend(events0, err, |msgs|);
      } else if conns0[key] in fields0 && fields0[conns0[key]].socket == Open {
        assert old@Before(connections[key].socket) == Open;
      }
    }

    /** One pass of the loop of `deleteSubDevice` that finds its target: the
        delete frame for the cached entry, numbered with the current sequence
        number, which then advances. */
    method SendDelete(did: string, e: SubDevice, now: int)
      requires did in boundDevices
      modifies this`sn, this`connections, this`events, connections.Values
      ensures forall c | c in connections.Values :: c in old(connections.Values) || fresh(c)
      ensures sn == old(sn) + 1 && SentOnCustom(did, [DeleteRequest(did, old(sn), e)])
      ensures RetriedOnCustom(did, now)
    {
      var data := BuildDeleteFrame(sn, e.subDid);
      SendOnCustom(did, RawReq(did, data), now);
      // the frame already carries the number `_gloabSN++` wrote; sending does not read `sn`
      sn := sn + 1;
    }

    /** `_sendJson(device, P0_TYPE_CUSTOM, json)` for a bound device, the way
        the three sub-device operations send their frames. */
    method SendOnCustom(did: string, m: Message, now: int)
      requires did in boundDevices
      modifies this`connections, this`events, connections.Values
      ensures forall c | c in connections.Values :: c in old(connections.Values) || fresh(c)
      ensures SentOnCustom(did, [m])
      ensures RetriedOnCustom(did, now)
    {
      SendJson(boundDevices[did], Custom, m, now);
    }
  }
}
