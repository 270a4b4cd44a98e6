/**
 * The 0.3.0 SDK object and its WebSocket connections. The same codec and
 * bookkeeping as 0.4.0 in their earlier form: connections are registered
 * under the device's did and the data type, the subscription lists the dids
 * in stored order, the sub-device operations check that the custom
 * connection exists before they number a frame, a failed send is only
 * logged, and the inbound dispatcher knows the list reports only.
 *
 * Sockets are a state field; the messages handed to an open socket are
 * appended to `sent`; a `setTimeout` of a login is recorded by its delay in
 * `scheduledLogins`; callback invocations are appended to the gateway's
 * `events`.
 */
module GizwitsV3 {
  import opened Wrappers
  import opened Bytes
  import opened SubFrame
  import opened Inbound
  import opened Directory
  import opened Session

  /** `Connection` (0.3.0): one WebSocket of one data type and its subscribed dids `_subDids`. */
  class Connection {
    var subDids: seq<string>
    const dataType: DataType
    const url: string
    var loginFailedCount: nat
    var socket: SocketState
    var sent: seq<Message>
    var scheduledLogins: seq<nat>

    ghost predicate Valid()
      reads this
    {
      NoDuplicates(subDids)
    }

    constructor (wsInfo: string, dataType: DataType)
      ensures Valid()
      ensures this.dataType == dataType && url == WsUrl(wsInfo)
      ensures subDids == [] && loginFailedCount == 0 && socket == NoSocket && sent == [] && scheduledLogins == []
    {
      subDids := [];
      this.dataType := dataType;
      url := WsUrl(wsInfo);
      loginFailedCount := 0;
      socket := NoSocket;
      sent := [];
      scheduledLogins := [];
    }

    /** What a run of `_sendJson` calls did to this connection: the messages
        went out in order if the socket is open, and nothing else changed. */
    twostate predicate Delivered(msgs: seq<Message>)
      reads this
    {
      subDids == old(subDids) && loginFailedCount == old(loginFailedCount) && socket == old(socket)
      && scheduledLogins == old(scheduledLogins)
      && sent == old(sent) + if socket == Open then msgs else []
    }

    /** `_addSubscribeDid`. */
    method AddSubscribeDid(did: string)
      modifies this`subDids
      ensures old(Valid()) ==> Valid()
      ensures subDids == AddDid(old(subDids), did)
    {
      var found := Search(subDids, did);
      if found.None? {
        subDids := subDids + [did];
      }
      if NoDuplicates(old(subDids)) {
        AddDidSpec(old(subDids), did);
      }
    }

    /** `_removeSubDid`. */
    method RemoveSubDid(did: string)
      modifies this`subDids
      ensures old(Valid()) ==> Valid()
      ensures subDids == RemoveDid(old(subDids), did)
    {
      var found := Search(subDids, did);
      if found.Some? {
        var i := found.value;
        subDids := subDids[..i] + subDids[i + 1..];
      }
      if NoDuplicates(old(subDids)) {
        RemoveDidSpec(old(subDids), did);
      }
    }

    /** `_sendJson`: the message goes out only on an open socket, otherwise it is dropped. */
    method SendJson(m: Message)
      modifies this`sent
      ensures sent == old(sent) + if socket == Open then [m] else []
    {
      if socket == Open {
        sent := sent + [m];
      }
    }

    /** `_login`. */
    method Login()
      modifies this`sent
      ensures sent == old(sent) + if socket == Open then [LoginReq(P0Type(dataType))] else []
    {
      SendJson(LoginReq(P0Type(dataType)));
    }

    /** `_subscribeDevices`: one request listing the subscribed dids in stored order. */
    method SubscribeDevices()
      modifies this`sent
      ensures sent == old(sent) + if socket == Open then [SubscribeReq(subDids)] else []
    {
      var reqData: seq<string> := [];
      var i := 0;
      while i < |subDids|
        invariant 0 <= i <= |subDids|
        invariant reqData == subDids[..i]
      {
        reqData := reqData + [subDids[i]];
        i := i + 1;
      }
      assert reqData == subDids;
      SendJson(SubscribeReq(reqData));
    }

    /** `_connectWS`: a new socket replaces the old one. */
    method ConnectWS()
      modifies this`socket
      ensures socket == Connecting
    {
      socket := Connecting;
    }

    /** `_tryLoginAgain`: counts the rejection, then either schedules the next
        login after count × 5 s or, past three retries, closes the socket. */
    method TryLoginAgain()
      modifies this`loginFailedCount, this`socket, this`scheduledLogins
      ensures loginFailedCount == old(loginFailedCount) + 1
      ensures match RetryDecision(loginFailedCount)
              case GiveUp => socket == Closed && scheduledLogins == old(scheduledLogins)
              case RetryAfter(delay) => socket == old(socket) && scheduledLogins == old(scheduledLogins) + [delay]
    {
      loginFailedCount := loginFailedCount + 1;
      if loginFailedCount > MAX_LOGIN_RETRIES {
        socket := Closed;
        return;
      }
      var waitTime := loginFailedCount * RETRY_WAIT_TIME;
      scheduledLogins := scheduledLogins + [waitTime];
    }

    /** `_onWSOpen`: the socket is open, log in. */
    method OnOpen()
      modifies this`socket, this`sent
      ensures socket == Open
      ensures sent == old(sent) + [LoginReq(P0Type(dataType))]
    {
      socket := Open;
      Login();
    }

    /** The socket reports `onclose`: its `readyState` is now CLOSED. */
    method OnClose()
      modifies this`socket
      ensures socket == Closed
    {
      socket := Closed;
    }

    /** The `login_res` message: success resets the failure count and
        subscribes; a rejection goes to `_tryLoginAgain`. */
    method OnLoginRes(success: bool)
      modifies this`loginFailedCount, this`socket, this`scheduledLogins, this`sent
      ensures success ==> loginFailedCount == 0 && socket == old(socket) && scheduledLogins == old(scheduledLogins)
                          && sent == old(sent) + if socket == Open then [SubscribeReq(subDids)] else []
      ensures !success ==> sent == old(sent) && loginFailedCount == old(loginFailedCount) + 1
                           && match RetryDecision(loginFailedCount)
                              case GiveUp => socket == Closed && scheduledLogins == old(scheduledLogins)
                              case RetryAfter(delay) => socket == old(socket) && scheduledLogins == old(scheduledLogins) + [delay]
    {
      if success {
        loginFailedCount := 0;
        SubscribeDevices();
      } else {
        TryLoginAgain();
      }
    }

    /** The `subscribe_res` message, on the custom connection only:
        `onConnected` for each accepted did and, for each rejected did, its
        removal and an error, both lists walked from the front. */
    method OnSubscribeRes(successDids: seq<string>, failedDids: seq<string>, callbacks: Callbacks) returns (events: seq<Event>)
      modifies this`subDids
      ensures old(Valid()) ==> Valid()
      ensures dataType == Custom ==>
                subDids == RemoveAll(old(subDids), failedDids)
                && events == ConnectedEvents(callbacks, successDids) + FailureEvents(callbacks, failedDids)
      ensures dataType != Custom ==> subDids == old(subDids) && events == []
    {
      events := [];
      if dataType != Custom {
        return;
      }
      events := ConnectedLoop(successDids, callbacks);
      var failures := RemoveFailed(failedDids, callbacks);
      events := events + failures;
    }

    /** The rejected dids of `subscribe_res`, from the front: removal and error. */
    method RemoveFailed(failedDids: seq<string>, callbacks: Callbacks) returns (events: seq<Event>)
      modifies this`subDids
      ensures old(Valid()) ==> Valid()
      ensures subDids == RemoveAll(old(subDids), failedDids)
      ensures events == FailureEvents(callbacks, failedDids)
    {
      events := [];
      var j := 0;
      while j < |failedDids|
        invariant 0 <= j <= |failedDids|
        invariant old(Valid()) ==> Valid()
        invariant subDids == RemoveAll(old(subDids), failedDids[..j])
        invariant events == FailureEvents(callbacks, failedDids[..j])
      {
        assert failedDids[..j + 1] == failedDids[..j] + [failedDids[j]];
        RemoveAllStep(old(subDids), failedDids[..j], failedDids[j], callbacks);
        RemoveSubDid(failedDids[j]);
        events := events + ErrorEvents(callbacks, ConnectErrorMsg(failedDids[j]));
        j := j + 1;
      }
      assert failedDids[..j] == failedDids;
    }
  }

  /** The accepted dids of `subscribe_res`, from the front, each reported
      when `onConnected` is set. */
  method ConnectedLoop(successDids: seq<string>, callbacks: Callbacks) returns (events: seq<Event>)
    ensures events == ConnectedEvents(callbacks, successDids)
  {
    events := [];
    var i := 0;
    while i < |successDids|
      invariant 0 <= i <= |successDids|
      invariant events == ConnectedEvents(callbacks, successDids[..i])
    {
      if callbacks.onConnected {
        events := events + [Connected(successDids[i])];
      }
      i := i + 1;
    }
    assert successDids[..i] == successDids;
  }

  /** `_getConntionsKey` in 0.3.0: the device's did and the data type. */
  function Key(did: string, t: DataType): string
  {
    ConnectionKey(did, t)
  }

  /** Every did has its own two connections: no two (did, type) pairs share a key. */
  lemma KeysDistinct(a: string, t1: DataType, b: string, t2: DataType)
    requires a != b || t1 != t2
    ensures Key(a, t1) != Key(b, t2)
  {
    if Key(a, t1) == Key(b, t2) {
      ConnectionKeyInjective(a, t1, b, t2);
    }
  }

  /** The `s2c_raw` branch 0.3.0 takes once the action is located: only the
      list reports are handled, on the custom connection with
      `onUpdateSubDevices` set; every other action (or none) is forwarded. */
  function RouteV3(action: Option<Byte>, t: DataType, callbacks: Callbacks): Handling
  {
    if action == Some(ACTION_GET_SUBDEVICE_LIST_RESP) || action == Some(ACTION_REPORT_SUBDEVICE_LIST) then
      (if callbacks.onUpdateSubDevices && t == Custom then ListReport else Acknowledged)
    else Forward
  }

  /** A 0x94 list frame carrying a well-formed report, whatever its length,
      is routed to the cache refresh exactly when the custom connection has a
      listener, and the refreshed cache keys every listed did to the last
      record carrying it. */
  lemma ListFrameRefreshesCache(sn: int, action: Byte, gs: seq<Group>, t: DataType, callbacks: Callbacks, did: string)
    requires action == ACTION_GET_SUBDEVICE_LIST_RESP || action == ACTION_REPORT_SUBDEVICE_LIST
    requires GroupsOk(gs)
    ensures var loc := LocateScan(Wire(Business(CMD_BUSINESS_RESP_V3, sn, action, EncodeReport(gs))), CMD_BUSINESS_RESP_V3);
            RouteV3(loc.action, t, callbacks) == (if callbacks.onUpdateSubDevices && t == Custom then ListReport else Acknowledged)
            && DecodeReport(loc.payload) == Decoded(Entries(gs), true)
            && Lookup(PutAll([], DecodeReport(loc.payload).entries), did) == LastWithDid(Entries(gs), did)
  {
    ScanFindsBusinessAction(CMD_BUSINESS_RESP_V3, sn, action, EncodeReport(gs));
    ReportRoundTrip(gs);
    ReportCache(gs, did);
  }

  /** Every 0x94 frame with another action, the status report included, goes
      to the application as it came. */
  lemma OtherFramesForwarded(sn: int, action: Byte, payload: seq<Byte>, t: DataType, callbacks: Callbacks)
    requires action != ACTION_GET_SUBDEVICE_LIST_RESP && action != ACTION_REPORT_SUBDEVICE_LIST
    ensures RouteV3(LocateScan(Wire(Business(CMD_BUSINESS_RESP_V3, sn, action, payload)), CMD_BUSINESS_RESP_V3).action, t, callbacks)
            == Forward
  {
    ScanFindsBusinessAction(CMD_BUSINESS_RESP_V3, sn, action, payload);
  }

  /** On frames whose length fits one byte the corrected scan and the fixed
      offsets of 0.3.0 agree. */
  lemma ScanAgreesOnShortFrames(f: P0Frame)
    requires f.Business? ==> f.cmd == CMD_BUSINESS_RESP_V3
    requires f.Plain? ==> f.cmd != CMD_BUSINESS_RESP_V3
    requires |Body(f)| < 0x80
    ensures LocateScan(Wire(f), CMD_BUSINESS_RESP_V3) == LocateFixed(Wire(f))
  {
    FixedFindsShortFrames(f);
    if f.Business? {
      ScanFindsBusinessAction(CMD_BUSINESS_RESP_V3, f.sn, f.action, f.payload);
    } else {
      ScanFindsPlainAction(CMD_BUSINESS_RESP_V3, f.cmd, f.action, f.payload);
    }
  }

  /** `GizwitsWS` (0.3.0): the bound devices (given), the sub-device caches
      per parent did, the connection registry, the frame sequence number
      `_gloabSN`, and the application's callbacks. */
  class Gateway {
    var sn: int
    const boundDevices: map<string, Device>
    var subDevices: map<string, Cache>
    var connections: map<string, Connection>
    const callbacks: Callbacks
    var events: seq<Event>

    ghost predicate Valid()
      reads this
    {
      forall d | d in subDevices :: DistinctDids(subDevices[d])
    }

    constructor (boundDevices: map<string, Device>, callbacks: Callbacks)
      ensures Valid()
      ensures sn == 1 && this.boundDevices == boundDevices && this.callbacks == callbacks
      ensures subDevices == map[] && connections == map[] && events == []
      ensures Unaliased()
    {
      sn := 1;
      this.boundDevices := boundDevices;
      subDevices := map[];
      connections := map[];
      this.callbacks := callbacks;
      events := [];
    }

    /** `_sendError`. */
    method SendError(msg: string)
      modifies this`events
      ensures events == old(events) + ErrorEvents(callbacks, msg)
    {
      if callbacks.onError {
        events := events + [Error(msg)];
      }
    }

    /** The custom connection of `did`, when one is registered. */
    function CustomConn(did: string): set<Connection>
      reads this
    {
      if Key(did, Custom) in connections then {connections[Key(did, Custom)]} else {}
    }

    /** No connection object is registered under two keys: `_connect`
        registers each new connection under its own key only. */
    ghost predicate Unaliased()
      reads this
    {
      forall k, k' | k in connections && k' in connections && k != k' :: connections[k] != connections[k']
    }

    /** What `_connect(wsInfo, did, t)` did to the connection under
        `Key(did, t)`: a registered one (the same object) gained the did and,
        if its socket was open, re-sent its subscription, otherwise got a new
        socket; a missing one was created and registered, connecting, with
        the did as its only subscription. */
    twostate predicate Reconnected(wsInfo: string, did: string, t: DataType)
      reads this`connections, connections.Values`subDids, connections.Values`loginFailedCount,
            connections.Values`socket, connections.Values`sent, connections.Values`scheduledLogins
    {
      Key(did, t) in connections
      && var conn := connections[Key(did, t)];
         if Key(did, t) in old(connections) then
           conn == old(connections[Key(did, t)])
           && conn.subDids == AddDid(old(conn.subDids), did)
           && conn.loginFailedCount == old(conn.loginFailedCount)
           && conn.scheduledLogins == old(conn.scheduledLogins)
           && if old(conn.socket) == Open
              then conn.socket == Open && conn.sent == old(conn.sent) + [SubscribeReq(conn.subDids)]
              else conn.socket == Connecting && conn.sent == old(conn.sent)
         else
           fresh(conn) && conn.dataType == t && conn.url == WsUrl(wsInfo)
           && conn.subDids == [did] && conn.socket == Connecting
           && conn.loginFailedCount == 0 && conn.sent == [] && conn.scheduledLogins == []
    }

    /** `_connect`: finds or creates the connection of this type for the did
        and subscribes the did on it; a connection whose socket is not open
        gets a new socket (and is registered), an open one re-sends its
        subscription. */
    method ConnectOne(wsInfo: string, did: string, t: DataType)
      modifies this`connections, connections.Values
      ensures Reconnected(wsInfo, did, t)
      ensures did in connections[Key(did, t)].subDids
      ensures connections == old(connections)[Key(did, t) := connections[Key(did, t)]]
      ensures forall c | c in connections.Values :: c in old(connections.Values) || fresh(c)
      ensures forall c | c in old(connections.Values) && c != connections[Key(did, t)] :: unchanged(c)
      ensures old(Unaliased()) ==> Unaliased()
    {
      var key := Key(did, t);
      var conn: Connection;
      if key in connections {
        conn := connections[key];
      } else {
        conn := new Connection(wsInfo, t);
      }
      conn.AddSubscribeDid(did);
      if conn.socket != Open {
        conn.ConnectWS();
        connections := connections[key := conn];
      } else {
        conn.SubscribeDevices();
      }
    }

    /** `connect`: a bound device gets both its connections registered, with
        its did subscribed on each; the other registered connections stay.
        When no connection sat under two keys, each of the two went through
        `_connect` once: a new socket unless it was open, a re-sent
        subscription if it was. */
    method Connect(did: string)
      modifies this`connections, this`events, connections.Values
      ensures forall c | c in connections.Values :: c in old(connections.Values) || fresh(c)
      ensures did !in boundDevices ==>
                events == old(events) + ErrorEvents(callbacks, "Device is not bound.") && connections == old(connections)
      ensures did in boundDevices ==>
                events == old(events)
                && (forall t: DataType :: Key(did, t) in connections && did in connections[Key(did, t)].subDids)
                && (forall k :: k in connections <==> k in old(connections) || k == Key(did, AttrsV4) || k == Key(did, Custom))
                && (forall k | k in old(connections) :: k in connections && connections[k] == old(connections[k]))
                && forall c | c in old(connections.Values) && c != connections[Key(did, AttrsV4)]
                              && c != connections[Key(did, Custom)] :: unchanged(c)
      ensures did !in boundDevices ==> forall c | c in old(connections.Values) :: unchanged(c)
      ensures did in boundDevices && old(Unaliased()) ==>
                Reconnected(ConnInfo(boundDevices[did]), did, AttrsV4) && Reconnected(ConnInfo(boundDevices[did]), did, Custom)
      ensures old(Unaliased()) ==> Unaliased()
    {
      if did !in boundDevices {
        SendError("Device is not bound.");
        return;
      }
      ConnectDevice(ConnInfo(boundDevices[did]), did);
    }

    /** The two `_connect` calls of `connect`, one per data type. */
    method ConnectDevice(wsInfo: string, did: string)
      modifies this`connections, connections.Values
      ensures forall c | c in connections.Values :: c in old(connections.Values) || fresh(c)
      ensures forall t: DataType :: Key(did, t) in connections && did in connections[Key(did, t)].subDids
      ensures forall k :: k in connections <==> k in old(connections) || k == Key(did, AttrsV4) || k == Key(did, Custom)
      ensures forall k | k in old(connections) :: k in connections && connections[k] == old(connections[k])
      ensures forall c | c in old(connections.Values) && c != connections[Key(did, AttrsV4)]
                         && c != connections[Key(did, Custom)] :: unchanged(c)
      ensures old(Unaliased()) ==> Unaliased() && Reconnected(wsInfo, did, AttrsV4) && Reconnected(wsInfo, did, Custom)
    {
      KeysDistinct(did, AttrsV4, did, Custom);
      ConnectOne(wsInfo, did, AttrsV4);
      ghost var first := connections[Key(did, AttrsV4)];
      ghost var mid := connections;
      if old(Unaliased()) && Key(did, Custom) in old(connections) {
        assert old(connections[Key(did, Custom)]) in old(connections.Values);
        assert mid[Key(did, Custom)] == old(connections[Key(did, Custom)]) != first;
        assert unchanged(mid[Key(did, Custom)]);
      }
      ConnectOne(wsInfo, did, Custom);
      assert connections[Key(did, AttrsV4)] == first;
      if first != connections[Key(did, Custom)] {
        assert did in first.subDids;
      }
      forall t: DataType
        ensures Key(did, t) in connections && did in connections[Key(did, t)].subDids
      {
        if t == AttrsV4 {
          assert connections[Key(did, t)] == first;
        }
      }
      forall k | k in old(connections)
        ensures k in connections && connections[k] == old(connections[k])
      {
        assert mid[k] == old(connections[k]);
      }
    }

    /** `updateSubDevices`: after the checks (device bound, custom connection
        registered), a get-list frame numbered with the current sequence
        number, which then advances, is sent on the custom connection. */
    method UpdateSubDevices(did: string)
      modifies this`sn, this`events, CustomConn(did)
      ensures did !in boundDevices || Key(did, Custom) !in connections ==> sn == old(sn) && unchanged(CustomConn(did))
      ensures did !in boundDevices ==> events == old(events) + ErrorEvents(callbacks, "Device is not bound.")
      ensures did in boundDevices && Key(did, Custom) !in connections ==>
                events == old(events) + ErrorEvents(callbacks, NotConnectedMsg(Custom))
      ensures did in boundDevices && Key(did, Custom) in connections ==>
                sn == old(sn) + 1 && events == old(events)
                && connections[Key(did, Custom)].Delivered([ListRequest(did, old(sn))])
    {
      if did !in boundDevices {
        SendError("Device is not bound.");
        return;
      }
      var key := Key(did, Custom);
      if key !in connections {
        SendError(NotConnectedMsg(Custom));
        return;
      }
      var conn := connections[key];
      var data := BuildListFrame(sn);
      sn := sn + 1;
      conn.SendJson(RawReq(did, data));
    }

    /** `addSubDevice`: after the same checks, an add frame listing the
        candidates' MACs, numbered with the current sequence number, which
        then advances, is sent on the custom connection. */
    method AddSubDevice(did: string, cs: seq<Candidate>)
      requires AsciiMacs(cs) && 10 + |MacEntries(cs)| <= 128
      modifies this`sn, this`events, CustomConn(did)
      ensures did !in boundDevices || Key(did, Custom) !in connections ==> sn == old(sn) && unchanged(CustomConn(did))
      ensures did !in boundDevices ==> events == old(events) + ErrorEvents(callbacks, "Device is not bound.")
      ensures did in boundDevices && Key(did, Custom) !in connections ==>
                events == old(events) + ErrorEvents(callbacks, NotConnectedMsg(Custom))
      ensures did in boundDevices && Key(did, Custom) in connections ==>
                sn == old(sn) + 1 && events == old(events)
                && connections[Key(did, Custom)].Delivered([AddRequest(did, old(sn), cs)])
    {
      if did !in boundDevices {
        SendError("Device is not bound.");
        return;
      }
      var key := Key(did, Custom);
      if key !in connections {
        SendError(NotConnectedMsg(Custom));
        return;
      }
      var conn := connections[key];
      var data := BuildAddFrame(sn, cs);
      sn := sn + 1;
      conn.SendJson(RawReq(did, data));
    }

    /** `deleteSubDevice`: the checks in the order null targets, unbound
        device, no cache, no custom connection, each reported and sending
        nothing; then one delete frame per target found in the cache, each
        with the next sequence number. */
    method DeleteSubDevice(did: string, targets: Option<seq<string>>)
      modifies this`sn, this`events, CustomConn(did)
      ensures targets.None? || did !in boundDevices || did !in subDevices || Key(did, Custom) !in connections ==>
                sn == old(sn) && unchanged(CustomConn(did))
      ensures targets.None? ==> events == old(events) + ErrorEvents(callbacks, "Please special valid subDevices.")
      ensures targets.Some? && did !in boundDevices ==> events == old(events) + ErrorEvents(callbacks, "Device is not bound.")
      ensures targets.Some? && did in boundDevices && did !in subDevices ==>
                events == old(events) + ErrorEvents(callbacks, "Device do not have subDevices be cached.")
      ensures targets.Some? && did in boundDevices && did in subDevices && Key(did, Custom) !in connections ==>
                events == old(events) + ErrorEvents(callbacks, "Websocket is not connected.")
      ensures targets.Some? && did in boundDevices && did in subDevices && Key(did, Custom) in connections ==>
                var found := Found(subDevices[did], targets.value);
                sn == old(sn) + |found| && events == old(events)
                && connections[Key(did, Custom)].Delivered(DeleteRequests(did, old(sn), found))
    {
      if targets.None? {
        SendError("Please special valid subDevices.");
        return;
      }
      if did !in boundDevices {
        SendError("Device is not bound.");
        return;
      }
      if did !in subDevices {
        SendError("Device do not have subDevices be cached.");
        return;
      }
      var key := Key(did, Custom);
      if key !in connections {
        SendError("Websocket is not connected.");
        return;
      }
      SendDeletes(did, connections[key], subDevices[did], targets.value);
    }

    /** The loop of `deleteSubDevice` over the targets. */
    method SendDeletes(did: string, conn: Connection, cache: Cache, ts: seq<string>)
      modifies this`sn, conn`sent
      ensures sn == old(sn) + |Found(cache, ts)| && conn.Delivered(DeleteRequests(did, old(sn), Found(cache, ts)))
    {
      var i := 0;
      ghost var found: seq<SubDevice> := [];
      ghost var msgs: seq<Message> := [];
      while i < |ts|
        invariant 0 <= i <= |ts|
        invariant found == Found(cache, ts[..i])
        invariant sn == old(sn) + |found|
        invariant msgs == DeleteRequests(did, old(sn), found)
        invariant conn.Delivered(msgs)
      {
        FoundSnoc(cache, ts, i);
        var entry := Lookup(cache, ts[i]);
        if entry.Some? {
          DeleteRequestsSnoc(did, old(sn), found, entry.value, sn);
          var data := BuildDeleteFrame(sn, entry.value.subDid);
          msgs := msgs + [DeleteRequest(did, sn, entry.value)];
          sn := sn + 1;
          conn.SendJson(RawReq(did, data));
          found := found + [entry.value];
        }
        i := i + 1;
      }
      assert ts[..i] == ts;
    }

    /** `_processSubdevicesReport`: the parent's cache is replaced by the
        report's entries; `complete` is false where the source throws, and
        the entries read before stay. */
    method ProcessSubdevicesReport(did: string, payload: seq<Byte>) returns (complete: bool)
      modifies this`subDevices
      ensures old(Valid()) ==> Valid()
      ensures subDevices == old(subDevices)[did := PutAll([], DecodeReport(payload).entries)]
      ensures complete == DecodeReport(payload).complete
    {
      var cache;
      cache, complete := ReadReport(payload);
      subDevices := subDevices[did := cache];
    }

    /** The `s2c_raw` message on the connection under `key`: for a bound
        parent (the did cut to 22 characters), a list report refreshes the
        cache and hands the new list to `onUpdateSubDevices` unless the
        payload was cut short, and any other action is forwarded. The frame is
        located with the length-aware scan keyed on 0x94 (see `LocateFixed`
        for the fixed offsets 0.3.0 reads at). */
    method OnRaw(key: string, rawDid: string, raw: seq<Byte>)
      requires key in connections
      modifies this`subDevices, this`events
      ensures old(Valid()) ==> Valid()
      ensures TruncateDid(rawDid) !in boundDevices ==> subDevices == old(subDevices) && events == old(events)
      ensures var did := TruncateDid(rawDid);
              var loc := LocateScan(raw, CMD_BUSINESS_RESP_V3);
              did in boundDevices ==>
                match RouteV3(loc.action, connections[key].dataType, callbacks)
                case ListReport =>
                  subDevices == old(subDevices)[did := PutAll([], DecodeReport(loc.payload).entries)]
                  && events == old(events) + (if DecodeReport(loc.payload).complete then [SubDevicesUpdated(did, Infos(subDevices[did]))] else [])
                case Forward =>
                  subDevices == old(subDevices)
                  && events == old(events) + (if callbacks.onReceivedRaw then [ReceivedRaw(boundDevices[did].did, raw)] else [])
                case _ =>
                  subDevices == old(subDevices) && events == old(events)
    {
      var did := TruncateDid(rawDid);
      if did !in boundDevices {
        return;
      }
      var loc := LocateAction(raw, CMD_BUSINESS_RESP_V3);
      match RouteV3(loc.action, connections[key].dataType, callbacks)
      case ListReport =>
        var complete := ProcessSubdevicesReport(did, loc.payload);
        if complete {
          var list := CollectInfos(subDevices[did]);
          events := events + [SubDevicesUpdated(did, list)];
        }
      case Forward =>
        if callbacks.onReceivedRaw {
          events := events + [ReceivedRaw(boundDevices[did].did, raw)];
        }
      case _ =>
    }

    /** `_onWSOpen` on the connection under `key`: it logs in. */
    method OnWSOpen(key: string)
      requires key in connections
      modifies {connections[key]}`socket, {connections[key]}`sent
      ensures connections[key].socket == Open
      ensures connections[key].sent == old(connections[key].sent) + [LoginReq(P0Type(connections[key].dataType))]
      ensures connections[key].subDids == old(connections[key].subDids)
      ensures connections[key].loginFailedCount == old(connections[key].loginFailedCount)
      ensures connections[key].scheduledLogins == old(connections[key].scheduledLogins)
    {
      connections[key].OnOpen();
    }

    /** `_onWSClose` on the connection under `key`: an error for the application. */
    method OnWSClose(key: string)
      requires key in connections
      modifies this`events, {connections[key]}`socket
      ensures connections[key].socket == Closed
      ensures var conn := connections[key];
              conn.subDids == old(conn.subDids) && conn.sent == old(conn.sent)
              && conn.loginFailedCount == old(conn.loginFailedCount) && conn.scheduledLogins == old(conn.scheduledLogins)
      ensures events == old(events) + ErrorEvents(callbacks, "Websocket Connect failed, please try again after a moment.")
    {
      connections[key].OnClose();
      SendError("Websocket Connect failed, please try again after a moment.");
    }

    /** `_onWSError`. */
    method OnWSError()
      modifies this`events
      ensures events == old(events) + ErrorEvents(callbacks, "Websocket on error")
    {
      SendError("Websocket on error");
    }

    /** The `subscribe_res` message on the connection under `key`: on the
        custom connection the rejected dids are no longer subscribed and the
        others stay. */
    method OnSubscribeRes(key: string, successDids: seq<string>, failedDids: seq<string>)
      requires key in connections
      modifies this`events, {connections[key]}`subDids
      ensures old(connections[key].Valid()) ==> connections[key].Valid()
      ensures var conn := connections[key];
              conn.socket == old(conn.socket) && conn.sent == old(conn.sent)
              && conn.loginFailedCount == old(conn.loginFailedCount) && conn.scheduledLogins == old(conn.scheduledLogins)
      ensures var conn := connections[key];
              conn.dataType == Custom ==>
                conn.subDids == RemoveAll(old(conn.subDids), failedDids)
                && events == old(events) + ConnectedEvents(callbacks, successDids) + FailureEvents(callbacks, failedDids)
      ensures var conn := connections[key];
              conn.dataType == Custom && old(conn.Valid()) ==>
                forall d :: d in conn.subDids <==> d in old(conn.subDids) && d !in failedDids
      ensures var conn := connections[key];
              conn.dataType != Custom ==> conn.subDids == old(conn.subDids) && events == old(events)
    {
      var conn := connections[key];
      ghost var before := conn.subDids;
      var emitted := conn.OnSubscribeRes(successDids, failedDids, callbacks);
      events := events + emitted;
      if conn.dataType == Custom && NoDuplicates(before) {
        RemoveAllSpec(before, failedDids);
      }
    }

    /** The `s2c_invalid_msg` message on the connection under `key`: code 1009
        (not logged in) retries the login, any other code is reported. */
    method OnInvalidMsg(key: string, errorCode: int, msg: string)
      requires key in connections
      modifies this`events, {connections[key]}`loginFailedCount, {connections[key]}`socket, {connections[key]}`scheduledLogins
      ensures var conn := connections[key];
              errorCode == ERROR_CODE_RELOGIN ==>
                events == old(events) && conn.loginFailedCount == old(conn.loginFailedCount) + 1
                && conn.subDids == old(conn.subDids) && conn.sent == old(conn.sent)
                && match RetryDecision(conn.loginFailedCount)
                   case GiveUp => conn.socket == Closed && conn.scheduledLogins == old(conn.scheduledLogins)
                   case RetryAfter(delay) => conn.socket == old(conn.socket) && conn.scheduledLogins == old(conn.scheduledLogins) + [delay]
      ensures var conn := connections[key];
              errorCode != ERROR_CODE_RELOGIN ==>
                events == old(events) + ErrorEvents(callbacks, InvalidMsgText(errorCode, msg)) && unchanged(conn)
    {
      if errorCode == ERROR_CODE_RELOGIN {
        connections[key].TryLoginAgain();
      } else {
        SendError(InvalidMsgText(errorCode, msg));
      }
    }
  }
}
