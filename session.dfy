/**
 * The bookkeeping both SDK versions keep around their WebSocket connections:
 * the list of subscribed dids, the login retry policy, the data types and the
 * keys under which connections are registered, and the messages and callback
 * invocations the SDK produces (JSON payloads abstracted to datatypes).
 */
module Session {
  import opened Wrappers
  import opened Bytes
  import opened Directory
  import opened SubFrame
  import Inbound

  /** `RETRY_WAIT_TIME`: the login back-off step and the reconnect cooldown, in ms. */
  const RETRY_WAIT_TIME: nat := 5000
  /** `RETRY_SEND_TIME`: the delay of the login after a send-triggered reconnect, in ms. */
  const RETRY_SEND_TIME: nat := 2000
  /** Rejected logins retried before the socket is closed. */
  const MAX_LOGIN_RETRIES: nat := 3
  /** The `s2c_invalid_msg` code that asks the client to log in again. */
  const ERROR_CODE_RELOGIN: int := 1009

  /** `P0_TYPE_ATTRS_V4` and `P0_TYPE_CUSTOM`: every device gets one connection of each. */
  datatype DataType = AttrsV4 | Custom

  function P0Type(t: DataType): string
  {
    match t
    case AttrsV4 => "attrs_v4"
    case Custom => "custom"
  }

  /** A bound device as the connection code uses it; `wssPort == 0` stands for an absent (falsy) `wss_port`. */
  datatype Device = Device(did: string, host: string, wsPort: nat, wssPort: nat)

  /** The state of a connection's `_websocket`: none yet, or its `readyState`. */
  datatype SocketState = NoSocket | Connecting | Open | Closed

  /** The JSON requests sent over a socket. */
  datatype Message =
    | LoginReq(p0Type: string)
    | SubscribeReq(dids: seq<string>)
    | RawReq(did: string, raw: seq<Byte>)

  /** What a sub-device list notification reports for each cached entry. */
  datatype SubDeviceInfo = SubDeviceInfo(did: string, mac: string, isOnline: bool, productKey: string)

  /** Invocations of the application's callbacks. */
  datatype Event =
    | Error(msg: string)
    | Connected(did: string)
    | ReceivedRaw(did: string, raw: seq<Byte>)
    | SubDevicesUpdated(did: string, subDevices: seq<SubDeviceInfo>)

  /** Which callbacks the application has installed. */
  datatype Callbacks = Callbacks(onError: bool, onConnected: bool, onReceivedRaw: bool, onUpdateSubDevices: bool)

  /** `_sendError`: an error reaches the application only when `onError` is set. */
  function ErrorEvents(callbacks: Callbacks, msg: string): seq<Event>
  {
    if callbacks.onError then [Error(msg)] else []
  }

  /** The record `_notifySubdevices` builds for one cached entry. */
  function InfoOf(e: SubDevice): SubDeviceInfo
  {
    SubDeviceInfo(e.did, e.mac, e.isOnline, e.productKey)
  }

  /** The list handed to `onUpdateSubDevices`: one record per cached entry, in key order. */
  function Infos(c: Cache): seq<SubDeviceInfo>
  {
    seq(|c|, i requires 0 <= i < |c| => InfoOf(c[i]))
  }

  /** The list of a cache with distinct keys lists its keys in cache order, and
      each record is exactly what a lookup of its did finds in the cache; every
      cached entry is listed. */
  lemma InfosSpec(c: Cache)
    requires DistinctDids(c)
    ensures |Infos(c)| == |c|
    ensures forall i :: 0 <= i < |c| ==> Infos(c)[i].did == Dids(c)[i]
    ensures forall x :: x in Infos(c) ==> Lookup(c, x.did).Some? && x == InfoOf(Lookup(c, x.did).value)
    ensures forall e :: e in c ==> InfoOf(e) in Infos(c)
  {
    forall x | x in Infos(c)
      ensures Lookup(c, x.did).Some? && x == InfoOf(Lookup(c, x.did).value)
    {
      var i :| 0 <= i < |c| && Infos(c)[i] == x;
      LookupAt(c, i);
    }
    forall e | e in c
      ensures InfoOf(e) in Infos(c)
    {
      var i :| 0 <= i < |c| && c[i] == e;
      assert Infos(c)[i] == InfoOf(e);
    }
  }

  // ----- the subscribed-did list -----

  predicate NoDuplicates(s: seq<string>)
  {
    forall i, j :: 0 <= i < j < |s| ==> s[i] != s[j]
  }

  /** The first position of `x` in `s`. */
  function IndexOf(s: seq<string>, x: string): (r: Option<nat>)
    ensures r.Some? ==> r.value < |s| && s[r.value] == x && forall k :: 0 <= k < r.value ==> s[k] != x
    ensures r.None? <==> x !in s
  {
    if s == [] then None
    else if s[0] == x then Some(0)
    else match IndexOf(s[1..], x)
      case None => None
      case Some(k) => Some(k + 1)
  }

  /** `_addSubscribeDid`: appends the did unless it is already listed. */
  function AddDid(s: seq<string>, did: string): seq<string>
  {
    if did in s then s else s + [did]
  }

  /** `_removeSubscribeDid` / `_removeSubDid`: splices out the first occurrence. */
  function RemoveDid(s: seq<string>, did: string): seq<string>
  {
    match IndexOf(s, did)
    case None => s
    case Some(i) => s[..i] + s[i + 1..]
  }

  /** The list without any occurrence of `x`, others in order. */
  function Without(s: seq<string>, x: string): seq<string>
  {
    if s == [] then [] else (if s[0] == x then [] else [s[0]]) + Without(s[1..], x)
  }

  function Reverse(s: seq<string>): (r: seq<string>)
    ensures |r| == |s|
  {
    if s == [] then [] else Reverse(s[1..]) + [s[0]]
  }

  /** Adding leaves the did listed, keeps the list free of duplicates, keeps the
      earlier dids where they were, and is idempotent. */
  lemma AddDidSpec(s: seq<string>, did: string)
    requires NoDuplicates(s)
    ensures did in AddDid(s, did)
    ensures NoDuplicates(AddDid(s, did))
    ensures AddDid(AddDid(s, did), did) == AddDid(s, did)
    ensures AddDid(s, did)[..|s|] == s
    ensures forall x :: x in AddDid(s, did) <==> x in s || x == did
  {
  }

  /** On a duplicate-free list, removing deletes the did, leaves the others in
      their order (the list filtered), and does nothing when the did is absent. */
  lemma RemoveDidSpec(s: seq<string>, did: string)
    requires NoDuplicates(s)
    ensures RemoveDid(s, did) == Without(s, did)
    ensures did !in RemoveDid(s, did)
    ensures forall x :: x in RemoveDid(s, did) <==> x in s && x != did
    ensures NoDuplicates(RemoveDid(s, did))
    ensures did !in s ==> RemoveDid(s, did) == s
  {
    RemoveIsWithout(s, did);
    WithoutContents(s, did);
  }

  /** Splicing out the first occurrence of a did that occurs at most once is filtering it out. */
  lemma RemoveIsWithout(s: seq<string>, did: string)
    requires NoDuplicates(s)
    ensures RemoveDid(s, did) == Without(s, did)
  {
    match IndexOf(s, did)
    case None =>
      WithoutAbsent(s, did);
    case Some(i) =>
      var before := s[..i];
      forall k | 0 <= k < |before|
        ensures before[k] != did
      {
        assert before[k] == s[k];
      }
      NotAfter(s, i);
      SpliceIsWithout(s, i);
  }

  /** In a duplicate-free list an element does not occur again later. */
  lemma NotAfter(s: seq<string>, i: nat)
    requires NoDuplicates(s) && i < |s|
    ensures s[i] !in s[i + 1..]
  {
    var after := s[i + 1..];
    forall k | 0 <= k < |after|
      ensures after[k] != s[i]
    {
      assert after[k] == s[i + 1 + k];
    }
  }

  /** Splicing out the only occurrence of an element filters it out. */
  lemma SpliceIsWithout(s: seq<string>, i: nat)
    requires i < |s| && s[i] !in s[..i] && s[i] !in s[i + 1..]
    ensures s[..i] + s[i + 1..] == Without(s, s[i])
  {
    var x, before, after := s[i], s[..i], s[i + 1..];
    WithoutSplit(s, x, i);
    WithoutAbsent(before, x);
    WithoutAbsent(after, x);
    assert Without([x], x) == [];
    assert before + [] + after == before + after;
  }

  /** Filtering keeps exactly the other elements, without creating duplicates. */
  lemma {:induction false} WithoutContents(s: seq<string>, x: string)
    ensures forall y :: y in Without(s, x) <==> y in s && y != x
    ensures NoDuplicates(s) ==> NoDuplicates(Without(s, x))
  {
    if s != [] {
      WithoutContents(s[1..], x);
      assert s == [s[0]] + s[1..];
      if s[0] != x && NoDuplicates(s) {
        assert s[0] !in s[1..];
        ConsNoDuplicates(s[0], Without(s[1..], x));
      }
    }
  }

  lemma ConsNoDuplicates(a: string, t: seq<string>)
    requires a !in t && NoDuplicates(t)
    ensures NoDuplicates([a] + t)
  {
    forall i, j | 0 <= i < j < |[a] + t|
      ensures ([a] + t)[i] != ([a] + t)[j]
    {
      if i > 0 {
        assert ([a] + t)[i] == t[i - 1];
      }
      assert ([a] + t)[j] == t[j - 1];
    }
  }

  lemma {:induction false} WithoutAbsent(s: seq<string>, x: string)
    requires x !in s
    ensures Without(s, x) == s
  {
    if s != [] {
      WithoutAbsent(s[1..], x);
      assert [s[0]] + s[1..] == s;
    }
  }

  lemma {:induction false} WithoutSplit(s: seq<string>, x: string, i: nat)
    requires i < |s|
    ensures Without(s, x) == Without(s[..i], x) + Without([s[i]], x) + Without(s[i + 1..], x)
  {
    if i == 0 {
      assert s[..0] == [];
      assert Without([s[0]], x) == (if s[0] == x then [] else [s[0]]) + Without([], x);
    } else {
      WithoutSplit(s[1..], x, i - 1);
      assert s[1..][..i - 1] == s[..i][1..];
      assert s[1..][i - 1] == s[i];
      assert s[1..][i..] == s[i + 1..];
      assert s[..i][0] == s[0];
    }
  }

  /** Reversal lists the same dids back to front. */
  lemma {:induction false} ReverseSpec(s: seq<string>)
    ensures forall i :: 0 <= i < |s| ==> Reverse(s)[i] == s[|s| - 1 - i]
  {
    if s != [] {
      ReverseSpec(s[1..]);
    }
  }

  /** The search loop of `_addSubscribeDid` and `_removeSubscribeDid`. */
  method Search(s: seq<string>, x: string) returns (r: Option<nat>)
    ensures r == IndexOf(s, x)
  {
    var i := 0;
    while i < |s|
      invariant 0 <= i <= |s|
      invariant forall k :: 0 <= k < i ==> s[k] != x
    {
      if s[i] == x {
        IndexOfFirst(s, x, i);
        return Some(i);
      }
      i := i + 1;
    }
    return None;
  }

  lemma IndexOfFirst(s: seq<string>, x: string, i: nat)
    requires i < |s| && s[i] == x && forall k :: 0 <= k < i ==> s[k] != x
    ensures IndexOf(s, x) == Some(i)
  {
    var r := IndexOf(s, x);
    assert r.Some?;
    if r.value < i {
    } else if r.value > i {
    }
  }

  // ----- login retry -----

  /** What `_tryLoginAgain` does after the failure count has been raised to `count`. */
  datatype RetryStep = RetryAfter(delay: nat) | GiveUp

  function RetryDecision(count: nat): RetryStep
  {
    if count > MAX_LOGIN_RETRIES then GiveUp else RetryAfter(count * RETRY_WAIT_TIME)
  }

  /** The decisions taken on `n` rejected logins in a row, from failure count `count`. */
  function RejectionRun(count: nat, n: nat): (r: seq<RetryStep>)
    ensures |r| == n
    decreases n
  {
    if n == 0 then [] else [RetryDecision(count + 1)] + RejectionRun(count + 1, n - 1)
  }

  /** From a fresh count (after a successful login), rejections are retried
      after 5, 10 and 15 seconds, and every further rejection closes the socket. */
  lemma {:induction false} RejectionRunSchedule(count: nat, n: nat)
    ensures forall i :: 0 <= i < n ==>
              RejectionRun(count, n)[i] == if count + i + 1 <= MAX_LOGIN_RETRIES
                                          then RetryAfter((count + i + 1) * RETRY_WAIT_TIME) else GiveUp
    decreases n
  {
    if n > 0 {
      RejectionRunSchedule(count + 1, n - 1);
      forall i | 0 <= i < n
        ensures RejectionRun(count, n)[i] == if count + i + 1 <= MAX_LOGIN_RETRIES
                                            then RetryAfter((count + i + 1) * RETRY_WAIT_TIME) else GiveUp
      {
        if i > 0 {
          assert RejectionRun(count, n)[i] == RejectionRun(count + 1, n - 1)[i - 1];
        }
      }
    }
  }

  // ----- endpoints and connection keys -----

  function DigitChar(d: nat): char
    requires d < 10
  {
    ('0' as int + d) as char
  }

  /** `n + ''`: the decimal rendering of a port number. */
  function NatToString(n: nat): (s: string)
    ensures |s| >= 1 && forall i :: 0 <= i < |s| ==> '0' <= s[i] <= '9'
    decreases n
  {
    if n < 10 then [DigitChar(n)] else NatToString(n / 10) + [DigitChar(n % 10)]
  }

  /** The number a string of decimal digits denotes. */
  function DecimalValue(s: string): nat
    requires forall i :: 0 <= i < |s| ==> '0' <= s[i] <= '9'
  {
    if s == [] then 0 else DecimalValue(s[..|s| - 1]) * 10 + (s[|s| - 1] as int - '0' as int)
  }

  /** The rendering denotes the number rendered, so distinct ports give distinct strings. */
  lemma {:induction false} NatToStringValue(n: nat)
    ensures DecimalValue(NatToString(n)) == n
    decreases n
  {
    if n >= 10 {
      NatToStringValue(n / 10);
      var s := NatToString(n);
      assert s[..|s| - 1] == NatToString(n / 10);
    }
  }

  /** `_getWebsocketConnInfo`: `wss://host:wss_port` when `wss_port` is set, else `ws://host:ws_port`. */
  function ConnInfo(d: Device): string
  {
    if d.wssPort != 0 then "wss://" + d.host + ":" + NatToString(d.wssPort)
    else "ws://" + d.host + ":" + NatToString(d.wsPort)
  }

  /** The endpoint names the secure port exactly when there is one, and its
      port field reads back as that port. */
  lemma ConnInfoPort(d: Device)
    ensures var scheme := if d.wssPort != 0 then "wss://" else "ws://";
            var port := if d.wssPort != 0 then d.wssPort else d.wsPort;
            var head := scheme + d.host + ":";
            |ConnInfo(d)| > |head| && ConnInfo(d)[..|head|] == head
            && DecimalValue(ConnInfo(d)[|head|..]) == port
  {
    var port := if d.wssPort != 0 then d.wssPort else d.wsPort;
    var head := (if d.wssPort != 0 then "wss://" else "ws://") + d.host + ":";
    assert ConnInfo(d) == head + NatToString(port);
    assert ConnInfo(d)[|head|..] == NatToString(port);
    NatToStringValue(port);
  }

  /** The WebSocket URL of a connection (`"{0}/ws/app/v1".format(wsInfo)`). */
  function WsUrl(wsInfo: string): string
  {
    wsInfo + "/ws/app/v1"
  }

  /** `_getConntionsKey`: the endpoint (0.4.0) or the did (0.3.0), "+", and the data type. */
  function ConnectionKey(prefix: string, t: DataType): string
  {
    prefix + "+" + P0Type(t)
  }

  /** A key names one prefix and one data type: the two connections of a
      device never share a registry slot, and neither do different prefixes. */
  lemma ConnectionKeyInjective(a: string, t1: DataType, b: string, t2: DataType)
    requires ConnectionKey(a, t1) == ConnectionKey(b, t2)
    ensures a == b && t1 == t2
  {
    var k := ConnectionKey(a, t1);
    assert k[|k| - 1] == P0Type(t1)[|P0Type(t1)| - 1];
    assert k[|k| - 1] == P0Type(t2)[|P0Type(t2)| - 1];
    assert k[..|a|] == a;
    assert k[..|b|] == b;
  }

  // ----- subscription results -----

  /** `"connect error with did: " + did + ", please try again."` */
  function ConnectErrorMsg(did: string): string
  {
    "connect error with did: " + did + ", please try again."
  }

  /** `onConnected` once per accepted did, in the order given. */
  function ConnectedEvents(callbacks: Callbacks, dids: seq<string>): seq<Event>
  {
    if callbacks.onConnected then seq(|dids|, i requires 0 <= i < |dids| => Connected(dids[i])) else []
  }

  /** The events of a list are those of its parts, in order, and an event is
      among them exactly when it is `onConnected` for one of the dids and the
      callback is set. */
  lemma ConnectedEventsSpec(callbacks: Callbacks, a: seq<string>, b: seq<string>)
    ensures ConnectedEvents(callbacks, a + b) == ConnectedEvents(callbacks, a) + ConnectedEvents(callbacks, b)
    ensures forall e :: e in ConnectedEvents(callbacks, a) <==> callbacks.onConnected && e.Connected? && e.did in a
  {
    if callbacks.onConnected {
      var r := ConnectedEvents(callbacks, a);
      forall e | e in r
        ensures e.Connected? && e.did in a
      {
        var i :| 0 <= i < |r| && r[i] == e;
      }
      forall e: Event | e.Connected? && e.did in a
        ensures e in r
      {
        var i :| 0 <= i < |a| && a[i] == e.did;
        assert r[i] == e;
      }
    }
  }

  /** Removes the rejected dids one after the other, in the order given. */
  function RemoveAll(s: seq<string>, ds: seq<string>): seq<string>
    decreases |ds|
  {
    if ds == [] then s else RemoveDid(RemoveAll(s, ds[..|ds| - 1]), ds[|ds| - 1])
  }

  /** One error per rejected did, in the order given. */
  function FailureEvents(callbacks: Callbacks, ds: seq<string>): seq<Event>
    decreases |ds|
  {
    if ds == [] then [] else FailureEvents(callbacks, ds[..|ds| - 1]) + ErrorEvents(callbacks, ConnectErrorMsg(ds[|ds| - 1]))
  }

  /** With `onError` set, every rejected did is reported. */
  lemma {:induction false} FailureEventsReport(callbacks: Callbacks, ds: seq<string>, d: string)
    requires callbacks.onError && d in ds
    ensures Error(ConnectErrorMsg(d)) in FailureEvents(callbacks, ds)
    decreases |ds|
  {
    var init := ds[..|ds| - 1];
    if ds[|ds| - 1] != d {
      var i :| 0 <= i < |ds| && ds[i] == d;
      assert init[i] == d;
      FailureEventsReport(callbacks, init, d);
    }
  }

  /** After the rejected dids are removed, exactly the others stay subscribed,
      still without duplicates. */
  lemma {:induction false} RemoveAllSpec(s: seq<string>, ds: seq<string>)
    requires NoDuplicates(s)
    ensures NoDuplicates(RemoveAll(s, ds))
    ensures forall x :: x in RemoveAll(s, ds) <==> x in s && x !in ds
    decreases |ds|
  {
    if ds != [] {
      var init := ds[..|ds| - 1];
      RemoveAllSpec(s, init);
      RemoveDidSpec(RemoveAll(s, init), ds[|ds| - 1]);
      assert ds == init + [ds[|ds| - 1]];
    }
  }

  lemma RemoveAllStep(s: seq<string>, ds: seq<string>, d: string, callbacks: Callbacks)
    ensures RemoveAll(s, ds + [d]) == RemoveDid(RemoveAll(s, ds), d)
    ensures FailureEvents(callbacks, ds + [d]) == FailureEvents(callbacks, ds) + ErrorEvents(callbacks, ConnectErrorMsg(d))
  {
    assert (ds + [d])[..|ds|] == ds;
  }

  lemma ReverseStep(s: seq<string>, i: nat)
    requires 0 < i <= |s|
    ensures Reverse(s[i - 1..]) == Reverse(s[i..]) + [s[i - 1]]
  {
    assert s[i - 1..][1..] == s[i..];
  }

  // ----- the send-failure reconnect cooldown (0.4.0) -----

  /** `_sendJson` of the gateway reconnects after a failed send only when the
      last reconnect of that connection is more than `RETRY_WAIT_TIME` ago. */
  predicate CooldownExpired(now: int, lastConnect: int)
  {
    now - lastConnect > RETRY_WAIT_TIME
  }

  /** The reconnect times chosen for failed sends at `times`, starting from the
      last reconnect time `last`. */
  function Reconnects(last: int, times: seq<int>): seq<int>
    decreases |times|
  {
    if times == [] then []
    else if CooldownExpired(times[0], last) then [times[0]] + Reconnects(times[0], times[1..])
    else Reconnects(last, times[1..])
  }

  /** Reconnects triggered by failed sends are spaced more than `RETRY_WAIT_TIME`
      apart, the first one more than that after `last`. */
  lemma {:induction false} ReconnectsSpaced(last: int, times: seq<int>)
    ensures |Reconnects(last, times)| > 0 ==> last + RETRY_WAIT_TIME < Reconnects(last, times)[0]
    ensures forall i :: 0 <= i < |Reconnects(last, times)| - 1 ==>
              Reconnects(last, times)[i] + RETRY_WAIT_TIME < Reconnects(last, times)[i + 1]
    decreases |times|
  {
    if times != [] {
      if CooldownExpired(times[0], last) {
        ReconnectsSpaced(times[0], times[1..]);
        var r, rest := Reconnects(last, times), Reconnects(times[0], times[1..]);
        assert r == [times[0]] + rest;
        forall i | 0 <= i < |r| - 1
          ensures r[i] + RETRY_WAIT_TIME < r[i + 1]
        {
          assert r[i + 1] == rest[i];
          if i > 0 {
            assert r[i] == rest[i - 1];
          }
        }
      } else {
        ReconnectsSpaced(last, times[1..]);
      }
    }
  }

  /** Which branch of the inbound dispatcher a located action takes. */
  datatype Handling =
    | OnlineStatus  // action 0x10: patch one online flag, then notify
    | ListReport    // actions 0x5B / 0x5C: replace the cache, then notify
    | Acknowledged  // 0x57 / 0x59 in 0.4.0, or a list report nobody listens to: logged or dropped
    | Forward       // anything else: the raw frame goes to `onReceivedRaw`

  // ----- the requests the sub-device operations send -----

  /** `"Websocket of " + dataType + " is not connected."` */
  function NotConnectedMsg(t: DataType): string
  {
    "Websocket of " + P0Type(t) + " is not connected."
  }

  /** `updateSubDevices`: the get-list frame, as a `c2s_raw` request for the parent. */
  function ListRequest(did: string, sn: int): Message
  {
    RawReq(did, Frame(sn, ACTION_GET_SUBDEVICE_LIST, []))
  }

  /** `addSubDevice`: the add frame with the candidates' MACs. */
  function AddRequest(did: string, sn: int, cs: seq<Candidate>): Message
    requires AsciiMacs(cs)
  {
    RawReq(did, Frame(sn, ACTION_ADD_SUBDEVICE, AddPayload(cs)))
  }

  /** The cached entries `deleteSubDevice` finds for the targets, in target
      order; a target whose did is not cached is skipped. */
  function Found(c: Cache, targets: seq<string>): seq<SubDevice>
    decreases |targets|
  {
    if targets == [] then []
    else
      var last := targets[|targets| - 1];
      Found(c, targets[..|targets| - 1]) + match Lookup(c, last) case None => [] case Some(e) => [e]
  }

  /** `deleteSubDevice`: the delete frame for one cached entry, its `subDid` as BE32 payload. */
  function DeleteRequest(did: string, sn: int, e: SubDevice): Message
  {
    RawReq(did, Frame(sn, ACTION_DELETE_SUBDEVICE, Be32(e.subDid)))
  }

  /** One delete frame per found entry, in order, with consecutive sequence numbers from `sn`. */
  function DeleteRequests(did: string, sn: int, found: seq<SubDevice>): (r: seq<Message>)
    ensures |r| == |found|
  {
    seq(|found|, k requires 0 <= k < |found| => DeleteRequest(did, sn + k, found[k]))
  }

  /** One delete request read back as a business frame: action 0x58, the
      sequence number and the BE32 `subDid` of the entry, both modulo 2^32. */
  lemma DeleteRequestDecode(did: string, n: int, e: SubDevice)
    ensures var r := DeleteRequest(did, n, e);
            var loc := Inbound.LocateScan(r.raw, CMD_TRANS_BUSINESS);
            r.RawReq? && r.did == did
            && loc.action == Some(ACTION_DELETE_SUBDEVICE) && loc.payload == Be32(e.subDid)
            && Inbound.SequenceNumber(r.raw, CMD_TRANS_BUSINESS) == Some(n % TWO_32)
  {
    var payload := Be32(e.subDid);
    Inbound.ScanFindsBusinessAction(CMD_TRANS_BUSINESS, n, ACTION_DELETE_SUBDEVICE, payload);
    Inbound.ScanFindsSequenceNumber(CMD_TRANS_BUSINESS, n, ACTION_DELETE_SUBDEVICE, payload);
  }

  /** Request `k` goes to the parent; read back as a business frame it
      carries action 0x58, sequence number `sn + k` (modulo 2^32) and the
      BE32 `subDid` of the `k`-th found entry (modulo 2^32). */
  lemma DeleteRequestsDecode(did: string, sn: int, found: seq<SubDevice>, k: nat)
    requires k < |found|
    ensures var r := DeleteRequests(did, sn, found)[k];
            var loc := Inbound.LocateScan(r.raw, CMD_TRANS_BUSINESS);
            r.RawReq? && r.did == did
            && loc.action == Some(ACTION_DELETE_SUBDEVICE)
            && |loc.payload| == 4 && FromBe32(loc.payload) == found[k].subDid % TWO_32
            && Inbound.SequenceNumber(r.raw, CMD_TRANS_BUSINESS) == Some((sn + k) % TWO_32)
  {
    var e := found[k];
    assert DeleteRequests(did, sn, found)[k] == DeleteRequest(did, sn + k, e);
    DeleteRequestDecode(did, sn + k, e);
    Be32RoundTrip(e.subDid);
  }

  /** Each found entry is the cached entry of one of the targets, and there
      are no more found entries than targets. */
  lemma {:induction false} FoundEntries(c: Cache, targets: seq<string>)
    ensures |Found(c, targets)| <= |targets|
    ensures forall e :: e in Found(c, targets) ==> e in c && exists i :: 0 <= i < |targets| && Lookup(c, targets[i]) == Some(e)
    decreases |targets|
  {
    if targets != [] {
      var init := targets[..|targets| - 1];
      var last := targets[|targets| - 1];
      FoundEntries(c, init);
      LookupSpec(c, last);
      forall e | e in Found(c, targets)
        ensures e in c && exists i :: 0 <= i < |targets| && Lookup(c, targets[i]) == Some(e)
      {
        if e in Found(c, init) {
          var i :| 0 <= i < |init| && Lookup(c, init[i]) == Some(e);
          assert targets[i] == init[i];
        } else {
          assert Lookup(c, targets[|targets| - 1]) == Some(e);
        }
      }
    }
  }

  /** When every target is cached, each yields its entry, in target order. */
  lemma {:induction false} FoundAll(c: Cache, targets: seq<string>)
    requires forall i :: 0 <= i < |targets| ==> Lookup(c, targets[i]).Some?
    ensures |Found(c, targets)| == |targets|
    ensures forall i :: 0 <= i < |targets| ==> Some(Found(c, targets)[i]) == Lookup(c, targets[i])
    decreases |targets|
  {
    if targets != [] {
      var init := targets[..|targets| - 1];
      assert forall i :: 0 <= i < |init| ==> init[i] == targets[i];
      FoundAll(c, init);
    }
  }

  /** When no target is cached, nothing is found. */
  lemma {:induction false} FoundNone(c: Cache, targets: seq<string>)
    requires forall i :: 0 <= i < |targets| ==> Lookup(c, targets[i]).None?
    ensures Found(c, targets) == []
    decreases |targets|
  {
    if targets != [] {
      var init := targets[..|targets| - 1];
      assert forall i :: 0 <= i < |init| ==> init[i] == targets[i];
      FoundNone(c, init);
    }
  }

  /** `res.data.did.substr(0, LEN_DID)`: the did of an inbound raw frame, cut to 22 characters. */
  function TruncateDid(s: string): (r: string)
    ensures |r| == if |s| <= LEN_DID then |s| else LEN_DID
    ensures r == s[..|r|]
  {
    if |s| <= LEN_DID then s else s[..LEN_DID]
  }

  /** `_notifySubdevices`: the parent's cache as a list, or an empty list when
      nothing is cached, handed to `onUpdateSubDevices` when it is set. */
  function Notification(callbacks: Callbacks, did: string, caches: map<string, Cache>): seq<Event>
  {
    if !callbacks.onUpdateSubDevices then []
    else [SubDevicesUpdated(did, if did in caches then Infos(caches[did]) else [])]
  }

  /** After a list report for `did` stores `es`, the notification (when
      `onUpdateSubDevices` is set) is one call for `did` whose list holds,
      for every did the report mentions, the record of the last entry with
      that did, and nothing else. */
  lemma NotificationAfterReport(callbacks: Callbacks, did: string, caches: map<string, Cache>, es: seq<SubDevice>)
    ensures var r := Notification(callbacks, did, caches[did := PutAll([], es)]);
            (!callbacks.onUpdateSubDevices ==> r == [])
            && (callbacks.onUpdateSubDevices ==>
                  |r| == 1 && r[0].SubDevicesUpdated? && r[0].did == did
                  && (forall x :: x in r[0].subDevices ==> LastWithDid(es, x.did).Some? && x == InfoOf(LastWithDid(es, x.did).value))
                  && (forall d :: LastWithDid(es, d).Some? ==> InfoOf(LastWithDid(es, d).value) in r[0].subDevices))
  {
    var c := PutAll([], es);
    forall d
      ensures DistinctDids(c) && Lookup(c, d) == LastWithDid(es, d)
    {
      PutAllSemantics([], es, d);
    }
    PutAllSemantics([], es, did);
    InfosSpec(c);
    forall d | LastWithDid(es, d).Some?
      ensures InfoOf(LastWithDid(es, d).value) in Infos(c)
    {
      LookupSpec(c, d);
    }
  }

  /** `_processSubdeviceOnlineReport` on the caches: when the status payload
      has a full `subDid`, the first entry of the parent's cache with it takes
      the reported flag; a parent without a cache has nothing to patch. */
  function OnlineUpdated(caches: map<string, Cache>, did: string, payload: seq<Byte>): map<string, Cache>
  {
    match DecodeOnlineReport(payload)
    case None => caches
    case Some((subDid, online)) => if did in caches then caches[did := SetOnline(caches[did], subDid, online)] else caches
  }

  /** The list loop of `_notifySubdevices` (0.4.0) and of the `s2c_raw` branch (0.3.0): one record per cached entry, in key order. */
  method CollectInfos(c: Cache) returns (infos: seq<SubDeviceInfo>)
    ensures infos == Infos(c)
  {
    infos := [];
    var i := 0;
    while i < |c|
      invariant 0 <= i <= |c|
      invariant infos == Infos(c[..i])
    {
      assert c[..i + 1][..i] == c[..i];
      infos := infos + [InfoOf(c[i])];
      i := i + 1;
    }
    assert c[..i] == c;
  }

  /** `"" + n` for any integer. */
  function IntToString(i: int): string
  {
    if i < 0 then "-" + NatToString(-i) else NatToString(i)
  }

  /** The error `s2c_invalid_msg` reports for any code but 1009. */
  function InvalidMsgText(code: int, msg: string): string
  {
    "ErrorCode " + IntToString(code) + ": " + msg
  }

  /** `n` copies of the events of one call. */
  function Repeated(es: seq<Event>, n: nat): (r: seq<Event>)
    ensures |r| == n * |es|
  {
    if n == 0 then [] else Repeated(es, n - 1) + es
  }

  /** One more found entry adds one request, numbered after the others. */
  lemma DeleteRequestsSnoc(did: string, sn: int, found: seq<SubDevice>, e: SubDevice, next: int)
    requires next == sn + |found|
    ensures DeleteRequests(did, sn, found) + [DeleteRequest(did, next, e)] == DeleteRequests(did, sn, found + [e])
  {
  }

  /** The events grow by the errors of one more call. */
  lemma RepeatedExtend(prefix: seq<Event>, es: seq<Event>, n: nat)
    ensures (prefix + Repeated(es, n)) + Repeated(es, 1) == prefix + Repeated(es, n + 1)
  {
    assert Repeated(es, 1) == es;
  }

  /** One more target adds its cached entry, if it has one. */
  lemma FoundSnoc(c: Cache, ts: seq<string>, i: nat)
    requires i < |ts|
    ensures Found(c, ts[..i + 1]) == Found(c, ts[..i]) + (if Lookup(c, ts[i]).Some? then [Lookup(c, ts[i]).value] else [])
  {
    assert ts[..i + 1][..i] == ts[..i];
  }
}
