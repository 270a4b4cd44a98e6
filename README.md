# Gizwits WeChat JavaScript SDK — sub-device core, modelled in Dafny

The Gizwits WeChat SDK is one object, `GizwitsWS`. An application uses it
to talk, over WebSockets, to the cloud devices bound to a WeChat user.
Two releases are modelled side by side:

- 0.4.0 in module `GizwitsV4` (file `gizwits_v4.dfy`);
- 0.3.0 in module `GizwitsV3` (file `gizwits_v3.dfy`).

Each bound device gets two `Connection` objects, one for the `attrs_v4`
data-point channel and one for the `custom` channel. A connection keeps:

- the dids it subscribes;
- a count of rejected logins, which drives a back-off and, after the third
  retry, closing the socket;
- its socket, modelled by its `readyState` only.

The gateway object keeps:

- the bound devices;
- a global sequence number `sn`;
- the registered connections, keyed by the device's endpoint (0.4.0) or
  did (0.3.0) plus the data type;
- a cache of sub-devices for each central-control device.

A central-control device manages sub-devices through binary "P0" frames
carried in `c2s_raw` / `s2c_raw` messages. Each frame has:

- a 4-byte protocol version;
- an MQTT-style remaining-length prefix;
- a flag byte and the command `0x0093`;
- a big-endian 32-bit sequence number;
- an action byte and the action's payload.

The modelled operations and data:

- **Outbound.** The SDK sends three requests: get-list (`0x5A`), add
  (`0x56`) and delete (`0x58`).
- **Inbound.** The SDK locates the action in a received frame. It then
  patches an online flag (`0x10`), replaces the cache from a list report
  (`0x5B`/`0x5C`), logs an acknowledgement (`0x57`/`0x59`), or forwards the
  raw frame to the application.
- **List report.** The payload holds a product count. For each product it
  holds a 32-byte product key, a record count, and the records. A record is
  a 4-byte `subDid`, an online byte, a length-prefixed MAC and a 22-byte did.

How the model is built:

- The sockets, timers and application callbacks are abstracted as state:
  - a connection's `socket` state;
  - the list of JSON messages it `sent`;
  - the login delays it `scheduledLogins`;
  - the gateway's log of callback `events`, where an error event appears
    only when `onError` is set, and so on.
- JSON messages are datatypes (`Message`). The raw frame inside a `c2s_raw`
  message is given by the specification function `SubFrame.Frame`.
- The frame builders write through an index cursor into a `Uint8Array`. They
  are methods over an `array<Byte>`, each proved equal to `Frame`.
- The report reader and the encoders are proved against each other:
  - the inverse of the reader (the encoding a gateway device produces) is
    given;
  - decoding an encoded report is proved to give back every record.
- **0.3.0 locator.** 0.3.0 locates the action at fixed offsets, which
  misreads frames longer than 127 body bytes (see Findings). The 0.3.0
  gateway is therefore modelled with the corrected locator: the 0.4.0
  variable-length scan, keyed on 0.3.0's response command `0x94`.

Where the code and the written description of the SDK disagree, the model
follows the code:

- **Invalid-message code 1009.** This code goes through `_tryLoginAgain`
  (`gizwits_ws_0.4.0.js:665`). It raises the failure count and uses the same
  back-off as a rejected login, rather than retrying at once.
- **Empty delete list.** `deleteSubDevice` rejects only a missing list. An
  empty list passes every check and sends nothing.
- **Fourth rejected login.** It only closes the socket. The error the
  application sees comes from the close handler ("Websocket Connect failed,
  please try again after a moment.").
- **Connection states.** There is no connection state beyond the socket's
  `readyState`. Login and subscription progress are not tracked.
- **Sequence number.** `sn` is an unbounded JavaScript number. `setInt32`
  writes it modulo 2^32.
- **subscribe_res in 0.4.0.** The handler cannot remove rejected dids: it
  throws first (see Findings).
- **0.3.0 inbound frames.** 0.3.0 does not scan a variable-length prefix. It
  reads fixed offsets keyed on command `0x94`. 0.3.0 also has no
  online-status branch: actions `0x10`, `0x57` and `0x59` are forwarded as
  raw data.

## Model

| member | source | states |
|---|---|---|
| Bytes.Be16Digits | javascripts/gizwits_ws_0.4.0.js:299-301 | `setInt16` writes the high byte first: the two bytes are the base-256 digits of the value modulo 2^16 |
| Bytes.Be32Digits | javascripts/gizwits_ws_0.4.0.js:251 | `setInt32` writes four base-256 digits, most significant first |
| Bytes.Be16RoundTrip | javascripts/gizwits_ws_0.4.0.js:850-855 | reading back with `getUint16` what `setInt16` wrote gives the value modulo 2^16 |
| Bytes.Be32RoundTrip | javascripts/gizwits_ws_0.4.0.js:851-859 | reading back with `getUint32` what `setInt32` wrote gives the value modulo 2^32, so the sequence number wraps |
| Bytes.FromBe32Inverse | javascripts/gizwits_ws_0.4.0.js:859 | every 4 bytes are the big-endian image of the unsigned value `getUint32` reads from them |
| Bytes.Bin2String | javascripts/gizwits_ws_0.4.0.js:912-918 | the loop builds exactly `len` characters, the i-th one the code of byte `index + i` |
| Bytes.CharsOfAscii | javascripts/gizwits_ws_0.4.0.js:912-918 | `bin2string` over the bytes of an ASCII field reads the field back |
| Bytes.AsciiBytesOfChars | javascripts/gizwits_ws_0.4.0.js:912-918 | a string read from bytes below 0x80 is ASCII and encodes back to exactly those bytes |
| RemainingLength.GetLenArray | javascripts/gizwits_ws_0.4.0.js:824-842 | the do-while loop emits the specification encoding `Encode(len)` |
| RemainingLength.EncodeIsCanonical | javascripts/gizwits_ws_0.4.0.js:824-842 | the prefix is empty exactly for `len <= 0`; otherwise every byte but the last has the continuation bit, the last is non-zero, and the digits add back up to `len` |
| RemainingLength.EncodeLength | javascripts/gizwits_ws_0.4.0.js:832-839 | a prefix of k bytes encodes a length in [128^(k-1), 128^k) |
| RemainingLength.EncodeValue | javascripts/gizwits_ws_0.4.0.js:832-839 | every canonical prefix is the encoding of the length it denotes (the other half of the round trip) |
| RemainingLength.Examples | javascripts/gizwits_ws_0.3.0.js:875-893 | the prefixes for 0, -5, 8, 127, 128, 16383 and 16384 |
| SubFrame.BusinessBodyLayout | javascripts/gizwits_ws_0.4.0.js:244-253 | in a business body the command is at byte 2, the action at 7 and the payload from 8 |
| SubFrame.ListRequestLayout | javascripts/gizwits_ws_0.4.0.js:244-256 | the get-list request is 13 bytes: version, length 8, flag, command 0x0093, sequence number, action 0x5A |
| SubFrame.LengthFieldCountsRest | javascripts/gizwits_ws_0.4.0.js:256 | every frame starts with the protocol version, and its prefix denotes exactly the number of bytes after it |
| SubFrame.AddPayloadContents | javascripts/gizwits_ws_0.4.0.js:299-312 | the add payload's count field is the number of candidates, and its entries parse back to the MACs of the candidates that have one, in order |
| SubFrame.MacEntriesRoundTrip | javascripts/gizwits_ws_0.4.0.js:305-312 | length-prefixed MAC entries followed by any parseable tail parse back to the MACs followed by that tail |
| SubFrame.ParseOneEntry | javascripts/gizwits_ws_0.4.0.js:308-310 | one `(length, bytes)` entry parses back to its MAC |
| SubFrame.WriteHeader | javascripts/gizwits_ws_0.4.0.js:245-252 | the cursor ends at 8 after writing flag, command, sequence number and action; the rest of the buffer is untouched |
| SubFrame.WriteBytes | javascripts/gizwits_ws_0.4.0.js:309 | `Uint8Array.set` writes the bytes at the offset and changes nothing else |
| SubFrame.Assemble | javascripts/gizwits_ws_0.4.0.js:256 | the frame is the version, the prefix for the cursor value and the buffer up to the cursor |
| SubFrame.BuildListFrame | javascripts/gizwits_ws_0.4.0.js:244-256 | the bytes built are the get-list frame `Frame(sn, 0x5A, [])` |
| SubFrame.WriteMacEntry | javascripts/gizwits_ws_0.4.0.js:306-311 | a candidate with a MAC adds its length byte and its bytes; one without adds nothing |
| SubFrame.BuildAddFrame | javascripts/gizwits_ws_0.4.0.js:289-315 | the bytes built are the add frame `Frame(sn, 0x56, count + entries)` |
| SubFrame.WriteMacEntries | javascripts/gizwits_ws_0.4.0.js:304-312 | the loop over the candidates leaves their MAC entries in the buffer, in order, after what was written before, and the index just past them |
| SubFrame.BuildDeleteFrame | javascripts/gizwits_ws_0.4.0.js:366-379 | the bytes built are the delete frame `Frame(sn, 0x58, subDid as BE32)` |
| Inbound.LocateAction | javascripts/gizwits_ws_0.4.0.js:607-621 | the scan over continuation bytes and the command test give `LocateScan`: action and payload, or no action when the frame is too short |
| Inbound.ScanSkipsPrefix | javascripts/gizwits_ws_0.4.0.js:608-615 | on any well-formed frame the scan counts exactly the continuation bytes of the length prefix, so the body follows it |
| Inbound.ScanFindsBusinessAction | javascripts/gizwits_ws_0.4.0.js:617-619 | on a business frame, whatever its length, the scan finds the frame's own action and payload |
| Inbound.ScanFindsSequenceNumber | javascripts/gizwits_ws_0.4.0.js:372 | a business frame carries the sequence number written into it, modulo 2^32, in the four bytes before the action |
| Inbound.ScanFindsPlainAction | javascripts/gizwits_ws_0.4.0.js:620-621 | on a frame with another command, the action right after the command is found, with its payload |
| Inbound.FixedFindsShortFrames | javascripts/gizwits_ws_0.3.0.js:683-689 | 0.3.0's fixed offsets find the action and payload of any frame whose body is under 128 bytes |
| Inbound.FixedMisreadsLongFrames | javascripts/gizwits_ws_0.3.0.js:683-689 | on a 0x94 frame with a 2-byte prefix, 0.3.0 reads the command byte 0x94 as the action |
| Directory.LookupSpec | javascripts/gizwits_ws_0.4.0.js:362 | looking a did up in a cache finds an entry with that did, and fails exactly when no entry has it |
| Directory.PutSemantics | javascripts/gizwits_ws_0.4.0.js:867 | storing an entry keeps dids distinct; the stored did now maps to the entry, and every other did keeps its entry |
| Directory.PutLookup | javascripts/gizwits_ws_0.4.0.js:867 | in any cache, the stored did reads back the new entry and every other did reads back what it did before |
| Directory.LookupAt | javascripts/gizwits_ws_0.4.0.js:361 | in a cache with distinct dids, looking up the did of any entry finds that entry |
| Directory.PutDistinct | javascripts/gizwits_ws_0.4.0.js:867 | storing an entry into a cache whose dids are distinct keeps them distinct |
| Directory.PutDids | javascripts/gizwits_ws_0.4.0.js:867 | storing a new did appends it to the key order; storing an existing did keeps the order |
| Directory.PutAllSemantics | javascripts/gizwits_ws_0.4.0.js:855-869 | after storing a list of records, each did maps to the last record carrying it, or to its old entry |
| Directory.ReadRecord | javascripts/gizwits_ws_0.4.0.js:857-867 | one record is read as `subDid`, online flag, MAC, did and product key, and the cursor moves past it |
| Directory.ReadRecords | javascripts/gizwits_ws_0.4.0.js:856-868 | the record loop of one product agrees with the specification decoder, and a truncated record stops the report |
| Directory.StoreRecord | javascripts/gizwits_ws_0.4.0.js:856-868 | one pass of the record loop stores the next decoded record and leaves the rest of the decoding to come; a header cut short stores nothing and marks the report incomplete |
| Directory.ReadProduct | javascripts/gizwits_ws_0.4.0.js:851-869 | one pass of the product loop reads the group header and its records exactly as the decoder does; a header cut short stores nothing and marks the report incomplete |
| Directory.ReadReport | javascripts/gizwits_ws_0.4.0.js:844-872 | the new cache holds the decoded records keyed by did, last record wins; `complete` says whether the report ran to its end |
| Directory.FirstWithSubDid | javascripts/gizwits_ws_0.4.0.js:882-887 | the position found holds the `subDid` and no earlier entry does; none means no entry has it |
| Directory.SetOnlineEffect | javascripts/gizwits_ws_0.4.0.js:882-887 | the status change sets the flag of the first entry with the `subDid`; every other entry, the dids and their order stay |
| Directory.PatchOnline | javascripts/gizwits_ws_0.4.0.js:874-889 | the loop stops at the first match and gives `SetOnline` |
| Directory.ParseEncodedRecord | javascripts/gizwits_ws_0.4.0.js:857-867 | a record a gateway encodes is read back unchanged, with the rest of the input after it |
| Directory.DecodeEncodedRecords | javascripts/gizwits_ws_0.4.0.js:856-868 | a product's encoded records, followed by encoded products, decode to all of their records, complete |
| Directory.DecodeEncodedGroups | javascripts/gizwits_ws_0.4.0.js:850-869 | encoded products decode to all their records in order, complete |
| Directory.ReportRoundTrip | javascripts/gizwits_ws_0.4.0.js:844-872 | decoding an encoded list report gives back every record of every product, complete |
| Directory.ReportCache | javascripts/gizwits_ws_0.4.0.js:844-872 | the cache built from an encoded report maps each did to the last record that carries it |
| Session.InfosSpec | javascripts/gizwits_ws_0.4.0.js:891-905 | for a cache with distinct dids, the list handed to `onUpdateSubDevices` has one record per entry with the dids in cache order; each record carries the did, MAC, online flag and product key of the entry that a lookup of its did finds; every entry is listed |
| Session.IndexOf | javascripts/gizwits_ws_0.4.0.js:731-736 | the index found is the first occurrence of the did; none means the did is absent |
| Session.Search | javascripts/gizwits_ws_0.4.0.js:743-751 | the search loop finds `IndexOf` |
| Session.AddDidSpec | javascripts/gizwits_ws_0.4.0.js:729-741 | `_addSubscribeDid` keeps the list free of duplicates, appends only a new did, and is idempotent |
| Session.RemoveDidSpec | javascripts/gizwits_ws_0.4.0.js:743-751 | `_removeSubscribeDid` on a duplicate-free list removes exactly that did and keeps the order of the rest |
| Session.WithoutContents | javascripts/gizwits_ws_0.4.0.js:743-751 | removing a did leaves exactly the other members |
| Session.ReverseSpec | javascripts/gizwits_ws_0.4.0.js:753-763 | 0.4.0 subscribes the dids last-added first |
| Session.RejectionRunSchedule | javascripts/gizwits_ws_0.4.0.js:718-727 | on consecutive rejections the i-th retry is scheduled after `i * 5000` ms for the first three, and the socket is closed from the fourth on |
| Session.NatToStringValue | javascripts/gizwits_ws_0.4.0.js:810 | `port + ''` is the decimal text of the port |
| Session.ConnInfoPort | javascripts/gizwits_ws_0.4.0.js:807-818 | the endpoint is `wss://host:` with the wss port when that port is set, else `ws://host:` with the ws port |
| Session.ConnectionKeyInjective | javascripts/gizwits_ws_0.4.0.js:820-822 | distinct endpoints or data types give distinct connection keys |
| Session.ConnectedEventsSpec | javascripts/gizwits_ws_0.4.0.js:579-583 | the `onConnected` calls for a list of accepted dids are those of its parts, in order; a call is made for a did exactly when the did was accepted and the callback is set |
| Session.FailureEventsReport | javascripts/gizwits_ws_0.3.0.js:662-665 | with `onError` set, every rejected did is reported as "connect error with did: <did>, please try again." |
| Session.RemoveAllSpec | javascripts/gizwits_ws_0.3.0.js:662-665 | removing every rejected did keeps the list duplicate-free and leaves exactly the dids that were not rejected |
| Session.ReconnectsSpaced | javascripts/gizwits_ws_0.4.0.js:773-781 | over a run of failed sends on one connection (`Reconnects` picks, among the send times, those that `Gateway.SendJson` turns into a reconnect: the times more than 5000 ms after the previous reconnect), the reconnects are more than 5000 ms apart, the first more than 5000 ms after the last one before the run |
| Session.DeleteRequestsDecode | javascripts/gizwits_ws_0.4.0.js:361-390 | delete request k goes to the parent; read back as a business frame it carries action 0x58, sequence number `sn + k` and the `subDid` of the k-th cached target (both modulo 2^32) |
| Session.FoundEntries | javascripts/gizwits_ws_0.4.0.js:361-363 | every deleted entry is in the cache under one of the requested dids, and at most one per request |
| Session.FoundAll | javascripts/gizwits_ws_0.4.0.js:361-363 | when every target is cached, the deletes are for exactly those entries, in request order |
| Session.FoundNone | javascripts/gizwits_ws_0.4.0.js:361-363 | when no target is cached, nothing is sent |
| Session.TruncateDid | javascripts/gizwits_ws_0.4.0.js:602 | a did longer than 22 characters becomes exactly its first 22; a shorter one is kept whole |
| Session.NotificationAfterReport | javascripts/gizwits_ws_0.4.0.js:891-905 | after a list report, the notification is nothing when `onUpdateSubDevices` is unset, and otherwise one call for the parent whose list holds, for each did the report names, the record of the last entry with that did, and nothing else |
| Session.CollectInfos | javascripts/gizwits_ws_0.4.0.js:893-902 | the loop builds `Infos` of the cache |
| GizwitsV4.Connection.constructor | javascripts/gizwits_ws_0.4.0.js:62-71 | a new connection subscribes nothing, has no socket and no failures, and its URL is built from the endpoint |
| GizwitsV4.Connection.AddSubscribeDid | javascripts/gizwits_ws_0.4.0.js:729-741 | the subscription list becomes `AddDid` of the old one |
| GizwitsV4.Connection.RemoveSubscribeDid | javascripts/gizwits_ws_0.4.0.js:743-751 | the subscription list becomes `RemoveDid` of the old one |
| GizwitsV4.Connection.SendJson | javascripts/gizwits_ws_0.4.0.js:687-697 | the message goes out and true is returned exactly when the socket is open |
| GizwitsV4.Connection.Login | javascripts/gizwits_ws_0.4.0.js:702-716 | a login request with the connection's data type goes out if the socket is open |
| GizwitsV4.Connection.SubscribeDevices | javascripts/gizwits_ws_0.4.0.js:753-763 | a subscribe request for the dids in reverse order goes out if the socket is open |
| GizwitsV4.Connection.ConnectWS | javascripts/gizwits_ws_0.4.0.js:534-545 | a new socket is connecting |
| GizwitsV4.Connection.TryLoginAgain | javascripts/gizwits_ws_0.4.0.js:718-727 | the failure count rises by one; up to 3 a login is scheduled after count × 5000 ms, beyond that the socket is closed |
| GizwitsV4.Connection.OnOpen | javascripts/gizwits_ws_0.4.0.js:547-549 | an opened socket sends the login request |
| GizwitsV4.Connection.OnClose | javascripts/gizwits_ws_0.4.0.js:551-554 | the socket is closed |
| GizwitsV4.Connection.OnLoginRes | javascripts/gizwits_ws_0.4.0.js:565-573 | success resets the failure count and subscribes; failure takes the retry path and sends nothing |
| GizwitsV4.Connection.OnSubscribeRes | javascripts/gizwits_ws_0.4.0.js:574-589 | (corrected) on the custom channel the rejected dids are removed and the accepted and rejected dids are reported in the source's loop order; the data-point channel ignores the message |
| GizwitsV4.Connection.RemoveFailed | javascripts/gizwits_ws_0.4.0.js:584-587 | (corrected) the loop removes the rejected dids and reports each |
| GizwitsV4.ConnectedLoop | javascripts/gizwits_ws_0.4.0.js:579-583 | the loop makes one `onConnected` call per accepted did |
| GizwitsV4.SubscribeResDropsRejected | javascripts/gizwits_ws_0.4.0.js:574-589 | (corrected) after `subscribe_res` a did is subscribed exactly when it was and was not rejected, and the list stays duplicate-free |
| GizwitsV4.SubscribeResAsWrittenKeepsRejected | javascripts/gizwits_ws_0.4.0.js:584-586 | for any subscription list and any subscribed did the cloud rejects: as written, the did stays subscribed and no error names it; corrected, it is dropped and reported whenever `onError` is set |
| GizwitsV4.ListFrameRefreshesCache | javascripts/gizwits_ws_0.4.0.js:607-631 | a list frame (0x5B or 0x5C) is routed to the cache refresh exactly when the custom channel has a listener; its report decodes completely and the cache keys each did to its last record |
| GizwitsV4.OnlineFrameSetsFlag | javascripts/gizwits_ws_0.4.0.js:623-625 | a status frame is routed to the status handler and sets the reported flag on the first cached entry with that `subDid` |
| GizwitsV4.OnlinePayloadDecodes | javascripts/gizwits_ws_0.4.0.js:874-889 | a status payload reads back as its `subDid` and its online flag |
| GizwitsV4.ShortOnlineFrameIgnored | javascripts/gizwits_ws_0.4.0.js:879 | a status payload shorter than 4 bytes changes no cache (`getUint32` throws) |
| GizwitsV4.OtherFramesForwarded | javascripts/gizwits_ws_0.4.0.js:643-649 | a frame with any other action is forwarded as raw data |
| GizwitsV4.KeysDiffer | javascripts/gizwits_ws_0.4.0.js:820-822 | the two connections of a device have distinct keys |
| GizwitsV4.Gateway.constructor | javascripts/gizwits_ws_0.4.0.js:30-52 | the SDK starts with sequence number 1, no connections, no cache and no callback calls |
| GizwitsV4.Gateway.SendError | javascripts/gizwits_ws_0.4.0.js:801-805 | the error reaches `onError` when it is set |
| GizwitsV4.Gateway.ConnectOne | javascripts/gizwits_ws_0.4.0.js:785-799 | the connection for this endpoint and type is found or created, the did is added to it, a socket that is not open is replaced and the connection registered, an open one re-subscribes; no other connection changes |
| GizwitsV4.Gateway.ConnectDevice | javascripts/gizwits_ws_0.4.0.js:785-799 | both connections of the device are registered and subscribe its did; the registry gains no key but the device's two; registered connections stay registered with their reconnect time and scheduled logins, and other connections do not change; each of the two connections gets a new socket unless its socket was open, and then re-sends its subscription (`Reconnected`) |
| GizwitsV4.Gateway.Connect | javascripts/gizwits_ws_0.4.0.js:90-106 | an unbound did gives "Device is not bound." and changes no connection; a bound device gets both connections subscribing it, each with a new socket unless its socket was open, and then with a re-sent subscription; the registry gains no other key, registered keys keep their connections, no connection's reconnect timestamp or scheduled logins change, and every connection but the device's two is unchanged |
| GizwitsV4.Gateway.SendJson | javascripts/gizwits_ws_0.4.0.js:765-783 | a missing connection gives "Websocket of <type> is not connected."; an open one sends the message and nothing else about it or any other connection changes; a failed send changes nothing while the last reconnect is at most 5000 ms old; after that, the effect is `Retried`: the failed connection gets a new socket with nothing sent, the other one a new socket or a re-sent subscription, a login after 2000 ms is scheduled, and the rest of the registry stays as it was |
| GizwitsV4.Gateway.RetryConnect | javascripts/gizwits_ws_0.4.0.js:774-781 | the retry after a failed send (`Retried`): both `_connect` calls, the failed connection connecting again with nothing sent, its reconnect time and a login 2000 ms on recorded; the registry gains no key but the device's two, registered connections stay, other connections are unchanged and keep their reconnect time and scheduled logins |
| GizwitsV4.Connection.RecordRetry | javascripts/gizwits_ws_0.4.0.js:779-780 | the connection records the reconnect time and a login scheduled 2000 ms on |
| GizwitsV4.Gateway.UpdateSubDevices | javascripts/gizwits_ws_0.4.0.js:231-266 | an unbound did is an error; otherwise the get-list frame numbered `sn` is sent on the custom channel and `sn` advances |
| GizwitsV4.Gateway.AddSubDevice | javascripts/gizwits_ws_0.4.0.js:276-325 | an unbound did is an error; otherwise the add frame for the candidates numbered `sn` is sent and `sn` advances |
| GizwitsV4.Gateway.DeleteSubDevice | javascripts/gizwits_ws_0.4.0.js:335-391 | errors in order: no list, unbound did, no cache; otherwise one delete frame per cached target, numbered consecutively, and `sn` advances by their count |
| GizwitsV4.Gateway.SendDeletes | javascripts/gizwits_ws_0.4.0.js:361-390 | the delete loop sends one frame per cached target, in order, with consecutive numbers; on an open custom connection only its sent log changes (`SentOnCustom`) |
| GizwitsV4.Gateway.SendDelete | javascripts/gizwits_ws_0.4.0.js:366-388 | one delete frame for the entry's `subDid` numbered `sn`, which advances; on an open custom connection only its sent log changes; on one that is not open nothing changes inside the 5 s cooldown, and after it the device is reconnected as `Retried` states |
| GizwitsV4.Gateway.SendDeletesSince | javascripts/gizwits_ws_0.4.0.js:361-390 | measured from the state before the loop, the frames sent are the delete frames of the cached targets, in order, and only the custom connection's sent log changes (`SentSince`); without a custom connection each one adds a "not connected" error instead |
| GizwitsV4.Gateway.SendDeleteSince | javascripts/gizwits_ws_0.4.0.js:366-388 | one more delete frame extends the frames sent since the loop began, with every other field of every connection as it was then, or the errors when there is no custom connection |
| GizwitsV4.Gateway.SendFoundSince | javascripts/gizwits_ws_0.4.0.js:362-389 | one pass of the delete loop: a target found in the cache adds its delete frame, numbered with the next sequence number, to the frames sent since the loop began; a target not found sends nothing |
| GizwitsV4.Gateway.SendOnCustom | javascripts/gizwits_ws_0.4.0.js:381-387 | a frame for a bound device goes out on its open custom connection, whose other fields stay, with every other connection untouched; without a custom connection the "not connected" error is raised and nothing changes; on a custom connection that is not open nothing changes inside the 5 s cooldown, and after it the device is reconnected as `Retried` states |
| GizwitsV4.Gateway.ProcessSubdevicesReport | javascripts/gizwits_ws_0.4.0.js:844-872 | the parent's cache is replaced by the decoded report; no other parent's cache changes |
| GizwitsV4.Gateway.ProcessSubdeviceOnlineReport | javascripts/gizwits_ws_0.4.0.js:874-889 | the caches become `OnlineUpdated`; the handler completes exactly when the payload has a full `subDid` |
| GizwitsV4.Gateway.NotifySubdevices | javascripts/gizwits_ws_0.4.0.js:891-905 | the application is handed the parent's cache as a list |
| GizwitsV4.Gateway.OnRaw | javascripts/gizwits_ws_0.4.0.js:599-652 | a frame for an unbound did is dropped; otherwise the located action selects the status update with notification, the cache refresh with notification, a logged acknowledgement, or forwarding |
| GizwitsV4.Gateway.OnWSOpen | javascripts/gizwits_ws_0.4.0.js:547-549 | the connection's socket is open and a login goes out; its subscriptions, failure count, reconnect time and scheduled logins stay |
| GizwitsV4.Gateway.OnWSClose | javascripts/gizwits_ws_0.4.0.js:551-554 | the socket is closed, every other field of the connection stays, and "Websocket Connect failed, please try again after a moment." is reported |
| GizwitsV4.Gateway.OnWSError | javascripts/gizwits_ws_0.4.0.js:673-675 | "Websocket on error" is reported |
| GizwitsV4.Gateway.OnSubscribeRes | javascripts/gizwits_ws_0.4.0.js:574-589 | (corrected) the connection's subscriptions and the callback calls are those of `SubscribeRes`; its other fields stay |
| GizwitsV4.Gateway.OnInvalidMsg | javascripts/gizwits_ws_0.4.0.js:662-670 | code 1009 takes the login retry path, with the subscriptions, sent log and reconnect time kept; any other code is reported as "ErrorCode <code>: <msg>" and the connection is unchanged |
| GizwitsV3.Connection.constructor | javascripts/gizwits_ws_0.3.0.js:83-91 | a new connection subscribes nothing, has no socket and no failures |
| GizwitsV3.Connection.AddSubscribeDid | javascripts/gizwits_ws_0.3.0.js:791-803 | the subscription list becomes `AddDid` of the old one |
| GizwitsV3.Connection.RemoveSubDid | javascripts/gizwits_ws_0.3.0.js:805-813 | the subscription list becomes `RemoveDid` of the old one |
| GizwitsV3.Connection.SendJson | javascripts/gizwits_ws_0.3.0.js:750-758 | the message goes out exactly when the socket is open |
| GizwitsV3.Connection.Login | javascripts/gizwits_ws_0.3.0.js:763-778 | a login request with the data type goes out if the socket is open |
| GizwitsV3.Connection.SubscribeDevices | javascripts/gizwits_ws_0.3.0.js:815-826 | a subscribe request for the dids in stored order goes out if the socket is open |
| GizwitsV3.Connection.ConnectWS | javascripts/gizwits_ws_0.3.0.js:612-622 | a new socket is connecting |
| GizwitsV3.Connection.TryLoginAgain | javascripts/gizwits_ws_0.3.0.js:780-789 | the failure count rises; up to 3 a login is scheduled after count × 5000 ms, beyond that the socket is closed |
| GizwitsV3.Connection.OnOpen | javascripts/gizwits_ws_0.3.0.js:624-626 | an opened socket sends the login request |
| GizwitsV3.Connection.OnClose | javascripts/gizwits_ws_0.3.0.js:628-631 | the socket is closed |
| GizwitsV3.Connection.OnLoginRes | javascripts/gizwits_ws_0.3.0.js:643-651 | success resets the failure count and subscribes; failure takes the retry path |
| GizwitsV3.Connection.OnSubscribeRes | javascripts/gizwits_ws_0.3.0.js:652-667 | on the custom channel the rejected dids are removed and accepted and rejected dids are reported in order; the data-point channel ignores the message |
| GizwitsV3.Connection.RemoveFailed | javascripts/gizwits_ws_0.3.0.js:662-665 | the loop removes each rejected did and reports it |
| GizwitsV3.ConnectedLoop | javascripts/gizwits_ws_0.3.0.js:657-661 | the loop makes one `onConnected` call per accepted did |
| GizwitsV3.KeysDistinct | javascripts/gizwits_ws_0.3.0.js:863-873 | different dids or data types give different connection keys |
| GizwitsV3.ListFrameRefreshesCache | javascripts/gizwits_ws_0.3.0.js:677-697 | with the corrected locator, a 0x94 list frame of any length is routed to the cache refresh exactly when the custom channel has a listener, and decodes completely |
| GizwitsV3.OtherFramesForwarded | javascripts/gizwits_ws_0.3.0.js:706-713 | a 0x94 frame with any other action is forwarded as raw data |
| GizwitsV3.ScanAgreesOnShortFrames | javascripts/gizwits_ws_0.3.0.js:683-689 | the corrected locator and 0.3.0's fixed offsets agree on every frame whose body is under 128 bytes |
| GizwitsV3.Gateway.constructor | javascripts/gizwits_ws_0.3.0.js:51-73 | the SDK starts with sequence number 1, no connections, no cache and no callback calls |
| GizwitsV3.Gateway.SendError | javascripts/gizwits_ws_0.3.0.js:844-848 | the error reaches `onError` when it is set |
| GizwitsV3.Gateway.ConnectOne | javascripts/gizwits_ws_0.3.0.js:828-842 | the connection for this did and type is found or created and subscribes the did; a socket that is not open is replaced, an open one re-subscribes; no other connection changes |
| GizwitsV3.Gateway.Connect | javascripts/gizwits_ws_0.3.0.js:110-127 | an unbound did gives "Device is not bound."; otherwise both connections of the did are registered and subscribe it, each with a new socket unless its socket was open, and then with a re-sent subscription; the registry gains no other key, registered keys keep their connections, and every connection but the did's two is unchanged; an unbound did changes no connection |
| GizwitsV3.Gateway.ConnectDevice | javascripts/gizwits_ws_0.3.0.js:124-126 | the two `_connect` calls: both connections subscribe the did and each went through `_connect` once (`Reconnected`); the registry gains no key but the did's two, registered keys keep their connections, and every connection but the did's two is unchanged |
| GizwitsV3.Gateway.UpdateSubDevices | javascripts/gizwits_ws_0.3.0.js:282-326 | errors for an unbound did, then for a missing custom connection; otherwise the get-list frame numbered `sn` is delivered and `sn` advances |
| GizwitsV3.Gateway.AddSubDevice | javascripts/gizwits_ws_0.3.0.js:335-393 | the same checks; otherwise the add frame numbered `sn` is delivered and `sn` advances |
| GizwitsV3.Gateway.DeleteSubDevice | javascripts/gizwits_ws_0.3.0.js:402-467 | errors in order: no list, unbound did, no cache, no connection; otherwise one delete frame per cached target, with consecutive numbers |
| GizwitsV3.Gateway.SendDeletes | javascripts/gizwits_ws_0.3.0.js:434-466 | the delete loop delivers one frame per cached target on the custom connection, in order |
| GizwitsV3.Gateway.ProcessSubdevicesReport | javascripts/gizwits_ws_0.3.0.js:895-923 | the parent's cache is replaced by the decoded report |
| GizwitsV3.Gateway.OnRaw | javascripts/gizwits_ws_0.3.0.js:677-715 | (corrected locator) a frame for an unbound did is dropped; a list report with a listener refreshes the cache and hands it over; anything else is forwarded |
| GizwitsV3.Gateway.OnWSOpen | javascripts/gizwits_ws_0.3.0.js:624-626 | the socket is open and a login goes out |
| GizwitsV3.Gateway.OnWSClose | javascripts/gizwits_ws_0.3.0.js:628-631 | the socket is closed, the subscriptions, sent log, failure count and scheduled logins stay, and the connect-failed error is reported |
| GizwitsV3.Gateway.OnWSError | javascripts/gizwits_ws_0.3.0.js:736-738 | "Websocket on error" is reported |
| GizwitsV3.Gateway.OnSubscribeRes | javascripts/gizwits_ws_0.3.0.js:652-667 | on the custom channel a did stays subscribed exactly when it was and was not rejected; one call per accepted and per rejected did; the socket, sent log, failure count and scheduled logins stay |
| GizwitsV3.Gateway.OnInvalidMsg | javascripts/gizwits_ws_0.3.0.js:725-732 | code 1009 takes the login retry path with the subscriptions and sent log kept; any other code is reported with its message |

## Left out

- HTTP is not modelled: `init`, `_getUserToken`, `_getBoundDevices`, `bindDevice` and `bindSubDevice`. The bound devices are a constructor parameter.
- `read`, `write` and `send` are not modelled; they are JSON pass-through with no sub-device logic.
- The heartbeat is not modelled: `_startPing`, `_stopPing` and `pong`. Nor are `s2c_noti` and `s2c_online_status`, which only forward JSON to callbacks.
- JSON serialisation, console logging and `String.format` are abstracted: messages are datatypes and the URL is a function of the endpoint.
- Timers are not modelled. `window.setTimeout` becomes a delay appended to `scheduledLogins`, and the clock is a `now` parameter.
- Sockets are not modelled. A socket is its `readyState`, and the browser's open, close and error events become the methods that handle them.
- A missing socket is not modelled: `_sendJson` on a connection without one throws. Every registered connection got a socket when it was registered.
- `>> 0` in `_getMQTTLenArray` is not modelled: it truncates quotients to 32 bits, and the model assumes frame lengths far below 2^31.
- `Math.ceil` in `_getMQTTLenArray` is not modelled: every length the SDK passes is an integer.
- SubFrame.AsciiMacs: `TextEncoder` is UTF-8. The model covers ASCII MACs only, where `mac.length` equals the byte count.
- GizwitsV4.Gateway.AddSubDevice: requires the frame to fit the 128-byte `Uint8Array` the source allocates. Longer input makes `set` throw, and that case is not modelled.
- GizwitsV3.Gateway.AddSubDevice: the same 128-byte bound.
- Directory.ReadReport: a record cut short by the end of the payload stops decoding and reports an incomplete list. The source instead reads `undefined` bytes as garbage, or throws in `getUint16`/`getUint32`.
- Directory.DecodeOnlineReport: decoding stops without a change when the `subDid` is cut short. In the source `getUint32` throws there, which also skips the notification.
- The "Please call 'init()' firstly." checks are dead code: `!typeof` is always false, and `_boundDevices` is always an object. They are not modelled.
- GizwitsV4.Gateway.NotifySubdevices: when `onUpdateSubDevices` is unset the source throws a `TypeError`; the model records no event.
- GizwitsV4.Gateway.AddSubDevice: a null or undefined candidate list is the empty list.
- GizwitsV3.Gateway.AddSubDevice: the same null-list reading.
- GizwitsV4.Gateway.DeleteSubDevice: targets are given by their did strings, not as objects. A target without a `did` is not modelled.
- GizwitsV3.Gateway.DeleteSubDevice: the same did-string targets.
- Directory.ReadReport: the cache keeps dids in insertion order. A JavaScript `for-in` visits integer-like keys first, in numeric order, and that is not modelled; 22-character dids are not integer-like.
- The global `conn` set by `_startPing` is not modelled.
- GizwitsV4.Connection.OnLoginRes: states `Valid()` only as kept, not as established. `Valid` covers the duplicate-free subscription list.
- GizwitsV4.Gateway.OnRaw: the gateway's `Valid` covers the caches only, not the connections.
- GizwitsV4.Gateway.UpdateSubDevices: covers the missing connection and the open socket. With a connection whose socket is not open, the reconnect is stated by `Gateway.SendJson` and `Gateway.RetryConnect` and is not repeated here.
- GizwitsV4.Gateway.AddSubDevice: the same as for `UpdateSubDevices`.
- GizwitsV4.Gateway.DeleteSubDevice: the same as for `UpdateSubDevices`.
- GizwitsV4.Gateway.SendDeletes: covers the missing connection and the open socket. When the custom socket is not open, the first frame may start the reconnect that `Gateway.SendJson` states, and the frames after it are sent or dropped as `Gateway.SendJson` states. The loop's contract does not repeat those cases.
- GizwitsV4.Gateway.SendDeletesSince: the same as for `SendDeletes`.
- GizwitsV4.Gateway.SendFoundSince: the same as for `SendDeletes`.
- GizwitsV4.Gateway.SendDeleteSince: the same as for `SendDeletes`. The single-frame `SendDelete` states the not-open cases.
- GizwitsV4.Gateway.ConnectDevice: states the per-connection effect (`Reconnected`) only when no connection object is registered under two keys (`Unaliased`). The source creates each connection for one key; the constructor establishes `Unaliased`, and `ConnectOne`, `ConnectDevice`, `Connect`, `SendJson` and `RetryConnect` keep it. The other methods that send do not state that they keep it.
- GizwitsV4.Gateway.Connect: the same `Unaliased` condition.
- GizwitsV4.Gateway.SendJson: the same `Unaliased` condition on the effect of the retry on each connection.
- GizwitsV4.Gateway.RetryConnect: the same `Unaliased` condition.
- GizwitsV3.Gateway.Connect: the same `Unaliased` condition, kept by `ConnectOne`, `ConnectDevice` and `Connect`.
- GizwitsV3.Gateway.ConnectDevice: the same `Unaliased` condition.
- GizwitsV3.Gateway.OnRaw: uses the corrected locator. The fixed-offset reading of the released code is `Inbound.LocateFixed`.
- GizwitsV4.Gateway.OnSubscribeRes: states the corrected handler, not the `ReferenceError`. The behaviour as written is `GizwitsV4.SubscribeResAsWritten`.
- GizwitsV4.Connection.OnSubscribeRes: the same corrected handler, not the `ReferenceError`.
- GizwitsV4.Connection.RemoveFailed: the corrected loop over the rejected dids; as written the first pass throws.

## Findings

| source | as written | input that shows it | evidently intended | confidence | as-written member | corrected member |
|---|---|---|---|---|---|---|
| javascripts/gizwits_ws_0.4.0.js:584-586 | the loop over `res.data.failed` reads `failedDids[j]`, but no `j` is declared in its scope, so the first rejected did throws a `ReferenceError`: it is never removed and no error reaches the application | `subscribe_res` on the custom connection with `failed: [{did: "A"}]` while "A" is subscribed | remove each rejected did from the subscription list and report "connect error with did: A, please try again." (as 0.3.0 does with index `j`) | not executed | GizwitsV4.SubscribeResAsWrittenKeepsRejected | GizwitsV4.SubscribeResDropsRejected |
| javascripts/gizwits_ws_0.3.0.js:683-689 | the action is read at fixed offsets 12 or 8 after testing byte 7 for `0x94`, which assumes a 1-byte remaining-length prefix | a `0x94` list report (`0x5B`) listing 3 sub-devices with 6-byte MACs: body 146 bytes, 2-byte prefix, so byte 7 is `0x00`, byte 8 is `0x94`, and the report is forwarded as raw data instead of refreshing the cache | skip the variable-length prefix before reading command and action, as 0.4.0 does | not executed | Inbound.FixedMisreadsLongFrames | Inbound.ScanFindsBusinessAction |
