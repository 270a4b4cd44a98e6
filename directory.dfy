/**
 * The sub-device cache (`_subDevices[parentDid]`) and the two reports that
 * maintain it: the full list (actions 0x5B/0x5C, `_processSubdevicesReport`),
 * which replaces a parent's cache, and the online-status change (action 0x10,
 * `_processSubdeviceOnlineReport`), which patches one flag.
 *
 * A parent's cache is a JavaScript object keyed by the sub-device's did; its
 * keys enumerate in insertion order and re-assigning a key keeps its place.
 * It is modelled as a sequence of entries with distinct dids in that order.
 */
module Directory {
  import opened Wrappers
  import opened Bytes

  const LEN_DID: nat := 22
  const LEN_PRODUCT_KEY: nat := 32

  datatype SubDevice = SubDevice(subDid: nat, isOnline: bool, mac: string, did: string, productKey: string)

  type Cache = seq<SubDevice>

  predicate DistinctDids(c: Cache)
  {
    forall i, j :: 0 <= i < j < |c| ==> c[i].did != c[j].did
  }

  function Dids(c: Cache): seq<string>
  {
    seq(|c|, i requires 0 <= i < |c| => c[i].did)
  }

  /** `cache[did]`: the entry stored under `did`, if any. */
  function Lookup(c: Cache, did: string): Option<SubDevice>
  {
    if c == [] then None else if c[0].did == did then Some(c[0]) else Lookup(c[1..], did)
  }

  /** A lookup finds an entry stored under that did, and finds none exactly
      when no entry has it. */
  lemma {:induction false} LookupSpec(c: Cache, did: string)
    ensures Lookup(c, did).Some? ==> Lookup(c, did).value in c && Lookup(c, did).value.did == did
    ensures Lookup(c, did).None? <==> did !in Dids(c)
  {
    if c != [] {
      DidsCons(c[0], c[1..]);
      assert [c[0]] + c[1..] == c;
      LookupSpec(c[1..], did);
    }
  }

  /** In a cache with distinct dids, a lookup of the did of any entry finds that entry. */
  lemma {:induction false} LookupAt(c: Cache, i: nat)
    requires DistinctDids(c) && i < |c|
    ensures Lookup(c, c[i].did) == Some(c[i])
  {
    if i > 0 {
      DistinctTail(c);
      LookupAt(c[1..], i - 1);
    }
  }

  /** `cache[e.did] = e`: replaces the entry under that key in place, or appends. */
  function Put(c: Cache, e: SubDevice): Cache
  {
    if c == [] then [e]
    else if c[0].did == e.did then [e] + c[1..]
    else [c[0]] + Put(c[1..], e)
  }

  /** Stores the entries one after the other. */
  function PutAll(c: Cache, es: seq<SubDevice>): Cache
    decreases |es|
  {
    if es == [] then c else PutAll(Put(c, es[0]), es[1..])
  }

  /** The last of `es` whose did is `did`. */
  function LastWithDid(es: seq<SubDevice>, did: string): Option<SubDevice>
  {
    if es == [] then None
    else if es[|es| - 1].did == did then Some(es[|es| - 1])
    else LastWithDid(es[..|es| - 1], did)
  }

  /** After `cache[e.did] = e` the key holds `e`, every other key is untouched,
      and keys stay unique. */
  lemma PutSemantics(c: Cache, e: SubDevice, did: string)
    requires DistinctDids(c)
    ensures DistinctDids(Put(c, e))
    ensures Lookup(Put(c, e), did) == if did == e.did then Some(e) else Lookup(c, did)
  {
    PutDistinct(c, e);
    PutLookup(c, e, did);
  }

  /** A store reads back under its did and leaves the other dids' lookups alone. */
  lemma {:induction false} PutLookup(c: Cache, e: SubDevice, did: string)
    ensures Lookup(Put(c, e), did) == if did == e.did then Some(e) else Lookup(c, did)
  {
    if c == [] {
      assert Lookup([e], did) == if did == e.did then Some(e) else Lookup([], did);
    } else if c[0].did == e.did {
      var p := [e] + c[1..];
      assert p[0] == e && p[1..] == c[1..];
    } else {
      PutLookup(c[1..], e, did);
      var p := [c[0]] + Put(c[1..], e);
      assert p[0] == c[0] && p[1..] == Put(c[1..], e);
    }
  }

  /** A store keeps the dids distinct. */
  lemma {:induction false} PutDistinct(c: Cache, e: SubDevice)
    requires DistinctDids(c)
    ensures DistinctDids(Put(c, e))
  {
    if c == [] {
    } else if c[0].did == e.did {
      DistinctTail(c);
      DistinctCons(e, c[1..]);
    } else {
      DistinctTail(c);
      PutDistinct(c[1..], e);
      PutDids(c[1..], e);
      DistinctCons(c[0], Put(c[1..], e));
    }
  }

  /** The tail of a cache with distinct dids has distinct dids, none of them the head's. */
  lemma DistinctTail(c: Cache)
    requires c != [] && DistinctDids(c)
    ensures DistinctDids(c[1..]) && c[0].did !in Dids(c[1..])
  {
    var t := c[1..];
    forall i, j | 0 <= i < j < |t|
      ensures t[i].did != t[j].did
    {
      assert t[i] == c[i + 1] && t[j] == c[j + 1];
    }
    forall k | 0 <= k < |t|
      ensures Dids(t)[k] != c[0].did
    {
      assert Dids(t)[k] == c[k + 1].did;
    }
  }

  /** An entry whose did is new in front of a cache with distinct dids. */
  lemma DistinctCons(x: SubDevice, q: Cache)
    requires DistinctDids(q) && x.did !in Dids(q)
    ensures DistinctDids([x] + q)
  {
    var p := [x] + q;
    forall i, j | 0 <= i < j < |p|
      ensures p[i].did != p[j].did
    {
      assert p[j] == q[j - 1] && Dids(q)[j - 1] == q[j - 1].did;
      if i > 0 {
        assert p[i] == q[i - 1];
      }
    }
  }

  lemma DidsCons(x: SubDevice, c: Cache)
    ensures Dids([x] + c) == [x.did] + Dids(c)
  {
  }

  /** The keys after a store: the old keys, plus the new one at the end when it was absent. */
  lemma {:induction false} PutDids(c: Cache, e: SubDevice)
    ensures Dids(Put(c, e)) == if e.did in Dids(c) then Dids(c) else Dids(c) + [e.did]
  {
    if c == [] {
    } else if c[0].did == e.did {
      DidsCons(c[0], c[1..]);
      DidsCons(e, c[1..]);
      assert [c[0]] + c[1..] == c;
    } else {
      PutDids(c[1..], e);
      DidsCons(c[0], c[1..]);
      DidsCons(c[0], Put(c[1..], e));
      assert [c[0]] + c[1..] == c;
      assert e.did in Dids(c) <==> e.did in Dids(c[1..]);
    }
  }

  /** Storing a list of entries keys each did to the LAST entry carrying it;
      dids the list does not mention keep their old entry. */
  lemma {:induction false} PutAllSemantics(c: Cache, es: seq<SubDevice>, did: string)
    requires DistinctDids(c)
    ensures DistinctDids(PutAll(c, es))
    ensures Lookup(PutAll(c, es), did) == if LastWithDid(es, did).Some? then LastWithDid(es, did) else Lookup(c, did)
    decreases |es|
  {
    if es != [] {
      PutSemantics(c, es[0], did);
      PutAllSemantics(Put(c, es[0]), es[1..], did);
      LastWithDidCons(es, did);
    }
  }

  lemma {:induction false} LastWithDidCons(es: seq<SubDevice>, did: string)
    requires es != []
    ensures LastWithDid(es, did) == if LastWithDid(es[1..], did).Some? then LastWithDid(es[1..], did)
                                    else if es[0].did == did then Some(es[0]) else None
    decreases |es|
  {
    if |es| > 1 && es[|es| - 1].did != did {
      LastWithDidCons(es[..|es| - 1], did);
      assert es[..|es| - 1][1..] == es[1..][..|es[1..]| - 1];
    } else if |es| == 1 {
      assert es[1..] == [];
    }
  }

  // ----- the full-list report (actions 0x5B / 0x5C) -----

  /** The entries read from a report, and whether it was read to its end; a
      field that runs past the end of the payload stops the reading. */
  datatype Decoded = Decoded(entries: seq<SubDevice>, complete: bool)

  /** One record: BE32 `subDid`, online byte, MAC length, MAC, 22-byte did; the
      sub-device takes the product key of its group. Returns the bytes after it.
      A MAC or did cut short by the end of the payload reads as NUL characters
      (`bin2string` past the end), and nothing is left after it. */
  function ParseRecord(b: seq<Byte>, productKey: string): Option<(SubDevice, seq<Byte>)>
  {
    if |b| < 6 then None
    else
      var lenMac := b[5];
      Some((SubDevice(FromBe32(b[..4]), b[4] != 0, Chars(b, 6, lenMac), Chars(b, 6 + lenMac, LEN_DID), productKey),
            From(b, 6 + lenMac + LEN_DID)))
  }

  /** `n` more product groups: a 32-byte product key, a BE16 record count, the records. */
  function Products(b: seq<Byte>, n: nat): Decoded
    decreases n, 0, 0
  {
    if n == 0 then Decoded([], true)
    else if |b| < LEN_PRODUCT_KEY + 2 then Decoded([], false)
    else Records(b[LEN_PRODUCT_KEY + 2..], Chars(b, 0, LEN_PRODUCT_KEY), FromBe16(b[LEN_PRODUCT_KEY..LEN_PRODUCT_KEY + 2]), n - 1)
  }

  /** `m` more records of the group with `productKey`, then `n` more groups. */
  function Records(b: seq<Byte>, productKey: string, m: nat, n: nat): Decoded
    decreases n, 1, m
  {
    if m == 0 then Products(b, n)
    else match ParseRecord(b, productKey)
      case None => Decoded([], false)
      case Some((e, rest)) =>
        var r := Records(rest, productKey, m - 1, n);
        Decoded([e] + r.entries, r.complete)
  }

  /** A whole report: a BE16 product count, then the groups. */
  function DecodeReport(b: seq<Byte>): Decoded
  {
    if |b| < 2 then Decoded([], false) else Products(b[2..], FromBe16(b[..2]))
  }

  /** A record read at `index` of a whole payload. */
  lemma ParseRecordAt(raw: seq<Byte>, index: nat, productKey: string)
    requires index + 6 <= |raw|
    ensures ParseRecord(From(raw, index), productKey)
            == Some((SubDevice(FromBe32(raw[index..index + 4]), raw[index + 4] != 0, Chars(raw, index + 6, raw[index + 5]),
                               Chars(raw, index + 6 + raw[index + 5], LEN_DID), productKey),
                     From(raw, index + 6 + raw[index + 5] + LEN_DID)))
  {
    var b := From(raw, index);
    var lenMac := raw[index + 5];
    var subDid := FromBe32(raw[index..index + 4]);
    var mac := Chars(raw, index + 6, lenMac);
    var did := Chars(raw, index + 6 + lenMac, LEN_DID);
    var rest := From(raw, index + 6 + lenMac + LEN_DID);
    assert b[4] == raw[index + 4] && b[5] == lenMac;
    assert subDid == FromBe32(b[..4]) by {
      assert b[..4] == raw[index..index + 4];
    }
    assert mac == Chars(b, 6, b[5]) by {
      CharsFrom(raw, index, 6, lenMac);
    }
    assert did == Chars(b, 6 + b[5] as int, LEN_DID) by {
      CharsFrom(raw, index, 6 + lenMac as int, LEN_DID);
    }
    assert rest == From(b, 6 + b[5] as int + LEN_DID) by {
      FromFrom(raw, index, 6 + lenMac as int + LEN_DID);
    }
    ParseRecordIs(b, productKey, subDid, raw[index + 4] != 0, mac, did, rest);
  }

  /** A record with its six header bytes parses to the fields read from them. */
  lemma ParseRecordIs(b: seq<Byte>, productKey: string, subDid: nat, isOnline: bool, mac: string, did: string, rest: seq<Byte>)
    requires 6 <= |b| && subDid == FromBe32(b[..4]) && isOnline == (b[4] != 0)
    requires mac == Chars(b, 6, b[5]) && did == Chars(b, 6 + b[5] as int, LEN_DID) && rest == From(b, 6 + b[5] as int + LEN_DID)
    ensures ParseRecord(b, productKey) == Some((SubDevice(subDid, isOnline, mac, did, productKey), rest))
  {
  }

  /** A group header read at `index` of a whole payload. */
  lemma ProductsAt(raw: seq<Byte>, index: nat, n: nat)
    requires n > 0 && index + LEN_PRODUCT_KEY + 2 <= |raw|
    ensures Products(From(raw, index), n)
            == Records(From(raw, index + LEN_PRODUCT_KEY + 2), Chars(raw, index, LEN_PRODUCT_KEY),
                       FromBe16(raw[index + LEN_PRODUCT_KEY..index + LEN_PRODUCT_KEY + 2]), n - 1)
  {
    var b := From(raw, index);
    assert b[LEN_PRODUCT_KEY..LEN_PRODUCT_KEY + 2] == raw[index + LEN_PRODUCT_KEY..index + LEN_PRODUCT_KEY + 2];
    CharsFrom(raw, index, 0, LEN_PRODUCT_KEY);
    FromFrom(raw, index, LEN_PRODUCT_KEY + 2);
  }

  lemma PutAllCons(c: Cache, e: SubDevice, es: seq<SubDevice>)
    ensures PutAll(c, [e] + es) == PutAll(Put(c, e), es)
  {
    assert ([e] + es)[1..] == es;
  }

  /** One record of `_processSubdevicesReport`, field by field. */
  method ReadRecord(raw: seq<Byte>, index: nat, productKey: string) returns (subDevice: SubDevice, next: nat)
    requires index + 6 <= |raw|
    ensures ParseRecord(From(raw, index), productKey) == Some((subDevice, From(raw, next)))
  {
    var subDid := FromBe32(raw[index..index + 4]);
    var isOnline := raw[index + 4] != 0;
    var lenMac := raw[index + 5];
    var mac := Bin2String(raw, index + 6, lenMac);
    var did := Bin2String(raw, index + 6 + lenMac, LEN_DID);
    subDevice := SubDevice(subDid, isOnline, mac, did, productKey);
    next := index + 6 + lenMac + LEN_DID;
    ParseRecordAt(raw, index, productKey);
  }

  /** `_processSubdevicesReport`: reads the report into a fresh cache, storing
      each sub-device under its did as it is read. `complete` is false when a
      field ran past the end of the payload; the source throws there, and the
      entries stored before stay in the cache. */
  method ReadReport(raw: seq<Byte>) returns (cache: Cache, complete: bool)
    ensures cache == PutAll([], DecodeReport(raw).entries)
    ensures complete == DecodeReport(raw).complete
    ensures DistinctDids(cache)
  {
    cache := [];
    if |raw| < 2 {
      return cache, false;
    }
    ghost var target := DecodeReport(raw);
    var productNum := FromBe16(raw[..2]);
    var index: nat := 2;
    var i: nat := 0;
    while i < productNum
      invariant i <= productNum
      invariant DistinctDids(cache)
      invariant PutAll(cache, Products(From(raw, index), productNum - i).entries) == PutAll([], target.entries)
      invariant Products(From(raw, index), productNum - i).complete == target.complete
    {
      var ok;
      cache, index, ok := ReadProduct(raw, index, productNum - i, cache);
      if !ok {
        return cache, false;
      }
      i := i + 1;
    }
    complete := true;
  }

  /** One pass of the outer loop of `_processSubdevicesReport`: the product
      key and record count of the group at `index`, then its records; `n`
      counts this group and the ones after it. `ok` is false when the group's
      header or one of its records runs past the end. */
  method ReadProduct(raw: seq<Byte>, index: nat, n: nat, cache: Cache) returns (result: Cache, next: nat, ok: bool)
    requires n > 0 && DistinctDids(cache)
    ensures DistinctDids(result)
    ensures var p := Products(From(raw, index), n);
            ok ==> PutAll(result, Products(From(raw, next), n - 1).entries) == PutAll(cache, p.entries)
                   && Products(From(raw, next), n - 1).complete == p.complete
    ensures var p := Products(From(raw, index), n);
            !ok ==> result == PutAll(cache, p.entries) && !p.complete
  {
    if |raw| < index + LEN_PRODUCT_KEY + 2 {
      return cache, index, false;
    }
    var productKey := Bin2String(raw, index, LEN_PRODUCT_KEY);
    var subDevicesNum := FromBe16(raw[index + LEN_PRODUCT_KEY..index + LEN_PRODUCT_KEY + 2]);
    var at := index + LEN_PRODUCT_KEY + 2;
    var later: nat := n - 1;
    ghost var group := Records(From(raw, at), productKey, subDevicesNum, later);
    ProductsAt(raw, index, n);
    assert Products(From(raw, index), n) == group;
    result, next, ok := ReadRecords(raw, at, productKey, subDevicesNum, later, cache);
  }

  /** The inner loop of `_processSubdevicesReport`: the `count` records of
      one group, read from `index` and stored into `cache` one by one; `ok` is
      false when a record header runs past the end. */
  method ReadRecords(raw: seq<Byte>, index: nat, productKey: string, count: nat, n: nat, cache: Cache)
    returns (result: Cache, next: nat, ok: bool)
    requires DistinctDids(cache)
    ensures DistinctDids(result)
    ensures var r := Records(From(raw, index), productKey, count, n);
            ok ==> PutAll(result, Products(From(raw, next), n).entries) == PutAll(cache, r.entries)
                   && Products(From(raw, next), n).complete == r.complete
    ensures var r := Records(From(raw, index), productKey, count, n);
            !ok ==> result == PutAll(cache, r.entries) && !r.complete
  {
    result, next := cache, index;
    ghost var goal := Records(From(raw, index), productKey, count, n);
    ghost var pending := goal;
    var j: nat := 0;
    while j < count
      invariant j <= count
      invariant DistinctDids(result)
      invariant pending == Records(From(raw, next), productKey, count - j, n)
      invariant PutAll(result, pending.entries) == PutAll(cache, goal.entries) && pending.complete == goal.complete
    {
      var left: nat := count - j - 1;
      result, next, ok := StoreRecord(raw, next, productKey, left, n, result);
      if !ok {
        return;
      }
      pending := Records(From(raw, next), productKey, left, n);
      j := j + 1;
    }
    ok := true;
  }

  /** One pass of the inner loop of `_processSubdevicesReport`: the record at
      `index` is read and stored, `left` records of the group remaining after
      it; `ok` is false, and nothing is stored, when its header runs past the
      end. */
  method StoreRecord(raw: seq<Byte>, index: nat, productKey: string, left: nat, n: nat, cache: Cache)
    returns (result: Cache, next: nat, ok: bool)
    requires DistinctDids(cache)
    ensures DistinctDids(result)
    ensures var r := Records(From(raw, index), productKey, left + 1, n);
            ok ==> PutAll(result, Records(From(raw, next), productKey, left, n).entries) == PutAll(cache, r.entries)
                   && Records(From(raw, next), productKey, left, n).complete == r.complete
    ensures var r := Records(From(raw, index), productKey, left + 1, n);
            !ok ==> result == PutAll(cache, r.entries) && !r.complete
  {
    if |raw| < index + 6 {
      return cache, index, false;
    }
    var subDevice;
    subDevice, next := ReadRecord(raw, index, productKey);
    ghost var more := Records(From(raw, next), productKey, left, n);
    assert Records(From(raw, index), productKey, left + 1, n).entries == [subDevice] + more.entries;
    PutAllCons(cache, subDevice, more.entries);
    PutDistinct(cache, subDevice);
    result, ok := Put(cache, subDevice), true;
  }

  // ----- the online-status report (action 0x10) -----

  /** The status payload: BE32 `subDid`, then the online byte; a missing online
      byte (`!!undefined`) reads as offline. None when the `subDid` is cut short,
      where `getUint32` throws. */
  function DecodeOnlineReport(p: seq<Byte>): Option<(nat, bool)>
  {
    if |p| < 4 then None else Some((FromBe32(p[..4]), |p| > 4 && p[4] != 0))
  }

  /** The position of the first entry, in key order, with this `subDid`. */
  function FirstWithSubDid(c: Cache, subDid: nat): (r: Option<nat>)
    ensures r.Some? ==> r.value < |c| && c[r.value].subDid == subDid
                        && forall k :: 0 <= k < r.value ==> c[k].subDid != subDid
    ensures r.None? ==> forall k :: 0 <= k < |c| ==> c[k].subDid != subDid
  {
    if c == [] then None
    else if c[0].subDid == subDid then Some(0)
    else match FirstWithSubDid(c[1..], subDid)
      case None => None
      case Some(k) => Some(k + 1)
  }

  /** The cache after the first entry with `subDid` is marked `online`. */
  function SetOnline(c: Cache, subDid: nat, online: bool): Cache
  {
    match FirstWithSubDid(c, subDid)
    case None => c
    case Some(k) => c[k := c[k].(isOnline := online)]
  }

  /** The status change touches the online flag of one entry at most: the keys,
      their order and every other field stay, so dids stay distinct. */
  lemma SetOnlineEffect(c: Cache, subDid: nat, online: bool)
    ensures |SetOnline(c, subDid, online)| == |c|
    ensures Dids(SetOnline(c, subDid, online)) == Dids(c)
    ensures DistinctDids(c) ==> DistinctDids(SetOnline(c, subDid, online))
    ensures forall k :: 0 <= k < |c| ==>
              SetOnline(c, subDid, online)[k]
              == if c[k].subDid == subDid && (forall j :: 0 <= j < k ==> c[j].subDid != subDid)
                 then c[k].(isOnline := online) else c[k]
  {
    var r := SetOnline(c, subDid, online);
    forall k | 0 <= k < |c|
      ensures r[k].did == c[k].did
    {
    }
  }

  /** `_processSubdeviceOnlineReport`: finds the first entry with the `subDid`
      in key order and sets its online flag. */
  method PatchOnline(c: Cache, subDid: nat, online: bool) returns (r: Cache)
    ensures r == SetOnline(c, subDid, online)
  {
    var i := 0;
    while i < |c|
      invariant 0 <= i <= |c|
      invariant forall k :: 0 <= k < i ==> c[k].subDid != subDid
    {
      if c[i].subDid == subDid {
        return c[i := c[i].(isOnline := online)];
      }
      i := i + 1;
    }
    return c;
  }

  // ----- the report's encoding, the inverse the gateway device applies -----

  datatype Group = Group(productKey: string, devices: seq<SubDevice>)

  function EncodeRecord(e: SubDevice): seq<Byte>
    requires IsAscii(e.mac) && IsAscii(e.did)
  {
    Be32(e.subDid) + [if e.isOnline then 1 else 0] + [|e.mac| % 0x100] + AsciiBytes(e.mac) + AsciiBytes(e.did)
  }

  predicate RecordOk(e: SubDevice, productKey: string)
  {
    e.subDid < TWO_32 && IsAscii(e.mac) && |e.mac| < 0x100 && IsAscii(e.did) && |e.did| == LEN_DID
    && e.productKey == productKey
  }

  predicate GroupOk(g: Group)
  {
    IsAscii(g.productKey) && |g.productKey| == LEN_PRODUCT_KEY && |g.devices| < TWO_16
    && forall i :: 0 <= i < |g.devices| ==> RecordOk(g.devices[i], g.productKey)
  }

  predicate GroupsOk(gs: seq<Group>)
  {
    |gs| < TWO_16 && forall i :: 0 <= i < |gs| ==> GroupOk(gs[i])
  }

  function EncodeRecords(es: seq<SubDevice>, productKey: string): seq<Byte>
    requires forall i :: 0 <= i < |es| ==> RecordOk(es[i], productKey)
  {
    if es == [] then []
    else
      assert RecordOk(es[0], productKey);
      EncodeRecord(es[0]) + EncodeRecords(es[1..], productKey)
  }

  function EncodeGroups(gs: seq<Group>): seq<Byte>
    requires forall i :: 0 <= i < |gs| ==> GroupOk(gs[i])
  {
    if gs == [] then []
    else
      assert GroupOk(gs[0]);
      AsciiBytes(gs[0].productKey) + Be16(|gs[0].devices|) + EncodeRecords(gs[0].devices, gs[0].productKey) + EncodeGroups(gs[1..])
  }

  function EncodeReport(gs: seq<Group>): seq<Byte>
    requires GroupsOk(gs)
  {
    Be16(|gs|) + EncodeGroups(gs)
  }

  /** All sub-devices of all groups, in report order. */
  function Entries(gs: seq<Group>): seq<SubDevice>
  {
    if gs == [] then [] else gs[0].devices + Entries(gs[1..])
  }

  lemma ParseEncodedRecord(e: SubDevice, productKey: string, rest: seq<Byte>)
    requires RecordOk(e, productKey)
    ensures ParseRecord(EncodeRecord(e) + rest, productKey) == Some((e, rest))
  {
    var b := EncodeRecord(e) + rest;
    var lenMac := |e.mac|;
    assert b[..4] == Be32(e.subDid);
    Be32RoundTrip(e.subDid);
    assert b[5] == lenMac;
    assert b == Be32(e.subDid) + [b[4], b[5]] + AsciiBytes(e.mac) + (AsciiBytes(e.did) + rest);
    CharsOfAscii(e.mac, Be32(e.subDid) + [b[4], b[5]], AsciiBytes(e.did) + rest);
    assert b == (Be32(e.subDid) + [b[4], b[5]] + AsciiBytes(e.mac)) + AsciiBytes(e.did) + rest;
    CharsOfAscii(e.did, Be32(e.subDid) + [b[4], b[5]] + AsciiBytes(e.mac), rest);
    assert b[6 + lenMac + LEN_DID..] == rest;
  }

  /** Reading one group header: the product key, then the record count. */
  lemma ProductsStep(b: seq<Byte>, productKey: string, count: nat, recs: seq<Byte>, n: nat)
    requires IsAscii(productKey) && |productKey| == LEN_PRODUCT_KEY && count < TWO_16 && n > 0
    requires b == AsciiBytes(productKey) + Be16(count) + recs
    ensures Products(b, n) == Records(recs, productKey, count, n - 1)
  {
    var key, cnt := AsciiBytes(productKey), Be16(count);
    Reassociate(key, cnt, recs);
    SplitAfter(key, cnt + recs);
    SplitAfter(cnt, recs);
    assert b[LEN_PRODUCT_KEY..LEN_PRODUCT_KEY + 2] == cnt;
    assert b[LEN_PRODUCT_KEY + 2..] == recs;
    assert [] + key + (cnt + recs) == b;
    CharsOfAscii(productKey, [], cnt + recs);
    Be16RoundTrip(count);
    DivModUnique(count, TWO_16, 0, count);
  }

  /** Reading one record of a group. */
  lemma RecordsStep(e: SubDevice, productKey: string, tail: seq<Byte>, m: nat, n: nat)
    requires RecordOk(e, productKey) && m > 0
    ensures Records(EncodeRecord(e) + tail, productKey, m, n)
            == Decoded([e] + Records(tail, productKey, m - 1, n).entries, Records(tail, productKey, m - 1, n).complete)
  {
    ParseEncodedRecord(e, productKey, tail);
  }

  lemma {:induction false} DecodeEncodedRecords(es: seq<SubDevice>, productKey: string, gs: seq<Group>, rest: seq<Byte>)
    requires forall i :: 0 <= i < |es| ==> RecordOk(es[i], productKey)
    requires forall i :: 0 <= i < |gs| ==> GroupOk(gs[i])
    ensures Records(EncodeRecords(es, productKey) + EncodeGroups(gs) + rest, productKey, |es|, |gs|)
            == Decoded(es + Entries(gs), true)
    decreases |gs|, 1, |es|
  {
    if es == [] {
      DecodeEncodedGroups(gs, rest);
      assert EncodeRecords(es, productKey) == [];
      assert [] + EncodeGroups(gs) == EncodeGroups(gs);
    } else {
      var others := es[1..];
      assert forall i :: 0 <= i < |others| ==> RecordOk(others[i], productKey) by {
        forall i | 0 <= i < |others|
          ensures RecordOk(others[i], productKey)
        {
          assert others[i] == es[i + 1];
        }
      }
      DecodeEncodedRecords(others, productKey, gs, rest);
      RecordsCons(es, productKey, gs, rest);
    }
  }

  /** One more record in front of a group's records that read back. */
  lemma RecordsCons(es: seq<SubDevice>, productKey: string, gs: seq<Group>, rest: seq<Byte>)
    requires es != [] && forall i :: 0 <= i < |es| ==> RecordOk(es[i], productKey)
    requires forall i :: 0 <= i < |gs| ==> GroupOk(gs[i])
    requires Records(EncodeRecords(es[1..], productKey) + EncodeGroups(gs) + rest, productKey, |es[1..]|, |gs|)
             == Decoded(es[1..] + Entries(gs), true)
    ensures Records(EncodeRecords(es, productKey) + EncodeGroups(gs) + rest, productKey, |es|, |gs|)
            == Decoded(es + Entries(gs), true)
  {
    var tail := EncodeRecords(es[1..], productKey) + EncodeGroups(gs) + rest;
    EncodeRecordsCons(es, productKey, EncodeGroups(gs), rest);
    RecordsStep(es[0], productKey, tail, |es|, |gs|);
    assert |es[1..]| == |es| - 1;
    ConsAppend(es, Entries(gs));
  }

  /** The bytes of a non-empty record list followed by more: the first record, then the rest. */
  lemma EncodeRecordsCons(es: seq<SubDevice>, productKey: string, groups: seq<Byte>, rest: seq<Byte>)
    requires es != [] && forall i :: 0 <= i < |es| ==> RecordOk(es[i], productKey)
    ensures RecordOk(es[0], productKey)
    ensures EncodeRecords(es, productKey) + groups + rest
            == EncodeRecord(es[0]) + (EncodeRecords(es[1..], productKey) + groups + rest)
  {
    assert RecordOk(es[0], productKey);
    var first, others := EncodeRecord(es[0]), EncodeRecords(es[1..], productKey);
    assert EncodeRecords(es, productKey) == first + others;
    Reassociate(first, others, groups);
    Reassociate(first, others + groups, rest);
  }

  lemma {:induction false} DecodeEncodedGroups(gs: seq<Group>, rest: seq<Byte>)
    requires forall i :: 0 <= i < |gs| ==> GroupOk(gs[i])
    ensures Products(EncodeGroups(gs) + rest, |gs|) == Decoded(Entries(gs), true)
    decreases |gs|, 0, 0
  {
    if gs != [] {
      var g := gs[0];
      assert GroupOk(g);
      var recs := EncodeRecords(g.devices, g.productKey) + EncodeGroups(gs[1..]) + rest;
      assert EncodeGroups(gs) + rest == AsciiBytes(g.productKey) + Be16(|g.devices|) + recs;
      ProductsStep(EncodeGroups(gs) + rest, g.productKey, |g.devices|, recs, |gs|);
      DecodeEncodedRecords(g.devices, g.productKey, gs[1..], rest);
    }
  }

  /** A well-formed report reads back as exactly the sub-devices it lists, in
      order, each with its group's product key, its BE32 `subDid`, its online
      flag, its MAC and its did. */
  lemma ReportRoundTrip(gs: seq<Group>)
    requires GroupsOk(gs)
    ensures DecodeReport(EncodeReport(gs)) == Decoded(Entries(gs), true)
  {
    var b := EncodeReport(gs);
    assert b[..2] == Be16(|gs|);
    Be16RoundTrip(|gs|);
    assert b[2..] == EncodeGroups(gs) + [];
    assert FromBe16(b[..2]) == |gs|;
    assert DecodeReport(b) == Products(b[2..], |gs|);
    DecodeEncodedGroups(gs, []);
  }

  /** After a well-formed report the cache keys every listed did to the last
      record carrying it, and holds nothing else. */
  lemma ReportCache(gs: seq<Group>, did: string)
    requires GroupsOk(gs)
    ensures DecodeReport(EncodeReport(gs)).complete
    ensures Lookup(PutAll([], DecodeReport(EncodeReport(gs)).entries), did) == LastWithDid(Entries(gs), did)
  {
    ReportRoundTrip(gs);
    PutAllSemantics([], Entries(gs), did);
  }
}
