/** `list_my_devices`: the remote channel list shaped into device records and
    ordered online-first, then by `device_id`. Fetching the list is not modelled:
    its outcome is passed in. */
module Devices {
  import opened Wrappers

  /** One entry as `remote_devices_for_user` returns it; a missing or `None` play
      address is `None`. */
  datatype RemoteDevice = RemoteDevice(id: string, name: Option<string>, status: bool, streamUrl: Option<string>)

  /** One entry of the `devices` answer. */
  datatype DeviceItem = DeviceItem(deviceId: string, online: bool, lastSeen: int, streamUrl: string,
                                   metaName: Option<string>)

  datatype DevicesResponse =
    | DeviceList(devices: seq<DeviceItem>)
    | DevicesFailed(error: string)

  /** The record built for one remote entry. */
  function Shape(d: RemoteDevice): (item: DeviceItem)
    ensures item.deviceId == d.id && item.online == d.status && item.metaName == d.name
    ensures item.lastSeen == 0
    ensures d.streamUrl.None? ==> item.streamUrl == ""
    ensures d.streamUrl.Some? ==> item.streamUrl == d.streamUrl.value
  {
    DeviceItem(d.id, d.status, 0, if d.streamUrl.None? || d.streamUrl.value == "" then "" else d.streamUrl.value, d.name)
  }

  function ShapeAll(devs: seq<RemoteDevice>): (items: seq<DeviceItem>)
    ensures |items| == |devs| && forall i | 0 <= i < |devs| :: items[i] == Shape(devs[i])
  {
    seq(|devs|, i requires 0 <= i < |devs| => Shape(devs[i]))
  }

  /** Python's `<` on strings: lexicographic by code point, a proper prefix first. */
  predicate StrLess(a: string, b: string) {
    if a == [] then b != []
    else if b == [] then false
    else if a[0] != b[0] then a[0] < b[0]
    else StrLess(a[1..], b[1..])
  }

  lemma {:induction false} StrLessIrreflexive(a: string)
    ensures !StrLess(a, a)
  {
    if a != [] {
      StrLessIrreflexive(a[1..]);
    }
  }

  lemma {:induction false} StrLessTransitive(a: string, b: string, c: string)
    requires StrLess(a, b) && StrLess(b, c)
    ensures StrLess(a, c)
  {
    if a != [] && b != [] && c != [] && a[0] == b[0] && b[0] == c[0] {
      StrLessTransitive(a[1..], b[1..], c[1..]);
    }
  }

  lemma {:induction false} StrLessTotal(a: string, b: string)
    requires a != b
    ensures StrLess(a, b) || StrLess(b, a)
  {
    if a != [] && b != [] && a[0] == b[0] {
      assert a == [a[0]] + a[1..] && b == [b[0]] + b[1..];
      StrLessTotal(a[1..], b[1..]);
    }
  }

  /** The sort key `(not online, device_id)`. */
  function Key(item: DeviceItem): (bool, string) {
    (!item.online, item.deviceId)
  }

  /** `Key(a) < Key(b)` as Python compares tuples: `False` before `True`, then the ids. */
  predicate KeyLess(a: DeviceItem, b: DeviceItem) {
    (a.online && !b.online) || (a.online == b.online && StrLess(a.deviceId, b.deviceId))
  }

  predicate KeyAtMost(a: DeviceItem, b: DeviceItem) {
    KeyLess(a, b) || Key(a) == Key(b)
  }

  lemma KeyAtMostTransitive(a: DeviceItem, b: DeviceItem, c: DeviceItem)
    requires KeyAtMost(a, b) && KeyAtMost(b, c)
    ensures KeyAtMost(a, c)
  {
    if a.online == b.online == c.online && StrLess(a.deviceId, b.deviceId) && StrLess(b.deviceId, c.deviceId) {
      StrLessTransitive(a.deviceId, b.deviceId, c.deviceId);
    }
  }

  lemma KeyAtMostTotal(a: DeviceItem, b: DeviceItem)
    ensures KeyAtMost(a, b) || KeyAtMost(b, a)
  {
    if a.online == b.online && a.deviceId != b.deviceId {
      StrLessTotal(a.deviceId, b.deviceId);
    }
  }

  predicate Sorted(s: seq<DeviceItem>) {
    forall i, j | 0 <= i < j < |s| :: KeyAtMost(s[i], s[j])
  }

  /** The entries of `s` with sort key `k`, in their order in `s`. */
  function WithKey(s: seq<DeviceItem>, k: (bool, string)): seq<DeviceItem> {
    if s == [] then [] else (if Key(s[0]) == k then [s[0]] else []) + WithKey(s[1..], k)
  }

  /** `x` placed before the first entry whose key is not below its own. */
  function Insert(x: DeviceItem, s: seq<DeviceItem>): (r: seq<DeviceItem>)
    ensures multiset(r) == multiset(s) + multiset{x}
    ensures Sorted(s) ==> Sorted(r)
  {
    if s == [] then [x]
    else if KeyAtMost(x, s[0]) then
      assert Sorted(s) ==> Sorted([x] + s) by {
        if Sorted(s) { ConsBelowHead(x, s); }
      }
      [x] + s
    else
      var rest := Insert(x, s[1..]);
      assert s == [s[0]] + s[1..];
      assert Sorted(s) ==> Sorted([s[0]] + rest) by {
        if Sorted(s) { KeyAtMostTotal(x, s[0]); ConsBelowAll(s[0], rest, x, s[1..]); }
      }
      [s[0]] + rest
  }

  /** An entry no greater than the head of a sorted list may go in front of it. */
  lemma ConsBelowHead(y: DeviceItem, s: seq<DeviceItem>)
    requires Sorted(s) && s != [] && KeyAtMost(y, s[0])
    ensures Sorted([y] + s)
  {
    var r := [y] + s;
    forall i, j | 0 <= i < j < |r| ensures KeyAtMost(r[i], r[j]) {
      assert r[j] == s[j - 1];
      if i == 0 {
        if j > 1 { KeyAtMostTransitive(y, s[0], s[j - 1]); }
      } else {
        assert r[i] == s[i - 1];
      }
    }
  }

  /** An entry no greater than every entry of a sorted list may go in front of it;
      here the list holds `x` and the entries of `t`, all at least `y`. */
  lemma ConsBelowAll(y: DeviceItem, rest: seq<DeviceItem>, x: DeviceItem, t: seq<DeviceItem>)
    requires Sorted(rest) && multiset(rest) == multiset(t) + multiset{x}
    requires KeyAtMost(y, x) && forall k | 0 <= k < |t| :: KeyAtMost(y, t[k])
    ensures Sorted([y] + rest)
  {
    var r := [y] + rest;
    forall i, j | 0 <= i < j < |r| ensures KeyAtMost(r[i], r[j]) {
      assert r[j] == rest[j - 1];
      if i == 0 {
        assert rest[j - 1] in multiset(rest);
        if rest[j - 1] != x {
          assert rest[j - 1] in multiset(t);
          var k :| 0 <= k < |t| && t[k] == rest[j - 1];
        }
      } else {
        assert r[i] == rest[i - 1];
      }
    }
  }

  /** Python's `list.sort` with that key: a stable sort, modelled as insertion sort. */
  function SortDevices(s: seq<DeviceItem>): (r: seq<DeviceItem>)
    ensures Sorted(r)
    ensures multiset(r) == multiset(s)
  {
    if s == [] then []
    else
      assert s == [s[0]] + s[1..];
      Insert(s[0], SortDevices(s[1..]))
  }

  lemma {:induction false} WithKeyInsert(x: DeviceItem, s: seq<DeviceItem>, k: (bool, string))
    ensures WithKey(Insert(x, s), k) == (if Key(x) == k then [x] else []) + WithKey(s, k)
  {
    if s == [] || KeyAtMost(x, s[0]) {
      assert Insert(x, s) == [x] + s;
      WithKeyCons(x, s, k);
    } else {
      var rest := Insert(x, s[1..]);
      var hx := if Key(x) == k then [x] else [];
      var h0 := if Key(s[0]) == k then [s[0]] else [];
      calc {
        WithKey(Insert(x, s), k);
        { assert Insert(x, s) == [s[0]] + rest; }
        WithKey([s[0]] + rest, k);
        { WithKeyCons(s[0], rest, k); }
        h0 + WithKey(rest, k);
        { WithKeyInsert(x, s[1..], k); }
        h0 + (hx + WithKey(s[1..], k));
        { assert h0 == [] || hx == []; }
        hx + (h0 + WithKey(s[1..], k));
        { assert s == [s[0]] + s[1..]; WithKeyCons(s[0], s[1..], k); }
        hx + WithKey(s, k);
      }
    }
  }

  lemma WithKeyCons(a: DeviceItem, s: seq<DeviceItem>, k: (bool, string))
    ensures WithKey([a] + s, k) == (if Key(a) == k then [a] else []) + WithKey(s, k)
  {
    assert ([a] + s)[0] == a && ([a] + s)[1..] == s;
  }

  /** Entries with equal keys keep their relative order: the sort is stable. */
  lemma {:induction false} SortIsStable(s: seq<DeviceItem>, k: (bool, string))
    ensures WithKey(SortDevices(s), k) == WithKey(s, k)
  {
    if s != [] {
      SortIsStable(s[1..], k);
      WithKeyInsert(s[0], SortDevices(s[1..]), k);
    }
  }

  /** In a sorted list every online device comes before every offline one, and within
      each group the ids ascend. */
  lemma SortedOrder(s: seq<DeviceItem>, i: nat, j: nat)
    requires Sorted(s) && i < j < |s|
    ensures s[i].online || !s[j].online
    ensures s[i].online == s[j].online ==> s[i].deviceId == s[j].deviceId || StrLess(s[i].deviceId, s[j].deviceId)
  {
  }

  /** The `items.append(...)` loop of `list_my_devices` followed by `items.sort(...)`. */
  method BuildItems(devs: seq<RemoteDevice>) returns (items: seq<DeviceItem>)
    ensures Sorted(items)
    ensures multiset(items) == multiset(ShapeAll(devs))
    ensures forall k :: WithKey(items, k) == WithKey(ShapeAll(devs), k)
    ensures forall it | it in items :: it.lastSeen == 0 && exists d | d in devs :: it == Shape(d)
  {
    items := [];
    var i := 0;
    while i < |devs|
      invariant 0 <= i <= |devs|
      invariant items == ShapeAll(devs)[..i]
    {
      var d := devs[i];
      items := items + [Shape(d)];
      i := i + 1;
    }
    assert items == ShapeAll(devs);
    var unsorted := items;
    items := SortDevices(items);
    forall k ensures WithKey(items, k) == WithKey(unsorted, k) {
      SortIsStable(unsorted, k);
    }
    forall it | it in items ensures it.lastSeen == 0 && exists d | d in devs :: it == Shape(d) {
      assert it in multiset(unsorted);
      var j :| 0 <= j < |unsorted| && unsorted[j] == it;
      assert devs[j] in devs;
    }
  }

  /** `list_my_devices` after the login check: `fetched` is what
      `remote_devices_for_user` returned or the description of what it raised. */
  method ListMyDevices(fetched: Result<seq<RemoteDevice>, string>) returns (resp: DevicesResponse)
    ensures fetched.Failure? ==> resp == DevicesFailed("fetch remote devices failed: " + fetched.error)
    ensures fetched.Success? ==>
              && resp.DeviceList?
              && Sorted(resp.devices)
              && multiset(resp.devices) == multiset(ShapeAll(fetched.value))
              && forall k :: WithKey(resp.devices, k) == WithKey(ShapeAll(fetched.value), k)
  {
    if fetched.Failure? {
      return DevicesFailed("fetch remote devices failed: " + fetched.error);
    }
    var items := BuildItems(fetched.value);
    resp := DeviceList(items);
  }
}
