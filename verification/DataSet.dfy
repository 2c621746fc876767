/** Data sets on their way from the client library to the server's store and back.

  D-Bus carries doubles and integers as values; both ends keep them in network byte order by
  writing the encoded bytes into memory and passing the value those bytes have natively.
  `little` is the byte order of the machine both ends run on; a stored data set may be read on another
  machine. */
module DataSet {
  import opened Bytes
  import opened Store
  import opened ConfigStore
  import opened Sequences

  /** A config value as the client application sees it; a double is its 64-bit pattern. */
  datatype Value = Double(bits: nat) | Integer(n: nat) | String(s: Text) | Raw(bytes: Text)

  /** A variant inside a D-Bus dict entry. */
  datatype Variant = VDouble(bits: nat) | VInteger(n: nat) | VString(s: Text) | VRaw(bytes: Text)

  datatype Entry = Entry(key: Text, variant: Variant)

  function Native(little: bool, n: nat, k: nat): (s: Text)
    ensures |s| == k
  {
    if little then Flip(BigEndian(n, k)) else BigEndian(n, k)
  }

  function FromNative(little: bool, s: Text): nat {
    FromBigEndian(if little then Flip(s) else s)
  }

  lemma NativeRoundTrip(little: bool, n: nat, k: nat)
    requires n < Pow256(k)
    ensures FromNative(little, Native(little, n, k)) == n
  {
    FlipTwice(BigEndian(n, k));
    BigEndianRoundTrip(n, k);
  }

  lemma FromNativeRoundTrip(little: bool, s: Text)
    ensures FromNative(little, s) < Pow256(|s|) && Native(little, FromNative(little, s), |s|) == s
  {
    FlipTwice(s);
    FromBigEndianRoundTrip(if little then Flip(s) else s);
  }

  // ------------------------------------------------------------------ one value

  /** Values that exist in memory; text has no NUL, raw blocks are not empty. */
  predicate InMemory(v: Value) {
    match v
    case Double(bits) => bits < Pow256(8)
    case Integer(n) => n < Pow256(4)
    case String(s) => |s| + 1 < Pow256(4) && forall i :: 0 <= i < |s| ==> s[i] != 0
    case Raw(bytes) => 0 < |bytes| < Pow256(4)
  }

  /** lash_config_write and lash_config_write_raw: what goes into the message. */
  function Encode(little: bool, v: Value): Variant {
    match v
    case Double(bits) => VDouble(FromNative(little, BigEndian(bits, 8)))
    case Integer(n) => VInteger(FromNative(little, BigEndian(n, 4)))
    case String(s) => VString(s)
    case Raw(bytes) => VRaw(bytes)
  }

  /** get_and_set_config: the bytes that go into the store, and their type. */
  function StoredBytes(little: bool, w: Variant): (Text, Byte) {
    match w
    case VDouble(bits) => (Native(little, bits, 8), TYPE_DOUBLE)
    case VInteger(n) => (Native(little, n, 4), TYPE_INTEGER)
    case VString(s) => (s + [0], TYPE_STRING)
    case VRaw(bytes) => (bytes, TYPE_RAW)
  }

  /** The text before the first NUL. */
  function CString(s: Text): Text {
    if s == [] || s[0] == 0 then [] else [s[0]] + CString(s[1..])
  }

  /** store_create_config_array: what a stored value becomes in a message. */
  function ToVariant(little: bool, value: Text, typ: Byte): Variant {
    if typ == TYPE_DOUBLE then VDouble(FromNative(little, value))
    else if typ == TYPE_INTEGER then VInteger(FromNative(little, value))
    else if typ == TYPE_STRING then VString(CString(value))
    else VRaw(value)
  }

  /** lash_config_read: the value handed to the application; an empty string is an error. */
  function Decode(little: bool, w: Variant): Option<Value> {
    match w
    case VDouble(bits) => Some(Double(FromBigEndian(Native(little, bits, 8))))
    case VInteger(n) => Some(Integer(FromBigEndian(Native(little, n, 4))))
    case VString(s) => if s == [] then None else Some(String(s))
    case VRaw(bytes) => Some(Raw(bytes))
  }

  /** The size of a value that has been read: a string's does not count its NUL. */
  function SizeOf(v: Value): nat {
    match v
    case Double(_) => 8
    case Integer(_) => 4
    case String(s) => |s|
    case Raw(bytes) => |bytes|
  }

  /** Text ends at its first NUL, whatever stands behind. */
  lemma {:induction false} CStringOf(s: Text, rest: Text)
    requires forall i :: 0 <= i < |s| ==> s[i] != 0
    ensures CString(s + [0] + rest) == s && CString(s) == s
  {
    if s != [] {
      assert (s + [0] + rest)[1..] == s[1..] + [0] + rest;
      CStringOf(s[1..], rest);
    }
  }

  lemma StoredFits(little: bool, v: Value)
    requires InMemory(v)
    ensures var (bytes, typ) := StoredBytes(little, Encode(little, v));
            0 < |bytes| < Pow256(4) && IsType(typ)
  {
    assert Pow256(4) > 8 by { assert Pow256(4) == 256 * Pow256(3) == 256 * 256 * Pow256(2); }
  }

  /** What is stored for a value is the same on every machine: a number with its most significant byte
    first, a double as section 4.7 of RFC 4506 has it, text with its NUL, a block as it is. */
  function Stored(v: Value): (Text, Byte) {
    match v
    case Double(bits) => (BigEndian(bits, 8), 100)
    case Integer(n) => (BigEndian(n, 4), 117)
    case String(s) => (s + [0], 115)
    case Raw(bytes) => (bytes, 45)
  }

  lemma StoredAlike(little: bool, v: Value)
    requires InMemory(v)
    ensures StoredBytes(little, Encode(little, v)) == Stored(v)
  {
    hide Native, FromNative, BigEndian, FromBigEndian, Pow256, Flip;
    match v
    case Double(bits) => FromNativeRoundTrip(little, BigEndian(bits, 8));
    case Integer(n) => FromNativeRoundTrip(little, BigEndian(n, 4));
    case String(s) =>
    case Raw(bytes) =>
  }

  /** A value comes back exactly as it was written, even on a machine with another byte order, unless it
    is the empty string, which the server stores but the client library refuses to read. */
  lemma ValueRoundTrip(saver: bool, loader: bool, v: Value)
    requires InMemory(v)
    ensures var (bytes, typ) := StoredBytes(saver, Encode(saver, v));
            var r := Decode(loader, ToVariant(loader, bytes, typ));
            (v != String([]) ==> r == Some(v)) && (v == String([]) ==> r == None)
  {
    hide Native, FromNative, BigEndian, FromBigEndian, Pow256, Flip;
    StoredAlike(saver, v);
    match v
    case Double(bits) =>
      BigEndianRoundTrip(bits, 8);
      FromNativeRoundTrip(loader, BigEndian(bits, 8));
    case Integer(n) =>
      BigEndianRoundTrip(n, 4);
      FromNativeRoundTrip(loader, BigEndian(n, 4));
    case String(s) => CStringOf(s, []); assert s + [0] + [] == s + [0];
    case Raw(bytes) =>
  }

  // ------------------------------------------------------------------ the client library

  /** A config handle: the message being written, or what is left of the message being read. */
  class ConfigHandle {
    const isRead: bool
    const little: bool
    var entries: seq<Entry>

    constructor (isRead: bool, little: bool, entries: seq<Entry>)
      ensures this.isRead == isRead && this.little == little && this.entries == entries
    {
      this.isRead, this.little, this.entries := isRead, little, entries;
    }

    /** lash_config_write */
    method Write(key: Text, value: Value) returns (ok: bool)
      requires InMemory(value)
      modifies this
      ensures ok <==> key != [] && !isRead && !value.Raw?
      ensures entries == old(entries) + if ok then [Entry(key, Encode(little, value))] else []
    {
      if key == [] || isRead {
        return false;
      }
      var variant;
      match value {
        case Double(bits) =>
          var buf := BigEndian(bits, 8);
          variant := VDouble(FromNative(little, buf));
        case Integer(n) =>
          var buf := BigEndian(n, 4);
          variant := VInteger(FromNative(little, buf));
        case String(s) =>
          variant := VString(s);
        case Raw(_) =>
          return false;
      }
      entries := entries + [Entry(key, variant)];
      return true;
    }

    /** lash_config_write_raw */
    method WriteRaw(key: Text, buf: Text) returns (ok: bool)
      modifies this
      ensures ok <==> key != [] && buf != [] && !isRead
      ensures entries == old(entries) + if ok then [Entry(key, VRaw(buf))] else []
    {
      if key == [] || |buf| < 1 || isRead {
        return false;
      }
      entries := entries + [Entry(key, VRaw(buf))];
      return true;
    }

    /** lash_config_read: the size of the value, or -1 on an error. A size of 0 stands for the end of
      the message, and for an empty block, which the library itself never writes. */
    method Read() returns (size: int, key: Text, value: Option<Value>)
      modifies this
      ensures !isRead ==> size == -1 && value == None && entries == old(entries)
      ensures isRead && old(entries) == [] ==> size == 0 && value == None && entries == []
      ensures isRead && old(entries) != [] ==>
                && entries == old(entries)[1..] && key == old(entries)[0].key
                && value == Decode(little, old(entries)[0].variant)
                && size == (if value == None then -1 else SizeOf(value.value))
                && (value.Some? ==> match value.value
                                    case Double(_) => size == 8
                                    case Integer(_) => size == 4
                                    case String(s) => size == |s|
                                    case Raw(bytes) => size == |bytes|)
    {
      key, value := [], None;
      if !isRead {
        return -1, key, value;
      }
      if entries == [] {
        return 0, key, value;
      }
      var entry := entries[0];
      entries := entries[1..];
      key := entry.key;
      match entry.variant {
        case VDouble(bits) =>
          value := Some(Double(FromBigEndian(Native(little, bits, 8))));
          size := 8;
        case VInteger(n) =>
          value := Some(Integer(FromBigEndian(Native(little, n, 4))));
          size := 4;
        case VString(s) =>
          size := |s|;
          if size < 1 {
            return -1, key, None;
          }
          value := Some(String(s));
        case VRaw(bytes) =>
          size := |bytes|;
          value := Some(Raw(bytes));
      }
    }
  }

  // ------------------------------------------------------------------ the server

  function CommittedKeys(keys: seq<Text>, es: seq<Entry>): seq<Text> {
    if es == [] then keys else PutKey(CommittedKeys(keys, es[..|es| - 1]), es[|es| - 1].key)
  }

  function ToConfig(little: bool, e: Entry): Config {
    Config(e.key, StoredBytes(little, e.variant).0, StoredBytes(little, e.variant).1)
  }

  function CommittedConfigs(little: bool, cs: seq<Config>, es: seq<Entry>): seq<Config> {
    if es == [] then cs
    else PutConfig(CommittedConfigs(little, cs, es[..|es| - 1]), ToConfig(little, es[|es| - 1]))
  }

  predicate Storable(little: bool, e: Entry) {
    GoodKey(e.key) && |ToConfig(little, e).value| < Pow256(4)
  }

  /** get_and_set_config */
  method GetAndSetConfig(store: ConfigStore, little: bool, entry: Entry) returns (ok: bool)
    requires store.Valid() && Storable(little, entry)
    modifies store
    ensures store.Valid()
    ensures ok <==> ToConfig(little, entry).value != []
    ensures store.keys == if ok then PutKey(old(store.keys), entry.key) else old(store.keys)
    ensures store.unstored
            == if ok then PutConfig(old(store.unstored), ToConfig(little, entry)) else old(store.unstored)
  {
    match entry.variant {
      case VDouble(bits) => ok := store.SetConfig(entry.key, Native(little, bits, 8), TYPE_DOUBLE);
      case VInteger(n) => ok := store.SetConfig(entry.key, Native(little, n, 4), TYPE_INTEGER);
      case VString(s) => ok := store.SetConfig(entry.key, s + [0], TYPE_STRING);
      case VRaw(bytes) => ok := store.SetConfig(entry.key, bytes, TYPE_RAW);
    }
  }

  lemma NothingCommitted(little: bool, keys: seq<Text>, cs: seq<Config>, entries: seq<Entry>)
    requires entries == []
    ensures CommittedKeys(keys, entries) == keys && CommittedConfigs(little, cs, entries) == cs
  {
  }

  lemma OneMoreCommitted(little: bool, keys: seq<Text>, cs: seq<Config>, entries: seq<Entry>, i: nat)
    requires i < |entries|
    ensures CommittedKeys(keys, entries[..i + 1]) == PutKey(CommittedKeys(keys, entries[..i]), entries[i].key)
    ensures CommittedConfigs(little, cs, entries[..i + 1])
            == PutConfig(CommittedConfigs(little, cs, entries[..i]), ToConfig(little, entries[i]))
  {
    assert entries[..i + 1][..i] == entries[..i];
  }

  /** None of the first `n` entries is refused. */
  ghost predicate AllAccepted(little: bool, entries: seq<Entry>, n: nat) {
    n <= |entries| && forall j :: 0 <= j < n ==> ToConfig(little, entries[j]).value != []
  }

  lemma AcceptedEntries(little: bool, entries: seq<Entry>, n: nat)
    requires AllAccepted(little, entries, n)
    requires n < |entries| ==> ToConfig(little, entries[n]).value == []
    ensures n == |entries| <==> forall e <- entries :: ToConfig(little, e).value != []
  {
    if n < |entries| { assert entries[n] in entries; }
  }

  /** The loop of lashd_dbus_commit_data_set: entries are stored until one is refused. */
  method CommitConfigs(store: ConfigStore, little: bool, entries: seq<Entry>) returns (ok: bool, ghost n: nat)
    requires store.Valid() && entries != [] && forall e <- entries :: Storable(little, e)
    modifies store
    ensures store.Valid() && n <= |entries|
    ensures ok <==> forall e <- entries :: ToConfig(little, e).value != []
    ensures ok <==> n == |entries|
    ensures !ok ==> ToConfig(little, entries[n]).value == []
    ensures store.keys == CommittedKeys(old(store.keys), entries[..n])
    ensures store.unstored == CommittedConfigs(little, old(store.unstored), entries[..n])
  {
    assert AllAccepted(little, entries, 0);
    var i := 0;
    NothingCommitted(little, store.keys, store.unstored, entries[..0]);
    while i < |entries|
      invariant 0 <= i <= |entries| && store.Valid() && AllAccepted(little, entries, i)
      invariant store.keys == CommittedKeys(old(store.keys), entries[..i])
      invariant store.unstored == CommittedConfigs(little, old(store.unstored), entries[..i])
    {
      OneMoreCommitted(little, old(store.keys), old(store.unstored), entries, i);
      assert entries[i] in entries;
      hide ToConfig, Storable, CommittedKeys, CommittedConfigs;
      ok := GetAndSetConfig(store, little, entries[i]);
      if !ok {
        AcceptedEntries(little, entries, i);
        return false, i;
      }
      i := i + 1;
    }
    AcceptedEntries(little, entries, i);
    return true, i;
  }

  // ------------------------------------------------------------------ the whole way

  datatype Item = Item(key: Text, value: Value)

  /** The message a client writes. */
  function Message(little: bool, items: seq<Item>): seq<Entry> {
    seq(|items|, i requires 0 <= i < |items| => Entry(items[i].key, Encode(little, items[i].value)))
  }

  /** The message the server sends from a config array. */
  function LoadMessage(little: bool, cs: seq<Config>): seq<Entry> {
    seq(|cs|, i requires 0 <= i < |cs| => Entry(cs[i].key, ToVariant(little, cs[i].value, cs[i].typ)))
  }

  function FirstIndex(items: seq<Item>, k: Text): nat {
    if items == [] || items[0].key == k then 0 else 1 + FirstIndex(items[1..], k)
  }

  predicate Mentions(items: seq<Item>, k: Text) {
    exists i :: 0 <= i < |items| && items[i].key == k
  }

  /** The value written last under a key. */
  function LastValue(items: seq<Item>, k: Text): Value
    requires Mentions(items, k)
  {
    if items[|items| - 1].key == k then items[|items| - 1].value
    else
      assert Mentions(items[..|items| - 1], k) by { MentionsInit(items, k); }
      LastValue(items[..|items| - 1], k)
  }

  lemma MentionsInit(items: seq<Item>, k: Text)
    requires items != []
    ensures Mentions(items, k) <==> Mentions(items[..|items| - 1], k) || items[|items| - 1].key == k
  {
    var init := items[..|items| - 1];
    if Mentions(init, k) {
      var i :| 0 <= i < |init| && init[i].key == k;
      assert items[i].key == k;
    }
    if Mentions(items, k) && items[|items| - 1].key != k {
      var i :| 0 <= i < |items| && items[i].key == k;
      assert init[i].key == k;
    }
  }

  lemma {:induction false} FirstIndexInit(items: seq<Item>, k: Text)
    requires items != []
    ensures var init := items[..|items| - 1];
            && FirstIndex(items, k) <= |items|
            && (Mentions(init, k) ==> FirstIndex(items, k) == FirstIndex(init, k) < |init|)
            && (!Mentions(init, k) && items[|items| - 1].key == k ==> FirstIndex(items, k) == |init|)
  {
    var init := items[..|items| - 1];
    if items[0].key != k && |items| > 1 {
      assert items[1..][..|items[1..]| - 1] == init[1..] && items[1..][|items[1..]| - 1] == items[|items| - 1];
      FirstIndexInit(items[1..], k);
      assert Mentions(init, k) <==> Mentions(init[1..], k) by {
        if Mentions(init, k) {
          var i :| 0 <= i < |init| && init[i].key == k;
          assert init[1..][i - 1].key == k;
        }
        if Mentions(init[1..], k) {
          var i :| 0 <= i < |init[1..]| && init[1..][i].key == k;
          assert init[i + 1].key == k;
        }
      }
    } else if items[0].key == k && |items| > 1 {
      assert init[0].key == k;
    } else {
      assert init == [];
      assert items[1..] == [];
    }
  }

  /** The keys of a committed message: every key once, in the order of first occurrence. */
  lemma {:induction false} KeysInFirstOrder(little: bool, items: seq<Item>)
    ensures var keys := CommittedKeys([], Message(little, items));
            && NoDup(keys) && (forall k :: k in keys <==> Mentions(items, k))
            && forall i, j :: 0 <= i < j < |keys| ==> FirstIndex(items, keys[i]) < FirstIndex(items, keys[j])
  {
    if items != [] {
      var init, last := items[..|items| - 1], items[|items| - 1];
      KeysInFirstOrder(little, init);
      assert Message(little, items)[..|items| - 1] == Message(little, init);
      var keys := CommittedKeys([], Message(little, init));
      var keys' := CommittedKeys([], Message(little, items));
      assert keys' == PutKey(keys, last.key);
      forall k
        ensures k in keys' <==> Mentions(items, k)
      {
        MentionsInit(items, k);
      }
      forall i, j | 0 <= i < j < |keys'|
        ensures FirstIndex(items, keys'[i]) < FirstIndex(items, keys'[j])
      {
        assert keys[i] in keys;
        FirstIndexInit(items, keys'[i]);
        FirstIndexInit(items, keys'[j]);
      }
    }
  }

  lemma {:induction false} LastValueStored(little: bool, items: seq<Item>, files: Files, k: Text)
    requires Mentions(items, k)
    ensures Lookup(CommittedConfigs(little, [], Message(little, items)), files, k)
            == Some(StoredBytes(little, Encode(little, LastValue(items, k))))
  {
    var init, last := items[..|items| - 1], items[|items| - 1];
    assert Message(little, items)[..|items| - 1] == Message(little, init);
    var cs := CommittedConfigs(little, [], Message(little, init));
    PutChangesOneKey(cs, files, ToConfig(little, Entry(last.key, Encode(little, last.value))), k);
    MentionsInit(items, k);
    if last.key != k { LastValueStored(little, init, files, k); }
  }

  lemma {:induction false} ConfigArrayAt(keys: seq<Text>, cs: seq<Config>, files: Files)
    requires forall k <- keys :: Lookup(cs, files, k).Some?
    ensures |ConfigArray(keys, cs, files)| == |keys|
    ensures forall i :: 0 <= i < |keys| ==>
              Lookup(cs, files, keys[i]).Some?
              && ConfigArray(keys, cs, files)[i]
                 == Config(keys[i], Lookup(cs, files, keys[i]).value.0, Lookup(cs, files, keys[i]).value.1)
  {
    if keys != [] {
      assert forall k <- keys[..|keys| - 1] :: k in keys;
      ConfigArrayAt(keys[..|keys| - 1], cs, files);
      assert keys[|keys| - 1] in keys;
    }
  }

  /** A data set written by a client, committed to a fresh store, written to disk, read back by a
    new store and sent to the client gives every key once, in the order of first occurrence,
    with the value written last. `files` is the directory after writing, which `Write` proves
    to look up like the committed configs did. */
  lemma DataSetRoundTrip(saver: bool, loader: bool, items: seq<Item>, before: Files, files: Files)
    requires forall i :: 0 <= i < |items| ==> GoodKey(items[i].key) && InMemory(items[i].value)
                                              && items[i].value != String([])
    requires SameLookups(CommittedConfigs(saver, [], Message(saver, items)), before, [], files)
    ensures var keys := CommittedKeys([], Message(saver, items));
            var sent := LoadMessage(loader, ConfigArray(keys, [], files));
            && (forall k :: k in keys <==> Mentions(items, k)) && NoDup(keys)
            && (forall i, j :: 0 <= i < j < |keys| ==> FirstIndex(items, keys[i]) < FirstIndex(items, keys[j]))
            && |sent| == |keys|
            && forall i :: 0 <= i < |keys| ==>
                 Mentions(items, keys[i])
                 && sent[i].key == keys[i] && Decode(loader, sent[i].variant) == Some(LastValue(items, keys[i]))
  {
    hide CommittedKeys, CommittedConfigs, ToVariant, Decode, StoredBytes, Encode, FirstIndex;
    var keys := CommittedKeys([], Message(saver, items));
    KeysInFirstOrder(saver, items);
    forall k | k in keys
      ensures Lookup([], files, k) == Some(StoredBytes(saver, Encode(saver, LastValue(items, k))))
    {
      LastValueStored(saver, items, before, k);
      var i :| 0 <= i < |items| && items[i].key == k;
      assert GoodKey(k);
    }
    ConfigArrayAt(keys, [], files);
    forall i | 0 <= i < |keys|
      ensures LoadMessage(loader, ConfigArray(keys, [], files))[i].key == keys[i]
      ensures Decode(loader, LoadMessage(loader, ConfigArray(keys, [], files))[i].variant)
              == Some(LastValue(items, keys[i]))
    {
      assert keys[i] in keys;
      LastValueIn(items, keys[i]);
      ValueRoundTrip(saver, loader, LastValue(items, keys[i]));
    }
  }

  lemma {:induction false} LastValueIn(items: seq<Item>, k: Text)
    requires Mentions(items, k)
    ensures exists i :: 0 <= i < |items| && items[i].value == LastValue(items, k)
  {
    if items[|items| - 1].key != k {
      MentionsInit(items, k);
      var init := items[..|items| - 1];
      LastValueIn(init, k);
      var i :| 0 <= i < |init| && init[i].value == LastValue(init, k);
      assert items[i].value == LastValue(items, k);
    }
  }

  // ------------------------------------------------------------------ from client to client

  /** The application writes its items one by one. */
  method WriteItems(handle: ConfigHandle, items: seq<Item>)
    requires !handle.isRead && handle.entries == []
    requires forall i :: 0 <= i < |items| ==> items[i].key != [] && InMemory(items[i].value)
    modifies handle
    ensures handle.entries == Message(handle.little, items)
  {
    var i := 0;
    while i < |items|
      invariant 0 <= i <= |items| && handle.entries == Message(handle.little, items[..i])
    {
      var item := items[i];
      assert Message(handle.little, items[..i + 1])
             == Message(handle.little, items[..i]) + [Entry(item.key, Encode(handle.little, item.value))];
      var ok;
      if item.value.Raw? {
        ok := handle.WriteRaw(item.key, item.value.bytes);
      } else {
        ok := handle.Write(item.key, item.value);
      }
      i := i + 1;
    }
    assert items[..i] == items;
  }

  /** Every entry of a message can be read. */
  predicate Readable(little: bool, entries: seq<Entry>) {
    forall i :: 0 <= i < |entries| ==>
      Decode(little, entries[i].variant).Some? && SizeOf(Decode(little, entries[i].variant).value) > 0
  }

  function DecodedItem(little: bool, e: Entry): Item
    requires Decode(little, e.variant).Some?
  {
    Item(e.key, Decode(little, e.variant).value)
  }

  /** The items `items` are what the message says. */
  predicate IsRead(little: bool, entries: seq<Entry>, items: seq<Item>) {
    && |items| == |entries| && Readable(little, entries)
    && forall i :: 0 <= i < |items| ==> items[i] == DecodedItem(little, entries[i])
  }

  /** The application reads until it is told that there is nothing left. */
  method ReadItems(handle: ConfigHandle) returns (items: seq<Item>)
    requires handle.isRead && Readable(handle.little, handle.entries)
    modifies handle
    ensures IsRead(handle.little, old(handle.entries), items)
  {
    ghost var message := handle.entries;
    hide Decode;
    items := [];
    var size, key, value := handle.Read();
    while size > 0
      invariant |items| <= |message| && (|items| == |message| <==> size == 0) && size >= 0
      invariant |items| == |message| ==> handle.entries == []
      invariant |items| < |message| ==>
                  && handle.entries == message[|items| + 1..] && key == message[|items|].key
                  && value == Decode(handle.little, message[|items|].variant)
      invariant forall i :: 0 <= i < |items| ==> items[i] == DecodedItem(handle.little, message[i])
      decreases |message| - |items|
    {
      items := items + [Item(key, value.value)];
      size, key, value := handle.Read();
    }
  }

  /** What a client should find: every key it wrote once, in the order of first occurrence, with the
    value it wrote last. */
  ghost predicate SameData(items: seq<Item>, loaded: seq<Item>) {
    && (forall k :: Mentions(loaded, k) <==> Mentions(items, k))
    && (forall i, j :: 0 <= i < j < |loaded| ==> FirstIndex(items, loaded[i].key) < FirstIndex(items, loaded[j].key))
    && forall i :: 0 <= i < |loaded| ==>
         Mentions(items, loaded[i].key) && loaded[i].value == LastValue(items, loaded[i].key)
  }

  /** Items that make the whole way: file names of one line, and values that can be read again. */
  predicate Portable(item: Item) {
    GoodKey(item.key) && NEWLINE !in item.key && InMemory(item.value) && item.value != String([])
  }

  lemma {:induction false} CommittedSize(keys: seq<Text>, es: seq<Entry>)
    ensures |CommittedKeys(keys, es)| <= |keys| + |es|
    ensures forall k <- CommittedKeys(keys, es) :: k in keys || exists i :: 0 <= i < |es| && es[i].key == k
  {
    if es != [] {
      var init := es[..|es| - 1];
      CommittedSize(keys, init);
      forall k | k in CommittedKeys(keys, es)
        ensures k in keys || exists i :: 0 <= i < |es| && es[i].key == k
      {
        if k in CommittedKeys(keys, init) && k !in keys {
          var i :| 0 <= i < |init| && init[i].key == k;
          assert es[i].key == k;
        }
      }
    }
  }

  lemma MessageStorable(little: bool, items: seq<Item>)
    requires forall i :: 0 <= i < |items| ==> Portable(items[i])
    ensures forall e <- Message(little, items) :: Storable(little, e) && ToConfig(little, e).value != []
    ensures OneLineKeys(CommittedKeys([], Message(little, items)))
  {
    var message := Message(little, items);
    forall e | e in message
      ensures Storable(little, e) && ToConfig(little, e).value != []
    {
      var i :| 0 <= i < |message| && message[i] == e;
      assert Portable(items[i]);
      StoredFits(little, items[i].value);
    }
    CommittedSize([], message);
    forall k | k in CommittedKeys([], message)
      ensures NEWLINE !in k
    {
      var i :| 0 <= i < |message| && message[i].key == k;
      assert Portable(items[i]);
    }
  }

  lemma ReadableData(little: bool, items: seq<Item>, keys: seq<Text>, sent: seq<Entry>)
    requires forall i :: 0 <= i < |items| ==> Portable(items[i])
    requires |sent| == |keys|
    requires forall i :: 0 <= i < |keys| ==>
               Mentions(items, keys[i]) && Decode(little, sent[i].variant) == Some(LastValue(items, keys[i]))
    ensures Readable(little, sent)
  {
    hide Decode, Mentions, LastValue;
    forall i | 0 <= i < |sent|
      ensures Decode(little, sent[i].variant).Some? && SizeOf(Decode(little, sent[i].variant).value) > 0
    {
      LastValueIn(items, keys[i]);
      var j :| 0 <= j < |items| && items[j].value == LastValue(items, keys[i]);
      assert Portable(items[j]);
    }
  }

  /** The message that brings the data back is readable, and whoever reads it has the data. */
  lemma MessageIsData(saver: bool, loader: bool, items: seq<Item>, before: Files, files: Files)
    requires forall i :: 0 <= i < |items| ==> Portable(items[i])
    requires SameLookups(CommittedConfigs(saver, [], Message(saver, items)), before, [], files)
    ensures var sent := LoadMessage(loader, ConfigArray(CommittedKeys([], Message(saver, items)), [], files));
            && Readable(loader, sent)
            && forall loaded: seq<Item> :: IsRead(loader, sent, loaded) ==> SameData(items, loaded)
  {
    var keys := CommittedKeys([], Message(saver, items));
    var sent := LoadMessage(loader, ConfigArray(keys, [], files));
    DataSetRoundTrip(saver, loader, items, before, files);
    hide CommittedKeys, CommittedConfigs, Message, LoadMessage, ConfigArray, SameLookups, Decode, FirstIndex;
    hide Readable, SameData, Portable;
    ReadableData(loader, items, keys, sent);
    forall loaded: seq<Item> | IsRead(loader, sent, loaded)
      ensures SameData(items, loaded)
    {
      LoadedData(loader, items, keys, sent, loaded);
    }
  }

  lemma LoadedData(little: bool, items: seq<Item>, keys: seq<Text>, sent: seq<Entry>, loaded: seq<Item>)
    requires (forall k :: k in keys <==> Mentions(items, k)) && Readable(little, sent)
    requires forall i, j :: 0 <= i < j < |keys| ==> FirstIndex(items, keys[i]) < FirstIndex(items, keys[j])
    requires |loaded| == |sent| == |keys|
    requires forall i :: 0 <= i < |keys| ==>
               Mentions(items, keys[i])
               && sent[i].key == keys[i] && Decode(little, sent[i].variant) == Some(LastValue(items, keys[i]))
    requires IsRead(little, sent, loaded)
    ensures SameData(items, loaded)
  {
    hide Decode, FirstIndex, LastValue;
    assert forall i :: 0 <= i < |keys| ==> loaded[i].key == keys[i];
    forall k
      ensures Mentions(loaded, k) <==> Mentions(items, k)
    {
      if k in keys {
        var i :| 0 <= i < |keys| && keys[i] == k;
        assert loaded[i].key == k;
      }
    }
  }

  lemma SomethingCommitted(little: bool, es: seq<Entry>)
    requires es != []
    ensures CommittedConfigs(little, [], es) != []
  {
  }

  lemma MessageSize(little: bool, items: seq<Item>)
    ensures |Message(little, items)| == |items|
  {
  }

  /** A client writes its items and the server commits them to a new store. */
  method Save(dir: Directory, little: bool, items: seq<Item>) returns (store: ConfigStore)
    requires items != [] && forall i :: 0 <= i < |items| ==> Portable(items[i])
    ensures fresh(store) && store.dir == dir && store.Valid() && store.unstored != []
    ensures store.keys == CommittedKeys([], Message(little, items))
    ensures store.unstored == CommittedConfigs(little, [], Message(little, items))
  {
    var writer := new ConfigHandle(false, little, []);
    assert forall i :: 0 <= i < |items| ==> Portable(items[i]) && items[i].key != [] && InMemory(items[i].value);
    hide Message, Storable, CommittedKeys, CommittedConfigs, ToConfig, Portable, InMemory;
    WriteItems(writer, items);
    MessageStorable(little, items);
    MessageSize(little, items);
    store := new ConfigStore(dir);
    var ok, n := CommitConfigs(store, little, writer.entries);
    assert writer.entries[..n] == writer.entries;
    SomethingCommitted(little, writer.entries);
  }

  /** The whole way of a data set: a client writes it, the server commits it to a new store and
    writes that to its directory, where any write may fail; later, maybe on a machine with another byte
    order, the store is opened again and its configs are sent to the client, which reads them. If the
    writing succeeded, nothing was lost, neither an item nor the order. */
  method SaveAndLoad(dir: Directory, saver: bool, loader: bool, items: seq<Item>)
    returns (wrote: bool, loaded: seq<Item>)
    requires items != [] && |items| < LONG_LIMIT && forall i :: 0 <= i < |items| ==> Portable(items[i])
    modifies dir
    ensures wrote ==> SameData(items, loaded)
  {
    hide Message, CommittedKeys, CommittedConfigs, Portable, SameData, ConfigArray, LoadMessage, OneLineKeys;
    hide IsRead, Readable;
    var store := Save(dir, saver, items);
    MessageStorable(saver, items);
    MessageSize(saver, items);
    CommittedSize([], Message(saver, items));
    ghost var before, configs := dir.files, store.unstored;
    label Committed:
    var later, found, written := Reopen(store);
    if !written {
      return false, [];
    }
    forall k | k != INFO
      ensures Lookup([], dir.files, k) == Lookup(configs, before, k)
    {
      assert later.Get(k) == old@Committed(store.Get(k));
    }
    MessageIsData(saver, loader, items, before, dir.files);
    var entries := later.CreateConfigArray();
    var reader := new ConfigHandle(true, loader, LoadMessage(loader, entries));
    loaded := ReadItems(reader);
    return true, loaded;
  }
}
