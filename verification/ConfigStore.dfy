/** The store object: keys, unstored configs, and the directory they are written to. */
module ConfigStore {
  import opened Bytes
  import opened Store
  import opened Sequences

  /** The files of a store directory. Every write may fail, or stop half-way. */
  class Directory {
    var files: Files

    constructor (files: Files)
      ensures this.files == files
    {
      this.files := files;
    }

    /** creat: an empty file, or nothing. */
    method Create(name: Text) returns (ok: bool)
      modifies this
      ensures files == if ok then old(files)[name := []] else old(files)
    {
      ok := *;
      if ok {
        files := files[name := []];
      }
    }

    /** write: some prefix of the bytes reaches the file; -1 is an error. */
    method Write(name: Text, bytes: Text) returns (written: int)
      requires name in files
      modifies this
      ensures -1 <= written <= |bytes|
      ensures files == if written == -1 then old(files)
                       else old(files)[name := old(files)[name] + bytes[..written]]
    {
      written :| -1 <= written <= |bytes|;
      if written != -1 {
        files := files[name := files[name] + bytes[..written]];
      }
    }
  }

  /** The lookups of all keys that can name a config file agree. */
  ghost predicate SameLookups(cs: seq<Config>, files: Files, cs': seq<Config>, files': Files) {
    forall k :: k != INFO ==> Lookup(cs', files', k) == Lookup(cs, files, k)
  }

  ghost predicate SameExcept(files: Files, files': Files, name: Text) {
    forall k :: k != name ==> (k in files' <==> k in files) && (k in files ==> files'[k] == files[k])
  }

  /** Only the files of the configs `cs` have been written to. */
  ghost predicate Untouched(cs: seq<Config>, files: Files, files': Files) {
    forall k :: (forall c <- cs :: c.key != k) ==>
                  (k in files' <==> k in files) && (k in files ==> files'[k] == files[k])
  }

  /** The keys are distinct, and the unstored configs are among them, one for each key at most. */
  ghost predicate Fits(keys: seq<Text>, unstored: seq<Config>) {
    && NoDup(keys) && (forall k <- keys :: GoodKey(k))
    && DistinctKeys(unstored)
    && forall i :: 0 <= i < |unstored| ==> unstored[i].key in keys && GoodConfig(unstored[i])
  }

  lemma PutFits(keys: seq<Text>, unstored: seq<Config>, c: Config)
    requires Fits(keys, unstored) && GoodConfig(c) && GoodKey(c.key)
    ensures Fits(PutKey(keys, c.key), PutConfig(unstored, c))
  {
    hide PutConfig, GoodConfig, GoodKey;
    var i := FirstAt(unstored, c.key);
    PutConfigAt(unstored, c, i);
  }

  lemma {:induction false} FirstAt(cs: seq<Config>, k: Text) returns (i: nat)
    ensures i <= |cs| && (i < |cs| ==> cs[i].key == k) && forall j :: 0 <= j < i ==> cs[j].key != k
  {
    if cs == [] || cs[0].key == k {
      i := 0;
    } else {
      i := FirstAt(cs[1..], k);
      i := i + 1;
    }
  }

  class ConfigStore {
    const dir: Directory
    var numKeys: nat
    var keys: seq<Text>
    var unstored: seq<Config>

    ghost predicate Valid()
      reads this
    {
      numKeys == |keys| && Fits(keys, unstored)
    }

    function Get(k: Text): Option<(Text, Byte)>
      reads this, dir
    {
      Lookup(unstored, dir.files, k)
    }

    /** The info file lists exactly the current keys. */
    ghost predicate Synced()
      reads this, dir
    {
      INFO in dir.files && dir.files[INFO] == EncodeInfo(keys)
    }

    /** store_new */
    constructor (dir: Directory)
      ensures this.dir == dir && Valid() && keys == [] && unstored == []
    {
      this.dir := dir;
      numKeys, keys, unstored := 0, [], [];
    }

    /** The search of the key list in store_set_config. */
    method HasKey(key: Text) returns (found: bool)
      ensures found <==> key in keys
    {
      var i := 0;
      while i < |keys|
        invariant 0 <= i <= |keys|
        invariant forall j :: 0 <= j < i ==> keys[j] != key
      {
        if keys[i] == key {
          return true;
        }
        i := i + 1;
      }
      return false;
    }

    /** store_get_unstored_config: the position of the config, or the length of the list. */
    method UnstoredIndex(key: Text) returns (i: nat)
      ensures i <= |unstored| && (i < |unstored| ==> unstored[i].key == key)
      ensures forall j :: 0 <= j < i ==> unstored[j].key != key
    {
      i := 0;
      while i < |unstored|
        invariant 0 <= i <= |unstored|
        invariant forall j :: 0 <= j < i ==> unstored[j].key != key
      {
        if unstored[i].key == key {
          return;
        }
        i := i + 1;
      }
    }

    /** store_set_config */
    method SetConfig(key: Text, value: Text, typ: Byte) returns (ok: bool)
      requires Valid() && |value| < Pow256(4) && IsType(typ)
      requires key == [] || GoodKey(key)
      modifies this
      ensures Valid()
      ensures ok <==> key != [] && value != []
      ensures !ok ==> keys == old(keys) && unstored == old(unstored)
      ensures ok ==> keys == PutKey(old(keys), key)
                     && unstored == PutConfig(old(unstored), Config(key, value, typ))
      ensures ok ==> Get(key) == Some((value, typ)) && forall k :: k != key ==> Get(k) == old(Get(k))
    {
      if key == [] || |value| < 1 {
        return false;
      }
      hide Fits, PutConfig, Lookup;
      PutFits(keys, unstored, Config(key, value, typ));
      var found := HasKey(key);
      if !found {
        keys := keys + [key];
        numKeys := numKeys + 1;
      }
      var config := Config(key, value, typ);
      var i := UnstoredIndex(key);
      PutConfigAt(unstored, config, i);
      if i == |unstored| {
        unstored := unstored + [config];
      } else {
        unstored := unstored[i := config];
      }
      forall k
        ensures Get(k) == if k == key then Some((value, typ)) else old(Get(k))
      {
        PutChangesOneKey(old(unstored), dir.files, config, k);
      }
      return true;
    }

    /** store_write_config: on failure the file may hold anything. */
    method WriteConfig(config: Config) returns (ok: bool)
      requires GoodConfig(config)
      modifies dir
      ensures SameExcept(old(dir.files), dir.files, config.key)
      ensures ok ==> config.key in dir.files && dir.files[config.key] == EncodeConfig(config)
    {
      if |config.value| == 0 {
        return false;
      }
      var created := dir.Create(config.key);
      if !created {
        return false;
      }
      var size := BigEndian(|config.value|, 4);
      var written := dir.Write(config.key, size);
      if written < 4 {
        return false;
      }
      written := dir.Write(config.key, config.value);
      if written < |config.value| {
        return false;
      }
      written := dir.Write(config.key, [config.typ]);
      if written < 1 {
        return false;
      }
      var closed: bool := *;
      assert size[..4] == size && config.value[..|config.value|] == config.value;
      return closed;
    }

    /** store_write_configs: written configs leave the list, the others stay. */
    method WriteConfigs() returns (ok: bool)
      requires Valid()
      modifies this`unstored, dir
      ensures Valid() && SameLookups(old(unstored), old(dir.files), unstored, dir.files)
      ensures Untouched(old(unstored), old(dir.files), dir.files)
      ensures ok <==> unstored == []
    {
      ok := true;
      var i := 0;
      while i < |unstored|
        invariant 0 <= i <= |unstored| && Valid() && (ok <==> i == 0)
        invariant SameLookups(old(unstored), old(dir.files), unstored, dir.files)
        invariant forall c <- unstored :: c in old(unstored)
        invariant Untouched(old(unstored), old(dir.files), dir.files)
        decreases |unstored| - i
      {
        ghost var cs, files := unstored, dir.files;
        var config := unstored[i];
        assert config in old(unstored);
        var written := WriteConfig(config);
        if written {
          unstored := Without(unstored, i);
          Written(cs, files, dir.files, i);
        } else {
          ok := false;
          NotWritten(cs, files, dir.files, i);
          i := i + 1;
        }
      }
    }

    /** store_write_info_file; stdio may deliver any text when it fails. */
    method WriteInfoFile() returns (ok: bool)
      requires Valid()
      modifies dir
      ensures SameExcept(old(dir.files), dir.files, INFO)
      ensures ok ==> Synced()
    {
      ok := dir.Create(INFO);
      if !ok {
        return;
      }
      var text := Decimal(numKeys) + [NEWLINE];
      var i := 0;
      assert keys[0..] == keys;
      while i < |keys|
        invariant 0 <= i <= |keys|
        invariant text + KeyLines(keys[i..]) == EncodeInfo(keys)
      {
        assert keys[i..][1..] == keys[i + 1..];
        text := text + keys[i] + [NEWLINE];
        i := i + 1;
      }
      var written := dir.Write(INFO, text);
      ok := written == |text|;
      assert text[..|text|] == text;
    }

    /** store_write: whatever fails, no lookup changes. Success with something to write leaves the
      info file in step with the keys; with nothing to write the info file is left as it is,
      even if writing it failed before. */
    method Write() returns (ok: bool)
      requires Valid()
      modifies this`unstored, dir
      ensures Valid() && forall k :: k != INFO ==> Get(k) == old(Get(k))
      ensures ok ==> unstored == []
      ensures old(unstored) == [] ==> ok && dir.files == old(dir.files)
      ensures ok ==> (Synced() <==> old(unstored) != [] || old(Synced()))
      ensures unstored != [] ==> (Synced() <==> old(Synced()))
    {
      if unstored == [] {
        return true;
      }
      ok := WriteConfigs();
      InfoUntouched(old(unstored), old(dir.files), dir.files);
      if !ok {
        return false;
      }
      ghost var written := dir.files;
      ok := WriteInfoFile();
      InfoIsNoConfig(unstored, written, dir.files);
      if !ok {
        return false;
      }
      unstored := [];
    }

    /** store_open on a new store */
    method Open() returns (ok: bool)
      requires keys == [] && unstored == [] && numKeys == 0
      modifies this`keys, this`numKeys
      ensures ok <==> INFO in dir.files && ParseInfo(dir.files[INFO]).Some?
      ensures ok ==> keys == ParseInfo(dir.files[INFO]).value
      ensures !ok ==> keys == []
      ensures numKeys == |keys|
    {
      if INFO !in dir.files {
        return false;
      }
      var file := dir.files[INFO];
      if file == [] {
        return false;
      }
      var (line, rest) := FirstLine(file);
      var (value, after) := ReadNumber(line);
      if value >= LONG_LIMIT || value < -LONG_LIMIT {
        return false;
      } else if after == [] || after[0] != NEWLINE {
        return false;
      }
      numKeys := value % (2 * LONG_LIMIT);
      ghost var lines, count := rest, numKeys;
      PrependNothing(ReadKeys(rest, numKeys));
      var i := 0;
      while i < numKeys
        invariant 0 <= i <= numKeys == count && |keys| == i
        invariant ReadKeys(lines, numKeys) == Prepend(keys, ReadKeys(rest, numKeys - i))
      {
        if rest == [] {
          keys := [];
          numKeys := 0;
          return false;
        }
        var (next, tail) := FirstLine(rest);
        ghost var before := keys;
        keys := keys + [Chomp(next)];
        PrependLine(before, Chomp(next), ReadKeys(tail, numKeys - i - 1));
        rest := tail;
        i := i + 1;
      }
      assert keys + [] == keys;
      return true;
    }

    /** store_get_config, for files that can be read */
    method GetConfig(key: Text) returns (r: Option<(Text, Byte)>)
      ensures r == Get(key)
    {
      var i := UnstoredIndex(key);
      FindIndex(unstored, key, i);
      if i < |unstored| {
        return Some((unstored[i].value, unstored[i].typ));
      }
      if key !in dir.files {
        return None;
      }
      var file := dir.files[key];
      if |file| < 4 {
        return None;
      }
      var size := FromBigEndian(file[..4]);
      if size == 0 {
        return None;
      }
      if |file| - 4 < size {
        return None;
      }
      var value := file[4..4 + size];
      var typ := TYPE_RAW;
      if |file| > 4 + size {
        typ := file[4 + size];
        if !IsType(typ) {
          return None;
        }
      }
      return Some((value, typ));
    }

    /** store_create_config_array: the readable configs in key order. */
    method CreateConfigArray() returns (entries: seq<Config>)
      ensures entries == ConfigArray(keys, unstored, dir.files)
    {
      entries := [];
      var i := 0;
      while i < |keys|
        invariant 0 <= i <= |keys|
        invariant entries == ConfigArray(keys[..i], unstored, dir.files)
      {
        assert keys[..i + 1][..i] == keys[..i];
        var r := GetConfig(keys[i]);
        if r.Some? {
          entries := entries + [Config(keys[i], r.value.0, r.value.1)];
        }
        i := i + 1;
      }
      assert keys[..i] == keys;
    }
  }

  /** client_store_open for a client that has a store: it is written, given up, and read back.
    If the writing worked and the info file is known to be in step, the keys come back exactly if
    none of them has a newline, and then nothing at all is lost. */
  method Reopen(current: ConfigStore) returns (store: ConfigStore, ok: bool, wrote: bool)
    requires current.Valid() && |current.keys| < LONG_LIMIT
    modifies current`unstored, current.dir
    ensures fresh(store) && store.dir == current.dir && store.unstored == []
    ensures wrote && old(current.unstored != [] || current.Synced()) ==>
              (ok && store.keys == old(current.keys) <==> OneLineKeys(old(current.keys)))
    ensures wrote && old(current.unstored != [] || current.Synced()) && OneLineKeys(old(current.keys)) ==>
              && store.Valid() && store.Synced() && store.numKeys == old(current.numKeys)
              && forall k :: k != INFO ==> store.Get(k) == old(current.Get(k))
  {
    wrote := current.Write();
    store := new ConfigStore(current.dir);
    InfoRoundTrip(current.keys);
    ok := store.Open();
  }

  lemma Written(cs: seq<Config>, files: Files, files': Files, i: nat)
    requires i < |cs| && DistinctKeys(cs) && GoodConfig(cs[i])
    requires SameExcept(files, files', cs[i].key)
    requires cs[i].key in files' && files'[cs[i].key] == EncodeConfig(cs[i])
    ensures SameLookups(cs, files, Without(cs, i), files') && DistinctKeys(Without(cs, i))
    ensures forall c <- Without(cs, i) :: c in cs
  {
    ConfigRoundTrip(cs[i]);
    FindAt(cs, i);
    forall k
      ensures Lookup(Without(cs, i), files', k) == Lookup(cs, files, k)
    {
      FindWithout(cs, i, k);
    }
    FindWithout(cs, i, cs[i].key);
  }

  lemma NotWritten(cs: seq<Config>, files: Files, files': Files, i: nat)
    requires i < |cs| && DistinctKeys(cs) && SameExcept(files, files', cs[i].key)
    ensures SameLookups(cs, files, cs, files')
  {
    FindAt(cs, i);
  }

  function Prepend(keys: seq<Text>, r: Option<seq<Text>>): Option<seq<Text>> {
    match r
    case None => None
    case Some(ks) => Some(keys + ks)
  }

  lemma PrependNothing(r: Option<seq<Text>>)
    ensures Prepend([], r) == r
  {
    if r.Some? { assert [] + r.value == r.value; }
  }

  lemma PrependLine(keys: seq<Text>, k: Text, r: Option<seq<Text>>)
    ensures Prepend(keys, Prepend([k], r)) == Prepend(keys + [k], r)
  {
    if r.Some? { assert keys + ([k] + r.value) == keys + [k] + r.value; }
  }

  lemma InfoUntouched(cs: seq<Config>, files: Files, files': Files)
    requires Untouched(cs, files, files') && forall i :: 0 <= i < |cs| ==> GoodKey(cs[i].key)
    ensures (INFO in files' <==> INFO in files) && (INFO in files ==> files'[INFO] == files[INFO])
  {
    assert forall c <- cs :: c.key != INFO;
  }

  lemma {:induction false} FindIndex(cs: seq<Config>, k: Text, i: nat)
    requires i <= |cs| && (i < |cs| ==> cs[i].key == k) && forall j :: 0 <= j < i ==> cs[j].key != k
    ensures Find(cs, k) == if i < |cs| then Some(cs[i]) else None
  {
    if i > 0 {
      assert cs[0].key != k;
      FindIndex(cs[1..], k, i - 1);
    }
  }

  lemma InfoIsNoConfig(cs: seq<Config>, files: Files, files': Files)
    requires SameExcept(files, files', INFO)
    ensures SameLookups(cs, files, cs, files')
  {
  }
}
