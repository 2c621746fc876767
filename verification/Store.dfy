/** A client's config store: an overlay of unstored configs over files on disk. */
module Store {
  import opened Bytes
  import opened Sequences

  // ------------------------------------------------------------------ values and file formats

  const TYPE_DOUBLE: Byte := 100
  const TYPE_INTEGER: Byte := 117
  const TYPE_STRING: Byte := 115
  const TYPE_RAW: Byte := 45

  /** ".store_info" */
  const INFO: Text := [46, 115, 116, 111, 114, 101, 95, 105, 110, 102, 111]

  const LONG_LIMIT := 0x8000_0000_0000_0000

  predicate IsType(b: Byte) {
    b == TYPE_DOUBLE || b == TYPE_INTEGER || b == TYPE_STRING || b == TYPE_RAW
  }

  datatype Config = Config(key: Text, value: Text, typ: Byte)

  type Files = map<Text, Text>

  /** Keys are used as file names. */
  predicate GoodKey(k: Text) {
    && k != [] && k != INFO && k != [46] && k != [46, 46]
    && forall i :: 0 <= i < |k| ==> k[i] != 0 && k[i] != 47
  }

  /** Keys are written one per line. */
  predicate OneLineKeys(keys: seq<Text>) {
    forall k <- keys :: NEWLINE !in k
  }

  predicate GoodConfig(c: Config) {
    c.value != [] && |c.value| < Pow256(4) && IsType(c.typ)
  }

  /** A config file: four bytes of size, the value, the type byte. */
  function EncodeConfig(c: Config): Text {
    BigEndian(|c.value|, 4) + c.value + [c.typ]
  }

  /** What store_get_config makes of a file; without a type byte the value is raw. */
  function DecodeConfig(f: Text): Option<(Text, Byte)> {
    if |f| < 4 then None
    else
      var size := FromBigEndian(f[..4]);
      if size == 0 || |f| - 4 < size then None
      else if |f| == 4 + size then Some((f[4..4 + size], TYPE_RAW))
      else if IsType(f[4 + size]) then Some((f[4..4 + size], f[4 + size]))
      else None
  }

  lemma Slices(a: Text, b: Text, c: Text)
    ensures var s := a + b + c; s[..|a|] == a && s[|a|..|a| + |b|] == b
  {
  }

  lemma ConfigRoundTrip(c: Config)
    requires GoodConfig(c)
    ensures DecodeConfig(EncodeConfig(c)) == Some((c.value, c.typ))
  {
    hide BigEndian, FromBigEndian, Pow256;
    Slices(BigEndian(|c.value|, 4), c.value, [c.typ]);
    BigEndianRoundTrip(|c.value|, 4);
  }

  /** A file written before the type byte existed reads as raw. */
  lemma UntypedFileIsRaw(value: Text)
    requires value != [] && |value| < Pow256(4)
    ensures DecodeConfig(BigEndian(|value|, 4) + value) == Some((value, TYPE_RAW))
  {
    hide BigEndian, FromBigEndian, Pow256;
    Slices(BigEndian(|value|, 4), value, []);
    assert BigEndian(|value|, 4) + value + [] == BigEndian(|value|, 4) + value;
    BigEndianRoundTrip(|value|, 4);
  }

  /** The file of a value with this type, or of one that is raw because no type was written. */
  predicate Holds(f: Text, value: Text, typ: Byte) {
    var whole := BigEndian(|value|, 4) + value;
    && value != [] && |value| < Pow256(4)
    && ((typ == TYPE_RAW && f == whole) || (IsType(typ) && whole + [typ] <= f))
  }

  lemma DecodedHolds(f: Text)
    requires DecodeConfig(f).Some?
    ensures Holds(f, DecodeConfig(f).value.0, DecodeConfig(f).value.1)
  {
    hide BigEndian, FromBigEndian, Pow256, IsType;
    FromBigEndianRoundTrip(f[..4]);
    var size := FromBigEndian(f[..4]);
    assert f[..4 + size] == f[..4] + f[4..4 + size];
    if |f| > 4 + size { assert f[..4 + size + 1] == f[..4 + size] + [f[4 + size]]; }
  }

  lemma HoldsDecoded(f: Text, value: Text, typ: Byte)
    requires Holds(f, value, typ)
    ensures DecodeConfig(f) == Some((value, typ))
  {
    hide BigEndian, FromBigEndian, Pow256, IsType;
    BigEndianRoundTrip(|value|, 4);
    var head := BigEndian(|value|, 4);
    var whole := head + value;
    assert f[..4] == whole[..4] == head;
    assert f[4..4 + |value|] == f[..4 + |value|][4..] == whole[4..] == value;
  }

  /** The name of the info file. */
  lemma InfoName()
    ensures |INFO| == |".store_info"| && forall i :: 0 <= i < |INFO| ==> INFO[i] == ".store_info"[i] as int
  {
  }

  /** What a file is read as: the size, not zero, and as many bytes must be there; the type may be missing,
    and whatever stands behind it is ignored. */
  lemma ReadAsExactlyWhen(f: Text, value: Text, typ: Byte)
    ensures DecodeConfig(f) == Some((value, typ)) <==> Holds(f, value, typ)
  {
    hide DecodeConfig, Holds;
    if DecodeConfig(f) == Some((value, typ)) { DecodedHolds(f); }
    if Holds(f, value, typ) { HoldsDecoded(f, value, typ); }
  }

  /** A file that was written only in part, and is read after the next start of the daemon: it is refused,
    unless nothing but the type is missing. */
  lemma CutFile(c: Config, n: nat)
    requires GoodConfig(c) && n <= |EncodeConfig(c)|
    ensures DecodeConfig(EncodeConfig(c)[..n])
            == if n < 4 + |c.value| then None else Some((c.value, if n == 4 + |c.value| then TYPE_RAW else c.typ))
  {
    hide BigEndian, FromBigEndian, Pow256;
    var f := EncodeConfig(c);
    BigEndianRoundTrip(|c.value|, 4);
    Slices(BigEndian(|c.value|, 4), c.value, [c.typ]);
    if n >= 4 { assert f[..n][..4] == BigEndian(|c.value|, 4); }
    if n >= 4 + |c.value| { assert f[..n][4..4 + |c.value|] == c.value; }
  }

  function KeyLines(keys: seq<Text>): Text {
    if keys == [] then [] else keys[0] + [NEWLINE] + KeyLines(keys[1..])
  }

  function EncodeInfo(keys: seq<Text>): Text {
    Decimal(|keys|) + [NEWLINE] + KeyLines(keys)
  }

  /** getline: the line with its newline, if there is one, and the rest. */
  function FirstLine(s: Text): (r: (Text, Text))
    ensures |r.0| + |r.1| == |s| && (s != [] ==> r.0 != [])
  {
    if s == [] then ([], [])
    else if s[0] == NEWLINE then ([NEWLINE], s[1..])
    else var (line, rest) := FirstLine(s[1..]); ([s[0]] + line, rest)
  }

  function Chomp(line: Text): Text {
    if line != [] && line[|line| - 1] == NEWLINE then line[..|line| - 1] else line
  }

  function ReadKeys(s: Text, n: nat): Option<seq<Text>>
    decreases n
  {
    if n == 0 then Some([])
    else if s == [] then None
    else
      match ReadKeys(FirstLine(s).1, n - 1)
      case None => None
      case Some(ks) => Some([Chomp(FirstLine(s).0)] + ks)
  }

  /** The count line of an info file, as an unsigned long; None if it is malformed. */
  function ParseCount(line: Text): Option<nat> {
    var (v, after) := ReadNumber(line);
    if v >= LONG_LIMIT || v < -LONG_LIMIT || after == [] || after[0] != NEWLINE then None
    else Some(v % (2 * LONG_LIMIT))
  }

  function ParseInfo(s: Text): Option<seq<Text>> {
    if s == [] then None
    else
      match ParseCount(FirstLine(s).0)
      case None => None
      case Some(n) => ReadKeys(FirstLine(s).1, n)
  }

  lemma {:induction false} FirstLineOf(a: Text, b: Text)
    requires forall i :: 0 <= i < |a| ==> a[i] != NEWLINE
    ensures FirstLine(a + [NEWLINE] + b) == (a + [NEWLINE], b)
  {
    var s := a + [NEWLINE] + b;
    if a == [] {
      assert s == [NEWLINE] + b && a + [NEWLINE] == [NEWLINE];
      assert s[1..] == b;
    } else {
      assert s[1..] == a[1..] + [NEWLINE] + b;
      FirstLineOf(a[1..], b);
      assert [a[0]] + (a[1..] + [NEWLINE]) == a + [NEWLINE];
    }
  }

  lemma {:induction false} ReadKeysRoundTrip(keys: seq<Text>)
    requires OneLineKeys(keys)
    ensures ReadKeys(KeyLines(keys), |keys|) == Some(keys)
  {
    if keys != [] {
      var tail := keys[1..];
      assert keys[0] in keys && forall k <- tail :: k in keys;
      FirstLineOf(keys[0], KeyLines(tail));
      ReadKeysRoundTrip(tail);
      var s := KeyLines(keys);
      hide KeyLines, FirstLine;
      assert ReadKeys(FirstLine(s).1, |keys| - 1) == Some(tail);
      assert Chomp(keys[0] + [NEWLINE]) == keys[0];
      assert [keys[0]] + tail == keys;
    }
  }

  lemma {:induction false} LineShape(s: Text)
    ensures NEWLINE !in Chomp(FirstLine(s).0)
    ensures forall i :: 0 <= i < |FirstLine(s).0| - 1 ==> FirstLine(s).0[i] != NEWLINE
  {
    if s != [] && s[0] != NEWLINE { LineShape(s[1..]); }
  }

  /** Whatever the text, no key with a newline is read from it. */
  lemma {:induction false} ReadKeysClean(s: Text, n: nat)
    ensures ReadKeys(s, n).Some? ==> OneLineKeys(ReadKeys(s, n).value)
    decreases n
  {
    if n > 0 && s != [] {
      LineShape(s);
      ReadKeysClean(FirstLine(s).1, n - 1);
      hide FirstLine, Chomp;
    }
  }

  /** The text lists these keys, each on a line; the last newline may be missing. */
  predicate ListsKeys(s: Text, keys: seq<Text>) {
    && OneLineKeys(keys)
    && (KeyLines(keys) <= s || (keys != [] && LastUnended(s, keys[..|keys| - 1], keys[|keys| - 1])))
  }

  predicate LastUnended(s: Text, keys: seq<Text>, last: Text) {
    last != [] && s == KeyLines(keys) + last
  }

  /** A line is ended by its newline, or by the end of the text. */
  lemma {:induction false} FirstLineShape(s: Text)
    requires s != []
    ensures var (line, rest) := FirstLine(s);
            && s == line + rest && NEWLINE !in Chomp(line)
            && ((line == Chomp(line) + [NEWLINE]) || (line == Chomp(line) == s && rest == []))
  {
    if s[0] != NEWLINE && s[1..] != [] { FirstLineShape(s[1..]); }
  }

  lemma {:induction false} OnlyLine(s: Text)
    requires NEWLINE !in s
    ensures FirstLine(s) == (s, []) && Chomp(s) == s
  {
    if s != [] {
      assert forall i :: 0 <= i < |s[1..]| ==> s[1..][i] == s[i + 1];
      OnlyLine(s[1..]);
      assert s == [s[0]] + s[1..] && s[|s| - 1] in s;
    }
  }

  lemma KeyLinesFirst(key: Text, tail: seq<Text>)
    ensures KeyLines([key] + tail) == key + [NEWLINE] + KeyLines(tail)
  {
    assert ([key] + tail)[1..] == tail;
  }

  function KeysBefore(keys: seq<Text>, r: Option<seq<Text>>): Option<seq<Text>> {
    if r == None then None else Some(keys + r.value)
  }

  lemma ReadOne(key: Text, s: Text, n: nat)
    requires NEWLINE !in key
    ensures ReadKeys(key + [NEWLINE] + s, n + 1) == KeysBefore([key], ReadKeys(s, n))
  {
    FirstLineOf(key, s);
    hide FirstLine;
    assert Chomp(key + [NEWLINE]) == key;
  }

  lemma {:induction false} ReadMore(keys: seq<Text>, s: Text, n: nat)
    requires OneLineKeys(keys)
    ensures ReadKeys(KeyLines(keys) + s, |keys| + n) == KeysBefore(keys, ReadKeys(s, n))
    decreases |keys|
  {
    hide ReadKeys;
    if keys == [] {
      assert KeyLines(keys) + s == s;
      if ReadKeys(s, n).Some? { assert keys + ReadKeys(s, n).value == ReadKeys(s, n).value; }
    } else {
      var key, tail := keys[0], keys[1..];
      assert key in keys && forall k <- tail :: k in keys;
      ReadMore(tail, s, n);
      ReadOne(key, KeyLines(tail) + s, |tail| + n);
      assert KeyLines(keys) + s == key + [NEWLINE] + (KeyLines(tail) + s);
      KeysBeforeTwice(key, tail, ReadKeys(s, n));
      assert [key] + tail == keys;
    }
  }

  lemma KeysBeforeTwice(key: Text, tail: seq<Text>, r: Option<seq<Text>>)
    ensures KeysBefore([key], KeysBefore(tail, r)) == KeysBefore([key] + tail, r)
  {
    if r.Some? { assert [key] + (tail + r.value) == [key] + tail + r.value; }
  }

  lemma ListedKeysRead(s: Text, keys: seq<Text>)
    requires ListsKeys(s, keys)
    ensures ReadKeys(s, |keys|) == Some(keys)
  {
    hide KeyLines, FirstLine;
    if KeyLines(keys) <= s {
      ReadMore(keys, s[|KeyLines(keys)|..], 0);
      assert keys + [] == keys && KeyLines(keys) + s[|KeyLines(keys)|..] == s;
    } else {
      var init, last := keys[..|keys| - 1], keys[|keys| - 1];
      assert last in keys && forall k <- init :: k in keys;
      OnlyLine(last);
      var none: seq<Text> := [];
      assert [last] + none == [last];
      assert ReadKeys([], 0) == Some(none);
      assert ReadKeys(last, 1) == Some([last]);
      ReadMore(init, last, 1);
      assert init + [last] == keys;
    }
  }

  lemma ListsMore(key: Text, s: Text, tail: seq<Text>)
    requires NEWLINE !in key && ListsKeys(s, tail)
    ensures ListsKeys(key + [NEWLINE] + s, [key] + tail)
  {
    hide KeyLines;
    var head, keys := key + [NEWLINE], [key] + tail;
    KeyLinesFirst(key, tail);
    if KeyLines(tail) <= s {
      assert s == KeyLines(tail) + s[|KeyLines(tail)|..];
      assert head + s == KeyLines(keys) + s[|KeyLines(tail)|..];
    } else {
      var init, last := tail[..|tail| - 1], tail[|tail| - 1];
      assert keys[..|keys| - 1] == [key] + init && keys[|keys| - 1] == last;
      KeyLinesFirst(key, init);
      assert head + s == KeyLines([key] + init) + last;
    }
  }

  lemma ListsOne(s: Text)
    requires NEWLINE !in s && s != []
    ensures ListsKeys(s, [s])
  {
    assert LastUnended(s, [], s);
    assert [s][..0] == [];
  }

  lemma {:induction false} ReadKeysList(s: Text, n: nat)
    requires ReadKeys(s, n).Some?
    ensures |ReadKeys(s, n).value| == n && ListsKeys(s, ReadKeys(s, n).value)
    decreases n
  {
    if n > 0 {
      hide FirstLine, ListsKeys;
      var (line, rest) := FirstLine(s);
      var keys := ReadKeys(s, n).value;
      FirstLineShape(s);
      ReadKeysList(rest, n - 1);
      assert keys == [Chomp(line)] + keys[1..];
      if line == Chomp(line) + [NEWLINE] {
        ListsMore(Chomp(line), rest, keys[1..]);
      } else {
        assert keys == [s];
        ListsOne(s);
      }
    }
  }

  /** Which keys are read: as many lines as announced must be there, and what follows is ignored. */
  lemma KeysReadExactlyWhen(s: Text, n: nat, keys: seq<Text>)
    ensures ReadKeys(s, n) == Some(keys) <==> |keys| == n && ListsKeys(s, keys)
  {
    hide ListsKeys;
    if ReadKeys(s, n) == Some(keys) { ReadKeysList(s, n); }
    if |keys| == n && ListsKeys(s, keys) { ListedKeysRead(s, keys); }
  }

  /** The line of the count must fit a long, and end where its digits end. */
  lemma CountIsRead(n: nat, s: Text)
    ensures ParseInfo(Decimal(n) + [NEWLINE] + s) == if n < LONG_LIMIT then ReadKeys(s, n) else None
    ensures ParseInfo(Decimal(n)) == None
  {
    hide *;
    CountWithLine(n, s);
    CountWithoutLine(n);
  }

  /** A negative count is one beyond all bounds, and only then if it fits a long itself. */
  lemma NegativeCount(n: nat, s: Text)
    requires n > 0
    ensures ParseInfo([45] + Decimal(n) + [NEWLINE] + s)
            == if n <= LONG_LIMIT then ReadKeys(s, 2 * LONG_LIMIT - n) else None
  {
    hide Decimal, ReadNumber, ReadKeys, FirstLine, ParseCount;
    DigitsOnly(n);
    var line := [45] + Decimal(n);
    FirstLineOf(line, s);
    ParsedNegative(n);
    assert line + [NEWLINE] + s != [];
  }

  lemma ParsedNegative(n: nat)
    requires n > 0
    ensures ParseCount([45] + Decimal(n) + [NEWLINE]) == if n <= LONG_LIMIT then Some(2 * LONG_LIMIT - n) else None
  {
    hide Decimal, ReadNumber;
    SignedNumber(n, [NEWLINE]);
  }

  lemma CountWithLine(n: nat, s: Text)
    ensures ParseInfo(Decimal(n) + [NEWLINE] + s) == if n < LONG_LIMIT then ReadKeys(s, n) else None
  {
    hide Decimal, ReadKeys, FirstLine, ParseCount;
    DigitsOnly(n);
    FirstLineOf(Decimal(n), s);
    ParsedCount(n);
    assert Decimal(n) + [NEWLINE] + s != [];
  }

  lemma ParsedCount(n: nat)
    ensures ParseCount(Decimal(n) + [NEWLINE]) == if n < LONG_LIMIT then Some(n) else None
  {
    hide Decimal, ReadNumber;
    DecimalRoundTrip(n, [NEWLINE]);
  }

  lemma CountWithoutLine(n: nat)
    ensures ParseInfo(Decimal(n)) == None
  {
    hide Decimal, ReadNumber, ReadKeys, FirstLine;
    DigitsOnly(n);
    OnlyLine(Decimal(n));
    DecimalRoundTrip(n, []);
    assert Decimal(n) + [] == Decimal(n);
  }

  /** The info file is inverted by its parser exactly if no key has a newline. */
  lemma InfoRoundTrip(keys: seq<Text>)
    requires |keys| < LONG_LIMIT
    ensures ParseInfo(EncodeInfo(keys)) == Some(keys) <==> OneLineKeys(keys)
  {
    hide Decimal, ReadNumber, ReadKeys, KeyLines, FirstLine, OneLineKeys;
    var count := Decimal(|keys|);
    assert forall i :: 0 <= i < |count| ==> count[i] != NEWLINE by { DigitsOnly(|keys|); }
    FirstLineOf(count, KeyLines(keys));
    DecimalRoundTrip(|keys|, [NEWLINE]);
    assert ParseInfo(EncodeInfo(keys)) == ReadKeys(KeyLines(keys), |keys|);
    ReadKeysClean(KeyLines(keys), |keys|);
    if OneLineKeys(keys) { ReadKeysRoundTrip(keys); }
  }

  lemma DigitsOnly(n: nat)
    ensures forall i :: 0 <= i < |Decimal(n)| ==> Decimal(n)[i] != NEWLINE
  {
  }

  /** A key with a newline breaks the info file: the store comes back with another key. */
  lemma NewlineKeyIsLost()
    ensures ParseInfo(EncodeInfo([[97, NEWLINE, 98]])) == Some([[97]])
  {
    var key: Text := [97, NEWLINE, 98];
    var rest: Text := [97] + [NEWLINE] + [98, NEWLINE];
    assert [key][1..] == [];
    assert KeyLines([key]) == key + [NEWLINE] + KeyLines([]) == rest;
    assert EncodeInfo([key]) == [49] + [NEWLINE] + rest;
    FirstLineOf([49], rest);
    assert [49] + [NEWLINE] == Decimal(1) + [NEWLINE];
    DecimalRoundTrip(1, [NEWLINE]);
    FirstLineOf([97], [98, NEWLINE]);
    assert Chomp([97] + [NEWLINE]) == [97];
    assert ReadKeys([98, NEWLINE], 0) == Some([]);
    var none: seq<Text> := [];
    assert [[97]] + none == [[97]];
    assert ReadKeys(rest, 1) == Some([[97]]);
  }

  // ------------------------------------------------------------------ the overlay as a map

  function Find(cs: seq<Config>, k: Text): Option<Config> {
    if cs == [] then None else if cs[0].key == k then Some(cs[0]) else Find(cs[1..], k)
  }

  /** What the store holds for a key: the unstored config, or else the file. */
  function Lookup(cs: seq<Config>, files: Files, k: Text): Option<(Text, Byte)> {
    match Find(cs, k)
    case Some(c) => Some((c.value, c.typ))
    case None => if k in files then DecodeConfig(files[k]) else None
  }

  /** The configs a client is sent: every key with something to look up, in key order. */
  function ConfigArray(keys: seq<Text>, cs: seq<Config>, files: Files): seq<Config> {
    if keys == [] then []
    else
      var k := keys[|keys| - 1];
      ConfigArray(keys[..|keys| - 1], cs, files) +
      match Lookup(cs, files, k)
      case None => []
      case Some((value, typ)) => [Config(k, value, typ)]
  }

  function PutKey(keys: seq<Text>, k: Text): seq<Text> {
    if k in keys then keys else keys + [k]
  }

  function PutConfig(cs: seq<Config>, c: Config): seq<Config> {
    if cs == [] then [c] else if cs[0].key == c.key then [c] + cs[1..] else [cs[0]] + PutConfig(cs[1..], c)
  }

  predicate DistinctKeys(cs: seq<Config>) {
    forall i, j :: 0 <= i < j < |cs| ==> cs[i].key != cs[j].key
  }

  lemma {:induction false} FindPut(cs: seq<Config>, c: Config, k: Text)
    ensures Find(PutConfig(cs, c), k) == if k == c.key then Some(c) else Find(cs, k)
  {
    if cs != [] && cs[0].key != c.key {
      FindPut(cs[1..], c, k);
    }
  }

  /** Setting one config changes the lookup of its key and of no other. */
  lemma PutChangesOneKey(cs: seq<Config>, files: Files, c: Config, k: Text)
    ensures Lookup(PutConfig(cs, c), files, k)
            == if k == c.key then Some((c.value, c.typ)) else Lookup(cs, files, k)
  {
    FindPut(cs, c, k);
  }

  lemma {:induction false} FindAt(cs: seq<Config>, i: nat)
    requires i < |cs| && DistinctKeys(cs)
    ensures Find(cs, cs[i].key) == Some(cs[i])
  {
    if i > 0 {
      assert cs[1..][i - 1] == cs[i] && cs[0].key != cs[i].key;
      FindAt(cs[1..], i - 1);
    }
  }

  lemma {:induction false} FindNone(cs: seq<Config>, k: Text)
    ensures Find(cs, k) == None <==> forall i :: 0 <= i < |cs| ==> cs[i].key != k
    ensures Find(cs, k).Some? ==> Find(cs, k).value in cs && Find(cs, k).value.key == k
  {
    if cs != [] {
      FindNone(cs[1..], k);
      assert forall i :: 0 < i < |cs| ==> cs[i] == cs[1..][i - 1];
    }
  }

  lemma WithoutFirst(cs: seq<Config>, i: nat)
    requires i < |cs| && DistinctKeys(cs)
    ensures i == 0 ==> Without(cs, i) == cs[1..]
    ensures i > 0 ==> Without(cs, i) == [cs[0]] + Without(cs[1..], i - 1)
    ensures i > 0 ==> cs[1..][i - 1] == cs[i] && cs[0].key != cs[i].key && DistinctKeys(cs[1..])
    ensures DistinctKeys(Without(cs, i))
  {
    var ds := Without(cs, i);
    assert forall j :: 0 <= j < |ds| ==> ds[j] == cs[if j < i then j else j + 1];
  }

  lemma FindFirst(c: Config, cs: seq<Config>, k: Text)
    ensures Find([c] + cs, k) == if c.key == k then Some(c) else Find(cs, k)
  {
    assert ([c] + cs)[1..] == cs;
  }

  lemma {:induction false} FindWithout(cs: seq<Config>, i: nat, k: Text)
    requires i < |cs| && DistinctKeys(cs)
    ensures DistinctKeys(Without(cs, i))
    ensures Find(Without(cs, i), k) == if k == cs[i].key then None else Find(cs, k)
  {
    WithoutFirst(cs, i);
    FindTail(cs, k);
    if i == 0 {
      FindNone(cs[1..], cs[0].key);
    } else {
      hide Find, Without, DistinctKeys;
      FindWithout(cs[1..], i - 1, k);
      FindFirst(cs[0], Without(cs[1..], i - 1), k);
    }
  }

  lemma FindTail(cs: seq<Config>, k: Text)
    requires cs != []
    ensures Find(cs, k) == if cs[0].key == k then Some(cs[0]) else Find(cs[1..], k)
  {
  }
  /** Where an existing config is replaced, or that a new one goes to the end. */
  lemma {:induction false} PutConfigAt(cs: seq<Config>, c: Config, i: nat)
    requires i <= |cs| && forall j :: 0 <= j < i ==> cs[j].key != c.key
    requires i < |cs| ==> cs[i].key == c.key
    ensures PutConfig(cs, c) == if i < |cs| then cs[i := c] else cs + [c]
  {
    if i > 0 {
      assert cs[0].key != c.key;
      PutConfigAt(cs[1..], c, i - 1);
    }
  }
}
