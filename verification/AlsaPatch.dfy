/** ALSA connections: a patch remembers its ends by client identity while a project is saved. */
module AlsaPatch {
  import opened Bytes
  import opened Sequences

  // ------------------------------------------------------------------ identities

  function Lower(b: Byte): Byte {
    if 65 <= b <= 70 then b + 32 else b
  }

  function Lowered(t: Text): (r: Text)
    ensures |r| == |t| && forall i :: 0 <= i < |t| ==> r[i] == Lower(t[i])
  {
    if t == [] then [] else [Lower(t[0])] + Lowered(t[1..])
  }

  /** The text of an identity as uuid_unparse writes it. */
  predicate IsUuid(t: Text) {
    |t| == 36 && forall i :: 0 <= i < 36 ==>
      if i == 8 || i == 13 || i == 18 || i == 23 then t[i] == 45 else 48 <= t[i] <= 57 || 97 <= t[i] <= 102
  }

  /** 00000000-0000-0000-0000-000000000000 */
  function NullUuid(): Text {
    [48, 48, 48, 48, 48, 48, 48, 48, 45,
     48, 48, 48, 48, 45, 48, 48, 48, 48, 45, 48, 48, 48, 48, 45,
     48, 48, 48, 48, 48, 48, 48, 48, 48, 48, 48, 48]
  }

  type Uuid = t: Text | IsUuid(t) witness NullUuid()

  /** uuid_parse: either case of the letters will do; other text is refused. */
  function ParseUuid(t: Text): Option<Uuid> {
    if IsUuid(Lowered(t)) then Some(Lowered(t)) else None
  }

  lemma UuidRoundTrip(id: Uuid)
    ensures ParseUuid(id) == Some(id)
  {
    assert Lowered(id) == id;
  }

  function Upper(b: Byte): Byte {
    if 97 <= b <= 102 then b - 32 else b
  }

  /** So is an identity written in capitals. */
  lemma UuidInCapitals(id: Uuid)
    ensures ParseUuid(seq(36, i requires 0 <= i < 36 => Upper(id[i]))) == Some(id)
  {
    assert Lowered(seq(36, i requires 0 <= i < 36 => Upper(id[i]))) == id;
  }

  // ------------------------------------------------------------------ patches as values

  datatype Addr = Addr(client: Byte, port: Byte)

  /** snd_seq_port_subscribe_t */
  datatype Subscription = Subscription(sender: Addr, dest: Addr, queue: Byte,
                                       exclusive: bool, timeUpdate: bool, timeReal: bool)

  datatype Patch = Patch(srcId: Uuid, destId: Uuid, sub: Subscription)

  /** A client the ALSA manager knows: the number it holds at the moment, and its identity. */
  datatype AlsaClient = AlsaClient(clientId: Byte, id: Uuid)

  /** A new patch. */
  function Fresh(): Patch {
    Patch(NullUuid(), NullUuid(), Subscription(Addr(0, 0), Addr(0, 0), 0, false, false, false))
  }

  /** The identity of the first client with that number, or `id` if there is none. */
  function IdOf(clients: seq<AlsaClient>, number: Byte, id: Uuid): Uuid {
    if clients == [] then id
    else if clients[0].clientId == number then clients[0].id
    else IdOf(clients[1..], number, id)
  }

  /** The number of the first client with that identity. */
  function NumberOf(clients: seq<AlsaClient>, id: Uuid): Option<Byte> {
    if clients == [] then None
    else if clients[0].id == id then Some(clients[0].clientId)
    else NumberOf(clients[1..], id)
  }

  /** It is the first client with that number, and the first with that identity. */
  lemma {:induction false} FirstClients(clients: seq<AlsaClient>, k: nat, id: Uuid)
    requires k < |clients|
    ensures (forall j :: 0 <= j < k ==> clients[j].clientId != clients[k].clientId) ==>
              IdOf(clients, clients[k].clientId, id) == clients[k].id
    ensures (forall j :: 0 <= j < k ==> clients[j].id != clients[k].id) ==>
              NumberOf(clients, clients[k].id) == Some(clients[k].clientId)
  {
    if k > 0 {
      assert forall j :: 0 <= j < k - 1 ==> clients[1..][j] == clients[j + 1];
      FirstClients(clients[1..], k - 1, id);
    }
  }

  function Identified(p: Patch, clients: seq<AlsaClient>): Patch {
    p.(srcId := IdOf(clients, p.sub.sender.client, p.srcId), destId := IdOf(clients, p.sub.dest.client, p.destId))
  }

  /** One end: its address now, and whether its client is missing. */
  function ResolvedEnd(clients: seq<AlsaClient>, id: Uuid, end: Addr): (Addr, nat) {
    if id == NullUuid() then (end, 0)
    else
      match NumberOf(clients, id)
      case Some(n) => (end.(client := n), 0)
      case None => (end, 1)
  }

  function Resolved(p: Patch, clients: seq<AlsaClient>): (Patch, nat) {
    var (sender, a) := ResolvedEnd(clients, p.srcId, p.sub.sender);
    var (dest, b) := ResolvedEnd(clients, p.destId, p.sub.dest);
    (p.(sub := p.sub.(sender := sender, dest := dest)), a + b)
  }

  /** The element names of a saved patch; any other name is ignored by the parser. */
  datatype Tag = SrcClient | SrcClientId | SrcPort | DestClient | DestClientId | DestPort
               | Queue | Exclusive | TimeUpdate | TimeReal | Unknown(name: string)

  datatype Child = Child(tag: Tag, content: Text)

  function Flag(on: bool): Text {
    Decimal(if on then 1 else 0)
  }

  function EndChild(id: Uuid, end: Addr, number: Tag, identity: Tag): Child {
    if id == NullUuid() then Child(number, Decimal(end.client)) else Child(identity, id)
  }

  /** What alsa_patch_create_xml writes. */
  function Children(p: Patch): seq<Child> {
    [EndChild(p.srcId, p.sub.sender, SrcClient, SrcClientId),
     Child(SrcPort, Decimal(p.sub.sender.port)),
     EndChild(p.destId, p.sub.dest, DestClient, DestClientId),
     Child(DestPort, Decimal(p.sub.dest.port)),
     Child(Queue, Decimal(p.sub.queue)),
     Child(Exclusive, Flag(p.sub.exclusive)),
     Child(TimeUpdate, Flag(p.sub.timeUpdate)),
     Child(TimeReal, Flag(p.sub.timeReal))]
  }

  /** strtoul into an unsigned char. */
  function ByteIn(t: Text): Byte {
    ReadNumber(t).0 % 256
  }

  /** strtoul into an int, used as a flag. */
  function FlagIn(t: Text): bool {
    ReadNumber(t).0 % 0x1_0000_0000 != 0
  }

  function IdIn(t: Text, id: Uuid): Uuid {
    match ParseUuid(t)
    case Some(u) => u
    case None => id
  }

  function ParseChild(p: Patch, c: Child): Patch {
    var s := p.sub;
    match c.tag
    case SrcClient => p.(sub := s.(sender := s.sender.(client := ByteIn(c.content))))
    case SrcClientId => p.(srcId := IdIn(c.content, p.srcId))
    case SrcPort => p.(sub := s.(sender := s.sender.(port := ByteIn(c.content))))
    case DestClient => p.(sub := s.(dest := s.dest.(client := ByteIn(c.content))))
    case DestClientId => p.(destId := IdIn(c.content, p.destId))
    case DestPort => p.(sub := s.(dest := s.dest.(port := ByteIn(c.content))))
    case Queue => p.(sub := s.(queue := ByteIn(c.content)))
    case Exclusive => p.(sub := s.(exclusive := FlagIn(c.content)))
    case TimeUpdate => p.(sub := s.(timeUpdate := FlagIn(c.content)))
    case TimeReal => p.(sub := s.(timeReal := FlagIn(c.content)))
    case Unknown(_) => p
  }

  function Parsed(p: Patch, cs: seq<Child>): Patch {
    if cs == [] then p else ParseChild(Parsed(p, cs[..|cs| - 1]), cs[|cs| - 1])
  }

  // ------------------------------------------------------------------ the order of the children

  predicate DistinctTags(cs: seq<Child>) {
    forall i, j :: 0 <= i < j < |cs| ==> cs[i].tag != cs[j].tag
  }

  /** Children with different names do not get in each other's way. */
  lemma ParseCommutes(p: Patch, c: Child, d: Child)
    requires c.tag != d.tag
    ensures ParseChild(ParseChild(p, c), d) == ParseChild(ParseChild(p, d), c)
  {
    hide ByteIn, FlagIn, IdIn, NullUuid;
  }

  lemma ParsedOneMore(p: Patch, cs: seq<Child>, c: Child)
    ensures Parsed(p, cs + [c]) == ParseChild(Parsed(p, cs), c)
  {
    assert (cs + [c])[..|cs|] == cs;
  }

  /** A child can be read last instead of where it stands. */
  lemma {:induction false} ReadLast(p: Patch, cs: seq<Child>, k: nat)
    requires k < |cs| && DistinctTags(cs)
    ensures Parsed(p, cs) == ParseChild(Parsed(p, Without(cs, k)), cs[k])
  {
    hide ParseChild;
    var init, last := cs[..|cs| - 1], cs[|cs| - 1];
    if k == |cs| - 1 {
      assert Without(cs, k) == init;
    } else {
      ReadLast(p, init, k);
      assert Without(cs, k) == Without(init, k) + [last];
      ParsedOneMore(p, Without(init, k), last);
      hide Without, DistinctTags;
      ParseCommutes(Parsed(p, Without(init, k)), cs[k], last);
    }
  }

  lemma WithoutOne(cs: seq<Child>, k: nat, init: seq<Child>)
    requires k < |cs| && multiset(cs) == multiset(init + [cs[k]])
    ensures multiset(Without(cs, k)) == multiset(init)
    ensures DistinctTags(cs) ==> DistinctTags(Without(cs, k))
  {
    assert cs == cs[..k] + [cs[k]] + cs[k + 1..];
    assert multiset(cs) == multiset(Without(cs, k)) + multiset{cs[k]};
    assert multiset(init + [cs[k]]) == multiset(init) + multiset{cs[k]};
    Cancel(multiset(Without(cs, k)), multiset(init), cs[k]);
  }

  lemma Cancel(a: multiset<Child>, b: multiset<Child>, c: Child)
    requires a + multiset{c} == b + multiset{c}
    ensures a == b
  {
    forall x ensures a[x] == b[x] { assert (a + multiset{c})[x] == (b + multiset{c})[x]; }
  }

  /** What stands in the first element with this name. */
  function ContentOf(cs: seq<Child>, tag: Tag): Option<Text> {
    if cs == [] then None else if cs[0].tag == tag then Some(cs[0].content) else ContentOf(cs[1..], tag)
  }

  /** Each part of the connection is saved in the element with its name. */
  lemma PartsByTag(p: Patch)
    ensures var cs, s := Children(p), p.sub;
            && ContentOf(cs, SrcPort) == Some(Decimal(s.sender.port))
            && ContentOf(cs, DestPort) == Some(Decimal(s.dest.port))
            && ContentOf(cs, Queue) == Some(Decimal(s.queue))
            && ContentOf(cs, Exclusive) == Some(Flag(s.exclusive))
            && ContentOf(cs, TimeUpdate) == Some(Flag(s.timeUpdate))
            && ContentOf(cs, TimeReal) == Some(Flag(s.timeReal))
  {
    hide Decimal, Flag, ContentOf, NullUuid, IsUuid;
    ContentAt(Children(p), SrcPort, 1);
    ContentAt(Children(p), DestPort, 3);
    ContentAt(Children(p), Queue, 4);
    ContentAt(Children(p), Exclusive, 5);
    ContentAt(Children(p), TimeUpdate, 6);
    ContentAt(Children(p), TimeReal, 7);
  }

  lemma EndsByTag(p: Patch)
    ensures var cs, s := Children(p), p.sub;
            && (p.srcId == NullUuid() ==> ContentOf(cs, SrcClient) == Some(Decimal(s.sender.client)))
            && (p.srcId != NullUuid() ==> ContentOf(cs, SrcClientId) == Some(p.srcId))
            && (p.destId == NullUuid() ==> ContentOf(cs, DestClient) == Some(Decimal(s.dest.client)))
            && (p.destId != NullUuid() ==> ContentOf(cs, DestClientId) == Some(p.destId))
  {
    hide Decimal, Flag, ContentOf, NullUuid, IsUuid;
    ContentAt(Children(p), SrcClient, 0);
    ContentAt(Children(p), SrcClientId, 0);
    ContentAt(Children(p), DestClient, 2);
    ContentAt(Children(p), DestClientId, 2);
  }

  lemma {:induction false} ContentAt(cs: seq<Child>, tag: Tag, k: nat)
    requires k < |cs| && forall j :: 0 <= j < k ==> cs[j].tag != tag
    ensures cs[k].tag == tag ==> ContentOf(cs, tag) == Some(cs[k].content)
  {
    if k > 0 { ContentAt(cs[1..], tag, k - 1); }
  }

  /** What an element leaves behind if it is there, and the old value otherwise. */
  function ByteFrom(cs: seq<Child>, tag: Tag, before: Byte): Byte {
    match ContentOf(cs, tag)
    case Some(t) => ByteIn(t)
    case None => before
  }

  function FlagFrom(cs: seq<Child>, tag: Tag, before: bool): bool {
    match ContentOf(cs, tag)
    case Some(t) => FlagIn(t)
    case None => before
  }

  function IdFrom(cs: seq<Child>, tag: Tag, before: Uuid): Uuid {
    match ContentOf(cs, tag)
    case Some(t) => IdIn(t, before)
    case None => before
  }

  /** Each part of the connection `q` is read from the element with its name, or is as in `p`. */
  predicate IsReadFrom(p: Patch, cs: seq<Child>, q: Patch) {
    IdsAreRead(p, cs, q) && SenderIsRead(p, cs, q) && DestIsReadFrom(p, cs, q) && FlagsAreRead(p, cs, q)
  }

  predicate IdsAreRead(p: Patch, cs: seq<Child>, q: Patch) {
    q.srcId == IdFrom(cs, SrcClientId, p.srcId) && q.destId == IdFrom(cs, DestClientId, p.destId)
  }

  predicate SenderIsRead(p: Patch, cs: seq<Child>, q: Patch) {
    && q.sub.sender.client == ByteFrom(cs, SrcClient, p.sub.sender.client)
    && q.sub.sender.port == ByteFrom(cs, SrcPort, p.sub.sender.port)
  }

  predicate DestIsReadFrom(p: Patch, cs: seq<Child>, q: Patch) {
    && q.sub.dest.client == ByteFrom(cs, DestClient, p.sub.dest.client)
    && q.sub.dest.port == ByteFrom(cs, DestPort, p.sub.dest.port)
    && q.sub.queue == ByteFrom(cs, Queue, p.sub.queue)
  }

  predicate FlagsAreRead(p: Patch, cs: seq<Child>, q: Patch) {
    && q.sub.exclusive == FlagFrom(cs, Exclusive, p.sub.exclusive)
    && q.sub.timeUpdate == FlagFrom(cs, TimeUpdate, p.sub.timeUpdate)
    && q.sub.timeReal == FlagFrom(cs, TimeReal, p.sub.timeReal)
  }

  lemma IdsOneMore(p: Patch, cs: seq<Child>, c: Child, q: Patch)
    requires IdsAreRead(p, cs, q) && DistinctTags(cs + [c])
    ensures IdsAreRead(p, cs + [c], ParseChild(q, c))
  {
    hide ContentOf, DistinctTags, ByteIn, FlagIn, IdIn, NullUuid, IsUuid;
    ContentMore(cs, c, SrcClientId);
    ContentMore(cs, c, DestClientId);
  }

  lemma SenderOneMore(p: Patch, cs: seq<Child>, c: Child, q: Patch)
    requires SenderIsRead(p, cs, q) && DistinctTags(cs + [c])
    ensures SenderIsRead(p, cs + [c], ParseChild(q, c))
  {
    hide ContentOf, DistinctTags, ByteIn, FlagIn, IdIn, NullUuid, IsUuid;
    ContentMore(cs, c, SrcClient);
    ContentMore(cs, c, SrcPort);
  }

  lemma DestOneMore(p: Patch, cs: seq<Child>, c: Child, q: Patch)
    requires DestIsReadFrom(p, cs, q) && DistinctTags(cs + [c])
    ensures DestIsReadFrom(p, cs + [c], ParseChild(q, c))
  {
    hide ContentOf, DistinctTags, ByteIn, FlagIn, IdIn, NullUuid, IsUuid;
    ContentMore(cs, c, DestClient);
    ContentMore(cs, c, DestPort);
    ContentMore(cs, c, Queue);
  }

  lemma FlagsOneMore(p: Patch, cs: seq<Child>, c: Child, q: Patch)
    requires FlagsAreRead(p, cs, q) && DistinctTags(cs + [c])
    ensures FlagsAreRead(p, cs + [c], ParseChild(q, c))
  {
    hide ContentOf, DistinctTags, ByteIn, FlagIn, IdIn, NullUuid, IsUuid;
    ContentMore(cs, c, Exclusive);
    ContentMore(cs, c, TimeUpdate);
    ContentMore(cs, c, TimeReal);
  }

  lemma ReadOneMore(p: Patch, cs: seq<Child>, c: Child, q: Patch)
    requires IsReadFrom(p, cs, q) && DistinctTags(cs + [c])
    ensures IsReadFrom(p, cs + [c], ParseChild(q, c))
  {
    hide ParseChild, DistinctTags, IdsAreRead, SenderIsRead, DestIsReadFrom, FlagsAreRead;
    IdsOneMore(p, cs, c, q);
    SenderOneMore(p, cs, c, q);
    DestOneMore(p, cs, c, q);
    FlagsOneMore(p, cs, c, q);
  }

  /** Whatever the file holds, each part of the connection is read from the element with its name, and
    stays as it was if there is none. */
  lemma {:induction false} ReadByTag(p: Patch, cs: seq<Child>)
    requires DistinctTags(cs)
    ensures IsReadFrom(p, cs, Parsed(p, cs))
  {
    hide ParseChild, ByteIn, FlagIn, IdIn, NullUuid, IsUuid;
    if cs != [] {
      var init, last := cs[..|cs| - 1], cs[|cs| - 1];
      assert cs == init + [last];
      ReadByTag(p, init);
      ReadOneMore(p, init, last, Parsed(p, init));
    }
  }

  lemma {:induction false} ContentMore(cs: seq<Child>, c: Child, tag: Tag)
    requires DistinctTags(cs + [c])
    ensures ContentOf(cs + [c], tag) == if c.tag == tag then Some(c.content) else ContentOf(cs, tag)
    ensures c.tag == tag ==> ContentOf(cs, tag) == None
  {
    var all := cs + [c];
    if cs == [] {
      assert all[1..] == [];
    } else {
      assert all[0] == cs[0] && all[1..] == cs[1..] + [c] && all[|cs|] == c;
      ContentMore(cs[1..], c, tag);
    }
  }

  /** Children in any order are read as the same patch. */
  lemma {:induction false} AnyOrder(p: Patch, cs: seq<Child>, ds: seq<Child>)
    requires multiset(cs) == multiset(ds) && DistinctTags(cs)
    ensures Parsed(p, cs) == Parsed(p, ds)
    decreases |ds|
  {
    assert |cs| == |multiset(cs)| == |multiset(ds)| == |ds|;
    if ds != [] {
      var init, last := ds[..|ds| - 1], ds[|ds| - 1];
      assert ds == init + [last];
      assert last in multiset(cs);
      var k :| 0 <= k < |cs| && cs[k] == last;
      WithoutOne(cs, k, init);
      hide ParseChild, Without, DistinctTags;
      AnyOrder(p, Without(cs, k), init);
      ReadLast(p, cs, k);
    }
  }

  // ------------------------------------------------------------------ saving and restoring

  lemma ContentsAreRead(b: Byte, on: bool)
    ensures ByteIn(Decimal(b)) == b && FlagIn(Flag(on)) == on
  {
    DecimalRoundTrip(b, []);
    DecimalRoundTrip(if on then 1 else 0, []);
    assert Decimal(b) + [] == Decimal(b) && Flag(on) + [] == Flag(on);
  }

  /** A number is cut to the byte it is stored in, and any number but zero sets a flag. */
  lemma NumbersAreCut(n: nat)
    ensures ByteIn(Decimal(n)) == n % 256
    ensures FlagIn(Decimal(n)) <==> n % 0x1_0000_0000 != 0
  {
    DecimalRoundTrip(n, []);
    assert Decimal(n) + [] == Decimal(n);
  }

  /** An end after parsing: the literal number was kept only for a client without identity. */
  function ReadEnd(id: Uuid, end: Addr): Addr {
    if id == NullUuid() then end else end.(client := 0)
  }

  lemma ChildrenAreRead(p: Patch)
    ensures Parsed(Fresh(), Children(p)) ==
            p.(sub := p.sub.(sender := ReadEnd(p.srcId, p.sub.sender), dest := ReadEnd(p.destId, p.sub.dest)))
  {
    var sub := p.sub;
    ContentsAreRead(sub.sender.port, sub.exclusive);
    ContentsAreRead(sub.dest.port, sub.timeUpdate);
    ContentsAreRead(sub.queue, sub.timeReal);
    hide ByteIn, FlagIn, Decimal, Flag, NullUuid, EndChild, ReadEnd, Parsed;
    ReadSteps(Children(p));
    var src := EndChild(p.srcId, sub.sender, SrcClient, SrcClientId);
    var dest := EndChild(p.destId, sub.dest, DestClient, DestClientId);
    SrcIsRead(Fresh(), p.srcId, sub.sender);
    DestIsRead(ParseChild(ParseChild(Fresh(), src), Child(SrcPort, Decimal(sub.sender.port))), p.destId, sub.dest);
    ReadEndPort(p.srcId, sub.sender);
    ReadEndPort(p.destId, sub.dest);
  }

  lemma TagsAreDistinct(p: Patch)
    ensures DistinctTags(Children(p))
  {
  }

  lemma ReadEndPort(id: Uuid, end: Addr)
    ensures ReadEnd(id, end).port == end.port
  {
  }

  lemma SrcIsRead(q: Patch, id: Uuid, end: Addr)
    requires q.srcId == NullUuid() && q.sub.sender.client == 0
    ensures var c := ReadEnd(id, end).client;
            ParseChild(q, EndChild(id, end, SrcClient, SrcClientId)) ==
            q.(srcId := id, sub := q.sub.(sender := q.sub.sender.(client := c)))
  {
    ContentsAreRead(end.client, true);
    UuidRoundTrip(id);
    hide ByteIn, NullUuid, ParseUuid;
  }

  lemma DestIsRead(q: Patch, id: Uuid, end: Addr)
    requires q.destId == NullUuid() && q.sub.dest.client == 0
    ensures var c := ReadEnd(id, end).client;
            ParseChild(q, EndChild(id, end, DestClient, DestClientId)) ==
            q.(destId := id, sub := q.sub.(dest := q.sub.dest.(client := c)))
  {
    ContentsAreRead(end.client, true);
    UuidRoundTrip(id);
    hide ByteIn, NullUuid, ParseUuid;
  }

  /** Eight children, read one by one. */
  lemma ReadSteps(cs: seq<Child>)
    requires |cs| == 8
    ensures Parsed(Fresh(), cs) ==
            ParseChild(ParseChild(ParseChild(ParseChild(ParseChild(ParseChild(ParseChild(ParseChild(
              Fresh(), cs[0]), cs[1]), cs[2]), cs[3]), cs[4]), cs[5]), cs[6]), cs[7])
  {
    hide ParseChild;
    forall k | 0 <= k < 8
      ensures Parsed(Fresh(), cs[..k + 1]) == ParseChild(Parsed(Fresh(), cs[..k]), cs[k])
    {
      assert cs[..k + 1] == cs[..k] + [cs[k]];
      ParsedOneMore(Fresh(), cs[..k], cs[k]);
    }
    assert cs[..8] == cs && Parsed(Fresh(), cs[..0]) == Fresh();
  }

  /** The number of an end, saved while `before` were running and restored among `after`. */
  function RestoredNumber(before: seq<AlsaClient>, after: seq<AlsaClient>, number: Byte): (Byte, nat) {
    var id := IdOf(before, number, NullUuid());
    if id == NullUuid() then (number, 0)
    else
      match NumberOf(after, id)
      case Some(n) => (n, 0)
      case None => (0, 1)
  }

  /** A connection is saved, read back with its elements in any order, and resolved: ports, queue
    and flags are the same, and each end has the number its client holds now, or the saved number
    if its client had no identity. Ends whose client is missing are counted. */
  lemma PatchRoundTrip(sub: Subscription, before: seq<AlsaClient>, read: seq<Child>, after: seq<AlsaClient>)
    requires multiset(read) == multiset(Children(Identified(Fresh().(sub := sub), before)))
    ensures var (sender, a) := RestoredNumber(before, after, sub.sender.client);
            var (dest, b) := RestoredNumber(before, after, sub.dest.client);
            var (patch, missing) := Resolved(Parsed(Fresh(), read), after);
            && patch.sub == sub.(sender := sub.sender.(client := sender), dest := sub.dest.(client := dest))
            && missing == a + b
  {
    var p := Identified(Fresh().(sub := sub), before);
    ChildrenAreRead(p);
    TagsAreDistinct(p);
    hide NullUuid, Children, DistinctTags, Parsed;
    AnyOrder(Fresh(), Children(p), read);
  }

  predicate DistinctClients(clients: seq<AlsaClient>) {
    forall i, j :: 0 <= i < j < |clients| ==>
      clients[i].id != clients[j].id && clients[i].clientId != clients[j].clientId
  }

  /** With distinct identities, the number found is the one the client holds. */
  lemma {:induction false} NumberIsHeld(clients: seq<AlsaClient>, k: nat)
    requires k < |clients| && DistinctClients(clients)
    ensures NumberOf(clients, clients[k].id) == Some(clients[k].clientId)
    ensures forall id :: IdOf(clients, clients[k].clientId, id) == clients[k].id
  {
    if k > 0 { NumberIsHeld(clients[1..], k - 1); }
  }

  lemma {:induction false} IdIsKnown(clients: seq<AlsaClient>, number: Byte)
    ensures IdOf(clients, number, NullUuid()) == NullUuid()
            || exists k :: 0 <= k < |clients| && clients[k] == AlsaClient(number, IdOf(clients, number, NullUuid()))
  {
    if clients != [] && clients[0].clientId != number {
      IdIsKnown(clients[1..], number);
      assert forall k :: 0 <= k < |clients| - 1 ==> clients[1..][k] == clients[k + 1];
    }
  }

  lemma NumberSurvives(clients: seq<AlsaClient>, number: Byte)
    requires DistinctClients(clients)
    ensures RestoredNumber(clients, clients, number) == (number, 0)
  {
    IdIsKnown(clients, number);
    var id := IdOf(clients, number, NullUuid());
    if id != NullUuid() {
      var k :| 0 <= k < |clients| && clients[k] == AlsaClient(number, id);
      NumberIsHeld(clients, k);
    }
  }

  /** If nothing changed in between, a restored connection is the saved one. */
  lemma UnchangedClients(sub: Subscription, clients: seq<AlsaClient>, read: seq<Child>)
    requires DistinctClients(clients)
    requires multiset(read) == multiset(Children(Identified(Fresh().(sub := sub), clients)))
    ensures Resolved(Parsed(Fresh(), read), clients).0.sub == sub && Resolved(Parsed(Fresh(), read), clients).1 == 0
  {
    PatchRoundTrip(sub, clients, read, clients);
    NumberSurvives(clients, sub.sender.client);
    NumberSurvives(clients, sub.dest.client);
  }

  // ------------------------------------------------------------------ the patch object

  class AlsaPatch {
    var srcId: Uuid
    var destId: Uuid
    var sub: Subscription

    function View(): Patch
      reads this
    {
      Patch(srcId, destId, sub)
    }

    /** alsa_patch_new */
    constructor ()
      ensures View() == Fresh()
    {
      srcId, destId := NullUuid(), NullUuid();
      sub := Fresh().sub;
    }

    /** alsa_patch_dup */
    constructor Dup(other: AlsaPatch)
      ensures View() == other.View()
    {
      sub := other.sub;
      srcId := other.srcId;
      destId := other.destId;
    }

    /** alsa_patch_set_client_id */
    static method SetClientId(clients: seq<AlsaClient>, number: Byte, id: Uuid) returns (found: Uuid)
      ensures found == IdOf(clients, number, id)
    {
      var k := 0;
      while k < |clients|
        invariant k <= |clients|
        invariant IdOf(clients, number, id) == IdOf(clients[k..], number, id)
      {
        if clients[k].clientId == number {
          return clients[k].id;
        }
        k := k + 1;
      }
      return id;
    }

    /** alsa_patch_set */
    method Set(clients: seq<AlsaClient>)
      modifies this
      ensures View() == Identified(old(View()), clients)
    {
      srcId := SetClientId(clients, sub.sender.client, srcId);
      destId := SetClientId(clients, sub.dest.client, destId);
    }

    /** alsa_patch_unset_client_id, for the end at `end`. */
    static method UnsetClientId(clients: seq<AlsaClient>, id: Uuid, end: Addr) returns (addr: Addr, err: nat)
      requires id != NullUuid()
      ensures (addr, err) == ResolvedEnd(clients, id, end)
    {
      var k := 0;
      while k < |clients|
        invariant k <= |clients|
        invariant NumberOf(clients, id) == NumberOf(clients[k..], id)
      {
        if id == clients[k].id {
          return Addr(clients[k].clientId, end.port), 0;
        }
        k := k + 1;
      }
      return end, 1;
    }

    /** alsa_patch_unset: the number of ends whose client could not be found. */
    method Unset(clients: seq<AlsaClient>) returns (notFound: nat)
      modifies this`sub
      ensures (View(), notFound) == Resolved(old(View()), clients)
    {
      hide NullUuid;
      notFound := 0;
      if srcId != NullUuid() {
        var addr, err := UnsetClientId(clients, srcId, sub.sender);
        sub := sub.(sender := addr);
        notFound := notFound + err;
      }
      if destId != NullUuid() {
        var addr, err := UnsetClientId(clients, destId, sub.dest);
        sub := sub.(dest := addr);
        notFound := notFound + err;
      }
    }

    /** The body of the loop: an element sets its own part and nothing else. */
    method ParseElement(c: Child)
      modifies this
      ensures View() == ParseChild(old(View()), c)
    {
      hide ByteIn, FlagIn, IdIn;
      match c.tag {
        case SrcClient => sub := sub.(sender := Addr(ByteIn(c.content), sub.sender.port));
        case SrcClientId => srcId := IdIn(c.content, srcId);
        case SrcPort => sub := sub.(sender := Addr(sub.sender.client, ByteIn(c.content)));
        case DestClient => sub := sub.(dest := Addr(ByteIn(c.content), sub.dest.port));
        case DestClientId => destId := IdIn(c.content, destId);
        case DestPort => sub := sub.(dest := Addr(sub.dest.client, ByteIn(c.content)));
        case Queue => sub := sub.(queue := ByteIn(c.content));
        case Exclusive => sub := sub.(exclusive := FlagIn(c.content));
        case TimeUpdate => sub := sub.(timeUpdate := FlagIn(c.content));
        case TimeReal => sub := sub.(timeReal := FlagIn(c.content));
        case Unknown(_) =>
      }
    }

    /** alsa_patch_parse_xml */
    method ParseXml(children: seq<Child>)
      modifies this
      ensures View() == Parsed(old(View()), children)
    {
      ghost var p := View();
      assert Parsed(p, []) == p;
      hide ParseChild;
      var k := 0;
      while k < |children|
        invariant k <= |children| && View() == Parsed(p, children[..k])
      {
        assert children[..k + 1] == children[..k] + [children[k]];
        ParsedOneMore(p, children[..k], children[k]);
        ParseElement(children[k]);
        k := k + 1;
      }
      assert children[..k] == children;
    }

    /** alsa_patch_create_xml */
    method CreateXml() returns (children: seq<Child>)
      ensures children == Children(View())
    {
      hide NullUuid, Decimal, Flag;
      var src, dest;
      if srcId == NullUuid() {
        src := Child(SrcClient, Decimal(sub.sender.client));
      } else {
        src := Child(SrcClientId, srcId);
      }
      if destId == NullUuid() {
        dest := Child(DestClient, Decimal(sub.dest.client));
      } else {
        dest := Child(DestClientId, destId);
      }
      children := [src, Child(SrcPort, Decimal(sub.sender.port)), dest, Child(DestPort, Decimal(sub.dest.port)),
                   Child(Queue, Decimal(sub.queue)), Child(Exclusive, Flag(sub.exclusive)),
                   Child(TimeUpdate, Flag(sub.timeUpdate)), Child(TimeReal, Flag(sub.timeReal))];
    }

    /** alsa_patch_compare: 0 for the same connection, whatever identities are recorded. */
    method Compare(other: AlsaPatch) returns (r: int)
      ensures r == if sub == other.sub then 0 else 1
    {
      if sub.sender.client != other.sub.sender.client || sub.sender.port != other.sub.sender.port {
        return 1;
      }
      if sub.dest.client != other.sub.dest.client || sub.dest.port != other.sub.dest.port {
        return 1;
      }
      if || sub.queue != other.sub.queue
         || sub.exclusive != other.sub.exclusive
         || sub.timeUpdate != other.sub.timeUpdate
         || sub.timeReal != other.sub.timeReal
      {
        return 1;
      }
      return 0;
    }
  }
}
