/** lash_extract_args: the library's own arguments are taken out of argv, in place. */
module Args {
  import opened Bytes

  function Lower(c: char): char {
    if 'A' <= c <= 'Z' then ((c as int) + 32) as char else c
  }

  /** strncmp(prefix, s, |prefix|) == 0 */
  predicate HasPrefix(prefix: string, s: string) {
    |prefix| <= |s| && forall i :: 0 <= i < |prefix| ==> prefix[i] == s[i]
  }

  /** strncasecmp(prefix, s, |prefix|) == 0 */
  predicate HasPrefixAnyCase(prefix: string, s: string) {
    |prefix| <= |s| && forall i :: 0 <= i < |prefix| ==> Lower(prefix[i]) == Lower(s[i])
  }

  predicate Deprecated(s: string) {
    || HasPrefixAnyCase("--lash-server=", s)
    || HasPrefixAnyCase("--lash-project=", s)
    || HasPrefix("--lash-id=", s)
  }

  predicate NoAutoresume(s: string) {
    HasPrefix("--lash-no-autoresume", s)
  }

  predicate NoStartServer(s: string) {
    HasPrefix("--lash-no-start-server", s)
  }

  /** The library's own arguments. */
  predicate Own(s: string) {
    Deprecated(s) || NoAutoresume(s) || NoStartServer(s)
  }

  /** In lower case the text begins like this. */
  predicate BeginsInAnyCase(prefix: string, s: string) {
    |prefix| <= |s| && prefix == seq(|prefix|, i requires 0 <= i < |prefix| => Lower(s[i]))
  }

  /** What the library takes for its own. */
  lemma OwnByName(s: string)
    ensures Own(s) <==> || BeginsInAnyCase("--lash-server=", s) || BeginsInAnyCase("--lash-project=", s)
                        || "--lash-id=" <= s || "--lash-no-autoresume" <= s || "--lash-no-start-server" <= s
  {
    LowerPrefix("--lash-server=", s);
    LowerPrefix("--lash-project=", s);
    hide HasPrefixAnyCase, BeginsInAnyCase;
  }

  lemma LowerPrefix(prefix: string, s: string)
    requires forall i :: 0 <= i < |prefix| ==> Lower(prefix[i]) == prefix[i]
    ensures HasPrefixAnyCase(prefix, s) <==> BeginsInAnyCase(prefix, s)
  {
    hide Lower;
    if BeginsInAnyCase(prefix, s) {
      forall i | 0 <= i < |prefix|
        ensures Lower(prefix[i]) == Lower(s[i])
      {
        assert prefix[i] == seq(|prefix|, j requires 0 <= j < |prefix| => Lower(s[j]))[i];
      }
    }
  }

  /** No argument is taken for two things, so the order of the tests does not matter. */
  lemma PrefixesExclude(s: string)
    ensures !(Deprecated(s) && NoAutoresume(s)) && !(Deprecated(s) && NoStartServer(s))
    ensures !(NoAutoresume(s) && NoStartServer(s))
  {
    if NoAutoresume(s) || NoStartServer(s) {
      assert s[7] == 'n' by {
        if NoAutoresume(s) {
          assert "--lash-no-autoresume"[7] == s[7];
        } else {
          assert "--lash-no-start-server"[7] == s[7];
        }
      }
      assert "--lash-server="[7] == 's' && "--lash-project="[7] == 'p' && "--lash-id="[7] == 'i';
    }
    assert "--lash-no-autoresume"[10] != "--lash-no-start-server"[10];
  }

  /** The arguments that are not the library's, in order. */
  function Foreign(s: seq<string>): seq<string> {
    if s == [] then []
    else Foreign(s[..|s| - 1]) + if Own(s[|s| - 1]) then [] else [s[|s| - 1]]
  }

  /** Every foreign argument stays, as often as it was given, and nothing else does. */
  lemma {:induction false} ForeignStays(s: seq<string>, x: string)
    ensures multiset(Foreign(s))[x] == if Own(x) then 0 else multiset(s)[x]
  {
    hide Own, Foreign;
    if s == [] {
      ForeignNone();
    } else {
      var init, last := s[..|s| - 1], s[|s| - 1];
      assert s == init + [last];
      ForeignStays(init, x);
      ForeignOneMore(init, last);
      TimesOneMore(init, last, x);
      TimesOneMore(Foreign(init), last, x);
    }
  }

  lemma ForeignNone()
    ensures Foreign([]) == []
  {
  }

  lemma TimesOneMore(s: seq<string>, a: string, x: string)
    ensures multiset(s + [a])[x] == multiset(s)[x] + if a == x then 1 else 0
  {
  }

  lemma ForeignOneMore(s: seq<string>, a: string)
    ensures Foreign(s + [a]) == if Own(a) then Foreign(s) else Foreign(s) + [a]
  {
    hide Own;
    assert (s + [a])[..|s|] == s;
  }

  /** A second extraction would find nothing. */
  lemma {:induction false} ForeignTwice(s: seq<string>)
    ensures Foreign(Foreign(s)) == Foreign(s)
  {
    hide Own;
    if s != [] {
      var init, last := s[..|s| - 1], s[|s| - 1];
      ForeignTwice(init);
      var f := Foreign(init) + [last];
      assert f[..|f| - 1] == Foreign(init);
      assert Foreign(init) + [] == Foreign(init);
    }
  }

  /** What is left of marked arguments. */
  function Unmarked(m: seq<Option<string>>): seq<string> {
    if m == [] then []
    else
      var last := m[|m| - 1];
      Unmarked(m[..|m| - 1]) + if last.None? then [] else [last.value]
  }

  function Marked(s: seq<string>): (m: seq<Option<string>>)
    ensures |m| == |s|
    ensures forall i :: 0 <= i < |s| ==> m[i] == if Own(s[i]) then None else Some(s[i])
  {
    if s == [] then []
    else Marked(s[..|s| - 1]) + [if Own(s[|s| - 1]) then None else Some(s[|s| - 1])]
  }

  lemma {:induction false} MarkingSelects(s: seq<string>)
    ensures Unmarked(Marked(s)) == Foreign(s)
  {
    if s != [] {
      var m, init := Marked(s), s[..|s| - 1];
      MarkingSelects(init);
      assert m[..|m| - 1] == Marked(init);
    }
  }

  function Somes(s: seq<string>): (r: seq<Option<string>>)
    ensures |r| == |s| && forall i :: 0 <= i < |s| ==> r[i] == Some(s[i])
  {
    if s == [] then [] else Somes(s[..|s| - 1]) + [Some(s[|s| - 1])]
  }

  ghost predicate Autoresume(given: seq<string>, n: nat) {
    exists k :: 1 <= k < n && k < |given| && NoAutoresume(given[k])
  }

  ghost predicate StartServer(given: seq<string>, n: nat) {
    exists k :: 1 <= k < n && k < |given| && NoStartServer(given[k])
  }

  lemma OneMore(given: seq<string>, n: nat)
    requires 1 <= n < |given|
    ensures Autoresume(given, n + 1) <==> Autoresume(given, n) || NoAutoresume(given[n])
    ensures StartServer(given, n + 1) <==> StartServer(given, n) || NoStartServer(given[n])
  {
    hide NoAutoresume, NoStartServer;
  }

  /** The tests for one argument. */
  method Test(arg: string, a: bool, s: bool) returns (own: bool, noAutoresume: bool, noStartServer: bool)
    ensures own == Own(arg) && noAutoresume == (a || NoAutoresume(arg)) && noStartServer == (s || NoStartServer(arg))
  {
    PrefixesExclude(arg);
    own, noAutoresume, noStartServer := true, a, s;
    if Deprecated(arg) {
      return;
    }
    if NoAutoresume(arg) {
      noAutoresume := true;
      return;
    }
    if NoStartServer(arg) {
      noStartServer := true;
      return;
    }
    own := false;
  }

  /** What the first pass has made of `given` before position `i`. */
  ghost predicate MarkedUpTo(argv: seq<Option<string>>, given: seq<string>, i: nat) {
    && |argv| == |given|
    && forall k :: 0 <= k < |given| ==> argv[k] == if 1 <= k < i && Own(given[k]) then None else Some(given[k])
  }

  lemma MarkedAll(argv: seq<Option<string>>, given: seq<string>, i: nat)
    requires MarkedUpTo(argv, given, i) && i >= |given| > 0
    ensures argv == [Some(given[0])] + Marked(given[1..])
  {
    hide Own;
  }

  /** The first pass: an argument of the library's becomes null and may set a flag. */
  method MarkOwn(argv: array<Option<string>>, argc: nat, ghost given: seq<string>)
    returns (noAutoresume: bool, noStartServer: bool)
    requires argc <= argv.Length && argv[..argc] == Somes(given)
    modifies argv
    ensures argc > 0 ==> argv[..argc] == [Some(given[0])] + Marked(given[1..])
    ensures noAutoresume == Autoresume(given, argc) && noStartServer == StartServer(given, argc)
  {
    noAutoresume, noStartServer := false, false;
    var i := 1;
    hide Autoresume, StartServer, NoAutoresume, NoStartServer, Own;
    NoneYet(given);
    assert |argv[..argc]| == |given|;
    while i < argc
      invariant 1 <= i && (i <= argc || i == 1)
      invariant MarkedUpTo(argv[..argc], given, i)
      invariant noAutoresume == Autoresume(given, i) && noStartServer == StartServer(given, i)
    {
      var own;
      assert argv[..argc][i] == Some(given[i]);
      own, noAutoresume, noStartServer := Test(argv[i].value, noAutoresume, noStartServer);
      OneMore(given, i);
      ghost var before := argv[..argc];
      if own {
        argv[i] := None;
        assert argv[..argc] == before[i := None];
      }
      i := i + 1;
    }
    if argc > 0 {
      MarkedAll(argv[..argc], given, i);
    }
    OutOfRange(given, argc, i);
  }

  lemma NoneYet(given: seq<string>)
    ensures !Autoresume(given, 1) && !StartServer(given, 1)
  {
  }

  lemma OutOfRange(given: seq<string>, argc: nat, i: nat)
    requires |given| == argc && (if argc == 0 then i == 1 else i == argc)
    ensures Autoresume(given, argc) == Autoresume(given, i) && StartServer(given, argc) == StartServer(given, i)
  {
  }

  /** One entry less: those behind `i` move down, the last one stays as well. */
  ghost predicate Shifted(before: seq<Option<string>>, after: seq<Option<string>>, i: nat) {
    |after| == |before| && ShiftedAt(before, after, i)
  }

  ghost predicate ShiftedAt(before: seq<Option<string>>, after: seq<Option<string>>, i: nat)
    requires |after| == |before|
  {
    forall k :: 0 <= k < |before| ==> after[k] == before[if i <= k < |before| - 1 then k + 1 else k]
  }

  /** The inner loop of the second pass, which closes a gap by copying every later entry one down. */
  method ShiftDown(argv: array<Option<string>>, i: nat, argc: nat)
    requires i < argc <= argv.Length
    modifies argv
    ensures Shifted(old(argv[..argc]), argv[..argc], i)
  {
    var j := i;
    while j < argc - 1
      invariant i <= j <= argc - 1
      invariant forall k :: 0 <= k < argc ==> argv[k] == if i <= k < j then old(argv[k + 1]) else old(argv[k])
    {
      argv[j] := argv[j + 1];
      j := j + 1;
    }
  }

  /** The second pass under way: `i` entries are final, and the rest has moved down. */
  ghost predicate Closing(argv: seq<Option<string>>, m: seq<Option<string>>, i: nat, count: nat) {
    && i <= count <= |argv| == |m|
    && Final(argv, m, i, i + |m| - count) && Moved(argv, m, i, count) && LastStays(argv, m, count)
  }

  ghost predicate Final(argv: seq<Option<string>>, m: seq<Option<string>>, i: nat, p: nat)
    requires i <= |argv| && p <= |m|
  {
    argv[..i] == Somes(Unmarked(m[..p]))
  }

  ghost predicate Moved(argv: seq<Option<string>>, m: seq<Option<string>>, i: nat, count: nat)
    requires i <= count <= |argv| == |m|
  {
    argv[i..count] == m[i + |m| - count..]
  }

  ghost predicate LastStays(argv: seq<Option<string>>, m: seq<Option<string>>, count: nat)
    requires |argv| == |m|
  {
    forall k :: count <= k < |m| ==> argv[k] == m[|m| - 1]
  }

  lemma ClosingKeeps(argv: seq<Option<string>>, m: seq<Option<string>>, i: nat, count: nat)
    requires Closing(argv, m, i, count) && i < count && argv[i].Some?
    ensures Closing(argv, m, i + 1, count)
  {
    hide Final, Moved, LastStays;
    MovedAt(argv, m, i, count, i);
    FinalKeeps(argv, m, i, i + |m| - count);
    MovedKeeps(argv, m, i, count);
  }

  lemma FinalKeeps(argv: seq<Option<string>>, m: seq<Option<string>>, i: nat, p: nat)
    requires i < |argv| && p < |m| && Final(argv, m, i, p) && argv[i] == m[p] && m[p].Some?
    ensures Final(argv, m, i + 1, p + 1)
  {
    assert m[..p + 1][..p] == m[..p];
    assert argv[..i + 1] == argv[..i] + [argv[i]];
    SomesOneMore(Unmarked(m[..p]), argv[i].value);
  }

  lemma MovedKeeps(argv: seq<Option<string>>, m: seq<Option<string>>, i: nat, count: nat)
    requires i < count <= |argv| == |m| && Moved(argv, m, i, count)
    ensures Moved(argv, m, i + 1, count)
  {
    assert argv[i + 1..count] == argv[i..count][1..];
    assert m[i + |m| - count..][1..] == m[i + 1 + |m| - count..];
  }

  lemma SomesOneMore(s: seq<string>, x: string)
    ensures Somes(s + [x]) == Somes(s) + [Some(x)]
  {
  }

  lemma ClosingDrops(argv: seq<Option<string>>, m: seq<Option<string>>, i: nat, count: nat,
                     next: seq<Option<string>>)
    requires Closing(argv, m, i, count) && i < count && argv[i].None? && Shifted(argv, next, i)
    ensures Closing(next, m, i, count - 1)
  {
    hide Final, Moved, LastStays, ShiftedAt;
    MovedAt(argv, m, i, count, i);
    MovedAt(argv, m, i, count, count - 1);
    FinalDrops(argv, m, i, i + |m| - count, next);
    MovedDrops(argv, m, i, count, next);
    LastDrops(argv, m, i, count, next);
  }

  lemma MovedAt(argv: seq<Option<string>>, m: seq<Option<string>>, i: nat, count: nat, k: nat)
    requires i <= count <= |argv| == |m| && Moved(argv, m, i, count) && i <= k < count
    ensures argv[k] == m[k + |m| - count]
  {
    assert argv[i..count][k - i] == m[i + |m| - count..][k - i];
  }

  lemma FinalDrops(argv: seq<Option<string>>, m: seq<Option<string>>, i: nat, p: nat, next: seq<Option<string>>)
    requires i < |argv| && p < |m| && Final(argv, m, i, p) && m[p].None?
    requires |next| == |argv| && ShiftedAt(argv, next, i)
    ensures Final(next, m, i, p + 1)
  {
    assert next[..i] == argv[..i];
    assert m[..p + 1][..p] == m[..p] && Unmarked(m[..p]) + [] == Unmarked(m[..p]);
  }

  lemma MovedDrops(argv: seq<Option<string>>, m: seq<Option<string>>, i: nat, count: nat, next: seq<Option<string>>)
    requires i < count <= |argv| == |m| == |next| && Moved(argv, m, i, count) && ShiftedAt(argv, next, i)
    ensures Moved(next, m, i, count - 1)
  {
    var a, b := next[i..count - 1], m[i + |m| - (count - 1)..];
    forall j | 0 <= j < |a|
      ensures a[j] == b[j]
    {
      MovedAt(argv, m, i, count, i + j + 1);
      assert next[i + j] == argv[i + j + 1];
    }
    assert a == b;
  }

  lemma LastDrops(argv: seq<Option<string>>, m: seq<Option<string>>, i: nat, count: nat, next: seq<Option<string>>)
    requires i < count <= |argv| == |m| == |next| && LastStays(argv, m, count) && ShiftedAt(argv, next, i)
    requires argv[count - 1] == m[|m| - 1]
    ensures LastStays(next, m, count - 1)
  {
    forall k | count - 1 <= k < |m|
      ensures next[k] == m[|m| - 1]
    {
      var from := if k < |m| - 1 then k + 1 else k;
      assert next[k] == argv[from];
    }
  }

  lemma ClosingStarts(m: seq<Option<string>>)
    requires m != [] && m[0].Some?
    ensures Closing(m, m, 1, |m|)
  {
    var first := [m[0]];
    assert m[..1] == first && first[..0] == [];
    assert Unmarked(first) == [] + [m[0].value];
  }

  lemma ClosingEnds(argv: seq<Option<string>>, m: seq<Option<string>>, i: nat, count: nat)
    requires Closing(argv, m, i, count) && i >= count
    ensures Closed(m, argv, count)
  {
    var p := i + |m| - count;
    assert m[..p] == m;
  }

  /** The outcome: what was not marked, and then the last entry over and over. */
  ghost predicate Closed(before: seq<Option<string>>, after: seq<Option<string>>, count: nat) {
    count <= |after| == |before| && after[..count] == Somes(Unmarked(before)) && LastStays(after, before, count)
  }

  /** The second pass: null entries are closed up. Behind the new end the last entry stays. */
  method CloseUp(argv: array<Option<string>>, argc: nat) returns (count: nat)
    requires 0 < argc <= argv.Length && argv[0].Some?
    modifies argv
    ensures 0 < count <= argc && Closed(old(argv[..argc]), argv[..argc], count)
  {
    hide *;
    ghost var m, now := argv[..argc], argv[..argc];
    var i := 1;
    count := argc;
    assert m[0] == argv[0];
    ClosingStarts(m);
    while i < count
      invariant 1 <= i <= count <= argc && now == argv[..argc] && Closing(now, m, i, count)
      decreases count - i
    {
      assert argv[i] == now[i];
      if argv[i].None? {
        ShiftDown(argv, i, argc);
        ClosingDrops(now, m, i, count, argv[..argc]);
        now := argv[..argc];
        count := count - 1;
      } else {
        ClosingKeeps(now, m, i, count);
        i := i + 1;
      }
    }
    ClosingEnds(now, m, i, count);
  }

  /** lash_extract_args: what is left is the program's name and the foreign arguments in their
    order, counted; a flag is set exactly when its argument occurred. Where the array used to go on,
    the last entry is still there: it is null only if the last argument was one of the library's. */
  method ExtractArgs(argv: array<Option<string>>, argc: nat, ghost given: seq<string>)
    returns (count: nat, noAutoresume: bool, noStartServer: bool)
    requires argc <= argv.Length && argv[..argc] == Somes(given)
    modifies argv
    ensures count <= argc
    ensures argv[..count] == if argc == 0 then [] else Somes([given[0]] + Foreign(given[1..]))
    ensures noAutoresume <==> exists k :: 1 <= k < |given| && "--lash-no-autoresume" <= given[k]
    ensures noStartServer <==> exists k :: 1 <= k < |given| && "--lash-no-start-server" <= given[k]
    ensures count < argc ==> argv[count] == if Own(given[argc - 1]) then None else Some(given[argc - 1])
  {
    hide Own, NoAutoresume, NoStartServer, Foreign, Closed, Marked;
    noAutoresume, noStartServer := MarkOwn(argv, argc, given);
    FlagsByName(given);
    if argc == 0 {
      return 0, noAutoresume, noStartServer;
    }
    ghost var marked := argv[..argc];
    count := CloseUp(argv, argc);
    Extracted(given, marked, argv[..argc], count);
    assert argv[..count] == argv[..argc][..count];
    assert count < argc ==> argv[count] == argv[..argc][count];
  }

  /** Each flag is set by the arguments that begin with its own text. */
  lemma FlagsByName(given: seq<string>)
    ensures Autoresume(given, |given|) <==> exists k :: 1 <= k < |given| && "--lash-no-autoresume" <= given[k]
    ensures StartServer(given, |given|) <==> exists k :: 1 <= k < |given| && "--lash-no-start-server" <= given[k]
  {
    assert forall k :: 1 <= k < |given| ==> (NoAutoresume(given[k]) <==> "--lash-no-autoresume" <= given[k]);
    assert forall k :: 1 <= k < |given| ==> (NoStartServer(given[k]) <==> "--lash-no-start-server" <= given[k]);
  }

  /** The two passes together. */
  lemma Extracted(given: seq<string>, marked: seq<Option<string>>, end: seq<Option<string>>, count: nat)
    requires given != [] && marked == [Some(given[0])] + Marked(given[1..]) && Closed(marked, end, count)
    ensures count <= |given| == |end| && end[..count] == Somes([given[0]] + Foreign(given[1..]))
    ensures count < |given| ==>
              end[count] == if Own(given[|given| - 1]) then None else Some(given[|given| - 1])
  {
    hide Own;
    UnmarkedFirst(given[0], Marked(given[1..]));
    MarkingSelects(given[1..]);
    hide Foreign, Unmarked;
    if count < |given| {
      assert |given| > 1;
      assert end[count] == marked[|marked| - 1] == Marked(given[1..])[|given| - 2];
    }
  }

  lemma {:induction false} UnmarkedFirst(first: string, m: seq<Option<string>>)
    ensures Unmarked([Some(first)] + m) == [first] + Unmarked(m)
  {
    var s := [Some(first)] + m;
    if m == [] {
      assert s[..0] == [];
    } else {
      assert s[..|s| - 1] == [Some(first)] + m[..|m| - 1];
      UnmarkedFirst(first, m[..|m| - 1]);
    }
  }
}
