/** Giving a client a name that no other client of its project has. */
module ClientName {
  import opened Bytes
  import opened Sequences

  // ------------------------------------------------------------------ candidates

  function Digit(d: nat): char
    requires d < 10
  {
    ('0' as int + d) as char
  }

  /** The class itself, then "class 01" to "class 99". */
  function Candidate(className: string, k: nat): string
    requires k < 100
  {
    if k == 0 then className else className + [' ', Digit(k / 10), Digit(k % 10)]
  }

  function DigitValue(c: char): int {
    c as int - '0' as int
  }

  /** The number behind the class, in decimal, is the one of the candidate. */
  lemma CandidateReads(className: string, k: nat)
    requires k < 100
    ensures Candidate(className, 0) == className
    ensures var s, n := Candidate(className, k), |className|;
            k > 0 ==> && |s| == n + 3 && s[..n] == className && s[n] == ' '
                      && '0' <= s[n + 1] <= '9' && '0' <= s[n + 2] <= '9'
                      && 10 * DigitValue(s[n + 1]) + DigitValue(s[n + 2]) == k
  {
  }

  lemma CandidatesDiffer(className: string, j: nat, k: nat)
    requires j < k < 100
    ensures Candidate(className, j) != Candidate(className, k)
  {
    var n, a, b := |className|, Candidate(className, j), Candidate(className, k);
    if j > 0 {
      assert a[n + 1] == Digit(j / 10) && a[n + 2] == Digit(j % 10);
      assert b[n + 1] == Digit(k / 10) && b[n + 2] == Digit(k % 10);
    }
  }

  function Candidates(className: string, k: nat): set<string>
    requires k <= 100
  {
    set j: nat | j < k :: Candidate(className, j)
  }

  lemma {:induction false} CandidatesCount(className: string, k: nat)
    requires k <= 100
    ensures |Candidates(className, k)| == k
  {
    if k > 0 {
      CandidatesCount(className, k - 1);
      var c := Candidate(className, k - 1);
      assert c !in Candidates(className, k - 1) by {
        forall j: nat | j < k - 1 ensures Candidate(className, j) != c { CandidatesDiffer(className, j, k - 1); }
      }
      assert Candidates(className, k) == Candidates(className, k - 1) + {c};
    }
  }

  // ------------------------------------------------------------------ names in use

  /** The names in a list of clients; a client need not have one. */
  function Used(names: seq<Option<string>>): set<string> {
    set i | 0 <= i < |names| && names[i].Some? :: names[i].value
  }

  function Named(names: seq<Option<string>>): nat {
    if names == [] then 0 else Named(names[..|names| - 1]) + if names[|names| - 1].Some? then 1 else 0
  }

  lemma {:induction false} UsedCount(names: seq<Option<string>>)
    ensures |Used(names)| <= Named(names)
  {
    if names != [] {
      var init, last := names[..|names| - 1], names[|names| - 1];
      UsedCount(init);
      if last.Some? {
        assert Used(names) == Used(init) + {last.value};
      } else {
        assert Used(names) == Used(init);
      }
    }
  }

  /** With fewer than a hundred named clients, one of the hundred candidates is free. */
  lemma FreeCandidate(className: string, names: seq<Option<string>>)
    requires Named(names) < 100
    ensures exists k: nat :: k < 100 && Candidate(className, k) !in Used(names)
  {
    CandidatesCount(className, 100);
    UsedCount(names);
    if forall k: nat :: k < 100 ==> Candidate(className, k) in Used(names) {
      SubsetSize(Candidates(className, 100), Used(names));
      assert false;
    }
  }

  // ------------------------------------------------------------------ the project

  class Client {
    const className: string
    var name: Option<string>

    constructor (className: string)
      ensures this.className == className && name == None
    {
      this.className := className;
      name := None;
    }
  }

  class NamedClients {
    var clients: seq<Client>
    var lost: seq<Client>

    constructor ()
      ensures clients == [] && lost == []
    {
      clients, lost := [], [];
    }

    ghost function NamesOf(list: seq<Client>): (names: seq<Option<string>>)
      reads list
      ensures |names| == |list| && forall i :: 0 <= i < |list| ==> names[i] == list[i].name
    {
      if list == [] then [] else NamesOf(list[..|list| - 1]) + [list[|list| - 1].name]
    }

    ghost function Names(): seq<Option<string>>
      reads this, clients, lost
    {
      NamesOf(clients + lost)
    }

    /** client_find_by_name */
    static method FindByName(list: seq<Client>, name: string) returns (client: Client?)
      ensures client == null ==> forall i :: 0 <= i < |list| ==> list[i].name != Some(name)
      ensures client != null ==> client in list && client.name == Some(name)
    {
      var i := 0;
      while i < |list|
        invariant i <= |list| && forall k :: 0 <= k < i ==> list[k].name != Some(name)
      {
        if list[i].name.Some? && list[i].name.value == name {
          return list[i];
        }
        i := i + 1;
      }
      return null;
    }

    /** project_get_client_by_name */
    method GetByName(name: string) returns (client: Client?)
      ensures client == null <==> name !in Used(Names())
    {
      ghost var all := clients + lost;
      client := FindByName(clients, name);
      if client == null {
        client := FindByName(lost, name);
      }
      if client == null {
        assert forall i :: 0 <= i < |all| ==> all[i].name != Some(name);
      } else {
        assert client in all;
        ghost var i :| 0 <= i < |all| && all[i] == client;
        assert Names()[i] == Some(name);
      }
    }

    /** strcpy into a buffer of strlen(class) + 4 bytes */
    method CopyClass(str: array<char>, className: string)
      requires str.Length == |className| + 4
      modifies str
      ensures str[..|className|] == Candidate(className, 0) && str[|className|] == '\0'
    {
      forall i | 0 <= i < |className| {
        str[i] := className[i];
      }
      str[|className|] := '\0';
    }

    /** sprintf "%s %02u": three characters and the terminating NUL fill the buffer exactly. */
    method PrintNumbered(str: array<char>, className: string, k: nat)
      requires str.Length == |className| + 4 && 0 < k < 100
      modifies str
      ensures str[..|className| + 3] == Candidate(className, k) && str[|className| + 3] == '\0'
    {
      var n := |className|;
      forall i | 0 <= i < n {
        str[i] := className[i];
      }
      str[n] := ' ';
      str[n + 1] := Digit(k / 10);
      str[n + 2] := Digit(k % 10);
      str[n + 3] := '\0';
      assert str[..n] == className;
    }

    /** `name` is the first of the candidates that is not in use; there is none exactly when all
      hundred are. */
    static ghost predicate Unique(className: string, used: set<string>, name: Option<string>) {
      if name.None? then Candidates(className, 100) <= used
      else
        && name.value !in used && (className != "" ==> name.value != "")
        && exists k: nat :: k < 100 && FirstFree(className, k, used) && name.value == Candidate(className, k)
    }

    /** The loop over the numbered candidates. */
    method NumberedName(str: array<char>, className: string) returns (name: Option<string>)
      requires str.Length == |className| + 4 && Candidate(className, 0) in Used(Names())
      modifies str
      ensures Unique(className, Used(Names()), name) && (name.None? ==> Named(Names()) >= 100)
    {
      hide Used, NamesOf, Named, Candidate, Unique;
      ghost var used := Used(Names());
      var i := 1;
      while i < 100
        invariant 1 <= i <= 100 && Used(Names()) == used
        invariant forall k: nat :: k < i ==> Candidate(className, k) in used
      {
        PrintNumbered(str, className, i);
        var holder := GetByName(str[..|className| + 3]);
        if holder == null {
          ItIsFree(className, i, used);
          return Some(str[..|className| + 3]);
        }
        i := i + 1;
      }
      AllTaken(className, Names());
      return None;
    }

    /** project_get_unique_client_name */
    method UniqueName(client: Client) returns (name: Option<string>)
      ensures Unique(client.className, Used(Names()), name)
      ensures name.None? ==> Named(Names()) >= 100
    {
      hide Used, NamesOf, Named, Unique;
      var className := client.className;
      var str := new char[|className| + 4];
      var holder := GetByName(className);
      assert Candidate(className, 0) == className;
      if holder == null {
        CopyClass(str, className);
        ItIsFree(className, 0, Used(Names()));
        return Some(str[..|className|]);
      }
      name := NumberedName(str, className);
    }

    lemma ItIsFree(className: string, k: nat, used: set<string>)
      requires k < 100 && Candidate(className, k) !in used
      requires forall j: nat :: j < k ==> Candidate(className, j) in used
      ensures Unique(className, used, Some(Candidate(className, k)))
    {
      assert FirstFree(className, k, used);
      assert |Candidate(className, k)| >= |className|;
    }

    lemma AllTaken(className: string, names: seq<Option<string>>)
      requires forall k: nat :: k < 100 ==> Candidate(className, k) in Used(names)
      ensures Unique(className, Used(names), None) && Named(names) >= 100
    {
      if Named(names) < 100 {
        FreeCandidate(className, names);
      }
    }

    /** No two clients share a name, apart from the empty one. */
    ghost predicate DistinctNames()
      reads this, clients, lost
    {
      var all := clients + lost;
      forall i, j :: 0 <= i < j < |all| && all[i] != all[j] && all[i].name.Some? && all[i].name.value != "" ==>
        all[i].name != all[j].name
    }

    /** project_name_client: the empty name only if there is no free one (or if the class is empty). */
    method NameClient(client: Client)
      requires client in clients + lost && DistinctNames()
      modifies client
      ensures DistinctNames() && client.name.Some?
      ensures client.name.value == "" || client.name.value !in old(Used(Names()))
      ensures client.name.value == "" && client.className != "" ==>
                Candidates(client.className, 100) <= old(Used(Names())) && old(Named(Names())) >= 100
    {
      var name := UniqueName(client);
      ghost var all, names := clients + lost, Names();
      assert forall i :: 0 <= i < |all| && names[i].Some? ==> names[i].value in Used(names);
      if name.None? {
        name := Some("");
      }
      hide Used, NamesOf;
      client.name := name;
    }
  }

  ghost predicate FirstFree(className: string, k: nat, used: set<string>)
    requires k < 100
  {
    Candidate(className, k) !in used && forall j: nat :: j < k ==> Candidate(className, j) in used
  }
}
