/** The command-line arguments a process gets for its ports: one group per port argument, the
    argument with the port's number appended, split at commas. */
module PortArgs {
  import opened Wrappers
  import opened Text
  import opened PortRange
  import opened PortPool
  import opened Registry

  function Group(arg: string, port: int): seq<string> { Split(arg + Itoa(port), ',') }

  /** The groups of the first `n` port arguments, one after the other. */
  function Groups(portArgs: seq<string>, first: int, n: nat): seq<string>
    requires n <= |portArgs|
  {
    if n == 0 then [] else Groups(portArgs, first, n - 1) + Group(portArgs[n - 1], first + n - 1)
  }

  /** The comparison in 32 bits, as long as all ports before were within the range. */
  method PastLast(first: int, last: int, i: nat) returns (past: bool)
    requires -0x8000_0000 <= first < 0x8000_0000 && -0x8000_0000 <= last < 0x8000_0000
    requires i == 0 || last == 0x7FFF_FFFF || i <= last - first + 1
    ensures past <==> last < 0x7FFF_FFFF && i > last - first
  {
    past := Int32(first + i) > last;
  }

  lemma AppendAssoc(a: seq<string>, b: seq<string>, c: seq<string>)
    ensures (a + b) + c == a + (b + c)
  {
  }

  /** For how many port arguments the ports suffice: all, unless there are more arguments than
      ports and the range does not end at the last 32-bit number. */
  function Fitting(portArgs: seq<string>, first: int, last: int): (n: nat)
    ensures n <= |portArgs|
  {
    if |portArgs| <= last - first + 1 || last == 0x7FFF_FFFF then |portArgs|
    else if last < first then 0
    else last - first + 1
  }

  /** Where the pieces of the `n`-th argument begin, counted from the commas. */
  function Offset(portArgs: seq<string>, first: int, n: nat): nat
    requires n <= |portArgs|
  {
    if n == 0 then 0
    else Offset(portArgs, first, n - 1) + Count(portArgs[n - 1] + Itoa(first + n - 1), ',') + 1
  }

  /** The `i`-th stretch of `pieces`, put together again with commas, is the `i`-th port argument
      followed by the number of the `i`-th port; no piece has a comma of its own. */
  ghost predicate NamesPort(pieces: seq<string>, portArgs: seq<string>, first: int, i: nat) {
    && i < |portArgs| && Offset(portArgs, first, i + 1) <= |pieces|
    && var from, to := Offset(portArgs, first, i), Offset(portArgs, first, i + 1);
       && Join(pieces[from..to], ',') == portArgs[i] + Itoa(first + i)
       && forall j :: from <= j < to ==> Text.Free(pieces[j], ',')
  }

  /** `out` is `args` followed by the pieces for the first `n` port arguments, in order, and nothing
      else. */
  ghost predicate NamesPorts(args: seq<string>, out: seq<string>, portArgs: seq<string>, first: int, n: nat) {
    && n <= |portArgs| && |out| == |args| + Offset(portArgs, first, n) && out[..|args|] == args
    && forall i :: 0 <= i < n ==> NamesPort(out[|args|..], portArgs, first, i)
  }

  lemma LastNamesPort(before: seq<string>, portArgs: seq<string>, first: int, n: nat)
    requires n < |portArgs| && |before| == Offset(portArgs, first, n)
    ensures |before + Group(portArgs[n], first + n)| == Offset(portArgs, first, n + 1)
    ensures NamesPort(before + Group(portArgs[n], first + n), portArgs, first, n)
  {
    var g := Group(portArgs[n], first + n);
    JoinSplit(portArgs[n] + Itoa(first + n), ',');
    assert (before + g)[|before|..|before + g|] == g;
  }

  lemma OthersNamePort(before: seq<string>, g: seq<string>, portArgs: seq<string>, first: int, i: nat)
    requires NamesPort(before, portArgs, first, i)
    ensures NamesPort(before + g, portArgs, first, i)
  {
    var from, to := Offset(portArgs, first, i), Offset(portArgs, first, i + 1);
    assert (before + g)[from..to] == before[from..to];
  }

  ghost predicate AllNamed(pieces: seq<string>, portArgs: seq<string>, first: int, n: nat) {
    && n <= |portArgs| && |pieces| == Offset(portArgs, first, n)
    && forall i :: 0 <= i < n ==> NamesPort(pieces, portArgs, first, i)
  }

  lemma OneMoreNamed(before: seq<string>, portArgs: seq<string>, first: int, n: nat)
    requires n < |portArgs| && AllNamed(before, portArgs, first, n)
    ensures AllNamed(before + Group(portArgs[n], first + n), portArgs, first, n + 1)
  {
    LastNamesPort(before, portArgs, first, n);
    var all := before + Group(portArgs[n], first + n);
    forall i | 0 <= i < n + 1 ensures NamesPort(all, portArgs, first, i) {
      if i < n { OthersNamePort(before, Group(portArgs[n], first + n), portArgs, first, i); }
    }
  }

  lemma {:induction false} GroupsNamePorts(portArgs: seq<string>, first: int, n: nat)
    requires n <= |portArgs|
    ensures AllNamed(Groups(portArgs, first, n), portArgs, first, n)
  {
    if n > 0 {
      GroupsNamePorts(portArgs, first, n - 1);
      OneMoreNamed(Groups(portArgs, first, n - 1), portArgs, first, n - 1);
    }
  }

  lemma AppendedNamePorts(args: seq<string>, portArgs: seq<string>, first: int, n: nat)
    requires n <= |portArgs|
    ensures NamesPorts(args, args + Groups(portArgs, first, n), portArgs, first, n)
  {
    GroupsNamePorts(portArgs, first, n);
    assert (args + Groups(portArgs, first, n))[|args|..] == Groups(portArgs, first, n);
  }

  /** There is only one such list: the pieces are the argument and the port's number, split. */
  lemma NamesPortIsSplit(pieces: seq<string>, portArgs: seq<string>, first: int, i: nat)
    requires NamesPort(pieces, portArgs, first, i)
    ensures pieces[Offset(portArgs, first, i)..Offset(portArgs, first, i + 1)] ==
            Split(portArgs[i] + Itoa(first + i), ',')
  {
    SplitJoin(pieces[Offset(portArgs, first, i)..Offset(portArgs, first, i + 1)], ',');
  }

  /** The loop over the port arguments; the port is compared in 32 bits. It stops at the first
      argument that does not fit, with the pieces of those before it appended. */
  method AppendPortArgs(args: seq<string>, portArgs: seq<string>, first: int, last: int)
    returns (ok: bool, out: seq<string>)
    requires -0x8000_0000 <= first < 0x8000_0000 && -0x8000_0000 <= last < 0x8000_0000
    ensures ok <==> Fitting(portArgs, first, last) == |portArgs|
    ensures NamesPorts(args, out, portArgs, first, Fitting(portArgs, first, last))
  {
    ok, out := AppendGroups(args, portArgs, first, last);
    AppendedNamePorts(args, portArgs, first, Fitting(portArgs, first, last));
  }

  method AppendGroups(args: seq<string>, portArgs: seq<string>, first: int, last: int)
    returns (ok: bool, out: seq<string>)
    requires -0x8000_0000 <= first < 0x8000_0000 && -0x8000_0000 <= last < 0x8000_0000
    ensures ok <==> Fitting(portArgs, first, last) == |portArgs|
    ensures out == args + Groups(portArgs, first, Fitting(portArgs, first, last))
  {
    out := args;
    if |portArgs| != 0 {
      var i := 0;
      while i < |portArgs|
        invariant 0 <= i <= |portArgs|
        invariant out == args + Groups(portArgs, first, i)
        invariant i > 0 ==> last == 0x7FFF_FFFF || i <= last - first + 1
      {
        var past := PastLast(first, last, i);
        if past {
          return false, out;
        }
        AppendAssoc(args, Groups(portArgs, first, i), Group(portArgs[i], first + i));
        out := out + Group(portArgs[i], first + i);
        i := i + 1;
      }
    }
    ok := true;
  }

  /** Ports that were reserved are enough for the port arguments. */
  lemma ReservedFits(pool: Pool, spec: Spec)
    requires Valid(pool) && Reserve(pool, spec).Some?
    ensures var t := Reserve(pool, spec).value;
            && spec.portCount >= 0 && |spec.portArgs| <= spec.portCount
            && (spec.portCount > 0 ==>
                  t.last - t.first + 1 == spec.portCount && pool.base <= t.first && t.last < pool.base + pool.size)
            && (spec.portCount == 0 ==> t.first == t.last == 0)
  {
    if spec.portCount > 0 { AllocateTakesFree(pool, spec.portCount); }
  }

  /** The port named by the `i`-th argument was free and is the process's now; the group says the
      argument followed by the port's number, and splitting loses nothing. */
  lemma PortArgNamesOwnPort(pool: Pool, spec: Spec, i: nat)
    requires Valid(pool) && Reserve(pool, spec).Some? && i < |spec.portArgs|
    ensures var t := Reserve(pool, spec).value; var k := t.first + i - pool.base;
            && t.first + i <= t.last && 0 <= k < pool.size && t.pool.size == pool.size
            && pool.free[k] && !t.pool.free[k]
    ensures var g := Group(spec.portArgs[i], Reserve(pool, spec).value.first + i);
            && Join(g, ',') == spec.portArgs[i] + Itoa(Reserve(pool, spec).value.first + i)
            && forall j :: 0 <= j < |g| ==> Text.Free(g[j], ',')
  {
    AllocateTakesFree(pool, spec.portCount);
    JoinSplit(spec.portArgs[i] + Itoa(Reserve(pool, spec).value.first + i), ',');
  }

  /** Different ports have different numbers written out. */
  lemma ItoaInjective(m: int, n: int)
    requires Itoa(m) == Itoa(n)
    ensures m == n
  {
    var a, b := if m < 0 then -m else m, if n < 0 then -n else n;
    DigitsValueDecimal(a);
    DigitsValueDecimal(b);
    assert IsDigit(Decimal(a)[0]) && IsDigit(Decimal(b)[0]);
    assert ("-" + Decimal(a))[1..] == Decimal(a) && ("-" + Decimal(b))[1..] == Decimal(b);
    assert m < 0 <==> Itoa(m)[0] == '-';
    assert n < 0 <==> Itoa(n)[0] == '-';
    assert Decimal(a) == Decimal(b);
  }

  lemma SuffixOfSame(p: string, a: string, b: string)
    requires p + a == p + b
    ensures a == b
  {
    assert (p + a)[|p|..] == a && (p + b)[|p|..] == b;
  }

  /** The same argument used for two ports gives two different groups. */
  lemma GroupsDiffer(arg: string, port: int, other: int)
    requires port != other
    ensures Group(arg, port) != Group(arg, other)
  {
    if Group(arg, port) == Group(arg, other) {
      JoinSplit(arg + Itoa(port), ',');
      JoinSplit(arg + Itoa(other), ',');
      SuffixOfSame(arg, Itoa(port), Itoa(other));
      ItoaInjective(port, other);
    }
  }
}
