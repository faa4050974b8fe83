/** Parsing of the "start-end" port range given on the command line. The repository has two
    copies of the parser; both are here. */
module PortRange {
  import opened Wrappers
  import opened Text

  /** Go's conversion `int32(x)`: keep the low 32 bits, read as two's complement. */
  function Int32(x: int): (r: int)
    ensures -0x8000_0000 <= r < 0x8000_0000
    ensures -0x8000_0000 <= x < 0x8000_0000 ==> r == x
  {
    (x + 0x8000_0000) % 0x1_0000_0000 - 0x8000_0000
  }

  /** The copy used by the process manager. */
  function ParsePortRange(portRange: string): (r: Result<(int, int)>) {
    if portRange == "" then Err
    else
      var parts := Split(portRange, '-');
      if |parts| != 2 then Err
      else
        var start := Atoi(TrimSpace(parts[0]));
        if start.Err? then Err
        else
          var end := Atoi(TrimSpace(parts[1]));
          if end.Err? then Err else Ok((Int32(start.value), Int32(end.value)))
  }

  /** The copy used for the SPDK port range; it has no test for the empty string. */
  function ParseSpdkPortRange(portRange: string): (r: Result<(int, int)>) {
    var parts := Split(portRange, '-');
    if |parts| != 2 then Err
    else
      var start := Atoi(TrimSpace(parts[0]));
      var end := Atoi(TrimSpace(parts[1]));
      if start.Err? || end.Err? then Err else Ok((Int32(start.value), Int32(end.value)))
  }

  /** Writing two ports down and parsing the text gives the two ports back. */
  lemma ParseRoundTrip(a: nat, b: nat)
    requires a < 0x8000_0000 && b < 0x8000_0000
    ensures ParsePortRange(Decimal(a) + "-" + Decimal(b)) == Ok((a, b))
  {
    AtoiDecimal(a);
    AtoiDecimal(b);
    SplitPrefix(Decimal(a), Decimal(b), '-');
    SplitFree(Decimal(b), '-');
  }

  /** A number as it may be written: with spaces around it, and a plus sign. */
  function Written(w: string, plus: bool, n: nat, v: string): string {
    w + ((if plus then "+" else "") + Decimal(n)) + v
  }

  lemma WrittenHasNoDash(w: string, plus: bool, n: nat, v: string)
    requires AllSpaces(w) && AllSpaces(v)
    ensures Free(Written(w, plus, n, v), '-')
  {
    var s := Written(w, plus, n, v);
    var d := (if plus then "+" else "") + Decimal(n);
    forall i | 0 <= i < |s| ensures s[i] != '-' {
      if i < |w| {
        assert s[i] == w[i];
      } else if i < |w| + |d| {
        assert s[i] == d[i - |w|] && (s[i] == '+' || IsDigit(s[i]));
      } else {
        assert s[i] == v[i - |w| - |d|];
      }
    }
  }

  /** Spaces and plus signs around two numbers are forgiven; numbers of more than 31 bits wrap, and
      of more than 63 bits are refused. */
  lemma ParseForgives(
    w1: string, plus1: bool, a: nat, v1: string,
    w2: string, plus2: bool, b: nat, v2: string)
    requires AllSpaces(w1) && AllSpaces(v1) && AllSpaces(w2) && AllSpaces(v2)
    ensures ParsePortRange(Written(w1, plus1, a, v1) + "-" + Written(w2, plus2, b, v2)) ==
            if a <= INT64_MAX && b <= INT64_MAX then Ok((Int32(a), Int32(b))) else Err
  {
    var x, y := Written(w1, plus1, a, v1), Written(w2, plus2, b, v2);
    AtoiForgives(w1, plus1, a, v1);
    AtoiForgives(w2, plus2, b, v2);
    WrittenHasNoDash(w1, plus1, a, v1);
    WrittenHasNoDash(w2, plus2, b, v2);
    SplitPrefix(x, y, '-');
    SplitFree(y, '-');
    assert Split(x + "-" + y, '-') == [x, y];
  }

  /** A text with anything in it but digits, signs and spaces is refused. */
  lemma ParseRefusesOthers(s: string)
    requires ParsePortRange(s).Ok?
    ensures AllNumberChars(s)
  {
    var parts := Split(s, '-');
    JoinSplit(s, '-');
    AtoiRefusesOthers(parts[0]);
    AtoiRefusesOthers(parts[1]);
    assert parts[1..] == [parts[1]] && s == parts[0] + "-" + parts[1];
    forall i | 0 <= i < |s| ensures NumberChar(s[i]) {
      if i < |parts[0]| {
        assert s[i] == parts[0][i];
      } else if i > |parts[0]| {
        assert s[i] == parts[1][i - |parts[0]| - 1];
      }
    }
  }

  /** The two copies accept the same strings and give the same answers. */
  lemma CopiesAgree(s: string)
    ensures ParsePortRange(s) == ParseSpdkPortRange(s)
  {
    if s == "" { assert Split(s, '-') == [""]; }
  }

  /** TrimSpace only drops characters: it brings in none. */
  lemma {:induction false} TrimKeepsFree(s: string, c: char)
    requires Free(s, c)
    ensures Free(TrimLeft(s), c) && Free(TrimRight(s), c)
    decreases |s|
  {
    if s != "" {
      var tail, front := s[1..], s[..|s| - 1];
      assert forall i :: 0 <= i < |tail| ==> tail[i] == s[i + 1];
      assert forall i :: 0 <= i < |front| ==> front[i] == s[i];
      TrimKeepsFree(tail, c);
      TrimKeepsFree(front, c);
    }
  }

  lemma AtoiUnsigned(s: string)
    requires Free(s, '-')
    ensures Atoi(TrimSpace(s)).Ok? ==> Atoi(TrimSpace(s)).value >= 0
  {
    TrimKeepsFree(s, '-');
    TrimKeepsFree(TrimLeft(s), '-');
  }

  /** An accepted text holds exactly one dash, so no number in it carries a minus sign: a bound
      comes out negative exactly when the number written exceeds 31 bits and wraps. */
  lemma NegativeOnlyByTruncation(s: string)
    requires ParsePortRange(s).Ok?
    ensures Count(s, '-') == 1
    ensures exists a: nat, b: nat ::
              && ParsePortRange(s) == Ok((Int32(a), Int32(b)))
              && Atoi(TrimSpace(Split(s, '-')[0])) == Ok(a) && Atoi(TrimSpace(Split(s, '-')[1])) == Ok(b)
              && (ParsePortRange(s).value.0 < 0 <==> a % 0x1_0000_0000 >= 0x8000_0000)
              && (ParsePortRange(s).value.1 < 0 <==> b % 0x1_0000_0000 >= 0x8000_0000)
  {
    JoinSplit(s, '-');
    var parts := Split(s, '-');
    AtoiUnsigned(parts[0]);
    AtoiUnsigned(parts[1]);
    var a, b: nat := Atoi(TrimSpace(parts[0])).value, Atoi(TrimSpace(parts[1])).value;
    WrapSign(a);
    WrapSign(b);
  }

  lemma WrapSign(a: nat)
    ensures Int32(a) < 0 <==> a % 0x1_0000_0000 >= 0x8000_0000
  {
    var q, m := a / 0x1_0000_0000, a % 0x1_0000_0000;
    var rest := if m < 0x8000_0000 then m + 0x8000_0000 else m - 0x8000_0000;
    var carry := if m < 0x8000_0000 then q else q + 1;
    assert a + 0x8000_0000 == 0x1_0000_0000 * carry + rest;
    assert (a + 0x8000_0000) % 0x1_0000_0000 == rest;
  }
}
