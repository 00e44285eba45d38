/**
 * The text formats the generator produces: decimal numbers as printed by
 * `%d`, temporary names as printed by `$t%02d`, and the splitting of a
 * recorded block into lines as done by `strtok(block, "\n")`.
 */
module Strings {

  /** The decimal digit for `d`. */
  function DigitChar(d: nat): (c: char)
    requires d < 10
    ensures '0' <= c <= '9'
  {
    ('0' as int + d) as char
  }

  /** The value of a decimal digit character; other characters read as 0. */
  function DigitValue(c: char): (d: nat)
    ensures d < 10
  {
    if '0' <= c <= '9' then c as int - '0' as int else 0
  }

  predicate IsDigits(s: string)
  {
    forall k :: 0 <= k < |s| ==> '0' <= s[k] <= '9'
  }

  /** `n` printed with `%d`: at least one digit, no leading zero. */
  function NatToString(n: nat): (s: string)
    ensures |s| >= 1 && IsDigits(s)
    ensures n >= 10 ==> |s| >= 2 && s[0] != '0'
    decreases n
  {
    if n < 10 then [DigitChar(n)] else NatToString(n / 10) + [DigitChar(n % 10)]
  }

  /** Reads a string of decimal digits back as a number (most significant digit first). */
  function ParseNat(s: string): nat
  {
    if s == [] then 0 else ParseNat(s[..|s| - 1]) * 10 + DigitValue(s[|s| - 1])
  }

  lemma {:induction false} ParseNatToString(n: nat)
    ensures ParseNat(NatToString(n)) == n
    decreases n
  {
    if n >= 10 {
      var s := NatToString(n / 10);
      ParseNatToString(n / 10);
      assert (s + [DigitChar(n % 10)])[..|s|] == s;
    }
  }

  /** A C `int` printed with `%d`. */
  function IntToString(i: int): (s: string)
    ensures |s| >= 1
    ensures s[0] == '-' <==> i < 0
  {
    if i < 0 then "-" + NatToString(-i) else NatToString(i)
  }

  function ParseInt(s: string): int
  {
    if |s| > 0 && s[0] == '-' then -(ParseNat(s[1..]) as int) else ParseNat(s)
  }

  /** Every label printed by `%d` reads back as the same number. */
  lemma IntToStringRoundTrip(i: int)
    ensures ParseInt(IntToString(i)) == i
  {
    if i < 0 {
      var digits := NatToString(-i);
      ParseNatToString(-i);
      assert IntToString(i) == "-" + digits;
      assert ("-" + digits)[1..] == digits;
    } else {
      var digits := NatToString(i);
      ParseNatToString(i);
      assert IntToString(i) == digits && '0' <= digits[0] <= '9';
    }
  }

  /** The name `$t%02d` of the temporary numbered `n`. */
  function TempName(n: nat): (name: string)
    ensures |name| >= 4 && name[0] == '$' && name[1] == 't'
  {
    "$t" + (if n < 10 then "0" + NatToString(n) else NatToString(n))
  }

  /** The number a temporary name was made from. */
  function TempNumber(name: string): nat
  {
    if |name| < 2 then 0 else ParseNat(name[2..])
  }

  lemma TempNameRoundTrip(n: nat)
    ensures TempNumber(TempName(n)) == n
  {
    var name := TempName(n);
    if n < 10 {
      var digits := "0" + NatToString(n);
      assert name[2..] == digits;
      assert digits[..1] == "0";
      assert ParseNat("0") == 0;
    } else {
      assert name[2..] == NatToString(n);
      ParseNatToString(n);
    }
  }

  /** Two temporaries have the same name exactly when they have the same number. */
  lemma TempNameInjective(m: nat, n: nat)
    ensures TempName(m) == TempName(n) <==> m == n
  {
    TempNameRoundTrip(m);
    TempNameRoundTrip(n);
  }

  /** The name of temporary `n` differs from the names of all the temporaries numbered below it. */
  lemma TempNameNew(n: nat)
    ensures forall k :: 0 <= k < n ==> TempName(k) != TempName(n)
  {
    forall k | 0 <= k < n
      ensures TempName(k) != TempName(n)
    {
      TempNameInjective(k, n);
    }
  }

  /** Index of the first '\n' in `s`, or `|s|` when there is none. */
  function FirstNewline(s: string): (k: nat)
    ensures k <= |s|
    ensures forall j :: 0 <= j < k ==> s[j] != '\n'
    ensures k < |s| ==> s[k] == '\n'
  {
    if s == [] || s[0] == '\n' then 0 else 1 + FirstNewline(s[1..])
  }

  /**
   * The tokens `strtok(s, "\n")` hands out in turn: the maximal runs of
   * characters other than '\n'; empty lines are skipped.
   */
  function Lines(s: string): (ls: seq<string>)
    ensures forall k :: 0 <= k < |ls| ==> ls[k] != [] && '\n' !in ls[k]
    decreases |s|
  {
    if s == [] then []
    else if s[0] == '\n' then Lines(s[1..])
    else
      var k := FirstNewline(s);
      assert s[..k] == [s[0]] + s[1..k];
      [s[..k]] + Lines(s[k..])
  }

  /** A line that can be recorded and replayed unchanged. */
  predicate IsLine(t: string)
  {
    t != [] && '\n' !in t
  }

  /** The text of a block recorded line by line, each line ended by '\n'. */
  function Join(ts: seq<string>): (s: string)
    ensures |s| >= |ts|
  {
    if ts == [] then "" else ts[0] + "\n" + Join(ts[1..])
  }

  lemma {:induction false} JoinSnoc(ts: seq<string>, t: string)
    ensures Join(ts + [t]) == Join(ts) + t + "\n"
    decreases |ts|
  {
    if ts == [] {
      assert ts + [t] == [t];
      assert [t][1..] == [];
    } else {
      assert (ts + [t])[0] == ts[0];
      assert (ts + [t])[1..] == ts[1..] + [t];
      JoinSnoc(ts[1..], t);
    }
  }

  lemma FirstNewlineOfLine(t: string, rest: string)
    requires '\n' !in t
    requires rest != [] && rest[0] == '\n'
    ensures FirstNewline(t + rest) == |t|
  {
    var s := t + rest;
    assert s[|t|] == '\n';
    assert forall j :: 0 <= j < |t| ==> s[j] == t[j];
  }

  /** Splitting a recorded block gives back exactly the recorded lines. */
  lemma {:induction false} LinesOfJoin(ts: seq<string>)
    requires forall k :: 0 <= k < |ts| ==> IsLine(ts[k])
    ensures Lines(Join(ts)) == ts
    decreases |ts|
  {
    if ts != [] {
      var t, rest := ts[0], Join(ts[1..]);
      var s := Join(ts);
      assert IsLine(ts[0]);
      assert s == t + ("\n" + rest);
      FirstNewlineOfLine(t, "\n" + rest);
      assert s[0] == t[0] && t[0] in t;
      assert s[..|t|] == t;
      assert s[|t|..] == "\n" + rest;
      assert ("\n" + rest)[1..] == rest;
      LinesOfJoin(ts[1..]);
      assert ts == [t] + ts[1..];
    }
  }
}
