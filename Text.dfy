/** The string operations the scripts rely on: `startsWith`, `endsWith`,
    `slice`, `Array.prototype.join`, rendering a number in a template
    literal and `Number.parseInt` on a digit string. */
module Text {

  predicate StartsWith(s: string, prefix: string) {
    |prefix| <= |s| && s[..|prefix|] == prefix
  }

  predicate EndsWith(s: string, suffix: string) {
    |suffix| <= |s| && s[|s| - |suffix|..] == suffix
  }

  /** A suffix of a suffix is a suffix. */
  lemma EndsWithSuffix(s: string, a: string, b: string)
    requires EndsWith(s, a + b)
    ensures EndsWith(s, b)
  {
    assert s[|s| - |b|..] == s[|s| - |a + b|..][|a|..];
  }

  /** A suffix of a suffix is a suffix. */
  lemma EndsWithTrans(s: string, t: string, u: string)
    requires EndsWith(s, t) && EndsWith(t, u)
    ensures EndsWith(s, u)
  {
    assert s[|s| - |u|..] == s[|s| - |t|..][|t| - |u|..];
  }

  /** The first and the last character are those of a prefix and a suffix. */
  lemma EdgeChars(s: string, prefix: string, suffix: string)
    requires StartsWith(s, prefix) && EndsWith(s, suffix) && |prefix| > 0 && |suffix| > 0
    ensures s[0] == prefix[0] && s[|s| - 1] == suffix[|suffix| - 1]
  {
    assert s[..|prefix|][0] == s[0];
    assert s[|s| - |suffix|..][|suffix| - 1] == s[|s| - 1];
  }

  /** `part` occurs in `s` starting at position `i`. */
  predicate OccursAt(s: string, part: string, i: int) {
    0 <= i <= |s| - |part| && s[i..i + |part|] == part
  }

  /** `part` occurs somewhere in `s` (as `s.includes(part)`). */
  ghost predicate Contains(s: string, part: string) {
    exists i :: OccursAt(s, part, i)
  }

  /** `s.slice(0, n)`: the first `n` characters, or all of `s` when it is shorter. */
  function Slice(s: string, n: nat): (r: string)
    ensures |r| == if |s| < n then |s| else n
    ensures StartsWith(s, r)
  {
    if |s| <= n then s else s[..n]
  }

  /** `lines.join(sep)`. */
  function Join(lines: seq<string>, sep: string): string
  {
    if lines == [] then ""
    else if |lines| == 1 then lines[0]
    else lines[0] + sep + Join(lines[1..], sep)
  }

  lemma ContainsSelf(s: string)
    ensures Contains(s, s)
  {
    assert OccursAt(s, s, 0);
  }

  /** Occurrence survives putting text on either side. */
  lemma ContainsWithin(a: string, s: string, b: string, part: string)
    requires Contains(s, part)
    ensures Contains(a + s + b, part)
  {
    var i :| OccursAt(s, part, i);
    var t := a + s + b;
    assert t[|a| + i..|a| + i + |part|] == s[i..i + |part|];
    assert OccursAt(t, part, |a| + i);
  }

  /** The joined text begins with its first line. */
  lemma JoinStartsWithFirst(lines: seq<string>, sep: string)
    requires |lines| > 0
    ensures StartsWith(Join(lines, sep), lines[0])
  {
    if |lines| > 1 {
      assert Join(lines, sep) == lines[0] + (sep + Join(lines[1..], sep));
    }
  }

  /** The joined text ends with its last line, preceded by the separator when
      there is more than one line. */
  lemma {:induction false} JoinEndsWithLast(lines: seq<string>, sep: string)
    requires |lines| > 0
    ensures EndsWith(Join(lines, sep), lines[|lines| - 1])
    ensures |lines| > 1 ==> EndsWith(Join(lines, sep), sep + lines[|lines| - 1])
  {
    if |lines| > 1 {
      var rest := lines[1..];
      JoinEndsWithLast(rest, sep);
      var last := lines[|lines| - 1];
      assert rest[|rest| - 1] == last;
      var j := Join(rest, sep);
      var whole := lines[0] + sep + j;
      assert Join(lines, sep) == whole;
      assert EndsWith(whole, sep + last) by {
        if |rest| > 1 {
          assert EndsWith(j, sep + last);
          assert whole[|whole| - |sep + last|..] == j[|j| - |sep + last|..];
        } else {
          assert j == last;
          assert whole[|whole| - |sep + last|..] == sep + last;
        }
      }
      assert whole[|whole| - |last|..] == (sep + last)[|sep|..];
    }
  }

  /** Every line occurs in the joined text. */
  lemma {:induction false} JoinContainsLine(lines: seq<string>, sep: string, k: nat)
    requires k < |lines|
    ensures Contains(Join(lines, sep), lines[k])
  {
    if |lines| == 1 {
      ContainsSelf(lines[0]);
    } else if k == 0 {
      ContainsSelf(lines[0]);
      ContainsWithin("", lines[0], sep + Join(lines[1..], sep), lines[0]);
      assert "" + lines[0] + (sep + Join(lines[1..], sep)) == Join(lines, sep);
    } else {
      JoinContainsLine(lines[1..], sep, k - 1);
      ContainsWithin(lines[0] + sep, Join(lines[1..], sep), "", lines[k]);
      assert lines[0] + sep + Join(lines[1..], sep) + "" == Join(lines, sep);
    }
  }

  /** A part of a line occurs in the joined text. */
  lemma JoinContainsPart(lines: seq<string>, sep: string, k: nat, part: string)
    requires k < |lines| && Contains(lines[k], part)
    ensures Contains(Join(lines, sep), part)
  {
    JoinContainsLine(lines, sep, k);
    var s := Join(lines, sep);
    var line := lines[k];
    var i :| OccursAt(s, line, i);
    var j :| OccursAt(line, part, j);
    assert s[i..i + |line|] == line;
    assert s[i + j..i + j + |part|] == part by {
      forall d | 0 <= d < |part| ensures s[i + j + d] == part[d] {
        assert s[i + j + d] == s[i..i + |line|][j + d] == line[j + d];
        assert line[j + d] == line[j..j + |part|][d];
      }
    }
    assert OccursAt(s, part, i + j);
  }

  predicate IsDigit(c: char) {
    '0' <= c <= '9'
  }

  predicate IsDigits(s: string) {
    forall i :: 0 <= i < |s| ==> IsDigit(s[i])
  }

  function DigitChar(d: nat): (c: char)
    requires d < 10
    ensures IsDigit(c)
  {
    (d + '0' as int) as char
  }

  function DigitValue(c: char): (d: nat)
    requires IsDigit(c)
    ensures d < 10
  {
    (c as int - '0' as int) as nat
  }

  /** A natural number as a template literal renders it: decimal, no leading zeros. */
  function NatToString(n: nat): (s: string)
    ensures |s| > 0 && IsDigits(s)
    ensures |s| == 1 <==> n < 10
    ensures n > 0 ==> s[0] != '0'
  {
    if n < 10 then [DigitChar(n)] else NatToString(n / 10) + [DigitChar(n % 10)]
  }

  /** `Number.parseInt` on a string of decimal digits. */
  function ParseDigits(s: string): nat
    requires IsDigits(s)
  {
    if s == [] then 0 else ParseDigits(s[..|s| - 1]) * 10 + DigitValue(s[|s| - 1])
  }

  /** Parsing the rendered number gives the number back. */
  lemma {:induction false} ParseNatToString(n: nat)
    ensures ParseDigits(NatToString(n)) == n
  {
    var s := NatToString(n);
    if n >= 10 {
      ParseNatToString(n / 10);
      assert s[..|s| - 1] == NatToString(n / 10);
    }
  }

  /** Hence distinct numbers render differently. */
  lemma NatToStringInjective(a: nat, b: nat)
    requires NatToString(a) == NatToString(b)
    ensures a == b
  {
    ParseNatToString(a);
    ParseNatToString(b);
  }
}
