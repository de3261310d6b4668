/** Small shared vocabulary: option and result values, bytes and the string
    helpers (join, replace, prefix and suffix tests, ASCII upper-casing,
    decimal rendering) that the code generator and the scaffolding use. */
module Base {

  datatype Option<+T> = None | Some(value: T)

  /** A computation that either yields a value or fails with a message. */
  datatype Result<+T> = Success(value: T) | Failure(error: string)

  /** A computation that yields nothing but may fail with a message. */
  datatype Outcome = Pass | Fail(error: string)

  type Byte = bv8
  type Bytes = seq<bv8>

  /** The parts one after the other. */
  function Concat(parts: seq<string>): (r: string)
    ensures |r| == SumLengths(parts)
  {
    if parts == [] then "" else parts[0] + Concat(parts[1..])
  }

  function SumLengths(parts: seq<string>): nat
  {
    if parts == [] then 0 else |parts[0]| + SumLengths(parts[1..])
  }

  lemma {:induction false} ConcatAppend(a: seq<string>, b: seq<string>)
    ensures Concat(a + b) == Concat(a) + Concat(b)
  {
    if a == [] {
      assert a + b == b;
    } else {
      assert (a + b)[1..] == a[1..] + b;
      ConcatAppend(a[1..], b);
    }
  }

  /** The parts with `sep` between each two neighbours. */
  function Join(parts: seq<string>, sep: string): string
  {
    if parts == [] then ""
    else if |parts| == 1 then parts[0]
    else parts[0] + sep + Join(parts[1..], sep)
  }

  /** Joining one more part adds the separator and the part. */
  lemma {:induction false} JoinSnoc(parts: seq<string>, x: string, sep: string)
    ensures Join(parts + [x], sep) == if parts == [] then x else Join(parts, sep) + sep + x
    decreases |parts|
  {
    if |parts| == 1 {
      assert (parts + [x])[1..] == [x];
    } else if |parts| > 1 {
      assert (parts + [x])[1..] == parts[1..] + [x];
      JoinSnoc(parts[1..], x, sep);
      AppendAssoc(parts[0] + sep, Join(parts[1..], sep) + sep, x);
      AppendAssoc(parts[0] + sep, Join(parts[1..], sep), sep);
    }
  }

  /** n blanks. */
  function Spaces(n: nat): (r: string)
    ensures |r| == n && forall i :: 0 <= i < n ==> r[i] == ' '
  {
    if n == 0 then "" else " " + Spaces(n - 1)
  }

  predicate StartsWith<T(==)>(s: seq<T>, p: seq<T>)
  {
    |p| <= |s| && s[..|p|] == p
  }

  predicate EndsWith<T(==)>(s: seq<T>, p: seq<T>)
  {
    |p| <= |s| && s[|s| - |p|..] == p
  }

  /** `sub` occurs somewhere in `s`. */
  predicate Contains<T(==)>(s: seq<T>, sub: seq<T>)
  {
    StartsWith(s, sub) || (|s| > 0 && Contains(s[1..], sub))
  }

  /** Every occurrence of the character `c` replaced by `r` (the effect of
      `str::replace` with a one-character pattern). */
  function ReplaceChar(s: string, c: char, r: string): string
  {
    if s == [] then ""
    else (if s[0] == c then r else [s[0]]) + ReplaceChar(s[1..], c, r)
  }

  lemma {:induction false} ReplaceCharAppend(a: string, b: string, c: char, r: string)
    ensures ReplaceChar(a + b, c, r) == ReplaceChar(a, c, r) + ReplaceChar(b, c, r)
  {
    if a == [] {
      assert a + b == b;
    } else {
      assert (a + b)[1..] == a[1..] + b;
      ReplaceCharAppend(a[1..], b, c, r);
    }
  }

  /** The first occurrence of a non-empty `pat` replaced by `rep`; `s` itself
      when `pat` does not occur (the effect of `Regex::replace` on a
      literal pattern). */
  function ReplaceFirst(s: string, pat: string, rep: string): string
    requires |pat| > 0
    decreases |s|
  {
    if |s| < |pat| then s
    else if s[..|pat|] == pat then rep + s[|pat|..]
    else [s[0]] + ReplaceFirst(s[1..], pat, rep)
  }

  /** `pat` occurs in `s` at position `j`. */
  predicate OccursAt<T(==)>(s: seq<T>, pat: seq<T>, j: nat)
  {
    j + |pat| <= |s| && s[j..j + |pat|] == pat
  }

  /** The position of the first occurrence of a non-empty `pat` in `s`. */
  function FindFirst<T(==)>(s: seq<T>, pat: seq<T>): (r: Option<nat>)
    requires |pat| > 0
    ensures r.Some? ==> OccursAt(s, pat, r.value)
    decreases |s|
  {
    if |s| < |pat| then None
    else if s[..|pat|] == pat then Some(0)
    else
      var r := FindFirst(s[1..], pat);
      assert r.Some? ==> s[1..][r.value..r.value + |pat|] == s[r.value + 1..r.value + 1 + |pat|];
      if r.None? then None else Some(r.value + 1)
  }

  /** FindFirst finds the first occurrence, and finds none only when there
      is none. */
  lemma {:induction false} FindFirstIsFirst<T>(s: seq<T>, pat: seq<T>)
    requires |pat| > 0
    ensures FindFirst(s, pat).Some? ==> forall j :: 0 <= j < FindFirst(s, pat).value ==> !OccursAt(s, pat, j)
    ensures FindFirst(s, pat).None? ==> forall j: nat :: !OccursAt(s, pat, j)
    decreases |s|
  {
    if |s| >= |pat| && s[..|pat|] != pat {
      FindFirstIsFirst(s[1..], pat);
      forall j: nat | 1 <= j
        ensures OccursAt(s, pat, j) == OccursAt(s[1..], pat, j - 1)
      {
        if j + |pat| <= |s| {
          assert s[1..][j - 1..j - 1 + |pat|] == s[j..j + |pat|];
        }
      }
      assert !OccursAt(s, pat, 0);
    }
  }

  /** ReplaceFirst rewrites exactly the first occurrence and keeps the text
      before and after it. */
  lemma ReplaceFirstMeaning(s: string, pat: string, rep: string)
    requires |pat| > 0
    ensures FindFirst(s, pat).None? ==> ReplaceFirst(s, pat, rep) == s
    ensures FindFirst(s, pat).Some? ==>
      var i := FindFirst(s, pat).value;
      ReplaceFirst(s, pat, rep) == s[..i] + rep + s[i + |pat|..]
  {
    if FindFirst(s, pat).None? {
      ReplaceFirstAbsent(s, pat, rep);
    } else {
      ReplaceFirstPresent(s, pat, rep);
    }
  }

  lemma {:induction false} ReplaceFirstAbsent(s: string, pat: string, rep: string)
    requires |pat| > 0 && FindFirst(s, pat).None?
    ensures ReplaceFirst(s, pat, rep) == s
    decreases |s|
  {
    if |s| >= |pat| {
      FindFirstStep(s, pat);
      ReplaceFirstAbsent(s[1..], pat, rep);
      assert [s[0]] + s[1..] == s;
    }
  }

  lemma {:induction false} ReplaceFirstPresent(s: string, pat: string, rep: string)
    requires |pat| > 0 && FindFirst(s, pat).Some?
    ensures var i := FindFirst(s, pat).value;
      ReplaceFirst(s, pat, rep) == s[..i] + rep + s[i + |pat|..]
    decreases |s|
  {
    var i := FindFirst(s, pat).value;
    if s[..|pat|] == pat {
      assert s[..0] == [];
    } else {
      FindFirstStep(s, pat);
      var r := FindFirst(s[1..], pat);
      calc {
        ReplaceFirst(s, pat, rep);
        [s[0]] + ReplaceFirst(s[1..], pat, rep);
      == { ReplaceFirstPresent(s[1..], pat, rep); }
        [s[0]] + (s[1..][..r.value] + rep + s[1..][r.value + |pat|..]);
      == { ConsAround(s, r.value, |pat|, rep); }
        s[..i] + rep + s[i + |pat|..];
      }
    }
  }

  /** FindFirst past a position where `pat` does not occur. */
  lemma FindFirstStep(s: string, pat: string)
    requires 0 < |pat| <= |s| && s[..|pat|] != pat
    ensures FindFirst(s, pat) == if FindFirst(s[1..], pat).None? then None else Some(FindFirst(s[1..], pat).value + 1)
  {
    var r := FindFirst(s[1..], pat);
    assert FindFirst(s, pat) == if r.None? then None else Some(r.value + 1);
  }

  /** Putting the first element back in front of a split of the rest. */
  lemma ConsAround<T>(s: seq<T>, i: nat, n: nat, rep: seq<T>)
    requires 0 < |s| && i + n <= |s| - 1
    ensures [s[0]] + (s[1..][..i] + rep + s[1..][i + n..]) == s[..i + 1] + rep + s[i + 1 + n..]
  {
    assert s[1..][..i] == s[1..i + 1];
    assert s[1..][i + n..] == s[i + 1 + n..];
    assert [s[0]] + s[1..i + 1] == s[..i + 1];
  }

  function UpperChar(c: char): char
  {
    if 'a' <= c <= 'z' then (c as int - 'a' as int + 'A' as int) as char else c
  }

  /** ASCII upper-casing, character by character. */
  function Upper(s: string): (r: string)
    ensures |r| == |s|
    ensures forall i :: 0 <= i < |s| ==> r[i] == UpperChar(s[i])
  {
    if s == [] then "" else [UpperChar(s[0])] + Upper(s[1..])
  }

  function DigitChar(d: nat): char
    requires d < 10
  {
    ('0' as int + d) as char
  }

  /** The decimal digits of n, most significant first, without leading zeros. */
  function NatToString(n: nat): (r: string)
    ensures |r| > 0
    ensures forall i :: 0 <= i < |r| ==> '0' <= r[i] <= '9'
    decreases n
  {
    if n < 10 then [DigitChar(n)] else NatToString(n / 10) + [DigitChar(n % 10)]
  }

  /** Decimal rendering of a possibly negative integer, as `format!("{}")`. */
  function IntToString(n: int): string
  {
    if n < 0 then "-" + NatToString(-n) else NatToString(n)
  }

  /** Different numbers have different decimal renderings. */
  lemma {:induction false} NatToStringInjective(a: nat, b: nat)
    requires NatToString(a) == NatToString(b)
    ensures a == b
    decreases a
  {
    var ra, rb := NatToString(a), NatToString(b);
    if a < 10 && b < 10 {
      assert ra[0] == rb[0];
    } else if a < 10 || b < 10 {
      assert false;
    } else {
      assert ra[..|ra| - 1] == NatToString(a / 10);
      assert rb[..|rb| - 1] == NatToString(b / 10);
      assert ra[|ra| - 1] == rb[|rb| - 1];
      NatToStringInjective(a / 10, b / 10);
    }
  }

  lemma IntToStringInjective(a: int, b: int)
    requires IntToString(a) == IntToString(b)
    ensures a == b
  {
    assert (IntToString(a)[0] == '-') == (a < 0);
    assert (IntToString(b)[0] == '-') == (b < 0);
    if a < 0 && b < 0 {
      assert NatToString(-a) == IntToString(a)[1..];
      assert NatToString(-b) == IntToString(b)[1..];
      NatToStringInjective(-a, -b);
    } else if a < 0 || b < 0 {
      assert false;
    } else {
      NatToStringInjective(a, b);
    }
  }

  /** Concatenation regrouped; a generic fact used where the parts are long
      literals that make the solver's own regrouping costly. */
  lemma AppendAssoc<T>(a: seq<T>, b: seq<T>, c: seq<T>)
    ensures (a + b) + c == a + (b + c)
  {
  }

  /** A slice inside the left operand of a concatenation. */
  lemma SliceAppendLeft<T>(a: seq<T>, b: seq<T>, i: nat, j: nat)
    requires i <= j <= |a|
    ensures (a + b)[i..j] == a[i..j]
  {
    assert forall k :: 0 <= k < j - i ==> (a + b)[i..j][k] == a[i..j][k];
  }
}
