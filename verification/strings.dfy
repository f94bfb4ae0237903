/**
 * The handful of Python `str` operations the runner relies on, on `seq<char>`:
 * `split` and `join` on a one-character separator, `find`/`in` for substrings,
 * `replace` of one character, ASCII `lower`/`upper`, `rstrip` of one character,
 * and `str(n)` for a natural number.
 */
module Strings {
  import opened Wrappers

  /** `sep.join(parts)`. */
  function Join(parts: seq<string>, sep: char): string
  {
    if |parts| == 0 then ""
    else if |parts| == 1 then parts[0]
    else parts[0] + [sep] + Join(parts[1..], sep)
  }

  /** `s.split(sep)`: the pieces between separators, in order; never empty. */
  function Split(s: string, sep: char): (parts: seq<string>)
    ensures |parts| >= 1
    ensures forall i :: 0 <= i < |parts| ==> sep !in parts[i]
    ensures sep in s <==> |parts| > 1
  {
    if |s| == 0 then [""]
    else if s[0] == sep then [""] + Split(s[1..], sep)
    else
      var rest := Split(s[1..], sep);
      assert s == [s[0]] + s[1..];
      [[s[0]] + rest[0]] + rest[1..]
  }

  /** Joining the pieces of a split with the same separator gives the string back. */
  lemma {:induction false} JoinSplit(s: string, sep: char)
    ensures Join(Split(s, sep), sep) == s
  {
    if |s| > 0 {
      JoinSplit(s[1..], sep);
      var rest := Split(s[1..], sep);
      if s[0] == sep {
        assert Split(s, sep) == [""] + rest;
        assert ([""] + rest)[1..] == rest;
      } else {
        JoinExtendHead(s[0], rest, sep);
      }
      assert s == [s[0]] + s[1..];
    }
  }

  /** Putting one more character in front of the first piece puts it in front of the join. */
  lemma JoinExtendHead(c: char, rest: seq<string>, sep: char)
    requires |rest| >= 1
    ensures Join([[c] + rest[0]] + rest[1..], sep) == [c] + Join(rest, sep)
  {
    var parts := [[c] + rest[0]] + rest[1..];
    assert parts[1..] == rest[1..];
  }

  lemma {:induction false} JoinSnoc(parts: seq<string>, last: string, sep: char)
    requires |parts| >= 1
    ensures Join(parts + [last], sep) == Join(parts, sep) + [sep] + last
  {
    if |parts| == 1 {
      assert parts + [last] == [parts[0], last];
    } else {
      JoinSnoc(parts[1..], last, sep);
      assert (parts + [last])[1..] == parts[1..] + [last];
    }
  }

  /** `s.split(sep)[-1]`: the text after the last separator, or all of `s`
   *  (`LastIsSplitLast` proves it equal to the split form). */
  function LastSegment(s: string, sep: char): (r: string)
    ensures sep !in r
    ensures sep !in s ==> r == s
  {
    if |s| == 0 then ""
    else if s[|s| - 1] == sep then ""
    else
      var r := LastSegment(s[..|s| - 1], sep);
      assert sep in s ==> sep in s[..|s| - 1] by {
        if sep in s {
          var k :| 0 <= k < |s| && s[k] == sep;
          assert s[..|s| - 1][k] == sep;
        }
      }
      r + [s[|s| - 1]]
  }

  /** The last segment is a suffix of `s`, preceded by the separator when there is one. */
  lemma {:induction false} LastSegmentSuffix(s: string, sep: char)
    ensures |LastSegment(s, sep)| <= |s|
    ensures LastSegment(s, sep) == s[|s| - |LastSegment(s, sep)|..]
    ensures sep in s ==> |LastSegment(s, sep)| < |s| && s[|s| - |LastSegment(s, sep)| - 1] == sep
  {
    if |s| > 0 && s[|s| - 1] != sep {
      var s' := s[..|s| - 1];
      LastSegmentSuffix(s', sep);
      var r' := LastSegment(s', sep);
      assert LastSegment(s, sep) == r' + [s[|s| - 1]];
      var start := |s'| - |r'|;
      assert s[start..] == s'[start..] + [s[|s| - 1]];
      assert sep in s ==> sep in s' by {
        if sep in s {
          var k :| 0 <= k < |s| && s[k] == sep;
          assert s'[k] == sep;
        }
      }
      if sep in s {
        assert s[start - 1] == s'[start - 1];
      }
    }
  }

  /** `sep.join(s.split(sep)[0:-1])`: the text before the last separator, or "" when
   *  there is none (`LastIsSplitLast` proves it equal to the split form). */
  function DropLastSegment(s: string, sep: char): (r: string)
    ensures sep !in s ==> r == ""
    ensures sep in s ==> s == r + [sep] + LastSegment(s, sep)
  {
    if sep in s then
      LastSegmentSuffix(s, sep);
      var n := |s| - |LastSegment(s, sep)| - 1;
      assert s == s[..n] + [sep] + s[n + 1..];
      s[..n]
    else ""
  }

  /** The two segment functions agree with Python's `split` followed by indexing and `join`. */
  lemma LastIsSplitLast(s: string, sep: char)
    ensures LastSegment(s, sep) == Split(s, sep)[|Split(s, sep)| - 1]
    ensures DropLastSegment(s, sep) == Join(Split(s, sep)[..|Split(s, sep)| - 1], sep)
  {
    var last := LastSegment(s, sep);
    if sep in s {
      var d := DropLastSegment(s, sep);
      assert s == d + [sep] + last;
      SplitAtLast(d, last, sep);
      var parts := Split(d + [sep] + last, sep);
      assert Split(s, sep) == parts;
      JoinSplit(d, sep);
    } else {
      SplitOfSeparatorFree(s, sep);
    }
  }

  lemma SplitAtLast(d: string, last: string, sep: char)
    requires sep !in last
    ensures var parts := Split(d + [sep] + last, sep);
      parts[|parts| - 1] == last && parts[..|parts| - 1] == Split(d, sep)
  {
    SplitAround(d, last, sep);
    SplitOfSeparatorFree(last, sep);
    var parts := Split(d, sep) + [last];
    assert parts[..|parts| - 1] == Split(d, sep);
  }

  /** A string without the separator splits into itself alone. */
  lemma {:induction false} SplitOfSeparatorFree(s: string, sep: char)
    requires sep !in s
    ensures Split(s, sep) == [s]
  {
    if |s| > 0 {
      assert sep !in s[1..];
      SplitOfSeparatorFree(s[1..], sep);
      assert s == [s[0]] + s[1..];
    }
  }

  /** `s.split(sep)[0]`: the text before the first separator, or all of `s`. */
  function FirstSegment(s: string, sep: char): (r: string)
    ensures sep !in r
    ensures r <= s
    ensures sep in s ==> |r| < |s| && s[|r|] == sep
    ensures sep !in s ==> r == s
  {
    if |s| == 0 then ""
    else if s[0] == sep then ""
    else [s[0]] + FirstSegment(s[1..], sep)
  }

  /** `FirstSegment` is Python's `split(sep)[0]`. */
  lemma {:induction false} FirstIsSplitFirst(s: string, sep: char)
    ensures FirstSegment(s, sep) == Split(s, sep)[0]
  {
    if |s| > 0 {
      FirstIsSplitFirst(s[1..], sep);
      SplitCons(s[0], s[1..], sep);
      assert s == [s[0]] + s[1..];
    }
  }

  /** One step of `Split`: how the first character extends the split of the rest. */
  lemma SplitCons(c: char, t: string, sep: char)
    ensures Split([c] + t, sep) ==
      (if c == sep then [""] + Split(t, sep) else [[c] + Split(t, sep)[0]] + Split(t, sep)[1..])
  {
    assert ([c] + t)[0] == c;
    assert ([c] + t)[1..] == t;
  }

  /** The inductive step of `SplitAround`: one more leading character. */
  lemma SplitAroundStep(c: char, ra: seq<string>, rb: seq<string>, sep: char)
    requires |ra| >= 1
    ensures (if c == sep then [""] + (ra + rb) else [[c] + (ra + rb)[0]] + (ra + rb)[1..]) ==
      (if c == sep then [""] + ra else [[c] + ra[0]] + ra[1..]) + rb
  {
    if c == sep {
      assert [""] + (ra + rb) == ([""] + ra) + rb;
    } else {
      assert (ra + rb)[1..] == ra[1..] + rb;
      assert [[c] + ra[0]] + (ra[1..] + rb) == ([[c] + ra[0]] + ra[1..]) + rb;
    }
  }

  /** Splitting distributes over a separator placed between two strings. */
  lemma {:induction false} SplitAround(a: string, b: string, sep: char)
    ensures Split(a + [sep] + b, sep) == Split(a, sep) + Split(b, sep)
  {
    if |a| == 0 {
      assert a + [sep] + b == [sep] + b;
      SplitCons(sep, b, sep);
    } else {
      var t := a[1..] + [sep] + b;
      assert a + [sep] + b == [a[0]] + t;
      assert a == [a[0]] + a[1..];
      SplitAround(a[1..], b, sep);
      SplitCons(a[0], t, sep);
      SplitCons(a[0], a[1..], sep);
      SplitAroundStep(a[0], Split(a[1..], sep), Split(b, sep), sep);
    }
  }

  /** A suffix that holds the separator ends in the same last segment as the whole. */
  lemma LastSegmentOfSuffix(s: string, k: nat, sep: char)
    requires k <= |s| && sep in s[k..]
    ensures LastSegment(s, sep) == LastSegment(s[k..], sep)
  {
    var t := s[k..];
    LastSegmentSuffix(t, sep);
    var last := LastSegment(t, sep);
    var n := k + |t| - |last| - 1;
    assert s[n] == sep;
    assert s[n + 1..] == last;
    assert s == s[..n] + [sep] + last;
    LastSegmentAfter(s[..n], last, sep);
  }

  /** The text after a separator that is followed by no other is the last segment. */
  lemma {:induction false} LastSegmentAfter(a: string, b: string, sep: char)
    requires sep !in b
    ensures LastSegment(a + [sep] + b, sep) == b
  {
    var s := a + [sep] + b;
    if |b| > 0 {
      assert s[..|s| - 1] == a + [sep] + b[..|b| - 1];
      assert sep !in b[..|b| - 1] by {
        assert forall k :: 0 <= k < |b| - 1 ==> b[..|b| - 1][k] == b[k];
      }
      LastSegmentAfter(a, b[..|b| - 1], sep);
      assert b == b[..|b| - 1] + [b[|b| - 1]];
    }
  }

  /** `s.replace(from, to)` for single characters. */
  function ReplaceChar(s: string, from: char, to: char): (r: string)
    ensures |r| == |s|
    ensures forall i :: 0 <= i < |s| ==> r[i] == (if s[i] == from then to else s[i])
    ensures from != to ==> from !in r
  {
    if |s| == 0 then ""
    else [if s[0] == from then to else s[0]] + ReplaceChar(s[1..], from, to)
  }

  /** Whether `pat` occurs in `s` starting at index `i`. */
  predicate OccursAt(s: string, pat: string, i: nat)
  {
    i + |pat| <= |s| && s[i..i + |pat|] == pat
  }

  /** `s.find(pat, from)` as an option: the first occurrence of `pat` at or after `from`. */
  function FindFrom(s: string, pat: string, from: nat): (r: Option<nat>)
    decreases |s| - from
    ensures r.Some? ==> from <= r.value && OccursAt(s, pat, r.value)
    ensures r.Some? ==> forall j :: from <= j < r.value ==> !OccursAt(s, pat, j)
    ensures r.None? ==> forall j :: from <= j ==> !OccursAt(s, pat, j)
  {
    if from + |pat| > |s| then None
    else if s[from..from + |pat|] == pat then Some(from)
    else FindFrom(s, pat, from + 1)
  }

  /** A suffix of a string without `c` has no `c` either. */
  lemma NotInSuffix(s: string, t: string, c: char)
    requires c !in s && |t| <= |s| && t == s[|s| - |t|..]
    ensures c !in t
  {
    forall k | 0 <= k < |t| ensures t[k] != c {
      assert t[k] == s[|s| - |t| + k];
    }
  }

  /** A string is the text before index `i`, the character at `i`, and the rest. */
  lemma SplitAtIndex(s: string, i: nat)
    requires i < |s|
    ensures s == s[..i] + [s[i]] + s[i + 1..]
  {
  }

  /** Searching for a single character finds its first occurrence at or after `from`. */
  lemma FindCharFrom(s: string, c: char, from: nat)
    requires from <= |s|
    ensures FindFrom(s, [c], from).None? <==> c !in s[from..]
    ensures FindFrom(s, [c], from).Some? ==>
              var i := FindFrom(s, [c], from).value; i < |s| && s[i] == c && c !in s[from..i]
  {
    forall j | from <= j < |s| ensures OccursAt(s, [c], j) <==> s[j] == c {
      assert s[j..j + 1] == [s[j]];
    }
    var r := FindFrom(s, [c], from);
    if r.None? {
      forall k | 0 <= k < |s| - from ensures s[from..][k] != c {
        assert !OccursAt(s, [c], from + k);
      }
    } else {
      forall k | from <= k < r.value ensures s[k] != c {
        assert !OccursAt(s, [c], k);
      }
      if c in s[from..] {
        var k :| from <= k < |s| && s[k] == c;
        assert OccursAt(s, [c], k);
      }
    }
  }

  /** Python's `pat in s`. */
  predicate Contains(s: string, pat: string)
  {
    FindFrom(s, pat, 0).Some?
  }

  /** `piece` is the text at the start of `rest` up to the first occurrence of `pat`,
   *  or all of `rest` when `pat` does not occur: the piece `split` cuts off. */
  predicate PieceBefore(rest: string, pat: string, piece: string)
  {
    && piece <= rest
    && (forall j :: 0 <= j < |piece| ==> !OccursAt(rest, pat, j))
    && (|piece| == |rest| || OccursAt(rest, pat, |piece|))
  }

  /** `s.split(pat)[1]` for a multi-character separator: the text between the first
   *  occurrence of `pat` and the next one (or the end); None when `pat` does not occur,
   *  where Python raises IndexError. */
  function SecondPiece(s: string, pat: string): (r: Option<string>)
    requires |pat| > 0
    ensures r.Some? <==> Contains(s, pat)
    ensures r.Some? ==> var i := FindFrom(s, pat, 0).value;
      PieceBefore(s[i + |pat|..], pat, r.value)
  {
    match FindFrom(s, pat, 0)
    case None => None
    case Some(i) =>
      var rest := s[i + |pat|..];
      match FindFrom(rest, pat, 0)
      case None => Some(rest)
      case Some(j) => Some(rest[..j])
  }

  /** `s.rstrip(c)` for one character. */
  function RStrip(s: string, c: char): (r: string)
    ensures r <= s
    ensures |r| == 0 || r[|r| - 1] != c
    ensures forall i :: |r| <= i < |s| ==> s[i] == c
  {
    if |s| == 0 then ""
    else if s[|s| - 1] == c then RStrip(s[..|s| - 1], c)
    else s
  }

  predicate IsUpper(c: char)
  {
    'A' <= c <= 'Z'
  }

  predicate IsLower(c: char)
  {
    'a' <= c <= 'z'
  }

  function LowerChar(c: char): char
  {
    if IsUpper(c) then c - 'A' + 'a' else c
  }

  function UpperChar(c: char): char
  {
    if IsLower(c) then c - 'a' + 'A' else c
  }

  /** The string with `f` applied to every character. */
  function MapChars(s: string, f: char -> char): (r: string)
    ensures |r| == |s| && forall i :: 0 <= i < |s| ==> r[i] == f(s[i])
  {
    if |s| == 0 then "" else [f(s[0])] + MapChars(s[1..], f)
  }

  /** ASCII `str.lower()`, as Python 2 applies it to byte strings: no upper-case
   *  letter is left, and every other character is kept. */
  function ToLower(s: string): (r: string)
    ensures |r| == |s|
    ensures forall i :: 0 <= i < |r| ==> !IsUpper(r[i])
    ensures forall i :: 0 <= i < |s| && !IsUpper(s[i]) ==> r[i] == s[i]
  {
    MapChars(s, LowerChar)
  }

  /** ASCII `str.upper()`: no lower-case letter is left, and every other character
   *  is kept. */
  function ToUpper(s: string): (r: string)
    ensures |r| == |s|
    ensures forall i :: 0 <= i < |r| ==> !IsLower(r[i])
    ensures forall i :: 0 <= i < |s| && !IsLower(s[i]) ==> r[i] == s[i]
  {
    MapChars(s, UpperChar)
  }

  /** Lower-casing twice is lower-casing once. */
  lemma LowerIdempotent(s: string)
    ensures ToLower(ToLower(s)) == ToLower(s)
  {
  }

  /** Upper-casing ignores an earlier lower-casing, and the other way round. */
  lemma CaseOfCase(s: string)
    ensures ToUpper(ToLower(s)) == ToUpper(s)
    ensures ToLower(ToUpper(s)) == ToLower(s)
  {
    UpperIgnoresLower(s);
    LowerIgnoresUpper(s);
  }

  lemma {:induction false} UpperIgnoresLower(s: string)
    ensures ToUpper(ToLower(s)) == ToUpper(s)
  {
    if |s| > 0 {
      UpperIgnoresLower(s[1..]);
      assert ToLower(s)[1..] == ToLower(s[1..]);
    }
  }

  lemma {:induction false} LowerIgnoresUpper(s: string)
    ensures ToLower(ToUpper(s)) == ToLower(s)
  {
    if |s| > 0 {
      LowerIgnoresUpper(s[1..]);
      assert ToUpper(s)[1..] == ToUpper(s[1..]);
    }
  }

  /** `str(n)` for a natural number: its decimal digits, without leading zeros. */
  function NatToString(n: nat): (r: string)
    ensures |r| >= 1
    ensures forall i :: 0 <= i < |r| ==> '0' <= r[i] <= '9'
  {
    if n < 10 then [(n as char) + '0']
    else NatToString(n / 10) + [((n % 10) as char) + '0']
  }

  /** The value of a string of decimal digits. */
  function ParseDigits(s: string): nat
    requires forall i :: 0 <= i < |s| ==> '0' <= s[i] <= '9'
  {
    if |s| == 0 then 0
    else ParseDigits(s[..|s| - 1]) * 10 + (s[|s| - 1] - '0') as nat
  }

  /** Reading back the decimal form of `n` gives `n`. */
  lemma {:induction false} ParseNatToString(n: nat)
    ensures ParseDigits(NatToString(n)) == n
  {
    var r := NatToString(n);
    if n >= 10 {
      ParseNatToString(n / 10);
      assert r[..|r| - 1] == NatToString(n / 10);
    }
  }

  /** Distinct numbers have distinct decimal forms. */
  lemma NatToStringInjective(m: nat, n: nat)
    requires NatToString(m) == NatToString(n)
    ensures m == n
  {
    ParseNatToString(m);
    ParseNatToString(n);
  }
}
