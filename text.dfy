/** The string operations the program leans on: Python's `str.split` with an
    explicit separator and its inverse `join`, ASCII upper and lower case,
    substring containment, and decimal rendering of naturals (`str(n)`). */
module Text {

  import opened Results

  // ---------------------------------------------------------------------
  // Decimal digits

  predicate IsDigit(c: char)
  {
    '0' <= c <= '9'
  }

  function DigitChar(d: nat): (r: char)
    requires d < 10
    ensures IsDigit(r)
  {
    ('0' as int + d) as char
  }

  function DigitValue(c: char): (r: nat)
    requires IsDigit(c)
    ensures r < 10 && DigitChar(r) == c
  {
    c as int - '0' as int
  }

  predicate AllDigits(s: string)
  {
    forall i :: 0 <= i < |s| ==> IsDigit(s[i])
  }

  /** `str(n)` for a natural: its decimal digits, most significant first. */
  function NatToString(n: nat): (r: string)
    ensures |r| >= 1 && AllDigits(r)
    ensures |r| > 1 ==> r[0] != '0'
  {
    if n < 10 then [DigitChar(n)] else NatToString(n / 10) + [DigitChar(n % 10)]
  }

  /** The value of a string of decimal digits, read most significant first. */
  function DigitsValue(s: string): nat
    requires AllDigits(s)
  {
    if s == [] then 0 else DigitsValue(s[..|s| - 1]) * 10 + DigitValue(s[|s| - 1])
  }

  /** `int(s)` restricted to plain decimal digits; None for anything else. */
  function ParseNat(s: string): (r: Option<nat>)
    ensures r.Some? <==> |s| >= 1 && AllDigits(s)
  {
    if |s| >= 1 && AllDigits(s) then Some(DigitsValue(s)) else None
  }

  lemma {:induction false} DigitsOfNat(n: nat)
    ensures DigitsValue(NatToString(n)) == n
  {
    var r := NatToString(n);
    if n >= 10 {
      DigitsOfNat(n / 10);
      assert r[..|r| - 1] == NatToString(n / 10);
      DigitValueOfChar(n % 10);
    } else {
      DigitValueOfChar(n);
    }
  }

  lemma DigitValueOfChar(d: nat)
    requires d < 10
    ensures DigitValue(DigitChar(d)) == d
  {
  }

  /** Reading back `str(n)` gives n. */
  lemma NatRoundTrip(n: nat)
    ensures ParseNat(NatToString(n)) == Some(n)
  {
    DigitsOfNat(n);
  }

  /** Two-digit zero-padded rendering, as `%02d`. */
  function Pad2(n: nat): (r: string)
    requires n < 100
    ensures |r| == 2 && AllDigits(r)
    ensures DigitValue(r[0]) * 10 + DigitValue(r[1]) == n
  {
    DigitValueOfChar(n / 10);
    DigitValueOfChar(n % 10);
    [DigitChar(n / 10), DigitChar(n % 10)]
  }

  // ---------------------------------------------------------------------
  // str.split(sep) and sep.join(tokens)

  /** Python's `s.split(sep)` for a one-character separator: cuts at every
      occurrence and keeps empty fields, so the result is never empty. */
  function Split(s: string, sep: char): (r: seq<string>)
    ensures |r| >= 1
    ensures forall i :: 0 <= i < |r| ==> sep !in r[i]
  {
    if s == [] then [[]]
    else if s[0] == sep then [[]] + Split(s[1..], sep)
    else
      var rest := Split(s[1..], sep);
      [[s[0]] + rest[0]] + rest[1..]
  }

  /** Python's `sep.join(ts)`. */
  function Join(ts: seq<string>, sep: char): string
  {
    if ts == [] then []
    else if |ts| == 1 then ts[0]
    else ts[0] + [sep] + Join(ts[1..], sep)
  }

  /** Splitting and joining again restores the string. */
  lemma {:induction false} JoinSplit(s: string, sep: char)
    ensures Join(Split(s, sep), sep) == s
  {
    if s != [] {
      JoinSplit(s[1..], sep);
      var rest := Split(s[1..], sep);
      if s[0] == sep {
        assert Split(s, sep)[1..] == rest;
      } else {
        var r := Split(s, sep);
        if |rest| == 1 {
          assert r == [[s[0]] + rest[0]];
        } else {
          assert r[1..] == rest[1..];
          assert Join(rest, sep) == rest[0] + [sep] + Join(rest[1..], sep);
        }
      }
    }
  }

  /** A field without the separator splits to itself. */
  lemma {:induction false} SplitOfField(s: string, sep: char)
    requires sep !in s
    ensures Split(s, sep) == [s]
  {
    if s != [] {
      SplitOfField(s[1..], sep);
      assert [s[0]] + s[1..] == s;
    }
  }

  /** Splitting a string that starts with a non-separator extends the first field. */
  lemma SplitCons(c: char, t: string, sep: char)
    requires c != sep
    ensures Split([c] + t, sep) == [[c] + Split(t, sep)[0]] + Split(t, sep)[1..]
  {
    assert ([c] + t)[1..] == t;
  }

  /** Prepending a field to a split list. */
  lemma ConsField(c: char, ra: seq<string>, rb: seq<string>)
    requires |ra| >= 1
    ensures [[c] + (ra + rb)[0]] + (ra + rb)[1..] == ([[c] + ra[0]] + ra[1..]) + rb
  {
    assert (ra + rb)[0] == ra[0];
    assert (ra + rb)[1..] == ra[1..] + rb;
  }

  /** Splitting at a separator splits the two sides independently. */
  lemma {:induction false} SplitAtSeparator(a: string, b: string, sep: char)
    ensures Split(a + [sep] + b, sep) == Split(a, sep) + Split(b, sep)
  {
    if a == [] {
      assert a + [sep] + b == [sep] + b;
      assert ([sep] + b)[1..] == b;
    } else {
      var t := a[1..] + [sep] + b;
      assert a + [sep] + b == [a[0]] + t;
      assert a == [a[0]] + a[1..];
      SplitAtSeparator(a[1..], b, sep);
      if a[0] == sep {
        assert ([a[0]] + t)[1..] == t;
        assert ([a[0]] + a[1..])[1..] == a[1..];
      } else {
        SplitCons(a[0], t, sep);
        SplitCons(a[0], a[1..], sep);
        ConsField(a[0], Split(a[1..], sep), Split(b, sep));
      }
    }
  }

  /** Joining separator-free fields and splitting again gives the fields back. */
  lemma {:induction false} SplitJoin(ts: seq<string>, sep: char)
    requires |ts| >= 1
    requires forall i :: 0 <= i < |ts| ==> sep !in ts[i]
    ensures Split(Join(ts, sep), sep) == ts
  {
    if |ts| == 1 {
      SplitOfField(ts[0], sep);
    } else {
      SplitJoin(ts[1..], sep);
      SplitOfField(ts[0], sep);
      SplitAtSeparator(ts[0], Join(ts[1..], sep), sep);
      assert [ts[0]] + ts[1..] == ts;
    }
  }

  /** Joining a field in front of a non-empty list puts one separator between them. */
  lemma JoinCons(t: string, ts: seq<string>, sep: char)
    requires |ts| >= 1
    ensures Join([t] + ts, sep) == t + [sep] + Join(ts, sep)
  {
    assert ([t] + ts)[1..] == ts;
  }

  /** A field that contains the separator joins to the same text as its two halves. */
  lemma {:induction false} JoinOfInnerSeparator(pre: seq<string>, a: string, b: string, post: seq<string>, sep: char)
    requires |post| >= 1
    ensures Join(pre + [a + [sep] + b] + post, sep) == Join(pre + [a, b] + post, sep)
  {
    if pre == [] {
      JoinCons(a + [sep] + b, post, sep);
      JoinCons(b, post, sep);
      JoinCons(a, [b] + post, sep);
      assert [a, b] + post == [a] + ([b] + post);
    } else {
      JoinOfInnerSeparator(pre[1..], a, b, post, sep);
      assert pre + [a + [sep] + b] + post == [pre[0]] + (pre[1..] + [a + [sep] + b] + post);
      assert pre + [a, b] + post == [pre[0]] + (pre[1..] + [a, b] + post);
      JoinCons(pre[0], pre[1..] + [a + [sep] + b] + post, sep);
      JoinCons(pre[0], pre[1..] + [a, b] + post, sep);
    }
  }

  /** `s.split(sep)[-1]`: the text after the last separator (all of s when there is none). */
  function LastField(s: string, sep: char): (r: string)
    ensures sep !in r
  {
    var fields := Split(s, sep);
    fields[|fields| - 1]
  }

  /** The last field is a suffix of s and is preceded by a separator unless it is all of s. */
  lemma LastFieldIsSuffix(s: string, sep: char)
    ensures var r := LastField(s, sep);
      |r| <= |s| && s[|s| - |r|..] == r && (|r| < |s| ==> s[|s| - |r| - 1] == sep)
  {
    var fields := Split(s, sep);
    JoinSplit(s, sep);
    if |fields| > 1 {
      JoinOfLast(fields, sep);
    }
  }

  lemma {:induction false} JoinOfLast(ts: seq<string>, sep: char)
    requires |ts| > 1
    ensures Join(ts, sep) == Join(ts[..|ts| - 1], sep) + [sep] + ts[|ts| - 1]
  {
    if |ts| > 2 {
      JoinOfLast(ts[1..], sep);
      assert ts[1..][..|ts| - 2] == ts[..|ts| - 1][1..];
    }
  }

  // ---------------------------------------------------------------------
  // Case mapping and containment

  function UpperChar(c: char): (r: char)
    ensures 'a' <= c <= 'z' ==> r as int == c as int - 32
    ensures !('a' <= c <= 'z') ==> r == c
  {
    if 'a' <= c <= 'z' then (c as int - 32) as char else c
  }

  /** `s.upper()` on ASCII letters. */
  function Upper(s: string): (r: string)
    ensures |r| == |s| && forall i :: 0 <= i < |s| ==> r[i] == UpperChar(s[i])
  {
    seq(|s|, i requires 0 <= i < |s| => UpperChar(s[i]))
  }

  /** Upper-casing twice is upper-casing once. */
  lemma UpperIdempotent(s: string)
    ensures Upper(Upper(s)) == Upper(s)
  {
  }

  /** `needle in hay`, scanning hay from the left. */
  predicate Contains(hay: string, needle: string)
  {
    (|needle| <= |hay| && hay[..|needle|] == needle)
    || (hay != [] && Contains(hay[1..], needle))
  }

  /** The needle occurs in hay starting at offset i. */
  predicate OccursAt(hay: string, needle: string, i: nat)
  {
    i + |needle| <= |hay| && hay[i..i + |needle|] == needle
  }

  /** Containment means the needle occurs at some offset of hay. */
  lemma {:induction false} ContainsIsOccurrence(hay: string, needle: string)
    ensures Contains(hay, needle) <==> exists i: nat :: OccursAt(hay, needle, i)
  {
    if Contains(hay, needle) {
      if |needle| <= |hay| && hay[..|needle|] == needle {
        assert OccursAt(hay, needle, 0);
      } else {
        ContainsIsOccurrence(hay[1..], needle);
        var i: nat :| OccursAt(hay[1..], needle, i);
        assert hay[1..][i..i + |needle|] == hay[i + 1..i + 1 + |needle|];
        assert OccursAt(hay, needle, i + 1);
      }
    }
    if exists i: nat :: OccursAt(hay, needle, i) {
      var i: nat :| OccursAt(hay, needle, i);
      if i > 0 {
        assert hay[1..][i - 1..i - 1 + |needle|] == hay[i..i + |needle|];
        assert OccursAt(hay[1..], needle, i - 1);
        ContainsIsOccurrence(hay[1..], needle);
      } else {
        assert hay[..|needle|] == hay[0..0 + |needle|];
      }
    }
  }
}
