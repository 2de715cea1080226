/** The few Ruby String operations the scraper applies to the text the HTML
    queries return: searching for a literal, `split(str)` followed by `first`
    or `last`, `gsub` with a literal pattern, `strip` and `to_i`. Each is stated
    the way Ruby evaluates it, with Ruby's nil and exception outcomes kept. */
module RubyText {

  datatype Option<T> = None | Some(value: T)

  /** Ruby's exceptions that the scraper can raise. Calling a method on nil
      raises NoMethodError; `File.join` and `initialize` raise TypeError. */
  datatype Failure = NoMethodError | TypeError

  datatype Result<T> = Ok(value: T) | Err(failure: Failure)

  // ---------------------------------------------------------------- digits

  predicate IsDigit(c: char) { '0' <= c <= '9' }

  predicate AllDigits(s: string) { forall i :: 0 <= i < |s| ==> IsDigit(s[i]) }

  function DigitValue(c: char): nat
    requires IsDigit(c)
  {
    (c as int - '0' as int) as nat
  }

  function DigitChar(d: nat): char
    requires d < 10
  {
    ('0' as int + d) as char
  }

  /** The decimal value of a run of digits (leading zeros allowed). */
  function DigitsValue(s: string): nat
    requires AllDigits(s)
  {
    if s == [] then 0 else 10 * DigitsValue(s[..|s| - 1]) + DigitValue(s[|s| - 1])
  }

  /** The decimal rendering of n, without leading zeros. */
  function Decimal(n: nat): (s: string)
    ensures s != [] && AllDigits(s)
  {
    if n < 10 then [DigitChar(n)] else Decimal(n / 10) + [DigitChar(n % 10)]
  }

  lemma {:induction false} DigitsValueAppend(s: string, c: char)
    requires AllDigits(s) && IsDigit(c)
    ensures AllDigits(s + [c]) && DigitsValue(s + [c]) == 10 * DigitsValue(s) + DigitValue(c)
  {
    assert (s + [c])[..|s + [c]| - 1] == s;
  }

  /** Reading back a decimal rendering gives the number. */
  lemma {:induction false} DecimalRoundTrip(n: nat)
    ensures DigitsValue(Decimal(n)) == n
  {
    if n >= 10 {
      DecimalRoundTrip(n / 10);
      DigitsValueAppend(Decimal(n / 10), DigitChar(n % 10));
    }
  }

  /** The longest prefix of s made of digits. */
  function LeadingDigits(s: string): (d: string)
    ensures d <= s && AllDigits(d)
    ensures |d| < |s| ==> !IsDigit(s[|d|])
  {
    if s != [] && IsDigit(s[0]) then [s[0]] + LeadingDigits(s[1..]) else []
  }

  lemma {:induction false} LeadingDigitsOf(d: string, rest: string)
    requires AllDigits(d)
    requires rest == [] || !IsDigit(rest[0])
    ensures LeadingDigits(d + rest) == d
  {
    if d != [] {
      assert (d + rest)[1..] == d[1..] + rest;
      LeadingDigitsOf(d[1..], rest);
    } else {
      assert d + rest == rest;
    }
  }

  // ------------------------------------------------------------ whitespace

  /** The characters Ruby's `strip` removes: white space and NUL. */
  predicate IsSpace(c: char)
  {
    c == ' ' || c == '\t' || c == '\n' || c == '\U{B}' || c == '\U{C}' || c == '\r' || c == '\0'
  }

  predicate AllSpace(s: string) { forall i :: 0 <= i < |s| ==> IsSpace(s[i]) }

  function TrimLeft(s: string): (r: string)
    ensures |r| <= |s| && r == s[|s| - |r|..]
    ensures r != [] ==> !IsSpace(r[0])
    ensures AllSpace(s[..|s| - |r|])
  {
    if s != [] && IsSpace(s[0]) then TrimLeft(s[1..]) else s
  }

  function TrimRight(s: string): (r: string)
    ensures |r| <= |s| && r == s[..|r|]
    ensures r != [] ==> !IsSpace(r[|r| - 1])
    ensures AllSpace(s[|r|..])
  {
    if s != [] && IsSpace(s[|s| - 1]) then TrimRight(s[..|s| - 1]) else s
  }

  /** Ruby's `String#strip`: nothing is left to strip, and a string with
      nothing to strip is left alone. */
  function Strip(s: string): (r: string)
    ensures |r| <= |s| && Stripped(r)
    ensures Stripped(s) ==> r == s
  {
    TrimRight(TrimLeft(s))
  }

  /** A string with nothing to strip at either end. */
  predicate Stripped(s: string)
  {
    s == [] || (!IsSpace(s[0]) && !IsSpace(s[|s| - 1]))
  }

  lemma {:induction false} TrimLeftPadded(w: string, t: string)
    requires AllSpace(w) && (t == [] || !IsSpace(t[0]))
    ensures TrimLeft(w + t) == t
  {
    if w != [] {
      assert (w + t)[1..] == w[1..] + t;
      TrimLeftPadded(w[1..], t);
    } else {
      assert w + t == t;
    }
  }

  lemma {:induction false} TrimRightPadded(t: string, w: string)
    requires AllSpace(w) && (t == [] || !IsSpace(t[|t| - 1]))
    ensures TrimRight(t + w) == t
  {
    if w != [] {
      assert (t + w)[..|t + w| - 1] == t + w[..|w| - 1];
      TrimRightPadded(t, w[..|w| - 1]);
    } else {
      assert t + w == t;
    }
  }

  /** Strip removes exactly the white space and NUL around a stripped core. */
  lemma StripPadded(w1: string, t: string, w2: string)
    requires AllSpace(w1) && AllSpace(w2) && Stripped(t)
    ensures Strip(w1 + t + w2) == t
  {
    assert w1 + t + w2 == w1 + (t + w2);
    if t == [] {
      TrimLeftPadded(w1 + w2, []);
      assert w1 + w2 + [] == w1 + w2;
    } else {
      TrimLeftPadded(w1, t + w2);
      TrimRightPadded(t, w2);
    }
  }

  // ----------------------------------------------------------------- to_i

  /** The white space `to_i` skips before the number (NUL is not one). */
  predicate IsBlank(c: char)
  {
    c == ' ' || c == '\t' || c == '\n' || c == '\U{B}' || c == '\U{C}' || c == '\r'
  }

  /** s with its leading white space skipped. */
  function SkipBlanks(s: string): (r: string)
    ensures |r| <= |s| && r == s[|s| - |r|..]
    ensures r != [] ==> !IsBlank(r[0])
  {
    if s != [] && IsBlank(s[0]) then SkipBlanks(s[1..]) else s
  }

  /** Ruby's `String#to_i`: leading white space, an optional sign, then the
      longest run of decimal digits; 0 when there are none, so text without
      a digit reads as 0. */
  function ToI(s: string): (r: int)
    ensures r != 0 ==> exists i :: 0 <= i < |s| && IsDigit(s[i])
  {
    var t := SkipBlanks(s);
    if t != [] && t[0] == '-' then 0 - DigitsValue(LeadingDigits(t[1..]))
    else if t != [] && t[0] == '+' then DigitsValue(LeadingDigits(t[1..]))
    else DigitsValue(LeadingDigits(t))
  }

  /** `to_i` of a digit run followed by anything that is not a digit is the
      run's decimal value. */
  lemma ToIOfDigits(d: string, rest: string)
    requires d != [] && AllDigits(d)
    requires rest == [] || !IsDigit(rest[0])
    ensures ToI(d + rest) == DigitsValue(d)
  {
    var s := d + rest;
    assert s[0] == d[0] && !IsBlank(s[0]);
    assert SkipBlanks(s) == s;
    LeadingDigitsOf(d, rest);
  }

  // ------------------------------------------------------ literal search

  /** `pat` occurs in s at index i. */
  predicate OccursAt(s: string, pat: string, i: nat)
  {
    i + |pat| <= |s| && s[i..i + |pat|] == pat
  }

  /** The leftmost occurrence of pat in s at or after index i. */
  function FindFrom(s: string, pat: string, i: nat): (r: Option<nat>)
    decreases |s| - i
    ensures r.Some? ==> i <= r.value && OccursAt(s, pat, r.value)
    ensures r.Some? ==> forall k :: i <= k < r.value ==> !OccursAt(s, pat, k)
    ensures r.None? ==> forall k :: i <= k ==> !OccursAt(s, pat, k)
  {
    if i + |pat| > |s| then None
    else if s[i..i + |pat|] == pat then Some(i)
    else FindFrom(s, pat, i + 1)
  }

  /** Ruby's `s =~ /pat/` for a pattern that is a plain literal. */
  predicate Contains(s: string, pat: string)
  {
    FindFrom(s, pat, 0).Some?
  }

  /** A pattern with a character the text lacks cannot occur in it. */
  lemma {:induction false} MissingCharNotContained(s: string, pat: string, c: char)
    requires c in pat && c !in s
    ensures !Contains(s, pat)
  {
  }

  /** If pat does not occur in pre followed by all but the last character of
      pat, then in pre + pat + post its leftmost occurrence is right after pre. */
  lemma {:induction false} FirstOccurrence(pre: string, pat: string, post: string)
    requires |pat| > 0
    requires !Contains(pre + pat[..|pat| - 1], pat)
    ensures FindFrom(pre + pat + post, pat, 0) == Some(|pre|)
  {
    var s := pre + pat + post;
    var t := pre + pat[..|pat| - 1];
    assert s[|pre|..|pre| + |pat|] == pat;
    assert OccursAt(s, pat, |pre|);
    var r := FindFrom(s, pat, 0);
    assert r.Some?;
    if r.value < |pre| {
      var k := r.value;
      assert s[..|t|] == t;
      assert s[k..k + |pat|] == t[k..k + |pat|];
      assert OccursAt(t, pat, k);
      assert false;
    }
  }

  // --------------------------------------------------------------- split

  /** All fields of `s.split(sep)` before Ruby drops the trailing empty ones. */
  function Split(s: string, sep: string): (fields: seq<string>)
    requires |sep| > 0
    decreases |s|
    ensures fields != []
    ensures forall k :: 0 <= k < |fields| ==> !Contains(fields[k], sep)
  {
    match FindFrom(s, sep, 0)
    case None => [s]
    case Some(i) =>
      BeforeFirstLacks(s, sep, i);
      [s[..i]] + Split(s[i + |sep|..], sep)
  }

  /** The text before the leftmost occurrence of sep does not contain sep. */
  lemma BeforeFirstLacks(s: string, sep: string, i: nat)
    requires |sep| > 0 && FindFrom(s, sep, 0) == Some(i)
    ensures !Contains(s[..i], sep)
  {
    var t := s[..i];
    if Contains(t, sep) {
      var j := FindFrom(t, sep, 0).value;
      assert OccursAt(t, sep, j) && j < i;
      assert t[j..j + |sep|] == s[j..j + |sep|];
      assert OccursAt(s, sep, j);
    }
  }

  /** Ruby's `split` drops trailing empty fields (so "".split(x) is []). */
  function DropTrailingEmpty(fields: seq<string>): (r: seq<string>)
    ensures r <= fields
    ensures r != [] ==> r[|r| - 1] != []
    ensures forall i :: |r| <= i < |fields| ==> fields[i] == []
  {
    if fields == [] then []
    else if fields[|fields| - 1] == [] then DropTrailingEmpty(fields[..|fields| - 1])
    else fields
  }

  /** `s.split(sep).first`: nil when every field is empty. */
  function FirstField(s: string, sep: string): (r: Option<string>)
    requires |sep| > 0
    ensures r.Some? ==> !Contains(r.value, sep)
  {
    var fields := DropTrailingEmpty(Split(s, sep));
    if fields == [] then None else Some(fields[0])
  }

  /** `s.split(sep).last`: the last non-empty field, nil when there is none. */
  function LastField(s: string, sep: string): (r: Option<string>)
    requires |sep| > 0
    ensures r.Some? ==> r.value != [] && !Contains(r.value, sep)
  {
    var fields := DropTrailingEmpty(Split(s, sep));
    if fields == [] then None else Some(fields[|fields| - 1])
  }

  /** The text after an unambiguous last separator is the last field. */
  lemma LastFieldAfter(pre: string, sep: string, tail: string)
    requires |sep| > 0 && tail != []
    requires !Contains(pre + sep[..|sep| - 1], sep)
    requires !Contains(tail, sep)
    ensures LastField(pre + sep + tail, sep) == Some(tail)
  {
    var s := pre + sep + tail;
    FirstOccurrence(pre, sep, tail);
    assert s[..|pre|] == pre && s[|pre| + |sep|..] == tail;
    assert Split(tail, sep) == [tail];
    assert Split(s, sep) == [pre, tail];
  }

  /** The part of s before its first occurrence of c (all of s if none). */
  function Before(s: string, c: char): (r: string)
    ensures r <= s && c !in r
    ensures |r| < |s| ==> s[|r|] == c
    ensures c in s ==> |r| < |s|
  {
    if s == [] || s[0] == c then [] else [s[0]] + Before(s[1..], c)
  }

  lemma {:induction false} BeforeIsFirstOccurrence(s: string, c: char)
    ensures FindFrom(s, [c], 0) == if |Before(s, c)| < |s| then Some(|Before(s, c)|) else None
  {
    var b := Before(s, c);
    var r := FindFrom(s, [c], 0);
    forall k | 0 <= k < |b|
      ensures !OccursAt(s, [c], k)
    {
      assert s[k] == b[k];
    }
    if |b| < |s| {
      assert s[|b|..|b| + 1] == [c];
      assert OccursAt(s, [c], |b|);
      assert r.Some?;
      assert r.value <= |b|;
      assert r.value >= |b|;
    } else {
      assert b == s;
    }
  }

  lemma {:induction false} SplitAllEmpty(s: string, c: char)
    ensures (forall i :: 0 <= i < |s| ==> s[i] == c) <==> DropTrailingEmpty(Split(s, [c])) == []
    decreases |s|
  {
    var fields := Split(s, [c]);
    BeforeIsFirstOccurrence(s, c);
    var b := Before(s, c);
    if |b| < |s| {
      var rest := s[|b| + 1..];
      assert s[..|b|] == b;
      assert fields == [b] + Split(rest, [c]);
      SplitAllEmpty(rest, c);
      if b == [] {
        assert DropTrailingEmpty(fields) == [] <==> DropTrailingEmpty(Split(rest, [c])) == [] by {
          DropTrailingEmptyLead(Split(rest, [c]));
        }
        assert s == [c] + rest;
        assert (forall i :: 0 <= i < |s| ==> s[i] == c) <==> (forall i :: 0 <= i < |rest| ==> rest[i] == c) by {
          if forall i :: 0 <= i < |rest| ==> rest[i] == c {
            forall i | 0 <= i < |s| ensures s[i] == c {
              if i > 0 { assert s[i] == rest[i - 1]; }
            }
          }
          if forall i :: 0 <= i < |s| ==> s[i] == c {
            forall i | 0 <= i < |rest| ensures rest[i] == c {
              assert rest[i] == s[i + 1];
            }
          }
        }
      } else {
        assert s[0] != c;
        NonEmptyFieldSurvives(fields, 0);
      }
    } else {
      assert fields == [s];
      if s != [] {
        assert s[0] != c;
        NonEmptyFieldSurvives(fields, 0);
      }
    }
  }

  lemma {:induction false} DropTrailingEmptyLead(rest: seq<string>)
    ensures DropTrailingEmpty([[]] + rest) == [] <==> DropTrailingEmpty(rest) == []
    decreases |rest|
  {
    var xs := [[]] + rest;
    if rest != [] {
      if rest[|rest| - 1] == [] {
        assert xs[..|xs| - 1] == [[]] + rest[..|rest| - 1];
        DropTrailingEmptyLead(rest[..|rest| - 1]);
      }
    } else {
      assert DropTrailingEmpty(xs) == DropTrailingEmpty([]);
    }
  }

  lemma {:induction false} NonEmptyFieldSurvives(fields: seq<string>, i: nat)
    requires i < |fields| && fields[i] != []
    ensures i < |DropTrailingEmpty(fields)| && DropTrailingEmpty(fields)[i] == fields[i]
  {
  }

  /** `s.split(c).first` is nil exactly when s holds nothing but c, and
      otherwise the text before the first c. */
  lemma FirstFieldBefore(s: string, c: char)
    ensures FirstField(s, [c]) == if forall i :: 0 <= i < |s| ==> s[i] == c then None else Some(Before(s, c))
  {
    SplitAllEmpty(s, c);
    BeforeIsFirstOccurrence(s, c);
    var fields := Split(s, [c]);
    var b := Before(s, c);
    if |b| < |s| {
      assert fields[0] == s[..|b|] == b;
    } else {
      assert fields == [s];
      assert b == s;
    }
  }

  // ---------------------------------------------------------------- gsub

  /** Ruby's `s.gsub(/pat/, rep)` for a literal pattern: every leftmost,
      non-overlapping occurrence replaced; a pattern that occurs nowhere
      leaves the text unchanged. */
  function ReplaceAll(s: string, pat: string, rep: string): (r: string)
    requires |pat| > 0
    decreases |s|
    ensures !Contains(s, pat) ==> r == s
  {
    match FindFrom(s, pat, 0)
    case None => s
    case Some(i) => s[..i] + rep + ReplaceAll(s[i + |pat|..], pat, rep)
  }

  /** Reference definition: s with every c deleted. */
  function Without(s: string, c: char): (r: string)
    ensures c !in r
  {
    if s == [] then [] else (if s[0] == c then [] else [s[0]]) + Without(s[1..], c)
  }

  /** Deleting characters adds none: every digit of Without(s, c) is in s. */
  lemma {:induction false} WithoutDigits(s: string, c: char)
    ensures (exists i :: 0 <= i < |Without(s, c)| && IsDigit(Without(s, c)[i]))
      ==> exists j :: 0 <= j < |s| && IsDigit(s[j])
  {
    if s != [] {
      WithoutDigits(s[1..], c);
      var w := Without(s[1..], c);
      if exists i :: 0 <= i < |w| && IsDigit(w[i]) {
        var i :| 0 <= i < |w| && IsDigit(w[i]);
        assert IsDigit(s[1..][0]) || exists j :: 0 <= j < |s[1..]| && IsDigit(s[1..][j]);
        var j :| 0 <= j < |s[1..]| && IsDigit(s[1..][j]);
        assert IsDigit(s[j + 1]);
      }
    }
  }

  lemma {:induction false} WithoutAppend(a: string, b: string, c: char)
    ensures Without(a + b, c) == Without(a, c) + Without(b, c)
  {
    if a != [] {
      assert (a + b)[1..] == a[1..] + b;
      WithoutAppend(a[1..], b, c);
    } else {
      assert a + b == b;
    }
  }

  lemma {:induction false} WithoutAbsent(s: string, c: char)
    requires c !in s
    ensures Without(s, c) == s
  {
    if s != [] { WithoutAbsent(s[1..], c); }
  }

  lemma DeleteFirst(s: string, c: char)
    requires c in s
    ensures var b := Before(s, c);
      |b| < |s| && ReplaceAll(s, [c], []) == b + ReplaceAll(s[|b| + 1..], [c], [])
  {
    var b := Before(s, c);
    assert |b| < |s|;
    assert FindFrom(s, [c], 0) == Some(|b|) by { BeforeIsFirstOccurrence(s, c); }
    assert s[..|b|] == b;
    assert s[..|b|] + [] == b;
  }

  /** Without splits at the first c: the part before it is kept whole. */
  lemma WithoutAtFirst(s: string, c: char)
    requires c in s
    ensures |Before(s, c)| < |s| && Without(s, c) == Before(s, c) + Without(s[|Before(s, c)| + 1..], c)
  {
    var b := Before(s, c);
    var tail := s[|b|..];
    assert s == b + tail;
    WithoutAppend(b, tail, c);
    WithoutAbsent(b, c);
    assert tail[0] == c && tail[1..] == s[|b| + 1..];
    assert Without(tail, c) == Without(tail[1..], c);
  }

  /** `gsub(/c/, "")` deletes every c and nothing else. */
  lemma {:induction false} DeleteAllIsWithout(s: string, c: char)
    ensures ReplaceAll(s, [c], []) == Without(s, c)
    decreases |s|
  {
    if c in s {
      DeleteFirst(s, c);
      WithoutAtFirst(s, c);
      DeleteAllIsWithout(s[|Before(s, c)| + 1..], c);
    } else {
      BeforeIsFirstOccurrence(s, c);
      WithoutAbsent(s, c);
    }
  }

  /** gsub replaces the unambiguous first occurrence and carries on after it. */
  lemma ReplaceFirst(pre: string, pat: string, post: string, rep: string)
    requires |pat| > 0
    requires !Contains(pre + pat[..|pat| - 1], pat)
    ensures ReplaceAll(pre + pat + post, pat, rep) == pre + rep + ReplaceAll(post, pat, rep)
  {
    var s := pre + pat + post;
    FirstOccurrence(pre, pat, post);
    assert s[..|pre|] == pre && s[|pre| + |pat|..] == post;
  }
}
