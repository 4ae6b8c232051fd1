/** Decimal numbers in request headers: two readers of 64-bit values and the printer they undo. */
module Decimal {

  const U64_MAX := 0xffff_ffff_ffff_ffff

  predicate IsDigit(c: char) {
    '0' <= c <= '9'
  }

  predicate AllDigits(s: string) {
    forall i :: 0 <= i < |s| ==> IsDigit(s[i])
  }

  predicate IsOws(c: char) {
    c == ' ' || c == '\t'
  }

  predicate AllOws(s: string) {
    forall i :: 0 <= i < |s| ==> s[i] in " \t"
  }

  function DigitVal(c: char): (d: nat)
    ensures IsDigit(c) ==> d < 10
  {
    if IsDigit(c) then c as int - '0' as int else 0
  }

  function Val(ds: string): (v: nat) {
    if ds == "" then 0 else 10 * Val(ds[..|ds| - 1]) + DigitVal(ds[|ds| - 1])
  }

  lemma ValOfSnoc(ds: string, c: char)
    ensures Val(ds + [c]) == 10 * Val(ds) + DigitVal(c)
  {
    assert (ds + [c])[..|ds|] == ds;
  }

  /** More digits never make a number smaller. */
  lemma {:induction false} ValGrows(ds: string, more: string)
    ensures Val(ds) <= Val(ds + more)
    decreases |more|
  {
    if more == "" {
      assert ds + more == ds;
    } else {
      var n := |more| - 1;
      ValGrows(ds, more[..n]);
      assert ds + more == ds + more[..n] + [more[n]];
      ValOfSnoc(ds + more[..n], more[n]);
    }
  }

  /** The number of digits in front. */
  function DigitCount(s: string): (n: nat)
    ensures n <= |s| && AllDigits(s[..n]) && (n < |s| ==> !IsDigit(s[n]))
  {
    if s == "" || !IsDigit(s[0]) then 0
    else
      var n := DigitCount(s[1..]);
      assert s[..n + 1] == [s[0]] + s[1..][..n];
      n + 1
  }

  function Digits(s: string): (ds: string) {
    s[..DigitCount(s)]
  }

  lemma DigitCountIs(s: string, n: nat)
    requires n <= |s| && AllDigits(s[..n]) && (n < |s| ==> !IsDigit(s[n]))
    ensures DigitCount(s) == n
  {
    DigitsInFront(s, n);
    DigitsInFront(s, DigitCount(s));
  }

  lemma DigitsInFront(s: string, n: nat)
    requires n <= |s| && AllDigits(s[..n])
    ensures forall i :: 0 <= i < n ==> IsDigit(s[i])
  {
    forall i | 0 <= i < n ensures IsDigit(s[i]) {
      assert s[..n][i] == s[i];
    }
  }

  /** The first reader's overflow test. */
  lemma OverflowTest(v: nat, d: nat)
    requires d < 10
    ensures v > U64_MAX / 10 || (v == U64_MAX / 10 && d > U64_MAX % 10) <==> 10 * v + d > U64_MAX
  {
  }

  /** The second reader's overflow test. */
  lemma OverflowTestByDivision(v: nat, d: nat)
    requires d < 10
    ensures v > (U64_MAX - d) / 10 <==> 10 * v + d > U64_MAX
  {
  }

  /** Reads the digits at a position: fails exactly when there are none or they exceed 64 bits. */
  method ParseU64(s: string, from: nat) returns (ok: bool, pos: nat, val: nat)
    requires from <= |s|
    ensures ok <==> Digits(s[from..]) != "" && Val(Digits(s[from..])) <= U64_MAX
    ensures ok ==> pos == from + DigitCount(s[from..]) && val == Val(Digits(s[from..]))
    ensures pos <= |s|
  {
    hide Val;
    pos, val := from, 0;
    assert s[from..from] == "";
    NoDigits();
    while pos < |s| && IsDigit(s[pos])
      invariant from <= pos <= |s| && AllDigits(s[from..pos])
      invariant val == Val(s[from..pos]) <= U64_MAX
    {
      var digit := DigitVal(s[pos]);
      ghost var next := s[from..pos + 1];
      assert next == s[from..pos] + [s[pos]];
      ValOfSnoc(s[from..pos], s[pos]);
      OverflowTest(val, digit);
      if val > U64_MAX / 10 || (val == U64_MAX / 10 && digit > U64_MAX % 10) {
        assert s[from..][..pos + 1 - from] == next;
        TooBig(s[from..], pos + 1 - from);
        return false, pos, 0;
      }
      val := val * 10 + digit;
      pos := pos + 1;
    }
    assert s[from..][..pos - from] == s[from..pos];
    DigitCountIs(s[from..], pos - from);
    ok := pos != from;
  }

  /** A number too big after some digits is too big after all of them. */
  lemma TooBig(s: string, n: nat)
    requires n <= |s| && AllDigits(s[..n]) && Val(s[..n]) > U64_MAX
    ensures Val(Digits(s)) > U64_MAX
  {
    var m := DigitCount(s);
    DigitsInFront(s, n);
    ValGrows(s[..n], s[n..m]);
    assert s[..n] + s[n..m] == s[..m];
  }

  // ----- with optional white space ------------------------------------------------------------

  function SkipOws(s: string): (r: string) {
    if s != "" && IsOws(s[0]) then SkipOws(s[1..]) else s
  }

  lemma {:induction false} SkipOwsIs(ows: string, rest: string)
    requires AllOws(ows) && (rest == "" || !IsOws(rest[0]))
    ensures SkipOws(ows + rest) == rest
  {
    if ows == "" {
      assert ows + rest == rest;
    } else {
      assert (ows + rest)[1..] == ows[1..] + rest;
      SkipOwsIs(ows[1..], rest);
    }
  }

  method PassOws(s: string, from: nat) returns (i: nat)
    requires from <= |s|
    ensures from <= i <= |s| && AllOws(s[from..i]) && (i < |s| ==> !IsOws(s[i]))
    ensures SkipOws(s[from..]) == s[i..]
  {
    i := from;
    while i < |s| && IsOws(s[i])
      invariant from <= i <= |s| && AllOws(s[from..i])
    {
      assert s[from..i + 1] == s[from..i] + [s[i]];
      i := i + 1;
    }
    assert s[from..] == s[from..i] + s[i..];
    SkipOwsIs(s[from..i], s[i..]);
  }

  /** The value of a padded decimal: white space, digits, white space, and nothing else. */
  ghost predicate IsPadded(s: string, ds: string) {
    ds != "" && AllDigits(ds) && exists l, r :: AllOws(l) && AllOws(r) && s == l + ds + r
  }

  method ReadDigits(s: string, start: nat) returns (ok: bool, i: nat, v: nat)
    requires start <= |s|
    ensures ok <==> Val(Digits(s[start..])) <= U64_MAX
    ensures ok ==> i == start + DigitCount(s[start..]) && v == Val(Digits(s[start..]))
    ensures i <= |s|
  {
    hide Val;
    i, v := start, 0;
    assert s[start..start] == "";
    NoDigits();
    while i < |s| && IsDigit(s[i])
      invariant start <= i <= |s| && AllDigits(s[start..i])
      invariant v == Val(s[start..i]) <= U64_MAX
    {
      var d := DigitVal(s[i]);
      assert s[start..i + 1] == s[start..i] + [s[i]];
      ValOfSnoc(s[start..i], s[i]);
      OverflowTestByDivision(v, d);
      if v > (U64_MAX - d) / 10 {
        assert s[start..][..i + 1 - start] == s[start..i + 1];
        TooBig(s[start..], i + 1 - start);
        return false, i, 0;
      }
      v := v * 10 + d;
      i := i + 1;
    }
    assert s[start..][..i - start] == s[start..i];
    DigitCountIs(s[start..], i - start);
    ok := true;
  }

  lemma NoDigits()
    ensures Val("") == 0
  {
  }

  /** Fails exactly when the text is no padded decimal or the value exceeds 64 bits. */
  method ParsePadded(s: string) returns (ok: bool, v: nat, ghost ds: string)
    ensures ok ==> IsPadded(s, ds) && v == Val(ds) <= U64_MAX
    ensures !ok ==> forall d :: IsPadded(s, d) ==> Val(d) > U64_MAX
  {
    hide Val, DigitCount, IsPadded;
    v, ds := 0, "";
    if s == "" {
      EmptyIsNotPadded();
      return false, 0, ds;
    }
    var start := PassOws(s, 0);
    forall d | IsPadded(s, d)
      ensures start < |s| && d == Digits(s[start..]) && d != "" && start + |d| <= |s| && AllOws(s[start + |d|..])
    {
      PaddedParts(s, start, d);
    }
    if start == |s| {
      return false, 0, ds;
    }
    var i;
    ok, i, v := ReadDigits(s, start);
    if !ok {
      return;
    }
    ds := Digits(s[start..]);
    if i == start {
      return false, 0, ds;
    }
    var end := PassOws(s, i);
    if end != |s| {
      NotAllOws(s, i, end);
      return false, 0, ds;
    }
    Padded(s, start, i);
    ok := true;
  }

  lemma EmptyIsNotPadded()
    ensures forall d :: !IsPadded("", d)
  {
  }

  lemma NotAllOws(s: string, i: nat, end: nat)
    requires i <= end < |s| && !IsOws(s[end])
    ensures !AllOws(s[i..])
  {
    assert s[i..][end - i] == s[end];
  }

  lemma Padded(s: string, start: nat, i: nat)
    requires start < i <= |s| && i == start + DigitCount(s[start..])
    requires AllOws(s[0..start]) && AllOws(s[i..|s|])
    ensures IsPadded(s, Digits(s[start..]))
  {
    var l, ds, r := s[0..start], Digits(s[start..]), s[i..|s|];
    assert ds == s[start..i];
    assert s == l + ds + r;
  }

  /** Where the parts of a padded decimal are is settled by the text. */
  lemma PaddedParts(s: string, start: nat, d: string)
    requires start <= |s| && AllOws(s[0..start]) && (start < |s| ==> !IsOws(s[start])) && IsPadded(s, d)
    ensures start < |s| && d == Digits(s[start..]) && start + |d| <= |s| && AllOws(s[start + |d|..])
  {
    var l, r :| AllOws(l) && AllOws(r) && s == l + d + r;
    assert s[|l|] == d[0];
    assert IsDigit(d[0]);
    assert forall i :: 0 <= i < |l| ==> s[i] == l[i];
    assert forall i :: 0 <= i < start ==> s[0..start][i] == s[i];
    assert start == |l|;
    assert s[start..][..|d|] == d && s[start + |d|..] == r;
    if r != "" {
      assert s[start..][|d|] == r[0];
    }
    DigitCountIs(s[start..], |d|);
  }

  // ----- printing ---------------------------------------------------------------------------

  function Print(n: nat): (s: string) {
    (if n < 10 then "" else Print(n / 10)) + [('0' as int + n % 10) as char]
  }

  lemma LastDigit(n: nat)
    ensures var c := ('0' as int + n % 10) as char; IsDigit(c) && DigitVal(c) == n % 10
  {
  }

  lemma {:induction false} PrintIsDecimal(n: nat)
    ensures AllDigits(Print(n)) && Print(n) != "" && Val(Print(n)) == n
  {
    hide Val, IsDigit, DigitVal;
    var last := ('0' as int + n % 10) as char;
    LastDigit(n);
    if n < 10 {
      assert Print(n) == "" + [last];
      NoDigits();
      ValOfSnoc("", last);
    } else {
      PrintIsDecimal(n / 10);
      ValOfSnoc(Print(n / 10), last);
      assert 10 * (n / 10) + n % 10 == n;
    }
  }
}
