/** Byte-range requests (section 2.1 of RFC 7233): parsing a Range value, resolving it to a file. */
module Range {
  import opened Decimal
  import opened Options

  /** `first` is the length of a suffix; an open end is the largest 64-bit value. */
  datatype ByteRange = ByteRange(suffix: bool, first: nat, last: nat)

  // ----- the texts that mean a range -----------------------------------------------------------

  /** The three forms, with the digits as they were written. */
  datatype Form = Suffix(len: string) | From(start: string) | Between(lo: string, hi: string)

  predicate Number(ds: string) {
    ds != "" && AllDigits(ds) && Val(ds) <= U64_MAX
  }

  predicate WellFormed(f: Form) {
    match f
    case Suffix(n) => Number(n) && Val(n) > 0
    case From(a) => Number(a)
    case Between(a, b) => Number(a) && Number(b) && Val(a) <= Val(b)
  }

  function Text(f: Form): (s: string) {
    match f
    case Suffix(n) => "-" + n
    case From(a) => a + "-"
    case Between(a, b) => a + "-" + b
  }

  function Meaning(f: Form): (r: ByteRange) {
    match f
    case Suffix(n) => ByteRange(true, Val(n), 0)
    case From(a) => ByteRange(false, Val(a), U64_MAX)
    case Between(a, b) => ByteRange(false, Val(a), Val(b))
  }

  predicate IsUnit(s: string) {
    && |s| == 6
    && (s[0] == 'b' || s[0] == 'B') && (s[1] == 'y' || s[1] == 'Y') && (s[2] == 't' || s[2] == 'T')
    && (s[3] == 'e' || s[3] == 'E') && (s[4] == 's' || s[4] == 'S') && s[5] == '='
  }

  const UNIT := "bytes="

  /** The unit, in any mixture of cases. */
  lemma UnitIff(s: string)
    ensures IsUnit(s) <==> |s| == |UNIT| && forall i :: 0 <= i < |s| ==> SameLetter(UNIT[i], s[i])
  {
  }

  predicate SameLetter(lower: char, c: char) {
    c == lower || ('a' <= lower <= 'z' && c as int == lower as int - 32)
  }

  ghost predicate Denotes(value: string, f: Form) {
    WellFormed(f) && exists unit, ows :: IsUnit(unit) && AllOws(ows) && value == unit + ows + Text(f)
  }

  // ----- reading the form ----------------------------------------------------------------------

  /** The form a text has, if any. */
  function FormOf(s: string): (r: Option<Form>) {
    if s == "" then None
    else if s[0] == '-' then
      var n := s[1..];
      if WellFormed(Suffix(n)) then Some(Suffix(n)) else None
    else
      var k := DigitCount(s);
      if k == |s| || s[k] != '-' then None
      else
        var f := if k + 1 == |s| then From(s[..k]) else Between(s[..k], s[k + 1..]);
        if WellFormed(f) then Some(f) else None
  }

  lemma FormOfText(f: Form)
    requires WellFormed(f)
    ensures FormOf(Text(f)) == Some(f)
  {
    hide Val;
    var s := Text(f);
    match f
    case Suffix(n) =>
      assert s[1..] == n;
    case From(a) =>
      assert IsDigit(a[0]) && s[..|a|] == a;
      DigitCountIs(s, |a|);
    case Between(a, b) =>
      assert IsDigit(a[0]) && s[..|a|] == a && s[|a| + 1..] == b;
      DigitCountIs(s, |a|);
  }

  lemma TextOfForm(s: string)
    requires FormOf(s).Some?
    ensures Text(FormOf(s).value) == s && WellFormed(FormOf(s).value)
  {
    hide Val;
    if s[0] == '-' {
      assert s == "-" + s[1..];
    } else {
      var k := DigitCount(s);
      assert s == s[..k] + "-" + s[k + 1..];
      if k + 1 == |s| {
        assert s == s[..k] + "-";
      }
    }
  }

  lemma TextHasNoPadding(f: Form)
    requires WellFormed(f)
    ensures Text(f) != "" && !IsOws(Text(f)[0]) && ',' !in Text(f)
  {
    hide Val;
    match f
    case Suffix(n) =>
    case From(a) => assert IsDigit(a[0]);
    case Between(a, b) => assert IsDigit(a[0]);
  }

  /** A value denotes a form exactly when what follows unit and white space is its text. */
  lemma DenotesIff(value: string, f: Form)
    ensures Denotes(value, f) <==>
      |value| >= 6 && IsUnit(value[..6]) && FormOf(SkipOws(value[6..])) == Some(f)
  {
    hide WellFormed, Text, FormOf, IsUnit;
    if Denotes(value, f) {
      var unit, ows :| IsUnit(unit) && AllOws(ows) && value == unit + ows + Text(f);
      UnitLength(unit);
      TextHasNoPadding(f);
      assert value[..6] == unit && value[6..] == ows + Text(f);
      SkipOwsIs(ows, Text(f));
      FormOfText(f);
    }
    if |value| >= 6 && IsUnit(value[..6]) && FormOf(SkipOws(value[6..])) == Some(f) {
      TextOfForm(SkipOws(value[6..]));
      var ows := SkipOwsSplits(value[6..]);
      assert value == value[..6] + ows + Text(f);
    }
  }

  lemma UnitLength(unit: string)
    requires IsUnit(unit)
    ensures |unit| == 6
  {
  }

  lemma {:induction false} SkipOwsSplits(s: string) returns (ows: string)
    ensures AllOws(ows) && s == ows + SkipOws(s)
  {
    ows := "";
    if s != "" && IsOws(s[0]) {
      var rest := SkipOwsSplits(s[1..]);
      ows := [s[0]] + rest;
    }
  }

  /** At most one form, so at most one meaning. */
  lemma DenotesOne(value: string, f: Form, g: Form)
    requires Denotes(value, f) && Denotes(value, g)
    ensures f == g
  {
    DenotesIff(value, f);
    DenotesIff(value, g);
  }

  // ----- the parser ----------------------------------------------------------------------------

  function MeaningOf(r: Option<Form>): (m: Option<ByteRange>) {
    if r.None? then None else Some(Meaning(r.value))
  }

  method HasComma(value: string, from: nat) returns (b: bool)
    requires from <= |value|
    ensures b <==> ',' in value[from..]
  {
    var i := from;
    while i < |value|
      invariant from <= i <= |value| && ',' !in value[from..i]
    {
      if value[i] == ',' {
        assert value[from..][i - from] == ',';
        return true;
      }
      assert value[from..i + 1] == value[from..i] + [value[i]];
      i := i + 1;
    }
    assert value[from..i] == value[from..];
    return false;
  }

  method ParseSuffix(value: string, from: nat) returns (br: Option<ByteRange>)
    requires from < |value| && value[from] == '-'
    ensures br == MeaningOf(FormOf(value[from..]))
  {
    hide Val;
    var ok, pos, n := ParseU64(value, from + 1);
    var rest := value[from..][1..];
    assert rest == value[from + 1..];
    assert pos == |value| && ok ==> Digits(rest) == rest;
    assert AllDigits(rest) ==> Digits(rest) == rest by {
      if AllDigits(rest) {
        assert rest[..|rest|] == rest;
        DigitCountIs(rest, |rest|);
      }
    }
    if !ok {
      return None;
    }
    if pos != |value| {
      return None;
    }
    if n == 0 {
      return None;
    }
    return Some(ByteRange(true, n, 0));
  }

  /** No digit run in front, or one that is not a number or not followed by a dash: no form. */
  lemma NoFirst(s: string)
    requires s != "" && s[0] != '-'
    ensures !Number(Digits(s)) || DigitCount(s) == |s| || s[DigitCount(s)] != '-' ==> FormOf(s) == None
  {
  }

  lemma OpenEnd(s: string)
    requires s != "" && s[0] != '-' && Number(Digits(s)) && DigitCount(s) + 1 == |s| && s[|s| - 1] == '-'
    ensures FormOf(s) == Some(From(Digits(s)))
  {
  }

  lemma ClosedEnd(s: string)
    requires s != "" && s[0] != '-' && Number(Digits(s)) && DigitCount(s) + 1 < |s| && s[DigitCount(s)] == '-'
    ensures var hi := s[DigitCount(s) + 1..];
      FormOf(s) == if Number(hi) && Val(Digits(s)) <= Val(hi) then Some(Between(Digits(s), hi)) else None
  {
  }

  lemma WholeIsDigits(s: string)
    ensures AllDigits(s) <==> DigitCount(s) == |s|
    ensures DigitCount(s) == |s| ==> Digits(s) == s
  {
    if AllDigits(s) {
      assert s[..|s|] == s;
      DigitCountIs(s, |s|);
    }
    if DigitCount(s) == |s| {
      assert s[..|s|] == s;
    }
  }

  method ParseInterval(value: string, from: nat) returns (br: Option<ByteRange>)
    requires from < |value| && value[from] != '-'
    ensures br == MeaningOf(FormOf(value[from..]))
  {
    hide Val, FormOf, DigitCount;
    ghost var s := value[from..];
    NoFirst(s);
    var ok, pos, first := ParseU64(value, from);
    if !ok {
      return None;
    }
    if pos >= |value| || value[pos] != '-' {
      return None;
    }
    pos := pos + 1;
    if pos == |value| {
      OpenEnd(s);
      return Some(ByteRange(false, first, U64_MAX));
    }
    ClosedEnd(s);
    ghost var hi := value[pos..];
    assert s[DigitCount(s) + 1..] == hi;
    WholeIsDigits(hi);
    var last;
    ok, pos, last := ParseU64(value, pos);
    if !ok {
      return None;
    }
    if pos != |value| {
      return None;
    }
    if first > last {
      return None;
    }
    return Some(ByteRange(false, first, last));
  }

  lemma CommaIsNoForm(s: string)
    requires ',' in s
    ensures FormOf(s) == None
  {
    if FormOf(s).Some? {
      TextOfForm(s);
      TextHasNoPadding(FormOf(s).value);
    }
  }

  /** The meaning of the value, when it denotes one. */
  method Parse(value: string) returns (br: Option<ByteRange>)
    ensures br.Some? ==> exists f :: Denotes(value, f) && br.value == Meaning(f)
    ensures br.None? ==> forall f :: !Denotes(value, f)
    ensures Sensible(br)
  {
    hide FormOf, Denotes, Meaning;
    forall f ensures Denotes(value, f) <==>
      |value| >= 6 && IsUnit(value[..6]) && FormOf(SkipOws(value[6..])) == Some(f)
    {
      DenotesIff(value, f);
    }
    if |value| < 6 {
      return None;
    }
    if !IsUnit(value[..6]) {
      return None;
    }
    var pos := PassOws(value, 6);
    ghost var s := value[pos..];
    EmptyIsNoForm();
    if pos >= |value| {
      return None;
    }
    var comma := HasComma(value, pos);
    if comma {
      CommaIsNoForm(s);
      return None;
    }
    if value[pos] == '-' {
      br := ParseSuffix(value, pos);
    } else {
      br := ParseInterval(value, pos);
    }
    if br.Some? {
      assert Denotes(value, FormOf(s).value);
      TextOfForm(s);
      MeaningIsSensible(FormOf(s).value);
    }
  }

  lemma EmptyIsNoForm()
    ensures FormOf("") == None
  {
  }

  /** Parsing undoes printing. */
  lemma PrintedRangesDenote(a: nat, b: nat)
    requires a <= U64_MAX && b <= U64_MAX
    ensures a > 0 ==> Denotes("bytes=" + Text(Suffix(Print(a))), Suffix(Print(a)))
    ensures Denotes("bytes=" + Text(From(Print(a))), From(Print(a)))
    ensures a <= b ==> Denotes("bytes=" + Text(Between(Print(a), Print(b))), Between(Print(a), Print(b)))
    ensures Meaning(Suffix(Print(a))) == ByteRange(true, a, 0)
    ensures Meaning(From(Print(a))) == ByteRange(false, a, U64_MAX)
    ensures Meaning(Between(Print(a), Print(b))) == ByteRange(false, a, b)
  {
    hide Print, Val, Text, AllDigits;
    PrintIsDecimal(a);
    PrintIsDecimal(b);
    if a > 0 {
      Written(Suffix(Print(a)));
    }
    Written(From(Print(a)));
    if a <= b {
      Written(Between(Print(a), Print(b)));
    }
  }

  lemma Written(f: Form)
    requires WellFormed(f)
    ensures Denotes("bytes=" + Text(f), f)
  {
    assert IsUnit("bytes=") && AllOws("");
    assert "bytes=" + "" + Text(f) == "bytes=" + Text(f);
  }

  // ----- resolving -------------------------------------------------------------------------------

  /** Does the request name byte `x` of a file of this size? */
  predicate Requested(br: Option<ByteRange>, size: nat, x: int) {
    match br
    case None => false
    case Some(r) => if r.suffix then size - r.first <= x else r.first <= x <= r.last
  }

  datatype Resolved = Unsatisfiable | Serve(start: nat, end: nat, length: nat)

  /** What the parser makes: a suffix is not empty, an interval is not reversed. */
  predicate Sensible(br: Option<ByteRange>) {
    br.Some? ==> if br.value.suffix then br.value.first > 0 else br.value.first <= br.value.last
  }

  function Resolve(br: Option<ByteRange>, size: nat): (r: Resolved)
    requires Sensible(br)
  {
    if br.None? || size == 0 then Unsatisfiable
    else
      var b := br.value;
      if b.suffix then
        if b.first >= size then Serve(0, size - 1, size)
        else
          var start, end := size - b.first, size - 1;
          Serve(start, end, end - start + 1)
      else if b.first >= size then Unsatisfiable
      else
        var end := if b.last == U64_MAX || b.last >= size then size - 1 else b.last;
        Serve(b.first, end, end - b.first + 1)
  }

  /** The bytes served are the requested ones that the file has; none, exactly when there are none. */
  lemma ResolveIsIntersection(br: Option<ByteRange>, size: nat)
    requires Sensible(br) && size <= U64_MAX
    ensures var r := Resolve(br, size);
      && (r.Serve? ==>
            && (forall x :: r.start <= x <= r.end <==> 0 <= x < size && Requested(br, size, x))
            && r.length == r.end - r.start + 1 && r.start <= r.end < size)
      && (r.Serve? <==> exists x :: 0 <= x < size && Requested(br, size, x))
  {
    var r := Resolve(br, size);
    if r.Serve? {
      assert Requested(br, size, r.start);
    }
  }

  /** From text to bytes: the parser's results are sensible. */
  lemma MeaningIsSensible(f: Form)
    requires WellFormed(f)
    ensures Sensible(Some(Meaning(f)))
  {
  }
}
