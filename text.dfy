/** String and number helpers shared by the rest of the model: the fixed-string searches,
    splits, trims and decimal conversions that the Rust and TypeScript sources get from
    their standard libraries. */
module Text {

  datatype Option<T> = None | Some(value: T)

  datatype Result<T, E> = Ok(value: T) | Err(error: E)

  predicate IsDigit(c: char) { '0' <= c <= '9' }

  predicate AllDigits(s: string) { forall i :: 0 <= i < |s| ==> IsDigit(s[i]) }

  /** Unicode White_Space: Rust's `char::is_whitespace`, `split_whitespace` and regex `\s`. */
  predicate IsWhiteSpace(c: char)
  {
    c == ' ' || '\t' <= c <= '\r' || c == '\U{85}' || c == '\U{A0}' || c == '\U{1680}'
    || '\U{2000}' <= c <= '\U{200A}' || c == '\U{2028}' || c == '\U{2029}'
    || c == '\U{202F}' || c == '\U{205F}' || c == '\U{3000}'
  }

  /** What JavaScript's `String.prototype.trim` removes: WhiteSpace and LineTerminator. */
  predicate IsJsSpace(c: char)
  {
    c == ' ' || '\t' <= c <= '\r' || c == '\U{A0}' || c == '\U{FEFF}' || c == '\U{1680}'
    || '\U{2000}' <= c <= '\U{200A}' || c == '\U{2028}' || c == '\U{2029}'
    || c == '\U{202F}' || c == '\U{205F}' || c == '\U{3000}'
  }

  predicate StartsWith(s: string, p: string) { |p| <= |s| && s[..|p|] == p }

  predicate EndsWith(s: string, p: string) { |p| <= |s| && s[|s| - |p|..] == p }

  predicate OccursAt(s: string, t: string, i: int)
  {
    0 <= i && i + |t| <= |s| && s[i..i + |t|] == t
  }

  predicate Contains(s: string, t: string)
  {
    exists i | 0 <= i <= |s| - |t| :: OccursAt(s, t, i)
  }

  lemma OccursAtContains(s: string, t: string, i: int)
    requires OccursAt(s, t, i)
    ensures Contains(s, t)
  {
  }

  /** An occurrence inside a prefix or a suffix is an occurrence in the whole string. */
  lemma OccursInPrefix(s: string, t: string, n: nat, i: int)
    requires n <= |s| && OccursAt(s[..n], t, i)
    ensures OccursAt(s, t, i)
  {
    assert s[..n][i..i + |t|] == s[i..i + |t|];
  }

  lemma OccursInSuffix(s: string, t: string, n: nat, i: int)
    requires n <= |s| && OccursAt(s[n..], t, i)
    ensures OccursAt(s, t, n + i)
  {
    assert s[n..][i..i + |t|] == s[n + i..n + i + |t|];
  }

  /** Two texts occur one right after the other exactly when their concatenation occurs. */
  lemma OccursAtConcat(s: string, u: string, v: string, i: int)
    ensures OccursAt(s, u, i) && OccursAt(s, v, i + |u|) <==> OccursAt(s, u + v, i)
  {
    if OccursAt(s, u + v, i) {
      assert s[i..i + |u|] == (u + v)[..|u|];
      assert s[i + |u|..i + |u| + |v|] == (u + v)[|u|..];
    }
    if OccursAt(s, u, i) && OccursAt(s, v, i + |u|) {
      assert s[i..i + |u| + |v|] == s[i..i + |u|] + s[i + |u|..i + |u| + |v|];
    }
  }

  /** The first occurrence of `t` in `s` at or after `from`. */
  function IndexFrom(s: string, t: string, from: nat): (r: Option<nat>)
    ensures r.Some? ==> from <= r.value && OccursAt(s, t, r.value)
    ensures r.Some? ==> forall j :: from <= j < r.value ==> !OccursAt(s, t, j)
    ensures r.None? ==> forall j :: from <= j ==> !OccursAt(s, t, j)
    decreases |s| - from
  {
    if from + |t| > |s| then None
    else if s[from..from + |t|] == t then Some(from)
    else IndexFrom(s, t, from + 1)
  }

  /** The last position of `c` in `s` (Rust `rfind` with a char pattern). */
  function LastIndexOf(s: string, c: char): (r: Option<nat>)
    ensures r.Some? ==> r.value < |s| && s[r.value] == c
    ensures r.Some? ==> forall j :: r.value < j < |s| ==> s[j] != c
    ensures r.None? ==> forall j :: 0 <= j < |s| ==> s[j] != c
  {
    if |s| == 0 then None
    else if s[|s| - 1] == c then Some(|s| - 1)
    else LastIndexOf(s[..|s| - 1], c)
  }

  /** `parts` glued back together with `sep` between neighbours. */
  function Join(parts: seq<string>, sep: string): string
  {
    if |parts| == 0 then ""
    else if |parts| == 1 then parts[0]
    else parts[0] + sep + Join(parts[1..], sep)
  }

  lemma {:induction false} JoinLast(parts: seq<string>, sep: string)
    requires |parts| >= 2
    ensures Join(parts, sep) == Join(parts[..|parts| - 1], sep) + sep + parts[|parts| - 1]
    decreases |parts|
  {
    if |parts| > 2 {
      JoinLast(parts[1..], sep);
      assert parts[1..][..|parts| - 2] == parts[..|parts| - 1][1..];
    }
  }

  /** Splitting on a non-empty separator, as `str.split(sep)` in both Rust and JavaScript:
      the pieces never contain the separator and joining them gives the input back. */
  function Split(s: string, sep: string): (parts: seq<string>)
    requires |sep| > 0
    ensures |parts| >= 1
    ensures Join(parts, sep) == s
    ensures forall k :: 0 <= k < |parts| ==> !Contains(parts[k], sep)
    decreases |s|
  {
    match IndexFrom(s, sep, 0)
    case None => [s]
    case Some(i) =>
      var rest := Split(s[i + |sep|..], sep);
      FirstPiece(s, sep, i);
      [s[..i]] + rest
  }

  /** The text before the first separator holds no separator, not even one that would
      run into that separator. */
  lemma FirstPiece(s: string, sep: string, i: nat)
    requires |sep| > 0 && IndexFrom(s, sep, 0) == Some(i)
    ensures !Contains(s[..i], sep)
    ensures forall j :: 0 <= j < i ==> !OccursAt(s[..i] + sep, sep, j)
    ensures s == s[..i] + sep + s[i + |sep|..]
  {
    NoOccurrenceBefore(s, sep, i, i);
    SeparatorAfterFirstPiece(s, sep, i);
  }

  lemma SeparatorAfterFirstPiece(s: string, sep: string, i: nat)
    requires |sep| > 0 && IndexFrom(s, sep, 0) == Some(i)
    ensures forall j :: 0 <= j < i ==> !OccursAt(s[..i] + sep, sep, j)
    ensures s == s[..i] + sep + s[i + |sep|..]
  {
    CutAround(s, sep, i);
    NoOccurrenceBefore(s, sep, i, i + |sep|);
  }

  /** A string is what comes before an occurrence, the occurrence, and what follows. */
  lemma CutAround(s: string, t: string, i: nat)
    requires OccursAt(s, t, i)
    ensures s[..i + |t|] == s[..i] + t
    ensures s == s[..i] + t + s[i + |t|..]
  {
    assert s[..i + |t|] == s[..i] + s[i..i + |t|];
    assert s == s[..i + |t|] + s[i + |t|..];
  }

  /** With no occurrence before `i` in `s`, there is none before `i` in a prefix either. */
  lemma NoOccurrenceBefore(s: string, t: string, i: nat, n: nat)
    requires n <= |s| && forall j :: 0 <= j < i ==> !OccursAt(s, t, j)
    ensures forall j :: 0 <= j < i ==> !OccursAt(s[..n], t, j)
  {
    forall j | 0 <= j < i ensures !OccursAt(s[..n], t, j) {
      if OccursAt(s[..n], t, j) {
        OccursInPrefix(s, t, n, j);
      }
    }
  }

  /** Each cut of `Split` is made at the leftmost occurrence: no occurrence of the
      separator starts inside a piece and runs into the separator after it. With the
      join and the pieces free of the separator, this fixes the pieces. */
  predicate CutsLeftmost(parts: seq<string>, sep: string)
  {
    forall k, j :: 0 <= k < |parts| - 1 && 0 <= j < |parts[k]| ==> !OccursAt(parts[k] + sep, sep, j)
  }

  lemma {:induction false} SplitCutsLeftmost(s: string, sep: string)
    requires |sep| > 0
    ensures CutsLeftmost(Split(s, sep), sep)
    decreases |s|
  {
    match IndexFrom(s, sep, 0)
    case None =>
    case Some(i) =>
      FirstPiece(s, sep, i);
      SplitCutsLeftmost(s[i + |sep|..], sep);
      var rest := Split(s[i + |sep|..], sep);
      var parts := Split(s, sep);
      assert parts == [s[..i]] + rest;
      forall k, j | 0 <= k < |parts| - 1 && 0 <= j < |parts[k]|
        ensures !OccursAt(parts[k] + sep, sep, j)
      {
        if k > 0 {
          assert parts[k] == rest[k - 1];
          assert 0 <= k - 1 < |rest| - 1 && 0 <= j < |rest[k - 1]|;
        } else {
          assert parts[0] == s[..i];
        }
      }
  }

  /** An occurrence that ends by `n` is an occurrence in the prefix of length `n`. */
  lemma OccursInPrefixOf(s: string, t: string, n: nat, i: int)
    requires OccursAt(s, t, i) && i + |t| <= n <= |s|
    ensures OccursAt(s[..n], t, i)
  {
    assert s[..n][i..i + |t|] == s[i..i + |t|];
  }

  /** Splitting undoes joining, for pieces that hold no separator and whose cuts are
      leftmost. */
  lemma {:induction false} SplitJoin(ps: seq<string>, sep: string)
    requires |sep| > 0 && |ps| >= 1
    requires !Contains(ps[|ps| - 1], sep) && CutsLeftmost(ps, sep)
    ensures Split(Join(ps, sep), sep) == ps
    decreases |ps|
  {
    if |ps| == 1 {
      var r := IndexFrom(ps[0], sep, 0);
      if r.Some? {
        OccursAtContains(ps[0], sep, r.value);
      }
      SplitWhole(ps[0], sep);
    } else {
      SplitJoinFirst(ps, sep);
      CutsLeftmostTail(ps, sep);
      assert ps[1..][|ps[1..]| - 1] == ps[|ps| - 1];
      SplitJoin(ps[1..], sep);
      assert [ps[0]] + ps[1..] == ps;
    }
  }

  /** The first piece of the split of a join is the first joined piece. */
  lemma SplitJoinFirst(ps: seq<string>, sep: string)
    requires |sep| > 0 && |ps| >= 2 && CutsLeftmost(ps, sep)
    ensures Split(Join(ps, sep), sep) == [ps[0]] + Split(Join(ps[1..], sep), sep)
  {
    var s := Join(ps, sep);
    var n := |ps[0]|;
    FirstCut(ps, sep);
    SplitStep(s, sep, n);
    assert s[..n] == ps[0] && s[n + |sep|..] == Join(ps[1..], sep);
  }

  /** The first separator of a join is the one after the first piece. */
  lemma FirstCut(ps: seq<string>, sep: string)
    requires |sep| > 0 && |ps| >= 2 && CutsLeftmost(ps, sep)
    ensures Join(ps, sep) == ps[0] + sep + Join(ps[1..], sep)
    ensures IndexFrom(Join(ps, sep), sep, 0) == Some(|ps[0]|)
  {
    var s := Join(ps, sep);
    var n := |ps[0]|;
    assert s == ps[0] + sep + Join(ps[1..], sep);
    assert s[..n + |sep|] == ps[0] + sep;
    assert OccursAt(s, sep, n);
    forall j | 0 <= j < n ensures !OccursAt(s, sep, j) {
      if OccursAt(s, sep, j) {
        OccursInPrefixOf(s, sep, n + |sep|, j);
      }
    }
  }

  lemma CutsLeftmostTail(ps: seq<string>, sep: string)
    requires |ps| >= 1 && CutsLeftmost(ps, sep)
    ensures CutsLeftmost(ps[1..], sep)
  {
    forall k, j | 0 <= k < |ps[1..]| - 1 && 0 <= j < |ps[1..][k]|
      ensures !OccursAt(ps[1..][k] + sep, sep, j)
    {
      assert ps[1..][k] == ps[k + 1];
    }
  }

  /** One step of `Split`: the piece before the first separator, then the split of the rest. */
  lemma SplitStep(s: string, sep: string, x: nat)
    requires |sep| > 0 && IndexFrom(s, sep, 0) == Some(x)
    ensures Split(s, sep) == [s[..x]] + Split(s[x + |sep|..], sep)
  {
  }

  lemma SplitWhole(s: string, sep: string)
    requires |sep| > 0 && IndexFrom(s, sep, 0) == None
    ensures Split(s, sep) == [s]
  {
  }

  /** End of the maximal run of ASCII digits that starts at `i`. */
  function DigitsEnd(s: string, i: nat): (e: nat)
    requires i <= |s|
    ensures i <= e <= |s|
    ensures forall k :: i <= k < e ==> IsDigit(s[k])
    ensures e == |s| || !IsDigit(s[e])
    decreases |s| - i
  {
    if i < |s| && IsDigit(s[i]) then DigitsEnd(s, i + 1) else i
  }

  /** A digit run that is not followed by a digit is where `DigitsEnd` stops. */
  lemma DigitsEndOf(s: string, i: nat, x: string)
    requires OccursAt(s, x, i) && AllDigits(x)
    requires i + |x| == |s| || !IsDigit(s[i + |x|])
    ensures DigitsEnd(s, i) == i + |x|
  {
    assert forall k :: i <= k < i + |x| ==> s[k] == x[k - i];
  }

  /** End of the maximal run of white space that starts at `i`. */
  function SpacesEnd(s: string, i: nat): (e: nat)
    requires i <= |s|
    ensures i <= e <= |s|
    ensures forall k :: i <= k < e ==> IsWhiteSpace(s[k])
    ensures e == |s| || !IsWhiteSpace(s[e])
    decreases |s| - i
  {
    if i < |s| && IsWhiteSpace(s[i]) then SpacesEnd(s, i + 1) else i
  }

  /** End of the maximal run of non-white-space characters that starts at `i`. */
  function WordEnd(s: string, i: nat): (e: nat)
    requires i <= |s|
    ensures i <= e <= |s|
    ensures forall k :: i <= k < e ==> !IsWhiteSpace(s[k])
    ensures e == |s| || IsWhiteSpace(s[e])
    decreases |s| - i
  {
    if i < |s| && !IsWhiteSpace(s[i]) then WordEnd(s, i + 1) else i
  }

  function TrimStart(s: string): (r: string)
    ensures |r| <= |s| && r == s[|s| - |r|..]
    ensures forall k :: 0 <= k < |s| - |r| ==> IsJsSpace(s[k])
    ensures r == [] || !IsJsSpace(r[0])
  {
    if |s| > 0 && IsJsSpace(s[0]) then TrimStart(s[1..]) else s
  }

  function TrimEnd(s: string): (r: string)
    ensures |r| <= |s| && r == s[..|r|]
    ensures forall k :: |r| <= k < |s| ==> IsJsSpace(s[k])
    ensures r == [] || !IsJsSpace(r[|r| - 1])
  {
    if |s| > 0 && IsJsSpace(s[|s| - 1]) then TrimEnd(s[..|s| - 1]) else s
  }

  /** JavaScript `trim()`. */
  function Trim(s: string): string
  {
    TrimEnd(TrimStart(s))
  }

  /** What `trim()` returns is its input less a run of space at each end, and what is
      left neither starts nor ends with space. */
  lemma TrimIsTrimmed(s: string)
    ensures exists i :: OccursAt(s, Trim(s), i) && (forall k :: 0 <= k < i ==> IsJsSpace(s[k]))
                        && (forall k :: i + |Trim(s)| <= k < |s| ==> IsJsSpace(s[k]))
    ensures Contains(s, Trim(s))
    ensures Trim(s) == [] || (!IsJsSpace(Trim(s)[0]) && !IsJsSpace(Trim(s)[|Trim(s)| - 1]))
  {
    TrimEnds(s);
    var a := TrimStart(s);
    var r := TrimEnd(a);
    assert Trim(s) == r;
    var i := |s| - |a|;
    assert a == s[i..] && r == a[..|r|];
    SliceOfSlice(s, i, |r|);
    assert OccursAt(s, r, i);
    assert forall k :: i + |r| <= k < |s| ==> s[k] == a[k - i];
    OccursAtContains(s, r, i);
  }

  lemma TrimEnds(s: string)
    ensures Trim(s) == [] || (!IsJsSpace(Trim(s)[0]) && !IsJsSpace(Trim(s)[|Trim(s)| - 1]))
  {
    var a := TrimStart(s);
    var r := TrimEnd(a);
    if r != [] {
      assert r[0] == a[0];
    }
  }

  /** Neither end of the text is JavaScript white space: what `trim()` leaves. */
  predicate NoSpaceAtEnds(t: string)
  {
    t == [] || (!IsJsSpace(t[0]) && !IsJsSpace(t[|t| - 1]))
  }

  /** A trimmed text with a line feed added at either end trims back to itself. */
  lemma TrimPadded(lead: string, t: string, trail: string)
    requires lead == "" || lead == "\n"
    requires trail == "" || trail == "\n"
    requires NoSpaceAtEnds(t)
    ensures Trim(lead + t + trail) == t
  {
    var y := t + trail;
    assert lead + t + trail == lead + y;
    TrimLead(lead, y);
    if t == [] {
      TrimPaddedEmpty(trail);
    } else {
      TrimPaddedWord(t, trail);
    }
  }

  lemma TrimLead(lead: string, y: string)
    requires lead == "" || lead == "\n"
    ensures TrimStart(lead + y) == TrimStart(y)
  {
    if lead == "\n" {
      TrimStartSpace('\n', y);
    } else {
      assert lead + y == y;
    }
  }

  lemma TrimPaddedEmpty(trail: string)
    requires trail == "" || trail == "\n"
    ensures TrimEnd(TrimStart([] + trail)) == []
  {
    assert [] + trail == trail;
    if trail == "\n" {
      TrimStartSpace('\n', []);
      assert [] + trail == ['\n'] + [];
    }
  }

  lemma TrimPaddedWord(t: string, trail: string)
    requires trail == "" || trail == "\n"
    requires t != [] && NoSpaceAtEnds(t)
    ensures TrimEnd(TrimStart(t + trail)) == t
  {
    assert (t + trail)[0] == t[0];
    assert TrimStart(t + trail) == t + trail;
    if trail == "\n" {
      TrimEndSpace(t, '\n');
    } else {
      assert t + trail == t;
    }
  }

  lemma TrimStartSpace(c: char, y: string)
    requires IsJsSpace(c)
    ensures TrimStart([c] + y) == TrimStart(y)
  {
    assert ([c] + y)[1..] == y;
  }

  lemma TrimEndSpace(y: string, c: char)
    requires IsJsSpace(c)
    ensures TrimEnd(y + [c]) == TrimEnd(y)
  {
    assert (y + [c])[..|y|] == y;
  }

  lemma SliceOfSlice<T>(s: seq<T>, i: nat, n: nat)
    requires i + n <= |s|
    ensures s[i..][..n] == s[i..i + n]
  {
  }

  lemma TrimIdempotent(s: string)
    ensures Trim(Trim(s)) == Trim(s)
  {
    TrimIsTrimmed(s);
    var r := Trim(s);
    if r != [] {
      assert TrimStart(r) == r;
      assert TrimEnd(r) == r;
    }
  }

  function DigitChar(d: nat): (c: char)
    requires d < 10
    ensures IsDigit(c)
  {
    ('0' as int + d) as char
  }

  function DigitValue(c: char): (d: nat)
    requires IsDigit(c)
    ensures d < 10 && DigitChar(d) == c
  {
    c as int - '0' as int
  }

  /** The number a run of ASCII decimal digits denotes (leading zeros allowed). */
  function DecimalValue(s: string): nat
    requires AllDigits(s)
  {
    if s == [] then 0 else 10 * DecimalValue(s[..|s| - 1]) + DigitValue(s[|s| - 1])
  }

  /** Rust's `{}` / JavaScript's `String(n)` for a natural number: shortest decimal form. */
  function DecimalString(n: nat): (s: string)
    ensures |s| >= 1 && AllDigits(s)
    ensures DecimalValue(s) == n
    ensures |s| > 1 ==> s[0] != '0'
  {
    if n < 10 then [DigitChar(n)]
    else
      var p := DecimalString(n / 10);
      var s := p + [DigitChar(n % 10)];
      assert s[..|s| - 1] == p;
      s
  }

  const U32_MAX: nat := 0xFFFF_FFFF

  /** Rust `str::parse::<u32>()` applied to a run of ASCII digits: fails only on overflow. */
  function ParseU32(digits: string): (r: Option<nat>)
    requires AllDigits(digits) && |digits| > 0
    ensures r.Some? <==> DecimalValue(digits) <= U32_MAX
    ensures r.Some? ==> r.value == DecimalValue(digits)
  {
    var n := DecimalValue(digits);
    if n <= U32_MAX then Some(n) else None
  }

  /** The shortest decimal form of a number reads back as that number while it fits in
      `u32`, and as an overflow past it. */
  lemma ParseU32OfDecimal(n: nat)
    ensures ParseU32(DecimalString(n)) == if n <= U32_MAX then Some(n) else None
  {
  }

  /** Leading zeros do not change what a digit run parses to. */
  lemma ParseU32LeadingZero(digits: string)
    requires AllDigits(digits) && |digits| > 0
    ensures ParseU32("0" + digits) == ParseU32(digits)
  {
    DecimalValueLeadingZero(digits);
  }

  lemma {:induction false} DecimalValueLeadingZero(digits: string)
    requires AllDigits(digits)
    ensures AllDigits("0" + digits) && DecimalValue("0" + digits) == DecimalValue(digits)
    decreases |digits|
  {
    var z := "0" + digits;
    if digits != [] {
      var d := digits[..|digits| - 1];
      assert z[..|z| - 1] == "0" + d;
      DecimalValueLeadingZero(d);
    } else {
      assert DecimalValue(z) == 10 * DecimalValue(z[..0]) + DigitValue('0');
    }
  }

  /** Lower-cases ASCII letters and leaves every other character alone. */
  function AsciiLower(c: char): char
  {
    if 'A' <= c <= 'Z' then (c as int + 32) as char else c
  }

  function AsciiUpper(c: char): char
  {
    if 'a' <= c <= 'z' then (c as int - 32) as char else c
  }
}
