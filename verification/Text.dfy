/** The JavaScript string operations the STOMP codec uses, on well-formed strings. */
module Text {
  import opened Wrappers

  /** `s` has no `c`. */
  predicate Lacks(s: string, c: char)
  {
    c !in s
  }

  /** String.prototype.split with a one-character separator. */
  function Split(s: string, sep: char): (pieces: seq<string>)
    ensures pieces != []
    ensures forall piece <- pieces :: Lacks(piece, sep)
  {
    if s == "" then [""]
    else
      var rest := Split(s[1..], sep);
      assert Lacks(rest[0], sep);
      if s[0] == sep then [""] + rest else [[s[0]] + rest[0]] + rest[1..]
  }

  /** Array.prototype.join with a one-character separator. */
  function Join(pieces: seq<string>, sep: char): string
  {
    if pieces == [] then ""
    else if |pieces| == 1 then pieces[0]
    else pieces[0] + [sep] + Join(pieces[1..], sep)
  }

  /** What \s matches. */
  predicate IsSpace(c: char)
  {
    || c == '\t' || c == '\n' || c == '\U{0B}' || c == '\U{0C}' || c == '\r' || c == ' '
    || c == '\U{A0}' || c == '\U{1680}' || '\U{2000}' <= c <= '\U{200A}' || c == '\U{2028}' || c == '\U{2029}'
    || c == '\U{202F}' || c == '\U{205F}' || c == '\U{3000}' || c == '\U{FEFF}'
  }

  /** The white space and line terminators of ECMAScript, by code point. */
  lemma SpacesByCodePoint(c: char)
    ensures IsSpace(c)
       <==> (c as int in {9, 10, 11, 12, 13, 32, 160, 0x1680, 0x2028, 0x2029, 0x202F, 0x205F, 0x3000, 0xFEFF}
             || 0x2000 <= c as int <= 0x200A)
  {}

  function StripStart(s: string): string
  {
    if s != "" && IsSpace(s[0]) then StripStart(s[1..]) else s
  }

  function StripEnd(s: string): string
  {
    if s != "" && IsSpace(Last(s)) then StripEnd(s[..|s| - 1]) else s
  }

  /** line.replace(/^\s+|\s+$/g, '') */
  function Strip(line: string): string
  {
    StripEnd(StripStart(line))
  }

  predicate NoOuterSpace(s: string)
  {
    s == "" || (!IsSpace(s[0]) && !IsSpace(Last(s)))
  }

  /** String.prototype.length: characters above U+FFFF are two UTF-16 units. */
  function Length(s: string): nat
  {
    if s == "" then 0 else (if s[0] as int < 0x1_0000 then 1 else 2) + Length(s[1..])
  }

  /** The UTF-16 code units of a string. */
  function Utf16(s: string): seq<nat>
  {
    if s == "" then []
    else
      var c := s[0] as int;
      (if c < 0x1_0000 then [c] else [0xD800 + (c - 0x1_0000) / 0x400, 0xDC00 + (c - 0x1_0000) % 0x400]) + Utf16(s[1..])
  }

  lemma {:induction false} LengthCountsUnits(s: string)
    ensures Length(s) == |Utf16(s)|
  {
    if s != "" {
      LengthCountsUnits(s[1..]);
    }
  }

  function Utf8Octets(s: string): nat
  {
    if s == "" then 0
    else
      var c := s[0] as int;
      (if c < 0x80 then 1 else if c < 0x800 then 2 else if c < 0x1_0000 then 3 else 4) + Utf8Octets(s[1..])
  }

  function Decimal(n: nat): string
  {
    (if n < 10 then "" else Decimal(n / 10)) + [(48 + n % 10) as char]
  }

  function ParseDecimal(s: string): int
  {
    if s == "" then 0 else 10 * ParseDecimal(s[..|s| - 1]) + (Last(s) as int - 48)
  }

  lemma {:induction false} SplitAtSeparator(a: string, b: string, sep: char)
    ensures Split(a + [sep] + b, sep) == Split(a, sep) + Split(b, sep)
    decreases |a|
  {
    var all := a + [sep] + b;
    if a == "" {
      assert all[1..] == b;
    } else {
      assert all[0] == a[0] && all[1..] == a[1..] + [sep] + b;
      SplitAtSeparator(a[1..], b, sep);
      var left, right := Split(a[1..], sep), Split(b, sep);
      if a[0] == sep {
        ConcatAssociates([""], left, right);
      } else {
        assert (left + right)[0] == left[0] && (left + right)[1..] == left[1..] + right;
        ConcatAssociates([[a[0]] + left[0]], left[1..], right);
      }
    }
  }

  lemma {:induction false} SplitWhole(s: string, sep: char)
    requires Lacks(s, sep)
    ensures Split(s, sep) == [s]
    decreases |s|
  {
    if s != "" {
      assert s[0] in s && forall c <- s[1..] :: c in s;
      SplitWhole(s[1..], sep);
      assert [s[0]] + s[1..] == s;
    }
  }

  /** Splitting undoes joining if and only if no piece has the separator. */
  lemma {:induction false} SplitJoin(pieces: seq<string>, sep: char)
    requires pieces != []
    ensures Split(Join(pieces, sep), sep) == pieces <==> forall piece <- pieces :: Lacks(piece, sep)
    decreases |pieces|
  {
    if forall piece <- pieces :: Lacks(piece, sep) {
      SplitWhole(pieces[0], sep);
      if |pieces| > 1 {
        SplitJoin(pieces[1..], sep);
        SplitAtSeparator(pieces[0], Join(pieces[1..], sep), sep);
      }
    }
  }

  /** Pieces are made of the characters of the string. */
  lemma {:induction false} SplitChars(s: string, sep: char, other: char)
    requires Lacks(s, other)
    ensures forall piece <- Split(s, sep) :: Lacks(piece, other)
    decreases |s|
  {
    if s != "" {
      assert s[0] in s && forall c <- s[1..] :: c in s;
      SplitChars(s[1..], sep, other);
      assert Lacks(Split(s[1..], sep)[0], other);
    }
  }

  lemma JoinAppend(pieces: seq<string>, last: string, sep: char)
    requires pieces != []
    ensures Join(pieces + [last], sep) == Join(pieces, sep) + [sep] + last
    decreases |pieces|
  {
    if |pieces| > 1 {
      JoinAppend(pieces[1..], last, sep);
      assert (pieces + [last])[1..] == pieces[1..] + [last];
    } else {
      assert (pieces + [last])[1..] == [last];
    }
  }

  lemma {:induction false} StripEndShape(s: string)
    ensures StripEnd(s) <= s
    ensures StripEnd(s) == "" || !IsSpace(Last(StripEnd(s)))
    decreases |s|
  {
    if s != "" && IsSpace(Last(s)) {
      StripEndShape(s[..|s| - 1]);
    }
  }

  lemma {:induction false} StripStartShape(s: string)
    ensures StripStart(s) == "" || !IsSpace(StripStart(s)[0])
    ensures forall c <- StripStart(s) :: c in s
    decreases |s|
  {
    if s != "" && IsSpace(s[0]) {
      StripStartShape(s[1..]);
    }
  }

  /** strip removes all outer white space, and changes nothing exactly where there is none. */
  lemma StripTrims(s: string)
    ensures NoOuterSpace(Strip(s))
    ensures Strip(s) == s <==> NoOuterSpace(s)
    ensures forall c <- Strip(s) :: c in s
  {
    StripStartShape(s);
    StripEndShape(StripStart(s));
    var stripped := Strip(s);
    if stripped != "" {
      assert stripped[0] == StripStart(s)[0];
    }
  }

  lemma {:induction false} DecimalDigits(n: nat)
    ensures forall c <- Decimal(n) :: '0' <= c <= '9'
  {
    if n >= 10 {
      DecimalDigits(n / 10);
    }
  }

  lemma {:induction false} DecimalRoundTrip(n: nat)
    ensures ParseDecimal(Decimal(n)) == n
  {
    var s := Decimal(n);
    if n >= 10 {
      DecimalRoundTrip(n / 10);
      assert s[..|s| - 1] == Decimal(n / 10);
    } else {
      assert s[..|s| - 1] == "";
    }
  }

  predicate IsAscii(s: string)
  {
    forall i | 0 <= i < |s| :: s[i] as int < 0x80
  }

  /** The length counts octets exactly where every character is ASCII. */
  lemma {:induction false} LengthIsOctetsForAscii(s: string)
    ensures Length(s) <= Utf8Octets(s)
    ensures Length(s) == Utf8Octets(s) <==> IsAscii(s)
  {
    if s != "" {
      LengthIsOctetsForAscii(s[1..]);
      assert forall i | 1 <= i < |s| :: s[i] == s[1..][i - 1];
    }
  }
}
