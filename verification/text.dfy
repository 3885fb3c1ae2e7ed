/** String helpers with the JavaScript semantics the UI code relies on.
    Case mapping is restricted to ASCII letters; whitespace is the set that
    JavaScript's `\s` and `String.prototype.trim` both use. */
module Text {

  /** JavaScript WhiteSpace and LineTerminator code points. */
  predicate IsSpace(c: char) {
    var n := c as int;
    n == 0x09 || n == 0x0A || n == 0x0B || n == 0x0C || n == 0x0D || n == 0x20
    || n == 0xA0 || n == 0x1680 || (0x2000 <= n <= 0x200A) || n == 0x2028
    || n == 0x2029 || n == 0x202F || n == 0x205F || n == 0x3000 || n == 0xFEFF
  }

  predicate NoSpace(s: string) {
    forall i :: 0 <= i < |s| ==> !IsSpace(s[i])
  }

  predicate IsDigit(c: char) { '0' <= c <= '9' }

  predicate AllDigits(s: string) {
    forall i :: 0 <= i < |s| ==> IsDigit(s[i])
  }

  function UpperChar(c: char): char {
    if 'a' <= c <= 'z' then (c as int - 32) as char else c
  }

  function LowerChar(c: char): char {
    if 'A' <= c <= 'Z' then (c as int + 32) as char else c
  }

  /** `s.toUpperCase()` on ASCII letters. */
  function Upper(s: string): (r: string)
    ensures |r| == |s|
    ensures forall i :: 0 <= i < |s| ==> r[i] == UpperChar(s[i])
  {
    seq(|s|, i requires 0 <= i < |s| => UpperChar(s[i]))
  }

  /** `s.toLowerCase()` on ASCII letters. */
  function Lower(s: string): (r: string)
    ensures |r| == |s|
    ensures forall i :: 0 <= i < |s| ==> r[i] == LowerChar(s[i])
  {
    seq(|s|, i requires 0 <= i < |s| => LowerChar(s[i]))
  }

  lemma UpperIdempotent(s: string)
    ensures Upper(Upper(s)) == Upper(s)
  {
  }

  lemma LowerOfUpper(s: string)
    ensures Lower(Upper(s)) == Lower(s)
  {
  }

  lemma LowerOfLower(s: string)
    ensures Lower(Lower(s)) == Lower(s)
  {
  }

  lemma UpperOfLower(s: string)
    ensures Upper(Lower(s)) == Upper(s)
  {
  }

  /** `a || b` on strings: the first unless it is empty. */
  function Or(a: string, b: string): (r: string)
    ensures r == a || r == b
    ensures r == "" <==> a == "" && b == ""
    ensures a != "" ==> r == a
  {
    if a != "" then a else b
  }

  predicate StartsWith(s: string, prefix: string) {
    |prefix| <= |s| && s[..|prefix|] == prefix
  }

  /** Leading whitespace removed. */
  function TrimStart(s: string): (r: string)
    ensures |r| <= |s|
    ensures r == s[|s| - |r|..]
    ensures r == [] || !IsSpace(r[0])
    ensures forall i :: 0 <= i < |s| - |r| ==> IsSpace(s[i])
  {
    if |s| > 0 && IsSpace(s[0]) then TrimStart(s[1..]) else s
  }

  /** Trailing whitespace removed. */
  function TrimEnd(s: string): (r: string)
    ensures |r| <= |s|
    ensures r == s[..|r|]
    ensures r == [] || !IsSpace(r[|r| - 1])
    ensures forall i :: |r| <= i < |s| ==> IsSpace(s[i])
  {
    if |s| > 0 && IsSpace(s[|s| - 1]) then TrimEnd(s[..|s| - 1]) else s
  }

  /** `s.trim()`. */
  function Trim(s: string): (r: string)
  {
    TrimEnd(TrimStart(s))
  }

  /** The trimmed string neither starts nor ends with whitespace, and it is a
      contiguous piece of the input surrounded only by whitespace. */
  lemma TrimShape(s: string)
    ensures Trim(s) == [] || (!IsSpace(Trim(s)[0]) && !IsSpace(Trim(s)[|Trim(s)| - 1]))
    ensures var k := |s| - |TrimStart(s)|; k + |Trim(s)| <= |s| && Trim(s) == s[k..k + |Trim(s)|]
  {
    TrimEnds(s);
    TrimSlice(s);
  }

  lemma TrimEnds(s: string)
    ensures Trim(s) == [] || (!IsSpace(Trim(s)[0]) && !IsSpace(Trim(s)[|Trim(s)| - 1]))
  {
    var t0 := TrimStart(s);
    var t := TrimEnd(t0);
    if t != [] {
      assert t == t0[..|t|];
      assert t[0] == t0[0];
    }
  }

  lemma TrimSlice(s: string)
    ensures var k := |s| - |TrimStart(s)|; k + |Trim(s)| <= |s| && Trim(s) == s[k..k + |Trim(s)|]
  {
    var t0 := TrimStart(s);
    var k := |s| - |t0|;
    SliceOfSlice(s, k, |TrimEnd(t0)|);
  }

  lemma SliceOfSlice<T>(s: seq<T>, k: nat, n: nat)
    requires k + n <= |s|
    ensures s[k..][..n] == s[k..k + n]
  {
  }

  lemma TrimIdempotent(s: string)
    ensures Trim(Trim(s)) == Trim(s)
  {
    var t := Trim(s);
    TrimShape(s);
    if t != [] {
      assert TrimStart(t) == t;
      assert TrimEnd(t) == t;
    }
  }

  /** `s.replace(/\s+/g, '')`: every whitespace character dropped. */
  function StripSpaces(s: string): (r: string)
    ensures NoSpace(r)
    ensures |r| <= |s|
    ensures NoSpace(s) ==> r == s
  {
    if |s| == 0 then []
    else if IsSpace(s[0]) then StripSpaces(s[1..])
    else [s[0]] + StripSpaces(s[1..])
  }

  /** Trimming a string without whitespace changes nothing. */
  lemma TrimNoSpace(s: string)
    requires NoSpace(s)
    ensures Trim(s) == s
  {
    assert TrimStart(s) == s;
    assert TrimEnd(s) == s;
  }

  /** `s.replace(/\D/g, '')`: only the ASCII digits kept, in order. */
  function Digits(s: string): (r: string)
    ensures AllDigits(r)
    ensures |r| <= |s|
    ensures AllDigits(s) ==> r == s
  {
    if |s| == 0 then []
    else if IsDigit(s[0]) then [s[0]] + Digits(s[1..])
    else Digits(s[1..])
  }

  // ---- the amount formatter's `replace(/\.?0+$/, "")` -----------------------

  /** A text the pattern `\.?0+` matches whole: an optional dot, then at
      least one zero. */
  predicate ZeroTail(t: string) {
    |t| >= 1 && (t[0] == '0' || (t[0] == '.' && |t| >= 2))
    && forall k :: 1 <= k < |t| ==> t[k] == '0'
  }

  /** How many zeros `s` ends with. */
  function TrailingZeros(s: string): (z: nat)
    ensures z <= |s|
    ensures forall k :: |s| - z <= k < |s| ==> s[k] == '0'
    ensures z < |s| ==> s[|s| - z - 1] != '0'
  {
    if |s| == 0 || s[|s| - 1] != '0' then 0 else TrailingZeros(s[..|s| - 1]) + 1
  }

  /** `s.replace(/\.?0+$/, "")`: the trailing zeros removed, with the dot
      just before them when there is one. The removed tail is the match
      that starts leftmost, as the regular expression engine picks it. */
  function StripZeros(s: string): (r: string)
    ensures |r| <= |s| && r == s[..|r|]
    ensures r != s ==> ZeroTail(s[|r|..])
    ensures forall j :: 0 <= j < |r| ==> !ZeroTail(s[j..])
  {
    var z := TrailingZeros(s);
    if z == 0 then
      NoZeroTail(s, |s|);
      s
    else if z < |s| && s[|s| - z - 1] == '.' then
      var r := s[..|s| - z - 1];
      assert ZeroTail(s[|r|..]);
      NoZeroTail(s, |r|);
      r
    else
      var r := s[..|s| - z];
      assert ZeroTail(s[|r|..]);
      NoZeroTail(s, |r|);
      r
  }

  /** On a rendering "whole.fraction" only the fraction's zeros (and the
      dot) can go: the whole part, "0" and "100" included, is kept. */
  lemma StripZerosKeepsWhole(whole: string, fraction: string)
    requires AllDigits(whole) && AllDigits(fraction)
    ensures var r := StripZeros(whole + "." + fraction);
      |whole| <= |r| && r[..|whole|] == whole
  {
    var s := whole + "." + fraction;
    assert s[|whole|] == '.';
    var r := StripZeros(s);
    if |r| < |whole| {
      assert false;
    }
  }

  /** No tail starting before `n` matches, when the character just before
      `n` is neither a zero nor (unless it starts the tail) a dot. */
  lemma NoZeroTail(s: string, n: nat)
    requires n <= |s|
    requires (n == |s| - TrailingZeros(s) && (TrailingZeros(s) == 0 || n == 0 || s[n - 1] != '.'))
          || (n < |s| && s[n] == '.' && n + 1 + TrailingZeros(s) == |s|)
    ensures forall j :: 0 <= j < n ==> !ZeroTail(s[j..])
  {
    var z := TrailingZeros(s);
    forall j | 0 <= j < n ensures !ZeroTail(s[j..]) {
      var t := s[j..];
      if n == |s| - z {
        // s[n - 1] is not a zero; it is the tail's last character or an
        // inner one, or its first when it is not a dot either.
        assert t[n - 1 - j] == s[n - 1] != '0';
        if n - 1 - j == 0 && s[n - 1] == '.' {
          assert |t| == 1;
        }
      } else {
        assert t[n - j] == '.';
      }
    }
  }

  /** Position of the first `c` in `s`, or |s| when there is none. */
  function IndexOf(s: string, c: char): (k: nat)
    ensures k <= |s|
    ensures forall i :: 0 <= i < k ==> s[i] != c
    ensures k < |s| ==> s[k] == c
  {
    if |s| == 0 then 0
    else if s[0] == c then 0
    else 1 + IndexOf(s[1..], c)
  }

  lemma NoSpaceConcat(a: string, b: string)
    ensures NoSpace(a + b) <==> NoSpace(a) && NoSpace(b)
  {
    if NoSpace(a) && NoSpace(b) {
      forall i | 0 <= i < |a + b| ensures !IsSpace((a + b)[i]) {
        if i >= |a| { assert (a + b)[i] == b[i - |a|]; }
      }
    }
    if NoSpace(a + b) {
      forall i | 0 <= i < |a| ensures !IsSpace(a[i]) {
        assert (a + b)[i] == a[i];
      }
      forall i | 0 <= i < |b| ensures !IsSpace(b[i]) {
        assert (a + b)[|a| + i] == b[i];
      }
    }
  }

  /** The first `c` in `a + [c] + b`, when `a` has none, is right after `a`. */
  lemma IndexOfAfter(a: string, c: char, b: string)
    requires c !in a
    ensures IndexOf(a + [c] + b, c) == |a|
  {
    var s := a + [c] + b;
    assert s[|a|] == c;
  }

  /** `s.split(sep)` for a one-character separator: never empty, and no
      piece contains the separator. */
  function Split(s: string, sep: char): (parts: seq<string>)
    ensures |parts| >= 1
    ensures forall p :: p in parts ==> sep !in p
    decreases |s|
  {
    var k := IndexOf(s, sep);
    if k == |s| then [s] else [s[..k]] + Split(s[k + 1..], sep)
  }

  /** `parts.join(sep)`. */
  function Join(parts: seq<string>, sep: string): string
  {
    if |parts| == 0 then []
    else if |parts| == 1 then parts[0]
    else parts[0] + sep + Join(parts[1..], sep)
  }

  /** Splitting on a character and joining with it again gives back the input. */
  lemma {:induction false} JoinSplit(s: string, sep: char)
    ensures Join(Split(s, sep), [sep]) == s
    decreases |s|
  {
    var k := IndexOf(s, sep);
    if k < |s| {
      var parts, rest := Split(s, sep), Split(s[k + 1..], sep);
      assert parts == [s[..k]] + rest;
      assert parts[0] == s[..k] && parts[1..] == rest;
      JoinSplit(s[k + 1..], sep);
      assert Join(parts, [sep]) == s[..k] + [sep] + s[k + 1..];
      assert s == s[..k] + [sep] + s[k + 1..];
    } else {
      assert Split(s, sep) == [s];
    }
  }

  /** A string without the separator splits into itself alone. */
  lemma SplitNoSep(a: string, sep: char)
    requires sep !in a
    ensures Split(a, sep) == [a]
  {
  }

  /** The first separator ends the first piece. */
  lemma SplitConcat(a: string, sep: char, b: string)
    requires sep !in a
    ensures Split(a + [sep] + b, sep) == [a] + Split(b, sep)
  {
    var s := a + [sep] + b;
    var k := IndexOf(s, sep);
    assert s[|a|] == sep;
    assert k == |a|;
    assert s[..k] == a && s[k + 1..] == b;
  }

  /** Two separator-free strings around one separator split into exactly those two. */
  lemma SplitTwo(a: string, sep: char, b: string)
    requires sep !in a && sep !in b
    ensures Split(a + [sep] + b, sep) == [a, b]
  {
    SplitConcat(a, sep, b);
    SplitNoSep(b, sep);
  }

  /** A last separator-free piece after a separator becomes the last piece. */
  lemma {:induction false} SplitAppendPiece(a: string, sep: char, x: string)
    requires sep !in x
    ensures Split(a + [sep] + x, sep) == Split(a, sep) + [x]
    decreases |a|
  {
    var k := IndexOf(a, sep);
    if k == |a| {
      SplitConcat(a, sep, x);
      SplitNoSep(x, sep);
    } else {
      var a1, a2 := a[..k], a[k + 1..];
      assert a == a1 + [sep] + a2;
      assert sep !in a1;
      assert a + [sep] + x == a1 + [sep] + (a2 + [sep] + x);
      calc {
        Split(a + [sep] + x, sep);
        { SplitConcat(a1, sep, a2 + [sep] + x); }
        [a1] + Split(a2 + [sep] + x, sep);
        { SplitAppendPiece(a2, sep, x); }
        [a1] + (Split(a2, sep) + [x]);
        { SplitConcat(a1, sep, a2); }
        Split(a, sep) + [x];
      }
    }
  }

  /** Joining separator-free pieces and splitting again gives the pieces back. */
  lemma {:induction false} SplitJoin(parts: seq<string>, sep: char)
    requires |parts| >= 1
    requires forall i :: 0 <= i < |parts| ==> sep !in parts[i]
    ensures Split(Join(parts, [sep]), sep) == parts
    decreases |parts|
  {
    if |parts| == 1 {
      SplitNoSep(parts[0], sep);
    } else {
      SplitJoin(parts[1..], sep);
      SplitConcat(parts[0], sep, Join(parts[1..], [sep]));
      assert parts == [parts[0]] + parts[1..];
    }
  }

  /** Joining one more piece appends the separator and that piece. */
  lemma {:induction false} JoinSnoc(parts: seq<string>, sep: string, x: string)
    requires |parts| >= 1
    ensures Join(parts + [x], sep) == Join(parts, sep) + sep + x
    decreases |parts|
  {
    if |parts| > 1 {
      JoinSnoc(parts[1..], sep, x);
      assert (parts + [x])[1..] == parts[1..] + [x];
    }
  }

  /** A character absent from every piece and from the separator is absent from the join. */
  lemma {:induction false} JoinAvoids(parts: seq<string>, sep: string, c: char)
    requires c !in sep
    requires forall i :: 0 <= i < |parts| ==> c !in parts[i]
    ensures c !in Join(parts, sep)
    decreases |parts|
  {
    if |parts| > 1 {
      JoinAvoids(parts[1..], sep, c);
    }
  }

  /** Element `i` of `s.split(sep)`, or "" when there are fewer pieces
      (the source's `s.split(sep)[i] || ''`). */
  function SplitPart(s: string, sep: char, i: nat): string
  {
    var parts := Split(s, sep);
    if i < |parts| then parts[i] else ""
  }

  /** Decimal rendering of a natural number (`String(n)`). */
  function NatToString(n: nat): (r: string)
    ensures |r| >= 1
    ensures AllDigits(r)
    decreases n
  {
    var d := ['0' + (n % 10) as char];
    if n < 10 then d else NatToString(n / 10) + d
  }

  /** Decimal rendering of an integer. */
  function IntToString(n: int): (r: string)
    ensures |r| >= 1
  {
    if n < 0 then "-" + NatToString(-n) else NatToString(n)
  }
}
