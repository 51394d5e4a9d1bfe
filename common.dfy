/** Small value-level vocabulary shared by the client model and the API model:
    optional values, the JavaScript whitespace class, decimal text, rounding-up
    division and substring tests. */
module Common {

  datatype Option<T> = None | Some(value: T) {
    function GetOr(default: T): T {
      if Some? then value else default
    }
  }

  /** The characters of `\s` in a JavaScript regular expression; the same set is
      what `String.prototype.trim` strips (WhiteSpace and LineTerminator). */
  predicate IsJsSpace(c: char) {
    || c == '\t' || c == '\n' || c == '\U{B}' || c == '\U{C}' || c == '\r'
    || c == ' ' || c == '\U{A0}' || c == '\U{1680}'
    || ('\U{2000}' <= c <= '\U{200A}')
    || c == '\U{2028}' || c == '\U{2029}' || c == '\U{202F}' || c == '\U{205F}'
    || c == '\U{3000}' || c == '\U{FEFF}'
  }

  /** `\d`: an ASCII decimal digit. */
  predicate IsDigit(c: char) {
    '0' <= c <= '9'
  }

  /** A string that `trim()` turns into the empty string. */
  predicate IsBlank(s: string) {
    forall i :: 0 <= i < |s| ==> IsJsSpace(s[i])
  }

  // ---------------------------------------------------------------------------
  // Counting the positions that satisfy a test

  /** The positions of `s` whose element passes `p`. */
  ghost function Positions<T>(s: seq<T>, p: T -> bool): set<int> {
    set i | 0 <= i < |s| && p(s[i])
  }

  lemma PositionsSnoc<T>(s: seq<T>, x: T, p: T -> bool)
    ensures |Positions(s + [x], p)| == |Positions(s, p)| + (if p(x) then 1 else 0)
  {
    var t := s + [x];
    assert forall i :: 0 <= i < |s| ==> t[i] == s[i];
    if p(x) {
      assert Positions(t, p) == Positions(s, p) + {|s|};
    } else {
      assert Positions(t, p) == Positions(s, p);
    }
  }

  /** How many elements of `s` pass `p`: `s.filter(p).length`. */
  function Count<T>(s: seq<T>, p: T -> bool): (n: nat)
    ensures n <= |s|
    ensures n == |Positions(s, p)|
    decreases |s|
  {
    if s == [] then 0
    else
      var init := s[..|s| - 1];
      assert s == init + [s[|s| - 1]];
      PositionsSnoc(init, s[|s| - 1], p);
      Count(init, p) + (if p(s[|s| - 1]) then 1 else 0)
  }

  // ---------------------------------------------------------------------------
  // Decimal text

  function DigitChar(d: nat): (c: char)
    requires d < 10
    ensures IsDigit(c) && c as int - '0' as int == d
  {
    ['0', '1', '2', '3', '4', '5', '6', '7', '8', '9'][d]
  }

  function DigitValue(c: char): nat
    requires IsDigit(c)
  {
    c as int - '0' as int
  }

  predicate AllDigits(s: string) {
    forall i :: 0 <= i < |s| ==> IsDigit(s[i])
  }

  /** The decimal rendering of a natural number, as JavaScript's `${n}` and
      Python's `str(n)` write it: no sign and no leading zeros. */
  function NatToString(n: nat): (s: string)
    ensures |s| > 0 && AllDigits(s)
    ensures |s| > 1 ==> s[0] != '0'
    decreases n
  {
    if n < 10 then [DigitChar(n)] else NatToString(n / 10) + [DigitChar(n % 10)]
  }

  /** The number a string of decimal digits denotes. */
  function DecimalValue(s: string): nat
    requires AllDigits(s)
    decreases |s|
  {
    if s == [] then 0 else DecimalValue(s[..|s| - 1]) * 10 + DigitValue(s[|s| - 1])
  }

  /** Integer parsing of query-string text as the handlers use it (`int(...)` in
      Python, or the database casting the text of an id): an optional sign
      followed by at least one ASCII digit. */
  function ParseInt(s: string): (r: Option<int>)
    ensures r.Some? ==> |s| > 0
    ensures AllDigits(s) && s != [] ==> r == Some(DecimalValue(s) as int)
    ensures r.Some? <==>
      || (s != [] && AllDigits(s))
      || (|s| > 1 && (s[0] == '-' || s[0] == '+') && AllDigits(s[1..]))
    ensures |s| > 1 && s[0] == '-' && AllDigits(s[1..]) ==> r == Some(-(DecimalValue(s[1..]) as int))
    ensures |s| > 1 && s[0] == '+' && AllDigits(s[1..]) ==> r == Some(DecimalValue(s[1..]) as int)
  {
    if |s| > 0 && (s[0] == '-' || s[0] == '+') then
      if |s| > 1 && AllDigits(s[1..]) then
        Some(if s[0] == '-' then -(DecimalValue(s[1..]) as int) else DecimalValue(s[1..]) as int)
      else None
    else if |s| > 0 && AllDigits(s) then Some(DecimalValue(s) as int)
    else None
  }

  lemma {:induction false} DecimalValueOfNatToString(n: nat)
    ensures DecimalValue(NatToString(n)) == n
    decreases n
  {
    if n >= 10 {
      var prefix := NatToString(n / 10);
      var s := prefix + [DigitChar(n % 10)];
      assert s[..|s| - 1] == prefix;
      DecimalValueOfNatToString(n / 10);
    }
  }

  /** Parsing undoes rendering: the id an URL carries is the id read back. */
  lemma ParseIntOfNatToString(n: nat)
    ensures ParseInt(NatToString(n)) == Some(n as int)
  {
    DecimalValueOfNatToString(n);
  }

  function Min(a: int, b: int): int {
    if a <= b then a else b
  }

  // ---------------------------------------------------------------------------
  // Rounding up

  /** `Math.ceil(n / d)` for a positive integer divisor, on exact integers. */
  function CeilDiv(n: int, d: int): (r: int)
    requires d > 0
    ensures d * (r - 1) < n <= d * r
  {
    var q := (-n) / d;
    var m := (-n) % d;
    assert -n == d * q + m && 0 <= m < d;
    assert d * (-q - 1) == -(d * q) - d;
    -q
  }

  /** The ceiling is determined by its defining inequality. */
  lemma CeilDivUnique(n: int, d: int, k: int)
    requires d > 0
    requires d * (k - 1) < n <= d * k
    ensures CeilDiv(n, d) == k
  {
    var r := CeilDiv(n, d);
    if r < k {
      assert d * r <= d * (k - 1) by { MulMonotone(d, r, k - 1); }
      assert false;
    } else if r > k {
      assert d * k <= d * (r - 1) by { MulMonotone(d, k, r - 1); }
      assert false;
    }
  }

  lemma MulMonotone(d: int, a: int, b: int)
    requires d > 0 && a <= b
    ensures d * a <= d * b
  {
    assert d * b - d * a == d * (b - a);
  }

  // ---------------------------------------------------------------------------
  // Prefixes and substrings

  predicate StartsWith(s: string, prefix: string) {
    |prefix| <= |s| && s[..|prefix|] == prefix
  }

  /** `sub` occurs in `s` at some position. */
  ghost predicate OccursAt(s: string, sub: string, i: int) {
    0 <= i && i + |sub| <= |s| && s[i..i + |sub|] == sub
  }

  /** `s.includes(sub)` in JavaScript, `sub in s` in Python. */
  function Contains(s: string, sub: string): bool
    decreases |s|
  {
    StartsWith(s, sub) || (|s| > |sub| && Contains(s[1..], sub))
  }

  /** The scan finds `sub` exactly when it occurs somewhere in `s`. */
  lemma {:induction false} ContainsIff(s: string, sub: string)
    ensures Contains(s, sub) <==> exists i :: OccursAt(s, sub, i)
    decreases |s|
  {
    if StartsWith(s, sub) {
      assert OccursAt(s, sub, 0);
    } else if |s| <= |sub| {
      forall i ensures !OccursAt(s, sub, i) {
        if 0 <= i && i + |sub| <= |s| {
          assert i == 0 && s[i..i + |sub|] == s[..|sub|];
        }
      }
    } else {
      ContainsIff(s[1..], sub);
      forall i | 1 <= i ensures OccursAt(s, sub, i) <==> OccursAt(s[1..], sub, i - 1) {
        if i + |sub| <= |s| {
          assert s[i..i + |sub|] == s[1..][i - 1..i - 1 + |sub|];
        }
      }
      if Contains(s[1..], sub) {
        var j :| OccursAt(s[1..], sub, j);
        assert OccursAt(s, sub, j + 1);
      } else {
        assert !OccursAt(s, sub, 0);
      }
    }
  }

  /** ASCII upper-case letters folded to lower case. */
  function LowerChar(c: char): char {
    if 'A' <= c <= 'Z' then (c as int - 'A' as int + 'a' as int) as char else c
  }

  /** `str.lower()` restricted to ASCII letters. */
  function Lower(s: string): (r: string)
    ensures |r| == |s|
    ensures forall i :: 0 <= i < |s| ==> r[i] == LowerChar(s[i])
  {
    seq(|s|, i requires 0 <= i < |s| => LowerChar(s[i]))
  }
}
