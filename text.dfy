/** Character classes and string operations of the JavaScript runtime that the
    support backend relies on: `\s`/`trim`, ASCII case mapping, `includes`,
    `join`, `Number.prototype.toString`, `slice(-k)` and `toFixed(1)`.
    Strings are sequences of Unicode scalar values. */
module Text {

  /** The characters JavaScript's `\s` matches and `String.prototype.trim`
      removes: the WhiteSpace and LineTerminator productions of ECMAScript. */
  predicate IsJsSpace(c: char) {
    || c == ' ' || c == '\t' || c == '\n' || c == '\U{B}' || c == '\U{C}' || c == '\r'
    || c == '\U{A0}' || c == '\U{1680}' || ('\U{2000}' <= c <= '\U{200A}')
    || c == '\U{2028}' || c == '\U{2029}' || c == '\U{202F}' || c == '\U{205F}'
    || c == '\U{3000}' || c == '\U{FEFF}'
  }

  /** The characters the regular-expression `.` refuses (no `s` flag). */
  predicate IsLineTerminator(c: char) {
    c == '\n' || c == '\r' || c == '\U{2028}' || c == '\U{2029}'
  }

  predicate NotLineTerminator(c: char) {
    !IsLineTerminator(c)
  }

  /** `\d` */
  predicate IsAsciiDigit(c: char) {
    '0' <= c <= '9'
  }

  predicate IsAsciiUpper(c: char) {
    'A' <= c <= 'Z'
  }

  predicate IsAsciiLower(c: char) {
    'a' <= c <= 'z'
  }

  /** `\w` (no `u` flag): ASCII letters, digits and underscore. */
  predicate IsWordChar(c: char) {
    IsAsciiUpper(c) || IsAsciiLower(c) || IsAsciiDigit(c) || c == '_'
  }

  function UpperChar(c: char): char {
    if IsAsciiLower(c) then (c as int - 'a' as int + 'A' as int) as char else c
  }

  function LowerChar(c: char): char {
    if IsAsciiUpper(c) then (c as int - 'A' as int + 'a' as int) as char else c
  }

  /** `toUpperCase`, restricted to the ASCII letters. */
  function ToUpper(s: string): (r: string)
    ensures |r| == |s|
  {
    seq(|s|, i requires 0 <= i < |s| => UpperChar(s[i]))
  }

  /** Upper-casing works character by character. */
  lemma ToUpperAppend(x: string, y: string)
    ensures ToUpper(x + y) == ToUpper(x) + ToUpper(y)
  {
    assert forall k :: 0 <= k < |x + y| ==> ToUpper(x + y)[k] == (ToUpper(x) + ToUpper(y))[k];
  }

  /** `toLowerCase`, restricted to the ASCII letters. */
  function ToLower(s: string): (r: string)
    ensures |r| == |s|
  {
    seq(|s|, i requires 0 <= i < |s| => LowerChar(s[i]))
  }

  /** End of the longest run of characters satisfying `p` that starts at `i`. */
  function RunEnd(s: string, i: nat, p: char -> bool): (j: nat)
    requires i <= |s|
    ensures i <= j <= |s|
    ensures forall k :: i <= k < j ==> p(s[k])
    ensures j == |s| || !p(s[j])
    decreases |s| - i
  {
    if i < |s| && p(s[i]) then RunEnd(s, i + 1, p) else i
  }

  /** Start of the longest run of characters satisfying `p` that ends at `j`. */
  function RunStart(s: string, j: nat, p: char -> bool): (i: nat)
    requires j <= |s|
    ensures i <= j
    ensures forall k :: i <= k < j ==> p(s[k])
    ensures i == 0 || !p(s[i - 1])
  {
    if j > 0 && p(s[j - 1]) then RunStart(s, j - 1, p) else j
  }

  /** `String.prototype.trim` */
  function Trim(s: string): (r: string)
    ensures |r| <= |s|
    ensures r == [] <==> forall k :: 0 <= k < |s| ==> IsJsSpace(s[k])
    ensures r != [] ==> !IsJsSpace(r[0]) && !IsJsSpace(r[|r| - 1])
    ensures exists a: nat, b: nat :: TrimmedAt(s, r, a, b)
  {
    var a := RunEnd(s, 0, IsJsSpace);
    if a == |s| then
      assert TrimmedAt(s, [], |s|, |s|);
      []
    else
      var b := RunStart(s, |s|, IsJsSpace);
      assert TrimmedAt(s, s[a..b], a, b);
      s[a..b]
  }

  /** r is s[a..b], and everything of s outside a..b is whitespace. */
  predicate TrimmedAt(s: string, r: string, a: nat, b: nat) {
    a <= b <= |s| && r == s[a..b] && forall k :: 0 <= k < |s| && (k < a || b <= k) ==> IsJsSpace(s[k])
  }

  /** Trimming keeps only characters of its input. */
  lemma TrimKeeps(s: string, p: char -> bool)
    requires forall k :: 0 <= k < |s| ==> p(s[k])
    ensures forall k :: 0 <= k < |Trim(s)| ==> p(Trim(s)[k])
  {
    var a: nat, b: nat :| TrimmedAt(s, Trim(s), a, b);
    forall k | 0 <= k < |Trim(s)| ensures p(Trim(s)[k]) {
      assert Trim(s)[k] == s[a + k];
    }
  }

  /** A captured single-line group, trimmed: still one line, and unpadded. */
  function TrimmedLine(g: string): (r: string)
    requires forall k :: 0 <= k < |g| ==> NotLineTerminator(g[k])
    ensures forall k :: 0 <= k < |r| ==> NotLineTerminator(r[k])
    ensures r != [] ==> !IsJsSpace(r[0]) && !IsJsSpace(r[|r| - 1])
    ensures r == Trim(g)
  {
    TrimKeeps(g, NotLineTerminator);
    Trim(g)
  }

  /** A string that neither starts nor ends with whitespace is its own trim. */
  lemma TrimUnpadded(s: string)
    requires s == [] || (!IsJsSpace(s[0]) && !IsJsSpace(s[|s| - 1]))
    ensures Trim(s) == s
  {
  }

  /** `s.startsWith(prefix)` */
  predicate StartsWith(s: string, prefix: string) {
    |prefix| <= |s| && s[..|prefix|] == prefix
  }

  /** `sub` occurs in `s` starting at index i. */
  predicate OccursAt(s: string, sub: string, i: nat) {
    i + |sub| <= |s| && s[i..i + |sub|] == sub
  }

  /** `s.includes(sub)` */
  predicate Contains(s: string, sub: string) {
    exists i :: 0 <= i <= |s| && OccursAt(s, sub, i)
  }

  lemma SliceJoin<T>(s: seq<T>, i: nat, j: nat, k: nat)
    requires i <= j <= k <= |s|
    ensures s[i..j] + s[j..k] == s[i..k]
  {
  }

  /** Putting text in front keeps every occurrence, shifted. */
  lemma ContainsAfterPrefix(p: string, s: string, sub: string)
    requires Contains(s, sub)
    ensures Contains(p + s, sub)
  {
    var i :| 0 <= i <= |s| && OccursAt(s, sub, i);
    assert (p + s)[|p| + i..|p| + i + |sub|] == s[i..i + |sub|];
    assert OccursAt(p + s, sub, |p| + i);
  }

  /** Concatenation of a list of sequences (strings, or groups), in order. */
  function Concat<T>(xs: seq<seq<T>>): seq<T> {
    if xs == [] then [] else xs[0] + Concat(xs[1..])
  }

  lemma {:induction false} ConcatAppend<T>(xs: seq<seq<T>>, x: seq<T>)
    ensures Concat(xs + [x]) == Concat(xs) + x
  {
    if xs == [] {
      assert xs + [x] == [x];
    } else {
      assert (xs + [x])[1..] == xs[1..] + [x];
      ConcatAppend(xs[1..], x);
    }
  }

  lemma ConcatOne<T>(x: seq<T>)
    ensures Concat([x]) == x
  {
    assert [x][1..] == [];
  }

  lemma {:induction false} ConcatSplit<T>(xs: seq<seq<T>>, ys: seq<seq<T>>)
    ensures Concat(xs + ys) == Concat(xs) + Concat(ys)
  {
    if xs == [] {
      assert xs + ys == ys;
    } else {
      assert (xs + ys)[1..] == xs[1..] + ys;
      ConcatSplit(xs[1..], ys);
    }
  }

  /** `xs.join(sep)` */
  function Join(sep: string, xs: seq<string>): string {
    if xs == [] then []
    else if |xs| == 1 then xs[0]
    else xs[0] + sep + Join(sep, xs[1..])
  }

  /** Joining one more element appends the separator and that element. */
  lemma {:induction false} JoinAppend(sep: string, xs: seq<string>, x: string)
    ensures Join(sep, xs + [x]) == if xs == [] then x else Join(sep, xs) + sep + x
  {
    if xs == [] {
      assert xs + [x] == [x];
    } else if |xs| == 1 {
      assert (xs + [x])[1..] == [x];
    } else {
      assert (xs + [x])[1..] == xs[1..] + [x];
      JoinAppend(sep, xs[1..], x);
    }
  }

  function DigitChar(d: nat): char
    requires d < 10
  {
    ('0' as int + d) as char
  }

  function DigitValue(c: char): nat
    requires IsAsciiDigit(c)
  {
    c as int - '0' as int
  }

  predicate AllDigits(s: string) {
    forall k :: 0 <= k < |s| ==> IsAsciiDigit(s[k])
  }

  /** `n.toString()` for a non-negative integer. */
  function Decimal(n: nat): (r: string)
    ensures |r| >= 1 && AllDigits(r)
    ensures r[0] == '0' ==> n == 0
  {
    if n < 10 then [DigitChar(n)] else Decimal(n / 10) + [DigitChar(n % 10)]
  }

  /** The number a string of decimal digits denotes. */
  function DigitsValue(s: string): nat
    requires AllDigits(s)
  {
    if s == [] then 0 else DigitsValue(s[..|s| - 1]) * 10 + DigitValue(s[|s| - 1])
  }

  lemma {:induction false} DecimalRoundTrip(n: nat)
    ensures DigitsValue(Decimal(n)) == n
  {
    if n >= 10 {
      var d := Decimal(n / 10);
      assert (d + [DigitChar(n % 10)])[..|d|] == d;
      DecimalRoundTrip(n / 10);
    }
  }

  /** A number of at least 10^k has more than k decimal digits. */
  lemma {:induction false} DecimalLength(n: nat, k: nat)
    requires n >= Pow10(k)
    ensures |Decimal(n)| > k
    decreases k
  {
    if k > 0 {
      assert n >= 10 * Pow10(k - 1);
      assert n / 10 >= Pow10(k - 1);
      DecimalLength(n / 10, k - 1);
    }
  }

  function Pow10(k: nat): (r: nat)
    ensures r >= 1
  {
    if k == 0 then 1 else 10 * Pow10(k - 1)
  }

  /** `s.slice(-k)` for k >= 0: the last k characters, or all of s if shorter. */
  function SliceLast(s: string, k: nat): (r: string)
    ensures |r| == if |s| <= k then |s| else k
    ensures r == s[|s| - |r|..]
  {
    if |s| <= k then s else s[|s| - k..]
  }

  lemma MulAtLeast(d: int, e: int)
    requires d > 0 && e >= 1
    ensures d * e >= d
  {
  }

  /** Euclidean division is unique: n = d·a + c with 0 <= c < d fixes n % d. */
  lemma ModOfSum(n: int, d: int, a: int, c: int)
    requires d > 0 && 0 <= c < d && n == d * a + c
    ensures n % d == c
  {
    var q, r := n / d, n % d;
    assert d * q + r == d * a + c;
    if q > a {
      MulAtLeast(d, q - a);
      assert false;
    } else if q < a {
      MulAtLeast(d, a - q);
      assert false;
    }
  }

  lemma ShiftMod(n: nat, m: nat)
    requires m >= 1
    ensures (n / 10 % m) * 10 + n % 10 == n % (10 * m)
  {
    var q, r := n / 10, n % 10;
    var a, b := q / m, q % m;
    assert q == m * a + b;
    assert n == 10 * q + r;
    assert n == (10 * m) * a + (10 * b + r) by {
      assert 10 * q == 10 * (m * a) + 10 * b;
      assert 10 * (m * a) == (10 * m) * a;
    }
    assert 10 * b + r < 10 * m by {
      assert b <= m - 1;
      assert 10 * b <= 10 * m - 10;
    }
    ModOfSum(n, 10 * m, a, 10 * b + r);
  }

  lemma SliceLastSnoc(d: string, c: char, k: nat)
    requires k >= 1
    ensures SliceLast(d + [c], k) == SliceLast(d, k - 1) + [c]
  {
  }

  lemma DigitsValueSnoc(t: string, c: char)
    requires AllDigits(t) && IsAsciiDigit(c)
    ensures AllDigits(t + [c])
    ensures DigitsValue(t + [c]) == DigitsValue(t) * 10 + DigitValue(c)
  {
    assert (t + [c])[..|t|] == t;
  }

  /** The last k characters of `n.toString()` spell n modulo 10^k. */
  lemma SliceLastDecimal(n: nat, k: nat)
    ensures AllDigits(SliceLast(Decimal(n), k))
    ensures DigitsValue(SliceLast(Decimal(n), k)) == n % Pow10(k)
  {
    SliceLastSpells(n, k);
  }

  /** s is a string of digits denoting n modulo 10^k. */
  predicate SpellsMod(s: string, n: nat, k: nat) {
    AllDigits(s) && DigitsValue(s) == n % Pow10(k)
  }

  lemma {:induction false} SliceLastSpells(n: nat, k: nat)
    ensures SpellsMod(SliceLast(Decimal(n), k), n, k)
    decreases k, 1
  {
    if k == 0 {
      SliceLastNone(n);
    } else if n < 10 {
      SliceLastOneDigit(n, k);
    } else {
      SliceLastDecimalStep(n, k);
    }
  }

  lemma SliceLastNone(n: nat)
    ensures SpellsMod(SliceLast(Decimal(n), 0), n, 0)
  {
    assert SliceLast(Decimal(n), 0) == [];
    assert Pow10(0) == 1;
    assert n % 1 == 0;
  }

  lemma SliceLastOneDigit(n: nat, k: nat)
    requires n < 10 && k >= 1
    ensures SpellsMod(SliceLast(Decimal(n), k), n, k)
  {
    var d := Decimal(n);
    assert d == [DigitChar(n)];
    assert SliceLast(d, k) == d;
    assert DigitsValue(d) == n by {
      assert d[..0] == [];
    }
    Pow10AtLeast(k);
    ModOfSum(n, Pow10(k), 0, n);
  }

  /** One more digit on the right extends the slice by that digit. */
  lemma {:induction false} SliceLastDecimalStep(n: nat, k: nat)
    requires n >= 10 && k >= 1
    ensures SpellsMod(SliceLast(Decimal(n), k), n, k)
    decreases k, 0
  {
    var q := n / 10;
    SliceLastSpells(q, k - 1);
    var d, c := Decimal(q), DigitChar(n % 10);
    assert Decimal(n) == d + [c];
    var t := SliceLast(d, k - 1);
    SliceLastSnoc(d, c, k);
    assert SliceLast(Decimal(n), k) == t + [c];
    DigitsValueSnoc(t, c);
    var m := Pow10(k - 1);
    assert Pow10(k) == 10 * m;
    assert DigitsValue(t) == q % m;
    assert DigitsValue(t + [c]) == (q % m) * 10 + n % 10;
    ShiftMod(n, m);
  }

  lemma {:induction false} Pow10AtLeast(k: nat)
    requires k >= 1
    ensures Pow10(k) >= 10
  {
    if k > 1 {
      Pow10AtLeast(k - 1);
    }
  }

  /** The integer nearest to 10·x for x >= 0, ties going to the larger one. */
  function RoundTenths(x: real): (n: nat)
    requires x >= 0.0
    ensures n as real - 0.5 <= x * 10.0 < n as real + 0.5
  {
    (x * 10.0 + 0.5).Floor
  }

  /** `x.toFixed(1)` for |x| < 10^21: sign, integer part, one decimal. */
  function ToFixed1(x: real): (r: string)
    ensures |r| >= 3 && r[|r| - 2] == '.' && IsAsciiDigit(r[|r| - 1])
    ensures x < 0.0 <==> r[0] == '-'
    ensures x >= 0.0 ==> AllDigits(r[..|r| - 2])
  {
    var n := RoundTenths(if x < 0.0 then -x else x);
    var unsigned := Decimal(n / 10) + "." + [DigitChar(n % 10)];
    if x < 0.0 then "-" + unsigned else unsigned
  }
}
