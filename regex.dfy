/** The regular expressions the agents apply to model replies and user messages,
    written as the scanners JavaScript's backtracking matcher amounts to:
    `String.prototype.match` without the `g` flag returns the leftmost match,
    trying start positions 0, 1, ..., |s| in turn. */
module Regex {
  import opened Text
  import opened Types

  /** `lit` matches at i under the `i` flag. Without the `u` flag the flag
      never folds a non-ASCII character onto an ASCII one; every literal matched
      case-insensitively here is ASCII, so comparing with the ASCII-only
      UpperChar is exact (see LiteralAtCIAscii). */
  predicate LiteralAtCI(s: string, i: nat, lit: string) {
    i + |lit| <= |s| && forall k :: 0 <= k < |lit| ==> UpperChar(s[i + k]) == UpperChar(lit[k])
  }

  /** An ASCII literal matches only ASCII text: no other character can be
      folded onto it. */
  lemma LiteralAtCIAscii(s: string, i: nat, lit: string)
    requires forall k :: 0 <= k < |lit| ==> lit[k] as int < 128
    requires LiteralAtCI(s, i, lit)
    ensures forall k :: i <= k < i + |lit| ==> s[k] as int < 128
  {
    forall k | i <= k < i + |lit| ensures s[k] as int < 128 {
      assert UpperChar(s[i + (k - i)]) == UpperChar(lit[k - i]);
    }
  }

  /** `\s*(C+)` at p: `\s*` takes the longest whitespace run, then gives
      characters back one at a time until `C+` can start; the group is then the
      longest run of C. */
  function SpacesThenRun(s: string, p: nat, cls: char -> bool): Option<string>
    requires p <= |s|
  {
    GiveBack(s, p, RunEnd(s, p, IsJsSpace), cls)
  }

  function GiveBack(s: string, p: nat, q: nat, cls: char -> bool): (r: Option<string>)
    requires p <= q <= |s|
    ensures r.Some? ==> exists k :: p <= k <= q && k < |s| && cls(s[k]) && r.value == s[k..RunEnd(s, k, cls)]
    ensures r.Some? ==> r.value != [] && forall m :: 0 <= m < |r.value| ==> cls(r.value[m])
    decreases q - p
  {
    if q < |s| && cls(s[q]) then Some(s[q..RunEnd(s, q, cls)])
    else if q == p then None
    else GiveBack(s, p, q - 1, cls)
  }

  /** The pattern `lit\s*(C+)` matches at i. */
  predicate LabelledAt(s: string, lit: string, cls: char -> bool, i: nat)
    requires i <= |s|
  {
    LiteralAtCI(s, i, lit) && SpacesThenRun(s, i + |lit|, cls).Some?
  }

  /** Group 1 of `s.match(/lit\s*(C+)/i)`, searching from position i on: null
      exactly when the pattern matches at no position, and otherwise the group
      of a position where it matches. */
  function FindLabelledFrom(s: string, lit: string, cls: char -> bool, i: nat): (r: Option<string>)
    requires i <= |s|
    ensures r.None? <==> forall p :: i <= p <= |s| ==> !LabelledAt(s, lit, cls, p)
    ensures r.Some? ==> exists p :: i <= p <= |s| && LabelledAt(s, lit, cls, p) && r == SpacesThenRun(s, p + |lit|, cls)
    ensures r.Some? ==> r.value != [] && forall m :: 0 <= m < |r.value| ==> cls(r.value[m])
    decreases |s| - i
  {
    if LabelledAt(s, lit, cls, i) then SpacesThenRun(s, i + |lit|, cls)
    else if i == |s| then None
    else FindLabelledFrom(s, lit, cls, i + 1)
  }

  function FindLabelled(s: string, lit: string, cls: char -> bool): Option<string> {
    FindLabelledFrom(s, lit, cls, 0)
  }

  lemma {:induction false} GiveBackNone(s: string, p: nat, q: nat, cls: char -> bool)
    requires p <= q <= |s|
    requires q == |s| || !cls(s[q])
    requires forall k :: p <= k < q ==> !cls(s[k])
    ensures GiveBack(s, p, q, cls) == None
    decreases q - p
  {
    if q > p {
      GiveBackNone(s, p, q - 1, cls);
    }
  }

  /** `\s*(\w+)`: since no whitespace character is a word character, giving
      whitespace back never helps; the group is the word right after the
      whitespace, if there is one. */
  lemma SpacesThenWord(s: string, p: nat)
    requires p <= |s|
    ensures var q := RunEnd(s, p, IsJsSpace);
      SpacesThenRun(s, p, IsWordChar) ==
        if q < |s| && IsWordChar(s[q]) then Some(s[q..RunEnd(s, q, IsWordChar)]) else None
  {
    var q := RunEnd(s, p, IsJsSpace);
    if !(q < |s| && IsWordChar(s[q])) {
      GiveBackNone(s, p, q, IsWordChar);
    }
  }

  /** `\s*(.+)` when something other than whitespace follows: the group is the
      rest of that line. */
  lemma SpacesThenLine(s: string, p: nat)
    requires p <= |s| && RunEnd(s, p, IsJsSpace) < |s|
    ensures var q := RunEnd(s, p, IsJsSpace);
      SpacesThenRun(s, p, NotLineTerminator) == Some(s[q..RunEnd(s, q, NotLineTerminator)])
  {
  }

  /** `\s*(.+)` when only whitespace follows up to the end of the text: the
      matcher backtracks into the whitespace, so the pattern still matches
      whenever that whitespace holds a character other than a line break, and
      the group is then blank. */
  lemma SpacesThenLineAtEnd(s: string, p: nat)
    requires p <= |s| && RunEnd(s, p, IsJsSpace) == |s|
    ensures SpacesThenRun(s, p, NotLineTerminator).Some? <==>
      exists k :: p <= k < |s| && !IsLineTerminator(s[k])
    ensures SpacesThenRun(s, p, NotLineTerminator).Some? ==>
      Trim(SpacesThenRun(s, p, NotLineTerminator).value) == ""
  {
    var r := SpacesThenRun(s, p, NotLineTerminator);
    if r.Some? {
      var k :| p <= k <= |s| && k < |s| && NotLineTerminator(s[k]) && r.value == s[k..RunEnd(s, k, NotLineTerminator)];
      var g := r.value;
      assert forall m :: 0 <= m < |g| ==> IsJsSpace(g[m]) by {
        forall m | 0 <= m < |g| ensures IsJsSpace(g[m]) {
          assert g[m] == s[k + m];
        }
      }
    } else if exists k :: p <= k < |s| && !IsLineTerminator(s[k]) {
      var k :| p <= k < |s| && !IsLineTerminator(s[k]);
      GiveBackFinds(s, p, |s|, k, NotLineTerminator);
    }
  }

  lemma {:induction false} GiveBackFinds(s: string, p: nat, q: nat, k: nat, cls: char -> bool)
    requires p <= k <= q <= |s| && k < |s| && cls(s[k])
    ensures GiveBack(s, p, q, cls).Some?
    decreases q - p
  {
    if !(q < |s| && cls(s[q])) && q > k {
      GiveBackFinds(s, p, q - 1, k, cls);
    }
  }

  /** Leftmost start of `(C{n,})`: the first index from i on whose longest
      C-run is at least n long. */
  function LongRunFrom(s: string, i: nat, cls: char -> bool, n: nat): (r: Option<nat>)
    requires i <= |s| && n >= 1
    ensures r.Some? ==> i <= r.value < |s| && RunEnd(s, r.value, cls) - r.value >= n
    ensures forall p :: i <= p < (if r.Some? then r.value else |s|) ==> RunEnd(s, p, cls) - p < n
    decreases |s| - i
  {
    if i == |s| then None
    else if RunEnd(s, i, cls) - i >= n then Some(i)
    else LongRunFrom(s, i + 1, cls, n)
  }

  /** The leftmost long run is a whole run: it does not start inside a longer one. */
  lemma LongRunIsMaximal(s: string, cls: char -> bool, n: nat)
    requires n >= 1 && LongRunFrom(s, 0, cls, n).Some?
    ensures var a := LongRunFrom(s, 0, cls, n).value; a == 0 || !cls(s[a - 1])
  {
    var a := LongRunFrom(s, 0, cls, n).value;
    if a > 0 {
      assert RunEnd(s, a - 1, cls) - (a - 1) < n;
    }
  }

  /** At least n characters of class cls start at p. */
  predicate HasRunAt(s: string, p: nat, cls: char -> bool, n: nat) {
    p + n <= |s| && forall k :: p <= k < p + n ==> cls(s[k])
  }

  /** s[a..b] is what a greedy `cls{n,}` finds: the leftmost place where n
      characters of the class start, taken as far as the class goes. */
  predicate FirstLongRun(s: string, cls: char -> bool, n: nat, a: nat, b: nat) {
    && a <= b <= |s| && b - a >= n
    && (forall k :: a <= k < b ==> cls(s[k]))
    && (b == |s| || !cls(s[b]))
    && forall p: nat :: p < a ==> !HasRunAt(s, p, cls, n)
  }

  lemma RunEndLong(s: string, p: nat, cls: char -> bool, n: nat)
    requires p <= |s|
    ensures RunEnd(s, p, cls) - p >= n <==> HasRunAt(s, p, cls, n)
  {
  }

  /** A run is determined by where it starts. */
  lemma RunEndUnique(s: string, a: nat, b: nat, cls: char -> bool)
    requires a <= b <= |s| && (forall k :: a <= k < b ==> cls(s[k])) && (b == |s| || !cls(s[b]))
    ensures b == RunEnd(s, a, cls)
  {
  }

  /** LongRunFrom from the start finds exactly the first long run, and finds
      nothing exactly when no n characters of the class stand together. */
  lemma LongRunIsFirst(s: string, cls: char -> bool, n: nat)
    requires n >= 1
    ensures LongRunFrom(s, 0, cls, n).None? <==> forall p: nat :: p <= |s| ==> !HasRunAt(s, p, cls, n)
    ensures LongRunFrom(s, 0, cls, n).Some? ==>
      var a := LongRunFrom(s, 0, cls, n).value; FirstLongRun(s, cls, n, a, RunEnd(s, a, cls))
    ensures forall a: nat, b: nat :: FirstLongRun(s, cls, n, a, b) ==>
      LongRunFrom(s, 0, cls, n) == Some(a) && b == RunEnd(s, a, cls)
  {
    var r := LongRunFrom(s, 0, cls, n);
    var stop := if r.Some? then r.value else |s|;
    forall p: nat | p < stop ensures !HasRunAt(s, p, cls, n) {
      RunEndLong(s, p, cls, n);
    }
    if r.Some? {
      RunEndLong(s, r.value, cls, n);
    } else {
      forall p: nat | p <= |s| ensures !HasRunAt(s, p, cls, n) {
        if p < |s| {
          RunEndLong(s, p, cls, n);
        }
      }
    }
    forall a: nat, b: nat | FirstLongRun(s, cls, n, a, b)
      ensures r == Some(a) && b == RunEnd(s, a, cls)
    {
      RunEndUnique(s, a, b, cls);
      assert HasRunAt(s, a, cls, n);
      RunEndLong(s, a, cls, n);
    }
  }

  /** Group 1 of `s.match(/([A-Z0-9]{10,})/)` and of similar patterns. */
  function LongRun(s: string, cls: char -> bool, n: nat): Option<string>
    requires n >= 1
  {
    match LongRunFrom(s, 0, cls, n)
    case Some(a) => Some(s[a..RunEnd(s, a, cls)])
    case None => None
  }

  /** Group 1 of `/#?(\d{5,})/` matched from position i: at each position the
      optional `#` is tried first, and dropped again when no five digits follow it. */
  function OrderIdFrom(s: string, i: nat): (r: Option<string>)
    requires i <= |s|
    ensures r.Some? ==> |r.value| >= 5 && AllDigits(r.value)
    decreases |s| - i
  {
    if i == |s| then None
    else if s[i] == '#' && RunEnd(s, i + 1, IsAsciiDigit) - (i + 1) >= 5 then
      Some(s[i + 1..RunEnd(s, i + 1, IsAsciiDigit)])
    else if RunEnd(s, i, IsAsciiDigit) - i >= 5 then Some(s[i..RunEnd(s, i, IsAsciiDigit)])
    else OrderIdFrom(s, i + 1)
  }

  /** The `#` is never part of the group and never changes which digits are
      found: the order id is the first run of five or more digits. */
  lemma {:induction false} OrderIdIsFirstLongDigitRun(s: string, i: nat)
    requires i <= |s|
    ensures OrderIdFrom(s, i) ==
      match LongRunFrom(s, i, IsAsciiDigit, 5)
      case Some(a) => Some(s[a..RunEnd(s, a, IsAsciiDigit)])
      case None => None
    decreases |s| - i
  {
    if i < |s| {
      OrderIdIsFirstLongDigitRun(s, i + 1);
      if s[i] == '#' && RunEnd(s, i + 1, IsAsciiDigit) - (i + 1) >= 5 {
        assert RunEnd(s, i, IsAsciiDigit) == i;
        assert LongRunFrom(s, i + 1, IsAsciiDigit, 5) == Some(i + 1);
      }
    }
  }

  /** `[a-zA-Z0-9._-]` */
  predicate IsEmailChar(c: char) {
    IsAsciiUpper(c) || IsAsciiLower(c) || IsAsciiDigit(c) || c == '.' || c == '_' || c == '-'
  }

  /** `[a-zA-Z0-9_-]` */
  predicate IsTopLevelChar(c: char) {
    IsEmailChar(c) && c != '.'
  }

  /** `[a-zA-Z0-9._-]+\.[a-zA-Z0-9_-]+` at j, the first part having been
      extended to q: it gives characters back until a `.` followed by a
      top-level character comes next. Returns the end of the match. */
  function DomainEnd(s: string, j: nat, q: nat): (r: Option<nat>)
    requires j <= q <= |s|
    ensures r.Some? ==> j < r.value <= |s|
    decreases q
  {
    if q <= j then None
    else if q + 1 < |s| && s[q] == '.' && IsTopLevelChar(s[q + 1]) then Some(RunEnd(s, q + 1, IsTopLevelChar))
    else DomainEnd(s, j, q - 1)
  }

  /** End of a match of the email pattern starting at i. The local part cannot
      give characters back usefully, since `@` is outside its class. */
  function EmailAt(s: string, i: nat): (r: Option<nat>)
    requires i <= |s|
    ensures r.Some? ==> var at := RunEnd(s, i, IsEmailChar); i < at < r.value <= |s| && s[at] == '@'
  {
    var at := RunEnd(s, i, IsEmailChar);
    if at == i || at == |s| || s[at] != '@' then None
    else DomainEnd(s, at + 1, RunEnd(s, at + 1, IsEmailChar))
  }

  /** Group 1 of `/([a-zA-Z0-9._-]+@[a-zA-Z0-9._-]+\.[a-zA-Z0-9_-]+)/` from i on. */
  function EmailFrom(s: string, i: nat): (r: Option<string>)
    requires i <= |s|
    ensures r.Some? ==> '@' in r.value
    ensures r.None? <==> forall p :: i <= p <= |s| ==> EmailAt(s, p).None?
    ensures r.Some? ==> exists p :: i <= p <= |s| && EmailAt(s, p).Some? && r.value == s[p..EmailAt(s, p).value]
    ensures r.Some? ==> Contains(s, r.value)
    decreases |s| - i
  {
    match EmailAt(s, i)
    case Some(e) =>
      var at := RunEnd(s, i, IsEmailChar);
      assert s[i..e][at - i] == '@';
      assert OccursAt(s, s[i..e], i);
      Some(s[i..e])
    case None => if i == |s| then None else EmailFrom(s, i + 1)
  }
}
