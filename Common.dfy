/** Shared value types and string helpers used by every part of the model:
    optional values, handler results, whitespace trimming as done by Python's
    `str.strip` and JavaScript's `String.prototype.trim`, ASCII lower-casing,
    substring search, decimal rendering of integers and "first best element"
    selection, which is how ordered `limit 1` queries and stable sorts pick a row. */
module Common {

  datatype Option<T> = None | Some(value: T)

  /** The reply of a server handler: a value, or an HTTP status with its error text. */
  datatype Result<T> = Ok(value: T) | Err(status: int, message: string)

  /** A nullable text value counts as present (truthy) when it is set and non-empty. */
  predicate Present(s: Option<string>)
  {
    s.Some? && s.value != ""
  }

  // ---------------------------------------------------------------------------
  // Whitespace

  /** The whitespace characters removed by trimming and matched by `\s`
      (the ASCII ones; see README for the Unicode ones left out). */
  predicate IsSpace(c: char)
  {
    c == ' ' || c == '\t' || c == '\n' || c == '\r' || c == '\U{B}' || c == '\U{C}'
  }

  /** Removes leading whitespace: the result is a suffix of `s`, starts with a
      non-space, and everything dropped was whitespace. */
  function TrimStart(s: string): (r: string)
    ensures |r| <= |s| && r == s[|s| - |r|..]
    ensures r == [] || !IsSpace(r[0])
    ensures forall i :: 0 <= i < |s| - |r| ==> IsSpace(s[i])
  {
    if |s| > 0 && IsSpace(s[0]) then TrimStart(s[1..]) else s
  }

  /** Removes trailing whitespace: the result is a prefix of `s`, ends with a
      non-space, and everything dropped was whitespace. */
  function TrimEnd(s: string): (r: string)
    ensures |r| <= |s| && r == s[..|r|]
    ensures r == [] || !IsSpace(r[|r| - 1])
    ensures forall i :: |r| <= i < |s| ==> IsSpace(s[i])
  {
    if |s| > 0 && IsSpace(s[|s| - 1]) then TrimEnd(s[..|s| - 1]) else s
  }

  /** `str.strip()` / `String.prototype.trim()`: what is left after dropping
      whitespace at both ends (a slice of `s`, by `TrimSlice`). */
  function Trim(s: string): (r: string)
    ensures r == [] || (!IsSpace(r[0]) && !IsSpace(r[|r| - 1]))
    ensures |r| <= |s|
  {
    TrimEnd(TrimStart(s))
  }

  /** The trim is the slice `s[i..j]` whose outside is all whitespace. */
  lemma {:induction false} TrimSlice(s: string)
    ensures exists i, j :: 0 <= i <= j <= |s| && Trim(s) == s[i..j] && Outside(s, i, j)
  {
    var t := TrimStart(s);
    SliceOfEnds(s, t, TrimEnd(t));
  }

  /** A prefix `r` of a suffix `t` of `s`, where what the two cuts drop is
      whitespace, is a slice of `s` with a whitespace outside. */
  lemma SliceOfEnds(s: string, t: string, r: string)
    requires |t| <= |s| && t == s[|s| - |t|..]
    requires forall k :: 0 <= k < |s| - |t| ==> IsSpace(s[k])
    requires |r| <= |t| && r == t[..|r|]
    requires forall k :: |r| <= k < |t| ==> IsSpace(t[k])
    ensures exists i, j :: 0 <= i <= j <= |s| && r == s[i..j] && Outside(s, i, j)
  {
    var i := |s| - |t|;
    var j := i + |r|;
    assert r == s[i..j];
    forall k | 0 <= k < |s| && (k < i || j <= k)
      ensures IsSpace(s[k])
    {
      if j <= k {
        assert s[k] == t[k - i];
      }
    }
    assert Outside(s, i, j);
  }

  /** Everything of `s` before `i` and from `j` on is whitespace. */
  predicate Outside(s: string, i: int, j: int)
    requires 0 <= i <= j <= |s|
  {
    forall k :: 0 <= k < |s| && (k < i || j <= k) ==> IsSpace(s[k])
  }

  /** A string with no whitespace at either end is its own trim. */
  predicate Trimmed(s: string)
  {
    s == [] || (!IsSpace(s[0]) && !IsSpace(s[|s| - 1]))
  }

  lemma TrimOfTrimmed(s: string)
    requires Trimmed(s)
    ensures Trim(s) == s
  {
  }

  /** Trimming twice is trimming once. */
  lemma TrimIdempotent(s: string)
    ensures Trim(Trim(s)) == Trim(s)
  {
    TrimOfTrimmed(Trim(s));
  }

  /** The trim is empty exactly when the whole string is whitespace. */
  lemma {:induction false} TrimEmptyIff(s: string)
    ensures Trim(s) == [] <==> forall i :: 0 <= i < |s| ==> IsSpace(s[i])
  {
    var t := TrimStart(s);
    if t == [] {
      assert forall i :: 0 <= i < |s| ==> IsSpace(s[i]);
    } else {
      assert !IsSpace(t[0]);
      assert s[|s| - |t|] == t[0];
    }
  }

  // ---------------------------------------------------------------------------
  // Case and character replacement

  /** ASCII lower-casing of one character. */
  function LowerChar(c: char): (r: char)
    ensures 'A' <= c <= 'Z' ==> 'a' <= r <= 'z'
    ensures !('A' <= c <= 'Z') ==> r == c
  {
    if 'A' <= c <= 'Z' then (c as int - 'A' as int + 'a' as int) as char else c
  }

  /** `str.lower()` / `String.prototype.toLowerCase()` on ASCII letters. */
  function Lower(s: string): (r: string)
    ensures |r| == |s|
    ensures forall i :: 0 <= i < |s| ==> r[i] == LowerChar(s[i])
  {
    seq(|s|, i requires 0 <= i < |s| => LowerChar(s[i]))
  }

  /** `s.replace(a, b)` for single characters. */
  function ReplaceChar(s: string, a: char, b: char): (r: string)
    ensures |r| == |s|
    ensures forall i :: 0 <= i < |s| ==> r[i] == (if s[i] == a then b else s[i])
  {
    seq(|s|, i requires 0 <= i < |s| => if s[i] == a then b else s[i])
  }

  // ---------------------------------------------------------------------------
  // Substring search

  predicate OccursAt(s: string, sub: string, i: int)
  {
    0 <= i && i + |sub| <= |s| && s[i..i + |sub|] == sub
  }

  function FindFrom(s: string, sub: string, k: nat): (r: int)
    requires k <= |s| + 1
    ensures r == -1 || (k <= r && OccursAt(s, sub, r))
    ensures r != -1 ==> forall j :: k <= j < r ==> !OccursAt(s, sub, j)
    ensures r == -1 ==> forall j :: k <= j ==> !OccursAt(s, sub, j)
    decreases |s| + 1 - k
  {
    if k + |sub| > |s| then -1
    else if s[k..k + |sub|] == sub then k
    else FindFrom(s, sub, k + 1)
  }

  /** Python's `str.find`: the first index at which `sub` occurs, or -1. */
  function Find(s: string, sub: string): (r: int)
    ensures r == -1 || OccursAt(s, sub, r)
    ensures r != -1 ==> forall j :: 0 <= j < r ==> !OccursAt(s, sub, j)
    ensures r == -1 <==> forall j :: !OccursAt(s, sub, j)
  {
    FindFrom(s, sub, 0)
  }

  /** `s.find(sub) >= 0`, JavaScript's `s.includes(sub)`. */
  predicate Contains(s: string, sub: string)
  {
    Find(s, sub) >= 0
  }

  /** A prefix occurrence is an occurrence. */
  lemma ContainsPrefix(s: string, sub: string)
    requires |sub| <= |s| && s[..|sub|] == sub
    ensures Contains(s, sub)
  {
    assert OccursAt(s, sub, 0);
  }

  // ---------------------------------------------------------------------------
  // Decimal rendering (`str(n)`, template literals)

  predicate IsDigit(c: char)
  {
    '0' <= c <= '9'
  }

  function DigitChar(d: nat): (c: char)
    requires d < 10
    ensures IsDigit(c)
  {
    ('0' as int + d) as char
  }

  function NatToString(n: nat): (r: string)
    ensures |r| > 0
    ensures forall i :: 0 <= i < |r| ==> IsDigit(r[i])
  {
    if n < 10 then [DigitChar(n)] else NatToString(n / 10) + [DigitChar(n % 10)]
  }

  function IntToString(i: int): (r: string)
    ensures |r| > 0
    ensures i >= 0 ==> forall k :: 0 <= k < |r| ==> IsDigit(r[k])
    ensures i < 0 ==> r[0] == '-'
  {
    if i < 0 then "-" + NatToString(-i) else NatToString(i)
  }

  // ---------------------------------------------------------------------------
  // First best element

  /** The index of the first element with the greatest `key` among those
      satisfying `keep`: what `order(key, desc).limit(1)` returns and what a
      stable descending sort puts first. None when nothing is kept. */
  function FirstMaxIndex<T>(xs: seq<T>, keep: T -> bool, key: T -> int): (r: Option<nat>)
    ensures r.None? <==> forall i :: 0 <= i < |xs| ==> !keep(xs[i])
    ensures r.Some? ==> r.value < |xs| && keep(xs[r.value])
    ensures r.Some? ==> forall i :: 0 <= i < |xs| && keep(xs[i]) ==> key(xs[i]) <= key(xs[r.value])
    ensures r.Some? ==> forall i :: 0 <= i < r.value && keep(xs[i]) ==> key(xs[i]) < key(xs[r.value])
    decreases |xs|
  {
    if |xs| == 0 then None
    else
      var rest := FirstMaxIndex(xs[..|xs| - 1], keep, key);
      var last := xs[|xs| - 1];
      if keep(last) && (rest.None? || key(xs[rest.value]) < key(last)) then Some(|xs| - 1)
      else rest
  }
}
