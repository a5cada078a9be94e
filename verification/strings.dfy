/** JavaScript string and regular-expression primitives that the chat handler relies on:
    white space as `trim()` and `\s` see it, `toLowerCase()`, `includes()`, `startsWith()`,
    and the character classes of the handler's three regular expressions. */
module Strings {

  /** Some/None, usable with `:-`. */
  datatype Option<+T> = None | Some(value: T) {
    predicate IsFailure() { None? }

    function PropagateFailure<U>(): Option<U>
      requires None?
    {
      None
    }

    function Extract(): T
      requires Some?
    {
      value
    }
  }

  function Min(a: int, b: int): int { if a <= b then a else b }

  /** The characters JavaScript treats as white space (WhiteSpace and LineTerminator):
      the set stripped by `String.prototype.trim` and matched by `\s`. */
  predicate IsSpace(c: char) {
    c == '\t' || c == '\n' || c == '\U{0B}' || c == '\U{0C}' || c == '\r' || c == ' '
    || c == '\U{A0}' || c == '\U{1680}' || ('\U{2000}' <= c <= '\U{200A}')
    || c == '\U{2028}' || c == '\U{2029}' || c == '\U{202F}' || c == '\U{205F}'
    || c == '\U{3000}' || c == '\U{FEFF}'
  }

  /** `\d`: an ASCII digit. */
  predicate IsDigit(c: char) { '0' <= c <= '9' }

  predicate IsAsciiLetter(c: char) { 'a' <= c <= 'z' || 'A' <= c <= 'Z' }

  /** The character classes used by the handler's patterns. */
  datatype CharClass =
    | Space          // \s
    | Letter         // [A-Z] under the i flag
    | EmailLocal     // [A-Z0-9._%+-] under the i flag
    | EmailDomain    // [A-Z0-9.-] under the i flag
    | PhoneSeparator // [\s.-]
    | NameLetter     // [A-Za-zÀ-ÖØ-öø-ÿ'-] under the i flag

  /** Membership in a class. Under the i flag without the u flag, a non-ASCII character never
      folds onto an ASCII one, so the ASCII classes are exactly the listed ASCII characters; the
      name class gains U+0178 (Ÿ), whose lower case ÿ is listed. */
  predicate In(c: char, k: CharClass) {
    match k
    case Space => IsSpace(c)
    case Letter => IsAsciiLetter(c)
    case EmailLocal => IsAsciiLetter(c) || IsDigit(c) || c == '.' || c == '_' || c == '%' || c == '+' || c == '-'
    case EmailDomain => IsAsciiLetter(c) || IsDigit(c) || c == '.' || c == '-'
    case PhoneSeparator => IsSpace(c) || c == '.' || c == '-'
    case NameLetter =>
      IsAsciiLetter(c) || ('\U{C0}' <= c <= '\U{D6}') || ('\U{D8}' <= c <= '\U{F6}')
      || ('\U{F8}' <= c <= '\U{FF}') || c == '\U{178}' || c == '\'' || c == '-'
  }

  /** Every character of s[lo..hi] belongs to class k. */
  predicate AllIn(s: string, lo: nat, hi: nat, k: CharClass)
    requires lo <= hi <= |s|
  {
    forall p | lo <= p < hi :: In(s[p], k)
  }

  /** Length of the longest run of class-k characters starting at i: what a greedy `k+` consumes. */
  function Run(s: string, i: nat, k: CharClass): (n: nat)
    requires i <= |s|
    ensures i + n <= |s|
    ensures i + n == |s| || !In(s[i + n], k)
    decreases |s| - i
  {
    if i < |s| && In(s[i], k) then 1 + Run(s, i + 1, k) else 0
  }

  /** Every character a run covers is in its class. (Kept apart from Run's contract so that
      the quantifier is only present where a proof asks for it.) */
  lemma {:induction false} RunAllIn(s: string, i: nat, k: CharClass)
    requires i <= |s|
    ensures AllIn(s, i, i + Run(s, i, k), k)
    decreases |s| - i
  {
    if i < |s| && In(s[i], k) {
      RunAllIn(s, i + 1, k);
    }
  }

  /** Length of the longest run of class-k characters ending just before j. */
  function RunBack(s: string, j: nat, k: CharClass): (n: nat)
    requires j <= |s|
    ensures n <= j
    ensures AllIn(s, j - n, j, k)
    ensures n == j || !In(s[j - n - 1], k)
  {
    if 0 < j && In(s[j - 1], k) then 1 + RunBack(s, j - 1, k) else 0
  }

  /** A run is determined by its two defining properties. */
  lemma {:induction false} RunUnique(s: string, i: nat, k: CharClass, n: nat)
    requires i + n <= |s| && AllIn(s, i, i + n, k)
    requires i + n == |s| || !In(s[i + n], k)
    ensures Run(s, i, k) == n
    decreases n
  {
    if n > 0 {
      assert In(s[i], k);
      RunUnique(s, i + 1, k, n - 1);
    }
  }

  /** JavaScript `s.trim()`: drops leading and trailing white space. */
  function Trim(s: string): (r: string)
    ensures |r| <= |s|
    ensures r == [] <==> AllIn(s, 0, |s|, Space)
    ensures r != [] ==> !IsSpace(r[0]) && !IsSpace(r[|r| - 1])
    ensures exists a :: TrimmedAt(s, r, a)
  {
    var a := Run(s, 0, Space);
    RunAllIn(s, 0, Space);
    if a == |s| then
      assert TrimmedAt(s, [], |s|);
      []
    else
      var b := |s| - RunBack(s, |s|, Space);
      assert TrimmedAt(s, s[a..b], a);
      s[a..b]
  }

  /** r is s[a..a+|r|] and everything of s around it is white space. */
  predicate TrimmedAt(s: string, r: string, a: nat) {
    a + |r| <= |s| && s[a..a + |r|] == r && AllIn(s, 0, a, Space) && AllIn(s, a + |r|, |s|, Space)
  }

  /** Trim is determined by where the white space ends and starts again: a string with
      white space only before a and after b, and none at its two ends, trims to s[a..b]. */
  lemma TrimExact(s: string, a: nat, b: nat)
    requires a < b <= |s|
    requires AllIn(s, 0, a, Space) && AllIn(s, b, |s|, Space)
    requires !IsSpace(s[a]) && !IsSpace(s[b - 1])
    ensures Trim(s) == s[a..b]
  {
    RunUnique(s, 0, Space, a);
  }

  /** A string without white space at either end is its own trim. */
  lemma TrimNoEdges(s: string)
    requires s != [] && !IsSpace(s[0]) && !IsSpace(s[|s| - 1])
    ensures Trim(s) == s
  {
    TrimExact(s, 0, |s|);
  }

  /** The capitals `toLowerCase()` is modelled on: ASCII and Latin-1 (À to Þ, except ×). */
  predicate IsCapital(c: char) {
    'A' <= c <= 'Z' || ('\U{C0}' <= c <= '\U{DE}' && c != '\U{D7}')
  }

  /** `toLowerCase()` on one character: a capital becomes its small letter, 32 code points
      on; every other character is left unchanged. */
  function LowerChar(c: char): char {
    if IsCapital(c) then
      (c as int + 32) as char
    else
      c
  }

  /** `toLowerCase()` on a string: character by character, each capital moved to its small
      letter and every other character kept, so no capital is left. */
  function Lower(s: string): (r: string)
    ensures |r| == |s|
    ensures forall k | 0 <= k < |r| :: !IsCapital(r[k])
    ensures forall k | 0 <= k < |s| && !IsCapital(s[k]) :: r[k] == s[k]
    ensures forall k | 0 <= k < |s| && IsCapital(s[k]) :: r[k] as int == s[k] as int + 32
  {
    seq(|s|, k requires 0 <= k < |s| => LowerChar(s[k]))
  }

  /** `toLowerCase()` works character by character, so it distributes over concatenation. */
  lemma LowerConcat(x: string, y: string)
    ensures Lower(x + y) == Lower(x) + Lower(y)
  {
    assert forall k | 0 <= k < |x + y| :: Lower(x + y)[k] == (Lower(x) + Lower(y))[k];
  }

  /** w occurs in s at position k. */
  predicate OccursAt(s: string, w: string, k: int) {
    0 <= k && k + |w| <= |s| && s[k..k + |w|] == w
  }

  ghost predicate IsSubstring(w: string, s: string) {
    exists k :: OccursAt(s, w, k)
  }

  /** An occurrence in y is an occurrence in x + y + z, shifted by |x|. */
  lemma OccursInContext(x: string, y: string, z: string, w: string, p: nat)
    requires OccursAt(y, w, p)
    ensures OccursAt(x + y + z, w, |x| + p)
  {
    assert (x + y + z)[|x| + p..|x| + p + |w|] == y[p..p + |w|];
  }

  /** `s.startsWith(w)`. */
  predicate StartsWith(s: string, w: string) {
    |w| <= |s| && s[..|w|] == w
  }

  /** The first occurrence of w in s at or after position k. */
  function IndexOfFrom(s: string, w: string, k: nat): (r: Option<nat>)
    ensures r.Some? ==> k <= r.value && OccursAt(s, w, r.value)
    ensures r.Some? ==> forall p | k <= p < r.value :: !OccursAt(s, w, p)
    ensures r.None? ==> forall p | k <= p :: !OccursAt(s, w, p)
    decreases |s| - k
  {
    if k + |w| > |s| then None
    else if OccursAt(s, w, k) then Some(k)
    else IndexOfFrom(s, w, k + 1)
  }

  /** `s.includes(w)`. */
  function Includes(s: string, w: string): (r: bool)
    ensures r <==> IsSubstring(w, s)
  {
    IndexOfFrom(s, w, 0).Some?
  }

  /** `s.replace(w, "")` with a string pattern: the first occurrence of w, if any, removed. */
  function RemoveFirst(s: string, w: string): (r: string)
    ensures IsSubstring(w, s) ==> |r| == |s| - |w|
    ensures IsSubstring(w, s) ==> exists p :: FirstOccurrence(s, w, p) && r == s[..p] + s[p + |w|..]
    ensures !IsSubstring(w, s) ==> r == s
  {
    match IndexOfFrom(s, w, 0)
    case None => s
    case Some(p) => s[..p] + s[p + |w|..]
  }

  /** w occurs in s at p and nowhere before. */
  predicate FirstOccurrence(s: string, w: string, p: int) {
    OccursAt(s, w, p) && forall q | 0 <= q < p :: !OccursAt(s, w, q)
  }

  /** When s starts with w, the occurrence removed is the leading one. */
  lemma RemoveFirstAtStart(s: string, w: string)
    requires StartsWith(s, w)
    ensures RemoveFirst(s, w) == s[|w|..]
  {
    assert OccursAt(s, w, 0);
  }
}
