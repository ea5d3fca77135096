/** The few Python string operations the documentation tools and the test-model
    builder rely on, written out over `seq<char>`: `"%d" % n`, `str.split(sep)`,
    `sep.join(parts)`, `str.lstrip(chars)` and `str.startswith(prefix)`. */
module PyStr {

  datatype Option<T> = None | Some(value: T)

  predicate IsDigit(c: char) {
    '0' <= c <= '9'
  }

  function Digit(d: nat): (c: char)
    requires d < 10
    ensures IsDigit(c) && c as int - '0' as int == d
  {
    ('0' as int + d) as char
  }

  /** `"%d" % n` for a non-negative integer: its decimal digits, no leading zero. */
  function Dec(n: nat): (s: string)
    ensures |s| >= 1
    ensures forall k :: 0 <= k < |s| ==> IsDigit(s[k])
    ensures |s| > 1 ==> s[0] != '0'
  {
    if n < 10 then [Digit(n)] else Dec(n / 10) + [Digit(n % 10)]
  }

  /** The value of a string of decimal digits (inverse of Dec). */
  function ParseDec(s: string): nat
    requires forall k :: 0 <= k < |s| ==> IsDigit(s[k])
  {
    if s == [] then 0
    else
      assert IsDigit(s[|s| - 1]);
      ParseDec(s[..|s| - 1]) * 10 + (s[|s| - 1] as int - '0' as int)
  }

  lemma {:induction false} ParseDecDec(n: nat)
    ensures ParseDec(Dec(n)) == n
  {
    if n >= 10 {
      var s := Dec(n);
      assert s[..|s| - 1] == Dec(n / 10);
      ParseDecDec(n / 10);
    }
  }

  /** Distinct numbers print differently. */
  lemma DecInjective(a: nat, b: nat)
    ensures Dec(a) == Dec(b) <==> a == b
  {
    if Dec(a) == Dec(b) {
      ParseDecDec(a);
      ParseDecDec(b);
    }
  }

  predicate StartsWith(s: string, prefix: string) {
    |prefix| <= |s| && s[..|prefix|] == prefix
  }

  predicate EndsWith(s: string, suffix: string) {
    |suffix| <= |s| && s[|s| - |suffix|..] == suffix
  }

  predicate OccursAt(s: string, sep: string, i: nat) {
    i + |sep| <= |s| && s[i..i + |sep|] == sep
  }

  /** The leftmost occurrence of `sep` in `s` at or after `from`. */
  function FindFrom(s: string, sep: string, from: nat): (r: Option<nat>)
    decreases |s| - from
    ensures r.Some? ==> from <= r.value && OccursAt(s, sep, r.value)
    ensures r.Some? ==> forall j :: from <= j < r.value ==> !OccursAt(s, sep, j)
    ensures r.None? ==> forall j :: from <= j ==> !OccursAt(s, sep, j)
  {
    if from + |sep| > |s| then None
    else if s[from..from + |sep|] == sep then Some(from)
    else FindFrom(s, sep, from + 1)
  }

  /** Python's `s.split(sep)` for a non-empty separator: cut at every
      occurrence, scanning left to right; the empty string gives `[""]`. */
  function Split(s: string, sep: string): (r: seq<string>)
    requires |sep| > 0
    decreases |s|
    ensures |r| >= 1
  {
    match FindFrom(s, sep, 0)
    case None => [s]
    case Some(i) => [s[..i]] + Split(s[i + |sep|..], sep)
  }

  /** Python's `sep.join(parts)`. */
  function Join(parts: seq<string>, sep: string): string {
    if parts == [] then ""
    else if |parts| == 1 then parts[0]
    else parts[0] + sep + Join(parts[1..], sep)
  }

  /** Splitting and joining back with the same separator gives the input. */
  lemma {:induction false} JoinSplit(s: string, sep: string)
    requires |sep| > 0
    ensures Join(Split(s, sep), sep) == s
    decreases |s|
  {
    match FindFrom(s, sep, 0)
    case None =>
    case Some(i) =>
      var rest := s[i + |sep|..];
      var parts := Split(rest, sep);
      JoinSplit(rest, sep);
      assert Split(s, sep) == [s[..i]] + parts;
      assert Join([s[..i]] + parts, sep) == s[..i] + sep + Join(parts, sep) by {
        assert ([s[..i]] + parts)[1..] == parts;
      }
      assert s == s[..i] + sep + rest;
  }

  /** No piece of a split contains the separator. */
  lemma {:induction false} SplitPiecesFree(s: string, sep: string)
    requires |sep| > 0
    ensures forall p, j :: p in Split(s, sep) ==> !OccursAt(p, sep, j)
    decreases |s|
  {
    match FindFrom(s, sep, 0)
    case None =>
    case Some(i) =>
      var rest := s[i + |sep|..];
      SplitPiecesFree(rest, sep);
      forall j: nat | j + |sep| <= i ensures !OccursAt(s[..i], sep, j) {
        assert s[..i][j..j + |sep|] == s[j..j + |sep|];
        assert !OccursAt(s, sep, j);
      }
  }

  /** The first piece of a split is a prefix of the input. */
  lemma SplitFirstPrefix(s: string, sep: string)
    requires |sep| > 0
    ensures StartsWith(s, Split(s, sep)[0])
  {
  }

  /** A string in which the separator's first character never occurs is split into itself. */
  lemma SplitNoSep(s: string, sep: string)
    requires |sep| > 0
    requires forall k :: 0 <= k < |s| ==> s[k] != sep[0]
    ensures Split(s, sep) == [s]
  {
    match FindFrom(s, sep, 0)
    case None =>
    case Some(i) =>
      assert false;
  }

  /** Python's `s.lstrip(chars)`: drop every leading character that belongs to
      the SET `chars` (not a prefix removal). */
  function LStrip(s: string, chars: set<char>): (r: string)
    ensures |r| <= |s| && r == s[|s| - |r|..]
    ensures forall k :: 0 <= k < |s| - |r| ==> s[k] in chars
    ensures r == [] || r[0] !in chars
  {
    if s != [] && s[0] in chars then LStrip(s[1..], chars) else s
  }

  /** The three facts LStrip promises determine its result: a split of `s`
      into a strippable head and a rest that does not start with a strippable
      character is the one LStrip finds. */
  lemma {:induction false} LStripUnique(s: string, chars: set<char>, n: nat)
    requires n <= |s|
    requires forall k :: 0 <= k < n ==> s[k] in chars
    requires n == |s| || s[n] !in chars
    ensures LStrip(s, chars) == s[n..]
  {
    if n > 0 {
      LStripUnique(s[1..], chars, n - 1);
    }
  }

  /** Concatenation regrouped; the solver would otherwise compare the two
      sides element by element. */
  lemma AppendAssoc<T>(a: seq<T>, b: seq<T>, c: seq<T>)
    ensures (a + b) + c == a + (b + c)
  {
  }

  /** `c * n` in Python: `n` copies of the character `c`. */
  function Repeat(c: char, n: nat): string {
    seq(n, _ => c)
  }
}
