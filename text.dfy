/** Character classes and substring facts shared by the string predicates of the model. */
module Text {

  /** Ruby's `\d`: an ASCII decimal digit. */
  predicate IsDigit(c: char) {
    '0' <= c <= '9'
  }

  predicate AllDigits(s: string) {
    forall i :: 0 <= i < |s| ==> IsDigit(s[i])
  }

  predicate NoSlash(s: string) {
    forall i :: 0 <= i < |s| ==> s[i] != '/'
  }

  predicate StartsWith(s: string, p: string) {
    |p| <= |s| && s[..|p|] == p
  }

  predicate EndsWith(s: string, p: string) {
    |p| <= |s| && s[|s| - |p|..] == p
  }

  /** `p` occurs in `s` starting at index `i`. */
  predicate OccursAt(s: string, p: string, i: nat) {
    i + |p| <= |s| && s[i..i + |p|] == p
  }

  /** `s` contains `p` somewhere: Ruby's `s =~ /p/` and `s[p]` for a literal `p`.
      Scans the start positions from left to right. */
  function Contains(s: string, p: string): (b: bool)
    ensures b <==> exists i: nat :: i <= |s| && OccursAt(s, p, i)
  {
    ContainsFrom(s, p, 0)
  }

  function ContainsFrom(s: string, p: string, start: nat): (b: bool)
    ensures b <==> exists i: nat :: start <= i <= |s| && OccursAt(s, p, i)
    decreases |s| - start
  {
    if start + |p| > |s| then false
    else if s[start..start + |p|] == p then assert OccursAt(s, p, start); true
    else ContainsFrom(s, p, start + 1)
  }

  /** The texts of `xs` with `sep` between each two neighbours: the inverse of splitting on `sep`. */
  function Join(xs: seq<string>, sep: string): string {
    if xs == [] then ""
    else if |xs| == 1 then xs[0]
    else xs[0] + sep + Join(xs[1..], sep)
  }

  /** A join starts with its first piece. */
  lemma JoinStartsWithFirst(xs: seq<string>, sep: string)
    requires xs != []
    ensures StartsWith(Join(xs, sep), xs[0])
  {
    if |xs| > 1 {
      assert (xs[0] + sep + Join(xs[1..], sep))[..|xs[0]|] == xs[0];
    }
  }

  /** Number of leading digits of `s`. */
  function DigitRun(s: string): (n: nat)
    ensures n <= |s|
    ensures AllDigits(s[..n])
    ensures n < |s| ==> !IsDigit(s[n])
  {
    if s != [] && IsDigit(s[0]) then
1 + DigitRun(s[1..])
    else 0
  }

  /** Number of leading characters of `s` that are not '/'. */
  function SlugRun(s: string): (n: nat)
    ensures n <= |s|
    ensures NoSlash(s[..n])
    ensures n < |s| ==> s[n] == '/'
  {
    if s != [] && s[0] != '/' then
1 + SlugRun(s[1..])
    else 0
  }

  /** The leading digit run of `d + rest` is exactly `d` when `rest` does not start with a digit. */
  lemma {:induction false} DigitRunOfConcat(d: string, rest: string)
    requires AllDigits(d)
    requires rest == [] || !IsDigit(rest[0])
    ensures DigitRun(d + rest) == |d|
  {
    if d != [] {
      assert (d + rest)[1..] == d[1..] + rest;
      DigitRunOfConcat(d[1..], rest);
    } else {
      assert d + rest == rest;
    }
  }

  /** The leading slug of `s + "/" + rest` is exactly `s` when `s` holds no '/'. */
  lemma {:induction false} SlugRunOfConcat(s: string, rest: string)
    requires NoSlash(s)
    requires rest != [] && rest[0] == '/'
    ensures SlugRun(s + rest) == |s|
  {
    if s != [] {
      assert (s + rest)[1..] == s[1..] + rest;
      SlugRunOfConcat(s[1..], rest);
    } else {
      assert s + rest == rest;
    }
  }

  /** Cutting `s` at `k` and putting the parts back together gives `s`. */
  lemma SplitAt(s: string, k: nat)
    requires k <= |s|
    ensures s == s[..k] + s[k..]
  {
  }

  /** Cutting `s` around the character at `k`. */
  lemma SplitAround(s: string, k: nat)
    requires k < |s|
    ensures s == s[..k] + ([s[k]] + s[k + 1..])
  {
    assert s[k..] == [s[k]] + s[k + 1..];
  }

  /** Every text starts with itself, whatever is appended to it. */
  lemma StartsWithAppended(s: string, p: string)
    ensures StartsWith(s + p, s)
  {
    assert (s + p)[..|s|] == s;
  }

  /** Every text ends with what was appended to it. */
  lemma EndsWithAppended(s: string, p: string)
    ensures EndsWith(s + p, p)
  {
    assert (s + p)[|s + p| - |p|..] == p;
  }

  /** A text that starts with a non-empty `p` starts with `p`'s first character. */
  lemma StartsWithFirst(s: string, p: string)
    requires p != []
    ensures StartsWith(s, p) ==> s != [] && s[0] == p[0]
  {
    if StartsWith(s, p) {
      assert s[..|p|][0] == s[0];
    }
  }

  /** Past a prefix, an occurrence is exactly an occurrence in what follows the prefix. */
  lemma OccursInTail(prefix: string, rest: string, p: string, i: nat)
    requires i >= |prefix|
    ensures OccursAt(prefix + rest, p, i) <==> OccursAt(rest, p, i - |prefix|)
  {
    if i + |p| <= |prefix + rest| {
      assert (prefix + rest)[i..i + |p|] == rest[i - |prefix|..i - |prefix| + |p|];
    }
  }
}
