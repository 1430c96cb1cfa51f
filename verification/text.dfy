/**
  C# string values as the template engine sees them, and the line-level
  predicates its generated code is described with.
 */
module Text {

  /** A C# `string?`: null, or a (possibly empty) string. */
  datatype NullableString = Null | NonNull(value: string)

  /** C#'s `string.IsNullOrEmpty`. */
  predicate IsNullOrEmpty(s: NullableString) {
    s.Null? || |s.value| == 0
  }

  predicate StartsWith(s: string, prefix: string) {
    |prefix| <= |s| && s[..|prefix|] == prefix
  }

  predicate EndsWith(s: string, suffix: string) {
    |suffix| <= |s| && s[|s| - |suffix|..] == suffix
  }

  /** A string that ends with `a + b` ends with `b`. */
  lemma EndsWithSuffix(s: string, a: string, b: string)
    requires EndsWith(s, a + b)
    ensures EndsWith(s, b)
  {
    assert s[|s| - |b|..] == s[|s| - |a + b|..][|a|..];
  }

  /** `x + y` ends with `y`. */
  lemma EndsWithConcat(x: string, y: string)
    ensures EndsWith(x + y, y)
  {
    assert (x + y)[|x + y| - |y|..] == y;
  }

  /** `x + y` begins with `x`. */
  lemma StartsWithConcat(x: string, y: string)
    ensures StartsWith(x + y, x)
  {
    assert (x + y)[..|x|] == x;
  }

  /** A prefix of a prefix is a prefix. */
  lemma StartsWithTrans(s: string, m: string, x: string)
    requires StartsWith(s, m) && StartsWith(m, x)
    ensures StartsWith(s, x)
  {
    assert s[..|x|] == s[..|m|][..|x|];
  }

  /** Putting the same text before both sides keeps a prefix a prefix. */
  lemma StartsWithPrepend(c: string, s: string, prefix: string)
    requires StartsWith(s, prefix)
    ensures StartsWith(c + s, c + prefix)
  {
    assert (c + s)[..|c + prefix|] == c + s[..|prefix|];
  }

  /** A suffix of a suffix is a suffix. */
  lemma EndsWithTrans(s: string, m: string, x: string)
    requires EndsWith(s, m) && EndsWith(m, x)
    ensures EndsWith(s, x)
  {
    assert s[|s| - |x|..] == s[|s| - |m|..][|m| - |x|..];
  }

  /** `a + b + c` begins with `a`. */
  lemma PrefixOfConcat(a: string, b: string, c: string)
    ensures StartsWith(a + b + c, a)
  {
    assert (a + b + c)[..|a|] == a;
  }

  /** `a + b + c` ends with `b + c`. */
  lemma SuffixOfConcat(a: string, b: string, c: string)
    ensures EndsWith(a + b + c, b + c)
  {
    assert (a + b + c)[|a|..] == b + c;
  }

  /** A string ending with `suffix` has the last character of `suffix` last. */
  lemma LastOfSuffix(s: string, suffix: string)
    requires |suffix| > 0 && EndsWith(s, suffix)
    ensures s[|s| - 1] == suffix[|suffix| - 1]
  {
    assert s[|s| - |suffix|..][|suffix| - 1] == s[|s| - 1];
  }

  /** Appending the same text to both sides keeps a suffix a suffix. */
  lemma EndsWithAppend(s: string, suffix: string, c: string)
    requires EndsWith(s, suffix)
    ensures EndsWith(s + c, suffix + c)
  {
    assert (s + c)[|s + c| - |suffix + c|..] == s[|s| - |suffix|..] + c;
  }
}
