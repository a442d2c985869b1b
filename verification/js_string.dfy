/** `String.prototype.trim` as defined in section 21.1.3.25 of ECMA-262,
    6th edition (ES2015): remove leading and trailing code points that are
    WhiteSpace (section 11.2) or LineTerminator (section 11.3). */
module JsString {

  /** WhiteSpace: TAB, VT, FF, SP, NBSP, ZWNBSP and every other code point of
      Unicode category Zs. */
  predicate IsWhiteSpace(c: char) {
    var n := c as int;
    || n == 0x0009 || n == 0x000B || n == 0x000C || n == 0x0020
    || n == 0x00A0 || n == 0xFEFF
    || n == 0x1680 || (0x2000 <= n <= 0x200A) || n == 0x202F
    || n == 0x205F || n == 0x3000
  }

  /** LineTerminator: LF, CR, LINE SEPARATOR, PARAGRAPH SEPARATOR. */
  predicate IsLineTerminator(c: char) {
    var n := c as int;
    n == 0x000A || n == 0x000D || n == 0x2028 || n == 0x2029
  }

  /** The code points `trim` removes. */
  predicate IsTrimmable(c: char) {
    IsWhiteSpace(c) || IsLineTerminator(c)
  }

  /** True iff the string holds nothing but trimmable code points. */
  predicate AllTrimmable(s: string) {
    forall k :: 0 <= k < |s| ==> IsTrimmable(s[k])
  }

  /** Length of the longest trimmable prefix of `s`. */
  function LeadingTrimmable(s: string): (n: nat)
    ensures n <= |s|
    ensures forall k :: 0 <= k < n ==> IsTrimmable(s[k])
    ensures n < |s| ==> !IsTrimmable(s[n])
  {
    if |s| == 0 || !IsTrimmable(s[0]) then 0
    else 1 + LeadingTrimmable(s[1..])
  }

  /** Start of the longest trimmable suffix of `s`. */
  function TrailingTrimmable(s: string): (n: nat)
    ensures n <= |s|
    ensures forall k :: n <= k < |s| ==> IsTrimmable(s[k])
    ensures 0 < n ==> !IsTrimmable(s[n - 1])
  {
    if |s| == 0 || !IsTrimmable(s[|s| - 1]) then |s|
    else TrailingTrimmable(s[..|s| - 1])
  }

  /** `s.trim()`: the infix of `s` left once the maximal trimmable prefix and
      suffix are removed. */
  function Trim(s: string): (r: string)
    ensures r == [] <==> AllTrimmable(s)
    ensures r != [] ==> !IsTrimmable(r[0]) && !IsTrimmable(r[|r| - 1])
    ensures LeadingTrimmable(s) + |r| <= |s|
    ensures r == s[LeadingTrimmable(s)..LeadingTrimmable(s) + |r|]
    ensures forall k :: LeadingTrimmable(s) + |r| <= k < |s| ==> IsTrimmable(s[k])
  {
    var i := LeadingTrimmable(s);
    if i == |s| then [] else s[i..TrailingTrimmable(s)]
  }

  /** Trimming twice is trimming once. */
  lemma TrimIdempotent(s: string)
    ensures Trim(Trim(s)) == Trim(s)
  {
    var r := Trim(s);
    if r != [] {
      assert LeadingTrimmable(r) == 0;
      assert TrailingTrimmable(r) == |r|;
    }
  }

  /** A string that starts and ends with non-trimmable code points is its own trim. */
  lemma TrimFixesUntrimmedEnds(s: string)
    requires s != [] && !IsTrimmable(s[0]) && !IsTrimmable(s[|s| - 1])
    ensures Trim(s) == s
  {
    assert LeadingTrimmable(s) == 0;
    assert TrailingTrimmable(s) == |s|;
  }

  /** Putting trimmable code points around a string does not change its trim. */
  lemma TrimIgnoresPadding(pre: string, s: string, post: string)
    requires AllTrimmable(pre) && AllTrimmable(post)
    ensures Trim(pre + s + post) == Trim(s)
  {
    var t := pre + s + post;
    if AllTrimmable(s) {
      PaddedAllTrimmable(pre, s, post);
    } else {
      var i, j := LeadingTrimmable(s), TrailingTrimmable(s);
      assert Trim(s) == s[i..j];
      PaddedEnds(pre, s, post);
      TrimBetween(t, |pre| + i, |pre| + j);
      InfixOfPadded(pre, s, post, i, j);
    }
  }

  /** The copy of `s` inside the padded string carries the same infixes. */
  lemma InfixOfPadded(pre: string, s: string, post: string, i: nat, j: nat)
    requires i <= j <= |s|
    ensures (pre + s + post)[|pre| + i..|pre| + j] == s[i..j]
  {
    var t := pre + s + post;
    forall k | 0 <= k < j - i ensures t[|pre| + i..|pre| + j][k] == s[i..j][k] {
      assert t[|pre| + i + k] == s[i + k];
    }
  }

  /** Padding a blank string with blanks gives a blank string. */
  lemma PaddedAllTrimmable(pre: string, s: string, post: string)
    requires AllTrimmable(pre) && AllTrimmable(s) && AllTrimmable(post)
    ensures AllTrimmable(pre + s + post)
  {
    var t := pre + s + post;
    forall k | 0 <= k < |t| ensures IsTrimmable(t[k]) {
      if k < |pre| { assert t[k] == pre[k]; }
      else if k < |pre| + |s| { assert t[k] == s[k - |pre|]; }
      else { assert t[k] == post[k - |pre| - |s|]; }
    }
  }

  /** The non-trimmable ends of `s` are the non-trimmable ends of the padded string. */
  lemma PaddedEnds(pre: string, s: string, post: string)
    requires AllTrimmable(pre) && AllTrimmable(post) && !AllTrimmable(s)
    ensures var t, i, j := pre + s + post, LeadingTrimmable(s), TrailingTrimmable(s);
      && i < j
      && (forall k :: 0 <= k < |pre| + i ==> IsTrimmable(t[k]))
      && (forall k :: |pre| + j <= k < |t| ==> IsTrimmable(t[k]))
      && !IsTrimmable(t[|pre| + i]) && !IsTrimmable(t[|pre| + j - 1])
  {
    var t, i, j := pre + s + post, LeadingTrimmable(s), TrailingTrimmable(s);
    assert t[|pre| + i] == s[i];
    assert t[|pre| + j - 1] == s[j - 1];
    forall k | 0 <= k < |pre| + i ensures IsTrimmable(t[k]) {
      if k < |pre| { assert t[k] == pre[k]; } else { assert t[k] == s[k - |pre|]; }
    }
    forall k | |pre| + j <= k < |t| ensures IsTrimmable(t[k]) {
      if k < |pre| + |s| { assert t[k] == s[k - |pre|]; }
      else { assert t[k] == post[k - |pre| - |s|]; }
    }
  }

  /** Trim keeps exactly the infix between a trimmable prefix and a trimmable
      suffix whose neighbouring code points are not trimmable. */
  lemma TrimBetween(s: string, i: nat, j: nat)
    requires i < j <= |s|
    requires forall k :: 0 <= k < i ==> IsTrimmable(s[k])
    requires forall k :: j <= k < |s| ==> IsTrimmable(s[k])
    requires !IsTrimmable(s[i]) && !IsTrimmable(s[j - 1])
    ensures Trim(s) == s[i..j]
  {
    LeadingUnique(s, i);
    TrailingUnique(s, j);
  }

  /** The contract of LeadingTrimmable pins its value down. */
  lemma LeadingUnique(s: string, n: nat)
    requires n <= |s|
    requires forall k :: 0 <= k < n ==> IsTrimmable(s[k])
    requires n < |s| ==> !IsTrimmable(s[n])
    ensures LeadingTrimmable(s) == n
  {
  }

  /** The contract of TrailingTrimmable pins its value down. */
  lemma TrailingUnique(s: string, n: nat)
    requires n <= |s|
    requires forall k :: n <= k < |s| ==> IsTrimmable(s[k])
    requires 0 < n ==> !IsTrimmable(s[n - 1])
    ensures TrailingTrimmable(s) == n
  {
  }
}
