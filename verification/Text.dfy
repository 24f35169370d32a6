/** Strings as the Go code sees them: trimming, ASCII lower-casing and the `<` order. */
module Text {

  /** The code points `unicode.IsSpace` accepts. */
  predicate IsSpace(c: char) {
    || '\t' <= c <= '\r' || c == ' ' || c == '\U{85}' || c == '\U{A0}' || c == '\U{1680}'
    || '\U{2000}' <= c <= '\U{200A}' || c == '\U{2028}' || c == '\U{2029}'
    || c == '\U{202F}' || c == '\U{205F}' || c == '\U{3000}'
  }

  /** No white space at either end. */
  predicate Trimmed(s: string) {
    s == "" || (!IsSpace(s[0]) && !IsSpace(s[|s| - 1]))
  }

  /** strings.TrimSpace */
  function Trim(s: string): (r: string)
    ensures Trimmed(r)
    ensures Trimmed(s) ==> r == s
    ensures |r| <= |s|
  {
    if s == "" then ""
    else if IsSpace(s[0]) then Trim(s[1..])
    else if IsSpace(s[|s| - 1]) then Trim(s[..|s| - 1])
    else s
  }

  predicate AllSpace(s: string) {
    forall i | 0 <= i < |s| :: IsSpace(s[i])
  }

  /** s is t between white space. */
  ghost predicate Pads(s: string, t: string, pre: string, post: string) {
    s == pre + t + post && AllSpace(pre) && AllSpace(post)
  }

  /** Trimming removes exactly the white space at both ends. */
  lemma {:induction false} TrimMeaning(s: string) returns (pre: string, post: string)
    ensures Pads(s, Trim(s), pre, post)
    decreases |s|
  {
    pre, post := "", "";
    if s != "" && IsSpace(s[0]) {
      pre, post := TrimMeaning(s[1..]);
      PadBefore(s, Trim(s), pre, post);
      pre := [s[0]] + pre;
    } else if s != "" && IsSpace(s[|s| - 1]) {
      var n := |s| - 1;
      pre, post := TrimMeaning(s[..n]);
      PadAfter(s, Trim(s), pre, post);
      post := post + [s[n]];
    } else {
      assert s == "" + s + "";
    }
  }

  lemma PadBefore(s: string, t: string, pre: string, post: string)
    requires s != "" && IsSpace(s[0]) && Pads(s[1..], t, pre, post)
    ensures Pads(s, t, [s[0]] + pre, post)
  {
    assert s == [s[0]] + (pre + t + post) == [s[0]] + pre + t + post;
  }

  lemma PadAfter(s: string, t: string, pre: string, post: string)
    requires s != "" && IsSpace(s[|s| - 1]) && Pads(s[..|s| - 1], t, pre, post)
    ensures Pads(s, t, pre, post + [s[|s| - 1]])
  {
    assert s == (pre + t + post) + [s[|s| - 1]] == pre + t + (post + [s[|s| - 1]]);
  }

  /** White space around a text does not show after trimming. */
  lemma TrimUndoes(s: string, pre: string, post: string)
    requires AllSpace(pre) && AllSpace(post)
    ensures Trim(pre + s + post) == Trim(s)
  {
    TrimBefore(s, pre);
    TrimAfter(pre + s, post);
  }

  lemma {:induction false} TrimBefore(s: string, pre: string)
    requires AllSpace(pre)
    ensures Trim(pre + s) == Trim(s)
  {
    if pre == "" {
      assert pre + s == s;
    } else {
      assert (pre + s)[1..] == pre[1..] + s;
      TrimBefore(s, pre[1..]);
    }
  }

  lemma {:induction false} TrimAfter(s: string, post: string)
    requires AllSpace(post)
    ensures Trim(s + post) == Trim(s)
  {
    if post == "" {
      assert s + post == s;
    } else {
      var n := |post| - 1;
      assert s + post == s + post[..n] + [post[n]];
      TrimSpaceAfter(s + post[..n], post[n]);
      TrimAfter(s, post[..n]);
    }
  }

  lemma {:induction false} TrimSpaceAfter(s: string, c: char)
    requires IsSpace(c)
    ensures Trim(s + [c]) == Trim(s)
    decreases |s|
  {
    if s == "" {
      assert (s + [c])[1..] == "";
    } else if IsSpace(s[0]) {
      assert (s + [c])[1..] == s[1..] + [c];
      TrimSpaceAfter(s[1..], c);
    } else {
      assert (s + [c])[..|s|] == s;
    }
  }

  predicate Blank(s: string) {
    Trim(s) == ""
  }

  function LowerChar(c: char): char {
    if 'A' <= c <= 'Z' then c + ' ' else c
  }

  /** strings.ToLower on ASCII letters. */
  function Lower(s: string): (r: string)
    ensures |r| == |s|
    ensures forall i :: 0 <= i < |s| ==> r[i] == LowerChar(s[i])
  {
    seq(|s|, i requires 0 <= i < |s| => LowerChar(s[i]))
  }

  const UPPER := "ABCDEFGHIJKLMNOPQRSTUVWXYZ"
  const LOWER := "abcdefghijklmnopqrstuvwxyz"

  /** Each capital becomes the small letter of its place in the alphabet; nothing else changes. */
  lemma LowerMeaning(s: string, i: nat)
    requires i < |s|
    ensures forall j | 0 <= j < |UPPER| :: s[i] == UPPER[j] ==> Lower(s)[i] == LOWER[j]
    ensures s[i] !in UPPER ==> Lower(s)[i] == s[i]
  {
    Letters(s[i]);
  }

  lemma Letters(c: char)
    ensures forall j | 0 <= j < |UPPER| :: c == UPPER[j] ==> LowerChar(c) == LOWER[j]
    ensures c !in UPPER ==> LowerChar(c) == c
  {
    forall j | 0 <= j < |UPPER| ensures c == UPPER[j] ==> LowerChar(c) == LOWER[j] {
      LetterAt(j);
    }
    if 'A' <= c <= 'Z' {
      LetterAt(c as int - 'A' as int);
    }
  }

  lemma LetterAt(j: nat)
    requires j < |UPPER|
    ensures |LOWER| == |UPPER| == 26
    ensures UPPER[j] == 'A' + j as char && LOWER[j] == 'a' + j as char
  {
  }

  predicate HasPrefix(s: string, p: string) {
    p <= s
  }

  /** Go's `<` on strings: the first difference decides, a proper prefix comes first. */
  predicate Less(a: string, b: string) {
    b != "" && (a == "" || a[0] < b[0] || (a[0] == b[0] && Less(a[1..], b[1..])))
  }

  /** The strings agree up to k, where a ends before b or has the smaller character. */
  predicate DiffersAt(a: string, b: string, k: nat) {
    k <= |a| && k < |b| && a[..k] == b[..k] && (k == |a| || a[k] < b[k])
  }

  lemma {:induction false} LessMeaning(a: string, b: string)
    ensures Less(a, b) <==> exists k: nat :: DiffersAt(a, b, k)
  {
    forall k: nat | DiffersAt(a, b, k) && k > 0
      ensures a != "" && b != "" && a[0] == b[0]
    {
      assert a[..k][0] == b[..k][0];
    }
    if a == "" || b == "" || a[0] != b[0] {
      assert DiffersAt(a, b, 0) <==> Less(a, b);
    } else {
      LessMeaning(a[1..], b[1..]);
      assert a == [a[0]] + a[1..] && b == [b[0]] + b[1..];
      if Less(a, b) {
        var k: nat :| DiffersAt(a[1..], b[1..], k);
        assert a[..k + 1] == [a[0]] + a[1..][..k] && b[..k + 1] == [b[0]] + b[1..][..k];
        assert DiffersAt(a, b, k + 1);
      }
      if k: nat :| DiffersAt(a, b, k) {
        assert k > 0;
        assert a[1..][..k - 1] == a[..k][1..] && b[1..][..k - 1] == b[..k][1..];
        assert DiffersAt(a[1..], b[1..], k - 1);
      }
    }
  }

  lemma {:induction false} LessIrreflexive(a: string)
    ensures !Less(a, a)
  {
    if a != "" {
      LessIrreflexive(a[1..]);
    }
  }

  lemma {:induction false} LessTransitive(a: string, b: string, c: string)
    requires Less(a, b) && Less(b, c)
    ensures Less(a, c)
  {
    if a != "" && a[0] == b[0] == c[0] {
      LessTransitive(a[1..], b[1..], c[1..]);
    }
  }

  lemma {:induction false} LessTotal(a: string, b: string)
    ensures a == b || Less(a, b) || Less(b, a)
  {
    if a != "" && b != "" && a[0] == b[0] {
      LessTotal(a[1..], b[1..]);
      assert a == [a[0]] + a[1..] && b == [b[0]] + b[1..];
    }
  }

  lemma LessAsymmetric(a: string, b: string)
    requires Less(a, b)
    ensures !Less(b, a) && a != b
  {
    LessIrreflexive(a);
    if Less(b, a) {
      LessTransitive(a, b, a);
    }
  }
}
