/** The comment sanitiser applied to every saved income and expense. */
module Utilities {

  /** Longest comment kept, in characters. */
  const MaxCommentLength: nat := 200

  /** Python's `str.isprintable` for one character. This follows the
      Unicode categories Python rejects (Cc, Cf, Zs other than the space,
      Zl, Zp, Co, Cn) exactly on Latin-1 and on the common format, space and
      private-use blocks; other code points, unassigned ones included,
      count as printable. */
  predicate IsPrintable(c: char)
    ensures (c as int) < 0x20 || c as int == 0x7F ==> !IsPrintable(c)
    ensures 0x20 <= c as int < 0x7F ==> IsPrintable(c)
  {
    var n := c as int;
    !(|| n < 0x20
      || 0x7F <= n <= 0xA0
      || n == 0xAD
      || n == 0x061C
      || n == 0x1680
      || n == 0x180E
      || 0x2000 <= n <= 0x200F
      || 0x2028 <= n <= 0x202F
      || 0x205F <= n <= 0x206F
      || n == 0x3000
      || 0xE000 <= n <= 0xF8FF
      || n == 0xFEFF
      || 0xF0000 <= n)
  }

  predicate AllPrintable(s: string)
  {
    forall i :: 0 <= i < |s| ==> IsPrintable(s[i])
  }

  /** `s[:n]` in Python: the whole string when it is shorter. */
  function Take(s: string, n: nat): (r: string)
    ensures |r| == if |s| <= n then |s| else n
    ensures |s| <= n ==> r == s
    ensures r == s[..|r|]
  {
    if |s| <= n then s else s[..n]
  }

  /** The comprehension `''.join(c for c in s if c.isprintable())`. */
  function KeepPrintable(s: string): (r: string)
    ensures |r| <= |s|
    ensures AllPrintable(r)
  {
    if s == [] then []
    else (if IsPrintable(s[0]) then [s[0]] else []) + KeepPrintable(s[1..])
  }

  /** sanitize_comment: cut to 200 characters, then drop the non-printable ones. */
  function SanitizeComment(comment: string): (r: string)
    ensures |r| <= MaxCommentLength
    ensures AllPrintable(r)
  {
    KeepPrintable(Take(comment, MaxCommentLength))
  }

  /** `sub` is `s` with some characters left out, the rest in order. */
  predicate IsSubsequence(sub: string, s: string)
    decreases |s|
  {
    if sub == [] then true
    else if s == [] then false
    else if sub[0] == s[0] then IsSubsequence(sub[1..], s[1..])
    else IsSubsequence(sub, s[1..])
  }

  /** How many characters of `s` are printable. */
  function CountPrintable(s: string): (n: nat)
    ensures n <= |s|
  {
    if s == [] then 0
    else (if IsPrintable(s[0]) then 1 else 0) + CountPrintable(s[1..])
  }

  lemma {:induction false} KeepPrintableIsSubsequence(s: string)
    ensures IsSubsequence(KeepPrintable(s), s)
  {
    if s != [] {
      KeepPrintableIsSubsequence(s[1..]);
      var rest := KeepPrintable(s[1..]);
      if IsPrintable(s[0]) {
        assert KeepPrintable(s) == [s[0]] + rest;
        assert ([s[0]] + rest)[1..] == rest;
      } else {
        assert KeepPrintable(s) == rest;
        SubsequenceSkip(rest, s);
      }
    }
  }

  /** Dropping the head of `s` from the candidates keeps a subsequence one. */
  lemma {:induction false} SubsequenceSkip(sub: string, s: string)
    requires s != []
    requires IsSubsequence(sub, s[1..])
    ensures IsSubsequence(sub, s)
    decreases |s|, 0
  {
    if sub != [] && sub[0] == s[0] {
      // sub[1..] is a subsequence of s[1..] too, because sub is
      SubsequenceTail(sub, s[1..]);
    }
  }

  lemma {:induction false} SubsequenceTail(sub: string, s: string)
    requires sub != []
    requires IsSubsequence(sub, s)
    ensures IsSubsequence(sub[1..], s)
    decreases |s|, 1
  {
    if s == [] {
    } else if sub[0] == s[0] {
      if sub[1..] != [] {
        SubsequenceSkip(sub[1..], s);
      }
    } else {
      SubsequenceTail(sub, s[1..]);
      if sub[1..] != [] {
        SubsequenceSkip(sub[1..], s);
      }
    }
  }

  /** Exactly the printable characters survive, each as often as in `s`. */
  lemma {:induction false} KeepPrintableCounts(s: string, c: char)
    ensures multiset(KeepPrintable(s))[c] == if IsPrintable(c) then multiset(s)[c] else 0
  {
    if s != [] {
      KeepPrintableCounts(s[1..], c);
      assert s == [s[0]] + s[1..];
      assert multiset(s) == multiset([s[0]]) + multiset(s[1..]);
      var head: string := if IsPrintable(s[0]) then [s[0]] else [];
      assert multiset(head + KeepPrintable(s[1..])) == multiset(head) + multiset(KeepPrintable(s[1..]));
    }
  }

  lemma {:induction false} KeepPrintableLength(s: string)
    ensures |KeepPrintable(s)| == CountPrintable(s)
  {
    if s != [] {
      KeepPrintableLength(s[1..]);
    }
  }

  lemma {:induction false} KeepPrintableOfPrintable(s: string)
    requires AllPrintable(s)
    ensures KeepPrintable(s) == s
  {
    if s != [] {
      assert AllPrintable(s[1..]) by {
        forall i | 0 <= i < |s[1..]| ensures IsPrintable(s[1..][i]) {
          assert s[1..][i] == s[i + 1];
        }
      }
      KeepPrintableOfPrintable(s[1..]);
      assert IsPrintable(s[0]);
      assert [s[0]] + s[1..] == s;
    }
  }

  /** The output is the printable characters of `comment[:200]`, in order. */
  lemma SanitizeIsFilteredPrefix(comment: string, c: char)
    ensures IsSubsequence(SanitizeComment(comment), Take(comment, MaxCommentLength))
    ensures multiset(SanitizeComment(comment))[c]
         == if IsPrintable(c) then multiset(Take(comment, MaxCommentLength))[c] else 0
    ensures |SanitizeComment(comment)| == CountPrintable(Take(comment, MaxCommentLength))
  {
    var p := Take(comment, MaxCommentLength);
    KeepPrintableIsSubsequence(p);
    KeepPrintableCounts(p, c);
    KeepPrintableLength(p);
  }

  /** A short, already printable comment is stored as typed. */
  lemma SanitizeKeepsCleanComment(comment: string)
    requires |comment| <= MaxCommentLength
    requires AllPrintable(comment)
    ensures SanitizeComment(comment) == comment
  {
    KeepPrintableOfPrintable(comment);
  }

  /** Sanitising a sanitised comment changes nothing. */
  lemma SanitizeIdempotent(comment: string)
    ensures SanitizeComment(SanitizeComment(comment)) == SanitizeComment(comment)
  {
    SanitizeKeepsCleanComment(SanitizeComment(comment));
  }
}
