/**
 Strings as the service uses them: Unicode trimming, the order of sort.Strings
 and prefixes. A Dafny char is a code point; comparing code points agrees with
 Go's byte order on valid UTF-8.
 */
module Text {

  // unicode.IsSpace
  predicate IsSpace(c: char) {
    || '\t' <= c <= '\r' || c == ' ' || c == '\U{0085}' || c == '\U{00A0}' || c == '\U{1680}'
    || '\U{2000}' <= c <= '\U{200A}' || c == '\U{2028}' || c == '\U{2029}'
    || c == '\U{202F}' || c == '\U{205F}' || c == '\U{3000}'
  }

  // The code points with the Unicode property White_Space.
  const WHITE_SPACE: set<int> := {
    9, 10, 11, 12, 13, 32, 133, 160, 5760, 8192, 8193, 8194, 8195, 8196, 8197, 8198, 8199, 8200, 8201, 8202,
    8232, 8233, 8239, 8287, 12288
  }

  /** Exactly the white space of Unicode is trimmed. */
  lemma {:induction false} IsSpaceExactly(c: char)
    ensures IsSpace(c) <==> c as int in WHITE_SPACE
  {
  }

  function TrimLeft(s: string): string {
    if s != "" && IsSpace(s[0]) then TrimLeft(s[1..]) else s
  }

  function TrimRight(s: string): string {
    if s != "" && IsSpace(s[|s| - 1]) then TrimRight(s[..|s| - 1]) else s
  }

  // strings.TrimSpace
  function TrimSpace(s: string): string {
    TrimRight(TrimLeft(s))
  }

  predicate AllSpace(s: string) {
    forall i :: 0 <= i < |s| ==> IsSpace(s[i])
  }

  predicate Trimmed(s: string) {
    s != "" ==> !IsSpace(s[0]) && !IsSpace(s[|s| - 1])
  }

  lemma {:induction false} TrimLeftSplits(s: string)
    ensures var left := TrimLeft(s);
            |left| <= |s| && left == s[|s| - |left|..] && AllSpace(s[..|s| - |left|])
              && (left != "" ==> !IsSpace(left[0]))
  {
    hide IsSpace;
    if s != "" && IsSpace(s[0]) {
      TrimLeftSplits(s[1..]);
      var n := |s| - |TrimLeft(s)|;
      assert s[..n] == [s[0]] + s[1..][..n - 1];
    }
  }

  lemma {:induction false} TrimRightSplits(s: string)
    ensures var right := TrimRight(s);
            |right| <= |s| && right == s[..|right|] && AllSpace(s[|right|..])
              && (right != "" ==> !IsSpace(right[|right| - 1]))
  {
    hide IsSpace;
    if s != "" && IsSpace(s[|s| - 1]) {
      var front := s[..|s| - 1];
      TrimRightSplits(front);
      var n := |TrimRight(s)|;
      assert s[n..] == front[n..] + [s[|s| - 1]];
    }
  }

  /** Trimming cuts white space off both ends and nothing else. */
  lemma {:induction false} TrimSpaceCuts(s: string)
    ensures Trimmed(TrimSpace(s))
    ensures exists pre, post :: s == pre + TrimSpace(s) + post && AllSpace(pre) && AllSpace(post)
  {
    var left := TrimLeft(s);
    TrimLeftSplits(s);
    TrimRightSplits(left);
    var pre, post := s[..|s| - |left|], left[|TrimRight(left)|..];
    hide IsSpace, TrimLeft, TrimRight;
    assert s == pre + TrimSpace(s) + post;
    if TrimSpace(s) != "" {
      assert TrimSpace(s)[0] == left[0];
    }
  }

  lemma {:induction false} BlankTrims(s: string)
    ensures TrimSpace(s) == "" <==> AllSpace(s)
  {
    TrimLeftSplits(s);
    TrimRightSplits(TrimLeft(s));
    hide IsSpace, TrimLeft, TrimRight;
  }

  lemma {:induction false} TrimSpaceFixes(s: string)
    requires Trimmed(s)
    ensures TrimSpace(s) == s
  {
  }

  predicate HasPrefix(s: string, prefix: string) {
    prefix <= s
  }

  // Go's < on strings.
  predicate Less(a: string, b: string) {
    b != "" && (a == "" || a[0] < b[0] || (a[0] == b[0] && Less(a[1..], b[1..])))
  }

  // a and b agree up to character i, where a ends or has the smaller character.
  ghost predicate PartsAt(a: string, b: string, i: nat) {
    i <= |a| && i < |b| && (forall m :: 0 <= m < i ==> a[m] == b[m]) && (i == |a| || a[i] < b[i])
  }

  // The order stated without the loop.
  ghost predicate Before(a: string, b: string) {
    exists i: nat :: PartsAt(a, b, i)
  }

  /** The order is that of the characters, first to last. */
  lemma {:induction false} LessExactly(a: string, b: string)
    ensures Less(a, b) <==> Before(a, b)
  {
    if Less(a, b) {
      if a == "" || a[0] < b[0] {
        assert PartsAt(a, b, 0);
      } else {
        LessExactly(a[1..], b[1..]);
        var i: nat :| PartsAt(a[1..], b[1..], i);
        assert forall m :: 0 < m < i + 1 ==> a[m] == a[1..][m - 1] && b[m] == b[1..][m - 1];
        assert PartsAt(a, b, i + 1);
      }
    }
    if i: nat :| PartsAt(a, b, i) {
      if i > 0 {
        assert PartsAt(a[1..], b[1..], i - 1);
        LessExactly(a[1..], b[1..]);
      }
    }
  }

  lemma {:induction false} LessTotal(a: string, b: string)
    ensures Less(a, b) || a == b || Less(b, a)
  {
    if a != "" && b != "" && a[0] == b[0] {
      LessTotal(a[1..], b[1..]);
      assert a == [a[0]] + a[1..] && b == [b[0]] + b[1..];
    }
  }

  lemma {:induction false} LessIrreflexive(a: string)
    ensures !Less(a, a)
  {
    if a != "" {
      LessIrreflexive(a[1..]);
    }
  }

  lemma {:induction false} LessTransitive(a: string, b: string, c: string)
    requires Less(a, b) && Less(b, c)
    ensures Less(a, c)
  {
    if a != "" && a[0] == b[0] && b[0] == c[0] {
      LessTransitive(a[1..], b[1..], c[1..]);
    }
  }
}
