/** Text helpers shared by the reconciliation model: the whitespace class that
    Python's str.strip() removes, code-point lexicographic order (the order in
    which pandas sorts string keys and labels), and Python's `in` on strings. */
module Strings {

  /** The characters for which Python's str.isspace() holds; str.strip()
      with no argument trims exactly these. */
  predicate IsSpace(c: char) {
    || c == ' ' || c == '\t' || c == '\n' || c == '\r'
    || c == '\U{000B}' || c == '\U{000C}'
    || ('\U{001C}' <= c <= '\U{001F}')
    || c == '\U{0085}' || c == '\U{00A0}' || c == '\U{1680}'
    || ('\U{2000}' <= c <= '\U{200A}')
    || c == '\U{2028}' || c == '\U{2029}' || c == '\U{202F}'
    || c == '\U{205F}' || c == '\U{3000}'
  }

  /** Strict lexicographic order by code point, as Python compares str. */
  predicate Less(a: string, b: string) {
    |b| > 0 && (|a| == 0 || a[0] < b[0] || (a[0] == b[0] && Less(a[1..], b[1..])))
  }

  predicate LessEq(a: string, b: string) {
    a == b || Less(a, b)
  }

  lemma {:induction false} LessIrreflexive(a: string)
    ensures !Less(a, a)
  {
    if |a| > 0 {
      LessIrreflexive(a[1..]);
    }
  }

  lemma {:induction false} LessTransitive(a: string, b: string, c: string)
    requires Less(a, b) && Less(b, c)
    ensures Less(a, c)
  {
    if |a| > 0 && a[0] == b[0] && b[0] == c[0] {
      LessTransitive(a[1..], b[1..], c[1..]);
    }
  }

  lemma {:induction false} LessAsymmetric(a: string, b: string)
    requires Less(a, b)
    ensures !Less(b, a)
  {
    if |a| > 0 && a[0] == b[0] {
      LessAsymmetric(a[1..], b[1..]);
    }
  }

  /** Any two distinct strings are ordered one way or the other. */
  lemma {:induction false} LessTrichotomy(a: string, b: string)
    ensures a == b || Less(a, b) || Less(b, a)
  {
    if |a| > 0 && |b| > 0 && a[0] == b[0] {
      LessTrichotomy(a[1..], b[1..]);
      if a[1..] == b[1..] {
        assert a == [a[0]] + a[1..] && b == [b[0]] + b[1..];
      }
    }
  }

  lemma LessEqTotal(a: string, b: string)
    ensures LessEq(a, b) || LessEq(b, a)
  {
    LessTrichotomy(a, b);
  }

  lemma LessEqTransitive(a: string, b: string, c: string)
    requires LessEq(a, b) && LessEq(b, c)
    ensures LessEq(a, c)
  {
    if a != b && b != c {
      LessTransitive(a, b, c);
    }
  }

  /** The empty string sorts before every other string. */
  lemma EmptyIsLeast(a: string)
    ensures LessEq([], a)
  {
  }

  /** a occurs in b as the block that starts at index i. */
  predicate OccursAt(a: string, b: string, i: int) {
    0 <= i && i + |a| <= |b| && b[i..i + |a|] == a
  }

  /** Python's `a in b` for strings, searched from the left. */
  predicate IsSubstring(a: string, b: string)
    decreases |b|
  {
    (|a| <= |b| && b[..|a|] == a) || (|b| > 0 && IsSubstring(a, b[1..]))
  }

  /** `a in b` holds exactly when a occurs as a contiguous block of b. */
  lemma SubstringOccurs(a: string, b: string)
    ensures IsSubstring(a, b) <==> exists i :: OccursAt(a, b, i)
  {
    if IsSubstring(a, b) {
      SubstringHasOccurrence(a, b);
    }
    if exists i :: OccursAt(a, b, i) {
      var i :| OccursAt(a, b, i);
      OccurrenceIsSubstring(a, b, i);
    }
  }

  lemma {:induction false} SubstringHasOccurrence(a: string, b: string)
    requires IsSubstring(a, b)
    ensures exists i :: OccursAt(a, b, i)
    decreases |b|
  {
    if |a| <= |b| && b[..|a|] == a {
      assert OccursAt(a, b, 0);
    } else {
      SubstringHasOccurrence(a, b[1..]);
      var i :| OccursAt(a, b[1..], i);
      assert b[1..][i..i + |a|] == b[i + 1..i + 1 + |a|];
      assert OccursAt(a, b, i + 1);
    }
  }

  lemma {:induction false} OccurrenceIsSubstring(a: string, b: string, i: int)
    requires OccursAt(a, b, i)
    ensures IsSubstring(a, b)
    decreases i
  {
    if i > 0 {
      assert b[1..][i - 1..i - 1 + |a|] == b[i..i + |a|];
      OccurrenceIsSubstring(a, b[1..], i - 1);
    }
  }

  /** The empty string is a substring of every string. */
  lemma EmptyIsSubstring(b: string)
    ensures IsSubstring([], b)
  {
  }
}
