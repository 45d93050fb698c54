/**
 * Case-insensitive string comparison: `iequals`, used by the router, and the
 * `case_insensitive` ordering that keys the channel-name and scene tables.
 * Case folding is that of `std::tolower` in the "C" locale: only 'A'..'Z' change.
 */
module CaseInsensitive {

  function ToLower(c: char): char
  {
    if 'A' <= c <= 'Z' then (c as int + 32) as char else c
  }

  /** `iequals(lhs, rhs)`: the four-iterator `std::equal` with a `tolower` comparison. */
  predicate IEquals(lhs: string, rhs: string)
  {
    |lhs| == |rhs| && forall i :: 0 <= i < |lhs| ==> ToLower(lhs[i]) == ToLower(rhs[i])
  }

  lemma IEqualsLength(lhs: string, rhs: string)
    ensures |lhs| != |rhs| ==> !IEquals(lhs, rhs)
  {
  }

  lemma IEqualsExample()
    ensures IEquals("SHOW", "show") && IEquals("Cycle", "cYCLE") && !IEquals("show", "shows")
  {
  }

  lemma IEqualsEquivalence(a: string, b: string, c: string)
    ensures IEquals(a, a)
    ensures IEquals(a, b) <==> IEquals(b, a)
    ensures IEquals(a, b) && IEquals(b, c) ==> IEquals(a, c)
  {
  }

  /** Corresponding slices of strings that agree case-insensitively agree too. */
  lemma IEqualsSlice(a: string, b: string, i: nat, j: nat)
    requires IEquals(a, b) && i <= j <= |a|
    ensures IEquals(a[i..j], b[i..j])
  {
  }

  /*
   * The `case_insensitive` comparator reads two NUL-terminated strings. A Dafny string has no
   * terminator, so reading at or past its end yields '\0'; a '\0' inside a string ends it early.
   */

  function CharAt(s: string, i: nat): char
  {
    if i < |s| then s[i] else '\0'
  }

  function Folded(s: string, i: nat): char
  {
    ToLower(CharAt(s, i))
  }

  predicate NulFree(s: string)
  {
    forall i :: 0 <= i < |s| ==> s[i] != '\0'
  }

  /** The result of the comparator's loop once it has reached position `i`. */
  predicate LessFrom(lhs: string, rhs: string, i: nat)
    decreases if i <= |lhs| then |lhs| - i else 0
  {
    var l := Folded(lhs, i);
    var r := Folded(rhs, i);
    if l == '\0' || r == '\0' then r != '\0'
    else if l < r then true
    else if l > r then false
    else LessFrom(lhs, rhs, i + 1)
  }

  /** `case_insensitive{}(lhs, rhs)`. */
  predicate Less(lhs: string, rhs: string)
  {
    LessFrom(lhs, rhs, 0)
  }

  /** Two keys a `std::map` with this comparator treats as the same key. */
  predicate Equivalent(a: string, b: string)
  {
    !Less(a, b) && !Less(b, a)
  }

  /** `case_insensitive::operator()`: the `for (;;)` loop advancing over both strings. */
  method Compare(lhs: string, rhs: string) returns (less: bool)
    ensures less == Less(lhs, rhs)
  {
    var i := 0;
    while true
      invariant i <= |lhs|
      invariant LessFrom(lhs, rhs, i) == Less(lhs, rhs)
      decreases |lhs| - i
    {
      var l := ToLower(CharAt(lhs, i));
      var r := ToLower(CharAt(rhs, i));
      if l == '\0' || r == '\0' {
        return r != '\0';
      }
      if l < r {
        return true;
      } else if l > r {
        return false;
      }
      i := i + 1;
    }
  }

  lemma {:induction false} LessFromIrreflexive(s: string, i: nat)
    ensures !LessFrom(s, s, i)
    decreases if i <= |s| then |s| - i else 0
  {
    if Folded(s, i) != '\0' {
      LessFromIrreflexive(s, i + 1);
    }
  }

  lemma {:induction false} LessFromTransitive(a: string, b: string, c: string, i: nat)
    requires LessFrom(a, b, i) && LessFrom(b, c, i)
    ensures LessFrom(a, c, i)
    decreases if i <= |a| then |a| - i else 0
  {
    var x, y, z := Folded(a, i), Folded(b, i), Folded(c, i);
    if x != '\0' && x == y && y == z {
      LessFromTransitive(a, b, c, i + 1);
    }
  }

  /** The comparator is a strict order: irreflexive, asymmetric and transitive. */
  lemma LessStrictOrder(a: string, b: string, c: string)
    ensures !Less(a, a)
    ensures Less(a, b) ==> !Less(b, a)
    ensures Less(a, b) && Less(b, c) ==> Less(a, c)
  {
    LessFromIrreflexive(a, 0);
    if Less(a, b) && Less(b, a) {
      LessFromTransitive(a, b, a, 0);
    }
    if Less(a, b) && Less(b, c) {
      LessFromTransitive(a, b, c, 0);
    }
  }

  lemma ToLowerNul(c: char)
    ensures ToLower(c) == '\0' <==> c == '\0'
  {
  }

  /** From position `i` on, two NUL-free strings are equivalent exactly when they agree case-insensitively. */
  lemma {:induction false} EquivalentFrom(a: string, b: string, i: nat)
    requires NulFree(a) && NulFree(b) && i <= |a| && i <= |b|
    ensures (!LessFrom(a, b, i) && !LessFrom(b, a, i))
        <==> (|a| == |b| && forall j :: i <= j < |a| ==> ToLower(a[j]) == ToLower(b[j]))
    decreases |a| - i
  {
    if i < |a| && i < |b| {
      ToLowerNul(a[i]);
      ToLowerNul(b[i]);
      if Folded(a, i) == Folded(b, i) {
        EquivalentFrom(a, b, i + 1);
      }
    } else if i < |a| {
      ToLowerNul(a[i]);
    } else if i < |b| {
      ToLowerNul(b[i]);
    }
  }

  /** For NUL-free strings the map's notion of "same key" is `iequals`. */
  lemma EquivalentIffIEquals(a: string, b: string)
    requires NulFree(a) && NulFree(b)
    ensures Equivalent(a, b) <==> IEquals(a, b)
  {
    EquivalentFrom(a, b, 0);
  }

  /** For NUL-free strings the comparator is total up to `iequals`. */
  lemma LessTrichotomy(a: string, b: string)
    requires NulFree(a) && NulFree(b)
    ensures Less(a, b) || Less(b, a) || IEquals(a, b)
  {
    EquivalentIffIEquals(a, b);
  }

  /** The loop keeps going while the folded characters agree and are not the terminator. */
  lemma {:induction false} LessFromSkip(a: string, b: string, i: nat, k: nat)
    requires i <= k
    requires forall j :: i <= j < k ==> Folded(a, j) == Folded(b, j) != '\0'
    ensures LessFrom(a, b, i) == LessFrom(a, b, k)
    decreases k - i
  {
    if i < k {
      LessFromSkip(a, b, i + 1, k);
    }
  }

  /**
   * A string that ends while agreeing with a longer NUL-free string is less than it;
   * two strings that end together, agreeing throughout, are not less than each other.
   */
  lemma PrefixOrder(a: string, b: string)
    requires NulFree(a) && NulFree(b)
    requires |a| <= |b|
    requires forall j :: 0 <= j < |a| ==> ToLower(a[j]) == ToLower(b[j])
    ensures Less(a, b) <==> |a| < |b|
    ensures !Less(b, a)
  {
    forall j | 0 <= j < |a| ensures Folded(a, j) == Folded(b, j) != '\0' {
      ToLowerNul(a[j]);
    }
    LessFromSkip(a, b, 0, |a|);
    LessFromSkip(b, a, 0, |a|);
    if |a| < |b| {
      ToLowerNul(b[|a|]);
    }
  }

  /** The order is decided by the first position at which the folded characters differ. */
  lemma FirstDifference(a: string, b: string, k: nat)
    requires NulFree(a) && NulFree(b)
    requires k < |a| && k < |b|
    requires forall j :: 0 <= j < k ==> ToLower(a[j]) == ToLower(b[j])
    requires ToLower(a[k]) != ToLower(b[k])
    ensures Less(a, b) <==> ToLower(a[k]) < ToLower(b[k])
  {
    forall j | 0 <= j < k ensures Folded(a, j) == Folded(b, j) != '\0' {
      ToLowerNul(a[j]);
    }
    LessFromSkip(a, b, 0, k);
    ToLowerNul(a[k]);
    ToLowerNul(b[k]);
  }
}
