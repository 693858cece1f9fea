/** Lexicographic order on strings, the order the list screen sorts names by.
    Characters are compared by code point; a proper prefix comes first. */
module StringOrder {

  /** `a` is a proper prefix of `b`. */
  predicate ProperPrefix(a: string, b: string)
  {
    |a| < |b| && a == b[..|a|]
  }

  /** `a` and `b` agree before position `k` and `a` has the smaller character there. */
  predicate FirstDifferenceAt(a: string, b: string, k: nat)
  {
    k < |a| && k < |b| && a[..k] == b[..k] && a[k] < b[k]
  }

  /** `a` sorts strictly before `b`: it is a proper prefix of `b`, or has the
      smaller character where the two first differ. */
  predicate Less(a: string, b: string): (r: bool)
    ensures r <==> ProperPrefix(a, b) || exists k: nat :: FirstDifferenceAt(a, b, k)
  {
    if |a| == 0 then |b| > 0
    else if |b| == 0 then false
    else if a[0] != b[0] then
      assert FirstDifferenceAt(a, b, 0) <==> a[0] < b[0];
      assert forall k: nat :: 0 < k ==> !FirstDifferenceAt(a, b, k);
      a[0] < b[0]
    else
      ShiftedComparison(a, b);
      Less(a[1..], b[1..])
  }

  /** Dropping a common first character changes neither a prefix relation
      nor where the first difference lies. */
  lemma ShiftedComparison(a: string, b: string)
    requires |a| > 0 && |b| > 0 && a[0] == b[0]
    ensures ProperPrefix(a, b) <==> ProperPrefix(a[1..], b[1..])
    ensures (exists k: nat :: FirstDifferenceAt(a, b, k)) <==>
      exists k: nat :: FirstDifferenceAt(a[1..], b[1..], k)
  {
    if ProperPrefix(a[1..], b[1..]) {
      assert a == [a[0]] + a[1..] && b[..|a|] == [b[0]] + b[1..][..|a| - 1];
    }
    if ProperPrefix(a, b) {
      assert a[1..] == a[..|a|][1..] && b[1..][..|a| - 1] == b[..|a|][1..];
    }
    if k: nat :| FirstDifferenceAt(a, b, k) {
      assert k > 0;
      assert a[1..][..k - 1] == a[..k][1..] && b[1..][..k - 1] == b[..k][1..];
      assert FirstDifferenceAt(a[1..], b[1..], k - 1);
    }
    if k: nat :| FirstDifferenceAt(a[1..], b[1..], k) {
      assert a[..k + 1] == [a[0]] + a[1..][..k] && b[..k + 1] == [b[0]] + b[1..][..k];
      assert FirstDifferenceAt(a, b, k + 1);
    }
  }

  /** `a` does not sort after `b`: what a sort by `<` leaves between neighbours. */
  predicate NotAfter(a: string, b: string)
  {
    !Less(b, a)
  }

  lemma {:induction false} LessIrreflexive(a: string)
    ensures !Less(a, a)
  {
    if |a| > 0 {
      LessIrreflexive(a[1..]);
    }
  }

  lemma {:induction false} LessAsymmetric(a: string, b: string)
    ensures Less(a, b) ==> !Less(b, a)
  {
    if |a| > 0 && |b| > 0 && a[0] == b[0] {
      LessAsymmetric(a[1..], b[1..]);
    }
  }

  lemma {:induction false} LessTransitive(a: string, b: string, c: string)
    requires Less(a, b) && Less(b, c)
    ensures Less(a, c)
  {
    if |a| > 0 && a[0] == b[0] && b[0] == c[0] {
      LessTransitive(a[1..], b[1..], c[1..]);
    }
  }

  /** Any two strings are ordered one way or the other, or are equal. */
  lemma {:induction false} LessTotal(a: string, b: string)
    ensures Less(a, b) || a == b || Less(b, a)
  {
    if |a| > 0 && |b| > 0 && a[0] == b[0] {
      LessTotal(a[1..], b[1..]);
      if a[1..] == b[1..] {
        assert a == [a[0]] + a[1..] && b == [b[0]] + b[1..];
      }
    }
  }

  lemma NotAfterTransitive(a: string, b: string, c: string)
    requires NotAfter(a, b) && NotAfter(b, c)
    ensures NotAfter(a, c)
  {
    LessTotal(a, b);
    LessTotal(b, c);
    if Less(a, b) && Less(b, c) {
      LessTransitive(a, b, c);
      LessAsymmetric(a, c);
    } else if Less(a, b) {
      LessAsymmetric(a, c);
    } else if Less(b, c) {
      LessAsymmetric(a, c);
    } else {
      LessIrreflexive(a);
    }
  }

  lemma NotAfterAntisymmetric(a: string, b: string)
    requires NotAfter(a, b) && NotAfter(b, a)
    ensures a == b
  {
    LessTotal(a, b);
  }

  /** `a` strictly before `b`, and `b` not after `c`, puts `a` strictly before `c`. */
  lemma LessThenNotAfter(a: string, b: string, c: string)
    requires Less(a, b) && NotAfter(b, c)
    ensures Less(a, c)
  {
    LessTotal(b, c);
    if Less(b, c) {
      LessTransitive(a, b, c);
    }
  }
}
