/** What all components share: optional values, instants, verified signers, and the order on identifiers. */
module Common {

  /** A pointer that may be nil. */
  datatype Option<T> = None | Some(value: T)

  /** Instants; the zero value of Go's time.Time is 0. */
  type Time = int
  const ZERO_TIME: Time := 0

  datatype Signers = Signers(issuerId: string, certifierId: string)

  /** Strict lexicographic order on strings, the order of `<` on Go strings. */
  predicate Precedes(a: string, b: string) {
    if b == [] then false
    else if a == [] then true
    else if a[0] != b[0] then a[0] < b[0]
    else Precedes(a[1..], b[1..])
  }

  /** The strings agree on their first `k` characters; there the first one ends before the second, or has
      the smaller character. */
  predicate SmallerFrom(a: string, b: string, k: nat) {
    && k <= |a| && k <= |b| && a[..k] == b[..k]
    && ((k == |a| && k < |b|) || (k < |a| && k < |b| && a[k] < b[k]))
  }

  /** The first place where two strings differ decides, and a string comes before its extensions. */
  lemma {:induction false} PrecedesExactly(a: string, b: string)
    ensures Precedes(a, b)
            <==> exists k: nat ::
                   && k <= |a| && k <= |b| && a[..k] == b[..k]
                   && ((k == |a| && k < |b|) || (k < |a| && k < |b| && a[k] < b[k]))
  {
    if Precedes(a, b) {
      var k := FirstDifference(a, b);
      assert SmallerFrom(a, b, k);
    }
    if k: nat :|
      && k <= |a| && k <= |b| && a[..k] == b[..k]
      && ((k == |a| && k < |b|) || (k < |a| && k < |b| && a[k] < b[k]))
    {
      SmallerPrecedes(a, b, k);
    }
  }

  lemma {:induction false} FirstDifference(a: string, b: string) returns (k: nat)
    requires Precedes(a, b)
    ensures SmallerFrom(a, b, k)
  {
    if a == [] || a[0] != b[0] {
      k := 0;
    } else {
      var j := FirstDifference(a[1..], b[1..]);
      assert a == [a[0]] + a[1..] && b == [b[0]] + b[1..];
      k := j + 1;
      assert a[..k] == [a[0]] + a[1..][..j] && b[..k] == [b[0]] + b[1..][..j];
    }
  }

  lemma {:induction false} SmallerPrecedes(a: string, b: string, k: nat)
    requires SmallerFrom(a, b, k)
    ensures Precedes(a, b)
  {
    if k > 0 {
      assert a[0] == a[..k][0] && b[0] == b[..k][0];
      assert a[1..][..k - 1] == a[..k][1..] && b[1..][..k - 1] == b[..k][1..];
      SmallerPrecedes(a[1..], b[1..], k - 1);
    }
  }

  lemma {:induction false} PrecedesIsTotal(a: string, b: string)
    ensures a == b || Precedes(a, b) || Precedes(b, a)
  {
    if a != [] && b != [] && a[0] == b[0] {
      PrecedesIsTotal(a[1..], b[1..]);
      assert a == [a[0]] + a[1..] && b == [b[0]] + b[1..];
    }
  }

  lemma {:induction false} PrecedesIsAsymmetric(a: string, b: string)
    requires Precedes(a, b)
    ensures !Precedes(b, a) && a != b
  {
    if a != [] && a[0] == b[0] {
      PrecedesIsAsymmetric(a[1..], b[1..]);
    }
  }

  lemma {:induction false} PrecedesIsTransitive(a: string, b: string, c: string)
    requires Precedes(a, b) && Precedes(b, c)
    ensures Precedes(a, c)
  {
    if a != [] && a[0] == b[0] && b[0] == c[0] {
      PrecedesIsTransitive(a[1..], b[1..], c[1..]);
    }
  }
}
