/** Small shared notions: options and the byte-wise order Go uses on strings. */
module Prelude {

  datatype Option<+T> = None | Some(value: T)

  function Max(a: int, b: int): int {
    if a < b then b else a
  }

  /** Go's `<` on strings: lexicographic. */
  predicate Less(a: string, b: string) {
    b != [] && (a == [] || a[0] < b[0] || (a[0] == b[0] && Less(a[1..], b[1..])))
  }

  /** The two strings agree up to position `k`, where `a` ends or has the smaller character. */
  predicate DiffersAt(a: string, b: string, k: int) {
    && 0 <= k <= |a| && k < |b| && a[..k] == b[..k]
    && (k == |a| || a[k] < b[k])
  }

  lemma DiffersLater(a: string, b: string, k: int)
    requires a != [] && b != [] && a[0] == b[0] && k > 0
    ensures DiffersAt(a, b, k) <==> DiffersAt(a[1..], b[1..], k - 1)
  {
    if k <= |a| && k < |b| {
      assert a[..k] == [a[0]] + a[1..][..k - 1] && b[..k] == [b[0]] + b[1..][..k - 1];
      assert a[..k][1..] == a[1..][..k - 1] && b[..k][1..] == b[1..][..k - 1];
    }
  }

  lemma DiffersFirst(a: string, b: string, k: int)
    requires a == [] || b == [] || a[0] != b[0]
    ensures DiffersAt(a, b, k) <==> k == 0 && b != [] && (a == [] || a[0] < b[0])
  {
    if 0 < k <= |a| && k < |b| {
      assert a[..k][0] == a[0] && b[..k][0] == b[0];
    }
  }

  lemma {:induction false} LessExactly(a: string, b: string)
    ensures Less(a, b) <==> exists k :: DiffersAt(a, b, k)
  {
    if a == [] || b == [] || a[0] != b[0] {
      DiffersFirst(a, b, 0);
      if k :| DiffersAt(a, b, k) {
        DiffersFirst(a, b, k);
      }
    } else {
      LessExactly(a[1..], b[1..]);
      if k :| DiffersAt(a[1..], b[1..], k) {
        DiffersLater(a, b, k + 1);
      }
      if k :| DiffersAt(a, b, k) {
        DiffersLater(a, b, k);
      }
    }
  }

  lemma {:induction false} LessIrreflexive(a: string)
    ensures !Less(a, a)
  {
    if a != [] {
      LessIrreflexive(a[1..]);
    }
  }

  lemma {:induction false} LessTransitive(a: string, b: string, c: string)
    requires Less(a, b) && Less(b, c)
    ensures Less(a, c)
  {
    if a != [] && a[0] == b[0] == c[0] {
      LessTransitive(a[1..], b[1..], c[1..]);
    }
  }

  lemma {:induction false} LessConnected(a: string, b: string)
    ensures a == b || Less(a, b) || Less(b, a)
  {
    if a != [] && b != [] && a[0] == b[0] {
      LessConnected(a[1..], b[1..]);
      assert a == [a[0]] + a[1..] && b == [b[0]] + b[1..];
    }
  }

  ghost predicate IsLeast(x: string, s: set<string>) {
    x in s && forall y :: y in s ==> !Less(y, x)
  }

  lemma {:induction false} LeastExists(s: set<string>) returns (x: string)
    requires s != {}
    ensures IsLeast(x, s)
  {
    x :| x in s;
    LessIrreflexive(x);
    if s != {x} {
      var rest := s - {x};
      var m := LeastExists(rest);
      if Less(m, x) {
        x := m;
        LessIrreflexive(m);
        forall y | y in s
          ensures !Less(y, x)
        {
          if Less(y, x) && y !in rest {
            LessTransitive(y, m, y);
            LessIrreflexive(y);
          }
        }
      } else {
        forall y | y in s
          ensures !Less(y, x)
        {
          if y in rest && Less(y, x) {
            LessConnected(m, y);
            if m != y && Less(m, y) {
              LessTransitive(m, y, x);
            }
          }
        }
      }
    }
  }

  ghost predicate Ascending(s: seq<string>) {
    forall i, j :: 0 <= i < j < |s| ==> Less(s[i], s[j])
  }

  lemma AscendingHasNoDuplicates(s: seq<string>, i: nat, j: nat)
    requires Ascending(s) && i < |s| && j < |s| && s[i] == s[j]
    ensures i == j
  {
    LessIrreflexive(s[i]);
  }

  /** `sort.Strings` over the keys of a map. */
  method SortStrings(s: set<string>) returns (out: seq<string>)
    ensures Ascending(out)
    ensures forall x :: x in out <==> x in s
  {
    out := [];
    var rest := s;
    while rest != {}
      invariant Ascending(out)
      invariant rest <= s
      invariant forall x :: x in out <==> x in s - rest
      invariant forall x, y :: x in out && y in rest ==> Less(x, y)
      decreases rest
    {
      ghost var least := LeastExists(rest);
      assert exists x :: x in rest && forall y :: y in rest ==> !Less(y, x);
      var x :| x in rest && forall y :: y in rest ==> !Less(y, x);
      forall y | y in rest && y != x
        ensures Less(x, y)
      {
        LessConnected(x, y);
      }
      out, rest := out + [x], rest - {x};
    }
  }
}
