/** Lists: their last elements, and the sets of their members. */
module Lists {
  lemma LastOfConcat<T>(a: seq<T>, b: seq<T>)
    requires b != []
    ensures a + b == (a + b[..|b| - 1]) + [b[|b| - 1]]
    ensures (a + b)[..|a + b| - 1] == a + b[..|b| - 1] && (a + b)[|a + b| - 1] == b[|b| - 1]
  {
  }

  lemma FrontAndLast<T>(a: seq<T>)
    requires a != []
    ensures a == a[..|a| - 1] + [a[|a| - 1]]
  {
  }

  lemma LastOrFront<T>(a: seq<T>)
    requires a != []
    ensures forall x {:trigger x in a} {:trigger x in a[..|a| - 1]} :: x in a <==> x in a[..|a| - 1] || x == a[|a| - 1]
  {
    FrontAndLast(a);
  }

  lemma FrontOfAppend<T>(a: seq<T>, x: T)
    ensures (a + [x])[..|a + [x]| - 1] == a && (a + [x])[..|a|] == a && (a + [x])[|a|] == x
  {
  }

  lemma FirstOfConcat<T>(a: seq<T>, b: seq<T>)
    requires a != []
    ensures (a + b)[0] == a[0] && (a + b)[1..] == a[1..] + b
  {
  }

  lemma ConcatNothing<T>(a: seq<T>)
    ensures a + [] == a && [] + a == a
  {
  }

  lemma ConcatTwo<T>(a: seq<T>, x: T, y: T)
    ensures a + [x, y] == (a + [x]) + [y]
  {
  }

  lemma Associative<T>(a: seq<T>, b: seq<T>, c: seq<T>)
    ensures (a + b) + c == a + (b + c)
  {
  }

  lemma PrefixNext<T>(a: seq<T>, n: nat)
    requires n < |a|
    ensures a[..n + 1] == a[..n] + [a[n]] && a[..n + 1][..n] == a[..n]
  {
  }

  function Elems<T(==)>(a: seq<T>): set<T> {
    set x | x in a
  }

  predicate NoRepeats<T(==)>(a: seq<T>) {
    forall i, j :: 0 <= i < j < |a| ==> a[i] != a[j]
  }

  lemma ElemsAppend<T>(a: seq<T>, x: T)
    ensures Elems(a + [x]) == Elems(a) + {x}
  {
  }

  lemma NoRepeatsAppend<T>(a: seq<T>, x: T)
    requires NoRepeats(a) && x !in Elems(a)
    ensures NoRepeats(a + [x])
  {
    forall i | 0 <= i < |a| ensures a[i] != x { assert a[i] in Elems(a); }
  }

  lemma {:induction false} ElemsAtMost<T>(a: seq<T>)
    ensures |Elems(a)| <= |a|
  {
    if a != [] {
      ElemsAtMost(a[..|a| - 1]);
      ElemsAppend(a[..|a| - 1], a[|a| - 1]);
      FrontAndLast(a);
    }
  }

  lemma LastIsNew<T>(a: seq<T>)
    requires a != [] && NoRepeats(a)
    ensures NoRepeats(a[..|a| - 1]) && a[|a| - 1] !in Elems(a[..|a| - 1])
  {
  }

  lemma {:induction false} ElemsOfDistinct<T>(a: seq<T>)
    requires NoRepeats(a)
    ensures |Elems(a)| == |a|
  {
    if a != [] {
      LastIsNew(a);
      ElemsOfDistinct(a[..|a| - 1]);
      ElemsAppend(a[..|a| - 1], a[|a| - 1]);
      FrontAndLast(a);
    }
  }

  lemma SubsetOfSameSize<T>(s: set<T>, t: set<T>)
    requires s <= t && |t| <= |s|
    ensures s == t
  {
    assert t == s + (t - s) && |t| == |s| + |t - s|;
  }
}
