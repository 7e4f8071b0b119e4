/** Lists of names without repetitions, in the order the names are first seen. */
module FirstSeen {
  import opened Lists

  function Noted(t: seq<string>, name: string): seq<string> {
    if name in t then t else t + [name]
  }

  /** The names of s, each where it is first seen. */
  function Distinct(s: seq<string>): seq<string> {
    if s == [] then [] else Noted(Distinct(s[..|s| - 1]), s[|s| - 1])
  }

  lemma DistinctAppend(s: seq<string>, x: string)
    ensures Distinct(s + [x]) == Noted(Distinct(s), x)
  {
    FrontOfAppend(s, x);
  }

  /** The position of a name's first occurrence. */
  function FirstAt(s: seq<string>, name: string): (k: nat)
    requires name in s
    ensures k < |s| && s[k] == name && name !in s[..k]
  {
    if s[0] == name then 0 else 1 + FirstAt(s[1..], name)
  }

  lemma FirstAtIs(s: seq<string>, name: string, k: nat)
    requires k < |s| && s[k] == name && name !in s[..k]
    ensures FirstAt(s, name) == k
  {
    var f := FirstAt(s, name);
    forall i | 0 <= i < k ensures s[i] != name { assert s[..k][i] == s[i]; }
    forall i | 0 <= i < f ensures s[i] != name { assert s[..f][i] == s[i]; }
  }

  predicate SeenBefore(s: seq<string>, a: string, b: string) {
    a in s && b in s && FirstAt(s, a) < FirstAt(s, b)
  }

  /** t lists the names of s once each, in the order of their first occurrences. */
  ghost predicate ListsFirstSeen(s: seq<string>, t: seq<string>) {
    && (forall x :: x in t <==> x in s)
    && forall i, j {:trigger SeenBefore(s, t[i], t[j])} :: 0 <= i < j < |t| ==> SeenBefore(s, t[i], t[j])
  }

  lemma FirstAtExtended(s: seq<string>, x: string, name: string)
    requires name in s
    ensures FirstAt(s + [x], name) == FirstAt(s, name)
  {
    var k := FirstAt(s, name);
    assert (s + [x])[..k] == s[..k];
    FirstAtIs(s + [x], name, k);
  }

  lemma {:induction false} DistinctLists(s: seq<string>)
    ensures ListsFirstSeen(s, Distinct(s)) && NoRepeats(Distinct(s))
  {
    if s != [] {
      var front, x := s[..|s| - 1], s[|s| - 1];
      DistinctLists(front);
      assert s == front + [x];
      var t, u := Distinct(front), Distinct(s);
      forall i, j | 0 <= i < j < |u| ensures SeenBefore(s, u[i], u[j]) {
        assert u[i] == t[i] && t[i] in front;
        FirstAtExtended(front, x, t[i]);
        if j < |t| {
          assert SeenBefore(front, t[i], t[j]);
          FirstAtExtended(front, x, t[j]);
        } else {
          assert x !in front && s[..|s| - 1] == front;
          FirstAtIs(s, x, |s| - 1);
        }
      }
    }
  }

  lemma ListsNoRepeats(s: seq<string>, t: seq<string>)
    requires ListsFirstSeen(s, t)
    ensures NoRepeats(t)
  {
    forall i, j | 0 <= i < j < |t| ensures t[i] != t[j] { assert SeenBefore(s, t[i], t[j]); }
  }

  /** Two lists of the first seen names agree. */
  lemma {:induction false} ListsAgree(s: seq<string>, t: seq<string>, u: seq<string>, k: nat)
    requires ListsFirstSeen(s, t) && ListsFirstSeen(s, u) && k <= |t|
    ensures k <= |u| && t[..k] == u[..k]
    decreases k
  {
    if k > 0 {
      ListsAgree(s, t, u, k - 1);
      ListsNoRepeats(s, t);
      ListsNoRepeats(s, u);
      forall m | 0 <= m < k - 1 ensures t[m] == u[m] { assert t[..k - 1][m] == u[..k - 1][m]; }
      var a := t[k - 1];
      assert a in u;
      var j :| 0 <= j < |u| && u[j] == a;
      var b := u[k - 1];
      assert b in t;
      var i :| 0 <= i < |t| && t[i] == b;
      assert forall m :: k - 1 < m < |u| ==> SeenBefore(s, u[k - 1], u[m]);
      assert forall m :: k - 1 < m < |t| ==> SeenBefore(s, t[k - 1], t[m]);
      PrefixNext(t, k - 1);
      PrefixNext(u, k - 1);
    }
  }

  /** Being the first seen list says all about it. */
  lemma DistinctExact(s: seq<string>, t: seq<string>)
    ensures ListsFirstSeen(s, t) <==> t == Distinct(s)
  {
    DistinctLists(s);
    if ListsFirstSeen(s, t) {
      ListsAgree(s, t, Distinct(s), |t|);
      ListsAgree(s, Distinct(s), t, |Distinct(s)|);
    }
  }

  /** What comes later only adds names behind those seen. */
  lemma {:induction false} DistinctExtends(a: seq<string>, b: seq<string>)
    ensures Distinct(a) <= Distinct(a + b)
  {
    if b == [] {
      ConcatNothing(a);
    } else {
      DistinctExtends(a, b[..|b| - 1]);
      LastOfConcat(a, b);
    }
  }
}
