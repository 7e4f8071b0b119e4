/** Sort keys of active streams, the order they make, and stable sorting by it. */
module SortOrder {
  import opened FilterEvaluate
  import opened Lists
  import opened Results
  import opened Texts

  /** Missing values come first, then numbers, then strings. */
  datatype SortKey = SortKey(rank: int, num: real, str: string)

  const SORT_KEYS: map<string, string> := map[
    "" := "start_time",
    "sevana_mos" := "sevana_mos",
    "sevana_rfactor" := "sevana_rfactor",
    "src_ip" := "src_ip",
    "dst_ip" := "dst_ip",
    "network_mos" := "network_mos",
    "jitter" := "jitter",
    "duration" := "duration",
    "sip_src" := "sip_src",
    "sip_dst" := "sip_dst"]

  function SortColumn(field: string): string {
    if field in SORT_KEYS then SORT_KEYS[field] else "start_time"
  }

  function MakeSortKey(rec: Record, column: string, h: Host): SortKey {
    if column !in rec then SortKey(0, 0.0, "")
    else
      match rec[column]
      case Int(i) => SortKey(1, h.round(i as real), "")
      case Real(r) => SortKey(1, r, "")
      case Bool(b) => SortKey(2, 0.0, if b then "True" else "False")
      case Str(s) => SortKey(2, 0.0, s)
  }

  predicate KeyLess(a: SortKey, b: SortKey) {
    if a.rank != b.rank then a.rank < b.rank
    else if a.rank == 1 then a.num < b.num
    else TextLess(a.str, b.str)
  }

  /** How a list is to be ordered. */
  datatype Order = Order(h: Host, column: string, descending: bool)

  function Key(o: Order, r: Record): SortKey {
    MakeSortKey(r, o.column, o.h)
  }

  predicate KeyComes(descending: bool, a: SortKey, b: SortKey) {
    if descending then KeyLess(b, a) else KeyLess(a, b)
  }

  /** a belongs before b. */
  predicate Comes(o: Order, a: Record, b: Record) {
    KeyComes(o.descending, Key(o, a), Key(o, b))
  }

  /** The order does not tell a and b apart. */
  predicate Ties(o: Order, a: Record, b: Record) {
    !Comes(o, a, b) && !Comes(o, b, a)
  }

  lemma KeyLessTransitive(a: SortKey, b: SortKey, c: SortKey)
    requires KeyLess(a, b) && KeyLess(b, c)
    ensures KeyLess(a, c)
  {
    if a.rank == b.rank == c.rank && a.rank != 1 { TextLessTransitive(a.str, b.str, c.str); }
  }

  lemma KeyLessAsymmetric(a: SortKey, b: SortKey)
    ensures !(KeyLess(a, b) && KeyLess(b, a))
  {
    TextLessTotal(a.str, b.str);
  }

  lemma KeyLessNegativelyTransitive(a: SortKey, b: SortKey, c: SortKey)
    requires !KeyLess(b, a) && !KeyLess(c, b)
    ensures !KeyLess(c, a)
  {
    TextLessTotal(a.str, b.str);
    TextLessTotal(b.str, c.str);
    TextLessTotal(a.str, c.str);
    if a.rank == b.rank == c.rank && a.rank != 1 && TextLess(a.str, b.str) && TextLess(b.str, c.str) {
      TextLessTransitive(a.str, b.str, c.str);
    }
  }

  /** In both directions the order is a strict weak one: what sorting needs. */
  lemma StrictWeakOrder(o: Order, a: Record, b: Record, c: Record)
    ensures !Comes(o, a, a) && !(Comes(o, a, b) && Comes(o, b, a))
    ensures Comes(o, a, b) && Comes(o, b, c) ==> Comes(o, a, c)
    ensures !Comes(o, b, a) && !Comes(o, c, b) ==> !Comes(o, c, a)
    ensures Ties(o, a, b) && Ties(o, b, c) ==> Ties(o, a, c)
  {
    var x, y, z := Key(o, a), Key(o, b), Key(o, c);
    KeyLessAsymmetric(x, x);
    KeyLessAsymmetric(x, y);
    AllTransitive(x, y, z);
    AllTransitive(z, y, x);
  }

  lemma AllTransitive(x: SortKey, y: SortKey, z: SortKey)
    ensures KeyLess(x, y) && KeyLess(y, z) ==> KeyLess(x, z)
    ensures !KeyLess(y, x) && !KeyLess(z, y) ==> !KeyLess(z, x)
  {
    if KeyLess(x, y) && KeyLess(y, z) { KeyLessTransitive(x, y, z); }
    if !KeyLess(y, x) && !KeyLess(z, y) { KeyLessNegativelyTransitive(x, y, z); }
  }

  // ----- what comes before what -----

  /** The number a record has in a column, if it is one. */
  function NumberIn(o: Order, r: Record): Option<real> {
    if o.column !in r then None
    else
      match r[o.column]
      case Int(i) => Some(o.h.round(i as real))
      case Real(x) => Some(x)
      case _ => None
  }

  /** The text a record has in a column; a truth value is written out. */
  function TextIn(o: Order, r: Record): Option<string> {
    if o.column !in r then None
    else
      match r[o.column]
      case Bool(b) => Some(if b then "True" else "False")
      case Str(s) => Some(s)
      case _ => None
  }

  predicate Missing(o: Order, r: Record) {
    o.column !in r
  }

  /**
   In ascending order missing values come before numbers and numbers before texts; numbers go by size, texts by their
   first difference. Descending order turns that around.
  */
  lemma AscendingMeans(o: Order, a: Record, b: Record)
    requires !o.descending
    ensures Comes(o, a, b) <==>
              || (Missing(o, a) && !Missing(o, b))
              || (NumberIn(o, a).Some? && TextIn(o, b).Some?)
              || (NumberIn(o, a).Some? && NumberIn(o, b).Some? && NumberIn(o, a).value < NumberIn(o, b).value)
              || (TextIn(o, a).Some? && TextIn(o, b).Some?
                  && exists k: nat :: SmallerFrom(TextIn(o, a).value, TextIn(o, b).value, k))
  {
    TextLessExact(Key(o, a).str, Key(o, b).str);
  }

  lemma DescendingMeans(o: Order, a: Record, b: Record)
    requires o.descending
    ensures Comes(o, a, b) <==> Comes(o.(descending := false), b, a)
  {
  }

  /** The columns a list can be sorted by; anything else sorts by start time. */
  lemma SortColumns(field: string)
    ensures SortColumn(field) ==
            if field in {"sevana_mos", "sevana_rfactor", "src_ip", "dst_ip", "network_mos", "jitter", "duration",
                         "sip_src", "sip_dst"}
            then field else "start_time"
  {
  }

  // ----- stable sorting -----

  /** Put x into a sorted list, behind everything it does not come before. */
  function Insert(o: Order, s: seq<Record>, x: Record): seq<Record> {
    if s == [] || !Comes(o, x, s[|s| - 1]) then s + [x]
    else Insert(o, s[..|s| - 1], x) + [s[|s| - 1]]
  }

  function StableSort(o: Order, s: seq<Record>): seq<Record> {
    if s == [] then [] else Insert(o, StableSort(o, s[..|s| - 1]), s[|s| - 1])
  }

  predicate InOrder(o: Order, a: Record, b: Record) {
    !Comes(o, b, a)
  }

  predicate Sorted(o: Order, s: seq<Record>) {
    forall i, j {:trigger InOrder(o, s[i], s[j])} :: 0 <= i < j < |s| ==> InOrder(o, s[i], s[j])
  }

  /** The members of a list that tie with k, in their order. */
  function Class(o: Order, k: Record, s: seq<Record>): seq<Record> {
    if s == [] then []
    else Class(o, k, s[..|s| - 1]) + if Ties(o, k, s[|s| - 1]) then [s[|s| - 1]] else []
  }

  /** t is s in order, with ties left in the order s has them. */
  ghost predicate IsStableSort(o: Order, s: seq<Record>, t: seq<Record>) {
    Sorted(o, t) && forall k :: Class(o, k, t) == Class(o, k, s)
  }

  lemma ClassAppend(o: Order, k: Record, s: seq<Record>, x: Record)
    ensures Class(o, k, s + [x]) == Class(o, k, s) + if Ties(o, k, x) then [x] else []
  {
    assert (s + [x])[..|s|] == s;
  }

  lemma NotBothTie(o: Order, k: Record, x: Record, y: Record)
    requires Comes(o, x, y)
    ensures !(Ties(o, k, x) && Ties(o, k, y))
  {
    StrictWeakOrder(o, x, k, y);
  }

  lemma Exchange(a: seq<Record>, b: seq<Record>, c: seq<Record>)
    requires b == [] || c == []
    ensures (a + b) + c == (a + c) + b
  {
  }

  lemma {:induction false} InsertKeepsClasses(o: Order, k: Record, s: seq<Record>, x: Record)
    ensures Class(o, k, Insert(o, s, x)) == Class(o, k, s + [x])
  {
    if s != [] && Comes(o, x, s[|s| - 1]) {
      var front, last := s[..|s| - 1], s[|s| - 1];
      InsertKeepsClasses(o, k, front, x);
      NotBothTie(o, k, x, last);
      ClassAppend(o, k, Insert(o, front, x), last);
      ClassAppend(o, k, front, x);
      ClassAppend(o, k, s, x);
      Exchange(Class(o, k, front), if Ties(o, k, x) then [x] else [], if Ties(o, k, last) then [last] else []);
    }
  }

  lemma {:induction false} InsertMembers(o: Order, s: seq<Record>, x: Record)
    ensures multiset(Insert(o, s, x)) == multiset(s) + multiset{x}
  {
    if s != [] && Comes(o, x, s[|s| - 1]) {
      InsertMembers(o, s[..|s| - 1], x);
      assert s == s[..|s| - 1] + [s[|s| - 1]];
    }
  }

  lemma SortedAppend(o: Order, s: seq<Record>, x: Record)
    requires Sorted(o, s) && forall y :: y in s ==> InOrder(o, y, x)
    ensures Sorted(o, s + [x])
  {
    var t := s + [x];
    forall i, j | 0 <= i < j < |t| ensures InOrder(o, t[i], t[j]) {
      if j < |s| { assert InOrder(o, s[i], s[j]); } else { assert s[i] in s; }
    }
  }

  lemma {:induction false} InsertSorts(o: Order, s: seq<Record>, x: Record)
    requires Sorted(o, s)
    ensures Sorted(o, Insert(o, s, x))
  {
    if s == [] || !Comes(o, x, s[|s| - 1]) {
      forall y | y in s ensures InOrder(o, y, x) {
        var i :| 0 <= i < |s| && s[i] == y;
        var last := s[|s| - 1];
        assert i < |s| - 1 ==> InOrder(o, s[i], s[|s| - 1]);
        StrictWeakOrder(o, y, last, x);
      }
      SortedAppend(o, s, x);
    } else {
      var front, last := s[..|s| - 1], s[|s| - 1];
      forall i, j | 0 <= i < j < |front| ensures InOrder(o, front[i], front[j]) { assert InOrder(o, s[i], s[j]); }
      InsertSorts(o, front, x);
      InsertMembers(o, front, x);
      forall y | y in Insert(o, front, x) ensures InOrder(o, y, last) {
        assert y in multiset(Insert(o, front, x));
        if y in front {
          var i :| 0 <= i < |front| && front[i] == y;
          assert InOrder(o, s[i], s[|s| - 1]);
        } else {
          assert y == x;
          StrictWeakOrder(o, x, last, x);
        }
      }
      SortedAppend(o, Insert(o, front, x), last);
    }
  }

  /** Sorting reorders, puts in order and leaves ties alone. */
  lemma {:induction false} StableSortSorts(o: Order, s: seq<Record>)
    ensures IsStableSort(o, s, StableSort(o, s))
    ensures multiset(StableSort(o, s)) == multiset(s)
  {
    if s != [] {
      var front, last := s[..|s| - 1], s[|s| - 1];
      StableSortSorts(o, front);
      InsertIsStable(o, front, last, StableSort(o, front));
      FrontAndLast(s);
    }
  }

  lemma InsertIsStable(o: Order, s: seq<Record>, x: Record, sorted: seq<Record>)
    requires IsStableSort(o, s, sorted) && multiset(sorted) == multiset(s)
    ensures IsStableSort(o, s + [x], Insert(o, sorted, x))
    ensures multiset(Insert(o, sorted, x)) == multiset(s + [x])
  {
    InsertSorts(o, sorted, x);
    InsertMembers(o, sorted, x);
    forall k ensures Class(o, k, Insert(o, sorted, x)) == Class(o, k, s + [x]) {
      InsertKeepsClasses(o, k, sorted, x);
      ClassAppend(o, k, sorted, x);
      ClassAppend(o, k, s, x);
    }
  }

  lemma {:induction false} ClassMembers(o: Order, k: Record, s: seq<Record>)
    ensures forall y :: y in Class(o, k, s) ==> y in s && Ties(o, k, y)
  {
    if s != [] { ClassMembers(o, k, s[..|s| - 1]); }
  }

  /** The last member of a list is the last of those it ties with. */
  lemma LastOfClass(o: Order, k: Record, s: seq<Record>)
    requires s != [] && Ties(o, k, s[|s| - 1])
    ensures var c := Class(o, k, s); c != [] && c[|c| - 1] == s[|s| - 1] && s[|s| - 1] in c
  {
  }

  lemma LastComesLast(o: Order, s: seq<Record>, y: Record)
    requires Sorted(o, s) && y in s
    ensures InOrder(o, y, s[|s| - 1])
  {
    var i :| 0 <= i < |s| && s[i] == y;
    if i < |s| - 1 { assert InOrder(o, s[i], s[|s| - 1]); }
    StrictWeakOrder(o, y, y, y);
  }

  /** The last member of one list is in the other, which has the same classes. */
  lemma LastIsShared(o: Order, t: seq<Record>, u: seq<Record>)
    requires t != [] && forall k :: Class(o, k, t) == Class(o, k, u)
    ensures t[|t| - 1] in u
  {
    var x := t[|t| - 1];
    StrictWeakOrder(o, x, x, x);
    LastOfClass(o, x, t);
    assert Class(o, x, t) == Class(o, x, u);
    ClassMembers(o, x, u);
  }

  /** Two lists in order with the same classes end alike. */
  lemma SameLast(o: Order, t: seq<Record>, u: seq<Record>)
    requires t != [] && Sorted(o, t) && Sorted(o, u)
    requires forall k :: Class(o, k, t) == Class(o, k, u)
    ensures u != [] && t[|t| - 1] == u[|u| - 1]
  {
    LastIsShared(o, t, u);
    LastIsShared(o, u, t);
    var x, y := t[|t| - 1], u[|u| - 1];
    LastComesLast(o, t, y);
    LastComesLast(o, u, x);
    StrictWeakOrder(o, x, x, x);
    assert Class(o, x, t) == Class(o, x, u);
    LastOfClass(o, x, t);
    LastOfClass(o, x, u);
  }

  lemma SortedFront(o: Order, s: seq<Record>)
    requires s != [] && Sorted(o, s)
    ensures Sorted(o, s[..|s| - 1])
  {
    var front := s[..|s| - 1];
    forall i, j | 0 <= i < j < |front| ensures InOrder(o, front[i], front[j]) { assert InOrder(o, s[i], s[j]); }
  }

  /** There is only one way to sort stably. */
  lemma {:induction false} SameClassesSameList(o: Order, t: seq<Record>, u: seq<Record>)
    requires Sorted(o, t) && Sorted(o, u)
    requires forall k :: Class(o, k, t) == Class(o, k, u)
    ensures t == u
  {
    if t == [] {
      if u != [] { SameLast(o, u, t); }
    } else {
      SameLast(o, t, u);
      SortedFront(o, t);
      SortedFront(o, u);
      var tf, uf, x := t[..|t| - 1], u[..|u| - 1], t[|t| - 1];
      assert t == tf + [x] && u == uf + [x];
      forall k ensures Class(o, k, tf) == Class(o, k, uf) {
        ClassAppend(o, k, tf, x);
        ClassAppend(o, k, uf, x);
        var tail := if Ties(o, k, x) then [x] else [];
        var a, b := Class(o, k, tf), Class(o, k, uf);
        assert Class(o, k, t) == a + tail && Class(o, k, u) == b + tail;
        assert a == (a + tail)[..|a|] && b == (b + tail)[..|b|];
      }
      SameClassesSameList(o, tf, uf);
    }
  }

  /** A list is the stable sort exactly when it is in order and leaves ties alone. */
  lemma StableSortUnique(o: Order, s: seq<Record>, t: seq<Record>)
    ensures IsStableSort(o, s, t) <==> t == StableSort(o, s)
  {
    StableSortSorts(o, s);
    if IsStableSort(o, s, t) { SameClassesSameList(o, t, StableSort(o, s)); }
  }
}
