/** SQL's logic of truth values that may be unknown. */
module ThreeValued {
  import opened Results

  /** A SQL truth value; None is NULL. */
  type Bool3 = Option<bool>

  /** From false over unknown to true. */
  function Rank(a: Bool3): int {
    if a == Some(false) then -1 else if a == Some(true) then 1 else 0
  }

  /** NOT turns the ranks around, AND is the lower rank and OR the higher. */
  lemma RanksExact(a: Bool3, b: Bool3)
    ensures Rank(Not3(a)) == -Rank(a)
    ensures Rank(And3(a, b)) == if Rank(a) < Rank(b) then Rank(a) else Rank(b)
    ensures Rank(Or3(a, b)) == if Rank(a) > Rank(b) then Rank(a) else Rank(b)
  {
    OneOfThree(a);
    OneOfThree(b);
  }

  lemma OneOfThree(a: Bool3)
    ensures a == None || a == Some(true) || a == Some(false)
  {
    match a
    case None =>
    case Some(x) => if x { assert a == Some(true); } else { assert a == Some(false); }
  }

  function Not3(a: Bool3): Bool3 {
    if a.None? then None else Some(!a.value)
  }

  function And3(a: Bool3, b: Bool3): Bool3 {
    if a == Some(false) || b == Some(false) then Some(false) else if a.None? || b.None? then None else Some(true)
  }

  function Or3(a: Bool3, b: Bool3): Bool3 {
    if a == Some(true) || b == Some(true) then Some(true) else if a.None? || b.None? then None else Some(false)
  }
}
