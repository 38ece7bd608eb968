/** The list of those that wait for a slot: arrivals join at the end, aborted ones are taken out. */
module Waiters {

  function Members<T>(rs: seq<T>): set<T>
  {
    if rs == [] then {} else {rs[0]} + Members(rs[1..])
  }

  predicate Distinct<T(==)>(rs: seq<T>) { rs == [] || (rs[0] !in Members(rs[1..]) && Distinct(rs[1..])) }

  function Remove<T(==)>(rs: seq<T>, r: T): seq<T>
  {
    if rs == [] then []
    else if rs[0] == r then Remove(rs[1..], r)
    else [rs[0]] + Remove(rs[1..], r)
  }

  lemma {:induction false} MembersOfSnoc<T>(rs: seq<T>, r: T)
    ensures Members(rs + [r]) == Members(rs) + {r}
    ensures Distinct(rs) && r !in Members(rs) ==> Distinct(rs + [r])
  {
    if rs == [] {
      assert [r][1..] == [];
    } else {
      assert (rs + [r])[1..] == rs[1..] + [r];
      MembersOfSnoc(rs[1..], r);
    }
  }

  lemma {:induction false} MembersOfRemove<T>(rs: seq<T>, r: T)
    ensures Members(Remove(rs, r)) == Members(rs) - {r}
    ensures Distinct(rs) ==> Distinct(Remove(rs, r))
    ensures rs == [] ==> Remove(rs, r) == []
  {
    if rs != [] {
      MembersOfRemove(rs[1..], r);
      var tail := Remove(rs[1..], r);
      if rs[0] != r { assert ([rs[0]] + tail)[1..] == tail; }
    }
  }
}
