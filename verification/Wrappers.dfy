/** Failure-carrying datatypes and two facts about strings and sets that several modules share. */
module Wrappers {

  datatype Option<+T> = None | Some(value: T)

  datatype Result<+T> = Success(value: T) | Failure(error: string)

  /** A greatest element exists among the members of a finite set and a floor value. */
  lemma {:induction false} MaxExists(s: set<int>, floor: int)
    ensures exists m :: m in s + {floor} && m >= floor && forall x :: x in s ==> x <= m
  {
    assert (forall x: int :: x !in s) ==> s == {};
    if s == {} {
      assert floor in s + {floor};
    } else {
      var x :| x in s;
      MaxExists(s - {x}, floor);
      var rest :| rest in (s - {x}) + {floor} && rest >= floor && forall y :: y in s - {x} ==> y <= rest;
      var m := if x > rest then x else rest;
      assert m in s + {floor};
      assert forall y :: y in s ==> y == x || y in s - {x};
    }
  }

  /** SQL's COALESCE(MAX(column), floor) over a column whose values are all above the floor. */
  function MaxOver(s: set<int>, floor: int): (m: int)
    ensures m in s + {floor} && m >= floor
    ensures forall x :: x in s ==> x <= m
  {
    MaxExists(s, floor);
    var m :| m in s + {floor} && m >= floor && forall x | x in s :: x <= m;
    m
  }

  /** A separator that neither head contains cuts a joined string at one place only. */
  lemma {:induction false} JoinInjective(a: string, x: string, b: string, y: string, sep: char)
    requires sep !in a && sep !in b
    requires a + [sep] + x == b + [sep] + y
    ensures a == b && x == y
  {
    var joined := a + [sep] + x;
    assert joined == b + [sep] + y;
    assert joined[|a|] == sep && joined[|b|] == sep;
    assert forall i :: 0 <= i < |a| ==> joined[i] == a[i] && a[i] in a;
    assert forall i :: 0 <= i < |b| ==> joined[i] == b[i] && b[i] in b;
    assert |a| == |b|;
    assert joined[..|a|] == a && joined[..|a|] == b;
    assert joined[|a| + 1..] == x && joined[|a| + 1..] == y;
  }
}
