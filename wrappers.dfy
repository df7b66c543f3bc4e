/** Option and Result: the "value or None" and "value or raised error" shapes of the source. */
module Wrappers {

  datatype Option<+T> = None | Some(value: T) {
    function GetOr(default: T): T {
      match this
      case Some(v) => v
      case None => default
    }
  }

  datatype Result<+T, +E> = Ok(value: T) | Err(error: E)

  /** Python truthiness of an optional string: neither None nor "". */
  predicate Truthy(s: Option<string>) {
    s.Some? && s.value != ""
  }

  /** Python `a or b` for strings: `a` unless it is empty. */
  function Or(a: string, b: string): (r: string)
    ensures a != "" ==> r == a
    ensures a == "" ==> r == b
  {
    if a != "" then a else b
  }

  /** Python `a or b` for optional strings; on two present strings it is `Or`. */
  function OrElse(a: Option<string>, b: Option<string>): (r: Option<string>)
    ensures Truthy(a) ==> r == a
    ensures !Truthy(a) ==> r == b
    ensures a.Some? && b.Some? ==> r == Some(Or(a.value, b.value))
  {
    if Truthy(a) then a else b
  }

  /** `i` is the position of the first element of `s` that satisfies `p`. */
  ghost predicate IsFirst<T>(s: seq<T>, p: T -> bool, i: int) {
    0 <= i < |s| && p(s[i]) && forall j :: 0 <= j < i ==> !p(s[j])
  }

  /**
   * The first element of `s` that satisfies `p`: the shape of a Python `for`
   * loop that returns on its first hit and returns None after the loop.
   */
  function FirstWhere<T>(s: seq<T>, p: T -> bool): (r: Option<T>)
    ensures r.Some? <==> exists i :: 0 <= i < |s| && p(s[i])
    ensures r.Some? ==> exists i :: IsFirst(s, p, i) && s[i] == r.value
  {
    if |s| == 0 then None
    else if p(s[0]) then
      assert IsFirst(s, p, 0);
      Some(s[0])
    else
      var r := FirstWhere(s[1..], p);
      assert r.Some? ==> exists i :: IsFirst(s, p, i) && s[i] == r.value by {
        if r.Some? {
          var k :| IsFirst(s[1..], p, k) && s[1..][k] == r.value;
          assert IsFirst(s, p, k + 1);
        }
      }
      assert forall i :: 0 < i < |s| && p(s[i]) ==> p(s[1..][i - 1]);
      r
  }

  /** There is only one first match, so any index known to be first determines the result. */
  lemma FirstWhereAt<T>(s: seq<T>, p: T -> bool, i: int)
    requires IsFirst(s, p, i)
    ensures FirstWhere(s, p) == Some(s[i])
  {
    var r := FirstWhere(s, p);
    var k :| IsFirst(s, p, k) && s[k] == r.value;
    assert !(k < i) && !(i < k);
  }

  /** Predicates that agree everywhere pick the same first element. */
  lemma {:induction false} FirstWhereCongruent<T>(s: seq<T>, p: T -> bool, q: T -> bool)
    requires forall i :: 0 <= i < |s| ==> p(s[i]) == q(s[i])
    ensures FirstWhere(s, p) == FirstWhere(s, q)
  {
    if |s| > 0 {
      FirstWhereCongruent(s[1..], p, q);
    }
  }
}
