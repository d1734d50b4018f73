/** Small things several modules use. */
module Common {
  datatype Option<+T> = None | Some(value: T)

  datatype Result<+T, +E> = Ok(value: T) | Err(problem: E)

  newtype byte = x: int | 0 <= x < 256

  function Last<T>(s: seq<T>): T
    requires s != []
  {
    s[|s| - 1]
  }

  function Init<T>(s: seq<T>): seq<T>
    requires s != []
  {
    s[..|s| - 1]
  }

  lemma Associates<T>(a: seq<T>, b: seq<T>, c: seq<T>)
    ensures a + b + c == a + (b + c)
  {
  }

  function Min(x: int, y: int): int {
    if x < y then x else y
  }

  function Max(x: int, y: int): int {
    if x < y then y else x
  }

  function Sum(s: seq<real>): real {
    if s == [] then 0.0 else Sum(Init(s)) + Last(s)
  }

  function MaxOf(s: seq<real>): real
    requires s != []
  {
    if |s| == 1 then s[0] else var m := MaxOf(Init(s)); if m < Last(s) then Last(s) else m
  }

  lemma {:induction false} MaxOfIsGreatest(s: seq<real>)
    requires s != []
    ensures MaxOf(s) in s && forall k :: 0 <= k < |s| ==> s[k] <= MaxOf(s)
  {
    if |s| == 1 {
    } else {
      MaxOfIsGreatest(Init(s));
      assert s == Init(s) + [Last(s)];
    }
  }

  method MaxElement(s: seq<real>) returns (max: real)
    requires s != []
    ensures max == MaxOf(s)
  {
    max := s[0];
    for i := 1 to |s|
      invariant max == MaxOf(s[..i])
    {
      assert Init(s[..i + 1]) == s[..i];
      max := if max < s[i] then s[i] else max;
    }
    assert s[..|s|] == s;
  }
}
