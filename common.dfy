/** Small failure-carrying wrappers shared by the other modules. */
module Common {

  datatype Option<+T> = None | Some(value: T)

  /** The outcome of an operation that can raise: a value, or the error it raised. */
  datatype Result<+R, +E> = Success(value: R) | Failure(error: E)

  /** The elements of `s` that satisfy `p`, in their original order. */
  function Filter<T>(s: seq<T>, p: T -> bool): (r: seq<T>)
    ensures |r| <= |s|
  {
    if s == [] then []
    else if p(s[|s| - 1]) then Filter(s[..|s| - 1], p) + [s[|s| - 1]]
    else Filter(s[..|s| - 1], p)
  }

  /** `[f(x) for x in s if keep(x)]` where evaluating `f` may raise: the
      elements are evaluated left to right and the first failure propagates. */
  function Comprehension<T, U, E>(s: seq<T>, keep: T -> bool, f: T -> Result<U, E>): (r: Result<seq<U>, E>)
    ensures r.Success? ==> |r.value| <= |s|
    ensures r.Failure? ==> exists x :: x in s && keep(x) && f(x) == Failure(r.error)
  {
    if s == [] then Success([])
    else
      assert forall x :: x in s[..|s| - 1] ==> x in s;
      match Comprehension(s[..|s| - 1], keep, f)
      case Failure(e) => Failure(e)
      case Success(us) =>
        if !keep(s[|s| - 1]) then Success(us)
        else
          match f(s[|s| - 1])
          case Failure(e) => Failure(e)
          case Success(u) => Success(us + [u])
  }

  /** The comprehension fails exactly when a kept element fails, and then with
      the error of the first one; otherwise it holds one result per kept element. */
  lemma {:induction false} ComprehensionSpec<T, U, E>(s: seq<T>, keep: T -> bool, f: T -> Result<U, E>)
    ensures var r := Comprehension(s, keep, f);
            && (r.Success? <==> forall i :: 0 <= i < |s| && keep(s[i]) ==> f(s[i]).Success?)
            && (r.Failure? ==> exists i :: 0 <= i < |s| && keep(s[i]) && f(s[i]) == Failure(r.error)
                                           && forall j :: 0 <= j < i && keep(s[j]) ==> f(s[j]).Success?)
            && (r.Success? ==> |r.value| == |Filter(s, keep)|
                               && forall i :: 0 <= i < |r.value| ==> f(Filter(s, keep)[i]) == Success(r.value[i]))
  {
    if s != [] {
      var init := s[..|s| - 1];
      var x := s[|s| - 1];
      ComprehensionSpec(init, keep, f);
      assert forall i :: 0 <= i < |init| ==> init[i] == s[i];
      var r0 := Comprehension(init, keep, f);
      if r0.Success? {
        if !keep(x) {
          assert Filter(s, keep) == Filter(init, keep);
        } else if f(x).Success? {
          assert Filter(s, keep) == Filter(init, keep) + [x];
        }
      }
    }
  }

  lemma FilterAppend<T>(a: seq<T>, b: seq<T>, p: T -> bool)
    ensures Filter(a + b, p) == Filter(a, p) + Filter(b, p)
    decreases |b|
  {
    if b == [] {
      assert a + b == a;
    } else {
      assert (a + b)[..|a + b| - 1] == a + b[..|b| - 1];
      FilterAppend(a, b[..|b| - 1], p);
    }
  }
}
