/** The two-argument `max` function template of C++/code/funcTemplates.cpp,
    instantiated at the real numbers. */
module Templates {

  /** `(x > y) ? x : y`: the larger argument, and `y` when neither is larger. */
  function Max(x: real, y: real): (r: real)
    ensures r >= x && r >= y
    ensures r == x || r == y
    ensures x > y ==> r == x
    ensures !(x > y) ==> r == y
  {
    if x > y then x else y
  }

  /** An upper bound of both arguments that is one of them is the maximum:
      the bound and membership clauses of `Max` pin its result down. */
  lemma MaxIsLeastBoundAmongArguments(x: real, y: real, m: real)
    requires m >= x && m >= y
    requires m == x || m == y
    ensures m == Max(x, y)
  {
  }

  /** `Max` is commutative on values, although the conditional is not
      symmetric in how it breaks ties. */
  lemma MaxCommutes(x: real, y: real)
    ensures Max(x, y) == Max(y, x)
  {
  }
}
