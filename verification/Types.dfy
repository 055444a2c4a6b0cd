/** Function approximations shared by the solvers, and the outcome of operations that can throw. */
module Types {
  import opened Vectors

  /** f(x + dx, u + du) = f + dfdx dx + dfdu du. */
  datatype LinearApprox = LinearApprox(f: Vec, dfdx: Mat, dfdu: Mat)

  /** c + q'x + r'u + x'Qx/2 + u'Px + u'Ru/2, with Q = dfdxx, P = dfdux, R = dfduu, q = dfdx, r = dfdu, c = f. */
  datatype QuadraticApprox = QuadraticApprox(f: real, dfdx: Vec, dfdu: Vec, dfdxx: Mat, dfdux: Mat, dfduu: Mat)

  datatype Option<+T> = None | Some(value: T)

  /** A value, or the exception the program throws instead. */
  datatype Result<+T> = Ok(value: T) | Err(message: string)

  ghost predicate CostFits(cost: QuadraticApprox, nx: nat, nu: nat) {
    && cost.dfdxx.cols == |cost.dfdxx.rows| == nx && |cost.dfdx| == nx
    && cost.dfdux.cols == nx && |cost.dfdux.rows| == nu
    && cost.dfduu.cols == |cost.dfduu.rows| == nu && |cost.dfdu| == nu
  }

  /** The value of a quadratic approximation at (x, u). */
  function QuadraticValue(c: QuadraticApprox, x: Vec, u: Vec): real
    requires CostFits(c, |x|, |u|)
  {
    c.f + Dot(c.dfdx, x) + Dot(c.dfdu, u)
    + 0.5 * Dot(x, MulV(c.dfdxx, x)) + Dot(u, MulV(c.dfdux, x)) + 0.5 * Dot(u, MulV(c.dfduu, u))
  }
}
