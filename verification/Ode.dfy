/** Systems of ordinary differential equations, whose evaluations are counted. */
module Odes {
  import opened Vectors

  /** A flow has as many components as the state it is evaluated at. */
  ghost predicate Shaped(flow: (real, Vec) -> Vec) {
    forall t: real, x: Vec :: |flow(t, x)| == |x|
  }

  class Ode {
    const flow: (real, Vec) -> Vec
    var numFunctionCalls: nat

    constructor (flow: (real, Vec) -> Vec)
      ensures this.flow == flow && numFunctionCalls == 0
    {
      this.flow := flow;
      numFunctionCalls := 0;
    }
  }

  /** A vector that is passed by reference. */
  class Cell {
    var value: Vec

    constructor (value: Vec)
      ensures this.value == value
    {
      this.value := value;
    }
  }

  /** Evaluates the flow; throws (ok is false) once the counter exceeds maxNumSteps. */
  method SystemFunction(system: Ode, maxNumSteps: nat, x: Vec, t: real) returns (ok: bool, dxdt: Vec)
    modifies system`numFunctionCalls
    ensures dxdt == system.flow(t, x)
    ensures system.numFunctionCalls == old(system.numFunctionCalls) + 1
    ensures ok <==> system.numFunctionCalls <= maxNumSteps
  {
    dxdt := system.flow(t, x);
    system.numFunctionCalls := system.numFunctionCalls + 1;
    ok := system.numFunctionCalls <= maxNumSteps;
  }
}
