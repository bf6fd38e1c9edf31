/**
 * The solver vocabulary of pyomo.opt that the modelled code inspects: the solver
 * status, the termination condition and the solution status reported with a result.
 * The enumerations are those of pyomo.opt; the solvers themselves are not modelled.
 */
module SolverTypes {

  /** `SolverStatus` of pyomo.opt. */
  datatype SolverStatus = StatusOk | StatusWarning | StatusError | StatusAborted | StatusUnknown

  /** `TerminationCondition` of pyomo.opt. */
  datatype TerminationCondition =
    | Unknown
    | MaxTimeLimit
    | MaxIterations
    | MinFunctionValue
    | MinStepLength
    | GloballyOptimal
    | LocallyOptimal
    | Feasible
    | Optimal
    | MaxEvaluations
    | Other
    | Unbounded
    | Infeasible
    | InfeasibleOrUnbounded
    | InvalidProblem
    | IntermediateNonInteger
    | NoSolution
    | SolverFailure
    | InternalSolverError
    | Error
    | UserInterrupt
    | ResourceInterrupt
    | LicensingProblem

  /** `SolutionStatus` of pyomo.opt. */
  datatype SolutionStatus =
    | SolutionOptimal | SolutionFeasible | SolutionInfeasible | SolutionUnbounded
    | SolutionUnsure | SolutionError | SolutionOther | SolutionUnknown
}
