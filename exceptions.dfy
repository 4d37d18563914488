/**
 * The exceptions the Python core raises, one constructor per raise site kind.
 * Each carries the values its message names; `str(e)` of the source is the
 * message built from them, which the model keeps as the structured value.
 */
module Exceptions {

  datatype Exc =
    // backend_rewrite/parse_csv.py and backend/csv_parser.py
    | NoData
    | NoHeader(header: string)
    | BadEstimate(estimate: string)
    | BadDate(text: string)
    | UnknownStatus(status: string)
    | MissingKey(key: string)
    | IndexError
    // backend_rewrite/metadata.py and backend_rewrite/types.py
    | EmptyTeam(team: string)
    | InvalidAllocationSpec(person: string)
    | BadAllocation(text: string)
    | NotAFloat(text: string)
    | AssertionFailed
    // backend_rewrite/verify.py
    | UnknownAssignee(task: string, person: string)
    // backend_rewrite/scheduler.py
    | NoWayToInferEstimate(task: string)
    | UnexpectedDateLayout(task: string)
    | UnknownPersonId(id: int)
    | DependsOnDone(task: string, successor: string)
    // Python-level failures the code hits as written
    | TypeError(site: string)
    | RecursionError
    | EmptyMax
    | NotAnInt(text: string)
    | AttributeError(name: string)
    | ValueError(site: string)
    // backend/scheduler.py get_people
    | UnknownTeam(team: string)
    | InvalidTeamExpression(expr: string)
    | UnknownName(name: string)
    | NeverSettles(task: string)
    // backend/types.py Metadata.add_person
    | TeamIsPerson(name: string)
    | TeamNameTaken(team: string)
    | PersonNameTaken(person: string)
    // backend/milp_solve.py
    | MixedAssignment(task: string)
    | KeyError
    // backend/csv_parser.py metadata rows
    | InvalidDeclaration(keyword: string)
}
