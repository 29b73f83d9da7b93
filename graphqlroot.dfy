/** The older GraphQL root (graphqlroot.js): only `test`, `tests` and
    `updateTest`; its minor update spells out the four scheduling properties
    as `undefined`. */
module GraphQlRoot {
  import opened Common
  import opened Time
  import opened UntypedTests
  import opened GraphQlOperations
  import GraphQlRootApp

  /** The store call an operation makes; `None` for the operations this root
      does not have. */
  function Handle(op: Operation, now: int): Option<DbCall>
  {
    match op
    case TestQuery(id) => Some(GetTestCall(id))
    case TestsQuery(substring) => Some(FindTestsCall(substring))
    case UpdateTest(id, prompt, solution, isMinor) =>
      if isMinor then
        Some(UpdateTestCall(TestInput(id, prompt, solution, Undefined, Undefined, Undefined, Undefined)))
      else
        Some(UpdateTestCall(TestInput(id, prompt, solution, Str("New"), Date(now), Num(0), Date(AddMinutes(now, 30)))))
    case _ => None
  }

  /** The operations this root has make the call the newer root makes; an
      explicitly undefined property is the same as an absent one. */
  lemma SameAsAppRoot(op: Operation, now: int, uuid: string)
    ensures op.TestQuery? || op.TestsQuery? || op.UpdateTest? ==>
      Handle(op, now) == Some(GraphQlRootApp.Handle(op, now, uuid))
    ensures op.CreateTest? || op.FindNextTest? ==> Handle(op, now).None?
  {
  }
}
