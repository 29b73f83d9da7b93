/** The GraphQL root of the JavaScript application (app/graphqlroot.js): the
    same five operations as app/domainlogic.js, written out again with the
    state as the literal "New". */
module GraphQlRootApp {
  import opened Time
  import opened UntypedTests
  import opened GraphQlOperations
  import DomainLogicJs

  /** The one store call each operation makes. */
  function Handle(op: Operation, now: int, uuid: string): DbCall
  {
    match op
    case CreateTest(prompt, solution) =>
      CreateTestCall(TestInput(Str(uuid), prompt, solution, Str("New"), Date(now), Num(0), Date(AddMinutes(now, 10))))
    case TestQuery(id) => GetTestCall(id)
    case TestsQuery(substring) => FindTestsCall(substring)
    case UpdateTest(id, prompt, solution, isMinor) =>
      if isMinor then UpdateTestCall(TestInput(id, prompt, solution, Undefined, Undefined, Undefined, Undefined))
      else UpdateTestCall(TestInput(id, prompt, solution, Str("New"), Date(now), Num(0), Date(AddMinutes(now, 30))))
    case FindNextTest => FindNextTestCall(now)
  }

  /** Every operation makes the call app/domainlogic.js makes. */
  lemma SameAsDomainLogic(op: Operation, now: int, uuid: string)
    ensures Handle(op, now, uuid) == DomainLogicJs.Handle(op, now, uuid)
  {
  }
}
