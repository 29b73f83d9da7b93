/** The operations of the GraphQL roots (app/graphqlroot.js and
    graphqlroot.js) and of app/domainlogic.js, with their arguments as the
    JavaScript values the resolvers receive. */
module GraphQlOperations {
  import opened UntypedTests

  datatype Operation =
    | CreateTest(prompt: Value, solution: Value)
    | TestQuery(id: Value)
    | TestsQuery(substring: Value)
    | UpdateTest(id: Value, prompt: Value, solution: Value, isMinor: bool)  // `isMinor` as its truth value
    | FindNextTest
}
