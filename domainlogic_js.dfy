/** The JavaScript test domain logic (app/domainlogic.js): every operation
    makes exactly one call on the store and returns the store's answer
    unchanged, so the model of an operation is the call it makes. The
    current time and the fresh id are the `now` and `uuid` parameters. */
module DomainLogicJs {
  import opened Common
  import opened Time
  import opened UntypedTests
  import opened GraphQlOperations

  /** `states.New`. */
  const StateNew: string := "New"

  /** The test `createTest` sends: new, changed now, no ticks, due in ten
      minutes. */
  function NewTestInput(prompt: Value, solution: Value, now: int, uuid: string): TestInput
  {
    TestInput(Str(uuid), prompt, solution, Str(StateNew), Date(now), Num(0), Date(AddMinutes(now, 10)))
  }

  /** A minor `updateTest`: only `{id, prompt, solution}`. */
  function MinorInput(id: Value, prompt: Value, solution: Value): TestInput
  {
    TestInput(id, prompt, solution, Undefined, Undefined, Undefined, Undefined)
  }

  /** A major `updateTest`: the text, and the test scheduled afresh. */
  function MajorInput(id: Value, prompt: Value, solution: Value, now: int): TestInput
  {
    TestInput(id, prompt, solution, Str(StateNew), Date(now), Num(0), Date(AddMinutes(now, 30)))
  }

  /** The one store call each operation makes. */
  function Handle(op: Operation, now: int, uuid: string): DbCall
  {
    match op
    case CreateTest(prompt, solution) => CreateTestCall(NewTestInput(prompt, solution, now, uuid))
    case TestQuery(id) => GetTestCall(id)
    case TestsQuery(substring) => FindTestsCall(substring)
    case UpdateTest(id, prompt, solution, isMinor) =>
      UpdateTestCall(if isMinor then MinorInput(id, prompt, solution) else MajorInput(id, prompt, solution, now))
    case FindNextTest => FindNextTestCall(now)
  }

  /** The test `createTest` sends passes every check of either JavaScript
      store exactly when the prompt and the solution are strings, and is then
      stored as a new test due in ten minutes; otherwise the store throws for
      the first of the two that is not. */
  lemma CreateAccepted(prompt: Value, solution: Value, now: int, uuid: string, strictStates: bool)
    ensures var input := NewTestInput(prompt, solution, now, uuid);
      CreateError(input, strictStates) ==
        if !prompt.Str? then Some(Prompt)
        else if !solution.Str? then Some(Solution)
        else None
    ensures prompt.Str? && solution.Str? ==>
      ToTest(NewTestInput(prompt, solution, now, uuid)) ==
        Test(uuid, prompt.s, solution.s, "New", now, 0, now + 10 * MillisPerMinute)
  {
    var input := NewTestInput(prompt, solution, now, uuid);
    if prompt.Str? && solution.Str? {
      AllWellTyped(input, strictStates);
    }
  }

  /** The text a JavaScript store keeps after an update whose `prompt` and
      `solution` are `prompt` and `solution`: each defined string is taken
      over, an undefined one skipped, and the first value of another type
      stops the update, leaving what came before it assigned. */
  function TextAfter(t: Test, prompt: Value, solution: Value): Test
  {
    if !(prompt.Undefined? || prompt.Str?) then t
    else
      var t1 := if prompt.Str? then t.(prompt := prompt.s) else t;
      if solution.Str? then t1.(solution := solution.s) else t1
  }

  /** The property such an update throws for, if any. */
  function TextError(prompt: Value, solution: Value): Option<Field>
  {
    if !(prompt.Undefined? || prompt.Str?) then Some(Prompt)
    else if !(solution.Undefined? || solution.Str?) then Some(Solution)
    else None
  }

  /** A minor update changes the text and nothing else, on either store. */
  lemma {:induction false} MinorEffect(t: Test, id: Value, prompt: Value, solution: Value, strictStates: bool)
    ensures UpdateFrom(t, MinorInput(id, prompt, solution), UpdateOrder, 0, strictStates) ==
      (TextAfter(t, prompt, solution), TextError(prompt, solution))
  {
    var u := MinorInput(id, prompt, solution);
    UpdateOrderStep(t, u, 0, strictStates);
    if prompt.Undefined? || prompt.Str? {
      var t1 := if prompt.Str? then t.(prompt := prompt.s) else t;
      UpdateOrderStep(t1, u, 1, strictStates);
      if solution.Undefined? || solution.Str? {
        var t2 := if solution.Str? then t1.(solution := solution.s) else t1;
        UpdateFromSkipsUndefined(t2, u, UpdateOrder, 2, strictStates);
      }
    }
  }

  /** A major update changes the text the same way and, when the text is
      accepted, restarts the schedule: new, changed now, no ticks, due in
      thirty minutes. */
  lemma {:induction false} MajorEffect(t: Test, id: Value, prompt: Value, solution: Value, now: int, strictStates: bool)
    ensures UpdateFrom(t, MajorInput(id, prompt, solution, now), UpdateOrder, 0, strictStates) ==
      if TextError(prompt, solution).Some? then (TextAfter(t, prompt, solution), TextError(prompt, solution))
      else
        (TextAfter(t, prompt, solution).(state := "New", changeTime := now, lastTicks := 0,
                                          nextTime := now + 30 * MillisPerMinute), None)
  {
    var u := MajorInput(id, prompt, solution, now);
    UpdateOrderStep(t, u, 0, strictStates);
    if prompt.Undefined? || prompt.Str? {
      var t1 := if prompt.Str? then t.(prompt := prompt.s) else t;
      UpdateOrderStep(t1, u, 1, strictStates);
      if solution.Undefined? || solution.Str? {
        var t2 := TextAfter(t, prompt, solution);
        UpdateOrderStep(t2, u, 2, strictStates);
        var t3 := t2.(state := "New");
        UpdateOrderStep(t3, u, 3, strictStates);
        var t4 := t3.(changeTime := now);
        UpdateOrderStep(t4, u, 4, strictStates);
        var t5 := t4.(lastTicks := 0);
        UpdateOrderStep(t5, u, 5, strictStates);
      }
    }
  }
}
