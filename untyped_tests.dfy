/** What the two JavaScript stores (app/filedb.js and arraydb.js) share: the
    untyped values their callers pass, the type checks `createTest` and
    `updateTest` make, and the stored test record. */
module UntypedTests {
  import opened Common
  import opened Seqs
  import Text

  /** A JavaScript value, as far as the type checks tell values apart. */
  datatype Value =
    | Undefined
    | Str(s: string)   // `typeof v === "string"`
    | Num(n: int)      // `typeof v === "number"`; only integers are modelled
    | Date(ms: int)    // `v instanceof Date`, by its time value
    | Other            // null, booleans, plain objects, ...

  /** The properties of a test, in the order `createTest` checks them. */
  datatype Field = Id | Prompt | Solution | StateField | ChangeTime | LastTicks | NextTime

  /** The object passed to `createTest` or `updateTest`. An absent property
      and one set to `undefined` destructure to the same `Undefined`. */
  datatype TestInput = TestInput(
    id: Value,
    prompt: Value,
    solution: Value,
    state: Value,
    changeTime: Value,
    lastTicks: Value,
    nextTime: Value)

  /** A stored test: every property has passed its type check. */
  datatype Test = Test(
    id: string,
    prompt: string,
    solution: string,
    state: string,
    changeTime: int,
    lastTicks: int,
    nextTime: int)

  /** `new TypeError(...)` naming a property, or `new Error("Key already
      exists!")`. */
  datatype DbError = TypeError(field: Field) | KeyAlreadyExists

  /** `Object.values(states)` of the state module. */
  const States: set<string> := {"New", "Ok", "Failed"}

  /** The order of the checks in `createTest`. */
  const CreateOrder: seq<Field> := [Id, Prompt, Solution, StateField, ChangeTime, LastTicks, NextTime]

  /** The order of the checks and assignments in `updateTest`. */
  const UpdateOrder: seq<Field> := [Prompt, Solution, StateField, ChangeTime, LastTicks, NextTime]

  /** A call the domain logic and GraphQL roots make on a JavaScript store. */
  datatype DbCall =
    | CreateTestCall(input: TestInput)
    | GetTestCall(id: Value)
    | FindTestsCall(substring: Value)
    | UpdateTestCall(input: TestInput)
    | FindNextTestCall(time: int)

  function ValueOf(u: TestInput, f: Field): Value
  {
    match f
    case Id => u.id
    case Prompt => u.prompt
    case Solution => u.solution
    case StateField => u.state
    case ChangeTime => u.changeTime
    case LastTicks => u.lastTicks
    case NextTime => u.nextTime
  }

  /** A stored property, as the value it was stored from. */
  function Get(t: Test, f: Field): Value
  {
    match f
    case Id => Str(t.id)
    case Prompt => Str(t.prompt)
    case Solution => Str(t.solution)
    case StateField => Str(t.state)
    case ChangeTime => Date(t.changeTime)
    case LastTicks => Num(t.lastTicks)
    case NextTime => Date(t.nextTime)
  }

  /** A test is determined by its properties. */
  lemma TestExtensional(a: Test, b: Test)
    requires forall f :: Get(a, f) == Get(b, f)
    ensures a == b
  {
    assert Get(a, Id) == Get(b, Id) && Get(a, Prompt) == Get(b, Prompt);
    assert Get(a, Solution) == Get(b, Solution) && Get(a, StateField) == Get(b, StateField);
    assert Get(a, ChangeTime) == Get(b, ChangeTime) && Get(a, LastTicks) == Get(b, LastTicks);
    assert Get(a, NextTime) == Get(b, NextTime);
  }

  /** The JavaScript type a property must have. */
  predicate HasType(f: Field, v: Value)
  {
    match f
    case Id | Prompt | Solution | StateField => v.Str?
    case ChangeTime | NextTime => v.Date?
    case LastTicks => v.Num?
  }

  /** The check made of a property: its type and, where `strictStates`
      (app/filedb.js), a state among `States`; arraydb.js only asks the state
      to be a string. */
  predicate WellTyped(f: Field, v: Value, strictStates: bool)
  {
    HasType(f, v) && (f == StateField && strictStates ==> v.s in States)
  }

  /** The input as a stored test. */
  function ToTest(u: TestInput): (t: Test)
    requires forall f :: HasType(f, ValueOf(u, f))
    ensures forall f :: Get(t, f) == ValueOf(u, f)
  {
    assert HasType(Id, ValueOf(u, Id)) && HasType(Prompt, ValueOf(u, Prompt));
    assert HasType(Solution, ValueOf(u, Solution)) && HasType(StateField, ValueOf(u, StateField));
    assert HasType(ChangeTime, ValueOf(u, ChangeTime)) && HasType(LastTicks, ValueOf(u, LastTicks));
    assert HasType(NextTime, ValueOf(u, NextTime));
    Test(u.id.s, u.prompt.s, u.solution.s, u.state.s, u.changeTime.ms, u.lastTicks.n, u.nextTime.ms)
  }

  /** The place of a property in `CreateOrder`. */
  function Rank(f: Field): (k: nat)
    ensures k < |CreateOrder| && CreateOrder[k] == f
  {
    match f
    case Id => 0
    case Prompt => 1
    case Solution => 2
    case StateField => 3
    case ChangeTime => 4
    case LastTicks => 5
    case NextTime => 6
  }

  /** Every property passes its check when each of the seven does. */
  lemma AllWellTyped(u: TestInput, strictStates: bool)
    ensures (forall f :: WellTyped(f, ValueOf(u, f), strictStates)) <==>
      && u.id.Str? && u.prompt.Str? && u.solution.Str?
      && u.state.Str? && (strictStates ==> u.state.s in States)
      && u.changeTime.Date? && u.lastTicks.Num? && u.nextTime.Date?
  {
    if forall f :: WellTyped(f, ValueOf(u, f), strictStates) {
      assert WellTyped(Id, ValueOf(u, Id), strictStates);
      assert WellTyped(Prompt, ValueOf(u, Prompt), strictStates);
      assert WellTyped(Solution, ValueOf(u, Solution), strictStates);
      assert WellTyped(StateField, ValueOf(u, StateField), strictStates);
      assert WellTyped(ChangeTime, ValueOf(u, ChangeTime), strictStates);
      assert WellTyped(LastTicks, ValueOf(u, LastTicks), strictStates);
      assert WellTyped(NextTime, ValueOf(u, NextTime), strictStates);
    }
  }

  /** The property `createTest` throws a `TypeError` for: the first in
      `CreateOrder` that fails its check, `undefined` failing every check;
      `state` is checked as `strictStates` says. */
  function CreateError(u: TestInput, strictStates: bool): (r: Option<Field>)
    ensures r.None? <==> forall f :: WellTyped(f, ValueOf(u, f), strictStates)
    ensures r.Some? ==> !WellTyped(r.value, ValueOf(u, r.value), strictStates)
    ensures r.Some? ==> forall g :: Rank(g) < Rank(r.value) ==> WellTyped(g, ValueOf(u, g), strictStates)
  {
    AllWellTyped(u, strictStates);
    if !u.id.Str? then Some(Id)
    else if !u.prompt.Str? then Some(Prompt)
    else if !u.solution.Str? then Some(Solution)
    else if !(u.state.Str? && (strictStates ==> u.state.s in States)) then Some(StateField)
    else if !u.changeTime.Date? then Some(ChangeTime)
    else if !u.lastTicks.Num? then Some(LastTicks)
    else if !u.nextTime.Date? then Some(NextTime)
    else None
  }

  /** A property `updateTest` lets through: undefined, or well typed. */
  predicate Acceptable(u: TestInput, f: Field, strictStates: bool)
  {
    ValueOf(u, f).Undefined? || WellTyped(f, ValueOf(u, f), strictStates)
  }

  /** The property the new value of `f` comes from: the update's, when defined. */
  function Updated(t: Test, u: TestInput, f: Field): Value
  {
    if ValueOf(u, f).Undefined? then Get(t, f) else ValueOf(u, f)
  }

  /** `test.<f> = v`. */
  function Assign(t: Test, f: Field, v: Value): (r: Test)
    requires HasType(f, v)
    ensures Get(r, f) == v
    ensures forall g :: g != f ==> Get(r, g) == Get(t, g)
  {
    match f
    case Id => t.(id := v.s)
    case Prompt => t.(prompt := v.s)
    case Solution => t.(solution := v.s)
    case StateField => t.(state := v.s)
    case ChangeTime => t.(changeTime := v.ms)
    case LastTicks => t.(lastTicks := v.n)
    case NextTime => t.(nextTime := v.ms)
  }

  predicate Distinct(fields: seq<Field>)
  {
    forall i, j :: 0 <= i < j < |fields| ==> fields[i] != fields[j]
  }

  /** Where `updateTest` stops when it goes through `fields` from index `n`:
      at the first property it rejects, or at the end. */
  function StopIndex(u: TestInput, fields: seq<Field>, n: nat, strictStates: bool): (k: nat)
    requires n <= |fields|
    decreases |fields| - n
    ensures n <= k <= |fields|
    ensures k < |fields| ==> !Acceptable(u, fields[k], strictStates)
    ensures forall j :: n <= j < k ==> Acceptable(u, fields[j], strictStates)
  {
    if n == |fields| then n
    else if !Acceptable(u, fields[n], strictStates) then n
    else StopIndex(u, fields, n + 1, strictStates)
  }

  /** The `updateTest` steps for `fields` from index `n` on the matching
      test: skip an undefined property, throw for an ill-typed one, assign a
      well-typed one. The test as left behind, and the property thrown for. */
  function UpdateFrom(t: Test, u: TestInput, fields: seq<Field>, n: nat, strictStates: bool): (Test, Option<Field>)
    requires n <= |fields|
    decreases |fields| - n
  {
    if n == |fields| then (t, None)
    else
      var f := fields[n];
      var v := ValueOf(u, f);
      if v.Undefined? then UpdateFrom(t, u, fields, n + 1, strictStates)
      else if !WellTyped(f, v, strictStates) then (t, Some(f))
      else UpdateFrom(Assign(t, f, v), u, fields, n + 1, strictStates)
  }

  /** The steps along `UpdateOrder`, property by property. */
  lemma UpdateOrderStep(t: Test, u: TestInput, n: nat, strictStates: bool)
    requires n < |UpdateOrder|
    ensures n == 0 ==>
      UpdateFrom(t, u, UpdateOrder, 0, strictStates) ==
        if u.prompt.Undefined? then UpdateFrom(t, u, UpdateOrder, 1, strictStates)
        else if !u.prompt.Str? then (t, Some(Prompt))
        else UpdateFrom(t.(prompt := u.prompt.s), u, UpdateOrder, 1, strictStates)
    ensures n == 1 ==>
      UpdateFrom(t, u, UpdateOrder, 1, strictStates) ==
        if u.solution.Undefined? then UpdateFrom(t, u, UpdateOrder, 2, strictStates)
        else if !u.solution.Str? then (t, Some(Solution))
        else UpdateFrom(t.(solution := u.solution.s), u, UpdateOrder, 2, strictStates)
    ensures n == 2 ==>
      UpdateFrom(t, u, UpdateOrder, 2, strictStates) ==
        if u.state.Undefined? then UpdateFrom(t, u, UpdateOrder, 3, strictStates)
        else if !(u.state.Str? && (strictStates ==> u.state.s in States)) then (t, Some(StateField))
        else UpdateFrom(t.(state := u.state.s), u, UpdateOrder, 3, strictStates)
    ensures n == 3 ==>
      UpdateFrom(t, u, UpdateOrder, 3, strictStates) ==
        if u.changeTime.Undefined? then UpdateFrom(t, u, UpdateOrder, 4, strictStates)
        else if !u.changeTime.Date? then (t, Some(ChangeTime))
        else UpdateFrom(t.(changeTime := u.changeTime.ms), u, UpdateOrder, 4, strictStates)
    ensures n == 4 ==>
      UpdateFrom(t, u, UpdateOrder, 4, strictStates) ==
        if u.lastTicks.Undefined? then UpdateFrom(t, u, UpdateOrder, 5, strictStates)
        else if !u.lastTicks.Num? then (t, Some(LastTicks))
        else UpdateFrom(t.(lastTicks := u.lastTicks.n), u, UpdateOrder, 5, strictStates)
    ensures n == 5 ==>
      UpdateFrom(t, u, UpdateOrder, 5, strictStates) ==
        if u.nextTime.Undefined? then UpdateFrom(t, u, UpdateOrder, 6, strictStates)
        else if !u.nextTime.Date? then (t, Some(NextTime))
        else UpdateFrom(t.(nextTime := u.nextTime.ms), u, UpdateOrder, 6, strictStates)
  {
  }

  /** The steps throw for the first rejected property, if any. */
  lemma {:induction false} UpdateFromError(t: Test, u: TestInput, fields: seq<Field>, n: nat, strictStates: bool)
    requires n <= |fields|
    decreases |fields| - n
    ensures var k := StopIndex(u, fields, n, strictStates);
      UpdateFrom(t, u, fields, n, strictStates).1 == (if k < |fields| then Some(fields[k]) else None)
  {
    if n < |fields| {
      var v := ValueOf(u, fields[n]);
      if v.Undefined? {
        UpdateFromError(t, u, fields, n + 1, strictStates);
      } else if WellTyped(fields[n], v, strictStates) {
        UpdateFromError(Assign(t, fields[n], v), u, fields, n + 1, strictStates);
      }
    }
  }

  /** Every property before the one thrown for that is defined has been
      assigned and undefined ones are as they were; it and every later
      property are untouched, as is anything not among the properties gone
      through. */
  lemma {:induction false} UpdateFromValues(t: Test, u: TestInput, fields: seq<Field>, n: nat, strictStates: bool)
    requires n <= |fields| && Distinct(fields)
    decreases |fields| - n
    ensures var k := StopIndex(u, fields, n, strictStates);
      forall j :: n <= j < k ==>
        Get(UpdateFrom(t, u, fields, n, strictStates).0, fields[j]) == Updated(t, u, fields[j])
    ensures var k := StopIndex(u, fields, n, strictStates);
      forall j :: k <= j < |fields| ==>
        Get(UpdateFrom(t, u, fields, n, strictStates).0, fields[j]) == Get(t, fields[j])
    ensures forall g :: (forall j :: n <= j < |fields| ==> fields[j] != g) ==>
      Get(UpdateFrom(t, u, fields, n, strictStates).0, g) == Get(t, g)
  {
    if n < |fields| {
      var f := fields[n];
      var v := ValueOf(u, f);
      if v.Undefined? {
        UpdateFromValues(t, u, fields, n + 1, strictStates);
      } else if WellTyped(f, v, strictStates) {
        var t1 := Assign(t, f, v);
        UpdateFromValues(t1, u, fields, n + 1, strictStates);
        assert forall g :: g != f ==> Updated(t1, u, g) == Updated(t, u, g);
      }
    }
  }

  /** Undefined properties are skipped. */
  lemma {:induction false} UpdateFromSkipsUndefined(t: Test, u: TestInput, fields: seq<Field>, n: nat, strictStates: bool)
    requires n <= |fields|
    requires forall j :: n <= j < |fields| ==> ValueOf(u, fields[j]).Undefined?
    decreases |fields| - n
    ensures UpdateFrom(t, u, fields, n, strictStates) == (t, None)
  {
    if n < |fields| {
      UpdateFromSkipsUndefined(t, u, fields, n + 1, strictStates);
    }
  }

  /** An update naming only the test changes nothing. */
  lemma UpdateNothing(t: Test, u: TestInput, strictStates: bool)
    requires forall f :: f != Id ==> ValueOf(u, f).Undefined?
    ensures UpdateFrom(t, u, UpdateOrder, 0, strictStates) == (t, None)
  {
    assert forall j :: 0 <= j < |UpdateOrder| ==> UpdateOrder[j] != Id;
    UpdateFromSkipsUndefined(t, u, UpdateOrder, 0, strictStates);
  }
}
