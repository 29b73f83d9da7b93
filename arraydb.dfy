/** The in-memory JavaScript test store (arraydb.js): the same checks as the
    file store, except that any string is accepted as a state, and nothing is
    written anywhere. */
module ArrayDb {
  import opened Common
  import opened Seqs
  import Text
  import opened UntypedTests

  /** `test.id === id`: only a string can equal a stored id. */
  function HasId(id: Value): Test -> bool
  {
    (t: Test) => id == Str(t.id)
  }

  predicate MatchesText(t: Test, substring: string)
  {
    Text.Includes(t.prompt, substring) || Text.Includes(t.solution, substring)
  }

  function Matching(substring: string): Test -> bool
  {
    (t: Test) => MatchesText(t, substring)
  }

  function DueAt(time: int): Test -> bool
  {
    (t: Test) => t.nextTime <= time
  }

  function NextTimeOf(t: Test): int
  {
    t.nextTime
  }

  /** The store the factory returns, with the array it closes over. */
  class ArrayDb {
    var data: seq<Test>

    /** The factory: a fresh, empty array. */
    constructor ()
      ensures data == []
    {
      data := [];
    }

    /** `createTest`: a `TypeError` for the first property that fails its
        check, before anything else; then "Key already exists!" for an id
        already present; otherwise the test is appended. */
    method CreateTest(u: TestInput) returns (r: Result<(), DbError>)
      modifies this
      ensures CreateError(u, false).Some? ==> r == Thrown(TypeError(CreateError(u, false).value))
      ensures CreateError(u, false).None? ==>
        (r == Thrown(KeyAlreadyExists) <==> exists t :: t in old(data) && HasId(u.id)(t))
      ensures r.Thrown? ==> data == old(data)
      ensures r.Returned? ==>
        && CreateError(u, false).None?
        && data == old(data) + [ToTest(u)]
    {
      if !u.id.Str? {
        return Thrown(TypeError(Id));
      }
      if !u.prompt.Str? {
        return Thrown(TypeError(Prompt));
      }
      if !u.solution.Str? {
        return Thrown(TypeError(Solution));
      }
      if !u.state.Str? {
        return Thrown(TypeError(StateField));
      }
      if !u.changeTime.Date? {
        return Thrown(TypeError(ChangeTime));
      }
      if !u.lastTicks.Num? {
        return Thrown(TypeError(LastTicks));
      }
      if !u.nextTime.Date? {
        return Thrown(TypeError(NextTime));
      }
      var sameId := FilterSeq(data, HasId(u.id));
      if |sameId| > 0 {
        assert sameId[0] in sameId;
        return Thrown(KeyAlreadyExists);
      }
      forall t | t in data
        ensures !HasId(u.id)(t)
      {
        assert t in sameId <==> t in data && HasId(u.id)(t);
      }
      data := data + [ToTest(u)];
      r := Returned(());
    }
  
    /** `getTest`: the first test with the id, or undefined. */
    method GetTest(id: Value) returns (r: Option<Test>)
      ensures r.None? <==> forall t :: t in data ==> !HasId(id)(t)
      ensures r.Some? ==>
        var k := FirstIndex(data, HasId(id));
        k.Some? && r.value == data[k.value] && HasId(id)(r.value)
    {
      var hits := FilterSeq(data, HasId(id));
      FilterHead(data, HasId(id));
      if |hits| > 0 {
        r := Some(hits[0]);
      } else {
        r := None;
      }
    }

    /** `findTests`: the tests whose prompt or solution contains the
        substring, case-sensitively, in store order. */
    method FindTests(substring: string) returns (r: seq<Test>)
      ensures r == Filter(data, Matching(substring))
      ensures forall t :: t in r <==> t in data && MatchesText(t, substring)
    {
      r := FilterSeq(data, Matching(substring));
    }

    /** `updateTest`: on the first test with the id, each property in
        `UpdateOrder` that is defined is checked and assigned in turn; an
        ill-typed one throws a `TypeError`, with the properties before it
        already assigned. Undefined, with nothing changed, when no test has
        the id. */
    method UpdateTest(u: TestInput) returns (r: Result<Option<Test>, DbError>)
      modifies this
      ensures FirstIndex(old(data), HasId(u.id)).None? ==>
        r == Returned(None) && data == old(data)
      ensures FirstIndex(old(data), HasId(u.id)).Some? ==>
        var k := FirstIndex(old(data), HasId(u.id)).value;
        var (t, error) := UpdateFrom(old(data)[k], u, UpdateOrder, 0, false);
        && data == old(data)[k := t]
        && (error.None? ==> r == Returned(Some(t)))
        && (error.Some? ==> r == Thrown(TypeError(error.value)))
    {
      var i := 0;
      while i < |data|
        invariant 0 <= i <= |data|
        invariant data == old(data)
        invariant forall j :: 0 <= j < i ==> !HasId(u.id)(data[j])
      {
        if !HasId(u.id)(data[i]) {
          i := i + 1;
          continue;
        }
        assert FirstIndex(data, HasId(u.id)) == Some(i);
        r := UpdateAt(i, u);
        return;
      }
      r := Returned(None);
    }

    /** The body of the `updateTest` loop for the matching test at `i`:
        check and assign the defined properties in turn. */
    method UpdateAt(i: nat, u: TestInput) returns (r: Result<Option<Test>, DbError>)
      requires i < |data|
      modifies this
      ensures
        var (t, error) := UpdateFrom(old(data)[i], u, UpdateOrder, 0, false);
        && data == old(data)[i := t]
        && r == (if error.None? then Returned(Some(t)) else Thrown(TypeError(error.value)))
    {
      // `test` is the element itself: what is assigned to it lands in `data`,
      // also when a later check throws.
      var test := data[i];
      UpdateOrderStep(test, u, 0, false);
      if !u.prompt.Undefined? {
        if u.prompt.Str? {
          test := test.(prompt := u.prompt.s);
        } else {
          data := data[i := test];
          return Thrown(TypeError(Prompt));
        }
      }
      UpdateOrderStep(test, u, 1, false);
      if !u.solution.Undefined? {
        if u.solution.Str? {
          test := test.(solution := u.solution.s);
        } else {
          data := data[i := test];
          return Thrown(TypeError(Solution));
        }
      }
      UpdateOrderStep(test, u, 2, false);
      if !u.state.Undefined? {
        if u.state.Str? {
          test := test.(state := u.state.s);
        } else {
          data := data[i := test];
          return Thrown(TypeError(StateField));
        }
      }
      UpdateOrderStep(test, u, 3, false);
      if !u.changeTime.Undefined? {
        if u.changeTime.Date? {
          test := test.(changeTime := u.changeTime.ms);
        } else {
          data := data[i := test];
          return Thrown(TypeError(ChangeTime));
        }
      }
      UpdateOrderStep(test, u, 4, false);
      if !u.lastTicks.Undefined? {
        if u.lastTicks.Num? {
          test := test.(lastTicks := u.lastTicks.n);
        } else {
          data := data[i := test];
          return Thrown(TypeError(LastTicks));
        }
      }
      UpdateOrderStep(test, u, 5, false);
      if !u.nextTime.Undefined? {
        if u.nextTime.Date? {
          test := test.(nextTime := u.nextTime.ms);
        } else {
          data := data[i := test];
          return Thrown(TypeError(NextTime));
        }
      }
      data := data[i := test];
      r := Returned(Some(test));
    }

  }
}
