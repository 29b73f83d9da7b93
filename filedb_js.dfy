/** The JavaScript test store kept in a JSON file (app/filedb.js): every
    property of a new test is type-checked, an update type-checks and assigns
    property by property and can throw halfway. */
module FileDbJs {
  import opened Common
  import opened Seqs
  import Text
  import opened UntypedTests

  /** `test.id === id`: only a string can equal a stored id. */
  function HasId(id: Value): Test -> bool
  {
    (t: Test) => id == Str(t.id)
  }

  predicate MatchesText(t: Test, substring: string)
  {
    Text.Includes(t.prompt, substring) || Text.Includes(t.solution, substring)
  }

  function Matching(substring: string): Test -> bool
  {
    (t: Test) => MatchesText(t, substring)
  }

  function DueAt(time: int): Test -> bool
  {
    (t: Test) => t.nextTime <= time
  }

  function NextTimeOf(t: Test): int
  {
    t.nextTime
  }

  /** `createEmptyDb()`. */
  method CreateEmptyDb(file: JsonFile<Test>)
    modifies file
    ensures file.records == []
  {
    file.Write([]);
  }

  /** One connection to the file. */
  class FileDb {
    const file: JsonFile<Test>
    var data: seq<Test>

    /** `connect()`. */
    constructor Connect(file: JsonFile<Test>)
      ensures this.file == file && data == file.records
    {
      this.file := file;
      data := file.records;
    }

    /** `createTest`: a `TypeError` for the first property that fails its
        check, before anything else; then "Key already exists!" for an id
        already present; otherwise the test is appended and the file written. */
    method CreateTest(u: TestInput) returns (r: Result<(), DbError>)
      modifies this, file
      ensures CreateError(u, true).Some? ==> r == Thrown(TypeError(CreateError(u, true).value))
      ensures CreateError(u, true).None? ==>
        (r == Thrown(KeyAlreadyExists) <==> exists t :: t in old(data) && HasId(u.id)(t))
      ensures r.Thrown? ==> data == old(data) && file.records == old(file.records)
      ensures r.Returned? ==>
        && CreateError(u, true).None?
        && data == old(data) + [ToTest(u)]
        && file.records == data
    {
      if !u.id.Str? {
        return Thrown(TypeError(Id));
      }
      if !u.prompt.Str? {
        return Thrown(TypeError(Prompt));
      }
      if !u.solution.Str? {
        return Thrown(TypeError(Solution));
      }
      if !(u.state.Str? && u.state.s in States) {
        return Thrown(TypeError(StateField));
      }
      if !u.changeTime.Date? {
        return Thrown(TypeError(ChangeTime));
      }
      if !u.lastTicks.Num? {
        return Thrown(TypeError(LastTicks));
      }
      if !u.nextTime.Date? {
        return Thrown(TypeError(NextTime));
      }
      var sameId := FilterSeq(data, HasId(u.id));
      if |sameId| > 0 {
        assert sameId[0] in sameId;
        return Thrown(KeyAlreadyExists);
      }
      forall t | t in data
        ensures !HasId(u.id)(t)
      {
        assert t in sameId <==> t in data && HasId(u.id)(t);
      }
      data := data + [ToTest(u)];
      file.Write(data);
      r := Returned(());
    }
  
    /** `getTest`: the first test with the id, or undefined. */
    method GetTest(id: Value) returns (r: Option<Test>)
      ensures r.None? <==> forall t :: t in data ==> !HasId(id)(t)
      ensures r.Some? ==>
        var k := FirstIndex(data, HasId(id));
        k.Some? && r.value == data[k.value] && HasId(id)(r.value)
    {
      var hits := FilterSeq(data, HasId(id));
      FilterHead(data, HasId(id));
      if |hits| > 0 {
        r := Some(hits[0]);
      } else {
        r := None;
      }
    }

    /** `findTests`: the tests whose prompt or solution contains the
        substring, case-sensitively, in store order. */
    method FindTests(substring: string) returns (r: seq<Test>)
      ensures r == Filter(data, Matching(substring))
      ensures forall t :: t in r <==> t in data && MatchesText(t, substring)
    {
      r := FilterSeq(data, Matching(substring));
    }

    /** `updateTest`: on the first test with the id, each property in
        `UpdateOrder` that is defined is checked and assigned in turn; an
        ill-typed one throws a `TypeError`, with the properties before it
        already assigned and the file not written. Undefined, with nothing
        written, when no test has the id. */
    method UpdateTest(u: TestInput) returns (r: Result<Option<Test>, DbError>)
      modifies this, file
      ensures FirstIndex(old(data), HasId(u.id)).None? ==>
        r == Returned(None) && data == old(data) && file.records == old(file.records)
      ensures FirstIndex(old(data), HasId(u.id)).Some? ==>
        var k := FirstIndex(old(data), HasId(u.id)).value;
        var (t, error) := UpdateFrom(old(data)[k], u, UpdateOrder, 0, true);
        && data == old(data)[k := t]
        && (error.None? ==> r == Returned(Some(t)) && file.records == data)
        && (error.Some? ==> r == Thrown(TypeError(error.value)) && file.records == old(file.records))
    {
      var i := 0;
      while i < |data|
        invariant 0 <= i <= |data|
        invariant data == old(data)
        invariant forall j :: 0 <= j < i ==> !HasId(u.id)(data[j])
      {
        if !HasId(u.id)(data[i]) {
          i := i + 1;
          continue;
        }
        assert FirstIndex(data, HasId(u.id)) == Some(i);
        r := UpdateAt(i, u);
        if r.Returned? {
          file.Write(data);
        }
        return;
      }
      r := Returned(None);
    }

    /** The body of the `updateTest` loop for the matching test at `i`, up
        to the file write: check and assign the defined properties in turn. */
    method UpdateAt(i: nat, u: TestInput) returns (r: Result<Option<Test>, DbError>)
      requires i < |data|
      modifies this
      ensures
        var (t, error) := UpdateFrom(old(data)[i], u, UpdateOrder, 0, true);
        && data == old(data)[i := t]
        && r == (if error.None? then Returned(Some(t)) else Thrown(TypeError(error.value)))
    {
      // `test` is the element itself: what is assigned to it lands in `data`,
      // also when a later check throws.
      var test := data[i];
      UpdateOrderStep(test, u, 0, true);
      if !u.prompt.Undefined? {
        if u.prompt.Str? {
          test := test.(prompt := u.prompt.s);
        } else {
          data := data[i := test];
          return Thrown(TypeError(Prompt));
        }
      }
      UpdateOrderStep(test, u, 1, true);
      if !u.solution.Undefined? {
        if u.solution.Str? {
          test := test.(solution := u.solution.s);
        } else {
          data := data[i := test];
          return Thrown(TypeError(Solution));
        }
      }
      UpdateOrderStep(test, u, 2, true);
      if !u.state.Undefined? {
        if u.state.Str? && u.state.s in States {
          test := test.(state := u.state.s);
        } else {
          data := data[i := test];
          return Thrown(TypeError(StateField));
        }
      }
      UpdateOrderStep(test, u, 3, true);
      if !u.changeTime.Undefined? {
        if u.changeTime.Date? {
          test := test.(changeTime := u.changeTime.ms);
        } else {
          data := data[i := test];
          return Thrown(TypeError(ChangeTime));
        }
      }
      UpdateOrderStep(test, u, 4, true);
      if !u.lastTicks.Undefined? {
        if u.lastTicks.Num? {
          test := test.(lastTicks := u.lastTicks.n);
        } else {
          data := data[i := test];
          return Thrown(TypeError(LastTicks));
        }
      }
      UpdateOrderStep(test, u, 5, true);
      if !u.nextTime.Undefined? {
        if u.nextTime.Date? {
          test := test.(nextTime := u.nextTime.ms);
        } else {
          data := data[i := test];
          return Thrown(TypeError(NextTime));
        }
      }
      data := data[i := test];
      r := Returned(Some(test));
    }

    /** `findNextTest(time)`: the head of the due tests sorted by `nextTime`.
        The stored record itself is returned, not a copy. */
    method FindNextTest(time: int) returns (r: Option<Test>)
      ensures r == SortedHead(Filter(data, DueAt(time)), NextTimeOf)
      ensures r.None? <==> forall t :: t in data ==> time < t.nextTime
      ensures r.Some? ==> r.value in data && r.value.nextTime <= time
      ensures r.Some? ==> forall t :: t in data && t.nextTime <= time ==> r.value.nextTime <= t.nextTime
    {
      var due := FilterSeq(data, DueAt(time));
      FilterEmpty(data, DueAt(time));
      assert forall t :: DueAt(time)(t) == (t.nextTime <= time);
      var k := FirstMinimal(due, NextTimeOf);
      if k.None? {
        r := None;
      } else {
        r := Some(due[k.value]);
        forall t | t in data && t.nextTime <= time
          ensures r.value.nextTime <= t.nextTime
        {
          assert t in due;
        }
      }
    }
  }
}
