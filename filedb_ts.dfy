/** The typed test store kept in a JSON file (app/filedb.ts): the same shape
    as the card repository, with case-sensitive search, no `disabled` flag
    and an update that reads only five of the partial test's properties. */
module FileDbTs {
  import opened Common
  import opened Seqs
  import Text
  import opened Types

  /** `new Error("Key already exists!")`. */
  datatype Error = KeyAlreadyExists

  /** The body of the `updateTest` loop for the matching test. Only `prompt`,
      `solution`, `state`, `changeTime` and `nextTime` are destructured, so a
      `lastTicks` in the update is never read. */
  function ApplyPartial(t: Test, u: PartialTest): Test
  {
    t.(prompt := if u.prompt.Some? then u.prompt.value else t.prompt,
       solution := if u.solution.Some? then u.solution.value else t.solution,
       state := if u.state.Some? then u.state.value else t.state,
       changeTime := if u.changeTime.Some? then u.changeTime.value else t.changeTime,
       nextTime := if u.nextTime.Some? then u.nextTime.value else t.nextTime)
  }

  /** An update naming only the test changes nothing; the id and `lastTicks`
      are never changed, whatever `lastTicks` the update carries; every
      defined property of the five is taken over. */
  lemma ApplyPartialLaws(t: Test, u: PartialTest, ticks: Option<int>)
    ensures ApplyPartial(t, PartialTest(u.id, None, None, None, None, ticks, None)) == t
    ensures ApplyPartial(t, u).id == t.id && ApplyPartial(t, u).lastTicks == t.lastTicks
    ensures ApplyPartial(t, u.(lastTicks := ticks)) == ApplyPartial(t, u)
    ensures u.prompt.Some? ==> ApplyPartial(t, u).prompt == u.prompt.value
    ensures u.solution.Some? ==> ApplyPartial(t, u).solution == u.solution.value
    ensures u.state.Some? ==> ApplyPartial(t, u).state == u.state.value
    ensures u.changeTime.Some? ==> ApplyPartial(t, u).changeTime == u.changeTime.value
    ensures u.nextTime.Some? ==> ApplyPartial(t, u).nextTime == u.nextTime.value
  {
  }

  function HasId(id: string): Test -> bool
  {
    (t: Test) => t.id == id
  }

  /** The `findTests` test: prompt or solution contains the substring as
      written (case-sensitive). */
  predicate MatchesText(t: Test, substring: string)
  {
    Text.Includes(t.prompt, substring) || Text.Includes(t.solution, substring)
  }

  function Matching(substring: string): Test -> bool
  {
    (t: Test) => MatchesText(t, substring)
  }

  /** The `findNextTest` filter: due at `time`, bound included; there is no
      `disabled` flag to exclude anything. */
  function DueAt(time: int): Test -> bool
  {
    (t: Test) => t.nextTime <= time
  }

  function NextTimeOf(t: Test): int
  {
    t.nextTime
  }

  /** `createEmptyDb()`. */
  method CreateEmptyDb(file: JsonFile<Test>)
    modifies file
    ensures file.records == []
  {
    file.Write([]);
  }

  /** One connection to the file. */
  class FileDb {
    const file: JsonFile<Test>
    var data: seq<Test>

    /** `connect()`. */
    constructor Connect(file: JsonFile<Test>)
      ensures this.file == file && data == file.records
    {
      this.file := file;
      data := file.records;
    }

    /** `createTest`: refuses an id already present; otherwise appends the
        test and writes the file. */
    method CreateTest(test: Test) returns (r: Result<(), Error>)
      modifies this, file
      ensures r.Thrown? <==> exists t :: t in old(data) && t.id == test.id
      ensures r.Thrown? ==> data == old(data) && file.records == old(file.records)
      ensures r.Returned? ==> data == old(data) + [test] && file.records == data
    {
      var sameId := FilterSeq(data, HasId(test.id));
      if |sameId| > 0 {
        assert sameId[0] in sameId;
        return Thrown(KeyAlreadyExists);
      }
      forall t | t in data
        ensures t.id != test.id
      {
        assert t in sameId <==> t in data && HasId(test.id)(t);
      }
      data := data + [test];
      file.Write(data);
      r := Returned(());
    }

    /** `getTest`: the first test with the id, or undefined. */
    method GetTest(id: string) returns (r: Option<Test>)
      ensures r.None? <==> forall t :: t in data ==> t.id != id
      ensures r.Some? ==>
        var k := FirstIndex(data, HasId(id));
        k.Some? && r.value == data[k.value] && r.value.id == id
    {
      var hits := FilterSeq(data, HasId(id));
      FilterHead(data, HasId(id));
      if |hits| > 0 {
        r := Some(hits[0]);
      } else {
        r := None;
      }
    }

    /** `findTests`: the tests whose prompt or solution contains the
        substring, in store order. */
    method FindTests(substring: string) returns (r: seq<Test>)
      ensures r == Filter(data, Matching(substring))
      ensures forall t :: t in r <==> t in data && MatchesText(t, substring)
    {
      r := FilterSeq(data, Matching(substring));
    }

    /** `updateTest`: the first test with the id gets the defined properties
        among the five it reads, the file is written and the test returned;
        undefined, with nothing written, when no test has the id. */
    method UpdateTest(u: PartialTest) returns (r: Option<Test>)
      modifies this, file
      ensures FirstIndex(old(data), HasId(u.id)).None? ==>
        r.None? && data == old(data) && file.records == old(file.records)
      ensures FirstIndex(old(data), HasId(u.id)).Some? ==>
        var k := FirstIndex(old(data), HasId(u.id)).value;
        && data == old(data)[k := ApplyPartial(old(data)[k], u)]
        && r == Some(data[k])
        && file.records == data
    {
      var i := 0;
      while i < |data|
        invariant 0 <= i <= |data|
        invariant data == old(data)
        invariant forall j :: 0 <= j < i ==> data[j].id != u.id
      {
        if data[i].id != u.id {
          i := i + 1;
          continue;
        }
        assert HasId(u.id)(data[i]);
        assert FirstIndex(data, HasId(u.id)) == Some(i);
        // `test` is the element itself: what is assigned to it lands in `data`.
        var test := data[i];
        if u.prompt.Some? {
          test := test.(prompt := u.prompt.value);
        }
        if u.solution.Some? {
          test := test.(solution := u.solution.value);
        }
        if u.state.Some? {
          test := test.(state := u.state.value);
        }
        if u.changeTime.Some? {
          test := test.(changeTime := u.changeTime.value);
        }
        if u.nextTime.Some? {
          test := test.(nextTime := u.nextTime.value);
        }
        data := data[i := test];
        file.Write(data);
        return Some(data[i]);
      }
      r := None;
    }

    /** `findNextTest(time)`: the head of the due tests sorted by `nextTime`,
        that is the first of them with the smallest `nextTime`. */
    method FindNextTest(time: int) returns (r: Option<Test>)
      ensures r == SortedHead(Filter(data, DueAt(time)), NextTimeOf)
      ensures r.None? <==> forall t :: t in data ==> time < t.nextTime
      ensures r.Some? ==> r.value in data && r.value.nextTime <= time
      ensures r.Some? ==> forall t :: t in data && t.nextTime <= time ==> r.value.nextTime <= t.nextTime
    {
      var due := FilterSeq(data, DueAt(time));
      FilterEmpty(data, DueAt(time));
      assert forall t :: DueAt(time)(t) == (t.nextTime <= time);
      var k := FirstMinimal(due, NextTimeOf);
      if k.None? {
        r := None;
      } else {
        r := Some(due[k.value]);
        forall t | t in data && t.nextTime <= time
          ensures r.value.nextTime <= t.nextTime
        {
          assert t in due;
        }
      }
    }
  }
}
