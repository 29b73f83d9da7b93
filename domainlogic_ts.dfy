/** The typed test domain logic (app/domainlogic.ts), here over the typed file
    store: it builds the tests and partial tests the store is asked for, from
    the current time and a fresh id given by its dependencies, and records
    review outcomes, throwing when the test to review does not exist. */
module DomainLogicTs {
  import opened Common
  import opened Seqs
  import opened Time
  import opened Types
  import Text
  import Scheduling
  import opened FileDbTs

  /** The test `createTest` sends: new, changed now, no ticks, due in ten
      minutes. */
  function NewTest(uuid: string, prompt: string, solution: string, now: int): (t: Test)
    ensures t.id == uuid && t.prompt == prompt && t.solution == solution
    ensures t.state == New && t.changeTime == now && t.lastTicks == 0
    ensures t.nextTime == AddMinutes(now, 10)
  {
    Test(uuid, prompt, solution, New, now, 0, AddMinutes(now, 10))
  }

  /** A minor `updateTest`: only `{id, prompt, solution}`. */
  function MinorUpdate(id: string, prompt: string, solution: string): PartialTest
  {
    PartialTest(id, Some(prompt), Some(solution), None, None, None, None)
  }

  /** A major `updateTest`: the new text, and the test scheduled afresh: new,
      changed now, no ticks, due in thirty minutes. */
  function MajorUpdate(id: string, prompt: string, solution: string, now: int): PartialTest
  {
    PartialTest(id, Some(prompt), Some(solution), Some(New), Some(now), Some(0), Some(AddMinutes(now, 30)))
  }

  /** `setResult`: the outcome, changed now, due at `nextTime`. */
  function ResultUpdate(id: string, state: State, now: int, nextTime: int): PartialTest
  {
    PartialTest(id, None, None, Some(state), Some(now), None, Some(nextTime))
  }

  /** The message `setResult` throws for a missing id. */
  function NotFoundMessage(id: string): (m: string)
    ensures |m| == |id| + 26
  {
    "Test with id '" + id + "' not found!"
  }

  /** The message names the id, and different ids give different messages. */
  lemma {:induction false} NotFoundMessageNamesId(id: string, other: string)
    ensures Text.Includes(NotFoundMessage(id), id)
    ensures NotFoundMessage(id) == NotFoundMessage(other) ==> id == other
  {
    var m := NotFoundMessage(id);
    assert m[14..14 + |id|] == id;
    assert Text.OccursAt(m, id, 14);
    Text.IncludesAt(m, id);
    if m == NotFoundMessage(other) {
      assert NotFoundMessage(other)[14..14 + |other|] == other;
    }
  }

  /** A minor edit changes the text only. A major edit changes the text and
      restarts the schedule; the `lastTicks` of 0 it carries is dropped by
      the typed file store, which never reads that property. */
  lemma EditEffects(t: Test, prompt: string, solution: string, now: int)
    ensures ApplyPartial(t, MinorUpdate(t.id, prompt, solution)) == t.(prompt := prompt, solution := solution)
    ensures ApplyPartial(t, MajorUpdate(t.id, prompt, solution, now)) ==
      t.(prompt := prompt, solution := solution, state := New, changeTime := now,
         nextTime := now + 30 * MillisPerMinute)
  {
  }

  /** A review on a test changed in the past sets the outcome and the time,
      and makes the test due again no earlier than the review, a failure no
      later than a success. */
  lemma ReviewEffects(t: Test, now: int)
    requires t.changeTime <= now
    ensures var ok := ApplyPartial(t, ResultUpdate(t.id, Ok, now, Scheduling.NextTime(now, t.changeTime, Scheduling.OkWait)));
      var failed := ApplyPartial(t, ResultUpdate(t.id, Failed, now, Scheduling.NextTime(now, t.changeTime, Scheduling.FailedWait)));
      && ok == t.(state := Ok, changeTime := now, nextTime := ok.nextTime)
      && failed == t.(state := Failed, changeTime := now, nextTime := failed.nextTime)
      && now <= failed.nextTime <= ok.nextTime
  {
    Scheduling.ReviewIntervals(now, t.changeTime);
  }

  /** The object `domainLogic(database, getTime, createUuid)` returns;
      `getTime()` and `createUuid()` are the `now` and `uuid` parameters. */
  class Logic {
    const database: FileDb

    constructor (database: FileDb)
      ensures this.database == database
    {
      this.database := database;
    }

    /** `createTest`: sends the new test and passes on what the store does,
        including its error for an id already present. */
    method CreateTest(prompt: string, solution: string, now: int, uuid: string)
      returns (r: Result<(), FileDbTs.Error>)
      modifies database, database.file
      ensures r.Thrown? <==> exists t :: t in old(database.data) && t.id == uuid
      ensures r.Thrown? ==>
        database.data == old(database.data) && database.file.records == old(database.file.records)
      ensures r.Returned? ==>
        && database.data == old(database.data) + [NewTest(uuid, prompt, solution, now)]
        && database.file.records == database.data
    {
      r := database.CreateTest(NewTest(uuid, prompt, solution, now));
    }

    /** `test`: what the store answers, the first test with the id. */
    method GetTest(id: string) returns (r: Option<Test>)
      ensures r.None? <==> forall t :: t in database.data ==> t.id != id
      ensures r.Some? ==>
        var k := FirstIndex(database.data, HasId(id));
        k.Some? && r.value == database.data[k.value] && r.value.id == id
    {
      r := database.GetTest(id);
    }

    /** `tests`: what the store finds, in store order. */
    method Tests(substring: string) returns (r: seq<Test>)
      ensures r == Filter(database.data, Matching(substring))
      ensures forall t :: t in r <==> t in database.data && MatchesText(t, substring)
    {
      r := database.FindTests(substring);
    }

    /** `updateTest`: a minor edit sends only the text, a major one also
        reschedules; the store's answer is returned. */
    method UpdateTest(id: string, prompt: string, solution: string, isMinor: bool, now: int)
      returns (r: Option<Test>)
      modifies database, database.file
      ensures var u := if isMinor then MinorUpdate(id, prompt, solution) else MajorUpdate(id, prompt, solution, now);
        match FirstIndex(old(database.data), HasId(id))
        case None =>
          r.None? && database.data == old(database.data)
          && database.file.records == old(database.file.records)
        case Some(k) =>
          && database.data == old(database.data)[k := ApplyPartial(old(database.data)[k], u)]
          && r == Some(database.data[k])
          && database.file.records == database.data
    {
      if isMinor {
        r := database.UpdateTest(MinorUpdate(id, prompt, solution));
        return;
      }
      r := database.UpdateTest(MajorUpdate(id, prompt, solution, now));
    }

    /** `findNextTest`: the store asked with the current time. */
    method FindNextTest(now: int) returns (r: Option<Test>)
      ensures r == SortedHead(Filter(database.data, DueAt(now)), NextTimeOf)
      ensures r.None? <==> forall t :: t in database.data ==> now < t.nextTime
    {
      r := database.FindNextTest(now);
    }

    /** `setResult`: throws, changing nothing, for a missing id; otherwise
        the first test with the id gets the outcome, the time, and a due time
        `wait` applied to the whole seconds since its last change. */
    method SetResult(id: string, state: State, wait: int -> int, now: int) returns (r: Result<(), string>)
      modifies database, database.file
      ensures match FirstIndex(old(database.data), HasId(id))
        case None =>
          && r == Thrown(NotFoundMessage(id))
          && database.data == old(database.data)
          && database.file.records == old(database.file.records)
        case Some(k) =>
          var t := old(database.data)[k];
          var next := Scheduling.NextTime(now, t.changeTime, wait);
          && r == Returned(())
          && database.data == old(database.data)[k := ApplyPartial(t, ResultUpdate(id, state, now, next))]
          && database.file.records == database.data
    {
      var test := database.GetTest(id);
      if test.None? {
        return Thrown(NotFoundMessage(id));
      }
      var next := Scheduling.NextTime(now, test.value.changeTime, wait);
      var _ := database.UpdateTest(ResultUpdate(id, state, now, next));
      r := Returned(());
    }

    /** `setOk`: state Ok, waiting twice the time passed. */
    method SetOk(id: string, now: int) returns (r: Result<(), string>)
      modifies database, database.file
      ensures match FirstIndex(old(database.data), HasId(id))
        case None =>
          && r == Thrown(NotFoundMessage(id))
          && database.data == old(database.data)
          && database.file.records == old(database.file.records)
        case Some(k) =>
          var t := old(database.data)[k];
          var next := Scheduling.NextTime(now, t.changeTime, Scheduling.OkWait);
          && r == Returned(())
          && database.data == old(database.data)[k := ApplyPartial(t, ResultUpdate(id, Ok, now, next))]
          && database.file.records == database.data
    {
      r := SetResult(id, Ok, Scheduling.OkWait, now);
    }

    /** `setFailed`: state Failed, waiting half the time passed. */
    method SetFailed(id: string, now: int) returns (r: Result<(), string>)
      modifies database, database.file
      ensures match FirstIndex(old(database.data), HasId(id))
        case None =>
          && r == Thrown(NotFoundMessage(id))
          && database.data == old(database.data)
          && database.file.records == old(database.file.records)
        case Some(k) =>
          var t := old(database.data)[k];
          var next := Scheduling.NextTime(now, t.changeTime, Scheduling.FailedWait);
          && r == Returned(())
          && database.data == old(database.data)[k := ApplyPartial(t, ResultUpdate(id, Failed, now, next))]
          && database.file.records == database.data
    {
      r := SetResult(id, Failed, Scheduling.FailedWait, now);
    }
  }
}
