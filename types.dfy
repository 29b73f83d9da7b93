/** The record types of the typed store (app/types.ts): a test, the partial
    test an update carries, and the three learning states. */
module Types {
  import opened Common

  /** `'New' | 'Ok' | 'Failed'`. */
  datatype State = New | Ok | Failed

  /** A test; times are milliseconds since the epoch. */
  datatype Test = Test(
    id: string,
    prompt: string,
    solution: string,
    state: State,
    changeTime: int,
    lastTicks: int,
    nextTime: int)

  /** `PartialTest`: `None` stands for a property that is absent. */
  datatype PartialTest = PartialTest(
    id: string,
    prompt: Option<string>,
    solution: Option<string>,
    state: Option<State>,
    changeTime: Option<int>,
    lastTicks: Option<int>,
    nextTime: Option<int>)
}
