# flasher-backend in Dafny

A model of the core of flasher-backend, a spaced-repetition flashcard
backend. Its logic lives in three places, each in several historical
variants that sit side by side in the tree. There is one Dafny module per
variant.

- **Stores.** These are in-memory arrays of records, held by a connection
  and changed in place. Each supports create (which refuses a duplicate id),
  read, partial update and search. All but arraydb.js also select the next
  due record.
  - `CardRepository`: the card repository of app/file-repository-tools.ts.
  - `FileDbTs`: the typed test store of app/filedb.ts.
  - `FileDbJs`: the JavaScript test store of app/filedb.js, which
    type-checks every property.
  - `ArrayDb`: the in-memory store of arraydb.js.
  - Each store is a class with a `seq` field. The file stores also hold the
    JSON file (`Common.JsonFile`), so each contract states when the file is
    written and when it is not.
  - `UntypedTests` holds what the two JavaScript stores share: their
    untyped inputs, the order of their checks, and the property-by-property
    update that can throw halfway (`UpdateFrom`).
  - `DateFormat` models the date regular expression and the JSON reviver of
    the file stores.
- **Scheduling.** These are the domain-logic variants.
  - `DomainLogic` models app/domain-logic.ts and `DomainLogicTs` models
    app/domainlogic.ts. Both are classes over the store they drive, and
    their methods state the store's new state and the file's. `DomainLogic`
    also records, in order, the changing calls it makes on the card
    repository and the auto-save repository.
  - `DomainLogicJs` models app/domainlogic.js, `GraphQlRootApp` models
    app/graphqlroot.js, and `GraphQlRoot` models graphqlroot.js. Each of
    these only forwards one call to the store, so it is a function from the
    operation to the store call it makes. Lemmas state what that call does
    to a stored test.
  - `Time` models the date-fns arithmetic and `Scheduling` the review rule.
    After a success the next wait is twice the whole seconds since the last
    change; after a failure it is half of that, rounded down.
- **Authentication.** `LoginTool` models the login decision of
  app/login-tool.ts. `Security` models how app/security.ts takes the token
  out of the cookie. The credentials repository, hash comparer, signer and
  token decoder are function parameters.

Times are whole milliseconds since the epoch. The clock and the id
generator are parameters (`now`, `uuid`). Strings are `seq<char>`.

Where the evident intent (the tests, the names) and the code disagree, the
model follows the code:

- `deleteCard` answers `true` whether or not a card was removed.
- Among due cards with equal `nextTime`, the one earlier in the store wins.
  The JavaScript sort is stable, so ties are not broken by id.
- A missing id makes `setOk`/`setFailed` of app/domainlogic.ts throw. The
  other variant does nothing in that case.

## Model

| member | source | states |
|---|---|---|
| Common.JsonFile.Write | app/file-repository-tools.ts:100-102 | writing the JSON file replaces its whole content with the array |
| Seqs.Filter | app/file-repository-tools.ts:16 | `filter` keeps exactly the elements satisfying the predicate, never more than there were |
| Seqs.FilterSeq | app/file-repository-tools.ts:71 | the filtering loop computes the reference `Filter`, in order |
| Seqs.FirstIndex | app/file-repository-tools.ts:40-43 | the first matching index: none exactly when nothing matches, else a match with no match before it |
| Seqs.FilterHead | app/file-repository-tools.ts:25-27 | the head of a filtered array is the element at the first matching index, and exists exactly when one does |
| Seqs.SortByKey | app/file-repository-tools.ts:89-92 | the stable sort by a numeric key returns a permutation of its input |
| Seqs.SortByKeySorted | app/file-repository-tools.ts:89-92 | the sort's result is ordered by the key |
| Seqs.SortHeadIsFirstMinimal | app/file-repository-tools.ts:89-92 | `sort(...)[0]` is the first element of smallest key in the original order |
| Seqs.FirstMinimal | app/file-repository-tools.ts:89-92 | the scan finds the first index of smallest key, and that element is the sorted head |
| Seqs.FirstMinimalUnique | app/file-repository-tools.ts:89-92 | the first minimal element is unique, so the chosen element is determined |
| Text.IncludesAt | app/filedb.ts:34-35 | `includes` holds exactly when the substring occurs at some index |
| Text.ToLowerIdempotent | app/file-repository-tools.ts:80-81 | lower-casing twice is lower-casing once and leaves no ASCII capital |
| Text.LowerKeepsIncludes | app/file-repository-tools.ts:80-81 | a substring found as written is still found after both sides are lower-cased |
| Text.Split | app/security.ts:8 | `split` on a character gives at least one piece, and no piece holds the separator |
| Text.JoinSplit | app/security.ts:8 | joining the pieces with the separator gives the string back |
| Text.SplitAtFirst | app/security.ts:8 | the first piece is the text before the first separator, and the rest is split the same way |
| Time.DifferenceInSeconds | app/domain-logic.ts:121 | `differenceInSeconds` is the whole seconds between two times, truncated toward zero in both directions |
| Time.DifferenceOfAddedSeconds | app/domain-logic.ts:121-127 | measuring seconds that were added gives them back |
| Time.DifferenceAntisymmetric | app/domain-logic.ts:121 | swapping the arguments negates the difference |
| Time.AddMinutes | app/domain-logic.ts:37 | defines `addMinutes`: the time that many whole minutes later |
| Time.AddSeconds | app/domain-logic.ts:127 | defines `addSeconds`: the time that many whole seconds later |
| Scheduling.FailedWait | app/domain-logic.ts:83 | the failure wait is the floor of half the seconds passed |
| Scheduling.OkWait | app/domain-logic.ts:79 | defines the success wait, twice the seconds passed |
| Scheduling.NextTime | app/domain-logic.ts:120-127 | defines the new due time: now plus the wait applied to the whole seconds since the last change |
| Scheduling.ReviewIntervals | app/domain-logic.ts:78-84 | for a past change, both outcomes are due no earlier than now, a failure is due no later than a success, a success waits about twice the time passed and a failure at most half of it |
| Scheduling.FortyOneSeconds | app/domain-logic.ts:120-128 | 41 seconds after the last change, success gives +82 s and failure +20 s |
| DateFormat.MatchesPatternPointwise | app/file-repository-tools.ts:6 | an anchored match of a fixed pattern is a match position by position at equal length |
| DateFormat.IsDateString | app/file-repository-tools.ts:6 | defines `dateFormat.test` as an anchored match of the pattern, position by position |
| DateFormat.DateStringShape | app/file-repository-tools.ts:6 | the date expression accepts exactly the 24-character shape, with any one-UTF-16-code-unit character except a line terminator at index 19 |
| DateFormat.IsoStringAccepted | app/file-repository-tools.ts:6 | what `toISOString` writes is accepted |
| DateFormat.UnescapedDot | app/file-repository-tools.ts:6 | because the dot is unescaped, another character of one code unit in its place is accepted too |
| DateFormat.DateStringRefused | app/file-repository-tools.ts:6 | a line feed or a character of two code units in place of the dot, or a missing `Z`, is refused |
| DateFormat.Revive | app/file-repository-tools.ts:104-108 | the reviver turns a value into a date exactly when it is a string of date shape, and returns anything else as it came |
| DateFormat.ReviveIdempotent | app/filedb.js:135-141 | reviving twice is reviving once |
| CardRepository.Apply | app/file-repository-tools.ts:38-62 | defines the loop body of `updateCard`: each defined property is assigned, each undefined one kept |
| CardRepository.ApplyLaws | app/file-repository-tools.ts:45-62 | an update naming only the id changes nothing, the id is never changed, the same update twice is the update once, and two updates compose |
| CardRepository.MatchesTextIgnoresCase | app/file-repository-tools.ts:76-83 | the search ignores the case of the substring and finds whatever contains it as written |
| CardRepository.CreateEmptyRepository | app/file-repository-tools.ts:96-98 | the file is left holding an empty array |
| CardRepository.Repository.Connect | app/file-repository-tools.ts:10-12 | a connection starts from what the file holds |
| CardRepository.Repository.CreateCard | app/file-repository-tools.ts:15-22 | throws exactly when the id is present, and then changes neither array nor file; otherwise appends the card and writes the file; unique ids stay unique |
| CardRepository.Repository.ReadCard | app/file-repository-tools.ts:24-29 | the first card with the id, or undefined exactly when none has it |
| CardRepository.Repository.UpdateCard | app/file-repository-tools.ts:31-68 | on the first card with the id, exactly the defined fields are overwritten, the file is written and the card returned; undefined with nothing changed or written for an unknown id |
| CardRepository.Repository.DeleteCard | app/file-repository-tools.ts:70-74 | keeps exactly the cards with another id, in order, writes the file, answers true, and changes nothing when no card has the id |
| CardRepository.Repository.FindCards | app/file-repository-tools.ts:76-83 | exactly the cards whose lower-cased prompt or solution contains the lower-cased substring, in store order |
| CardRepository.Repository.FindNextCard | app/file-repository-tools.ts:85-92 | the sorted head of the enabled cards due at the time (bound included): undefined exactly when none is due, else a due card of smallest `nextTime` |
| CardRepository.NewConnectionSeesCreate | app/file-repository-tools.ts:10-29 | a card whose id, prompt and solution are not date-shaped, created through one connection, is read back through a new connection to the same file |
| FileDbTs.ApplyPartial | app/filedb.ts:40-60 | defines the loop body of `updateTest`: the five destructured properties are assigned when defined, `lastTicks` never |
| FileDbTs.ApplyPartialLaws | app/filedb.ts:40-60 | an update naming only the id changes nothing; the id and `lastTicks` never change, whatever `lastTicks` the update carries; each defined property of the five read is taken over |
| FileDbTs.CreateEmptyDb | app/filedb.ts:79-81 | the file is left holding an empty array |
| FileDbTs.FileDb.Connect | app/filedb.ts:9-11 | a connection starts from what the file holds |
| FileDbTs.FileDb.CreateTest | app/filedb.ts:14-21 | throws exactly when the id is present, changing nothing; otherwise appends the test and writes the file |
| FileDbTs.FileDb.GetTest | app/filedb.ts:23-28 | the first test with the id, or undefined exactly when none has it |
| FileDbTs.FileDb.FindTests | app/filedb.ts:30-38 | exactly the tests whose prompt or solution contains the substring, case-sensitively, in store order |
| FileDbTs.FileDb.UpdateTest | app/filedb.ts:40-66 | on the first test with the id, the defined properties among the five read are taken over, the file is written and the test returned; undefined with nothing written for an unknown id |
| FileDbTs.FileDb.FindNextTest | app/filedb.ts:68-75 | the sorted head of the due tests: undefined exactly when none is due, else a due test of smallest `nextTime` |
| UntypedTests.TestExtensional | app/filedb.js:49-59 | a stored test is determined by its seven properties |
| UntypedTests.ToTest | app/filedb.js:49-59 | the pushed record holds exactly the values passed in |
| UntypedTests.Rank | app/filedb.js:25-43 | the position of each property in the order of the checks |
| UntypedTests.AllWellTyped | app/filedb.js:25-43 | all properties pass their checks exactly when each of the seven checks passes |
| UntypedTests.CreateError | app/filedb.js:25-43 | no error exactly when every property passes; otherwise the property named fails its check and every property checked before it passes |
| UntypedTests.Assign | app/filedb.js:90 | assigning one property sets it and leaves every other property alone |
| UntypedTests.UpdateFrom | app/filedb.js:89-112 | defines the property-by-property update of the JavaScript stores: skip an undefined property, throw for an ill-typed one, assign a well-typed one |
| UntypedTests.StopIndex | app/filedb.js:89-112 | the update stops at the first property it rejects, or at the end, and accepts every property before that |
| UntypedTests.UpdateOrderStep | app/filedb.js:89-112 | each update step skips an undefined property, throws for an ill-typed one and assigns a well-typed one, in the order prompt, solution, state, changeTime, lastTicks, nextTime |
| UntypedTests.UpdateFromError | app/filedb.js:89-112 | the update throws for the first rejected property, and only then |
| UntypedTests.UpdateFromValues | app/filedb.js:89-112 | before the rejected property every defined property is assigned and every undefined one kept; the rejected one, all later ones and all others are untouched |
| UntypedTests.UpdateFromSkipsUndefined | app/filedb.js:89-112 | undefined properties are skipped |
| UntypedTests.UpdateNothing | arraydb.js:77-101 | an update naming only the test changes nothing and throws nothing |
| FileDbJs.CreateEmptyDb | app/filedb.js:127-129 | the file is left holding an empty array |
| FileDbJs.FileDb.Connect | app/filedb.js:11-13 | a connection starts from what the file holds |
| FileDbJs.FileDb.CreateTest | app/filedb.js:16-60 | a type error for the first property that fails its check, before the duplicate check; then an error exactly when the id is present; any error changes neither array nor file; otherwise the test is appended and the file written |
| FileDbJs.FileDb.GetTest | app/filedb.js:62-65 | the first test whose id equals the value, or undefined exactly when none does |
| FileDbJs.FileDb.FindTests | app/filedb.js:67-75 | exactly the tests whose prompt or solution contains the substring, in store order |
| FileDbJs.FileDb.UpdateTest | app/filedb.js:77-117 | on the first test with the id, the update steps are applied in place; with no error the file is written and the test returned; a type error keeps the assignments made before it and skips the write; undefined with nothing changed for an unknown id |
| FileDbJs.FileDb.UpdateAt | app/filedb.js:89-112 | the loop body leaves the test as the update steps leave it, also when it throws midway |
| FileDbJs.FileDb.FindNextTest | app/filedb.js:119-123 | the sorted head of the due tests: undefined exactly when none is due, else a due test of smallest `nextTime` |
| ArrayDb.ArrayDb.constructor | arraydb.js:3-4 | a new store is empty |
| ArrayDb.ArrayDb.CreateTest | arraydb.js:7-49 | the same checks as the file store but any string is a valid state; then an error exactly when the id is present; otherwise the test is appended |
| ArrayDb.ArrayDb.GetTest | arraydb.js:51-54 | the first test whose id equals the value, or undefined exactly when none does |
| ArrayDb.ArrayDb.FindTests | arraydb.js:56-63 | exactly the tests whose prompt or solution contains the substring, in store order |
| ArrayDb.ArrayDb.UpdateTest | arraydb.js:65-103 | on the first test with the id, the update steps are applied in place and the test returned, or a type error with earlier assignments kept; undefined for an unknown id |
| ArrayDb.ArrayDb.UpdateAt | arraydb.js:77-101 | the loop body leaves the test as the update steps leave it, any string being a valid state |
| DomainLogic.NewCard | app/domain-logic.ts:29-39 | a new card has the fresh id and the given text, is new, changed now, due in ten minutes and disabled |
| DomainLogic.MinorUpdate | app/domain-logic.ts:160-164 | defines the minor update: id and text only |
| DomainLogic.MajorUpdate | app/domain-logic.ts:141-148 | defines the major update: the text, state New, changed now, due in thirty minutes |
| DomainLogic.ResultUpdate | app/domain-logic.ts:123-128 | defines the review update: state, change time and due time |
| DomainLogic.DisabledUpdate | app/domain-logic.ts:86-98 | defines the enable and disable updates: `disabled` only |
| DomainLogic.NewCardWaits | app/domain-logic.ts:31-39 | a created card is never offered as next card until enabled; once enabled, it is due exactly from ten minutes after creation |
| DomainLogic.EditEffects | app/domain-logic.ts:132-167 | a minor edit changes the text only; a major edit changes the text, makes the card new, changed now and due in thirty minutes, and keeps `disabled` |
| DomainLogic.ReviewEffects | app/domain-logic.ts:109-129 | a review changes only state, change time and due time; after a past change the card is due no earlier than now, and a failure is due no later than a success |
| DomainLogic.DisabledEffects | app/domain-logic.ts:86-98 | enable and disable change only `disabled`, and the later one wins |
| DomainLogic.Logic.constructor | app/domain-logic.ts:12-18 | the logic drives the given repository and has made no changing call yet |
| DomainLogic.Logic.CreateCard | app/domain-logic.ts:19-40 | the create call is made once with the new card; the card is appended and written when its id is fresh; on a clash nothing changes and nothing is reported |
| DomainLogic.Logic.ReadCard | app/domain-logic.ts:42 | the repository's answer: the first card with the id, or undefined exactly when none has it |
| DomainLogic.Logic.UpdateCard | app/domain-logic.ts:44-67 | a minor edit applies only the text to the first card with the id, a major one also reschedules it, and the file is written only when the id exists; the calls made are the update and then one snapshot deletion, in that order; the repository's answer is returned |
| DomainLogic.Logic.DeleteCard | app/domain-logic.ts:69-70 | one delete call is made; the repository keeps exactly the cards with another id, writes them and answers true |
| DomainLogic.Logic.Cards | app/domain-logic.ts:72-73 | the cards matching the substring, ignoring case, in store order and with their multiplicity |
| DomainLogic.Logic.FindNextCard | app/domain-logic.ts:75-76 | the repository's next card at the current time, a due and enabled card |
| DomainLogic.Logic.SetState | app/domain-logic.ts:109-129 | for a missing id no update is sent and neither data nor file changes; otherwise one update is sent, the first card with the id gets the state, changes now, is due after the wait computed from the whole seconds since its last change, and the file is written |
| DomainLogic.Logic.SetOk | app/domain-logic.ts:78-80 | the card becomes Ok and waits twice the time passed, and the file is written; a missing id sends no update and changes neither data nor file |
| DomainLogic.Logic.SetFailed | app/domain-logic.ts:82-84 | the card becomes Failed and waits half the time passed, rounded down, and the file is written; a missing id sends no update and changes neither data nor file |
| DomainLogic.Logic.SetDisabled | app/domain-logic.ts:86-98 | the update is sent in any case; only `disabled` of the first card with the id changes and the file is written; a missing id changes neither data nor file |
| DomainLogic.Logic.Enable | app/domain-logic.ts:86-91 | the update is sent; the first card with the id becomes enabled, nothing else changes and the file is written; a missing id changes neither data nor file |
| DomainLogic.Logic.Disable | app/domain-logic.ts:93-98 | the update is sent; the first card with the id becomes disabled, nothing else changes and the file is written; a missing id changes neither data nor file |
| DomainLogic.Logic.SaveSnapshot | app/domain-logic.ts:100-102 | the card is passed on to the auto-save repository once, after the calls made before |
| DomainLogic.Logic.DeleteSnapshot | app/domain-logic.ts:104-106 | the auto-save repository is asked once to delete its snapshot, after the calls made before |
| DomainLogicTs.NewTest | app/domainlogic.ts:10-22 | a new test has the fresh id and the given text, is new, changed now, has no ticks and is due in ten minutes |
| DomainLogicTs.MinorUpdate | app/domainlogic.ts:43-49 | defines the minor update: id and text only |
| DomainLogicTs.MajorUpdate | app/domainlogic.ts:51-61 | defines the major update: the text, state New, changed now, no ticks, due in thirty minutes |
| DomainLogicTs.ResultUpdate | app/domainlogic.ts:102-107 | defines the review update: state, change time and due time |
| DomainLogicTs.NotFoundMessage | app/domainlogic.ts:96 | the message wraps the id in 26 fixed characters |
| DomainLogicTs.NotFoundMessageNamesId | app/domainlogic.ts:96 | the message contains the id, and different ids give different messages |
| DomainLogicTs.EditEffects | app/domainlogic.ts:43-61 | a minor edit changes the text only; a major edit also makes the test new, changed now and due in thirty minutes, and the `lastTicks` of 0 it sends is dropped by the typed store |
| DomainLogicTs.ReviewEffects | app/domainlogic.ts:85-108 | a review changes only state, change time and due time; after a past change the test is due no earlier than now, and a failure is due no later than a success |
| DomainLogicTs.Logic.constructor | app/domainlogic.ts:4-8 | the logic drives the given store |
| DomainLogicTs.Logic.CreateTest | app/domainlogic.ts:10-22 | the new test is appended and written exactly when its id is fresh; otherwise the store's error is passed on and neither data nor file changes |
| DomainLogicTs.Logic.GetTest | app/domainlogic.ts:24-26 | the first stored test with the id, or undefined exactly when none has it |
| DomainLogicTs.Logic.Tests | app/domainlogic.ts:28-30 | the stored tests containing the substring, in store order and with their multiplicity |
| DomainLogicTs.Logic.UpdateTest | app/domainlogic.ts:32-62 | a minor edit applies only the text to the first test with the id, a major one also reschedules it, and the file is written; a missing id changes neither data nor file; the store's answer is returned |
| DomainLogicTs.Logic.FindNextTest | app/domainlogic.ts:64-66 | the store's next test at the current time: undefined exactly when none is due |
| DomainLogicTs.Logic.SetResult | app/domainlogic.ts:85-108 | a missing id throws the not-found message and changes nothing; otherwise the first test with the id gets the state, changes now, and is due after the wait computed from the whole seconds since its last change |
| DomainLogicTs.Logic.SetOk | app/domainlogic.ts:68-74 | the test becomes Ok, waits twice the time passed and the file is written; a missing id throws the not-found message and changes neither data nor file |
| DomainLogicTs.Logic.SetFailed | app/domainlogic.ts:76-82 | the test becomes Failed, waits half the time passed, rounded down, and the file is written; a missing id throws the not-found message and changes neither data nor file |
| DomainLogicJs.Handle | app/domainlogic.js:6-49 | defines the one store call each operation makes, with the inputs built by `NewTestInput`, `MinorInput` and `MajorInput` |
| DomainLogicJs.CreateAccepted | app/domainlogic.js:8-20 | the test sent passes every check of either JavaScript store exactly when prompt and solution are strings, and is stored as new, changed now, with no ticks, due in ten minutes; otherwise the store rejects the first of the two that is not a string |
| DomainLogicJs.MinorEffect | app/domainlogic.js:31-37 | a minor update changes at most the text, skipping undefined text, and throws for the first text value of another type, keeping what came before it |
| DomainLogicJs.MajorEffect | app/domainlogic.js:39-49 | a major update changes the text the same way and, when the text is accepted, makes the test new, changed now, with no ticks, due in thirty minutes |
| GraphQlRootApp.Handle | app/graphqlroot.js:5-53 | defines the one store call each resolver makes |
| GraphQlRootApp.SameAsDomainLogic | app/graphqlroot.js:6-53 | every operation makes the same store call as app/domainlogic.js |
| GraphQlRoot.Handle | graphqlroot.js:5-39 | defines the one store call each resolver of the older root makes, and none for the operations it lacks |
| GraphQlRoot.SameAsAppRoot | graphqlroot.js:5-39 | `test`, `tests` and `updateTest` make the same store call as the newer root, so an explicitly undefined property counts as absent; there is no `createTest` or `findNextTest` |
| LoginTool.Login | app/login-tool.ts:18-35 | defines `login`: the outcome and the dependency calls made, in order |
| LoginTool.LoginDecision | app/login-tool.ts:18-35 | a token comes back exactly when the user has a hash, the password matches it and the signer succeeds, and it is the signer's output for `{ sub: userName }`; the constant message is thrown exactly for an unknown user or a wrong password; a rejected comparison or a throwing signer is passed on as its own error |
| LoginTool.LoginCalls | app/login-tool.ts:24-31 | the hash is looked up first; the comparer is called at most once, with password then hash, never for an unknown user; the signer is called only right after a comparison that resolved to true |
| LoginTool.SameRejection | app/login-tool.ts:26-34 | an unknown user and a wrong password give the same outcome |
| Security.Token | app/security.ts:8 | defines the token as the second piece of the cookie split at "=" |
| Security.GetUser | app/security.ts:6-15 | defines `getUser`: no user without a cookie, else the decoder's `sub` for the token, or the decoder's error |
| Security.TokenDefined | app/security.ts:8 | the token is undefined exactly when the cookie has no "=" |
| Security.TokenBetween | app/security.ts:8 | the token is the text between the first "=" and the next "=" or the end, whatever comes before the first "=" |
| Security.SingleCookie | app/security.ts:6-15 | for a single `name=token` cookie, the user is the decoder's `sub` for the token, whatever the name, and decoder errors propagate |
| Security.SeveralCookies | app/security.ts:8 | with several cookies, the value of the first cookie up to the next name is taken as the token |
| Security.RepeatedCookie | app/security.ts:8 | two `jwt` cookies give the first value run on into the second name |

## Left out

- Reading and writing files, JSON serialisation and parsing: the JSON file is a sequence of records, and a connection takes them as written. The reviver (`DateFormat.Revive`) is not applied to them: it would also turn a date-shaped id, prompt or solution into a Date, which `readCard` then cannot match and `findCards` cannot lower-case.
- CardRepository.NewConnectionSeesCreate: holds only for a card none of whose strings has the date shape (`ReadsBackAsWritten`); for the others the source does not read the card back, and the model does not cover that case.
- Asynchrony: the promises of the card repository and the auto-save repository are modelled as the values they resolve to, the hash comparer's promise as the value it resolves to or the error it rejects with. app/domain-logic.ts:114 reads `repository.readCard(id)` without `await`, although readCard in app/file-repository-tools.ts is async. The model follows the synchronous repository that the tests inject.
- Copies and freezing: `{ ...card }` and `Object.freeze` give values here, so later changes to a returned copy are out of scope. `findNextCard` (app/file-repository-tools.ts:85-92) and `findNextTest` (app/filedb.ts:68-75, app/filedb.js:119-123) return the stored record itself, while the reads and searches return copies; that aliasing is not modelled.
- Dates are whole milliseconds. JavaScript numbers that are not integers, `NaN`, and invalid dates are out of scope. `lastTicks` is an integer.
- `toLowerCase` is modelled for ASCII letters only.
- `includes` with a non-string argument coerces it to a string. The stores' `FindTests` take a string.
- `isMinor` stands for its truth value. An absent `isMinor` is false, which means a major edit.
- The wording of the `TypeError` messages is out of scope; an error names the property.
- `console.log` in app/security.ts:11 and in the auto-save repository is left out. That repository (app/file-auto-save-repository-tools.ts) is a record of the calls made to it.
- The unused `user`, `parent`, `context` and `info` arguments of the operations are left out.
- `./dbtypes`, which defines `states`, is not part of this model. Its values are taken to be "New", "Ok" and "Failed", as in app/types.ts:32.
- The two tests created by server.js use the states "failed" and "success". The file store of app/filedb.js would refuse these states; arraydb.js accepts them.
- test/security-test.ts:38-88 expects cookie-name checks, duplicate handling and decoder-crash handling. app/security.ts does none of these. The model follows the code: `Security.SeveralCookies` and `Security.RepeatedCookie` show what it does with such cookies.
- Some tests disagree with the code, and the model follows the code:
  - test/domainlogictest.js:185-260 tests `setOk`, which app/domainlogic.js does not have.
  - test/domainlogictest.ts:36-46 and 151-158 omit the `lastTicks: 0` that app/domainlogic.ts sends.
- The auto-save repository and the card repository's own failures (a rejected write) are not modelled; `calls` in `DomainLogic.Logic` records only the changing calls, not the reads.
- Server wiring, the GraphQL schema, configuration, bcrypt and jsonwebtoken are foreign code and I/O.
