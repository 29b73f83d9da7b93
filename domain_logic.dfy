/** The card domain logic (app/domain-logic.ts): it builds the changes the
    card repository is asked to make, from the current time and a fresh id
    given by its dependencies, and tells the auto-save repository to drop its
    snapshot after every edit. */
module DomainLogic {
  import opened Common
  import opened Seqs
  import opened Time
  import opened Types
  import Scheduling
  import opened CardRepository

  /** A call that changes something, made on the card repository or on the
      auto-save repository; reads are not recorded. */
  datatype Call =
    | CardCreated(card: Card)
    | CardUpdated(update: CardUpdate)
    | CardDeleted(id: string)
    | SnapshotSaved(card: Card)
    | SnapshotDeleted

  /** The card `createCard` sends: new, changed now, due in ten minutes and
      disabled. */
  function NewCard(uuid: string, prompt: string, solution: string, now: int): (c: Card)
    ensures c.id == uuid && c.prompt == prompt && c.solution == solution
    ensures c.state == New && c.changeTime == now && c.disabled
    ensures c.nextTime == AddMinutes(now, 10)
  {
    Card(uuid, prompt, solution, New, now, AddMinutes(now, 10), true)
  }

  /** `updateMinor`: only `{id, prompt, solution}`. */
  function MinorUpdate(id: string, prompt: string, solution: string): CardUpdate
  {
    CardUpdate(id, Some(prompt), Some(solution), None, None, None, None)
  }

  /** `updateMajor`: the new text, and the card scheduled afresh: new,
      changed now, due in thirty minutes. */
  function MajorUpdate(id: string, prompt: string, solution: string, now: int): CardUpdate
  {
    CardUpdate(id, Some(prompt), Some(solution), Some(New), Some(now), Some(AddMinutes(now, 30)), None)
  }

  /** `setState`: the outcome, changed now, due at `nextTime`. */
  function ResultUpdate(id: string, state: State, now: int, nextTime: int): CardUpdate
  {
    CardUpdate(id, None, None, Some(state), Some(now), Some(nextTime), None)
  }

  /** `enable` (`disabled` false) and `disable` (`disabled` true). */
  function DisabledUpdate(id: string, disabled: bool): CardUpdate
  {
    CardUpdate(id, None, None, None, None, None, Some(disabled))
  }

  /** A created card is not offered by `findNextCard` at any time, until it is
      enabled; once enabled it is not due before ten minutes have passed. */
  lemma NewCardWaits(uuid: string, prompt: string, solution: string, now: int, time: int)
    ensures !IsDue(NewCard(uuid, prompt, solution, now), time)
    ensures var c := Apply(NewCard(uuid, prompt, solution, now), DisabledUpdate(uuid, false));
      IsDue(c, time) <==> now + 10 * MillisPerMinute <= time
  {
  }

  /** A minor edit changes the text only; a major edit changes the text and
      restarts the schedule but leaves `disabled` alone. */
  lemma EditEffects(c: Card, prompt: string, solution: string, now: int)
    ensures Apply(c, MinorUpdate(c.id, prompt, solution)) == c.(prompt := prompt, solution := solution)
    ensures var d := Apply(c, MajorUpdate(c.id, prompt, solution, now));
      && d.prompt == prompt && d.solution == solution && d.disabled == c.disabled
      && d.state == New && d.changeTime == now && d.nextTime == now + 30 * MillisPerMinute
  {
  }

  /** A review sets the outcome and the time, leaves text and `disabled`
      alone; after a success or a failure on a card changed in the past, the
      card is due again no earlier than the review, a failure no later than a
      success. */
  lemma ReviewEffects(c: Card, now: int)
    requires c.changeTime <= now
    ensures var ok := Apply(c, ResultUpdate(c.id, Ok, now, Scheduling.NextTime(now, c.changeTime, Scheduling.OkWait)));
      var failed := Apply(c, ResultUpdate(c.id, Failed, now, Scheduling.NextTime(now, c.changeTime, Scheduling.FailedWait)));
      && ok.state == Ok && failed.state == Failed
      && ok.changeTime == now && failed.changeTime == now
      && ok == c.(state := Ok, changeTime := now, nextTime := ok.nextTime)
      && failed == c.(state := Failed, changeTime := now, nextTime := failed.nextTime)
      && now <= failed.nextTime <= ok.nextTime
  {
    Scheduling.ReviewIntervals(now, c.changeTime);
  }

  /** Enabling and disabling touch `disabled` only, and the later of two
      wins. */
  lemma DisabledEffects(c: Card, disabled: bool, again: bool)
    ensures Apply(c, DisabledUpdate(c.id, disabled)) == c.(disabled := disabled)
    ensures Apply(Apply(c, DisabledUpdate(c.id, disabled)), DisabledUpdate(c.id, again)) ==
      Apply(c, DisabledUpdate(c.id, again))
  {
  }

  /** The object `create(dependencies)` returns. `getTimeAsDate()` and
      `createUuid()` are the `now` and `uuid` parameters; the `user`
      argument of every operation is ignored by the source and left out.
      `calls` lists, in order, the changing calls made on the two
      repositories. */
  class Logic {
    const repository: Repository
    var calls: seq<Call>

    constructor (repository: Repository)
      ensures this.repository == repository && calls == []
    {
      this.repository := repository;
      calls := [];
    }

    /** `createCard`: sends the new card; the outcome of the repository call
        is not awaited, so a clash of ids goes unreported. */
    method CreateCard(prompt: string, solution: string, now: int, uuid: string)
      modifies this, repository, repository.file
      ensures calls == old(calls) + [CardCreated(NewCard(uuid, prompt, solution, now))]
      ensures var card := NewCard(uuid, prompt, solution, now);
        if exists c :: c in old(repository.data) && c.id == uuid then
          repository.data == old(repository.data) && repository.file.records == old(repository.file.records)
        else
          repository.data == old(repository.data) + [card] && repository.file.records == repository.data
    {
      var card := NewCard(uuid, prompt, solution, now);
      var _ := repository.CreateCard(card);
      calls := calls + [CardCreated(card)];
    }

    /** `readCard`: what the repository answers. */
    method ReadCard(id: string) returns (r: Option<Card>)
      ensures r.None? <==> forall c :: c in repository.data ==> c.id != id
      ensures r.Some? ==>
        var k := FirstIndex(repository.data, HasId(id));
        k.Some? && r.value == repository.data[k.value]
    {
      r := repository.ReadCard(id);
    }

    /** `updateCard`: a minor edit sends only the text, a major one also
        reschedules; the snapshot is deleted once, after the update has been
        sent, and the repository's answer is returned. */
    method UpdateCard(id: string, prompt: string, solution: string, isMinor: bool, now: int)
      returns (r: Option<Card>)
      modifies this, repository, repository.file
      ensures var u := if isMinor then MinorUpdate(id, prompt, solution) else MajorUpdate(id, prompt, solution, now);
        calls == old(calls) + [CardUpdated(u), SnapshotDeleted]
      ensures var u := if isMinor then MinorUpdate(id, prompt, solution) else MajorUpdate(id, prompt, solution, now);
        match FirstIndex(old(repository.data), HasId(id))
        case None =>
          r.None? && repository.data == old(repository.data)
          && repository.file.records == old(repository.file.records)
        case Some(k) =>
          && repository.data == old(repository.data)[k := Apply(old(repository.data)[k], u)]
          && r == Some(repository.data[k])
          && repository.file.records == repository.data
    {
      var u := if isMinor then MinorUpdate(id, prompt, solution) else MajorUpdate(id, prompt, solution, now);
      r := repository.UpdateCard(u);
      calls := calls + [CardUpdated(u)];
      calls := calls + [SnapshotDeleted];
    }

    /** `deleteCard`: what the repository answers. */
    method DeleteCard(id: string) returns (r: bool)
      modifies this, repository, repository.file
      ensures r
      ensures calls == old(calls) + [CardDeleted(id)]
      ensures repository.data == Filter(old(repository.data), HasOtherId(id))
      ensures repository.file.records == repository.data
    {
      r := repository.DeleteCard(id);
      calls := calls + [CardDeleted(id)];
    }

    /** `cards`: what the repository finds, in store order. */
    method Cards(substring: string) returns (r: seq<Card>)
      ensures r == Filter(repository.data, Matching(substring))
      ensures forall c :: c in r <==> c in repository.data && MatchesText(c, substring)
    {
      r := repository.FindCards(substring);
    }

    /** `findNextCard`: the repository asked with the current time. */
    method FindNextCard(now: int) returns (r: Option<Card>)
      ensures r == SortedHead(Filter(repository.data, DueAt(now)), NextTimeOf)
      ensures r.Some? ==> r.value in repository.data && IsDue(r.value, now)
    {
      r := repository.FindNextCard(now);
    }

    /** `setState`: nothing at all for a missing id; otherwise the first card
        with the id gets the outcome, the time, and a due time `wait` applied
        to the whole seconds since its last change. */
    method SetState(id: string, state: State, wait: int -> int, now: int)
      modifies this, repository, repository.file
      ensures match FirstIndex(old(repository.data), HasId(id))
        case None =>
          && calls == old(calls)
          && repository.data == old(repository.data)
          && repository.file.records == old(repository.file.records)
        case Some(k) =>
          var c := old(repository.data)[k];
          var u := ResultUpdate(id, state, now, Scheduling.NextTime(now, c.changeTime, wait));
          && calls == old(calls) + [CardUpdated(u)]
          && repository.data == old(repository.data)[k := Apply(c, u)]
          && repository.file.records == repository.data
    {
      var card := repository.ReadCard(id);
      if card.None? {
        return;
      }
      var u := ResultUpdate(id, state, now, Scheduling.NextTime(now, card.value.changeTime, wait));
      var _ := repository.UpdateCard(u);
      calls := calls + [CardUpdated(u)];
    }

    /** `setOk`: state Ok, waiting twice the time passed. */
    method SetOk(id: string, now: int)
      modifies this, repository, repository.file
      ensures match FirstIndex(old(repository.data), HasId(id))
        case None =>
          && calls == old(calls)
          && repository.data == old(repository.data)
          && repository.file.records == old(repository.file.records)
        case Some(k) =>
          var c := old(repository.data)[k];
          var u := ResultUpdate(id, Ok, now, Scheduling.NextTime(now, c.changeTime, Scheduling.OkWait));
          && calls == old(calls) + [CardUpdated(u)]
          && repository.data == old(repository.data)[k := Apply(c, u)]
          && repository.file.records == repository.data
    {
      SetState(id, Ok, Scheduling.OkWait, now);
    }

    /** `setFailed`: state Failed, waiting half the time passed. */
    method SetFailed(id: string, now: int)
      modifies this, repository, repository.file
      ensures match FirstIndex(old(repository.data), HasId(id))
        case None =>
          && calls == old(calls)
          && repository.data == old(repository.data)
          && repository.file.records == old(repository.file.records)
        case Some(k) =>
          var c := old(repository.data)[k];
          var u := ResultUpdate(id, Failed, now, Scheduling.NextTime(now, c.changeTime, Scheduling.FailedWait));
          && calls == old(calls) + [CardUpdated(u)]
          && repository.data == old(repository.data)[k := Apply(c, u)]
          && repository.file.records == repository.data
    {
      SetState(id, Failed, Scheduling.FailedWait, now);
    }

    /** `enable` and `disable`: only `disabled` is sent. The update is sent
        whether or not the id exists; the file is written only when it does. */
    method SetDisabled(id: string, disabled: bool)
      modifies this, repository, repository.file
      ensures calls == old(calls) + [CardUpdated(DisabledUpdate(id, disabled))]
      ensures match FirstIndex(old(repository.data), HasId(id))
        case None =>
          repository.data == old(repository.data)
          && repository.file.records == old(repository.file.records)
        case Some(k) =>
          && repository.data == old(repository.data)[k := old(repository.data)[k].(disabled := disabled)]
          && repository.file.records == repository.data
    {
      var k := FirstIndex(repository.data, HasId(id));
      var _ := repository.UpdateCard(DisabledUpdate(id, disabled));
      if k.Some? {
        DisabledEffects(old(repository.data)[k.value], disabled, disabled);
      }
      calls := calls + [CardUpdated(DisabledUpdate(id, disabled))];
    }

    method Enable(id: string)
      modifies this, repository, repository.file
      ensures calls == old(calls) + [CardUpdated(DisabledUpdate(id, false))]
      ensures match FirstIndex(old(repository.data), HasId(id))
        case None =>
          repository.data == old(repository.data)
          && repository.file.records == old(repository.file.records)
        case Some(k) =>
          && repository.data == old(repository.data)[k := old(repository.data)[k].(disabled := false)]
          && repository.file.records == repository.data
    {
      SetDisabled(id, false);
    }

    method Disable(id: string)
      modifies this, repository, repository.file
      ensures calls == old(calls) + [CardUpdated(DisabledUpdate(id, true))]
      ensures match FirstIndex(old(repository.data), HasId(id))
        case None =>
          repository.data == old(repository.data)
          && repository.file.records == old(repository.file.records)
        case Some(k) =>
          && repository.data == old(repository.data)[k := old(repository.data)[k].(disabled := true)]
          && repository.file.records == repository.data
    {
      SetDisabled(id, true);
    }

    /** `saveSnapshot` and `deleteSnapshot`: passed on to the auto-save
        repository. */
    method SaveSnapshot(card: Card)
      modifies this
      ensures calls == old(calls) + [SnapshotSaved(card)]
    {
      calls := calls + [SnapshotSaved(card)];
    }

    method DeleteSnapshot()
      modifies this
      ensures calls == old(calls) + [SnapshotDeleted]
    {
      calls := calls + [SnapshotDeleted];
    }
  }
}
