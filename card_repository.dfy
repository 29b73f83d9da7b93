/** The card repository kept in a JSON file (app/file-repository-tools.ts):
    `connect()` loads the cards into an array held by the connection, every
    change is made to that array and then the whole array is written back. */
module CardRepository {
  import opened Common
  import opened Seqs
  import Text
  import opened Types
  import DateFormat

  /** A card; times are milliseconds since the epoch. The `Card` type is not
      defined in app/types.ts; its fields are those this store reads and
      writes. */
  datatype Card = Card(
    id: string,
    prompt: string,
    solution: string,
    state: State,
    changeTime: int,
    nextTime: int,
    disabled: bool)

  /** The fields to overwrite; `None` stands for a field left undefined. */
  datatype CardUpdate = CardUpdate(
    id: string,
    prompt: Option<string>,
    solution: Option<string>,
    state: Option<State>,
    changeTime: Option<int>,
    nextTime: Option<int>,
    disabled: Option<bool>)

  /** `new Error("Key already exists!")`. */
  datatype Error = KeyAlreadyExists

  /** An update that names only the card. */
  function OnlyId(id: string): CardUpdate
  {
    CardUpdate(id, None, None, None, None, None, None)
  }

  function Pick<T>(update: Option<T>, current: T): T
  {
    if update.Some? then update.value else current
  }

  /** The body of the `updateCard` loop for the matching card: every defined
      field is assigned, every undefined one kept. */
  function Apply(c: Card, u: CardUpdate): Card
  {
    c.(prompt := Pick(u.prompt, c.prompt),
       solution := Pick(u.solution, c.solution),
       state := Pick(u.state, c.state),
       changeTime := Pick(u.changeTime, c.changeTime),
       nextTime := Pick(u.nextTime, c.nextTime),
       disabled := Pick(u.disabled, c.disabled))
  }

  /** Two updates in a row are one update whose defined fields are those of
      the second, falling back on those of the first. */
  function Then(u1: CardUpdate, u2: CardUpdate): CardUpdate
  {
    CardUpdate(u2.id,
      if u2.prompt.Some? then u2.prompt else u1.prompt,
      if u2.solution.Some? then u2.solution else u1.solution,
      if u2.state.Some? then u2.state else u1.state,
      if u2.changeTime.Some? then u2.changeTime else u1.changeTime,
      if u2.nextTime.Some? then u2.nextTime else u1.nextTime,
      if u2.disabled.Some? then u2.disabled else u1.disabled)
  }

  /** An update with only `id` returns the card as it was, an update leaves
      the id alone, applying the same update twice changes nothing more, and
      two updates compose into one. */
  lemma ApplyLaws(c: Card, u: CardUpdate, u2: CardUpdate)
    ensures Apply(c, OnlyId(u.id)) == c
    ensures Apply(c, u).id == c.id
    ensures Apply(Apply(c, u), u) == Apply(c, u)
    ensures Apply(Apply(c, u), u2) == Apply(c, Then(u, u2))
  {
  }

  function HasId(id: string): Card -> bool
  {
    (c: Card) => c.id == id
  }

  function HasOtherId(id: string): Card -> bool
  {
    (c: Card) => c.id != id
  }

  /** The `findCards` test: the lower-cased prompt or solution contains the
      lower-cased substring. */
  predicate MatchesText(c: Card, substring: string)
  {
    || Text.Includes(Text.ToLower(c.prompt), Text.ToLower(substring))
    || Text.Includes(Text.ToLower(c.solution), Text.ToLower(substring))
  }

  function Matching(substring: string): Card -> bool
  {
    (c: Card) => MatchesText(c, substring)
  }

  /** The `findNextCard` filter: due at `time` (bound included) and enabled. */
  predicate IsDue(c: Card, time: int)
  {
    c.nextTime <= time && !c.disabled
  }

  function DueAt(time: int): Card -> bool
  {
    (c: Card) => IsDue(c, time)
  }

  function NextTimeOf(c: Card): int
  {
    c.nextTime
  }

  predicate UniqueIds(data: seq<Card>)
  {
    forall i, j :: 0 <= i < j < |data| ==> data[i].id != data[j].id
  }

  /** The search ignores case: the substring's case does not matter, and
      whatever contains the substring as written is found. */
  lemma MatchesTextIgnoresCase(c: Card, substring: string)
    ensures MatchesText(c, substring) == MatchesText(c, Text.ToLower(substring))
    ensures Text.Includes(c.prompt, substring) || Text.Includes(c.solution, substring) ==>
      MatchesText(c, substring)
  {
    Text.ToLowerIdempotent(substring);
    if Text.Includes(c.prompt, substring) {
      Text.LowerKeepsIncludes(c.prompt, substring);
    }
    if Text.Includes(c.solution, substring) {
      Text.LowerKeepsIncludes(c.solution, substring);
    }
  }

  /** `createEmptyRepository()`. */
  method CreateEmptyRepository(file: JsonFile<Card>)
    modifies file
    ensures file.records == []
  {
    file.Write([]);
  }

  /** One connection: the cards it loaded, changed in place and written back
      to the file after each change. */
  class Repository {
    const file: JsonFile<Card>
    var data: seq<Card>

    /** `connect()`: the connection starts from what the file holds. The
        reviver is not applied to the records (see `ReadsBackAsWritten`). */
    constructor Connect(file: JsonFile<Card>)
      ensures this.file == file && data == file.records
    {
      this.file := file;
      data := file.records;
    }

    /** `createCard`: refuses an id that is already present; otherwise appends
        the card and writes the file. */
    method CreateCard(card: Card) returns (r: Result<(), Error>)
      modifies this, file
      ensures r.Thrown? <==> exists c :: c in old(data) && c.id == card.id
      ensures r.Thrown? ==> data == old(data) && file.records == old(file.records)
      ensures r.Returned? ==> data == old(data) + [card] && file.records == data
      ensures UniqueIds(old(data)) ==> UniqueIds(data)
    {
      var sameId := FilterSeq(data, HasId(card.id));
      if |sameId| > 0 {
        assert sameId[0] in sameId;
        return Thrown(KeyAlreadyExists);
      }
      forall c | c in data
        ensures c.id != card.id
      {
        assert c in sameId <==> c in data && HasId(card.id)(c);
      }
      data := data + [card];
      file.Write(data);
      r := Returned(());
    }

    /** `readCard`: the first card with the id, or undefined. */
    method ReadCard(id: string) returns (r: Option<Card>)
      ensures r.None? <==> forall c :: c in data ==> c.id != id
      ensures r.Some? ==>
        var k := FirstIndex(data, HasId(id));
        k.Some? && r.value == data[k.value] && r.value.id == id
    {
      var hits := FilterSeq(data, HasId(id));
      FilterHead(data, HasId(id));
      if |hits| > 0 {
        r := Some(hits[0]);
      } else {
        r := None;
      }
    }

    /** `updateCard`: finds the first card with the id, assigns the defined
        fields one by one, writes the file and returns the card; undefined
        when no card has the id, in which case nothing is written. */
    method UpdateCard(u: CardUpdate) returns (r: Option<Card>)
      modifies this, file
      ensures FirstIndex(old(data), HasId(u.id)).None? ==>
        r.None? && data == old(data) && file.records == old(file.records)
      ensures FirstIndex(old(data), HasId(u.id)).Some? ==>
        var k := FirstIndex(old(data), HasId(u.id)).value;
        && data == old(data)[k := Apply(old(data)[k], u)]
        && r == Some(data[k])
        && file.records == data
    {
      var i := 0;
      while i < |data|
        invariant 0 <= i <= |data|
        invariant data == old(data)
        invariant forall j :: 0 <= j < i ==> data[j].id != u.id
      {
        if data[i].id != u.id {
          i := i + 1;
          continue;
        }
        assert HasId(u.id)(data[i]);
        assert FirstIndex(data, HasId(u.id)) == Some(i);
        // `card` is the element itself: what is assigned to it lands in `data`.
        var card := data[i];
        if u.prompt.Some? {
          card := card.(prompt := u.prompt.value);
        }
        if u.solution.Some? {
          card := card.(solution := u.solution.value);
        }
        if u.state.Some? {
          card := card.(state := u.state.value);
        }
        if u.changeTime.Some? {
          card := card.(changeTime := u.changeTime.value);
        }
        if u.nextTime.Some? {
          card := card.(nextTime := u.nextTime.value);
        }
        if u.disabled.Some? {
          card := card.(disabled := u.disabled.value);
        }
        data := data[i := card];
        file.Write(data);
        return Some(data[i]);
      }
      r := None;
    }

    /** `deleteCard`: keeps every card with another id, in order, writes the
        file and answers true whether or not anything was removed. */
    method DeleteCard(id: string) returns (r: bool)
      modifies this, file
      ensures r
      ensures data == Filter(old(data), HasOtherId(id)) && file.records == data
      ensures forall c :: c in data <==> c in old(data) && c.id != id
      ensures (forall c :: c in old(data) ==> c.id != id) ==> data == old(data)
    {
      if forall c :: c in data ==> c.id != id {
        FilterKeepsAll(data, HasOtherId(id));
      }
      data := FilterSeq(data, HasOtherId(id));
      file.Write(data);
      r := true;
    }

    /** `findCards`: the cards whose prompt or solution contains the
        substring, ignoring case, in store order. */
    method FindCards(substring: string) returns (r: seq<Card>)
      ensures r == Filter(data, Matching(substring))
      ensures forall c :: c in r <==> c in data && MatchesText(c, substring)
    {
      r := FilterSeq(data, Matching(substring));
    }

    /** `findNextCard(time)`: the head of the due, enabled cards sorted by
        `nextTime`, that is the first of them with the smallest `nextTime`. */
    method FindNextCard(time: int) returns (r: Option<Card>)
      ensures r == SortedHead(Filter(data, DueAt(time)), NextTimeOf)
      ensures r.None? <==> forall c :: c in data ==> !IsDue(c, time)
      ensures r.Some? ==> r.value in data && IsDue(r.value, time)
      ensures r.Some? ==> forall c :: c in data && IsDue(c, time) ==> r.value.nextTime <= c.nextTime
    {
      var due := FilterSeq(data, DueAt(time));
      FilterEmpty(data, DueAt(time));
      assert forall c :: DueAt(time)(c) == IsDue(c, time);
      var k := FirstMinimal(due, NextTimeOf);
      if k.None? {
        r := None;
      } else {
        r := Some(due[k.value]);
        forall c | c in data && IsDue(c, time)
          ensures r.value.nextTime <= c.nextTime
        {
          assert c in due;
        }
      }
    }
  }

  /** None of the card's strings has the date shape, so the reviver reads
      each of them back as the string that was written. */
  predicate ReadsBackAsWritten(card: Card)
  {
    && !DateFormat.IsDateString(card.id)
    && !DateFormat.IsDateString(card.prompt)
    && !DateFormat.IsDateString(card.solution)
  }

  /** A card created through one connection is read back through a new
      connection to the same file, when its strings survive the reviver. */
  method NewConnectionSeesCreate(file: JsonFile<Card>, card: Card) returns (found: Option<Card>)
    requires forall c :: c in file.records ==> c.id != card.id
    requires ReadsBackAsWritten(card)
    modifies file
    ensures found == Some(card)
  {
    var first := new Repository.Connect(file);
    var created := first.CreateCard(card);
    var second := new Repository.Connect(file);
    found := second.ReadCard(card.id);
    FilterHead(second.data, HasId(card.id));
  }
}
