/** The data feed behind the card screen: it reads the list of Pokémon, and
    for each of the first twenty fetches its details and its image, records
    it and binds it onto a card taken from the pool. Requests are not made
    here: every answer the feed could receive is an input. */
module PokeApi {
  import opened Optional
  import opened Engine
  import opened StatText
  import opened Pooling

  /** The list endpoint the feed reads. */
  const BaseUrl: string := "https://pokeapi.co/api/v2/pokemon?limit=100000&offset=0"

  /** How many list entries the feed processes. */
  const RecordLimit: nat := 20

  /** One entry of the list: a name and the URL of its detail record. */
  datatype ListEntry = ListEntry(name: string, url: string)

  /** The answer to the list request. */
  datatype ListResponse =
    | ListFailed(error: string)
    | ListFetched(results: seq<ListEntry>)

  /** The answer to a detail request: the record's image URL (empty when the
      record has none) and its stats, in the order the record gives them. */
  datatype DetailResponse =
    | DetailFailed(error: string)
    | DetailFetched(imageUrl: string, stats: seq<Stat>)

  /** The answer to an image request. */
  datatype ImageResponse =
    | ImageFailed(error: string)
    | ImageFetched(texture: Texture)

  /** One recorded Pokémon. */
  datatype PokemonData = PokemonData(
    serialNumber: int, name: string, url: string, imageSprite: Option<Sprite>, stats: string)

  /** What the image download hands its callback: no sprite when the request
      failed, otherwise a sprite over the whole downloaded texture. */
  function DownloadImage(response: ImageResponse): (sprite: Option<Sprite>)
    ensures sprite == None <==> response.ImageFailed?
    ensures sprite != None ==> sprite.value.texture == response.texture
  {
    match response
    case ImageFailed(_) => None
    case ImageFetched(texture) => Some(Sprite(texture))
  }

  /** The sprite a record ends up with: nothing is downloaded for an empty
      image URL. */
  function RecordSprite(imageUrl: string, image: string -> ImageResponse): Option<Sprite>
  {
    if imageUrl == "" then None else DownloadImage(image(imageUrl))
  }

  /** The record a detail answer produces for a list entry, if any. */
  function DetailRecord(name: string, url: string, serialNumber: int, response: DetailResponse,
                        image: string -> ImageResponse): (r: Option<PokemonData>)
    ensures r.Some? <==> response.DetailFetched?
    ensures r.Some? ==>
      r.value.serialNumber == serialNumber && r.value.name == name && r.value.url == url &&
      r.value.stats == StatsText(response.stats) &&
      (r.value.imageSprite == None <==>
         response.imageUrl == "" || image(response.imageUrl).ImageFailed?)
    ensures r.Some? && r.value.imageSprite.Some? ==>
      response.imageUrl != "" && image(response.imageUrl).ImageFetched? &&
      r.value.imageSprite.value.texture == image(response.imageUrl).texture
  {
    match response
    case DetailFailed(_) => None
    case DetailFetched(imageUrl, stats) =>
      Some(PokemonData(serialNumber, name, url, RecordSprite(imageUrl, image), StatsText(stats)))
  }

  /** The part of the detail request's callback that turns a fetched answer
      into a record: the stat summary is built line by line and the image is
      fetched when the answer names one. A failed request gives no record. */
  method BuildRecord(name: string, url: string, serialNumber: int, response: DetailResponse,
                     image: string -> ImageResponse)
    returns (record: Option<PokemonData>)
    ensures record == DetailRecord(name, url, serialNumber, response, image)
  {
    match response
    case DetailFailed(_) =>
      record := None;
    case DetailFetched(imageUrl, statList) =>
      var stats := BuildStatsText(statList);
      var imageSprite: Option<Sprite> := None;
      if imageUrl != "" {
        imageSprite := DownloadImage(image(imageUrl));
      }
      record := Some(PokemonData(serialNumber, name, url, imageSprite, stats));
  }

  /** The record produced for list entry `i` (serial number i + 1). */
  function EntryRecord(results: seq<ListEntry>, i: nat, detail: string -> DetailResponse,
                       image: string -> ImageResponse): (r: Option<PokemonData>)
    requires i < |results|
    ensures r.Some? ==> r.value.serialNumber == i + 1
  {
    DetailRecord(results[i].name, results[i].url, i + 1, detail(results[i].url), image)
  }

  function AsSeq<T>(o: Option<T>): seq<T>
  {
    match o
    case None => []
    case Some(x) => [x]
  }

  /** The records that the first `n` answers of `entry` produce, in order:
      an answer without a record contributes nothing. */
  function Gather(entry: nat -> Option<PokemonData>, n: nat): seq<PokemonData>
  {
    if n == 0 then []
    else if entry(n - 1).Some? then Gather(entry, n - 1) + [entry(n - 1).value]
    else Gather(entry, n - 1)
  }

  /** Each of the first `n` answers that has a record numbers it by its
      position plus one. */
  ghost predicate Numbered(entry: nat -> Option<PokemonData>, n: nat)
  {
    forall i :: 0 <= i < n && entry(i).Some? ==> entry(i).value.serialNumber == i + 1
  }

  /** Serial numbers strictly increase along `recs`. */
  predicate SerialsIncreasing(recs: seq<PokemonData>)
  {
    forall j, k :: 0 <= j < k < |recs| ==> recs[j].serialNumber < recs[k].serialNumber
  }

  /** Every gathered record is the answer its serial number points at. */
  lemma {:induction false} GatherSound(entry: nat -> Option<PokemonData>, n: nat)
    requires Numbered(entry, n)
    ensures |Gather(entry, n)| <= n
    ensures forall j :: 0 <= j < |Gather(entry, n)| ==>
      1 <= Gather(entry, n)[j].serialNumber <= n &&
      entry(Gather(entry, n)[j].serialNumber - 1) == Some(Gather(entry, n)[j])
  {
    if n > 0 {
      GatherSound(entry, n - 1);
    }
  }

  /** Gathered records come in strictly increasing serial order. */
  lemma {:induction false} GatherOrdered(entry: nat -> Option<PokemonData>, n: nat)
    requires Numbered(entry, n)
    ensures SerialsIncreasing(Gather(entry, n))
  {
    if n > 0 {
      GatherOrdered(entry, n - 1);
      GatherSound(entry, n - 1);
    }
  }

  /** Every answer among the first `n` that has a record has it gathered. */
  lemma {:induction false} GatherComplete(entry: nat -> Option<PokemonData>, n: nat, i: nat)
    requires i < n && entry(i).Some?
    ensures entry(i).value in Gather(entry, n)
  {
    if i < n - 1 {
      GatherComplete(entry, n - 1, i);
    }
  }

  /** The answer for each list position: the record of that entry. */
  function EntryOf(results: seq<ListEntry>, detail: string -> DetailResponse,
                   image: string -> ImageResponse): nat -> Option<PokemonData>
  {
    (i: nat) => if i < |results| then EntryRecord(results, i, detail, image) else None
  }

  lemma EntryOfNumbered(results: seq<ListEntry>, detail: string -> DetailResponse,
                        image: string -> ImageResponse)
    ensures Numbered(EntryOf(results, detail, image), |results|)
  {
    var entry := EntryOf(results, detail, image);
    forall i | 0 <= i < |results| && entry(i).Some?
      ensures entry(i).value.serialNumber == i + 1
    {
      assert entry(i) == EntryRecord(results, i, detail, image);
    }
  }

  /** The records the first `n` list entries produce, in list order. */
  function ListRecords(results: seq<ListEntry>, n: nat, detail: string -> DetailResponse,
                       image: string -> ImageResponse): seq<PokemonData>
    requires n <= |results|
  {
    Gather(EntryOf(results, detail, image), n)
  }

  /** Handling one more entry appends its record, if any. */
  lemma ListRecordsSnoc(results: seq<ListEntry>, i: nat, detail: string -> DetailResponse,
                        image: string -> ImageResponse)
    requires i < |results|
    ensures ListRecords(results, i + 1, detail, image) ==
      ListRecords(results, i, detail, image) + AsSeq(EntryRecord(results, i, detail, image))
  {
    var entry := EntryOf(results, detail, image);
    assert entry(i) == EntryRecord(results, i, detail, image);
    if entry(i).None? {
      assert AsSeq(entry(i)) == [];
    }
  }

  /** The records a whole run of the feed appends. */
  function FeedRecords(list: ListResponse, detail: string -> DetailResponse,
                       image: string -> ImageResponse): seq<PokemonData>
    requires list.ListFetched? ==> |list.results| >= RecordLimit
  {
    match list
    case ListFailed(_) => []
    case ListFetched(results) => ListRecords(results, RecordLimit, detail, image)
  }

  /** Every record comes from the entry its serial number names and is
      exactly what that entry's detail answer produces. */
  lemma ListRecordsSound(results: seq<ListEntry>, n: nat,
                         detail: string -> DetailResponse, image: string -> ImageResponse)
    requires n <= |results|
    ensures |ListRecords(results, n, detail, image)| <= n
    ensures var recs := ListRecords(results, n, detail, image);
      forall j :: 0 <= j < |recs| ==>
        1 <= recs[j].serialNumber <= n &&
        EntryRecord(results, recs[j].serialNumber - 1, detail, image) == Some(recs[j])
  {
    EntryOfNumbered(results, detail, image);
    GatherSound(EntryOf(results, detail, image), n);
  }

  /** Records appear in strictly increasing serial order. */
  lemma ListRecordsOrdered(results: seq<ListEntry>, n: nat,
                           detail: string -> DetailResponse, image: string -> ImageResponse)
    requires n <= |results|
    ensures SerialsIncreasing(ListRecords(results, n, detail, image))
  {
    EntryOfNumbered(results, detail, image);
    GatherOrdered(EntryOf(results, detail, image), n);
  }

  /** Every entry whose detail request succeeds has its record; a failure
      for one entry does not keep the later entries from being recorded. */
  lemma ListRecordsComplete(results: seq<ListEntry>, n: nat, i: nat,
                            detail: string -> DetailResponse, image: string -> ImageResponse)
    requires i < n <= |results|
    requires detail(results[i].url).DetailFetched?
    ensures EntryRecord(results, i, detail, image).value in ListRecords(results, n, detail, image)
  {
    var entry := EntryOf(results, detail, image);
    assert entry(i) == EntryRecord(results, i, detail, image);
    GatherComplete(entry, n, i);
  }

  /** A run of the feed records exactly the first twenty entries whose details
      were fetched, in list order, each with serial number = position + 1. */
  lemma FeedRecordsExact(list: ListResponse, detail: string -> DetailResponse,
                         image: string -> ImageResponse, i: nat)
    requires list.ListFetched? && |list.results| >= RecordLimit
    requires i < RecordLimit
    ensures var recs := FeedRecords(list, detail, image);
      (exists j :: 0 <= j < |recs| && recs[j].serialNumber == i + 1) <==>
        detail(list.results[i].url).DetailFetched?
  {
    var recs := FeedRecords(list, detail, image);
    ListRecordsSound(list.results, RecordLimit, detail, image);
    if detail(list.results[i].url).DetailFetched? {
      ListRecordsComplete(list.results, RecordLimit, i, detail, image);
    }
  }

  /** The texts of a card after binding: the name goes to the first text
      component and the stats to the second, each only when that component
      exists; the others keep their text. */
  function BindTexts(texts: seq<string>, name: string, stats: string): (r: seq<string>)
    ensures |r| == |texts|
    ensures |texts| > 0 ==> r[0] == name
    ensures |texts| > 1 ==> r[1] == stats
    ensures forall k :: 2 <= k < |texts| ==> r[k] == texts[k]
  {
    var named := if |texts| > 0 then texts[0 := name] else texts;
    if |named| > 1 then named[1 := stats] else named
  }

  /** A card shows a record: it is active, its image slot holds the record's
      sprite, and its first two text components (where present) hold the
      record's name and stats. */
  ghost predicate Bound(card: GameObject, record: PokemonData)
    reads card
  {
    card.active && card.sprite == record.imageSprite &&
    (|card.texts| > 0 ==> card.texts[0] == record.name) &&
    (|card.texts| > 1 ==> card.texts[1] == record.stats)
  }

  /** What can be seen of a card: whether it is shown, its image and its
      texts. */
  datatype CardLook = CardLook(active: bool, sprite: Option<Sprite>, texts: seq<string>)

  ghost function LookOf(card: GameObject): CardLook
    reads card
  {
    CardLook(card.active, card.sprite, card.texts)
  }

  /** Every card of the reserve that was not taken still looks as recorded
      in `looks`. */
  ghost predicate Untouched(reserve: seq<GameObject>, cards: seq<GameObject>,
                            looks: map<GameObject, CardLook>)
    reads reserve
  {
    forall c :: c in reserve && c !in cards ==> c in looks && LookOf(c) == looks[c]
  }

  /** Cards that stayed unchanged since a snapshot still look as it
      recorded. */
  twostate lemma UntouchedStep(new reserve: seq<GameObject>, new cards: seq<GameObject>,
                               new taken: seq<GameObject>, new looks: map<GameObject, CardLook>)
    requires old(allocated(reserve)) && old(allocated(cards)) && old(allocated(looks))
    requires old(Untouched(reserve, cards, looks))
    requires forall c: GameObject :: old(allocated(c)) && c !in taken ==> LookOf(c) == old(LookOf(c))
    ensures Untouched(reserve, cards + taken, looks)
  {
  }


  /** The texts the `j`th card taken had before it was taken: those recorded
      for that reserve card in `looks`, or the template's for a card
      instantiated once the reserve had run out. */
  ghost function Origin(reserve: seq<GameObject>, looks: map<GameObject, CardLook>,
                        template: seq<string>, j: nat): seq<string>
  {
    if j < |reserve| && reserve[j] in looks then looks[reserve[j]].texts else template
  }

  /** Each card taken carries its own record's name and stats over the texts
      it had before it was taken, and no other text of it changed. */
  ghost predicate Labelled(records: seq<PokemonData>, cards: seq<GameObject>, reserve: seq<GameObject>,
                           looks: map<GameObject, CardLook>, template: seq<string>)
    reads cards
  {
    |cards| == |records| &&
    forall j :: 0 <= j < |cards| ==>
      cards[j].texts == BindTexts(Origin(reserve, looks, template, j), records[j].name, records[j].stats)
  }

  class PokeAPIManager {
    const baseUrl: string
    /** Every Pokémon recorded so far, in the order recorded. */
    var allPokemonList: seq<PokemonData>
    /** The pool the cards are taken from. */
    const prefabPool: ObjectPool

    constructor (pool: ObjectPool)
      ensures baseUrl == BaseUrl && allPokemonList == [] && prefabPool == pool
    {
      baseUrl := BaseUrl;
      allPokemonList := [];
      prefabPool := pool;
    }

    /** Shows a record on a card: the sprite in its image slot, the name in
        its first text component and the stats in its second, each text only
        when that component exists. */
    static method BindCard(card: GameObject, imageSprite: Option<Sprite>, name: string, stats: string)
      modifies card
      ensures card.active == old(card.active) && card.sprite == imageSprite
      ensures card.texts == BindTexts(old(card.texts), name, stats)
    {
      card.sprite := imageSprite;
      if |card.texts| > 0 {
        card.texts := card.texts[0 := name];
      }
      if |card.texts| > 1 {
        card.texts := card.texts[1 := stats];
      }
    }

    /** Handles one list entry: on a fetched detail record, builds the stat
        summary, fetches the image (when there is an image URL), appends the
        record, takes one card from the pool and binds the record onto it. On
        a failed detail request nothing changes. `taken` holds the card taken
        from the pool, if any. */
    method GetPokemonDetails(name: string, url: string, serialNumber: int,
                             detail: string -> DetailResponse, image: string -> ImageResponse)
      returns (ghost taken: seq<GameObject>)
      modifies this, prefabPool, if prefabPool.queue == [] then {} else {prefabPool.queue[0]}
      ensures var added := AsSeq(DetailRecord(name, url, serialNumber, detail(url), image));
        allPokemonList == old(allPokemonList) + added && |taken| == |added|
      ensures prefabPool.queue == Drain(old(prefabPool.queue), |taken|)
      ensures prefabPool.created == old(prefabPool.created) + Max0(|taken| - |old(prefabPool.queue)|)
      ensures TakenFrom(taken, old(prefabPool.queue))
      ensures taken != [] && old(prefabPool.queue) == [] ==> fresh(taken[0])
      ensures taken != [] ==>
        Bound(taken[0], DetailRecord(name, url, serialNumber, detail(url), image).value) &&
        taken[0].texts == BindTexts(
          if old(prefabPool.queue) == [] then prefabPool.prefab.texts else old(prefabPool.queue[0].texts),
          name, StatsText(detail(url).stats))
      ensures old(prefabPool.Valid()) && old(prefabPool.Distinct()) ==>
        prefabPool.Valid() && prefabPool.Distinct() && (taken != [] ==> taken[0] !in prefabPool.queue)
      ensures forall c :: c in old(prefabPool.queue) && c !in taken ==> unchanged(c)
      ensures forall c: GameObject :: old(allocated(c)) && c !in taken ==> LookOf(c) == old(LookOf(c))
    {
      taken := [];
      ghost var queueBefore := prefabPool.queue;
      var record := BuildRecord(name, url, serialNumber, detail(url), image);
      match record
      case None =>
        assert prefabPool.queue == Drain(queueBefore, 0);
      case Some(pokemonData) =>
        allPokemonList := allPokemonList + [pokemonData];

        var prefab := prefabPool.GetObject();
        ghost var poolAfterGet := prefabPool.queue;
        assert poolAfterGet == Drain(queueBefore, 1);
        BindCard(prefab, pokemonData.imageSprite, pokemonData.name, pokemonData.stats);
        assert prefabPool.queue == poolAfterGet;
        taken := [prefab];
    }

    /** The account the list loop keeps after the first `i` entries: the
        records they produced were appended to `recorded`, and one card was
        taken per record, first the reserve's, in order, then new ones. */
    ghost predicate Progress(results: seq<ListEntry>, i: nat, detail: string -> DetailResponse,
                             image: string -> ImageResponse, recorded: seq<PokemonData>,
                             reserve: seq<GameObject>, created: nat, cards: seq<GameObject>)
      requires i <= |results|
      reads this, prefabPool
    {
      var records := ListRecords(results, i, detail, image);
      allPokemonList == recorded + records &&
      |cards| == |records| &&
      prefabPool.queue == Drain(reserve, |cards|) &&
      prefabPool.created == created + Max0(|cards| - |reserve|) &&
      TakenFrom(cards, reserve) &&
      (forall j :: |reserve| <= j < |cards| ==> cards[j] !in reserve)
    }

    /** When the pool started out sound it still is, and every card taken so
        far is a different card that shows its record. */
    ghost predicate Shown(results: seq<ListEntry>, i: nat, detail: string -> DetailResponse,
                          image: string -> ImageResponse, cards: seq<GameObject>)
      requires i <= |results|
      reads this, prefabPool, prefabPool.queue, cards
    {
      var records := ListRecords(results, i, detail, image);
      |cards| == |records| &&
      prefabPool.Valid() && prefabPool.Distinct() && NoDuplicates(cards) &&
      (forall j :: 0 <= j < |cards| ==> cards[j] !in prefabPool.queue) &&
      forall j :: 0 <= j < |cards| ==> Bound(cards[j], records[j])
    }

    /** The loop's account after one more entry, from what handling that
        entry did to the record list and the pool. */
    twostate lemma ProgressStep(new results: seq<ListEntry>, i: nat, new detail: string -> DetailResponse,
                                new image: string -> ImageResponse, new recorded: seq<PokemonData>,
                                new reserve: seq<GameObject>, new created: nat, new cards: seq<GameObject>,
                                new taken: seq<GameObject>)
      requires i < |results|
      requires old(allocated(reserve)) && old(allocated(cards))
      requires old(Progress(results, i, detail, image, recorded, reserve, created, cards))
      requires allPokemonList == old(allPokemonList) + AsSeq(EntryRecord(results, i, detail, image))
      requires |taken| == |AsSeq(EntryRecord(results, i, detail, image))|
      requires prefabPool.queue == Drain(old(prefabPool.queue), |taken|)
      requires prefabPool.created == old(prefabPool.created) + Max0(|taken| - |old(prefabPool.queue)|)
      requires TakenFrom(taken, old(prefabPool.queue))
      requires taken != [] && old(prefabPool.queue) == [] ==> fresh(taken[0])
      ensures Progress(results, i + 1, detail, image, recorded, reserve, created, cards + taken)
    {
      assert allPokemonList == recorded + ListRecords(results, i + 1, detail, image) &&
             |cards + taken| == |ListRecords(results, i + 1, detail, image)| by {
        ListRecordsSnoc(results, i, detail, image);
      }
      TakeStep(reserve, cards, taken, old(prefabPool.queue), prefabPool.queue, created,
               old(prefabPool.created), prefabPool.created);
    }

    /** In a sound pool, the cards taken so far that still show their records,
        followed by the card bound to one more entry's record, satisfy `Shown`
        for one more entry. */
    lemma ShownStep(results: seq<ListEntry>, i: nat, detail: string -> DetailResponse,
                    image: string -> ImageResponse, cards: seq<GameObject>, taken: seq<GameObject>)
      requires i < |results|
      requires |cards| == |ListRecords(results, i, detail, image)|
      requires |taken| == |AsSeq(EntryRecord(results, i, detail, image))|
      requires prefabPool.Valid() && prefabPool.Distinct()
      requires NoDuplicates(cards)
      requires forall j :: 0 <= j < |cards| ==> cards[j] !in prefabPool.queue
      requires forall j :: 0 <= j < |cards| ==> Bound(cards[j], ListRecords(results, i, detail, image)[j])
      requires taken != [] ==>
        taken[0] !in prefabPool.queue && taken[0] !in cards &&
        Bound(taken[0], EntryRecord(results, i, detail, image).value)
      ensures Shown(results, i + 1, detail, image, cards + taken)
    {
      var records := ListRecords(results, i + 1, detail, image);
      ListRecordsSnoc(results, i, detail, image);
      var after := cards + taken;
      forall j | 0 <= j < |after| ensures Bound(after[j], records[j]) {
        if j < |cards| {
          assert after[j] == cards[j] && records[j] == ListRecords(results, i, detail, image)[j];
        } else {
          assert after[j] == taken[0] && records[j] == EntryRecord(results, i, detail, image).value;
        }
      }
      forall j, k | 0 <= j < k < |after| ensures after[j] != after[k] {
        if k >= |cards| {
          assert after[k] == taken[0];
        }
      }
    }

    /** The cards of a sound pool still show their records after one more
        entry was handled, when handling it left those cards alone. */
    twostate lemma ShownAfterEntry(new results: seq<ListEntry>, i: nat, new detail: string -> DetailResponse,
                                   new image: string -> ImageResponse, new cards: seq<GameObject>,
                                   new taken: seq<GameObject>)
      requires i < |results|
      requires old(allocated(cards))
      requires old(Shown(results, i, detail, image, cards))
      requires |taken| == |AsSeq(EntryRecord(results, i, detail, image))|
      requires prefabPool.queue == Drain(old(prefabPool.queue), |taken|)
      requires TakenFrom(taken, old(prefabPool.queue))
      requires taken != [] && old(prefabPool.queue) == [] ==> fresh(taken[0])
      requires taken != [] ==> Bound(taken[0], EntryRecord(results, i, detail, image).value)
      requires prefabPool.Valid() && prefabPool.Distinct() &&
        (taken != [] ==> taken[0] !in prefabPool.queue)
      requires forall c: GameObject :: old(allocated(c)) && c !in taken ==> LookOf(c) == old(LookOf(c))
      ensures Shown(results, i + 1, detail, image, cards + taken)
    {
      var records := ListRecords(results, i, detail, image);
      assert forall j :: 0 <= j < |cards| ==> cards[j] !in prefabPool.queue by {
        forall j | 0 <= j < |cards| ensures cards[j] !in prefabPool.queue {
          assert cards[j] !in old(prefabPool.queue);
        }
      }
      assert taken != [] ==> taken[0] !in cards;
      assert forall j :: 0 <= j < |cards| ==> Bound(cards[j], records[j]) by {
        forall j | 0 <= j < |cards| ensures Bound(cards[j], records[j]) {
          assert cards[j] !in taken;
          assert old(Bound(cards[j], records[j]));
        }
      }
      ShownStep(results, i, detail, image, cards, taken);
    }

    /** The cards of a sound pool keep their labels after one more entry was
        handled, and the card it took is labelled over the texts it had. */
    twostate lemma LabelledAfterEntry(new results: seq<ListEntry>, i: nat, new detail: string -> DetailResponse,
                                      new image: string -> ImageResponse, new reserve: seq<GameObject>,
                                      new looks: map<GameObject, CardLook>, new cards: seq<GameObject>,
                                      new taken: seq<GameObject>)
      requires i < |results|
      requires old(allocated(reserve)) && old(allocated(looks)) && old(allocated(cards))
      requires old(Shown(results, i, detail, image, cards))
      requires old(Untouched(reserve, cards, looks))
      requires old(prefabPool.queue) == Drain(reserve, |cards|)
      requires old(Labelled(ListRecords(results, i, detail, image), cards, reserve, looks, prefabPool.prefab.texts))
      requires |taken| == |AsSeq(EntryRecord(results, i, detail, image))|
      requires TakenFrom(taken, old(prefabPool.queue))
      requires taken != [] && old(prefabPool.queue) == [] ==> fresh(taken[0])
      requires taken != [] ==>
        taken[0].texts == BindTexts(
          if old(prefabPool.queue) == [] then prefabPool.prefab.texts else old(prefabPool.queue[0].texts),
          results[i].name, StatsText(detail(results[i].url).stats))
      requires forall c: GameObject :: old(allocated(c)) && c !in taken ==> LookOf(c) == old(LookOf(c))
      ensures Labelled(ListRecords(results, i + 1, detail, image), cards + taken, reserve, looks,
                       prefabPool.prefab.texts)
    {
      var template := prefabPool.prefab.texts;
      var records := ListRecords(results, i + 1, detail, image);
      ListRecordsSnoc(results, i, detail, image);
      var after := cards + taken;
      forall j | 0 <= j < |after|
        ensures after[j].texts == BindTexts(Origin(reserve, looks, template, j), records[j].name, records[j].stats)
      {
        if j < |cards| {
          assert after[j] == cards[j] && records[j] == ListRecords(results, i, detail, image)[j];
          assert cards[j] !in old(prefabPool.queue);
          assert cards[j] !in taken;
          assert old(LookOf(cards[j])) == LookOf(cards[j]);
        } else {
          assert after[j] == taken[0] && j == |cards|;
          assert records[j] == EntryRecord(results, i, detail, image).value;
          if old(prefabPool.queue) != [] {
            DrainFront(reserve, |cards|);
            assert reserve[|cards|] == old(prefabPool.queue)[0];
            assert old(prefabPool.queue)[0] !in cards;
          }
        }
      }
    }

    /** The loop's accounts after one more entry, from what handling that
        entry promised about the record list, the pool and the card it took. */
    twostate lemma EntryStep(new results: seq<ListEntry>, i: nat, new detail: string -> DetailResponse,
                             new image: string -> ImageResponse, new recorded: seq<PokemonData>,
                             new reserve: seq<GameObject>, new created: nat, new sound: bool,
                             new cards: seq<GameObject>, new looks: map<GameObject, CardLook>,
                             new taken: seq<GameObject>)
      requires i < |results|
      requires old(allocated(reserve)) && old(allocated(looks)) && old(allocated(cards))
      requires old(Progress(results, i, detail, image, recorded, reserve, created, cards))
      requires sound ==> old(Shown(results, i, detail, image, cards))
      requires old(Untouched(reserve, cards, looks))
      requires sound ==>
        old(Labelled(ListRecords(results, i, detail, image), cards, reserve, looks, prefabPool.prefab.texts))
      requires var added := AsSeq(DetailRecord(results[i].name, results[i].url, i + 1, detail(results[i].url), image));
        allPokemonList == old(allPokemonList) + added && |taken| == |added|
      requires prefabPool.queue == Drain(old(prefabPool.queue), |taken|)
      requires prefabPool.created == old(prefabPool.created) + Max0(|taken| - |old(prefabPool.queue)|)
      requires TakenFrom(taken, old(prefabPool.queue))
      requires taken != [] && old(prefabPool.queue) == [] ==> fresh(taken[0])
      requires taken != [] ==>
        Bound(taken[0], DetailRecord(results[i].name, results[i].url, i + 1, detail(results[i].url), image).value) &&
        taken[0].texts == BindTexts(
          if old(prefabPool.queue) == [] then prefabPool.prefab.texts else old(prefabPool.queue[0].texts),
          results[i].name, StatsText(detail(results[i].url).stats))
      requires old(prefabPool.Valid()) && old(prefabPool.Distinct()) ==>
        prefabPool.Valid() && prefabPool.Distinct() && (taken != [] ==> taken[0] !in prefabPool.queue)
      requires forall c: GameObject :: old(allocated(c)) && c !in taken ==> LookOf(c) == old(LookOf(c))
      ensures Progress(results, i + 1, detail, image, recorded, reserve, created, cards + taken)
      ensures sound ==> Shown(results, i + 1, detail, image, cards + taken)
      ensures sound ==> Labelled(ListRecords(results, i + 1, detail, image), cards + taken, reserve, looks,
                                 prefabPool.prefab.texts)
      ensures Untouched(reserve, cards + taken, looks)
      ensures forall j :: 0 <= j < |taken| && |reserve| <= |cards| + j ==> fresh(taken[j])
    {
      assert EntryRecord(results, i, detail, image) ==
        DetailRecord(results[i].name, results[i].url, i + 1, detail(results[i].url), image);
      ProgressStep(results, i, detail, image, recorded, reserve, created, cards, taken);
      if sound {
        ShownAfterEntry(results, i, detail, image, cards, taken);
        LabelledAfterEntry(results, i, detail, image, reserve, looks, cards, taken);
      }
      UntouchedStep(reserve, cards, taken, looks);
    }

    /** One turn of the list loop: entry `i` is handled with serial number
        i + 1, and the loop's account moves on by one entry. */
    method FetchListEntry(results: seq<ListEntry>, i: nat, detail: string -> DetailResponse,
                          image: string -> ImageResponse, ghost recorded: seq<PokemonData>,
                          ghost reserve: seq<GameObject>, ghost created: nat, ghost sound: bool,
                          ghost cards: seq<GameObject>, ghost looks: map<GameObject, CardLook>)
      returns (ghost taken: seq<GameObject>)
      requires i < |results|
      requires Progress(results, i, detail, image, recorded, reserve, created, cards)
      requires sound ==> Shown(results, i, detail, image, cards)
      requires Untouched(reserve, cards, looks)
      requires sound ==> Labelled(ListRecords(results, i, detail, image), cards, reserve, looks,
                                  prefabPool.prefab.texts)
      modifies this, prefabPool, reserve
      ensures Progress(results, i + 1, detail, image, recorded, reserve, created, cards + taken)
      ensures sound ==> Shown(results, i + 1, detail, image, cards + taken)
      ensures sound ==> Labelled(ListRecords(results, i + 1, detail, image), cards + taken, reserve, looks,
                                 prefabPool.prefab.texts)
      ensures Untouched(reserve, cards + taken, looks)
      ensures forall j :: 0 <= j < |taken| && |reserve| <= |cards| + j ==> fresh(taken[j])
    {
      ghost var queueBefore := prefabPool.queue;
      if queueBefore != [] {
        DrainFront(reserve, |cards|);
      }
      taken := GetPokemonDetails(results[i].name, results[i].url, i + 1, detail, image);
      EntryStep(results, i, detail, image, recorded, reserve, created, sound, cards, looks, taken);
    }

    /** The list loop on a fetched list: entries 0 to 19 are handled in
        order, entry `i` with serial number i + 1. Each recorded Pokémon
        takes one card from the pool; `cards` are those cards, in the order
        they were taken. */
    method FetchEntries(results: seq<ListEntry>, detail: string -> DetailResponse,
                        image: string -> ImageResponse)
      returns (ghost cards: seq<GameObject>)
      requires |results| >= RecordLimit
      modifies this, prefabPool, prefabPool.queue
      ensures Progress(results, RecordLimit, detail, image, old(allPokemonList), old(prefabPool.queue),
                       old(prefabPool.created), cards)
      ensures forall j :: |old(prefabPool.queue)| <= j < |cards| ==> fresh(cards[j])
      ensures forall c :: c in old(prefabPool.queue) && c !in cards ==> LookOf(c) == old(LookOf(c))
      ensures old(prefabPool.Valid()) && old(prefabPool.Distinct()) ==>
        Shown(results, RecordLimit, detail, image, cards)
      ensures old(prefabPool.Valid()) && old(prefabPool.Distinct()) ==>
        forall j :: 0 <= j < |cards| ==>
          var record := ListRecords(results, RecordLimit, detail, image)[j];
          cards[j].texts == BindTexts(
            if j < |old(prefabPool.queue)| then old(prefabPool.queue[j].texts) else prefabPool.prefab.texts,
            record.name, record.stats)
    {
      cards := [];
      ghost var reserve := prefabPool.queue;
      ghost var sound := prefabPool.Valid() && prefabPool.Distinct();
      ghost var looks := map c | c in reserve :: LookOf(c);
      for i := 0 to RecordLimit
        invariant Progress(results, i, detail, image, old(allPokemonList), reserve, old(prefabPool.created), cards)
        invariant sound ==> Shown(results, i, detail, image, cards)
        invariant forall j :: |reserve| <= j < |cards| ==> fresh(cards[j])
        invariant Untouched(reserve, cards, looks)
        invariant sound ==> Labelled(ListRecords(results, i, detail, image), cards, reserve, looks,
                                     prefabPool.prefab.texts)
      {
        ghost var taken := FetchListEntry(results, i, detail, image, old(allPokemonList), reserve,
                                          old(prefabPool.created), sound, cards, looks);
        cards := cards + taken;
      }
      forall c | c in reserve && c !in cards ensures LookOf(c) == old(LookOf(c)) {
        assert LookOf(c) == looks[c];
      }
      forall j | 0 <= j < |reserve| ensures Origin(reserve, looks, prefabPool.prefab.texts, j) == old(reserve[j].texts) {
        assert looks[reserve[j]] == old(LookOf(reserve[j]));
      }
    }

    /** Runs the feed on one answer to the list request: on failure nothing is
        recorded and no card is touched; otherwise the first twenty entries
        are handled by the list loop. `cards` are the cards taken, in order. */
    method GetPokemonList(list: ListResponse, detail: string -> DetailResponse,
                          image: string -> ImageResponse)
      returns (ghost cards: seq<GameObject>)
      requires list.ListFetched? ==> |list.results| >= RecordLimit
      modifies this, prefabPool, prefabPool.queue
      ensures allPokemonList == old(allPokemonList) + FeedRecords(list, detail, image)
      ensures |cards| == |FeedRecords(list, detail, image)|
      ensures prefabPool.queue == Drain(old(prefabPool.queue), |cards|)
      ensures prefabPool.created == old(prefabPool.created) + Max0(|cards| - |old(prefabPool.queue)|)
      ensures TakenFrom(cards, old(prefabPool.queue))
      ensures forall j :: |old(prefabPool.queue)| <= j < |cards| ==> fresh(cards[j])
      ensures forall c :: c in old(prefabPool.queue) && c !in cards ==> LookOf(c) == old(LookOf(c))
      ensures old(prefabPool.Valid()) && old(prefabPool.Distinct()) ==>
        prefabPool.Valid() && prefabPool.Distinct() &&
        (forall j, k :: 0 <= j < k < |cards| ==> cards[j] != cards[k]) &&
        forall j :: 0 <= j < |cards| ==> Bound(cards[j], FeedRecords(list, detail, image)[j])
      ensures old(prefabPool.Valid()) && old(prefabPool.Distinct()) ==>
        forall j :: 0 <= j < |cards| ==>
          var record := FeedRecords(list, detail, image)[j];
          cards[j].texts == BindTexts(
            if j < |old(prefabPool.queue)| then old(prefabPool.queue[j].texts) else prefabPool.prefab.texts,
            record.name, record.stats)
    {
      match list
      case ListFailed(_) =>
        cards := [];
      case ListFetched(results) =>
        cards := FetchEntries(results, detail, image);
    }
  }
}
