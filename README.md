# Pokémon card screen: card pool and data feed

This project models the two parts of the card screen that hold its logic.

- **The card pool** (`ObjectPool`) is a first-in first-out reserve of card objects.
  - `Awake` pre-fills it with `poolSize` inactive copies of the card template.
  - `GetObject` hands out the front card, activated. When the reserve is empty it instantiates a new card instead.
  - `ReturnObject` deactivates a card and puts it at the back of the reserve.
- **The data feed** (`PokeAPIManager`) reads the Pokémon list and handles the first twenty entries in order, entry `i` with serial number `i + 1`. For each entry it takes the detail answer. If that answer is a success, it:
  - builds the stats text `"Stats:\n"` followed by one `name: value\n` line per stat;
  - downloads the image unless the image URL is empty;
  - appends a `PokemonData` record;
  - takes one card from the pool;
  - binds the sprite to the card's image slot, the name to its first text component and the stats to its second, each text only when that component exists.

The model is split into five modules:

- `Engine` (`engine.dfy`) holds the engine notions the screen relies on. A card is a `GameObject` class with an active flag, a sprite and the texts of its text components.
- `Pooling` (`object_pool.dfy`) holds the pool as a class over a `seq<GameObject>` reserve. A ghost counter records how many cards it has instantiated.
- `StatText` (`stats_text.dfy`) holds:
  - the stats text as a specification function and the `+=` loop that builds it;
  - the decimal rendering of stat values;
  - a parser that reads the text back, proved to be its inverse for stat names without a line break. The parser finds a line's separator at its last `:` (`LastIndexOf`) and the end of a line at the first line break (`IndexOf`). These two searches are the model's own. The source never reads the text back, so they have no source line and no row below.
- `PokeApi` (`poke_api_manager.dfy`) holds the feed.
  - Network answers are inputs. The list answer is a value. Detail and image answers are total functions from URL to answer, so the same URL always gets the same answer.
  - The records a run produces are specified by pure functions.
  - The source has three coroutines. `GetPokemonList` and `GetPokemonDetails` become methods on a `PokeAPIManager` class. They update `allPokemonList` and the pool. `DownloadImage` only turns the image answer into a sprite. It becomes the pure function `DownloadImage`, and its callback becomes the function's result.
  - `CardLook` collects every field of a card: its active flag, sprite and texts. "A card keeps its look" is therefore the same as "the card is unchanged". The feed methods state their frame this way: every card other than the one taken keeps its look.
- `Optional` (`option.dfy`) holds the `Option` datatype that the feed uses for a record that may be missing and for a sprite that may be null.

The pool's invariant is `Valid()`: every card waiting in the reserve is inactive. Cards are objects, so one card can sit in the reserve twice. `Distinct()` says it does not. The pool methods have no preconditions, because the source checks nothing. Each states exactly when the invariants survive. For example, `GetObject` keeps `Valid()` exactly when the card it hands out is not still waiting further back in the reserve.

## Model

| member | source | states |
|---|---|---|
| Engine.GameObject.Instantiate | Assets/Scripts/ObjectPool.cs:17 | A new card is a copy of the template: its active flag, sprite and texts are the template's. |
| Engine.GameObject.SetActive | Assets/Scripts/ObjectPool.cs:18 | Switching a card on or off sets its active flag and leaves its sprite and texts as they were. |
| Pooling.ObjectPool.constructor | Assets/Scripts/ObjectPool.cs:7-10 | A pool starts with the given template and size, an empty reserve and nothing instantiated; both invariants hold. |
| Pooling.ObjectPool.Awake | Assets/Scripts/ObjectPool.cs:13-20 | The reserve grows by exactly `poolSize` cards (none when `poolSize` is not positive), kept after the old ones. The new cards are freshly allocated, pairwise distinct, inactive copies of the template. The instantiation count grows by the same amount, and both invariants are preserved. |
| Pooling.ObjectPool.GetObject | Assets/Scripts/ObjectPool.cs:24-38 | The card handed out is active. With a non-empty reserve it is the old front card, the reserve loses exactly its head, nothing is instantiated, and the card keeps its sprite and texts. With an empty reserve it is a fresh copy of the template, the reserve stays empty and the count grows by one. From a valid pool the result is valid exactly when the card handed out is not still in the reserve. From a distinct pool the result stays distinct and the card is no longer in it. |
| Pooling.ObjectPool.ReturnObject | Assets/Scripts/ObjectPool.cs:40-44 | The card becomes inactive and keeps its sprite and texts. The reserve becomes the old reserve plus this card at the back, and nothing is instantiated. `Valid()` is preserved. The reserve is distinct afterwards exactly when it was before and the card was not already in it. |
| Pooling.StartPool | Assets/Scripts/ObjectPool.cs:13-20 | After initialisation and `Awake`, the reserve holds exactly `poolSize` fresh, distinct, inactive cards (none when `poolSize` is not positive), and exactly that many were instantiated. |
| Pooling.ReuseBeforeGrowth | Assets/Scripts/ObjectPool.cs:24-44 | A card returned to an empty reserve is the next card handed out, active. The reserve is empty again and no card is instantiated. |
| Pooling.DoubleReturn | Assets/Scripts/ObjectPool.cs:40-44 | Returning a card twice to an empty reserve and then taking one out hands out that card, active, while one entry for it stays in the reserve. The "every waiting card is inactive" invariant then fails. |
| StatText.NatToString | Assets/Scripts/PokeAPIManager.cs:74 | The rendering of a base stat is a non-empty string of decimal digits without a leading zero. |
| StatText.IntToString | Assets/Scripts/PokeAPIManager.cs:74 | An integer renders as digits, with a leading '-' exactly when it is negative. |
| StatText.ParseIntOfIntToString | Assets/Scripts/PokeAPIManager.cs:74 | Reading a rendered stat value back gives the value: the rendering loses nothing. |
| StatText.StatLinesAppend | Assets/Scripts/PokeAPIManager.cs:72-75 | The lines for a concatenated stat list are the lines of the first part followed by those of the second. |
| StatText.StatsTextSnoc | Assets/Scripts/PokeAPIManager.cs:74 | Appending one stat to the list appends exactly its `name: value\n` line to the stats text. |
| StatText.BuildStatsText | Assets/Scripts/PokeAPIManager.cs:71-75 | The `+=` loop produces exactly the stats text: the header followed by one line per stat, in list order. |
| StatText.ParseLineOfStatLine | Assets/Scripts/PokeAPIManager.cs:74 | A stat line without its line break reads back as exactly that stat, even when the name contains ':' or ' '. |
| StatText.FirstStatLine | Assets/Scripts/PokeAPIManager.cs:72-75 | When the first stat's name has no line break, the text's first line break ends that stat's line, and the rest of the text is the lines of the remaining stats. |
| StatText.ParseLinesOfStatLines | Assets/Scripts/PokeAPIManager.cs:72-75 | The lines for stats whose names have no line break read back as exactly those stats, in order. |
| StatText.StatsTextRoundTrip | Assets/Scripts/PokeAPIManager.cs:71-75 | For stat names without a line break, the stats text determines the stat list: reading it back gives exactly the stats it was built from, one per line and in order. |
| PokeApi.DownloadImage | Assets/Scripts/PokeAPIManager.cs:135-153 | The callback gets no sprite exactly when the image request failed. Otherwise it gets a sprite over the downloaded texture. |
| PokeApi.DetailRecord | Assets/Scripts/PokeAPIManager.cs:58-89 | A record is produced exactly when the detail request succeeded. Its serial number, name and URL are the given ones, and its stats are the stats text of the answer's stat list. It has no sprite exactly when the image URL is empty or the image request failed. When it has one, that sprite is over the texture downloaded from the answer's image URL. |
| PokeApi.BuildRecord | Assets/Scripts/PokeAPIManager.cs:58-88 | The detail callback's computation, with its `+=` loop and its download, produces exactly `DetailRecord`'s record. On a failed detail request that is no record. |
| PokeApi.EntryRecord | Assets/Scripts/PokeAPIManager.cs:42-46 | The record for list entry `i`, if any, has serial number `i + 1`. |
| PokeApi.GatherSound | Assets/Scripts/PokeAPIManager.cs:40-47 | Among the records that the first `n` positions produce, where each position numbers its record by position + 1: there are at most `n` of them, and each is the record of the position its serial number names. |
| PokeApi.GatherOrdered | Assets/Scripts/PokeAPIManager.cs:40-47 | Under the same numbering, the records come in strictly increasing serial order. |
| PokeApi.GatherComplete | Assets/Scripts/PokeAPIManager.cs:40-47 | Every position among the first `n` that produces a record has that record among those gathered. |
| PokeApi.EntryOfNumbered | Assets/Scripts/PokeAPIManager.cs:44 | The feed numbers every record it produces by its list position + 1. |
| PokeApi.ListRecordsSnoc | Assets/Scripts/PokeAPIManager.cs:46 | Handling one more entry appends its record, if any, to the records of the earlier entries. |
| PokeApi.ListRecordsSound | Assets/Scripts/PokeAPIManager.cs:40-46 | Each record of the first `n` entries has a serial number in 1..n and is exactly what the entry with that serial number's detail answer produces. |
| PokeApi.ListRecordsOrdered | Assets/Scripts/PokeAPIManager.cs:40-46 | Records are appended in strictly increasing serial order. |
| PokeApi.ListRecordsComplete | Assets/Scripts/PokeAPIManager.cs:58-61 | Every entry whose detail request succeeded has its record. A failure for one entry does not prevent later entries from being recorded. |
| PokeApi.FeedRecordsExact | Assets/Scripts/PokeAPIManager.cs:40-46 | For each of the first twenty entries, a record with its serial number exists exactly when that entry's detail request succeeded. |
| PokeApi.BindTexts | Assets/Scripts/PokeAPIManager.cs:106-127 | The text components keep their number. The first shows the name if it exists, the second shows the stats if it exists, and the others are unchanged. |
| PokeApi.PokeAPIManager.constructor | Assets/Scripts/PokeAPIManager.cs:14-16 | The manager starts with the list endpoint, an empty record list and the given pool. |
| PokeApi.PokeAPIManager.BindCard | Assets/Scripts/PokeAPIManager.cs:94-127 | The card's image slot gets the sprite and its texts are bound by `BindTexts`. Its active flag is left alone. |
| PokeApi.PokeAPIManager.GetPokemonDetails | Assets/Scripts/PokeAPIManager.cs:52-133 | The record list grows by exactly the entry's record: one on success, none on failure. One card is taken from the pool per record. On a failed request nothing is taken, the record list, the reserve and the instantiation count are unchanged, and every card keeps its look. The card taken is the reserve's front card, or a fresh one when the reserve was empty, and the instantiation count changes accordingly. The card taken is active, shows the record's sprite, name and stats, and keeps its other texts. Every card of the reserve other than the one taken is unchanged, and every other card keeps its look. A valid, distinct pool stays so, and the card taken is no longer in its reserve. |
| PokeApi.PokeAPIManager.ProgressStep | Assets/Scripts/PokeAPIManager.cs:40-47 | After one more entry the loop's account still holds. The record list is the earlier one plus the records so far, one card has been taken per record, and the reserve has lost exactly the cards taken from it. |
| PokeApi.PokeAPIManager.ShownStep | Assets/Scripts/PokeAPIManager.cs:40-47 | In a pool that is valid and distinct, take the cards so far, each different, not waiting and showing its own record. Add the card bound to entry `i`'s record, which is neither waiting nor among them. Together they satisfy the loop's sound account for one more entry: all different, none waiting, each showing its own record. |
| PokeApi.PokeAPIManager.LabelledAfterEntry | Assets/Scripts/PokeAPIManager.cs:40-47 | When the handling of entry `i` binds the card it took over that card's earlier texts and leaves every other card's look alone, each card taken so far, with it appended, still holds exactly its record's name and stats over the texts it had before it was taken. |
| PokeApi.PokeAPIManager.EntryStep | Assets/Scripts/PokeAPIManager.cs:42-46 | From exactly what handling entry `i` promises, the loop's account, the snapshot of untaken reserve cards and, for a sound pool, the shown and labelled cards all move on by one entry. A card taken once the reserve has run out is fresh. |
| PokeApi.PokeAPIManager.ShownAfterEntry | Assets/Scripts/PokeAPIManager.cs:40-47 | When the handling of entry `i` takes at most the reserve's front card, binds it to the entry's record and leaves every other card's look alone, the cards so far, with it appended, are still distinct and each still shows its own record. |
| PokeApi.UntouchedStep | Assets/Scripts/PokeAPIManager.cs:40-47 | A step that leaves the look of every card it did not take alone keeps every reserve card that is still untaken at its look from the start. |
| PokeApi.PokeAPIManager.FetchListEntry | Assets/Scripts/PokeAPIManager.cs:42-46 | One turn of the list loop handles entry `i` with serial number `i + 1` and moves the loop's account on by one entry. The cards taken earlier are kept as the prefix. Every card of the starting reserve that is still untaken keeps its look from the start, and a card taken once the reserve has run out is fresh. For a sound pool, every card taken so far holds exactly its record's name and stats over the texts it had before it was taken: the same number of text components, and the others unchanged. |
| PokeApi.PokeAPIManager.FetchEntries | Assets/Scripts/PokeAPIManager.cs:40-47 | After the twenty turns the loop's account holds for all twenty entries. The cards taken after the reserve ran out are fresh, and every card of the reserve that was not taken keeps its look. From a valid, distinct pool, every card taken shows its own record. Its texts are then exactly `BindTexts` over the texts it had: the `j`th reserve card's for a card from the reserve, the template's for a fresh one. |
| PokeApi.PokeAPIManager.GetPokemonList | Assets/Scripts/PokeAPIManager.cs:24-50 | The record list grows by exactly the feed's records: nothing when the list request fails, otherwise one per successfully detailed entry among the first twenty, in order. As many cards are taken: first the reserve's, front first, then freshly instantiated ones, with the instantiation count matching. Every card of the reserve that was not taken keeps its look. From a valid, distinct pool every card taken is distinct, no longer waiting, and shows its record. Its texts are then exactly `BindTexts` over the texts it had before: the `j`th reserve card's for a card from the reserve, the template's for a fresh one. So no text component is added, removed or changed beyond the name and the stats. |

## Left out

- `Assets/Scripts/swipe.cs` is not part of this model. It is per-frame floating-point interpolation driven by mouse input, a scrollbar and a frame timer.
- Networking and coroutine scheduling (`UnityWebRequest`, `yield`, `StartCoroutine`): every answer is an input. A detail or image answer is a function of the URL, so two requests for the same URL get the same answer. Each answer has two cases, as the source's test has two outcomes (`Assets/Scripts/PokeAPIManager.cs:30`, `:58`, `:141`). `ListFailed`, `DetailFailed` and `ImageFailed` stand for a result that is `ConnectionError` or `ProtocolError`. Every other result, `DataProcessingError` included, takes the success branch and is modelled as the fetched case.
- `Start` only starts the list coroutine; the model calls `GetPokemonList` directly.
- JSON decoding: the list, detail and stat fields are taken as already decoded. A JSON null image URL is modelled as the empty string, which is what its text conversion yields.
- Image decoding: `Sprite.Create` over the whole texture with a centred pivot is reduced to a `Sprite` holding the texture. Its size and pivot are not modelled.
- `Debug.Log` and `Debug.LogError` output, and `swipe.enabled = true` in `Awake`, have no effect on the modelled state.
- Scene hierarchy:
  - Parenting new cards under `scrollContent` is not modelled.
  - The `GetChild(0).GetChild(1)` lookup is taken to succeed, and the card's `sprite` field stands for that child's image. A missing child makes the source throw rather than reach its log branch, so the log branch is not modelled.
  - `GetComponentsInChildren` is reduced to the card's `texts` sequence, in traversal order.
- PokeApi.PokeAPIManager.GetPokemonList: requires at least twenty list entries when the list request succeeds. The source indexes entries 0 to 19 without a bounds check and would fail on a shorter list.
- PokeApi.PokeAPIManager.GetPokemonList: the guarantee that each card taken shows its record, with its texts exactly `BindTexts` over the texts it had, is stated only for a pool that starts valid and distinct. Distinctness is needed: with a card waiting twice, a later handout can take a card that is already showing an earlier record. Validity is assumed as well, and the contract promises the pool is still valid and distinct afterwards. Neither assumption excludes a run of the source. The source never calls `ReturnObject`, and Unity runs `Awake` before `Start`, so the feed always starts from the valid, distinct reserve that `StartPool` describes.
- PokeApi.PokeAPIManager.GetPokemonDetails: does not model the window during the suspended requests in which other code could change the list or the pool. The method runs without interleaving.
- References are taken as non-null: cards, the template and the pool are non-null class and datatype values. In the source, `ReturnObject(null)` (`Assets/Scripts/ObjectPool.cs:42`) or an unassigned `PrefabPool` (`Assets/Scripts/PokeAPIManager.cs:91`) throws a `NullReferenceException`, and an unassigned `prefab` makes `Instantiate` throw an `ArgumentException` (`Assets/Scripts/ObjectPool.cs:17`, `:34`). These failures are not modelled.
- Pooling.ObjectPool.GetObject: the Unity notion of a destroyed object is not modelled. Every handle stays usable.
