# swt2web record converter — Dafny model

This project models `convertSwtToJson`, the converter in swt2web that turns a decoded
Swiss-Chess (SWT) export into the tournament model used by the display pages. The
export is already split into records keyed by numeric field codes (`'2000'` is a
player's name, `'4000'` a pairing's colour code, `'4002'` its result code). The
converter produces three parts:

- **tournament info**: fields of the general record under readable names, with the
  time control written as `<base> + <increment>` (`Converter.TransformGeneralInfo`);
- **player list**: each player record with a non-blank name, in input order. Its
  ratings, title and ranks are normalised. It also holds the player's game history:
  the player's own pairing records, decoded and sorted by round (module `PlayerList`);
- **round pairings**: one pass over the pairing records. Only white-side records seed a
  board, which removes the second record each game has. Boards are grouped by round and
  numbered 1..N in the order they are emitted. The rounds are then sorted
  (module `RoundPairings`).

Colour and result codes are decoded in module `Codes`. The JavaScript primitives the
converter relies on are modelled in module `Records`: property access (absent field =
`None`), `trim`, `parseInt(_, 10)` and `new Map(entries)` (a later duplicate key wins).

The converter keeps a local `rounds` dictionary and grows it as it walks the records.
Its loop is modelled by the method `RoundPairings.GroupByRound`. The loop invariant ties
the dictionary to `Built`, the dictionary obtained by visiting the records seen so far
one at a time, and the lemma `BuiltMeaning` states what that dictionary holds. The
method `RoundPairings.TransformRoundPairings` then lists the dictionary by round. Its postcondition
`RoundsSpec` states what the result is. The lemmas in `RoundPairings` derive the
promised properties from `RoundsSpec`. `RoundsSpecUnique` shows that `RoundsSpec`
determines the result.

Behaviour kept as the code has it:

- A missing section (general, players or pairings) makes the code throw a `TypeError`.
  There is no structural error value. The model makes "all three sections present"
  (`Converter.Complete`) a precondition of `Converter.ConvertSwtToJson`.
- Player records with a blank name are left out of the player list, but they are still
  entered in both lookup maps. An opponent with a blank name therefore resolves to its
  blank name, not to `'spielfrei'` (`PlayerList.BlankOpponentNotBye`,
  `RoundPairings.BlankNameStillSeated`).
- A round's entry is created before the two player keys are looked up. A round whose
  white-side records were all dropped is still listed, with no boards
  (`RoundPairings.DroppedRoundListed`).
- Dropped boards and unknown codes produce no diagnostic.
- Board ids are the raw text of field `'2021'`; player and opponent ids are its
  `parseInt`.

## Model

| member | source | states |
|---|---|---|
| `Codes.GetColor` | swt2jsonConverter.js:9 | the colour is white exactly when the code is `4000-1`, black for every other code, known or not |
| `Codes.GetResult` | swt2jsonConverter.js:11-23 | the result is one of `1-0`, `0-1`, `1/2-1/2`, `-`. It is `-` exactly for codes other than the three outcome codes, and a draw exactly for the draw code. It says White won exactly when the owner won as White or lost as Black, and Black won in the mirror cases |
| `Codes.ResultTable` | swt2jsonConverter.js:11-23 | the decoding table: a win gives `1-0` for White and `0-1` for Black, a loss the reverse, a draw `1/2-1/2` for both, any other code `-` for both |
| `Codes.ResultMirror` | swt2jsonConverter.js:11-23 | for every code, the black reading is the mirror of the white reading, and the other way round |
| `Codes.SidesAgree` | swt2jsonConverter.js:11-23 | a white record with some code and a black record with the opposite code decode to the same result |
| `Records.ParseInt` | swt2jsonConverter.js:71 | `parseInt(s, 10)` is `NaN` exactly when no digit follows the leading white space and the optional sign |
| `Records.ParseShowInt` | swt2jsonConverter.js:71 | `parseInt` reads back the decimal text of every integer |
| `Records.ParseBlank` | swt2jsonConverter.js:82-83 | `parseInt` of an empty or blank text is `NaN` |
| `Records.Index` | swt2jsonConverter.js:26 | the lookup map holds a key exactly when some player record carries that start key, and every value is one of the player records |
| `Records.IndexLastWins` | swt2jsonConverter.js:99 | a key resolves to the last player record that carries it, whatever that record's name |
| `PlayerList.GameOf` | swt2jsonConverter.js:47-58 | a history entry keeps the record's round and decodes its colour and its result from the player's own side. An unknown opponent key gives id `null` and name `spielfrei`; a known one gives that player's parsed `'2021'` and `'2000'` name |
| `PlayerList.OwnedBy` | swt2jsonConverter.js:46 | the filter keeps each record owned by the player, as often as it occurs, and no other record |
| `PlayerList.OwnedByAppend` | swt2jsonConverter.js:46 | filtering a concatenation gives the concatenation of the filtered parts, so the kept records stay in source order |
| `PlayerList.SortByRound` | swt2jsonConverter.js:59 | the sorted history is in ascending round order and is a permutation of its input |
| `PlayerList.SortStable` | swt2jsonConverter.js:59 | sorting keeps the source order of the entries of each round (stable sort) |
| `PlayerList.PlayerGamesSpec` | swt2jsonConverter.js:45-60 | the history has one entry per owned record, is sorted by round, is a permutation of the decoded owned records and keeps their order within each round |
| `PlayerList.PlayerGamesFromOwnRecords` | swt2jsonConverter.js:45-60 | every history entry is the decoding of a pairing record the player owns |
| `PlayerList.BlankOpponentNotBye` | swt2jsonConverter.js:49-55 | an opponent whose record has an empty name resolves to that empty name and to an id, not to `spielfrei` |
| `PlayerList.RatingOf` | swt2jsonConverter.js:82-83 | a rating is `null` exactly when the field does not parse or parses to 0; otherwise it is the parsed number |
| `PlayerList.TitleOf` | swt2jsonConverter.js:78 | the title is `null` exactly when the field is missing or empty, otherwise the field unchanged |
| `PlayerList.ToPlayer` | swt2jsonConverter.js:70-91 | id and start rank are both the parsed `'2021'`, and the final rank is the parsed `'2022'`. The name is the record's non-blank name. The title is the `'2002'` field with an empty one turned into `null`, so it is never empty. Each rating is the parsed field with 0 and `NaN` turned into `null`, so no rating is 0. Club, federation, points and tiebreaks are the record's fields. The games are the player's history under its `'2020'` key |
| `PlayerList.NamedPlayersAppend` | swt2jsonConverter.js:63-94 | the list of a concatenation is the concatenation of the lists, so the kept players stay in input order |
| `PlayerList.NamedPlayersExact` | swt2jsonConverter.js:63-94 | every named record gives its entry and every entry comes from a named record |
| `PlayerList.UnnamedDropped` | swt2jsonConverter.js:65-68 | a record with a missing or blank name gives no entry |
| `PlayerList.ListedGamesSorted` | swt2jsonConverter.js:91 | the games of every listed player are sorted by round |
| `RoundPairings.TransformRoundPairings` | swt2jsonConverter.js:97-127 | the rounds are strictly ascending, one per round that has a white-side record. Each holds, numbered from 1, the games of the white-side records of that round whose two keys are known, in record order, each result read from White's side |
| `RoundPairings.VisitKeepsBuilt` | swt2jsonConverter.js:101-123 | one visit keeps the dictionary matched to the records seen so far. A black-side record changes nothing. A white-side record opens its round, then appends one board numbered after the boards already there when both keys are known |
| `RoundPairings.GroupByRound` | swt2jsonConverter.js:100-122 | the loop leaves the dictionary obtained by visiting every pairing record in order |
| `RoundPairings.BuiltMeaning` | swt2jsonConverter.js:100-122 | after the loop, the dictionary has a key exactly for each round with a white-side record, and each key holds the numbered games of that round's white-side records whose keys are both known |
| `RoundPairings.SortRounds` | swt2jsonConverter.js:126 | the values of the dictionary come out strictly ascending by round, with one entry per key holding that key's boards |
| `RoundPairings.WhiteRoundsMeaning` | swt2jsonConverter.js:103-110 | a round is listed exactly when some white-side record has that round |
| `RoundPairings.BoardsNumbered` | swt2jsonConverter.js:117-118 | within every round, the board numbers are 1..N in order, with no gap and no repeat |
| `RoundPairings.SeatedExact` | swt2jsonConverter.js:112-121 | every board of a round comes from a white-side record of that round with both keys known, and every such record gives its board |
| `RoundPairings.RecordSeatsOnce` | swt2jsonConverter.js:103-115 | a record adds at most one board, and only to its own round: none if it is black-side or a key is unknown |
| `RoundPairings.BlankNameStillSeated` | swt2jsonConverter.js:99-115 | a game against a blank-named player record still gets a board, with that blank name |
| `RoundPairings.DroppedRoundListed` | swt2jsonConverter.js:107-115 | a round whose white-side records all have an unknown key is still listed, with no boards |
| `RoundPairings.RoundsSpecUnique` | swt2jsonConverter.js:126 | two round lists that meet the specification for the same input are equal |
| `RoundPairings.BoardMatchesHistory` | swt2jsonConverter.js:56 | a board's result equals the white player's own history entry. It also equals the black player's entry whenever the black record carries the opposite code |
| `RoundPairings.OneGameOneBoard` | swt2jsonConverter.js:101-126 | two complementary records of round 3 give one round with one board: White `a` against Black `b`, result `1-0` |
| `Converter.TemplateText` | swt2jsonConverter.js:39 | a value written into a template is its text, or `undefined` when absent |
| `Converter.TransformGeneralInfo` | swt2jsonConverter.js:30-42 | each info field is the general record's field under its code, absent when missing. The time control is `<base> + <increment>` |
| `Converter.TimeControlParts` | swt2jsonConverter.js:39 | the time control splits back into base text, the separator ` + ` and increment text |
| `Converter.GeneralInfoScenario` | swt2jsonConverter.js:39-41 | round count 9 and player count 20 are reported as such; a missing increment is written as `undefined` |
| `Converter.ConvertSwtToJson` | swt2jsonConverter.js:130-139 | for a record set with all three sections, the model is the general info, the player list and a round list meeting the round specification |
| `Converter.ConvertDeterministic` | swt2jsonConverter.js:130-139 | converting the same record set twice gives equal models |

## Left out

- Start and end dates (swt2jsonConverter.js:36-37) are carried as the text of their fields. The `Date` parsing and ISO formatting are not modelled. The code throws when a date field is missing or invalid (`toISOString` on an invalid date); the model does not capture this.
- Points and tiebreaks (swt2jsonConverter.js:85-90) go through `parseFloat`; the model carries the field text instead of a floating-point value.
- Records.ParseInt: follows the decimal rules of `parseInt` (leading white space, sign, longest digit run). It does not model the loss of precision beyond 2^53 or the distinction between -0 and 0. Strings are sequences of Unicode scalar values, not UTF-16 code units.
- Field values are modelled as text; a reader that supplies numbers would be converted with `String` first.
- A player record without a start key is entered under `undefined` in the JavaScript maps. Pairing keys are always text, so such an entry is never hit; the model leaves it out of the index.
- Pairing records are modelled with all five fields present. A missing `'4001'` would be `undefined` in JavaScript; that case is not modelled.
- A missing section is a precondition (`Converter.Complete`), because the code throws a `TypeError` rather than returning an error.
- RoundPairings.SortRounds: takes the smallest remaining round each time instead of sorting `Object.values(rounds)`. The round numbers are distinct, so the order is the same (see `RoundPairings.RoundsSpecUnique`).
- The binary record reader (`parseDataView`) is not part of this model; its output is the input here.
- main.js, app2.js and tournamentDataLoader.js are not part of this model: page layout, page timers, `sessionStorage`, `FileReader` and network polling.
