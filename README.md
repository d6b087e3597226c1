# PokéProfile editor core, in Dafny

PokéProfile is a single-page editor in which a developer describes themself as
a Pokémon. They enter a trainer name and a Pokémon name that must pair up
letter by letter. They pick a species, one or two types and an ability, and
spread a 600-point budget over six stats. From this profile the page builds two
text prompts. It can also export the profile as a JSON document and import one
back. All of this logic lives in `src/App.tsx`. This project models it:

- `Catalog` holds the static reference data: the six stats with their labels,
  the 18 types, the 10 species and the 12 abilities in 4 groups.
- `Profile` holds the form, the stats (with their total) and the two name-error
  slots.
- `Allocator` is the stat sliders' budget rule (`handleStatChange`).
- `Types` is the type toggle (`toggleType`).
- `Validation` holds the live name check (inside `handleBasicChange`) and the
  submit check (`validate`).
- `Serialization` models the export payload and the import decoder over a JSON
  value tree.
- `Prompts` covers the ability lookup (`selectedAbility`), the stable ranking of
  the stats, and the two prompts. Each prompt is modelled by the values filled
  into its template.
- `App` is the component's state (`ProfileState`). Each handler is a method that
  applies the pure updater above to the previous state.
- `Text` holds the string primitives the rules use: JavaScript's `trim`, the
  `\s` character class, `split(/\s+/)`, single-character `toLowerCase` and the
  pictograph-stripping regular expression.

Numbers are `real` and `Math.round` is `floor(x + 0.5)`. Strings are sequences
of Unicode code points.

Two comments in `src/App.tsx` promise more than the code delivers. The model
follows the code:

- The comment at `src/App.tsx:503` caps the total at 600, and the one at
  `src/App.tsx:547` says the UI and logic already prevent going above 600.
  The sliders do keep the cap (`AllocatePreservesBudget`,
  `ProfileState.SetStat`). An import, though, decodes each stat separately and
  never checks the total, so six stats at 255 (1530 points) are accepted
  (`ImportIgnoresCeiling`). From such a state the sliders cannot lower a stat
  either: the overshoot branch computes a negative allowance and leaves the
  stats unchanged (`OverBudgetDecreaseBlocked`).
- Toggling never creates a repeated type (`TogglePreservesSelection`), but an
  import keeps repeated types (`ImportKeepsDuplicateTypes`).
- An exported profile with no type selected imports back as `["Fire"]`
  (`EmptyTypesImportAsFire`).

## Model

| member | source | states |
|---|---|---|
| Catalog.KeyIndex | src/App.tsx:18-55 | each stat sits at its own position, below 6, of the declaration order |
| Catalog.DefaultAbilityIsFirst | src/App.tsx:312 | the default ability is the code of the first ability of the first group |
| Catalog.LabelInjective | src/App.tsx:18-55 | distinct stats have distinct labels |
| Profile.Stats.With | src/App.tsx:514-517 | `{ ...prev, [key]: v }` sets that stat to v and leaves the other five unchanged |
| Profile.Stats.Values | src/App.tsx:320-327 | the stat values as a list of six, each at its key's position |
| Profile.SumFrom | src/App.tsx:320-327 | the left fold of stats in 1..255 lies between the accumulator plus one and plus 255 per value |
| Profile.SumFromShift | src/App.tsx:320-327 | folding from an accumulator adds the accumulator to the fold from zero |
| Profile.Total | src/App.tsx:320-327 | the total of in-range stats lies in 6..1530 |
| Profile.TotalIsSum | src/App.tsx:320-327 | `totalStats` (the left fold over the values) is the sum of the six stats |
| Profile.TotalWith | src/App.tsx:497-501 | setting one stat changes the total by exactly that stat's change |
| Profile.InitialStatsFull | src/App.tsx:279-286 | the initial stats are in range and use the whole 600-point budget |
| Allocator.Round | src/App.tsx:490 | `Math.round` is the nearest integer, with halves rounded up |
| Allocator.ClampRequest | src/App.tsx:490 | the requested value always lies in 1..255: the rounded request when that is in range, else 1 below and 255 above |
| Allocator.Allocate | src/App.tsx:489-519 | a change touches only the named stat, and either changes nothing, commits the requested value, or fills the total to exactly 600 |
| Allocator.AllocateTouchesOnlyKey | src/App.tsx:489-519 | a slider change never alters any other stat |
| Allocator.AllocateSameValueNoOp | src/App.tsx:493-495 | a request equal to the current value leaves the stats unchanged |
| Allocator.AllocateWithinBudget | src/App.tsx:501-517 | a request that keeps the total within 600 is committed exactly |
| Allocator.AllocateTruncatesToHeadroom | src/App.tsx:504-511 | an overshooting request with free points sets the stat to current + (600 − total), so the total is exactly 600 |
| Allocator.AllocateNoHeadroomNoChange | src/App.tsx:504-507 | with no free points, an overshooting request changes nothing |
| Allocator.OverBudgetDecreaseBlocked | src/App.tsx:494-507 | from six stats at 255, lowering Strategy to 200 leaves the stats unchanged |
| Allocator.AllocatePreservesBudget | src/App.tsx:489-519 | every stat in 1..255 and a total ≤ 600 both hold after a change when they held before |
| Allocator.AllocateNeverOvershoots | src/App.tsx:489-519 | the changed stat stays in 1..255, and the result is either unchanged or has a total ≤ 600, whatever the previous total |
| Types.Without | src/App.tsx:449-451 | the filter keeps exactly the elements other than t, never grows, and keeps a duplicate-free list duplicate-free |
| Types.Toggled | src/App.tsx:446-457 | the toggled type ends up selected exactly when it was not; no other type is added; the list grows only up to two |
| Types.ToggleRemovesSelected | src/App.tsx:448-451 | toggling a selected type removes it and keeps every other type |
| Types.ToggleAddsUnselected | src/App.tsx:452-455 | toggling an unselected type makes it the last entry, after the earlier picks when fewer than two are selected, else after the second pick; at most two remain |
| Types.TogglePreservesSelection | src/App.tsx:446-457 | the selection stays a duplicate-free list of at most two types |
| Types.ToggleKeepsCatalogTypes | src/App.tsx:446-457 | toggling catalog types yields only catalog types |
| Types.ToggleTwiceRestores | src/App.tsx:446-457 | toggling the same type twice from a selection with room restores the selection |
| Text.TrimStart | src/App.tsx:403-408 | what remains does not start with white space |
| Text.TrimStartSlice | src/App.tsx:403-408 | what remains is a suffix of the input, and everything cut off is white space |
| Text.TrimEnd | src/App.tsx:403-408 | what remains does not end with white space |
| Text.TrimEndSlice | src/App.tsx:403-408 | what remains is a prefix of the input, and everything cut off is white space |
| Text.Trim | src/App.tsx:403-408 | the trimmed string neither starts nor ends with white space and fits after the leading white space |
| Text.TrimSlice | src/App.tsx:403-408 | the trimmed string is a contiguous slice of the input with only white space around it |
| Text.TrimUnchanged | src/App.tsx:557-559 | trimming a string without surrounding white space is the identity |
| Text.TrimIdempotent | src/App.tsx:557-559 | trimming twice equals trimming once |
| Text.TrimEmptyIff | src/App.tsx:412-413 | the trimmed string is empty exactly when the input is all white space |
| Text.SpaceRuns | src/App.tsx:414 | a string has no white-space run exactly when it holds no white space, and never more runs than characters |
| Text.SplitLength | src/App.tsx:414 | `split(/\s+/)` yields a single piece exactly when there is no white space, and never more than length + 1 pieces |
| Text.LowerChar | src/App.tsx:420-425 | `toLowerCase` maps A..Z to a..z and the Latin-1 capitals 32 code points up, and leaves every other character unchanged |
| Text.StripPictographs | src/App.tsx:347 | the species regular expression keeps exactly the characters outside the three pictograph ranges |
| Text.StripPictographsAppend | src/App.tsx:347 | the replacement distributes over concatenation, so kept characters stay in order with their repeats |
| Text.StripPictographsNone | src/App.tsx:347 | a string without pictographs is left unchanged |
| Text.SpeciesName | src/App.tsx:347 | the printed species has no pictograph and no surrounding white space, and only characters of the species |
| Text.SpeciesNameClean | src/App.tsx:347 | a pictograph-free string without surrounding white space prints as itself |
| Text.SpeciesNameOfLabel | src/App.tsx:347 | a label of one pictograph, a space and a clean name prints as the name |
| Validation.TrainerError | src/App.tsx:412-417 | the trainer slot is clear exactly for a non-empty name without white space, and says "required" exactly for the empty name |
| Validation.PairingError | src/App.tsx:419-433 | a pairing error is only ever the mismatch, and only when both names are non-empty and their first or last letters differ ignoring case |
| Validation.LiveErrors | src/App.tsx:402-439 | the live trainer slot is clear exactly for a one-word trimmed name; the live Pokémon slot is clear or the mismatch |
| Validation.SubmitErrors | src/App.tsx:521-546 | the submit trainer slot is clear exactly for a one-word trimmed name; the Pokémon slot says "required" exactly for an all-white-space name, and is otherwise clear or the mismatch |
| Validation.TrainerSlotIff | src/App.tsx:412-417 | the trainer slot is clear exactly when the trimmed name is one non-empty word, and says "required" exactly when the name is all white space |
| Validation.LivePokemonSlotIff | src/App.tsx:419-433 | the live Pokémon slot only ever reports a mismatch, exactly when both trimmed names are non-empty and their first or last letters differ ignoring case |
| Validation.SubmitExtendsLive | src/App.tsx:521-551 | `validate` agrees with the live check on the trainer slot, agrees fully when the Pokémon name is non-empty, and otherwise reports "Pokémon name is required." |
| Validation.SubmitValidIff | src/App.tsx:521-551 | `validate` passes exactly when the trimmed trainer name is one word, the trimmed Pokémon name is non-empty and their first and last letters match ignoring case |
| Validation.ErrorsIgnoreSurroundingSpace | src/App.tsx:403-408 | surrounding white space never changes either check's verdict |
| Validation.WordNamesErrors | src/App.tsx:402-439 | for names without surrounding white space and a one-word trainer name, both checks report only the pairing verdict |
| Validation.MatchingNamesExample | src/App.tsx:419-433 | "Ash" pairs with "Alph": no errors |
| Validation.MismatchedNamesExample | src/App.tsx:419-433 | "Ash" does not pair with "Alpha": the mismatch error |
| Validation.CaseInsensitiveExample | src/App.tsx:420-428 | "ash" pairs with "ALPH": the comparison ignores case |
| Validation.TwoWordTrainerExample | src/App.tsx:414-416 | "Ash Ketchum" is refused as not a single word |
| Validation.BlankTrainerExample | src/App.tsx:412-413 | an all-white-space trainer name is reported as required |
| Serialization.Member | src/App.tsx:614-652 | a member is present exactly when the document is an object with that key, and is then that field |
| Serialization.TextOr | src/App.tsx:615-617 | a string member is taken as is; anything else gives the default |
| Serialization.DecodeSpecies | src/App.tsx:618-620 | the decoded species is always a catalog species: the given one when it is a catalog string, else the first catalog entry |
| Serialization.CatalogTypes | src/App.tsx:626 | the filter keeps exactly the string items that are catalog types |
| Serialization.CatalogTypesAppend | src/App.tsx:626 | the filter distributes over concatenation, so kept names stay in order with their repeats |
| Serialization.CatalogTypesSingle | src/App.tsx:626 | a single item is kept exactly when it is a catalog type name |
| Serialization.DecodeTypes | src/App.tsx:624-628 | a non-empty array gives the first two of its filtered catalog types; a missing member, a non-array or an empty array gives Fire |
| Serialization.DecodeImage | src/App.tsx:629-630 | the image is present exactly when the member is a string |
| Serialization.DecodeStat | src/App.tsx:633-652 | a stat always decodes into 1..255, and anything but a number within 1..255 gives 100 |
| Serialization.DecodeForm | src/App.tsx:614-631 | each imported field is decoded from its own member: names and entry as given or empty, the ability as given or the default, species, types and image by their rules |
| Serialization.DecodeStats | src/App.tsx:633-652 | every imported stat is in 1..255, each decoded from its own member |
| Serialization.Decode | src/App.tsx:609-655 | an import succeeds exactly for objects and arrays, and then yields the decoded form and stats: in-range stats, a catalog species and at most two catalog types |
| Serialization.StatsPayload | src/App.tsx:564-572 | the exported stats hold exactly the six labels plus `total`, each stat under its label and the total under `total` |
| Serialization.TypesJson | src/App.tsx:562 | the exported types are the types, in order |
| Serialization.Payload | src/App.tsx:556-573 | the export holds exactly the eight members trainerName, pokemonName, pokedexEntry, species, ability, types, imageBase64 and stats: the trimmed names and entry, the species, ability and types as stored, the image or null, and the stats |
| Serialization.PayloadTotal | src/App.tsx:571 | the exported total is the sum of the six exported stats |
| Serialization.CatalogTypesOfCatalog | src/App.tsx:626 | filtering catalog types keeps them all, in order |
| Serialization.StatRoundTrip | src/App.tsx:633-636 | a whole stat in 1..255 survives export and import |
| Serialization.DecodeExportedStats | src/App.tsx:633-652 | a document whose `stats` member is an exported stats object decodes, label by label, to those stats |
| Serialization.StatsRoundTrip | src/App.tsx:564-572 | in-range stats survive export and import |
| Serialization.FormRoundTrip | src/App.tsx:614-631 | a form with a catalog species and one or two catalog types survives export and import, names and entry trimmed |
| Serialization.ExportImportRoundTrip | src/App.tsx:553-655 | import of an export gives back the profile (names and entry trimmed) when species and types are from the catalogs and the stats in range |
| Serialization.ReExportStable | src/App.tsx:553-655 | exporting again after such a round trip gives the same document |
| Serialization.NonObjectRefused | src/App.tsx:610-612 | a string, number, boolean or null document is refused |
| Serialization.ArrayGivesDefaults | src/App.tsx:609-652 | an array passes the check and yields the all-default profile |
| Serialization.OutOfRangeStatExample | src/App.tsx:633-636 | an out-of-range stat (999) falls back to 100 |
| Serialization.ImportIgnoresCeiling | src/App.tsx:633-655 | six stats at 255 import, for a total of 1530 |
| Serialization.InvalidTypesGiveNone | src/App.tsx:624-628 | any object whose types are `["Lava", 3]` imports with no type at all |
| Serialization.ImportKeepsDuplicateTypes | src/App.tsx:624-628 | any object whose types are `["Fire", "Fire", "Water"]` imports with Fire twice |
| Serialization.EmptyTypesImportAsFire | src/App.tsx:624-628 | a profile exported with no type imports back with Fire |
| Serialization.ImportKeepsUnknownAbility | src/App.tsx:621-623 | any ability string is kept, even one the catalog lacks |
| Prompts.FindAbility | src/App.tsx:333-335 | `find` succeeds exactly when some ability has the code, and returns one with that code |
| Prompts.FindAbilityFirst | src/App.tsx:333-335 | `find` returns the first ability with the code |
| Prompts.LookupAbility | src/App.tsx:331-341 | the lookup succeeds exactly when some group has the code, and returns a member of that group with that code |
| Prompts.LookupAbilityFirst | src/App.tsx:331-341 | the lookup answers with the first group holding the code and that group's first ability with it |
| Prompts.UniqueCodeFound | src/App.tsx:331-341 | when no two abilities share a code, looking up an ability's code yields that ability in its own group |
| Prompts.SelectedAbility | src/App.tsx:331-341 | the loop returns the lookup's result: the first group whose `find` succeeds, or none |
| Prompts.CatalogCodesUnique | src/App.tsx:178-275 | the twelve catalog ability codes are distinct |
| Prompts.CatalogAbilityFound | src/App.tsx:178-275 | looking up any catalog ability's code yields that very ability in its own group |
| Prompts.CatalogLabelsShaped | src/App.tsx:155-166 | every catalog species is a pictograph, a space and a Latin-1 name without surrounding white space |
| Prompts.CatalogSpeciesName | src/App.tsx:155-166 | every catalog species prints as the text after its pictograph and space |
| Prompts.EntriesFrom | src/App.tsx:373-377 | the entries list the stats from a position on, in declaration order, with their values |
| Prompts.Entries | src/App.tsx:373-377 | six entries, in declaration order, with their values |
| Prompts.Insert | src/App.tsx:380 | insertion adds exactly the one entry |
| Prompts.SortDescending | src/App.tsx:380 | the sort is a permutation of its input |
| Prompts.InsertRanked | src/App.tsx:380 | inserting an earlier-declared entry into a ranked list keeps it ranked |
| Prompts.SortRanked | src/App.tsx:380 | the sort of declaration-ordered entries is ranked: descending by value, ties in declaration order |
| Prompts.SortFacts | src/App.tsx:380 | the sort keeps the length and the entries, and is ranked |
| Prompts.Ranking | src/App.tsx:373-380 | `sortedStats` has six entries, the stats' own, in stable descending order |
| Prompts.RankingValues | src/App.tsx:373-380 | each ranked entry carries its own stat's value |
| Prompts.RankingHasStat | src/App.tsx:373-380 | every stat appears in the ranking |
| Prompts.PickStatsExtremes | src/App.tsx:380-383 | the picks are a highest stat, a different stat highest among the rest, and a lowest stat; ties go to the earlier stat for the top picks and to the later one for the lowest |
| Prompts.InitialPicks | src/App.tsx:380-383 | with every stat at 100 the picks are Strategy, Focus and Adaptability |
| Prompts.TypeText | src/App.tsx:364-367 | the type text starts with the first type, and is that type alone exactly when there is no second one |
| Prompts.Pokedex | src/App.tsx:359-389 | the fallback text appears exactly when the form is not ready |
| Prompts.AbilityNameText | src/App.tsx:385 | the ability name in the prompt is never empty |
| Prompts.AbilityDescriptionText | src/App.tsx:386 | the ability description in the prompt is never empty |
| Prompts.PokedexFallbackIff | src/App.tsx:360-362 | the fallback text appears exactly when the Pokémon name, the first type, the species or the ability is empty |
| Prompts.PokedexSlots | src/App.tsx:364-370 | a filled-in prompt carries the Pokémon name, the species without its pictograph, and a catalog species' name part |
| Prompts.PokedexPickLabels | src/App.tsx:380-383 | a filled-in prompt carries the labels of the three picks |
| Prompts.PokedexTopStats | src/App.tsx:380-382 | the prompt names a highest stat and a different stat highest among the others |
| Prompts.PokedexLowestStat | src/App.tsx:383 | the prompt names a lowest stat |
| Prompts.PokedexTypeText | src/App.tsx:364-367 | the type text joins two types with "and", or is the first type alone |
| Prompts.PokedexUnknownAbility | src/App.tsx:385-386 | an ability code the catalog lacks yields both placeholders |
| Prompts.PokedexKnownAbility | src/App.tsx:385-386 | a catalog ability with a name and a description fills in both |
| Prompts.Image | src/App.tsx:343-357 | the image prompt always has a non-empty name and first type |
| Prompts.ImagePlaceholders | src/App.tsx:343-357 | the name and first type are the form's when present and the placeholders otherwise; a second type appears exactly when one is selected |
| Prompts.PlaceholderSpeciesName | src/App.tsx:345-347 | the species placeholder prints as itself |
| Prompts.ImageSpecies | src/App.tsx:345-347 | the image species is the placeholder when none is chosen, else the printed species, and a catalog species' name part |
| Prompts.PromptSpeciesHasNoPictograph | src/App.tsx:347 | the species printed in either prompt has no pictograph |
| App.WithField | src/App.tsx:395-399 | the changed field takes the value; the types and the image are untouched |
| App.ProfileState.constructor | src/App.tsx:307-318 | the initial form, the initial stats (the full budget) and no errors |
| App.ProfileState.SetStat | src/App.tsx:489-519 | only the stats change, by the allocator; the range of every stat is kept, and so is a total ≤ 600 |
| App.ProfileState.ToggleType | src/App.tsx:446-457 | only the types change, by the toggle rule, and they stay at most two |
| App.ProfileState.ChangeField | src/App.tsx:391-444 | the field takes the value; a name change recomputes both name slots by the live rules, and other fields leave the errors alone |
| App.ProfileState.Validate | src/App.tsx:521-551 | the errors become the submit check's verdict, and the result is true exactly when the names are accepted |
| App.ProfileState.ExportJson | src/App.tsx:553-573 | validates first; yields the payload of the current form and stats exactly when the names are accepted |
| App.ProfileState.ImportJson | src/App.tsx:609-659 | an object replaces form and stats together with the decoded ones; anything else changes nothing; the errors are never touched |

## Left out

- The JSX rendering, styling, the colour table per type and the stat
  descriptions are presentation only. The descriptions are not modelled.
- File reading (`FileReader`), the MIME type and size checks of the uploads,
  the image upload handler, the download link and the clipboard are I/O.
  The import is modelled from the parsed document on.
- `JSON.parse` and `JSON.stringify` are not modelled: the export yields a JSON
  value tree and the import starts from one. A parse failure leaves the state
  unchanged, like the refused non-object case.
- Floating point: `NaN`, the infinities and rounding error are not modelled.
  Numbers are exact reals, and the `Number.isFinite` guard in `totalStats`
  always holds.
- Strings are sequences of code points, not UTF-16 code units. `trim`, `[0]`
  and `[length - 1]` therefore see a whole emoji where JavaScript would see
  half a surrogate pair.
- Text.LowerChar: models `toLowerCase` only for ASCII and the Latin-1 capitals.
  Other scripts are left unchanged. Multi-character lowercase forms are not
  modelled.
- The prompt texts are not reproduced. Each prompt is a datatype of the values
  filled into its template, so the fixed wording around them is left out.
- `remainingPoints` (600 minus the total) is a display value and is not a
  separate member.
- React's batching, the updater functions' scheduling and concurrent file reads
  are not modelled. Each handler is one atomic state change.
- Prompts.SelectedAbility: takes the groups as a parameter; the component
  always passes `ABILITY_GROUPS`.
- Prompts.PokedexTopStats, Prompts.PokedexLowestStat: state which stats the
  labels name, not the `||` placeholders for a missing entry, which cannot
  arise with six stats.
- The `[NAME]`, `[TYPE]` and `[SPECIES]` fallbacks inside `pokedexPrompt`
  cannot take effect: the guard before them has already returned the fallback
  text when any of those fields is empty. They are not modelled.
