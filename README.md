# Chessli openings: store and registry

A model of the opening logic of chessli, a tool that collects chess openings
from a player's games and turns them into flashcards. It covers:

- An opening's identity: the key `"<eco> - <name>"`.
- Its Markdown card, and the text stored for the flashcard tool.
- The openings directory, as a class over a map from file stem to content.
- The idempotent `store`, and `exists`.
- The effect `ankify` chooses.
- The ECO volume enumeration.
- The known-openings listing. It sorts the stored stems, groups them by first
  letter in an insertion-ordered dictionary, prints the total, then prints one
  header and the members for each selected group.
- The new-versus-known table.

Files:

- `wrappers.dfy`: the `Option` and `Result` types.
- `strings.dfy`: Python's string ordering, and `sorted` as a pure insertion
  sort, with the lemma that a sorted permutation is unique.
- `eco.dfy`: the `ECOVolume` enumeration, its lookup by name, and the volume
  filter.
- `opening.dfy`: the opening record, its identity, its card, and its stored text.
- `registry.dfy`: grouping, emitting, and the whole listing. Each is a pure
  specification function; the grouping and emitting loops are also methods
  proved against them.
- `store.dfy`: the `OpeningsDir` class (the directory and its operations),
  plus worked examples.

Printed output is modelled as records, not terminal markup:

- The listing is a sequence of `Line` values, plus the error that stopped it,
  if any.
- The table is a `Table` of styled `Cell`s.

Where the source's documentation and its code disagree, the model follows the
code:

- **The volume filter never selects anything.** `ECOVolume` is an enumeration
  whose members are also strings equal to their descriptions. So
  `key == eco_volume` compares a one-letter key with a long description, and
  it is never true. With a filter, the listing prints only the total.
- **Two table columns are swapped.** The table is declared with columns
  `"", "Name", "ECO"`, but each row is added as `(marker, eco, name)`. So the
  ECO code sits under "Name" and the name under "ECO".

## Model

| member | source | states |
|---|---|---|
| Openings.Identity | chessli/openings.py:29-30 | the key is the ECO code, then `" - "`, then the name, and nothing else |
| Openings.IdentityInjective | chessli/openings.py:29-30 | for ECO codes without spaces, two openings share a key if and only if they have the same ECO code and name; site, moves, config and paths play no part |
| Openings.Title | chessli/openings.py:41 | `key.replace('_', ' ').title()` keeps the key's length |
| Openings.TitleOfLowerWord | chessli/openings.py:41 | the heading of a lower-case attribute name is the name with its first letter capitalised |
| Openings.HiddenFields | chessli/openings.py:40 | config and paths are the hidden attributes; name, site, eco and moves are rendered |
| Openings.SectionOfEachField | chessli/openings.py:39-42 | each rendered attribute gets the section `## <Title>\n<value>\n`, titled Name, Site, Eco or Moves; config and paths contribute nothing |
| Openings.Md | chessli/openings.py:36-43 | the `md` property: the card always starts with `# Opening\n` |
| Openings.MdLayout | chessli/openings.py:36-43 | the card is `# Opening\n` followed by exactly the Name, Site, Eco and Moves sections, in that order |
| Openings.MdIgnoresConfigAndPaths | chessli/openings.py:36-43 | openings that agree on name, site, ECO code and moves have the same card |
| Openings.StoredText | chessli/openings.py:57-66 | the stored text is the flashcard header, then the card, then `\n\n` |
| Openings.StoredTextDeterminesCard | chessli/openings.py:64-66 | the header is fixed, so two stored texts are equal exactly when the cards are equal |
| Eco.Lookup | chessli/openings.py:100 | `ECOVolume[name]` finds a member exactly for the names A to E, and the member it finds has that name; any other name is a KeyError |
| Eco.LookupMemberName | chessli/openings.py:79-84 | every volume is found under its own name |
| Eco.Description | chessli/openings.py:80-84 | each member's value is "Volume ", its name, ": ", then what it covers, as the five values declare |
| Eco.Selects | chessli/openings.py:99 | a group is printed when there is no filter or its one-letter key equals the filter member, whose value is its description |
| Eco.FilterSelectsNoLetter | chessli/openings.py:99 | a volume filter never selects a one-letter group key |
| Strings.BelowTotal | chessli/openings.py:89 | Python's string order is total: of two different strings, one is below the other |
| Strings.BelowTransitive | chessli/openings.py:89 | Python's string order is transitive |
| Strings.Below | chessli/openings.py:89 | Python's `<` on `str`: code point by code point, and a proper prefix comes first |
| Strings.Sort | chessli/openings.py:89 | `sorted` returns an ascending permutation of its input |
| Strings.SortedUnique | chessli/openings.py:89 | two ascending permutations of the same strings are equal, so the sorted stems do not depend on the directory's listing order |
| Registry.IndexOf | chessli/openings.py:96 | the dictionary lookup finds the first group with the key, or reports that none has it |
| Registry.AddStem | chessli/openings.py:96 | `opening_dict[opening[0]].append(opening)` on a `defaultdict(list)` kept in insertion order |
| Registry.AddStemShape | chessli/openings.py:96 | the stem is appended to its first character's list, which is created at the end when missing; every other list is unchanged |
| Registry.Grouping | chessli/openings.py:95-96 | the dictionary after the grouping loop; the only way it fails is the IndexError of an empty stem |
| Registry.FilterSorted | chessli/openings.py:89-96 | the stems filed under one letter keep their ascending order |
| Registry.GroupingFails | chessli/openings.py:95-96 | grouping fails exactly when some stem is empty, and the failure is an IndexError |
| Registry.AddStemPartitions | chessli/openings.py:96 | filing one more stem keeps the dictionary a partition of the stems filed so far |
| Registry.GroupingPartitions | chessli/openings.py:95-96 | for non-empty stems, the groups have distinct keys, are non-empty, cover every stem, and each holds exactly the stems starting with its key, in input order |
| Registry.GroupingOfSorted | chessli/openings.py:88-96 | for sorted stems, the groups come in ascending key order, and reading them one after another gives back the sorted stems |
| Registry.GroupStems | chessli/openings.py:95-96 | the grouping loop computes the grouping specification, including its IndexError |
| Registry.PrintGroup | chessli/openings.py:100-104 | the inner loop prints the group's header with its size, then each member in order, then a blank line |
| Registry.Emit | chessli/openings.py:98-104 | the printing loops: any error stops the listing with a KeyError for a key that names no volume; unfiltered and without error, each group prints at least a header and a blank line |
| Registry.EmitGroups | chessli/openings.py:98-104 | the outer printing loop produces exactly the emitting specification's lines and error |
| Registry.EmitWithVolumeFilter | chessli/openings.py:98-104 | with a volume filter nothing is printed and nothing fails |
| Registry.EmitUnfiltered | chessli/openings.py:98-104 | with no filter, and every key naming a volume, there is no error, one header per group in order, and all members in group order |
| Registry.EmitUnfilteredLines | chessli/openings.py:98-104 | with no filter, and every key naming a volume, the lines are each group's header, members and blank line, group after group |
| Registry.EmitUnknownKey | chessli/openings.py:98-100 | with no filter, the printing fails, with a KeyError, exactly when some group key names no volume |
| Registry.Report | chessli/openings.py:87-93 | the listing always starts with the total number of stored stems |
| Registry.ReportWithVolumeFilter | chessli/openings.py:87-104 | with a volume filter the listing is the total alone, plus an IndexError if some stem is empty |
| Registry.ReportUnfiltered | chessli/openings.py:87-104 | sorted stems that all start with a volume letter list without error: the groups partition the stems in ascending key order, each stem is printed once in sorted order, and each header counts its group's stems; the lines are the total, then each group's header, its members and a blank line, group after group |
| Registry.ReportUnknownVolume | chessli/openings.py:95-100 | with no filter, a stem whose first letter names no volume makes the listing fail with a KeyError |
| OpeningStore.AfterStore | chessli/openings.py:61-68 | after storing, the key is present; the stored text is written if the key was absent or `force` is set; otherwise the directory is unchanged; other keys never change |
| OpeningStore.StoreIdempotent | chessli/openings.py:61-68 | a second store without `force` changes nothing |
| OpeningStore.ForcedStoreTwice | chessli/openings.py:61-66 | storing twice with `force` gives the same directory as storing once |
| OpeningStore.FileName | chessli/openings.py:52 | the card's file name is the key followed by `.md` |
| OpeningStore.FilePath | chessli/openings.py:50-52 | the `path` property: the opening's openings directory, `/`, then the file name |
| OpeningStore.SortedKeys | chessli/openings.py:89 | the sorted stems are an ascending permutation of the directory's stems |
| OpeningStore.SortedKeysOf | chessli/openings.py:89 | any ascending arrangement of the directory's stems is the sorted stems |
| OpeningStore.ExampleKeysSorted | chessli/openings.py:89 | a directory holding A12, A45 and B10 sorts to that order |
| OpeningStore.ExampleGrouping | chessli/openings.py:95-96 | those stems are grouped as A: [A12, A45], B: [B10] |
| OpeningStore.ExampleEmit | chessli/openings.py:98-104 | those groups print as volume A (2) with its two members, then volume B (1) with its one |
| OpeningStore.ExampleReport | chessli/openings.py:87-104 | the unfiltered listing of those stems is the total 3, followed by the two groups |
| OpeningStore.ExampleListing | chessli/openings.py:87-104 | the unfiltered listing of that directory is the total 3, followed by the two groups |
| OpeningStore.ExampleListingFilteredByVolume | chessli/openings.py:99 | filtered by volume B, that directory's listing is the total alone |
| OpeningStore.OpeningsDir.constructor | chessli/openings.py:51 | an openings directory with its path and the cards it holds |
| OpeningStore.OpeningsDir.Exists | chessli/openings.py:54-55 | `exists()`: the file named by the opening's path, without its `.md`, is in the directory |
| OpeningStore.OpeningsDir.Store | chessli/openings.py:61-68 | `store` writes exactly when the opening is absent or `force` is set; it logs "storing" or "ignoring" accordingly; afterwards the opening exists |
| OpeningStore.OpeningsDir.Ankify | chessli/openings.py:70-76 | the flashcard tool runs on the card's path inside the openings directory, with input "n", exactly when the opening is stored; otherwise the store-first hint is shown |
| OpeningStore.OpeningsDir.ListKnownOpenings | chessli/openings.py:87-104 | listing the directory gives the listing specification of its sorted stems, whatever order the directory yields them in |
| OpeningStore.OpeningsDir.PrintOpenings | chessli/openings.py:107-123 | the "New Openings" table, with columns "", "Name", "ECO", has one row per opening in input order; each row has the `:new:` marker exactly for unstored openings, then the ECO code, then the name; stored rows are grey and new rows green |

## Left out

- Paths: `path` uses pathlib's `with_suffix`, which would cut a dotted tail off
  the identity, and `/` would make a subdirectory. The directory is keyed by
  the identity itself. So the model matches the source only for identities
  with no `.` and no `/`. `FilePath` joins the directory and the file name
  with one `/`; pathlib's normalisation of the directory is not modelled.
- One directory at a time: each opening looks for its card in its own
  `paths.openings_dir`. An `OpeningsDir` models one such directory, so
  `Exists`, `Store`, `Ankify` and `PrintOpenings` take only openings whose
  `paths.openings_dir` is that directory. Openings spread over several
  directories are not modelled.
- Globbing and `.stem`: the directory's stems are its map keys, taken in an
  arbitrary order.
- The Rich console, Markdown, and table rendering, and the logging: these are
  modelled as records. This includes `pprint`. Log messages are
  `StoreLog` values, not formatted text.
- How the header prints a volume: that text depends on the Python version's
  enumeration formatting. The `Header` record carries the member itself.
- `subprocess.run` in `ankify`: the external tool's behaviour is not modelled.
  The model records only the command and input it would be run with.
- `items`: modelled as the fixed attribute order `Fields`.
- `config`: an opaque value. Of `paths`, only `openings_dir` is modelled.
- `str.title`: modelled for ASCII letters only. This is enough for the
  attribute names.
- `chessli/cli/openings.py`: the command-line wiring, game fetching, and
  configuration loading are not part of this model.
- `OpeningStore.OpeningsDir.Store`: the file system write can fail, and those
  failures are not modelled.
