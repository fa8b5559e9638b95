# XLSX import of Scrambles Matcher, modelled in Dafny

Scrambles Matcher matches scramble sets to a competition described in the
WCA Competition Interface Format (WCIF). One way to get the competition is
to upload a results spreadsheet exported by a scoretaking tool such as
Cubecomps or CubingChina. The import reads every worksheet and folds the
sheets, in workbook order, into a WCIF-shaped competition object:

- a sheet named `Registration` sets the competition's `name` and `shortName`
  to its first cell. It also replaces `persons` with the person list
  converted from the sheet;
- every other sheet is a round sheet. The part of its name before the first
  `'-'` is an event id. The event with that id is found, or appended empty
  to `events`. Then one round is appended to it, numbered one past the
  rounds the event already has;
- the fold starts from a competition with a `null` id, the placeholder name
  `'<undefined>'`, and empty `schedule`, `events` and `persons`.

This project models that fold and proves what it produces.

- `wrappers.dfy` holds `Option` and `Result`.
- `wcif.dfy` (module `Wcif`) holds the competition, event, round and sheet
  datatypes.
- `import_xlsx.dfy` (module `ImportXlsx`) models the code. `LoadSheet` is
  the per-sheet step, `Fold` is the fold and `ImportWorkbook` is the
  `forEach` driver loop.
- `fold_spec.dfy` (module `FoldSpec`) describes the result directly from
  the sheet list. It proves that `Fold` produces that result, and that
  exactly one competition fits the description.
- `fold_properties.dfy` (module `FoldProperties`) derives the properties a
  caller relies on, plus the worked examples.

The two converters that turn rows into WCIF records are
`personWcifFromRegistrationXlsx` and `roundWcifFromXlsx`, from
`logic/xlsx-utils`. That module is not part of this model. Each converter
result is represented by a record of the arguments it was called with:

- `PersonsOf(rows)` is the person list converted from a Registration sheet;
- `Round(persons, eventId, roundNumber, rows)` is one converted round.

So every statement about a round says exactly what the converter received.

The import throws in only one place: reading `jsonSheet[0][0]` of a
Registration sheet that has no rows at all. The exception escapes the
`forEach`, so no competition is handed on. The model returns
`Failure(RegistrationSheetWithoutRows)`, and the fold stops at the first
such sheet.

Two behaviours of the code that are easy to misread:

- A Registration sheet whose first cell is empty does not crash. The
  missing cell becomes the name (`undefined`, modelled as `Blank`). Only a
  sheet with no rows crashes.
- A second Registration sheet overwrites the name and persons again, so the
  last Registration sheet wins. Rounds converted earlier keep the person
  list they were given.

## Model

| member | source | states |
|---|---|---|
| ImportXlsx.EventId | src/components/ImportWCIF/ImportWCIF.jsx:43 | the event id is a prefix of the sheet name with no '-'. It is followed in the name by a '-' unless it is the whole name, and it is the whole name when the name has no '-' (the first piece of `name.split('-')`) |
| ImportXlsx.FirstCell | src/components/ImportWCIF/ImportWCIF.jsx:37 | the value read as `jsonSheet[0][0]`: the first cell of the first row when there is one, and `undefined` (Blank) when the first row lacks that cell |
| ImportXlsx.FindEvent | src/components/ImportWCIF/ImportWCIF.jsx:44 | returns the position of the first event with the id, or None exactly when no event has that id (`Array.prototype.find`) |
| ImportXlsx.LoadSheet | src/components/ImportWCIF/ImportWCIF.jsx:34-59 | crashes exactly on a Registration sheet with no rows. A Registration sheet sets name and shortName to the same first cell, replaces persons and leaves events, id and schedule alone. A round sheet leaves id, name, shortName, schedule and persons alone. A sheet of a new event appends that event with one round numbered 1. Ids stay distinct |
| ImportXlsx.LoadSheetExtendsEvent | src/components/ImportWCIF/ImportWCIF.jsx:44-57 | a round sheet of an event already present appends one round numbered count+1 to that event and leaves every other event and every existing round as it was |
| ImportXlsx.Fold | src/components/ImportWCIF/ImportWCIF.jsx:74-89 | after any prefix of the workbook that did not crash, the id is still null, the schedule is still empty and the event ids are pairwise distinct |
| ImportXlsx.CrashPersists | src/components/ImportWCIF/ImportWCIF.jsx:83-89 | once a prefix of the sheets crashes, the whole import ends with that crash and no later sheet is loaded |
| ImportXlsx.ImportWorkbook | src/components/ImportWCIF/ImportWCIF.jsx:74-90 | the driver loop, which starts from the initial accumulator, loads each sheet in order and stops at a throw, computes the same result as the fold |
| FoldSpec.Positions | src/components/ImportWCIF/ImportWCIF.jsx:43-57 | lists, in increasing order and each once, exactly the positions of the sheets that add a round to the event with the given id |
| FoldSpec.FirstOccurrences | src/components/ImportWCIF/ImportWCIF.jsx:44-52 | the reference for "find or append": the same elements as the input, each exactly once |
| FoldSpec.FirstOccurrencesInOrder | src/components/ImportWCIF/ImportWCIF.jsx:44-52 | the first occurrences keep the order in which find-or-push meets them: of two elements of the result, the earlier one occurs in the input before the later one occurs at all |
| FoldSpec.LastRegistration | src/components/ImportWCIF/ImportWCIF.jsx:36-39 | returns the position of the last Registration sheet, or None exactly when there is none |
| FoldSpec.PersonsAfter | src/components/ImportWCIF/ImportWCIF.jsx:35-39 | the persons are the initial list exactly until a Registration sheet has been read, and from then on are converted from the last Registration sheet read |
| FoldSpec.FirstSheetOf | src/components/ImportWCIF/ImportWCIF.jsx:44-52 | returns the position of the first sheet that names the event, or the sheet count when none does |
| FoldSpec.RegistrationKeepsMatch | src/components/ImportWCIF/ImportWCIF.jsx:36-39 | a Registration sheet with rows keeps the competition equal to the description of the longer sheet list |
| FoldSpec.NewEventKeepsMatch | src/components/ImportWCIF/ImportWCIF.jsx:44-57 | a round sheet of an event not yet present keeps the competition equal to the description of the longer sheet list |
| FoldSpec.ExistingEventKeepsMatch | src/components/ImportWCIF/ImportWCIF.jsx:44-57 | a round sheet of an existing event keeps the competition equal to the description of the longer sheet list |
| FoldSpec.EventStarted | src/components/ImportWCIF/ImportWCIF.jsx:45-57 | the first round sheet of an event creates it with the one round converted from that sheet |
| FoldSpec.EventExtended | src/components/ImportWCIF/ImportWCIF.jsx:54-57 | a later round sheet of an event adds exactly the round of that sheet, with the next round number and the current persons |
| FoldSpec.EventUnaffected | src/components/ImportWCIF/ImportWCIF.jsx:40-58 | a sheet that names another event leaves this event's rounds and its first sheet unchanged |
| FoldSpec.LoadSheetKeepsMatch | src/components/ImportWCIF/ImportWCIF.jsx:34-59 | loading one more sheet keeps the competition equal to the description of the sheet list |
| FoldSpec.FoldCrashesIff | src/components/ImportWCIF/ImportWCIF.jsx:36-39 | the import crashes if and only if some Registration sheet has no rows |
| FoldSpec.FoldMeetsSpec | src/components/ImportWCIF/ImportWCIF.jsx:74-89 | when it does not crash, the result has id null and an empty schedule. Name and shortName come from the last Registration sheet, or `'<undefined>'` when there is none, and persons come from the same sheet. Event ids are the round sheets' prefixes with repeats removed, in order of first appearance. Each event has one round per sheet of that prefix, the k-th numbered k+1 and converted from the k-th such sheet with the persons current just before it |
| FoldSpec.FoldIsTheOnlyMatch | src/components/ImportWCIF/ImportWCIF.jsx:34-89 | for a workbook that does not crash, a competition fits that description if and only if it is the import's result, so the description determines the result completely |
| FoldProperties.EventsInOrderOfFirstAppearance | src/components/ImportWCIF/ImportWCIF.jsx:44-52 | event ids are pairwise distinct and listed in order of their first round sheet. Every round sheet's prefix is among them |
| FoldProperties.RoundsOfEvent | src/components/ImportWCIF/ImportWCIF.jsx:54-57 | each event has as many rounds as sheets with its prefix, at least one. Its k-th round is numbered k+1 and was converted from the k-th such sheet with the persons current at that point |
| FoldProperties.RoundPersonsNeedEarlierRegistration | src/components/ImportWCIF/ImportWCIF.jsx:35-56 | a round is converted with the initial person list, not one converted from a Registration sheet, if and only if no Registration sheet comes before its sheet. The comment at line 35 states this ordering assumption |
| FoldProperties.RegistrationFirstNames | src/components/ImportWCIF/ImportWCIF.jsx:35-39 | with the only Registration sheet first, the import does not crash. Name and shortName are that sheet's first cell and persons are converted from it |
| FoldProperties.RegistrationFirstRounds | src/components/ImportWCIF/ImportWCIF.jsx:35-56 | with the only Registration sheet first, every round is converted with the persons of that sheet |
| FoldProperties.NoRegistrationKeepsInitialFields | src/components/ImportWCIF/ImportWCIF.jsx:74-82 | without a Registration sheet the import cannot crash. Name and shortName stay `'<undefined>'`, persons keep the initial list, the id stays null and the schedule stays empty |
| FoldProperties.OneRoundSheet | src/components/ImportWCIF/ImportWCIF.jsx:43-57 | one round sheet gives one event named by the sheet's prefix, with one round numbered 1 |
| FoldProperties.SheetNameWithoutDash | src/components/ImportWCIF/ImportWCIF.jsx:43 | a sheet name without '-' names its event in full |
| FoldProperties.TwoRoundSheetsOfOneEvent | src/components/ImportWCIF/ImportWCIF.jsx:43-57 | sheets "A-1" then "A-2" give one event "A" with two rounds, numbered 1 and 2, in sheet order |

## Left out

- React rendering, styles, tab state and help text (ImportWCIF.jsx:109-352) are user interface with no behaviour to state.
- FileReader plumbing is asynchronous browser I/O and is not modelled. This covers the binary-string or array-buffer choice, the `alert` on a read error, and `JSON.parse` in the WCIF file upload.
- `XLSX.read` and `XLSX.utils.sheet_to_json` with its options (header row kept, formatted text, blank rows dropped) belong to a third-party library. The model's input is the already-converted sheet list: each sheet is a name plus rows of cells, and a cell is a string or absent.
- `updater(wcif)` is a callback into the parent component. The model returns the competition instead.
- The internals of `personWcifFromRegistrationXlsx` and `roundWcifFromXlsx` are not part of this model. Their results are recorded as their arguments. Any exception they might throw is not modelled.
- `CompetitionsSection` and the remote competition import are not part of this model.
- The `competitorLimit` and `qualification` fields are left out. They are `null` on every event the import creates and nothing reads them here.
- In JavaScript the same `persons` array is passed by reference to each round conversion. A Registration sheet replaces that array rather than mutating it. The model assumes that `roundWcifFromXlsx`, which is not part of this model, does not mutate its `persons` argument either. Under that assumption value semantics loses nothing here.
- A person list converted from a Registration sheet is kept distinct from the initial `[]` even when the converter returns an empty list, for example for a sheet with only a header row. So `NoPersons` means "no Registration sheet read yet", not "an empty list".
