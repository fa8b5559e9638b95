/** The XLSX import: folding the converted worksheets of a results workbook,
    in workbook order, into one competition object.

    A sheet named "Registration" sets the competition's name and short name
    from its first cell and replaces the person list. Every other sheet is a
    round sheet: the part of its name before the first '-' is an event id,
    the event with that id is found (or appended, empty, to the event list),
    and one round numbered after the event's existing rounds is appended. */
module ImportXlsx {
  import opened Wrappers
  import opened Wcif

  /** The one way the fold can fail: a Registration sheet with no rows,
      where reading the first cell of the first row throws. */
  datatype Crash = RegistrationSheetWithoutRows

  const RegistrationSheet: string := "Registration"

  /** The placeholder name the competition starts with. */
  const Unnamed: Cell := Text("<undefined>")

  /** The accumulator the fold starts from: null id, placeholder names,
      and empty schedule, events and persons. */
  const Initial: Competition := Competition(None, Unnamed, Unnamed, [], [], NoPersons)

  /** The event id named by a round sheet: the longest prefix of the sheet
      name that holds no '-', that is, everything before the first '-', or
      the whole name when it has none. */
  function EventId(name: string): (id: string)
    ensures id <= name
    ensures '-' !in id
    ensures |id| < |name| ==> name[|id|] == '-'
    ensures '-' !in name ==> id == name
  {
    if |name| == 0 || name[0] == '-' then "" else [name[0]] + EventId(name[1..])
  }

  /** The cell at row 0, column 0 of a sheet, Blank when the first row has
      no such cell. An empty sheet also gives Blank here; `LoadSheet` never
      asks, because the import throws in that case. */
  function FirstCell(rows: Rows): (cell: Cell)
    ensures |rows| > 0 && |rows[0]| > 0 ==> cell == rows[0][0]
    ensures cell != Blank ==> |rows| > 0 && |rows[0]| > 0
  {
    if |rows| > 0 && |rows[0]| > 0 then rows[0][0] else Blank
  }

  /** The position of the first event with the given id, or None when no
      event has it. */
  function FindEvent(events: seq<Event>, id: string): (r: Option<nat>)
    ensures r.Some? ==> r.value < |events| && events[r.value].id == id
    ensures r.Some? ==> forall j :: 0 <= j < r.value ==> events[j].id != id
    ensures r.None? <==> id !in Ids(events)
  {
    if |events| == 0 then None
    else if events[0].id == id then Some(0)
    else match FindEvent(events[1..], id)
      case None => None
      case Some(k) => Some(k + 1)
  }

  /** The next round of the event with id `id`, converted from `rows` with
      the given persons, numbered one past the `count` rounds it has. */
  function NextRound(persons: Persons, id: string, count: nat, rows: Rows): Round {
    Round(persons, id, count + 1, rows)
  }

  /** Processes one worksheet against the competition accumulator. */
  function LoadSheet(c: Competition, sheet: Sheet): (r: Result<Competition, Crash>)
    // It fails only on a Registration sheet with no rows.
    ensures r.Failure? <==> sheet.name == RegistrationSheet && |sheet.rows| == 0
    // A Registration sheet names the competition and replaces the persons.
    ensures sheet.name == RegistrationSheet && r.Success? ==>
      && r.value.name == FirstCell(sheet.rows)
      && r.value.shortName == r.value.name
      && r.value.persons == PersonsOf(sheet.rows)
      && r.value.id == c.id && r.value.schedule == c.schedule
      && r.value.events == c.events
    // A round sheet touches nothing but the events.
    ensures sheet.name != RegistrationSheet && r.Success? ==>
      && r.value.id == c.id && r.value.name == c.name
      && r.value.shortName == c.shortName && r.value.schedule == c.schedule
      && r.value.persons == c.persons
    // Ids stay pairwise distinct.
    ensures UniqueIds(c.events) && r.Success? ==> UniqueIds(r.value.events)
    // A round sheet whose event is new appends that event with one round,
    // numbered 1.
    ensures sheet.name != RegistrationSheet && EventId(sheet.name) !in Ids(c.events) ==>
      var id := EventId(sheet.name);
      r.Success? && r.value.events == c.events + [Event(id, [NextRound(c.persons, id, 0, sheet.rows)])]
  {
    if sheet.name == RegistrationSheet then
      if |sheet.rows| == 0 then Failure(RegistrationSheetWithoutRows)
      else
        var title := FirstCell(sheet.rows);
        Success(c.(name := title, shortName := title, persons := PersonsOf(sheet.rows)))
    else
      var id := EventId(sheet.name);
      match FindEvent(c.events, id)
      case None =>
        Success(c.(events := c.events + [Event(id, [NextRound(c.persons, id, 0, sheet.rows)])]))
      case Some(k) =>
        var e := c.events[k];
        Success(c.(events := c.events[k := e.(rounds := e.rounds + [NextRound(c.persons, id, |e.rounds|, sheet.rows)])]))
  }

  /** A round sheet whose event exists appends exactly one round to it,
      numbered one past its existing rounds; no other event changes and no
      existing round moves. */
  lemma LoadSheetExtendsEvent(c: Competition, sheet: Sheet)
    requires sheet.name != RegistrationSheet && EventId(sheet.name) in Ids(c.events)
    requires UniqueIds(c.events)
    ensures var id := EventId(sheet.name);
      && LoadSheet(c, sheet).Success?
      && |LoadSheet(c, sheet).value.events| == |c.events|
      && forall i :: 0 <= i < |c.events| ==>
           LoadSheet(c, sheet).value.events[i] ==
             if c.events[i].id == id
             then Event(id, c.events[i].rounds + [NextRound(c.persons, id, |c.events[i].rounds|, sheet.rows)])
             else c.events[i]
  {
    var k := FindEvent(c.events, EventId(sheet.name)).value;
    assert forall i :: 0 <= i < |c.events| && c.events[i].id == EventId(sheet.name) ==> i == k;
  }

  /** The competition after the first |sheets| sheets of the workbook, or the
      crash that stopped the fold. */
  function Fold(sheets: seq<Sheet>): (r: Result<Competition, Crash>)
    ensures r.Success? ==> r.value.id == None && r.value.schedule == []
    ensures r.Success? ==> UniqueIds(r.value.events)
  {
    if |sheets| == 0 then Success(Initial)
    else match Fold(sheets[..|sheets| - 1])
      case Failure(e) => Failure(e)
      case Success(c) => LoadSheet(c, sheets[|sheets| - 1])
  }

  /** Once a prefix of the workbook crashes, the whole fold ends with that
      crash: the sheets after it are never loaded. */
  lemma {:induction false} CrashPersists(sheets: seq<Sheet>, n: nat)
    requires n <= |sheets| && Fold(sheets[..n]).Failure?
    ensures Fold(sheets) == Fold(sheets[..n])
    decreases |sheets| - n
  {
    if n < |sheets| {
      assert sheets[..n + 1][..n] == sheets[..n];
      CrashPersists(sheets, n + 1);
    } else {
      assert sheets[..n] == sheets;
    }
  }

  /** The driver: starts from the initial accumulator and loads each sheet
      in workbook order, stopping at the first crash. */
  method ImportWorkbook(sheets: seq<Sheet>) returns (r: Result<Competition, Crash>)
    ensures r == Fold(sheets)
  {
    var c := Initial;
    var i := 0;
    while i < |sheets|
      invariant 0 <= i <= |sheets|
      invariant Fold(sheets[..i]) == Success(c)
    {
      var next := LoadSheet(c, sheets[i]);
      assert Fold(sheets[..i + 1]) == next by {
        assert sheets[..i + 1][..i] == sheets[..i];
      }
      if next.Failure? {
        CrashPersists(sheets, i + 1);
        return next;
      }
      c := next.value;
      i := i + 1;
    }
    assert sheets[..i] == sheets;
    r := Success(c);
  }
}
