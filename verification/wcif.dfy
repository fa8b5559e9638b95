/** The WCIF-shaped competition object that the XLSX import assembles, and
    the converted worksheets it is assembled from.

    The two converters that turn spreadsheet rows into WCIF records live in a
    module outside this model. Their results are represented by what they
    were called with: `PersonsOf(rows)` stands for the person list produced
    from a Registration sheet, and a `Round` records the four arguments of
    the round conversion. Two rounds are equal exactly when they were
    converted from the same arguments. */
module Wcif {
  import opened Wrappers

  /** One cell of a worksheet converted row-major with formatted text:
      either a string or an absent cell (`undefined`). */
  datatype Cell = Blank | Text(text: string)

  /** A worksheet converted to an array of rows, header row included. */
  type Rows = seq<seq<Cell>>

  /** A named worksheet, in the order the workbook lists it. */
  datatype Sheet = Sheet(name: string, rows: Rows)

  /** The `persons` value of the competition: the empty initial list, or the
      list converted from the rows of a Registration sheet. */
  datatype Persons = NoPersons | PersonsOf(registration: Rows)

  /** The result of converting one round sheet, recorded as the arguments
      of the conversion: the persons current at that point, the event id,
      the round number and the sheet's rows. */
  datatype Round = Round(persons: Persons, eventId: string, roundNumber: nat, rows: Rows)

  datatype Event = Event(id: string, rounds: seq<Round>)

  /** An entry of the competition schedule. The import never fills the
      schedule, so its entries carry only a name here. */
  datatype Activity = Activity(name: string)

  /** The competition object. `id` is `null` (None) throughout the import;
      `name` and `shortName` hold a cell value because the import copies
      them from a worksheet cell, which may be absent. */
  datatype Competition = Competition(
    id: Option<string>,
    name: Cell,
    shortName: Cell,
    schedule: seq<Activity>,
    events: seq<Event>,
    persons: Persons)

  /** The ids of a list of events, in list order. */
  function Ids(events: seq<Event>): (ids: seq<string>)
    ensures |ids| == |events|
    ensures forall i :: 0 <= i < |events| ==> ids[i] == events[i].id
  {
    seq(|events|, i requires 0 <= i < |events| => events[i].id)
  }

  /** No two events of the list share an id. */
  ghost predicate UniqueIds(events: seq<Event>) {
    forall i, j :: 0 <= i < j < |events| ==> events[i].id != events[j].id
  }
}
