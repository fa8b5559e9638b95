/** Consequences of the description in `FoldSpec` that callers of the XLSX
    import rely on, each stated for an arbitrary workbook. */
module FoldProperties {
  import opened Wrappers
  import opened Wcif
  import opened ImportXlsx
  import opened FoldSpec

  /** Events appear once each, in the order their first round sheets appear,
      and every round sheet's event is among them. */
  lemma EventsInOrderOfFirstAppearance(sheets: seq<Sheet>)
    requires Fold(sheets).Success?
    ensures var events := Fold(sheets).value.events;
      && UniqueIds(events)
      && Ids(events) == FirstOccurrences(RoundSheetIds(sheets))
      && (forall i, j :: 0 <= i < j < |events| ==>
            FirstSheetOf(sheets, events[i].id) < FirstSheetOf(sheets, events[j].id))
      && forall p :: 0 <= p < |sheets| && sheets[p].name != RegistrationSheet ==>
            EventId(sheets[p].name) in Ids(events)
  {
    FoldMeetsSpec(sheets);
  }

  /** Event number i has one round per round sheet of its id, and its k-th
      round (from 0) was converted from the k-th such sheet with round number
      k + 1 and the persons current just before that sheet. */
  lemma {:induction false} RoundsOfEvent(sheets: seq<Sheet>, i: nat, k: nat)
    requires Fold(sheets).Success?
    requires i < |Fold(sheets).value.events|
    ensures var e := Fold(sheets).value.events[i];
      var ps := Positions(sheets, e.id);
      && |e.rounds| == |ps| > 0
      && (k < |ps| ==>
            && e.rounds[k].roundNumber == k + 1
            && e.rounds[k].eventId == e.id
            && e.rounds[k].rows == sheets[ps[k]].rows
            && e.rounds[k].persons == PersonsAfter(sheets[..ps[k]]))
  {
    FoldMeetsSpec(sheets);
    assert EventMatches(Fold(sheets).value.events[i], sheets);
  }

  /** A round is converted with the initial person list, not one converted
      from a Registration sheet, exactly when no Registration sheet precedes
      its sheet: the import relies on the Registration sheet coming first. */
  lemma {:induction false} RoundPersonsNeedEarlierRegistration(sheets: seq<Sheet>, i: nat, k: nat)
    requires Fold(sheets).Success?
    requires i < |Fold(sheets).value.events|
    requires k < |Fold(sheets).value.events[i].rounds|
    ensures var e := Fold(sheets).value.events[i];
      var ps := Positions(sheets, e.id);
      && k < |ps|
      && (e.rounds[k].persons == NoPersons <==>
            forall q :: 0 <= q < ps[k] ==> sheets[q].name != RegistrationSheet)
  {
    RoundsOfEvent(sheets, i, k);
    var p := Positions(sheets, Fold(sheets).value.events[i].id)[k];
    assert forall q :: 0 <= q < p ==> sheets[..p][q] == sheets[q];
  }

  /** With the Registration sheet first (and no other), the import does not
      crash and the competition takes its name, short name and persons from
      that sheet. */
  lemma {:induction false} RegistrationFirstNames(sheets: seq<Sheet>)
    requires |sheets| > 0 && sheets[0].name == RegistrationSheet && |sheets[0].rows| > 0
    requires forall q :: 0 < q < |sheets| ==> sheets[q].name != RegistrationSheet
    ensures Fold(sheets).Success?
    ensures Fold(sheets).value.name == Fold(sheets).value.shortName == FirstCell(sheets[0].rows)
    ensures Fold(sheets).value.persons == PersonsOf(sheets[0].rows)
  {
    FoldCrashesIff(sheets);
    FoldMeetsSpec(sheets);
  }

  /** ... and every round is converted with the persons of that sheet. */
  lemma {:induction false} RegistrationFirstRounds(sheets: seq<Sheet>, i: nat, k: nat)
    requires |sheets| > 0 && sheets[0].name == RegistrationSheet
    requires forall q :: 0 < q < |sheets| ==> sheets[q].name != RegistrationSheet
    requires Fold(sheets).Success?
    requires i < |Fold(sheets).value.events| && k < |Fold(sheets).value.events[i].rounds|
    ensures Fold(sheets).value.events[i].rounds[k].persons == PersonsOf(sheets[0].rows)
  {
    RoundsOfEvent(sheets, i, k);
    var p := Positions(sheets, Fold(sheets).value.events[i].id)[k];
    assert p > 0;
    assert sheets[..p][0] == sheets[0];
    assert LastRegistration(sheets[..p]) == Some(0);
  }

  /** Without a Registration sheet the import cannot crash, and the name,
      short name, persons, id and schedule keep their initial values. */
  lemma {:induction false} NoRegistrationKeepsInitialFields(sheets: seq<Sheet>)
    requires forall q :: 0 <= q < |sheets| ==> sheets[q].name != RegistrationSheet
    ensures Fold(sheets).Success?
    ensures var c := Fold(sheets).value;
      && c.name == Unnamed && c.shortName == Unnamed
      && c.persons == NoPersons && c.id == None && c.schedule == []
  {
    FoldCrashesIff(sheets);
    FoldMeetsSpec(sheets);
  }

  /** A workbook of one round sheet gives one event, named by the sheet's
      prefix, with one round numbered 1. */
  lemma OneRoundSheet(name: string, rows: Rows)
    requires name != RegistrationSheet
    ensures Fold([Sheet(name, rows)]) ==
      Success(Initial.(events := [Event(EventId(name), [Round(NoPersons, EventId(name), 1, rows)])]))
  {
    var sheets := [Sheet(name, rows)];
    assert sheets[..0] == [];
    assert FindEvent([], EventId(name)) == None;
    var r := LoadSheet(Initial, sheets[0]);
    assert r.value.events == [Event(EventId(name), [Round(NoPersons, EventId(name), 1, rows)])];
  }

  /** A round sheet whose name has no '-' names its event in full. */
  lemma SheetNameWithoutDash(name: string, rows: Rows)
    requires '-' !in name && name != RegistrationSheet
    ensures Fold([Sheet(name, rows)]) ==
      Success(Initial.(events := [Event(name, [Round(NoPersons, name, 1, rows)])]))
  {
    OneRoundSheet(name, rows);
  }

  /** Loading "A-2" after "A-1" appends round 2 to event "A". */
  lemma SecondRoundOfOneEvent(rows1: Rows, rows2: Rows)
    ensures LoadSheet(Initial.(events := [Event("A", [Round(NoPersons, "A", 1, rows1)])]), Sheet("A-2", rows2)) ==
      Success(Initial.(events := [Event("A", [Round(NoPersons, "A", 1, rows1), Round(NoPersons, "A", 2, rows2)])]))
  {
    var first := Initial.(events := [Event("A", [Round(NoPersons, "A", 1, rows1)])]);
    assert EventId("A-2") == "A" by { assert EventId("-2") == ""; }
    assert FindEvent(first.events, "A") == Some(0);
    var e := first.events[0];
    var both := [Round(NoPersons, "A", 1, rows1), Round(NoPersons, "A", 2, rows2)];
    assert e.rounds + [NextRound(NoPersons, "A", |e.rounds|, rows2)] == both;
    assert first.events[0 := e.(rounds := both)] == [Event("A", both)];
  }

  /** Two round sheets "A-1" and "A-2", in that order, give one event "A"
      with two rounds in sheet order. */
  lemma TwoRoundSheetsOfOneEvent(rows1: Rows, rows2: Rows)
    ensures Fold([Sheet("A-1", rows1), Sheet("A-2", rows2)]) ==
      Success(Initial.(events := [Event("A", [Round(NoPersons, "A", 1, rows1), Round(NoPersons, "A", 2, rows2)])]))
  {
    var sheets := [Sheet("A-1", rows1), Sheet("A-2", rows2)];
    assert EventId("A-1") == "A" by { assert EventId("-1") == ""; }
    assert sheets[..1] == [Sheet("A-1", rows1)];
    OneRoundSheet("A-1", rows1);
    SecondRoundOfOneEvent(rows1, rows2);
  }
}
