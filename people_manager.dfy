/**
 * The people list (`PeopleManager` component): adding a person under a
 * trimmed name, with a colour that cycles through an eight-entry palette,
 * and removing a person by id. The typed name is the component's own state,
 * modelled by the class `PeopleForm`.
 */
module PeopleManager {
  import opened Text
  import opened Seqs
  import opened Entities

  /** `PERSON_COLORS`. */
  const PersonColors: seq<string> := [
    "hsl(25 95% 53%)",
    "hsl(200 95% 53%)",
    "hsl(150 95% 43%)",
    "hsl(280 95% 53%)",
    "hsl(45 95% 53%)",
    "hsl(10 95% 53%)",
    "hsl(190 95% 53%)",
    "hsl(120 95% 43%)"
  ]

  /** The palette has eight different colours. */
  lemma PaletteIsDistinct()
    ensures |PersonColors| == 8 && NoDuplicates(PersonColors)
  {
    forall i, j | 0 <= i < j < 8 ensures PersonColors[i] != PersonColors[j] {
      assert PersonColors[i][4] != PersonColors[j][4] || PersonColors[i][5] != PersonColors[j][5]
          || PersonColors[i][10] != PersonColors[j][10];
    }
  }

  /** The colour given to the person added to a list of `count` people. */
  function ColorFor(count: nat): (c: string)
    ensures c in PersonColors
  {
    PersonColors[count % |PersonColors|]
  }

  /**
   * `addPerson`: with a blank name the list is unchanged; otherwise exactly
   * one person is appended, named with the trimmed text and coloured from the
   * palette, and the people already there are unchanged.
   */
  function AddPerson(people: seq<Person>, newPersonName: string, now: nat): (r: seq<Person>)
    ensures IsBlank(newPersonName) ==> r == people
    ensures !IsBlank(newPersonName) ==>
              && |r| == |people| + 1 && r[..|people|] == people
              && r[|people|].id == NatToString(now)
              && r[|people|].name == Trim(newPersonName) && r[|people|].name != "" && IsTrimmed(r[|people|].name)
              && r[|people|].color == PersonColors[|people| % 8]
              && r[|people|].color in PersonColors
  {
    if IsBlank(newPersonName) then people
    else people + [Person(NatToString(now), Trim(newPersonName), ColorFor(|people|))]
  }

  /**
   * `removePerson`: nobody with that id is left, everybody else stays, and
   * removing an id nobody has changes nothing.
   */
  function RemovePerson(people: seq<Person>, id: string): (r: seq<Person>)
    ensures forall p | p in r :: p.id != id && p in people
    ensures forall p | p in people && p.id != id :: p in r
    ensures (forall i :: 0 <= i < |people| ==> people[i].id != id) ==> r == people
  {
    Filter(people, (p: Person) => p.id != id)
  }

  /** Removing from a list made of two parts removes from each: the others keep their order. */
  lemma RemovePersonKeepsOrder(a: seq<Person>, b: seq<Person>, id: string)
    ensures RemovePerson(a + b, id) == RemovePerson(a, id) + RemovePerson(b, id)
  {
    FilterAppend(a, b, (p: Person) => p.id != id);
  }

  /** Every person has the colour of their position in the list, cycling through the palette. */
  predicate ColorsFollowPositions(people: seq<Person>) {
    forall i :: 0 <= i < |people| ==> people[i].color == PersonColors[i % 8]
  }

  /** Adding keeps the colours in step with the positions. */
  lemma AddPersonKeepsColorCycle(people: seq<Person>, newPersonName: string, now: nat)
    requires ColorsFollowPositions(people)
    ensures ColorsFollowPositions(AddPerson(people, newPersonName, now))
  {
    if !IsBlank(newPersonName) {
      var p := Person(NatToString(now), Trim(newPersonName), ColorFor(|people|));
      assert AddPerson(people, newPersonName, now) == people + [p];
      AppendKeepsColorCycle(people, p);
    }
  }

  lemma AppendKeepsColorCycle(people: seq<Person>, p: Person)
    requires ColorsFollowPositions(people) && p.color == PersonColors[|people| % 8]
    ensures ColorsFollowPositions(people + [p])
  {
    var r := people + [p];
    forall i | 0 <= i < |r| ensures r[i].color == PersonColors[i % 8] {
      if i < |people| {
        assert r[i] == people[i];
      }
    }
  }

  /**
   * Up to eight people whose colours follow their positions (as after a run
   * of additions to an empty list, without removals) all have different colours.
   */
  lemma FirstEightColorsDiffer(people: seq<Person>)
    requires ColorsFollowPositions(people) && |people| <= 8
    ensures forall i, j :: 0 <= i < j < |people| ==> people[i].color != people[j].color
  {
    PaletteIsDistinct();
    forall i, j | 0 <= i < j < |people| ensures people[i].color != people[j].color {
      assert i % 8 == i && j % 8 == j;
    }
  }

  /**
   * A removal breaks the cycle: removing the first of two people and adding a
   * third gives the newcomer the colour of the person who stayed.
   */
  lemma RemoveThenAddRepeatsColor(a: Person, b: Person, name: string, now: nat)
    requires a.id != b.id && ColorsFollowPositions([a, b]) && !IsBlank(name)
    ensures var r := AddPerson(RemovePerson([a, b], a.id), name, now);
            |r| == 2 && r[0] == b && r[1].color == b.color
  {
    var rest := RemovePerson([a, b], a.id);
    assert b in rest && a !in rest;
    assert rest == Filter([a, b], (p: Person) => p.id != a.id);
    assert rest == [b];
  }

  /** The name input of the component. */
  class PeopleForm {
    var newPersonName: string

    constructor ()
      ensures newPersonName == ""
    {
      newPersonName := "";
    }

    /**
     * The add button or the Enter key: hands on the list `AddPerson` computes,
     * and clears the input unless the name was blank.
     */
    method Submit(people: seq<Person>, now: nat) returns (updated: seq<Person>)
      modifies this
      ensures updated == AddPerson(people, old(newPersonName), now)
      ensures newPersonName == if IsBlank(old(newPersonName)) then old(newPersonName) else ""
    {
      if IsBlank(newPersonName) {
        return people;
      }
      updated := AddPerson(people, newPersonName, now);
      newPersonName := "";
    }
  }
}
