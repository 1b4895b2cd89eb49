/** The mission screen's initializer: it keeps the mission and resolves the
    mission's crew entries against the astronaut roster. The roster is keyed by
    the dictionary key the data file uses (for example "armstrong"), not by the
    astronaut's `name` field ("Neil Armstrong"). */
module MissionViews {
  import opened Wrappers
  import opened Astronauts
  import opened Missions

  /** The failure that the app reports with `fatalError`. */
  datatype CrewError = Missing(name: string) {

    /** The text handed to `fatalError`. */
    function Message(): (r: string)
      ensures |r| == 8 + |name| && r[..8] == "Missing " && r[8..] == name
    {
      "Missing " + name
    }
  }

  /** What the mission screen stores once initialised. */
  datatype MissionView = MissionView(mission: Mission, crew: seq<CrewMember>)

  /** Every crew entry's name is a key of the roster. */
  predicate AllCrewKnown(crew: seq<CrewRole>, astronauts: map<string, Astronaut>) {
    forall j :: 0 <= j < |crew| ==> crew[j].name in astronauts
  }

  /** Entry `k` is the first, in list order, whose name is not a roster key. */
  predicate IsFirstMissing(crew: seq<CrewRole>, astronauts: map<string, Astronaut>, k: int) {
    && 0 <= k < |crew|
    && crew[k].name !in astronauts
    && forall j :: 0 <= j < k ==> crew[j].name in astronauts
  }

  /** The `map` over the crew entries, left to right: each entry becomes a
      crew member holding its role and the roster record under its name; the
      first entry whose name is absent stops the whole resolution. */
  function ResolveCrew(crew: seq<CrewRole>, astronauts: map<string, Astronaut>): (r: Result<seq<CrewMember>, CrewError>)
    ensures r.Success? <==> AllCrewKnown(crew, astronauts)
    ensures r.Success? ==> |r.value| == |crew|
    ensures r.Success? ==> forall i :: 0 <= i < |crew| ==>
      r.value[i].role == crew[i].role && r.value[i].astronaut == astronauts[crew[i].name]
    ensures r.Failure? ==> exists k :: IsFirstMissing(crew, astronauts, k) && r.error == Missing(crew[k].name)
    decreases |crew|
  {
    if crew == [] then
      Success([])
    else if crew[0].name !in astronauts then
      assert IsFirstMissing(crew, astronauts, 0);
      Failure(Missing(crew[0].name))
    else
      match ResolveCrew(crew[1..], astronauts)
      case Failure(e) =>
        ghost var k :| IsFirstMissing(crew[1..], astronauts, k) && e == Missing(crew[1..][k].name);
        assert IsFirstMissing(crew, astronauts, k + 1);
        Failure(e)
      case Success(rest) =>
        Success([CrewMember(crew[0].role, astronauts[crew[0].name])] + rest)
  }

  /** `MissionView.init(mission:astronauts:)`: the screen keeps the mission
      unchanged and the resolved crew, or fails as `ResolveCrew` does. */
  function NewMissionView(mission: Mission, astronauts: map<string, Astronaut>): (r: Result<MissionView, CrewError>)
    ensures r.Success? <==> AllCrewKnown(mission.crew, astronauts)
    ensures r.Success? ==> r.value.mission == mission && ResolveCrew(mission.crew, astronauts) == Success(r.value.crew)
    ensures r.Failure? ==> ResolveCrew(mission.crew, astronauts) == Failure(r.error)
  {
    match ResolveCrew(mission.crew, astronauts)
    case Success(members) => Success(MissionView(mission, members))
    case Failure(e) => Failure(e)
  }

  /** At most one entry is the first missing one, so the reported name is
      determined by the crew list and the roster. */
  lemma FirstMissingUnique(crew: seq<CrewRole>, astronauts: map<string, Astronaut>, k1: int, k2: int)
    requires IsFirstMissing(crew, astronauts, k1) && IsFirstMissing(crew, astronauts, k2)
    ensures k1 == k2
  {
  }

  /** An empty crew list resolves to an empty crew for any roster. */
  lemma EmptyCrewResolves(astronauts: map<string, Astronaut>)
    ensures ResolveCrew([], astronauts) == Success([])
  {
  }

  /** Resolving a concatenation resolves the first part, then the second; the
      first failure met, from the left, is the one reported. */
  lemma {:induction false} ResolveCrewAppend(c1: seq<CrewRole>, c2: seq<CrewRole>, astronauts: map<string, Astronaut>)
    ensures ResolveCrew(c1 + c2, astronauts) ==
      match ResolveCrew(c1, astronauts)
      case Failure(e) => Failure(e)
      case Success(x) =>
        match ResolveCrew(c2, astronauts)
        case Failure(e) => Failure(e)
        case Success(y) => Success(x + y)
    decreases |c1|
  {
    if c1 == [] {
      assert c1 + c2 == c2;
      match ResolveCrew(c2, astronauts)
      case Failure(e) =>
      case Success(y) => assert [] + y == y;
    } else {
      assert (c1 + c2)[0] == c1[0];
      assert (c1 + c2)[1..] == c1[1..] + c2;
      ResolveCrewAppend(c1[1..], c2, astronauts);
      if c1[0].name in astronauts {
        var head := [CrewMember(c1[0].role, astronauts[c1[0].name])];
        match ResolveCrew(c1[1..], astronauts)
        case Failure(e) =>
        case Success(x) =>
          match ResolveCrew(c2, astronauts)
          case Failure(e) =>
          case Success(y) =>
            assert head + (x + y) == (head + x) + y;
      }
    }
  }

  /** Adding records to the roster does not change a resolution that already
      succeeded. */
  lemma ResolveCrewRosterGrowth(crew: seq<CrewRole>, small: map<string, Astronaut>, big: map<string, Astronaut>)
    requires forall key :: key in small ==> key in big && big[key] == small[key]
    requires ResolveCrew(crew, small).Success?
    ensures ResolveCrew(crew, big) == ResolveCrew(crew, small)
  {
  }

  /** The preview's data: the roster key "armstrong" holds the record named
      "Neil Armstrong". The crew entry "armstrong" resolves through the key,
      while an entry spelled "Neil Armstrong" is missing. */
  lemma JoinIsOnRosterKey()
    ensures var neil := Astronaut("armstrong", "Neil Armstrong", "First person on the Moon");
      var roster := map["armstrong" := neil];
      && ResolveCrew([CrewRole("armstrong", "Commander")], roster) == Success([CrewMember("Commander", neil)])
      && ResolveCrew([CrewRole("Neil Armstrong", "Commander")], roster) == Failure(Missing("Neil Armstrong"))
  {
    var neil := Astronaut("armstrong", "Neil Armstrong", "First person on the Moon");
    var entry := [CrewRole("armstrong", "Commander")];
    assert entry[1..] == [];
    assert [CrewMember("Commander", neil)] + [] == [CrewMember("Commander", neil)];
  }

  /** A crew naming "aldrin" against a roster without that key fails and names
      "aldrin", even when a known entry comes first. */
  lemma UnknownCrewFails()
    ensures var neil := Astronaut("armstrong", "Neil Armstrong", "First person on the Moon");
      var crew := [CrewRole("armstrong", "Commander"), CrewRole("aldrin", "Lunar Module Pilot")];
      ResolveCrew(crew, map["armstrong" := neil]) == Failure(Missing("aldrin"))
  {
  }
}
