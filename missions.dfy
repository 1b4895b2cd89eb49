/** Missions and the display attributes derived from them. */
module Missions {
  import opened Wrappers
  import Decimal

  /** A launch instant as the platform's `Date` holds it; the model never looks
      inside one, it only hands it to the date formatter. */
  type Date

  /** One crew entry of a mission, before resolution: the roster key of the
      astronaut and the role label. */
  datatype CrewRole = CrewRole(name: string, role: string)

  /** A mission record. `crew` is in display order. */
  datatype Mission = Mission(id: int, launchDate: Option<Date>, crew: seq<CrewRole>, description: string)

  /** The title shown for a mission: "apollo 11" for mission 11. Everything
      after the seven-character prefix "apollo " is in canonical decimal form
      and reads back as the id, which pins the title down (see
      `Decimal.CanonicalRoundTrip`). */
  function DisplayName(m: Mission): (r: string)
    ensures |r| > 7 && r[..7] == "apollo " && Decimal.IsCanonical(r[7..])
    ensures Decimal.ParseInt(r[7..]) == Some(m.id)
  {
    var r := "apollo " + Decimal.IntToDecimal(m.id);
    assert r[7..] == Decimal.IntToDecimal(m.id);
    r
  }

  /** The image asset key of a mission: "apollo11" for mission 11, with no
      space. Everything after the six-character prefix "apollo" is in canonical
      decimal form and reads back as the id. */
  function Image(m: Mission): (r: string)
    ensures |r| > 6 && r[..6] == "apollo" && Decimal.IsCanonical(r[6..])
    ensures Decimal.ParseInt(r[6..]) == Some(m.id)
  {
    var r := "apollo" + Decimal.IntToDecimal(m.id);
    assert r[6..] == Decimal.IntToDecimal(m.id);
    r
  }

  /** The title is the image key with one space put after "apollo". */
  lemma DisplayNameIsSpacedImage(m: Mission)
    ensures DisplayName(m) == Image(m)[..6] + " " + Image(m)[6..]
  {
  }

  /** Missions with different ids get different image keys and different titles. */
  lemma DistinctIdsDistinctNames(m1: Mission, m2: Mission)
    requires m1.id != m2.id
    ensures Image(m1) != Image(m2)
    ensures DisplayName(m1) != DisplayName(m2)
  {
  }

  /** The launch date as shown on the mission card and the mission screen:
      optional chaining on the date, then `?? "N/A"`. The result is typed as
      optional but is never nil; the platform's abbreviated date formatter is
      the parameter `format`. */
  function FormattedLaunchDate(m: Mission, format: Date -> string): (r: Option<string>)
    ensures r.Some?
    ensures m.launchDate.None? ==> r.value == "N/A"
    ensures m.launchDate.Some? ==> r.value == format(m.launchDate.value)
  {
    var chained := match m.launchDate
      case Some(d) => Some(format(d))
      case None => None;
    Some(chained.GetOr("N/A"))
  }
}
