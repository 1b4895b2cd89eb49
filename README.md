# Rocket-Rockstar: mission and crew model

Rocket-Rockstar is an iOS app that shows a catalog of Apollo missions and their
crews. This project models the two parts of it that hold logic rather than
layout:

- **Crew resolution.** The mission screen's initializer
  (`MissionView.init(mission:astronauts:)`) keeps the mission it is given. It
  maps the mission's ordered crew entries (`CrewRole`: a name and a role) to
  crew members (`CrewMemeberModel`: the role and an `AstronautModel`). For each
  entry it looks the entry's `name` up as a key of the astronaut dictionary. The
  first entry whose name is not a key stops the app with `fatalError("Missing <name>")`.
  Here that stop is a `Failure(Missing(name))` result (`MissionViews`).
- **Mission display attributes** (`Missions`). `displayName` is `"apollo "`
  followed by the id, `image` is `"apollo"` followed by the id, and
  `formattedLaunchDate` is the formatted launch date, or `"N/A"` when there is
  none. It is typed as an optional string but is never nil.

Modules:

- `Wrappers`: `Option` (Swift's optional, with `??` as `GetOr`) and `Result`.
- `Decimal`: how Swift's string interpolation prints an `Int`, plus a parser
  that reads the text back. The round trip makes the rendering injective.
- `Astronauts`: the `Astronaut` and `CrewMember` records.
- `Missions`: `CrewRole`, `Mission`, and the three derived attributes. `Date`
  is an opaque type. The platform's date formatter is the function parameter
  `format`.
- `MissionViews`: crew resolution, the stored screen state, and the lemmas
  about them.

Crew entries are joined on the dictionary key, not on the astronaut's `name`
field: the preview keys `"armstrong"` to a record whose `name` is
`"Neil Armstrong"` (`MissionViews.JoinIsOnRosterKey`). `formattedLaunchDate` is
typed as an optional string but is always present
(`Missions.FormattedLaunchDate`).

## Model

| member | source | states |
|---|---|---|
| `Decimal.IntToDecimal` | Rocket-Rockstar/Model/MissionModel.swift:22-28 | The rendering of an `Int` starts with '-' exactly when the number is negative. It is in canonical form: digits with no leading zero, after the sign if there is one. `ParseInt` reads it back to the same number. |
| `Decimal.CanonicalRoundTrip` | Rocket-Rockstar/Model/MissionModel.swift:22-28 | Every canonical string is the rendering of the number it reads back as. So the rendering of a number is the only canonical string for that number. |
| `Decimal.IntToDecimalInjective` | Rocket-Rockstar/Model/MissionModel.swift:22-28 | Two integers with the same rendering are equal. |
| `Missions.DisplayName` | Rocket-Rockstar/Model/MissionModel.swift:22-24 | The title starts with the 7 characters "apollo ". The rest is canonical and reads back as the mission id, so it is the id's rendering. |
| `Missions.Image` | Rocket-Rockstar/Model/MissionModel.swift:26-28 | The image key starts with the 6 characters "apollo", with no space. The rest is canonical and reads back as the mission id, so it is the id's rendering. |
| `Missions.DisplayNameIsSpacedImage` | Rocket-Rockstar/Model/MissionModel.swift:22-28 | The title is the image key with a single space inserted after its 6-character prefix. |
| `Missions.DistinctIdsDistinctNames` | Rocket-Rockstar/Model/MissionModel.swift:17-28 | Missions with different ids have different image keys and different titles. |
| `Missions.FormattedLaunchDate` | Rocket-Rockstar/Model/MissionModel.swift:30-32 | The result is never nil. A missing launch date gives exactly "N/A". A present date gives exactly the formatter's output for that date, with no "N/A" substituted. |
| `MissionViews.CrewError.Message` | Rocket-Rockstar/View/MissionView.swift:23 | The fatal message is "Missing " followed by the missing name, which can be read back from it. |
| `MissionViews.ResolveCrew` | Rocket-Rockstar/View/MissionView.swift:18-25 | Resolution succeeds exactly when every crew name is a roster key. On success the result has as many entries as the crew, in order. Entry i has crew entry i's role and the record stored under crew entry i's name as the dictionary key. On failure the reported name is that of the first crew entry, in list order, whose name is not a key. |
| `MissionViews.NewMissionView` | Rocket-Rockstar/View/MissionView.swift:15-26 | The initializer succeeds exactly when every crew name is a roster key. The stored mission equals the input mission. The stored crew is the crew resolution's result. On failure the error is the crew resolution's error. |
| `MissionViews.FirstMissingUnique` | Rocket-Rockstar/View/MissionView.swift:18-24 | At most one crew entry is the first missing one, so the reported name is determined by the crew and the roster. |
| `MissionViews.EmptyCrewResolves` | Rocket-Rockstar/View/MissionView.swift:18 | An empty crew list resolves to an empty crew for any roster. |
| `MissionViews.ResolveCrewAppend` | Rocket-Rockstar/View/MissionView.swift:18-25 | Resolving two concatenated crew lists resolves the first list, then the second, and concatenates the results. The first failure from the left is reported. |
| `MissionViews.ResolveCrewRosterGrowth` | Rocket-Rockstar/View/MissionView.swift:20-21 | A resolution that succeeds against a roster gives the same crew against any larger roster that agrees on the existing keys. |
| `MissionViews.JoinIsOnRosterKey` | Rocket-Rockstar/View/MissionView.swift:66-73 | With the preview's roster, the entry "armstrong" resolves to the record named "Neil Armstrong". An entry spelled "Neil Armstrong" is reported missing. |
| `MissionViews.UnknownCrewFails` | Rocket-Rockstar/View/MissionView.swift:20-24 | A crew of "armstrong" then "aldrin", against a roster holding only "armstrong", fails and names "aldrin". |

## Left out

- The SwiftUI `body` of every view and the previews (ContentView.swift, MissionView.swift:27-62, MissionCardView.swift, AstronautDetails.swift) are left out. They are layout and rendering only. The preview's data is used in `MissionViews.JoinIsOnRosterKey`.
- The decorative starfield and theme animations (SpaceBackgrondView.swift, SpaceThemeView.swift) are left out. They are random numbers, floating point and screen geometry.
- `Bundle.decode` (Bundle-Decodable.swift) is left out. It is bundle file I/O plus Foundation's JSON decoder and `yyyy-MM-dd` date formatter, none of which are visible here. Every failure in it is a `fatalError`. The model starts from records that have already been decoded.
- `Date.formatted(date: .abbreviated, time: .omitted)` is a locale-dependent platform call. It is the parameter `format` of `Missions.FormattedLaunchDate`, and its output is not constrained.
- `String.capitalized`, which is used only for the navigation title, is left out.
- `Decimal.IntToDecimal`: Swift's `Int` is 64 bits wide, but the model renders unbounded integers. Every 64-bit value renders the same way in both.
- Swift's `fatalError` stops the process. The model returns it as a `Failure` value, so what happens after the stop is not modelled.
- A roster with duplicate names in its data file is left out. The model receives the roster as an already-built dictionary.
- MissionViews.ResolveCrew: crew names and roster keys are compared as sequences of code points. Swift's `String` equality and `Dictionary` lookup use Unicode canonical equivalence, so a name spelled with a precomposed "é" finds a key spelled with "e" plus a combining accent in the app but is reported missing here. The model matches the app only when crew names and roster keys use the same Unicode normalization, as all-ASCII names do.
- MissionViews.NewMissionView: its "succeeds exactly when every crew name is a roster key" rests on the same code-point comparison as `MissionViews.ResolveCrew`, with the same limit for canonically equivalent but differently encoded names.
