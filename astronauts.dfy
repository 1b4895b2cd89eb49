/** The astronaut records of the roster and the crew entries a mission screen
    shows. All fields are immutable, so both are values. */
module Astronauts {

  /** One roster record. `id` names the astronaut's picture; `name` is the
      human-readable name and plays no part in crew resolution. */
  datatype Astronaut = Astronaut(id: string, name: string, description: string)

  /** A crew entry after resolution: the role label and the roster record. */
  datatype CrewMember = CrewMember(role: string, astronaut: Astronaut)
}
