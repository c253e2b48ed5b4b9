/** Records shared by the portfolio's components (data/types.ts). */
module Types {

  /** An optional value: `null`/`undefined` in the source become `None`. */
  datatype Option<T> = None | Some(value: T)

  /**
   * One decorative particle of the cursor trail. Coordinates, velocity, life and
   * size are JavaScript numbers in the source; they are exact reals here.
   */
  datatype Particle = Particle(
    id: nat,
    x: real,
    y: real,
    vx: real,
    vy: real,
    life: real,
    size: real
  )

  /** A portfolio project record (only `id` takes part in any behaviour). */
  datatype Project = Project(
    id: string,
    name: string,
    role: string,
    year: string,
    tags: seq<string>,
    description: string,
    approach: string,
    impact: string,
    tech: seq<string>,
    gradient: string
  )
}
