/** A Go `time.Time`, kept opaque: the model only copies timestamps. */
module GoTime {
  datatype Time = Time(instant: int)

  /** Go's zero `time.Time` (January 1, year 1, UTC), the value of a
      timestamp field no one has set. `instant` is an opaque ordinal, not a
      Unix time. */
  const Zero: Time := Time(0)
}
