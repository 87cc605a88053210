/** Durable data shared by the API and the game server: internal/domain/models.go. */
module Domain {
  /** Coordinates are real numbers; float64 rounding is not modelled. */
  datatype Vec2 = Vec2(x: real, y: real)

  datatype Character = Character(id: string, userID: string, position: Vec2)

  /** The character store: the record for an ID, when there is one. */
  type Characters = map<string, Character>

  /** What the primary key gives: a record is found under exactly its own ID. */
  ghost predicate KeyedByID(chars: Characters) {
    forall id | id in chars :: chars[id].id == id
  }
}
