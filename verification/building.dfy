/** The records shared by the multi-room model: the sides of a building, the
    places an aperture can join, and the aperture itself. */
module Building {
  /** `Side`: a side of the building, or of a room, on which an aperture sits. */
  datatype Side = Unknown | Front | Back | Left | Right | Upward | Downward

  /** A room, known by its index in the building's room list, or the outside
      beyond one side of the building. */
  datatype Place = Room(index: nat) | Outside(side: Side)

  /** `Aperture`: an opening from the room `origin` to a room or an outside
      side `destination` (the fields the factory calls `room1` and `room2`).
      Apertures are compared by identity in the source; `id` (the row the
      aperture was built from) stands for that identity. */
  datatype Aperture = Aperture(id: nat, origin: nat, destination: Place, area: real, sideOfRoom1: Side)

  /** `type(a.destination) is Side`: the aperture leads outdoors. */
  predicate IsOutdoor(a: Aperture)
  {
    a.destination.Outside?
  }
}
