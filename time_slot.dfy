// A bookable (or not) slot as the availability services return it.
module TimeSlots {
  datatype SlotStatus = AVAILABLE | UNAVAILABLE

  /** `start` and `end` are instants; the service renders them as ISO strings. */
  datatype TimeSlot = TimeSlot(start: int, end: int, status: SlotStatus)
}
