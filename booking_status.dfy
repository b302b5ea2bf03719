// The six booking states.
module BookingStatuses {
  datatype Status = PENDING | HELD | CONFIRMED | CANCELLED | COMPLETED | NO_SHOW
  {
    /** The status string stored in the database and shown in messages. */
    function Name(): string
    {
      match this
      case PENDING => "PENDING"
      case HELD => "HELD"
      case CONFIRMED => "CONFIRMED"
      case CANCELLED => "CANCELLED"
      case COMPLETED => "COMPLETED"
      case NO_SHOW => "NO_SHOW"
    }

    /** The states from which the entity allows no further transition. */
    predicate IsTerminal()
    {
      this == CANCELLED || this == COMPLETED || this == NO_SHOW
    }
  }
}
