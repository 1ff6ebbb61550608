/** The request/response record of the airline service (models.py). */
module Models {

  /** One flight: its number (an identifier the service never checks for
      uniqueness), its seat capacity and its estimated duration in minutes.
      No range check is made on either integer. */
  datatype Flight = Flight(flightNum: string, capacity: int, estimatedFlightDuration: int)
}
