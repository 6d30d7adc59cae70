/** The realtime delay event every stage of the pipeline consumes (proto/delay_event.proto). */
module Events {

  datatype EventType = ArrivalDelay | DepartureDelay | TripCancelled | SkipStop

  datatype DelayEvent = DelayEvent(
    agency: string, trip: string, route: string, stop: string,
    delay: int, observedAt: int, scheduledArrival: int, predictedArrival: int, kind: EventType)
}
