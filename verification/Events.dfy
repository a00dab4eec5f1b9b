/** The events that the bus of internal/nervous carries, reduced to what its queues look at. */
module Events {
  /** `sequenceId` is the Lamport stamp. */
  datatype Event = Event(sequenceId: nat, eventType: string, payload: string)
}
