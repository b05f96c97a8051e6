/** Identifiers and values that travel between the server and its clients. */
module Protocol {
  /** Ids are opaque strings: socket ids for peers, engine-generated ids for the rest. */
  type RoomId = string
  type PeerId = string
  type TransportId = string
  type ProducerId = string
  type ConsumerId = string

  datatype Kind = Audio | Video
}
