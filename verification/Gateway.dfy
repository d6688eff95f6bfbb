// The events the server passes on, and how long a subscriber's channel is.
module Gateway {

  datatype Payload = Decoded(raw: string) | Zero | Unknown(eventType: string, raw: string)

  datatype GatewayEvent = GatewayEvent(typ: string, payload: Payload)

  const RPC_CAPACITY: nat := 128
  const NOOP_CAPACITY: nat := 32
}
