// Results of the network components.
module Network {
  datatype KosyncResult =
    | Ok | NotFound | Invalid | AuthFailed | HttpError | TransportError | BadJson | BadProtocol | NoMemory

  /** The other error codes of the clock and of the resolver are carried as numbers. */
  datatype TimeResult = TimeOk | TimeError(code: nat)
  datatype DnsResult = DnsOk | DnsError(code: nat)

  const TIME_INVALID := TimeError(1)
  const DNS_INVALID := DnsError(1)
  const DNS_NO_ADDRESS := DnsError(12)
}
