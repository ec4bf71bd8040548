/** Values shared by every part of the model: Go's int64, error returns and
    the per-pass configuration snapshot. */
module Common {

  /** Go's int64: record TTLs, record ids, timeouts and Unix timestamps. */
  newtype int64 = x: int | -0x8000_0000_0000_0000 <= x < 0x8000_0000_0000_0000

  datatype Option<T> = None | Some(value: T)

  /** An error value coming from a collaborator (the cluster API, the OVH API,
      the address lookup); its text is opaque to the model. */
  datatype Error = Error(message: string)

  datatype Result<T> = Ok(value: T) | Err(error: Error)

  /** The configuration fields the reconciliation reads: the managed zone
      (OVH_DNS_DOMAIN) and the record TTL (OVH_DNS_TTL), which doubles as the
      staleness bound of the address cache. */
  datatype Config = Config(ovhDNSDomain: string, ovhDNSTTL: int64)
}
