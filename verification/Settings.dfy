/** The client's configuration, and the bytes it makes of entries (src/client.rs). */
module Settings {
  import opened Options
  import opened Proto
  import opened Protocol
  import Server

  /** Durations in nanoseconds. */
  datatype Settings = Settings(
    appName: seq<byte>, bufferSize: nat, flushOnClose: bool, flushTimeout: nat, connectTimeout: nat,
    address: Address, serialize: Serializer)
  {
    function Frame(r: Record): Option<seq<byte>> {
      match SendablePayload(serialize, r)
      case None => None
      case Some(payload) => Some(Encode(Proto.Frame(CMD_LOG, payload)))
    }

    function ToConfig(): Config {
      Config(bufferSize, flushOnClose, flushTimeout, connectTimeout, address,
             Encode(Server.BannerFrame(appName)), r => Frame(r))
    }
  }
}
