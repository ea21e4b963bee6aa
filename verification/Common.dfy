/** What several of the modules share. */
module Common {

  type byte = x: int | 0 <= x < 256

  /** A key of etcd; the paths of keepalives are keys. */
  type Key = seq<byte>

  datatype Option<+T> = None | Some(value: T)

  /** What happens when a request has to be made: `create_request_*` returns null, `start` fails, or it runs. */
  datatype Launch = CreateFailed | StartFailed | Started
}
