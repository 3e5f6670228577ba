/** The wire protocol shared by the server and the bridge daemon. */
module Frames {

  import opened Wrappers

  /** JSON payloads stay opaque: nothing here looks inside them. */
  type Json = string

  datatype RpcError = RpcError(code: string, message: string)

  /** The two frame types of a remote call; `id` correlates a response with its request. */
  datatype Frame =
    | Req(id: nat, name: string, params: Json)
    | Resp(id: nat, result: Option<Json>, error: Option<RpcError>)
}
