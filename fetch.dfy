/** The failure of an HTTP call, shared by the Stellar and Ethereum watchers. */
module Fetch {
  /** Any error thrown by an HTTP call (transport failure, timeout, non-2xx status). */
  datatype FetchError = FetchError(message: string)
}
