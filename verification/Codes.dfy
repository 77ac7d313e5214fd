/** Result codes of the public C header. */
module Codes {
  const OK := 0
  const ERR_INVALID_ARGUMENT := -2
  const ERR_TIMEOUT := -5
  const ERR_DNS := -6
  const ERR_CONNECT := -7
  const ERR_TLS := -8
  const ERR_PROTOCOL := -9
  const ERR_CANCELED := -10
  const ERR_DEGRADED := -11
  const ERR_UNSUPPORTED := -13
  const ERR_BUFFER_TOO_SMALL := -14
  const ERR_INTERNAL := -100

  /** The one test of the retry loop and of the protocol fallback. */
  predicate IsRetryable(code: int) {
    code == ERR_DNS || code == ERR_CONNECT || code == ERR_TIMEOUT || code == ERR_PROTOCOL
    || code == ERR_UNSUPPORTED || code == ERR_DEGRADED
  }
}
