/** The size caps of the protocol, in bytes. */
module Limits {

  const MAX_COMMAND_BODY_BYTES: nat := 256 * 1024
  const MAX_MESSAGE_BODY_BYTES: nat := 64 * 1024
}
