/** The address of a subscription of the MQTT client, by which other tables refer to it. */
module Handles {
  type Handle = nat
}
