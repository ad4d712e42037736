/** The project settings the modelled code reads (app_config.h). Times are
    in milliseconds; the model takes one scheduler tick per millisecond, so
    `pdMS_TO_TICKS` is the identity. */
module AppConfig {

  /** Password the serial protocol's `auth` op compares against. */
  const SERIAL_ACCESS_PASSWORD: seq<char> := "1234"

  /** Minimum spacing of serial telemetry lines. */
  const SERIAL_TELE_PERIOD_MS: nat := 200

  /** QoS of telemetry publishes; above 0 the publish waits for the ack. */
  const MQTT_QOS: nat := 1

  /** How long a QoS > 0 publish waits for its ack. */
  const MQTT_ACK_TIMEOUT_MS: nat := 2000

  /** First segment of both MQTT topics. */
  const TOPIC_PREFIX: seq<char> := "embarcatech"
}
