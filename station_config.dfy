/** Compile-time configuration of the station firmware (the #defines of main/main.c). */
module StationConfig {

  /** WIFI_SSID: the one access point the station joins. */
  const WifiSsid: string := "420C"

  /** WIFI_MAXIMUM_RETRY: reconnects issued on disconnect before FAIL is latched. */
  const MaximumRetry: int := 5

  /** The cooldown app_main sleeps when a rescan does not list the target, in milliseconds. */
  const TargetAbsentDelayMs: nat := 5000
}
