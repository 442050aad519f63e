/** The records and enumerations the Wi-Fi management page works on. */
module WiFiTypes {

  datatype Option<+T> = None | Some(value: T)

  /** The five security kinds a discovered network can advertise. */
  datatype Security = Open | Wep | Wpa | Wpa2 | Wpa3

  /** One entry of the list of available networks. */
  datatype WiFiNetwork = WiFiNetwork(
    ssid: string,
    signal: int,
    security: Security,
    connected: bool,
    saved: bool
  )

  /** One remembered network profile. `password` holds what is stored, never the plaintext. */
  datatype SavedNetwork = SavedNetwork(
    id: string,
    ssid: string,
    password: string,
    autoConnect: bool,
    lastConnected: string
  )

  /** The four values the connection status can take. */
  datatype ConnectionStatus = Connected | Connecting | Disconnected | Failed

  /** The three bands offered by the frequency selector. */
  datatype Frequency = GHz2_4 | GHz5 | Auto

  /** The global radio settings edited on the page. */
  datatype WiFiSettings = WiFiSettings(
    autoConnect: bool,
    showHiddenNetworks: bool,
    powerSaving: bool,
    frequency: Frequency
  )
}
