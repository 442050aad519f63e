/**
 * The state of the Wi-Fi management page and its handlers. Each field is one
 * piece of component state; each method is one handler. The parts the page
 * runs after a timer (scan completion, connection outcome, failure cooldown)
 * are separate methods that take the random draws, the outcome, the new id
 * and the timestamp as parameters.
 */
module WiFiPage {
  import opened WiFiTypes
  import opened WiFiNetworks
  import opened WiFiSaved
  import opened WiFiSettingsOps
  import WiFiDisplay

  /** What a connect request leaves scheduled: the SSID and password its outcome will use. */
  datatype Attempt = Attempt(ssid: string, password: string)

  /** What the connect button does for an SSID. */
  datatype ConnectAction = ConnectDirectly | AskForPassword

  /**
   * The first listed network with that SSID decides: an open one is joined
   * at once, anything else (or an SSID that is not listed) needs a password.
   */
  function ConnectActionFor(ns: seq<WiFiNetwork>, ssid: string): (a: ConnectAction)
    ensures a == ConnectDirectly <==> exists i :: IsFirstMatch(ns, ssid, i) && ns[i].security == Open
  {
    var found := FindNetwork(ns, ssid);
    if found.Some? && found.value.security == Open then ConnectDirectly
    else
      assert forall i :: IsFirstMatch(ns, ssid, i) ==> ns[i].security != Open by {
        forall i | IsFirstMatch(ns, ssid, i) ensures ns[i].security != Open {
          var j :| IsFirstMatch(ns, ssid, j) && ns[j] == found.value;
          FirstMatchUnique(ns, ssid, i, j);
        }
      }
      AskForPassword
  }

  /** A network is joined without a password exactly when its list entry shows the open lock. */
  lemma ConnectActionMatchesLockIcon(ns: seq<WiFiNetwork>, ssid: string, i: int)
    requires IsFirstMatch(ns, ssid, i)
    ensures ConnectActionFor(ns, ssid) == ConnectDirectly <==> !WiFiDisplay.ShowsLock(ns[i].security)
  {
    if ConnectActionFor(ns, ssid) == ConnectDirectly {
      var j :| IsFirstMatch(ns, ssid, j) && ns[j].security == Open;
      FirstMatchUnique(ns, ssid, i, j);
    }
  }

  /** An SSID that is not listed always asks for a password. */
  lemma UnlistedAsksForPassword(ns: seq<WiFiNetwork>, ssid: string)
    requires forall i :: 0 <= i < |ns| ==> ns[i].ssid != ssid
    ensures ConnectActionFor(ns, ssid) == AskForPassword
  {
  }

  const InitialNetworks: seq<WiFiNetwork> := [
    WiFiNetwork("МОЈА_БАШТА_ГЛАВНА", 95, Wpa2, true, true),
    WiFiNetwork("Dom_WiFi_5G", 78, Wpa3, false, true),
    WiFiNetwork("Komšija_Internet", 45, Wpa2, false, false),
    WiFiNetwork("Guest_Network", 32, Open, false, false),
    WiFiNetwork("ESP32_Hotspot", 88, Wpa2, false, false)
  ]

  const InitialSavedNetworks: seq<SavedNetwork> := [
    SavedNetwork("1", "МОЈА_БАШТА_ГЛАВНА", PasswordMask, true, "2024-12-21 14:30"),
    SavedNetwork("2", "Dom_WiFi_5G", PasswordMask, false, "2024-12-20 09:15")
  ]

  const InitialSettings: WiFiSettings := WiFiSettings(true, false, false, GHz2_4)

  /**
   * The page starts consistent: one network is connected, the saved SSIDs are
   * unique, and each listed network's `saved` flag says whether its SSID is saved.
   */
  lemma InitialStateConsistent()
    ensures ConnectedAgree(InitialNetworks)
    ensures forall i :: 0 <= i < |InitialNetworks| ==>
      (InitialNetworks[i].connected <==> InitialNetworks[i].ssid == "МОЈА_БАШТА_ГЛАВНА")
    ensures SsidsUnique(InitialSavedNetworks)
    ensures forall i :: 0 <= i < |InitialNetworks| ==>
      InitialNetworks[i].saved == HasSavedSsid(InitialSavedNetworks, InitialNetworks[i].ssid)
  {
    var ns := InitialNetworks;
    var sv := InitialSavedNetworks;
    assert ns[0].ssid == sv[0].ssid && ns[1].ssid == sv[1].ssid;
    assert ns[2].ssid != sv[0].ssid && ns[2].ssid != sv[1].ssid;
    assert ns[3].ssid != sv[0].ssid && ns[3].ssid != sv[1].ssid;
    assert ns[4].ssid != sv[0].ssid && ns[4].ssid != sv[1].ssid;
    assert ns[1].ssid != ns[0].ssid;
  }

  class WiFiManagementPage {
    var isScanning: bool
    var selectedNetwork: Option<string>
    var password: string
    var showConnectModal: bool
    var connectionStatus: ConnectionStatus
    var availableNetworks: seq<WiFiNetwork>
    var savedNetworks: seq<SavedNetwork>
    var wifiSettings: WiFiSettings

    /**
     * The credential dialog is only open for a chosen SSID, and all networks
     * shown as connected carry the same SSID.
     */
    ghost predicate Valid()
      reads this
    {
      (showConnectModal ==> selectedNetwork.Some?) &&
      ConnectedAgree(availableNetworks)
    }

    /** The state the page starts in. */
    constructor ()
      ensures Valid()
      ensures !isScanning && selectedNetwork == None && password == "" && !showConnectModal
      ensures connectionStatus == Connected
      ensures availableNetworks == InitialNetworks && savedNetworks == InitialSavedNetworks
      ensures wifiSettings == InitialSettings
    {
      isScanning := false;
      selectedNetwork := None;
      password := "";
      showConnectModal := false;
      connectionStatus := Connected;
      availableNetworks := InitialNetworks;
      savedNetworks := InitialSavedNetworks;
      wifiSettings := InitialSettings;
      InitialStateConsistent();
    }

    /** Scan request: raises the scanning flag; the rest happens in `ResolveScan`. */
    method HandleScan()
      requires Valid()
      modifies this`isScanning
      ensures Valid() && isScanning
    {
      isScanning := true;
    }

    /**
     * Scan completion: lowers the scanning flag and appends exactly one new
     * WPA2 network, not connected and not saved, after the existing entries.
     */
    method ResolveScan(rSuffix: real, rSignal: real)
      requires Valid()
      requires 0.0 <= rSuffix < 1.0 && 0.0 <= rSignal < 1.0
      modifies this`isScanning, this`availableNetworks
      ensures Valid() && !isScanning
      ensures availableNetworks == old(availableNetworks) + [ScannedNetwork(rSuffix, rSignal)]
    {
      isScanning := false;
      var found := ScannedNetwork(rSuffix, rSignal);
      ConnectedAgreeAppend(availableNetworks, found);
      availableNetworks := availableNetworks + [found];
    }

    /**
     * Request step of a connection: the status becomes connecting, the dialog
     * closes, and the typed password and the chosen SSID are cleared. The
     * returned attempt carries what the outcome step will use.
     */
    method ConnectToNetwork(ssid: string, pwd: string) returns (pending: Attempt)
      requires Valid()
      modifies this`connectionStatus, this`showConnectModal, this`password, this`selectedNetwork
      ensures Valid()
      ensures connectionStatus == Connecting && !showConnectModal
      ensures password == "" && selectedNetwork == None
      ensures pending == Attempt(ssid, pwd)
    {
      connectionStatus := Connecting;
      showConnectModal := false;
      pending := Attempt(ssid, pwd);
      password := "";
      selectedNetwork := None;
    }

    /**
     * The connect button of a listed network. An open network is joined at
     * once with an empty password; otherwise the credential dialog opens for
     * the SSID and the connection status is left alone.
     */
    method HandleConnect(ssid: string) returns (pending: Option<Attempt>)
      requires Valid()
      modifies this`connectionStatus, this`showConnectModal, this`password, this`selectedNetwork
      ensures Valid()
      ensures pending.Some? <==> ConnectActionFor(old(availableNetworks), ssid) == ConnectDirectly
      ensures pending.Some? ==>
        pending.value == Attempt(ssid, "") &&
        connectionStatus == Connecting && !showConnectModal &&
        password == "" && selectedNetwork == None
      ensures pending.None? ==>
        showConnectModal && selectedNetwork == Some(ssid) &&
        connectionStatus == old(connectionStatus) && password == old(password)
    {
      selectedNetwork := Some(ssid);
      var network := FindNetwork(availableNetworks, ssid);
      if network.Some? && network.value.security == Open {
        var attempt := ConnectToNetwork(ssid, "");
        pending := Some(attempt);
      } else {
        showConnectModal := true;
        pending := None;
      }
    }

    /** The dialog's connect button: connects to the chosen SSID with the typed password. */
    method SubmitCredentials() returns (pending: Attempt)
      requires Valid() && showConnectModal
      modifies this`connectionStatus, this`showConnectModal, this`password, this`selectedNetwork
      ensures Valid()
      ensures pending == Attempt(old(selectedNetwork).value, old(password))
      ensures connectionStatus == Connecting && !showConnectModal
      ensures password == "" && selectedNetwork == None
    {
      pending := ConnectToNetwork(selectedNetwork.value, password);
    }

    /** Typing in the dialog's password field. */
    method EnterPassword(typed: string)
      requires Valid()
      modifies this`password
      ensures Valid() && password == typed
    {
      password := typed;
    }

    /** The dialog's close and cancel buttons: only the dialog closes. */
    method CloseConnectModal()
      requires Valid()
      modifies this`showConnectModal
      ensures Valid() && !showConnectModal
    {
      showConnectModal := false;
    }

    /**
     * Outcome step of a connection. On success the status becomes connected,
     * exactly the networks named `pending.ssid` are marked connected (nothing
     * else in the list changes), and a saved entry with auto-connect on and a
     * masked password is appended if that SSID is not saved yet. On failure
     * the status becomes failed and neither list changes.
     */
    method ResolveConnect(pending: Attempt, success: bool, id: string, timestamp: string)
      requires Valid()
      modifies this`connectionStatus, this`availableNetworks, this`savedNetworks
      ensures Valid()
      ensures success ==>
        connectionStatus == Connected &&
        availableNetworks == MarkConnected(old(availableNetworks), pending.ssid) &&
        savedNetworks == SaveIfNew(old(savedNetworks),
                                   NewSavedNetwork(id, pending.ssid, pending.password, timestamp))
      ensures !success ==>
        connectionStatus == Failed &&
        availableNetworks == old(availableNetworks) && savedNetworks == old(savedNetworks)
    {
      if success {
        connectionStatus := Connected;
        MarkConnectedResult(availableNetworks, pending.ssid);
        availableNetworks := MarkConnected(availableNetworks, pending.ssid);
        if !HasSavedSsid(savedNetworks, pending.ssid) {
          savedNetworks := savedNetworks + [NewSavedNetwork(id, pending.ssid, pending.password, timestamp)];
        }
      } else {
        connectionStatus := Failed;
      }
    }

    /** The cooldown after a failure: the status returns to disconnected. */
    method FinishCooldown()
      requires Valid()
      modifies this`connectionStatus
      ensures Valid() && connectionStatus == Disconnected
    {
      connectionStatus := Disconnected;
    }

    /** Forgetting a saved network: keeps exactly the entries whose id differs. */
    method RemoveSavedNetwork(id: string)
      requires Valid()
      modifies this`savedNetworks
      ensures Valid()
      ensures savedNetworks == RemoveById(old(savedNetworks), id)
    {
      savedNetworks := RemoveById(savedNetworks, id);
    }

    /** The auto-connect switch. */
    method ToggleAutoConnect()
      requires Valid()
      modifies this`wifiSettings
      ensures Valid() && wifiSettings == Toggled(old(wifiSettings), AutoConnectSwitch)
    {
      wifiSettings := wifiSettings.(autoConnect := !wifiSettings.autoConnect);
    }

    /** The show-hidden-networks switch. */
    method ToggleShowHiddenNetworks()
      requires Valid()
      modifies this`wifiSettings
      ensures Valid() && wifiSettings == Toggled(old(wifiSettings), ShowHiddenSwitch)
    {
      wifiSettings := wifiSettings.(showHiddenNetworks := !wifiSettings.showHiddenNetworks);
    }

    /** The power-saving switch. */
    method TogglePowerSaving()
      requires Valid()
      modifies this`wifiSettings
      ensures Valid() && wifiSettings == Toggled(old(wifiSettings), PowerSavingSwitch)
    {
      wifiSettings := wifiSettings.(powerSaving := !wifiSettings.powerSaving);
    }

    /** The frequency selector. */
    method SetFrequency(f: Frequency)
      requires Valid()
      modifies this`wifiSettings
      ensures Valid() && wifiSettings == WithFrequency(old(wifiSettings), f)
    {
      wifiSettings := wifiSettings.(frequency := f);
    }
  }
}
