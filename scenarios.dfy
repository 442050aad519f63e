/**
 * Two walks through the page from its initial state, checked statically:
 * joining the open guest network, and a failed attempt on a protected one.
 */
module WiFiScenarios {
  import opened WiFiTypes
  import opened WiFiNetworks
  import opened WiFiSaved
  import opened WiFiPage

  /** The open guest network connects without the dialog and is saved with no password. */
  method GuestNetworkScenario(id: string, timestamp: string)
  {
    var page := new WiFiManagementPage();
    assert IsFirstMatch(page.availableNetworks, "Guest_Network", 3);
    var pending := page.HandleConnect("Guest_Network");
    assert pending == Some(Attempt("Guest_Network", ""));
    assert page.connectionStatus == Connecting && !page.showConnectModal;

    page.ResolveConnect(pending.value, true, id, timestamp);
    assert page.connectionStatus == Connected;
    assert page.availableNetworks[3].connected && !page.availableNetworks[0].connected;
    assert !HasSavedSsid(InitialSavedNetworks, "Guest_Network");
    assert page.savedNetworks
        == InitialSavedNetworks + [SavedNetwork(id, "Guest_Network", "", true, timestamp)];
  }

  /** A failed attempt on a WPA2 network goes through failed to disconnected and saves nothing. */
  method ProtectedNetworkFailureScenario()
  {
    var page := new WiFiManagementPage();
    assert IsFirstMatch(page.availableNetworks, "Komšija_Internet", 2);
    var none := page.HandleConnect("Komšija_Internet");
    assert none == None && page.showConnectModal;
    assert page.connectionStatus == Connected;

    page.EnterPassword("wrong-password");
    var pending := page.SubmitCredentials();
    assert pending == Attempt("Komšija_Internet", "wrong-password");
    assert page.password == "" && page.connectionStatus == Connecting;

    page.ResolveConnect(pending, false, "unused", "unused");
    assert page.connectionStatus == Failed;
    page.FinishCooldown();
    assert page.connectionStatus == Disconnected;
    assert page.savedNetworks == InitialSavedNetworks;
    assert page.availableNetworks == InitialNetworks;
  }
}
