# Wi-Fi management page: connection and saved-profile logic

This project models the state machine of the Wi-Fi management page of an
irrigation/climate controller dashboard (`src/components/WiFiManagementPage.tsx`).
It does not model the markup. The page holds a connection status
(connected, connecting, disconnected or failed), the list of available networks,
the list of saved networks, the radio settings (auto-connect, show hidden
networks, power saving, frequency band), and the fields of the credential dialog
(whether it is open, the chosen SSID, the typed password).

Modules:

- `WiFiTypes` (`types.dfy`): the `WiFiNetwork` and `SavedNetwork` records, the
  status, security and frequency enumerations, and the settings record.
- `WiFiDisplay` (`display.dfy`): the signal-strength tier, the lock/unlock choice,
  and the status colour and text.
- `Decimal` (`decimal.dfy`): decimal printing of the number in a scanned
  network's name, with its inverse.
- `WiFiNetworks` (`networks.dfy`): lookup by SSID, marking the connected SSID, and
  the entry a scan appends.
- `WiFiSaved` (`saved.dfy`): the masked password, append-if-new, and removal by id.
- `WiFiSettingsOps` (`settings.dfy`): the switch and frequency updaters.
- `WiFiPage` (`page.dfy`): the class `WiFiManagementPage`. Its fields are the
  component's state and its methods are the handlers. Every method keeps the
  invariant `Valid()`: the dialog is open only when an SSID is chosen, and all
  networks shown as connected carry one SSID.
- `WiFiScenarios` (`scenarios.dfy`): two statically checked walks from the
  initial state.

The page runs some work after a timer: scan completion, the connection
outcome, and the cooldown after a failure. Each of these is a separate method:
`ResolveScan`, `ResolveConnect` and `FinishCooldown`. The random draws, the
success flag, the new id and the timestamp are parameters. A connect request
returns an `Attempt` value that holds the SSID and password its outcome step
will use, as the page's timer closure does.

What the page does, and therefore what the model does:

- The page has no attempt tokens, so a late outcome or cooldown applies to the
  current state.
- Removing an unknown id is silently a no-op; no error is reported.
- A scan appends one network rather than replacing the list. It does not
  deduplicate SSIDs or filter hidden networks.
- There is no auto-connect at start-up and no explicit disconnect.
- Saving never updates an existing profile.
- The `saved` flags of listed networks are never recomputed.
- After a successful connection, every listed network with the target SSID is
  marked connected. That is two networks if a scan added a duplicate name, and
  none if the SSID is not listed. The invariant proved is therefore "all
  connected entries agree on the SSID", not "exactly one is connected".

## Model

| member | source | states |
|---|---|---|
| `WiFiDisplay.SignalIconTier` | src/components/WiFiManagementPage.tsx:178-183 | the tier's rank is the number of thresholds 40, 60, 80 the signal reaches: 80+ green, 60–79 yellow, 40–59 orange, below 40 red, for every integer |
| `WiFiDisplay.SignalIconTierMonotone` | src/components/WiFiManagementPage.tsx:178-183 | a stronger signal never gets a lower tier |
| `WiFiDisplay.ShowsLock` | src/components/WiFiManagementPage.tsx:185-188 | the lock icon is shown exactly for non-open security |
| `WiFiDisplay.StatusColor` | src/components/WiFiManagementPage.tsx:190-197 | the colour class reads back to the status it came from, so each status has its own fixed colour |
| `WiFiDisplay.StatusText` | src/components/WiFiManagementPage.tsx:199-206 | the text reads back to the status it came from, so each status has its own fixed text |
| `WiFiDisplay.StatusMappingsInjective` | src/components/WiFiManagementPage.tsx:190-206 | distinct statuses get distinct colours and distinct texts |
| `Decimal.DecimalString` | src/components/WiFiManagementPage.tsx:120 | the printed suffix is a non-empty run of decimal digits without a leading zero, one digit exactly below 10 |
| `Decimal.DecimalRoundTrip` | src/components/WiFiManagementPage.tsx:120 | reading the printed digits back gives the number drawn |
| `Decimal.DecimalStringInjective` | src/components/WiFiManagementPage.tsx:120 | different numbers print differently |
| `WiFiNetworks.FindNetwork` | src/components/WiFiManagementPage.tsx:132 | the lookup misses exactly when no listed network has the SSID, and otherwise returns the first one that has it |
| `WiFiNetworks.MarkConnected` | src/components/WiFiManagementPage.tsx:151-156 | same length and order, ssid/signal/security/saved kept, and each entry is connected exactly when its SSID is the target |
| `WiFiNetworks.MarkConnectedResult` | src/components/WiFiManagementPage.tsx:149-156 | after marking, all connected entries share the SSID, and some entry is connected exactly when the target is listed |
| `WiFiNetworks.MarkConnectedSingle` | src/components/WiFiManagementPage.tsx:151-156 | when the target SSID is listed exactly once, exactly that entry is connected afterwards |
| `WiFiNetworks.MarkConnectedIdempotent` | src/components/WiFiManagementPage.tsx:151-156 | marking the same SSID twice equals marking it once |
| `WiFiNetworks.ConnectedAgreeAppend` | src/components/WiFiManagementPage.tsx:117-126 | appending an unconnected entry keeps all connected entries on one SSID |
| `WiFiNetworks.ScanSuffix` | src/components/WiFiManagementPage.tsx:120 | the name's number is the floor of 100 times the draw, so it lies in 0..99 |
| `WiFiNetworks.ScanSignal` | src/components/WiFiManagementPage.tsx:121 | the signal is the floor of 60 times the draw plus 20, so it lies in 20..79 |
| `WiFiNetworks.ScannedNetwork` | src/components/WiFiManagementPage.tsx:117-126 | the discovered network is WPA2, not connected, not saved; its signal is `ScanSignal` of the signal draw (20..79) and its name is the fixed prefix followed by the decimal digits of `ScanSuffix` of the name draw |
| `WiFiNetworks.ScannedNamesDistinct` | src/components/WiFiManagementPage.tsx:120 | two scanned names are equal exactly when the same number was drawn |
| `WiFiNetworks.ScannedNetworkTier` | src/components/WiFiManagementPage.tsx:121 | a scanned network is never shown in the green tier |
| `WiFiSaved.StoredPassword` | src/components/WiFiManagementPage.tsx:163 | the stored value is empty exactly when the supplied password is empty, and is otherwise the ten-bullet mask |
| `WiFiSaved.StoredPasswordHidesPlaintext` | src/components/WiFiManagementPage.tsx:163 | any two non-empty passwords are stored identically, as a 10-character mask |
| `WiFiSaved.NewSavedNetwork` | src/components/WiFiManagementPage.tsx:160-166 | the new entry has the given id, SSID and timestamp and auto-connect on; its password is `StoredPassword` of the supplied one (the mask, or empty for an empty password), so it equals the plaintext only if that is empty or is the mask itself |
| `WiFiSaved.HasSavedSsid` | src/components/WiFiManagementPage.tsx:159 | true exactly when some saved entry has the SSID |
| `WiFiSaved.SaveIfNew` | src/components/WiFiManagementPage.tsx:158-167 | old entries are kept as a prefix, one entry is appended exactly when the SSID was not saved, the appended entry is the new one, and the SSID is saved afterwards |
| `WiFiSaved.SaveIfNewKeepsUnique` | src/components/WiFiManagementPage.tsx:158-167 | append-if-absent keeps saved SSIDs unique |
| `WiFiSaved.RemoveById` | src/components/WiFiManagementPage.tsx:208-210 | an entry is in the result exactly when it was saved and its id differs, and the list does not grow |
| `WiFiSaved.RemoveByIdAbsent` | src/components/WiFiManagementPage.tsx:208-210 | removing an id no entry has leaves the list unchanged |
| `WiFiSaved.RemoveByIdIdempotent` | src/components/WiFiManagementPage.tsx:208-210 | removing the same id twice equals removing it once |
| `WiFiSaved.RemoveByIdConcat` | src/components/WiFiManagementPage.tsx:208-210 | removal distributes over concatenation, so the kept entries stay in their original order |
| `WiFiSaved.RemoveByIdKeepsUnique` | src/components/WiFiManagementPage.tsx:208-210 | removal keeps saved SSIDs unique |
| `WiFiSettingsOps.Toggled` | src/components/WiFiManagementPage.tsx:392-428 | a switch negates its own flag and keeps the other two flags and the band |
| `WiFiSettingsOps.ToggledTwice` | src/components/WiFiManagementPage.tsx:392-428 | flipping a switch twice restores the settings |
| `WiFiSettingsOps.ToggledCommute` | src/components/WiFiManagementPage.tsx:392-428 | flipping two switches gives the same settings in either order |
| `WiFiSettingsOps.WithFrequency` | src/components/WiFiManagementPage.tsx:443 | the band becomes the chosen one and every flag is kept |
| `WiFiSettingsOps.WithFrequencyLastWins` | src/components/WiFiManagementPage.tsx:443 | the last band chosen wins, and re-choosing the current band changes nothing |
| `WiFiPage.ConnectActionFor` | src/components/WiFiManagementPage.tsx:130-139 | connect directly exactly when the first listed network with that SSID is open; otherwise ask for a password |
| `WiFiPage.ConnectActionMatchesLockIcon` | src/components/WiFiManagementPage.tsx:130-139 | a listed network is joined without a password exactly when its entry shows the open lock |
| `WiFiPage.UnlistedAsksForPassword` | src/components/WiFiManagementPage.tsx:132-137 | an SSID that is not listed opens the dialog |
| `WiFiPage.InitialStateConsistent` | src/components/WiFiManagementPage.tsx:48-110 | the initial data has one connected SSID, unique saved SSIDs, and `saved` flags that agree with the saved list |
| `WiFiPage.WiFiManagementPage.constructor` | src/components/WiFiManagementPage.tsx:43-110 | the initial state: connected, not scanning, dialog closed, the five listed and two saved networks, default settings |
| `WiFiPage.WiFiManagementPage.HandleScan` | src/components/WiFiManagementPage.tsx:112-113 | raises only the scanning flag |
| `WiFiPage.WiFiManagementPage.ResolveScan` | src/components/WiFiManagementPage.tsx:114-127 | lowers the scanning flag and appends exactly the scanned network after the existing, untouched entries |
| `WiFiPage.WiFiManagementPage.HandleConnect` | src/components/WiFiManagementPage.tsx:130-139 | open first match: request with empty password, dialog closed; otherwise dialog opened for the SSID, status and password unchanged; lists never change |
| `WiFiPage.WiFiManagementPage.ConnectToNetwork` | src/components/WiFiManagementPage.tsx:141-176 | status connecting, dialog closed, password and chosen SSID cleared, lists untouched, and the pending attempt carries the SSID and password |
| `WiFiPage.WiFiManagementPage.SubmitCredentials` | src/components/WiFiManagementPage.tsx:498 | the dialog's connect button requests the chosen SSID with the typed password |
| `WiFiPage.WiFiManagementPage.EnterPassword` | src/components/WiFiManagementPage.tsx:483 | typing replaces only the password field |
| `WiFiPage.WiFiManagementPage.CloseConnectModal` | src/components/WiFiManagementPage.tsx:462 | the close and cancel buttons close only the dialog |
| `WiFiPage.WiFiManagementPage.ResolveConnect` | src/components/WiFiManagementPage.tsx:145-172 | success: connected, exactly the target SSID marked, saved entry appended only if new; failure: failed, both lists unchanged |
| `WiFiPage.WiFiManagementPage.FinishCooldown` | src/components/WiFiManagementPage.tsx:170 | the cooldown sets the status to disconnected and changes nothing else |
| `WiFiPage.WiFiManagementPage.RemoveSavedNetwork` | src/components/WiFiManagementPage.tsx:208-210 | the saved list becomes exactly the entries whose id differs |
| `WiFiPage.WiFiManagementPage.ToggleAutoConnect` | src/components/WiFiManagementPage.tsx:392 | flips only the auto-connect flag |
| `WiFiPage.WiFiManagementPage.ToggleShowHiddenNetworks` | src/components/WiFiManagementPage.tsx:409 | flips only the show-hidden flag |
| `WiFiPage.WiFiManagementPage.TogglePowerSaving` | src/components/WiFiManagementPage.tsx:428 | flips only the power-saving flag |
| `WiFiPage.WiFiManagementPage.SetFrequency` | src/components/WiFiManagementPage.tsx:443 | replaces only the frequency band |

## Left out

- Rendering: the markup, the icon components and the CSS classes of the list, dialog and switches are not modelled. The exception is the status colour class, which is a returned value.
- The password-visibility toggle in the dialog (line 488) is left out because it only changes how the field is drawn. The Edit button (line 355) is left out because its handler does nothing.
- Timers, `Math.random`, `Date.now()` and `toLocaleString` are not modelled. The delays become separate resolve methods. The draws, the success outcome, the id and the timestamp become parameters. Nothing constrains when a resolve step is called or how often.
- `WiFiPage.WiFiManagementPage.ResolveConnect` looks for an existing saved SSID in the current saved list. The page looks in the list captured when the request was made (line 159). With two overlapping attempts for the same new SSID, the page can save it twice. The model does not capture this, and it claims SSID uniqueness only for the pure `SaveIfNew`, not as a page invariant.
- `WiFiNetworks.ScanSuffix` and `WiFiNetworks.ScanSignal` take the random draw as an exact real number in [0, 1). Double-precision rounding of `r * 100` and `r * 60` is not modelled. For a draw such as the double nearest 0.03, the page can compute a floor one higher than the model's. The ranges 0..99 and 20..79 hold either way.
- `WiFiPage.WiFiManagementPage.SetFrequency` takes one of the three offered bands. The selector casts its string value without checking it (line 443), and only those three options exist.
- `src/components/SocialShareButton.tsx` is not part of this model. It is glue over the browser's share, clipboard and window APIs.
- `src/hooks/useLocalStorage.ts` is not part of this model. It is a thin wrapper over browser storage and JSON, and the page does not use it.
