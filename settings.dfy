/**
 * The updaters behind the settings switches and the frequency selector:
 * each switch copies the settings record with one flag negated, the selector
 * copies it with a new band.
 */
module WiFiSettingsOps {
  import opened WiFiTypes

  /** The three on/off switches of the settings panel. */
  datatype Toggle = AutoConnectSwitch | ShowHiddenSwitch | PowerSavingSwitch

  /** The flag a switch controls. */
  function Flag(s: WiFiSettings, t: Toggle): bool
  {
    match t
    case AutoConnectSwitch => s.autoConnect
    case ShowHiddenSwitch => s.showHiddenNetworks
    case PowerSavingSwitch => s.powerSaving
  }

  /** The settings after flipping switch `t`: that flag negated, everything else kept. */
  function Toggled(s: WiFiSettings, t: Toggle): (r: WiFiSettings)
    ensures Flag(r, t) == !Flag(s, t)
    ensures forall u :: u != t ==> Flag(r, u) == Flag(s, u)
    ensures r.frequency == s.frequency
  {
    match t
    case AutoConnectSwitch => s.(autoConnect := !s.autoConnect)
    case ShowHiddenSwitch => s.(showHiddenNetworks := !s.showHiddenNetworks)
    case PowerSavingSwitch => s.(powerSaving := !s.powerSaving)
  }

  /** Two settings records agree when every flag and the band agree. */
  lemma SettingsExtensional(a: WiFiSettings, b: WiFiSettings)
    requires forall u :: Flag(a, u) == Flag(b, u)
    requires a.frequency == b.frequency
    ensures a == b
  {
    assert Flag(a, AutoConnectSwitch) == Flag(b, AutoConnectSwitch);
    assert Flag(a, ShowHiddenSwitch) == Flag(b, ShowHiddenSwitch);
    assert Flag(a, PowerSavingSwitch) == Flag(b, PowerSavingSwitch);
  }

  /** Flipping the same switch twice restores the original settings. */
  lemma ToggledTwice(s: WiFiSettings, t: Toggle)
    ensures Toggled(Toggled(s, t), t) == s
  {
    var r := Toggled(Toggled(s, t), t);
    forall u ensures Flag(r, u) == Flag(s, u) {
      if u != t {
        assert Flag(Toggled(s, t), u) == Flag(s, u);
      }
    }
    SettingsExtensional(r, s);
  }

  /** Flipping two switches gives the same settings in either order. */
  lemma ToggledCommute(s: WiFiSettings, t: Toggle, u: Toggle)
    ensures Toggled(Toggled(s, t), u) == Toggled(Toggled(s, u), t)
  {
    var a := Toggled(Toggled(s, t), u);
    var b := Toggled(Toggled(s, u), t);
    forall v ensures Flag(a, v) == Flag(b, v) {
      assert Flag(Toggled(s, t), v) == (if v == t then !Flag(s, v) else Flag(s, v));
      assert Flag(Toggled(s, u), v) == (if v == u then !Flag(s, v) else Flag(s, v));
    }
    SettingsExtensional(a, b);
  }

  /** The settings after choosing band `f`: only the band changes. */
  function WithFrequency(s: WiFiSettings, f: Frequency): (r: WiFiSettings)
    ensures r.frequency == f
    ensures forall u :: Flag(r, u) == Flag(s, u)
  {
    s.(frequency := f)
  }

  /** The last band chosen wins, and choosing the current band changes nothing. */
  lemma WithFrequencyLastWins(s: WiFiSettings, f: Frequency, g: Frequency)
    ensures WithFrequency(WithFrequency(s, f), g) == WithFrequency(s, g)
    ensures WithFrequency(s, s.frequency) == s
  {
  }
}
