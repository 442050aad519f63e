/**
 * Operations on the list of available networks: the lookup by SSID used when
 * the user asks to connect, the update that marks the connected SSID after a
 * successful attempt, and the entry a scan appends.
 */
module WiFiNetworks {
  import opened WiFiTypes
  import opened Decimal
  import WiFiDisplay

  /** `i` is the position of the first network named `ssid`. */
  predicate IsFirstMatch(ns: seq<WiFiNetwork>, ssid: string, i: int)
  {
    0 <= i < |ns| && ns[i].ssid == ssid &&
    forall j :: 0 <= j < i ==> ns[j].ssid != ssid
  }

  /** The first network named `ssid`, if any (an array `find` by SSID). */
  function FindNetwork(ns: seq<WiFiNetwork>, ssid: string): (r: Option<WiFiNetwork>)
    ensures r.None? <==> forall i :: 0 <= i < |ns| ==> ns[i].ssid != ssid
    ensures r.Some? ==> exists i :: IsFirstMatch(ns, ssid, i) && ns[i] == r.value
  {
    if ns == [] then None
    else if ns[0].ssid == ssid then
      assert IsFirstMatch(ns, ssid, 0);
      Some(ns[0])
    else
      var r := FindNetwork(ns[1..], ssid);
      if r.Some? then
        var i :| IsFirstMatch(ns[1..], ssid, i) && ns[1..][i] == r.value;
        assert IsFirstMatch(ns, ssid, i + 1);
        r
      else r
  }

  /** There is only one first match. */
  lemma FirstMatchUnique(ns: seq<WiFiNetwork>, ssid: string, i: int, j: int)
    requires IsFirstMatch(ns, ssid, i) && IsFirstMatch(ns, ssid, j)
    ensures i == j
  {
  }

  /** `b` is `a` with only the `connected` flags possibly different. */
  predicate SameExceptConnected(a: seq<WiFiNetwork>, b: seq<WiFiNetwork>)
  {
    |a| == |b| &&
    forall i :: 0 <= i < |a| ==>
      b[i].ssid == a[i].ssid && b[i].signal == a[i].signal &&
      b[i].security == a[i].security && b[i].saved == a[i].saved
  }

  /**
   * Every network whose SSID is `ssid` is marked connected and every other
   * one is marked not connected; length, order and all other fields are kept.
   */
  function MarkConnected(ns: seq<WiFiNetwork>, ssid: string): (r: seq<WiFiNetwork>)
    ensures SameExceptConnected(ns, r)
    ensures forall i :: 0 <= i < |r| ==> (r[i].connected <==> r[i].ssid == ssid)
  {
    if ns == [] then []
    else [ns[0].(connected := ns[0].ssid == ssid)] + MarkConnected(ns[1..], ssid)
  }

  /** All networks marked connected carry the same SSID. */
  predicate ConnectedAgree(ns: seq<WiFiNetwork>)
  {
    forall i, j :: 0 <= i < |ns| && 0 <= j < |ns| && ns[i].connected && ns[j].connected ==>
      ns[i].ssid == ns[j].ssid
  }

  /** After marking, some network is connected exactly when the target SSID is listed. */
  lemma MarkConnectedResult(ns: seq<WiFiNetwork>, ssid: string)
    ensures ConnectedAgree(MarkConnected(ns, ssid))
    ensures (exists i :: 0 <= i < |ns| && MarkConnected(ns, ssid)[i].connected)
        <==> (exists i :: 0 <= i < |ns| && ns[i].ssid == ssid)
  {
    var r := MarkConnected(ns, ssid);
    if exists i :: 0 <= i < |ns| && ns[i].ssid == ssid {
      var i :| 0 <= i < |ns| && ns[i].ssid == ssid;
      assert r[i].ssid == ns[i].ssid;
      assert 0 <= i < |ns| && r[i].connected;
      assert exists k :: 0 <= k < |ns| && MarkConnected(ns, ssid)[k].connected;
    } else {
      forall i | 0 <= i < |ns| ensures !r[i].connected {
        assert r[i].ssid == ns[i].ssid;
      }
    }
  }

  /** When the target SSID is listed once, exactly that entry ends up connected. */
  lemma MarkConnectedSingle(ns: seq<WiFiNetwork>, ssid: string, k: int)
    requires 0 <= k < |ns| && ns[k].ssid == ssid
    requires forall i :: 0 <= i < |ns| && ns[i].ssid == ssid ==> i == k
    ensures forall i :: 0 <= i < |ns| ==> (MarkConnected(ns, ssid)[i].connected <==> i == k)
  {
    var r := MarkConnected(ns, ssid);
    forall i | 0 <= i < |ns| ensures r[i].connected <==> i == k {
      assert r[i].ssid == ns[i].ssid;
    }
  }

  /** Marking the same SSID again changes nothing. */
  lemma {:induction false} MarkConnectedIdempotent(ns: seq<WiFiNetwork>, ssid: string)
    ensures MarkConnected(MarkConnected(ns, ssid), ssid) == MarkConnected(ns, ssid)
  {
    if ns != [] {
      var m := MarkConnected(ns, ssid);
      assert m[1..] == MarkConnected(ns[1..], ssid);
      MarkConnectedIdempotent(ns[1..], ssid);
    }
  }

  /** Appending a network that is not connected keeps the connected entries in agreement. */
  lemma ConnectedAgreeAppend(ns: seq<WiFiNetwork>, n: WiFiNetwork)
    requires ConnectedAgree(ns)
    requires !n.connected
    ensures ConnectedAgree(ns + [n])
  {
    var m := ns + [n];
    forall i, j | 0 <= i < |m| && 0 <= j < |m| && m[i].connected && m[j].connected
      ensures m[i].ssid == m[j].ssid
    {
      assert i < |ns| && j < |ns|;
      assert m[i] == ns[i] && m[j] == ns[j];
    }
  }

  /** The SSID prefix of every network a scan discovers. */
  const NewNetworkPrefix: string := "Нова_Мрежа_"

  /** `Math.floor(r * 100)` for a draw `r` in [0, 1): the number in the new SSID. */
  function ScanSuffix(r: real): (k: nat)
    requires 0.0 <= r < 1.0
    ensures k <= 99 && k as real <= r * 100.0 < k as real + 1.0
  {
    (r * 100.0).Floor
  }

  /** `Math.floor(r * 60) + 20` for a draw `r` in [0, 1): the new network's signal. */
  function ScanSignal(r: real): (s: int)
    requires 0.0 <= r < 1.0
    ensures 20 <= s <= 79
    ensures (s - 20) as real <= r * 60.0 < (s - 19) as real
  {
    (r * 60.0).Floor + 20
  }

  /** The network a scan appends, from the two draws that name it and set its signal. */
  function ScannedNetwork(rSuffix: real, rSignal: real): (n: WiFiNetwork)
    requires 0.0 <= rSuffix < 1.0 && 0.0 <= rSignal < 1.0
    ensures n.security == Wpa2 && !n.connected && !n.saved
    ensures n.signal == ScanSignal(rSignal) && 20 <= n.signal <= 79
    ensures n.ssid == NewNetworkPrefix + DecimalString(ScanSuffix(rSuffix))
    ensures |n.ssid| > |NewNetworkPrefix| && n.ssid[..|NewNetworkPrefix|] == NewNetworkPrefix
  {
    WiFiNetwork(NewNetworkPrefix + DecimalString(ScanSuffix(rSuffix)), ScanSignal(rSignal), Wpa2, false, false)
  }

  /** Two scans name their networks alike only when they drew the same number. */
  lemma ScannedNamesDistinct(r1: real, r2: real, s1: real, s2: real)
    requires 0.0 <= r1 < 1.0 && 0.0 <= r2 < 1.0 && 0.0 <= s1 < 1.0 && 0.0 <= s2 < 1.0
    ensures ScannedNetwork(r1, s1).ssid == ScannedNetwork(r2, s2).ssid <==> ScanSuffix(r1) == ScanSuffix(r2)
  {
    var a := DecimalString(ScanSuffix(r1));
    var b := DecimalString(ScanSuffix(r2));
    if NewNetworkPrefix + a == NewNetworkPrefix + b {
      assert a == (NewNetworkPrefix + a)[|NewNetworkPrefix|..];
      assert b == (NewNetworkPrefix + b)[|NewNetworkPrefix|..];
      DecimalStringInjective(ScanSuffix(r1), ScanSuffix(r2));
    }
  }

  /** A scanned network is never shown in the green (strongest) tier. */
  lemma ScannedNetworkTier(rSuffix: real, rSignal: real)
    requires 0.0 <= rSuffix < 1.0 && 0.0 <= rSignal < 1.0
    ensures WiFiDisplay.SignalIconTier(ScannedNetwork(rSuffix, rSignal).signal) != WiFiDisplay.Green
  {
  }
}
