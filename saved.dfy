/**
 * Operations on the list of saved networks: the entry created after a
 * successful connection (with its password masked), the append that happens
 * only for an SSID not yet saved, and the removal of an entry by id.
 */
module WiFiSaved {
  import opened WiFiTypes

  /** The fixed placeholder stored instead of a non-empty password: ten bullets. */
  const PasswordMask: string := "••••••••••"

  /**
   * What is stored for a supplied password: the mask when one was given, the
   * empty string otherwise. The result depends only on whether `pwd` is empty.
   */
  function StoredPassword(pwd: string): (s: string)
    ensures s == "" <==> pwd == ""
    ensures s == "" || s == PasswordMask
  {
    if pwd != "" then PasswordMask else ""
  }

  /** Two non-empty passwords are stored alike, so no plaintext can be recovered. */
  lemma StoredPasswordHidesPlaintext(p: string, q: string)
    requires p != "" && q != ""
    ensures StoredPassword(p) == StoredPassword(q) && |StoredPassword(p)| == 10
  {
  }

  /** The entry recorded after the first successful connection to `ssid`. */
  function NewSavedNetwork(id: string, ssid: string, pwd: string, timestamp: string): (n: SavedNetwork)
    ensures n.id == id && n.ssid == ssid && n.lastConnected == timestamp
    ensures n.autoConnect
    ensures n.password == StoredPassword(pwd)
    ensures n.password == pwd ==> pwd == "" || pwd == PasswordMask
  {
    SavedNetwork(id, ssid, StoredPassword(pwd), true, timestamp)
  }

  /** Whether some saved entry has SSID `ssid` (an array `find` by SSID tested for a hit). */
  function HasSavedSsid(saved: seq<SavedNetwork>, ssid: string): (b: bool)
    ensures b <==> exists i :: 0 <= i < |saved| && saved[i].ssid == ssid
  {
    if saved == [] then false
    else saved[0].ssid == ssid || HasSavedSsid(saved[1..], ssid)
  }

  /** No two saved entries share an SSID. */
  predicate SsidsUnique(saved: seq<SavedNetwork>)
  {
    forall i, j :: 0 <= i < j < |saved| ==> saved[i].ssid != saved[j].ssid
  }

  /**
   * Appends `entry` unless an entry with its SSID is already saved. The
   * existing entries keep their place and content, the SSID is saved
   * afterwards, and at most one entry is added.
   */
  function SaveIfNew(saved: seq<SavedNetwork>, entry: SavedNetwork): (r: seq<SavedNetwork>)
    ensures |saved| <= |r| <= |saved| + 1 && r[..|saved|] == saved
    ensures |r| == |saved| + 1 <==> !HasSavedSsid(saved, entry.ssid)
    ensures |r| == |saved| + 1 ==> r[|saved|] == entry
    ensures HasSavedSsid(r, entry.ssid)
  {
    if HasSavedSsid(saved, entry.ssid) then saved else saved + [entry]
  }

  /** Saving only new SSIDs keeps the saved SSIDs unique. */
  lemma SaveIfNewKeepsUnique(saved: seq<SavedNetwork>, entry: SavedNetwork)
    requires SsidsUnique(saved)
    ensures SsidsUnique(SaveIfNew(saved, entry))
  {
  }

  /** The saved entries whose id differs from `id`, in their original order. */
  function RemoveById(saved: seq<SavedNetwork>, id: string): (r: seq<SavedNetwork>)
    ensures |r| <= |saved|
    ensures forall n :: n in r <==> n in saved && n.id != id
  {
    if saved == [] then []
    else if saved[0].id == id then RemoveById(saved[1..], id)
    else [saved[0]] + RemoveById(saved[1..], id)
  }

  /** Removing an id that no entry has leaves the list unchanged. */
  lemma {:induction false} RemoveByIdAbsent(saved: seq<SavedNetwork>, id: string)
    requires forall i :: 0 <= i < |saved| ==> saved[i].id != id
    ensures RemoveById(saved, id) == saved
  {
    if saved != [] {
      RemoveByIdAbsent(saved[1..], id);
    }
  }

  /** Removing the same id twice is the same as removing it once. */
  lemma RemoveByIdIdempotent(saved: seq<SavedNetwork>, id: string)
    ensures RemoveById(RemoveById(saved, id), id) == RemoveById(saved, id)
  {
    var r := RemoveById(saved, id);
    forall i | 0 <= i < |r| ensures r[i].id != id {
      assert r[i] in r;
    }
    RemoveByIdAbsent(r, id);
  }

  /** Removal works entry by entry: it distributes over concatenation, so order is kept. */
  lemma {:induction false} RemoveByIdConcat(a: seq<SavedNetwork>, b: seq<SavedNetwork>, id: string)
    ensures RemoveById(a + b, id) == RemoveById(a, id) + RemoveById(b, id)
  {
    if a == [] {
      assert a + b == b;
    } else {
      assert (a + b)[0] == a[0];
      assert (a + b)[1..] == a[1..] + b;
      RemoveByIdConcat(a[1..], b, id);
    }
  }

  /** Removing by id keeps the saved SSIDs unique. */
  lemma {:induction false} RemoveByIdKeepsUnique(saved: seq<SavedNetwork>, id: string)
    requires SsidsUnique(saved)
    ensures SsidsUnique(RemoveById(saved, id))
  {
    if saved != [] {
      var t := saved[1..];
      assert SsidsUnique(t) by {
        forall i, j | 0 <= i < j < |t| ensures t[i].ssid != t[j].ssid {
          assert t[i] == saved[i + 1] && t[j] == saved[j + 1];
        }
      }
      RemoveByIdKeepsUnique(t, id);
      if saved[0].id != id {
        var rt := RemoveById(t, id);
        var r := [saved[0]] + rt;
        forall i, j | 0 <= i < j < |r| ensures r[i].ssid != r[j].ssid {
          if i == 0 {
            assert r[j] == rt[j - 1] && rt[j - 1] in rt;
            assert r[j] in t;
            var k :| 0 <= k < |t| && t[k] == r[j];
            assert saved[k + 1] == r[j];
          } else {
            assert r[i] == rt[i - 1] && r[j] == rt[j - 1];
          }
        }
      }
    }
  }
}
