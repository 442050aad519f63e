/**
 * The pure display mappings of the page: the signal-strength tier, the
 * lock/unlock choice for a security kind, and the colour and text shown for
 * each connection status. Only the value each mapping selects is modelled,
 * not the element it renders.
 */
module WiFiDisplay {
  import opened WiFiTypes

  /** The colour tier of the signal icon. */
  datatype SignalTier = Red | Orange | Yellow | Green

  /** Position of a tier on the scale from weakest to strongest. */
  function TierRank(t: SignalTier): (n: nat)
    ensures n <= 3
  {
    match t
    case Red => 0
    case Orange => 1
    case Yellow => 2
    case Green => 3
  }

  /**
   * The tier of a signal strength. The rank of the tier is the number of
   * thresholds (40, 60, 80) the strength reaches, so the mapping is total
   * and every value lands in exactly one band.
   */
  function SignalIconTier(signal: int): (t: SignalTier)
    ensures TierRank(t) == (if signal >= 40 then 1 else 0)
                         + (if signal >= 60 then 1 else 0)
                         + (if signal >= 80 then 1 else 0)
  {
    if signal >= 80 then Green
    else if signal >= 60 then Yellow
    else if signal >= 40 then Orange
    else Red
  }

  /** A stronger signal never shows a weaker tier. */
  lemma SignalIconTierMonotone(a: int, b: int)
    requires a <= b
    ensures TierRank(SignalIconTier(a)) <= TierRank(SignalIconTier(b))
  {
  }

  /** The lock icon is shown for every security kind except an open network. */
  function ShowsLock(security: Security): (locked: bool)
    ensures locked <==> security != Open
  {
    match security
    case Open => false
    case _ => true
  }

  /** The CSS colour class of the status line; `Disconnected` is the default branch. */
  function StatusColor(status: ConnectionStatus): (c: string)
    ensures StatusFromColor(c) == Some(status)
  {
    match status
    case Connected => "text-green-400"
    case Connecting => "text-yellow-400"
    case Failed => "text-red-400"
    case Disconnected => "text-gray-400"
  }

  /** Reads a status back from its colour class; the inverse of `StatusColor`. */
  function StatusFromColor(c: string): Option<ConnectionStatus>
  {
    if c == "text-green-400" then Some(Connected)
    else if c == "text-yellow-400" then Some(Connecting)
    else if c == "text-red-400" then Some(Failed)
    else if c == "text-gray-400" then Some(Disconnected)
    else None
  }

  /** The status text shown to the user; `Disconnected` is the default branch. */
  function StatusText(status: ConnectionStatus): (t: string)
    ensures StatusFromText(t) == Some(status)
  {
    match status
    case Connected => "Повезано"
    case Connecting => "Повезивање..."
    case Failed => "Неуспешно повезивање"
    case Disconnected => "Није повезано"
  }

  /** Reads a status back from its text; the inverse of `StatusText`. */
  function StatusFromText(t: string): Option<ConnectionStatus>
  {
    if t == "Повезано" then Some(Connected)
    else if t == "Повезивање..." then Some(Connecting)
    else if t == "Неуспешно повезивање" then Some(Failed)
    else if t == "Није повезано" then Some(Disconnected)
    else None
  }

  /** Each status has its own colour and its own text. */
  lemma StatusMappingsInjective(s: ConnectionStatus, u: ConnectionStatus)
    requires s != u
    ensures StatusColor(s) != StatusColor(u)
    ensures StatusText(s) != StatusText(u)
  {
  }
}
