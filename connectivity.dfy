/** The connectivity state the mobile app derives from platform network reports
    (mobile-expo/src/hooks/useConnectivity.ts). */
module Connectivity {
  import opened Wrappers

  /** A platform report: connectedness and internet reachability may each be unknown. */
  datatype NetReport = NetReport(isConnected: Option<bool>, isInternetReachable: Option<bool>, kind: Option<string>)

  /** `ConnectivityState`; `kind` is the source's `type`. */
  datatype ConnectivityState = ConnectivityState(
    isConnected: bool,
    isInternetReachable: Option<bool>,
    kind: Option<string>,
    isOffline: bool)

  /** The state before any report arrives. */
  const Initial := ConnectivityState(false, None, None, true)

  /** The state derived from a report, the same for the change listener and the initial
      fetch: an unknown connectedness is stored as not connected, and the device counts as
      offline when it is not connected or the internet is known to be unreachable. */
  function Derive(r: NetReport): (s: ConnectivityState)
    ensures s.isConnected <==> r.isConnected == Some(true)
    ensures s.isInternetReachable == r.isInternetReachable && s.kind == r.kind
    ensures r.isConnected != Some(true) ==> s.isOffline
    ensures r.isInternetReachable == Some(false) ==> s.isOffline
    ensures r.isConnected == Some(true) && r.isInternetReachable.None? ==> !s.isOffline
    ensures s.isOffline <==> !s.isConnected || s.isInternetReachable == Some(false)
  {
    ConnectivityState(
      r.isConnected == Some(true),
      r.isInternetReachable,
      r.kind,
      !(r.isConnected == Some(true)) || r.isInternetReachable == Some(false))
  }

  /** The initial state is offline, and it is exactly what a report that knows nothing
      yields. */
  lemma InitialIsEmptyReport()
    ensures Initial.isOffline && !Initial.isConnected && Initial.isInternetReachable.None?
    ensures Derive(NetReport(None, None, None)) == Initial
  {
  }
}
