/** The profile record the server builds and the browser client lists. */
module Profiles {

  /** One listed VPN server: a display name, its `.ovpn` download links, and two labels. */
  datatype Profile = Profile(country: string, ovpnLinks: seq<string>, uptime: string, ping: string)

  /**
   * A profile the client can select: it has a first link (the client reads
   * `ovpnLinks[0]`) and that link is not the empty string.
   */
  predicate Selectable(p: Profile) {
    |p.ovpnLinks| > 0 && p.ovpnLinks[0] != ""
  }

  /** Every link of the profile is a non-empty string. */
  predicate LinksNonEmpty(p: Profile) {
    forall i :: 0 <= i < |p.ovpnLinks| ==> p.ovpnLinks[i] != ""
  }
}
