/**
 * The browser client (client.js): the connection status machine kept in
 * `selectedServer`, `isConnected` and the connect button's `disabled` flag,
 * the server-click and connect-button handlers, the initial status check,
 * and the search filter. Every `fetch` outcome and every `confirm` answer is
 * a parameter; each handler runs as one step from its start to its end.
 */
module Client {
  import opened Wrappers
  import opened Strings
  import opened Profiles

  /** The states `updateStatus` knows. */
  datatype Status = Connected | Disconnected | Ready | Connecting | Error

  /** `data.instructions` of a failed connect reply. */
  datatype Instructions = Instructions(message: string, link: string)

  /**
   * The body of a reply as `response.json()` reads it: not JSON at all (the
   * read throws), the JSON literal `null`, or a JSON value whose `error`
   * and `instructions` are read (absent ones are None).
   */
  datatype Body =
    | Unparsable(reason: string)
    | JsonNull
    | Json(error: Option<string>, instructions: Option<Instructions>)

  /** How a `fetch` ended: rejected (network failure), or resolved with a status and a body. */
  datatype Outcome = Rejected(reason: string) | Resolved(ok: bool, body: Body)

  /** The request a handler sends to the server, if any. */
  datatype Request = NoRequest | DisconnectRequest | ConnectRequest(profile: string)

  /** The lines the handlers append to the log panel. */
  datatype LogLine =
    | DisconnectedOk                                          // "Successfully disconnected from VPN"
    | DisconnectFailed(reason: string)                        // "Error: Could not disconnect from VPN - …"
    | SwitchDisconnectFailed(reason: string)                  // "Error: Could not disconnect from current VPN - …"
    | Attempting(profileName: string)                         // "Attempting to connect to profile: …"
    | ConnectedTo(profileName: string)                        // "Successfully connected to …"
    | InstallGuidance(message: string, link: string)          // "Error: OpenVPN is not installed …"
    | ConnectFailed(error: string, profileName: string, url: string)  // "Failed to connect: …"
    | ConnectError(profileName: string, detail: string)       // "Error: Could not connect to VPN …"

  /** The server's error text for a missing VPN client. */
  const NotInstalled := "OpenVPN not installed"

  /** The message of the TypeError that reading `data.error` of a `null` body throws. */
  const NullReadError := "Cannot read properties of null (reading 'error')"

  /** JavaScript truthiness of `selectedServer`: neither null nor the empty string. */
  predicate Truthy(s: Option<string>) {
    s.Some? && s.value != ""
  }

  /** The `/check-connection` reply maps to 'connected' only when it is exactly that word. */
  function InitialStatus(reply: string): (s: Status)
    ensures s == Connected <==> reply == "connected"
    ensures s == Connected || s == Disconnected
  {
    if reply == "connected" then Connected else Disconnected
  }

  /** The connect reply's outcome counts as a success: it resolved with `ok` and a JSON body, `null` included. */
  predicate ConnectAccepted(o: Outcome) {
    o.Resolved? && o.ok && !o.body.Unparsable?
  }

  /** `data.error || 'Unknown error'`: the server's error when it is truthy, else the fallback. */
  function ErrorText(error: Option<string>): (t: string)
    ensures t != ""
    ensures error.Some? && error.value != "" ==> t == error.value
    ensures !(error.Some? && error.value != "") ==> t == "Unknown error"
  {
    if error.Some? && error.value != "" then error.value else "Unknown error"
  }

  /**
   * The log line that reports the end of a connect request for profile
   * `name` downloaded from `url`. Success is reported for an ok reply whose
   * body reads as JSON; install guidance exactly when the server failed with
   * "OpenVPN not installed" and sent instructions; a failure with the
   * server's error for any other failed reply with a readable body; and an
   * exception when the request failed, the body does not read as JSON, or a
   * failed reply's body is `null`.
   */
  function ConnectReport(o: Outcome, name: string, url: string): (line: LogLine)
    ensures line == ConnectedTo(name) <==> ConnectAccepted(o)
    ensures line.InstallGuidance? <==>
      o.Resolved? && !o.ok && o.body.Json? && o.body.error == Some(NotInstalled) && o.body.instructions.Some?
    ensures line.InstallGuidance? ==>
      line == InstallGuidance(o.body.instructions.value.message, o.body.instructions.value.link)
    ensures line.ConnectFailed? <==>
      o.Resolved? && !o.ok && o.body.Json? && !(o.body.error == Some(NotInstalled) && o.body.instructions.Some?)
    ensures line.ConnectFailed? ==> line == ConnectFailed(ErrorText(o.body.error), name, url)
    ensures line.ConnectError? <==> o.Rejected? || o.body.Unparsable? || (!o.ok && o.body.JsonNull?)
    ensures line.ConnectError? ==> line.profileName == name
    ensures o.Rejected? ==> line == ConnectError(name, o.reason)
    ensures o.Resolved? && o.body.Unparsable? ==> line == ConnectError(name, o.body.reason)
    ensures o.Resolved? && !o.ok && o.body.JsonNull? ==> line == ConnectError(name, NullReadError)
  {
    match o
    case Rejected(reason) => ConnectError(name, reason)
    case Resolved(_, Unparsable(reason)) => ConnectError(name, reason)
    case Resolved(ok, JsonNull) => if ok then ConnectedTo(name) else ConnectError(name, NullReadError)
    case Resolved(ok, Json(error, instructions)) =>
      if ok then ConnectedTo(name)
      else if error == Some(NotInstalled) && instructions.Some? then
        InstallGuidance(instructions.value.message, instructions.value.link)
      else ConnectFailed(ErrorText(error), name, url)
  }

  /** The page's module-level state. */
  class Page {
    /** `selectedServer`: the first link of the selected profile, or null. */
    var selectedServer: Option<string>
    /** `isConnected`. */
    var isConnected: bool
    /** `connectBtn.disabled`. */
    var buttonDisabled: bool
    /** The status panel's icon and title: the last state `updateStatus` was asked for, if any. */
    var panel: Option<Status>
    /** The lines appended to the log panel, oldest first. */
    var log: seq<LogLine>

    /** The page never believes it is connected without a selected server. */
    ghost predicate Valid()
      reads this
    {
      isConnected ==> selectedServer.Some?
    }

    /** The page as loaded: nothing selected, not connected, the button as the markup sets it. */
    constructor (buttonInitiallyDisabled: bool)
      ensures Valid()
      ensures selectedServer == None && !isConnected && buttonDisabled == buttonInitiallyDisabled
      ensures panel == None && log == []
    {
      selectedServer := None;
      isConnected := false;
      buttonDisabled := buttonInitiallyDisabled;
      panel := None;
      log := [];
    }

    /**
     * updateStatus(state). The 'connected' and 'ready' texts call
     * `selectedServer.split`, which throws when nothing is selected: the
     * icon and title have then changed already, the button and
     * `isConnected` not yet (`raised`).
     */
    method UpdateStatus(state: Status) returns (raised: bool)
      requires Valid()
      modifies this
      ensures Valid()
      ensures selectedServer == old(selectedServer) && log == old(log)
      ensures panel == Some(state)
      ensures raised <==> (state == Connected || state == Ready) && selectedServer.None?
      ensures raised ==> isConnected == old(isConnected) && buttonDisabled == old(buttonDisabled)
      ensures !raised && state == Connected ==> isConnected && !buttonDisabled
      ensures state == Disconnected ==> !isConnected && buttonDisabled == !Truthy(selectedServer)
      ensures !raised && state == Ready ==> !isConnected && !buttonDisabled
      ensures state == Connecting ==> buttonDisabled && isConnected == old(isConnected)
      ensures state == Error ==> !isConnected && !buttonDisabled
    {
      panel := Some(state);
      raised := false;
      match state {
        case Connected =>
          if selectedServer.None? {
            raised := true;
          } else {
            buttonDisabled := false;
            isConnected := true;
          }
        case Disconnected =>
          buttonDisabled := !Truthy(selectedServer);
          isConnected := false;
        case Ready =>
          if selectedServer.None? {
            raised := true;
          } else {
            buttonDisabled := false;
            isConnected := false;
          }
        case Connecting =>
          buttonDisabled := true;
        case Error =>
          buttonDisabled := false;
          isConnected := false;
      }
    }

    /** selectServer(serverItem, profile): select the profile's first link and show 'ready'. */
    method SelectServer(profile: Profile)
      requires Valid()
      requires |profile.ovpnLinks| > 0
      modifies this
      ensures Valid()
      ensures selectedServer == Some(profile.ovpnLinks[0])
      ensures !isConnected && !buttonDisabled && panel == Some(Ready)
      ensures log == old(log)
    {
      selectedServer := Some(profile.ovpnLinks[0]);
      var _ := UpdateStatus(Ready);
    }

    /**
     * The click handler of a listed profile. While connected it first asks
     * for confirmation (`confirmed`) and sends a disconnect; the profile is
     * selected once that request resolves, whatever its status.
     */
    method ClickServer(profile: Profile, confirmed: bool, disconnect: Outcome) returns (sent: Request)
      requires Valid()
      requires |profile.ovpnLinks| > 0  // the list item is only built after reading ovpnLinks[0]
      modifies this
      ensures Valid()
      ensures old(isConnected) && !confirmed ==> sent == NoRequest && unchanged(this)
      ensures old(isConnected) && confirmed ==> sent == DisconnectRequest
      ensures old(isConnected) && confirmed && disconnect.Rejected? ==>
        log == old(log) + [SwitchDisconnectFailed(disconnect.reason)] &&
        selectedServer == old(selectedServer) && isConnected == old(isConnected) &&
        buttonDisabled == old(buttonDisabled) && panel == old(panel)
      ensures !old(isConnected) || (confirmed && disconnect.Resolved?) ==>
        (!old(isConnected) ==> sent == NoRequest) &&
        selectedServer == Some(profile.ovpnLinks[0]) && !isConnected && !buttonDisabled &&
        panel == Some(Ready) && log == old(log)
    {
      sent := NoRequest;
      if isConnected {
        if !confirmed {
          return;
        }
        sent := DisconnectRequest;
        match disconnect {
          case Rejected(reason) =>
            log := log + [SwitchDisconnectFailed(reason)];
          case Resolved(_, _) =>
            SelectServer(profile);
        }
      } else {
        SelectServer(profile);
      }
    }

    /**
     * The disconnect branch of toggleConnection: shows 'connecting', and
     * when the request succeeds shows 'disconnected' and logs it; a failed
     * request is logged and shows 'error'; a reply that is not ok leaves
     * the page 'connecting'.
     */
    method Disconnect(reply: Outcome) returns (sent: Request)
      requires Valid() && isConnected
      modifies this
      ensures Valid()
      ensures sent == DisconnectRequest && selectedServer == old(selectedServer)
      ensures reply.Rejected? ==>
        panel == Some(Error) && !isConnected && !buttonDisabled &&
        log == old(log) + [DisconnectFailed(reply.reason)]
      ensures reply.Resolved? && reply.ok ==>
        panel == Some(Disconnected) && !isConnected && buttonDisabled == !Truthy(selectedServer) &&
        log == old(log) + [DisconnectedOk]
      ensures reply.Resolved? && !reply.ok ==>
        panel == Some(Connecting) && isConnected && buttonDisabled && log == old(log)
    {
      var _ := UpdateStatus(Connecting);
      sent := DisconnectRequest;
      match reply {
        case Rejected(reason) =>
          log := log + [DisconnectFailed(reason)];
          var _ := UpdateStatus(Error);
        case Resolved(ok, _) =>
          if ok {
            var _ := UpdateStatus(Disconnected);
            log := log + [DisconnectedOk];
          }
      }
    }

    /**
     * The connect branch of toggleConnection: shows 'connecting', logs the
     * attempt, sends the selected link, and ends 'connected' exactly when the
     * reply is accepted, 'error' otherwise, after logging the report.
     */
    method Connect(reply: Outcome) returns (sent: Request)
      requires Valid() && !isConnected && Truthy(selectedServer)
      modifies this
      ensures Valid()
      ensures selectedServer == old(selectedServer)
      ensures
        var url := old(selectedServer).value;
        sent == ConnectRequest(url) &&
        isConnected == ConnectAccepted(reply) && !buttonDisabled &&
        panel == Some(if ConnectAccepted(reply) then Connected else Error) &&
        log == old(log) + [Attempting(LastSegment(url)), ConnectReport(reply, LastSegment(url), url)]
    {
      var _ := UpdateStatus(Connecting);
      var url := selectedServer.value;
      var name := LastSegment(url);
      ghost var before := log;
      log := log + [Attempting(name)];
      sent := ConnectRequest(url);
      var report := ConnectReport(reply, name, url);
      if ConnectAccepted(reply) {
        var _ := UpdateStatus(Connected);
      } else {
        var _ := UpdateStatus(Error);
      }
      log := log + [report];
      assert log == before + [Attempting(name), report];
    }

    /**
     * toggleConnection, the connect button's handler: refuses when nothing
     * is selected and not connected, disconnects when connected, and
     * otherwise connects to the selected server. `reply` is how the one
     * request it sends ended.
     */
    method ToggleConnection(reply: Outcome) returns (sent: Request)
      requires Valid()
      modifies this
      ensures Valid()
      ensures selectedServer == old(selectedServer)
      // refused: no request, nothing changes
      ensures !Truthy(old(selectedServer)) && !old(isConnected) ==> sent == NoRequest && unchanged(this)
      // disconnect path
      ensures old(isConnected) ==> sent == DisconnectRequest
      ensures old(isConnected) && reply.Rejected? ==>
        panel == Some(Error) && !isConnected && !buttonDisabled &&
        log == old(log) + [DisconnectFailed(reply.reason)]
      ensures old(isConnected) && reply.Resolved? && reply.ok ==>
        panel == Some(Disconnected) && !isConnected && buttonDisabled == !Truthy(selectedServer) &&
        log == old(log) + [DisconnectedOk]
      ensures old(isConnected) && reply.Resolved? && !reply.ok ==>
        panel == Some(Connecting) && isConnected && buttonDisabled && log == old(log)
      // connect path
      ensures !old(isConnected) && Truthy(old(selectedServer)) ==>
        var url := old(selectedServer).value;
        sent == ConnectRequest(url) &&
        isConnected == ConnectAccepted(reply) && !buttonDisabled &&
        panel == Some(if ConnectAccepted(reply) then Connected else Error) &&
        log == old(log) + [Attempting(LastSegment(url)), ConnectReport(reply, LastSegment(url), url)]
    {
      if !Truthy(selectedServer) && !isConnected {
        // alert('Please select a server first')
        return NoRequest;
      }
      if isConnected {
        sent := Disconnect(reply);
      } else {
        sent := Connect(reply);
      }
    }

    /**
     * The status check at page load: `reply` is the text of the
     * `/check-connection` reply, None when that request failed (then
     * nothing happens).
     */
    method CheckInitialConnection(reply: Option<string>) returns (raised: bool)
      requires Valid()
      modifies this
      ensures Valid()
      ensures reply.None? ==> !raised && unchanged(this)
      ensures reply.Some? ==> panel == Some(InitialStatus(reply.value))
      ensures selectedServer == old(selectedServer) && log == old(log)
      ensures raised <==> reply == Some("connected") && selectedServer.None?
      ensures raised ==> isConnected == old(isConnected) && buttonDisabled == old(buttonDisabled)
      ensures reply.Some? && !raised ==>
        isConnected == (reply.value == "connected") &&
        buttonDisabled == (reply.value != "connected" && !Truthy(selectedServer))
    {
      raised := false;
      if reply.Some? {
        raised := UpdateStatus(InitialStatus(reply.value));
      }
    }
  }

  // ---------------------------------------------------------------------------
  // Search

  /** A profile matches a lower-cased search term through its name, uptime or ping. */
  predicate Matches(p: Profile, needle: string) {
    Includes(ToLower(p.country), needle) || Includes(ToLower(p.uptime), needle) ||
    Includes(ToLower(p.ping), needle)
  }

  /** `profiles.filter(...)` with an already lower-cased term. */
  function Filter(profiles: seq<Profile>, needle: string): (r: seq<Profile>)
    ensures |r| <= |profiles|
    ensures forall p :: p in r <==> p in profiles && Matches(p, needle)
  {
    if profiles == [] then []
    else
      var rest := Filter(profiles[1..], needle);
      assert forall p :: p in profiles <==> p == profiles[0] || p in profiles[1..];
      if Matches(profiles[0], needle) then [profiles[0]] + rest else rest
  }

  /** Filtering a concatenation filters each part: every matching occurrence is kept, in order. */
  lemma {:induction false} FilterAppend(a: seq<Profile>, b: seq<Profile>, needle: string)
    ensures Filter(a + b, needle) == Filter(a, needle) + Filter(b, needle)
  {
    if a == [] {
      assert a + b == b;
    } else {
      assert (a + b)[0] == a[0] && (a + b)[1..] == a[1..] + b;
      FilterAppend(a[1..], b, needle);
    }
  }

  /**
   * The search box's handler: a profile is shown exactly when it is listed
   * and its lower-cased name, uptime or ping contains the lower-cased input.
   */
  function Search(allProfiles: seq<Profile>, input: string): (r: seq<Profile>)
    ensures |r| <= |allProfiles|
    ensures forall p :: p in r <==>
      (p in allProfiles &&
       (Includes(ToLower(p.country), ToLower(input)) || Includes(ToLower(p.uptime), ToLower(input)) ||
        Includes(ToLower(p.ping), ToLower(input))))
  {
    Filter(allProfiles, ToLower(input))
  }

  /** `a` is `b` with some elements left out, the rest in their order. */
  predicate IsSubsequence(a: seq<Profile>, b: seq<Profile>)
    decreases |b|
  {
    a == [] || (b != [] && ((a[0] == b[0] && IsSubsequence(a[1..], b[1..])) || IsSubsequence(a, b[1..])))
  }

  /** The search keeps the profiles in the order of the list. */
  lemma {:induction false} SearchKeepsOrder(profiles: seq<Profile>, needle: string)
    ensures IsSubsequence(Filter(profiles, needle), profiles)
  {
    if profiles != [] {
      SearchKeepsOrder(profiles[1..], needle);
      var rest := Filter(profiles[1..], needle);
      if Matches(profiles[0], needle) {
        assert ([profiles[0]] + rest)[1..] == rest;
      }
    }
  }

  /** An empty search term keeps every profile. */
  lemma {:induction false} SearchEmptyKeepsAll(profiles: seq<Profile>)
    ensures Search(profiles, "") == profiles
  {
    assert ToLower("") == "";
    if profiles != [] {
      SearchEmptyKeepsAll(profiles[1..]);
      assert "" <= ToLower(profiles[0].country);
    }
  }

  /** The search ignores the case of the term. */
  lemma SearchCaseInsensitive(profiles: seq<Profile>, input: string)
    ensures Search(profiles, input) == Search(profiles, ToLower(input))
  {
    ToLowerIdempotent(input);
  }
}
