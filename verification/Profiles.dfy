/** Connection profiles and the devices they apply to (src/connection/profile.rs, src/connection/device.rs). */
module Profiles {
  import opened Model
  import opened Wrappers
  import opened IpTypes

  type ProfileId = string
  type MacAddress = s: seq<byte> | |s| == 6 witness [0, 0, 0, 0, 0, 0]

  datatype SecretReference = Keyring(identifier: string) | Agent(identifier: string)

  datatype KeyManagement = Open | WpaPsk | WpaEap | Sae | Owe

  datatype WifiSecurity = WifiSecurity(
    keyManagement: KeyManagement,
    secret: Option<SecretReference>,
    identity: Option<string>)

  datatype WifiSettings = WifiSettings(
    ssid: seq<byte>,
    bssid: Option<MacAddress>,
    hidden: bool,
    security: WifiSecurity)

  datatype Duplex = Half | Full

  datatype EthernetSettings = EthernetSettings(
    autonegotiation: Option<bool>,
    speedMbit: Option<u32>,
    duplex: Option<Duplex>)

  datatype ConnectionType = Wifi(wifi: WifiSettings) | Ethernet(ethernet: EthernetSettings)

  datatype DeviceMatch = DeviceMatch(interfaceName: Option<string>, macAddress: Option<MacAddress>)

  datatype ConnectionProfile = ConnectionProfile(
    id: ProfileId,
    name: string,
    connectionType: ConnectionType,
    deviceMatch: DeviceMatch,
    priority: i32,
    autoconnect: bool,
    enabled: bool,
    ipv4: IpConfig,
    ipv6: IpConfig)

  datatype DeviceKind = WifiDevice | EthernetDevice

  datatype DeviceInfo = DeviceInfo(
    kind: DeviceKind,
    interfaceName: string,
    macAddress: Option<MacAddress>)

  predicate Matches(profile: ConnectionProfile, device: DeviceInfo) {
    && (if profile.connectionType.Wifi? then device.kind.WifiDevice? else device.kind.EthernetDevice?)
    && (profile.deviceMatch.interfaceName.Some? ==>
          profile.deviceMatch.interfaceName.value == device.interfaceName)
    && (profile.deviceMatch.macAddress.Some? ==> device.macAddress == profile.deviceMatch.macAddress)
  }

  // --- Validation --------------------------------------------------------------------------

  datatype ValidationError =
    | EmptyId | InvalidIdChars | EmptyName | EmptySsid | SsidTooLong | MissingSecret | SecretNotAllowed
    | MissingIdentity | InvalidSpeed | ManualAddressRequired | ManualPrefixRequired | PrefixOutOfRange
    | AddressFamilyMismatch

  predicate IdChar(c: char) {
    '0' <= c <= '9' || 'a' <= c <= 'z' || 'A' <= c <= 'Z' || c == '-' || c == '_'
  }

  function ValidateSecurity(security: WifiSecurity): Option<ValidationError> {
    match security.keyManagement
    case WpaPsk => if security.secret.None? then Some(MissingSecret) else None
    case Sae => if security.secret.None? then Some(MissingSecret) else None
    case WpaEap => if security.identity.None? || security.identity.value == [] then Some(MissingIdentity) else None
    case Open => if security.secret.Some? then Some(SecretNotAllowed) else None
    case Owe => if security.secret.Some? then Some(SecretNotAllowed) else None
  }

  function ValidateType(connectionType: ConnectionType): Option<ValidationError> {
    match connectionType
    case Wifi(settings) =>
      if |settings.ssid| == 0 then Some(EmptySsid)
      else if |settings.ssid| > 32 then Some(SsidTooLong)
      else ValidateSecurity(settings.security)
    case Ethernet(settings) =>
      if settings.speedMbit == Some(0) then Some(InvalidSpeed) else None
  }

  function ValidateIpConfig(config: IpConfig, expectV4: bool): Option<ValidationError> {
    if !config.ipMethod.Manual? then None
    else if config.address.None? then Some(ManualAddressRequired)
    else if config.address.value.V4? != expectV4 then Some(AddressFamilyMismatch)
    else if config.prefixLength.None? then Some(ManualPrefixRequired)
    else if config.prefixLength.value > (if expectV4 then 32 else 128) then Some(PrefixOutOfRange)
    else None
  }

  /** The first problem found, if any. */
  function Validate(profile: ConnectionProfile): Option<ValidationError> {
    if profile.id == [] then Some(EmptyId)
    else if exists i :: 0 <= i < |profile.id| && !IdChar(profile.id[i]) then Some(InvalidIdChars)
    else if profile.name == [] then Some(EmptyName)
    else if ValidateType(profile.connectionType).Some? then ValidateType(profile.connectionType)
    else if ValidateIpConfig(profile.ipv4, true).Some? then ValidateIpConfig(profile.ipv4, true)
    else ValidateIpConfig(profile.ipv6, false)
  }

  /** What a valid profile is: an id of letters, digits, '-' and '_', a name, a network name of 1 to 32 bytes with
      exactly the secret or identity its key management needs or a non-zero speed, and manual addresses of the
      right family with a prefix that fits. */
  lemma ValidExactly(p: ConnectionProfile)
    ensures Validate(p).None?
            <==> && p.id != [] && p.name != []
                 && (forall i :: 0 <= i < |p.id| ==>
                       || 'a' <= p.id[i] <= 'z' || 'A' <= p.id[i] <= 'Z' || '0' <= p.id[i] <= '9'
                       || p.id[i] == '-' || p.id[i] == '_')
                 && ValidType(p.connectionType) && ValidIp(p.ipv4, true) && ValidIp(p.ipv6, false)
  {
  }

  predicate ValidType(t: ConnectionType) {
    match t
    case Wifi(w) =>
      && 1 <= |w.ssid| <= 32
      && (w.security.keyManagement.WpaPsk? || w.security.keyManagement.Sae? ==> w.security.secret.Some?)
      && (w.security.keyManagement.Open? || w.security.keyManagement.Owe? ==> w.security.secret.None?)
      && (w.security.keyManagement.WpaEap? ==> w.security.identity.Some? && w.security.identity.value != [])
    case Ethernet(e) => e.speedMbit != Some(0)
  }

  predicate ValidIp(c: IpConfig, expectV4: bool) {
    c.ipMethod.Manual? ==>
      && c.address.Some? && (c.address.value.V4? <==> expectV4)
      && c.prefixLength.Some? && c.prefixLength.value <= if expectV4 then 32 else 128
  }

  /** The first problem is the one reported. */
  lemma FirstProblem(p: ConnectionProfile)
    ensures p.id == [] ==> Validate(p) == Some(EmptyId)
    ensures p.id != [] && (exists i :: 0 <= i < |p.id| && !IdChar(p.id[i])) ==> Validate(p) == Some(InvalidIdChars)
    ensures p.id != [] && (forall i :: 0 <= i < |p.id| ==> IdChar(p.id[i])) && p.name == []
            ==> Validate(p) == Some(EmptyName)
  {
  }
}
