/** The configuration loader: a line-driven state machine over [Interface] and [Peer] sections. */
module Config {
  import opened Words
  import opened Terms
  import opened Text
  import Routing

  const MAX_NAME: nat := 64
  const MAX_DEVICE: nat := 16
  const MAX_HOST: nat := 256
  const MAX_LINE: nat := 512
  const MAX_PEERS: nat := 8
  const DEFAULT_PORT: nat := 51820

  type Key = seq<Byte>

  const ZERO_KEY: Key := [0, 0, 0, 0, 0, 0, 0, 0, 0, 0, 0, 0, 0, 0, 0, 0,
                          0, 0, 0, 0, 0, 0, 0, 0, 0, 0, 0, 0, 0, 0, 0, 0]

  /** crypto_decode_base64 on a 32-byte key. */
  type Decoder = string -> Option<Key>

  datatype PeerConf = PeerConf(host: string, port: nat, publicKey: Key, role: Role, network: Routing.Address,
                               prefix: nat)

  datatype Conf = Conf(name: string, tunName: string, address: string, netmask: string, listenPort: nat,
                       hasKey: bool, privateKey: Key, peers: seq<PeerConf>)

  const BLANK_PEER := PeerConf("", 0, ZERO_KEY, Initiator, [0, 0, 0, 0], 0)
  const DEFAULTS := Conf("unnamed-peer", "", "", "", DEFAULT_PORT, false, ZERO_KEY, [])

  // ---------------------------------------------------------------- values

  /** parse_ip_prefix: "a.b.c.d/prefix". */
  function ParsePrefix(s: string): (r: Option<(string, Routing.Address, nat)>)
    ensures r.Some? ==> r.value.2 <= 32 && ParseQuad(r.value.0) == Some(r.value.1)
  {
    if |s| >= MAX_LINE then None
    else match Cut(s, '/')
      case None => None
      case Some((quad, rest)) =>
        var prefix, addr := FullLong(rest), ParseQuad(quad);
        if prefix.None? || prefix.value < 0 || prefix.value > 32 || addr.None? then None
        else Some((quad, addr.value, prefix.value))
  }

  function Netmask(prefix: nat): string
    requires prefix <= 32
  {
    Routing.HostMaskIs(prefix);
    Dotted(Routing.ToNetwork(Routing.HostMask(prefix)))
  }

  /** parse_endpoint_value: "host:port", split at the last colon. */
  function ParseEndpoint(s: string): (r: Option<(string, nat)>)
    ensures r.Some? ==> 1 <= r.value.1 <= 65535 && r.value.0 != ""
  {
    if |s| >= MAX_HOST then None
    else match CutLast(s, ':')
      case None => None
      case Some((host, rest)) =>
        var port := FullLong(rest);
        if host == "" || port.None? || port.value <= 0 || port.value > 65535 then None else Some((host, port.value))
  }

  /** What reads as a prefix: an address, a slash, and a number from 0 to 32. */
  lemma PrefixParses(s: string, quad: string, addr: Routing.Address, prefix: nat)
    ensures ParsePrefix(s) == Some((quad, addr, prefix))
       <==> && |s| < 512 && ParseQuad(quad) == Some(addr) && prefix <= 32
            && exists rest :: s == quad + ['/'] + rest && FullLong(rest) == Some(prefix)
  {
    if ParsePrefix(s) == Some((quad, addr, prefix)) {
      CutJoins(s, '/');
      assert FullLong(Cut(s, '/').value.1) == Some(prefix);
    }
    if ParseQuad(quad).Some? {
      QuadChars(quad);
      forall rest | s == quad + ['/'] + rest ensures Cut(s, '/') == Some((quad, rest)) {
        CutJoin(quad, '/', rest);
      }
    }
  }

  lemma CutLastJoins(s: string, c: char)
    requires CutLast(s, c).Some?
    ensures s == CutLast(s, c).value.0 + [c] + CutLast(s, c).value.1 && c !in CutLast(s, c).value.1
  {
  }

  /** What reads as an endpoint: a host, which may hold colons, a last colon, and a port. */
  lemma EndpointParses(s: string, host: string, port: nat)
    ensures ParseEndpoint(s) == Some((host, port))
       <==> && |s| < 256 && host != "" && 1 <= port <= 65535
            && exists rest :: s == host + [':'] + rest && ':' !in rest && FullLong(rest) == Some(port)
  {
    if ParseEndpoint(s) == Some((host, port)) {
      CutLastJoins(s, ':');
      assert FullLong(CutLast(s, ':').value.1) == Some(port);
    }
    forall rest | s == host + [':'] + rest && ':' !in rest ensures CutLast(s, ':') == Some((host, rest)) {
      CutLastJoin(host, ':', rest);
    }
  }

  function ParsePort(s: string): (r: Option<nat>)
    ensures r.Some? ==> 1 <= r.value <= 65535
  {
    var port := FullLong(s);
    if port.None? || port.value <= 0 || port.value > 65535 then None else Some(port.value)
  }

  function ParseRole(s: string): Option<Role> {
    if SameNoCase(s, "initiator") then Some(Initiator) else if SameNoCase(s, "responder") then Some(Responder) else None
  }

  // ---------------------------------------------------------------- lines

  /** Section titles and keys, recognised without regard to case. */
  datatype Title = InterfaceTitle | PeerTitle | UnknownTitle

  function TitleOf(name: string): Title {
    if SameNoCase(name, "Interface") then InterfaceTitle else if SameNoCase(name, "Peer") then PeerTitle
        else UnknownTitle
  }

  datatype Field =
    | NameField | DeviceField | AddressField | PortField | PrivateKeyField
    | EndpointField | PublicKeyField | RoleField | AllowedField | UnknownField

  function FieldOf(key: string): Field {
    if SameNoCase(key, "Name") then NameField
    else if SameNoCase(key, "DeviceName") then DeviceField
    else if SameNoCase(key, "Address") then AddressField
    else if SameNoCase(key, "ListenPort") then PortField
    else if SameNoCase(key, "PrivateKey") then PrivateKeyField
    else if SameNoCase(key, "Endpoint") then EndpointField
    else if SameNoCase(key, "PublicKey") then PublicKeyField
    else if SameNoCase(key, "Role") then RoleField
    else if SameNoCase(key, "AllowedIPs") then AllowedField
    else UnknownField
  }

  datatype Line = Blank | Unterminated | Header(title: Title) | NoEquals | Assign(field: Field, value: string)

  function Classify(raw: string): Line {
    var t := Trim(raw);
    if t == "" || t[0] == '#' || t[0] == ';' then Blank
    else if t[0] == '[' then
      match Cut(t[1..], ']')
      case None => Unterminated
      case Some((name, _)) => Header(TitleOf(name))
    else
      match Cut(t, '=')
      case None => NoEquals
      case Some((key, value)) => Assign(FieldOf(Trim(key)), Trim(value))
  }

  datatype Section = NoSection | InterfaceSection | PeerSection

  /** Which keys the current [Peer] section has given so far. */
  datatype Given = Given(endpoint: bool, publicKey: bool, role: bool, allowed: bool)

  const NOTHING := Given(false, false, false, false)

  predicate Complete(g: Given) {
    g.endpoint && g.publicKey && g.role && g.allowed
  }

  /** What config_load knows between two lines. The current peer is the last one. */
  datatype Reader = Reader(section: Section, haveAddress: bool, given: Given, cfg: Conf)

  function OnHeader(r: Reader, title: Title): Option<Reader> {
    if r.section == PeerSection && !Complete(r.given) then None
    else match title
      case InterfaceTitle => Some(r.(section := InterfaceSection))
      case PeerTitle =>
        if |r.cfg.peers| >= MAX_PEERS then None
        else Some(r.(section := PeerSection, given := NOTHING, cfg := r.cfg.(peers := r.cfg.peers + [BLANK_PEER])))
      case UnknownTitle => None
  }

  function OnInterfaceKey(r: Reader, field: Field, value: string, decode: Decoder): Option<Reader> {
    match field
    case NameField => if |value| >= MAX_NAME then None else Some(r.(cfg := r.cfg.(name := value)))
    case DeviceField => if |value| >= MAX_DEVICE then None else Some(r.(cfg := r.cfg.(tunName := value)))
    case AddressField => (
      match ParsePrefix(value)
      case None => None
      case Some((quad, _, prefix)) =>
        if |quad| >= 16 then None
        else Some(r.(haveAddress := true, cfg := r.cfg.(address := quad, netmask := Netmask(prefix)))))
    case PortField => (
      match ParsePort(value)
      case None => None
      case Some(port) => Some(r.(cfg := r.cfg.(listenPort := port))))
    case PrivateKeyField => (
      match decode(value)
      case None => None
      case Some(k) => Some(r.(cfg := r.cfg.(hasKey := true, privateKey := k))))
    case _ => None
  }

  function WithPeer(r: Reader, p: PeerConf, g: Given): Reader
    requires r.cfg.peers != []
  {
    r.(given := g, cfg := r.cfg.(peers := r.cfg.peers[|r.cfg.peers| - 1 := p]))
  }

  function OnPeerKey(r: Reader, field: Field, value: string, decode: Decoder): Option<Reader>
    requires r.cfg.peers != []
  {
    var p := r.cfg.peers[|r.cfg.peers| - 1];
    match field
    case EndpointField => (
      match ParseEndpoint(value)
      case None => None
      case Some((host, port)) => Some(WithPeer(r, p.(host := host, port := port), r.given.(endpoint := true))))
    case PublicKeyField => (
      match decode(value)
      case None => None
      case Some(k) => Some(WithPeer(r, p.(publicKey := k), r.given.(publicKey := true))))
    case RoleField => (
      match ParseRole(value)
      case None => None
      case Some(role) => Some(WithPeer(r, p.(role := role), r.given.(role := true))))
    case AllowedField => (
      match ParsePrefix(value)
      case None => None
      case Some((_, addr, prefix)) => Some(WithPeer(r, p.(network := addr, prefix := prefix),
                                                    r.given.(allowed := true))))
    case _ => None
  }

  function OnLine(r: Reader, line: Line, decode: Decoder): Option<Reader>
    requires r.section == PeerSection ==> r.cfg.peers != []
  {
    match line
    case Blank => Some(r)
    case Unterminated => None
    case NoEquals => None
    case Header(title) => OnHeader(r, title)
    case Assign(field, value) =>
      match r.section
      case NoSection => None
      case InterfaceSection => OnInterfaceKey(r, field, value, decode)
      case PeerSection => OnPeerKey(r, field, value, decode)
  }

  function Read(lines: seq<Line>, decode: Decoder): (r: Option<Reader>)
    ensures r.Some? && r.value.section == PeerSection ==> r.value.cfg.peers != []
  {
    if lines == [] then Some(Reader(NoSection, false, NOTHING, DEFAULTS))
    else match Read(lines[..|lines| - 1], decode)
      case None => None
      case Some(r) => OnLine(r, lines[|lines| - 1], decode)
  }

  /** The checks after the last line. */
  function Finish(r: Reader): Option<Conf> {
    if r.section == PeerSection && !Complete(r.given) then None
    else if !r.haveAddress || (r.cfg.peers != [] && !r.cfg.hasKey) then None
    else if r.cfg.tunName == "" then Some(r.cfg.(tunName := "edgar0")) else Some(r.cfg)
  }

  function Load(raw: seq<string>, decode: Decoder): Option<Conf> {
    match Read(Lines(raw), decode)
    case None => None
    case Some(r) => Finish(r)
  }

  function Lines(raw: seq<string>): (ls: seq<Line>)
    ensures |ls| == |raw| && forall k | 0 <= k < |raw| :: ls[k] == Classify(raw[k])
  {
    if raw == [] then [] else Lines(raw[..|raw| - 1]) + [Classify(raw[|raw| - 1])]
  }

  lemma ReadSnoc(raw: seq<string>, k: nat, decode: Decoder)
    requires k < |raw|
    ensures Read(Lines(raw[..k + 1]), decode) ==
              match Read(Lines(raw[..k]), decode) case None => None case Some(r) => OnLine(r, Classify(raw[k]), decode)
  {
    assert raw[..k + 1][..k] == raw[..k];
    assert Lines(raw[..k + 1]) == Lines(raw[..k]) + [Classify(raw[k])];
    assert Lines(raw[..k + 1])[..k] == Lines(raw[..k]);
  }

  /** Once a line is refused, the file is. */
  lemma {:induction false} RefusedForGood(raw: seq<string>, k: nat, decode: Decoder)
    requires k <= |raw| && Read(Lines(raw[..k]), decode).None?
    ensures Read(Lines(raw), decode).None?
    decreases |raw| - k
  {
    if k == |raw| {
      assert raw[..k] == raw;
    } else {
      ReadSnoc(raw, k, decode);
      RefusedForGood(raw, k + 1, decode);
    }
  }

  /** The body of config_load's loop. */
  method ReadLine(r: Reader, raw: string, decode: Decoder) returns (next: Option<Reader>)
    requires r.section == PeerSection ==> r.cfg.peers != []
    ensures next == OnLine(r, Classify(raw), decode)
  {
    var trimmed := TrimBuffer(raw);
    if trimmed == "" || trimmed[0] == '#' || trimmed[0] == ';' {
      return Some(r);
    }
    if trimmed[0] == '[' {
      var close := Cut(trimmed[1..], ']');
      if close.None? {
        return None;
      }
      if r.section == PeerSection && !Complete(r.given) {
        return None;
      }
      if SameNoCase(close.value.0, "Interface") {
        return Some(r.(section := InterfaceSection));
      }
      if SameNoCase(close.value.0, "Peer") && |r.cfg.peers| < MAX_PEERS {
        return Some(r.(section := PeerSection, given := NOTHING, cfg := r.cfg.(peers := r.cfg.peers + [BLANK_PEER])));
      }
      return None;
    }
    var eq := Cut(trimmed, '=');
    if eq.None? {
      return None;
    }
    var key := TrimBuffer(eq.value.0);
    var value := TrimBuffer(eq.value.1);
    if r.section == InterfaceSection {
      return OnInterfaceKey(r, FieldOf(key), value, decode);
    } else if r.section == PeerSection {
      return OnPeerKey(r, FieldOf(key), value, decode);
    }
    return None;
  }

  /** config_load: one pass over the lines, then the checks on the whole. */
  method ConfigLoad(raw: seq<string>, decode: Decoder) returns (result: Option<Conf>)
    ensures result == Load(raw, decode)
  {
    var r := Reader(NoSection, false, NOTHING, DEFAULTS);
    for k := 0 to |raw|
      invariant Read(Lines(raw[..k]), decode) == Some(r)
    {
      ReadSnoc(raw, k, decode);
      var next := ReadLine(r, raw[k], decode);
      if next.None? {
        RefusedForGood(raw, k + 1, decode);
        return None;
      }
      r := next.value;
    }
    assert raw[..|raw|] == raw;
    if r.section == PeerSection && !Complete(r.given) {
      return None;
    }
    if !r.haveAddress {
      return None;
    }
    if |r.cfg.peers| > 0 && !r.cfg.hasKey {
      return None;
    }
    if r.cfg.tunName == "" {
      return Some(r.cfg.(tunName := "edgar0"));
    }
    return Some(r.cfg);
  }
}
