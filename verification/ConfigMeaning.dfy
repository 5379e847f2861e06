/** What a configuration file means, read off its headers and assignments without a state machine:
    every setting is the last one its own section gave. The loader computes exactly this, and accepts
    exactly the files described by `Accepted`. */
module ConfigMeaning {
  import opened Words
  import opened Terms
  import opened Config
  import Routing

  type Settings = map<Field, string>

  /** Which section a line belongs to, by the headers above it alone. */
  datatype Where = Nowhere | InInterface | InPeer(k: nat)

  function PeerHeaders(ls: seq<Line>): nat {
    if ls == [] then 0 else PeerHeaders(ls[..|ls| - 1]) + if ls[|ls| - 1] == Header(PeerTitle) then 1 else 0
  }

  function WhereAfter(ls: seq<Line>): Where {
    if ls == [] then Nowhere
    else
      var l, before := ls[|ls| - 1], ls[..|ls| - 1];
      if l == Header(InterfaceTitle) then InInterface
      else if l == Header(PeerTitle) then InPeer(PeerHeaders(before))
      else WhereAfter(before)
  }

  /** The last value each key got in section `w`. An [Interface] section may be reopened. */
  function Contents(ls: seq<Line>, w: Where): Settings {
    if ls == [] then map[]
    else
      var l, before := ls[|ls| - 1], ls[..|ls| - 1];
      if l.Assign? && WhereAfter(before) == w then Contents(before, w)[l.field := l.value] else Contents(before, w)
  }

  lemma SnocParts(ls: seq<Line>, l: Line)
    ensures PeerHeaders(ls + [l]) == PeerHeaders(ls) + if l == Header(PeerTitle) then 1 else 0
    ensures WhereAfter(ls + [l]) == if l == Header(InterfaceTitle) then InInterface
                                    else if l == Header(PeerTitle) then InPeer(PeerHeaders(ls)) else WhereAfter(ls)
  {
    assert (ls + [l])[..|ls|] == ls;
  }

  lemma SnocContents(ls: seq<Line>, l: Line, w: Where)
    ensures Contents(ls + [l], w) ==
              if l.Assign? && WhereAfter(ls) == w then Contents(ls, w)[l.field := l.value] else Contents(ls, w)
  {
    assert (ls + [l])[..|ls|] == ls;
  }

  lemma {:induction false} LastSection(ls: seq<Line>)
    ensures WhereAfter(ls).InPeer? ==> WhereAfter(ls).k == PeerHeaders(ls) - 1
  {
    if ls == [] {
    } else {
      LastSection(ls[..|ls| - 1]);
    }
  }

  lemma {:induction false} UnopenedSection(ls: seq<Line>, k: nat)
    requires k >= PeerHeaders(ls)
    ensures Contents(ls, InPeer(k)) == map[]
  {
    if ls == [] {
    } else {
      LastSection(ls[..|ls| - 1]);
      UnopenedSection(ls[..|ls| - 1], k);
    }
  }

  // ---------------------------------------------------------------- what the settings mean

  function Setting(m: Settings, field: Field, default: string): string {
    if field in m then m[field] else default
  }

  function KeyOf(m: Settings, field: Field, decode: Decoder): Key {
    if field in m && decode(m[field]).Some? then decode(m[field]).value else ZERO_KEY
  }

  function PortOf(m: Settings): nat {
    if PortField in m && ParsePort(m[PortField]).Some? then ParsePort(m[PortField]).value else 51820
  }

  function EndpointOf(m: Settings): (string, nat) {
    if EndpointField in m && ParseEndpoint(m[EndpointField]).Some? then ParseEndpoint(m[EndpointField]).value
        else ("", 0)
  }

  function RoleOf(m: Settings): Role {
    if RoleField in m && ParseRole(m[RoleField]).Some? then ParseRole(m[RoleField]).value else Initiator
  }

  function NetworkOf(m: Settings, field: Field): (r: (string, Routing.Address, nat))
    ensures r.2 <= 32
  {
    if field in m && ParsePrefix(m[field]).Some? then ParsePrefix(m[field]).value else ("", [0, 0, 0, 0], 0)
  }

  function PeerMeaning(m: Settings, decode: Decoder): PeerConf {
    PeerConf(EndpointOf(m).0, EndpointOf(m).1, KeyOf(m, PublicKeyField, decode), RoleOf(m),
             NetworkOf(m, AllowedField).1, NetworkOf(m, AllowedField).2)
  }

  function InterfaceMeaning(m: Settings, peers: seq<PeerConf>, decode: Decoder): Conf {
    Conf(Setting(m, NameField, "unnamed-peer"), Setting(m, DeviceField, ""),
         NetworkOf(m, AddressField).0, if AddressField in m then Netmask(NetworkOf(m, AddressField).2) else "",
         PortOf(m), PrivateKeyField in m, KeyOf(m, PrivateKeyField, decode), peers)
  }

  function GivenOf(m: Settings): Given {
    Given(EndpointField in m, PublicKeyField in m, RoleField in m, AllowedField in m)
  }

  function PeersMeaning(ls: seq<Line>, n: nat, decode: Decoder): (ps: seq<PeerConf>)
    ensures |ps| == n
    ensures forall k | 0 <= k < n :: ps[k] == PeerMeaning(Contents(ls, InPeer(k)), decode)
  {
    if n == 0 then [] else PeersMeaning(ls, n - 1, decode) + [PeerMeaning(Contents(ls, InPeer(n - 1)), decode)]
  }

  function SectionOf(w: Where): Section {
    match w
    case Nowhere => NoSection
    case InInterface => InterfaceSection
    case InPeer(_) => PeerSection
  }

  function LastGiven(ls: seq<Line>): Given {
    if PeerHeaders(ls) == 0 then NOTHING else GivenOf(Contents(ls, InPeer(PeerHeaders(ls) - 1)))
  }

  function FileMeaning(ls: seq<Line>, decode: Decoder): Conf {
    InterfaceMeaning(Contents(ls, InInterface), PeersMeaning(ls, PeerHeaders(ls), decode), decode)
  }

  /** The loader's variables, as a function of the lines read. */
  function ReaderMeaning(ls: seq<Line>, decode: Decoder): (r: Reader)
    ensures r.section == PeerSection ==> r.cfg.peers != []
  {
    LastSection(ls);
    Reader(SectionOf(WhereAfter(ls)), AddressField in Contents(ls, InInterface), LastGiven(ls), FileMeaning(ls, decode))
  }

  // ---------------------------------------------------------------- what is legal

  predicate InterfaceValueLegal(field: Field, value: string, decode: Decoder) {
    match field
    case NameField => |value| < 64
    case DeviceField => |value| < 16
    case AddressField => ParsePrefix(value).Some? && |ParsePrefix(value).value.0| < 16
    case PortField => ParsePort(value).Some?
    case PrivateKeyField => decode(value).Some?
    case _ => false
  }

  predicate PeerValueLegal(field: Field, value: string, decode: Decoder) {
    match field
    case EndpointField => ParseEndpoint(value).Some?
    case PublicKeyField => decode(value).Some?
    case RoleField => ParseRole(value).Some?
    case AllowedField => ParsePrefix(value).Some?
    case _ => false
  }

  /** A line is legal by itself, in the kind of section it stands in. */
  predicate LineLegal(w: Where, l: Line, decode: Decoder) {
    match l
    case Blank => true
    case Unterminated => false
    case NoEquals => false
    case Header(title) => title != UnknownTitle
    case Assign(field, value) =>
      match w
      case Nowhere => false
      case InInterface => InterfaceValueLegal(field, value, decode)
      case InPeer(_) => PeerValueLegal(field, value, decode)
  }

  predicate LinesLegal(ls: seq<Line>, decode: Decoder) {
    ls == [] || (LinesLegal(ls[..|ls| - 1], decode) && LineLegal(WhereAfter(ls[..|ls| - 1]), ls[|ls| - 1], decode))
  }

  /** The first n [Peer] sections give all four keys. */
  predicate SectionsComplete(ls: seq<Line>, n: nat) {
    forall k: nat | k < n :: Complete(GivenOf(Contents(ls, InPeer(k))))
  }

  /** How many [Peer] sections a later header has closed. */
  function ClosedSections(ls: seq<Line>): nat {
    if WhereAfter(ls).InPeer? then WhereAfter(ls).k else PeerHeaders(ls)
  }

  predicate LegalSoFar(ls: seq<Line>, decode: Decoder) {
    LinesLegal(ls, decode) && PeerHeaders(ls) <= 8 && SectionsComplete(ls, ClosedSections(ls))
  }

  predicate Accepted(ls: seq<Line>, decode: Decoder) {
    && LinesLegal(ls, decode)
    && PeerHeaders(ls) <= 8
    && SectionsComplete(ls, PeerHeaders(ls))
    && AddressField in Contents(ls, InInterface)
    && (PeerHeaders(ls) > 0 ==> PrivateKeyField in Contents(ls, InInterface))
  }

  // ---------------------------------------------------------------- one assignment

  lemma InterfaceKeyMeans(m: Settings, r: Reader, field: Field, value: string, decode: Decoder)
    requires r.cfg == InterfaceMeaning(m, r.cfg.peers, decode) && r.haveAddress == (AddressField in m)
    ensures OnInterfaceKey(r, field, value, decode) ==
              if InterfaceValueLegal(field, value, decode)
              then Some(r.(haveAddress := AddressField in m[field := value],
                           cfg := InterfaceMeaning(m[field := value], r.cfg.peers, decode)))
              else None
  {
    match field {
      case NameField =>
      case DeviceField =>
      case AddressField =>
      case PortField =>
      case PrivateKeyField =>
      case _ =>
    }
  }

  lemma PeerKeyMeans(m: Settings, r: Reader, field: Field, value: string, decode: Decoder)
    requires r.cfg.peers != [] && r.cfg.peers[|r.cfg.peers| - 1] == PeerMeaning(m, decode) && r.given == GivenOf(m)
    ensures OnPeerKey(r, field, value, decode) ==
              if PeerValueLegal(field, value, decode)
              then Some(WithPeer(r, PeerMeaning(m[field := value], decode), GivenOf(m[field := value])))
              else None
  {
    match field {
      case EndpointField =>
      case PublicKeyField =>
      case RoleField =>
      case AllowedField =>
      case _ =>
    }
  }

  // ---------------------------------------------------------------- one line

  lemma PeersSame(ls: seq<Line>, more: seq<Line>, n: nat, decode: Decoder)
    requires forall k: nat | k < n :: Contents(more, InPeer(k)) == Contents(ls, InPeer(k))
    ensures PeersMeaning(more, n, decode) == PeersMeaning(ls, n, decode)
  {
  }

  lemma SnocPeersSame(ls: seq<Line>, l: Line, n: nat, decode: Decoder)
    requires l.Assign? ==> !WhereAfter(ls).InPeer? || WhereAfter(ls).k >= n
    ensures PeersMeaning(ls + [l], n, decode) == PeersMeaning(ls, n, decode)
    ensures SectionsComplete(ls + [l], n) == SectionsComplete(ls, n)
  {
    forall k: nat | k < n ensures Contents(ls + [l], InPeer(k)) == Contents(ls, InPeer(k)) {
      SnocContents(ls, l, InPeer(k));
    }
    PeersSame(ls, ls + [l], n, decode);
  }

  lemma LastGivenSame(ls: seq<Line>, l: Line)
    requires l != Header(PeerTitle) && (l.Assign? ==> !WhereAfter(ls).InPeer?)
    ensures LastGiven(ls + [l]) == LastGiven(ls)
  {
    SnocParts(ls, l);
    if PeerHeaders(ls) > 0 {
      SnocContents(ls, l, InPeer(PeerHeaders(ls) - 1));
    }
  }

  lemma QuietLine(ls: seq<Line>, l: Line, decode: Decoder)
    requires !l.Assign? && l != Header(PeerTitle)
    ensures ReaderMeaning(ls + [l], decode) == ReaderMeaning(ls, decode).(section := SectionOf(WhereAfter(ls + [l])))
  {
    SnocParts(ls, l);
    SnocContents(ls, l, InInterface);
    SnocPeersSame(ls, l, PeerHeaders(ls), decode);
    LastGivenSame(ls, l);
  }

  lemma InterfaceAssignLine(ls: seq<Line>, l: Line, decode: Decoder)
    requires l.Assign? && WhereAfter(ls) == InInterface
    ensures var r, m := ReaderMeaning(ls, decode), Contents(ls, InInterface)[l.field := l.value];
            ReaderMeaning(ls + [l], decode) ==
              r.(haveAddress := AddressField in m, cfg := InterfaceMeaning(m, r.cfg.peers, decode))
  {
    SnocParts(ls, l);
    SnocContents(ls, l, InInterface);
    SnocPeersSame(ls, l, PeerHeaders(ls), decode);
    LastGivenSame(ls, l);
  }

  /** A line about peers leaves the interface settings alone. */
  lemma PeerLine(ls: seq<Line>, l: Line, decode: Decoder)
    requires l == Header(PeerTitle) || (l.Assign? && WhereAfter(ls).InPeer?)
    ensures var r := ReaderMeaning(ls, decode);
            ReaderMeaning(ls + [l], decode) ==
              r.(section := PeerSection, given := LastGiven(ls + [l]),
                 cfg := r.cfg.(peers := PeersMeaning(ls + [l], PeerHeaders(ls + [l]), decode)))
  {
    SnocParts(ls, l);
    SnocContents(ls, l, InInterface);
  }

  lemma PeerAdded(ls: seq<Line>, l: Line, n: nat, decode: Decoder)
    requires l == Header(PeerTitle) && n == PeerHeaders(ls)
    ensures PeerHeaders(ls + [l]) == n + 1 && LastGiven(ls + [l]) == NOTHING
    ensures PeersMeaning(ls + [l], n + 1, decode) == PeersMeaning(ls, n, decode) + [BLANK_PEER]
  {
    SnocParts(ls, l);
    SnocContents(ls, l, InPeer(n));
    SnocPeersSame(ls, l, n, decode);
    UnopenedSection(ls, n);
  }

  lemma PeerUpdated(ls: seq<Line>, l: Line, n: nat, m: Settings, decode: Decoder)
    requires l.Assign? && WhereAfter(ls) == InPeer(n) && m == Contents(ls, InPeer(n))[l.field := l.value]
    ensures PeerHeaders(ls + [l]) == PeerHeaders(ls) == n + 1 && LastGiven(ls + [l]) == GivenOf(m)
    ensures PeersMeaning(ls + [l], n + 1, decode) == PeersMeaning(ls, n + 1, decode)[n := PeerMeaning(m, decode)]
  {
    LastSection(ls);
    SnocParts(ls, l);
    SnocContents(ls, l, InPeer(n));
    SnocPeersSame(ls, l, n, decode);
  }

  /** Which lines may follow. */
  predicate MayFollow(ls: seq<Line>, l: Line, decode: Decoder) {
    && LineLegal(WhereAfter(ls), l, decode)
    && (l.Header? && WhereAfter(ls).InPeer? ==> Complete(LastGiven(ls)))
    && (l == Header(PeerTitle) ==> PeerHeaders(ls) < MAX_PEERS)
  }

  lemma LegalSnoc(ls: seq<Line>, l: Line, decode: Decoder)
    ensures LinesLegal(ls + [l], decode) == (LinesLegal(ls, decode) && LineLegal(WhereAfter(ls), l, decode))
  {
    assert (ls + [l])[..|ls|] == ls;
  }

  lemma ClosedSnoc(ls: seq<Line>, l: Line)
    requires l.Header? ==> l.title != UnknownTitle
    ensures ClosedSections(ls + [l]) == if l.Header? then PeerHeaders(ls) else ClosedSections(ls)
    ensures ClosedSections(ls) <= PeerHeaders(ls)
  {
    SnocParts(ls, l);
    LastSection(ls);
  }

  lemma OneMoreComplete(ls: seq<Line>)
    ensures SectionsComplete(ls, PeerHeaders(ls)) ==
            (SectionsComplete(ls, ClosedSections(ls)) && (WhereAfter(ls).InPeer? ==> Complete(LastGiven(ls))))
  {
    LastSection(ls);
  }

  lemma LegalStep(ls: seq<Line>, l: Line, decode: Decoder)
    ensures LegalSoFar(ls + [l], decode) == (LegalSoFar(ls, decode) && MayFollow(ls, l, decode))
  {
    LegalSnoc(ls, l, decode);
    if LineLegal(WhereAfter(ls), l, decode) {
      SnocParts(ls, l);
      ClosedSnoc(ls, l);
      OneMoreComplete(ls);
      if l.Header? {
        SnocPeersSame(ls, l, PeerHeaders(ls), decode);
      } else {
        SnocPeersSame(ls, l, ClosedSections(ls), decode);
      }
    }
  }

  lemma InterfaceAssignMeans(ls: seq<Line>, l: Line, decode: Decoder)
    requires l.Assign? && WhereAfter(ls) == InInterface
    ensures OnLine(ReaderMeaning(ls, decode), l, decode) ==
              if LineLegal(InInterface, l, decode) then Some(ReaderMeaning(ls + [l], decode)) else None
  {
    InterfaceKeyMeans(Contents(ls, InInterface), ReaderMeaning(ls, decode), l.field, l.value, decode);
    InterfaceAssignLine(ls, l, decode);
  }

  lemma PeerAssignMeans(ls: seq<Line>, l: Line, decode: Decoder)
    requires l.Assign? && WhereAfter(ls).InPeer?
    ensures OnLine(ReaderMeaning(ls, decode), l, decode) ==
              if LineLegal(WhereAfter(ls), l, decode) then Some(ReaderMeaning(ls + [l], decode)) else None
  {
    var m := Contents(ls, WhereAfter(ls));
    LastSection(ls);
    PeerKeyMeans(m, ReaderMeaning(ls, decode), l.field, l.value, decode);
    PeerLine(ls, l, decode);
    PeerUpdated(ls, l, WhereAfter(ls).k, m[l.field := l.value], decode);
  }

  lemma PeerHeaderMeans(ls: seq<Line>, l: Line, decode: Decoder)
    requires l == Header(PeerTitle)
    ensures OnLine(ReaderMeaning(ls, decode), l, decode) ==
              if MayFollow(ls, l, decode) then Some(ReaderMeaning(ls + [l], decode)) else None
  {
    PeerLine(ls, l, decode);
    PeerAdded(ls, l, PeerHeaders(ls), decode);
  }

  lemma LineMeans(ls: seq<Line>, l: Line, decode: Decoder)
    ensures OnLine(ReaderMeaning(ls, decode), l, decode) ==
              if MayFollow(ls, l, decode) then Some(ReaderMeaning(ls + [l], decode)) else None
  {
    if l.Assign? && WhereAfter(ls) == InInterface {
      InterfaceAssignMeans(ls, l, decode);
    } else if l.Assign? && WhereAfter(ls).InPeer? {
      PeerAssignMeans(ls, l, decode);
    } else if l == Header(PeerTitle) {
      PeerHeaderMeans(ls, l, decode);
    } else if !l.Assign? {
      SnocParts(ls, l);
      QuietLine(ls, l, decode);
    }
  }

  // ---------------------------------------------------------------- the whole file

  lemma {:induction false} ReadMeans(ls: seq<Line>, decode: Decoder)
    ensures Read(ls, decode) == if LegalSoFar(ls, decode) then Some(ReaderMeaning(ls, decode)) else None
  {
    if ls == [] {
      assert PeersMeaning(ls, 0, decode) == [];
    } else {
      var before, l := ls[..|ls| - 1], ls[|ls| - 1];
      assert ls == before + [l];
      ReadMeans(before, decode);
      LegalStep(before, l, decode);
      LineMeans(before, l, decode);
    }
  }

  /** A device that was given no name, or an empty one, is called edgar0. */
  function Named(c: Conf): Conf {
    if c.tunName == "" then c.(tunName := "edgar0") else c
  }

  /** The loader accepts a file exactly when every line is legal where it stands, there are at most 8
      [Peer] sections, each gives all four keys, and the interface has an address and, if there are
      peers, a private key. The result is then what the file means. */
  lemma LoadMeans(raw: seq<string>, decode: Decoder)
    ensures Load(raw, decode) ==
              if Accepted(Lines(raw), decode) then Some(Named(FileMeaning(Lines(raw), decode))) else None
  {
    var ls := Lines(raw);
    ReadMeans(ls, decode);
    OneMoreComplete(ls);
  }

  lemma {:induction false} ContentsLegal(ls: seq<Line>, w: Where, field: Field, decode: Decoder)
    requires LinesLegal(ls, decode) && field in Contents(ls, w)
    ensures LineLegal(w, Assign(field, Contents(ls, w)[field]), decode)
  {
    var l, before := ls[|ls| - 1], ls[..|ls| - 1];
    if l.Assign? && WhereAfter(before) == w && l.field == field {
    } else {
      ContentsLegal(before, w, field, decode);
    }
  }

  ghost predicate PeerComplete(p: PeerConf, m: Settings, decode: Decoder) {
    && EndpointField in m && ParseEndpoint(m[EndpointField]) == Some((p.host, p.port))
    && PublicKeyField in m && decode(m[PublicKeyField]) == Some(p.publicKey)
    && RoleField in m && ParseRole(m[RoleField]) == Some(p.role)
    && AllowedField in m && ParsePrefix(m[AllowedField]).Some?
    && ParsePrefix(m[AllowedField]).value.1 == p.network && ParsePrefix(m[AllowedField]).value.2 == p.prefix
  }

  lemma CompleteMeans(m: Settings, decode: Decoder)
    requires Complete(GivenOf(m)) && ParseEndpoint(m[EndpointField]).Some? && decode(m[PublicKeyField]).Some?
    requires ParseRole(m[RoleField]).Some? && ParsePrefix(m[AllowedField]).Some?
    ensures PeerComplete(PeerMeaning(m, decode), m, decode)
  {
  }

  /** A value that stands in a [Peer] section is legal there. */
  lemma PeerContentsLegal(ls: seq<Line>, k: nat, field: Field, decode: Decoder)
    requires LinesLegal(ls, decode) && field in Contents(ls, InPeer(k))
    ensures PeerValueLegal(field, Contents(ls, InPeer(k))[field], decode)
  {
    ContentsLegal(ls, InPeer(k), field, decode);
  }

  lemma SectionIsPeer(ls: seq<Line>, k: nat, decode: Decoder)
    requires LinesLegal(ls, decode) && Complete(GivenOf(Contents(ls, InPeer(k))))
    ensures PeerComplete(PeerMeaning(Contents(ls, InPeer(k)), decode), Contents(ls, InPeer(k)), decode)
  {
    PeerContentsLegal(ls, k, EndpointField, decode);
    PeerContentsLegal(ls, k, PublicKeyField, decode);
    PeerContentsLegal(ls, k, RoleField, decode);
    PeerContentsLegal(ls, k, AllowedField, decode);
    CompleteMeans(Contents(ls, InPeer(k)), decode);
  }

  /** If a file loads it has at most 8 peers, one for each [Peer] header, and the k-th has the endpoint, public
      key, role and AllowedIPs that its own section gave last; a key is there if a peer is. */
  lemma LoadedPeersAreComplete(raw: seq<string>, decode: Decoder, k: nat)
    requires Load(raw, decode).Some?
    ensures var c, ls := Load(raw, decode).value, Lines(raw);
            && |c.peers| == PeerHeaders(ls) <= 8
            && (c.peers != [] ==> c.hasKey)
            && (k < |c.peers| ==>
                  && PeerComplete(c.peers[k], Contents(ls, InPeer(k)), decode)
                  && 1 <= c.peers[k].port <= 65535 && c.peers[k].host != "" && c.peers[k].prefix <= 32)
  {
    LoadMeans(raw, decode);
    if k < PeerHeaders(Lines(raw)) {
      SectionIsPeer(Lines(raw), k, decode);
    }
  }
}
