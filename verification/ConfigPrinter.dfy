/** A canonical way to write a configuration down, and the proof that the loader reads it back. */
module ConfigPrinter {
  import opened Words
  import opened Terms
  import opened Text
  import opened Config
  import opened ConfigMeaning
  import Routing

  type Encoder = Key -> string

  function Assignment(key: string, value: string): string {
    key + " = " + value
  }

  function RoleText(role: Role): string {
    if role == Initiator then "initiator" else "responder"
  }

  function EndpointText(p: PeerConf): string {
    p.host + [':'] + Dec(p.port)
  }

  function PrefixText(quad: string, prefix: nat): string {
    quad + ['/'] + Dec(prefix)
  }

  // ---------------------------------------------------------------- values

  lemma DecChars(n: nat)
    ensures ':' !in Dec(n) && '/' !in Dec(n) && IsTrimmed(Dec(n)) && !IsSpace(Dec(n)[|Dec(n)| - 1])
  {
    assert IsDigit(Dec(n)[0]) && IsDigit(Dec(n)[|Dec(n)| - 1]);
  }

  lemma {:induction false} DecLength(n: nat, digits: nat)
    requires n < Pow10(digits) && digits > 0
    ensures |Dec(n)| <= digits
  {
    if n < 10 {
    } else {
      DecLength(n / 10, digits - 1);
    }
  }

  function Pow10(k: nat): nat {
    if k == 0 then 1 else 10 * Pow10(k - 1)
  }

  lemma EndpointReads(p: PeerConf)
    requires p.host != "" && 1 <= p.port <= 65535 && |EndpointText(p)| < MAX_HOST
    ensures ParseEndpoint(EndpointText(p)) == Some((p.host, p.port))
  {
    DecChars(p.port);
    CutLastJoin(p.host, ':', Dec(p.port));
    FullLongDec(p.port);
  }

  lemma PrefixReads(quad: string, prefix: nat)
    requires ParseQuad(quad).Some? && prefix <= 32
    ensures ParsePrefix(PrefixText(quad, prefix)) == Some((quad, ParseQuad(quad).value, prefix))
  {
    QuadChars(quad);
    DecChars(prefix);
    DecLength(prefix, 2);
    CutJoin(quad, '/', Dec(prefix));
    FullLongDec(prefix);
  }

  lemma PrefixTrimmed(quad: string, prefix: nat)
    requires quad != [] && IsTrimmed(quad)
    ensures IsTrimmed(PrefixText(quad, prefix))
  {
    DecChars(prefix);
  }

  lemma DottedTrimmed(a: Routing.Address)
    ensures Dotted(a) != [] && IsTrimmed(Dotted(a))
  {
    QuadRoundTrip(a);
    QuadChars(Dotted(a));
  }

  lemma PortReads(port: nat)
    requires 1 <= port <= 65535
    ensures ParsePort(Dec(port)) == Some(port)
  {
    FullLongDec(port);
  }

  lemma RoleReads(role: Role)
    ensures ParseRole(RoleText(role)) == Some(role) && IsTrimmed(RoleText(role))
  {
    assert Lower("responder"[0]) != Lower("initiator"[0]);
  }

  // ---------------------------------------------------------------- lines

  predicate PlainKey(key: string) {
    key != "" && IsTrimmed(key) && '=' !in key && key[0] != '#' && key[0] != ';' && key[0] != '['
  }

  lemma TrimmedAssignment(key: string, value: string)
    requires PlainKey(key) && IsTrimmed(value)
    ensures Trim(Assignment(key, value)) == if value == "" then key + [' '] + ['='] else Assignment(key, value)
  {
    var raw := Assignment(key, value);
    if value == "" {
      var t := key + [' '] + ['='];
      assert raw == [] + t + [' '];
      TrimIs(raw, [], t, [' ']);
    } else {
      assert raw == [] + raw + [];
      TrimIs(raw, [], raw, []);
    }
  }

  lemma AssignmentCut(key: string, value: string)
    requires PlainKey(key) && IsTrimmed(value)
    ensures Cut(Trim(Assignment(key, value)), '=') == Some((key + [' '], if value == "" then "" else [' '] + value))
  {
    TrimmedAssignment(key, value);
    var right := if value == "" then "" else [' '] + value;
    assert Trim(Assignment(key, value)) == key + [' '] + ['='] + right;
    CutJoin(key + [' '], '=', right);
  }

  lemma TrimParts(key: string, value: string)
    requires IsTrimmed(key) && IsTrimmed(value)
    ensures Trim(key + [' ']) == key && Trim(if value == "" then "" else [' '] + value) == value
  {
    assert key + [' '] == [] + key + [' '];
    TrimIs(key + [' '], [], key, [' ']);
    if value != "" {
      assert [' '] + value == [' '] + value + [];
      TrimIs([' '] + value, [' '], value, []);
    }
  }

  lemma AssignmentStarts(key: string, value: string)
    requires PlainKey(key) && IsTrimmed(value)
    ensures Trim(Assignment(key, value)) != "" && Trim(Assignment(key, value))[0] == key[0]
  {
    TrimmedAssignment(key, value);
  }

  /** A printed assignment reads as one, whatever stands in the value, '=' included. */
  lemma AssignmentReads(key: string, value: string)
    requires PlainKey(key) && IsTrimmed(value)
    ensures Classify(Assignment(key, value)) == Assign(FieldOf(key), value)
  {
    AssignmentStarts(key, value);
    AssignmentCut(key, value);
    TrimParts(key, value);
  }

  /** How each key is spelled. */
  function KeyName(field: Field): string {
    match field
    case NameField => "Name"
    case DeviceField => "DeviceName"
    case AddressField => "Address"
    case PortField => "ListenPort"
    case PrivateKeyField => "PrivateKey"
    case EndpointField => "Endpoint"
    case PublicKeyField => "PublicKey"
    case RoleField => "Role"
    case AllowedField => "AllowedIPs"
    case UnknownField => "?"
  }

  lemma KeyNamesPlain(field: Field)
    ensures PlainKey(KeyName(field))
  {
  }

  lemma KeyNamesRead(field: Field)
    requires field != UnknownField
    ensures FieldOf(KeyName(field)) == field
  {
    var key := KeyName(field);
    if |key| == 4 {
      assert key[0] == 'N' || key[0] == 'R';
    } else if |key| == 10 {
      assert key[0] == 'D' || key[0] == 'L' || key[0] == 'P' || key[0] == 'A';
    }
  }

  lemma HeaderReads(name: string)
    requires ']' !in name
    ensures Classify(['['] + name + [']']) == Header(TitleOf(name))
  {
    var raw := ['['] + name + [']'];
    assert raw == [] + raw + [];
    TrimIs(raw, [], raw, []);
    assert raw[1..] == name + [']'] + [];
    CutJoin(name, ']', []);
  }

  // ---------------------------------------------------------------- blocks of settings

  type Pair = (Field, string)

  function AssignLines(kvs: seq<Pair>): seq<Line> {
    if kvs == [] then [] else AssignLines(kvs[..|kvs| - 1]) + [Assign(kvs[|kvs| - 1].0, kvs[|kvs| - 1].1)]
  }

  function AssignText(kvs: seq<Pair>): seq<string> {
    if kvs == [] then [] else AssignText(kvs[..|kvs| - 1]) + [Assignment(KeyName(kvs[|kvs| - 1].0), kvs[|kvs| - 1].1)]
  }

  function Apply(m: Settings, kvs: seq<Pair>): Settings {
    if kvs == [] then m else Apply(m, kvs[..|kvs| - 1])[kvs[|kvs| - 1].0 := kvs[|kvs| - 1].1]
  }

  predicate Spelled(kvs: seq<Pair>) {
    forall k | 0 <= k < |kvs| :: kvs[k].0 != UnknownField && IsTrimmed(kvs[k].1)
  }

  predicate LegalIn(w: Where, kvs: seq<Pair>, decode: Decoder) {
    kvs == [] || (LegalIn(w, kvs[..|kvs| - 1], decode)
                  && LineLegal(w, Assign(kvs[|kvs| - 1].0, kvs[|kvs| - 1].1), decode))
  }

  lemma LegalPair(w: Where, kvs: seq<Pair>, p: Pair, decode: Decoder)
    requires LegalIn(w, kvs, decode) && LineLegal(w, Assign(p.0, p.1), decode)
    ensures LegalIn(w, kvs + [p], decode)
  {
    assert (kvs + [p])[..|kvs|] == kvs;
  }

  lemma LinesConcat(a: seq<string>, b: seq<string>)
    ensures Lines(a + b) == Lines(a) + Lines(b)
  {
  }

  lemma {:induction false} AssignTextReads(kvs: seq<Pair>)
    requires Spelled(kvs)
    ensures Lines(AssignText(kvs)) == AssignLines(kvs)
  {
    if kvs == [] {
    } else {
      var (field, value) := kvs[|kvs| - 1];
      AssignTextReads(kvs[..|kvs| - 1]);
      KeyNamesPlain(field);
      KeyNamesRead(field);
      AssignmentReads(KeyName(field), value);
      LinesConcat(AssignText(kvs[..|kvs| - 1]), [Assignment(KeyName(field), value)]);
    }
  }

  /** What a run of assignments adds to the section it stands in. */
  lemma {:induction false} AssignsAdd(ls: seq<Line>, kvs: seq<Pair>, w: Where)
    ensures var more := ls + AssignLines(kvs);
            && WhereAfter(more) == WhereAfter(ls) && PeerHeaders(more) == PeerHeaders(ls)
            && Contents(more, w) == (if w == WhereAfter(ls) then Apply(Contents(ls, w), kvs) else Contents(ls, w))
  {
    if kvs == [] {
      assert ls + AssignLines(kvs) == ls;
    } else {
      var before, l := kvs[..|kvs| - 1], Assign(kvs[|kvs| - 1].0, kvs[|kvs| - 1].1);
      AssignsAdd(ls, before, w);
      assert ls + AssignLines(kvs) == ls + AssignLines(before) + [l];
      SnocParts(ls + AssignLines(before), l);
      SnocContents(ls + AssignLines(before), l, w);
    }
  }

  lemma {:induction false} AssignsLegal(ls: seq<Line>, kvs: seq<Pair>, decode: Decoder)
    requires LinesLegal(ls, decode) && LegalIn(WhereAfter(ls), kvs, decode)
    ensures LinesLegal(ls + AssignLines(kvs), decode)
  {
    if kvs == [] {
      assert ls + AssignLines(kvs) == ls;
    } else {
      var before, l := kvs[..|kvs| - 1], Assign(kvs[|kvs| - 1].0, kvs[|kvs| - 1].1);
      AssignsAdd(ls, before, Nowhere);
      AssignsLegal(ls, before, decode);
      assert ls + AssignLines(kvs) == ls + AssignLines(before) + [l];
      LegalSnoc(ls + AssignLines(before), l, decode);
    }
  }

  // ---------------------------------------------------------------- the printer

  function PeerKeys(p: PeerConf, encode: Encoder): seq<Pair> {
    [(EndpointField, EndpointText(p)), (PublicKeyField, encode(p.publicKey)), (RoleField, RoleText(p.role)),
     (AllowedField, PrefixText(Dotted(p.network), p.prefix))]
  }

  function PublicKeys(c: Conf, prefix: nat): seq<Pair> {
    [(NameField, c.name), (DeviceField, c.tunName), (AddressField, PrefixText(c.address, prefix)),
     (PortField, Dec(c.listenPort))]
  }

  function InterfaceKeys(c: Conf, prefix: nat, encode: Encoder): seq<Pair> {
    PublicKeys(c, prefix) + if c.hasKey then [(PrivateKeyField, encode(c.privateKey))] else []
  }

  function BlockText(name: string, kvs: seq<Pair>): seq<string> {
    [['['] + name + [']']] + AssignText(kvs)
  }

  function AllPeerKeys(ps: seq<PeerConf>, encode: Encoder): (bs: seq<seq<Pair>>)
    ensures |bs| == |ps| && forall k | 0 <= k < |ps| :: bs[k] == PeerKeys(ps[k], encode)
  {
    if ps == [] then [] else AllPeerKeys(ps[..|ps| - 1], encode) + [PeerKeys(ps[|ps| - 1], encode)]
  }

  function PeersText(bs: seq<seq<Pair>>): seq<string> {
    if bs == [] then [] else PeersText(bs[..|bs| - 1]) + BlockText("Peer", bs[|bs| - 1])
  }

  function Print(c: Conf, prefix: nat, encode: Encoder): seq<string> {
    BlockText("Interface", InterfaceKeys(c, prefix, encode)) + PeersText(AllPeerKeys(c.peers, encode))
  }

  /** Text that stands on one line, with no spaces at its ends. */
  predicate Clean(s: string) {
    IsTrimmed(s) && '\n' !in s
  }

  /** Base64 as the loader uses it: what was encoded decodes, and is 44 characters on one line. */
  ghost predicate Codec(encode: Encoder, decode: Decoder, k: Key) {
    decode(encode(k)) == Some(k) && Clean(encode(k)) && |encode(k)| == 44
  }

  ghost predicate PeerPrintable(p: PeerConf, encode: Encoder, decode: Decoder) {
    && p.host != "" && !IsSpace(p.host[0]) && '\n' !in p.host && |EndpointText(p)| < MAX_HOST
    && 1 <= p.port <= 65535 && p.prefix <= 32
    && Codec(encode, decode, p.publicKey)
  }

  ghost predicate NamesPrintable(c: Conf) {
    && Clean(c.name) && |c.name| < MAX_NAME
    && c.tunName != "" && Clean(c.tunName) && |c.tunName| < MAX_DEVICE
    && 1 <= c.listenPort <= 65535
  }

  ghost predicate AddressPrintable(c: Conf, prefix: nat) {
    ParseQuad(c.address).Some? && prefix <= 32 && c.netmask == Netmask(prefix)
  }

  ghost predicate KeyPrintable(c: Conf, encode: Encoder, decode: Decoder) {
    if c.hasKey then Codec(encode, decode, c.privateKey) else c.privateKey == ZERO_KEY && c.peers == []
  }

  ghost predicate InterfacePrintable(c: Conf, prefix: nat, encode: Encoder, decode: Decoder) {
    NamesPrintable(c) && AddressPrintable(c, prefix) && KeyPrintable(c, encode, decode)
  }

  ghost predicate PeersPrintable(ps: seq<PeerConf>, encode: Encoder, decode: Decoder) {
    forall k | 0 <= k < |ps| :: PeerPrintable(ps[k], encode, decode)
  }

  ghost predicate Printable(c: Conf, prefix: nat, encode: Encoder, decode: Decoder) {
    InterfacePrintable(c, prefix, encode, decode) && |c.peers| <= MAX_PEERS && PeersPrintable(c.peers, encode, decode)
  }

  // ---------------------------------------------------------------- what the printed settings mean

  lemma ApplyFour(a: Pair, b: Pair, c: Pair, d: Pair)
    ensures Apply(map[], [a, b, c, d]) == map[][a.0 := a.1][b.0 := b.1][c.0 := c.1][d.0 := d.1]
  {
    assert [a, b, c, d][..3] == [a, b, c] && [a, b, c][..2] == [a, b] && [a, b][..1] == [a] && [a][..0] == [];
    assert Apply(map[], [a]) == map[][a.0 := a.1];
    assert Apply(map[], [a, b]) == map[][a.0 := a.1][b.0 := b.1];
    assert Apply(map[], [a, b, c]) == map[][a.0 := a.1][b.0 := b.1][c.0 := c.1];
  }

  lemma PeerKeysFit(p: PeerConf, w: Where, encode: Encoder, decode: Decoder)
    requires PeerPrintable(p, encode, decode) && w.InPeer?
    ensures Spelled(PeerKeys(p, encode)) && LegalIn(w, PeerKeys(p, encode), decode)
  {
    PeerKeysSpelled(p, encode, decode);
    PeerKeysLegal(p, w, encode, decode);
  }

  lemma PeerKeysSpelled(p: PeerConf, encode: Encoder, decode: Decoder)
    requires PeerPrintable(p, encode, decode)
    ensures Spelled(PeerKeys(p, encode))
  {
    DecChars(p.port);
    DottedTrimmed(p.network);
    PrefixTrimmed(Dotted(p.network), p.prefix);
    assert IsTrimmed(RoleText(p.role)) && IsTrimmed(EndpointText(p));
  }

  lemma {:induction false} AllLegal(w: Where, kvs: seq<Pair>, decode: Decoder)
    requires forall p | p in kvs :: LineLegal(w, Assign(p.0, p.1), decode)
    ensures LegalIn(w, kvs, decode)
  {
    if kvs == [] {
    } else {
      AllLegal(w, kvs[..|kvs| - 1], decode);
      assert kvs[|kvs| - 1] in kvs;
    }
  }

  lemma FourLegal(w: Where, a: Pair, b: Pair, c: Pair, d: Pair, decode: Decoder)
    requires LineLegal(w, Assign(a.0, a.1), decode) && LineLegal(w, Assign(b.0, b.1), decode)
    requires LineLegal(w, Assign(c.0, c.1), decode) && LineLegal(w, Assign(d.0, d.1), decode)
    ensures LegalIn(w, [a, b, c, d], decode)
  {
    AllLegal(w, [a, b, c, d], decode);
  }

  lemma PeerKeysLegal(p: PeerConf, w: Where, encode: Encoder, decode: Decoder)
    requires PeerPrintable(p, encode, decode) && w.InPeer?
    ensures LegalIn(w, PeerKeys(p, encode), decode)
  {
    var kvs := PeerKeys(p, encode);
    EndpointReads(p);
    RoleReads(p.role);
    QuadRoundTrip(p.network);
    PrefixReads(Dotted(p.network), p.prefix);
    FourLegal(w, kvs[0], kvs[1], kvs[2], kvs[3], decode);
  }

  lemma PeerKeysMean(p: PeerConf, encode: Encoder, decode: Decoder)
    requires PeerPrintable(p, encode, decode)
    ensures PeerMeaning(Apply(map[], PeerKeys(p, encode)), decode) == p
    ensures Complete(GivenOf(Apply(map[], PeerKeys(p, encode))))
  {
    var kvs := PeerKeys(p, encode);
    ApplyFour(kvs[0], kvs[1], kvs[2], kvs[3]);
    EndpointReads(p);
    RoleReads(p.role);
    QuadRoundTrip(p.network);
    PrefixReads(Dotted(p.network), p.prefix);
  }

  function InterfaceMap(c: Conf, address: string, port: string, encode: Encoder): Settings {
    var m := map[NameField := c.name, DeviceField := c.tunName, AddressField := address, PortField := port];
    if c.hasKey then m[PrivateKeyField := encode(c.privateKey)] else m
  }

  lemma InterfaceKeysApplied(c: Conf, prefix: nat, encode: Encoder)
    ensures Apply(map[], InterfaceKeys(c, prefix, encode)) ==
            InterfaceMap(c, PrefixText(c.address, prefix), Dec(c.listenPort), encode)
  {
    var kvs := PublicKeys(c, prefix);
    ApplyFour(kvs[0], kvs[1], kvs[2], kvs[3]);
    if c.hasKey {
      assert InterfaceKeys(c, prefix, encode)[..4] == kvs;
    } else {
      assert InterfaceKeys(c, prefix, encode) == kvs;
    }
  }

  lemma InterfaceKeysSpelled(c: Conf, prefix: nat, encode: Encoder, decode: Decoder)
    requires NamesPrintable(c) && KeyPrintable(c, encode, decode) && c.address != [] && IsTrimmed(c.address)
    ensures Spelled(InterfaceKeys(c, prefix, encode))
  {
    PrefixTrimmed(c.address, prefix);
    DecChars(c.listenPort);
  }

  lemma AddressLegal(c: Conf, prefix: nat, decode: Decoder)
    requires ParseQuad(c.address).Some? && prefix <= 32
    ensures LineLegal(InInterface, Assign(AddressField, PrefixText(c.address, prefix)), decode)
  {
    QuadChars(c.address);
    PrefixReads(c.address, prefix);
  }

  lemma PublicPairsLegal(c: Conf, address: string, port: string, decode: Decoder)
    requires NamesPrintable(c) && LineLegal(InInterface, Assign(AddressField, address), decode)
    requires LineLegal(InInterface, Assign(PortField, port), decode)
    ensures LegalIn(InInterface,
                    [(NameField, c.name), (DeviceField, c.tunName), (AddressField, address), (PortField, port)], decode)
  {
    FourLegal(InInterface, (NameField, c.name), (DeviceField, c.tunName), (AddressField, address), (PortField, port),
              decode);
  }

  lemma PublicKeysLegal(c: Conf, prefix: nat, decode: Decoder)
    requires NamesPrintable(c) && LineLegal(InInterface, Assign(AddressField, PrefixText(c.address, prefix)), decode)
    ensures LegalIn(InInterface, PublicKeys(c, prefix), decode)
  {
    PortReads(c.listenPort);
    PublicPairsLegal(c, PrefixText(c.address, prefix), Dec(c.listenPort), decode);
  }

  lemma InterfaceKeysLegal(c: Conf, prefix: nat, encode: Encoder, decode: Decoder)
    requires LegalIn(InInterface, PublicKeys(c, prefix), decode) && KeyPrintable(c, encode, decode)
    ensures LegalIn(InInterface, InterfaceKeys(c, prefix, encode), decode)
  {
    if c.hasKey {
      LegalPair(InInterface, PublicKeys(c, prefix), (PrivateKeyField, encode(c.privateKey)), decode);
    } else {
      assert InterfaceKeys(c, prefix, encode) == PublicKeys(c, prefix);
    }
  }

  lemma InterfaceKeysFit(c: Conf, prefix: nat, encode: Encoder, decode: Decoder)
    requires InterfacePrintable(c, prefix, encode, decode)
    ensures Spelled(InterfaceKeys(c, prefix, encode)) && LegalIn(InInterface, InterfaceKeys(c, prefix, encode), decode)
  {
    QuadChars(c.address);
    InterfaceKeysSpelled(c, prefix, encode, decode);
    AddressLegal(c, prefix, decode);
    PublicKeysLegal(c, prefix, decode);
    InterfaceKeysLegal(c, prefix, encode, decode);
  }

  /** What the map holds, without looking into the texts. */
  ghost predicate HoldsInterface(m: Settings, c: Conf, address: string, port: string, encode: Encoder) {
    && NameField in m && DeviceField in m && AddressField in m && PortField in m
    && m[NameField] == c.name && m[DeviceField] == c.tunName && m[AddressField] == address && m[PortField] == port
    && c.hasKey == (PrivateKeyField in m) && (c.hasKey ==> m[PrivateKeyField] == encode(c.privateKey))
  }

  lemma InterfaceMapHolds(c: Conf, address: string, port: string, encode: Encoder)
    ensures HoldsInterface(InterfaceMap(c, address, port, encode), c, address, port, encode)
  {
  }

  lemma PartsMean(m: Settings, c: Conf, address: string, network: Routing.Address, prefix: nat, port: string,
                  encode: Encoder, decode: Decoder)
    requires HoldsInterface(m, c, address, port, encode) && KeyPrintable(c, encode, decode)
    requires ParsePrefix(address) == Some((c.address, network, prefix)) && ParsePort(port) == Some(c.listenPort)
    ensures NetworkOf(m, AddressField) == (c.address, network, prefix) && PortOf(m) == c.listenPort
    ensures KeyOf(m, PrivateKeyField, decode) == c.privateKey
  {
  }

  lemma InterfaceFromParts(m: Settings, c: Conf, address: string, network: Routing.Address, prefix: nat, port: string,
                           encode: Encoder, decode: Decoder)
    requires HoldsInterface(m, c, address, port, encode) && prefix <= 32 && c.netmask == Netmask(prefix)
    requires NetworkOf(m, AddressField) == (c.address, network, prefix) && PortOf(m) == c.listenPort
    requires KeyOf(m, PrivateKeyField, decode) == c.privateKey
    ensures InterfaceMeaning(m, c.peers, decode) == c
  {
  }

  lemma InterfaceMapMeans(c: Conf, address: string, network: Routing.Address, prefix: nat, port: string,
                          encode: Encoder, decode: Decoder)
    requires prefix <= 32 && c.netmask == Netmask(prefix) && ParsePrefix(address) == Some((c.address, network, prefix))
    requires ParsePort(port) == Some(c.listenPort) && KeyPrintable(c, encode, decode)
    ensures InterfaceMeaning(InterfaceMap(c, address, port, encode), c.peers, decode) == c
  {
    var m := InterfaceMap(c, address, port, encode);
    InterfaceMapHolds(c, address, port, encode);
    PartsMean(m, c, address, network, prefix, port, encode, decode);
    InterfaceFromParts(m, c, address, network, prefix, port, encode, decode);
  }

  lemma InterfaceKeysMean(c: Conf, prefix: nat, encode: Encoder, decode: Decoder)
    requires InterfacePrintable(c, prefix, encode, decode)
    ensures var m := Apply(map[], InterfaceKeys(c, prefix, encode));
            InterfaceMeaning(m, c.peers, decode) == c && AddressField in m && (c.hasKey ==> PrivateKeyField in m)
  {
    InterfaceKeysApplied(c, prefix, encode);
    PrefixReads(c.address, prefix);
    PortReads(c.listenPort);
    InterfaceMapMeans(c, PrefixText(c.address, prefix), ParseQuad(c.address).value, prefix, Dec(c.listenPort), encode,
                      decode);
  }

  // ---------------------------------------------------------------- what the printed lines hold

  function BlockLines(title: Title, kvs: seq<Pair>): seq<Line> {
    [Header(title)] + AssignLines(kvs)
  }

  function PeersLines(bs: seq<seq<Pair>>): seq<Line> {
    if bs == [] then [] else PeersLines(bs[..|bs| - 1]) + BlockLines(PeerTitle, bs[|bs| - 1])
  }

  lemma BlockReads(name: string, kvs: seq<Pair>)
    requires ']' !in name && Spelled(kvs)
    ensures Lines(BlockText(name, kvs)) == BlockLines(TitleOf(name), kvs)
  {
    HeaderReads(name);
    AssignTextReads(kvs);
    LinesConcat([['['] + name + [']']], AssignText(kvs));
  }

  lemma TitlesRead()
    ensures TitleOf("Peer") == PeerTitle && TitleOf("Interface") == InterfaceTitle
    ensures ']' !in "Peer" && ']' !in "Interface"
  {
  }

  lemma {:induction false} PeersTextReads(bs: seq<seq<Pair>>)
    requires forall k | 0 <= k < |bs| :: Spelled(bs[k])
    ensures Lines(PeersText(bs)) == PeersLines(bs)
  {
    if bs == [] {
    } else {
      var before, kvs := bs[..|bs| - 1], bs[|bs| - 1];
      PeersTextReads(before);
      TitlesRead();
      BlockReads("Peer", kvs);
      LinesConcat(PeersText(before), BlockText("Peer", kvs));
    }
  }

  lemma ConcatAssoc(a: seq<Line>, b: seq<Line>, c: seq<Line>)
    ensures a + (b + c) == a + b + c
  {
  }

  /** A printed [Peer] block opens the next section and fills that one only. */
  lemma PeerBlockAdds(ls: seq<Line>, kvs: seq<Pair>, w: Where)
    ensures var more, k := ls + BlockLines(PeerTitle, kvs), PeerHeaders(ls);
            && PeerHeaders(more) == k + 1
            && Contents(more, w) == if w == InPeer(k) then Apply(map[], kvs) else Contents(ls, w)
  {
    var l := Header(PeerTitle);
    ConcatAssoc(ls, [l], AssignLines(kvs));
    SnocParts(ls, l);
    SnocContents(ls, l, w);
    UnopenedSection(ls, PeerHeaders(ls));
    AssignsAdd(ls + [l], kvs, w);
  }

  lemma PeerBlockLegal(ls: seq<Line>, kvs: seq<Pair>, decode: Decoder)
    requires LinesLegal(ls, decode) && LegalIn(InPeer(PeerHeaders(ls)), kvs, decode)
    ensures LinesLegal(ls + BlockLines(PeerTitle, kvs), decode)
  {
    var l := Header(PeerTitle);
    ConcatAssoc(ls, [l], AssignLines(kvs));
    SnocParts(ls, l);
    LegalSnoc(ls, l, decode);
    AssignsLegal(ls + [l], kvs, decode);
  }

  ghost predicate Holds(ls: seq<Line>, bs: seq<seq<Pair>>) {
    PeerHeaders(ls) == |bs| && forall k: nat | k < |bs| :: Contents(ls, InPeer(k)) == Apply(map[], bs[k])
  }

  lemma HoldsOneMore(ls: seq<Line>, bs: seq<seq<Pair>>, kvs: seq<Pair>, more: seq<Line>, all: seq<seq<Pair>>)
    requires Holds(ls, bs) && more == ls + BlockLines(PeerTitle, kvs) && all == bs + [kvs]
    ensures Holds(more, all) && Contents(more, InInterface) == Contents(ls, InInterface)
  {
    PeerBlockAdds(ls, kvs, InInterface);
    forall k: nat | k < |all| ensures Contents(more, InPeer(k)) == Apply(map[], all[k]) {
      PeerBlockAdds(ls, kvs, InPeer(k));
    }
  }

  lemma {:induction false} PeersAdd(ls: seq<Line>, bs: seq<seq<Pair>>)
    requires PeerHeaders(ls) == 0
    ensures Holds(ls + PeersLines(bs), bs) && Contents(ls + PeersLines(bs), InInterface) == Contents(ls, InInterface)
  {
    if bs == [] {
      assert ls + PeersLines(bs) == ls;
    } else {
      var before, kvs := bs[..|bs| - 1], bs[|bs| - 1];
      PeersAdd(ls, before);
      ConcatAssoc(ls, PeersLines(before), BlockLines(PeerTitle, kvs));
      HoldsOneMore(ls + PeersLines(before), before, kvs, ls + PeersLines(bs), bs);
    }
  }

  lemma {:induction false} PeersLegal(ls: seq<Line>, bs: seq<seq<Pair>>, decode: Decoder)
    requires PeerHeaders(ls) == 0 && LinesLegal(ls, decode)
    requires forall k: nat | k < |bs| :: LegalIn(InPeer(k), bs[k], decode)
    ensures LinesLegal(ls + PeersLines(bs), decode)
  {
    if bs == [] {
      assert ls + PeersLines(bs) == ls;
    } else {
      var before, kvs := bs[..|bs| - 1], bs[|bs| - 1];
      PeersLegal(ls, before, decode);
      PeersAdd(ls, before);
      ConcatAssoc(ls, PeersLines(before), BlockLines(PeerTitle, kvs));
      PeerBlockLegal(ls + PeersLines(before), kvs, decode);
    }
  }

  lemma InterfaceBlock(kvs: seq<Pair>, decode: Decoder)
    requires LegalIn(InInterface, kvs, decode)
    ensures var ls := BlockLines(InterfaceTitle, kvs);
            PeerHeaders(ls) == 0 && LinesLegal(ls, decode) && Contents(ls, InInterface) == Apply(map[], kvs)
  {
    var l := Header(InterfaceTitle);
    assert BlockLines(InterfaceTitle, kvs) == [] + [l] + AssignLines(kvs);
    SnocParts([], l);
    SnocContents([], l, InInterface);
    LegalSnoc([], l, decode);
    AssignsAdd([] + [l], kvs, InInterface);
    AssignsLegal([] + [l], kvs, decode);
  }

  lemma HeldPeerMeans(ls: seq<Line>, ps: seq<PeerConf>, k: nat, encode: Encoder, decode: Decoder)
    requires k < |ps| && PeerPrintable(ps[k], encode, decode)
    requires Contents(ls, InPeer(k)) == Apply(map[], AllPeerKeys(ps, encode)[k])
    ensures PeerMeaning(Contents(ls, InPeer(k)), decode) == ps[k] && Complete(GivenOf(Contents(ls, InPeer(k))))
  {
    PeerKeysMean(ps[k], encode, decode);
  }

  lemma PeersAre(ls: seq<Line>, ps: seq<PeerConf>, decode: Decoder)
    requires forall k: nat | k < |ps| :: PeerMeaning(Contents(ls, InPeer(k)), decode) == ps[k]
    ensures PeersMeaning(ls, |ps|, decode) == ps
  {
  }

  lemma HeldPeersMean(ls: seq<Line>, ps: seq<PeerConf>, encode: Encoder, decode: Decoder)
    requires Holds(ls, AllPeerKeys(ps, encode)) && PeersPrintable(ps, encode, decode)
    ensures PeersMeaning(ls, |ps|, decode) == ps && SectionsComplete(ls, |ps|)
  {
    forall k: nat | k < |ps|
      ensures PeerMeaning(Contents(ls, InPeer(k)), decode) == ps[k] && Complete(GivenOf(Contents(ls, InPeer(k))))
    {
      HeldPeerMeans(ls, ps, k, encode, decode);
    }
    PeersAre(ls, ps, decode);
  }

  lemma AllPeerKeysFit(ps: seq<PeerConf>, encode: Encoder, decode: Decoder)
    requires PeersPrintable(ps, encode, decode)
    ensures forall k: nat | k < |ps| :: Spelled(AllPeerKeys(ps, encode)[k])
    ensures forall k: nat | k < |ps| :: LegalIn(InPeer(k), AllPeerKeys(ps, encode)[k], decode)
  {
    forall k: nat | k < |ps|
      ensures Spelled(AllPeerKeys(ps, encode)[k]) && LegalIn(InPeer(k), AllPeerKeys(ps, encode)[k], decode)
    {
      PeerKeysFit(ps[k], InPeer(k), encode, decode);
    }
  }

  lemma PrintedLines(c: Conf, prefix: nat, encode: Encoder, decode: Decoder)
    requires Printable(c, prefix, encode, decode)
    ensures Lines(Print(c, prefix, encode)) ==
              BlockLines(InterfaceTitle, InterfaceKeys(c, prefix, encode)) + PeersLines(AllPeerKeys(c.peers, encode))
  {
    var kvs, bs := InterfaceKeys(c, prefix, encode), AllPeerKeys(c.peers, encode);
    InterfaceKeysFit(c, prefix, encode, decode);
    AllPeerKeysFit(c.peers, encode, decode);
    TitlesRead();
    BlockReads("Interface", kvs);
    PeersTextReads(bs);
    LinesConcat(BlockText("Interface", kvs), PeersText(bs));
  }

  lemma PrintedMeans(c: Conf, prefix: nat, encode: Encoder, decode: Decoder)
    requires Printable(c, prefix, encode, decode)
    ensures var ls := Lines(Print(c, prefix, encode)); Accepted(ls, decode) && FileMeaning(ls, decode) == c
  {
    var kvs, bs := InterfaceKeys(c, prefix, encode), AllPeerKeys(c.peers, encode);
    PrintedLines(c, prefix, encode, decode);
    InterfaceKeysFit(c, prefix, encode, decode);
    AllPeerKeysFit(c.peers, encode, decode);
    InterfaceBlock(kvs, decode);
    PeersAdd(BlockLines(InterfaceTitle, kvs), bs);
    PeersLegal(BlockLines(InterfaceTitle, kvs), bs, decode);
    HeldPeersMean(Lines(Print(c, prefix, encode)), c.peers, encode, decode);
    InterfaceKeysMean(c, prefix, encode, decode);
  }

  /** Loading undoes printing, for every configuration whose strings are trimmed and fit their buffers. */
  lemma PrintedConfigLoads(c: Conf, prefix: nat, encode: Encoder, decode: Decoder)
    requires Printable(c, prefix, encode, decode)
    ensures Load(Print(c, prefix, encode), decode) == Some(c)
  {
    PrintedMeans(c, prefix, encode, decode);
    LoadMeans(Print(c, prefix, encode), decode);
  }
}
