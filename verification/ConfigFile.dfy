/**
 Configuration files as text: how fgets cuts them into pieces, what the loader makes of them, and how a
 configuration is written to one.
 */
module ConfigFile {
  import opened Words
  import opened Terms
  import opened Text
  import opened Config
  import opened ConfigMeaning
  import opened ConfigPrinter

  // ---------------------------------------------------------------- fgets

  /** A piece as fgets returns it: a newline stands at its end or nowhere. */
  predicate EndsLine(s: string) {
    s == [] || '\n' !in s[..|s| - 1]
  }

  predicate Pieced(raw: seq<string>) {
    forall k | 0 <= k < |raw| :: EndsLine(raw[k])
  }

  /** One call of fgets with the loader's buffer: up to a newline, and at most 511 characters. */
  function FirstPiece(text: string): (piece: string)
    requires text != []
    ensures piece != [] && piece <= text && |piece| < 512 && EndsLine(piece)
    ensures piece[|piece| - 1] == '\n' || |piece| == 511 || piece == text
  {
    var room := if |text| < MAX_LINE then text else text[..MAX_LINE - 1];
    match IndexOf(room, '\n')
    case None => room
    case Some(k) => room[..k + 1]
  }

  function Pieces(text: string): (raw: seq<string>)
    ensures Pieced(raw)
    decreases |text|
  {
    if text == [] then [] else [FirstPiece(text)] + Pieces(text[|FirstPiece(text)|..])
  }

  function Joined(raw: seq<string>): string {
    if raw == [] then [] else raw[0] + Joined(raw[1..])
  }

  lemma JoinedCons(piece: string, rest: seq<string>)
    ensures Joined([piece] + rest) == piece + Joined(rest)
  {
    assert ([piece] + rest)[1..] == rest;
  }

  lemma PrefixSplits(piece: string, text: string)
    requires piece <= text
    ensures piece + text[|piece|..] == text
  {
  }

  /** Nothing of the file is lost or repeated. */
  lemma {:induction false} PiecesJoin(text: string)
    ensures Joined(Pieces(text)) == text
    decreases |text|
  {
    if text == [] {
    } else {
      var piece := FirstPiece(text);
      PiecesJoin(text[|piece|..]);
      JoinedCons(piece, Pieces(text[|piece|..]));
      PrefixSplits(piece, text);
    }
  }

  function LoadFile(text: string, decode: Decoder): Option<Conf> {
    Load(Pieces(text), decode)
  }

  // ---------------------------------------------------------------- every loaded file can be printed

  lemma {:induction false} TrimLeftStarts(s: string)
    ensures TrimLeft(s) == [] || !IsSpace(TrimLeft(s)[0])
  {
    if s == [] || !IsSpace(s[0]) {
    } else {
      TrimLeftStarts(s[1..]);
    }
  }

  lemma {:induction false} TrimRightEnds(s: string)
    ensures var t := TrimRight(s); t <= s && (t == [] || !IsSpace(t[|t| - 1]))
  {
    if s == [] || !IsSpace(s[|s| - 1]) {
    } else {
      TrimRightEnds(s[..|s| - 1]);
    }
  }

  lemma TrimIsTrimmed(s: string)
    ensures IsTrimmed(Trim(s))
  {
    TrimLeftStarts(s);
    TrimRightEnds(TrimLeft(s));
  }

  predicate AllClean(ls: seq<Line>) {
    forall k | 0 <= k < |ls| :: ls[k].Assign? ==> Clean(ls[k].value)
  }

  lemma {:induction false} LoadedValuesClean(ls: seq<Line>, w: Where, field: Field)
    requires AllClean(ls) && field in Contents(ls, w)
    ensures Clean(Contents(ls, w)[field])
  {
    var l, before := ls[|ls| - 1], ls[..|ls| - 1];
    if l.Assign? && WhereAfter(before) == w && l.field == field {
    } else {
      LoadedValuesClean(before, w, field);
    }
  }

  lemma LinesClean(raw: seq<string>)
    requires Pieced(raw)
    ensures AllClean(Lines(raw))
  {
    forall k | 0 <= k < |raw| ensures Lines(raw)[k].Assign? ==> Clean(Lines(raw)[k].value) {
      ClassifiedClean(raw[k]);
    }
  }

  lemma {:induction false} TrimLeftIsSuffix(s: string)
    ensures |TrimLeft(s)| <= |s| && TrimLeft(s) == s[|s| - |TrimLeft(s)|..]
  {
    if s == [] || !IsSpace(s[0]) {
    } else {
      TrimLeftIsSuffix(s[1..]);
    }
  }

  /** A newline at the end is trimmed away with the other spaces. */
  lemma TrimDropsNewline(s: string)
    requires EndsLine(s)
    ensures '\n' !in Trim(s)
  {
    var t := TrimLeft(s);
    TrimLeftIsSuffix(s);
    if t != [] {
      var front := t[..|t| - 1];
      assert '\n' !in front by {
        assert front == s[..|s| - 1][|s| - |t|..];
      }
      TrimRightEnds(t);
      if t[|t| - 1] == '\n' {
        TrimRightEnds(front);
      }
    }
  }

  lemma TrimKeepsLine(s: string)
    requires '\n' !in s
    ensures '\n' !in Trim(s)
  {
    TrimLeftIsSuffix(s);
    TrimRightEnds(TrimLeft(s));
  }

  lemma ClassifiedClean(line: string)
    requires EndsLine(line)
    ensures Classify(line).Assign? ==> Clean(Classify(line).value)
  {
    if Classify(line).Assign? {
      var value := Cut(Trim(line), '=').value.1;
      TrimDropsNewline(line);
      CutJoins(Trim(line), '=');
      assert '\n' !in value;
      TrimIsTrimmed(value);
      TrimKeepsLine(value);
    }
  }

  lemma {:induction false} DigitsBelow(s: string)
    requires s == [] || AllDigits(s)
    ensures DigitsValue(s) < Pow10(|s|)
  {
    if s == [] {
    } else {
      DigitsBelow(s[..|s| - 1]);
    }
  }

  /** No spelling of a number is shorter than the canonical one. */
  lemma CanonicalIsShortest(s: string)
    requires FullLong(s).Some? && FullLong(s).value >= 0
    ensures |Dec(FullLong(s).value)| <= |s|
  {
    var t := TrimLeft(s);
    TrimLeftIsSuffix(s);
    var digits := if t[0] == '-' || t[0] == '+' then t[1..] else t;
    DigitsBelow(digits);
    if FullLong(s).value == 0 {
      assert |Dec(0)| == 1;
    } else {
      DecLength(DigitsValue(digits), |digits|);
    }
  }

  lemma EndpointFits(s: string, p: PeerConf)
    requires ParseEndpoint(s) == Some((p.host, p.port)) && Clean(s)
    ensures p.host != "" && !IsSpace(p.host[0]) && '\n' !in p.host && |EndpointText(p)| < MAX_HOST
    ensures 1 <= p.port <= 65535
  {
    CanonicalIsShortest(CutLast(s, ':').value.1);
  }

  ghost predicate CodecFor(encode: Encoder, decode: Decoder) {
    forall s | decode(s).Some? :: Codec(encode, decode, decode(s).value)
  }

  lemma CompletePeerPrintable(m: Settings, p: PeerConf, encode: Encoder, decode: Decoder)
    requires CodecFor(encode, decode) && PeerComplete(p, m, decode) && Clean(m[EndpointField])
    ensures PeerPrintable(p, encode, decode)
  {
    EndpointFits(m[EndpointField], p);
  }

  lemma LoadedPeerPrintable(ls: seq<Line>, k: nat, encode: Encoder, decode: Decoder)
    requires CodecFor(encode, decode) && LinesLegal(ls, decode) && Complete(GivenOf(Contents(ls, InPeer(k))))
    requires AllClean(ls)
    ensures PeerPrintable(PeerMeaning(Contents(ls, InPeer(k)), decode), encode, decode)
  {
    SectionIsPeer(ls, k, decode);
    LoadedValuesClean(ls, InPeer(k), EndpointField);
    CompletePeerPrintable(Contents(ls, InPeer(k)), PeerMeaning(Contents(ls, InPeer(k)), decode), encode, decode);
  }

  lemma LoadedNameFits(ls: seq<Line>, field: Field, default: string, decode: Decoder)
    requires LinesLegal(ls, decode) && AllClean(ls) && (field == NameField || field == DeviceField)
    requires Clean(default) && |default| < MAX_DEVICE
    ensures var name := Setting(Contents(ls, InInterface), field, default);
            Clean(name) && |name| < if field == NameField then MAX_NAME else MAX_DEVICE
  {
    if field in Contents(ls, InInterface) {
      ContentsLegal(ls, InInterface, field, decode);
      LoadedValuesClean(ls, InInterface, field);
    }
  }

  lemma LoadedNamesPrintable(ls: seq<Line>, peers: seq<PeerConf>, decode: Decoder)
    requires LinesLegal(ls, decode) && AllClean(ls)
    ensures NamesPrintable(Named(InterfaceMeaning(Contents(ls, InInterface), peers, decode)))
  {
    LoadedNameFits(ls, NameField, "unnamed-peer", decode);
    LoadedNameFits(ls, DeviceField, "", decode);
  }

  lemma LoadedAddressPrintable(ls: seq<Line>, peers: seq<PeerConf>, decode: Decoder)
    requires LinesLegal(ls, decode) && AddressField in Contents(ls, InInterface)
    ensures var m := Contents(ls, InInterface);
            AddressPrintable(Named(InterfaceMeaning(m, peers, decode)), NetworkOf(m, AddressField).2)
  {
    ContentsLegal(ls, InInterface, AddressField, decode);
  }

  lemma LoadedKeyPrintable(ls: seq<Line>, peers: seq<PeerConf>, encode: Encoder, decode: Decoder)
    requires LinesLegal(ls, decode) && CodecFor(encode, decode)
    requires peers != [] ==> PrivateKeyField in Contents(ls, InInterface)
    ensures KeyPrintable(Named(InterfaceMeaning(Contents(ls, InInterface), peers, decode)), encode, decode)
  {
    if PrivateKeyField in Contents(ls, InInterface) {
      ContentsLegal(ls, InInterface, PrivateKeyField, decode);
    }
  }

  lemma LoadedPeersPrintable(ls: seq<Line>, encode: Encoder, decode: Decoder)
    requires Accepted(ls, decode) && CodecFor(encode, decode)
    requires AllClean(ls)
    ensures PeersPrintable(PeersMeaning(ls, PeerHeaders(ls), decode), encode, decode)
  {
    forall k: nat | k < PeerHeaders(ls)
      ensures PeerPrintable(PeersMeaning(ls, PeerHeaders(ls), decode)[k], encode, decode)
    {
      LoadedPeerPrintable(ls, k, encode, decode);
    }
  }

  /** Every configuration the loader can produce can be printed, with the prefix of its Address line. */
  lemma LoadedIsPrintable(raw: seq<string>, encode: Encoder, decode: Decoder)
    requires Load(raw, decode).Some? && CodecFor(encode, decode) && Pieced(raw)
    ensures Printable(Load(raw, decode).value, NetworkOf(Contents(Lines(raw), InInterface), AddressField).2, encode,
                      decode)
  {
    var ls := Lines(raw);
    var peers := PeersMeaning(ls, PeerHeaders(ls), decode);
    LoadMeans(raw, decode);
    LinesClean(raw);
    LoadedNamesPrintable(ls, peers, decode);
    LoadedAddressPrintable(ls, peers, decode);
    LoadedKeyPrintable(ls, peers, encode, decode);
    LoadedPeersPrintable(ls, encode, decode);
  }

  // ---------------------------------------------------------------- a configuration as a file

  /** Lines written to a file, each with its newline. */
  function Written(lines: seq<string>): string {
    if lines == [] then [] else lines[0] + ['\n'] + Written(lines[1..])
  }

  function Terminated(lines: seq<string>): (raw: seq<string>)
    ensures |raw| == |lines| && forall k | 0 <= k < |lines| :: raw[k] == lines[k] + ['\n']
  {
    if lines == [] then [] else [lines[0] + ['\n']] + Terminated(lines[1..])
  }

  /** A line that fgets returns whole. */
  predicate Fits(line: string) {
    '\n' !in line && |line| + 1 < MAX_LINE
  }

  predicate AllFit(lines: seq<string>) {
    forall k | 0 <= k < |lines| :: Fits(lines[k])
  }

  lemma FirstLine(line: string, rest: string)
    requires Fits(line)
    ensures FirstPiece(line + ['\n'] + rest) == line + ['\n']
  {
    var text := line + ['\n'] + rest;
    var room := if |text| < MAX_LINE then text else text[..MAX_LINE - 1];
    assert room[|line|] == '\n' && room[..|line|] == line;
  }

  lemma RestOf(line: string, rest: string)
    ensures (line + ['\n'] + rest)[|line| + 1..] == rest
  {
  }

  lemma {:induction false} WrittenPieces(lines: seq<string>)
    requires AllFit(lines)
    ensures Pieces(Written(lines)) == Terminated(lines)
  {
    if lines == [] {
    } else {
      FirstLine(lines[0], Written(lines[1..]));
      RestOf(lines[0], Written(lines[1..]));
      WrittenPieces(lines[1..]);
    }
  }

  lemma {:induction false} TrimLeftSnoc(s: string, c: char)
    requires IsSpace(c)
    ensures TrimLeft(s + [c]) == if TrimLeft(s) == [] then [] else TrimLeft(s) + [c]
  {
    if s == [] {
      assert [c][1..] == [];
    } else if IsSpace(s[0]) {
      TrimLeftSnoc(s[1..], c);
      assert (s + [c])[1..] == s[1..] + [c];
    }
  }

  lemma TrimSnoc(s: string, c: char)
    requires IsSpace(c)
    ensures Trim(s + [c]) == Trim(s)
  {
    TrimLeftSnoc(s, c);
    var t := TrimLeft(s);
    if t != [] {
      assert (t + [c])[..|t|] == t;
    }
  }

  lemma NewlineReads(line: string)
    ensures Classify(line + ['\n']) == Classify(line)
  {
    TrimSnoc(line, '\n');
  }

  lemma SameLines(a: seq<string>, b: seq<string>)
    requires |a| == |b| && forall k | 0 <= k < |a| :: Classify(a[k]) == Classify(b[k])
    ensures Lines(a) == Lines(b)
  {
  }

  /** The newline makes no difference to the loader. */
  lemma TerminatedReads(lines: seq<string>)
    ensures Lines(Terminated(lines)) == Lines(lines)
  {
    var raw := Terminated(lines);
    forall k | 0 <= k < |lines| ensures Classify(raw[k]) == Classify(lines[k]) {
      NewlineReads(lines[k]);
    }
    SameLines(raw, lines);
  }

  lemma WrittenLoads(lines: seq<string>, decode: Decoder)
    requires AllFit(lines)
    ensures LoadFile(Written(lines), decode) == Load(lines, decode)
  {
    WrittenPieces(lines);
    TerminatedReads(lines);
  }

  // ---------------------------------------------------------------- printed lines fit

  predicate ShortValue(value: string) {
    '\n' !in value && |value| < MAX_HOST
  }

  predicate ShortValues(kvs: seq<Pair>) {
    forall k | 0 <= k < |kvs| :: ShortValue(kvs[k].1)
  }

  lemma AssignmentFits(field: Field, value: string)
    requires ShortValue(value)
    ensures Fits(Assignment(KeyName(field), value))
  {
    assert |KeyName(field)| <= 10;
    NoNewlineInKeys(field);
  }

  lemma NoNewlineInKeys(field: Field)
    ensures '\n' !in KeyName(field)
  {
  }

  lemma {:induction false} AssignTextFits(kvs: seq<Pair>)
    requires ShortValues(kvs)
    ensures AllFit(AssignText(kvs))
  {
    if kvs == [] {
    } else {
      AssignTextFits(kvs[..|kvs| - 1]);
      AssignmentFits(kvs[|kvs| - 1].0, kvs[|kvs| - 1].1);
    }
  }

  lemma FitConcat(a: seq<string>, b: seq<string>)
    requires AllFit(a) && AllFit(b)
    ensures AllFit(a + b)
  {
  }

  lemma BlockFits(name: string, kvs: seq<Pair>)
    requires ShortValue(name) && ShortValues(kvs)
    ensures AllFit(BlockText(name, kvs))
  {
    AssignTextFits(kvs);
    assert Fits(['['] + name + [']']);
    FitConcat([['['] + name + [']']], AssignText(kvs));
  }

  lemma {:induction false} PeersTextFits(bs: seq<seq<Pair>>)
    requires forall k | 0 <= k < |bs| :: ShortValues(bs[k])
    ensures AllFit(PeersText(bs))
  {
    if bs == [] {
    } else {
      PeersTextFits(bs[..|bs| - 1]);
      assert ShortValue("Peer");
      BlockFits("Peer", bs[|bs| - 1]);
      FitConcat(PeersText(bs[..|bs| - 1]), BlockText("Peer", bs[|bs| - 1]));
    }
  }

  lemma DecShort(n: nat)
    requires n <= 65535
    ensures ShortValue(Dec(n)) && |Dec(n)| <= 5
  {
    DecLength(n, 5);
  }

  lemma ConcatShort(a: string, c: char, b: string)
    requires '\n' !in a && '\n' !in b && c != '\n' && |a| + 1 + |b| < MAX_HOST
    ensures ShortValue(a + [c] + b)
  {
  }

  lemma QuadShort(quad: string, prefix: nat)
    requires ParseQuad(quad).Some? && prefix <= 32
    ensures ShortValue(PrefixText(quad, prefix))
  {
    QuadChars(quad);
    DecShort(prefix);
    ConcatShort(quad, '/', Dec(prefix));
  }

  lemma EndpointShort(p: PeerConf)
    requires '\n' !in p.host && |EndpointText(p)| < MAX_HOST && p.port <= 65535
    ensures ShortValue(EndpointText(p))
  {
    DecShort(p.port);
    ConcatShort(p.host, ':', Dec(p.port));
  }

  lemma RoleShort(role: Role)
    ensures ShortValue(RoleText(role))
  {
  }

  lemma FourShort(a: Pair, b: Pair, c: Pair, d: Pair)
    requires ShortValue(a.1) && ShortValue(b.1) && ShortValue(c.1) && ShortValue(d.1)
    ensures ShortValues([a, b, c, d])
  {
  }

  lemma PeerKeysShort(p: PeerConf, encode: Encoder, decode: Decoder)
    requires PeerPrintable(p, encode, decode)
    ensures ShortValues(PeerKeys(p, encode))
  {
    var kvs := PeerKeys(p, encode);
    EndpointShort(p);
    RoleShort(p.role);
    QuadRoundTrip(p.network);
    QuadShort(Dotted(p.network), p.prefix);
    FourShort(kvs[0], kvs[1], kvs[2], kvs[3]);
  }

  lemma InterfaceKeysShort(c: Conf, prefix: nat, encode: Encoder, decode: Decoder)
    requires NamesPrintable(c) && KeyPrintable(c, encode, decode) && ParseQuad(c.address).Some? && prefix <= 32
    ensures ShortValues(InterfaceKeys(c, prefix, encode))
  {
    var kvs := PublicKeys(c, prefix);
    DecShort(c.listenPort);
    QuadShort(c.address, prefix);
    FourShort(kvs[0], kvs[1], kvs[2], kvs[3]);
  }

  lemma PeersFit(ps: seq<PeerConf>, encode: Encoder, decode: Decoder)
    requires PeersPrintable(ps, encode, decode)
    ensures AllFit(PeersText(AllPeerKeys(ps, encode)))
  {
    var bs := AllPeerKeys(ps, encode);
    forall k | 0 <= k < |bs| ensures ShortValues(bs[k]) {
      PeerKeysShort(ps[k], encode, decode);
    }
    PeersTextFits(bs);
  }

  lemma PrintFits(c: Conf, prefix: nat, encode: Encoder, decode: Decoder)
    requires Printable(c, prefix, encode, decode)
    ensures AllFit(Print(c, prefix, encode))
  {
    var kvs := InterfaceKeys(c, prefix, encode);
    InterfaceKeysShort(c, prefix, encode, decode);
    assert ShortValue("Interface");
    BlockFits("Interface", kvs);
    PeersFit(c.peers, encode, decode);
    FitConcat(BlockText("Interface", kvs), PeersText(AllPeerKeys(c.peers, encode)));
  }

  /** Loading a file undoes writing it, for every configuration whose strings are trimmed, stand on one line
      and fit their buffers. */
  lemma WrittenConfigLoads(c: Conf, prefix: nat, encode: Encoder, decode: Decoder)
    requires Printable(c, prefix, encode, decode)
    ensures LoadFile(Written(Print(c, prefix, encode)), decode) == Some(c)
  {
    PrintFits(c, prefix, encode, decode);
    WrittenLoads(Print(c, prefix, encode), decode);
    PrintedConfigLoads(c, prefix, encode, decode);
  }

  /** Load, write, load: every file that loads has a canonical form with the same meaning. */
  lemma LoadedFileReloads(text: string, encode: Encoder, decode: Decoder)
    requires LoadFile(text, decode).Some? && CodecFor(encode, decode)
    ensures var prefix := NetworkOf(Contents(Lines(Pieces(text)), InInterface), AddressField).2;
            LoadFile(Written(Print(LoadFile(text, decode).value, prefix, encode)), decode) == LoadFile(text, decode)
  {
    var raw := Pieces(text);
    LoadedIsPrintable(raw, encode, decode);
    WrittenConfigLoads(Load(raw, decode).value, NetworkOf(Contents(Lines(raw), InInterface), AddressField).2, encode,
                       decode);
  }
}
