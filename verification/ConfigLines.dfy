/**
 What a line of a configuration file is, told from its characters: spaces, a '#' or ';', brackets, the first '=' and
 names in any mixture of upper and lower case. And what reads as a number, an address, a port and a role.
 */
module ConfigLines {
  import opened Words
  import opened Terms
  import opened Text
  import opened Config
  import ConfigFile
  import ConfigPrinter
  import Routing

  predicate Spaces(s: string) {
    forall c | c in s :: IsSpace(c)
  }

  /** Space, tab, newline, vertical tab, form feed and carriage return. */
  lemma SpacesAre(c: char)
    ensures IsSpace(c) <==> c as int in {32, 9, 10, 11, 12, 13}
  {
  }

  // ---------------------------------------------------------------- trimming, from the characters

  /** Every line is spaces, its trimmed text, and spaces. */
  lemma TrimSplits(s: string) returns (left: string, right: string)
    ensures s == left + Trim(s) + right && Spaces(left) && Spaces(right) && IsTrimmed(Trim(s))
  {
    ConfigFile.TrimIsTrimmed(s);
    left := LeftSplits(s);
    right := RightSplits(TrimLeft(s));
  }

  lemma {:induction false} LeftSplits(s: string) returns (left: string)
    ensures s == left + TrimLeft(s) && Spaces(left)
  {
    if s == [] || !IsSpace(s[0]) {
      left := [];
    } else {
      var rest := LeftSplits(s[1..]);
      left := [s[0]] + rest;
    }
  }

  lemma {:induction false} RightSplits(s: string) returns (right: string)
    ensures s == TrimRight(s) + right && Spaces(right)
  {
    if s == [] || !IsSpace(s[|s| - 1]) {
      right := [];
    } else {
      var rest := RightSplits(s[..|s| - 1]);
      right := rest + [s[|s| - 1]];
    }
  }

  /** Trimming on the right stops at a character that is no space. */
  lemma {:induction false} TrimRightStops(a: string, c: char, b: string)
    requires !IsSpace(c)
    ensures TrimRight(a + [c] + b) == a + [c] + TrimRight(b)
  {
    var s := a + [c] + b;
    if b == [] {
      assert s == a + [c];
    } else {
      assert s[..|s| - 1] == a + [c] + b[..|b| - 1] && s[|s| - 1] == b[|b| - 1];
      TrimRightStops(a, c, b[..|b| - 1]);
    }
  }

  /** A line whose first character other than a space is c. */
  lemma TrimStarts(left: string, c: char, rest: string)
    requires Spaces(left) && !IsSpace(c)
    ensures Trim(left + [c] + rest) == [c] + TrimRight(rest)
  {
    var s := [c] + rest;
    assert left + [c] + rest == left + s;
    TrimLeftOff(left, s);
    TrimRightStops([], c, rest);
    assert [] + [c] + rest == s && [] + [c] + TrimRight(rest) == [c] + TrimRight(rest);
  }

  lemma TrimAll(s: string)
    requires Spaces(s)
    ensures Trim(s) == "" && TrimRight(s) == ""
  {
    assert s == s + [] + [];
    TrimIs(s, s, [], []);
    TrimRightAll(s);
  }

  lemma {:induction false} TrimRightAll(s: string)
    requires Spaces(s)
    ensures TrimRight(s) == ""
  {
    if s == [] {
    } else {
      TrimRightAll(s[..|s| - 1]);
    }
  }

  // ---------------------------------------------------------------- lines that say nothing

  /** Nothing but spaces, or a '#' or ';' after them. */
  ghost predicate SaysNothing(raw: string) {
    exists left, text :: Ignorable(raw, left, text)
  }

  ghost predicate Ignorable(raw: string, left: string, text: string) {
    raw == left + text && Spaces(left) && (text == "" || text[0] == '#' || text[0] == ';')
  }

  lemma BlankLine(raw: string)
    ensures Classify(raw) == Blank <==> SaysNothing(raw)
  {
    if left, text :| Ignorable(raw, left, text) {
      if text == "" {
        assert raw == left;
        TrimAll(raw);
      } else {
        assert raw == left + [text[0]] + text[1..];
        TrimStarts(left, text[0], text[1..]);
      }
    }
    if Classify(raw) == Blank {
      var left, right := TrimSplits(raw);
      var t := Trim(raw);
      if t == "" {
        assert Ignorable(raw, raw, "");
      } else {
        assert Ignorable(raw, left, t + right);
      }
    }
  }

  function Inserted(raw: seq<string>, k: nat, line: string): seq<string>
    requires k <= |raw|
  {
    raw[..k] + [line] + raw[k..]
  }

  lemma BlankStep(a: seq<Line>, x: seq<Line>, decode: Decoder)
    requires x == a + [Blank]
    ensures Read(x, decode) == Read(a, decode)
  {
    assert x[..|a|] == a;
  }

  lemma SameStep(u: seq<Line>, v: seq<Line>, x: seq<Line>, y: seq<Line>, l: Line, decode: Decoder)
    requires Read(u, decode) == Read(v, decode) && x == u + [l] && y == v + [l]
    ensures Read(x, decode) == Read(y, decode)
  {
    assert x[..|u|] == u && y[..|v|] == v;
  }

  lemma LastApart(a: seq<Line>, line: seq<Line>, b: seq<Line>, c: seq<Line>, last: seq<Line>)
    requires b == c + last
    ensures a + line + b == (a + line + c) + last && a + b == (a + c) + last
  {
  }

  lemma {:induction false} BlankChangesNothing(a: seq<Line>, b: seq<Line>, x: seq<Line>, y: seq<Line>, decode: Decoder)
    requires x == a + [Blank] + b && y == a + b
    ensures Read(x, decode) == Read(y, decode)
    decreases |b|
  {
    if b == [] {
      assert y == a;
      BlankStep(a, x, decode);
    } else {
      var c, last := b[..|b| - 1], b[|b| - 1];
      var u, v := a + [Blank] + c, a + c;
      BlankChangesNothing(a, c, u, v, decode);
      LastApart(a, [Blank], b, c, [last]);
      SameStep(u, v, x, y, last, decode);
    }
  }

  lemma {:induction false} LinesConcat(a: seq<string>, b: seq<string>)
    ensures Lines(a + b) == Lines(a) + Lines(b)
  {
    if b == [] {
      assert a + b == a;
    } else {
      var c, last := b[..|b| - 1], b[|b| - 1];
      LinesConcat(a, c);
      assert (a + b)[..|a + b| - 1] == a + c && (a + b)[|a + b| - 1] == last;
    }
  }

  lemma LinesApart(a: seq<string>, line: seq<string>, b: seq<string>)
    ensures Lines(a + line + b) == Lines(a) + Lines(line) + Lines(b)
  {
    LinesConcat(a + line, b);
    LinesConcat(a, line);
  }

  lemma LineAlone(line: string)
    ensures Lines([line]) == [Classify(line)]
  {
  }

  lemma BlankBetween(a: seq<string>, line: string, b: seq<string>, x: seq<string>, y: seq<string>, decode: Decoder)
    requires Lines([line]) == [Blank] && x == a + [line] + b && y == a + b
    ensures Read(Lines(x), decode) == Read(Lines(y), decode)
  {
    LinesApart(a, [line], b);
    LinesConcat(a, b);
    BlankChangesNothing(Lines(a), Lines(b), Lines(x), Lines(y), decode);
  }

  /** Comments and blank lines may be put anywhere: the file loads as before, or is refused as before. */
  lemma CommentsAreIgnored(raw: seq<string>, k: nat, left: string, text: string, decode: Decoder)
    requires k <= |raw| && Spaces(left) && (text == "" || text[0] == '#' || text[0] == ';')
    ensures Load(Inserted(raw, k, left + text), decode) == Load(raw, decode)
  {
    assert Ignorable(left + text, left, text);
    BlankLine(left + text);
    LineAlone(left + text);
    BlankBetween(raw[..k], left + text, raw[k..], Inserted(raw, k, left + text), raw, decode);
  }

  // ---------------------------------------------------------------- headers

  /** Spaces, a bracketed name, and anything. */
  ghost predicate HeaderText(raw: string, left: string, name: string, rest: string) {
    raw == left + ['['] + name + [']'] + rest && Spaces(left) && ']' !in name
  }

  lemma HeaderIs(raw: string, left: string, name: string, rest: string)
    requires HeaderText(raw, left, name, rest)
    ensures Classify(raw) == Header(TitleOf(name))
  {
    var inside := name + [']'] + rest;
    assert raw == left + ['['] + inside;
    TrimStarts(left, '[', inside);
    TrimRightStops(name, ']', rest);
    CutJoin(name, ']', TrimRight(rest));
    assert Trim(raw)[1..] == name + [']'] + TrimRight(rest);
  }

  lemma BracketsApart(left: string, name: string, rest: string, right: string, t: string)
    requires t != "" && t[0] == '[' && t[1..] == name + [']'] + rest
    ensures left + t + right == left + ['['] + name + [']'] + (rest + right)
  {
    assert t == ['['] + (name + [']'] + rest);
  }

  lemma HeaderSplits(raw: string, title: Title) returns (left: string, name: string, rest: string)
    requires Classify(raw) == Header(title)
    ensures HeaderText(raw, left, name, rest) && TitleOf(name) == title
  {
    var t := Trim(raw);
    var l, right := TrimSplits(raw);
    CutJoins(t[1..], ']');
    var (n, r) := Cut(t[1..], ']').value;
    BracketsApart(l, n, r, right, t);
    left, name, rest := l, n, r + right;
  }

  /** A header is exactly such a line, and its title is the name in brackets. */
  lemma HeaderLine(raw: string, title: Title)
    ensures Classify(raw) == Header(title) <==>
              exists left, name, rest :: HeaderText(raw, left, name, rest) && TitleOf(name) == title
  {
    if left, name, rest :| HeaderText(raw, left, name, rest) && TitleOf(name) == title {
      HeaderIs(raw, left, name, rest);
    } else if Classify(raw) == Header(title) {
      var left, name, rest := HeaderSplits(raw, title);
      assert false;
    }
  }

  ghost predicate OpenBracket(raw: string, left: string, rest: string) {
    raw == left + ['['] + rest && Spaces(left) && ']' !in rest
  }

  lemma {:induction false} TrimRightHas(s: string, c: char)
    requires !IsSpace(c)
    ensures c in TrimRight(s) <==> c in s
  {
    if s == [] || !IsSpace(s[|s| - 1]) {
    } else {
      assert s == s[..|s| - 1] + [s[|s| - 1]];
      TrimRightHas(s[..|s| - 1], c);
    }
  }

  /** A line that opens a bracket and never closes it. */
  lemma UnterminatedLine(raw: string)
    ensures Classify(raw) == Unterminated <==> exists left, rest :: OpenBracket(raw, left, rest)
  {
    if left, rest :| OpenBracket(raw, left, rest) {
      TrimStarts(left, '[', rest);
      TrimRightHas(rest, ']');
      assert Trim(raw)[1..] == TrimRight(rest);
    }
    if Classify(raw) == Unterminated {
      var left, right := TrimSplits(raw);
      assert raw == left + ['['] + (Trim(raw)[1..] + right);
      assert OpenBracket(raw, left, Trim(raw)[1..] + right);
    }
  }

  // ---------------------------------------------------------------- assignments

  /** Not the start of a comment or a header. */
  predicate Plain(c: char) {
    !IsSpace(c) && c != '#' && c != ';' && c != '['
  }

  /** Spaces, text that is no comment or header and holds no '='. */
  ghost predicate NoEqualsText(raw: string, left: string, text: string) {
    raw == left + text && Spaces(left) && text != "" && Plain(text[0]) && '=' !in text
  }

  lemma NoEqualsLine(raw: string)
    ensures Classify(raw) == NoEquals <==> exists left, text :: NoEqualsText(raw, left, text)
  {
    if left, text :| NoEqualsText(raw, left, text) {
      assert raw == left + [text[0]] + text[1..];
      TrimStarts(left, text[0], text[1..]);
      TrimRightHas(text[1..], '=');
    } else if Classify(raw) == NoEquals {
      var left, right := TrimSplits(raw);
      assert raw == left + (Trim(raw) + right);
      assert NoEqualsText(raw, left, Trim(raw) + right);
    }
  }

  /** A key and a value, each with spaces around it, and the first '=' between them. */
  datatype Parts = Parts(left: string, key: string, mid: string, before: string, value: string, right: string)

  function Front(p: Parts): string {
    p.left + p.key + p.mid
  }

  function Back(p: Parts): string {
    p.before + p.value + p.right
  }

  ghost predicate AssignText(raw: string, p: Parts) {
    && raw == Front(p) + ['='] + Back(p)
    && Spaces(p.left) && Spaces(p.mid) && Spaces(p.before) && Spaces(p.right)
    && IsTrimmed(p.key) && IsTrimmed(p.value) && '=' !in p.key && (p.key == "" || Plain(p.key[0]))
  }

  /** What follows the '=', trimmed at the end and then on both sides, is the value. */
  lemma BackTrims(p: Parts)
    requires Spaces(p.before) && Spaces(p.right) && IsTrimmed(p.value)
    ensures Trim(TrimRight(Back(p))) == p.value
  {
    if p.value == "" {
      TrimAll(Back(p));
      assert Trim("") == "";
    } else {
      var n := |p.value| - 1;
      assert Back(p) == (p.before + p.value[..n]) + [p.value[n]] + p.right;
      TrimRightStops(p.before + p.value[..n], p.value[n], p.right);
      TrimAll(p.right);
      assert TrimRight(Back(p)) == p.before + p.value + [];
      TrimIs(p.before + p.value + [], p.before, p.value, []);
    }
  }

  /** The line, trimmed, when the key is not empty. */
  lemma KeyedTrims(raw: string, p: Parts)
    requires AssignText(raw, p) && p.key != ""
    ensures Trim(raw) == p.key + p.mid + ['='] + TrimRight(Back(p))
  {
    var a := p.key[1..] + p.mid;
    var rest := a + ['='] + Back(p);
    assert raw == p.left + [p.key[0]] + rest;
    TrimStarts(p.left, p.key[0], rest);
    TrimRightStops(a, '=', Back(p));
    assert [p.key[0]] + (a + ['='] + TrimRight(Back(p))) == p.key + p.mid + ['='] + TrimRight(Back(p));
  }

  lemma KeylessTrims(raw: string, p: Parts)
    requires AssignText(raw, p) && p.key == ""
    ensures Trim(raw) == ['='] + TrimRight(Back(p))
  {
    assert raw == (p.left + p.mid) + ['='] + Back(p);
    TrimStarts(p.left + p.mid, '=', Back(p));
  }

  lemma KeyTrims(p: Parts)
    requires Spaces(p.mid) && IsTrimmed(p.key)
    ensures Trim(p.key + p.mid) == p.key
  {
    assert p.key + p.mid == [] + p.key + p.mid;
    TrimIs(p.key + p.mid, [], p.key, p.mid);
  }

  lemma NotSpace(s: string, c: char)
    requires Spaces(s) && !IsSpace(c)
    ensures c !in s
  {
  }

  lemma CutIsAssign(raw: string, t: string, k: string, v: string)
    requires t == Trim(raw) && t != "" && Plain(t[0]) && Cut(t, '=') == Some((k, v))
    ensures Classify(raw) == Assign(FieldOf(Trim(k)), Trim(v))
  {
  }

  lemma KeylessIs(raw: string, p: Parts)
    requires AssignText(raw, p) && p.key == ""
    ensures Classify(raw) == Assign(FieldOf(p.key), p.value)
  {
    var v := TrimRight(Back(p));
    KeylessTrims(raw, p);
    CutJoin([], '=', v);
    assert [] + ['='] + v == Trim(raw);
    CutIsAssign(raw, Trim(raw), [], v);
    BackTrims(p);
  }

  lemma KeyedIs(raw: string, p: Parts)
    requires AssignText(raw, p) && p.key != ""
    ensures Classify(raw) == Assign(FieldOf(p.key), p.value)
  {
    var k, v := p.key + p.mid, TrimRight(Back(p));
    KeyedTrims(raw, p);
    NotSpace(p.mid, '=');
    CutJoin(k, '=', v);
    CutIsAssign(raw, Trim(raw), k, v);
    KeyTrims(p);
    BackTrims(p);
  }

  lemma AssignIs(raw: string, p: Parts)
    requires AssignText(raw, p)
    ensures Classify(raw) == Assign(FieldOf(p.key), p.value)
  {
    if p.key == "" {
      KeylessIs(raw, p);
    } else {
      KeyedIs(raw, p);
    }
  }

  lemma TightSplits(k: string) returns (right: string)
    requires k == [] || !IsSpace(k[0])
    ensures k == Trim(k) + right && Spaces(right)
  {
    right := RightSplits(k);
  }

  lemma PartsJoin(p: Parts, k: string, v: string, right: string)
    requires k == p.key + p.mid
    requires v + right == p.before + p.value + p.right
    ensures p.left + (k + ['='] + v) + right == Front(p) + ['='] + Back(p)
  {
    assert p.left + (k + ['='] + v) + right == p.left + k + ['='] + (v + right);
    assert p.left + k == Front(p);
  }

  /** A trimmed line with an '=' in its parts. */
  lemma PartsOf(t: string, left: string, right: string, k: string, v: string) returns (p: Parts)
    requires IsTrimmed(t) && t == k + ['='] + v && '=' !in k && Spaces(left) && Spaces(right) && Plain(t[0])
    ensures AssignText(left + t + right, p) && p.key == Trim(k) && p.value == Trim(v)
  {
    assert k != [] ==> t[0] == k[0];
    var mid := TightSplits(k);
    var before, after := TrimSplits(v);
    ConfigFile.TrimIsTrimmed(k);
    p := Parts(left, Trim(k), mid, before, Trim(v), after + right);
    assert v + right == before + Trim(v) + (after + right);
    PartsJoin(p, k, v, right);
    assert p.key != "" ==> k[0] == p.key[0];
  }

  lemma AssignSplits(raw: string, field: Field, value: string) returns (p: Parts)
    requires Classify(raw) == Assign(field, value)
    ensures AssignText(raw, p) && FieldOf(p.key) == field && p.value == value
  {
    var t := Trim(raw);
    var left, right := TrimSplits(raw);
    CutJoins(t, '=');
    var (k, v) := Cut(t, '=').value;
    p := PartsOf(t, left, right, k, v);
  }

  /** An assignment is exactly such a line; its key is what stands before the first '=', its value what stands after
      it, both without the spaces around them. */
  lemma AssignLine(raw: string, field: Field, value: string)
    ensures Classify(raw) == Assign(field, value) <==>
              exists p :: AssignText(raw, p) && FieldOf(p.key) == field && p.value == value
  {
    if p :| AssignText(raw, p) && FieldOf(p.key) == field && p.value == value {
      AssignIs(raw, p);
    } else if Classify(raw) == Assign(field, value) {
      var p := AssignSplits(raw, field, value);
      assert false;
    }
  }

  // ---------------------------------------------------------------- names

  /** The same letter, in upper or lower case, or the same other character. */
  predicate SameLetter(a: char, b: char) {
    || a == b
    || ('A' <= a <= 'Z' && b as int == a as int + 32) || ('A' <= b <= 'Z' && a as int == b as int + 32)
  }

  ghost predicate SpelledAs(s: string, word: string) {
    |s| == |word| && forall k | 0 <= k < |s| :: SameLetter(s[k], word[k])
  }

  lemma SpelledIs(s: string, word: string)
    ensures SameNoCase(s, word) <==> SpelledAs(s, word)
  {
    if |s| == |word| {
      forall k | 0 <= k < |s| ensures Lower(s[k]) == Lower(word[k]) <==> SameLetter(s[k], word[k]) {
      }
    }
  }

  /** A section title is one of two names, in any mixture of cases. */
  lemma TitleIs(name: string)
    ensures TitleOf(name) == InterfaceTitle <==> SpelledAs(name, "Interface")
    ensures TitleOf(name) == PeerTitle <==> SpelledAs(name, "Peer")
  {
    SpelledIs(name, "Interface");
    SpelledIs(name, "Peer");
  }

  lemma RoleIs(s: string)
    ensures ParseRole(s) == Some(Initiator) <==> SpelledAs(s, "initiator")
    ensures ParseRole(s) == Some(Responder) <==> SpelledAs(s, "responder")
  {
    SpelledIs(s, "initiator");
    SpelledIs(s, "responder");
    assert "initiator"[0] == 'i' && "responder"[0] == 'r';
  }

  lemma Refolded(a: string, b: string, word: string)
    requires SameNoCase(a, b)
    ensures SameNoCase(a, word) <==> SameNoCase(b, word)
  {
  }

  lemma RespelledField(a: string, b: string)
    requires SameNoCase(a, b)
    ensures FieldOf(a) == FieldOf(b)
  {
    Refolded(a, b, "Name");
    Refolded(a, b, "DeviceName");
    Refolded(a, b, "Address");
    Refolded(a, b, "ListenPort");
    Refolded(a, b, "PrivateKey");
    Refolded(a, b, "Endpoint");
    Refolded(a, b, "PublicKey");
    Refolded(a, b, "Role");
    Refolded(a, b, "AllowedIPs");
  }

  /** A key is one of nine names, in any mixture of cases. */
  lemma FieldIs(key: string, field: Field)
    requires field != UnknownField
    ensures FieldOf(key) == field <==> SpelledAs(key, ConfigPrinter.KeyName(field))
  {
    var name := ConfigPrinter.KeyName(field);
    SpelledIs(key, name);
    if SameNoCase(key, name) {
      ConfigPrinter.KeyNamesRead(field);
      RespelledField(key, name);
    }
  }

  lemma SameClassSameLoad(raw: seq<string>, k: nat, line: string, decode: Decoder)
    requires k < |raw| && Classify(line) == Classify(raw[k])
    ensures Load(raw[k := line], decode) == Load(raw, decode)
  {
    ConfigFile.SameLines(raw[k := line], raw);
  }

  /** The spaces around a key and a value, and the case of the key, make no difference to the file. */
  lemma SpellingIsIgnored(raw: seq<string>, k: nat, p: Parts, line: string, q: Parts, decode: Decoder)
    requires k < |raw| && AssignText(raw[k], p) && AssignText(line, q) && SpelledAs(q.key, p.key) && q.value == p.value
    ensures Load(raw[k := line], decode) == Load(raw, decode)
  {
    AssignIs(raw[k], p);
    AssignIs(line, q);
    SpelledIs(q.key, p.key);
    RespelledField(q.key, p.key);
    SameClassSameLoad(raw, k, line, decode);
  }

  // ---------------------------------------------------------------- values

  lemma DecStep(v: nat, c: char)
    requires v > 0 && IsDigit(c)
    ensures Dec(10 * v + (c - '0') as nat) == Dec(v) + [c]
  {
    var d := (c - '0') as nat;
    assert (10 * v + d) / 10 == v && (10 * v + d) % 10 == d;
  }

  /** Digits without a superfluous zero in front are the decimal form of their value. */
  lemma {:induction false} DigitsAreDec(s: string)
    requires AllDigits(s) && (s[0] == '0' ==> |s| == 1)
    ensures s == Dec(DigitsValue(s))
  {
    var n := |s| - 1;
    if n == 0 {
      assert s[..0] == [];
    } else {
      DigitsAreDec(s[..n]);
      DecPositive(s[..n]);
      DecStep(DigitsValue(s[..n]), s[n]);
      assert s == s[..n] + [s[n]];
    }
  }

  lemma {:induction false} DecPositive(s: string)
    requires AllDigits(s) && s[0] != '0'
    ensures DigitsValue(s) > 0
  {
    if |s| == 1 {
      assert s[..0] == [];
    } else {
      DecPositive(s[..|s| - 1]);
    }
  }

  lemma OctetIs(s: string, b: Byte)
    ensures Octet(s) == Some(b) <==> s == Dec(b)
  {
    DecOctet(b);
    if Octet(s) == Some(b) {
      DigitsAreDec(s);
    }
  }

  /** What reads as an address is its dotted decimal form and nothing else. */
  lemma QuadIs(s: string, a: Routing.Address)
    ensures ParseQuad(s) == Some(a) <==> s == Dotted(a)
  {
    QuadRoundTrip(a);
    if ParseQuad(s) == Some(a) {
      var p, q, r, t := QuadParts(s);
      QuadOctets(p, q, r, t, a);
    }
  }

  lemma QuadOctets(p: string, q: string, r: string, t: string, a: Routing.Address)
    requires Octet(p).Some? && Octet(q).Some? && Octet(r).Some? && Octet(t).Some?
    requires ParseQuad(Join(p, q, r, t)) == Some(a)
    ensures Join(p, q, r, t) == Dotted(a)
  {
    ParseJoined(p, q, r, t);
    OctetIs(p, a[0]);
    OctetIs(q, a[1]);
    OctetIs(r, a[2]);
    OctetIs(t, a[3]);
  }

  /** The netmask of a prefix reads as the address whose leading bits are ones: 2^32 - 2^(32 - prefix). */
  lemma NetmaskIs(prefix: nat)
    requires prefix <= 32
    ensures var mask := ParseQuad(Netmask(prefix));
            mask.Some? && Routing.Value(mask.value) == Routing.Pow2(32) - Routing.Pow2(32 - prefix)
  {
    Routing.HostMaskIs(prefix);
    Routing.ToNetworkValue(Routing.HostMask(prefix));
    QuadRoundTrip(Routing.ToNetwork(Routing.HostMask(prefix)));
  }

  /** Spaces, an optional sign, and digits to the end. */
  ghost predicate NumberText(s: string, left: string, sign: string, digits: string) {
    s == left + sign + digits && Spaces(left) && (sign == "" || sign == "+" || sign == "-") && AllDigits(digits)
  }

  lemma NumberReads(s: string, left: string, sign: string, digits: string)
    requires NumberText(s, left, sign, digits)
    ensures FullLong(s) == Some(if sign == "-" then 0 - DigitsValue(digits) else DigitsValue(digits))
  {
    var t := sign + digits;
    assert s == left + t;
    assert IsDigit(digits[0]);
    TrimLeftOff(left, t);
    if sign != "" {
      assert t[1..] == digits;
    } else {
      assert t == digits;
    }
  }

  lemma NumberSplits(s: string) returns (left: string, sign: string, digits: string)
    requires FullLong(s).Some?
    ensures NumberText(s, left, sign, digits)
  {
    var t := TrimLeft(s);
    left := LeftSplits(s);
    if t[0] == '-' || t[0] == '+' {
      sign, digits := [t[0]], t[1..];
      assert t == sign + digits;
    } else {
      sign, digits := "", t;
    }
    assert s == left + sign + digits;
  }

  /** What reads as a number, and as which. */
  lemma NumberIs(s: string, value: int)
    ensures FullLong(s) == Some(value) <==>
              exists left, sign, digits :: NumberText(s, left, sign, digits) &&
                value == if sign == "-" then 0 - DigitsValue(digits) else DigitsValue(digits)
  {
    if left, sign, digits :| NumberText(s, left, sign, digits) &&
                             value == (if sign == "-" then 0 - DigitsValue(digits) else DigitsValue(digits)) {
      NumberReads(s, left, sign, digits);
    } else if FullLong(s) == Some(value) {
      var left, sign, digits := NumberSplits(s);
      NumberReads(s, left, sign, digits);
      assert false;
    }
  }

  /** A port is a number from 1 to 65535. */
  lemma PortIs(s: string, port: int)
    ensures ParsePort(s) == Some(port) <==> FullLong(s) == Some(port) && 1 <= port <= 65535
  {
  }
}
