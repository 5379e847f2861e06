/** The string handling of the configuration loader: trimming, searching, numbers and dotted quads. */
module Text {
  import opened Words
  import Routing

  /** isspace in the C locale. */
  predicate IsSpace(c: char) {
    c == ' ' || '\t' <= c <= '\r'
  }

  function TrimLeft(s: string): string {
    if s != [] && IsSpace(s[0]) then TrimLeft(s[1..]) else s
  }

  function TrimRight(s: string): string {
    if s != [] && IsSpace(s[|s| - 1]) then TrimRight(s[..|s| - 1]) else s
  }

  function Trim(s: string): string {
    TrimRight(TrimLeft(s))
  }

  predicate IsTrimmed(s: string) {
    s == [] || (!IsSpace(s[0]) && !IsSpace(s[|s| - 1]))
  }

  lemma TrimLeftStep(s: string, lo: nat)
    requires lo < |s| && IsSpace(s[lo])
    ensures TrimLeft(s[lo..]) == TrimLeft(s[lo + 1..])
  {
    assert s[lo..][1..] == s[lo + 1..];
  }

  lemma TrimRightStep(s: string, end: nat)
    requires end < |s| && IsSpace(s[end])
    ensures TrimRight(s[..end + 1]) == TrimRight(s[..end])
  {
    assert s[..end + 1][..end] == s[..end];
  }

  /** trim: one index moves right over spaces, another left. */
  method TrimBuffer(s: string) returns (t: string)
    ensures t == Trim(s)
  {
    var lo := 0;
    assert s[0..] == s;
    while lo < |s| && IsSpace(s[lo])
      invariant 0 <= lo <= |s| && TrimLeft(s) == TrimLeft(s[lo..])
    {
      TrimLeftStep(s, lo);
      lo := lo + 1;
    }
    if lo == |s| {
      return [];
    }
    var r := s[lo..];
    assert TrimLeft(s) == r;
    var end := |r| - 1;
    assert r[..end + 1] == r;
    while end > 0 && IsSpace(r[end])
      invariant 0 <= end < |r| && TrimRight(r) == TrimRight(r[..end + 1])
    {
      TrimRightStep(r, end);
      end := end - 1;
    }
    return r[..end + 1];
  }

  /** Trimming removes spaces from both ends, all of them, and nothing else. */
  lemma TrimIs(s: string, left: string, t: string, right: string)
    requires s == left + t + right && IsTrimmed(t)
    requires (forall c | c in left :: IsSpace(c)) && (forall c | c in right :: IsSpace(c))
    ensures Trim(s) == t
  {
    if t == [] {
      assert s == left + right;
      TrimLeftAll(left + right);
    } else {
      assert s == left + (t + right);
      TrimLeftOff(left, t + right);
      TrimRightOff(t, right);
    }
  }

  lemma {:induction false} TrimLeftAll(s: string)
    requires forall c | c in s :: IsSpace(c)
    ensures TrimLeft(s) == []
  {
    if s == [] {
    } else {
      TrimLeftAll(s[1..]);
    }
  }

  lemma {:induction false} TrimLeftOff(left: string, s: string)
    requires (forall c | c in left :: IsSpace(c)) && s != [] && !IsSpace(s[0])
    ensures TrimLeft(left + s) == s
  {
    if left == [] {
      assert left + s == s;
    } else {
      assert (left + s)[1..] == left[1..] + s;
      TrimLeftOff(left[1..], s);
    }
  }

  lemma {:induction false} TrimRightOff(s: string, right: string)
    requires (forall c | c in right :: IsSpace(c)) && s != [] && !IsSpace(s[|s| - 1])
    ensures TrimRight(s + right) == s
  {
    if right == [] {
      assert s + right == s;
    } else {
      assert (s + right)[..|s + right| - 1] == s + right[..|right| - 1];
      TrimRightOff(s, right[..|right| - 1]);
    }
  }

  // ---------------------------------------------------------------- searching

  /** strchr. */
  function IndexOf(s: string, c: char): (k: Option<nat>)
    ensures k.Some? ==> k.value < |s| && s[k.value] == c && c !in s[..k.value]
    ensures k.None? ==> c !in s
  {
    if s == [] then None
    else if s[0] == c then Some(0)
    else match IndexOf(s[1..], c)
      case None => None
      case Some(k) => Some(k + 1)
  }

  /** strrchr. */
  function LastIndexOf(s: string, c: char): (k: Option<nat>)
    ensures k.Some? ==> k.value < |s| && s[k.value] == c && c !in s[k.value + 1..]
    ensures k.None? ==> c !in s
  {
    if s == [] then None
    else if s[|s| - 1] == c then Some(|s| - 1)
    else LastIndexOf(s[..|s| - 1], c)
  }

  /** The text before and after the first, or the last, `c`. */
  function Cut(s: string, c: char): Option<(string, string)> {
    match IndexOf(s, c)
    case None => None
    case Some(k) => Some((s[..k], s[k + 1..]))
  }

  function CutLast(s: string, c: char): Option<(string, string)> {
    match LastIndexOf(s, c)
    case None => None
    case Some(k) => Some((s[..k], s[k + 1..]))
  }

  lemma CutJoin(a: string, c: char, b: string)
    requires c !in a
    ensures Cut(a + [c] + b, c) == Some((a, b))
  {
    var s := a + [c] + b;
    assert s[|a|] == c;
    assert s[..|a|] == a && s[|a| + 1..] == b;
  }

  lemma CutLastJoin(a: string, c: char, b: string)
    requires c !in b
    ensures CutLast(a + [c] + b, c) == Some((a, b))
  {
    var s := a + [c] + b;
    assert s[|a|] == c;
    assert s[..|a|] == a && s[|a| + 1..] == b;
  }

  /** strcasecmp(a, b) == 0 in the C locale. */
  function Lower(c: char): char {
    if 'A' <= c <= 'Z' then c - 'A' + 'a' else c
  }

  predicate SameNoCase(a: string, b: string) {
    |a| == |b| && forall k | 0 <= k < |a| :: Lower(a[k]) == Lower(b[k])
  }

  // ---------------------------------------------------------------- numbers

  predicate IsDigit(c: char) {
    '0' <= c <= '9'
  }

  predicate AllDigits(s: string) {
    s != [] && forall k | 0 <= k < |s| :: IsDigit(s[k])
  }

  function DigitsValue(s: string): nat
    requires s == [] || AllDigits(s)
  {
    if s == [] then 0 else 10 * DigitsValue(s[..|s| - 1]) + (s[|s| - 1] - '0') as nat
  }

  /** strtol in base 10, with the loader's test that the whole string was consumed: leading spaces,
      an optional sign, then digits to the end. */
  function FullLong(s: string): Option<int> {
    var t := TrimLeft(s);
    if t == [] then None
    else if t[0] == '-' then (if AllDigits(t[1..]) then Some(0 - DigitsValue(t[1..]) as int) else None)
    else if t[0] == '+' then (if AllDigits(t[1..]) then Some(DigitsValue(t[1..])) else None)
    else if AllDigits(t) then Some(DigitsValue(t)) else None
  }

  /** Decimal digits of a number, as printf("%d") writes them. */
  function Dec(n: nat): (s: string)
    ensures AllDigits(s)
    ensures n < 10 <==> |s| == 1
    ensures n > 0 ==> s[0] != '0'
  {
    if n < 10 then [('0' as int + n) as char] else Dec(n / 10) + [('0' as int + n % 10) as char]
  }

  lemma {:induction false} DecValue(n: nat)
    ensures DigitsValue(Dec(n)) == n
  {
    if n < 10 {
    } else {
      DecValue(n / 10);
      assert Dec(n)[..|Dec(n)| - 1] == Dec(n / 10);
    }
  }

  lemma FullLongDec(n: nat)
    ensures FullLong(Dec(n)) == Some(n)
  {
    DecValue(n);
    assert IsDigit(Dec(n)[0]);
  }

  // ---------------------------------------------------------------- dotted quads

  /** One part of a dotted quad: no leading zero, at most 255. */
  function Octet(s: string): Option<Byte> {
    if AllDigits(s) && |s| <= 3 && (s[0] == '0' ==> |s| == 1) && DigitsValue(s) <= 255 then Some(DigitsValue(s))
        else None
  }

  /** inet_pton(AF_INET, ...). */
  function ParseQuad(s: string): Option<Routing.Address> {
    match Cut(s, '.')
    case None => None
    case Some((a, r)) =>
      match Cut(r, '.')
      case None => None
      case Some((b, t)) =>
        match Cut(t, '.')
        case None => None
        case Some((c, d)) => FromOctets(Octet(a), Octet(b), Octet(c), Octet(d))
  }

  function FromOctets(a: Option<Byte>, b: Option<Byte>, c: Option<Byte>, d: Option<Byte>): Option<Routing.Address> {
    if a.Some? && b.Some? && c.Some? && d.Some? then Some([a.value, b.value, c.value, d.value]) else None
  }

  /** inet_ntop(AF_INET, ...). */
  function Dotted(a: Routing.Address): string {
    Join(Dec(a[0]), Dec(a[1]), Dec(a[2]), Dec(a[3]))
  }

  function Join(a: string, b: string, c: string, d: string): string {
    a + ['.'] + (b + ['.'] + (c + ['.'] + d))
  }

  lemma DecOctet(b: Byte)
    ensures Octet(Dec(b)) == Some(b)
    ensures '.' !in Dec(b) && '/' !in Dec(b) && |Dec(b)| <= 3
  {
    DecValue(b);
    if b >= 10 {
      assert |Dec(b / 10)| <= 2;
    }
  }

  lemma ParseJoined(a: string, b: string, c: string, d: string)
    requires '.' !in a && '.' !in b && '.' !in c
    ensures ParseQuad(Join(a, b, c, d)) == FromOctets(Octet(a), Octet(b), Octet(c), Octet(d))
  {
    CutJoin(a, '.', b + ['.'] + (c + ['.'] + d));
    CutJoin(b, '.', c + ['.'] + d);
    CutJoin(c, '.', d);
  }

  lemma FourOctets(a: Routing.Address)
    ensures FromOctets(Some(a[0]), Some(a[1]), Some(a[2]), Some(a[3])) == Some(a)
  {
    assert [a[0], a[1], a[2], a[3]] == a;
  }

  /** A printed address reads back as itself. */
  lemma QuadRoundTrip(a: Routing.Address)
    ensures ParseQuad(Dotted(a)) == Some(a)
  {
    DecOctet(a[0]);
    DecOctet(a[1]);
    DecOctet(a[2]);
    DecOctet(a[3]);
    ParseJoined(Dec(a[0]), Dec(a[1]), Dec(a[2]), Dec(a[3]));
    FourOctets(a);
  }

  lemma CutJoins(s: string, c: char)
    requires Cut(s, c).Some?
    ensures s == Cut(s, c).value.0 + [c] + Cut(s, c).value.1
  {
  }

  predicate QuadChar(c: char) {
    IsDigit(c) || c == '.'
  }

  lemma JoinedChars(a: string, b: string, c: string, d: string)
    requires Octet(a).Some? && Octet(b).Some? && Octet(c).Some? && Octet(d).Some?
    ensures 7 <= |Join(a, b, c, d)| <= 15 && forall k | 0 <= k < |Join(a, b, c, d)| :: QuadChar(Join(a, b, c, d)[k])
  {
  }

  lemma QuadParts(s: string) returns (a: string, b: string, c: string, d: string)
    requires ParseQuad(s).Some?
    ensures s == Join(a, b, c, d) && Octet(a).Some? && Octet(b).Some? && Octet(c).Some? && Octet(d).Some?
  {
    var (a', r) := Cut(s, '.').value;
    var (b', t) := Cut(r, '.').value;
    var (c', d') := Cut(t, '.').value;
    CutJoins(s, '.');
    CutJoins(r, '.');
    CutJoins(t, '.');
    a, b, c, d := a', b', c', d';
  }

  /** Whatever reads as an address is short and made of digits and dots. */
  lemma QuadChars(s: string)
    requires ParseQuad(s).Some?
    ensures 7 <= |s| <= 15 && '/' !in s && '\n' !in s && IsTrimmed(s)
  {
    var a, b, c, d := QuadParts(s);
    JoinedChars(a, b, c, d);
    assert QuadChar(s[0]) && QuadChar(s[|s| - 1]);
  }
}
