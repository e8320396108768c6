/**
 * The query of a `mierus://` link and its reader: percent-encoding as in section 2.1 of
 * RFC 3986, with `+` for the space as in HTML form data, over bytes.
 */
module MieruQuery {
  import opened Prelude

  newtype Byte = x: int | 0 <= x < 256

  type Bytes = seq<Byte>

  const AMPERSAND: Byte := 38
  const EQUALS: Byte := 61
  const HASH: Byte := 35
  const PLUS: Byte := 43
  const PERCENT: Byte := 37
  const SPACE: Byte := 32

  /** The text of an ASCII literal as bytes. */
  function Ascii(s: string): Bytes
    requires forall i :: 0 <= i < |s| ==> s[i] < 128 as char
  {
    seq(|s|, i requires 0 <= i < |s| => (s[i] as int) as Byte)
  }

  // -------------------------------------------------------------------- url.QueryEscape

  predicate Unreserved(b: Byte) {
    || 97 <= b <= 122 || 65 <= b <= 90 || 48 <= b <= 57      // a-z A-Z 0-9
    || b == 45 || b == 95 || b == 46 || b == 126             // - _ . ~
  }

  function HexDigit(d: int): Byte
    requires 0 <= d < 16
  {
    if d < 10 then (48 + d) as Byte else (65 + d - 10) as Byte
  }

  function HexValue(b: Byte): Option<int> {
    if 48 <= b <= 57 then Some(b as int - 48)
    else if 65 <= b <= 70 then Some(b as int - 55)
    else if 97 <= b <= 102 then Some(b as int - 87)
    else None
  }

  function EscapeByte(b: Byte): Bytes {
    if Unreserved(b) then [b]
    else if b == SPACE then [PLUS]
    else [PERCENT, HexDigit(b as int / 16), HexDigit(b as int % 16)]
  }

  function Escape(s: Bytes): Bytes {
    if s == [] then [] else EscapeByte(s[0]) + Escape(s[1..])
  }

  /** url.QueryUnescape; None is its error. */
  function Unescape(s: Bytes): Option<Bytes> {
    if s == [] then Some([])
    else if s[0] == PERCENT then
      if |s| < 3 || HexValue(s[1]).None? || HexValue(s[2]).None? then None
      else
        match Unescape(s[3..])
        case None => None
        case Some(rest) => Some([(16 * HexValue(s[1]).value + HexValue(s[2]).value) as Byte] + rest)
    else
      match Unescape(s[1..])
      case None => None
      case Some(rest) => Some([if s[0] == PLUS then SPACE else s[0]] + rest)
  }

  /** The character of a code. */
  function CharOf(b: Byte): char {
    b as int as char
  }

  lemma HexDigitIs(d: int)
    requires 0 <= d < 16
    ensures CharOf(HexDigit(d)) == "0123456789ABCDEF"[d]
  {
  }

  /** Letters, digits and four signs stay as they are, a space becomes a plus, every other byte two hex digits. */
  lemma EscapesAs(b: Byte)
    ensures var c, digits := CharOf(b), "0123456789ABCDEF";
      var kept := 'a' <= c <= 'z' || 'A' <= c <= 'Z' || '0' <= c <= '9' || c in "-_.~";
      && (kept ==> EscapeByte(b) == [b])
      && (c == ' ' ==> |EscapeByte(b)| == 1 && CharOf(EscapeByte(b)[0]) == '+')
      && (!kept && c != ' ' ==>
            && |EscapeByte(b)| == 3 && CharOf(EscapeByte(b)[0]) == '%'
            && CharOf(EscapeByte(b)[1]) == digits[b as int / 16]
            && CharOf(EscapeByte(b)[2]) == digits[b as int % 16])
  {
    HexDigitIs(b as int / 16);
    HexDigitIs(b as int % 16);
  }

  lemma HexRoundTrip(d: int)
    requires 0 <= d < 16
    ensures HexValue(HexDigit(d)) == Some(d)
  {
  }

  lemma UnescapeEscapedByte(b: Byte, rest: Bytes, plain: Bytes)
    requires Unescape(rest) == Some(plain)
    ensures Unescape(EscapeByte(b) + rest) == Some([b] + plain)
  {
    if !Unreserved(b) && b != SPACE {
      var high, low := b as int / 16, b as int % 16;
      HexRoundTrip(high);
      HexRoundTrip(low);
      var s := [PERCENT, HexDigit(high), HexDigit(low)] + rest;
      assert s[3..] == rest && 16 * high + low == b as int;
    } else {
      assert ([EscapeByte(b)[0]] + rest)[1..] == rest;
    }
  }

  lemma {:induction false} UnescapeUndoesEscape(s: Bytes)
    ensures Unescape(Escape(s)) == Some(s)
  {
    if s != [] {
      UnescapeUndoesEscape(s[1..]);
      UnescapeEscapedByte(s[0], Escape(s[1..]), s[1..]);
      assert s == [s[0]] + s[1..];
    }
  }

  /** Escaped text never contains a separator of the link. */
  lemma {:induction false} EscapeHidesSeparators(s: Bytes)
    ensures AMPERSAND !in Escape(s) && EQUALS !in Escape(s) && HASH !in Escape(s)
  {
    if s != [] {
      EscapeHidesSeparators(s[1..]);
    }
  }

  // ------------------------------------------------------------------- splitting and joining

  function Join(parts: seq<Bytes>, sep: Byte): Bytes {
    if parts == [] then []
    else if |parts| == 1 then parts[0]
    else parts[0] + [sep] + Join(parts[1..], sep)
  }

  /** The part before the first separator, and whether and what follows it. */
  function Cut(s: Bytes, sep: Byte): (Bytes, Option<Bytes>) {
    if s == [] then ([], None)
    else if s[0] == sep then ([], Some(s[1..]))
    else
      var (head, tail) := Cut(s[1..], sep);
      ([s[0]] + head, tail)
  }

  lemma {:induction false} CutIsShorter(s: Bytes, sep: Byte)
    ensures Cut(s, sep).1.Some? ==> |Cut(s, sep).1.value| < |s|
  {
    if s != [] && s[0] != sep {
      CutIsShorter(s[1..], sep);
    }
  }

  function Split(s: Bytes, sep: Byte): seq<Bytes>
    decreases |s|
  {
    CutIsShorter(s, sep);
    var (head, tail) := Cut(s, sep);
    match tail
    case None => [head]
    case Some(rest) => [head] + Split(rest, sep)
  }

  lemma {:induction false} CutAtSeparator(a: Bytes, sep: Byte, b: Bytes)
    requires sep !in a
    ensures Cut(a + [sep] + b, sep) == (a, Some(b)) && Cut(a, sep) == (a, None)
  {
    if a == [] {
      assert (a + [sep] + b)[1..] == b;
    } else {
      CutAtSeparator(a[1..], sep, b);
      assert (a + [sep] + b)[1..] == a[1..] + [sep] + b;
      assert a == [a[0]] + a[1..];
    }
  }

  lemma {:induction false} SplitUndoesJoin(parts: seq<Bytes>, sep: Byte)
    requires parts != [] && forall i :: 0 <= i < |parts| ==> sep !in parts[i]
    ensures Split(Join(parts, sep), sep) == parts
  {
    if |parts| == 1 {
      CutAtSeparator(parts[0], sep, []);
    } else {
      SplitUndoesJoin(parts[1..], sep);
      CutAtSeparator(parts[0], sep, Join(parts[1..], sep));
    }
  }

  // -------------------------------------------------------------------- pairs and back

  datatype Pair = Pair(key: Bytes, value: Bytes)

  function PrintPair(p: Pair): Bytes {
    Escape(p.key) + [EQUALS] + Escape(p.value)
  }

  function PrintPairs(pairs: seq<Pair>): seq<Bytes> {
    seq(|pairs|, i requires 0 <= i < |pairs| => PrintPair(pairs[i]))
  }

  function Print(pairs: seq<Pair>): Bytes {
    Join(PrintPairs(pairs), AMPERSAND)
  }

  /** Standard form decoding of one `key=value` part. */
  function ReadPair(s: Bytes): Option<Pair> {
    var (head, tail) := Cut(s, EQUALS);
    match (Unescape(head), Unescape(if tail.Some? then tail.value else []))
    case (Some(key), Some(value)) => Some(Pair(key, value))
    case _ => None
  }

  function ReadPairs(parts: seq<Bytes>): Option<seq<Pair>> {
    if parts == [] then Some([])
    else
      match (ReadPair(parts[0]), ReadPairs(parts[1..]))
      case (Some(p), Some(rest)) => Some([p] + rest)
      case _ => None
  }

  function Read(query: Bytes): Option<seq<Pair>> {
    ReadPairs(Split(query, AMPERSAND))
  }

  lemma ReadUndoesPrintOnce(p: Pair)
    ensures ReadPair(PrintPair(p)) == Some(p) && AMPERSAND !in PrintPair(p) && HASH !in PrintPair(p)
  {
    EscapeHidesSeparators(p.key);
    EscapeHidesSeparators(p.value);
    CutAtSeparator(Escape(p.key), EQUALS, Escape(p.value));
    UnescapeUndoesEscape(p.key);
    UnescapeUndoesEscape(p.value);
  }

  lemma {:induction false} ReadPairsUndoesPrint(pairs: seq<Pair>)
    ensures ReadPairs(PrintPairs(pairs)) == Some(pairs)
  {
    if pairs != [] {
      ReadUndoesPrintOnce(pairs[0]);
      ReadPairsUndoesPrint(pairs[1..]);
      assert PrintPairs(pairs)[1..] == PrintPairs(pairs[1..]);
      assert pairs == [pairs[0]] + pairs[1..];
    }
  }

  /** For all keys and values, repeated keys included, reading gives back the printed pairs in order. */
  lemma ReadUndoesPrint(pairs: seq<Pair>)
    requires pairs != []
    ensures Read(Print(pairs)) == Some(pairs)
  {
    var parts := PrintPairs(pairs);
    forall i | 0 <= i < |parts|
      ensures AMPERSAND !in parts[i]
    {
      ReadUndoesPrintOnce(pairs[i]);
    }
    SplitUndoesJoin(parts, AMPERSAND);
    ReadPairsUndoesPrint(pairs);
  }

  // -------------------------------------------------------------------- BuildMieruURI

  /** The settings BuildMieruURI reads, with `mtu` as its decimal text. */
  datatype MieruSettings = MieruSettings(
    ports: seq<Bytes>, protocol: Bytes, mtu: Bytes, multiplexing: Bytes, handshakeMode: Bytes,
    trafficPattern: Bytes, profile: Bytes)

  datatype Key = Profile | Mtu | Multiplexing | HandshakeMode | TrafficPattern | Port | Protocol

  predicate Plain(key: Bytes) {
    forall i :: 0 <= i < |key| ==> Unreserved(key[i])
  }

  predicate Lower(name: string) {
    forall i :: 0 <= i < |name| ==> 'a' <= name[i] <= 'z' || name[i] == '-'
  }

  function KeyName(key: Key): (name: string)
    ensures Lower(name)
  {
    match key
    case Profile => "profile"
    case Mtu => "mtu"
    case Multiplexing => "multiplexing"
    case HandshakeMode => "handshake-mode"
    case TrafficPattern => "traffic-pattern"
    case Port => "port"
    case Protocol => "protocol"
  }

  function KeyText(key: Key): (text: Bytes)
    ensures Plain(text)
  {
    Ascii(KeyName(key))
  }

  function Default(value: Bytes, fallback: Bytes): Bytes {
    if value == [] then fallback else value
  }

  function PortPairs(ports: seq<Bytes>, protocol: Bytes): seq<Pair> {
    if ports == [] then []
    else
      var init, last := ports[..|ports| - 1], ports[|ports| - 1];
      PortPairs(init, protocol) + PortPair(last, protocol)
  }

  function PortPair(port: Bytes, protocol: Bytes): seq<Pair> {
    [Pair(KeyText(Port), port), Pair(KeyText(Protocol), protocol)]
  }

  function SettingPairs(s: MieruSettings, nodeName: Bytes): seq<Pair> {
    [Pair(KeyText(Profile), Default(s.profile, nodeName)), Pair(KeyText(Mtu), s.mtu),
     Pair(KeyText(Multiplexing), s.multiplexing), Pair(KeyText(HandshakeMode), s.handshakeMode)]
  }

  function PatternPairs(s: MieruSettings): seq<Pair> {
    if s.trafficPattern == [] then [] else [Pair(KeyText(TrafficPattern), s.trafficPattern)]
  }

  function EffectivePorts(s: MieruSettings): seq<Bytes> {
    if s.ports == [] then [Ascii("2012-2022")] else s.ports
  }

  function EffectiveProtocol(s: MieruSettings): Bytes {
    Default(s.protocol, Ascii("TCP"))
  }

  /** The pairs the link means to carry. */
  function MieruPairs(s: MieruSettings, nodeName: Bytes): seq<Pair> {
    SettingPairs(s, nodeName) + PatternPairs(s)
    + PortPairs(EffectivePorts(s), EffectiveProtocol(s))
  }

  /** The fixed keys need no escaping. */
  lemma {:induction false} PlainKey(key: Bytes)
    requires Plain(key)
    ensures Escape(key) == key
  {
    if key != [] {
      PlainKey(key[1..]);
      assert key == [key[0]] + key[1..];
    }
  }

  lemma PrintPairsConcat(a: seq<Pair>, b: seq<Pair>)
    ensures PrintPairs(a + b) == PrintPairs(a) + PrintPairs(b)
  {
  }

  /** One part as the code writes it: the key as it is, the value escaped. */
  method KeyValue(key: Key, value: Bytes) returns (part: Bytes)
    ensures part == PrintPair(Pair(KeyText(key), value))
  {
    PlainKey(KeyText(key));
    part := KeyText(key) + [EQUALS] + Escape(value);
  }

  method PortParts(port: Bytes, protocol: Bytes) returns (parts: seq<Bytes>)
    ensures parts == PrintPairs(PortPair(port, protocol))
  {
    var p0 := KeyValue(Port, port);
    var p1 := KeyValue(Protocol, protocol);
    parts := [p0, p1];
  }

  /** The loop over the port ranges. */
  method AllPortParts(ports: seq<Bytes>, protocol: Bytes) returns (parts: seq<Bytes>)
    ensures parts == PrintPairs(PortPairs(ports, protocol))
  {
    parts := [];
    for i := 0 to |ports|
      invariant parts == PrintPairs(PortPairs(ports[..i], protocol))
    {
      var more := PortParts(ports[i], protocol);
      assert ports[..i + 1][..i] == ports[..i];
      PrintPairsConcat(PortPairs(ports[..i], protocol), PortPair(ports[i], protocol));
      parts := parts + more;
    }
    assert ports[..|ports|] == ports;
  }

  lemma PrintFour(a: Pair, b: Pair, c: Pair, d: Pair)
    ensures PrintPairs([a, b, c, d]) == [PrintPair(a), PrintPair(b), PrintPair(c), PrintPair(d)]
  {
  }

  method SettingParts(s: MieruSettings, nodeName: Bytes) returns (parts: seq<Bytes>)
    ensures parts == PrintPairs(SettingPairs(s, nodeName))
  {
    var p0 := KeyValue(Profile, Default(s.profile, nodeName));
    var p1 := KeyValue(Mtu, s.mtu);
    var p2 := KeyValue(Multiplexing, s.multiplexing);
    var p3 := KeyValue(HandshakeMode, s.handshakeMode);
    parts := [p0, p1, p2, p3];
    ghost var pairs := SettingPairs(s, nodeName);
    PrintFour(pairs[0], pairs[1], pairs[2], pairs[3]);
  }

  method PatternParts(s: MieruSettings) returns (parts: seq<Bytes>)
    ensures parts == PrintPairs(PatternPairs(s))
  {
    parts := [];
    if s.trafficPattern != [] {
      var p4 := KeyValue(TrafficPattern, s.trafficPattern);
      parts := [p4];
    }
  }

  /** The end of BuildMieruURI. */
  method BuildLinkTail(s: MieruSettings, nodeName: Bytes) returns (tail: Bytes)
    ensures tail == LinkTail(s, nodeName)
  {
    var settings := SettingParts(s, nodeName);
    var pattern := PatternParts(s);
    var ports := AllPortParts(EffectivePorts(s), EffectiveProtocol(s));
    PrintPairsConcat(SettingPairs(s, nodeName), PatternPairs(s));
    PrintPairsConcat(SettingPairs(s, nodeName) + PatternPairs(s), PortPairs(EffectivePorts(s), EffectiveProtocol(s)));
    tail := Join(settings + pattern + ports, AMPERSAND) + [HASH] + Escape(Default(s.profile, nodeName));
  }

  lemma {:induction false} JoinAvoids(parts: seq<Bytes>, sep: Byte, b: Byte)
    requires b != sep && forall i :: 0 <= i < |parts| ==> b !in parts[i]
    ensures b !in Join(parts, sep)
  {
    if |parts| > 1 {
      JoinAvoids(parts[1..], sep, b);
    }
  }

  /** What BuildMieruURI writes after the `?`: the query, and the profile once more as the fragment. */
  function LinkTail(s: MieruSettings, nodeName: Bytes): Bytes {
    Print(MieruPairs(s, nodeName)) + [HASH] + Escape(Default(s.profile, nodeName))
  }

  /** A link decodes to its settings, whatever bytes they hold and however many port ranges there are. */
  lemma MieruLinkRoundTrip(s: MieruSettings, nodeName: Bytes)
    ensures var (query, fragment) := Cut(LinkTail(s, nodeName), HASH);
      && Read(query) == Some(MieruPairs(s, nodeName))
      && fragment.Some? && Unescape(fragment.value) == Some(Default(s.profile, nodeName))
  {
    var pairs, profile := MieruPairs(s, nodeName), Default(s.profile, nodeName);
    var parts := PrintPairs(pairs);
    forall i | 0 <= i < |parts|
      ensures HASH !in parts[i]
    {
      ReadUndoesPrintOnce(pairs[i]);
    }
    JoinAvoids(parts, AMPERSAND, HASH);
    CutAtSeparator(Print(pairs), HASH, Escape(profile));
    ReadUndoesPrint(pairs);
    UnescapeUndoesEscape(profile);
  }

  lemma {:induction false} PortPairsAlternate(ports: seq<Bytes>, protocol: Bytes)
    ensures |PortPairs(ports, protocol)| == 2 * |ports|
    ensures forall i :: 0 <= i < |ports| ==>
      && PortPairs(ports, protocol)[2 * i] == Pair(KeyText(Port), ports[i])
      && PortPairs(ports, protocol)[2 * i + 1] == Pair(KeyText(Protocol), protocol)
  {
    if ports != [] {
      PortPairsAlternate(ports[..|ports| - 1], protocol);
    }
  }

  // ------------------------------------------------------------- what the reader of a link finds

  /** The values under a key, in order. */
  function ValuesOf(pairs: seq<Pair>, key: Bytes): seq<Bytes> {
    if pairs == [] then []
    else
      var init, last := ValuesOf(pairs[..|pairs| - 1], key), pairs[|pairs| - 1];
      if last.key == key then init + [last.value] else init
  }

  lemma {:induction false} ValuesConcat(a: seq<Pair>, b: seq<Pair>, key: Bytes)
    ensures ValuesOf(a + b, key) == ValuesOf(a, key) + ValuesOf(b, key)
  {
    if b == [] {
      assert a + b == a;
    } else {
      ValuesConcat(a, b[..|b| - 1], key);
      assert (a + b)[..|a + b| - 1] == a + b[..|b| - 1];
    }
  }

  lemma OneValue(p: Pair, key: Bytes)
    ensures ValuesOf([p], key) == if p.key == key then [p.value] else []
  {
    assert [p][..0] == [];
  }

  function Repeated(value: Bytes, n: nat): seq<Bytes> {
    seq(n, _ => value)
  }

  lemma {:induction false} PortValues(ports: seq<Bytes>, protocol: Bytes, key: Bytes)
    requires KeyText(Port) != KeyText(Protocol)
    ensures ValuesOf(PortPairs(ports, protocol), key) ==
      if key == KeyText(Port) then ports
      else if key == KeyText(Protocol) then Repeated(protocol, |ports|)
      else []
  {
    if ports != [] {
      var init, last := ports[..|ports| - 1], ports[|ports| - 1];
      PortValues(init, protocol, key);
      ValuesConcat(PortPairs(init, protocol), PortPair(last, protocol), key);
      PortValue(last, protocol, key);
      assert init + [last] == ports;
      assert Repeated(protocol, |init|) + [protocol] == Repeated(protocol, |ports|);
    }
  }

  lemma PortValue(port: Bytes, protocol: Bytes, key: Bytes)
    ensures ValuesOf(PortPair(port, protocol), key) ==
      (if key == KeyText(Port) then [port] else []) + (if key == KeyText(Protocol) then [protocol] else [])
  {
    var p, q := Pair(KeyText(Port), port), Pair(KeyText(Protocol), protocol);
    assert PortPair(port, protocol) == [p] + [q];
    ValuesConcat([p], [q], key);
    OneValue(p, key);
    OneValue(q, key);
  }

  lemma SettingValues(s: MieruSettings, nodeName: Bytes, key: Bytes)
    ensures ValuesOf(SettingPairs(s, nodeName), key) ==
      (if key == KeyText(Profile) then [Default(s.profile, nodeName)] else [])
      + (if key == KeyText(Mtu) then [s.mtu] else [])
      + (if key == KeyText(Multiplexing) then [s.multiplexing] else [])
      + (if key == KeyText(HandshakeMode) then [s.handshakeMode] else [])
  {
    var a, b := Pair(KeyText(Profile), Default(s.profile, nodeName)), Pair(KeyText(Mtu), s.mtu);
    var c, d := Pair(KeyText(Multiplexing), s.multiplexing), Pair(KeyText(HandshakeMode), s.handshakeMode);
    assert SettingPairs(s, nodeName) == [a] + [b] + [c] + [d];
    ValuesConcat([a] + [b] + [c], [d], key);
    ValuesConcat([a] + [b], [c], key);
    ValuesConcat([a], [b], key);
    OneValue(a, key);
    OneValue(b, key);
    OneValue(c, key);
    OneValue(d, key);
  }

  lemma PatternValues(s: MieruSettings, key: Bytes)
    ensures ValuesOf(PatternPairs(s), key) ==
      if key == KeyText(TrafficPattern) && s.trafficPattern != [] then [s.trafficPattern] else []
  {
    OneValue(Pair(KeyText(TrafficPattern), s.trafficPattern), key);
  }

  /** What the names of the link mean, spelt out: one value each, and a port and a protocol for every range. */
  ghost predicate Carries(pairs: seq<Pair>, s: MieruSettings, nodeName: Bytes) {
    var ports := ValuesOf(pairs, Ascii("port"));
    && ValuesOf(pairs, Ascii("profile")) == [if s.profile == [] then nodeName else s.profile]
    && ValuesOf(pairs, Ascii("mtu")) == [s.mtu]
    && ValuesOf(pairs, Ascii("multiplexing")) == [s.multiplexing]
    && ValuesOf(pairs, Ascii("handshake-mode")) == [s.handshakeMode]
    && ValuesOf(pairs, Ascii("traffic-pattern")) == (if s.trafficPattern == [] then [] else [s.trafficPattern])
    && ports == (if s.ports == [] then [Ascii("2012-2022")] else s.ports)
    && |ValuesOf(pairs, Ascii("protocol"))| == |ports|
    && forall v :: v in ValuesOf(pairs, Ascii("protocol")) ==>
         v == if s.protocol == [] then Ascii("TCP") else s.protocol
  }

  lemma SameKey(a: Key, b: Key)
    ensures KeyText(a) == KeyText(b) <==> a == b
  {
    assert |KeyText(a)| == |KeyName(a)| && |KeyText(b)| == |KeyName(b)|;
  }

  lemma SettingUnder(s: MieruSettings, nodeName: Bytes, key: Key)
    ensures ValuesOf(SettingPairs(s, nodeName), KeyText(key)) ==
      match key
      case Profile => [Default(s.profile, nodeName)]
      case Mtu => [s.mtu]
      case Multiplexing => [s.multiplexing]
      case HandshakeMode => [s.handshakeMode]
      case _ => []
  {
    SettingValues(s, nodeName, KeyText(key));
    SameKey(key, Profile);
    SameKey(key, Mtu);
    SameKey(key, Multiplexing);
    SameKey(key, HandshakeMode);
  }

  lemma PortsUnder(ports: seq<Bytes>, protocol: Bytes, key: Key)
    ensures ValuesOf(PortPairs(ports, protocol), KeyText(key)) ==
      match key
      case Port => ports
      case Protocol => Repeated(protocol, |ports|)
      case _ => []
  {
    SameKey(Port, Protocol);
    PortValues(ports, protocol, KeyText(key));
    SameKey(key, Port);
    SameKey(key, Protocol);
  }

  lemma PatternUnder(s: MieruSettings, key: Key)
    ensures ValuesOf(PatternPairs(s), KeyText(key)) ==
      if key == TrafficPattern && s.trafficPattern != [] then [s.trafficPattern] else []
  {
    PatternValues(s, KeyText(key));
    SameKey(key, TrafficPattern);
  }

  lemma ValuesOfParts(s: MieruSettings, nodeName: Bytes, text: Bytes)
    ensures ValuesOf(MieruPairs(s, nodeName), text) ==
      ValuesOf(SettingPairs(s, nodeName), text) + ValuesOf(PatternPairs(s), text)
      + ValuesOf(PortPairs(EffectivePorts(s), EffectiveProtocol(s)), text)
  {
    ValuesConcat(SettingPairs(s, nodeName) + PatternPairs(s), PortPairs(EffectivePorts(s), EffectiveProtocol(s)), text);
    ValuesConcat(SettingPairs(s, nodeName), PatternPairs(s), text);
  }

  lemma ValuesUnder(s: MieruSettings, nodeName: Bytes, key: Key)
    ensures ValuesOf(MieruPairs(s, nodeName), KeyText(key)) ==
      match key
      case Profile => [Default(s.profile, nodeName)]
      case Mtu => [s.mtu]
      case Multiplexing => [s.multiplexing]
      case HandshakeMode => [s.handshakeMode]
      case TrafficPattern => if s.trafficPattern != [] then [s.trafficPattern] else []
      case Port => EffectivePorts(s)
      case Protocol => Repeated(EffectiveProtocol(s), |EffectivePorts(s)|)
  {
    ValuesOfParts(s, nodeName, KeyText(key));
    SettingUnder(s, nodeName, key);
    PatternUnder(s, key);
    PortsUnder(EffectivePorts(s), EffectiveProtocol(s), key);
  }

  lemma PairsCarry(s: MieruSettings, nodeName: Bytes)
    ensures Carries(MieruPairs(s, nodeName), s, nodeName)
  {
    ValuesUnder(s, nodeName, Profile);
    ValuesUnder(s, nodeName, Mtu);
    ValuesUnder(s, nodeName, Multiplexing);
    ValuesUnder(s, nodeName, HandshakeMode);
    ValuesUnder(s, nodeName, TrafficPattern);
    ValuesUnder(s, nodeName, Port);
    ValuesUnder(s, nodeName, Protocol);
  }

  /** The reader of a link finds each setting under its name, whatever bytes it holds. */
  lemma LinkCarriesSettings(s: MieruSettings, nodeName: Bytes)
    ensures var (query, fragment) := Cut(LinkTail(s, nodeName), HASH);
      Read(query).Some? && Carries(Read(query).value, s, nodeName)
  {
    MieruLinkRoundTrip(s, nodeName);
    PairsCarry(s, nodeName);
  }
}
