/** Port adjustment: the multiaddress rewrite, and the textual form of ports and offsets. */
module NetworkConfig {
  import opened Types

  datatype Protocol = Tcp(port: nat) | Udp(port: nat) | OtherProtocol(name: string)

  type Multiaddr = seq<Protocol>

  datatype PortOrOffset = Port(port: nat) | Offset(offset: int)

  const U16_MAX := 65535
  const I16_MIN := -32768
  const I16_MAX := 32767

  /** Ports are u16 values and offsets i16 values. */
  predicate InRange(p: PortOrOffset) {
    match p
    case Port(n) => n <= 65535
    case Offset(n) => -32768 <= n <= 32767
  }

  /** A fixed port, or the u16 value nearest to the signed sum. */
  function AdjustPort(p: PortOrOffset, port: nat): nat {
    match p
    case Port(n) => n
    case Offset(n) =>
      if port + n < 0 then 0 else if port + n > U16_MAX then U16_MAX else port + n
  }

  function Distance(a: int, b: int): nat {
    if a < b then b - a else a - b
  }

  /** An offset yields the port nearest to the exact sum; a fixed port replaces the old one. */
  lemma AdjustPortNearest(p: PortOrOffset, port: nat, q: nat)
    requires InRange(p) && port <= 65535 && q <= 65535
    ensures AdjustPort(p, port) <= 65535
    ensures p.Port? ==> AdjustPort(p, port) == p.port
    ensures p.Offset? ==> Distance(AdjustPort(p, port), port + p.offset) <= Distance(q, port + p.offset)
  {}

  predicate HasPort(x: Protocol) {
    x.Tcp? || x.Udp?
  }

  function Adjusted(p: PortOrOffset, x: Protocol): Protocol
    requires HasPort(x)
  {
    if x.Tcp? then Tcp(AdjustPort(p, x.port)) else Udp(AdjustPort(p, x.port))
  }

  function Reverse<T>(s: seq<T>): (r: seq<T>)
    ensures |r| == |s|
    ensures forall i | 0 <= i < |s| :: r[i] == s[|s| - 1 - i]
  {
    if s == [] then [] else [s[|s| - 1]] + Reverse(s[..|s| - 1])
  }

  /** The position after the last tcp or udp part; 0 if there is none. */
  function AfterPort(addr: Multiaddr): (n: nat)
    ensures n <= |addr|
    ensures n > 0 ==> HasPort(addr[n - 1])
    ensures forall i | n <= i < |addr| :: !HasPort(addr[i])
  {
    if addr == [] then 0
    else if HasPort(addr[|addr| - 1]) then |addr|
    else AfterPort(addr[..|addr| - 1])
  }

  /**
    The exact result: the parts before the last port, then the parts after it in reverse order,
    then the adjusted port; the whole address reversed if it has no port.
   */
  function Rewritten(p: PortOrOffset, addr: Multiaddr): Multiaddr {
    var n := AfterPort(addr);
    if n == 0 then Reverse(addr)
    else addr[..n - 1] + Reverse(addr[n..]) + [Adjusted(p, addr[n - 1])]
  }

  /** The first n parts end with the last tcp or udp part of the address, or n is 0 and there is none. */
  ghost predicate LastPortBefore(addr: Multiaddr, n: nat) {
    && n <= |addr|
    && (n > 0 ==> addr[n - 1].Tcp? || addr[n - 1].Udp?)
    && forall i | n <= i < |addr| :: addr[i].OtherProtocol?
  }

  /**
    The rewrite part by part: the parts before the last port stay, those after it follow in reverse
    order, and the port comes last, of the same protocol and adjusted; without a port the whole
    address is reversed.
   */
  ghost predicate PortMovedLast(p: PortOrOffset, addr: Multiaddr, n: nat, r: Multiaddr)
    requires LastPortBefore(addr, n)
  {
    && |r| == |addr|
    && (n == 0 ==> forall i | 0 <= i < |addr| :: r[i] == addr[|addr| - 1 - i])
    && (n > 0 ==>
          && r[..n - 1] == addr[..n - 1]
          && (forall i | n <= i < |addr| :: r[n + |addr| - 2 - i] == addr[i])
          && var port := AdjustPort(p, addr[n - 1].port);
             r[|r| - 1] == if addr[n - 1].Tcp? then Tcp(port) else Udp(port))
  }

  lemma RewrittenPartByPart(p: PortOrOffset, addr: Multiaddr, n: nat)
    requires LastPortBefore(addr, n)
    ensures PortMovedLast(p, addr, n, Rewritten(p, addr))
  {
    assert AfterPort(addr) == n;
    if n > 0 {
      var r, rest := Rewritten(p, addr), Reverse(addr[n..]);
      forall i | n <= i < |addr| ensures r[n + |addr| - 2 - i] == addr[i] {
        assert rest[|addr| - 1 - i] == addr[i];
      }
    }
  }

  /** The rewrite with respect to the last port, wherever it is. */
  ghost predicate MovesLastPort(p: PortOrOffset, addr: Multiaddr, r: Multiaddr) {
    exists n :: LastPortBefore(addr, n) && PortMovedLast(p, addr, n, r)
  }

  lemma RewrittenMoves(p: PortOrOffset, addr: Multiaddr)
    ensures MovesLastPort(p, addr, Rewritten(p, addr))
  {
    assert LastPortBefore(addr, AfterPort(addr));
    RewrittenPartByPart(p, addr, AfterPort(addr));
  }

  method AdjustMultiaddr(p: PortOrOffset, addr: Multiaddr) returns (r: Multiaddr)
    ensures r == Rewritten(p, addr)
    ensures MovesLastPort(p, addr, r)
  {
    r := addr;
    var popped: seq<Protocol> := [];
    while r != []
      invariant r <= addr && Popped(addr, |r|, popped)
    {
      var last := r[|r| - 1];
      if HasPort(last) {
        PortFound(p, addr, |r|, popped);
        popped := popped + [Adjusted(p, last)];
        r := r[..|r| - 1];
        assert r == addr[..|r|];
        break;
      }
      PopNext(addr, |r|, popped);
      popped := popped + [last];
      r := r[..|r| - 1];
    }
    NonePorted(p, addr, r, popped);
    r := PushAll(r, popped);
    RewrittenMoves(p, addr);
  }

  /** All but the first n parts have been popped, and none of them has a port. */
  ghost predicate Popped(addr: Multiaddr, n: nat, popped: seq<Protocol>) {
    n <= |addr| && AfterPort(addr) == AfterPort(addr[..n]) && popped == Reverse(addr[n..])
  }

  lemma PopNext(addr: Multiaddr, n: nat, popped: seq<Protocol>)
    requires 0 < n && Popped(addr, n, popped) && !HasPort(addr[n - 1])
    ensures Popped(addr, n - 1, popped + [addr[n - 1]])
  {
    assert addr[..n][..n - 1] == addr[..n - 1];
  }

  /** Where the loop stops on a port, pushing back in pop order gives the exact result. */
  lemma PortFound(p: PortOrOffset, addr: Multiaddr, n: nat, popped: seq<Protocol>)
    requires 0 < n && Popped(addr, n, popped) && HasPort(addr[n - 1])
    ensures addr[..n - 1] + (popped + [Adjusted(p, addr[n - 1])]) == Rewritten(p, addr)
  {}

  lemma NonePorted(p: PortOrOffset, addr: Multiaddr, r: Multiaddr, popped: seq<Protocol>)
    ensures r == [] && Popped(addr, 0, popped) ==> r + popped == Rewritten(p, addr)
  {
    assert addr[0..] == addr;
  }

  /** Pushes the collected parts back in the order they were popped. */
  method PushAll(addr: Multiaddr, parts: seq<Protocol>) returns (r: Multiaddr)
    ensures r == addr + parts
  {
    r := addr;
    for i := 0 to |parts|
      invariant r == addr + parts[..i]
    {
      r := r + [parts[i]];
    }
  }

  /** What an in-place update of the port would give. */
  function UpdatedInPlace(p: PortOrOffset, addr: Multiaddr): Multiaddr {
    var n := AfterPort(addr);
    if n == 0 then addr else addr[n - 1 := Adjusted(p, addr[n - 1])]
  }

  /** With a port, the rewrite is an in-place update exactly when the port is the last part. */
  lemma InPlaceIffPortLast(p: PortOrOffset, addr: Multiaddr)
    requires AfterPort(addr) > 0
    ensures Rewritten(p, addr) == UpdatedInPlace(p, addr) <==> AfterPort(addr) == |addr|
  {
    var n := AfterPort(addr);
    if n < |addr| {
      assert HasPort(UpdatedInPlace(p, addr)[n - 1]);
    } else {
      assert Reverse(addr[n..]) == [];
    }
  }

  /** Without a port, the address is left alone exactly when it reads the same backwards. */
  lemma UnchangedIffPalindrome(p: PortOrOffset, addr: Multiaddr)
    requires AfterPort(addr) == 0
    ensures Rewritten(p, addr) == UpdatedInPlace(p, addr) <==>
            forall i | 0 <= i < |addr| :: addr[i] == addr[|addr| - 1 - i]
  {}

  /** Setting a fixed port twice is setting it once, on every address that has a port. */
  lemma FixedPortIdempotent(port: nat, addr: Multiaddr)
    requires AfterPort(addr) > 0
    ensures var p := Port(port); Rewritten(p, Rewritten(p, addr)) == Rewritten(p, addr)
  {
    var p, n := Port(port), AfterPort(addr);
    LastPortInPlace(p, addr[..n - 1] + Reverse(addr[n..]), Adjusted(p, addr[n - 1]));
    assert Adjusted(p, Adjusted(p, addr[n - 1])) == Adjusted(p, addr[n - 1]);
  }

  /** A port in the last place is adjusted in place. */
  lemma LastPortInPlace(p: PortOrOffset, parts: Multiaddr, last: Protocol)
    requires HasPort(last)
    ensures Rewritten(p, parts + [last]) == parts + [Adjusted(p, last)]
  {
    var addr := parts + [last];
    assert AfterPort(addr) == |addr| && addr[..|parts|] == parts;
    assert Reverse(addr[|addr|..]) == [];
  }

  // ----- Text -----

  function DigitChar(d: nat): char
    requires d < 10
  {
    "0123456789"[d]
  }

  function Decimal(n: nat): (s: string)
    ensures s != [] && forall i | 0 <= i < |s| :: '0' <= s[i] <= '9'
  {
    if n < 10 then [DigitChar(n)] else Decimal(n / 10) + [DigitChar(n % 10)]
  }

  /** A non-empty string of digits. */
  function ParseDigits(s: string): Option<nat> {
    if s == [] then None
    else
      var c := s[|s| - 1];
      if !('0' <= c <= '9') then None
      else if |s| == 1 then Some((c - '0') as nat)
      else
        var init := ParseDigits(s[..|s| - 1]);
        if init.None? then None else Some(init.value * 10 + (c - '0') as nat)
  }

  /** u16 parsing: an optional plus sign, digits, and a range check. */
  function ParseU16(s: string): Option<nat> {
    var digits := ParseDigits(if s != [] && s[0] == '+' then s[1..] else s);
    if digits.Some? && digits.value <= U16_MAX then digits else None
  }

  /** i16 parsing: an optional sign, digits, and a range check. */
  function ParseI16(s: string): Option<int> {
    var negative := s != [] && s[0] == '-';
    var digits := ParseDigits(if s != [] && (s[0] == '+' || s[0] == '-') then s[1..] else s);
    if digits.None? then None
    else
      var n := if negative then -(digits.value as int) else digits.value as int;
      if I16_MIN <= n <= I16_MAX then Some(n) else None
  }

  /** i16 negation: with overflow checks the minimum panics, without them it wraps to itself. */
  function NegateI16(n: int, checked: bool): Option<int> {
    if n != I16_MIN then Some(-n) else if checked then None else Some(I16_MIN)
  }

  function SignedDecimal(n: int): string {
    if n < 0 then "-" + Decimal(-n) else Decimal(n)
  }

  /** Display; None is a panic. */
  function Print(p: PortOrOffset, checked: bool): Option<string> {
    match p
    case Port(n) => Some(Decimal(n))
    case Offset(n) =>
      if n >= 0 then Some("+" + SignedDecimal(n))
      else
        var negated := NegateI16(n, checked);
        if negated.None? then None else Some("-" + SignedDecimal(negated.value))
  }

  /** FromStr; None is a parse error or a panic. */
  function Parse(s: string, checked: bool): Option<PortOrOffset> {
    if s != [] && s[0] == '+' then
      var n := ParseI16(s[1..]);
      if n.None? then None else Some(Offset(n.value))
    else if s != [] && s[0] == '-' then
      var n := ParseI16(s[1..]);
      if n.None? then None
      else
        var negated := NegateI16(n.value, checked);
        if negated.None? then None else Some(Offset(negated.value))
    else
      var n := ParseU16(s);
      if n.None? then None else Some(Port(n.value))
  }

  lemma {:induction false} DecimalRoundTrip(n: nat)
    ensures ParseDigits(Decimal(n)) == Some(n)
  {
    if n >= 10 {
      DecimalRoundTrip(n / 10);
    }
  }

  lemma MinusDigits(digits: string, n: int)
    requires ParseDigits(digits) == Some(-n) && n >= -32768
    ensures ParseI16("-" + digits) == Some(n)
  {
    assert ("-" + digits)[1..] == digits;
  }

  lemma PlainDigits(digits: string, n: nat)
    requires ParseDigits(digits) == Some(n) && n <= 32767 && digits != [] && digits[0] != '+' && digits[0] != '-'
    ensures ParseI16(digits) == Some(n)
  {}

  lemma SignedRoundTrip(n: int)
    requires I16_MIN <= n <= I16_MAX
    ensures ParseI16(SignedDecimal(n)) == Some(n)
  {
    if n < 0 {
      DecimalRoundTrip(-n);
      MinusDigits(Decimal(-n), n);
    } else {
      DecimalRoundTrip(n);
      PlainDigits(Decimal(n), n);
    }
  }

  /** The decimal digit of weight 10^i. */
  function DigitOf(n: nat, i: nat): (d: nat)
    ensures d < 10
    decreases i
  {
    if i == 0 then n % 10 else DigitOf(n / 10, i - 1)
  }

  /** Decimal notation: most significant digit first, without leading zeros. */
  lemma {:induction false} DecimalDigits(n: nat, i: nat)
    requires i < |Decimal(n)|
    ensures Decimal(n)[|Decimal(n)| - 1 - i] == "0123456789"[DigitOf(n, i)]
    ensures n > 0 ==> Decimal(n)[0] != '0'
    ensures n == 0 ==> Decimal(n) == "0"
  {
    if n >= 10 {
      DecimalDigits(n / 10, if i > 0 then i - 1 else 0);
    }
  }

  /**
    The printed forms: a port in decimal, an offset as its sign and magnitude. The least offset
    panics in a build with overflow checks and prints a second sign without them.
   */
  lemma PrintedForms(p: PortOrOffset, checked: bool)
    requires InRange(p)
    ensures Print(p, checked) ==
            match p
            case Port(n) => Some(Decimal(n))
            case Offset(n) =>
              if n >= 0 then Some("+" + Decimal(n))
              else if n > -32768 then Some("-" + Decimal(-n))
              else if checked then None
              else Some("--" + Decimal(32768))
  {
    assert "-" + ("-" + Decimal(32768)) == "--" + Decimal(32768);
  }

  /** Each digit weighs ten times the next. */
  lemma DigitsWeigh(s: string)
    requires ParseDigits(s).Some?
    ensures |s| == 1 ==> ParseDigits(s).value == (s[0] - '0') as nat
    ensures |s| > 1 ==>
              && ParseDigits(s[..|s| - 1]).Some?
              && ParseDigits(s).value == 10 * ParseDigits(s[..|s| - 1]).value + (s[|s| - 1] - '0') as nat
  {}

  /** Exactly the non-empty strings of digits parse. */
  lemma {:induction false} DigitsExact(s: string)
    ensures ParseDigits(s).Some? <==> s != [] && forall i | 0 <= i < |s| :: '0' <= s[i] <= '9'
  {
    if |s| > 1 {
      var init := s[..|s| - 1];
      DigitsExact(init);
      assert forall i | 0 <= i < |init| :: init[i] == s[i];
    }
  }

  /** An i16 as the standard library reads it: an optional sign and digits, in range. */
  predicate I16Text(s: string, n: int) {
    && -32768 <= n <= 32767
    && (|| (n >= 0 && ParseDigits(s) == Some(n))
        || (n >= 0 && s != [] && s[0] == '+' && ParseDigits(s[1..]) == Some(n))
        || (n <= 0 && s != [] && s[0] == '-' && ParseDigits(s[1..]) == Some(-n)))
  }

  lemma I16Exact(s: string, n: int)
    ensures ParseI16(s) == Some(n) <==> I16Text(s, n)
  {
    DigitsExact(s);
  }

  lemma SignIsNoDigit(s: string)
    requires s != [] && (s[0] == '+' || s[0] == '-')
    ensures ParseDigits(s) == None
  {
    DigitsExact(s);
  }

  lemma ParsePlus(s: string, checked: bool, p: PortOrOffset)
    requires s != [] && s[0] == '+'
    ensures Parse(s, checked) == Some(p) <==> p.Offset? && I16Text(s[1..], p.offset)
  {
    if p.Offset? {
      I16Exact(s[1..], p.offset);
    }
  }

  /** What a parsed i16 becomes after a minus sign. */
  lemma Negations(m: Option<int>, n: int, checked: bool)
    requires m.Some? ==> -32768 <= m.value <= 32767
    ensures m.Some? && NegateI16(m.value, checked) == Some(n) <==>
            (n != 32768 && m == Some(-n)) || (n == -32768 && !checked && m == Some(n))
  {}

  lemma ParseMinus(s: string, checked: bool, p: PortOrOffset)
    requires s != [] && s[0] == '-'
    ensures Parse(s, checked) == Some(p) <==>
            && p.Offset?
            && (|| (p.offset != 32768 && I16Text(s[1..], -p.offset))
                || (p.offset == -32768 && !checked && I16Text(s[1..], p.offset)))
  {
    if p.Offset? {
      Negations(ParseI16(s[1..]), p.offset, checked);
      I16Exact(s[1..], p.offset);
      I16Exact(s[1..], -p.offset);
    }
  }

  /**
    What parses, and to what: a port is digits with no sign; an offset is a sign followed by an
    i16, negated after a minus sign, where the least one panics or wraps.
   */
  lemma ParseExact(s: string, checked: bool, p: PortOrOffset)
    ensures Parse(s, checked) == Some(p) <==>
            match p
            case Port(n) => n <= 65535 && ParseDigits(s) == Some(n)
            case Offset(n) =>
              && s != []
              && (|| (s[0] == '+' && I16Text(s[1..], n))
                  || (s[0] == '-' && n != 32768 && I16Text(s[1..], -n))
                  || (s[0] == '-' && n == -32768 && !checked && I16Text(s[1..], n)))
  {
    if s != [] && s[0] == '+' {
      SignIsNoDigit(s);
      ParsePlus(s, checked, p);
    } else if s != [] && s[0] == '-' {
      SignIsNoDigit(s);
      ParseMinus(s, checked, p);
    } else {
      assert Parse(s, checked) == Some(p) <==> p.Port? && ParseU16(s) == Some(p.port);
    }
  }

  lemma PortRoundTrip(n: nat, checked: bool)
    requires n <= 65535
    ensures Parse(Decimal(n), checked) == Some(Port(n))
  {
    DecimalRoundTrip(n);
  }

  lemma OffsetRoundTrip(m: int, checked: bool)
    requires -32768 <= m <= 32767
    ensures Parse("+" + SignedDecimal(m), checked) == Some(Offset(m))
    ensures Parse("-" + SignedDecimal(m), checked) ==
            match NegateI16(m, checked) case None => None case Some(n) => Some(Offset(n))
  {
    SignedRoundTrip(m);
    assert ("+" + SignedDecimal(m))[1..] == SignedDecimal(m) && ("-" + SignedDecimal(m))[1..] == SignedDecimal(m);
  }

  /**
    Parsing a printed value gives it back, for every u16 port and i16 offset, except exactly for
    the least offset in a build with overflow checks, where printing panics.
   */
  lemma PrintParseRoundTrip(p: PortOrOffset, checked: bool)
    requires InRange(p)
    ensures (Print(p, checked).Some? && Parse(Print(p, checked).value, checked) == Some(p)) <==>
            !(checked && p == Offset(-32768))
  {
    match p {
      case Port(n) => PortRoundTrip(n, checked);
      case Offset(n) =>
        if n >= 0 {
          OffsetRoundTrip(n, checked);
        } else if n != -32768 || !checked {
          OffsetRoundTrip(NegateI16(n, checked).value, checked);
        }
    }
  }
}
