/**
 * MAC addresses as text: their shape, the normal form of the Wi-Fi scanner and the link
 * identifiers of the comms runtime.
 */
module MacText {
  import opened CText

  const MAC_DIGITS := 12
  const LINK_ID_MAX := 19

  // ---- shape -------------------------------------------------------------------------------

  /** What the character at i of a MAC address may be. */
  predicate FitsMac(i: nat, c: char) {
    if (i + 1) % 3 == 0 then c == ':' else IsXDigit(c)
  }

  predicate LooksLikeMac(s: string) {
    |s| == 17 && forall i :: 0 <= i < 17 ==> FitsMac(i, s[i])
  }

  method CheckMac(text: string) returns (r: bool)
    requires NulFree(text)
    ensures r == LooksLikeMac(text)
  {
    for i := 0 to 17
      invariant i <= |text| && forall k :: 0 <= k < i ==> FitsMac(k, text[k])
    {
      var ch := At(text, i);
      if (i + 1) % 3 == 0 {
        if ch != ':' {
          return false;
        }
      } else if !IsXDigit(ch) {
        return false;
      }
    }
    return At(text, 17) == NUL;
  }

  /** Hexadecimal digits in pairs, separated by colons. */
  function Colons(d: string): string
    decreases |d|
  {
    if |d| <= 2 then d else d[..2] + ":" + Colons(d[2..])
  }

  predicate AllHex(d: string) {
    forall i :: 0 <= i < |d| ==> IsXDigit(d[i])
  }

  /** Text without its colons. */
  function Compact(s: string): (r: string)
    ensures ':' !in r
  {
    if s == "" then "" else (if s[0] != ':' then [s[0]] else "") + Compact(s[1..])
  }

  /** The hexadecimal digits of a text, in upper case. */
  function Digits(s: string): (r: string)
    ensures forall i :: 0 <= i < |r| ==> IsXDigit(r[i]) && !IsLower(r[i])
  {
    if s == "" then "" else (if IsXDigit(s[0]) then [ToUpper(s[0])] else "") + Digits(s[1..])
  }

  function Upper(s: string): (r: string)
    ensures |r| == |s| && forall i :: 0 <= i < |r| ==> r[i] == ToUpper(s[i])
  {
    seq(|s|, i requires 0 <= i < |s| => ToUpper(s[i]))
  }

  lemma {:induction false} CompactAppend(a: string, b: string)
    ensures Compact(a + b) == Compact(a) + Compact(b)
  {
    if a == "" {
      assert a + b == b;
    } else {
      assert (a + b)[1..] == a[1..] + b;
      CompactAppend(a[1..], b);
      Regroup(if a[0] != ':' then [a[0]] else "", Compact(a[1..]), Compact(b));
    }
  }

  lemma {:induction false} DigitsAppend(a: string, b: string)
    ensures Digits(a + b) == Digits(a) + Digits(b)
  {
    if a == "" {
      assert a + b == b;
    } else {
      assert (a + b)[1..] == a[1..] + b;
      DigitsAppend(a[1..], b);
      Regroup(if IsXDigit(a[0]) then [ToUpper(a[0])] else "", Digits(a[1..]), Digits(b));
    }
  }

  lemma {:induction false} UpperAppend(a: string, b: string)
    ensures Upper(a + b) == Upper(a) + Upper(b)
  {
    hide Upper, ToUpper;
    assert forall i {:trigger Upper(a + b)[i]} :: 0 <= i < |a + b| ==> Upper(a + b)[i] == (Upper(a) + Upper(b))[i];
  }

  lemma {:induction false} CompactOfHex(d: string)
    requires AllHex(d)
    ensures Compact(d) == d
  {
    if d != "" {
      CompactOfHex(d[1..]);
      assert d == [d[0]] + d[1..];
    }
  }

  lemma {:induction false} DigitsOfHex(d: string)
    requires AllHex(d)
    ensures Digits(d) == Upper(d)
  {
    hide Upper, ToUpper;
    if d != "" {
      DigitsOfHex(d[1..]);
      UpperAppend([d[0]], d[1..]);
      assert d == [d[0]] + d[1..] && Upper([d[0]]) == [ToUpper(d[0])];
    }
  }

  lemma {:induction false} HexText(d: string)
    requires AllHex(d)
    ensures Compact(d) == d && Digits(d) == Upper(d)
  {
    CompactOfHex(d);
    DigitsOfHex(d);
  }

  lemma {:induction false} ColonStep(head: string, rest: string)
    requires AllHex(head)
    ensures Compact(head + ":" + rest) == head + Compact(rest)
    ensures Digits(head + ":" + rest) == Upper(head) + Digits(rest)
  {
    hide Upper;
    HexText(head);
    assert head + ":" + rest == head + (":" + rest);
    CompactAppend(head, ":" + rest);
    DigitsAppend(head, ":" + rest);
    assert (":" + rest)[1..] == rest;
  }

  /** Separating digits by colons loses nothing. */
  lemma {:induction false} ColonsText(d: string)
    requires AllHex(d)
    ensures Compact(Colons(d)) == d && Digits(Colons(d)) == Upper(d)
    decreases |d|
  {
    hide Compact, Digits, Upper;
    if |d| <= 2 {
      HexText(d);
    } else {
      var (head, tail) := (d[..2], d[2..]);
      assert d == head + tail;
      ColonsText(tail);
      ColonStep(head, Colons(tail));
      UpperAppend(head, tail);
    }
  }

  lemma {:induction false} DigitsOf(s: string) returns (d: string)
    requires |s| % 3 == 2 && forall i :: 0 <= i < |s| ==> FitsMac(i, s[i])
    ensures AllHex(d) && s == Colons(d) && 3 * |d| == 2 * (|s| + 1)
    decreases |s|
  {
    if |s| == 2 {
      d := s;
      assert FitsMac(0, s[0]) && FitsMac(1, s[1]);
    } else {
      assert FitsMac(0, s[0]) && FitsMac(1, s[1]) && FitsMac(2, s[2]);
      assert forall i :: 0 <= i < |s[3..]| ==> FitsMac(i + 3, s[3..][i]);
      var more := DigitsOf(s[3..]);
      d := s[..2] + more;
      assert d[..2] == s[..2] && d[2..] == more;
      assert s == s[..2] + ":" + s[3..];
    }
  }

  /** A MAC address is exactly twelve digits separated by colons. */
  lemma {:induction false} MacShape(s: string)
    ensures LooksLikeMac(s) <==> |Compact(s)| == MAC_DIGITS && AllHex(Compact(s)) && s == Colons(Compact(s))
  {
    hide Compact, Colons, Digits;
    if LooksLikeMac(s) {
      var d := DigitsOf(s);
      ColonsText(d);
    } else if |Compact(s)| == MAC_DIGITS && AllHex(Compact(s)) {
      ColonsLookLikeMac(Compact(s));
    }
  }

  lemma {:induction false} ColonsAt(d: string, i: nat)
    requires i + 2 < |d|
    ensures Colons(d[i..]) == d[i..i + 2] + ":" + Colons(d[i + 2..])
  {
    assert d[i..][..2] == d[i..i + 2] && d[i..][2..] == d[i + 2..];
  }

  lemma {:induction false} ColonsOfTwelve(d: string)
    requires |d| == MAC_DIGITS
    ensures Colons(d) == d[0..2] + ":" + d[2..4] + ":" + d[4..6] + ":" + d[6..8] + ":" + d[8..10] + ":" + d[10..12]
  {
    hide Colons;
    ColonsInTurn(d);
    Leftward(d[0..2], d[2..4], d[4..6], d[6..8], d[8..10], d[10..12]);
  }

  lemma {:induction false} ColonsInTurn(d: string)
    requires |d| == MAC_DIGITS
    ensures
      Colons(d) ==
      d[0..2] + ":" + (d[2..4] + ":" + (d[4..6] + ":" + (d[6..8] + ":" + (d[8..10] + ":" + d[10..12]))))
  {
    hide Colons;
    LastColons(d);
    ColonsAt(d, 4);
    ColonsAt(d, 2);
    ColonsAt(d, 0);
  }

  lemma {:induction false} LastColons(d: string)
    requires |d| == MAC_DIGITS
    ensures Colons(d[6..]) == d[6..8] + ":" + (d[8..10] + ":" + d[10..12]) && d[0..] == d
  {
    assert Colons(d[10..]) == d[10..12];
    hide Colons;
    ColonsAt(d, 8);
    ColonsAt(d, 6);
  }

  lemma {:induction false} Leftward(a: string, b: string, c: string, d: string, e: string, f: string)
    ensures a + ":" + (b + ":" + (c + ":" + (d + ":" + (e + ":" + f)))) ==
            a + ":" + b + ":" + c + ":" + d + ":" + e + ":" + f
  {
    JoinedLeft(a, b, c + ":" + (d + ":" + (e + ":" + f)));
    JoinedLeft(a + ":" + b, c, d + ":" + (e + ":" + f));
    JoinedLeft(a + ":" + b + ":" + c, d, e + ":" + f);
    JoinedLeft(a + ":" + b + ":" + c + ":" + d, e, f);
  }

  lemma {:induction false} JoinedLeft(a: string, b: string, c: string)
    ensures a + ":" + (b + ":" + c) == a + ":" + b + ":" + c
  {
  }

  lemma {:induction false} ColonsMore(d: string, pair: string)
    requires d != "" && |d| % 2 == 0 && |pair| == 2
    ensures Colons(d + pair) == Colons(d) + ":" + pair
    decreases |d|
  {
    var all := d + pair;
    if |d| == 2 {
      assert all[..2] == d && all[2..] == pair;
    } else {
      ColonsMore(d[2..], pair);
      hide Colons;
      assert all[2..] == d[2..] + pair && all[..2] == d[..2];
      ColonsHead(d);
      ColonsHead(all);
    }
  }

  lemma {:induction false} ColonsHead(d: string)
    requires |d| > 2
    ensures Colons(d) == d[..2] + ":" + Colons(d[2..])
  {
  }

  lemma {:induction false} ColonsLookLikeMac(d: string)
    requires |d| == MAC_DIGITS && AllHex(d)
    ensures LooksLikeMac(Colons(d))
  {
    ColonsOfTwelve(d);
  }

  // ---- normal form -------------------------------------------------------------------------

  function Normalize(input: string): string {
    var hex := Digits(input);
    if |hex| < MAC_DIGITS then "" else Colons(hex[..MAC_DIGITS])
  }

  /** The first loop: digits until there are twelve. */
  method CollectDigits(input: string) returns (hex: string)
    ensures hex == if |Digits(input)| < MAC_DIGITS then Digits(input) else Digits(input)[..MAC_DIGITS]
  {
    hide Digits, ToUpper, IsXDigit;
    hex := "";
    var i := 0;
    DigitsOfNone(input);
    while i < |input| && |hex| < MAC_DIGITS
      invariant 0 <= i <= |input| && |hex| <= MAC_DIGITS
      invariant hex == Digits(input[..i])
    {
      DigitsNext(input, i);
      if IsXDigit(input[i]) {
        hex := hex + [ToUpper(input[i])];
      }
      i := i + 1;
    }
    DigitsAppend(input[..i], input[i..]);
    assert input[..i] + input[i..] == input;
    DigitsOfNone(input[i..]);
    assert (hex + Digits(input[i..]))[..|hex|] == hex;
  }

  lemma {:induction false} DigitsOfNone(s: string)
    ensures Digits(s[..0]) == "" && (s == "" ==> Digits(s) == "")
  {
  }

  lemma {:induction false} DigitsNext(input: string, i: nat)
    requires i < |input|
    ensures Digits(input[..i + 1]) == Digits(input[..i]) + if IsXDigit(input[i]) then [ToUpper(input[i])] else ""
  {
    assert input[..i + 1] == input[..i] + [input[i]];
    DigitsAppend(input[..i], [input[i]]);
    assert Digits([input[i]]) == if IsXDigit(input[i]) then [ToUpper(input[i])] else "";
  }

  method NormalizeMacAddress(input: string) returns (normalized: string)
    ensures normalized == Normalize(input)
  {
    hide Colons, Digits;
    var hex := CollectDigits(input);
    if |hex| < MAC_DIGITS {
      return "";
    }
    normalized := "";
    var i := 0;
    while i < MAC_DIGITS
      invariant 0 <= i <= MAC_DIGITS && i % 2 == 0
      invariant if i == 0 then normalized == "" else normalized != "" && normalized == Colons(hex[..i])
    {
      var pair := hex[i..i + 2];
      assert hex[..i + 2] == hex[..i] + pair;
      if normalized != "" {
        ColonsMore(hex[..i], pair);
        normalized := normalized + ":";
      } else {
        ColonsOfPair(pair);
      }
      normalized := normalized + [hex[i]];
      normalized := normalized + [hex[i + 1]];
      assert pair == [hex[i]] + [hex[i + 1]];
      i := i + 2;
    }
    assert hex[..MAC_DIGITS] == hex;
  }

  lemma {:induction false} ColonsOfPair(pair: string)
    requires |pair| == 2
    ensures Colons(pair) == pair && "" + pair == pair
  {
  }

  function HexDigit(n: nat): (c: char)
    requires n < 16
    ensures IsXDigit(c) && ToUpper(c) == c
  {
    if n < 10 then '0' + n as char else 'A' + (n - 10) as char
  }

  /** %02X */
  function Octet(n: nat): (r: string)
    requires n < 256
    ensures |r| == 2 && AllHex(r) && Upper(r) == r
  {
    [HexDigit(n / 16), HexDigit(n % 16)]
  }

  predicate IsMac(mac: seq<nat>) {
    |mac| == 6 && forall i :: 0 <= i < 6 ==> mac[i] < 256
  }

  function MacToString(mac: seq<nat>): string
    requires IsMac(mac)
  {
    Octet(mac[0]) + ":" + Octet(mac[1]) + ":" + Octet(mac[2]) + ":" + Octet(mac[3]) + ":"
    + Octet(mac[4]) + ":" + Octet(mac[5])
  }

  /** The value of an upper-case hexadecimal digit. */
  function DigitValue(c: char): int {
    if '0' <= c <= '9' then c as int - '0' as int else c as int - 'A' as int + 10
  }

  /** A printed address has the octets in order, two digits each, with a colon behind each but the
      last. */
  lemma {:induction false} PrintsOctets(mac: seq<nat>, i: nat)
    requires IsMac(mac) && i < 6
    ensures
      var text := MacToString(mac);
      && |text| == 17 && 16 * DigitValue(text[3 * i]) + DigitValue(text[3 * i + 1]) == mac[i]
      && (i < 5 ==> text[3 * i + 2] == ':')
  {
    OctetValue(mac[i]);
    hide Octet, DigitValue;
    var text := MacToString(mac);
    assert text[3 * i..3 * i + 2] == Octet(mac[i]);
    assert text[3 * i] == Octet(mac[i])[0] && text[3 * i + 1] == Octet(mac[i])[1];
  }

  lemma {:induction false} OctetValue(n: nat)
    requires n < 256
    ensures 16 * DigitValue(Octet(n)[0]) + DigitValue(Octet(n)[1]) == n
  {
  }

  /** The normal form of an address is the address in upper case, and colons do not matter. */
  lemma {:induction false} NormalFormOfMac(s: string)
    requires LooksLikeMac(s)
    ensures Normalize(s) == Normalize(Compact(s)) == Upper(s)
  {
    hide LooksLikeMac, Colons;
    var d := Compact(s);
    MacShape(s);
    ColonsText(d);
    HexText(d);
    ColonsUpper(d);
    assert Upper(d)[..MAC_DIGITS] == Upper(d);
  }

  lemma {:induction false} ColonsUpper(d: string)
    ensures Colons(Upper(d)) == Upper(Colons(d))
    decreases |d|
  {
    if |d| > 2 {
      ColonsUpper(d[2..]);
      assert Upper(d)[..2] == Upper(d[..2]) && Upper(d)[2..] == Upper(d[2..]);
      assert Upper(d[..2] + ":" + Colons(d[2..])) == Upper(d[..2]) + ":" + Upper(Colons(d[2..]));
    }
  }

  /** A normal form is empty or a MAC address in upper case, and is its own normal form. */
  lemma {:induction false} NormalizeIdempotent(input: string)
    ensures Normalize(input) == "" || LooksLikeMac(Normalize(input))
    ensures Upper(Normalize(input)) == Normalize(input)
    ensures Normalize(Normalize(input)) == Normalize(input)
  {
    hide LooksLikeMac, Colons, Digits, Normalize;
    NormalizeCases(input);
    var n := Normalize(input);
    if n == "" {
      NormalizeEmpty();
    } else {
      NormalFormOfMac(n);
    }
  }

  lemma {:induction false} NormalizeEmpty()
    ensures Normalize("") == "" && Upper("") == ""
  {
  }

  lemma {:induction false} NormalizeCases(input: string)
    ensures Normalize(input) == "" || LooksLikeMac(Normalize(input))
    ensures Upper(Normalize(input)) == Normalize(input)
  {
    hide LooksLikeMac, Colons;
    var hex := Digits(input);
    if |hex| >= MAC_DIGITS {
      var d := hex[..MAC_DIGITS];
      ColonsLookLikeMac(d);
      ColonsUpper(d);
      assert Upper(d) == d;
    }
  }

  lemma {:induction false} MacStringShape(mac: seq<nat>)
    requires IsMac(mac)
    ensures LooksLikeMac(MacToString(mac)) && Upper(MacToString(mac)) == MacToString(mac)
  {
    var d := Octet(mac[0]) + Octet(mac[1]) + Octet(mac[2]) + Octet(mac[3]) + Octet(mac[4]) + Octet(mac[5]);
    hide Octet;
    assert d[0..2] == Octet(mac[0]) && d[2..4] == Octet(mac[1]) && d[4..6] == Octet(mac[2]);
    assert d[6..8] == Octet(mac[3]) && d[8..10] == Octet(mac[4]) && d[10..12] == Octet(mac[5]);
    ColonsOfTwelve(d);
    ColonsLookLikeMac(d);
    assert Upper(d) == d;
    ColonsUpper(d);
  }

  /** Printed addresses are already normal. */
  lemma {:induction false} NormalizeKeepsPrinted(mac: seq<nat>)
    requires IsMac(mac)
    ensures Normalize(MacToString(mac)) == MacToString(mac)
  {
    MacStringShape(mac);
    NormalFormOfMac(MacToString(mac));
  }

  // ---- link identifiers --------------------------------------------------------------------

  function LinkId(prefix: string, mac: string): string {
    var id := prefix + Compact(mac);
    if |id| > LINK_ID_MAX then id[..LINK_ID_MAX] else id
  }

  method MakeLinkId(prefix: string, mac: string) returns (id: string)
    ensures id == LinkId(prefix, mac)
  {
    var compact := "";
    assert mac[..0] == "";
    for i := 0 to |mac|
      invariant compact == Compact(mac[..i])
    {
      assert mac[..i + 1] == mac[..i] + [mac[i]];
      CompactAppend(mac[..i], [mac[i]]);
      if mac[i] != ':' {
        compact := compact + [mac[i]];
      }
    }
    assert mac[..|mac|] == mac;
    id := prefix + compact;
    if |id| > LINK_ID_MAX {
      id := id[..LINK_ID_MAX];
    }
  }

  predicate IsPrefix(p: string) {
    p == "bt" || p == "wifi"
  }

  /** No identifier is cut, so that different devices have different links, and no identifier
      is itself the address of a device. */
  lemma {:induction false} LinkIdInjective(p: string, a: string, q: string, b: string)
    requires IsPrefix(p) && IsPrefix(q) && LooksLikeMac(a) && LooksLikeMac(b)
    ensures LinkId(p, a) == p + Compact(a) && !LooksLikeMac(LinkId(p, a))
    ensures LinkId(p, a) == LinkId(q, b) <==> p == q && a == b
  {
    MacShape(a);
    MacShape(b);
    assert (p + Compact(a))[|p|..] == Compact(a);
    assert (q + Compact(b))[|q|..] == Compact(b);
  }

  /** The address can be read back from the identifier, up to the case of its digits. */
  lemma {:induction false} LinkIdDetermines(p: string, a: string)
    requires IsPrefix(p) && LooksLikeMac(a)
    ensures |p| <= |LinkId(p, a)| && Normalize(LinkId(p, a)[|p|..]) == Upper(a)
  {
    MacShape(a);
    assert (p + Compact(a))[|p|..] == Compact(a);
    NormalFormOfMac(a);
  }
}
