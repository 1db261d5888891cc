/**
 * The walk over the information elements of a Wi-Fi scan result (sections 9.4.2.1 and 9.4.2.2
 * of IEEE 802.11-2016): a one-byte identifier, a one-byte length and that many bytes.
 */
module InfoElements {
  import opened Common

  type Byte = n: nat | n < 256

  const SSID_ID: Byte := 0

  /** Where an element's payload lies in a buffer. */
  datatype Slice = Slice(start: nat, length: nat)

  datatype Element = Element(id: Byte, payload: seq<Byte>)

  predicate Encodable(e: Element) {
    |e.payload| < 256
  }

  function Encode(e: Element): seq<Byte>
    requires Encodable(e)
  {
    [e.id, |e.payload| as Byte] + e.payload
  }

  predicate AllEncodable(es: seq<Element>) {
    forall i :: 0 <= i < |es| ==> Encodable(es[i])
  }

  function Serialize(es: seq<Element>): seq<Byte>
    requires AllEncodable(es)
  {
    if es == [] then [] else Encode(es[0]) + Serialize(es[1..])
  }

  /** The size of the element a buffer starts with. */
  function Size(bytes: seq<Byte>): (n: nat)
    requires |bytes| >= 2
    ensures n >= 2
  {
    var length: nat := bytes[1];
    2 + length
  }

  /** A buffer in which no whole element starts. */
  predicate NoElement(rest: seq<Byte>) {
    |rest| < 2 || |rest| < Size(rest)
  }

  /** The elements of the longest well-formed prefix. */
  function Parse(bytes: seq<Byte>): (es: seq<Element>)
    ensures AllEncodable(es)
    decreases |bytes|
  {
    if NoElement(bytes) then []
    else [Element(bytes[0], bytes[2..Size(bytes)])] + Parse(bytes[Size(bytes)..])
  }

  /** The first element with the SSID identifier. */
  function FirstSsid(es: seq<Element>): Option<seq<Byte>> {
    if es == [] then None else if es[0].id == SSID_ID then Some(es[0].payload) else FirstSsid(es[1..])
  }

  method FindSsid(ies: seq<Byte>) returns (r: Option<Slice>)
    ensures r.Some? ==> r.value.start + r.value.length <= |ies|
    ensures (if r.None? then None else Some(ies[r.value.start..r.value.start + r.value.length]))
      == FirstSsid(Parse(ies))
  {
    hide Parse, FirstSsid;
    var pos: nat := 0;
    assert ies[0..] == ies;
    while pos + 2 <= |ies|
      invariant pos <= |ies|
      invariant FirstSsid(Parse(ies[pos..])) == FirstSsid(Parse(ies))
      decreases |ies| - pos
    {
      var (id, length) := (ies[pos], ies[pos + 1]);
      ParseAt(ies, pos);
      if pos + 2 + length > |ies| {
        return None;
      }
      if id == SSID_ID {
        return Some(Slice(pos + 2, length));
      }
      pos := pos + 2 + length;
    }
    NothingParsed(ies[pos..]);
    return None;
  }

  lemma {:induction false} NothingParsed(rest: seq<Byte>)
    requires NoElement(rest)
    ensures FirstSsid(Parse(rest)).None?
  {
  }

  lemma {:induction false} ParseAt(ies: seq<Byte>, pos: nat)
    requires pos + 2 <= |ies|
    ensures
      FirstSsid(Parse(ies[pos..])) ==
      var end := pos + 2 + ies[pos + 1];
      if end > |ies| then None
      else if ies[pos] == SSID_ID then Some(ies[pos + 2..end])
      else FirstSsid(Parse(ies[end..]))
  {
    var rest := ies[pos..];
    if |rest| >= Size(rest) {
      assert rest[2..Size(rest)] == ies[pos + 2..pos + Size(rest)];
      assert rest[Size(rest)..] == ies[pos + Size(rest)..];
      assert Parse(rest)[1..] == Parse(rest[Size(rest)..]);
    }
  }

  lemma {:induction false} ParseOne(e: Element, rest: seq<Byte>)
    requires Encodable(e)
    ensures Parse(Encode(e) + rest) == [e] + Parse(rest)
  {
    var bytes := Encode(e) + rest;
    assert bytes[2..Size(bytes)] == e.payload && bytes[Size(bytes)..] == rest;
  }

  /** Parsing inverts serialising, whatever unreadable bytes follow. */
  lemma {:induction false} ParseInvertsSerialize(es: seq<Element>, rest: seq<Byte>)
    requires AllEncodable(es) && NoElement(rest)
    ensures Parse(Serialize(es) + rest) == es
  {
    if es == [] {
      assert Serialize(es) + rest == rest;
    } else {
      var tail := Serialize(es[1..]) + rest;
      assert Serialize(es) + rest == Encode(es[0]) + tail;
      ParseOne(es[0], tail);
      ParseInvertsSerialize(es[1..], rest);
    }
  }

  /** Every buffer is its elements and then bytes in which none starts: what is parsed is the
      longest well-formed prefix. */
  lemma {:induction false} SerializeInvertsParse(bytes: seq<Byte>)
    ensures Serialize(Parse(bytes)) <= bytes && NoElement(bytes[|Serialize(Parse(bytes))|..])
    decreases |bytes|
  {
    hide Serialize, Encode;
    if NoElement(bytes) {
      NothingSerialized(bytes);
    } else {
      var n := Size(bytes);
      SerializeInvertsParse(bytes[n..]);
      FirstElement(bytes);
      hide Parse, NoElement, Size;
      PrefixOfRest(bytes, n, Serialize(Parse(bytes[n..])));
    }
  }

  lemma {:induction false} NothingSerialized(bytes: seq<Byte>)
    requires NoElement(bytes)
    ensures Serialize(Parse(bytes)) == [] && bytes[0..] == bytes
  {
  }

  lemma {:induction false} PrefixOfRest(bytes: seq<Byte>, n: nat, tail: seq<Byte>)
    requires n <= |bytes| && tail <= bytes[n..]
    ensures
      var all := bytes[..n] + tail;
      all <= bytes && bytes[|all|..] == bytes[n..][|tail|..]
  {
    assert bytes == bytes[..n] + bytes[n..];
  }

  lemma {:induction false} FirstElement(bytes: seq<Byte>)
    requires !NoElement(bytes)
    ensures Serialize(Parse(bytes)) == bytes[..Size(bytes)] + Serialize(Parse(bytes[Size(bytes)..]))
  {
    var e := Element(bytes[0], bytes[2..Size(bytes)]);
    assert Parse(bytes)[1..] == Parse(bytes[Size(bytes)..]);
    assert Encode(e) == bytes[..Size(bytes)];
  }

  lemma {:induction false} LongestPrefix(es: seq<Element>, bytes: seq<Byte>)
    requires AllEncodable(es) && Serialize(es) <= bytes
    ensures es <= Parse(bytes)
    decreases |es|
  {
    if es != [] {
      var rest := bytes[|Encode(es[0])|..];
      assert bytes[..|Serialize(es)|] == Serialize(es);
      assert bytes == Encode(es[0]) + rest by {
        assert Serialize(es)[..|Encode(es[0])|] == Encode(es[0]);
        assert bytes[..|Encode(es[0])|] == Serialize(es)[..|Encode(es[0])|];
      }
      ParseOne(es[0], rest);
      assert Serialize(es[1..]) <= rest by {
        assert Serialize(es)[|Encode(es[0])|..] == Serialize(es[1..]);
        assert rest[..|Serialize(es[1..])|] == bytes[..|Serialize(es)|][|Encode(es[0])|..];
      }
      LongestPrefix(es[1..], rest);
    }
  }

  /** The network name put first among a result's elements is the one that is found. */
  lemma {:induction false} FirstSsidIs(es: seq<Element>, k: nat)
    requires k < |es| && es[k].id == SSID_ID && forall i :: 0 <= i < k ==> es[i].id != SSID_ID
    ensures FirstSsid(es) == Some(es[k].payload)
  {
    if k > 0 {
      FirstSsidIs(es[1..], k - 1);
    }
  }

  lemma {:induction false} NoSsidIff(es: seq<Element>)
    ensures FirstSsid(es).None? <==> forall i :: 0 <= i < |es| ==> es[i].id != SSID_ID
  {
    if es != [] {
      NoSsidIff(es[1..]);
      assert forall i :: 0 < i < |es| ==> es[i] == es[1..][i - 1];
    }
  }
}
