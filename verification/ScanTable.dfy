/**
 * The table of Bluetooth devices that is read from the output of the scanning command.
 */
module ScanTable {
  import opened Common
  import opened CText
  import AnsiStrip
  import MacText

  const MAX_DEVICES := 150
  const NAME_SIZE := 256
  const DEVICE := "Device "

  datatype Entry = Entry(mac: string, name: string)

  // ---- one line ----------------------------------------------------------------------------

  /** A property of a known device is announced in the place of a name. */
  predicate IsProperty(name: string) {
    "RSSI:" <= name || "TxPower:" <= name || "ManufacturerData" <= name || "ServiceData" <= name
  }

  function Upto(s: string, n: nat): (r: string)
    ensures |r| <= n && r <= s
  {
    if |s| <= n then s else s[..n]
  }

  function DeviceName(text: string): (r: string)
    ensures |r| < NAME_SIZE && (r != "" ==> !IsSpace(r[|r| - 1]))
  {
    var name := text[SkipSpace(text, 0)..];
    TrimRight(CopyString(NAME_SIZE, if IsProperty(name) then "" else name))
  }

  function ParseLine(line: string): (r: Option<Entry>)
    ensures r.Some? ==> MacText.LooksLikeMac(r.value.mac) && |r.value.name| < NAME_SIZE
  {
    var device := Find(line, DEVICE, 0);
    if device.None? then None
    else
      var text := line[device.value + |DEVICE|..];
      if !MacText.LooksLikeMac(Upto(text, 17)) then None
      else Some(Entry(Upto(text, 17), DeviceName(text[17..])))
  }

  method ParseScanLine(line: string) returns (r: Option<Entry>)
    requires NulFree(line)
    ensures r == ParseLine(line)
  {
    hide MacText.LooksLikeMac;
    var device := Find(line, DEVICE, 0);
    if device.None? {
      return None;
    }
    var text := line[device.value + |DEVICE|..];
    var mac := Upto(text, 17);
    var valid := MacText.CheckMac(mac);
    if !valid {
      return None;
    }
    SeventeenCharacters(mac);
    var rest := text[17..];
    var i := 0;
    while i < |rest| && IsSpace(rest[i])
      invariant i <= |rest| && SkipSpace(rest, i) == SkipSpace(rest, 0)
    {
      i := i + 1;
    }
    var name := rest[i..];
    if "RSSI:" <= name || "TxPower:" <= name || "ManufacturerData" <= name || "ServiceData" <= name {
      name := "";
    }
    ghost var copied := CopyString(NAME_SIZE, name);
    name := CopyString(NAME_SIZE, name);
    while name != "" && IsSpace(name[|name| - 1])
      invariant TrimRight(name) == TrimRight(copied)
      decreases |name|
    {
      name := name[..|name| - 1];
    }
    return Some(Entry(mac, name));
  }

  lemma {:induction false} SeventeenCharacters(mac: string)
    requires MacText.LooksLikeMac(mac)
    ensures |mac| == 17
  {
  }

  // ---- the table ---------------------------------------------------------------------------

  function IndexOf(t: seq<Entry>, mac: string): (r: Option<nat>)
    ensures r.Some? ==> r.value < |t| && t[r.value].mac == mac && forall i :: 0 <= i < r.value ==> t[i].mac != mac
    ensures r.None? ==> forall i :: 0 <= i < |t| ==> t[i].mac != mac
  {
    if t == [] then None
    else if t[0].mac == mac then Some(0)
    else
      var r := IndexOf(t[1..], mac);
      if r.None? then None else Some(r.value + 1)
  }

  function IndexFrom(t: seq<Entry>, mac: string, i: nat): Option<nat>
    requires i <= |t|
  {
    var r := IndexOf(t[i..], mac);
    if r.None? then None else Some(r.value + i)
  }

  lemma {:induction false} IndexNext(t: seq<Entry>, mac: string, i: nat)
    requires i < |t|
    ensures IndexFrom(t, mac, i) == if t[i].mac == mac then Some(i) else IndexFrom(t, mac, i + 1)
  {
    assert t[i..][0] == t[i] && t[i..][1..] == t[i + 1..];
  }

  lemma {:induction false} IndexEnds(t: seq<Entry>, mac: string)
    ensures IndexFrom(t, mac, 0) == IndexOf(t, mac) && IndexFrom(t, mac, |t|) == None
  {
    assert t[0..] == t;
  }

  /** A known device gets the name if it has none; a new one is added if there is room. */
  function AddEntry(t: seq<Entry>, e: Entry): seq<Entry> {
    var i := IndexOf(t, e.mac);
    if i.Some? then if t[i.value].name == "" then t[i.value := t[i.value].(name := e.name)] else t
    else if |t| < MAX_DEVICES then t + [e]
    else t
  }

  function AddAll(t: seq<Entry>, es: seq<Entry>): seq<Entry>
    decreases |es|
  {
    if es == [] then t else AddAll(AddEntry(t, es[0]), es[1..])
  }

  function LineLength(s: string): (n: nat)
    ensures n <= |s| && (n < |s| ==> s[n] == '\n') && '\n' !in s[..n]
  {
    if s == "" || s[0] == '\n' then 0
    else
      var n := 1 + LineLength(s[1..]);
      assert s[..n] == [s[0]] + s[1..][..n - 1];
      n
  }

  /** strtok_r: the non-empty lines. */
  function Lines(s: string): seq<string>
    decreases |s|
  {
    if s == "" then []
    else if s[0] == '\n' then Lines(s[1..])
    else [s[..LineLength(s)]] + Lines(s[LineLength(s)..])
  }

  function Announced(line: string): seq<Entry> {
    var e := ParseLine(AnsiStrip.Strip(line));
    if e.None? then [] else [e.value]
  }

  function Entries(lines: seq<string>): seq<Entry> {
    if lines == [] then [] else Announced(lines[0]) + Entries(lines[1..])
  }

  function ParseOutput(t: seq<Entry>, output: string): seq<Entry> {
    AddAll(t, Entries(Lines(output)))
  }

  class Table {
    const entries: array<Entry>
    var count: nat

    ghost predicate Valid()
      reads this
    {
      count <= entries.Length == MAX_DEVICES
    }

    ghost function View(): seq<Entry>
      requires Valid()
      reads this, entries
    {
      entries[..count]
    }

    constructor ()
      ensures Valid() && View() == [] && fresh(entries)
    {
      entries := new Entry[MAX_DEVICES](i => Entry("", ""));
      count := 0;
    }

    method FindOrAdd(e: Entry) returns (slot: Option<nat>)
      requires Valid()
      modifies this, entries
      ensures Valid()
      ensures
        var i := IndexOf(old(View()), e.mac);
        && View() == (if i.None? && old(count) < MAX_DEVICES then old(View()) + [e] else old(View()))
        && slot == (if i.Some? then i else if old(count) < MAX_DEVICES then Some(old(count)) else None)
    {
      hide IndexOf, IndexFrom;
      ghost var t := View();
      IndexEnds(t, e.mac);
      var i: nat := 0;
      while i < count
        invariant i <= count && count == old(count) && View() == t
        invariant IndexOf(t, e.mac) == IndexFrom(t, e.mac, i)
      {
        IndexNext(t, e.mac, i);
        assert t[i] == entries[i];
        if entries[i].mac == e.mac {
          return Some(i);
        }
        i := i + 1;
      }
      if count >= MAX_DEVICES {
        return None;
      }
      entries[count] := e;
      count := count + 1;
      assert View() == t + [e];
      return Some(count - 1);
    }

    method Add(e: Entry)
      requires Valid() && |e.name| < NAME_SIZE
      modifies this, entries
      ensures Valid() && View() == AddEntry(old(View()), e)
    {
      ghost var t := View();
      var slot := FindOrAdd(e);
      if slot.None? {
        return;
      }
      ghost var u := View();
      var i := slot.value;
      assert u[i] == entries[i] && u[i := u[i]] == u;
      assert e.name == "" && u[i].name == "" ==> u[i].(name := e.name) == u[i];
      if entries[i].name == "" && e.name != "" {
        entries[i] := entries[i].(name := CopyString(NAME_SIZE, e.name));
      }
    }

    /** One line of the output, its terminal sequences still inside. */
    method TakeLine(line: string)
      requires Valid() && NulFree(line)
      modifies this, entries
      ensures Valid() && View() == AddAll(old(View()), Announced(line))
    {
      hide AddEntry, ParseLine;
      var stripped := StripLine(line);
      var e := ParseScanLine(stripped);
      if e.Some? {
        Add(e.value);
      }
    }

    method ParseScanOutput(output: string)
      requires Valid() && NulFree(output)
      modifies this, entries
      ensures Valid() && View() == ParseOutput(old(View()), output)
      ensures old(count) == 0 ==> Holds(View(), Entries(Lines(output)))
    {
      hide Lines, Entries, AddAll, Announced, Holds;
      TableIsFirstDistinct(Entries(Lines(output)));
      ghost var goal := ParseOutput(View(), output);
      var i: nat := 0;
      assert output[0..] == output;
      while i < |output|
        invariant Valid() && i <= |output|
        invariant AddAll(View(), Entries(Lines(output[i..]))) == goal
      {
        LinesAt(output, i);
        if output[i] == '\n' {
          i := i + 1;
        } else {
          var end := EndOfLine(output, i);
          EntriesSplit(output[i..end], Lines(output[end..]));
          AddAllAppend(View(), Announced(output[i..end]), Entries(Lines(output[end..])));
          TakeLine(output[i..end]);
          i := end;
        }
      }
      LinesAt(output, |output|);
      NothingToAdd(View());
    }
  }

  method StripLine(line: string) returns (r: string)
    requires NulFree(line)
    ensures r == AnsiStrip.Strip(line) && NulFree(r)
  {
    hide AnsiStrip.Strip, AnsiStrip.CString;
    var text := new char[|line| + 1](i requires 0 <= i <= |line| => At(line, i));
    assert text[|line|] == NUL && text[..][|line|] == NUL;
    assert text[..][..|line|] == line;
    AnsiStrip.CStringIs(text[..], |line|);
    AnsiStrip.StripAnsi(text);
    ghost var after := AnsiStrip.Strip(line);
    AnsiStrip.StripIsNulFree(line);
    AnsiStrip.CStringIs(text[..], |after|);
    r := AnsiStrip.CString(text[..]);
  }

  method EndOfLine(output: string, start: nat) returns (end: nat)
    requires start < |output| && output[start] != '\n'
    ensures end == start + LineLength(output[start..]) && start < end <= |output|
  {
    end := start;
    while end < |output| && output[end] != '\n'
      invariant start <= end <= |output|
      invariant start + LineLength(output[start..]) == end + LineLength(output[end..])
    {
      assert output[end..][1..] == output[end + 1..];
      end := end + 1;
    }
  }

  lemma {:induction false} LinesAt(output: string, i: nat)
    requires i <= |output|
    ensures
      Lines(output[i..]) ==
      if i == |output| then []
      else if output[i] == '\n' then Lines(output[i + 1..])
      else
        var end := i + LineLength(output[i..]);
        [output[i..end]] + Lines(output[end..])
  {
    if i < |output| {
      var n := LineLength(output[i..]);
      assert output[i..][1..] == output[i + 1..] && output[i..][..n] == output[i..i + n]
        && output[i..][n..] == output[i + n..];
    }
  }

  lemma {:induction false} EntriesSplit(line: string, lines: seq<string>)
    ensures Entries([line] + lines) == Announced(line) + Entries(lines)
  {
    hide Announced;
    assert ([line] + lines)[1..] == lines;
  }

  lemma {:induction false} NothingToAdd(t: seq<Entry>)
    ensures AddAll(t, Entries([])) == t
  {
  }

  lemma {:induction false} AddAllAppend(t: seq<Entry>, a: seq<Entry>, b: seq<Entry>)
    ensures AddAll(t, a + b) == AddAll(AddAll(t, a), b)
    decreases |a|
  {
    hide AddEntry;
    if a == [] {
      assert a + b == b;
    } else {
      assert (a + b)[1..] == a[1..] + b;
      AddAllAppend(AddEntry(t, a[0]), a[1..], b);
    }
  }

  // ---- what the table holds ----------------------------------------------------------------

  /** The addresses of the entries, each once, in the order of their first appearance. */
  function Distinct(es: seq<Entry>): seq<string> {
    if es == [] then []
    else
      var (before, mac) := (Distinct(es[..|es| - 1]), es[|es| - 1].mac);
      if mac in before then before else before + [mac]
  }

  /** Where an address appears first. */
  function FirstAt(es: seq<Entry>, mac: string): (r: nat)
    ensures r <= |es| && (r < |es| ==> es[r].mac == mac)
    ensures forall i :: 0 <= i < r ==> es[i].mac != mac
  {
    if es == [] then 0
    else
      var r := FirstAt(es[..|es| - 1], mac);
      if r < |es| - 1 || es[|es| - 1].mac == mac then r else |es|
  }

  /** The first name given to an address. */
  function FirstName(es: seq<Entry>, mac: string): string {
    if es == [] then ""
    else
      var (before, e) := (FirstName(es[..|es| - 1], mac), es[|es| - 1]);
      if before == "" && e.mac == mac then e.name else before
  }

  predicate Unnamed(es: seq<Entry>, mac: string) {
    forall i :: 0 <= i < |es| && es[i].mac == mac ==> es[i].name == ""
  }

  lemma {:induction false} FirstNameIs(es: seq<Entry>, mac: string)
    ensures
      if FirstName(es, mac) == "" then Unnamed(es, mac)
      else
        exists k :: 0 <= k < |es| && es[k] == Entry(mac, FirstName(es, mac)) && Unnamed(es[..k], mac)
  {
    if es != [] {
      var front := es[..|es| - 1];
      FirstNameIs(front, mac);
      if FirstName(front, mac) != "" {
        var k :| 0 <= k < |front| && front[k] == Entry(mac, FirstName(front, mac))
              && Unnamed(front[..k], mac);
        assert es[k] == front[k] && es[..k] == front[..k];
      } else if FirstName(es, mac) != "" {
        assert es[|es| - 1] == Entry(mac, FirstName(es, mac)) && Unnamed(es[..|es| - 1], mac);
      } else {
        assert forall i :: 0 <= i < |front| ==> es[i] == front[i];
      }
    }
  }

  lemma {:induction false} DistinctIs(es: seq<Entry>)
    ensures forall mac :: mac in Distinct(es) <==> FirstAt(es, mac) < |es|
    ensures forall i, j :: 0 <= i < j < |Distinct(es)| ==> FirstAt(es, Distinct(es)[i]) < FirstAt(es, Distinct(es)[j])
  {
    if es != [] {
      var front := es[..|es| - 1];
      DistinctIs(front);
      var (before, mac) := (Distinct(front), es[|es| - 1].mac);
      assert forall m :: FirstAt(front, m) < |front| ==> FirstAt(es, m) == FirstAt(front, m);
      forall i, j | 0 <= i < j < |Distinct(es)|
        ensures FirstAt(es, Distinct(es)[i]) < FirstAt(es, Distinct(es)[j])
      {
        assert Distinct(es)[i] == before[i] && before[i] in before;
        assert j < |before| ==> before[j] in before && Distinct(es)[j] == before[j];
      }
    }
  }

  predicate Holds(t: seq<Entry>, es: seq<Entry>) {
    && |t| == (if |Distinct(es)| < MAX_DEVICES then |Distinct(es)| else MAX_DEVICES)
    && forall i :: 0 <= i < |t| ==> t[i] == Entry(Distinct(es)[i], FirstName(es, Distinct(es)[i]))
  }

  lemma {:induction false} DistinctHasNoRepeats(es: seq<Entry>)
    ensures forall i, j :: 0 <= i < j < |Distinct(es)| ==> Distinct(es)[i] != Distinct(es)[j]
  {
    DistinctIs(es);
  }

  lemma {:induction false} AddKeepsHolding(t: seq<Entry>, es: seq<Entry>, e: Entry)
    requires Holds(t, es)
    ensures Holds(AddEntry(t, e), es + [e])
  {
    hide FirstName, IndexOf;
    var (before, more) := (Distinct(es), es + [e]);
    assert more[..|es|] == es;
    DistinctHasNoRepeats(es);
    forall mac ensures FirstName(more, mac) == if FirstName(es, mac) == "" && e.mac == mac then e.name
      else FirstName(es, mac) {
      FirstNameStep(es, e, mac);
    }
    var i := IndexOf(t, e.mac);
    if i.None? && e.mac !in before {
      NameOfUnknown(es, e.mac);
    }
  }

  lemma {:induction false} FirstNameStep(es: seq<Entry>, e: Entry, mac: string)
    ensures FirstName(es + [e], mac) == if FirstName(es, mac) == "" && e.mac == mac then e.name else FirstName(es, mac)
  {
    assert (es + [e])[..|es|] == es;
  }

  lemma {:induction false} NameOfUnknown(es: seq<Entry>, mac: string)
    requires mac !in Distinct(es)
    ensures FirstName(es, mac) == ""
  {
    if es != [] {
      NameOfUnknown(es[..|es| - 1], mac);
    }
  }

  /** After any output a table that was empty holds the first devices announced, in order and at
      most 150 of them, each with the first name given to it. */
  lemma {:induction false} TableIsFirstDistinct(es: seq<Entry>)
    ensures Holds(AddAll([], es), es)
    decreases |es|
  {
    hide Holds, AddEntry;
    if es == [] {
      EmptyHolds();
    } else {
      var (front, e) := (es[..|es| - 1], es[|es| - 1]);
      assert es == front + [e];
      TableIsFirstDistinct(front);
      AddAllAppend([], front, [e]);
      assert AddAll([], es) == AddEntry(AddAll([], front), e);
      AddKeepsHolding(AddAll([], front), front, e);
    }
  }

  lemma {:induction false} EmptyHolds()
    ensures Holds([], [])
  {
  }

  // ---- two outputs -------------------------------------------------------------------------

  lemma {:induction false} LineLengthAppend(a: string, b: string)
    ensures LineLength(a + "\n" + b) == LineLength(a)
  {
    var s := a + "\n" + b;
    if a != "" && a[0] != '\n' {
      assert s[1..] == a[1..] + "\n" + b;
      LineLengthAppend(a[1..], b);
    }
  }

  lemma {:induction false} FirstOfLines(s: string)
    requires s != ""
    ensures
      Lines(s) ==
      if s[0] == '\n' then Lines(s[1..]) else [s[..LineLength(s)]] + Lines(s[LineLength(s)..])
    ensures s[0] != '\n' ==> LineLength(s) > 0
  {
  }

  lemma {:induction false} LinesAppend(a: string, b: string)
    ensures Lines(a + "\n" + b) == Lines(a) + Lines(b)
    decreases |a|
  {
    hide LineLength;
    var s := a + "\n" + b;
    FirstOfLines(s);
    if a == "" {
      assert s[1..] == b;
    } else {
      FirstOfLines(a);
      hide Lines;
      if a[0] == '\n' {
        assert s[1..] == a[1..] + "\n" + b;
        LinesAppend(a[1..], b);
      } else {
        var n := LineLength(a);
        LineLengthAppend(a, b);
        assert s[n..] == a[n..] + "\n" + b && s[..n] == a[..n];
        LinesAppend(a[n..], b);
        Regroup([a[..n]], Lines(a[n..]), Lines(b));
      }
    }
  }

  lemma {:induction false} EntriesAppend(a: seq<string>, b: seq<string>)
    ensures Entries(a + b) == Entries(a) + Entries(b)
  {
    hide Announced;
    if a == [] {
      assert a + b == b;
    } else {
      assert (a + b)[1..] == a[1..] + b;
      EntriesAppend(a[1..], b);
    }
  }

  /** Parsing two outputs in turn is parsing their newline-joined text. */
  lemma {:induction false} TwoOutputs(t: seq<Entry>, a: string, b: string)
    ensures ParseOutput(ParseOutput(t, a), b) == ParseOutput(t, a + "\n" + b)
  {
    LinesAppend(a, b);
    EntriesAppend(Lines(a), Lines(b));
    AddAllAppend(t, Entries(Lines(a)), Entries(Lines(b)));
  }

  // ---- one announcement --------------------------------------------------------------------

  /** A line is an announcement exactly if the first "Device " in it is followed by an address, which is
      then the device's. */
  lemma {:induction false} AnnouncesIff(line: string)
    ensures
      ParseLine(line).Some? <==>
      exists k: nat :: FirstDevice(line, k) && k + 24 <= |line| && MacText.LooksLikeMac(line[k + 7..k + 24])
    ensures forall k: nat :: ParseLine(line).Some? && FirstDevice(line, k) ==>
      k + 24 <= |line| && ParseLine(line).value.mac == line[k + 7..k + 24]
  {
    hide MacText.LooksLikeMac, DeviceName;
    var device := Find(line, DEVICE, 0);
    if device.Some? {
      var text := line[device.value + 7..];
      assert FirstDevice(line, device.value);
      assert forall k: nat :: FirstDevice(line, k) ==> k == device.value;
      if |text| >= 17 {
        assert Upto(text, 17) == line[device.value + 7..device.value + 24];
      } else {
        ShortIsNoMac(text);
      }
    }
  }

  predicate FirstDevice(line: string, k: nat) {
    OccursAt(line, "Device ", k) && forall j: nat :: j < k ==> !OccursAt(line, "Device ", j)
  }

  lemma {:induction false} ShortIsNoMac(text: string)
    requires |text| < 17
    ensures !MacText.LooksLikeMac(Upto(text, 17))
  {
  }

  /** A device announced with a name is read back, wherever in the line the announcement is; what
      begins like one of four properties is no name. */
  lemma {:induction false} ReadsAnnouncement(pre: string, mac: string, name: string)
    requires MacText.LooksLikeMac(mac) && |name| < 256
    requires name != "" ==> !IsSpace(name[0]) && !IsSpace(name[|name| - 1])
    requires Find(pre + DEVICE + mac + " " + name, DEVICE, 0) == Some(|pre|)
    ensures
      ParseLine(pre + DEVICE + mac + " " + name) == Some(Entry(mac,
        if "RSSI:" <= name || "TxPower:" <= name || "ManufacturerData" <= name || "ServiceData" <= name then ""
        else name))
  {
    hide MacText.LooksLikeMac, Find;
    var line := pre + DEVICE + mac + " " + name;
    SeventeenCharacters(mac);
    var text := line[|pre| + |DEVICE|..];
    assert text == mac + " " + name;
    assert text[..17] == mac && text[17..] == " " + name;
    NameAfterSpace(name);
  }

  lemma {:induction false} NameAfterSpace(name: string)
    requires |name| < NAME_SIZE
    requires name != "" ==> !IsSpace(name[0]) && !IsSpace(name[|name| - 1])
    ensures DeviceName(" " + name) == if IsProperty(name) then "" else name
  {
    hide IsProperty;
    var text := " " + name;
    assert SkipSpace(text, 1) == 1;
    assert SkipSpace(text, 0) == 1;
    assert text[1..] == name;
  }
}
