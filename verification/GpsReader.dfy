/**
 * The gpsd client: reports are taken from a byte stream that arrives in pieces of any size,
 * through a fixed buffer, and decide the position and the status of the call.
 */
module GpsReader {
  import opened Common
  import opened CText
  import opened JsonScan

  const BUFFER_SIZE := 4096
  /** What fits into the buffer beside its terminator. */
  const ROOM := BUFFER_SIZE - 1
  const TIME_SIZE := 64

  const MODE_NOT_SEEN := 0
  const MODE_NO_FIX := 1

  /** The number and time parsers of the C library, as functions of the text at which they start. */
  datatype Parsers = Parsers(decimal: string -> Option<real>, integer: string -> Option<int>,
                             time: string -> Option<int>)

  datatype Position = Position(mode: int, lat: real, lon: real, alt: real, timestamp: int)

  datatype Status = SUCCESS | ERROR

  // ---- one report --------------------------------------------------------------------------

  function NumberOr(p: Parsers, line: string, key: string, other: real): real {
    var value := FindValue(line, key);
    var parsed := if value.None? then None else p.decimal(line[value.value..]);
    if parsed.None? then other else parsed.value
  }

  function IntOr(p: Parsers, line: string, key: string, other: int): int {
    var value := FindValue(line, key);
    var parsed := if value.None? then None else p.integer(line[value.value..]);
    if parsed.None? then other else ToInt32(parsed.value)
  }

  function TimeOr(p: Parsers, line: string, other: int): int {
    var (ok, text) := ParseString(line, "time", TIME_SIZE);
    var parsed := if ok then p.time(text) else None;
    if parsed.None? then other else parsed.value
  }

  predicate IsTpv(line: string) {
    Contains(line, "\"class\":\"TPV\"")
  }

  predicate IsPoll(line: string) {
    Contains(line, "\"class\":\"POLL\"")
  }

  /** The position a TPV report gives, whatever was known before. */
  function Tpv(p: Parsers, line: string, now: int): Position {
    Position(IntOr(p, line, "mode", MODE_NOT_SEEN), NumberOr(p, line, "lat", 0.0), NumberOr(p, line, "lon", 0.0),
             NumberOr(p, line, "altHAE", NumberOr(p, line, "alt", 0.0)), TimeOr(p, line, now))
  }

  /** A POLL report changes mode and timestamp only. */
  function Poll(p: Parsers, line: string, before: Position): Position {
    before.(mode := if IntOr(p, line, "active", 0) > 0 then MODE_NO_FIX else MODE_NOT_SEEN,
            timestamp := TimeOr(p, line, before.timestamp))
  }

  // ---- what a report says ------------------------------------------------------------------

  /** The value of the key starts at v: behind the first occurrence of the quoted key and its colon,
      and the white space that follows. */
  ghost predicate ValueAt(line: string, key: string, v: nat) {
    exists k: nat :: KeyAt(line, key, k) && k + |key| + 3 <= v <= |line| && !IsSpace(At(line, v))
      && forall i :: k + |key| + 3 <= i < v ==> IsSpace(line[i])
  }

  predicate KeyAt(line: string, key: string, k: nat) {
    var quoted := "\"" + key + "\":";
    OccursAt(line, quoted, k) && forall j: nat :: j < k ==> !OccursAt(line, quoted, j)
  }

  ghost predicate Missing(line: string, key: string) {
    forall k: nat :: !OccursAt(line, "\"" + key + "\":", k)
  }

  function Else<T>(parsed: Option<T>, other: T): T {
    match parsed
    case Some(n) => n
    case None => other
  }

  /** x is the number at the key, or the other one if there is none. */
  ghost predicate NumberIs(p: Parsers, line: string, key: string, other: real, x: real) {
    && (Missing(line, key) ==> x == other)
    && forall v: nat :: ValueAt(line, key, v) ==> x == Else(p.decimal(line[v..]), other)
  }

  ghost predicate IntegerIs(p: Parsers, line: string, key: string, other: int, x: int) {
    && (Missing(line, key) ==> x == other)
    && forall v: nat :: ValueAt(line, key, v) ==>
         if p.integer(line[v..]).Some? then x == ToInt32(p.integer(line[v..]).value) else x == other
  }

  /** x is the time in the string at "time", or the other one if there is no such string, it has more
      than 63 characters, or it is no time. */
  ghost predicate TimeIs(p: Parsers, line: string, other: int, x: int) {
    && (Missing(line, "time") ==> x == other)
    && (forall v: nat :: ValueAt(line, "time", v) && At(line, v) != '"' ==> x == other)
    && (forall v: nat, s :: ValueAt(line, "time", v) && QuotedAt(line, v, s) ==>
          x == if |s| < 64 then Else(p.time(s), other) else other)
  }

  /** The string s is printed at v. */
  predicate QuotedAt(line: string, v: nat, s: string) {
    OccursAt(line, "\"" + Escape(s) + "\"", v)
  }

  ghost predicate TpvFields(p: Parsers, line: string, now: int, x: Position) {
    && IntegerIs(p, line, "mode", 0, x.mode)
    && NumberIs(p, line, "lat", 0.0, x.lat) && NumberIs(p, line, "lon", 0.0, x.lon)
    && (exists alt :: NumberIs(p, line, "alt", 0.0, alt) && NumberIs(p, line, "altHAE", alt, x.alt))
    && TimeIs(p, line, now, x.timestamp)
  }

  ghost predicate PollFields(p: Parsers, line: string, before: Position, x: Position) {
    && (x.lat, x.lon, x.alt) == (before.lat, before.lon, before.alt)
    && (exists active :: IntegerIs(p, line, "active", 0, active) && x.mode == if active > 0 then 1 else 0)
    && TimeIs(p, line, before.timestamp, x.timestamp)
  }

  ghost predicate HasClass(line: string, kind: string) {
    exists k: nat :: OccursAt(line, "\"class\":\"" + kind + "\"", k)
  }

  lemma {:induction false} ContainsIff(line: string, needle: string)
    ensures Contains(line, needle) <==> exists k: nat :: OccursAt(line, needle, k)
  {
  }

  lemma {:induction false} ClassIs(line: string)
    ensures IsTpv(line) <==> HasClass(line, "TPV")
    ensures IsPoll(line) <==> HasClass(line, "POLL")
  {
    hide OccursAt, Find;
    ContainsIff(line, "\"class\":\"TPV\"");
    ContainsIff(line, "\"class\":\"POLL\"");
    assert "\"class\":\"" + "TPV" + "\"" == "\"class\":\"TPV\"";
    assert "\"class\":\"" + "POLL" + "\"" == "\"class\":\"POLL\"";
  }

  /** Every line has the value of a key in one place, or nowhere. */
  lemma {:induction false} ValueIsFound(line: string, key: string)
    requires |key| < 61
    ensures
      match FindValue(line, key)
      case Some(v) => ValueAt(line, key, v) && !Missing(line, key) && forall w: nat :: ValueAt(line, key, w) ==> w == v
      case None => Missing(line, key) && forall w: nat :: !ValueAt(line, key, w)
  {
    hide OccursAt, SkipSpace;
    var quoted := "\"" + key + "\":";
    assert quoted == Pattern(key);
    var at := Find(line, quoted, 0);
    if at.Some? {
      assert KeyAt(line, key, at.value);
      forall w: nat | ValueAt(line, key, w) ensures w == SkipSpace(line, at.value + |quoted|) {
        var k: nat :| KeyAt(line, key, k) && k + |key| + 3 <= w <= |line| && !IsSpace(At(line, w))
          && forall i :: k + |key| + 3 <= i < w ==> IsSpace(line[i]);
        assert k == at.value;
        SkipsSpace(line, k + |quoted|, w);
      }
    }
  }

  lemma {:induction false} SkipsSpace(s: string, i: nat, j: nat)
    requires i <= j <= |s| && !IsSpace(At(s, j)) && forall k :: i <= k < j ==> IsSpace(s[k])
    ensures SkipSpace(s, i) == j
    decreases j - i
  {
    if i < j {
      SkipsSpace(s, i + 1, j);
    }
  }

  lemma {:induction false} NumberIsNumberOr(p: Parsers, line: string, key: string, other: real)
    requires |key| < 61
    ensures NumberIs(p, line, key, other, NumberOr(p, line, key, other))
  {
    hide ValueAt, Missing, FindValue;
    ValueIsFound(line, key);
  }

  lemma {:induction false} IntegerIsIntOr(p: Parsers, line: string, key: string, other: int)
    requires |key| < 61
    ensures IntegerIs(p, line, key, other, IntOr(p, line, key, other))
  {
    hide ValueAt, Missing, FindValue;
    ValueIsFound(line, key);
  }

  lemma {:induction false} TimeIsTimeOr(p: Parsers, line: string, other: int)
    ensures TimeIs(p, line, other, TimeOr(p, line, other))
  {
    hide ValueAt, Missing, FindValue, ReadString, OccursAt, Escape;
    ValueIsFound(line, "time");
    forall v: nat, s | ValueAt(line, "time", v) && QuotedAt(line, v, s)
      ensures TimeOr(p, line, other) == if |s| < 64 then Else(p.time(s), other) else other
    {
      QuotedIsRead(line, v, s);
    }
  }

  lemma {:induction false} QuotedIsRead(line: string, v: nat, s: string)
    requires QuotedAt(line, v, s)
    ensures v < |line| && line[v] == '"'
    ensures
      var (end, text) := ReadString(line, v + 1, TIME_SIZE - 1);
      (At(line, end) == '"' <==> |s| < 64) && (|s| < 64 ==> text == s)
  {
    hide OccursAt, Escape, ReadString, At;
    var e := "\"" + Escape(s) + "\"";
    assert e[1..] == Escape(s) + "\"";
    OccursParts(line, e, v, 1);
    assert line[v + 0] == e[0];
    ReadsEscaped(line, v + 1, s, TIME_SIZE - 1);
  }

  lemma {:induction false} TpvHasFields(p: Parsers, line: string, now: int)
    ensures TpvFields(p, line, now, Tpv(p, line, now))
  {
    hide NumberIs, IntegerIs, TimeIs, NumberOr, IntOr, TimeOr;
    IntegerIsIntOr(p, line, "mode", 0);
    NumberIsNumberOr(p, line, "lat", 0.0);
    NumberIsNumberOr(p, line, "lon", 0.0);
    NumberIsNumberOr(p, line, "alt", 0.0);
    NumberIsNumberOr(p, line, "altHAE", NumberOr(p, line, "alt", 0.0));
    TimeIsTimeOr(p, line, now);
  }

  lemma {:induction false} PollHasFields(p: Parsers, line: string, before: Position)
    ensures PollFields(p, line, before, Poll(p, line, before))
  {
    hide NumberIs, IntegerIs, TimeIs, NumberOr, IntOr, TimeOr;
    IntegerIsIntOr(p, line, "active", 0);
    TimeIsTimeOr(p, line, before.timestamp);
  }

  class PositionInfo {
    var mode: int
    var lat: real
    var lon: real
    var alt: real
    var timestamp: int

    constructor (now: int)
      ensures View() == Position(MODE_NOT_SEEN, 0.0, 0.0, 0.0, now)
    {
      mode, lat, lon, alt, timestamp := MODE_NOT_SEEN, 0.0, 0.0, 0.0, now;
    }

    function View(): Position
      reads this
    {
      Position(mode, lat, lon, alt, timestamp)
    }

    /** json_parse_string into a local buffer, then parse_gps_time over the timestamp. */
    method ReadTime(p: Parsers, line: string)
      requires NulFree(line)
      modifies `timestamp
      ensures timestamp == TimeOr(p, line, old(timestamp))
    {
      var text := new char[TIME_SIZE];
      var ok, length := JsonParseString(line, "time", text);
      if ok {
        var parsed := p.time(text[..length]);
        if parsed.Some? {
          timestamp := parsed.value;
        }
      }
    }

    method ParseTpv(p: Parsers, line: string, now: int) returns (matched: bool)
      requires NulFree(line)
      modifies this
      ensures matched == IsTpv(line)
      ensures View() == if matched then Tpv(p, line, now) else old(View())
      ensures matched <==> HasClass(line, "TPV")
      ensures matched ==> TpvFields(p, line, now, View())
    {
      hide HasClass, TpvFields, NumberOr, IntOr, TimeOr, Find;
      ClassIs(line);
      TpvHasFields(p, line, now);
      if !Contains(line, "\"class\":\"TPV\"") {
        return false;
      }
      mode := IntOr(p, line, "mode", MODE_NOT_SEEN);
      lat, lon := NumberOr(p, line, "lat", 0.0), NumberOr(p, line, "lon", 0.0);
      alt := NumberOr(p, line, "altHAE", NumberOr(p, line, "alt", 0.0));
      timestamp := now;
      ReadTime(p, line);
      return true;
    }

    method ParsePoll(p: Parsers, line: string) returns (matched: bool)
      requires NulFree(line)
      modifies this
      ensures matched == IsPoll(line)
      ensures View() == if matched then Poll(p, line, old(View())) else old(View())
      ensures matched <==> HasClass(line, "POLL")
      ensures matched ==> PollFields(p, line, old(View()), View())
    {
      hide HasClass, PollFields, IntOr, TimeOr, Find;
      ClassIs(line);
      PollHasFields(p, line, View());
      if !Contains(line, "\"class\":\"POLL\"") {
        return false;
      }
      mode := if IntOr(p, line, "active", 0) > 0 then MODE_NO_FIX else MODE_NOT_SEEN;
      ReadTime(p, line);
      return true;
    }
  }

  // ---- the stream --------------------------------------------------------------------------

  predicate Plain(c: char) {
    c != '\n' && c != NUL
  }

  /** The first newline or terminator from i on, or the end. */
  function Stop(s: string, i: nat): (r: nat)
    requires i <= |s|
    ensures i <= r <= |s| && (r < |s| ==> !Plain(s[r]))
    ensures forall j :: i <= j < r ==> Plain(s[j])
    decreases |s| - i
  {
    if i < |s| && Plain(s[i]) then Stop(s, i + 1) else i
  }

  /** strchr for a newline. */
  function NextNewline(s: string, i: nat): Option<nat>
    requires i <= |s|
  {
    var k := Stop(s, i);
    if k < |s| && s[k] == '\n' then Some(k) else None
  }

  /** The first line of a stream, if the buffer can ever show it whole. */
  function FirstLine(s: string): (r: Option<nat>)
    ensures r.Some? ==> r.value < |s| && NulFree(s[..r.value])
  {
    var newline := NextNewline(s, 0);
    if newline.Some? && newline.value < ROOM then newline else None
  }

  /** What the reports so far have left: nothing final, or the position of the TPV report. */
  datatype Outcome = Undecided(position: Position, sawPoll: bool) | Fix(position: Position)

  /** One whole line. */
  function TakeLine(p: Parsers, now: int, line: string, o: Outcome): Outcome
    requires o.Undecided?
  {
    if IsTpv(line) then Fix(Tpv(p, line, now))
    else if IsPoll(line) then Undecided(Poll(p, line, o.position), true)
    else o
  }

  /** A stream without its readable lines, one line at a time. */
  function Consume(p: Parsers, now: int, s: string, o: Outcome): Outcome
    decreases |s|
  {
    var k := FirstLine(s);
    if o.Fix? || k.None? then o else Consume(p, now, s[k.value + 1..], TakeLine(p, now, s[..k.value], o))
  }

  /** What is left when every readable line has been taken. */
  function Leftover(s: string): string
    decreases |s|
  {
    var k := FirstLine(s);
    if k.None? then s else Leftover(s[k.value + 1..])
  }

  function Report(o: Outcome): (Status, Position) {
    (if o.Fix? || o.sawPoll then SUCCESS else ERROR, o.position)
  }

  // ---- the reader --------------------------------------------------------------------------

  lemma {:induction false} StopIs(s: string, i: nat, n: nat)
    requires i <= n <= |s| && (n < |s| ==> !Plain(s[n]))
    requires forall j :: i <= j < n ==> Plain(s[j])
    ensures Stop(s, i) == n
    decreases n - i
  {
    if i < n {
      StopIs(s, i + 1, n);
    }
  }

  /** strchr stops at the terminator behind the text and so sees exactly the first line of what
      is left of the text. */
  lemma {:induction false} LineInBuffer(buffer: string, text: string, from: nat)
    requires from <= |text| < |buffer| && |text| <= ROOM && buffer[|text|] == NUL
    requires forall i :: from <= i < |text| ==> buffer[i] == text[i]
    ensures
      var newline := NextNewline(buffer, from);
      && FirstLine(text[from..]) == (if newline.None? then None else Some(newline.value - from))
      && (newline.Some? ==> from <= newline.value < |text|)
  {
    hide Stop;
    var rest := text[from..];
    var n := Stop(rest, 0);
    assert forall j {:trigger buffer[j]} :: from <= j < |text| ==> buffer[j] == rest[j - from];
    StopIs(buffer, from, from + n);
  }

  lemma {:induction false} ConsumesLine(p: Parsers, now: int, s: string, o: Outcome)
    requires FirstLine(s).Some? && o.Undecided?
    ensures
      var k := FirstLine(s).value;
      && Consume(p, now, s, o) == Consume(p, now, s[k + 1..], TakeLine(p, now, s[..k], o))
      && Leftover(s) == Leftover(s[k + 1..])
  {
    hide TakeLine, FirstLine;
  }

  /** One line taken from the text that is left of a buffer's contents. */
  lemma {:induction false} TakesOneLine(p: Parsers, now: int, text: string, from: nat, end: nat, o: Outcome)
    requires from <= end < |text| && FirstLine(text[from..]) == Some(end - from)
    requires o.Undecided?
    ensures NulFree(text[from..end])
    ensures Consume(p, now, text[from..], o) == Consume(p, now, text[end + 1..], TakeLine(p, now, text[from..end], o))
    ensures Leftover(text[from..]) == Leftover(text[end + 1..])
  {
    hide TakeLine, FirstLine, Consume, Leftover;
    assert text[from..][..end - from] == text[from..end];
    assert text[from..][end - from + 1..] == text[end + 1..];
    ConsumesLine(p, now, text[from..], o);
  }

  lemma {:induction false} ConsumeStops(p: Parsers, now: int, s: string, o: Outcome)
    requires FirstLine(s).None?
    ensures Consume(p, now, s, o) == o && Leftover(s) == s
  {
  }

  lemma {:induction false} FixStays(p: Parsers, now: int, s: string, o: Outcome)
    requires o.Fix?
    ensures Consume(p, now, s, o) == o
  {
  }

  /** Take every line the buffer shows and move the text after the last one to its front. */
  method Drain(p: Parsers, now: int, buffer: array<char>, used: nat, position: PositionInfo, sawPoll: bool)
    returns (fixed: bool, polled: bool, left: nat)
    requires buffer.Length == BUFFER_SIZE && used <= ROOM && buffer[used] == NUL
    modifies buffer, position
    ensures left <= used
    ensures
      var o := Consume(p, now, old(buffer[..used]), Undecided(old(position.View()), sawPoll));
      o == if fixed then Fix(position.View()) else Undecided(position.View(), polled)
    ensures !fixed ==> buffer[..left] == Leftover(old(buffer[..used])) && buffer[left] == NUL
  {
    hide Tpv, Poll, IsTpv, IsPoll, Stop, FirstLine, NextNewline, Consume, Leftover;
    ghost var text := buffer[..used];
    ghost var start := Undecided(position.View(), sawPoll);
    polled := sawPoll;
    var lineStart := 0;
    assert text[0..] == text;
    var newline := NextNewline(buffer[..], lineStart);
    while newline.Some?
      invariant lineStart <= used && newline == NextNewline(buffer[..], lineStart)
      invariant buffer[used] == NUL && forall i :: lineStart <= i < used ==> buffer[i] == text[i]
      invariant Consume(p, now, text, start) == Consume(p, now, text[lineStart..], Undecided(position.View(), polled))
      invariant Leftover(text) == Leftover(text[lineStart..])
      decreases used - lineStart
    {
      var end := newline.value;
      LineInBuffer(buffer[..], text, lineStart);
      ghost var o := Undecided(position.View(), polled);
      TakesOneLine(p, now, text, lineStart, end, o);
      buffer[end] := NUL;
      var line := buffer[lineStart..end];
      assert line == text[lineStart..end];
      fixed := position.ParseTpv(p, line, now);
      if fixed {
        FixStays(p, now, text[end + 1..], Fix(position.View()));
        return true, polled, 0;
      }
      var matched := position.ParsePoll(p, line);
      if matched {
        polled := true;
      }
      lineStart := end + 1;
      newline := NextNewline(buffer[..], lineStart);
    }
    LineInBuffer(buffer[..], text, lineStart);
    ConsumeStops(p, now, text[lineStart..], Undecided(position.View(), polled));
    left := used - lineStart;
    fixed := false;
    forall i | 0 <= i < left {
      buffer[i] := buffer[lineStart + i];
    }
    assert buffer[..left] == text[lineStart..];
    buffer[left] := NUL;
    assert buffer[..left] == text[lineStart..];
  }

  /** What has been taken from the buffer does not depend on what arrives later. */
  lemma {:induction false} ConsumeExtends(p: Parsers, now: int, held: string, rest: string, o: Outcome)
    requires |held| <= ROOM && o.Undecided?
    ensures
      var taken := Consume(p, now, held, o);
      Consume(p, now, held + rest, o) ==
      if taken.Fix? then taken else Consume(p, now, Leftover(held) + rest, taken)
    decreases |held|
  {
    hide TakeLine, FirstLine, Consume, Leftover;
    var k := FirstLine(held);
    if k.None? {
      ConsumeStops(p, now, held, o);
    } else {
      FirstLineExtends(held, rest);
      ConsumesLine(p, now, held, o);
      ConsumesLine(p, now, held + rest, o);
      var next := TakeLine(p, now, held[..k.value], o);
      if next.Undecided? {
        ConsumeExtends(p, now, held[k.value + 1..], rest, next);
      } else {
        FixStays(p, now, held[k.value + 1..], next);
        FixStays(p, now, held[k.value + 1..] + rest, next);
      }
    }
  }

  lemma {:induction false} FirstLineExtends(held: string, rest: string)
    requires FirstLine(held).Some?
    ensures
      var k := FirstLine(held).value;
      && FirstLine(held + rest) == Some(k)
      && (held + rest)[..k] == held[..k]
      && (held + rest)[k + 1..] == held[k + 1..] + rest
  {
    hide Stop;
    StopExtends(held, rest);
  }

  lemma {:induction false} StopExtends(s: string, t: string)
    ensures Stop(s, 0) == if Stop(s + t, 0) < |s| then Stop(s + t, 0) else |s|
  {
    hide Stop;
    var n := Stop(s + t, 0);
    assert forall j {:trigger s[j]} :: 0 <= j < |s| ==> (s + t)[j] == s[j];
    StopIs(s, 0, if n < |s| then n else |s|);
  }

  /** A full buffer that shows no line stays as it is whatever follows. */
  lemma {:induction false} FullBufferStops(held: string, rest: string)
    requires |held| == ROOM && FirstLine(held).None?
    ensures FirstLine(held + rest).None?
  {
    StopExtends(held, rest);
  }

  lemma {:induction false} LeftoverShowsNoLine(s: string)
    ensures |Leftover(s)| <= |s| && FirstLine(Leftover(s)).None?
    decreases |s|
  {
    var k := FirstLine(s);
    if k.Some? {
      LeftoverShowsNoLine(s[k.value + 1..]);
    }
  }

  /** How many bytes one receive call delivers: at least one, at most what fits and what is left. */
  function Received(wanted: nat, room: nat, available: nat): (n: nat)
    requires room > 0 && available > 0
    ensures 0 < n <= room && n <= available
  {
    if wanted == 0 then 1 else if wanted <= room && wanted <= available then wanted
    else if room <= available then room else available
  }

  /** recv: the next bytes of the stream, and the terminator behind them. */
  method Receive(buffer: array<char>, used: nat, chunk: string)
    requires buffer.Length == BUFFER_SIZE && used + |chunk| <= ROOM
    modifies buffer
    ensures buffer[..used + |chunk|] == old(buffer[..used]) + chunk && buffer[used + |chunk|] == NUL
  {
    forall i | 0 <= i < |chunk| {
      buffer[used + i] := chunk[i];
    }
    buffer[used + |chunk|] := NUL;
  }

  /** One chunk more in the buffer. */
  lemma {:induction false} TakesChunk(p: Parsers, now: int, held: string, chunk: string, rest: string, o: Outcome)
    requires |held| + |chunk| <= ROOM && o.Undecided?
    ensures
      var (all, taken) := (held + chunk, Consume(p, now, held + chunk, o));
      && FirstLine(Leftover(all)).None?
      && Consume(p, now, held + (chunk + rest), o) ==
         if taken.Fix? then taken else Consume(p, now, Leftover(all) + rest, taken)
  {
    hide Consume, FirstLine, Leftover;
    Regroup(held, chunk, rest);
    ConsumeExtends(p, now, held + chunk, rest, o);
    LeftoverShowsNoLine(held + chunk);
  }

  /** The end of the stream, or a full buffer. */
  lemma {:induction false} NothingMore(p: Parsers, now: int, held: string, rest: string, o: Outcome)
    requires FirstLine(held).None? && (|held| == ROOM || rest == "")
    ensures Consume(p, now, held + rest, o) == o
  {
    hide Consume, FirstLine;
    if |held| == ROOM {
      FullBufferStops(held, rest);
    } else {
      assert held + rest == held;
    }
    ConsumeStops(p, now, held + rest, o);
  }

  /** The stream is what the receive calls deliver until one of them returns nothing; sizes(i)
      is how much the i-th call would like to deliver. The status and the position are the
      same for all sizes. */
  method GetPosition(p: Parsers, stream: string, sizes: nat -> nat, start: int, now: int)
    returns (status: Status, position: PositionInfo)
    ensures (status, position.View()) ==
            Report(Consume(p, now, stream, Undecided(Position(MODE_NOT_SEEN, 0.0, 0.0, 0.0, start), false)))
    ensures IsAnswer(p, stream, start, now, status, position.View())
  {
    hide Consume, FirstLine, Leftover, IsAnswer, Report;
    ReportIsAnswer(p, stream, start, now);
    position := new PositionInfo(start);
    var buffer := new char[BUFFER_SIZE];
    var sawPoll := false;
    var used: nat, got: nat, calls: nat := 0, 0, 0;
    ghost var goal := Consume(p, now, stream, Undecided(position.View(), false));
    assert buffer[..0] + stream[0..] == stream && buffer[..0] == "";
    EmptyShowsNoLine();
    assert Leftover("") == "" by { NoLines(""); }
    assert stream[..0] == "";
    while used + 1 < BUFFER_SIZE && got < |stream|
      invariant buffer.Length == BUFFER_SIZE && used <= ROOM && got <= |stream|
      invariant fresh(buffer) && fresh(position)
      invariant Consume(p, now, buffer[..used] + stream[got..], Undecided(position.View(), sawPoll)) == goal
      invariant FirstLine(buffer[..used]).None?
      invariant buffer[..used] == Leftover(stream[..got])
      decreases |stream| - got
    {
      var bytes := Received(sizes(calls), BUFFER_SIZE - used - 1, |stream| - got);
      var chunk := stream[got..got + bytes];
      Split(stream, got, got + bytes);
      TakesChunk(p, now, buffer[..used], chunk, stream[got + bytes..], Undecided(position.View(), sawPoll));
      LeftoverExtends(stream[..got], chunk);
      assert stream[..got] + chunk == stream[..got + bytes];
      Receive(buffer, used, chunk);
      used, got, calls := used + bytes, got + bytes, calls + 1;
      var fixed, polled, left := Drain(p, now, buffer, used, position, sawPoll);
      if fixed {
        status := SUCCESS;
        assert (status, position.View()) == Report(goal) by { FixIsReported(position.View()); }
        return status, position;
      }
      used, sawPoll := left, polled;
    }
    NothingMore(p, now, buffer[..used], stream[got..], Undecided(position.View(), sawPoll));
    status := if sawPoll then SUCCESS else ERROR;
    assert (status, position.View()) == Report(goal) by { UndecidedIsReported(position.View(), sawPoll); }
  }

  lemma {:induction false} FixIsReported(x: Position)
    ensures Report(Fix(x)) == (SUCCESS, x)
  {
  }

  lemma {:induction false} UndecidedIsReported(x: Position, sawPoll: bool)
    ensures Report(Undecided(x, sawPoll)) == (if sawPoll then SUCCESS else ERROR, x)
  {
  }

  // ---- what the answer says ----------------------------------------------------------------

  ghost predicate NoneHas(lines: seq<string>, kind: string) {
    forall i :: 0 <= i < |lines| ==> !HasClass(lines[i], kind)
  }

  predicate AllReadable(lines: seq<string>) {
    forall i :: 0 <= i < |lines| ==> Readable(lines[i])
  }

  /** The stream has readable lines, of which `line` is the first TPV report, and any rest. */
  ghost predicate FirstTpv(stream: string, before: seq<string>, line: string, rest: string) {
    && AllReadable(before) && Readable(line) && stream == Joined(before) + (line + "\n" + rest)
    && NoneHas(before, "TPV") && HasClass(line, "TPV")
  }

  /** The stream has readable lines without a TPV report, of which `line` is the last POLL report. */
  ghost predicate LastPoll(stream: string, before: seq<string>, line: string, after: seq<string>, tail: string) {
    && AllReadable(before) && Readable(line) && AllReadable(after) && FirstLine(tail).None?
    && stream == Joined(before) + (line + "\n" + (Joined(after) + tail))
    && NoneHas(before, "TPV") && !HasClass(line, "TPV") && NoneHas(after, "TPV")
    && HasClass(line, "POLL") && NoneHas(after, "POLL")
  }

  ghost predicate NoReport(stream: string, lines: seq<string>, tail: string) {
    && AllReadable(lines) && FirstLine(tail).None? && stream == Joined(lines) + tail
    && NoneHas(lines, "TPV") && NoneHas(lines, "POLL")
  }

  /** The first TPV report gives the position; without one the last POLL report gives the mode and,
      if it has one, the time; without either nothing is known. */
  ghost predicate IsAnswer(p: Parsers, stream: string, start: int, now: int, status: Status, x: Position) {
    && (forall before, line, rest :: FirstTpv(stream, before, line, rest) ==>
          status == SUCCESS && TpvFields(p, line, now, x))
    && (forall before, line, after, tail :: LastPoll(stream, before, line, after, tail) ==>
          status == SUCCESS && x.lat == x.lon == x.alt == 0.0
          && exists earlier :: PollFields(p, line, earlier, x))
    && (forall lines, tail :: NoReport(stream, lines, tail) ==>
          status == ERROR && x == Position(0, 0.0, 0.0, 0.0, start))
  }

  /** One line more, or less. */
  lemma {:induction false} ConsumesReadable(p: Parsers, now: int, line: string, rest: string, o: Outcome)
    requires Readable(line) && o.Undecided?
    ensures Consume(p, now, line + "\n" + rest, o) == Consume(p, now, rest, TakeLine(p, now, line, o))
  {
    hide TakeLine, FirstLine, Consume, Readable;
    var s := line + "\n" + rest;
    FirstLineOf(line, rest);
    assert s[..|line|] == line && s[|line| + 1..] == rest;
    ConsumesLine(p, now, s, o);
  }

  /** Lines without a TPV report. */
  lemma {:induction false} ConsumesQuiet(p: Parsers, now: int, lines: seq<string>, rest: string, o: Outcome)
    returns (o': Outcome)
    requires AllReadable(lines) && NoneHas(lines, "TPV") && o.Undecided?
    ensures o'.Undecided? && Consume(p, now, Joined(lines) + rest, o) == Consume(p, now, rest, o')
    ensures (o'.position.lat, o'.position.lon, o'.position.alt) == (o.position.lat, o.position.lon, o.position.alt)
    ensures o.sawPoll ==> o'.sawPoll
    ensures NoneHas(lines, "POLL") ==> o' == o
    decreases |lines|
  {
    hide Consume, HasClass, Poll, Tpv, IsTpv, IsPoll, Readable;
    if lines == [] {
      assert Joined(lines) + rest == rest;
      o' := o;
    } else {
      var line := lines[0];
      ClassIs(line);
      PollKeepsCoordinates(p, line, o.position);
      assert Joined(lines) + rest == line + "\n" + (Joined(lines[1..]) + rest);
      ConsumesReadable(p, now, line, Joined(lines[1..]) + rest, o);
      o' := ConsumesQuiet(p, now, lines[1..], rest, TakeLine(p, now, line, o));
    }
  }

  lemma {:induction false} PollKeepsCoordinates(p: Parsers, line: string, x: Position)
    ensures (Poll(p, line, x).lat, Poll(p, line, x).lon, Poll(p, line, x).alt) == (x.lat, x.lon, x.alt)
  {
  }

  lemma {:induction false} ReportIsAnswer(p: Parsers, stream: string, start: int, now: int)
    ensures
      var o := Consume(p, now, stream, Undecided(Position(MODE_NOT_SEEN, 0.0, 0.0, 0.0, start), false));
      IsAnswer(p, stream, start, now, Report(o).0, Report(o).1)
  {
    hide Consume, FirstTpv, LastPoll, NoReport, TpvFields, PollFields;
    var begun := Undecided(Position(MODE_NOT_SEEN, 0.0, 0.0, 0.0, start), false);
    var o := Consume(p, now, stream, begun);
    forall before, line, rest | FirstTpv(stream, before, line, rest)
      ensures o.Fix? && TpvFields(p, line, now, o.position)
    {
      TpvDecides(p, now, stream, before, line, rest, begun);
    }
    forall before, line, after, tail | LastPoll(stream, before, line, after, tail)
      ensures o.Undecided? && o.sawPoll && o.position.lat == o.position.lon == o.position.alt == 0.0
      ensures exists earlier :: PollFields(p, line, earlier, o.position)
    {
      PollDecides(p, now, stream, before, line, after, tail, begun);
    }
    forall lines, tail | NoReport(stream, lines, tail) ensures o == begun {
      NothingDecides(p, now, stream, lines, tail, begun);
    }
  }

  lemma {:induction false} TpvDecides(p: Parsers, now: int, stream: string, before: seq<string>, line: string,
        rest: string, o: Outcome)
    requires FirstTpv(stream, before, line, rest) && o.Undecided?
    ensures
      var r := Consume(p, now, stream, o);
      r.Fix? && TpvFields(p, line, now, r.position)
  {
    hide Consume, HasClass, Tpv, IsTpv, IsPoll, Readable, TpvFields;
    var o1 := ConsumesQuiet(p, now, before, line + "\n" + rest, o);
    ClassIs(line);
    TpvHasFields(p, line, now);
    ConsumesReadable(p, now, line, rest, o1);
    FixStays(p, now, rest, TakeLine(p, now, line, o1));
  }

  lemma {:induction false} PollDecides(p: Parsers, now: int, stream: string, before: seq<string>, line: string,
        after: seq<string>, tail: string, o: Outcome)
    requires LastPoll(stream, before, line, after, tail) && o.Undecided?
    ensures
      var r := Consume(p, now, stream, o);
      && r.Undecided? && r.sawPoll
      && (r.position.lat, r.position.lon, r.position.alt) == (o.position.lat, o.position.lon, o.position.alt)
      && exists earlier :: PollFields(p, line, earlier, r.position)
  {
    hide Consume, HasClass, Poll, IsTpv, IsPoll, Readable, PollFields, FirstLine;
    var o1 := ConsumesQuiet(p, now, before, line + "\n" + (Joined(after) + tail), o);
    ClassIs(line);
    PollHasFields(p, line, o1.position);
    PollKeepsCoordinates(p, line, o1.position);
    ConsumesReadable(p, now, line, Joined(after) + tail, o1);
    var o2 := ConsumesQuiet(p, now, after, tail, TakeLine(p, now, line, o1));
    ConsumeStops(p, now, tail, o2);
  }

  lemma {:induction false} NothingDecides(p: Parsers, now: int, stream: string, lines: seq<string>, tail: string,
        o: Outcome)
    requires NoReport(stream, lines, tail) && o.Undecided?
    ensures Consume(p, now, stream, o) == o
  {
    hide Consume, HasClass, Readable, FirstLine;
    var o1 := ConsumesQuiet(p, now, lines, tail, o);
    ConsumeStops(p, now, tail, o1);
  }

  /** Every stream has a first TPV report, a last POLL report without one, or neither. */
  lemma {:induction false} EveryStreamHasAnAnswer(s: string)
    ensures
      || (exists before, line, rest :: FirstTpv(s, before, line, rest))
      || (exists before, line, after, tail :: LastPoll(s, before, line, after, tail))
      || (exists lines, tail :: NoReport(s, lines, tail))
  {
    hide HasClass, Leftover, FirstLine, Readable, Joined;
    var lines := StreamSplits(s);
    var tail := Leftover(s);
    if i: nat :| IsFirst(lines, i, "TPV") {
      JoinedParts(lines, i);
      Regroup(Joined(lines[..i]), lines[i] + "\n" + Joined(lines[i + 1..]), tail);
      Regroup(lines[i] + "\n", Joined(lines[i + 1..]), tail);
      assert FirstTpv(s, lines[..i], lines[i], Joined(lines[i + 1..]) + tail);
    } else {
      NoFirst(lines, "TPV");
      if i: nat :| IsLast(lines, i, "POLL") {
        JoinedParts(lines, i);
        Regroup(Joined(lines[..i]), lines[i] + "\n" + Joined(lines[i + 1..]), tail);
        Regroup(lines[i] + "\n", Joined(lines[i + 1..]), tail);
        assert LastPoll(s, lines[..i], lines[i], lines[i + 1..], tail);
      } else {
        NoLast(lines, "POLL");
        assert NoReport(s, lines, tail);
      }
    }
  }

  ghost predicate IsFirst(lines: seq<string>, i: nat, kind: string) {
    i < |lines| && HasClass(lines[i], kind) && NoneHas(lines[..i], kind)
  }

  ghost predicate IsLast(lines: seq<string>, i: nat, kind: string) {
    i < |lines| && HasClass(lines[i], kind) && NoneHas(lines[i + 1..], kind)
  }

  lemma {:induction false} NoFirst(lines: seq<string>, kind: string)
    ensures NoneHas(lines, kind) || exists i: nat :: IsFirst(lines, i, kind)
    decreases |lines|
  {
    hide HasClass;
    if lines != [] {
      var front, n := lines[..|lines| - 1], |lines| - 1;
      NoFirst(front, kind);
      if NoneHas(front, kind) {
        assert HasClass(lines[n], kind) ==> IsFirst(lines, n, kind);
        assert forall j :: 0 <= j < n ==> lines[j] == front[j];
      } else {
        var i: nat :| IsFirst(front, i, kind);
        assert lines[i] == front[i] && lines[..i] == front[..i];
        assert IsFirst(lines, i, kind);
      }
    }
  }

  lemma {:induction false} NoLast(lines: seq<string>, kind: string)
    ensures NoneHas(lines, kind) || exists i: nat :: IsLast(lines, i, kind)
    decreases |lines|
  {
    hide HasClass;
    if lines != [] {
      var rest := lines[1..];
      NoLast(rest, kind);
      if NoneHas(rest, kind) {
        assert HasClass(lines[0], kind) ==> IsLast(lines, 0, kind);
        assert forall j :: 0 < j < |lines| ==> lines[j] == rest[j - 1];
      } else {
        var i: nat :| IsLast(rest, i, kind);
        assert lines[i + 1] == rest[i] && lines[i + 1 + 1..] == rest[i + 1..];
        assert IsLast(lines, i + 1, kind);
      }
    }
  }

  lemma {:induction false} JoinedParts(lines: seq<string>, i: nat)
    requires i < |lines|
    ensures Joined(lines) == Joined(lines[..i]) + (lines[i] + "\n" + Joined(lines[i + 1..]))
    decreases i
  {
    if i > 0 {
      JoinedParts(lines[1..], i - 1);
      assert lines[..i][1..] == lines[1..][..i - 1] && lines[1..][i..] == lines[i + 1..];
    }
  }

  lemma {:induction false} EmptyShowsNoLine()
    ensures FirstLine("").None?
  {
  }

  // ---- whole lines -------------------------------------------------------------------------

  predicate Readable(line: string) {
    |line| < ROOM && forall i :: 0 <= i < |line| ==> Plain(line[i])
  }

  function Joined(lines: seq<string>): string {
    if lines == [] then "" else lines[0] + "\n" + Joined(lines[1..])
  }

  /** The reports in order, up to the first TPV. */
  function TakeLines(p: Parsers, now: int, lines: seq<string>, o: Outcome): Outcome {
    if lines == [] || o.Fix? then o else TakeLines(p, now, lines[1..], TakeLine(p, now, lines[0], o))
  }

  lemma {:induction false} FirstLineOf(line: string, rest: string)
    requires Readable(line)
    ensures FirstLine(line + "\n" + rest) == Some(|line|)
  {
    var s := line + "\n" + rest;
    assert s[|line|] == '\n' && s[..|line|] == line;
    assert forall j {:trigger line[j]} :: 0 <= j < |line| ==> s[j] == line[j];
    StopIs(s, 0, |line|);
  }

  /** Whole lines are processed one by one; what follows them is not looked at when the buffer
      can never show its first line. */
  lemma {:induction false} WholeLines(p: Parsers, now: int, lines: seq<string>, tail: string, o: Outcome)
    requires forall i :: 0 <= i < |lines| ==> Readable(lines[i])
    requires FirstLine(tail).None?
    ensures Consume(p, now, Joined(lines) + tail, o) == TakeLines(p, now, lines, o)
    ensures Leftover(Joined(lines) + tail) == tail
    decreases |lines|
  {
    hide TakeLine, FirstLine;
    if lines == [] {
      assert Joined(lines) + tail == tail;
    } else {
      var rest := Joined(lines[1..]) + tail;
      var s := lines[0] + "\n" + rest;
      assert Joined(lines) + tail == s;
      FirstLineOf(lines[0], rest);
      assert s[..|lines[0]|] == lines[0] && s[|lines[0]| + 1..] == rest;
      if o.Undecided? {
        WholeLines(p, now, lines[1..], tail, TakeLine(p, now, lines[0], o));
      } else {
        WholeLines(p, now, lines[1..], tail, o);
      }
    }
  }

  /** Every stream has that form: readable lines, then text whose first line cannot be shown. */
  lemma {:induction false} StreamSplits(s: string) returns (lines: seq<string>)
    ensures forall i :: 0 <= i < |lines| ==> Readable(lines[i])
    ensures s == Joined(lines) + Leftover(s) && FirstLine(Leftover(s)).None?
    decreases |s|
  {
    hide FirstLine, Readable, Leftover, Joined;
    var k := FirstLine(s);
    if k.None? {
      lines := [];
      NoLines(s);
    } else {
      FirstLineParts(s);
      var line, rest := s[..k.value], s[k.value + 1..];
      var more := StreamSplits(rest);
      lines := [line] + more;
      JoinedMore(line, more);
      Regroup(line + "\n", Joined(more), Leftover(rest));
    }
  }

  lemma {:induction false} NoLines(s: string)
    requires FirstLine(s).None?
    ensures Leftover(s) == s && Joined([]) + s == s
  {
  }

  lemma {:induction false} JoinedMore(line: string, more: seq<string>)
    ensures Joined([line] + more) == line + "\n" + Joined(more)
  {
    assert ([line] + more)[1..] == more;
  }

  lemma {:induction false} FirstLineParts(s: string)
    requires FirstLine(s).Some?
    ensures
      var k := FirstLine(s).value;
      Readable(s[..k]) && s == s[..k] + "\n" + s[k + 1..] && Leftover(s) == Leftover(s[k + 1..])
  {
    hide Stop;
  }

  /** s has a line from i to the newline at n. */
  predicate IsLine(s: string, i: nat, n: nat) {
    i <= n < |s| && s[n] == '\n' && (i == 0 || s[i - 1] == '\n') && '\n' !in s[i..n]
  }

  /** Every line that has ended is short enough for the buffer and free of NUL. */
  ghost predicate LinesReadable(s: string) {
    forall i: nat, n: nat :: IsLine(s, i, n) ==> Readable(s[i..n])
  }

  /** What is left of a stream follows one of its newlines, or is all of it; it is exactly what
      follows the last newline if and only if every line that has ended is readable. */
  lemma {:induction false} LeftoverFollowsLastNewline(s: string)
    ensures
      var n := |s| - |Leftover(s)|;
      0 <= n && Leftover(s) == s[n..] && (n > 0 ==> s[n - 1] == '\n')
    ensures '\n' !in Leftover(s) <==> LinesReadable(s)
    decreases |s|
  {
    hide FirstLine, Stop, Readable, LinesReadable;
    var k := FirstLine(s);
    if k.None? {
      NoLines(s);
      UnreadableFirst(s);
    } else {
      FirstLineParts(s);
      LeftoverFollowsLastNewline(s[k.value + 1..]);
      LinesOfRest(s, k.value);
    }
    LeftoverIsSuffix(s);
  }

  lemma {:induction false} LeftoverIsSuffix(s: string)
    ensures
      var n := |s| - |Leftover(s)|;
      0 <= n && Leftover(s) == s[n..] && (n > 0 ==> s[n - 1] == '\n')
    decreases |s|
  {
    hide FirstLine, Stop, Readable;
    var k := FirstLine(s);
    if k.None? {
      NoLines(s);
      assert s[0..] == s;
    } else {
      FirstLineParts(s);
      var line, rest := s[..k.value], s[k.value + 1..];
      LeftoverIsSuffix(rest);
      hide Leftover;
      var m := |rest| - |Leftover(rest)|;
      var n := k.value + 1 + m;
      assert rest[m..] == s[n..];
      assert s[n - 1] == if m > 0 then rest[m - 1] else '\n';
    }
  }

  lemma {:induction false} ReadableIsShown(s: string, n: nat)
    requires n < |s| && s[n] == '\n'
    ensures Readable(s[..n]) ==> FirstLine(s).Some?
  {
    hide FirstLine;
    if Readable(s[..n]) {
      assert s == s[..n] + "\n" + s[n + 1..];
      FirstLineOf(s[..n], s[n + 1..]);
    }
  }

  lemma {:induction false} UnreadableFirst(s: string)
    requires FirstLine(s).None?
    ensures '\n' !in s <==> LinesReadable(s)
  {
    if '\n' in s {
      var n := FirstNewline(s);
      ReadableIsShown(s, n);
      assert s[0..n] == s[..n] && IsLine(s, 0, n);
    } else {
      hide Readable, FirstLine;
      assert forall i: nat, n: nat :: !IsLine(s, i, n);
    }
  }

  lemma {:induction false} FirstNewline(s: string) returns (n: nat)
    requires '\n' in s
    ensures n < |s| && s[n] == '\n' && '\n' !in s[..n]
    decreases |s|
  {
    if s[0] == '\n' {
      n := 0;
    } else {
      assert s == [s[0]] + s[1..];
      var m := FirstNewline(s[1..]);
      n := m + 1;
      assert s[..n] == [s[0]] + s[1..][..m];
    }
  }

  lemma {:induction false} LinesOfRest(s: string, k: nat)
    requires k < |s| && s[k] == '\n' && Readable(s[..k])
    ensures LinesReadable(s) <==> LinesReadable(s[k + 1..])
  {
    var rest := s[k + 1..];
    forall i: nat, n: nat | IsLine(rest, i, n)
      ensures IsLine(s, i + k + 1, n + k + 1) && s[i + k + 1..n + k + 1] == rest[i..n]
    {
      assert s[i + k + 1..n + k + 1] == rest[i..n];
    }
    forall i: nat, n: nat | IsLine(s, i, n)
      ensures s[i..n] == s[..k] || (i > k && IsLine(rest, i - k - 1, n - k - 1)
        && s[i..n] == rest[i - k - 1..n - k - 1])
    {
      LineIsFirstOrLater(s, k, i, n);
      if i > k {
        assert s[i..n] == rest[i - k - 1..n - k - 1];
      }
    }
  }

  /** A line that begins before a newline whose line is readable is that line. */
  lemma {:induction false} LineIsFirstOrLater(s: string, k: nat, i: nat, n: nat)
    requires k < |s| && s[k] == '\n' && Readable(s[..k]) && IsLine(s, i, n)
    ensures i > k || s[i..n] == s[..k]
  {
    forall j | 0 <= j < k ensures s[j] != '\n' {
      assert s[j] == s[..k][j];
    }
    forall j | i <= j < n ensures s[j] != '\n' {
      assert s[j] == s[i..n][j - i];
    }
    if i <= k {
      assert i == 0 && n == k;
    }
  }

  /** What is left does not depend on how the stream was cut. */
  lemma {:induction false} LeftoverExtends(held: string, rest: string)
    ensures Leftover(held + rest) == Leftover(Leftover(held) + rest)
    decreases |held|
  {
    hide FirstLine, Readable;
    var k := FirstLine(held);
    if k.Some? {
      FirstLineExtends(held, rest);
      LeftoverExtends(held[k.value + 1..], rest);
    }
  }

  /** The first TPV report alone decides the result. */
  lemma {:induction false} FirstTpvDecides(p: Parsers, now: int, lines: seq<string>, i: nat, o: Outcome)
    requires i < |lines| && IsTpv(lines[i]) && forall j :: 0 <= j < i ==> !IsTpv(lines[j])
    requires o.Undecided?
    ensures TakeLines(p, now, lines, o) == Fix(Tpv(p, lines[i], now))
    decreases i
  {
    hide IsTpv, Tpv, Poll, IsPoll;
    if i > 0 {
      assert !IsTpv(lines[0]);
      FirstTpvDecides(p, now, lines[1..], i - 1, TakeLine(p, now, lines[0], o));
    } else {
      var fix := TakeLine(p, now, lines[0], o);
      assert TakeLines(p, now, lines, o) == TakeLines(p, now, lines[1..], fix);
    }
  }

  /** Without one the coordinates stay as they were, and the call succeeds exactly if a POLL
      report has been seen. */
  lemma {:induction false} WithoutTpv(p: Parsers, now: int, lines: seq<string>, o: Outcome)
    requires forall j :: 0 <= j < |lines| ==> !IsTpv(lines[j])
    requires o.Undecided?
    ensures
      var r := TakeLines(p, now, lines, o);
      && r.Undecided?
      && (r.position.lat, r.position.lon, r.position.alt) == (o.position.lat, o.position.lon, o.position.alt)
      && (r.sawPoll <==> o.sawPoll || exists j :: 0 <= j < |lines| && IsPoll(lines[j]))
    decreases |lines|
  {
    hide IsTpv, IsPoll, Tpv;
    if lines != [] {
      assert !IsTpv(lines[0]);
      WithoutTpv(p, now, lines[1..], TakeLine(p, now, lines[0], o));
      assert forall j :: 0 < j < |lines| ==> lines[j] == lines[1..][j - 1];
    }
  }
}
