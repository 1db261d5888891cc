/**
 * The JSON scanning of the GPS client: finding a key's value and reading a string value
 * into a buffer of limited size.
 */
module JsonScan {
  import opened Common
  import opened CText

  const PATTERN_SIZE := 64

  function Pattern(key: string): string {
    "\"" + key + "\":"
  }

  /** Where the value of the key starts. */
  function FindValue(json: string, key: string): (r: Option<nat>)
    ensures r.Some? ==> r.value <= |json|
  {
    if |Pattern(key)| >= PATTERN_SIZE then None
    else
      var at := Find(json, Pattern(key), 0);
      if at.None? then None else Some(SkipSpace(json, at.value + |Pattern(key)|))
  }

  method JsonFindValue(json: string, key: string) returns (r: Option<nat>)
    ensures r == FindValue(json, key)
  {
    var pattern := "\"" + key + "\":";
    if |pattern| >= PATTERN_SIZE {
      return None;
    }
    var at := Find(json, pattern, 0);
    if at.None? {
      return None;
    }
    var value := at.value + |pattern|;
    while value < |json| && IsSpace(json[value])
      invariant at.value + |pattern| <= value <= |json|
      invariant SkipSpace(json, value) == SkipSpace(json, at.value + |pattern|)
    {
      value := value + 1;
    }
    return Some(value);
  }

  /** Where reading stops, and what has been read, when at most `room` characters fit. */
  function ReadString(json: string, v: nat, room: nat): (nat, string)
    requires v <= |json|
    decreases |json| - v
  {
    if v == |json| || json[v] == '"' || room == 0 then (v, "")
    else
      var w := if json[v] == '\\' && v + 1 < |json| then v + 1 else v;
      var (end, text) := ReadString(json, w + 1, room - 1);
      (end, [json[w]] + text)
  }

  /** A quoted value for the key, complete within the buffer: the flag and the buffer. */
  function ParseString(json: string, key: string, size: nat): (bool, string) {
    var value := FindValue(json, key);
    if value.None? || At(json, value.value) != '"' || size == 0 || value.value == |json| then (false, "")
    else
      var (end, text) := ReadString(json, value.value + 1, size - 1);
      (At(json, end) == '"', text)
  }

  /** Text read before the rest is read. */
  function Prepend(text: string, r: (nat, string)): (nat, string) {
    (r.0, text + r.1)
  }

  lemma {:induction false} ReadStep(json: string, v: nat, room: nat, before: string)
    requires v < |json| && json[v] != '"' && room > 0
    ensures
      var w := if json[v] == '\\' && v + 1 < |json| then v + 1 else v;
      Prepend(before, ReadString(json, v, room)) == Prepend(before + [json[w]], ReadString(json, w + 1, room - 1))
  {
    var w := if json[v] == '\\' && v + 1 < |json| then v + 1 else v;
    Regroup(before, [json[w]], ReadString(json, w + 1, room - 1).1);
  }

  lemma {:induction false} ReadEnds(json: string, v: nat, room: nat, before: string)
    requires v <= |json| && (v == |json| || json[v] == '"' || room == 0)
    ensures Prepend(before, ReadString(json, v, room)) == (v, before)
  {
    assert before + "" == before;
  }

  lemma {:induction false} PrependNothing(r: (nat, string))
    ensures Prepend("", r) == r
  {
    assert "" + r.1 == r.1;
  }

  method JsonParseString(json: string, key: string, buffer: array<char>) returns (ok: bool, length: nat)
    requires NulFree(json)
    modifies buffer
    ensures ok ==> length < buffer.Length && buffer[length] == NUL
    ensures length <= buffer.Length && (ok, buffer[..length]) == ParseString(json, key, buffer.Length)
  {
    hide ReadString, Prepend, FindValue;
    var found := JsonFindValue(json, key);
    if found.None? || At(json, found.value) != '"' || buffer.Length == 0 {
      return false, 0;
    }
    var value := found.value + 1;
    var index := 0;
    ghost var goal := ReadString(json, value, buffer.Length - 1);
    PrependNothing(goal);
    assert buffer[..0] == "";
    while value < |json| && json[value] != '"' && index + 1 < buffer.Length
      invariant found.value + 1 <= value <= |json| && 0 <= index < buffer.Length
      invariant Prepend(buffer[..index], ReadString(json, value, buffer.Length - 1 - index)) == goal
      decreases |json| - value
    {
      ghost var before := buffer[..index];
      ReadStep(json, value, buffer.Length - 1 - index, before);
      if json[value] == '\\' && value + 1 < |json| {
        value := value + 1;
      }
      buffer[index] := json[value];
      assert buffer[..index + 1] == before + [json[value]];
      index, value := index + 1, value + 1;
    }
    ReadEnds(json, value, buffer.Length - 1 - index, buffer[..index]);
    ghost var text := buffer[..index];
    buffer[index] := NUL;
    assert buffer[..index] == text;
    return value < |json| && json[value] == '"', index;
  }

  // ---- round trip --------------------------------------------------------------------------

  /** A string printed with its quotes and backslashes escaped. */
  function Escape(s: string): string {
    if s == "" then ""
    else (if s[0] == '"' || s[0] == '\\' then ['\\', s[0]] else [s[0]]) + Escape(s[1..])
  }

  /** The text before, the key, white space, the quoted string and the text after it. */
  function Printed(pre: string, key: string, space: string, s: string, post: string): string {
    pre + Pattern(key) + space + "\"" + Escape(s) + "\"" + post
  }

  function EscapedLength(c: char): (n: nat) {
    if c == '"' || c == '\\' then 2 else 1
  }

  lemma {:induction false} EscapeStep(s: string)
    requires s != ""
    ensures
      var (e, n) := (Escape(s) + "\"", EscapedLength(s[0]));
      && n <= |e| && e[n..] == Escape(s[1..]) + "\"" && e[n - 1] == s[0]
      && (e[0] == if n == 2 then '\\' else s[0])
  {
    var n := EscapedLength(s[0]);
    var front := if n == 2 then ['\\', s[0]] else [s[0]];
    assert Escape(s) + "\"" == front + (Escape(s[1..]) + "\"");
    assert (front + (Escape(s[1..]) + "\""))[n..] == Escape(s[1..]) + "\"";
  }

  lemma {:induction false} EscapeEmpty()
    ensures Escape("") + "\"" == "\""
  {
  }

  lemma {:induction false} OccursParts(json: string, e: string, v: nat, n: nat)
    requires OccursAt(json, e, v) && n <= |e|
    ensures v + |e| <= |json| && OccursAt(json, e[n..], v + n)
    ensures forall k {:trigger e[k]} :: 0 <= k < |e| ==> json[v + k] == e[k]
  {
    assert forall k {:trigger e[k]} :: 0 <= k < |e| ==> json[v..v + |e|][k] == json[v + k];
    assert json[v + n..v + |e|] == json[v..v + |e|][n..];
  }

  /** One character of an escaped string. */
  lemma {:induction false} ReadsCharacter(json: string, v: nat, s: string)
    requires s != "" && OccursAt(json, Escape(s) + "\"", v)
    ensures
      var next := v + EscapedLength(s[0]);
      && next <= |json| && OccursAt(json, Escape(s[1..]) + "\"", next) && At(json, v) != '"'
      && forall room: nat :: room > 0 ==>
           ReadString(json, v, room) == (ReadString(json, next, room - 1).0,
             [s[0]] + ReadString(json, next, room - 1).1)
  {
    hide OccursAt, Escape;
    var (e, n) := (Escape(s) + "\"", EscapedLength(s[0]));
    EscapeStep(s);
    OccursParts(json, e, v, n);
    assert json[v + 0] == e[0] && json[v + (n - 1)] == e[n - 1];
  }

  lemma {:induction false} ReadsQuote(json: string, v: nat)
    requires OccursAt(json, Escape("") + "\"", v)
    ensures v < |json| && At(json, v) == '"' && forall room: nat :: ReadString(json, v, room) == (v, "")
  {
    EscapeEmpty();
    OccursParts(json, "\"", v, 0);
    assert json[v + 0] == "\""[0];
  }

  /** Reading an escaped string stops at its closing quote if it fits, and earlier if not. */
  lemma {:induction false} ReadsEscaped(json: string, v: nat, s: string, room: nat)
    requires OccursAt(json, Escape(s) + "\"", v)
    ensures
      var (end, text) := ReadString(json, v, room);
      && v <= end <= |json|
      && text == (if |s| <= room then s else s[..room])
      && (At(json, end) == '"' <==> |s| <= room)
    decreases |s|
  {
    hide OccursAt, Escape, At;
    if s == "" {
      ReadsQuote(json, v);
    } else {
      ReadsCharacter(json, v, s);
      if room > 0 {
        hide ReadString;
        ReadsEscaped(json, v + EscapedLength(s[0]), s[1..], room - 1);
        FirstAndRest(s, room);
      }
    }
  }

  lemma {:induction false} FirstAndRest(s: string, room: nat)
    requires s != "" && room > 0
    ensures [s[0]] + s[1..] == s
    ensures |s| > room ==> [s[0]] + s[1..][..room - 1] == s[..room]
  {
  }

  /** Printing a string as the value of a key and reading it back into a buffer of any size
      succeeds exactly when the string and its terminator fit, and then gives the string
      back; otherwise the buffer holds as much of it as fits. */
  lemma {:induction false} StringRoundTrip(pre: string, key: string, space: string, s: string, post: string, size: nat)
    requires |Pattern(key)| < PATTERN_SIZE && size > 0
    requires forall i :: 0 <= i < |space| ==> IsSpace(space[i])
    requires Find(Printed(pre, key, space, s, post), Pattern(key), 0) == Some(|pre|)
    ensures ParseString(Printed(pre, key, space, s, post), key, size) ==
            if |s| < size then (true, s) else (false, s[..size - 1])
  {
    hide OccursAt, Escape, Find, ReadString, SkipSpace, Printed, Pattern;
    var json := Printed(pre, key, space, s, post);
    var start := |pre| + |Pattern(key)|;
    PrintedParts(pre, key, space, s, post);
    SkipsTo(json, start, start + |space|);
    ReadsEscaped(json, start + |space| + 1, s, size - 1);
  }

  lemma {:induction false} PrintedParts(pre: string, key: string, space: string, s: string, post: string)
    ensures
      var (json, start) := (Printed(pre, key, space, s, post), |pre| + |Pattern(key)|);
      var quote := start + |space|;
      && quote < |json| && json[quote] == '"'
      && (forall i :: start <= i < quote ==> json[i] == space[i - start])
      && OccursAt(json, Escape(s) + "\"", quote + 1)
  {
    hide Pattern, Escape;
    var json := Printed(pre, key, space, s, post);
    var front := pre + Pattern(key) + space;
    var e := Escape(s) + "\"";
    assert json == front + "\"" + e + post;
    assert json[|front| + 1..|front| + 1 + |e|] == e;
  }

  lemma {:induction false} SkipsTo(json: string, i: nat, j: nat)
    requires i <= j < |json| && !IsSpace(json[j]) && forall k :: i <= k < j ==> IsSpace(json[k])
    ensures SkipSpace(json, i) == j
    decreases j - i
  {
    if i < j {
      SkipsTo(json, i + 1, j);
    }
  }

  /** A document that starts with the key is printed so that the key is found at once. */
  lemma {:induction false} FirstKeyIsFound(key: string, space: string, s: string, post: string)
    ensures Find(Printed("", key, space, s, post), Pattern(key), 0) == Some(0)
  {
    var json := Printed("", key, space, s, post);
    assert json[0..|Pattern(key)|] == Pattern(key);
  }
}
