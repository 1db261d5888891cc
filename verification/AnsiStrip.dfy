/**
 * Removal of terminal control sequences (section 5.4 of ECMA-48) from a NUL-terminated text,
 * in place.
 */
module AnsiStrip {
  import opened CText

  const ESC: char := '\U{1b}'

  predicate Introduced(s: string) {
    |s| >= 2 && s[0] == ESC && s[1] == '['
  }

  predicate IsFinal(c: char) {
    '@' <= c <= '~'
  }

  /** What follows the final byte of a control sequence, whose introducer is already gone. */
  function AfterSequence(s: string): (r: string)
    ensures |r| <= |s|
  {
    if s == "" then "" else if IsFinal(s[0]) then s[1..] else AfterSequence(s[1..])
  }

  /** A text without its control sequences. */
  function Strip(s: string): (r: string)
    ensures |r| <= |s|
    decreases |s|
  {
    if s == "" then "" else if Introduced(s) then Strip(AfterSequence(s[2..])) else [s[0]] + Strip(s[1..])
  }

  /** The text an array holds, up to its first terminator. */
  function CString(a: seq<char>): (r: string)
    ensures r <= a && NulFree(r) && (|r| < |a| ==> a[|r|] == NUL)
  {
    if a == [] || a[0] == NUL then ""
    else
      var rest := CString(a[1..]);
      assert ([a[0]] + rest) <= a;
      [a[0]] + rest
  }

  lemma {:induction false} CStringIs(a: seq<char>, n: nat)
    requires n < |a| && a[n] == NUL && forall i :: 0 <= i < n ==> a[i] != NUL
    ensures CString(a) == a[..n]
  {
    if n > 0 {
      CStringIs(a[1..], n - 1);
      assert a[..n] == [a[0]] + a[1..][..n - 1];
    }
  }

  lemma {:induction false} TerminatorInside(a: seq<char>)
    requires NUL in a
    ensures |CString(a)| < |a| && a[|CString(a)|] == NUL
  {
    if a[0] != NUL {
      assert NUL in a[1..];
      TerminatorInside(a[1..]);
    }
  }

  lemma {:induction false} StripAt(s: string, i: nat)
    requires i <= |s|
    ensures Strip(s[i..]) ==
            if i == |s| then "" else if i + 1 < |s| && s[i] == ESC && s[i + 1] == '['
              then Strip(AfterSequence(s[i + 2..]))
            else [s[i]] + Strip(s[i + 1..])
  {
    hide AfterSequence;
    if i < |s| {
      assert s[i..][1..] == s[i + 1..];
      if i + 1 < |s| {
        assert s[i..][2..] == s[i + 2..];
      }
    }
  }

  lemma {:induction false} AfterAt(s: string, i: nat)
    requires i <= |s|
    ensures AfterSequence(s[i..]) == if i == |s| then "" else if IsFinal(s[i]) then s[i + 1..]
      else AfterSequence(s[i + 1..])
  {
    if i < |s| {
      assert s[i..][1..] == s[i + 1..];
    }
  }

  ghost predicate Holds(text: array<char>, s: string, from: nat)
    reads text
  {
    && |s| < text.Length && from <= |s| && text[|s|] == NUL
    && forall i :: from <= i < |s| ==> text[i] == s[i] && s[i] != NUL
  }

  /** From behind the introducer at the parameters to behind the final byte. */
  method SkipSequence(text: array<char>, start: nat, ghost s: string) returns (src: nat)
    requires start <= |s| && Holds(text, s, start)
    ensures start <= src <= |s| && s[src..] == AfterSequence(s[start..])
  {
    hide AfterSequence;
    src := start;
    while text[src] != NUL && (text[src] < '@' || text[src] > '~')
      invariant start <= src <= |s|
      invariant AfterSequence(s[start..]) == AfterSequence(s[src..])
      decreases |s| - src
    {
      AfterAt(s, src);
      src := src + 1;
    }
    AfterAt(s, src);
    if text[src] != NUL {
      src := src + 1;
    }
  }

  lemma {:induction false} HoldsAll(text: array<char>, s: string)
    requires |s| < text.Length && s <= text[..] && text[|s|] == NUL && NulFree(s)
    ensures Holds(text, s, 0)
  {
    assert forall i {:trigger s[i]} :: 0 <= i < |s| ==> s[i] == text[..][i];
  }

  /** Copy one character down. */
  method CopyDown(text: array<char>, src: nat, dst: nat, ghost s: string)
    requires dst <= src < |s| && Holds(text, s, src)
    modifies text
    ensures Holds(text, s, src + 1)
    ensures text[..dst + 1] == old(text[..dst]) + [s[src]]
    ensures forall i :: dst < i < text.Length ==> text[i] == old(text[i])
  {
    text[dst] := text[src];
  }

  /** Only the shortened text and its terminator are written: everything behind them is as it was. */
  method StripAnsi(text: array<char>)
    requires NUL in text[..]
    modifies text
    ensures
      var (before, after) := (old(text[..]), Strip(CString(old(text[..]))));
      && |after| < |before|
      && text[..] == after + [NUL] + before[|after| + 1..]
  {
    hide Strip, CString, AfterSequence;
    ghost var all := text[..];
    ghost var s := CString(all);
    TerminatorInside(all);
    HoldsAll(text, s);
    var src: nat, dst: nat := 0, 0;
    assert text[..0] + Strip(s[0..]) == Strip(s) by {
      assert s[0..] == s;
    }
    while text[src] != NUL
      invariant dst <= src <= |s| && Holds(text, s, src)
      invariant forall i :: dst <= i < text.Length ==> text[i] == all[i]
      invariant text[..dst] + Strip(s[src..]) == Strip(s)
      decreases |s| - src
    {
      StripAt(s, src);
      if text[src] == ESC && text[src + 1] == '[' {
        src := SkipSequence(text, src + 2, s);
      } else {
        Regroup(text[..dst], [s[src]], Strip(s[src + 1..]));
        CopyDown(text, src, dst, s);
        dst, src := dst + 1, src + 1;
      }
    }
    StripAt(s, src);
    assert text[..dst] == Strip(s);
    assert text[..][dst + 1..] == all[dst + 1..];
    Terminate(text, dst);
  }

  method Terminate(text: array<char>, dst: nat)
    requires dst < text.Length
    modifies text
    ensures text[..] == old(text[..dst]) + [NUL] + old(text[..])[dst + 1..]
  {
    text[dst] := NUL;
  }

  lemma {:induction false} AfterIsNulFree(s: string)
    requires NulFree(s)
    ensures NulFree(AfterSequence(s))
  {
    if s != "" && !IsFinal(s[0]) {
      AfterIsNulFree(s[1..]);
    }
  }

  lemma {:induction false} StripIsNulFree(s: string)
    requires NulFree(s)
    ensures NulFree(Strip(s))
    decreases |s|
  {
    if Introduced(s) {
      AfterIsNulFree(s[2..]);
      StripIsNulFree(AfterSequence(s[2..]));
    } else if s != "" {
      StripIsNulFree(s[1..]);
    }
  }

  // ---- what the specification means --------------------------------------------------------

  /** A text is characters to keep and whole control sequences. */
  datatype Piece = Keep(c: char) | Sequence(parameters: string, final: char)

  function PieceText(p: Piece): string {
    match p
    case Keep(c) => [c]
    case Sequence(parameters, final) => [ESC, '['] + parameters + [final]
  }

  function Render(pieces: seq<Piece>): string {
    if pieces == [] then "" else PieceText(pieces[0]) + Render(pieces[1..])
  }

  function KeptOf(p: Piece): string {
    if p.Keep? then [p.c] else ""
  }

  function Kept(pieces: seq<Piece>): string {
    if pieces == [] then "" else KeptOf(pieces[0]) + Kept(pieces[1..])
  }

  predicate NoFinal(s: string) {
    forall i :: 0 <= i < |s| ==> !IsFinal(s[i])
  }

  /** A sequence ends at its first final byte, and a kept character does not start one. */
  predicate Fits(p: Piece, next: string) {
    match p
    case Keep(c) => !Introduced([c] + next)
    case Sequence(parameters, final) => NoFinal(parameters) && IsFinal(final)
  }

  predicate WellFormed(pieces: seq<Piece>, rest: string) {
    pieces != [] ==> Fits(pieces[0], Render(pieces[1..]) + rest) && WellFormed(pieces[1..], rest)
  }

  /** A sequence without a final byte, or nothing. */
  predicate Unfinished(s: string) {
    s == "" || (Introduced(s) && NoFinal(s[2..]))
  }

  lemma {:induction false} SequenceEnds(parameters: string, final: char, rest: string)
    requires IsFinal(final) && NoFinal(parameters)
    ensures AfterSequence(parameters + [final] + rest) == rest
  {
    var s := parameters + [final] + rest;
    if parameters == "" {
      assert s[1..] == rest;
    } else {
      assert s[0] == parameters[0] && s[1..] == parameters[1..] + [final] + rest;
      SequenceEnds(parameters[1..], final, rest);
    }
  }

  lemma {:induction false} NeverEnds(s: string)
    requires NoFinal(s)
    ensures AfterSequence(s) == ""
  {
    if s != "" {
      NeverEnds(s[1..]);
    }
  }

  lemma {:induction false} StripPiece(p: Piece, next: string)
    requires Fits(p, next)
    ensures Strip(PieceText(p) + next) == KeptOf(p) + Strip(next)
  {
    hide AfterSequence;
    var s := PieceText(p) + next;
    match p
    case Keep(c) =>
      assert s[1..] == next;
    case Sequence(parameters, final) =>
      assert s[2..] == parameters + [final] + next;
      SequenceEnds(parameters, final, next);
  }

  lemma {:induction false} StripUnfinished(s: string)
    requires Unfinished(s)
    ensures Strip(s) == ""
  {
    if s != "" {
      NeverEnds(s[2..]);
    }
  }

  /** Exactly the control sequences go, an unfinished one at the end included. */
  lemma {:induction false} StripKeepsTheRest(pieces: seq<Piece>, rest: string)
    requires WellFormed(pieces, rest) && Unfinished(rest)
    ensures Strip(Render(pieces) + rest) == Kept(pieces)
    decreases |pieces|
  {
    hide Strip, Fits, PieceText, KeptOf, Unfinished;
    if pieces == [] {
      assert Render(pieces) + rest == rest;
      StripUnfinished(rest);
    } else {
      var next := Render(pieces[1..]) + rest;
      assert Render(pieces) + rest == PieceText(pieces[0]) + next;
      StripPiece(pieces[0], next);
      StripKeepsTheRest(pieces[1..], rest);
    }
  }

  /** A control sequence goes up to its first character from 0x40 to 0x7E, and to the end of the text
      if it has none. */
  lemma {:induction false} SequenceGoes(parameters: string, final: char, rest: string)
    requires forall i :: 0 <= i < |parameters| ==> !(0x40 <= parameters[i] as int <= 0x7E)
    ensures Strip("\U{1b}[" + parameters) == ""
    ensures 0x40 <= final as int <= 0x7E ==> Strip("\U{1b}[" + parameters + [final] + rest) == Strip(rest)
  {
    assert NoFinal(parameters);
    assert ("\U{1b}[" + parameters)[2..] == parameters;
    StripUnfinished("\U{1b}[" + parameters);
    if 0x40 <= final as int <= 0x7E {
      assert IsFinal(final);
      StripPiece(Sequence(parameters, final), rest);
      assert PieceText(Sequence(parameters, final)) + rest == "\U{1b}[" + parameters + [final] + rest;
    }
  }

  /** What an introducer is followed by: parameters to the end, or up to a final byte. */
  lemma {:induction false} SequenceParts(s: string)
    ensures NoFinal(s) || exists n :: 0 <= n < |s| && NoFinal(s[..n]) && IsFinal(s[n])
  {
    if s != "" && !IsFinal(s[0]) {
      SequenceParts(s[1..]);
      if !NoFinal(s) {
        assert !NoFinal(s[1..]);
        var n :| 0 <= n < |s[1..]| && NoFinal(s[1..][..n]) && IsFinal(s[1..][n]);
        assert s[..n + 1] == [s[0]] + s[1..][..n];
        assert NoFinal(s[..n + 1]) && IsFinal(s[n + 1]);
      }
    } else if s != "" {
      assert NoFinal(s[..0]) && IsFinal(s[0]);
    }
  }

  lemma {:induction false} SequencePiece(s: string, k: nat)
    requires Introduced(s) && k + 2 < |s|
    ensures s == PieceText(Sequence(s[2..][..k], s[2..][k])) + s[k + 3..]
  {
    var rest := s[2..];
    assert s == [ESC, '['] + rest;
    assert rest == rest[..k] + [rest[k]] + rest[k + 1..];
    assert s[k + 3..] == rest[k + 1..];
    Regroup([ESC, '['], rest[..k] + [rest[k]], rest[k + 1..]);
    Regroup([ESC, '['], rest[..k], [rest[k]]);
  }

  lemma {:induction false} FirstPiece(s: string) returns (p: Piece, n: nat)
    requires !Unfinished(s)
    ensures 0 < n <= |s| && s == PieceText(p) + s[n..] && Fits(p, s[n..])
  {
    hide NoFinal, IsFinal;
    if Introduced(s) {
      SequenceParts(s[2..]);
      var k :| 0 <= k < |s[2..]| && NoFinal(s[2..][..k]) && IsFinal(s[2..][k]);
      p, n := Sequence(s[2..][..k], s[2..][k]), k + 3;
      SequencePiece(s, k);
    } else {
      p, n := Keep(s[0]), 1;
      assert [s[0]] + s[1..] == s;
    }
  }

  /** Every text has such a form. */
  lemma {:induction false} EveryTextHasPieces(s: string) returns (pieces: seq<Piece>, rest: string)
    ensures s == Render(pieces) + rest && WellFormed(pieces, rest) && Unfinished(rest)
    decreases |s|
  {
    hide Unfinished, Fits, PieceText;
    if Unfinished(s) {
      pieces, rest := [], s;
      assert Render(pieces) + rest == s;
    } else {
      var p, n := FirstPiece(s);
      var more, r := EveryTextHasPieces(s[n..]);
      pieces, rest := [p] + more, r;
      assert pieces[1..] == more;
      assert PieceText(p) + (Render(more) + r) == Render(pieces) + rest;
    }
  }

  /** A text is left alone exactly when it has no introducer. */
  lemma {:induction false} StripChangesIff(s: string)
    ensures Strip(s) == s <==> forall i :: 0 <= i < |s| ==> !Introduced(s[i..])
    decreases |s|
  {
    if s != "" {
      assert s[0..] == s;
      if Introduced(s) {
        assert |Strip(s)| < |s|;
      } else {
        StripChangesIff(s[1..]);
        assert forall i :: 0 < i < |s| ==> s[i..] == s[1..][i - 1..];
        if Strip(s) == s {
          assert Strip(s)[1..] == Strip(s[1..]);
          forall i | 0 <= i < |s| ensures !Introduced(s[i..]) {
            assert i > 0 ==> !Introduced(s[1..][i - 1..]);
          }
        } else {
          var i :| 0 <= i < |s[1..]| && Introduced(s[1..][i..]);
          assert s[1..][i..] == s[i + 1..];
        }
      }
    }
  }
}
