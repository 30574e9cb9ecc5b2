/**
 Reading Rust source a byte at a time: line comments blanked out with every
 offset kept, and the arguments of a call found by their parentheses.
 */
module ApiContract {
  import opened Prelude

  type Byte = b: int | 0 <= b < 256

  const NEWLINE: Byte := 10
  const SPACE: Byte := 32
  const QUOTE: Byte := 34
  const APOSTROPHE: Byte := 39
  const OPENING: Byte := 40
  const CLOSING: Byte := 41
  const SLASH: Byte := 47
  const BACKSLASH: Byte := 92

  // ----- comments

  /** What a byte is inside of; an escaped byte is inside its literal whatever it is. */
  datatype Mode = Code | InString | EscapedInString | InChar | EscapedInChar | Comment

  predicate At(src: seq<Byte>, i: int, b: Byte) {
    0 <= i < |src| && src[i] == b
  }

  predicate CommentStarts(src: seq<Byte>, i: nat) {
    At(src, i, SLASH) && At(src, i + 1, SLASH)
  }

  /** A quote two bytes on tells a character literal from a lifetime. */
  predicate CharStarts(src: seq<Byte>, i: nat) {
    At(src, i, APOSTROPHE) && At(src, i + 2, APOSTROPHE)
  }

  /** What the byte after `i` is inside of, when byte `i` is inside `mode`. */
  function Next(src: seq<Byte>, i: nat, mode: Mode): Mode
    requires i < |src|
  {
    var b := src[i];
    match mode
    case Code =>
      if b == QUOTE then InString
      else if CharStarts(src, i) then InChar
      else if CommentStarts(src, i) then Comment
      else Code
    case InString => if b == BACKSLASH then EscapedInString else if b == QUOTE then Code else InString
    case EscapedInString => InString
    case InChar => if b == BACKSLASH then EscapedInChar else if b == APOSTROPHE then Code else InChar
    case EscapedInChar => InChar
    case Comment => if b == NEWLINE then Code else Comment
  }

  /** What byte `i` is inside of, as a left to right reading finds it. */
  function ModeAt(src: seq<Byte>, i: nat): Mode
    requires i <= |src|
  {
    if i == 0 then Code else Next(src, i - 1, ModeAt(src, i - 1))
  }

  lemma {:induction false} ModeNext(src: seq<Byte>, i: nat)
    requires i < |src|
    ensures ModeAt(src, i + 1) == Next(src, i, ModeAt(src, i))
  {
  }

  /** The byte belongs to a comment: its slashes and all up to the end of the line. */
  predicate Blanked(src: seq<Byte>, i: nat)
    requires i < |src|
  {
    (ModeAt(src, i) == Code && CommentStarts(src, i)) || (ModeAt(src, i) == Comment && src[i] != NEWLINE)
  }

  function Stripped(src: seq<Byte>): (out: seq<Byte>)
    ensures |out| == |src|
    ensures forall i :: 0 <= i < |src| ==> out[i] == if Blanked(src, i) then SPACE else src[i]
  {
    seq(|src|, i requires 0 <= i < |src| => if Blanked(src, i) then SPACE else src[i])
  }

  /** A comment, from its first slash to the end of its line, as spaces. */
  method BlankLine(src: seq<Byte>, start: nat) returns (i: nat, blanks: seq<Byte>)
    requires start < |src| && ModeAt(src, start) == Code && CommentStarts(src, start)
    ensures start < i <= |src| && blanks == Stripped(src)[start..i]
    ensures i < |src| ==> src[i] == NEWLINE
    ensures ModeAt(src, i) == Comment
  {
    hide ModeAt;
    i, blanks := start, [];
    while i < |src| && src[i] != NEWLINE
      invariant start <= i <= |src| && blanks == Stripped(src)[start..i]
      invariant if i == start then ModeAt(src, i) == Code else ModeAt(src, i) == Comment
    {
      ModeNext(src, i);
      assert Stripped(src)[i] == SPACE;
      blanks := blanks + [SPACE];
      i := i + 1;
    }
  }

  /** How the two flags read: what byte `i` is inside of, where bytes are not read past the end. */
  ghost predicate Flags(src: seq<Byte>, i: nat, inString: bool, inChar: bool)
    requires i <= |src|
  {
    i < |src| ==>
      && !(inString && inChar)
      && (if inString then ModeAt(src, i) == InString
          else if inChar then ModeAt(src, i) == InChar
          else ModeAt(src, i) == Code || (ModeAt(src, i) == Comment && src[i] == NEWLINE))
  }

  lemma {:induction false} Kept(src: seq<Byte>, i: nat)
    requires i < |src| && !Blanked(src, i)
    ensures Stripped(src)[..i + 1] == Stripped(src)[..i] + [src[i]]
  {
    hide ModeAt;
  }

  /** Every byte of a line comment becomes a space; nothing else moves or changes. */
  method StripLineComments(src: seq<Byte>) returns (out: seq<Byte>)
    ensures out == Stripped(src)
  {
    hide ModeAt, Stripped;
    out := [];
    var i := 0;
    var inString, inChar := false, false;
    ModeAtStart(src);
    while i < |src|
      invariant i <= |src| && out == Stripped(src)[..i] && Flags(src, i, inString, inChar)
    {
      var b := src[i];
      ModeNext(src, i);
      if inString || inChar {
        Kept(src, i);
        out := out + [b];
        if b == BACKSLASH && i + 1 < |src| {
          ModeNext(src, i + 1);
          Kept(src, i + 1);
          out := out + [src[i + 1]];
          i := i + 2;
          continue;
        }
        if (inString && b == QUOTE) || (inChar && b == APOSTROPHE) {
          inString, inChar := false, false;
        }
        i := i + 1;
        continue;
      }
      if b == QUOTE {
        Kept(src, i);
        inString := true;
        out := out + [b];
        i := i + 1;
      } else if CharStarts(src, i) {
        Kept(src, i);
        inChar := true;
        out := out + [b];
        i := i + 1;
      } else if CommentStarts(src, i) {
        ghost var start := i;
        var blanks;
        i, blanks := BlankLine(src, i);
        assert Stripped(src)[..i] == Stripped(src)[..start] + Stripped(src)[start..i];
        out := out + blanks;
      } else {
        Kept(src, i);
        out := out + [b];
        i := i + 1;
      }
    }
    assert Stripped(src)[..|src|] == Stripped(src);
  }

  lemma {:induction false} ModeAtStart(src: seq<Byte>)
    ensures ModeAt(src, 0) == Code
  {
  }

  // ----- what blanking keeps

  /** A comment starts at `s`, and the line goes on to `i`. */
  ghost predicate CommentTo(src: seq<Byte>, s: nat, i: nat)
    requires i < |src|
  {
    s <= i && ModeAt(src, s) == Code && CommentStarts(src, s) && forall k :: s <= k <= i ==> src[k] != NEWLINE
  }

  lemma {:induction false} InCommentFrom(src: seq<Byte>, i: nat) returns (s: nat)
    requires i <= |src| && ModeAt(src, i) == Comment
    ensures s < i && ModeAt(src, s) == Code && CommentStarts(src, s) && forall k :: s <= k < i ==> src[k] != NEWLINE
  {
    if ModeAt(src, i - 1) == Comment {
      s := InCommentFrom(src, i - 1);
    } else {
      s := i - 1;
    }
  }

  lemma {:induction false} CommentGoesOn(src: seq<Byte>, s: nat, i: nat)
    requires i < |src| && CommentTo(src, s, i)
    ensures ModeAt(src, i) == if i == s then Code else Comment
  {
    if i > s {
      CommentGoesOn(src, s, i - 1);
    }
  }

  /** The bytes blanked are exactly those between two slashes read as code and the end of their line. */
  lemma {:induction false} BlankedExactly(src: seq<Byte>, i: nat)
    requires i < |src|
    ensures Blanked(src, i) <==> exists s: nat :: CommentTo(src, s, i)
  {
    hide ModeAt;
    if Blanked(src, i) {
      if ModeAt(src, i) == Comment {
        var s := InCommentFrom(src, i);
        assert CommentTo(src, s, i);
      } else {
        assert CommentTo(src, i, i);
      }
    }
    if s: nat :| CommentTo(src, s, i) {
      CommentGoesOn(src, s, i);
    }
  }

  function Newlines(s: seq<Byte>): nat {
    if s == [] then 0 else Newlines(s[..|s| - 1]) + if s[|s| - 1] == NEWLINE then 1 else 0
  }

  /** The line a byte is on, from 1. */
  function LineOf(src: seq<Byte>, i: nat): nat
    requires i <= |src|
  {
    Newlines(src[..i]) + 1
  }

  /** Every byte stays on its line. */
  lemma {:induction false} LinesKept(src: seq<Byte>, i: nat)
    requires i <= |src|
    ensures LineOf(Stripped(src), i) == LineOf(src, i)
  {
    hide ModeAt;
    if i > 0 {
      LinesKept(src, i - 1);
      assert Stripped(src)[..i][..i - 1] == Stripped(src)[..i - 1] && src[..i][..i - 1] == src[..i - 1];
    }
  }

  /** What a stripped byte is inside of: what it was, with comments read as code. */
  lemma {:induction false} StrippedMode(src: seq<Byte>, i: nat)
    requires i <= |src|
    ensures ModeAt(Stripped(src), i) == if ModeAt(src, i) == Comment then Code else ModeAt(src, i)
  {
    hide ModeAt, Next, Stripped;
    if i == 0 {
      ModeAtStart(src);
      ModeAtStart(Stripped(src));
    } else {
      StrippedMode(src, i - 1);
      ModeNext(src, i - 1);
      ModeNext(Stripped(src), i - 1);
      SameNext(src, i - 1, ModeAt(src, i - 1));
    }
  }

  lemma {:induction false} SameNext(src: seq<Byte>, i: nat, mode: Mode)
    requires i < |src| && ModeAt(src, i) == mode
    ensures Next(Stripped(src), i, if mode == Comment then Code else mode) ==
            if Next(src, i, mode) == Comment then Code else Next(src, i, mode)
  {
  }

  /** A comment starts nowhere in what is stripped, and character literals start where they did. */
  lemma {:induction false} SameLookahead(src: seq<Byte>, i: nat)
    requires i < |src| && ModeAt(src, i) == Code
    ensures !CommentStarts(Stripped(src), i)
    ensures CharStarts(Stripped(src), i) <==> CharStarts(src, i)
  {
  }

  /** Nothing is left to strip. */
  lemma {:induction false} StripIdempotent(src: seq<Byte>)
    ensures Stripped(Stripped(src)) == Stripped(src)
  {
    hide ModeAt;
    var once := Stripped(src);
    forall i | 0 <= i < |src|
      ensures !Blanked(once, i)
    {
      StrippedMode(src, i);
      if ModeAt(src, i) == Code {
        SameLookahead(src, i);
      }
    }
  }

  // ----- characters

  predicate Continuation(b: Byte) {
    0x80 <= b <= 0xBF
  }

  /** How many bytes the character at the front takes; 0 when they are no well-formed character. */
  function CharLength(s: seq<Byte>): nat {
    if s == [] then 0
    else if s[0] < 0x80 then 1
    else if 0xC2 <= s[0] <= 0xDF && |s| >= 2 && Continuation(s[1]) then 2
    else if 0xE0 <= s[0] <= 0xEF && |s| >= 3 && Continuation(s[1]) && Continuation(s[2])
            && (s[0] == 0xE0 ==> s[1] >= 0xA0) && (s[0] == 0xED ==> s[1] <= 0x9F) then 3
    else if 0xF0 <= s[0] <= 0xF4 && |s| >= 4 && Continuation(s[1]) && Continuation(s[2]) && Continuation(s[3])
            && (s[0] == 0xF0 ==> s[1] >= 0x90) && (s[0] == 0xF4 ==> s[1] <= 0x8F) then 4
    else 0
  }

  predicate Utf8(s: seq<Byte>) {
    s == [] || (0 < CharLength(s) <= |s| && Utf8(s[CharLength(s)..]))
  }

  /** A byte outside ASCII is blanked exactly when the byte before it is. */
  lemma {:induction false} BlankedTogether(src: seq<Byte>, i: nat)
    requires 0 < i < |src| && src[i] >= 0x80 && src[i - 1] >= 0x80
    ensures Blanked(src, i) <==> Blanked(src, i - 1)
  {
  }

  lemma {:induction false} Spaces(s: seq<Byte>, n: nat)
    requires n <= |s| && (forall i :: 0 <= i < n ==> s[i] == SPACE) && Utf8(s[n..])
    ensures Utf8(s)
  {
    if n == 0 {
      assert s[0..] == s;
    } else {
      assert s[1..][n - 1..] == s[n..];
      Spaces(s[1..], n - 1);
    }
  }

  /** A character is blanked whole or not at all. */
  lemma {:induction false} CharacterWhole(src: seq<Byte>, i: nat)
    requires i < |src| && CharLength(src[i..]) > 0
    ensures i + CharLength(src[i..]) <= |src|
    ensures forall j :: i <= j < i + CharLength(src[i..]) ==> (Blanked(src, j) <==> Blanked(src, i))
  {
    hide ModeAt, Blanked;
    var s := src[i..];
    var n := CharLength(s);
    if n > 1 {
      assert s[1] == src[i + 1];
      BlankedTogether(src, i + 1);
    }
    if n > 2 {
      assert s[2] == src[i + 2];
      BlankedTogether(src, i + 2);
    }
    if n > 3 {
      assert s[3] == src[i + 3];
      BlankedTogether(src, i + 3);
    }
  }

  lemma {:induction false} SameCharacter(s: seq<Byte>, out: seq<Byte>)
    requires 0 < CharLength(s) <= |out| && out[..CharLength(s)] == s[..CharLength(s)] && |s| == |out|
    requires Utf8(out[CharLength(s)..])
    ensures Utf8(out)
  {
  }

  /** No character is cut: text stays text, so what was stripped is what is answered. */
  lemma {:induction false} StaysText(src: seq<Byte>, i: nat)
    requires i <= |src| && Utf8(src[i..])
    ensures Utf8(Stripped(src)[i..])
    decreases |src| - i
  {
    hide ModeAt, Blanked, CharLength, Stripped;
    if i < |src| {
      var s, out := src[i..], Stripped(src)[i..];
      var n := CharLength(s);
      assert s[n..] == src[i + n..] && out[n..] == Stripped(src)[i + n..];
      StaysText(src, i + n);
      CharacterWhole(src, i);
      forall k | 0 <= k < n
        ensures out[k] == if Blanked(src, i) then SPACE else s[k]
      {
        var j := i + k;
        assert Blanked(src, j) <==> Blanked(src, i);
        assert out[k] == Stripped(src)[j] && s[k] == src[j];
      }
      if Blanked(src, i) {
        Spaces(out, n);
      } else {
        assert out[..n] == s[..n];
        SameCharacter(s, out);
      }
    }
  }

  // ----- parentheses

  /** Where a reading from an opening parenthesis stands: how many are open, and whether inside a string literal. */
  datatype Scan = Scan(depth: int, inString: bool, escaped: bool)

  function ScanNext(s: Scan, b: Byte): Scan {
    if s.escaped then s.(escaped := false)
    else if s.inString then
      if b == BACKSLASH then s.(escaped := true) else if b == QUOTE then s.(inString := false) else s
    else if b == QUOTE then s.(inString := true)
    else if b == OPENING then s.(depth := s.depth + 1)
    else if b == CLOSING then s.(depth := s.depth - 1)
    else s
  }

  /** The reading of a whole slice. */
  function Scanned(slice: seq<Byte>): Scan {
    if slice == [] then Scan(0, false, false) else ScanNext(Scanned(slice[..|slice| - 1]), slice[|slice| - 1])
  }

  /** A slice whose parentheses outside string literals balance, and which ends outside one. */
  predicate Balances(slice: seq<Byte>) {
    Scanned(slice).depth == 0 && !Scanned(slice).inString
  }

  /** `end` closes the parenthesis at `open`: what is between them balances. */
  predicate Closes(src: seq<Byte>, open: nat, end: nat) {
    open < end < |src| && src[end] == CLOSING && Balances(src[open + 1..end])
  }

  /** The reading from the parenthesis itself is one deeper than that of what is inside. */
  lemma {:induction false} OneDeeper(src: seq<Byte>, open: nat, i: nat)
    requires open < i <= |src| && src[open] == OPENING
    ensures var inside, from := Scanned(src[open + 1..i]), Scanned(src[open..i]);
            from == inside.(depth := inside.depth + 1)
  {
    if i == open + 1 {
      assert src[open..i] == [OPENING] && src[open..i][..0] == [];
      assert src[open + 1..i] == [];
    } else {
      OneDeeper(src, open, i - 1);
      assert src[open..i][..i - open - 1] == src[open..i - 1];
      assert src[open + 1..i][..i - open - 2] == src[open + 1..i - 1];
    }
  }

  lemma {:induction false} ScansOn(src: seq<Byte>, open: nat, i: nat)
    requires open <= i < |src|
    ensures Scanned(src[open..i + 1]) == ScanNext(Scanned(src[open..i]), src[i])
  {
    assert src[open..i + 1][..i - open] == src[open..i];
  }

  /**
   What one pair of parentheses holds, from the byte after its opening one:
   the shortest stretch that balances by itself and is followed by a closing
   one. None when no parenthesis is at `open`, or it is never closed.
   */
  method Balanced(src: seq<Byte>, open: nat) returns (r: Option<seq<Byte>>)
    ensures r.Some? <==> At(src, open, OPENING) && exists end: nat :: Closes(src, open, end)
    ensures r.Some? ==> Closes(src, open, open + 1 + |r.value|) && r.value == src[open + 1..open + 1 + |r.value|]
    ensures r.Some? ==> forall end: nat :: Closes(src, open, end) ==> |r.value| <= end - open - 1
  {
    if !At(src, open, OPENING) {
      return None;
    }
    hide Scanned;
    var depth: nat := 0;
    var inString := false;
    var i := open;
    ScannedNothing(src, open);
    while i < |src|
      invariant open <= i <= |src| + 1
      invariant i <= |src| ==> Scanned(src[open..i]) == Scan(depth, inString, false)
      invariant i > open ==> depth >= 1
      invariant forall end: nat :: end < i ==> !Closes(src, open, end)
    {
      var b := src[i];
      ScansOn(src, open, i);
      if i > open {
        OneDeeper(src, open, i);
      }
      if inString {
        if b == BACKSLASH {
          if i + 1 < |src| {
            ScansOn(src, open, i + 1);
            OneDeeper(src, open, i + 1);
          }
          i := i + 2;
          continue;
        }
        if b == QUOTE {
          inString := false;
        }
        i := i + 1;
        continue;
      }
      if b == QUOTE {
        inString := true;
      } else if b == OPENING {
        depth := depth + 1;
      } else if b == CLOSING {
        depth := depth - 1;
        if depth == 0 {
          assert Closes(src, open, i);
          return Some(src[open + 1..i]);
        }
      }
      i := i + 1;
    }
    r := None;
  }

  lemma {:induction false} ScannedNothing(src: seq<Byte>, open: nat)
    requires open < |src|
    ensures Scanned(src[open..open]) == Scan(0, false, false)
  {
  }
}
