/**
 Rust source as Rust reads it, string and raw string literals, character
 literals and comments of both kinds, and where the two flags of the comment
 stripper read it otherwise.
 */
module RustReading {
  import opened ApiContract

  const HASH: Byte := 35
  const STAR: Byte := 42

  /**
   What a byte is inside of. In code, `word` says that the byte before it
   belongs to a word, a lifetime or a literal, so that no prefix starts here.
   An opening or closing sequence of several bytes counts those still to come.
   */
  datatype Reading =
    | Plain(word: bool)
    | Text
    | EscapedText
    | Raw(hashes: nat)
    | RawOpening(left: nat, hashes: nat)
    | RawClosing(left: nat)
    | Char
    | EscapedChar
    | Line
    | Block(depth: nat)
    | BlockOpening(depth: nat)   // at the star of an opening `/*`, `depth` comments deep before it
    | BlockClosing(depth: nat)   // at the slash of a closing `*/`, `depth` comments deep before it

  /** A byte of a word: a letter, a digit, an underscore or part of a character outside ASCII. */
  predicate OfWord(b: Byte) {
    48 <= b <= 57 || 65 <= b <= 90 || b == 95 || 97 <= b <= 122 || b >= 0x80
  }

  /** The hashes from `i` on. */
  function Hashes(src: seq<Byte>, i: nat): (n: nat)
    ensures i <= |src| ==> i + n <= |src|
    decreases |src| - i
  {
    if At(src, i, HASH) then 1 + Hashes(src, i + 1) else 0
  }

  /** How long the prefix of a raw string is here: `r`, `br` or `cr`, before any hashes and a quote; 0 when none starts. */
  function RawPrefix(src: seq<Byte>, i: nat): (n: nat) {
    if At(src, i, 114) && At(src, i + 1 + Hashes(src, i + 1), QUOTE) then 1
    else if (At(src, i, 98) || At(src, i, 99)) && At(src, i + 1, 114) && At(src, i + 2 + Hashes(src, i + 2), QUOTE) then 2
    else 0
  }

  /**
   A character literal starts here: after the quote comes an escape, or one
   character and a quote; a lifetime has neither.
   */
  predicate LiteralStarts(src: seq<Byte>, i: nat) {
    || CharStarts(src, i)
    || (At(src, i, APOSTROPHE) && At(src, i + 1, BACKSLASH))
    || (At(src, i, APOSTROPHE) && i + 1 < |src| && At(src, i + 1 + CharLength(src[i + 1..]), APOSTROPHE)
        && CharLength(src[i + 1..]) > 1)
  }

  predicate BlockStarts(src: seq<Byte>, i: nat) {
    At(src, i, SLASH) && At(src, i + 1, STAR)
  }

  predicate BlockEnds(src: seq<Byte>, i: nat) {
    At(src, i, STAR) && At(src, i + 1, SLASH)
  }

  /** The quote here ends a raw string that opened with `hashes`. */
  predicate RawEnds(src: seq<Byte>, i: nat, hashes: nat) {
    At(src, i, QUOTE) && Hashes(src, i + 1) >= hashes
  }

  function InCode(src: seq<Byte>, i: nat, word: bool): Reading
    requires i < |src|
  {
    var b := src[i];
    var prefix := RawPrefix(src, i);
    if b == QUOTE then Text
    else if !word && prefix > 0 then
      var hashes := Hashes(src, i + prefix);
      RawOpening(prefix + hashes, hashes)
    else if LiteralStarts(src, i) then Char
    else if CommentStarts(src, i) then Line
    else if BlockStarts(src, i) then BlockOpening(0)
    else Plain(OfWord(b) || b == APOSTROPHE)
  }

  /** What the byte after `i` is inside of, when byte `i` is inside `at`. */
  function ReadNext(src: seq<Byte>, i: nat, at: Reading): Reading
    requires i < |src|
  {
    var b := src[i];
    match at
    case Plain(word) => InCode(src, i, word)
    case Text => if b == BACKSLASH then EscapedText else if b == QUOTE then Plain(true) else Text
    case EscapedText => Text
    case RawOpening(left, hashes) => if left <= 1 then Raw(hashes) else RawOpening(left - 1, hashes)
    case Raw(hashes) =>
      if !RawEnds(src, i, hashes) then at else if hashes == 0 then Plain(true) else RawClosing(hashes)
    case RawClosing(left) => if left <= 1 then Plain(true) else RawClosing(left - 1)
    case Char => if b == BACKSLASH then EscapedChar else if b == APOSTROPHE then Plain(true) else Char
    case EscapedChar => Char
    case Line => if b == NEWLINE then Plain(false) else Line
    case Block(depth) => if BlockStarts(src, i) then BlockOpening(depth) else if BlockEnds(src, i) then BlockClosing(depth) else at
    case BlockOpening(depth) => Block(depth + 1)
    case BlockClosing(depth) => if depth <= 1 then Plain(false) else Block(depth - 1)
  }

  /** What byte `i` is inside of, as Rust reads the source. */
  function ReadAt(src: seq<Byte>, i: nat): Reading
    requires i <= |src|
  {
    if i == 0 then Plain(false) else ReadNext(src, i - 1, ReadAt(src, i - 1))
  }

  // ----- where the flags read otherwise

  /** What the flags tell apart: strings, characters, line comments and all the rest. */
  datatype Inside = AString | AChar | ALineComment | Elsewhere

  function ByFlags(mode: Mode): Inside {
    match mode
    case InString => AString
    case EscapedInString => AString
    case InChar => AChar
    case EscapedInChar => AChar
    case Comment => ALineComment
    case Code => Elsewhere
  }

  function ByRust(at: Reading): Inside {
    match at
    case Text => AString
    case EscapedText => AString
    case Raw(_) => AString
    case Char => AChar
    case EscapedChar => AChar
    case Line => ALineComment
    case _ => Elsewhere
  }

  /**
   The flags go wrong at byte `i`:
   at a character literal that is an escape, or a character of several bytes;
   at a quote inside a raw string that does not end it;
   at the end of a raw string whose quote they take for escaped;
   and inside a block comment at whatever they take for a string, a character or a comment.
   */
  predicate Missed(src: seq<Byte>, i: nat)
    requires i < |src|
  {
    match ReadAt(src, i)
    case Plain(word) => ByRust(InCode(src, i, word)) == AChar && !CharStarts(src, i)
    case Raw(hashes) => if ModeAt(src, i) == EscapedInString then RawEnds(src, i, hashes) else src[i] == QUOTE && !RawEnds(src, i, hashes)
    case Block(_) => src[i] == QUOTE || CharStarts(src, i) || CommentStarts(src, i)
    case BlockClosing(_) => CommentStarts(src, i)
    case _ => false
  }

  /** The flags and Rust are in step. */
  predicate InStep(mode: Mode, at: Reading) {
    match at
    case Text => mode == InString
    case EscapedText => mode == EscapedInString
    case Raw(_) => mode == InString || mode == EscapedInString
    case Char => mode == InChar
    case EscapedChar => mode == EscapedInChar
    case Line => mode == Comment
    case _ => mode == Code
  }

  ghost predicate AgreeTo(src: seq<Byte>, n: nat)
    requires n <= |src|
  {
    forall i :: 0 <= i <= n ==> ByFlags(ModeAt(src, i)) == ByRust(ReadAt(src, i))
  }

  /** The bytes of an opening or closing sequence are what they are counted as. */
  predicate Sequenced(src: seq<Byte>, i: nat, at: Reading) {
    match at
    case RawOpening(left, _) =>
      && 1 <= left && i + left <= |src| && src[i + left - 1] == QUOTE
      && forall k :: i <= k < i + left - 1 ==> src[k] == HASH || src[k] == 114
    case RawClosing(left) => 1 <= left && i + left <= |src| && forall k :: i <= k < i + left ==> src[k] == HASH
    case BlockOpening(_) => At(src, i, STAR)
    case BlockClosing(_) => At(src, i, SLASH)
    case _ => true
  }

  lemma {:induction false} HashesAre(src: seq<Byte>, i: nat, n: nat)
    requires n <= Hashes(src, i) && i <= |src|
    ensures i + n <= |src| && forall k :: i <= k < i + n ==> src[k] == HASH
    decreases n
  {
    if n > 0 {
      HashesAre(src, i + 1, n - 1);
    }
  }

  lemma {:induction false} SequencedNext(src: seq<Byte>, i: nat, at: Reading)
    requires i < |src| && Sequenced(src, i, at)
    ensures Sequenced(src, i + 1, ReadNext(src, i, at))
  {
    hide LiteralStarts;
    match at
    case Plain(word) =>
      var prefix := RawPrefix(src, i);
      if prefix > 0 {
        HashesAre(src, i + prefix, Hashes(src, i + prefix));
      }
    case Raw(hashes) =>
      if RawEnds(src, i, hashes) {
        HashesAre(src, i + 1, hashes);
      }
    case _ =>
  }

  lemma {:induction false} SequencedAt(src: seq<Byte>, i: nat)
    requires i <= |src|
    ensures Sequenced(src, i, ReadAt(src, i))
  {
    if i > 0 {
      SequencedAt(src, i - 1);
      SequencedNext(src, i - 1, ReadAt(src, i - 1));
    }
  }

  /** In step, the next byte is read alike exactly when nothing is missed, and the two stay in step. */
  lemma {:induction false} StepsOn(src: seq<Byte>, i: nat)
    requires i < |src| && InStep(ModeAt(src, i), ReadAt(src, i))
    ensures Missed(src, i) ==> ByFlags(ModeAt(src, i + 1)) != ByRust(ReadAt(src, i + 1))
    ensures !Missed(src, i) ==> InStep(ModeAt(src, i + 1), ReadAt(src, i + 1))
  {
    SequencedAt(src, i);
    ModeNext(src, i);
    hide LiteralStarts, Hashes, RawPrefix;
  }

  lemma {:induction false} AgreesTo(src: seq<Byte>, n: nat)
    requires n <= |src|
    ensures AgreeTo(src, n) <==> forall i :: 0 <= i < n ==> !Missed(src, i)
    ensures AgreeTo(src, n) ==> InStep(ModeAt(src, n), ReadAt(src, n))
  {
    hide Missed, InStep;
    if n > 0 {
      AgreesTo(src, n - 1);
      if AgreeTo(src, n - 1) {
        StepsOn(src, n - 1);
        StepMeansSame(ModeAt(src, n), ReadAt(src, n));
      }
    } else {
      StartsInStep(src);
    }
  }

  lemma {:induction false} StepMeansSame(mode: Mode, at: Reading)
    ensures InStep(mode, at) ==> ByFlags(mode) == ByRust(at)
  {
  }

  lemma {:induction false} StartsInStep(src: seq<Byte>)
    ensures InStep(ModeAt(src, 0), ReadAt(src, 0))
  {
  }

  /**
   The flags find every byte in the string, character or line comment Rust
   finds it in, or in none, exactly when they miss nothing.
   */
  lemma {:induction false} FlagsAgree(src: seq<Byte>)
    ensures AgreeTo(src, |src|) <==> forall i :: 0 <= i < |src| ==> !Missed(src, i)
  {
    AgreesTo(src, |src|);
  }

  /** The byte belongs to a line comment, as Rust reads the source. */
  predicate OfLineComment(src: seq<Byte>, i: nat)
    requires i < |src|
  {
    || (ReadAt(src, i).Plain? && InCode(src, i, ReadAt(src, i).word) == Line)
    || (ReadAt(src, i) == Line && src[i] != NEWLINE)
  }

  /** Where nothing is missed, what is stripped is Rust's line comments, all of them and nothing else. */
  lemma {:induction false} StripsLineComments(src: seq<Byte>, i: nat)
    requires i < |src| && forall k :: 0 <= k < |src| ==> !Missed(src, k)
    ensures Blanked(src, i) <==> OfLineComment(src, i)
  {
    AgreesTo(src, |src|);
    AgreesTo(src, i);
    SequencedAt(src, i);
    StepsOn(src, i);
    ModeNext(src, i);
    assert !Missed(src, i);
    hide LiteralStarts, Hashes, RawPrefix, ModeAt, ReadAt;
  }

  // ----- what is missed

  lemma {:induction false} ReadsOn(src: seq<Byte>, i: nat)
    requires i < |src|
    ensures ReadAt(src, 0) == Plain(false)
    ensures ReadAt(src, i + 1) == ReadNext(src, i, ReadAt(src, i))
  {
  }

  /** Where there is no quote there is no character literal, and where there is no hash no run of them. */
  lemma {:induction false} NothingStarts(src: seq<Byte>, i: nat)
    ensures !At(src, i, APOSTROPHE) ==> !LiteralStarts(src, i)
    ensures !At(src, i, HASH) ==> Hashes(src, i) == 0
  {
    hide CharLength;
  }

  /** `'\"';//x` */
  function EscapedQuote(): seq<Byte> {
    [APOSTROPHE, BACKSLASH, QUOTE, APOSTROPHE, 59, SLASH, SLASH, 120]
  }

  lemma {:induction false} EscapedQuoteReads()
    ensures var src := EscapedQuote();
            && ReadAt(src, 0) == Plain(false) && ReadAt(src, 1) == Char && ReadAt(src, 2) == EscapedChar
            && ReadAt(src, 3) == Char && ReadAt(src, 4) == Plain(true) && ReadAt(src, 5) == Plain(false)
  {
    var src := EscapedQuote();
    hide ReadAt, CharLength, Hashes;
    ReadsOn(src, 0); ReadsOn(src, 1); ReadsOn(src, 2); ReadsOn(src, 3); ReadsOn(src, 4);
  }

  /** The quote in an escaped character literal opens a string, and the comment after it stays. */
  lemma {:induction false} EscapedQuoteOpens()
    ensures var src := EscapedQuote();
            && Missed(src, 0) && OfLineComment(src, 5) && ModeAt(src, 5) == InString && Stripped(src) == src
  {
    var src := EscapedQuote();
    hide ModeAt, ReadAt, CharLength, Hashes, Stripped;
    EscapedQuoteReads();
    ModeAtStart(src); ModeNext(src, 0); ModeNext(src, 1); ModeNext(src, 2);
    NothingStarts(src, 5);
    assert ModeAt(src, 1) == Code && ModeAt(src, 2) == Code && ModeAt(src, 3) == InString;
    StringStays(src, 3);
  }

  /** What follows in a string the flags do not leave stays as it is. */
  lemma {:induction false} StringStays(src: seq<Byte>, n: nat)
    requires n <= |src| && ModeAt(src, n) == InString
    requires forall k :: 0 <= k < n ==> !Blanked(src, k)
    requires forall k :: n <= k < |src| ==> src[k] != QUOTE && src[k] != BACKSLASH
    ensures Stripped(src) == src
    ensures forall k :: n <= k <= |src| ==> ModeAt(src, k) == InString
    decreases |src| - n
  {
    hide ModeAt;
    if n < |src| {
      ModeNext(src, n);
      StringStays(src, n + 1);
    } else {
      assert forall k :: 0 <= k < |src| ==> Stripped(src)[k] == src[k];
    }
  }

  /** `r"\";//x` */
  function RawBackslash(): seq<Byte> {
    [114, QUOTE, BACKSLASH, QUOTE, 59, SLASH, SLASH, 120]
  }

  lemma {:induction false} RawBackslashReads()
    ensures var src := RawBackslash();
            && ReadAt(src, 0) == Plain(false) && ReadAt(src, 1) == RawOpening(1, 0) && ReadAt(src, 2) == Raw(0)
            && ReadAt(src, 3) == Raw(0) && ReadAt(src, 4) == Plain(true) && ReadAt(src, 5) == Plain(false)
  {
    var src := RawBackslash();
    hide ReadAt, LiteralStarts, Hashes;
    NothingStarts(src, 1); NothingStarts(src, 4);
    ReadsOn(src, 0); ReadsOn(src, 1); ReadsOn(src, 2); ReadsOn(src, 3); ReadsOn(src, 4);
  }

  /** A backslash that ends a raw string is taken to escape its quote, and the comment after it stays. */
  lemma {:induction false} RawBackslashStays()
    ensures var src := RawBackslash();
            && Missed(src, 3) && OfLineComment(src, 5) && ModeAt(src, 5) == InString && Stripped(src) == src
  {
    var src := RawBackslash();
    hide ModeAt, ReadAt, LiteralStarts, Hashes, Stripped;
    RawBackslashReads();
    ModeAtStart(src); ModeNext(src, 0); ModeNext(src, 1); ModeNext(src, 2); ModeNext(src, 3);
    NothingStarts(src, 4); NothingStarts(src, 5);
    assert ModeAt(src, 1) == Code && ModeAt(src, 2) == InString && ModeAt(src, 3) == EscapedInString && ModeAt(src, 4) == InString;
    StringStays(src, 4);
  }

  /** A block comment holding a quote, and a line comment after it. */
  function BlockQuote(): seq<Byte> {
    [SLASH, STAR, QUOTE, STAR, SLASH, SPACE, SLASH, SLASH, 120]
  }

  lemma {:induction false} BlockQuoteReads()
    ensures var src := BlockQuote();
            && ReadAt(src, 0) == Plain(false) && ReadAt(src, 1) == BlockOpening(0) && ReadAt(src, 2) == Block(1)
            && ReadAt(src, 3) == Block(1) && ReadAt(src, 4) == BlockClosing(1) && ReadAt(src, 5) == Plain(false)
            && ReadAt(src, 6) == Plain(false)
  {
    var src := BlockQuote();
    hide ReadAt, LiteralStarts, Hashes;
    NothingStarts(src, 0); NothingStarts(src, 5);
    ReadsOn(src, 0); ReadsOn(src, 1); ReadsOn(src, 2); ReadsOn(src, 3); ReadsOn(src, 4); ReadsOn(src, 5);
  }

  /** A quote in a block comment opens a string, and the line comment after it stays. */
  lemma {:induction false} BlockQuoteOpens()
    ensures var src := BlockQuote();
            && Missed(src, 2) && OfLineComment(src, 6) && ModeAt(src, 6) == InString && Stripped(src) == src
  {
    var src := BlockQuote();
    hide ModeAt, ReadAt, LiteralStarts, Hashes, Stripped;
    BlockQuoteReads();
    ModeAtStart(src); ModeNext(src, 0); ModeNext(src, 1); ModeNext(src, 2);
    NothingStarts(src, 6);
    assert ModeAt(src, 1) == Code && ModeAt(src, 2) == Code && ModeAt(src, 3) == InString;
    StringStays(src, 3);
  }

  /** A block comment holding two slashes, and code after it. */
  function BlockSlashes(): seq<Byte> {
    [SLASH, STAR, SLASH, SLASH, SPACE, STAR, SLASH, 120]
  }

  lemma {:induction false} BlockSlashesRead()
    ensures var src := BlockSlashes();
            && ReadAt(src, 0) == Plain(false) && ReadAt(src, 1) == BlockOpening(0) && ReadAt(src, 2) == Block(1)
            && ReadAt(src, 3) == Block(1) && ReadAt(src, 4) == Block(1) && ReadAt(src, 5) == Block(1)
            && ReadAt(src, 6) == BlockClosing(1) && ReadAt(src, 7) == Plain(false)
  {
    var src := BlockSlashes();
    hide ReadAt, LiteralStarts, Hashes;
    NothingStarts(src, 0);
    ReadsOn(src, 0); ReadsOn(src, 1); ReadsOn(src, 2); ReadsOn(src, 3); ReadsOn(src, 4); ReadsOn(src, 5); ReadsOn(src, 6);
  }

  /** Two slashes in a block comment blank the code after it, to the end of the line. */
  lemma {:induction false} BlockSlashesBlank()
    ensures var src := BlockSlashes();
            && Missed(src, 2) && ReadAt(src, 7) == Plain(false) && !OfLineComment(src, 7)
            && Blanked(src, 7) && Stripped(src)[7] == SPACE
  {
    var src := BlockSlashes();
    hide ModeAt, ReadAt, LiteralStarts, Hashes;
    BlockSlashesRead();
    NothingStarts(src, 7);
    ModeAtStart(src); ModeNext(src, 0); ModeNext(src, 1);
    assert ModeAt(src, 1) == Code && ModeAt(src, 2) == Code;
    assert CommentTo(src, 2, 7);
    CommentGoesOn(src, 2, 7);
  }
}
