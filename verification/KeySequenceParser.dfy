// The parser of a binding's key text: tokens, the leader, and the dash form it
// refuses (crates/koshi-config/src/key_sequence.rs). What one token names, and
// what counts as whitespace or alphanumeric, are the grammar's.
module KeySequenceParser {
  import opened Options

  datatype Modifier = Shift | Control | Alt | Super
  datatype Key = CharKey(character: char) | NamedKey(name: string)
  datatype ParsedChord = ParsedChord(modifiers: set<Modifier>, key: Key)

  datatype ErrorKind =
    | Empty
    | UnbracketedMultiChar
    | UnclosedBracket
    | MissingKey
    | LeaderNotFirst
    | DanglingLeaderModifiers
    | SequenceTooLong(chordCount: nat, maximumChordDepth: nat)
    | OtherKind(code: nat)

  datatype ParseError = ParseError(token: string, kind: ErrorKind)

  datatype Result<+T> = Ok(value: T) | Err(error: ParseError)

  datatype Leader = LeaderChord(chord: ParsedChord) | LeaderModifiers(modifiers: set<Modifier>)

  datatype Grammar = Grammar(
    parseChord: string -> Result<ParsedChord>,
    finishCharacter: (string, set<Modifier>, char) -> Result<ParsedChord>,
    isWhitespace: char -> bool,
    isAlphanumeric: char -> bool)

  // ---------------------------------------------------------------------
  // Text
  // ---------------------------------------------------------------------

  function Find(text: string, character: char): (index: Option<nat>)
    ensures index.Some? ==> index.value < |text| && text[index.value] == character
  {
    if text == [] then None
    else if text[0] == character then Some(0)
    else match Find(text[1..], character) case Some(index) => Some(index + 1) case None => None
  }

  function TrimStart(grammar: Grammar, text: string): (trimmed: string)
    ensures |trimmed| <= |text|
  {
    if text != [] && grammar.isWhitespace(text[0]) then TrimStart(grammar, text[1..]) else text
  }

  function WordLength(grammar: Grammar, text: string): (length: nat)
    ensures length <= |text|
    ensures text != [] && !grammar.isWhitespace(text[0]) ==> length > 0
  {
    if text == [] || grammar.isWhitespace(text[0]) then 0 else 1 + WordLength(grammar, text[1..])
  }

  function Words(grammar: Grammar, text: string): seq<string>
    decreases |text|
  {
    if text == [] then []
    else if grammar.isWhitespace(text[0]) then Words(grammar, text[1..])
    else
      var length := WordLength(grammar, text);
      [text[..length]] + Words(grammar, text[length..])
  }

  predicate HasDashBetweenAlphanumerics(grammar: Grammar, fragment: string) {
    exists i :: 0 <= i < |fragment| - 2
      && grammar.isAlphanumeric(fragment[i]) && fragment[i + 1] == '-' && grammar.isAlphanumeric(fragment[i + 2])
  }

  predicate IsDashForm(grammar: Grammar, word: string)
    decreases |word|
  {
    match Find(word, '<')
    case None => HasDashBetweenAlphanumerics(grammar, word)
    case Some(open) =>
      || HasDashBetweenAlphanumerics(grammar, word[..open])
      || match Find(word[open..], '>')
         case None => false
         case Some(close) => IsDashForm(grammar, word[open + close + 1..])
  }

  function FirstDashWord(grammar: Grammar, words: seq<string>): Option<string> {
    if words == [] then None
    else if IsDashForm(grammar, words[0]) then Some(words[0])
    else FirstDashWord(grammar, words[1..])
  }

  // ---------------------------------------------------------------------
  // Tokens
  // ---------------------------------------------------------------------

  datatype Token = Token(text: string, rest: string)

  // The next token and what follows it. A token is a non-empty prefix.
  function SplitKeyToken(text: string): (token: Result<Token>)
    requires text != []
    ensures token.Ok? ==> token.value.text != [] && token.value.text + token.value.rest == text
  {
    if text[0] == '<' then
      match Find(text[1..], '>')
      case Some(close) => Ok(Token(text[..close + 2], text[close + 2..]))
      case None => Err(ParseError(text, UnclosedBracket))
    else Ok(Token(text[..1], text[1..]))
  }

  function LowerAscii(character: char): char {
    if 'A' <= character <= 'Z' then character - 'A' + 'a' else character
  }

  function LowerText(text: string): (lowered: string)
    ensures |lowered| == |text|
  {
    seq(|text|, i requires 0 <= i < |text| => LowerAscii(text[i]))
  }

  const LEADER_NAME := "leader"

  predicate IsLeaderToken(token: string) {
    |token| >= 2 && token[0] == '<' && token[|token| - 1] == '>' && LowerText(token[1..|token| - 1]) == LEADER_NAME
  }

  datatype ReadChord = ReadChord(chord: ParsedChord, token: string, rest: string)

  // The chord a token names. When it names no key, and is not `<>`, and a `>`
  // follows, the token takes that `>` in and is read again.
  function ReadToken(grammar: Grammar, token: Token): (read: Result<ReadChord>)
    ensures read.Ok? ==> read.value.token + read.value.rest == token.text + token.rest && token.text <= read.value.token
  {
    match grammar.parseChord(token.text)
    case Ok(chord) => Ok(ReadChord(chord, token.text, token.rest))
    case Err(error) =>
      if error.kind == MissingKey && token.text != "<>" && token.rest != [] && token.rest[0] == '>' then
        match grammar.parseChord(token.text + ">")
        case Ok(chord) => Ok(ReadChord(chord, token.text + ">", token.rest[1..]))
        case Err(second) => Err(second)
      else Err(error)
  }

  function MergeLeaderModifiers(grammar: Grammar, token: string, modifiers: set<Modifier>, chord: ParsedChord): Result<ParsedChord> {
    var merged := chord.modifiers + modifiers;
    match chord.key
    case CharKey(character) => grammar.finishCharacter(token, merged, character)
    case NamedKey(_) => Ok(chord.(modifiers := merged))
  }

  // The chords so far, the leader's modifiers that wait for a chord, and the
  // text left.
  datatype Progress = Progress(chords: seq<ParsedChord>, pending: set<Modifier>, rest: string)

  function AddChord(grammar: Grammar, chords: seq<ParsedChord>, pending: set<Modifier>, read: ReadChord): Result<Progress> {
    if pending == {} then Ok(Progress(chords + [read.chord], {}, read.rest))
    else
      match MergeLeaderModifiers(grammar, read.token, pending, read.chord)
      case Ok(merged) => Ok(Progress(chords + [merged], {}, read.rest))
      case Err(error) => Err(error)
  }

  function TakeLeader(leader: Leader, chords: seq<ParsedChord>, pending: set<Modifier>, rest: string): Progress {
    match leader
    case LeaderChord(chord) => Progress(chords + [chord], pending, rest)
    case LeaderModifiers(modifiers) => Progress(chords, modifiers, rest)
  }

  function TakeToken(grammar: Grammar, leader: Leader, progress: Progress, isFirst: bool): (taken: Result<Progress>)
    requires progress.rest != []
    ensures taken.Ok? ==> |taken.value.rest| < |progress.rest|
  {
    match SplitKeyToken(progress.rest)
    case Err(error) => Err(error)
    case Ok(token) =>
      if IsLeaderToken(token.text) then
        if isFirst then Ok(TakeLeader(leader, progress.chords, progress.pending, token.rest))
        else Err(ParseError(token.text, LeaderNotFirst))
      else
        match ReadToken(grammar, token)
        case Err(error) => Err(error)
        case Ok(read) => AddChord(grammar, progress.chords, progress.pending, read)
  }

  // The loop over the tokens of text with no whitespace before it.
  function TakeTokens(grammar: Grammar, leader: Leader, progress: Progress, isFirst: bool): Result<Progress>
    decreases |progress.rest|
  {
    if progress.rest == [] then Ok(progress)
    else
      match TakeToken(grammar, leader, progress, isFirst)
      case Err(error) => Err(error)
      case Ok(taken) => TakeTokens(grammar, leader, taken.(rest := TrimStart(grammar, taken.rest)), false)
  }

  function FinishSequence(text: string, progress: Progress, maximumChordDepth: nat): Result<seq<ParsedChord>> {
    if progress.pending != {} then Err(ParseError(text, DanglingLeaderModifiers))
    else if progress.chords == [] then Err(ParseError(text, Empty))
    else if |progress.chords| > maximumChordDepth then Err(ParseError(text, SequenceTooLong(|progress.chords|, maximumChordDepth)))
    else Ok(progress.chords)
  }

  // What `ParseSequence` computes.
  function ParseResult(grammar: Grammar, text: string, leader: Leader, maximumChordDepth: nat): Result<seq<ParsedChord>> {
    match FirstDashWord(grammar, Words(grammar, text))
    case Some(word) => Err(ParseError(word, UnbracketedMultiChar))
    case None =>
      match TakeTokens(grammar, leader, Progress([], {}, TrimStart(grammar, text)), true)
      case Err(error) => Err(error)
      case Ok(progress) => FinishSequence(text, progress, maximumChordDepth)
  }

  // ---------------------------------------------------------------------
  // The loops
  // ---------------------------------------------------------------------

  method FindDashForm(grammar: Grammar, word: string) returns (isDashForm: bool)
    ensures isDashForm == IsDashForm(grammar, word)
  {
    var remaining := word;
    while Find(remaining, '<').Some?
      invariant IsDashForm(grammar, remaining) == IsDashForm(grammar, word)
      decreases |remaining|
    {
      var open := Find(remaining, '<').value;
      if HasDashBetweenAlphanumerics(grammar, remaining[..open]) {
        return true;
      }
      var close := Find(remaining[open..], '>');
      if close.None? {
        return false;
      }
      remaining := remaining[open + close.value + 1..];
    }
    isDashForm := HasDashBetweenAlphanumerics(grammar, remaining);
  }

  method ParseSequence(grammar: Grammar, text: string, leader: Leader, maximumChordDepth: nat) returns (parsed: Result<seq<ParsedChord>>)
    ensures parsed == ParseResult(grammar, text, leader, maximumChordDepth)
  {
    var words := Words(grammar, text);
    for i := 0 to |words|
      invariant FirstDashWord(grammar, words) == FirstDashWord(grammar, words[i..])
    {
      assert words[i..][0] == words[i] && words[i..][1..] == words[i + 1..];
      var isDashForm := FindDashForm(grammar, words[i]);
      if isDashForm {
        return Err(ParseError(words[i], UnbracketedMultiChar));
      }
    }
    assert words[|words|..] == [];
    var chords: seq<ParsedChord> := [];
    var pending: set<Modifier> := {};
    var isFirst := true;
    var remaining := TrimStart(grammar, text);
    ghost var all := TakeTokens(grammar, leader, Progress(chords, pending, remaining), isFirst);
    while remaining != []
      invariant TakeTokens(grammar, leader, Progress(chords, pending, remaining), isFirst) == all
      decreases |remaining|
    {
      ghost var before := Progress(chords, pending, remaining);
      var split := SplitKeyToken(remaining);
      if split.Err? {
        return Err(split.error);
      }
      var keyToken, rest := split.value.text, split.value.rest;
      if IsLeaderToken(keyToken) {
        if !isFirst {
          return Err(ParseError(keyToken, LeaderNotFirst));
        }
        match leader {
          case LeaderChord(chord) => chords := chords + [chord];
          case LeaderModifiers(modifiers) => pending := modifiers;
        }
      } else {
        var named := grammar.parseChord(keyToken);
        if named.Err? {
          if named.error.kind != MissingKey || keyToken == "<>" || rest == [] || rest[0] != '>' {
            return Err(named.error);
          }
          keyToken, rest := keyToken + ">", rest[1..];
          named := grammar.parseChord(keyToken);
          if named.Err? {
            return Err(named.error);
          }
        }
        var chord := named.value;
        if pending != {} {
          var merged := MergeLeaderModifiers(grammar, keyToken, pending, chord);
          if merged.Err? {
            return Err(merged.error);
          }
          chord, pending := merged.value, {};
        }
        chords := chords + [chord];
      }
      assert TakeToken(grammar, leader, before, isFirst) == Ok(Progress(chords, pending, rest));
      isFirst := false;
      remaining := TrimStart(grammar, rest);
    }
    parsed := FinishSequence(text, Progress(chords, pending, remaining), maximumChordDepth);
  }
}
