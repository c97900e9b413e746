// Laws of the key sequence parser: sequences parse piece by piece, and a
// leader changes nothing but the start.
module KeySequenceLaws {
  import opened Options
  import opened KeySequenceParser

  function Prepend(first: seq<ParsedChord>, taken: Result<Progress>): Result<Progress> {
    match taken
    case Ok(progress) => Ok(progress.(chords := first + progress.chords))
    case Err(error) => Err(error)
  }

  // The chords taken before do not change how the next tokens are taken.
  lemma TokenIgnoresChords(grammar: Grammar, leader: Leader, first: seq<ParsedChord>, progress: Progress, isFirst: bool)
    requires progress.rest != []
    ensures TakeToken(grammar, leader, progress.(chords := first + progress.chords), isFirst)
         == Prepend(first, TakeToken(grammar, leader, progress, isFirst))
  {
    assert forall chord :: (first + progress.chords) + [chord] == first + (progress.chords + [chord]);
  }

  lemma {:induction false} TokensIgnoreChords(grammar: Grammar, leader: Leader, first: seq<ParsedChord>, progress: Progress, isFirst: bool)
    ensures TakeTokens(grammar, leader, progress.(chords := first + progress.chords), isFirst)
         == Prepend(first, TakeTokens(grammar, leader, progress, isFirst))
    decreases |progress.rest|
  {
    if progress.rest != [] {
      TokenIgnoresChords(grammar, leader, first, progress, isFirst);
      var taken := TakeToken(grammar, leader, progress, isFirst);
      if taken.Ok? {
        TokensIgnoreChords(grammar, leader, first, taken.value.(rest := TrimStart(grammar, taken.value.rest)), false);
      }
    }
  }

  // ---------------------------------------------------------------------
  // Text and a separator
  // ---------------------------------------------------------------------

  lemma {:induction false} FindAcross(text: string, tail: string, character: char)
    requires Find(text, character).Some?
    ensures Find(text + tail, character) == Find(text, character)
  {
    assert (text + tail)[1..] == text[1..] + tail;
    if text[0] != character {
      FindAcross(text[1..], tail, character);
    }
  }

  lemma {:induction false} TrimAcross(grammar: Grammar, text: string, tail: string)
    ensures TrimStart(grammar, text + tail)
         == if TrimStart(grammar, text) == [] then TrimStart(grammar, tail) else TrimStart(grammar, text) + tail
  {
    if text == [] {
      assert text + tail == tail;
    } else {
      assert (text + tail)[1..] == text[1..] + tail;
      if grammar.isWhitespace(text[0]) { TrimAcross(grammar, text[1..], tail); }
    }
  }

  lemma {:induction false} TrimmedStartsBare(grammar: Grammar, text: string)
    ensures TrimStart(grammar, text) != [] ==> !grammar.isWhitespace(TrimStart(grammar, text)[0])
  {
    if text != [] && grammar.isWhitespace(text[0]) { TrimmedStartsBare(grammar, text[1..]); }
  }

  // A word ends where whitespace starts, whatever follows it.
  lemma {:induction false} WordEndsAtSpace(grammar: Grammar, text: string, tail: string)
    requires tail != [] && grammar.isWhitespace(tail[0])
    ensures WordLength(grammar, text + tail) == WordLength(grammar, text)
  {
    if text == [] {
      assert text + tail == tail;
    } else {
      assert (text + tail)[1..] == text[1..] + tail;
      WordEndsAtSpace(grammar, text[1..], tail);
    }
  }

  lemma {:induction false} WordsAcross(grammar: Grammar, text: string, tail: string)
    requires tail != [] && grammar.isWhitespace(tail[0])
    ensures Words(grammar, text + tail) == Words(grammar, text) + Words(grammar, tail)
    decreases |text|
  {
    if text == [] {
      assert text + tail == tail;
    } else if grammar.isWhitespace(text[0]) {
      assert (text + tail)[1..] == text[1..] + tail;
      WordsAcross(grammar, text[1..], tail);
    } else {
      var length := WordLength(grammar, text);
      WordEndsAtSpace(grammar, text, tail);
      assert (text + tail)[..length] == text[..length];
      assert (text + tail)[length..] == text[length..] + tail;
      WordsAcross(grammar, text[length..], tail);
    }
  }

  lemma {:induction false} DashWordAcross(grammar: Grammar, first: seq<string>, second: seq<string>)
    ensures FirstDashWord(grammar, first + second)
         == if FirstDashWord(grammar, first).Some? then FirstDashWord(grammar, first) else FirstDashWord(grammar, second)
  {
    if first == [] {
      assert first + second == second;
    } else {
      assert (first + second)[1..] == first[1..] + second;
      DashWordAcross(grammar, first[1..], second);
    }
  }

  // ---------------------------------------------------------------------
  // Two texts with a space between
  // ---------------------------------------------------------------------

  lemma SplitAcross(text: string, tail: string)
    requires text != [] && SplitKeyToken(text).Ok?
    ensures SplitKeyToken(text + tail) == Ok(Token(SplitKeyToken(text).value.text, SplitKeyToken(text).value.rest + tail))
  {
    assert (text + tail)[1..] == text[1..] + tail;
    if text[0] == '<' {
      var close := Find(text[1..], '>').value;
      FindAcross(text[1..], tail, '>');
      assert (text + tail)[..close + 2] == text[..close + 2];
      assert (text + tail)[close + 2..] == text[close + 2..] + tail;
    } else {
      assert (text + tail)[..1] == text[..1];
    }
  }

  lemma ReadAcross(grammar: Grammar, token: Token, tail: string)
    requires ReadToken(grammar, token).Ok?
    ensures var read := ReadToken(grammar, token).value;
            ReadToken(grammar, token.(rest := token.rest + tail)) == Ok(read.(rest := read.rest + tail))
  {
    if token.rest != [] {
      assert (token.rest + tail)[1..] == token.rest[1..] + tail;
    }
  }

  // A token that was read is read the same with more text behind it.
  lemma TokenAcross(grammar: Grammar, leader: Leader, progress: Progress, isFirst: bool, tail: string)
    requires progress.rest != [] && TakeToken(grammar, leader, progress, isFirst).Ok?
    ensures var taken := TakeToken(grammar, leader, progress, isFirst).value;
            TakeToken(grammar, leader, progress.(rest := progress.rest + tail), isFirst) == Ok(taken.(rest := taken.rest + tail))
  {
    SplitAcross(progress.rest, tail);
    var token := SplitKeyToken(progress.rest).value;
    if !IsLeaderToken(token.text) {
      ReadAcross(grammar, token, tail);
    }
  }

  lemma {:induction false} TokensAcross(grammar: Grammar, leader: Leader, progress: Progress, isFirst: bool, tail: string)
    requires progress.rest != [] && TakeTokens(grammar, leader, progress, isFirst).Ok?
    ensures TakeTokens(grammar, leader, progress.(rest := progress.rest + tail), isFirst)
         == TakeTokens(grammar, leader, TakeTokens(grammar, leader, progress, isFirst).value.(rest := TrimStart(grammar, tail)), false)
    decreases |progress.rest|
  {
    var taken := TakeToken(grammar, leader, progress, isFirst).value;
    TokenAcross(grammar, leader, progress, isFirst, tail);
    TrimAcross(grammar, taken.rest, tail);
    var next := taken.(rest := TrimStart(grammar, taken.rest));
    if next.rest != [] {
      TokensAcross(grammar, leader, next, false, tail);
    }
  }

  // Whether the first token of `text` is the leader's.
  predicate StartsWithLeader(grammar: Grammar, text: string) {
    var trimmed := TrimStart(grammar, text);
    trimmed != [] && SplitKeyToken(trimmed).Ok? && IsLeaderToken(SplitKeyToken(trimmed).value.text)
  }

  lemma {:induction false} TakenIsAll(grammar: Grammar, leader: Leader, progress: Progress, isFirst: bool)
    requires TakeTokens(grammar, leader, progress, isFirst).Ok?
    ensures TakeTokens(grammar, leader, progress, isFirst).value.rest == []
    decreases |progress.rest|
  {
    if progress.rest != [] {
      var taken := TakeToken(grammar, leader, progress, isFirst).value;
      TakenIsAll(grammar, leader, taken.(rest := TrimStart(grammar, taken.rest)), false);
    }
  }

  // Past the first token, only the leader's own token is read otherwise.
  lemma FirstMattersForLeader(grammar: Grammar, leader: Leader, chords: seq<ParsedChord>, pending: set<Modifier>, text: string)
    requires !StartsWithLeader(grammar, text)
    ensures var progress := Progress(chords, pending, TrimStart(grammar, text));
            TakeTokens(grammar, leader, progress, false) == TakeTokens(grammar, leader, progress, true)
  {
  }

  // What a text that parses leaves of its tokens.
  lemma ParsedTokens(grammar: Grammar, text: string, leader: Leader, depth: nat)
    requires ParseResult(grammar, text, leader, depth).Ok?
    ensures FirstDashWord(grammar, Words(grammar, text)).None?
    ensures TrimStart(grammar, text) != []
    ensures TakeTokens(grammar, leader, Progress([], {}, TrimStart(grammar, text)), true)
         == Ok(Progress(ParseResult(grammar, text, leader, depth).value, {}, []))
    ensures 1 <= |ParseResult(grammar, text, leader, depth).value| <= depth
  {
    TakenIsAll(grammar, leader, Progress([], {}, TrimStart(grammar, text)), true);
  }

  // Two texts that parse, with a space between, parse to their chords one after
  // the other, exactly when the second names no leader and both fit the depth.
  lemma SequencesCompose(grammar: Grammar, first: string, second: string, leader: Leader, firstDepth: nat, secondDepth: nat, depth: nat)
    requires grammar.isWhitespace(' ')
    requires ParseResult(grammar, first, leader, firstDepth).Ok? && ParseResult(grammar, second, leader, secondDepth).Ok?
    ensures var (chords, more) := (ParseResult(grammar, first, leader, firstDepth).value, ParseResult(grammar, second, leader, secondDepth).value);
            var parsed := ParseResult(grammar, first + " " + second, leader, depth);
            && (parsed.Ok? <==> !StartsWithLeader(grammar, second) && |chords| + |more| <= depth)
            && (parsed.Ok? ==> parsed.value == chords + more)
            && (StartsWithLeader(grammar, second) ==> parsed.error.kind == LeaderNotFirst)
  {
    var tail, text := " " + second, first + " " + second;
    assert text == first + tail;
    ParsedTokens(grammar, first, leader, firstDepth);
    ParsedTokens(grammar, second, leader, secondDepth);
    assert tail[1..] == second;
    assert FirstDashWord(grammar, Words(grammar, text)).None? by {
      WordsAcross(grammar, first, tail);
      DashWordAcross(grammar, Words(grammar, first), Words(grammar, tail));
    }
    var chords, start := ParseResult(grammar, first, leader, firstDepth).value, Progress([], {}, TrimStart(grammar, first));
    TrimAcross(grammar, first, tail);
    TokensAcross(grammar, leader, start, true, tail);
    var rest := Progress([], {}, TrimStart(grammar, second));
    TokensIgnoreChords(grammar, leader, chords, rest, false);
    assert chords + [] == chords;
    assert TakeTokens(grammar, leader, Progress([], {}, TrimStart(grammar, text)), true)
        == Prepend(chords, TakeTokens(grammar, leader, rest, false));
    if !StartsWithLeader(grammar, second) {
      FirstMattersForLeader(grammar, leader, [], {}, second);
    }
  }

  // ---------------------------------------------------------------------
  // The leader
  // ---------------------------------------------------------------------

  lemma {:induction false} FindFirst(text: string, character: char, index: nat)
    requires index < |text| && text[index] == character && forall i :: 0 <= i < index ==> text[i] != character
    ensures Find(text, character) == Some(index)
  {
    if index > 0 { FindFirst(text[1..], character, index - 1); }
  }

  // The leader's token is split off whole, whatever follows it.
  lemma LeaderSplits(token: string, text: string)
    requires IsLeaderToken(token)
    ensures |token| == 8 && SplitKeyToken(token + text) == Ok(Token(token, text))
    ensures Find(token + text, '<') == Some(0) && Find(token + text, '>') == Some(7)
  {
    var body := token[1..|token| - 1];
    assert |LowerText(body)| == |body| == 6;
    forall i | 1 <= i < 7 ensures token[i] != '>' {
      assert LowerText(body)[i - 1] == LowerAscii(token[i]);
      assert LEADER_NAME[i - 1] != '>';
    }
    FindFirst(token + text, '>', 7);
    FindFirst((token + text)[1..], '>', 6);
    assert (token + text)[..8] == token && (token + text)[8..] == text;
  }

  predicate IsBare(grammar: Grammar, text: string) {
    forall character :: character in text ==> !grammar.isWhitespace(character)
  }

  lemma {:induction false} WordGrows(grammar: Grammar, bare: string, text: string)
    requires IsBare(grammar, bare)
    ensures WordLength(grammar, bare + text) == |bare| + WordLength(grammar, text)
  {
    if bare == [] {
      assert bare + text == text;
    } else {
      assert bare[0] in bare;
      assert (bare + text)[1..] == bare[1..] + text;
      WordGrows(grammar, bare[1..], text);
    }
  }

  lemma LeaderIsNoDashForm(grammar: Grammar, token: string, word: string)
    requires IsLeaderToken(token)
    ensures IsDashForm(grammar, token + word) == IsDashForm(grammar, word)
  {
    LeaderSplits(token, word);
    assert (token + word)[0..] == token + word && (token + word)[..0] == [];
    assert (token + word)[8..] == word;
  }

  // The leader's token makes no dash form, and hides none.
  lemma LeaderKeepsDashWords(grammar: Grammar, token: string, text: string)
    requires IsLeaderToken(token) && IsBare(grammar, token)
    ensures FirstDashWord(grammar, Words(grammar, token + text)).None? <==> FirstDashWord(grammar, Words(grammar, text)).None?
  {
    var all, length := token + text, WordLength(grammar, text);
    LeaderSplits(token, text);
    assert token[0] in token;
    WordGrows(grammar, token, text);
    var words := Words(grammar, all);
    assert words == [all[..8 + length]] + Words(grammar, all[8 + length..]);
    assert all[..8 + length] == token + text[..length] && all[8 + length..] == text[length..];
    LeaderIsNoDashForm(grammar, token, text[..length]);
    assert words[0] == token + text[..length] && words[1..] == Words(grammar, text[length..]);
    if length == 0 {
      assert text[..0] == [] && text[0..] == text;
      assert !IsDashForm(grammar, []);
    } else {
      var rest := Words(grammar, text);
      assert rest == [text[..length]] + Words(grammar, text[length..]);
      assert rest[0] == text[..length] && rest[1..] == Words(grammar, text[length..]);
    }
  }

  // The leader's token is taken first, and the text after it as it would be
  // without it, with what the leader left.
  lemma LeaderIsTaken(grammar: Grammar, token: string, text: string, leader: Leader)
    requires IsLeaderToken(token) && IsBare(grammar, token) && !StartsWithLeader(grammar, text)
    ensures TakeTokens(grammar, leader, Progress([], {}, TrimStart(grammar, token + text)), true)
         == TakeTokens(grammar, leader, TakeLeader(leader, [], {}, TrimStart(grammar, text)), true)
  {
    LeaderSplits(token, text);
    assert token[0] in token;
    assert (token + text)[0] == token[0];
    assert TrimStart(grammar, token + text) == token + text;
    var taken := TakeLeader(leader, [], {}, TrimStart(grammar, text));
    FirstMattersForLeader(grammar, leader, taken.chords, taken.pending, text);
  }

  // A text with no leader parses alike under every leader.
  lemma {:induction false} LaterTokensIgnoreLeader(grammar: Grammar, leader: Leader, other: Leader, progress: Progress)
    ensures TakeTokens(grammar, leader, progress, false) == TakeTokens(grammar, other, progress, false)
    decreases |progress.rest|
  {
    if progress.rest != [] {
      var taken := TakeToken(grammar, leader, progress, false);
      assert taken == TakeToken(grammar, other, progress, false);
      if taken.Ok? {
        LaterTokensIgnoreLeader(grammar, leader, other, taken.value.(rest := TrimStart(grammar, taken.value.rest)));
      }
    }
  }

  // A chord leader puts its one chord before those of the text.
  lemma ChordLeaderPrepends(grammar: Grammar, token: string, text: string, leader: Leader, chord: ParsedChord, textDepth: nat, depth: nat)
    requires IsLeaderToken(token) && IsBare(grammar, token)
    requires ParseResult(grammar, text, leader, textDepth).Ok? && !StartsWithLeader(grammar, text)
    ensures var chords := ParseResult(grammar, text, leader, textDepth).value;
            var parsed := ParseResult(grammar, token + text, LeaderChord(chord), depth);
            && (parsed.Ok? <==> |chords| + 1 <= depth)
            && (parsed.Ok? ==> parsed.value == [chord] + chords)
  {
    var rest := Progress([], {}, TrimStart(grammar, text));
    ParsedTokens(grammar, text, leader, textDepth);
    LeaderKeepsDashWords(grammar, token, text);
    LeaderIsTaken(grammar, token, text, LeaderChord(chord));
    FirstMattersForLeader(grammar, leader, [], {}, text);
    FirstMattersForLeader(grammar, LeaderChord(chord), [chord], {}, text);
    LaterTokensIgnoreLeader(grammar, leader, LeaderChord(chord), rest);
    TokensIgnoreChords(grammar, LeaderChord(chord), [chord], rest, false);
    assert [] + [chord] == [chord] && [chord] + [] == [chord];
  }

  // The token the first chord of `text` is read from.
  function FirstRead(grammar: Grammar, text: string): (read: Option<ReadChord>) {
    var trimmed := TrimStart(grammar, text);
    if trimmed == [] || SplitKeyToken(trimmed).Err? then None
    else
      match ReadToken(grammar, SplitKeyToken(trimmed).value)
      case Ok(read) => Some(read)
      case Err(_) => None
  }

  // The first chord with the modifiers that wait for it.
  function FirstMerged(grammar: Grammar, text: string, pending: set<Modifier>): Result<ParsedChord>
    requires FirstRead(grammar, text).Some?
  {
    var read := FirstRead(grammar, text).value;
    if pending == {} then Ok(read.chord) else MergeLeaderModifiers(grammar, read.token, pending, read.chord)
  }

  // A text with no leader is read as its first chord, merged, then the rest.
  lemma FirstTokenTaken(grammar: Grammar, leader: Leader, pending: set<Modifier>, text: string)
    requires !StartsWithLeader(grammar, text) && FirstRead(grammar, text).Some?
    ensures var rest := Progress([], {}, TrimStart(grammar, FirstRead(grammar, text).value.rest));
            var merged := FirstMerged(grammar, text, pending);
            TakeTokens(grammar, leader, Progress([], pending, TrimStart(grammar, text)), false)
            == if merged.Ok? then Prepend([merged.value], TakeTokens(grammar, leader, rest, false)) else Err(merged.error)
  {
    var read, merged := FirstRead(grammar, text).value, FirstMerged(grammar, text, pending);
    if merged.Ok? {
      assert [] + [merged.value] == [merged.value] && [merged.value] + [] == [merged.value];
      TokensIgnoreChords(grammar, leader, [merged.value], Progress([], {}, TrimStart(grammar, read.rest)), false);
    }
  }

  // A modifier leader merges into the first chord and leaves the others.
  lemma ModifierLeaderChangesFirst(grammar: Grammar, token: string, text: string, leader: Leader, modifiers: set<Modifier>, textDepth: nat, depth: nat)
    requires IsLeaderToken(token) && IsBare(grammar, token)
    requires ParseResult(grammar, text, leader, textDepth).Ok? && !StartsWithLeader(grammar, text)
    ensures FirstRead(grammar, text).Some?
    ensures FirstRead(grammar, text).value.chord == ParseResult(grammar, text, leader, textDepth).value[0]
    ensures var chords := ParseResult(grammar, text, leader, textDepth).value;
            var parsed := ParseResult(grammar, token + text, LeaderModifiers(modifiers), depth);
            var merged := FirstMerged(grammar, text, modifiers);
            && (parsed.Ok? <==> merged.Ok? && |chords| <= depth)
            && (parsed.Ok? ==> parsed.value == [merged.value] + chords[1..])
  {
    ParsedTokens(grammar, text, leader, textDepth);
    assert FirstRead(grammar, text).Some?;
    assert FirstDashWord(grammar, Words(grammar, token + text)).None? by { LeaderKeepsDashWords(grammar, token, text); }
    FirstMattersForLeader(grammar, leader, [], {}, text);
    FirstTokenTaken(grammar, leader, {}, text);
    var rest := Progress([], {}, TrimStart(grammar, FirstRead(grammar, text).value.rest));
    var chords := ParseResult(grammar, text, leader, textDepth).value;
    assert TakeTokens(grammar, leader, rest, false) == Ok(Progress(chords[1..], {}, []));
    LaterTokensIgnoreLeader(grammar, leader, LeaderModifiers(modifiers), rest);
    MergedTokens(grammar, token, text, modifiers, chords[1..]);
  }

  lemma MergedTokens(grammar: Grammar, token: string, text: string, modifiers: set<Modifier>, later: seq<ParsedChord>)
    requires IsLeaderToken(token) && IsBare(grammar, token) && !StartsWithLeader(grammar, text) && FirstRead(grammar, text).Some?
    requires TakeTokens(grammar, LeaderModifiers(modifiers), Progress([], {}, TrimStart(grammar, FirstRead(grammar, text).value.rest)), false)
          == Ok(Progress(later, {}, []))
    ensures var taken := TakeTokens(grammar, LeaderModifiers(modifiers), Progress([], {}, TrimStart(grammar, token + text)), true);
            var merged := FirstMerged(grammar, text, modifiers);
            taken == if merged.Ok? then Ok(Progress([merged.value] + later, {}, [])) else Err(merged.error)
  {
    LeaderIsTaken(grammar, token, text, LeaderModifiers(modifiers));
    FirstMattersForLeader(grammar, LeaderModifiers(modifiers), [], modifiers, text);
    FirstTokenTaken(grammar, LeaderModifiers(modifiers), modifiers, text);
  }
}
