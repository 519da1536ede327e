/**
 * The token grammar of the byte scanner (scanner.go), stated over the stream
 * of decoded characters that follow the scanner's current position. The
 * ByteScanner class in module Scanner is proved to produce exactly these
 * tokens; the lemmas here say what the tokens are.
 */
module Lexer {

  /** `WhitespaceChars`: space, tab and vertical tab. */
  predicate IsSpace(c: char)
  {
    c == ' ' || c == '\t' || c == '\U{0B}'
  }

  predicate IsEol(c: char)
  {
    c == '\n' || c == '\r'
  }

  /** `tokEOL`, the single token that stands for a run of line breaks. */
  const LineBreak: string := "\n"

  /** A token that is not a line break: non-empty, no whitespace, no line break. */
  predicate IsWord(t: string)
  {
    t != [] && forall i :: 0 <= i < |t| ==> !IsSpace(t[i]) && !IsEol(t[i])
  }

  /** `skipSpace`. */
  function SkipSpaces(cs: seq<char>): (r: seq<char>)
    ensures |r| <= |cs|
    ensures r == [] || !IsSpace(r[0])
  {
    if cs != [] && IsSpace(cs[0]) then SkipSpaces(cs[1..]) else cs
  }

  /** The loop that skips a run of line-break characters. */
  function SkipEols(cs: seq<char>): (r: seq<char>)
    ensures |r| <= |cs|
    ensures r == [] || !IsEol(r[0])
  {
    if cs != [] && IsEol(cs[0]) then SkipEols(cs[1..]) else cs
  }

  /** The first loop of `skipUntilEol`: everything up to the next line break. */
  function SkipToEol(cs: seq<char>): (r: seq<char>)
    ensures |r| <= |cs|
    ensures r == [] || IsEol(r[0])
  {
    if cs == [] || IsEol(cs[0]) then cs else SkipToEol(cs[1..])
  }

  /** Whether the token-building loop of `Scan` stops in front of `c`: at whitespace, a
      line break, or, while no key has been found on the line, a colon. */
  predicate EndsWord(c: char, keyFound: bool)
  {
    IsSpace(c) || IsEol(c) || (c == ':' && !keyFound)
  }

  /** The outcome of one `Scan`: token, end of input, remaining stream, `keyTokenFound`. */
  datatype Lexed = Lexed(tok: string, eof: bool, rest: seq<char>, keyFound: bool)

  /** The token-building loop of `Scan`, with `tok` read so far and `cs` still ahead:
      it stops in front of whitespace, a line break or the end of input, and drops a
      colon it stops at when the line has no key yet. */
  function WordLoop(tok: string, cs: seq<char>, keyFound: bool): (l: Lexed)
    ensures !l.eof && |l.rest| <= |cs| && tok <= l.tok
    decreases |cs|
  {
    if cs == [] || IsSpace(cs[0]) || IsEol(cs[0]) then Lexed(tok, false, cs, keyFound)
    else if cs[0] == ':' && !keyFound then Lexed(tok, false, cs[1..], true)
    else WordLoop(tok + [cs[0]], cs[1..], keyFound)
  }


  /** One call of `Scan` on the stream `cs` (the look-ahead character first). */
  function LexToken(cs: seq<char>, keyFound: bool): (l: Lexed)
    ensures l.eof ==> l.tok == [] && l.rest == []
    ensures !l.eof ==> l.tok != [] && |l.rest| < |cs|
  {
    LexAfterSpaces(SkipSpaces(cs), keyFound)
  }

  /** The part of `Scan` after `skipSpace`: `s` is empty or starts with a non-space. */
  function LexAfterSpaces(s: seq<char>, keyFound: bool): (l: Lexed)
    ensures l.eof ==> l.tok == [] && l.rest == []
    ensures !l.eof ==> l.tok != [] && |l.rest| < |s|
  {
    if s == [] then Lexed([], true, [], keyFound)
    else if IsEol(s[0]) then Lexed(LineBreak, false, SkipEols(s), false)
    else if s[0] == '#' then
      var r := SkipEols(SkipToEol(s));
      if r == [] then Lexed([], true, [], false) else Lexed(LineBreak, false, r, false)
    else
      // the first character is taken whatever it is, even a colon
      WordLoop([s[0]], s[1..], keyFound)
  }

  /** `ScanAll`: scan until end of input, keeping the non-empty tokens. */
  function Lex(cs: seq<char>, keyFound: bool): (tokens: seq<string>)
    ensures forall i :: 0 <= i < |tokens| ==> tokens[i] != []
    ensures |tokens| <= |cs|
    decreases |cs|
  {
    var l := LexToken(cs, keyFound);
    (if l.tok != [] then [l.tok] else []) + (if l.eof then [] else Lex(l.rest, l.keyFound))
  }

  /** The character runs the lexer skips are exactly the runs the skipping loops see. */
  lemma {:induction false} SkipSpacesRun(sp: seq<char>, rest: seq<char>)
    requires forall i :: 0 <= i < |sp| ==> IsSpace(sp[i])
    requires rest == [] || !IsSpace(rest[0])
    ensures SkipSpaces(sp + rest) == rest
    decreases |sp|
  {
    if sp != [] {
      assert (sp + rest)[1..] == sp[1..] + rest;
      SkipSpacesRun(sp[1..], rest);
    }
  }

  lemma {:induction false} SkipEolsRun(eols: seq<char>, rest: seq<char>)
    requires forall i :: 0 <= i < |eols| ==> IsEol(eols[i])
    requires rest == [] || !IsEol(rest[0])
    ensures SkipEols(eols + rest) == rest
    decreases |eols|
  {
    if eols != [] {
      assert (eols + rest)[1..] == eols[1..] + rest;
      SkipEolsRun(eols[1..], rest);
    }
  }

  lemma {:induction false} SkipToEolRun(line: seq<char>, rest: seq<char>)
    requires forall i :: 0 <= i < |line| ==> !IsEol(line[i])
    requires rest == [] || IsEol(rest[0])
    ensures SkipToEol(line + rest) == rest
    decreases |line|
  {
    if line != [] {
      assert (line + rest)[1..] == line[1..] + rest;
      SkipToEolRun(line[1..], rest);
    }
  }

  /** The loop reads a run of characters that do not end a word, up to the first
      one that does (or the end of input). */
  lemma {:induction false} WordLoopRun(tok: string, w: seq<char>, rest: seq<char>, keyFound: bool)
    requires forall j :: 0 <= j < |w| ==> !EndsWord(w[j], keyFound)
    requires rest == [] || EndsWord(rest[0], keyFound)
    ensures WordLoop(tok, w + rest, keyFound)
         == if rest != [] && rest[0] == ':' && !keyFound then Lexed(tok + w, false, rest[1..], true)
            else Lexed(tok + w, false, rest, keyFound)
    decreases |w|
  {
    if w == [] {
      assert w + rest == rest && tok + w == tok;
    } else {
      assert (w + rest)[0] == w[0];
      assert (w + rest)[1..] == w[1..] + rest;
      assert tok + [w[0]] + w[1..] == tok + w;
      WordLoopRun(tok + [w[0]], w[1..], rest, keyFound);
    }
  }

  /**
   * The loop splits its input: the characters it adds to the token, then the key
   * colon when it is the one that stopped the loop (which only sets the key flag),
   * then the rest.
   */
  lemma {:induction false} WordLoopSplits(tok: string, cs: seq<char>, keyFound: bool)
    ensures var l := WordLoop(tok, cs, keyFound);
      && (l.keyFound != keyFound ==> !keyFound)
      && tok + cs == l.tok + (if l.keyFound != keyFound then ":" else []) + l.rest
    decreases |cs|
  {
    if cs == [] || IsSpace(cs[0]) || IsEol(cs[0]) {
      assert tok + cs == tok + [] + cs;
    } else if cs[0] == ':' && !keyFound {
      assert tok + cs == tok + ":" + cs[1..];
    } else {
      WordLoopSplits(tok + [cs[0]], cs[1..], keyFound);
      assert tok + cs == (tok + [cs[0]]) + cs[1..];
    }
  }


  /** The loop adds no whitespace and no line break to the token. */
  lemma {:induction false} WordLoopShape(tok: string, cs: seq<char>, keyFound: bool)
    requires IsWord(tok)
    ensures IsWord(WordLoop(tok, cs, keyFound).tok)
    ensures WordLoop(tok, cs, keyFound).tok[0] == tok[0]
    decreases |cs|
  {
    if !(cs == [] || IsSpace(cs[0]) || IsEol(cs[0])) && !(cs[0] == ':' && !keyFound) {
      var t := tok + [cs[0]];
      assert forall i :: 0 <= i < |t| ==> t[i] == if i < |tok| then tok[i] else cs[0];
      WordLoopShape(t, cs[1..], keyFound);
    }
  }

  /** Every token `Scan` returns is either the line-break token or a word; end of
      input, and only end of input, comes with the empty token. */
  lemma TokenShape(cs: seq<char>, keyFound: bool)
    ensures var l := LexToken(cs, keyFound);
      && (l.tok == [] <==> l.eof)
      && (l.tok == [] || l.tok == LineBreak || (IsWord(l.tok) && l.tok[0] != '#'))
  {
    var s := SkipSpaces(cs);
    if s != [] && !IsEol(s[0]) && s[0] != '#' {
      WordLoopShape([s[0]], s[1..], keyFound);
    }
  }

  /** `ScanAll` never collects an empty token, and every token it collects is the
      line-break token or a word. */
  lemma {:induction false} TokensWellFormed(cs: seq<char>, keyFound: bool)
    ensures forall t :: t in Lex(cs, keyFound) ==> t == LineBreak || IsWord(t)
    decreases |cs|
  {
    var l := LexToken(cs, keyFound);
    TokenShape(cs, keyFound);
    if !l.eof {
      TokensWellFormed(l.rest, l.keyFound);
    }
  }

  /** A run of line-break characters, after optional whitespace, is one line-break
      token and starts a new line (no key seen yet). */
  lemma EolRunIsOneToken(sp: seq<char>, eols: seq<char>, rest: seq<char>, keyFound: bool)
    requires forall i :: 0 <= i < |sp| ==> IsSpace(sp[i])
    requires eols != [] && forall i :: 0 <= i < |eols| ==> IsEol(eols[i])
    requires rest == [] || !IsEol(rest[0])
    ensures LexToken(sp + eols + rest, keyFound) == Lexed(LineBreak, false, rest, false)
  {
    SkipSpacesRun(sp, eols + rest);
    assert sp + eols + rest == sp + (eols + rest);
    SkipEolsRun(eols, rest);
  }

  /** A `#` discards the rest of its line and every line break after it: what is
      left is one line-break token, or end of input with no token. */
  lemma CommentIsSkipped(sp: seq<char>, comment: seq<char>, eols: seq<char>, rest: seq<char>,
                         keyFound: bool)
    requires forall i :: 0 <= i < |sp| ==> IsSpace(sp[i])
    requires comment != [] && comment[0] == '#'
    requires forall i :: 0 <= i < |comment| ==> !IsEol(comment[i])
    requires forall i :: 0 <= i < |eols| ==> IsEol(eols[i])
    requires rest == [] || (eols != [] && !IsEol(rest[0]))
    ensures LexToken(sp + comment + eols + rest, keyFound)
         == if rest == [] then Lexed([], true, [], false) else Lexed(LineBreak, false, rest, false)
  {
    assert sp + comment + eols + rest == sp + (comment + (eols + rest));
    SkipSpacesRun(sp, comment + (eols + rest));
    SkipToEolRun(comment, eols + rest);
    SkipEolsRun(eols, rest);
  }

  /** Before the first key of a line, a word ends at the first colon after its first
      character; the colon is dropped and the line now has its key. A colon as the
      first character is kept. */
  lemma ColonEndsKey(c: char, w: seq<char>, rest: seq<char>)
    requires !IsSpace(c) && !IsEol(c) && c != '#'
    requires forall j :: 0 <= j < |w| ==> !EndsWord(w[j], false)
    ensures LexToken([c] + w + [':'] + rest, false) == Lexed([c] + w, false, rest, true)
  {
    var s := [c] + w + [':'] + rest;
    assert [] + s == s;
    assert s[0] == c && s[1..] == w + ([':'] + rest);
    assert ([':'] + rest)[1..] == rest;
    SkipSpacesRun([], s);
    WordLoopRun([c], w, [':'] + rest, false);
  }

  /** Once the line has its key, colons stay inside words (so `http://` survives):
      a word runs to the next whitespace, line break or end of input. */
  lemma ColonInsideValue(c: char, w: seq<char>, rest: seq<char>)
    requires !IsSpace(c) && !IsEol(c) && c != '#'
    requires forall j :: 0 <= j < |w| ==> !IsSpace(w[j]) && !IsEol(w[j])
    requires rest == [] || IsSpace(rest[0]) || IsEol(rest[0])
    ensures LexToken([c] + w + rest, true) == Lexed([c] + w, false, rest, true)
  {
    var s := [c] + w + rest;
    assert [] + s == s;
    assert s[0] == c && s[1..] == w + rest;
    SkipSpacesRun([], s);
    WordLoopRun([c], w, rest, true);
  }

  /** Whitespace before a token does not change it. */
  lemma LeadingSpaceIgnored(sp: seq<char>, cs: seq<char>, keyFound: bool)
    requires forall i :: 0 <= i < |sp| ==> IsSpace(sp[i])
    requires cs == [] || !IsSpace(cs[0])
    ensures LexToken(sp + cs, keyFound) == LexToken(cs, keyFound)
  {
    SkipSpacesRun(sp, cs);
    SkipSpacesRun([], cs);
    assert [] + cs == cs;
    assert SkipSpaces(sp + cs) == SkipSpaces(cs);
  }

  /** `ScanAll` collects the token of each `Scan` in turn. */
  lemma LexUnfold(cs: seq<char>, keyFound: bool)
    requires !LexToken(cs, keyFound).eof
    ensures Lex(cs, keyFound)
         == [LexToken(cs, keyFound).tok] + Lex(LexToken(cs, keyFound).rest, LexToken(cs, keyFound).keyFound)
  {
  }

  /** A value word after whitespace, once the line has its key. */
  lemma ValueToken(sp: seq<char>, d: char, value: seq<char>, eols: seq<char>)
    requires forall i :: 0 <= i < |sp| ==> IsSpace(sp[i])
    requires !IsSpace(d) && !IsEol(d) && d != '#'
    requires forall j :: 0 <= j < |value| ==> !IsSpace(value[j]) && !IsEol(value[j])
    requires eols != [] && IsEol(eols[0])
    ensures LexToken(sp + ([d] + value + eols), true) == Lexed([d] + value, false, eols, true)
  {
    LeadingSpaceIgnored(sp, [d] + value + eols, true);
    ColonInsideValue(d, value, eols);
  }

  /** A line break run that ends the input. */
  lemma FinalLineBreak(eols: seq<char>, keyFound: bool)
    requires eols != [] && forall i :: 0 <= i < |eols| ==> IsEol(eols[i])
    ensures Lex(eols, keyFound) == [LineBreak]
  {
    assert eols == [] + eols + [];
    EolRunIsOneToken([], eols, [], keyFound);
    LexUnfold(eols, keyFound);
  }

  /** A value word after whitespace is one token; lexing goes on at the line break. */
  lemma ValueThenLineBreak(sp: seq<char>, d: char, value: seq<char>, eols: seq<char>)
    requires forall i :: 0 <= i < |sp| ==> IsSpace(sp[i])
    requires !IsSpace(d) && !IsEol(d) && d != '#'
    requires forall j :: 0 <= j < |value| ==> !IsSpace(value[j]) && !IsEol(value[j])
    requires eols != [] && IsEol(eols[0])
    ensures Lex(sp + ([d] + value + eols), true) == [[d] + value] + Lex(eols, true)
  {
    ValueToken(sp, d, value, eols);
    LexUnfold(sp + ([d] + value + eols), true);
  }

  /** A line that starts with `key:` gives the key as its first token. */
  lemma KeyStartsLine(c: char, key: seq<char>, rest: seq<char>)
    requires !IsSpace(c) && !IsEol(c) && c != '#'
    requires forall j :: 0 <= j < |key| ==> !EndsWord(key[j], false)
    ensures Lex([c] + key + [':'] + rest, false) == [[c] + key] + Lex(rest, true)
  {
    ColonEndsKey(c, key, rest);
    LexUnfold([c] + key + [':'] + rest, false);
  }

  /** A comment line leaves one line break before the next line. */
  lemma CommentLine(comment: seq<char>, eols: seq<char>, rest: seq<char>)
    requires comment != [] && comment[0] == '#'
    requires forall i :: 0 <= i < |comment| ==> !IsEol(comment[i])
    requires eols != [] && forall i :: 0 <= i < |eols| ==> IsEol(eols[i])
    requires rest != [] && !IsEol(rest[0])
    ensures Lex(comment + eols + rest, false) == [LineBreak] + Lex(rest, false)
  {
    assert comment + eols + rest == [] + comment + eols + rest;
    CommentIsSkipped([], comment, eols, rest, false);
    LexUnfold(comment + eols + rest, false);
  }

  /** Blank input, the empty one included, is the end: no token, and the line flag kept. */
  lemma BlankIsEnd(sp: seq<char>, keyFound: bool)
    requires forall i :: 0 <= i < |sp| ==> IsSpace(sp[i])
    ensures LexToken(sp, keyFound) == Lexed([], true, [], keyFound)
    ensures Lex(sp, keyFound) == []
  {
    assert sp + [] == sp;
    SkipSpacesRun(sp, []);
  }

  /** Input that is one comment and nothing else yields no token at all. */
  lemma CommentOnlyHasNoTokens(comment: seq<char>, keyFound: bool)
    requires comment != [] && comment[0] == '#'
    requires forall i :: 0 <= i < |comment| ==> !IsEol(comment[i])
    ensures Lex(comment, keyFound) == []
  {
    assert comment + [] == comment;
    SkipToEolRun(comment, []);
  }
}
