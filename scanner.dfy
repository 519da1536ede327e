/**
 * The byte scanner of scanner.go: a one-character look-ahead over a byte
 * buffer, decoded as UTF-8 one rune at a time. Its methods are proved to
 * produce exactly the tokens of module Lexer over the decoded stream, and to
 * count every byte that does not start a valid UTF-8 sequence exactly once.
 */
module Scanner {
  import opened Utf8
  import Lexer

  /** What `nextChar` reads at `offset`: ASCII bytes directly, anything else through
      the UTF-8 decoder. */
  function RuneAt(buf: seq<byte>, offset: nat): (d: Decoded)
    requires offset < |buf|
    ensures 1 <= d.width <= |buf| - offset
    ensures IsScalar(d.rune)
  {
    if buf[offset] < 0x80 then Decoded(buf[offset] as int, 1) else DecodeRune(buf[offset..])
  }

  /** The characters decoded from `buf` starting at `offset`. */
  function Runes(buf: seq<byte>, offset: nat): seq<char>
    requires offset <= |buf|
    decreases |buf| - offset
  {
    if offset == |buf| then []
    else
      var d := RuneAt(buf, offset);
      [d.rune as char] + Runes(buf, offset + d.width)
  }

  /** How many of the decoding steps from `offset` on meet an invalid byte. */
  function InvalidCount(buf: seq<byte>, offset: nat): nat
    requires offset <= |buf|
    decreases |buf| - offset
  {
    if offset == |buf| then 0
    else
      var d := RuneAt(buf, offset);
      (if IsError(d) then 1 else 0) + InvalidCount(buf, offset + d.width)
  }

  /** The byte-order mark is dropped from the front of the stream. */
  function DropBom(cs: seq<char>): seq<char>
  {
    if cs != [] && cs[0] == ByteOrderMark as char then cs[1..] else cs
  }

  /** End of input in the look-ahead, Go's `-1` rune. */
  const EndOfInput: int := -1

  class ByteScanner {
    var buf: seq<byte>
    /** `pos.Offset`: the next byte to decode. */
    var offset: nat
    var errorCount: nat
    /** The look-ahead character, or `EndOfInput`. */
    var ch: int
    var quiet: bool
    var keyTokenFound: bool
    var lastChunk: bool

    /** The characters still to be scanned, the look-ahead first. */
    ghost var stream: seq<char>
    /** The invalid bytes still to be met; `errorCount` plus this never changes. */
    ghost var pendingErrors: nat

    ghost predicate Valid()
      reads this
    {
      && offset <= |buf|
      && (ch == EndOfInput || IsScalar(ch))
      && (ch == EndOfInput ==> offset == |buf|)
      && stream == (if ch == EndOfInput then [] else [ch as char] + Runes(buf, offset))
      && pendingErrors == InvalidCount(buf, offset)
    }

    /** `newByteScanner`: nothing fed, nothing to scan. */
    constructor (quiet: bool)
      ensures Valid() && stream == []
      ensures buf == [] && errorCount == 0 && !keyTokenFound && !lastChunk
      ensures this.quiet == quiet
    {
      this.quiet := quiet;
      ch := EndOfInput;
      buf := [];
      offset := 0;
      errorCount := 0;
      keyTokenFound := false;
      lastChunk := false;
      stream := [];
      pendingErrors := 0;
    }

    /** `nextChar`: decode the character at `offset` into the look-ahead. An invalid
        byte is counted and read as U+FFFD; at the end the look-ahead becomes
        `EndOfInput` and `eof` is reported. */
    method NextChar() returns (eof: bool)
      requires offset <= |buf|
      modifies this`ch, this`offset, this`errorCount, this`stream, this`pendingErrors
      ensures Valid()
      ensures eof <==> old(offset) == |buf|
      ensures stream == Runes(buf, old(offset))
      ensures errorCount + pendingErrors == old(errorCount) + InvalidCount(buf, old(offset))
      ensures old(offset) < |buf| ==> offset > old(offset)
    {
      if offset >= |buf| {
        ch := EndOfInput;
        stream := [];
        pendingErrors := 0;
        return true;
      }
      ghost var at := RuneAt(buf, offset);
      var r: int, w: nat := buf[offset] as int, 1;
      if r >= 0x80 {
        var d := DecodeRune(buf[offset..]);
        r, w := d.rune, d.width;
        if IsError(d) {
          errorCount := errorCount + 1;
        }
      }
      assert Decoded(r, w) == at;
      assert errorCount == old(errorCount) + if IsError(at) then 1 else 0;
      var o := offset;
      ghost var tail := Runes(buf, o + w);
      ghost var count := InvalidCount(buf, o + w);
      assert Runes(buf, o) == [r as char] + tail;
      assert InvalidCount(buf, o) == errorCount - old(errorCount) + count;
      offset := o + w;
      ch := r;
      stream := [r as char] + tail;
      pendingErrors := count;
      return false;
    }

    /** `nextChar` in the middle of the input: the look-ahead moves one character on. */
    method Advance()
      requires Valid() && ch != EndOfInput
      modifies this`ch, this`offset, this`errorCount, this`stream, this`pendingErrors
      ensures Valid()
      ensures stream == old(stream)[1..]
      ensures errorCount + pendingErrors == old(errorCount + pendingErrors)
    {
      var _ := NextChar();
    }

    /** `Feed`: start scanning `input`, reading its first character and skipping a
        leading byte-order mark; `eof` when the input is empty. */
    method Feed(input: seq<byte>, end: bool) returns (eof: bool)
      modifies this`buf, this`offset, this`lastChunk, this`ch, this`errorCount, this`stream, this`pendingErrors
      ensures Valid()
      ensures buf == input && lastChunk == end
      ensures stream == DropBom(Runes(input, 0))
      ensures errorCount + pendingErrors == old(errorCount) + InvalidCount(input, 0)
      ensures eof <==> input == []
    {
      buf := input;
      offset := 0;
      lastChunk := end;
      eof := NextChar();
      if eof {
        return;
      }
      if ch == ByteOrderMark {
        var _ := NextChar();
      }
    }

    /** `skipSpace`. */
    method SkipSpace()
      requires Valid()
      modifies this`ch, this`offset, this`errorCount, this`stream, this`pendingErrors
      ensures Valid()
      ensures stream == Lexer.SkipSpaces(old(stream))
      ensures errorCount + pendingErrors == old(errorCount + pendingErrors)
    {
      while ch != EndOfInput && Lexer.IsSpace(ch as char)
        invariant Valid()
        invariant Lexer.SkipSpaces(stream) == Lexer.SkipSpaces(old(stream))
        invariant errorCount + pendingErrors == old(errorCount + pendingErrors)
        decreases |stream|
      {
        var _ := NextChar();
      }
    }

    /** The loop of `Scan` that skips a run of line breaks. */
    method SkipEols()
      requires Valid()
      modifies this`ch, this`offset, this`errorCount, this`stream, this`pendingErrors
      ensures Valid()
      ensures stream == Lexer.SkipEols(old(stream))
      ensures errorCount + pendingErrors == old(errorCount + pendingErrors)
    {
      while ch != EndOfInput && Lexer.IsEol(ch as char)
        invariant Valid()
        invariant Lexer.SkipEols(stream) == Lexer.SkipEols(old(stream))
        invariant errorCount + pendingErrors == old(errorCount + pendingErrors)
        decreases |stream|
      {
        var _ := NextChar();
      }
    }

    /** The first loop of `skipUntilEol`: up to the next line break. */
    method SkipToEol()
      requires Valid()
      modifies this`ch, this`offset, this`errorCount, this`stream, this`pendingErrors
      ensures Valid()
      ensures stream == Lexer.SkipToEol(old(stream))
      ensures errorCount + pendingErrors == old(errorCount + pendingErrors)
    {
      while ch != EndOfInput && !Lexer.IsEol(ch as char)
        invariant Valid()
        invariant Lexer.SkipToEol(stream) == Lexer.SkipToEol(old(stream))
        invariant errorCount + pendingErrors == old(errorCount + pendingErrors)
        decreases |stream|
      {
        var _ := NextChar();
      }
    }

    /** `skipUntilEol`: the rest of the line, then the line breaks after it. */
    method SkipUntilEol()
      requires Valid()
      modifies this`ch, this`offset, this`errorCount, this`stream, this`pendingErrors
      ensures Valid()
      ensures stream == Lexer.SkipEols(Lexer.SkipToEol(old(stream)))
      ensures errorCount + pendingErrors == old(errorCount + pendingErrors)
    {
      ghost var s0 := stream;
      SkipToEol();
      ghost var s1 := stream;
      assert s1 == Lexer.SkipToEol(s0);
      SkipEols();
      assert stream == Lexer.SkipEols(s1);
    }

    /** `Scan`: the next token, or end of input with the empty token. */
    method Scan() returns (tok: string, eof: bool)
      requires Valid()
      modifies this`ch, this`offset, this`errorCount, this`stream, this`pendingErrors, this`keyTokenFound
      ensures Valid()
      ensures Lexer.LexToken(old(stream), old(keyTokenFound))
           == Lexer.Lexed(tok, eof, stream, keyTokenFound)
      ensures errorCount + pendingErrors == old(errorCount + pendingErrors)
    {
      ghost var s0 := stream;
      SkipSpace();
      ghost var s := stream;
      assert s == Lexer.SkipSpaces(s0);
      if ch == EndOfInput {
        return [], true;
      }
      if Lexer.IsEol(ch as char) {
        keyTokenFound := false;
        SkipEols();
        return Lexer.LineBreak, false;
      }
      if ch == '#' as int {
        keyTokenFound := false;
        SkipUntilEol();
        if ch == EndOfInput {
          return [], true;
        }
        return Lexer.LineBreak, false;
      }
      tok := ScanWord();
      eof := false;
    }

    /** The token-building loop of `Scan`: the look-ahead starts the token whatever it
        is; while no key has been found on the line, a colon ends the token, is
        dropped, and marks the key as found. */
    method ScanWord() returns (tok: string)
      requires Valid() && ch != EndOfInput
      modifies this`ch, this`offset, this`errorCount, this`stream, this`pendingErrors, this`keyTokenFound
      ensures Valid()
      ensures Lexer.WordLoop([old(stream)[0]], old(stream)[1..], old(keyTokenFound))
           == Lexer.Lexed(tok, false, stream, keyTokenFound)
      ensures errorCount + pendingErrors == old(errorCount + pendingErrors)
    {
      tok := [ch as char];
      Advance();
      ghost var goal := Lexer.WordLoop(tok, stream, keyTokenFound);
      while ch != EndOfInput && !Lexer.IsSpace(ch as char) && !Lexer.IsEol(ch as char)
        invariant Valid()
        invariant errorCount + pendingErrors == old(errorCount + pendingErrors)
        invariant Lexer.WordLoop(tok, stream, keyTokenFound) == goal
        decreases |stream|
      {
        if ch == ':' as int && !keyTokenFound {
          Advance();
          keyTokenFound := true;
          return;
        }
        tok := tok + [ch as char];
        Advance();
      }
    }

    /** `ScanAll`: every token up to the end of input; empty tokens are dropped. The
        scanner is left at the end of its input with every invalid byte counted. */
    method ScanAll() returns (tokens: seq<string>)
      requires Valid()
      modifies this`ch, this`offset, this`errorCount, this`stream, this`pendingErrors, this`keyTokenFound
      ensures Valid() && stream == []
      ensures tokens == Lexer.Lex(old(stream), old(keyTokenFound))
      ensures errorCount == old(errorCount + pendingErrors)
    {
      tokens := [];
      while true
        invariant Valid()
        invariant errorCount + pendingErrors == old(errorCount + pendingErrors)
        invariant tokens + Lexer.Lex(stream, keyTokenFound)
               == Lexer.Lex(old(stream), old(keyTokenFound))
        decreases |stream|
      {
        ghost var before := stream;
        ghost var k := keyTokenFound;
        ghost var acc := tokens;
        var t, eof := Scan();
        LexStep(before, k, t, eof, stream, keyTokenFound);
        ghost var piece: seq<string> := if t != [] then [t] else [];
        if t != [] {
          tokens := tokens + [t];
        }
        assert tokens == acc + piece;
        if eof {
          assert tokens == acc + Lexer.Lex(before, k);
          break;
        }
        AppendAssoc(acc, piece, Lexer.Lex(stream, keyTokenFound));
      }
    }
  }

  lemma AppendAssoc<T>(a: seq<T>, b: seq<T>, c: seq<T>)
    ensures (a + b) + c == a + (b + c)
  {
  }

  /** One call of `Scan` contributes its token, if any, and the rest is lexed on. */
  lemma LexStep(before: seq<char>, k: bool, t: string, eof: bool, after: seq<char>, k2: bool)
    requires Lexer.LexToken(before, k) == Lexer.Lexed(t, eof, after, k2)
    ensures Lexer.Lex(before, k)
         == (if t != [] then [t] else []) + (if eof then [] else Lexer.Lex(after, k2))
  {
  }

  /** One decoding step of `Runes`. */
  lemma UnfoldRunes(buf: seq<byte>, offset: nat, d: Decoded)
    requires offset < |buf| && d == RuneAt(buf, offset)
    ensures Runes(buf, offset) == [d.rune as char] + Runes(buf, offset + d.width)
  {
  }

  /** One decoding step of `InvalidCount`. */
  lemma UnfoldInvalidCount(buf: seq<byte>, offset: nat, d: Decoded)
    requires offset < |buf| && d == RuneAt(buf, offset)
    ensures InvalidCount(buf, offset) == (if IsError(d) then 1 else 0) + InvalidCount(buf, offset + d.width)
  {
  }

  /** Equal suffixes give the same first decoding step and equal suffixes after it. */
  lemma SameStep(a: seq<byte>, i: nat, b: seq<byte>, j: nat)
    requires i < |a| && j <= |b| && a[i..] == b[j..]
    ensures j < |b| && RuneAt(a, i) == RuneAt(b, j)
    ensures a[i + RuneAt(a, i).width..] == b[j + RuneAt(a, i).width..]
  {
    assert a[i] == a[i..][0] == b[j..][0] == b[j];
    var w := RuneAt(a, i).width;
    assert a[i + w..] == a[i..][w..] == b[j..][w..] == b[j + w..];
  }

  /** Decoding depends only on the bytes from the offset on. */
  lemma {:induction false} SameSuffixRunes(a: seq<byte>, i: nat, b: seq<byte>, j: nat)
    requires i <= |a| && j <= |b| && a[i..] == b[j..]
    ensures Runes(a, i) == Runes(b, j)
    decreases |a| - i
  {
    if i < |a| {
      SameStep(a, i, b, j);
      var d := RuneAt(a, i);
      SameSuffixRunes(a, i + d.width, b, j + d.width);
      UnfoldRunes(a, i, d);
      UnfoldRunes(b, j, d);
    } else {
      assert |b[j..]| == 0;
    }
  }

  /** So does the count of invalid bytes met. */
  lemma {:induction false} SameSuffixInvalidCount(a: seq<byte>, i: nat, b: seq<byte>, j: nat)
    requires i <= |a| && j <= |b| && a[i..] == b[j..]
    ensures InvalidCount(a, i) == InvalidCount(b, j)
    decreases |a| - i
  {
    if i < |a| {
      SameStep(a, i, b, j);
      var d := RuneAt(a, i);
      SameSuffixInvalidCount(a, i + d.width, b, j + d.width);
      UnfoldInvalidCount(a, i, d);
      UnfoldInvalidCount(b, j, d);
    } else {
      assert |b[j..]| == 0;
    }
  }

  /** In particular the bytes before `rest` do not change how `rest` decodes. */
  lemma RunesShift(p: seq<byte>, rest: seq<byte>)
    ensures Runes(p + rest, |p|) == Runes(rest, 0)
    ensures InvalidCount(p + rest, |p|) == InvalidCount(rest, 0)
  {
    assert (p + rest)[|p|..] == rest == rest[0..];
    SameSuffixRunes(p + rest, |p|, rest, 0);
    SameSuffixInvalidCount(p + rest, |p|, rest, 0);
  }

  /** A leading byte-order mark EF BB BF is decoded as U+FEFF and dropped. */
  lemma ByteOrderMarkSkipped(rest: seq<byte>)
    ensures DropBom(Runes([0xEF, 0xBB, 0xBF] + rest, 0)) == Runes(rest, 0)
    ensures InvalidCount([0xEF, 0xBB, 0xBF] + rest, 0) == InvalidCount(rest, 0)
  {
    var bom: seq<byte> := [0xEF, 0xBB, 0xBF];
    DecodeByteOrderMark(rest);
    assert (bom + rest)[0..] == bom + rest;
    assert RuneAt(bom + rest, 0) == Decoded(ByteOrderMark, 3);
    RunesShift(bom, rest);
  }

  /**
   * A byte that cannot start a UTF-8 sequence is read as U+FFFD, counted once, and
   * decoding goes on with the next byte.
   */
  lemma InvalidByteCounted(b: byte, rest: seq<byte>)
    requires 0x80 <= b < 0xC2 || 0xF4 < b
    ensures Runes([b] + rest, 0) == [RuneError as char] + Runes(rest, 0)
    ensures InvalidCount([b] + rest, 0) == 1 + InvalidCount(rest, 0)
  {
    assert ([b] + rest)[0..] == [b] + rest;
    assert RuneAt([b] + rest, 0) == Decoded(RuneError, 1);
    RunesShift([b], rest);
  }

  /** The bytes D9 D9: a lead byte without its continuation, twice; two errors. */
  lemma TwoTruncatedSequences()
    ensures InvalidCount([0xD9, 0xD9], 0) == 2
    ensures Runes([0xD9, 0xD9], 0) == [RuneError as char, RuneError as char]
  {
    var s: seq<byte> := [0xD9, 0xD9];
    assert s[0..] == s && s[1..] == [0xD9];
    assert RuneAt(s, 0) == Decoded(RuneError, 1);
    assert RuneAt(s, 1) == Decoded(RuneError, 1);
  }
}
