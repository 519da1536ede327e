# robotstxt in Dafny

A model of the Go robots.txt library `temoto/robotstxt`: its byte scanner, its
token parser and the decision logic that answers "may this agent crawl this
path?". Each piece keeps the form it has in Go:

- `scanner.dfy` (scanner.go). Class `ByteScanner` holds a byte buffer, an
  offset, a one-character look-ahead `ch`, the per-line `keyTokenFound` flag and
  `errorCount`. Its methods `NextChar`, `Feed`, `Scan`, `ScanAll` and the skip
  loops are proved against `Lexer`, a functional lexer over the decoded
  character stream. A ghost `stream` field holds the characters not yet
  scanned. A ghost `pendingErrors` field counts the invalid bytes still ahead,
  so each method states its effect as a step of `Lexer.LexToken` / `Lexer.Lex`.
- `utf8.dfy` is the UTF-8 decoder the scanner calls. It uses Go's accept
  ranges, `U+FFFD` with width 1 on error, and has an encoder with round-trip
  lemmas.
- `lexer.dfy` is the specification of tokenising. Blanks are skipped, a run of
  CR/LF becomes one `"\n"` token, `#` comments are dropped, and the first `:` of
  a line ends the key token.
- `parser.dfy` (parser.go). Class `Parser` is the token cursor (`PopToken`,
  `PeekToken`, `ParseLine`, `ParseAll`). It is proved against `ParseLineAt`
  (one line), `Lines` (all lines) and `Fold`/`Apply` (the accumulation of
  groups, sitemaps and errors). Lemmas state what the accumulation produces in
  terms of the lines.
- `matching.dfy` (robotstxt.go `Group.Test`, `findRule`). Rules are literal
  paths or wildcard paths. `FindRule` is proved to return the rule with the
  strictly longest match, the earliest one on ties (`FirstMax`), and `Test`
  allows what no rule matches.
- `robots.dfy` (robotstxt.go):
  - class `RobotsData` with `TestAgent`, `TestGroup`, `TestDisallowAll`,
    `FindGroup`, `FindGroupWithGroupId` and `SetGroups`;
  - the group choice `SelectGroup`: the longest key that is a prefix of the
    lower-cased agent, with `*` counting as length 1;
  - loading a document from a body (`FromBytes`) and from an HTTP status and a
    body (`FromStatusAndBytes`), proved to realise `ParseBody` / `Load`.

The document keeps the parser's ordered list of groups. robotstxt.go
declares a map from agent to group, but parser.go returns an ordered list of
groups. The map's `"*"` entry is the first group whose agent is `*`, and the
map iteration in `FindGroupWithGroupId` is a pass over the list.
`SelectionIgnoresOrder` proves that the pass order does not matter when
keys are unique, which is what a map guarantees.

`stripHtml` (the HTML-removing regular expression) and `parseFloat`
(`strconv.ParseFloat`) are parameters. `parseFloat` returns `None` where
`ParseFloat` fails.

## Model

| member | source | states |
|---|---|---|
| Text.TrimLeft | robotstxt.go:121 | the result is a suffix of the input; every dropped element is in the cut set; the first kept one is not |
| Text.TrimRight | robotstxt.go:121 | the result is a prefix of the input; every dropped element is in the cut set; the last kept one is not |
| Text.TrimEmptyIff | parser.go:121 | trimming leaves nothing exactly when every element is in the cut set (both directions) |
| Text.AsciiLower | parser.go:143 | same length as the input, each character lower-cased in place |
| Text.AsciiLowerNormalizes | robotstxt.go:203 | lower-casing yields a lower-case string and leaves a lower-case string unchanged |
| Utf8.DecodeRune | scanner.go:187-193 | width in 1..4 and no larger than the input; the value is a scalar value; an ASCII byte decodes to itself with width 1 |
| Utf8.DecodeEncode | scanner.go:187-193 | decoding the encoding of any scalar value, whatever follows it, gives the value back with the encoding's width |
| Utf8.EncodeDecode | scanner.go:187-193 | a sequence that decodes without error starts with the encoding of the decoded value (the decoder accepts only shortest forms) |
| Utf8.ErrorIffInvalid | scanner.go:190 | decoding reports an error exactly when the input does not start with the encoding of a scalar value |
| Utf8.DecodeByteOrderMark | scanner.go:48-52 | EF BB BF decodes to U+FEFF with width 3 |
| Lexer.SkipSpaces | scanner.go:156-161 | no longer than the input, and empty or starting with a character other than space, tab or vertical tab |
| Lexer.SkipToEol | scanner.go:165-167 | no longer than the input, and empty or starting with CR or LF |
| Lexer.SkipEols | scanner.go:169-171 | no longer than the input, and empty or starting with neither CR nor LF |
| Lexer.WordLoop | scanner.go:103-115 | the token loop never reports end of input, keeps the characters already taken as a prefix of the token and consumes no more than its input |
| Lexer.WordLoopSplits | scanner.go:103-115 | the input is the characters added to the token, then the key colon exactly when it stopped the loop (the key flag is only ever set), then the rest |
| Lexer.Lex | scanner.go:119-134 | every token kept is non-empty, and there are no more tokens than characters |
| Lexer.LexToken | scanner.go:61-117 | end of input gives no token and no rest; otherwise the token is non-empty and strictly less input remains |
| Lexer.SkipSpacesRun | scanner.go:156-161 | a run of blanks followed by a non-blank is skipped exactly |
| Lexer.SkipEolsRun | scanner.go:169-171 | a run of line breaks is skipped exactly |
| Lexer.SkipToEolRun | scanner.go:165-167 | a line without a break is skipped up to the break exactly |
| Lexer.WordLoopRun | scanner.go:103-116 | the token loop stops at the first blank, break or (before the key) colon; a key colon is dropped and sets the key flag |
| Lexer.TokenShape | scanner.go:97-116 | a token is empty exactly at end of input, and is otherwise `"\n"` or a word that does not start with `#` |
| Lexer.TokensWellFormed | scanner.go:25 | every token of a whole input is `"\n"` or a non-empty word without space, tab, vertical tab, CR or LF |
| Lexer.EolRunIsOneToken | scanner.go:76-84 | blanks then a run of CR/LF give exactly one `"\n"` token and clear the key flag |
| Lexer.CommentIsSkipped | scanner.go:87-95 | a `#` comment and the breaks after it give one `"\n"` token, or end of input when nothing follows |
| Lexer.CommentLine | scanner_test.go:54-71 | a comment line then a line: one `"\n"` token, then the tokens of that line |
| Lexer.CommentOnlyHasNoTokens | robotstxt_test.go:67-71 | an input that is only a comment has no tokens |
| Lexer.ColonEndsKey | scanner.go:107-111 | before the key the first colon after the token's first character ends the token, is dropped and sets the key flag; a leading colon is kept |
| Lexer.ColonInsideValue | scanner.go:103-111 | once the key is found, colons stay inside the token (`http://` values) |
| Lexer.ValueToken | scanner.go:101-116 | a value after the key is one token ending at the line break |
| Lexer.ValueThenLineBreak | scanner.go:97-116 | the value token is followed by the tokens of the line breaks |
| Lexer.KeyStartsLine | scanner.go:107-111 | a key with its colon is the first token, the rest is lexed with the key flag set |
| Lexer.FinalLineBreak | scanner.go:76-84 | a run of line breaks at the end of input is one `"\n"` token |
| Lexer.LeadingSpaceIgnored | scanner.go:69 | blanks before a token do not change it |
| Lexer.BlankIsEnd | scanner.go:69-73 | blanks only (the empty input included) give end of input with no token |
| Scanner.RunesShift | scanner.go:187-195 | decoding from an offset, and the count of invalid bytes met, do not depend on the bytes before it |
| Scanner.SameSuffixRunes | scanner.go:187-195 | two buffers with equal suffixes decode the same characters from there |
| Scanner.SameSuffixInvalidCount | scanner.go:187-193 | two buffers with equal suffixes meet the same number of invalid bytes from there |
| Scanner.ByteOrderMarkSkipped | scanner.go:48-52 | a leading EF BB BF is dropped from the stream and adds no error |
| Scanner.InvalidByteCounted | scanner.go:187-193 | a byte that cannot start a sequence decodes to U+FFFD, adds exactly one error and scanning goes on with the next byte |
| Scanner.TwoTruncatedSequences | scanner_test.go:39-52 | D9 D9 decodes to two U+FFFD and counts exactly two errors |
| Scanner.ByteScanner.constructor | scanner.go:28-34 | nothing fed: empty stream, no error, key flag clear, at end of input |
| Scanner.ByteScanner.NextChar | scanner.go:175-198 | end of input exactly when the old offset is at the buffer's end; the look-ahead and the stream become the characters decoded from the old offset; the offset grows when input remains and stays within the buffer; errors counted plus pending equal the old count plus the invalid bytes from the old offset |
| Scanner.ByteScanner.Feed | scanner.go:36-55 | the stream is the decoded input without a leading U+FEFF, and errors counted plus pending equal the invalid bytes of the input |
| Scanner.ByteScanner.SkipSpace | scanner.go:156-161 | the stream loses its leading blanks; no error is lost |
| Scanner.ByteScanner.SkipEols | scanner.go:79-81 | the stream loses its leading CR/LF run; no error is lost |
| Scanner.ByteScanner.SkipToEol | scanner.go:165-167 | the stream loses everything up to the next CR or LF; no error is lost |
| Scanner.ByteScanner.ScanWord | scanner.go:97-116 | the token, remaining stream and key flag are those of `Lexer.WordLoop` started on the look-ahead character; no error is lost |
| Scanner.ByteScanner.SkipUntilEol | scanner.go:163-172 | the stream loses the rest of the line and the line breaks after it |
| Scanner.ByteScanner.Scan | scanner.go:61-117 | the token, end flag, remaining stream and key flag are those of one `Lexer.LexToken` step |
| Scanner.ByteScanner.ScanAll | scanner.go:119-134 | the tokens are `Lexer.Lex` of the stream, which is then exhausted, and every invalid byte has been counted |
| Parser.ParseLineAt | parser.go:111-186 | end of input consumes everything; any other line consumes at least one token and never passes the end |
| Parser.Lines | parser.go:59-69 | the lines read up to end of input, none of them the end itself |
| Parser.Parser.constructor | parser.go:43-45 | the cursor starts at the first token |
| Parser.Parser.PeekToken | parser.go:197-202 | there is a token exactly when the cursor is before the end, and it is the token at the cursor |
| Parser.Parser.PopToken | parser.go:188-195 | the token at the cursor and a cursor one further on, or nothing and the cursor unchanged at the end |
| Parser.Parser.ParseLine | parser.go:111-186 | the line and the new cursor are those of `ParseLineAt` at the old cursor |
| Parser.Parser.ParseAll | parser.go:47-109 | groups, sitemaps and errors are `ParseTokens` of the tokens, and every token is consumed |
| Parser.FinalToken | parser.go:118-126 | a last token with nothing after it is an "Unexpected EOF" error when it has a non-blank character, otherwise a clean end |
| Parser.StringKeyTakesNextToken | parser.go:132-138 | User-agent, Allow, Disallow and Sitemap consume the next token whatever it is, as their value; an empty value gives an ignored line, any other gives a line of the key's type with that key and value |
| Parser.KeysIgnoreCase | parser.go:143 | two keys equal up to case read the same line type and value and consume the same tokens |
| Parser.CrawlDelayTakesNextToken | parser.go:171-180 | Crawl-delay always consumes its value; the line fails exactly when the value does not parse |
| Parser.OtherKeyTakesItselfOnly | parser.go:144-146 | an unknown key, and a `"\n"` key, consume only themselves and give an ignored or unknown line |
| Parser.GroupPerUserAgentLine | parser.go:71-77 | one group per User-agent line, in file order, with that line's value as agent |
| Parser.SitemapsInFileOrder | parser.go:92-93 | the sitemaps are the Sitemap values in file order, whether or not a group is open |
| Parser.RulesInFileOrder | parser.go:78-91 | the rules of all groups, in order, are the Allow/Disallow lines with a group open, in file order |
| Parser.ErrorsCounted | parser.go:67-99 | one error per failed line and one per Allow, Disallow or Crawl-delay line before the first User-agent |
| Parser.ParseOutputFromLines | parser.go:47-109 | for a whole token list: agents, sitemaps, rules and the number of errors are as the four lemmas above state |
| Parser.LastDelayCons | parser.go:94-99 | the last Crawl-delay value after a first line is the last one seen starting from that line's delay |
| Parser.GroupsInSpans | parser.go:71-99 | from any loop state, the final groups are the closed ones, the open one extended by the lines up to the next User-agent line, then one group per later User-agent line read off its own lines |
| Parser.GroupsFromSpans | parser.go:47-109 | group by group, the parsed groups are `GroupsFrom` of the lines from the first User-agent line: group i has the i-th User-agent value as agent, the Allow/Disallow lines up to the next User-agent line as rules, in order, and the last Crawl-delay value among them (0 when none) as delay |
| Matching.Group.FindRule | robotstxt.go:363-389 | the rule with the strictly greatest match, the earliest on ties, none when no rule matches; the rule found is one of the group's and matches |
| Matching.Group.Test | robotstxt.go:343-351 | the verdict of the deciding rule, and allowed when no rule matches |
| Matching.GlobSource | google_test.go:160-171 | the expression source turns `*` into `.*`: its length is the path's plus one per `*`, and it equals the path when there is no `*` |
| Matching.GlobSourceAppend | google_test.go:167 | the source of two joined wildcard paths is the two sources joined, so `/path*l$` reads `/path` + `.*` + `l$` |
| Matching.GlobMatch | robotstxt.go:368 | a path of `*` only matches every path; the empty path is matched exactly by paths of `*` with at most a final `$` |
| Matching.FirstMax | robotstxt.go:366-387 | none exactly when no score beats the floor; otherwise an index whose score beats the floor, is the greatest, and beats every earlier score |
| Matching.GlobLiteral | robotstxt.go:381 | without `*` or `$` a wildcard path matches exactly the paths it is a prefix of |
| Matching.GlobAnchored | robotstxt.go:368 | a final `$` makes the match exact |
| Matching.GlobStarAnywhere | robotstxt.go:368 | a leading `*` lets the rest match at any position |
| Matching.LongestMatchDecides | robotstxt.go:372-385 | the rule whose match is strictly longer than all others decides |
| Matching.TieGoesToEarlierRule | robotstxt.go:382 | on equal match lengths the earlier rule decides, Allow or Disallow |
| Matching.UnmatchedIsAllowed | robotstxt.go:343-351 | a path no rule matches is allowed |
| Matching.EmptyGroupAllowsAll | robotstxt.go:68 | the empty group allows every path |
| Matching.RootRuleDecides | google_test.go:177-182 | a literal `/` with no earlier match and no longer later match decides every path, the empty one included |
| Matching.MoreSpecificAllowWins | google_test.go:275-279 | `Disallow: d` then `Allow: a` with `d` a proper prefix of `a`: allowed exactly under `a` or outside `d` |
| Matching.RootDisallowedExceptAllow | google_test.go:271-274 | `Disallow: /` then `Allow: a`: allowed exactly under `a` |
| Robots.AgentScores | robotstxt.go:209-216 | one score per group: its key's length when it is a prefix of the agent and not `*` |
| Robots.StarIndex | robotstxt.go:204 | the first group with agent `*`, none exactly when there is no such group |
| Robots.SelectGroup | robotstxt.go:200-223 | the key `*` comes with the first `*` group, or the empty group when there is none; any other key comes with a group of the document stored under that key |
| Robots.SelectedIsLongestPrefix | robotstxt.go:200-223 | the chosen key is `*` or a prefix of the lower-cased agent longer than the floor and at least as long as every other matching key; the group is the first `*` group (or the empty one) for `*`, otherwise a group of the document whose agent is the chosen key |
| Robots.OneCharKeyNeverBeatsStar | google_test.go:89-104 | with a `*` group a one-character key is never chosen |
| Robots.NoMatchFallsBackToEmptyGroup | robotstxt.go:219-221 | no `*` and no matching key: the empty group under `*`, which allows every path |
| Robots.MostSpecificAgentWins | google_test.go:89-104 | a lower-case key longer than every other matching key is chosen |
| Robots.SelectionIgnoresOrder | robotstxt.go:209 | with unique keys, two orderings of the same groups select the same group |
| Robots.RobotsData.constructor | robotstxt.go:27-34 | the fields hold the given groups, flags and sitemaps |
| Robots.RobotsData.SetGroups | robotstxt.go:225-227 | the groups are replaced |
| Robots.RobotsData.FindGroupWithGroupId | robotstxt.go:200-223 | the key and group are `SelectGroup`'s |
| Robots.RobotsData.FindGroup | robotstxt.go:195-198 | the group is `SelectGroup`'s |
| Robots.RobotsData.TestAgent | robotstxt.go:157-170 | true on allow-all, false on disallow-all, otherwise the verdict of the agent's group |
| Robots.RobotsData.TestGroup | robotstxt.go:172-181 | true on allow-all, false on disallow-all, otherwise the given group's verdict |
| Robots.RobotsData.AllDisallowed | robotstxt.go:183-186 | the corrected answer read off the flags: true exactly on the disallow-all document (the disallow-all flag without the allow-all one, as a 5xx status loads), on which no path is allowed to any agent; never on the allow-all document |
| Robots.RobotsData.TestDisallowAll | robotstxt.go:183-186 | as written, the negation of the disallow-all flag: false on the disallow-all document, true whenever the flag is clear |
| Robots.TestDisallowAllInverted | robotstxt.go:183-186 | `TestDisallowAll` is false on the disallow-all document and true on the allow-all one, and true on the parsed `User-agent: *` / `Disallow: /` document although that denies every path to every agent |
| Robots.ParseBody | robotstxt.go:117-151 | never the disallow-all document; allow-all exactly when the body is blank, the stripped text is empty or has no tokens; otherwise a parse error exactly when the parser reported errors, and the parsed groups and sitemaps exactly when it reported none |
| Robots.BlankBodyAllowsEverything | robotstxt_test.go:60-65 | a body of white space only, the empty one included, allows everything |
| Robots.Load | robotstxt.go:70-92 | disallow-all exactly for 5xx, allow-all for 4xx, a status error exactly for a status outside 2xx, 4xx and 5xx, and a parse error only for 2xx |
| Robots.StatusPolicy | robotstxt.go:70-92 | 2xx parses the body, 4xx allows every path, 5xx denies every path, any other status is an error |
| Robots.RealizedAnswers | robotstxt.go:157-170 | a loaded document answers `TestAgent` as its outcome says, and a failed load answers nothing |
| Robots.Tokenize | robotstxt.go:133-136 | a fresh scanner fed the whole text yields `Lexer.Lex` of its decoded characters without a leading byte-order mark |
| Robots.FromBytes | robotstxt.go:117-151 | the result holds `ParseBody`'s document |
| Robots.FromStatusAndBytes | robotstxt.go:70-92 | the result holds `Load`'s document |

## Left out

- I/O. `FromResponse`, `FromString`, `FromStatusAndString` and the command-line
  checker are not modelled. They only read or convert their input.
- `stripHtml` is a parameter. The regular expression it applies is a Go
  `regexp` call.
- `parseFloat` is a parameter returning `Option<real>`. Crawl delays are
  reals, not `float64` or `time.Duration`.
- Host: `parseAll` is called in robotstxt.go with four results, one of them a
  host, but parser.go returns three. The model follows parser.go and has no
  `Host`.
- Lower-casing is ASCII only (`Text.AsciiLower`). `strings.ToLower` also maps
  non-ASCII letters. `bytes.TrimSpace` is modelled by `IsSpaceByte` (ASCII
  white space only).
- Lengths count characters, not UTF-8 bytes. Key, path and expression lengths
  in `findRule` and `FindGroupWithGroupId` are equal to Go's for ASCII text.
- Matching.GlobSource: does not escape regular-expression metacharacters. Go's
  expression source would escape them, which makes the source longer.
- Matching.GlobMatch: is anchored at both the start and the final `$`. It models
  wildcard paths, not the Go regex engine. The parser in parser.go never builds
  wildcard rules. In this model `Pattern` rules reach `findRule` only through
  `SetGroups`; in Go the JSON unmarshalling (robotstxt.go:331-337) also compiles
  them, and it is not part of this model.
- The JSON (un)marshalling of documents, groups and rules is not part of this
  model.
- Scanner diagnostics are not modelled: stderr output, `Quiet`, line and column
  bookkeeping, and the pool of token buffers.
- Scanner.ByteScanner.ScanAll: does not return an error value. `Scan` reports
  only end of input, so the error branch of `ScanAll` cannot be taken.
- Scanner.ByteScanner.Scan: omits the guard on `lastChunk` and an offset past
  the buffer. The offset never passes the buffer's end, so the guard cannot
  fire.
- The `"*"` entry of the group map is the first group whose agent is `*`. With
  one group per key, as a map has, this is the only one.
- The allow-all and disallow-all documents are fresh objects, not the shared
  singletons of robotstxt.go:66-67. The aliasing is not captured: in Go,
  `SetGroups` on a document loaded from a 4xx status changes the shared
  allow-all object (robotstxt.go:82, 225-227), so every later 4xx load returns
  a document with those groups and `FindGroup` on it finds them; in the model
  each load has its own empty groups.
- Printing errors in `parseAll` and the text of `ParseError` are not modelled.
  The errors are a datatype.
- Tests that expect behaviour parser.go does not have are not turned into
  lemmas:
  - merged consecutive User-agent lines;
  - `fish/` read as `/fish/`;
  - a trailing `Disallow: ` without an error;
  - `TestRobotstxtOrgCase2` (robotstxt_test.go:190-196): the stored agents keep
    their case (parser.go:77) while the queried agent is lower-cased
    (robotstxt.go:203), so a capitalised key never matches; what the choice does
    with a lower-case key is stated by `Robots.MostSpecificAgentWins`;
  - the wildcard and `$` cases of the matching and precedence tests, since the
    parser builds only literal rules.

## Findings

| source | as written | input that shows it | evidently intended | confidence | as-written member | corrected member |
|---|---|---|---|---|---|---|
| robotstxt.go:183-186 | `TestDisallowAll` returns the negation of the disallow-all flag | the document loaded from status 500: every path is denied, yet `TestDisallowAll` answers false; on the status-404 document it answers true | true on the disallow-all document (status 5xx), whose flag denies every URL, as its doc comment says | not executed | Robots.TestDisallowAllInverted | Robots.RobotsData.AllDisallowed |
