/**
 * The token parser of parser.go: a cursor over the scanner's tokens that reads one
 * line at a time (a key and, for the known keys, the token after it as value), and
 * the loop of `parseAll` that turns the lines into groups, sitemaps and errors.
 *
 * `ParseLineAt` and `Lines` give the lines of a token list, `Fold` the
 * accumulation; the methods of class `Parser` are proved to compute them.
 */
module Parser {
  import opened Wrappers
  import Text
  import opened Matching

  /** `lineType`. */
  datatype LineType = Ignore | Unknown | UserAgent | Allow | Disallow | CrawlDelay | Sitemap

  /** `lineInfo`: the line's type, its key as written, its string or numeric value. */
  datatype LineInfo = LineInfo(t: LineType, key: string, vs: string, vf: real)

  /** The non-fatal errors `parseAll` collects; `at` is the cursor position. */
  datatype ParseError =
    | UnexpectedEof(at: nat, token: string)
    | BadCrawlDelay(value: string)
    | BeforeUserAgent(directive: LineType, at: nat)

  /** What `parseLine` returns: end of input, an error, or a line. */
  datatype LineResult = Eof | Failed(err: ParseError) | Parsed(info: LineInfo)

  const IgnoredLine := LineInfo(Ignore, [], [], 0.0)

  /** The cut set of the blank-token test in `parseLine`. */
  predicate IsBlankChar(c: char)
  {
    c == ' ' || c == '\t' || c == '\U{0B}' || c == '\n' || c == '\r'
  }

  predicate IsUserAgentKey(key: string)
  {
    key == "user-agent" || key == "useragent"
  }

  predicate IsCrawlDelayKey(key: string)
  {
    key == "crawl-delay" || key == "crawldelay"
  }

  /** The line type of a lower-cased key that takes a string value. */
  function StringKeyType(key: string): Option<LineType>
  {
    if IsUserAgentKey(key) then Some(UserAgent)
    else if key == "disallow" then Some(Disallow)
    else if key == "allow" then Some(Allow)
    else if key == "sitemap" then Some(Sitemap)
    else None
  }

  /** `returnStringVal`: an empty value turns the line into an ignored one. */
  function StringValue(t: LineType, key: string, value: string): LineResult
  {
    if value != [] then Parsed(LineInfo(t, key, value, 0.0)) else Parsed(IgnoredLine)
  }

  /**
   * `parseLine` with the cursor at `pos`: the line read and the position after it.
   * Crawl-delay values are read by `parseFloat`, `None` standing for a failure.
   */
  function ParseLineAt(tokens: seq<string>, pos: nat, parseFloat: string -> Option<real>): (out: (LineResult, nat))
    requires pos <= |tokens|
    ensures out.0 == Eof ==> out.1 == |tokens|
    ensures out.0 != Eof ==> pos < out.1 <= |tokens|
  {
    if pos == |tokens| then (Eof, pos)
    else
      var t1 := tokens[pos];
      if pos + 1 == |tokens| then
        if Text.Trim(t1, IsBlankChar) != [] then (Failed(UnexpectedEof(pos + 1, t1)), pos + 1)
        else (Eof, pos + 1)
      else
        var t2 := tokens[pos + 1];
        var key := Text.AsciiLower(t1);
        if key == "\n" then (Parsed(IgnoredLine), pos + 1)
        else if StringKeyType(key).Some? then (StringValue(StringKeyType(key).value, t1, t2), pos + 2)
        else if IsCrawlDelayKey(key) then
          match parseFloat(t2)
          case None => (Failed(BadCrawlDelay(t2)), pos + 2)
          case Some(v) => (Parsed(LineInfo(CrawlDelay, t1, [], v)), pos + 2)
        else (Parsed(LineInfo(Unknown, t1, [], 0.0)), pos + 1)
  }

  /** A line read by `parseLine` and the cursor position after it. */
  datatype Line = Line(res: LineResult, at: nat)

  /** Every line `parseAll` reads from `pos` on, up to the end of input. */
  function Lines(tokens: seq<string>, pos: nat, parseFloat: string -> Option<real>): (ls: seq<Line>)
    requires pos <= |tokens|
    ensures forall i :: 0 <= i < |ls| ==> ls[i].res != Eof
    decreases |tokens| - pos
  {
    var (res, next) := ParseLineAt(tokens, pos, parseFloat);
    if res == Eof then [] else [Line(res, next)] + Lines(tokens, next, parseFloat)
  }

  /** The state of `parseAll`'s loop: the closed groups, the open one, sitemaps, errors. */
  datatype Acc = Acc(groups: seq<Group>, cur: Option<Group>, sitemaps: seq<string>, errs: seq<ParseError>)

  const Start := Acc([], None, [], [])

  /** The groups, with the open one closed. */
  function Close(acc: Acc): seq<Group>
  {
    if acc.cur.Some? then acc.groups + [acc.cur.value] else acc.groups
  }

  /** A rule line: appended to the open group, or an error when no group is open. */
  function AddRule(acc: Acc, r: Rule, t: LineType, at: nat): Acc
  {
    if acc.cur.None? then acc.(errs := acc.errs + [BeforeUserAgent(t, at)])
    else acc.(cur := Some(acc.cur.value.(rules := acc.cur.value.rules + [r])))
  }

  /** One round of `parseAll`'s loop. */
  function Apply(acc: Acc, l: Line): Acc
  {
    match l.res
    case Eof => acc
    case Failed(e) => acc.(errs := acc.errs + [e])
    case Parsed(li) =>
      match li.t
      case UserAgent => acc.(groups := Close(acc), cur := Some(Group(li.vs, [], 0.0)))
      case Disallow => AddRule(acc, Literal(li.vs, false), Disallow, l.at)
      case Allow => AddRule(acc, Literal(li.vs, true), Allow, l.at)
      case Sitemap => acc.(sitemaps := acc.sitemaps + [li.vs])
      case CrawlDelay =>
        if acc.cur.None? then acc.(errs := acc.errs + [BeforeUserAgent(CrawlDelay, l.at)])
        else acc.(cur := Some(acc.cur.value.(crawlDelay := li.vf)))
      case Ignore => acc
      case Unknown => acc
  }

  function Fold(lines: seq<Line>, acc: Acc): Acc
  {
    if lines == [] then acc else Fold(lines[1..], Apply(acc, lines[0]))
  }

  datatype Parsed = ParseOutput(groups: seq<Group>, sitemaps: seq<string>, errs: seq<ParseError>)

  /** What `parseAll` returns for a token list. */
  function ParseTokens(tokens: seq<string>, parseFloat: string -> Option<real>): Parsed
  {
    var acc := Fold(Lines(tokens, 0, parseFloat), Start);
    ParseOutput(Close(acc), acc.sitemaps, acc.errs)
  }

  /** `parser`: the tokens and a cursor into them. */
  class Parser {
    const tokens: seq<string>
    var pos: nat

    /** `newParser`. */
    constructor (tokens: seq<string>)
      ensures this.tokens == tokens && pos == 0
    {
      this.tokens := tokens;
      pos := 0;
    }

    /** `peekToken`: the token at the cursor, if any; the cursor stays. */
    function PeekToken(): (t: Option<string>)
      reads this
      ensures t.Some? <==> pos < |tokens|
      ensures t.Some? ==> t.value == tokens[pos]
    {
      if pos >= |tokens| then None else Some(tokens[pos])
    }

    /** `popToken`: the token at the cursor, which then moves past it. */
    method PopToken() returns (tok: string, ok: bool)
      modifies this`pos
      ensures ok <==> old(pos) < |tokens|
      ensures ok ==> tok == tokens[old(pos)] && pos == old(pos) + 1
      ensures !ok ==> tok == [] && pos == old(pos)
    {
      var t := PeekToken();
      if t.None? {
        return [], false;
      }
      pos := pos + 1;
      return t.value, true;
    }

    /** `parseLine`. */
    method ParseLine(parseFloat: string -> Option<real>) returns (res: LineResult)
      requires pos <= |tokens|
      modifies this`pos
      ensures (res, pos) == ParseLineAt(tokens, old(pos), parseFloat)
    {
      var t1, ok1 := PopToken();
      if !ok1 {
        return Eof;
      }
      var t2 := PeekToken();
      if t2.None? {
        if Text.Trim(t1, IsBlankChar) != [] {
          return Failed(UnexpectedEof(pos, t1));
        }
        return Eof;
      }
      var key := Text.AsciiLower(t1);
      if key == "\n" {
        return Parsed(IgnoredLine);
      }
      var stringType := StringKeyType(key);
      if stringType.Some? {
        var _, _ := PopToken();
        return StringValue(stringType.value, t1, t2.value);
      }
      if IsCrawlDelayKey(key) {
        var _, _ := PopToken();
        var cd := parseFloat(t2.value);
        if cd.None? {
          return Failed(BadCrawlDelay(t2.value));
        }
        return Parsed(LineInfo(CrawlDelay, t1, [], cd.value));
      }
      return Parsed(LineInfo(Unknown, t1, [], 0.0));
    }

    /** `parseAll`: every line from the first token on, then the open group closed. */
    method ParseAll(parseFloat: string -> Option<real>) returns (groups: seq<Group>, sitemaps: seq<string>, errs: seq<ParseError>)
      modifies this`pos
      ensures ParseOutput(groups, sitemaps, errs) == ParseTokens(tokens, parseFloat)
      ensures pos == |tokens|
    {
      var cur: Option<Group> := None;
      groups, sitemaps, errs := [], [], [];
      pos := 0;
      while true
        invariant pos <= |tokens|
        invariant Fold(Lines(tokens, pos, parseFloat), Acc(groups, cur, sitemaps, errs)) == Fold(Lines(tokens, 0, parseFloat), Start)
        decreases |tokens| - pos
      {
        ghost var acc := Acc(groups, cur, sitemaps, errs);
        ghost var from := pos;
        var res := ParseLine(parseFloat);
        if res == Eof {
          assert Lines(tokens, from, parseFloat) == [];
          if cur.Some? {
            groups := groups + [cur.value];
          }
          break;
        }
        assert Lines(tokens, from, parseFloat) == [Line(res, pos)] + Lines(tokens, pos, parseFloat);
        match res {
          case Failed(e) =>
            errs := errs + [e];
          case Parsed(li) =>
            match li.t {
              case UserAgent =>
                if cur.Some? {
                  groups := groups + [cur.value];
                }
                cur := Some(Group(li.vs, [], 0.0));
              case Disallow =>
                if cur.None? {
                  errs := errs + [BeforeUserAgent(Disallow, pos)];
                } else {
                  cur := Some(cur.value.(rules := cur.value.rules + [Literal(li.vs, false)]));
                }
              case Allow =>
                if cur.None? {
                  errs := errs + [BeforeUserAgent(Allow, pos)];
                } else {
                  cur := Some(cur.value.(rules := cur.value.rules + [Literal(li.vs, true)]));
                }
              case Sitemap =>
                sitemaps := sitemaps + [li.vs];
              case CrawlDelay =>
                if cur.None? {
                  errs := errs + [BeforeUserAgent(CrawlDelay, pos)];
                } else {
                  cur := Some(cur.value.(crawlDelay := li.vf));
                }
              case Ignore =>
              case Unknown =>
            }
        }
        assert Acc(groups, cur, sitemaps, errs) == Apply(acc, Line(res, pos));
      }
    }
  }

  // ---- What a line does -------------------------------------------------------

  /**
   * The last token, with nothing after it to be its value: an "Unexpected EOF"
   * error when it has a non-blank character, otherwise a clean end of input.
   */
  lemma FinalToken(tokens: seq<string>, parseFloat: string -> Option<real>)
    requires |tokens| > 0
    ensures var t := tokens[|tokens| - 1];
      ParseLineAt(tokens, |tokens| - 1, parseFloat).0
        == if exists i :: 0 <= i < |t| && !IsBlankChar(t[i]) then Failed(UnexpectedEof(|tokens|, t)) else Eof
  {
    Text.TrimEmptyIff(tokens[|tokens| - 1], IsBlankChar);
  }

  /**
   * A known string key takes the next token as its value whatever it is, a line
   * break included; only an empty value makes the line an ignored one.
   */
  lemma StringKeyTakesNextToken(tokens: seq<string>, pos: nat, parseFloat: string -> Option<real>)
    requires pos + 1 < |tokens|
    requires StringKeyType(Text.AsciiLower(tokens[pos])).Some?
    ensures var (res, next) := ParseLineAt(tokens, pos, parseFloat);
      && next == pos + 2
      && res.Parsed?
      && (tokens[pos + 1] == [] ==> res.info == IgnoredLine)
      && (tokens[pos + 1] != [] ==> res.info.vs == tokens[pos + 1] && res.info.key == tokens[pos])
      && (tokens[pos + 1] != [] ==> res.info.t == StringKeyType(Text.AsciiLower(tokens[pos])).value)
  {
    assert Text.AsciiLower(tokens[pos]) != "\n";
  }

  /**
   * The key is read case-insensitively: two keys with the same lower-case form
   * read the same kind of line and consume the same tokens.
   */
  lemma KeysIgnoreCase(tokens: seq<string>, other: seq<string>, pos: nat, parseFloat: string -> Option<real>)
    requires pos + 1 < |tokens| == |other| && other[pos + 1] == tokens[pos + 1]
    requires Text.AsciiLower(other[pos]) == Text.AsciiLower(tokens[pos])
    ensures var (res, next) := ParseLineAt(tokens, pos, parseFloat);
      var (res', next') := ParseLineAt(other, pos, parseFloat);
      && next == next'
      && res.Parsed? == res'.Parsed?
      && (res.Parsed? ==> res.info.t == res'.info.t && res.info.vs == res'.info.vs)
  {
  }

  /** A crawl delay always consumes its value token; an unreadable value is an error. */
  lemma CrawlDelayTakesNextToken(tokens: seq<string>, pos: nat, parseFloat: string -> Option<real>)
    requires pos + 1 < |tokens|
    requires IsCrawlDelayKey(Text.AsciiLower(tokens[pos]))
    ensures var (res, next) := ParseLineAt(tokens, pos, parseFloat);
      && next == pos + 2
      && (res.Failed? <==> parseFloat(tokens[pos + 1]).None?)
      && (res.Parsed? ==> res.info.t == CrawlDelay && Some(res.info.vf) == parseFloat(tokens[pos + 1]))
  {
    assert Text.AsciiLower(tokens[pos]) != "\n";
  }

  /** An unknown key, and the line-break token, are consumed alone. */
  lemma OtherKeyTakesItselfOnly(tokens: seq<string>, pos: nat, parseFloat: string -> Option<real>)
    requires pos + 1 < |tokens|
    requires StringKeyType(Text.AsciiLower(tokens[pos])).None?
    requires !IsCrawlDelayKey(Text.AsciiLower(tokens[pos]))
    ensures var (res, next) := ParseLineAt(tokens, pos, parseFloat);
      next == pos + 1 && res.Parsed? && res.info.t in {Ignore, Unknown}
  {
  }

  // ---- What parseAll makes of the lines -----------------------------------------

  predicate IsUserAgentLine(l: Line)
  {
    l.res.Parsed? && l.res.info.t == UserAgent
  }

  /** The values of the User-agent lines, in file order. */
  function UserAgents(lines: seq<Line>): seq<string>
  {
    if lines == [] then []
    else (if IsUserAgentLine(lines[0]) then [lines[0].res.info.vs] else []) + UserAgents(lines[1..])
  }

  /** The values of the Sitemap lines, in file order. */
  function SitemapValues(lines: seq<Line>): seq<string>
  {
    if lines == [] then []
    else
      (if lines[0].res.Parsed? && lines[0].res.info.t == Sitemap then [lines[0].res.info.vs] else [])
      + SitemapValues(lines[1..])
  }

  /** The rule an Allow or Disallow line stands for. */
  function RuleOf(l: Line): seq<Rule>
  {
    if l.res.Parsed? && l.res.info.t == Allow then [Literal(l.res.info.vs, true)]
    else if l.res.Parsed? && l.res.info.t == Disallow then [Literal(l.res.info.vs, false)]
    else []
  }

  function RuleLines(lines: seq<Line>): seq<Rule>
  {
    if lines == [] then [] else RuleOf(lines[0]) + RuleLines(lines[1..])
  }

  /** The lines before the first User-agent line, and the lines from it on. */
  function BeforeFirstUserAgent(lines: seq<Line>): seq<Line>
  {
    if lines == [] || IsUserAgentLine(lines[0]) then [] else [lines[0]] + BeforeFirstUserAgent(lines[1..])
  }

  function FromFirstUserAgent(lines: seq<Line>): (r: seq<Line>)
    ensures |r| <= |lines|
    ensures r == [] || IsUserAgentLine(r[0])
  {
    if lines == [] || IsUserAgentLine(lines[0]) then lines else FromFirstUserAgent(lines[1..])
  }

  predicate NeedsGroup(l: Line)
  {
    l.res.Parsed? && l.res.info.t in {Allow, Disallow, CrawlDelay}
  }

  function CountNeedingGroup(lines: seq<Line>): nat
  {
    if lines == [] then 0 else (if NeedsGroup(lines[0]) then 1 else 0) + CountNeedingGroup(lines[1..])
  }

  function CountFailed(lines: seq<Line>): nat
  {
    if lines == [] then 0 else (if lines[0].res.Failed? then 1 else 0) + CountFailed(lines[1..])
  }

  function Agents(groups: seq<Group>): seq<string>
  {
    if groups == [] then [] else [groups[0].agent] + Agents(groups[1..])
  }

  function AllRules(groups: seq<Group>): seq<Rule>
  {
    if groups == [] then [] else groups[0].rules + AllRules(groups[1..])
  }

  lemma {:induction false} AgentsAppend(groups: seq<Group>, g: Group)
    ensures Agents(groups + [g]) == Agents(groups) + [g.agent]
    decreases |groups|
  {
    if groups != [] {
      assert (groups + [g])[1..] == groups[1..] + [g];
      AgentsAppend(groups[1..], g);
    }
  }

  lemma {:induction false} AllRulesAppend(groups: seq<Group>, g: Group)
    ensures AllRules(groups + [g]) == AllRules(groups) + g.rules
    decreases |groups|
  {
    if groups != [] {
      assert (groups + [g])[1..] == groups[1..] + [g];
      AllRulesAppend(groups[1..], g);
    }
  }

  /** One round of the loop adds a group exactly for a User-agent line. */
  lemma AgentsStep(acc: Acc, l: Line)
    ensures Agents(Close(Apply(acc, l))) == Agents(Close(acc)) + (if IsUserAgentLine(l) then [l.res.info.vs] else [])
  {
    var next := Apply(acc, l);
    if IsUserAgentLine(l) {
      AgentsAppend(Close(acc), next.cur.value);
    } else if acc.cur.Some? {
      AgentsAppend(acc.groups, acc.cur.value);
      AgentsAppend(next.groups, next.cur.value);
    }
  }

  /**
   * One group per User-agent line, in file order: every User-agent line closes
   * the open group and opens a new one, and the last is closed at the end.
   */
  lemma {:induction false} GroupPerUserAgentLine(lines: seq<Line>, acc: Acc)
    ensures Agents(Close(Fold(lines, acc))) == Agents(Close(acc)) + UserAgents(lines)
    decreases |lines|
  {
    if lines != [] {
      AgentsStep(acc, lines[0]);
      GroupPerUserAgentLine(lines[1..], Apply(acc, lines[0]));
    }
  }

  /** Sitemaps are collected in file order, with or without an open group. */
  lemma {:induction false} SitemapsInFileOrder(lines: seq<Line>, acc: Acc)
    ensures Fold(lines, acc).sitemaps == acc.sitemaps + SitemapValues(lines)
    decreases |lines|
  {
    if lines != [] {
      SitemapsInFileOrder(lines[1..], Apply(acc, lines[0]));
    }
  }

  /**
   * One round of the loop adds the line's rule exactly when a group is open after
   * it, and a group is open from the first User-agent line on.
   */
  lemma RulesStep(acc: Acc, l: Line)
    ensures Apply(acc, l).cur.Some? <==> acc.cur.Some? || IsUserAgentLine(l)
    ensures AllRules(Close(Apply(acc, l)))
         == AllRules(Close(acc)) + (if acc.cur.Some? then RuleOf(l) else [])
  {
    var next := Apply(acc, l);
    if IsUserAgentLine(l) {
      assert next.groups == Close(acc) && next.cur.Some? && next.cur.value.rules == [];
      AllRulesAppend(Close(acc), next.cur.value);
      if acc.cur.Some? {
        AllRulesAppend(acc.groups, acc.cur.value);
      }
    } else if acc.cur.Some? {
      ApplyInGroup(acc, l);
      AllRulesAppend(acc.groups, acc.cur.value);
      AllRulesAppend(next.groups, next.cur.value);
    } else {
      ApplyOutsideGroup(acc, l);
    }
  }

  /** Inside a group, a line other than User-agent adds its rule, if any, to it. */
  lemma ApplyInGroup(acc: Acc, l: Line)
    requires acc.cur.Some? && !IsUserAgentLine(l)
    ensures Apply(acc, l).groups == acc.groups && Apply(acc, l).cur.Some?
    ensures Apply(acc, l).cur.value.rules == acc.cur.value.rules + RuleOf(l)
    ensures Apply(acc, l).cur.value
         == acc.cur.value.(rules := acc.cur.value.rules + RuleOf(l), crawlDelay := DelayAfter(l, acc.cur.value.crawlDelay))
  {
    if l.res.Parsed? && l.res.info.t !in {Allow, Disallow} {
      assert RuleOf(l) == [];
      assert acc.cur.value.rules + [] == acc.cur.value.rules;
    }
  }

  /** Outside any group, a line other than User-agent opens none and closes none. */
  lemma ApplyOutsideGroup(acc: Acc, l: Line)
    requires acc.cur.None? && !IsUserAgentLine(l)
    ensures Apply(acc, l).groups == acc.groups && Apply(acc, l).cur.None?
  {
  }

  /**
   * The rules of all groups, in order, are the Allow and Disallow lines that
   * have a group open, in file order: those before the first User-agent line
   * (when none is open yet) are dropped.
   */
  lemma {:induction false} RulesInFileOrder(lines: seq<Line>, acc: Acc)
    ensures AllRules(Close(Fold(lines, acc)))
         == AllRules(Close(acc)) + RuleLines(if acc.cur.Some? then lines else FromFirstUserAgent(lines))
    decreases |lines|
  {
    if lines != [] {
      var l := lines[0];
      RulesStep(acc, l);
      RulesInFileOrder(lines[1..], Apply(acc, l));
    }
  }

  /**
   * One error per failed line, and one per Allow, Disallow or Crawl-delay line met
   * while no group is open (those before the first User-agent line).
   */
  lemma {:induction false} ErrorsCounted(lines: seq<Line>, acc: Acc)
    ensures |Fold(lines, acc).errs|
         == |acc.errs| + CountFailed(lines) + (if acc.cur.Some? then 0 else CountNeedingGroup(BeforeFirstUserAgent(lines)))
    decreases |lines|
  {
    if lines != [] {
      ErrorsCounted(lines[1..], Apply(acc, lines[0]));
      if acc.cur.None? && !IsUserAgentLine(lines[0]) {
        assert BeforeFirstUserAgent(lines) == [lines[0]] + BeforeFirstUserAgent(lines[1..]);
      }
    }
  }

  /** The output of `parseAll` read off the lines of the token list. */
  lemma ParseOutputFromLines(tokens: seq<string>, parseFloat: string -> Option<real>)
    ensures var out := ParseTokens(tokens, parseFloat);
      var lines := Lines(tokens, 0, parseFloat);
      && Agents(out.groups) == UserAgents(lines)
      && out.sitemaps == SitemapValues(lines)
      && AllRules(out.groups) == RuleLines(FromFirstUserAgent(lines))
      && |out.errs| == CountFailed(lines) + CountNeedingGroup(BeforeFirstUserAgent(lines))
  {
    var lines := Lines(tokens, 0, parseFloat);
    GroupPerUserAgentLine(lines, Start);
    SitemapsInFileOrder(lines, Start);
    RulesInFileOrder(lines, Start);
    ErrorsCounted(lines, Start);
  }

  // ---- Each group read off its own lines ------------------------------------------

  /** The crawl delay of a group after line `l`, having been `d` before it. */
  function DelayAfter(l: Line, d: real): real
  {
    if l.res.Parsed? && l.res.info.t == CrawlDelay then l.res.info.vf else d
  }

  /** The value of the last Crawl-delay line among `lines`, or `d` when there is none. */
  function LastDelay(lines: seq<Line>, d: real): real
  {
    if lines == [] then d else DelayAfter(lines[|lines| - 1], LastDelay(lines[..|lines| - 1], d))
  }

  /**
   * The groups that lines starting at a User-agent line describe: one per
   * User-agent line, keyed by its value, whose rules are the Allow and Disallow
   * lines up to the next User-agent line, in file order, and whose crawl delay is
   * the last Crawl-delay value among those lines (0 when there is none).
   */
  function GroupsFrom(lines: seq<Line>): seq<Group>
    requires lines == [] || IsUserAgentLine(lines[0])
    decreases |lines|
  {
    if lines == [] then []
    else
      var span := BeforeFirstUserAgent(lines[1..]);
      [Group(lines[0].res.info.vs, RuleLines(span), LastDelay(span, 0.0))] + GroupsFrom(FromFirstUserAgent(lines[1..]))
  }

  /** Group `g` once the lines of `span`, none of them a User-agent line, are applied to it. */
  function Extend(g: Group, span: seq<Line>): Group
  {
    Group(g.agent, g.rules + RuleLines(span), LastDelay(span, g.crawlDelay))
  }

  /** The last Crawl-delay value after a first line is the one seen from that line's delay on. */
  lemma {:induction false} LastDelayCons(l: Line, lines: seq<Line>, d: real)
    ensures LastDelay([l] + lines, d) == LastDelay(lines, DelayAfter(l, d))
    decreases |lines|
  {
    if lines == [] {
      assert ([l] + lines)[..0] == [];
    } else {
      var n := |lines|;
      assert ([l] + lines)[..n] == [l] + lines[..n - 1];
      LastDelayCons(l, lines[..n - 1], d);
    }
  }

  lemma ExtendCons(g: Group, l: Line, span: seq<Line>)
    ensures Extend(g, [l] + span)
         == Extend(g.(rules := g.rules + RuleOf(l), crawlDelay := DelayAfter(l, g.crawlDelay)), span)
  {
    assert ([l] + span)[1..] == span;
    LastDelayCons(l, span, g.crawlDelay);
  }

  /**
   * From any loop state, the groups at the end are the closed ones, the open one
   * extended by the lines up to the next User-agent line, and one group per
   * User-agent line after that, read off its own lines.
   */
  lemma {:induction false} GroupsInSpans(lines: seq<Line>, acc: Acc)
    ensures Close(Fold(lines, acc))
         == (if acc.cur.Some? then acc.groups + [Extend(acc.cur.value, BeforeFirstUserAgent(lines))] else acc.groups)
            + GroupsFrom(FromFirstUserAgent(lines))
    decreases |lines|
  {
    if lines == [] {
      if acc.cur.Some? {
        assert acc.cur.value.rules + [] == acc.cur.value.rules;
      }
    } else {
      var l := lines[0];
      var next := Apply(acc, l);
      GroupsInSpans(lines[1..], next);
      if IsUserAgentLine(l) {
        var span := BeforeFirstUserAgent(lines[1..]);
        assert [] + RuleLines(span) == RuleLines(span);
        if acc.cur.Some? {
          assert acc.cur.value.rules + [] == acc.cur.value.rules;
        }
      } else if acc.cur.Some? {
        ApplyInGroup(acc, l);
        ExtendCons(acc.cur.value, l, BeforeFirstUserAgent(lines[1..]));
      } else {
        ApplyOutsideGroup(acc, l);
      }
    }
  }

  /**
   * Each group `parseAll` returns is read off its own lines: the User-agent line
   * that opens it and the lines up to the next one.
   */
  lemma GroupsFromSpans(tokens: seq<string>, parseFloat: string -> Option<real>)
    ensures ParseTokens(tokens, parseFloat).groups == GroupsFrom(FromFirstUserAgent(Lines(tokens, 0, parseFloat)))
  {
    var lines := Lines(tokens, 0, parseFloat);
    GroupsInSpans(lines, Start);
    assert [] + GroupsFrom(FromFirstUserAgent(lines)) == GroupsFrom(FromFirstUserAgent(lines));
  }
}
