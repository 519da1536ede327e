/**
 * The decision logic of robotstxt.go: loading a document from an HTTP status and
 * a body, choosing the group for a user-agent, and answering whether a path may
 * be crawled.
 */
module Robots {
  import opened Wrappers
  import Text
  import opened Utf8
  import Lexer
  import Scanner
  import opened Matching
  import opened Parser

  /** The key of the group that applies to every agent. */
  const AnyGroupId := "*"

  // ---- Choosing the group for an agent ------------------------------------------

  /** How well a group key matches a lower-cased agent: its length when it is a prefix of it. */
  function AgentScore(key: string, agent: string): nat
  {
    if key != AnyGroupId && key <= agent then |key| else 0
  }

  function AgentScores(groups: seq<Group>, agent: string): (s: seq<nat>)
    ensures |s| == |groups|
    ensures forall i :: 0 <= i < |groups| ==> s[i] == AgentScore(groups[i].agent, agent)
  {
    seq(|groups|, i requires 0 <= i < |groups| => AgentScore(groups[i].agent, agent))
  }

  /** The group stored under `*`: the first one with that agent. */
  function StarIndex(groups: seq<Group>): (k: Option<nat>)
    ensures k.None? <==> forall i :: 0 <= i < |groups| ==> groups[i].agent != AnyGroupId
    ensures k.Some? ==> k.value < |groups| && groups[k.value].agent == AnyGroupId
    ensures k.Some? ==> forall i :: 0 <= i < k.value ==> groups[i].agent != AnyGroupId
  {
    if groups == [] then None
    else if groups[0].agent == AnyGroupId then Some(0)
    else
      var k := StarIndex(groups[1..]);
      if k.Some? then Some(k.value + 1) else None
  }

  /** The longest match a key must beat: 1 when there is a `*` group, else 0. */
  function Floor(groups: seq<Group>): nat
  {
    if StarIndex(groups).Some? then 1 else 0
  }

  datatype Selection = Selection(id: string, group: Group)

  /**
   * `FindGroupWithGroupId`: the group whose key is the longest prefix of the
   * lower-cased agent; the `*` group when no key beats length 1; the empty group
   * when there is neither.
   */
  function SelectGroup(groups: seq<Group>, agent: string): (sel: Selection)
    ensures sel.id == AnyGroupId ==>
      sel.group == if StarIndex(groups).Some? then groups[StarIndex(groups).value] else EmptyGroup
    ensures sel.id != AnyGroupId ==>
      exists k :: 0 <= k < |groups| && groups[k] == sel.group && groups[k].agent == sel.id
  {
    var best := FirstMax(AgentScores(groups, Text.AsciiLower(agent)), Floor(groups));
    var star := StarIndex(groups);
    if best.Some? then Selection(groups[best.value].agent, groups[best.value])
    else if star.Some? then Selection(AnyGroupId, groups[star.value])
    else Selection(AnyGroupId, EmptyGroup)
  }

  /**
   * The chosen key is `*` or a prefix of the lower-cased agent longer than every
   * other key that is one, and longer than 1 when there is a `*` group.
   */
  lemma SelectedIsLongestPrefix(groups: seq<Group>, agent: string)
    ensures var sel := SelectGroup(groups, agent);
      var a := Text.AsciiLower(agent);
      && (sel.id == AnyGroupId || (sel.id <= a && |sel.id| > Floor(groups)))
      && (sel.group == EmptyGroup || sel.group in groups)
      && (forall i :: 0 <= i < |groups| && groups[i].agent != AnyGroupId && groups[i].agent <= a ==>
           |groups[i].agent| <= (if sel.id == AnyGroupId then Floor(groups) else |sel.id|))
      && (sel.id == AnyGroupId ==>
           sel.group == if StarIndex(groups).Some? then groups[StarIndex(groups).value] else EmptyGroup)
      && (sel.id != AnyGroupId ==>
           exists k :: 0 <= k < |groups| && groups[k] == sel.group && groups[k].agent == sel.id)
  {
  }

  /** With a `*` group, a one-character key is never chosen. */
  lemma OneCharKeyNeverBeatsStar(groups: seq<Group>, agent: string)
    requires StarIndex(groups).Some?
    ensures |SelectGroup(groups, agent).id| != 1 || SelectGroup(groups, agent).id == AnyGroupId
  {
  }

  /** With no `*` group and no matching key, the empty group is chosen and every path allowed. */
  lemma NoMatchFallsBackToEmptyGroup(groups: seq<Group>, agent: string, path: string)
    requires forall i :: 0 <= i < |groups| ==> groups[i].agent != AnyGroupId
    requires forall i :: 0 <= i < |groups| ==> !(groups[i].agent <= Text.AsciiLower(agent)) || groups[i].agent == []
    ensures SelectGroup(groups, agent) == Selection(AnyGroupId, EmptyGroup)
    ensures Allows(SelectGroup(groups, agent).group, path)
  {
  }

  /**
   * The key with the strictly longest match is chosen: a lower-case key that is a
   * prefix of the agent in any case, longer than 1 and than every other such key.
   */
  lemma MostSpecificAgentWins(groups: seq<Group>, agent: string, k: nat)
    requires k < |groups| && groups[k].agent != AnyGroupId && |groups[k].agent| > 1
    requires Text.IsLowerCase(groups[k].agent)
    requires groups[k].agent <= Text.AsciiLower(agent)
    requires forall i :: 0 <= i < |groups| && i != k && groups[i].agent != AnyGroupId && groups[i].agent <= Text.AsciiLower(agent) ==>
               |groups[i].agent| < |groups[k].agent|
    ensures SelectGroup(groups, agent) == Selection(groups[k].agent, groups[k])
  {
    FirstMaxUnique(AgentScores(groups, Text.AsciiLower(agent)), Floor(groups), k);
  }

  /** No two groups share a key, as in the document's map from keys to groups. */
  predicate UniqueKeys(groups: seq<Group>)
  {
    forall i, j :: 0 <= i < j < |groups| ==> groups[i].agent != groups[j].agent
  }

  lemma PrefixesOfSameLength(x: string, y: string, a: string)
    requires x <= a && y <= a && |x| == |y|
    ensures x == y
  {
    assert x == a[..|x|] && y == a[..|y|];
  }

  /** A key of `groups` that matches better than the floor rules out `FirstMax` finding nothing. */
  lemma KeyBeatsFloor(groups: seq<Group>, a: string, i: nat)
    requires i < |groups| && AgentScore(groups[i].agent, a) > Floor(groups)
    ensures FirstMax(AgentScores(groups, a), Floor(groups)).Some?
    ensures AgentScore(groups[i].agent, a) <= AgentScores(groups, a)[FirstMax(AgentScores(groups, a), Floor(groups)).value]
  {
    var s := AgentScores(groups, a);
    assert s[i] > Floor(groups);
  }

  lemma IndexOf(x: Group, gs: seq<Group>) returns (j: nat)
    requires x in gs
    ensures j < |gs| && gs[j] == x
  {
    j :| 0 <= j < |gs| && gs[j] == x;
  }

  /** Lists with the same groups choose keys of the same length, hence the same key. */
  lemma SameBestKey(g1: seq<Group>, g2: seq<Group>, a: string)
    requires forall g :: g in g1 <==> g in g2
    requires Floor(g1) == Floor(g2)
    ensures FirstMax(AgentScores(g1, a), Floor(g1)).Some? <==> FirstMax(AgentScores(g2, a), Floor(g2)).Some?
    ensures FirstMax(AgentScores(g1, a), Floor(g1)).Some? ==>
      g1[FirstMax(AgentScores(g1, a), Floor(g1)).value].agent == g2[FirstMax(AgentScores(g2, a), Floor(g2)).value].agent
  {
    var b1 := FirstMax(AgentScores(g1, a), Floor(g1));
    var b2 := FirstMax(AgentScores(g2, a), Floor(g2));
    if b1.Some? {
      var j := IndexOf(g1[b1.value], g2);
      KeyBeatsFloor(g2, a, j);
    }
    if b2.Some? {
      var j := IndexOf(g2[b2.value], g1);
      KeyBeatsFloor(g1, a, j);
    }
    if b1.Some? {
      PrefixesOfSameLength(g1[b1.value].agent, g2[b2.value].agent, a);
    }
  }

  /** Lists with the same groups agree on having a `*` group. */
  lemma SameFloor(g1: seq<Group>, g2: seq<Group>)
    requires forall g :: g in g1 <==> g in g2
    ensures Floor(g1) == Floor(g2)
    ensures StarIndex(g1).Some? ==> g1[StarIndex(g1).value] in g2
  {
    var s1, s2 := StarIndex(g1), StarIndex(g2);
    if s1.Some? {
      var j := IndexOf(g1[s1.value], g2);
    }
    if s2.Some? {
      var j := IndexOf(g2[s2.value], g1);
    }
  }

  /**
   * The iteration order over the groups does not matter: two lists holding the
   * same groups under distinct keys choose the same group.
   */
  lemma SelectionIgnoresOrder(g1: seq<Group>, g2: seq<Group>, agent: string)
    requires UniqueKeys(g1) && UniqueKeys(g2)
    requires forall g :: g in g1 <==> g in g2
    ensures SelectGroup(g1, agent) == SelectGroup(g2, agent)
  {
    var a := Text.AsciiLower(agent);
    SameFloor(g1, g2);
    SameBestKey(g1, g2, a);
    var b1 := FirstMax(AgentScores(g1, a), Floor(g1));
    var b2 := FirstMax(AgentScores(g2, a), Floor(g2));
    var s1, s2 := StarIndex(g1), StarIndex(g2);
    if b1.Some? {
      var j := IndexOf(g2[b2.value], g1);
      assert g1[j].agent == g1[b1.value].agent;
      assert j == b1.value;
    } else if s1.Some? {
      var j := IndexOf(g2[s2.value], g1);
      assert g1[j].agent == g1[s1.value].agent;
      assert j == s1.value;
    }
  }

  // ---- The document ---------------------------------------------------------------

  /** `RobotsData`: the groups, the allow-all and disallow-all flags, the sitemaps. */
  class RobotsData {
    var groups: seq<Group>
    var allowAll: bool
    var disallowAll: bool
    var sitemaps: seq<string>

    constructor (groups: seq<Group>, allowAll: bool, disallowAll: bool, sitemaps: seq<string>)
      ensures this.groups == groups && this.allowAll == allowAll
      ensures this.disallowAll == disallowAll && this.sitemaps == sitemaps
    {
      this.groups := groups;
      this.allowAll := allowAll;
      this.disallowAll := disallowAll;
      this.sitemaps := sitemaps;
    }

    /** What `TestAgent` answers. */
    predicate AgentAllowed(path: string, agent: string)
      reads this
    {
      allowAll || (!disallowAll && Allows(SelectGroup(groups, agent).group, path))
    }

    /** `SetGroups`. */
    method SetGroups(groups: seq<Group>)
      modifies this`groups
      ensures this.groups == groups
    {
      this.groups := groups;
    }

    /** `FindGroupWithGroupId`: one pass over the groups keeping the longest matching key. */
    method FindGroupWithGroupId(agent: string) returns (groupId: string, ret: Group)
      ensures Selection(groupId, ret) == SelectGroup(groups, agent)
    {
      var a := Text.AsciiLower(agent);
      var prefixLen := 0;
      var found: Option<Group> := None;
      groupId := [];
      var star := StarIndex(groups);
      if star.Some? {
        found := Some(groups[star.value]);
        prefixLen := 1;
        groupId := AnyGroupId;
      }
      ghost var scores := AgentScores(groups, a);
      ghost var floor := prefixLen;
      ghost var starFound, starId := found, groupId;
      ghost var k: Option<nat> := None;
      for i := 0 to |groups|
        invariant k == FirstMax(scores[..i], floor)
        invariant k.Some? ==> k.value < i
        invariant prefixLen == (if k.Some? then scores[k.value] else floor)
        invariant found == (if k.Some? then Some(groups[k.value]) else starFound)
        invariant groupId == (if k.Some? then groups[k.value].agent else starId)
      {
        assert scores[..i + 1][..i] == scores[..i];
        var key := groups[i].agent;
        if key != AnyGroupId && key <= a {
          var l := |key|;
          if l > prefixLen {
            prefixLen := l;
            found := Some(groups[i]);
            groupId := key;
            k := Some(i);
          }
        }
      }
      assert scores[..|groups|] == scores;
      if found.None? {
        return AnyGroupId, EmptyGroup;
      }
      ret := found.value;
    }

    /** `FindGroup`. */
    method FindGroup(agent: string) returns (ret: Group)
      ensures ret == SelectGroup(groups, agent).group
    {
      var _, g := FindGroupWithGroupId(agent);
      return g;
    }

    /** `TestAgent`: allowed for allow-all, denied for disallow-all, else the agent's group decides. */
    method TestAgent(path: string, agent: string) returns (allowed: bool)
      ensures allowAll ==> allowed
      ensures !allowAll && disallowAll ==> !allowed
      ensures !allowAll && !disallowAll ==> allowed == Allows(SelectGroup(groups, agent).group, path)
      ensures allowed == AgentAllowed(path, agent)
    {
      if allowAll {
        return true;
      }
      if disallowAll {
        return false;
      }
      var g := FindGroup(agent);
      allowed := g.Test(path);
    }

    /** `TestGroup`: as `TestAgent`, with the group given. */
    method TestGroup(path: string, group: Group) returns (allowed: bool)
      ensures allowAll ==> allowed
      ensures !allowAll && disallowAll ==> !allowed
      ensures !allowAll && !disallowAll ==> allowed == Allows(group, path)
    {
      if allowAll {
        return true;
      }
      if disallowAll {
        return false;
      }
      allowed := group.Test(path);
    }

    /** `TestDisallowAll` as written: the negation of the disallow-all flag. */
    predicate TestDisallowAll(): (answer: bool)
      reads this
      ensures AllDisallowed() ==> !answer
      ensures !disallowAll ==> answer
    {
      !disallowAll
    }

    /**
     * The corrected `TestDisallowAll`: whether this is the disallow-all document,
     * the one a 5xx status loads, read off its flags. It does not look at the
     * groups, so a parsed document whose rules deny every path is not one.
     */
    predicate AllDisallowed()
      reads this
      ensures AllDisallowed() ==> forall path, agent :: !AgentAllowed(path, agent)
      ensures allowAll ==> !AllDisallowed()
    {
      disallowAll && !allowAll
    }
  }

  /**
   * `TestDisallowAll` answers false on the disallow-all document, where every
   * path is denied to every agent, and true on the allow-all one; it also
   * answers true on the parsed `User-agent: *` / `Disallow: /` document, which
   * denies every path too.
   */
  lemma TestDisallowAllInverted(r: RobotsData)
    ensures r.disallowAll && !r.allowAll ==>
      !r.TestDisallowAll() && r.AllDisallowed() && forall path, agent :: !r.AgentAllowed(path, agent)
    ensures r.allowAll && !r.disallowAll ==>
      r.TestDisallowAll() && !r.AllDisallowed() && forall path, agent :: r.AgentAllowed(path, agent)
    ensures !r.allowAll && !r.disallowAll && r.groups == [Group(AnyGroupId, [Literal("/", false)], 0.0)] ==>
      r.TestDisallowAll() && !r.AllDisallowed() && forall path, agent :: !r.AgentAllowed(path, agent)
  {
    if !r.allowAll && !r.disallowAll && r.groups == [Group(AnyGroupId, [Literal("/", false)], 0.0)] {
      forall path, agent ensures !r.AgentAllowed(path, agent) {
        var g := r.groups[0];
        assert SelectGroup(r.groups, agent).group == g;
        RootRuleDecides(g, path, 0);
      }
    }
  }

  // ---- Loading ------------------------------------------------------------------

  datatype LoadError = ParseFailed(errs: seq<ParseError>) | UnexpectedStatus(code: int)

  /** The document a status and a body load into, or the error. */
  datatype Outcome =
    | AllowEverything
    | DisallowEverything
    | Document(groups: seq<Group>, sitemaps: seq<string>)
    | Rejected(err: LoadError)

  /** The ASCII white space `bytes.TrimSpace` drops. */
  predicate IsSpaceByte(b: byte)
  {
    b == 32 || 9 <= b <= 13
  }

  /** The tokens the scanner makes of a body. */
  function TokensOf(body: seq<byte>): seq<string>
  {
    Lexer.Lex(Scanner.DropBom(Scanner.Runes(body, 0)), false)
  }

  /**
   * `FromBytes`: a blank body, one that is empty once markup is stripped, or one
   * without tokens allows everything; otherwise the parsed document, or the
   * parser's errors when there are any.
   */
  function ParseBody(body: seq<byte>, stripHtml: seq<byte> -> seq<byte>, parseFloat: string -> Option<real>): (o: Outcome)
    ensures o != DisallowEverything
    ensures o.Rejected? ==> o.err.ParseFailed? && o.err.errs != []
    ensures o.Document? ==> o == Document(ParseTokens(TokensOf(stripHtml(body)), parseFloat).groups,
                                          ParseTokens(TokensOf(stripHtml(body)), parseFloat).sitemaps)
    ensures var blank := Text.Trim(body, IsSpaceByte) == [] || stripHtml(body) == [] || TokensOf(stripHtml(body)) == [];
      && (o == AllowEverything <==> blank)
      && (o.Rejected? <==> !blank && ParseTokens(TokensOf(stripHtml(body)), parseFloat).errs != [])
      && (o.Document? <==> !blank && ParseTokens(TokensOf(stripHtml(body)), parseFloat).errs == [])
  {
    if Text.Trim(body, IsSpaceByte) == [] then AllowEverything
    else
      var text := stripHtml(body);
      if text == [] then AllowEverything
      else
        var tokens := TokensOf(text);
        if tokens == [] then AllowEverything
        else
          var out := ParseTokens(tokens, parseFloat);
          if out.errs != [] then Rejected(ParseFailed(out.errs)) else Document(out.groups, out.sitemaps)
  }

  /** `FromStatusAndBytes`: 2xx parses the body, 4xx allows everything, 5xx denies everything. */
  function Load(statusCode: int, body: seq<byte>, stripHtml: seq<byte> -> seq<byte>, parseFloat: string -> Option<real>): (o: Outcome)
    ensures o == DisallowEverything <==> 500 <= statusCode < 600
    ensures o.Rejected? && o.err.UnexpectedStatus? <==> !(200 <= statusCode < 300 || 400 <= statusCode < 600)
    ensures o.Rejected? && o.err.ParseFailed? ==> 200 <= statusCode < 300
    ensures 400 <= statusCode < 500 ==> o == AllowEverything
  {
    if 200 <= statusCode < 300 then ParseBody(body, stripHtml, parseFloat)
    else if 400 <= statusCode < 500 then AllowEverything
    else if 500 <= statusCode < 600 then DisallowEverything
    else Rejected(UnexpectedStatus(statusCode))
  }

  /** What `TestAgent` answers on the loaded document, `None` when loading fails. */
  function Answer(o: Outcome, path: string, agent: string): Option<bool>
  {
    match o
    case AllowEverything => Some(true)
    case DisallowEverything => Some(false)
    case Document(groups, _) => Some(Allows(SelectGroup(groups, agent).group, path))
    case Rejected(_) => None
  }

  /** A result holds the document of an outcome. */
  predicate Realizes(res: Result<RobotsData, LoadError>, o: Outcome)
    reads if res.Success? then {res.value} else {}
  {
    match o
    case AllowEverything =>
      res.Success? && res.value.allowAll && !res.value.disallowAll && res.value.groups == [] && res.value.sitemaps == []
    case DisallowEverything =>
      res.Success? && !res.value.allowAll && res.value.disallowAll && res.value.groups == [] && res.value.sitemaps == []
    case Document(groups, sitemaps) =>
      res.Success? && !res.value.allowAll && !res.value.disallowAll && res.value.groups == groups && res.value.sitemaps == sitemaps
    case Rejected(e) => res == Failure(e)
  }

  /** A realized document answers `TestAgent` as the outcome says. */
  lemma RealizedAnswers(res: Result<RobotsData, LoadError>, o: Outcome, path: string, agent: string)
    requires Realizes(res, o)
    ensures res.Success? <==> Answer(o, path, agent).Some?
    ensures res.Success? ==> Answer(o, path, agent) == Some(res.value.AgentAllowed(path, agent))
  {
  }

  /**
   * The status policy: a client error allows every path to every agent, a server
   * error denies them all, and a status outside 2xx, 4xx and 5xx is an error.
   */
  lemma StatusPolicy(statusCode: int, body: seq<byte>, stripHtml: seq<byte> -> seq<byte>, parseFloat: string -> Option<real>, path: string, agent: string)
    ensures 400 <= statusCode < 500 ==> Answer(Load(statusCode, body, stripHtml, parseFloat), path, agent) == Some(true)
    ensures 500 <= statusCode < 600 ==> Answer(Load(statusCode, body, stripHtml, parseFloat), path, agent) == Some(false)
    ensures !(200 <= statusCode < 300 || 400 <= statusCode < 600) ==>
      Load(statusCode, body, stripHtml, parseFloat) == Rejected(UnexpectedStatus(statusCode))
    ensures 200 <= statusCode < 300 ==> Load(statusCode, body, stripHtml, parseFloat) == ParseBody(body, stripHtml, parseFloat)
  {
  }

  /** A body of white space only (the empty one included) allows everything. */
  lemma BlankBodyAllowsEverything(body: seq<byte>, stripHtml: seq<byte> -> seq<byte>, parseFloat: string -> Option<real>)
    requires forall i :: 0 <= i < |body| ==> IsSpaceByte(body[i])
    ensures ParseBody(body, stripHtml, parseFloat) == AllowEverything
  {
    Text.TrimEmptyIff(body, IsSpaceByte);
  }

  /** The scanning half of `FromBytes`: a fresh quiet scanner fed the whole text at once. */
  method Tokenize(text: seq<byte>) returns (tokens: seq<string>)
    ensures tokens == TokensOf(text)
  {
    var sc := new Scanner.ByteScanner(true);
    var _ := sc.Feed(text, true);
    tokens := sc.ScanAll();
  }

  /** `FromBytes`. */
  method FromBytes(body: seq<byte>, stripHtml: seq<byte> -> seq<byte>, parseFloat: string -> Option<real>)
    returns (res: Result<RobotsData, LoadError>)
    ensures Realizes(res, ParseBody(body, stripHtml, parseFloat))
  {
    ghost var o := ParseBody(body, stripHtml, parseFloat);
    var trimmed := Text.Trim(body, IsSpaceByte);
    var text := stripHtml(body);
    if |trimmed| == 0 || |text| == 0 {
      assert o == AllowEverything;
      var r := new RobotsData([], true, false, []);
      return Success(r);
    }
    var tokens := Tokenize(text);
    if |tokens| == 0 {
      assert o == AllowEverything;
      var r := new RobotsData([], true, false, []);
      return Success(r);
    }
    var parser := new Parser(tokens);
    var groups, sitemaps, errs := parser.ParseAll(parseFloat);
    assert ParseOutput(groups, sitemaps, errs) == ParseTokens(tokens, parseFloat);
    assert o == if errs != [] then Rejected(ParseFailed(errs)) else Document(groups, sitemaps);
    if |errs| > 0 {
      return Failure(ParseFailed(errs));
    }
    var r := new RobotsData(groups, false, false, sitemaps);
    return Success(r);
  }

  /** `FromStatusAndBytes`. */
  method FromStatusAndBytes(statusCode: int, body: seq<byte>, stripHtml: seq<byte> -> seq<byte>, parseFloat: string -> Option<real>)
    returns (res: Result<RobotsData, LoadError>)
    ensures Realizes(res, Load(statusCode, body, stripHtml, parseFloat))
  {
    if 200 <= statusCode < 300 {
      res := FromBytes(body, stripHtml, parseFloat);
      return;
    }
    if 400 <= statusCode < 500 {
      var r := new RobotsData([], true, false, []);
      return Success(r);
    }
    if 500 <= statusCode < 600 {
      var r := new RobotsData([], false, true, []);
      return Success(r);
    }
    return Failure(UnexpectedStatus(statusCode));
  }
}
