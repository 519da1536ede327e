/**
 * Rule matching inside one group (robotstxt.go `Group.Test`, `findRule`): the rule
 * with the strictly greatest match length decides, the earliest one on ties, and a
 * path no rule matches is allowed.
 */
module Matching {
  import opened Wrappers

  /** A rule as the parser builds it (`Literal`) or as a wildcard path (`Pattern`). */
  datatype Rule = Literal(path: string, allow: bool) | Pattern(glob: string, allow: bool)

  /** A group of rules for one user-agent; the crawl delay is in seconds. */
  datatype Group = Group(agent: string, rules: seq<Rule>, crawlDelay: real)
  {
    /** `findRule`: one pass over the rules keeping the longest match so far. */
    method FindRule(path: string) returns (ret: Option<Rule>)
      ensures ret == RuleFor(rules, path)
      ensures ret.Some? ==> ret.value in rules && Score(ret.value, path) > 0
    {
      ghost var scores := Scores(rules, path);
      ghost var k: Option<nat> := None;
      var prefixLen := 0;
      ret := None;
      for i := 0 to |rules|
        invariant k == FirstMax(scores[..i], 0)
        invariant k.Some? ==> k.value < i
        invariant prefixLen == (if k.Some? then scores[k.value] else 0)
        invariant ret == (if k.Some? then Some(rules[k.value]) else None)
      {
        assert scores[..i + 1][..i] == scores[..i];
        var r := rules[i];
        match r
        case Pattern(glob, _) =>
          if GlobMatch(glob, path) {
            var l := |GlobSource(glob)|;
            if l > prefixLen {
              prefixLen := l;
              ret := Some(r);
              k := Some(i);
            }
          }
        case Literal(p, _) =>
          if p == "/" && prefixLen == 0 {
            prefixLen := 1;
            ret := Some(r);
            k := Some(i);
          } else if p <= path {
            var l := |p|;
            if l > prefixLen {
              prefixLen := l;
              ret := Some(r);
              k := Some(i);
            }
          }
      }
      assert scores[..|rules|] == scores;
    }

    /** `Group.Test`: the deciding rule's verdict, and allowed when no rule matches. */
    method Test(path: string) returns (allowed: bool)
      ensures allowed == Allows(this, path)
      ensures (forall i :: 0 <= i < |rules| ==> Score(rules[i], path) == 0) ==> allowed
    {
      var r := FindRule(path);
      if r.Some? {
        return r.value.allow;
      }
      return true;
    }
  }

  /** The group `FindGroup` falls back on: no agent, no rules, no delay. */
  const EmptyGroup := Group([], [], 0.0)

  /** The source text of the expression a wildcard path stands for: `*` reads `.*`. */
  function GlobSource(glob: string): (src: string)
    ensures |src| == |glob| + multiset(glob)['*']
    ensures (forall i :: 0 <= i < |glob| ==> glob[i] != '*') ==> src == glob
  {
    if glob == [] then []
    else
      assert glob == [glob[0]] + glob[1..];
      (if glob[0] == '*' then ".*" else [glob[0]]) + GlobSource(glob[1..])
  }

  /** The source of a joined wildcard path is the joined sources of its parts. */
  lemma {:induction false} GlobSourceAppend(a: string, b: string)
    ensures GlobSource(a + b) == GlobSource(a) + GlobSource(b)
    decreases |a|
  {
    if a != [] {
      assert (a + b)[0] == a[0] && (a + b)[1..] == a[1..] + b;
      GlobSourceAppend(a[1..], b);
    } else {
      assert a + b == b;
    }
  }

  /**
   * A wildcard path matched against the start of a path: `*` stands for any run
   * of characters and a final `$` for the end of the path.
   */
  predicate GlobMatch(glob: string, s: string): (m: bool)
    ensures (forall i :: 0 <= i < |glob| ==> glob[i] == '*') ==> m
    ensures s == [] ==> (m <==> forall i :: 0 <= i < |glob| ==> glob[i] == '*' || (i == |glob| - 1 && glob[i] == '$'))
    decreases |glob| + |s|
  {
    if glob == [] then true
    else if glob == "$" then assert glob[0] == '$'; s == []
    else if glob[0] == '*' then GlobMatch(glob[1..], s) || (s != [] && GlobMatch(glob, s[1..]))
    else s != [] && s[0] == glob[0] && GlobMatch(glob[1..], s[1..])
  }

  predicate NoWildcards(glob: string)
  {
    forall i :: 0 <= i < |glob| ==> glob[i] != '*' && glob[i] != '$'
  }

  /** Without `*` or `$` a wildcard path is matched like a literal one: as a prefix. */
  lemma {:induction false} GlobLiteral(glob: string, s: string)
    requires NoWildcards(glob)
    ensures GlobMatch(glob, s) <==> glob <= s
    decreases |glob|
  {
    if glob != [] {
      assert glob != "$" by { assert glob[0] != '$'; }
      if s != [] && s[0] == glob[0] {
        GlobLiteral(glob[1..], s[1..]);
      }
    }
  }

  /** A final `$` turns the prefix match into an exact one. */
  lemma {:induction false} GlobAnchored(glob: string, s: string)
    requires NoWildcards(glob)
    ensures GlobMatch(glob + "$", s) <==> s == glob
    decreases |glob|
  {
    if glob != [] {
      var g := glob + "$";
      assert g[0] == glob[0] && g[1..] == glob[1..] + "$";
      assert g != "$";
      if s != [] && s[0] == glob[0] {
        GlobAnchored(glob[1..], s[1..]);
        assert s == [s[0]] + s[1..];
        assert glob == [glob[0]] + glob[1..];
      }
    }
  }

  /** A leading `*` lets the rest of the wildcard path match anywhere in the path. */
  lemma {:induction false} GlobStarAnywhere(glob: string, s: string, k: nat)
    requires k <= |s|
    requires GlobMatch(glob, s[k..])
    ensures GlobMatch("*" + glob, s)
    decreases k
  {
    var g := "*" + glob;
    assert g[0] == '*' && g[1..] == glob;
    if k > 0 {
      assert s[1..][k - 1..] == s[k..];
      GlobStarAnywhere(glob, s[1..], k - 1);
    }
  }

  /**
   * How well a rule matches a path, 0 for no match: the length of a literal path
   * that is a prefix of it, the expression's source length for a matching
   * wildcard path, and 1 for the literal `/`, which matches every path.
   */
  function Score(r: Rule, path: string): nat
  {
    match r
    case Pattern(glob, _) => if GlobMatch(glob, path) then |GlobSource(glob)| else 0
    case Literal(p, _) => if p == "/" then 1 else if p <= path then |p| else 0
  }

  function Scores(rules: seq<Rule>, path: string): (s: seq<nat>)
    ensures |s| == |rules|
    ensures forall i :: 0 <= i < |rules| ==> s[i] == Score(rules[i], path)
  {
    seq(|rules|, i requires 0 <= i < |rules| => Score(rules[i], path))
  }

  /**
   * The earliest index whose score is strictly greater than `floor` and than every
   * other score: the index a left-to-right pass keeps when it replaces its choice
   * only on a strictly greater score.
   */
  function FirstMax(scores: seq<nat>, floor: nat): (r: Option<nat>)
    ensures r.None? <==> forall i :: 0 <= i < |scores| ==> scores[i] <= floor
    ensures r.Some? ==> r.value < |scores| && floor < scores[r.value]
    ensures r.Some? ==> forall i :: 0 <= i < |scores| ==> scores[i] <= scores[r.value]
    ensures r.Some? ==> forall i :: 0 <= i < r.value ==> scores[i] < scores[r.value]
  {
    if scores == [] then None
    else
      var r := FirstMax(scores[..|scores| - 1], floor);
      var best := if r.Some? then scores[r.value] else floor;
      if scores[|scores| - 1] > best then Some(|scores| - 1) else r
  }

  /** The three properties of `FirstMax` single out one index. */
  lemma FirstMaxUnique(scores: seq<nat>, floor: nat, k: nat)
    requires k < |scores| && floor < scores[k]
    requires forall i :: 0 <= i < |scores| ==> scores[i] <= scores[k]
    requires forall i :: 0 <= i < k ==> scores[i] < scores[k]
    ensures FirstMax(scores, floor) == Some(k)
  {
  }

  function Pick(rules: seq<Rule>, k: Option<nat>): Option<Rule>
  {
    if k.Some? && k.value < |rules| then Some(rules[k.value]) else None
  }

  /** The rule `findRule` settles on. */
  function RuleFor(rules: seq<Rule>, path: string): Option<Rule>
  {
    Pick(rules, FirstMax(Scores(rules, path), 0))
  }

  /** The verdict of a group: the deciding rule's, allowed when none decides. */
  predicate Allows(g: Group, path: string)
  {
    var r := RuleFor(g.rules, path);
    r.None? || r.value.allow
  }

  /** The rule whose match is strictly longer than every other decides. */
  lemma LongestMatchDecides(g: Group, path: string, k: nat)
    requires k < |g.rules| && Score(g.rules[k], path) > 0
    requires forall i :: 0 <= i < |g.rules| && i != k ==> Score(g.rules[i], path) < Score(g.rules[k], path)
    ensures Allows(g, path) == g.rules[k].allow
  {
    FirstMaxUnique(Scores(g.rules, path), 0, k);
  }

  /**
   * On equally long matches the earlier rule decides, whether it allows or
   * disallows (the order in the file, not Allow, breaks the tie).
   */
  lemma TieGoesToEarlierRule(g: Group, path: string, k: nat, j: nat)
    requires k < j < |g.rules| && Score(g.rules[k], path) > 0
    requires Score(g.rules[j], path) == Score(g.rules[k], path)
    requires forall i :: 0 <= i < |g.rules| ==> Score(g.rules[i], path) <= Score(g.rules[k], path)
    requires forall i :: 0 <= i < k ==> Score(g.rules[i], path) < Score(g.rules[k], path)
    ensures Allows(g, path) == g.rules[k].allow
  {
    FirstMaxUnique(Scores(g.rules, path), 0, k);
  }

  /** A path that no rule matches is allowed; in particular the empty group allows every path. */
  lemma UnmatchedIsAllowed(g: Group, path: string)
    requires forall i :: 0 <= i < |g.rules| ==> Score(g.rules[i], path) == 0
    ensures Allows(g, path)
  {
  }

  lemma EmptyGroupAllowsAll(path: string)
    ensures Allows(EmptyGroup, path)
  {
  }

  /**
   * A literal `/` decides every path, the empty one included, when no rule before
   * it matches and no rule after it matches more than one character.
   */
  lemma RootRuleDecides(g: Group, path: string, k: nat)
    requires k < |g.rules| && g.rules[k].Literal? && g.rules[k].path == "/"
    requires forall i :: 0 <= i < k ==> Score(g.rules[i], path) == 0
    requires forall i :: k < i < |g.rules| ==> Score(g.rules[i], path) <= 1
    ensures Allows(g, path) == g.rules[k].allow
  {
    FirstMaxUnique(Scores(g.rules, path), 0, k);
  }

  /**
   * `Disallow: d` followed by `Allow: a`, with `d` a proper prefix of `a`: the
   * paths under `a` are allowed, the other paths under `d` are not.
   */
  lemma MoreSpecificAllowWins(g: Group, d: string, a: string, path: string)
    requires g.rules == [Literal(d, false), Literal(a, true)]
    requires d != "/" && a != "/" && d < a && d != []
    ensures Allows(g, path) <==> a <= path || !(d <= path)
  {
    var s := Scores(g.rules, path);
    if a <= path {
      assert d <= path by { PrefixTransitive(d, a, path); }
      FirstMaxUnique(s, 0, 1);
    } else if d <= path {
      FirstMaxUnique(s, 0, 0);
    }
  }

  /**
   * `Disallow: /` followed by `Allow: a`: only the paths under `a` are allowed,
   * the empty path included in the rest.
   */
  lemma RootDisallowedExceptAllow(g: Group, a: string, path: string)
    requires g.rules == [Literal("/", false), Literal(a, true)]
    requires |a| > 1
    ensures Allows(g, path) <==> a <= path
  {
    var s := Scores(g.rules, path);
    if a <= path {
      FirstMaxUnique(s, 0, 1);
    } else {
      FirstMaxUnique(s, 0, 0);
    }
  }

  lemma PrefixTransitive(a: string, b: string, c: string)
    requires a <= b && b <= c
    ensures a <= c
  {
    assert c[..|a|] == b[..|a|];
  }
}
