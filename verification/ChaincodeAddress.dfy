/**
 Addresses of chaincode-as-a-service (internal/controller/fabricnetwork_chaincode.go): the
 package carries one address template per organization, made from a service name in which a
 placeholder stands for the peer; each peer expands it with its own host name. The expansion
 has to give the name of the Service that was created for that peer.
 */
module ChaincodeAddress {
  import opened Wrappers
  import opened Names

  const Placeholder := "fabricops-peer-hostname"
  const Token := "{{.peer_hostname}}"
  const Suffix := "-ccaas"

  // ------------------------------------------------------------------------ search and replace

  predicate StartsAt(s: string, i: nat, p: string) {
    i + |p| <= |s| && s[i..i + |p|] == p
  }

  ghost predicate Contains(s: string, p: string) {
    exists i: nat :: StartsAt(s, i, p)
  }

  /** strings.ReplaceAll: from left to right, without overlaps. */
  function ReplaceAll(s: string, p: string, v: string): string
    requires p != ""
  {
    if |s| < |p| then s
    else if s[..|p|] == p then v + ReplaceAll(s[|p|..], p, v)
    else [s[0]] + ReplaceAll(s[1..], p, v)
  }

  function Count(s: string, p: string): nat
    requires p != ""
  {
    if |s| < |p| then 0
    else if s[..|p|] == p then 1 + Count(s[|p|..], p)
    else Count(s[1..], p)
  }

  lemma OneMore(n: nat, d: int)
    ensures (1 + n) * d == d + n * d
  {
  }

  lemma {:induction false} ReplacedLength(s: string, p: string, v: string)
    requires p != ""
    ensures |ReplaceAll(s, p, v)| == |s| + Count(s, p) * (|v| - |p|)
    decreases |s|
  {
    if |s| >= |p| {
      if s[..|p|] == p {
        ReplacedLength(s[|p|..], p, v);
        OneMore(Count(s[|p|..], p), |v| - |p|);
      } else {
        ReplacedLength(s[1..], p, v);
      }
    }
  }

  lemma MismatchAt(s: string, i: nat, p: string, k: nat)
    requires k < |p| && i + k < |s| && s[i + k] != p[k]
    ensures !StartsAt(s, i, p)
  {
    assert i + |p| <= |s| ==> s[i..i + |p|][k] == s[i + k];
  }

  lemma TailStarts(s: string, i: nat, p: string)
    requires s != ""
    ensures StartsAt(s[1..], i, p) <==> StartsAt(s, i + 1, p)
  {
    assert i + 1 + |p| <= |s| ==> s[i + 1..i + 1 + |p|] == s[1..][i..i + |p|];
  }

  lemma ReplaceStep(c: char, y: string, p: string, v: string)
    requires p != "" && !StartsAt([c] + y, 0, p)
    ensures ReplaceAll([c] + y, p, v) == [c] + ReplaceAll(y, p, v)
  {
    var s := [c] + y;
    assert s[1..] == y && (|s| >= |p| ==> s[..|p|] == s[0..|p|]);
  }

  /** Text in which the pattern does not start is copied. */
  lemma {:induction false} CopiedBefore(x: string, y: string, p: string, v: string)
    requires p != "" && forall i: nat :: i < |x| ==> !StartsAt(x + y, i, p)
    ensures ReplaceAll(x + y, p, v) == x + ReplaceAll(y, p, v)
    decreases |x|
  {
    if x == "" {
      assert x + y == y;
    } else {
      var rest := x[1..] + y;
      assert x + y == [x[0]] + rest && (x + y)[1..] == rest;
      forall i: nat | i < |x[1..]|
        ensures !StartsAt(rest, i, p)
      {
        TailStarts(x + y, i, p);
      }
      CopiedBefore(x[1..], y, p, v);
      ReplaceStep(x[0], rest, p, v);
    }
  }

  /** The first character of the pattern does not occur in it again. */
  predicate Sharp(p: string) {
    p != "" && forall k :: 0 < k < |p| ==> p[k] != p[0]
  }

  /** In front of an occurrence of a sharp pattern there is another one only if it lies wholly before. */
  lemma NoOverlap(x: string, p: string, t: string, i: nat)
    requires Sharp(p) && !Contains(x, p) && i < |x|
    ensures !StartsAt(x + p + t, i, p)
  {
    var s := x + p + t;
    if i + |p| <= |x| {
      assert !StartsAt(x, i, p);
      assert s[i..i + |p|] == x[i..i + |p|];
    } else {
      assert s[|x|] == p[0];
      MismatchAt(s, i, p, |x| - i);
    }
  }

  /** A single occurrence is replaced, and nothing else. */
  lemma ReplacedOnce(x: string, p: string, t: string, v: string)
    requires Sharp(p) && !Contains(x, p) && |t| < |p|
    ensures ReplaceAll(x + p + t, p, v) == x + v + t
  {
    Regroup(x, p, t);
    forall i: nat | i < |x|
      ensures !StartsAt(x + (p + t), i, p)
    {
      NoOverlap(x, p, t, i);
    }
    CopiedBefore(x, p + t, p, v);
    ReplaceAtStart(p, t, v);
    Regroup(x, v, t);
  }

  lemma {:induction false} OneOccurrence(s: string, p: string, i: nat)
    requires p != "" && StartsAt(s, i, p)
    ensures Count(s, p) >= 1
    decreases |s|
  {
    if s[..|p|] != p {
      assert s[1..][i - 1..i - 1 + |p|] == s[i..i + |p|];
      OneOccurrence(s[1..], p, i - 1);
    }
  }

  lemma {:induction false} TwoOccurrences(s: string, p: string, i: nat, j: nat)
    requires p != "" && StartsAt(s, i, p) && StartsAt(s, j, p) && i + |p| <= j
    ensures Count(s, p) >= 2
    decreases |s|
  {
    if s[..|p|] == p {
      assert s[|p|..][j - |p|..j] == s[j..j + |p|];
      OneOccurrence(s[|p|..], p, j - |p|);
    } else {
      assert s[1..][i - 1..i - 1 + |p|] == s[i..i + |p|];
      assert s[1..][j - 1..j - 1 + |p|] == s[j..j + |p|];
      TwoOccurrences(s[1..], p, i - 1, j - 1);
    }
  }

  /** A text without the first character of the pattern. */
  predicate Without(s: string, c: char) {
    forall i :: 0 <= i < |s| ==> s[i] != c
  }

  lemma NothingToReplace(s: string, p: string, v: string)
    requires p != "" && Without(s, p[0])
    ensures ReplaceAll(s, p, v) == s
  {
    forall i: nat | i < |s|
      ensures !StartsAt(s + "", i, p)
    {
      MismatchAt(s + "", i, p, 0);
    }
    CopiedBefore(s, "", p, v);
    assert s + "" == s;
  }

  lemma ReplaceAtStart(p: string, y: string, v: string)
    requires p != ""
    ensures ReplaceAll(p + y, p, v) == v + ReplaceAll(y, p, v)
  {
    assert (p + y)[..|p|] == p && (p + y)[|p|..] == y;
  }

  lemma OtherStart(c: char, y: string, p: string, v: string)
    requires p != "" && c != p[0]
    ensures ReplaceAll([c] + y, p, v) == [c] + ReplaceAll(y, p, v)
  {
    MismatchAt([c] + y, 0, p, 0);
    ReplaceStep(c, y, p, v);
  }

  /** Replacing by a token and then the token by a value is replacing by the value. */
  predicate PassesThrough(s: string, suffix: string, p: string, token: string, v: string)
    requires p != "" && token != ""
  {
    ReplaceAll(ReplaceAll(s, p, token) + suffix, token, v) == ReplaceAll(s, p, v) + suffix
  }

  lemma Regroup(a: string, b: string, c: string)
    ensures (a + b) + c == a + (b + c)
  {
  }

  lemma ThroughStart(y: string, suffix: string, p: string, token: string, v: string)
    requires p != "" && token != "" && PassesThrough(y, suffix, p, token, v)
    ensures PassesThrough(p + y, suffix, p, token, v)
  {
    var rest := ReplaceAll(y, p, token);
    ReplaceAtStart(p, y, token);
    ReplaceAtStart(p, y, v);
    Regroup(token, rest, suffix);
    ReplaceAtStart(token, rest + suffix, v);
    Regroup(v, ReplaceAll(y, p, v), suffix);
  }

  lemma ThroughOther(c: char, y: string, suffix: string, p: string, token: string, v: string)
    requires p != "" && token != "" && c != token[0] && !StartsAt([c] + y, 0, p) && PassesThrough(y, suffix, p, token, v)
    ensures PassesThrough([c] + y, suffix, p, token, v)
  {
    var rest := ReplaceAll(y, p, token);
    ReplaceStep(c, y, p, token);
    ReplaceStep(c, y, p, v);
    Regroup([c], rest, suffix);
    OtherStart(c, rest + suffix, token, v);
    Regroup([c], ReplaceAll(y, p, v), suffix);
  }

  lemma {:induction false} ThroughToken(s: string, suffix: string, p: string, token: string, v: string)
    requires p != "" && token != "" && Without(s, token[0]) && Without(suffix, token[0])
    ensures PassesThrough(s, suffix, p, token, v)
    decreases |s|
  {
    if |s| < |p| {
      NothingToReplace(s + suffix, token, v);
    } else if StartsAt(s, 0, p) {
      ThroughToken(s[|p|..], suffix, p, token, v);
      ThroughStart(s[|p|..], suffix, p, token, v);
      assert s == p + s[|p|..];
    } else {
      ThroughToken(s[1..], suffix, p, token, v);
      assert s == [s[0]] + s[1..];
      ThroughOther(s[0], s[1..], suffix, p, token, v);
    }
  }

  // ---------------------------------------------------------------------------- service names

  function RawName(channel: string, chaincode: string, org: string, peer: string): string {
    channel + "-" + chaincode + "-" + org + "-" + peer + Suffix
  }

  function ServiceName(hash: Hash, channel: string, chaincode: string, org: string, peer: string): string {
    Sanitized(hash, RawName(channel, chaincode, org, peer))
  }

  /** Joined words with the dash that separates them from what follows. */
  function Lead(words: seq<string>): string {
    if words == [] then "" else Join(words) + "-"
  }

  /** What stands in front of the peer's words. */
  function Prefix(channel: string, chaincode: string, org: string): string {
    Lead(Words(channel) + Words(chaincode) + Words(org))
  }

  lemma LeadSnoc(words: seq<string>, w: string)
    ensures Join(words + [w]) == Lead(words) + w && Lead(words + [w]) == Lead(words) + w + "-"
  {
    JoinSnoc(words, w);
  }

  lemma {:induction false} LeadConcat(a: seq<string>, b: seq<string>)
    ensures Lead(a + b) == Lead(a) + Lead(b)
    decreases |b|
  {
    if b == [] {
      assert a + b == a;
    } else {
      var init, last := b[..|b| - 1], b[|b| - 1];
      assert a + b == (a + init) + [last] && b == init + [last];
      LeadConcat(a, init);
      LeadSnoc(a + init, last);
      LeadSnoc(init, last);
    }
  }

  lemma SuffixWords()
    ensures Words("ccaas") == ["ccaas"]
  {
    assert "ccaas" == "" + "c" + "c" + "a" + "a" + "s";
    WordsSnoc("", 'c');
    WordsSnoc("c", 'c');
    WordsSnoc("cc", 'a');
    WordsSnoc("cca", 'a');
    WordsSnoc("ccaa", 's');
  }

  lemma RawWords(channel: string, chaincode: string, org: string, peer: string)
    ensures Words(RawName(channel, chaincode, org, peer)) ==
            Words(channel) + Words(chaincode) + Words(org) + Words(peer) + ["ccaas"]
  {
    var one := channel + "-" + chaincode;
    var two := one + "-" + org;
    var three := two + "-" + peer;
    assert RawName(channel, chaincode, org, peer) == three + "-" + "ccaas";
    WordsConcat(channel, '-', chaincode);
    WordsConcat(one, '-', org);
    WordsConcat(two, '-', peer);
    WordsConcat(three, '-', "ccaas");
    SuffixWords();
  }

  /** Before shortening, a service name is the prefix, the peer's slug and the suffix. */
  lemma ServiceSlug(channel: string, chaincode: string, org: string, peer: string)
    requires Words(peer) != []
    ensures Slug(RawName(channel, chaincode, org, peer)) == Prefix(channel, chaincode, org) + Slug(peer) + Suffix
  {
    RawWords(channel, chaincode, org, peer);
    var front := Words(channel) + Words(chaincode) + Words(org);
    LeadSnoc(front + Words(peer), "ccaas");
    LeadConcat(front, Words(peer));
    PeerSlug(peer);
    WithSuffix(Lead(front), Slug(peer));
  }

  lemma PeerSlug(peer: string)
    requires Words(peer) != []
    ensures Lead(Words(peer)) == Slug(peer) + "-"
  {
    WordsAreWords(peer);
    JoinIsClean(Words(peer));
  }

  lemma WithSuffix(a: string, b: string)
    ensures a + (b + "-") + "ccaas" == a + b + Suffix
  {
    assert Suffix == "-" + "ccaas";
  }

  lemma PlaceholderIsClean()
    ensures Clean(Placeholder) && |Placeholder| == 23
  {
  }

  lemma PlaceholderIsSharp()
    ensures Sharp(Placeholder)
  {
  }

  lemma CleanSlug(s: string)
    requires Clean(s)
    ensures Words(s) != [] && Slug(s) == s
  {
    CleanIsCopied(s);
    assert EndsInWord(s);
  }

  lemma PlaceholderFacts()
    ensures Sharp(Placeholder) && Clean(Placeholder) && |Placeholder| == 23
    ensures Words(Placeholder) != [] && Slug(Placeholder) == Placeholder
  {
    PlaceholderIsClean();
    PlaceholderIsSharp();
    CleanSlug(Placeholder);
  }

  lemma PlaceholderLead()
    ensures Lead(Words(Placeholder)) == Placeholder + "-"
  {
    PlaceholderFacts();
    PeerSlug(Placeholder);
  }

  lemma TemplateName(channel: string, chaincode: string, org: string)
    ensures Slug(RawName(channel, chaincode, org, Placeholder)) == Prefix(channel, chaincode, org) + Placeholder + Suffix
  {
    PlaceholderFacts();
    ServiceSlug(channel, chaincode, org, Placeholder);
  }

  // -------------------------------------------------------------------------------- the template

  /** chaincodeConnectionAddressTemplate; `rest` is the namespace and port part of the address. */
  ghost function Template(hash: Hash, channel: string, chaincode: string, org: string, rest: string): Option<string> {
    var name := ServiceName(hash, channel, chaincode, org, Placeholder);
    if !Contains(name, Placeholder) then None else Some(ReplaceAll(name, Placeholder, Token) + rest)
  }

  /** What a peer makes of the template with the host name from its builder configuration. */
  function Expanded(template: string, hostname: string): string {
    ReplaceAll(template, Token, hostname)
  }

  /** What matters about the placeholder here: its length, and that no dash in it precedes a hexadecimal digit. */
  predicate Markable(p: string) {
    Sharp(p) && |p| == 23 && forall k :: 0 <= k < 23 && p[k] == '-' ==> k + 1 < 23 && !IsHex(p[k + 1])
  }

  lemma PlaceholderIsMarkable()
    ensures Markable(Placeholder)
  {
  }

  /** A dash followed by a hexadecimal digit is nowhere in such a pattern. */
  lemma NotAcrossHash(short: string, i: nat, dash: nat, p: string)
    requires Markable(p) && i <= dash < i + 23 && dash + 1 < |short| && short[dash] == '-' && IsHex(short[dash + 1])
    ensures !StartsAt(short, i, p)
  {
    var k := dash - i;
    if p[k] != '-' {
      MismatchAt(short, i, p, k);
    } else {
      MismatchAt(short, i, p, k + 1);
    }
  }

  lemma NotInKept(x: string, p: string, t: string, cut: string, tail: string, i: nat)
    requires Markable(p) && !Contains(x, p) && |x| > 34 && |cut| <= PrefixLength
    requires cut <= x + p + t && i + 23 <= |cut|
    ensures !StartsAt(cut + tail, i, p)
  {
    NoOverlap(x, p, t, i);
    var s := x + p + t;
    assert (cut + tail)[i..i + 23] == cut[i..i + 23] == s[i..i + 23];
  }

  lemma NotInMarked(cut: string, mark: string, p: string, i: nat)
    requires Markable(p) && |mark| == 8 && IsHex(mark[0]) && i + 23 > |cut|
    ensures !StartsAt(cut + ("-" + mark), i, p)
  {
    var short := cut + ("-" + mark);
    if i <= |cut| {
      assert short[|cut|] == '-' && short[|cut| + 1] == mark[0];
      NotAcrossHash(short, i, |cut|, p);
    }
  }

  /** A cut and marked name contains the pattern only if the prefix already does. */
  lemma NotInShortened(x: string, p: string, t: string, cut: string, mark: string)
    requires Markable(p) && !Contains(x, p) && |x| > 34 && |cut| <= PrefixLength && cut <= x + p + t
    requires |mark| == 8 && IsHex(mark[0])
    ensures !Contains(cut + ("-" + mark), p)
  {
    forall i: nat
      ensures !StartsAt(cut + ("-" + mark), i, p)
    {
      if i + 23 <= |cut| {
        NotInKept(x, p, t, cut, "-" + mark, i);
      } else {
        NotInMarked(cut, mark, p, i);
      }
    }
  }

  /** The service name before shortening, with the placeholder for the peer. */
  function Uncut(channel: string, chaincode: string, org: string): string {
    Prefix(channel, chaincode, org) + Placeholder + Suffix
  }

  /** What shortening keeps of a name. */
  function Kept(s: string): string {
    TrimDashes(if |s| <= PrefixLength then s else s[..PrefixLength])
  }

  lemma ShortenedIsMarked(hash: Hash, s: string)
    requires Clean(s) && |s| > MaxLength
    ensures Shortened(hash, s) == Kept(s) + ("-" + hash(s)) && Kept(s) <= s && 0 < |Kept(s)| <= PrefixLength
  {
    assert s[..PrefixLength][0] != '-';
    Regroup(Kept(s), "-", hash(s));
  }

  /** A marked name contains the pattern exactly if the part in front of the mark does. */
  lemma MarkedContainsExactly(cut: string, mark: string, p: string)
    requires Markable(p) && |mark| == 8 && IsHex(mark[0])
    ensures Contains(cut + ("-" + mark), p) <==> Contains(cut, p)
  {
    var short := cut + ("-" + mark);
    forall i: nat
      ensures StartsAt(short, i, p) <==> StartsAt(cut, i, p)
    {
      if i + 23 <= |cut| {
        assert short[i..i + 23] == cut[i..i + 23];
      } else {
        NotInMarked(cut, mark, p, i);
      }
    }
  }

  lemma UncutIsClean(channel: string, chaincode: string, org: string)
    ensures Clean(Uncut(channel, chaincode, org))
    ensures Slug(RawName(channel, chaincode, org, Placeholder)) == Uncut(channel, chaincode, org)
  {
    TemplateName(channel, chaincode, org);
    SlugIsClean(RawName(channel, chaincode, org, Placeholder));
  }

  /** The template exists exactly if the name was not cut, or the part of it that was kept contains the placeholder. */
  lemma TemplateExistsExactly(hash: Hash, channel: string, chaincode: string, org: string, rest: string)
    requires PrintsHex(hash)
    ensures Template(hash, channel, chaincode, org, rest).Some? <==>
            |Uncut(channel, chaincode, org)| <= MaxLength || Contains(Kept(Uncut(channel, chaincode, org)), Placeholder)
  {
    var s := Uncut(channel, chaincode, org);
    UncutIsClean(channel, chaincode, org);
    if |s| <= MaxLength {
      InTheMiddle(Prefix(channel, chaincode, org), Placeholder, Suffix);
    } else {
      ShortenedIsMarked(hash, s);
      PlaceholderIsMarkable();
      MarkedContainsExactly(Kept(s), hash(s), Placeholder);
    }
  }

  /**
   The guard takes a placeholder that survives for a name that was not cut. That is right
   exactly for names that are not cut, or whose kept part is free of the placeholder.
   */
  lemma SurvivalMeansUncutExactly(hash: Hash, channel: string, chaincode: string, org: string, rest: string)
    requires PrintsHex(hash)
    ensures var s := Uncut(channel, chaincode, org);
            (Template(hash, channel, chaincode, org, rest).Some? <==> |s| <= MaxLength) <==>
            (|s| <= MaxLength || !Contains(Kept(s), Placeholder))
  {
    TemplateExistsExactly(hash, channel, chaincode, org, rest);
  }

  /** Of a cut name the kept part contains the placeholder only if the prefix does. */
  lemma KeptContainsOnlyWithPrefix(channel: string, chaincode: string, org: string)
    requires |Uncut(channel, chaincode, org)| > MaxLength && Contains(Kept(Uncut(channel, chaincode, org)), Placeholder)
    ensures Contains(Prefix(channel, chaincode, org), Placeholder)
  {
    var prefix, s := Prefix(channel, chaincode, org), Uncut(channel, chaincode, org);
    PlaceholderIsMarkable();
    if !Contains(prefix, Placeholder) {
      KeptIsPrefix(s);
      NotInShortened(prefix, Placeholder, Suffix, Kept(s), "00000000");
      MarkedContainsExactly(Kept(s), "00000000", Placeholder);
      assert false;
    }
  }

  lemma KeptIsPrefix(s: string)
    ensures Kept(s) <= s && |Kept(s)| <= PrefixLength
  {
  }

  /** So for a prefix without the placeholder, it survives exactly if the name was not cut. */
  lemma CleanPrefixSurvivesUncut(hash: Hash, channel: string, chaincode: string, org: string, rest: string)
    requires PrintsHex(hash) && !Contains(Prefix(channel, chaincode, org), Placeholder)
    ensures Template(hash, channel, chaincode, org, rest).Some? <==> |Uncut(channel, chaincode, org)| <= MaxLength
  {
    TemplateExistsExactly(hash, channel, chaincode, org, rest);
    if |Uncut(channel, chaincode, org)| > MaxLength && Contains(Kept(Uncut(channel, chaincode, org)), Placeholder) {
      KeptContainsOnlyWithPrefix(channel, chaincode, org);
    }
  }

  lemma InTheMiddle(x: string, p: string, t: string)
    ensures StartsAt(x + p + t, |x|, p) && Contains(x + p + t, p)
  {
    assert (x + p + t)[|x|..|x| + |p|] == p;
    assert StartsAt(x + p + t, |x|, p);
  }

  lemma CleanHasNoBrace(s: string)
    requires Clean(s)
    ensures Without(s, Token[0])
  {
  }

  /** Expanding a template replaces the placeholder in the service name by the host name. */
  lemma ExpandedIsReplaced(hash: Hash, channel: string, chaincode: string, org: string, rest: string, hostname: string)
    requires PrintsHex(hash) && Template(hash, channel, chaincode, org, rest).Some? && Without(rest, Token[0])
    ensures Expanded(Template(hash, channel, chaincode, org, rest).value, hostname) ==
            ReplaceAll(ServiceName(hash, channel, chaincode, org, Placeholder), Placeholder, hostname) + rest
  {
    var name := ServiceName(hash, channel, chaincode, org, Placeholder);
    SanitizedIsClean(hash, RawName(channel, chaincode, org, Placeholder));
    CleanHasNoBrace(name);
    ThroughToken(name, rest, Placeholder, Token, hostname);
  }

  /** The Service of a peer whose name fits. */
  lemma FittingService(hash: Hash, channel: string, chaincode: string, org: string, peer: string)
    requires Words(peer) != [] && |Prefix(channel, chaincode, org)| + |Slug(peer)| + |Suffix| <= MaxLength
    ensures ServiceName(hash, channel, chaincode, org, peer) == Prefix(channel, chaincode, org) + Slug(peer) + Suffix
    ensures Sanitized(hash, peer) == Slug(peer)
  {
    ServiceSlug(channel, chaincode, org, peer);
  }

  /** The peer's own Service name is not cut. */
  ghost predicate Fits(channel: string, chaincode: string, org: string, peer: string) {
    Words(peer) != [] && |Prefix(channel, chaincode, org)| + |Slug(peer)| + |Suffix| <= MaxLength
  }

  /** The template of the package leads this peer to its own Service. */
  ghost predicate LeadsHome(hash: Hash, channel: string, chaincode: string, org: string, rest: string, peer: string) {
    Template(hash, channel, chaincode, org, rest).Some? &&
    Expanded(Template(hash, channel, chaincode, org, rest).value, Sanitized(hash, peer)) ==
    ServiceName(hash, channel, chaincode, org, peer) + rest
  }

  /** In terms of strings alone: what is compared. */
  lemma LeadsHomeMeans(hash: Hash, channel: string, chaincode: string, org: string, rest: string, peer: string)
    requires PrintsHex(hash) && Template(hash, channel, chaincode, org, rest).Some?
    requires Fits(channel, chaincode, org, peer) && Without(rest, Token[0])
    ensures var name := ServiceName(hash, channel, chaincode, org, Placeholder);
            LeadsHome(hash, channel, chaincode, org, rest, peer) <==>
            ReplaceAll(name, Placeholder, Slug(peer)) == Prefix(channel, chaincode, org) + Slug(peer) + Suffix
  {
    var name, prefix := ServiceName(hash, channel, chaincode, org, Placeholder), Prefix(channel, chaincode, org);
    ExpandedIsReplaced(hash, channel, chaincode, org, rest, Slug(peer));
    FittingService(hash, channel, chaincode, org, peer);
    SameEnd(ReplaceAll(name, Placeholder, Slug(peer)), prefix + Slug(peer) + Suffix, rest);
  }

  lemma SameEnd(a: string, b: string, rest: string)
    ensures a + rest == b + rest <==> a == b
  {
    if a + rest == b + rest {
      assert a == (a + rest)[..|a|] && b == (b + rest)[..|b|];
    }
  }

  /** The first place where the pattern starts. */
  lemma {:induction false} FirstStart(s: string, p: string, i: nat) returns (k: nat)
    requires StartsAt(s, i, p)
    ensures k <= i && StartsAt(s, k, p) && forall l: nat :: l < k ==> !StartsAt(s, l, p)
    decreases i
  {
    k := i;
    if exists l: nat :: l < i && StartsAt(s, l, p) {
      var l: nat :| l < i && StartsAt(s, l, p);
      k := FirstStart(s, p, l);
    }
  }

  /** Up to the first occurrence everything is copied, and there the replacement stands. */
  lemma ReplacedAtFirst(s: string, p: string, v: string, k: nat)
    requires p != "" && StartsAt(s, k, p) && forall l: nat :: l < k ==> !StartsAt(s, l, p)
    ensures k + |v| <= |ReplaceAll(s, p, v)| && ReplaceAll(s, p, v)[k..k + |v|] == v
  {
    var x, y := s[..k], s[k + |p|..];
    assert s == x + (p + y);
    CopiedBefore(x, p + y, p, v);
    ReplaceAtStart(p, y, v);
    Between(x, v, ReplaceAll(y, p, v));
  }

  lemma Between(x: string, v: string, y: string)
    ensures |x + (v + y)| >= |x| + |v| && (x + (v + y))[|x|..|x| + |v|] == v
  {
  }

  /** Replacing the pattern by itself changes nothing. */
  lemma {:induction false} ReplacedByItself(s: string, p: string)
    requires p != ""
    ensures ReplaceAll(s, p, p) == s
    decreases |s|
  {
    if |s| >= |p| {
      if s[..|p|] == p {
        ReplacedByItself(s[|p|..], p);
        assert s == p + s[|p|..];
      } else {
        ReplacedByItself(s[1..], p);
        assert s == [s[0]] + s[1..];
      }
    }
  }

  /** A value of the pattern's length that is not the pattern shows up where the prefix has it. */
  lemma OtherValueShows(x: string, p: string, t: string, v: string)
    requires p != "" && Contains(x, p) && |v| == |p| && v != p
    ensures ReplaceAll(x + p + t, p, v) != x + v + t
  {
    var i: nat :| StartsAt(x, i, p);
    InPrefix(x, p + t, p, i);
    Regroup(x, p, t);
    var k := FirstStart(x + p + t, p, i);
    ReplacedAtFirst(x + p + t, p, v, k);
    assert (x + p + t)[k..k + |p|] == x[k..k + |p|] == (x + v + t)[k..k + |p|];
  }

  lemma InPrefix(x: string, y: string, p: string, i: nat)
    requires StartsAt(x, i, p)
    ensures StartsAt(x + y, i, p)
  {
    assert (x + y)[i..i + |p|] == x[i..i + |p|];
  }

  /** The expansion comes out right exactly if the prefix is free of the pattern, or the value is the pattern. */
  lemma ReplacedRightExactly(x: string, p: string, t: string, v: string)
    requires Sharp(p) && |t| < |p|
    ensures ReplaceAll(x + p + t, p, v) == x + v + t <==> !Contains(x, p) || v == p
  {
    if v == p {
      ReplacedByItself(x + p + t, p);
    } else if !Contains(x, p) {
      ReplacedOnce(x, p, t, v);
    } else if |v| == |p| {
      OtherValueShows(x, p, t, v);
    } else {
      TwiceReplaced(x, p, t, v);
    }
  }

  /** If no occurrence reaches into `b`, it stays at the end. */
  lemma {:induction false} ReplacedInFront(a: string, b: string, p: string, v: string)
    requires p != "" && forall i: nat :: i + |p| > |a| ==> !StartsAt(a + b, i, p)
    ensures ReplaceAll(a + b, p, v) == ReplaceAll(a, p, v) + b
    decreases |a|
  {
    if a == "" {
      assert "" + b == b && b + "" == b;
      CopiedBefore(b, "", p, v);
    } else if StartsAt(a, 0, p) {
      var y := a[|p|..];
      assert a == p + y && a + b == p + (y + b);
      forall i: nat | i + |p| > |y|
        ensures !StartsAt(y + b, i, p)
      {
        assert !StartsAt(a + b, i + |p|, p);
        LaterStart(p, y + b, i, p);
      }
      ReplacedInFront(y, b, p, v);
      ReplaceAtStart(p, y, v);
      ReplaceAtStart(p, y + b, v);
      Regroup(v, ReplaceAll(y, p, v), b);
    } else {
      var c, y := a[0], a[1..];
      assert a == [c] + y && a + b == [c] + (y + b);
      assert !StartsAt(a + b, 0, p) by { FrontStart(a, b, p); }
      forall i: nat | i + |p| > |y|
        ensures !StartsAt(y + b, i, p)
      {
        assert !StartsAt(a + b, i + 1, p);
        LaterStart([c], y + b, i, p);
      }
      ReplacedInFront(y, b, p, v);
      ReplaceStep(c, y, p, v);
      ReplaceStep(c, y + b, p, v);
      Regroup([c], ReplaceAll(y, p, v), b);
    }
  }

  lemma LaterStart(x: string, y: string, i: nat, p: string)
    ensures StartsAt(y, i, p) <==> StartsAt(x + y, |x| + i, p)
  {
    assert i + |p| <= |y| ==> (x + y)[|x| + i..|x| + i + |p|] == y[i..i + |p|];
  }

  lemma FrontStart(a: string, b: string, p: string)
    requires p != "" && !StartsAt(a, 0, p) && forall i: nat :: i + |p| > |a| ==> !StartsAt(a + b, i, p)
    ensures !StartsAt(a + b, 0, p)
  {
    if |p| <= |a| {
      assert (a + b)[0..|p|] == a[0..|p|];
    } else {
      assert !StartsAt(a + b, 0, p);
    }
  }

  /** The expansion of a cut template still ends in the hash, and no Service that fits does. */
  lemma CutLeadsAstray(cut: string, mark: string, p: string, v: string, x: string)
    requires Markable(p) && |mark| == 8 && (forall i :: 0 <= i < 8 ==> IsHex(mark[i]))
    ensures ReplaceAll(cut + ("-" + mark), p, v) != x + v + Suffix
  {
    forall i: nat | i + |p| > |cut|
      ensures !StartsAt(cut + ("-" + mark), i, p)
    {
      NotInMarked(cut, mark, p, i);
    }
    ReplacedInFront(cut, "-" + mark, p, v);
    var r, home := ReplaceAll(cut, p, v) + ("-" + mark), x + v + Suffix;
    assert r[|r| - 1] == mark[7] && home[|home| - 1] == Suffix[5] == 's';
  }

  /**
   Wherever there is a template: expanding it with the sanitized name of a peer whose own
   Service name is not cut gives the address of that Service if and only if the joined prefix
   does not contain the placeholder, or the peer is itself named like the placeholder.
   */
  lemma TemplateNamesTheService(hash: Hash, channel: string, chaincode: string, org: string, rest: string, peer: string)
    requires PrintsHex(hash) && Template(hash, channel, chaincode, org, rest).Some?
    requires Fits(channel, chaincode, org, peer) && Without(rest, Token[0])
    ensures LeadsHome(hash, channel, chaincode, org, rest, peer) <==>
            !Contains(Prefix(channel, chaincode, org), Placeholder) || Slug(peer) == Placeholder
  {
    var prefix, s := Prefix(channel, chaincode, org), Uncut(channel, chaincode, org);
    LeadsHomeMeans(hash, channel, chaincode, org, rest, peer);
    UncutIsClean(channel, chaincode, org);
    PlaceholderFacts();
    if |s| <= MaxLength {
      ReplacedRightExactly(prefix, Placeholder, Suffix, Slug(peer));
    } else {
      TemplateExistsExactly(hash, channel, chaincode, org, rest);
      KeptContainsOnlyWithPrefix(channel, chaincode, org);
      ShortenedIsMarked(hash, s);
      PlaceholderIsMarkable();
      CutLeadsAstray(Kept(s), hash(s), Placeholder, Slug(peer), prefix);
    }
  }

  lemma CountedTwice(x: string, p: string, t: string)
    requires p != "" && Contains(x, p)
    ensures Count(x + p + t, p) >= 2
  {
    var s := x + p + t;
    var i: nat :| StartsAt(x, i, p);
    assert s[i..i + |p|] == x[i..i + |p|];
    InTheMiddle(x, p, t);
    TwoOccurrences(s, p, i, |x|);
  }

  lemma TwiceReplaced(x: string, p: string, t: string, v: string)
    requires p != "" && Contains(x, p) && |v| != |p|
    ensures |ReplaceAll(x + p + t, p, v)| != |x + v + t|
  {
    CountedTwice(x, p, t);
    var n, d := Count(x + p + t, p), |v| - |p|;
    ReplacedLength(x + p + t, p, v);
    NotOnce(n, d);
    assert |x + v + t| == |x + p + t| + d;
  }

  lemma NotOnce(n: nat, d: int)
    requires n >= 2 && d != 0
    ensures n * d != d
  {
    assert (n - 1) * d != 0;
    OneMore(n - 1, d);
  }

  lemma {:induction false} BuiltIsShort(s: string)
    ensures |Built(s)| <= |s|
  {
    if s != "" {
      var rest, c := s[..|s| - 1], s[|s| - 1];
      BuiltIsShort(rest);
      assert s == rest + [c];
      BuiltAtMostOneMore(rest, c);
    }
  }

  lemma BuiltAtMostOneMore(s: string, c: char)
    ensures |Built(s + [c])| <= |Built(s)| + 1
  {
    BuiltStep(s, c);
  }

  /** In particular for every peer name of at most 23 characters. */
  lemma ShortPeersAlwaysFit(hash: Hash, channel: string, chaincode: string, org: string, rest: string, peer: string)
    requires PrintsHex(hash) && !Contains(Prefix(channel, chaincode, org), Placeholder) && Without(rest, Token[0])
    requires Template(hash, channel, chaincode, org, rest).Some? && Words(peer) != [] && |peer| <= 23
    ensures LeadsHome(hash, channel, chaincode, org, rest, peer)
  {
    CleanPrefixSurvivesUncut(hash, channel, chaincode, org, rest);
    BuiltIsShort(peer);
    WordsAreWords(peer);
    JoinIsClean(Words(peer));
    PlaceholderFacts();
    TemplateNamesTheService(hash, channel, chaincode, org, rest, peer);
  }

  /** A prefix that begins with the placeholder always yields a template, however long the names are. */
  lemma LeadingPlaceholderSurvives(hash: Hash, channel: string, chaincode: string, org: string, rest: string)
    requires PrintsHex(hash) && Placeholder <= Prefix(channel, chaincode, org)
    ensures Template(hash, channel, chaincode, org, rest).Some?
  {
    var s := Uncut(channel, chaincode, org);
    TemplateExistsExactly(hash, channel, chaincode, org, rest);
    if |s| > MaxLength {
      PlaceholderFacts();
      KeptStart(s, Placeholder);
    }
  }

  lemma KeptStart(s: string, p: string)
    requires |s| > PrefixLength && p <= s && 0 < |p| <= PrefixLength && p[|p| - 1] != '-'
    ensures Contains(Kept(s), p)
  {
    var kept := Kept(s);
    assert s[..PrefixLength][|p| - 1] != '-';
    assert |p| <= |kept| && kept[0..|p|] == p;
    assert StartsAt(kept, 0, p);
  }

  /**
   Splitting the placeholder at a dash into a channel and a chaincode name puts it into the
   prefix although neither name contains it. However long the organization's name is, there
   is a template without an error, and it leads every fitting peer astray.
   */
  lemma PlaceholderAcrossNames(hash: Hash, channel: string, chaincode: string, org: string, rest: string, peer: string)
    requires PrintsHex(hash) && channel + "-" + chaincode == Placeholder
    requires Fits(channel, chaincode, org, peer) && Without(rest, Token[0]) && Slug(peer) != Placeholder
    ensures !Contains(channel, Placeholder) && !Contains(chaincode, Placeholder)
    ensures Template(hash, channel, chaincode, org, rest).Some? && !LeadsHome(hash, channel, chaincode, org, rest, peer)
  {
    PlaceholderLead();
    AcrossNames(channel, chaincode, org, Placeholder);
    LeadingPlaceholderSurvives(hash, channel, chaincode, org, rest);
    TemplateNamesTheService(hash, channel, chaincode, org, rest, peer);
  }

  /** The prefix of split names and a clean organization name. */
  lemma SplitPrefix(channel: string, chaincode: string, org: string)
    requires channel + "-" + chaincode == Placeholder && Clean(org)
    ensures |Prefix(channel, chaincode, org)| == 25 + |org|
  {
    PlaceholderFacts();
    PlaceholderLead();
    CleanSlug(org);
    PeerSlug(org);
    WordsConcat(channel, '-', chaincode);
    LeadConcat(Words(channel) + Words(chaincode), Words(org));
  }

  /** Such networks with any clean organization and peer: the template name is cut from 10 characters on. */
  lemma SplitNamesMisroute(hash: Hash, channel: string, chaincode: string, org: string, peer: string)
    requires PrintsHex(hash) && channel + "-" + chaincode == Placeholder && Clean(org) && Clean(peer)
    requires peer != Placeholder && |org| + |peer| <= 32
    ensures |Uncut(channel, chaincode, org)| > MaxLength <==> |org| >= 10
    ensures Template(hash, channel, chaincode, org, "").Some? && !LeadsHome(hash, channel, chaincode, org, "", peer)
  {
    SplitPrefix(channel, chaincode, org);
    CleanSlug(peer);
    PlaceholderFacts();
    PlaceholderAcrossNames(hash, channel, chaincode, org, "", peer);
  }

  /**
   One whose template name is cut and passes the guard all the same: none of its names
   contains the placeholder, no error is reported, and the address is wrong.
   */
  lemma CutNameIsPackaged(hash: Hash)
    requires PrintsHex(hash)
    ensures !Contains("fabricops-peer", Placeholder) && !Contains("hostname", Placeholder) && !Contains("organization", Placeholder)
    ensures |Uncut("fabricops-peer", "hostname", "organization")| > MaxLength
    ensures Template(hash, "fabricops-peer", "hostname", "organization", "").Some?
    ensures !LeadsHome(hash, "fabricops-peer", "hostname", "organization", "", "peer0")
  {
    SplitNamesMisroute(hash, "fabricops-peer", "hostname", "organization", "peer0");
  }

  lemma AcrossNames(channel: string, chaincode: string, org: string, p: string)
    requires p == channel + "-" + chaincode && Lead(Words(p)) == p + "-"
    ensures p <= Prefix(channel, chaincode, org) && Contains(Prefix(channel, chaincode, org), p)
  {
    WordsConcat(channel, '-', chaincode);
    SplitLead(Words(channel) + Words(chaincode), Words(org), p);
  }

  lemma SplitLead(a: seq<string>, b: seq<string>, p: string)
    requires Lead(a) == p + "-"
    ensures p <= Lead(a + b) && Contains(Lead(a + b), p)
  {
    LeadConcat(a, b);
    StartsWith(p, "-" + Lead(b));
    Regroup(p, "-", Lead(b));
  }

  lemma StartsWith(p: string, rest: string)
    ensures Contains(p + rest, p)
  {
    assert (p + rest)[0..|p|] == p;
    assert StartsAt(p + rest, 0, p);
  }
}
