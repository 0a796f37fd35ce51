/**
 sanitizeName of internal/controller/fabricnetwork_org.go. A name is turned into its words,
 the runs of ASCII letters and digits, joined by single dashes; what exceeds 63 characters is
 cut and marked with a hash.
 */
module Names {
  import opened Whitespace

  const MaxLength := 63
  const PrefixLength := 54

  predicate IsWordChar(c: char) {
    ('a' <= c <= 'z') || ('A' <= c <= 'Z') || ('0' <= c <= '9')
  }

  function Lower(c: char): char {
    if 'A' <= c <= 'Z' then ((c as int) + 32) as char else c
  }

  /** A character that sanitizeName copies. */
  predicate IsPlain(c: char) {
    ('a' <= c <= 'z') || ('0' <= c <= '9')
  }

  /** FNV-1a printed with %08x. */
  type Hash = string -> string

  ghost predicate PrintsHex(hash: Hash) {
    forall s :: |hash(s)| == 8 && forall i :: 0 <= i < 8 ==> IsHex(hash(s)[i])
  }

  predicate IsHex(c: char) {
    ('a' <= c <= 'f') || ('0' <= c <= '9')
  }

  predicate EndsInWord(s: string) {
    s != "" && IsWordChar(s[|s| - 1])
  }

  /** One more character: it ends, extends or starts a word. */
  function Grow(words: seq<string>, inWord: bool, c: char): seq<string>
    requires inWord ==> words != []
  {
    if !IsWordChar(c) then words
    else if !inWord then words + [[Lower(c)]]
    else words[..|words| - 1] + [words[|words| - 1] + [Lower(c)]]
  }

  function Words(s: string): (words: seq<string>)
    ensures EndsInWord(s) ==> words != []
  {
    if s == "" then [] else Grow(Words(s[..|s| - 1]), EndsInWord(s[..|s| - 1]), s[|s| - 1])
  }

  function Join(words: seq<string>): string {
    if words == [] then ""
    else if |words| == 1 then words[0]
    else Join(words[..|words| - 1]) + "-" + words[|words| - 1]
  }

  function Slug(s: string): string {
    var joined := Join(Words(s));
    if joined == "" then "resource" else joined
  }

  function TrimDashes(s: string): (t: string)
    ensures |t| <= |s| && t == s[..|t|]
    ensures t != "" ==> t[|t| - 1] != '-'
    ensures forall i :: |t| <= i < |s| ==> s[i] == '-'
  {
    if s != "" && s[|s| - 1] == '-' then TrimDashes(s[..|s| - 1]) else s
  }

  function Shortened(hash: Hash, s: string): string {
    if |s| <= MaxLength then s
    else
      var prefix := TrimDashes(s[..PrefixLength]);
      (if prefix == "" then s[..PrefixLength] else prefix) + "-" + hash(s)
  }

  function Sanitized(hash: Hash, name: string): string {
    Shortened(hash, Slug(name))
  }

  // ------------------------------------------------------------------------------- laws of words

  lemma GrowConcat(first: seq<string>, words: seq<string>, inWord: bool, c: char)
    requires inWord ==> words != []
    ensures Grow(first + words, inWord, c) == first + Grow(words, inWord, c)
  {
  }

  lemma WordsSnoc(s: string, c: char)
    ensures Words(s + [c]) == Grow(Words(s), EndsInWord(s), c)
  {
    assert (s + [c])[..|s|] == s;
  }

  /** A separator splits the words. */
  lemma {:induction false} WordsConcat(a: string, c: char, b: string)
    requires !IsWordChar(c)
    ensures Words(a + [c] + b) == Words(a) + Words(b)
    decreases |b|
  {
    if b == "" {
      assert a + [c] + b == a + [c];
      WordsSnoc(a, c);
    } else {
      var rest, d := b[..|b| - 1], b[|b| - 1];
      var s := a + [c] + rest;
      assert a + [c] + b == s + [d];
      WordsConcat(a, c, rest);
      assert EndsInWord(s) <==> EndsInWord(rest);
      WordsSnoc(s, d);
      GrowConcat(Words(a), Words(rest), EndsInWord(rest), d);
    }
  }

  lemma {:induction false} WordsTrimLeft(s: string)
    ensures Words(TrimLeft(s)) == Words(s)
  {
    if s != "" && IsSpace(s[0]) {
      WordsTrimLeft(s[1..]);
      WordsConcat("", s[0], s[1..]);
      assert s == "" + [s[0]] + s[1..];
    }
  }

  lemma {:induction false} WordsTrimRight(s: string)
    ensures Words(TrimRight(s)) == Words(s)
  {
    if s != "" && IsSpace(s[|s| - 1]) {
      WordsTrimRight(s[..|s| - 1]);
    }
  }

  lemma WordsTrim(s: string)
    ensures Words(Trim(s)) == Words(s)
  {
    WordsTrimLeft(s);
    WordsTrimRight(TrimLeft(s));
  }

  /** Joining a longer last word, and one word more. */
  lemma JoinSnoc(words: seq<string>, w: string)
    ensures Join(words + [w]) == (if words == [] then w else Join(words) + "-" + w)
  {
    var all := words + [w];
    assert all[..|all| - 1] == words;
  }

  lemma JoinExtend(words: seq<string>, w: string, c: char)
    ensures Join(words + [w + [c]]) == Join(words + [w]) + [c]
  {
    JoinSnoc(words, w);
    JoinSnoc(words, w + [c]);
  }

  // ------------------------------------------------------------------------------------ the loop

  /** What the builder holds after a prefix: the joined words, with the dashes that are trimmed later. */
  function Built(s: string): string {
    (if s != "" && !IsWordChar(s[0]) then "-" else "") + Join(Words(s)) +
    (if s != "" && !EndsInWord(s) && Words(s) != [] then "-" else "")
  }

  lemma BuiltStep(s: string, c: char)
    ensures Built(s + [c]) ==
            if IsWordChar(c) then Built(s) + [Lower(c)]
            else if s != "" && !EndsInWord(s) then Built(s) else Built(s) + "-"
  {
    WordsSnoc(s, c);
    var words := Words(s);
    if IsWordChar(c) {
      if EndsInWord(s) {
        var init, last := words[..|words| - 1], words[|words| - 1];
        assert words == init + [last];
        JoinExtend(init, last, Lower(c));
      } else {
        JoinSnoc(words, [Lower(c)]);
      }
    }
  }

  lemma BuiltNext(text: string, i: nat)
    requires i < |text|
    ensures Built(text[..i + 1]) ==
            if IsWordChar(text[i]) then Built(text[..i]) + [Lower(text[i])]
            else if i > 0 && !EndsInWord(text[..i]) then Built(text[..i]) else Built(text[..i]) + "-"
    ensures EndsInWord(text[..i + 1]) <==> IsWordChar(text[i])
    ensures IsPlain(Lower(text[i])) <==> IsWordChar(text[i])
  {
    assert text[..i + 1] == text[..i] + [text[i]];
    BuiltStep(text[..i], text[i]);
  }

  /** The loop of sanitizeName with its lastDash flag. */
  method BuildName(text: string) returns (b: string)
    ensures b == Built(text)
  {
    var lastDash := false;
    b := "";
    for i := 0 to |text|
      invariant b == Built(text[..i])
      invariant lastDash <==> i > 0 && !EndsInWord(text[..i])
    {
      var c := Lower(text[i]);
      BuiltNext(text, i);
      if IsPlain(c) {
        b, lastDash := b + [c], false;
        continue;
      }
      if !lastDash {
        b, lastDash := b + "-", true;
      }
    }
    assert text[..|text|] == text;
  }

  /** sanitizeName. */
  method SanitizeName(hash: Hash, name: string) returns (r: string)
    ensures r == Sanitized(hash, name)
  {
    var b := BuildName(Trim(name));
    WordsTrim(name);
    BuiltTrims(Trim(name));
    var s := TrimDashes(DropDashes(b));
    if s == "" {
      s := "resource";
    }
    if |s| <= MaxLength {
      return s;
    }
    var prefix := TrimDashes(s[..PrefixLength]);
    if prefix == "" {
      prefix := s[..PrefixLength];
    }
    r := prefix + "-" + hash(s);
  }

  function DropDashes(s: string): string {
    if s != "" && s[0] == '-' then DropDashes(s[1..]) else s
  }

  // ---------------------------------------------------------------------------------- clean names

  predicate IsNameChar(c: char) {
    IsPlain(c) || c == '-'
  }

  /** Plain characters and single inner dashes. */
  predicate Clean(s: string) {
    s != "" && s[0] != '-' && s[|s| - 1] != '-' && (forall i :: 0 <= i < |s| ==> IsNameChar(s[i])) && NoDoubleDash(s)
  }

  predicate NoDoubleDash(s: string) {
    forall i :: 0 < i < |s| ==> !(s[i - 1] == '-' && s[i] == '-')
  }

  predicate IsWord(w: string) {
    w != "" && forall i :: 0 <= i < |w| ==> IsPlain(w[i])
  }

  lemma {:induction false} WordsAreWords(s: string)
    ensures forall i :: 0 <= i < |Words(s)| ==> IsWord(Words(s)[i])
  {
    if s != "" {
      WordsAreWords(s[..|s| - 1]);
    }
  }

  lemma {:induction false} JoinIsClean(words: seq<string>)
    requires words != [] && forall i :: 0 <= i < |words| ==> IsWord(words[i])
    ensures Clean(Join(words))
  {
    if |words| > 1 {
      JoinIsClean(words[..|words| - 1]);
    }
  }

  lemma DropsOne(s: string)
    requires s != "" && s[0] != '-'
    ensures DropDashes(s) == s && DropDashes("-" + s) == s
  {
    assert ("-" + s)[1..] == s;
  }

  lemma TrimsOne(s: string)
    requires s != "" && s[|s| - 1] != '-'
    ensures TrimDashes(s) == s && TrimDashes(s + "-") == s
  {
    assert (s + "-")[..|s|] == s;
  }

  lemma TrimsBoth(joined: string, before: string, after: string)
    requires Clean(joined) && before in {"", "-"} && after in {"", "-"}
    ensures TrimDashes(DropDashes(before + joined + after)) == joined
  {
    TrimsOne(joined);
    var ended := if after == "" then joined else joined + "-";
    DropsOne(ended);
    assert before + joined + after == if before == "" then ended else "-" + ended;
  }

  /** Trimming what the builder holds leaves the joined words. */
  lemma BuiltTrims(s: string)
    ensures TrimDashes(DropDashes(Built(s))) == Join(Words(s))
  {
    if Words(s) != [] {
      WordsAreWords(s);
      JoinIsClean(Words(s));
      TrimsBoth(Join(Words(s)), if s != "" && !IsWordChar(s[0]) then "-" else "",
                if s != "" && !EndsInWord(s) && Words(s) != [] then "-" else "");
    } else {
      assert Built(s) == "" || Built(s) == "-";
      assert DropDashes(Built(s)) == "";
    }
  }

  // -------------------------------------------------------- sanitized names are clean and fixed

  lemma CopiesOne(s: string, c: char)
    requires Built(s) == s && IsNameChar(c) && (c == '-' ==> EndsInWord(s))
    ensures Built(s + [c]) == s + [c]
  {
    BuiltStep(s, c);
  }

  /** On a name without a leading or a double dash the loop only copies. */
  lemma {:induction false} CleanIsCopied(s: string)
    requires s != "" ==> s[0] != '-'
    requires (forall i :: 0 <= i < |s| ==> IsNameChar(s[i])) && NoDoubleDash(s)
    ensures Built(s) == s
  {
    if s != "" {
      var rest, c := s[..|s| - 1], s[|s| - 1];
      CleanIsCopied(rest);
      assert s == rest + [c];
      assert c == '-' ==> EndsInWord(rest);
      CopiesOne(rest, c);
    }
  }

  lemma SlugIsClean(s: string)
    ensures Clean(Slug(s))
  {
    WordsAreWords(s);
    if Words(s) != [] {
      JoinIsClean(Words(s));
    }
  }

  lemma ShortenedIsClean(hash: Hash, s: string)
    requires PrintsHex(hash) && Clean(s)
    ensures Clean(Shortened(hash, s)) && |Shortened(hash, s)| <= MaxLength
  {
    if |s| > MaxLength {
      var prefix := TrimDashes(s[..PrefixLength]);
      assert prefix != "" by { assert s[..PrefixLength][0] != '-'; }
      var suffix := hash(s);
      assert suffix[7] != '-' && suffix[0] != '-';
    }
  }

  /** Every sanitized name is a clean label of at most 63 characters. */
  lemma SanitizedIsClean(hash: Hash, name: string)
    requires PrintsHex(hash)
    ensures Clean(Sanitized(hash, name)) && |Sanitized(hash, name)| <= MaxLength
  {
    SlugIsClean(name);
    ShortenedIsClean(hash, Slug(name));
  }

  /** Clean names that fit are left alone; so sanitizing twice is sanitizing once. */
  lemma CleanIsFixed(hash: Hash, s: string)
    requires Clean(s) && |s| <= MaxLength
    ensures Sanitized(hash, s) == s
  {
    CleanIsCopied(s);
  }

  lemma SanitizeIsIdempotent(hash: Hash, name: string)
    requires PrintsHex(hash)
    ensures Sanitized(hash, Sanitized(hash, name)) == Sanitized(hash, name)
  {
    SanitizedIsClean(hash, name);
    CleanIsFixed(hash, Sanitized(hash, name));
  }
}
