/** Splitting an image reference into repository, tag and digest, and printing it back. */
module ImageRef {

  datatype Image = Image(repo: string, tag: string, digest: string)

  /** The position of the last `c`, or -1. */
  function LastIndex(s: string, c: char): (i: int)
    ensures -1 <= i < |s|
  {
    if s == [] then -1
    else if s[|s| - 1] == c then |s| - 1
    else LastIndex(s[..|s| - 1], c)
  }

  /** The tag separator is the last colon, unless it stands before the last slash. */
  function ParseTag(rest: string): (string, string) {
    var colon := LastIndex(rest, ':');
    if colon > LastIndex(rest, '/') then (rest[..colon], rest[colon + 1..]) else (rest, "")
  }

  /** The reference without its digest. */
  function NameOf(ref: string): string {
    var at := LastIndex(ref, '@');
    if at >= 0 then ref[..at] else ref
  }

  function Parse(ref: string): Image {
    var at := LastIndex(ref, '@');
    var digest := if at >= 0 then ref[at + 1..] else "";
    var (repo, tag) := ParseTag(NameOf(ref));
    Image(repo, tag, digest)
  }

  function PrintTag(repo: string, tag: string): string {
    if tag == "" then repo else repo + ":" + tag
  }

  function Print(i: Image): string {
    if i.digest == "" then PrintTag(i.repo, i.tag) else PrintTag(i.repo, i.tag) + "@" + i.digest
  }

  /** A colon before the last slash belongs to a registry port. */
  predicate EndsInPort(repo: string) {
    LastIndex(repo, ':') > LastIndex(repo, '/')
  }

  predicate DropsEmptyTag(rest: string) {
    EndsInPort(rest) && LastIndex(rest, ':') == |rest| - 1
  }

  predicate WellFormedTag(repo: string, tag: string) {
    ':' !in tag && '/' !in tag && (tag == "" ==> !EndsInPort(repo))
  }

  predicate WellFormed(i: Image) {
    && '@' !in i.digest
    && (i.digest == "" ==> '@' !in i.repo && '@' !in i.tag)
    && WellFormedTag(i.repo, i.tag)
  }

  predicate IsLastIndex(s: string, c: char, i: int) {
    && -1 <= i < |s| && (i >= 0 ==> s[i] == c)
    && forall j | i < j < |s| :: s[j] != c
  }

  lemma {:induction false} LastIndexExact(s: string, c: char, i: int)
    ensures LastIndex(s, c) == i <==> IsLastIndex(s, c, i)
  {
    if s != [] && s[|s| - 1] != c {
      var front := s[..|s| - 1];
      LastIndexExact(front, c, i);
      if IsLastIndex(s, c, i) {
        assert forall j | i < j < |front| :: front[j] == s[j];
      }
    }
  }

  /** Where the last `c` of front + separator + back is, when it is in the back or is the separator. */
  lemma LastInBack(front: string, sep: char, back: string, c: char)
    ensures var s := front + [sep] + back;
      && (c in back ==> LastIndex(s, c) > |front|)
      && (c !in back && c == sep ==> LastIndex(s, c) == |front|)
      && (c !in back && c != sep ==> LastIndex(s, c) < |front|)
  {
    var s := front + [sep] + back;
    LastIndexExact(s, c, LastIndex(s, c));
    assert forall j | |front| < j < |s| :: s[j] == back[j - |front| - 1];
    if c in back {
      var k :| 0 <= k < |back| && back[k] == c;
      assert s[|front| + 1 + k] == c;
    } else if c == sep {
      LastIndexExact(s, c, |front|);
    } else {
      assert s[|front|] == sep;
    }
  }

  // ----- What the parts of a reference are -----

  /**
   * `s` falls apart at the separator `c` into front and back, the back holding
   * neither `c` nor a character of `stops`; or it has no such separator and is all
   * front.
   */
  ghost predicate IsCut(s: string, c: char, stops: string, front: string, back: string) {
    || (s == front + [c] + back && forall j | 0 <= j < |back| :: back[j] != c && back[j] !in stops)
    || (s == front && back == "" && forall i | 0 <= i < |s| && s[i] == c :: exists j :: i < j < |s| && s[j] in stops)
  }

  /** The digest is what follows the last '@'; the tag what follows a colon with no slash after it. */
  ghost predicate IsSplit(ref: string, i: Image) {
    exists name :: IsCut(ref, '@', "", name, i.digest) && IsCut(name, ':', "/", i.repo, i.tag)
  }

  lemma CutAt(front: string, c: char, back: string)
    ensures var s := front + [c] + back;
      s[|front|] == c && s[..|front|] == front && s[|front| + 1..] == back
  {
  }

  lemma CutHere(s: string, i: nat)
    requires i < |s|
    ensures s == s[..i] + [s[i]] + s[i + 1..]
  {
  }

  lemma NoDigest(ref: string, name: string, digest: string)
    requires LastIndex(ref, '@') < 0
    ensures IsCut(ref, '@', "", name, digest) <==> name == ref && digest == ""
  {
    LastIndexExact(ref, '@', LastIndex(ref, '@'));
    CutAt(name, '@', digest);
  }

  /** Where a cut comes after the last `c`, that is where it is. */
  lemma CutIsLast(s: string, c: char, stops: string, front: string, back: string)
    requires s == front + [c] + back && forall j | 0 <= j < |back| :: back[j] != c && back[j] !in stops
    ensures LastIndex(s, c) == |front| && front == s[..|front|] && back == s[|front| + 1..]
  {
    hide LastIndex;
    LastInBack(front, c, back, c);
    CutAt(front, c, back);
  }

  lemma SomeDigest(ref: string, name: string, digest: string)
    requires LastIndex(ref, '@') >= 0
    ensures IsCut(ref, '@', "", name, digest) <==> name == NameOf(ref) && digest == Parse(ref).digest
  {
    hide LastIndex;
    var at := LastIndex(ref, '@');
    LastIndexExact(ref, '@', at);
    CutHere(ref, at);
    if ref == name + ['@'] + digest && forall j | 0 <= j < |digest| :: digest[j] != '@' && digest[j] !in "" {
      CutIsLast(ref, '@', "", name, digest);
    }
  }

  lemma TagCut(name: string, repo: string, tag: string)
    ensures IsCut(name, ':', "/", repo, tag) <==> ParseTag(name) == (repo, tag)
  {
    hide LastIndex;
    var colon, slash := LastIndex(name, ':'), LastIndex(name, '/');
    LastIndexExact(name, ':', colon);
    LastIndexExact(name, '/', slash);
    if colon > slash {
      CutHere(name, colon);
    }
    if name == repo + [':'] + tag && forall j | 0 <= j < |tag| :: tag[j] != ':' && tag[j] !in "/" {
      CutIsLast(name, ':', "/", repo, tag);
      LastInBack(repo, ':', tag, '/');
    }
  }

  /** Every reference has exactly one such split, the parsed one. */
  lemma ParseIsTheSplit(ref: string, i: Image)
    ensures IsSplit(ref, i) <==> i == Parse(ref)
  {
    var name := NameOf(ref);
    if LastIndex(ref, '@') < 0 {
      NoDigest(ref, name, i.digest);
    } else {
      SomeDigest(ref, name, i.digest);
    }
    TagCut(name, i.repo, i.tag);
    if IsSplit(ref, i) {
      var cut :| IsCut(ref, '@', "", cut, i.digest) && IsCut(cut, ':', "/", i.repo, i.tag);
      if LastIndex(ref, '@') < 0 {
        NoDigest(ref, cut, i.digest);
      } else {
        SomeDigest(ref, cut, i.digest);
      }
    }
  }

  /** The parts of a reference, cut off step by step. */
  method Split(ref: string) returns (repo: string, tag: string, digest: string)
    ensures IsSplit(ref, Image(repo, tag, digest))
    ensures Image(repo, tag, digest) == Parse(ref)
  {
    hide LastIndex, IsSplit;
    ParseIsTheSplit(ref, Parse(ref));
    var rest := ref;
    tag, digest := "", "";
    var at := LastIndex(rest, '@');
    if at >= 0 {
      digest := rest[at + 1..];
      rest := rest[..at];
    }
    var slash, colon := LastIndex(rest, '/'), LastIndex(rest, ':');
    if colon > slash {
      tag := rest[colon + 1..];
      rest := rest[..colon];
    }
    repo := rest;
  }

  // ----- Printing -----

  lemma ParseTagInvertsPrintTag(repo: string, tag: string)
    ensures ParseTag(PrintTag(repo, tag)) == (repo, tag) <==> WellFormedTag(repo, tag)
  {
    var rest := PrintTag(repo, tag);
    if tag == "" {
      if EndsInPort(repo) {
        assert |ParseTag(rest).0| < |repo|;
      }
    } else {
      LastInBack(repo, ':', tag, ':');
      LastInBack(repo, ':', tag, '/');
      assert rest[..|repo|] == repo && rest[|repo| + 1..] == tag;
      if ':' in tag && LastIndex(rest, ':') > LastIndex(rest, '/') {
        assert |ParseTag(rest).0| > |repo|;
      }
    }
  }

  /** Dropping an empty tag's colon is the only thing printing a parsed name can lose. */
  lemma ParsePartsNoLonger(rest: string)
    ensures var (repo, tag) := ParseTag(rest);
      && |PrintTag(repo, tag)| <= |rest|
      && (PrintTag(repo, tag) == rest <==> !DropsEmptyTag(rest))
  {
    var colon := LastIndex(rest, ':');
    LastIndexExact(rest, ':', colon);
    if EndsInPort(rest) {
      var repo, tag := rest[..colon], rest[colon + 1..];
      assert rest == repo + ":" + tag;
    }
  }

  /** Parsing inverts printing for exactly the well-formed parts, registry ports included. */
  lemma ParseInvertsPrint(i: Image)
    ensures Parse(Print(i)) == i <==> WellFormed(i)
  {
    var front := PrintTag(i.repo, i.tag);
    ParseTagInvertsPrintTag(i.repo, i.tag);
    if i.digest == "" {
      StrayAtSign(i.repo, i.tag);
    } else {
      LastInBack(front, '@', i.digest, '@');
      var ref := front + "@" + i.digest;
      if '@' in i.digest {
        assert |Parse(ref).digest| < |i.digest|;
      } else {
        assert ref[..|front|] == front && ref[|front| + 1..] == i.digest;
      }
    }
  }

  /** What stands before an '@' cannot print back to the whole. */
  lemma AtSignIsLost(ref: string)
    requires '@' in ref
    ensures |PrintTag(Parse(ref).repo, Parse(ref).tag)| < |ref|
  {
    LastIndexExact(ref, '@', LastIndex(ref, '@'));
    ParsePartsNoLonger(NameOf(ref));
  }

  /** Without a digest, an '@' in the name or the tag would be read as the start of one. */
  lemma StrayAtSign(repo: string, tag: string)
    ensures var front := PrintTag(repo, tag);
      if '@' in repo || '@' in tag then Parse(front) != Image(repo, tag, "")
      else Parse(front) == Image(ParseTag(front).0, ParseTag(front).1, "")
  {
    var front := PrintTag(repo, tag);
    InEitherPart(repo, tag, '@');
    if '@' in front {
      AtSignIsLost(front);
    } else {
      NoAtSign(front);
    }
  }

  lemma InEitherPart(repo: string, tag: string, c: char)
    requires c != ':'
    ensures c in PrintTag(repo, tag) <==> c in repo || c in tag
  {
  }

  lemma CancelSuffix(a: string, b: string, c: string)
    ensures a + c == b + c <==> a == b
  {
    if a + c == b + c {
      assert a == (a + c)[..|a|] && b == (b + c)[..|b|];
    }
  }

  /** Around its last '@' a reference is its name, the sign and its digest. */
  lemma SplitAtSign(ref: string)
    requires '@' in ref
    ensures ref == NameOf(ref) + ("@" + Parse(ref).digest)
    ensures Parse(ref).digest == "" <==> ref[|ref| - 1] == '@'
  {
    var at := LastIndex(ref, '@');
    LastIndexExact(ref, '@', at);
    assert ref == ref[..at] + ("@" + ref[at + 1..]);
  }

  lemma NoAtSign(ref: string)
    requires '@' !in ref
    ensures NameOf(ref) == ref && Parse(ref).digest == ""
  {
    LastIndexExact(ref, '@', -1);
  }

  /** Printing gives back the reference that was parsed unless it had an empty digest or an empty tag. */
  lemma PrintInvertsParse(ref: string)
    ensures Print(Parse(ref)) == ref <==>
      !(ref != "" && ref[|ref| - 1] == '@') && !DropsEmptyTag(NameOf(ref))
  {
    var rest := NameOf(ref);
    ParsePartsNoLonger(rest);
    if '@' in ref {
      var digest := Parse(ref).digest;
      SplitAtSign(ref);
      PrintWithDigest(PrintTag(Parse(ref).repo, Parse(ref).tag), digest);
      CancelSuffix(PrintTag(Parse(ref).repo, Parse(ref).tag), rest, "@" + digest);
    } else {
      NoAtSign(ref);
      assert ref != "" ==> ref[|ref| - 1] != '@';
    }
  }

  lemma PrintWithDigest(front: string, digest: string)
    ensures front + "@" + digest == front + ("@" + digest)
  {
  }
}
