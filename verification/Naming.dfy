/** Session names `org:repo:branch`: building them, taking them apart, and the two
    extensions' component checks. */
module Naming {
  import opened Text
  import opened Wrappers

  datatype RepoKey = RepoKey(org: string, repo: string)

  /** A workspace triple; also the primary key of a mapping row. */
  datatype Key = Key(at: RepoKey, branch: string)

  function NamingSession(k: Key): string {
    k.at.org + ":" + k.at.repo + ":" + k.branch
  }

  /** The repository extension's parser: any three parts, valid or not. */
  function ParseSession(name: string): Option<Key> {
    var parts := Split(name, ':');
    if |parts| != 3 then None else Some(Key(RepoKey(parts[0], parts[1]), parts[2]))
  }

  /** The ops extension's parser: three parts that are all valid components. */
  function ParseSessionName(name: string): Option<Key> {
    var parts := Split(name, ':');
    if |parts| != 3 then None
    else if !(forall i :: 0 <= i < |parts| ==> ValidComponent(parts[i])) then None
    else Some(Key(RepoKey(parts[0], parts[1]), parts[2]))
  }

  predicate IsAlnum(c: char) {
    'A' <= c <= 'Z' || 'a' <= c <= 'z' || '0' <= c <= '9'
  }

  predicate MatchesComponentPattern(s: string) {
    1 <= |s| <= 128 && IsAlnum(s[0]) &&
    forall i :: 1 <= i < |s| ==> IsAlnum(s[i]) || s[i] in {'.', '_', '/', '-'}
  }

  predicate Contains(s: string, sub: string) {
    exists i :: 0 <= i <= |s| && sub <= s[i..]
  }

  predicate HasPrefix(s: string, prefix: string) {
    prefix <= s
  }

  predicate HasSuffix(s: string, suffix: string) {
    |suffix| <= |s| && s[|s| - |suffix|..] == suffix
  }

  /** The ops extension's component check. */
  predicate ValidComponent(s: string) {
    if !MatchesComponentPattern(s) then false
    else if Contains(s, ":") then false
    else if Contains(s, "..") then false
    else if HasPrefix(s, "/") || HasSuffix(s, "/") || Contains(s, "//") then false
    else if HasSuffix(s, ".") || HasSuffix(s, ".lock") then false
    else true
  }

  /** The repository extension's component check. */
  predicate ValidSessionComponent(s: string) {
    if !MatchesComponentPattern(s) then false
    else if Contains(s, ":") || Contains(s, "..") || HasPrefix(s, "/") || HasSuffix(s, "/")
         || Contains(s, "//") || HasSuffix(s, ".") || HasSuffix(s, ".lock") then false
    else true
  }

  ghost predicate ColonFree(k: Key) {
    Free(k.at.org, ':') && Free(k.at.repo, ':') && Free(k.branch, ':')
  }

  lemma NamingIsJoin(k: Key)
    ensures NamingSession(k) == Join([k.at.org, k.at.repo, k.branch], ':')
  {
    var parts := [k.at.org, k.at.repo, k.branch];
    JoinCons(k.branch, [], ':');
    JoinCons(k.at.repo, [k.branch], ':');
    JoinCons(k.at.org, [k.at.repo] + [k.branch], ':');
    assert parts == [k.at.org] + ([k.at.repo] + [k.branch]);
    assert NamingSession(k) == k.at.org + [':'] + (k.at.repo + [':'] + k.branch);
  }

  /** Naming undoes parsing: whatever parses is the name of its triple, and the
      triple never contains the separator. */
  lemma NamingOfParsed(name: string)
    ensures ParseSession(name).Some? ==>
      NamingSession(ParseSession(name).value) == name && ColonFree(ParseSession(name).value)
  {
    var parts := Split(name, ':');
    SplitParts(name, ':');
    JoinSplit(name, ':');
    if |parts| == 3 {
      NamingIsJoin(ParseSession(name).value);
      assert parts == [parts[0], parts[1], parts[2]];
    }
  }

  /** Parsing undoes naming for exactly the triples without a separator in them; the
      names of the others do not parse at all. */
  lemma ParseOfNamed(k: Key)
    ensures ParseSession(NamingSession(k)) == if ColonFree(k) then Some(k) else None
  {
    hide Split, Join, Count;
    NamingIsJoin(k);
    if ColonFree(k) {
      SplitJoin([k.at.org, k.at.repo, k.branch], ':');
    } else {
      ColonsInName(k);
      SplitCount(NamingSession(k), ':');
      CountIsZeroWhenFree(k.at.org, ':');
      CountIsZeroWhenFree(k.at.repo, ':');
      CountIsZeroWhenFree(k.branch, ':');
    }
  }

  lemma ColonsInName(k: Key)
    ensures Count(NamingSession(k), ':')
         == Count(k.at.org, ':') + Count(k.at.repo, ':') + Count(k.branch, ':') + 2
  {
    hide Count;
    CountConcat(k.at.org + ":" + k.at.repo + ":", k.branch, ':');
    CountConcat(k.at.org + ":" + k.at.repo, ":", ':');
    CountConcat(k.at.org + ":", k.at.repo, ':');
    CountConcat(k.at.org, ":", ':');
    OneColon();
  }

  lemma OneColon()
    ensures Count(":", ':') == 1
  {
  }

  lemma NamingInjective(a: Key, b: Key)
    requires ColonFree(a) && ColonFree(b) && NamingSession(a) == NamingSession(b)
    ensures a == b
  {
    ParseOfNamed(a);
    ParseOfNamed(b);
  }

  /** The two extensions accept the same components, and none with a separator. */
  lemma ValidatorsAgree(s: string)
    ensures ValidComponent(s) == ValidSessionComponent(s)
    ensures ValidComponent(s) ==> Free(s, ':')
  {
  }

  /** Two characters in a row. */
  ghost predicate HasPair(s: string, a: char, b: char) {
    exists i :: 0 <= i < |s| - 1 && s[i] == a && s[i + 1] == b
  }

  lemma PairIsContained(s: string, a: char, b: char)
    ensures HasPair(s, a, b) <==> Contains(s, [a, b])
  {
    if HasPair(s, a, b) {
      var i :| 0 <= i < |s| - 1 && s[i] == a && s[i + 1] == b;
      assert [a, b] <= s[i..];
    }
    if Contains(s, [a, b]) {
      var i :| 0 <= i <= |s| && [a, b] <= s[i..];
      assert s[i] == s[i..][0] && s[i + 1] == s[i..][1];
    }
  }

  /** The components that are accepted, character by character: 1 to 128 letters, digits,
      dots, underscores, slashes and dashes, a letter or digit first, neither two dots nor
      two slashes in a row, and no slash, dot or ".lock" at the end. */
  lemma ComponentsExactly(s: string)
    ensures ValidComponent(s) <==>
      && 1 <= |s| <= 128
      && (forall i :: 0 <= i < |s| ==>
            'A' <= s[i] <= 'Z' || 'a' <= s[i] <= 'z' || '0' <= s[i] <= '9' || (i > 0 && s[i] in "._/-"))
      && !HasPair(s, '.', '.') && !HasPair(s, '/', '/')
      && s[|s| - 1] !in "./"
      && !(|s| >= 5 && s[|s| - 5..] == ".lock")
  {
    PairIsContained(s, '.', '.');
    PairIsContained(s, '/', '/');
    assert [".", "/"] == [['.'], ['/']];
    if |s| > 0 {
      assert s[|s| - 1..] == [s[|s| - 1]];
      NoColon(s);
    }
  }

  lemma NoColon(s: string)
    ensures MatchesComponentPattern(s) ==> !Contains(s, ":") && !HasPrefix(s, "/")
  {
    if MatchesComponentPattern(s) {
      assert forall i :: 0 <= i < |s| ==> s[i] != ':';
      forall i | 0 <= i <= |s|
        ensures !(":" <= s[i..])
      {
        assert i < |s| ==> s[i..][0] != ':';
      }
    }
  }

  /** The strict parser is the lenient one restricted to valid triples, so on those
      it inverts the naming too. */
  lemma StrictParse(name: string, k: Key)
    ensures ParseSessionName(name) == Some(k)
      <==> (name == NamingSession(k) && ValidComponent(k.at.org)
            && ValidComponent(k.at.repo) && ValidComponent(k.branch))
  {
    hide Split, MatchesComponentPattern, Contains;
    NamingOfParsed(name);
    ParseOfNamed(k);
    var parts := Split(name, ':');
    if |parts| == 3 {
      assert (forall i :: 0 <= i < |parts| ==> ValidComponent(parts[i]))
        <==> ValidComponent(parts[0]) && ValidComponent(parts[1]) && ValidComponent(parts[2]);
    }
    ValidatorsAgree(k.at.org);
    ValidatorsAgree(k.at.repo);
    ValidatorsAgree(k.branch);
  }
}
