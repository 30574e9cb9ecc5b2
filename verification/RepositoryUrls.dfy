/** Which repository a clone URL names, however somebody spelled it. */
module RepositoryUrls {
  import opened Prelude

  /** The characters trimming removes: Unicode's White_Space. */
  predicate Blank(c: char) {
    var n := c as int;
    || 0x9 <= n <= 0xD || n in {0x20, 0x85, 0xA0, 0x1680, 0x2028, 0x2029, 0x202F, 0x205F, 0x3000}
    || 0x2000 <= n <= 0x200A
  }

  function TrimStart(s: string): string {
    if s != "" && Blank(s[0]) then TrimStart(s[1..]) else s
  }

  function TrimEnd(s: string): string {
    if s != "" && Blank(s[|s| - 1]) then TrimEnd(s[..|s| - 1]) else s
  }

  function Trim(s: string): string {
    TrimEnd(TrimStart(s))
  }

  function LowerChar(c: char): char {
    if 'A' <= c <= 'Z' then 'a' + (c - 'A') else c
  }

  /** ASCII letters in lower case. */
  function Lower(s: string): (r: string)
    ensures |r| == |s|
  {
    seq(|s|, i requires 0 <= i < |s| => LowerChar(s[i]))
  }

  /** Where `sep` first occurs, or the length. */
  function Find(s: string, sep: string): (i: nat)
    ensures i <= |s|
  {
    if s == "" || sep <= s then 0 else 1 + Find(s[1..], sep)
  }

  predicate Has(s: string, sep: string) {
    sep <= s[Find(s, sep)..]
  }

  function NoSlashes(s: string): string {
    if s != "" && s[|s| - 1] == '/' then NoSlashes(s[..|s| - 1]) else s
  }

  function StripGit(s: string): string {
    if |s| >= 4 && s[|s| - 4..] == ".git" then s[..|s| - 4] else s
  }

  /** What follows the last `@`. */
  function AfterAt(s: string): string {
    if s != "" && '@' in s then AfterAt(s[1..]) else s
  }

  /** A path without trailing slashes and one `.git`. */
  function PathOf(s: string): string {
    NoSlashes(StripGit(NoSlashes(s)))
  }

  /** The key of what follows the scheme. */
  function KeyAfterScheme(rest: string): Option<string> {
    var slash := Find(rest, "/");
    var host := AfterAt(rest[..slash]);
    var path := PathOf(if slash < |rest| then rest[slash + 1..] else "");
    if host == "" || path == "" then None else Some(Lower(host + "/" + path))
  }

  /** Host and path in lower case; `None` when the URL has no scheme, no host or no path. */
  function RepositoryKey(url: string): Option<string> {
    var s := Trim(url);
    if Has(s, "://") then KeyAfterScheme(s[Find(s, "://") + 3..]) else None
  }

  predicate SameRepository(a: string, b: string) {
    RepositoryKey(a).Some? && RepositoryKey(a) == RepositoryKey(b)
  }

  // ----- spellings of one repository

  /** What a clone URL is made of. */
  datatype Url = Url(scheme: string, credentials: Option<string>, host: string, path: string, git: bool, slashes: nat)

  function Slashes(n: nat): (s: string)
    ensures |s| == n && forall i :: 0 <= i < n ==> s[i] == '/'
  {
    seq(n, i => '/')
  }

  function Authority(u: Url): string {
    (match u.credentials case Some(c) => c + "@" case None => "") + u.host
  }

  function Tail(u: Url): string {
    u.path + (if u.git then ".git" else "") + Slashes(u.slashes)
  }

  function Spelled(u: Url): string {
    u.scheme + "://" + Authority(u) + "/" + Tail(u)
  }

  /** The parts do not hold what separates them, and nothing is trimmed from them. */
  predicate Sound(u: Url) {
    && ':' !in u.scheme && '/' !in u.scheme && u.scheme != "" && !Blank(u.scheme[0])
    && (u.credentials.Some? ==> '/' !in u.credentials.value)
    && u.host != "" && '/' !in u.host && '@' !in u.host
    && u.path != "" && u.path[|u.path| - 1] != '/' && !Blank(u.path[|u.path| - 1]) && StripGit(u.path) == u.path
  }

  lemma {:induction false} FindAfter(a: string, sep: char, b: string)
    requires sep !in a
    ensures Find(a + [sep] + b, [sep]) == |a|
    decreases |a|
  {
    var s := a + [sep] + b;
    if a == "" {
      assert s[0] == sep && [sep] <= s;
    } else {
      assert s[1..] == a[1..] + [sep] + b;
      assert s[0] == a[0] && !([sep] <= s);
      FindAfter(a[1..], sep, b);
    }
  }

  lemma {:induction false} FindScheme(a: string, b: string)
    requires ':' !in a
    ensures Find(a + "://" + b, "://") == |a|
    decreases |a|
  {
    var s := a + "://" + b;
    if a == "" {
      assert s[..3] == "://" && "://" <= s;
    } else {
      assert s[1..] == a[1..] + "://" + b;
      assert s[0] == a[0];
      FindScheme(a[1..], b);
    }
  }

  lemma {:induction false} AfterLastAt(a: string, b: string)
    requires '@' !in b
    ensures AfterAt(a + "@" + b) == b
    decreases |a|
  {
    var s := a + "@" + b;
    assert s[|a|] == '@';
    if a == "" {
      assert s[1..] == b;
    } else {
      assert s[1..] == a[1..] + "@" + b;
      AfterLastAt(a[1..], b);
    }
  }

  lemma {:induction false} SlashesGo(s: string, n: nat)
    requires s != "" ==> s[|s| - 1] != '/'
    ensures NoSlashes(s + Slashes(n)) == s
  {
    var all := s + Slashes(n);
    if n == 0 {
      assert all == s;
    } else {
      assert all[..|all| - 1] == s + Slashes(n - 1);
      SlashesGo(s, n - 1);
    }
  }

  lemma {:induction false} TailPath(u: Url)
    requires Sound(u)
    ensures PathOf(Tail(u)) == u.path
  {
    var named := u.path + if u.git then ".git" else "";
    SlashesGo(named, u.slashes);
    SlashesGo(u.path, 0);
    assert u.path + Slashes(0) == u.path;
    if u.git {
      assert named[|named| - 4..] == ".git" && named[..|named| - 4] == u.path;
    } else {
      assert named == u.path;
    }
  }

  function Rest(u: Url): string {
    Authority(u) + "/" + Tail(u)
  }

  lemma {:induction false} NotTrimmed(s: string)
    requires s != "" && !Blank(s[0]) && !Blank(s[|s| - 1])
    ensures Trim(s) == s
  {
  }

  lemma {:induction false} SchemeSplits(u: Url)
    requires Sound(u)
    ensures var s := Spelled(u);
            Trim(s) == s && Has(s, "://") && Find(s, "://") + 3 <= |s| && s[Find(s, "://") + 3..] == Rest(u)
  {
    var s := Spelled(u);
    assert s == u.scheme + "://" + Rest(u);
    assert s[0] == u.scheme[0] && s[|s| - 1] == Tail(u)[|Tail(u)| - 1];
    NotTrimmed(s);
    FindScheme(u.scheme, Rest(u));
    assert s[|u.scheme|..] == "://" + Rest(u);
  }

  lemma {:induction false} HostSplits(u: Url)
    requires Sound(u)
    ensures var slash := Find(Rest(u), "/");
            slash < |Rest(u)| && AfterAt(Rest(u)[..slash]) == u.host && Rest(u)[slash + 1..] == Tail(u)
  {
    FindAfter(Authority(u), '/', Tail(u));
    assert Rest(u)[..|Authority(u)|] == Authority(u) && Rest(u)[|Authority(u)| + 1..] == Tail(u);
    if u.credentials.Some? {
      AfterLastAt(u.credentials.value, u.host);
      assert Authority(u) == u.credentials.value + "@" + u.host;
    } else {
      assert Authority(u) == u.host;
    }
  }

  lemma {:induction false} RestNames(u: Url)
    requires Sound(u)
    ensures KeyAfterScheme(Rest(u)) == Some(Lower(u.host + "/" + u.path))
  {
    HostSplits(u);
    TailPath(u);
  }

  /** Whatever scheme, credentials, `.git`, trailing slashes and case, the URL names its host and path. */
  lemma {:induction false} SpellingNames(u: Url)
    requires Sound(u)
    ensures RepositoryKey(Spelled(u)) == Some(Lower(u.host + "/" + u.path))
  {
    SchemeSplits(u);
    RestNames(u);
  }

  /** Two spellings name one repository exactly when host and path agree up to case. */
  lemma {:induction false} SpellingsAgree(u: Url, v: Url)
    requires Sound(u) && Sound(v)
    ensures SameRepository(Spelled(u), Spelled(v)) <==> Lower(u.host) == Lower(v.host) && Lower(u.path) == Lower(v.path)
  {
    SpellingNames(u);
    SpellingNames(v);
    HostAndPath(u.host, u.path, v.host, v.path);
  }

  lemma {:induction false} HostAndPath(h: string, p: string, h': string, p': string)
    requires '/' !in h && '/' !in h'
    ensures Lower(h + "/" + p) == Lower(h' + "/" + p') <==> Lower(h) == Lower(h') && Lower(p) == Lower(p')
  {
    var a, b := Lower(h + "/" + p), Lower(h' + "/" + p');
    assert a == Lower(h) + "/" + Lower(p) && b == Lower(h') + "/" + Lower(p');
    if a == b {
      FindAfter(Lower(h), '/', Lower(p));
      FindAfter(Lower(h'), '/', Lower(p'));
      assert a[..|h|] == Lower(h) && b[..|h|] == Lower(h');
      assert a[|h| + 1..] == Lower(p) && b[|h| + 1..] == Lower(p');
    }
  }
}
