/**
 A project's sources: where each is checked out, and which of them is marked
 for what.
 */
module ProjectSources {
  import opened Prelude
  import opened Json
  import opened RepositoryUrls

  /** What a checkout is called when its path gives no name. */
  const FALLBACK_DIR := "source"

  /** What the text and UUID libraries decide. */
  datatype Rules = Rules(lower: string -> string, uuid: string -> Option<string>)

  datatype ShareMode = Branch | PullRequest

  datatype Source = Source(
    connection: Option<string>, fullPath: string, cloneUrl: string, branch: Option<string>,
    dir: string, shareMode: ShareMode, gearsHere: bool, publishHere: bool)

  function Text(entry: Json, key: string): Option<string> {
    match GetStr(entry, key)
    case None => None
    case Some(s) => if Trim(s) == "" then None else Some(Trim(s))
  }

  predicate Flag(entry: Json, key: string) {
    GetBool(entry, key) == Some(true)
  }

  /** The sources of a config; none when they are not a list. */
  function Entries(config: Json): seq<Json> {
    match Get(config, "sources")
    case Some(Arr(items)) => items
    case _ => []
  }

  // ----- directories

  function AfterSlash(s: string): string {
    if s != "" && '/' in s then AfterSlash(s[1..]) else s
  }

  predicate InDir(c: char) {
    'a' <= c <= 'z' || '0' <= c <= '9' || c == '_' || c == '-'
  }

  function DirChars(s: string): (r: string)
    ensures |r| == |s| && forall i :: 0 <= i < |r| ==> InDir(r[i])
  {
    seq(|s|, i requires 0 <= i < |s| => if InDir(s[i]) then s[i] else '-')
  }

  /** The last segment of a path, as a directory name. */
  function CheckoutDir(rules: Rules, path: string): (dir: string)
    ensures dir != "" && forall i :: 0 <= i < |dir| ==> InDir(dir[i])
  {
    var dir := DirChars(rules.lower(AfterSlash(NoSlashes(path))));
    if dir == "" then FALLBACK_DIR else dir
  }

  /** The names tried for a directory: the base itself, then `base-2`, `base-3`, and so on. */
  function NameAt(base: string, k: nat): string {
    if k < 2 then base else base + "-" + Decimal(k)
  }

  lemma {:induction false} NamesDiffer(base: string, j: nat, k: nat)
    requires 1 <= j < k
    ensures NameAt(base, j) != NameAt(base, k)
  {
    if 2 <= j && NameAt(base, j) == NameAt(base, k) {
      var n := |base| + 1;
      assert NameAt(base, j)[n..] == Decimal(j) && NameAt(base, k)[n..] == Decimal(k);
      DecimalInjective(j, k);
      assert false;
    }
  }

  function Tried(base: string, k: nat): set<string> {
    set j | 1 <= j < k :: NameAt(base, j)
  }

  lemma {:induction false} TriesOn(base: string, k: nat)
    requires 1 <= k
    ensures NameAt(base, k) !in Tried(base, k) && Tried(base, k + 1) == Tried(base, k) + {NameAt(base, k)}
  {
    forall j | 1 <= j < k
      ensures NameAt(base, j) != NameAt(base, k)
    {
      NamesDiffer(base, j, k);
    }
  }

  /** The first name free from the `k`th on; there is one, since no name is tried twice. */
  function FreeFrom(base: string, taken: set<string>, k: nat): string
    requires 1 <= k
    decreases taken - Tried(base, k)
  {
    TriesOn(base, k);
    if NameAt(base, k) in taken then FreeFrom(base, taken, k + 1) else NameAt(base, k)
  }

  /** `dir` is the base, or the base with the least suffix that is free. */
  ghost predicate FirstFree(base: string, taken: set<string>, dir: string) {
    exists k: nat :: 1 <= k && dir == NameAt(base, k) && dir !in taken && forall j :: 1 <= j < k ==> NameAt(base, j) in taken
  }

  lemma {:induction false} FreeIsFirst(base: string, taken: set<string>, k: nat)
    requires 1 <= k && forall j :: 1 <= j < k ==> NameAt(base, j) in taken
    ensures FirstFree(base, taken, FreeFrom(base, taken, k))
    decreases taken - Tried(base, k)
  {
    TriesOn(base, k);
    if NameAt(base, k) in taken {
      FreeIsFirst(base, taken, k + 1);
    }
  }

  function Dirs(sources: seq<Source>): set<string> {
    set s | s in sources :: s.dir
  }

  function ShareModeOf(entry: Json): ShareMode {
    if Text(entry, "share_mode") == Some("pull_request") then PullRequest else Branch
  }

  function FullPath(entry: Json): string {
    match Text(entry, "full_path")
    case Some(p) => p
    case None => ""
  }

  function SourceOf(rules: Rules, entry: Json, cloneUrl: string, dir: string): Source {
    Source(match Text(entry, "connection_id") case Some(id) => rules.uuid(id) case None => None,
           FullPath(entry), cloneUrl, Text(entry, "branch"), dir, ShareModeOf(entry),
           Flag(entry, "gears_here"), Flag(entry, "publish_here"))
  }

  /** One entry more: without a clone URL it is left out and takes no directory. */
  function WithEntry(rules: Rules, before: seq<Source>, entry: Json): seq<Source> {
    match Text(entry, "clone_url")
    case None => before
    case Some(url) =>
      before + [SourceOf(rules, entry, url, FreeFrom(CheckoutDir(rules, FullPath(entry)), Dirs(before), 1))]
  }

  /** The sources of a list. */
  function Sources(rules: Rules, entries: seq<Json>): seq<Source> {
    if entries == [] then []
    else WithEntry(rules, Sources(rules, entries[..|entries| - 1]), entries[|entries| - 1])
  }

  method FreeDir(base: string, taken: set<string>) returns (dir: string)
    ensures dir == FreeFrom(base, taken, 1)
  {
    var suffix := 2;
    dir := base;
    while dir in taken
      invariant suffix >= 2 && dir == NameAt(base, suffix - 1)
      invariant FreeFrom(base, taken, suffix - 1) == FreeFrom(base, taken, 1)
      decreases taken - Tried(base, suffix - 1)
    {
      TriesOn(base, suffix - 1);
      dir := base + "-" + Decimal(suffix);
      suffix := suffix + 1;
    }
  }

  /** Every entry that is a source, with where it is checked out. */
  method Parse(rules: Rules, config: Json) returns (out: seq<Source>)
    ensures out == Sources(rules, Entries(config))
  {
    var entries := Entries(config);
    var taken: set<string> := {};
    out := [];
    for i := 0 to |entries|
      invariant out == Sources(rules, entries[..i]) && taken == Dirs(out)
    {
      var entry := entries[i];
      var cloneUrl := Text(entry, "clone_url");
      assert entries[..i + 1][..i] == entries[..i];
      if cloneUrl.Some? {
        var base := CheckoutDir(rules, FullPath(entry));
        var dir := FreeDir(base, taken);
        taken := taken + {dir};
        out := out + [SourceOf(rules, entry, cloneUrl.value, dir)];
      }
    }
    assert entries[..|entries|] == entries;
  }

  ghost predicate Apart(sources: seq<Source>) {
    forall i, j :: 0 <= i < j < |sources| ==> sources[i].dir != sources[j].dir
  }

  ghost predicate EachFirstFree(rules: Rules, sources: seq<Source>) {
    forall i :: 0 <= i < |sources| ==>
      FirstFree(CheckoutDir(rules, sources[i].fullPath), Dirs(sources[..i]), sources[i].dir)
  }

  lemma {:induction false} NextApart(rules: Rules, before: seq<Source>, s: Source)
    requires Apart(before) && EachFirstFree(rules, before)
    requires FirstFree(CheckoutDir(rules, s.fullPath), Dirs(before), s.dir)
    ensures Apart(before + [s]) && EachFirstFree(rules, before + [s])
  {
    var sources := before + [s];
    assert sources[..|before|] == before;
    forall i | 0 <= i < |before|
      ensures sources[..i] == before[..i] && sources[i].dir != s.dir
    {
      assert before[i].dir in Dirs(before);
    }
  }

  /** No two sources share a directory, and each takes the first of its names that those before it leave free. */
  lemma {:induction false} DirectoriesApart(rules: Rules, entries: seq<Json>)
    ensures Apart(Sources(rules, entries)) && EachFirstFree(rules, Sources(rules, entries))
  {
    if entries != [] {
      var before := Sources(rules, entries[..|entries| - 1]);
      var sources := Sources(rules, entries);
      DirectoriesApart(rules, entries[..|entries| - 1]);
      if sources != before {
        FreeIsFirst(CheckoutDir(rules, FullPath(entries[|entries| - 1])), Dirs(before), 1);
        NextApart(rules, before, sources[|before|]);
      }
    }
  }

  /** A directory is one path segment: letters, digits, `_` and `-`, and at least one of them. */
  lemma {:induction false} DirectoriesPlain(rules: Rules, entries: seq<Json>)
    ensures forall s :: s in Sources(rules, entries) ==> s.dir != "" && forall i :: 0 <= i < |s.dir| ==> InDir(s.dir[i])
  {
    if entries != [] {
      DirectoriesPlain(rules, entries[..|entries| - 1]);
      var before := Sources(rules, entries[..|entries| - 1]);
      var base := CheckoutDir(rules, FullPath(entries[|entries| - 1]));
      FreeIsFirst(base, Dirs(before), 1);
      forall k: nat
        ensures forall i :: 0 <= i < |NameAt(base, k)| ==> InDir(NameAt(base, k)[i])
      {
        DecimalInDir(k);
      }
    }
  }

  lemma {:induction false} DecimalInDir(n: nat)
    ensures forall i :: 0 <= i < |Decimal(n)| ==> InDir(Decimal(n)[i])
  {
    if n >= 10 {
      DecimalInDir(n / 10);
    }
  }

  /** Sources added at the end rename none of those before them. */
  lemma {:induction false} AppendingKeeps(rules: Rules, entries: seq<Json>, more: seq<Json>)
    ensures Sources(rules, entries) <= Sources(rules, entries + more)
  {
    if more == [] {
      assert entries + more == entries;
    } else {
      AppendingKeeps(rules, entries, more[..|more| - 1]);
      assert (entries + more)[..|entries + more| - 1] == entries + more[..|more| - 1];
    }
  }

  /** What cannot be cloned takes no directory from the entries around it. */
  lemma {:induction false} UnclonableTakesNothing(rules: Rules, a: seq<Json>, entry: Json, b: seq<Json>)
    requires Text(entry, "clone_url") == None
    ensures Sources(rules, a + [entry] + b) == Sources(rules, a + b)
  {
    if b == [] {
      assert (a + [entry] + b)[..|a|] == a && a + b == a;
    } else {
      var most := b[..|b| - 1];
      UnclonableTakesNothing(rules, a, entry, most);
      assert (a + [entry] + b)[..|a + [entry] + b| - 1] == a + [entry] + most;
      assert (a + b)[..|a + b| - 1] == a + most;
    }
  }

  // ----- flags

  /** The entry's clone URL names the repository of `url`. */
  predicate Names(entry: Json, url: string) {
    Text(entry, "clone_url").Some? && SameRepository(Text(entry, "clone_url").value, url)
  }

  /** An object with the flag set or taken off. */
  function FlaggedBy(entry: Json, key: string, this_: bool): Json {
    match entry
    case Obj(fields) => Obj(if this_ then fields[key := Bool(true)] else fields - {key})
    case _ => entry
  }

  predicate IsThis(entry: Json, url: Option<string>) {
    url.Some? && Names(entry, url.value)
  }

  /** An entry with the flag set if it names `url`'s repository, and without it otherwise. */
  function Marked(entry: Json, key: string, url: Option<string>): Json {
    FlaggedBy(entry, key, IsThis(entry, url))
  }

  function AllMarked(list: seq<Json>, key: string, url: Option<string>): (marked: seq<Json>)
    ensures |marked| == |list|
    ensures forall i :: 0 <= i < |list| ==> marked[i] == Marked(list[i], key, url)
  {
    seq(|list|, i requires 0 <= i < |list| => Marked(list[i], key, url))
  }

  function WithSources(config: Json, list: seq<Json>): Json {
    Obj(Fields(config)["sources" := Arr(list)])
  }

  predicate Listed(config: Json) {
    Get(config, "sources").Some? && Get(config, "sources").value.Arr?
  }

  /** The config after marking: as it was when its sources are no list. */
  function MarkedOnly(config: Json, key: string, url: Option<string>): Json {
    if Listed(config) then WithSources(config, AllMarked(Entries(config), key, url)) else config
  }

  predicate FoundIn(list: seq<Json>, url: Option<string>) {
    url.None? || exists i :: 0 <= i < |list| && Names(list[i], url.value)
  }

  predicate AnyFlagged(list: seq<Json>, key: string) {
    exists i :: 0 <= i < |list| && Flag(list[i], key)
  }

  function SlashesOff(s: string): string {
    NoSlashes(Trim(s))
  }

  function HostOr(host: Option<string>): string {
    if host.Some? && SlashesOff(host.value) != "" then SlashesOff(host.value) else "https://github.com"
  }

  function RepoUrl(repo: string, host: Option<string>): string {
    HostOr(host) + "/" + repo + ".git"
  }

  /** The entry is the repository: by its clone URL, or by its path up to case. */
  predicate IsRepo(entry: Json, repo: string, url: string) {
    || Names(entry, url)
    || (Text(entry, "full_path").Some? && Lower(Text(entry, "full_path").value) == Lower(repo))
  }

  /** The entry a repository becomes when it is not yet a source. */
  function NewEntry(gearRepo: Json, repo: string, url: string): Json {
    var named := map["full_path" := Str(repo), "clone_url" := Str(url), "gears_here" := Bool(true),
                     "folded_from" := Str("project_gear_repo")];
    var connected := match Text(gearRepo, "connection_id") case Some(c) => named["connection_id" := Str(c)] case None => named;
    Obj(match Text(gearRepo, "branch") case Some(b) => connected["branch" := Str(b)] case None => connected)
  }

  /** The first entry that is the repository, or the length. */
  function FirstRepo(list: seq<Json>, repo: string, url: string): (i: nat)
    ensures i <= |list|
  {
    if list == [] || IsRepo(list[0], repo, url) then 0 else 1 + FirstRepo(list[1..], repo, url)
  }

  lemma {:induction false} FirstRepoIs(list: seq<Json>, repo: string, url: string)
    ensures var i := FirstRepo(list, repo, url);
            && (i < |list| ==> IsRepo(list[i], repo, url))
            && forall j :: 0 <= j < i ==> !IsRepo(list[j], repo, url)
  {
    hide IsRepo;
    if list != [] && !IsRepo(list[0], repo, url) {
      FirstRepoIs(list[1..], repo, url);
    }
  }

  /** The list with the repository in it, flagged. */
  function Folded(list: seq<Json>, gearRepo: Json, repo: string, host: Option<string>): seq<Json> {
    var url := RepoUrl(repo, host);
    var i := FirstRepo(list, repo, url);
    if i < |list| then list[i := FlaggedBy(list[i], "gears_here", true)]
    else list + [NewEntry(gearRepo, repo, url)]
  }

  /** The config with an old record of a gear repository folded into its sources. */
  function FoldedInto(config: Json, gearRepo: Json, host: Option<string>): Json {
    match Text(gearRepo, "repo")
    case None => config
    case Some(repo) =>
      if AnyFlagged(Entries(config), "gears_here") then config
      else WithSources(config, Folded(Entries(config), gearRepo, repo, host))
  }

  /** The config after the flag was moved to `repo`, or to a new entry for it. */
  function GearsSet(config: Json, repo: Json, url: string, host: Option<string>): Json {
    if Listed(config) && FoundIn(Entries(config), Some(url)) then MarkedOnly(config, "gears_here", Some(url))
    else FoldedInto(MarkedOnly(config, "gears_here", None), repo, host)
  }

  /** A config with a flagged source in it has its sources listed. */
  lemma {:induction false} OpenAlready(config: Json, key: string)
    requires AnyFlagged(Entries(config), key)
    ensures Listed(config) && WithSources(config, Entries(config)) == config
  {
  }

  /** A project's config, edited in place. */
  class ProjectConfig {
    var config: Json

    constructor (config: Json)
      ensures this.config == config
    {
      this.config := config;
    }

    /** Marks the sources that are `url`'s repository and clears every other; whether there was one. */
    method MarkOnly(key: string, url: Option<string>) returns (found: bool)
      modifies this
      ensures config == MarkedOnly(old(config), key, url)
      ensures found <==> url.None? || (Listed(old(config)) && FoundIn(Entries(old(config)), url))
    {
      hide SameRepository, Trim, Lower;
      if !Listed(config) {
        return url.None?;
      }
      var list := Entries(config);
      ghost var entries := list;
      found := url.None?;
      for i := 0 to |list|
        invariant config == old(config) && |list| == |entries|
        invariant forall j :: 0 <= j < i ==> list[j] == Marked(entries[j], key, url)
        invariant forall j :: i <= j < |list| ==> list[j] == entries[j]
        invariant found <==> FoundIn(entries[..i], url)
      {
        var this_ := IsThis(list[i], url);
        found := found || this_;
        list := list[i := FlaggedBy(list[i], key, this_)];
        FoundNext(entries, i, url);
      }
      assert entries[..|list|] == entries && list == AllMarked(entries, key, url);
      config := WithSources(config, list);
    }

    /** The list of sources, made one if it is none. */
    method OpenSources() returns (list: seq<Json>)
      modifies this
      ensures config == WithSources(old(config), list) && list == Entries(old(config))
    {
      if !config.Obj? {
        config := Obj(map[]);
      }
      if !Listed(config) {
        config := Obj(config.fields["sources" := Arr([])]);
      }
      list := Entries(config);
    }

    static method FindRepo(list: seq<Json>, repo: string, url: string) returns (i: nat)
      ensures i == FirstRepo(list, repo, url)
    {
      hide SameRepository, Trim, Lower;
      i := 0;
      FirstRepoIs(list, repo, url);
      while i < |list| && !IsRepo(list[i], repo, url)
        invariant i <= |list| && forall j :: 0 <= j < i ==> !IsRepo(list[j], repo, url)
      {
        i := i + 1;
      }
    }

    /** Folds an old record into the sources; whether the config changed. */
    method FoldGearRepo(gearRepo: Json, host: Option<string>) returns (changed: bool)
      modifies this
      ensures config == FoldedInto(old(config), gearRepo, host)
      ensures changed <==> config != old(config)
    {
      hide SameRepository, Trim, Lower, Text, AnyFlagged, FirstRepo, IsRepo, NewEntry, FlaggedBy, RepoUrl, Entries;
      FoldChanges(config, gearRepo, host);
      var repo := Text(gearRepo, "repo");
      if repo.None? {
        return false;
      }
      var list := OpenSources();
      if AnyFlagged(list, "gears_here") {
        OpenAlready(old(config), "gears_here");
        return false;
      }
      var url := RepoUrl(repo.value, host);
      var i := FindRepo(list, repo.value, url);
      if i < |list| {
        list := list[i := FlaggedBy(list[i], "gears_here", true)];
      } else {
        list := list + [NewEntry(gearRepo, repo.value, url)];
      }
      config := WithSources(config, list);
      changed := true;
    }

    /** Only the entries that name `repo` keep the flag; a repository no entry names is folded in. */
    method SetGearsHere(repo: Json, url: string, host: Option<string>) returns (changed: bool)
      modifies this
      ensures config == GearsSet(old(config), repo, url, host) && changed
    {
      var before := config;
      var found := MarkOnly("gears_here", Some(url));
      if !found {
        assert config == MarkedOnly(before, "gears_here", Some(url));
        ClearedOnce(before, "gears_here", url);
        var _ := MarkOnly("gears_here", None);
        var _ := FoldGearRepo(repo, host);
      }
      changed := true;
    }
  }

  lemma {:induction false} FoundNext(list: seq<Json>, i: nat, url: Option<string>)
    requires i < |list|
    ensures FoundIn(list[..i + 1], url) <==> FoundIn(list[..i], url) || (url.Some? && Names(list[i], url.value))
  {
    hide SameRepository, Trim, Lower;
    var most, more := list[..i], list[..i + 1];
    assert forall j :: 0 <= j < i ==> more[j] == most[j];
    assert more[i] == list[i];
  }

  // ----- what the flags say afterwards

  /** Two entries that differ in one field at most. */
  predicate SameBut(a: Json, b: Json, key: string) {
    if a.Obj? then b.Obj? && a.fields - {key} == b.fields - {key} else a == b
  }

  lemma {:induction false} FlagAlone(entry: Json, key: string, this_: bool)
    ensures this_ && entry.Obj? <==> Flag(FlaggedBy(entry, key, this_), key)
    ensures SameBut(entry, FlaggedBy(entry, key, this_), key)
    ensures forall field :: field != key ==> Text(FlaggedBy(entry, key, this_), field) == Text(entry, field)
  {
  }

  /** Marking flags exactly the entries that name the repository, and touches no other field of any of them. */
  lemma {:induction false} MarksExactly(config: Json, key: string, url: Option<string>)
    ensures var list, marked := Entries(config), Entries(MarkedOnly(config, key, url));
            && marked == AllMarked(list, key, url)
            && (forall i :: 0 <= i < |list| ==> (Flag(marked[i], key) <==> IsThis(list[i], url)))
            && (forall i :: 0 <= i < |list| ==> SameBut(list[i], marked[i], key))
    ensures SameBut(config, MarkedOnly(config, key, url), "sources")
  {
    var list, marked := Entries(config), Entries(MarkedOnly(config, key, url));
    assert marked == AllMarked(list, key, url);
    forall i | 0 <= i < |list|
      ensures (Flag(marked[i], key) <==> IsThis(list[i], url)) && SameBut(list[i], marked[i], key)
    {
      FlagAlone(list[i], key, IsThis(list[i], url));
    }
  }

  /** Where nothing was found the flags are gone already, and clearing them again changes nothing. */
  lemma {:induction false} ClearedOnce(config: Json, key: string, url: string)
    requires !(Listed(config) && FoundIn(Entries(config), Some(url)))
    ensures MarkedOnly(MarkedOnly(config, key, Some(url)), key, None) == MarkedOnly(config, key, None)
  {
    if Listed(config) {
      var list := Entries(config);
      forall i | 0 <= i < |list|
        ensures Marked(Marked(list[i], key, Some(url)), key, None) == Marked(list[i], key, None)
      {
        assert !Names(list[i], url);
      }
      assert AllMarked(AllMarked(list, key, Some(url)), key, None) == AllMarked(list, key, None);
      var once := MarkedOnly(config, key, Some(url));
      assert Fields(once)["sources" := Arr(AllMarked(list, key, None))] == Fields(config)["sources" := Arr(AllMarked(list, key, None))];
    }
  }

  function Flagged(list: seq<Json>, key: string): nat {
    if list == [] then 0 else Flagged(list[..|list| - 1], key) + if Flag(list[|list| - 1], key) then 1 else 0
  }

  function Naming(list: seq<Json>, url: string): nat {
    if list == [] then 0 else Naming(list[..|list| - 1], url) + if Names(list[|list| - 1], url) then 1 else 0
  }

  lemma {:induction false} MarkedCount(list: seq<Json>, key: string, url: Option<string>)
    ensures Flagged(AllMarked(list, key, url), key) == if url.Some? then Naming(list, url.value) else 0
  {
    if list != [] {
      var most := list[..|list| - 1];
      MarkedCount(most, key, url);
      assert AllMarked(list, key, url)[..|most|] == AllMarked(most, key, url);
    }
  }

  lemma {:induction false} NamingFound(list: seq<Json>, url: string)
    ensures Naming(list, url) > 0 <==> FoundIn(list, Some(url))
  {
    if list != [] {
      var n := |list| - 1;
      NamingFound(list[..n], url);
      FoundNext(list, n, Some(url));
      assert list[..n + 1] == list;
    }
  }

  lemma {:induction false} NoneFlagged(list: seq<Json>, key: string)
    ensures Flagged(list, key) == 0 <==> !AnyFlagged(list, key)
  {
    if list != [] {
      var n := |list| - 1;
      NoneFlagged(list[..n], key);
      assert forall i :: 0 <= i < n ==> list[..n][i] == list[i];
    }
  }

  lemma {:induction false} FlagSet(list: seq<Json>, i: nat, key: string)
    requires i < |list| && !Flag(list[i], key) && list[i].Obj?
    ensures Flagged(list[i := FlaggedBy(list[i], key, true)], key) == Flagged(list, key) + 1
  {
    var n := |list| - 1;
    var set_ := list[i := FlaggedBy(list[i], key, true)];
    FlagAlone(list[i], key, true);
    if i < n {
      FlagSet(list[..n], i, key);
      assert set_[..n] == list[..n][i := set_[i]];
    } else {
      assert set_[..n] == list[..n];
    }
  }

  lemma {:induction false} NewIsFlagged(gearRepo: Json, repo: string, url: string)
    ensures Flag(NewEntry(gearRepo, repo, url), "gears_here")
    ensures GetStr(NewEntry(gearRepo, repo, url), "clone_url") == Some(url)
  {
  }

  lemma {:induction false} FoldedCount(list: seq<Json>, gearRepo: Json, repo: string, host: Option<string>)
    requires !AnyFlagged(list, "gears_here")
    ensures Flagged(Folded(list, gearRepo, repo, host), "gears_here") == 1
  {
    NoneFlagged(list, "gears_here");
    var url := RepoUrl(repo, host);
    var i := FirstRepo(list, repo, url);
    FirstRepoIs(list, repo, url);
    if i < |list| {
      FlagSet(list, i, "gears_here");
    } else {
      NewIsFlagged(gearRepo, repo, url);
      assert (list + [NewEntry(gearRepo, repo, url)])[..|list|] == list;
    }
  }

  /** Folding changes the config exactly when it names a repository and no source has the flag. */
  lemma {:induction false} FoldChanges(config: Json, gearRepo: Json, host: Option<string>)
    ensures FoldedInto(config, gearRepo, host) != config <==>
            Text(gearRepo, "repo").Some? && !AnyFlagged(Entries(config), "gears_here")
    ensures FoldedInto(config, gearRepo, host) != config ==> AnyFlagged(Entries(FoldedInto(config, gearRepo, host)), "gears_here")
  {
    if Text(gearRepo, "repo").Some? && !AnyFlagged(Entries(config), "gears_here") {
      FoldedCount(Entries(config), gearRepo, Text(gearRepo, "repo").value, host);
      NoneFlagged(Entries(FoldedInto(config, gearRepo, host)), "gears_here");
    }
  }

  /** Folding again, whatever the record, changes nothing once a fold changed something; and folding one record twice is folding it once. */
  lemma {:induction false} FoldIdempotent(config: Json, gearRepo: Json, host: Option<string>, again: Json, host': Option<string>)
    ensures var once := FoldedInto(config, gearRepo, host);
            && FoldedInto(once, gearRepo, host) == once
            && (once != config ==> FoldedInto(once, again, host') == once)
  {
    var once := FoldedInto(config, gearRepo, host);
    FoldChanges(config, gearRepo, host);
    FoldChanges(once, gearRepo, host);
    FoldChanges(once, again, host');
  }

  lemma {:induction false} NoneLeft(config: Json)
    ensures !AnyFlagged(Entries(MarkedOnly(config, "gears_here", None)), "gears_here")
  {
  }

  /** Where no source named the repository, the flag is cleared and the record folded in. */
  lemma {:induction false} GearsSetFolds(config: Json, repo: Json, name: string, url: string, host: Option<string>)
    requires !FoundIn(Entries(config), Some(url)) && Text(repo, "repo") == Some(name)
    ensures var cleared := AllMarked(Entries(config), "gears_here", None);
            && !AnyFlagged(cleared, "gears_here")
            && Entries(GearsSet(config, repo, url, host)) == Folded(cleared, repo, name, host)
  {
    hide FoundIn, Folded;
    NoneLeft(config);
    MarksExactly(config, "gears_here", None);
  }

  /**
   After the flag moved it is on every source that named the repository, or,
   where none did, on exactly one; it is on none only when the record names no repository.
   */
  lemma {:induction false} FlagCount(config: Json, repo: Json, url: string, host: Option<string>)
    ensures Flagged(Entries(GearsSet(config, repo, url, host)), "gears_here") ==
            var naming := Naming(Entries(config), url);
            if naming > 0 then naming else if Text(repo, "repo").Some? then 1 else 0
  {
    hide SameRepository, Trim, Lower, FoundIn, Folded, AnyFlagged, Flagged;
    var list := Entries(config);
    NamingFound(list, url);
    if Naming(list, url) > 0 {
      MarksExactly(config, "gears_here", Some(url));
      MarkedCount(list, "gears_here", Some(url));
    } else if Text(repo, "repo").Some? {
      GearsSetFolds(config, repo, Text(repo, "repo").value, url, host);
      FoldedCount(AllMarked(list, "gears_here", None), repo, Text(repo, "repo").value, host);
    } else {
      MarksExactly(config, "gears_here", None);
      MarkedCount(list, "gears_here", None);
    }
  }

  ghost predicate Kept(list: seq<Json>, after: seq<Json>, key: string) {
    |list| <= |after| && forall i :: 0 <= i < |list| ==> SameBut(list[i], after[i], key)
  }

  lemma {:induction false} FoldKeeps(config: Json, gearRepo: Json, host: Option<string>)
    ensures var list, after := Entries(config), Entries(FoldedInto(config, gearRepo, host));
            Kept(list, after, "gears_here") && |after| <= |list| + 1
  {
    hide SameRepository, Trim, Lower;
    var list := Entries(config);
    forall i | 0 <= i < |list|
      ensures SameBut(list[i], FlaggedBy(list[i], "gears_here", true), "gears_here")
    {
      FlagAlone(list[i], "gears_here", true);
    }
  }

  lemma {:induction false} KeptThen(a: seq<Json>, b: seq<Json>, c: seq<Json>, key: string)
    requires Kept(a, b, key) && Kept(b, c, key)
    ensures Kept(a, c, key)
  {
  }

  /** No source is lost or moved, no other field of one changes, and one is added at most. */
  lemma {:induction false} OnlyTheFlagMoves(config: Json, repo: Json, url: string, host: Option<string>)
    ensures var list, after := Entries(config), Entries(GearsSet(config, repo, url, host));
            Kept(list, after, "gears_here") && |after| <= |list| + 1
  {
    var list := Entries(config);
    MarksExactly(config, "gears_here", Some(url));
    MarksExactly(config, "gears_here", None);
    var cleared := MarkedOnly(config, "gears_here", None);
    FoldKeeps(cleared, repo, host);
    KeptThen(list, Entries(cleared), Entries(FoldedInto(cleared, repo, host)), "gears_here");
  }

  // ----- the source gears go to

  function GearsSource(sources: seq<Source>): Option<Source> {
    if sources == [] then None
    else if sources[0].gearsHere then Some(sources[0])
    else GearsSource(sources[1..])
  }

  lemma {:induction false} GearsSourceIs(sources: seq<Source>)
    ensures GearsSource(sources).Some? <==> exists s :: s in sources && s.gearsHere
    ensures GearsSource(sources).Some? ==> GearsSource(sources).value in sources && GearsSource(sources).value.gearsHere
  {
    if sources != [] {
      GearsSourceIs(sources[1..]);
      assert sources == [sources[0]] + sources[1..];
    }
  }

  /** The source an entry becomes, if it can be cloned. */
  predicate Becomes(entry: Json, s: Source) {
    Text(entry, "clone_url") == Some(s.cloneUrl) && s.gearsHere == Flag(entry, "gears_here")
  }

  lemma {:induction false} SourcesOf(rules: Rules, entries: seq<Json>)
    ensures forall s :: s in Sources(rules, entries) ==> exists e :: e in entries && Becomes(e, s)
    ensures forall e :: e in entries && Text(e, "clone_url").Some? ==> exists s :: s in Sources(rules, entries) && Becomes(e, s)
  {
    if entries != [] {
      var most, last := entries[..|entries| - 1], entries[|entries| - 1];
      SourcesOf(rules, most);
      assert entries == most + [last];
      var before, after := Sources(rules, most), Sources(rules, entries);
      if after != before {
        assert Becomes(last, after[|before|]);
      }
    }
  }

  /** "Create a gear" has a source exactly when some flagged entry can be cloned. */
  lemma {:induction false} GearsSourceExists(rules: Rules, entries: seq<Json>)
    ensures GearsSource(Sources(rules, entries)).Some? <==>
            exists e :: e in entries && Flag(e, "gears_here") && Text(e, "clone_url").Some?
  {
    SourcesOf(rules, entries);
    GearsSourceIs(Sources(rules, entries));
  }

  /** A flagged entry that names the repository has a source, and every flagged entry names it: so does what gears go to. */
  lemma {:induction false} FlaggedNamesGears(rules: Rules, after: seq<Json>, url: string, k: nat)
    requires k < |after| && Flag(after[k], "gears_here")
    requires forall i :: 0 <= i < |after| && Flag(after[i], "gears_here") ==> Names(after[i], url)
    ensures var gears := GearsSource(Sources(rules, after));
            gears.Some? && SameRepository(gears.value.cloneUrl, url)
  {
    hide SameRepository, Trim, Lower;
    assert after[k] in after && Names(after[k], url);
    GearsSourceExists(rules, after);
    GearsSourceIs(Sources(rules, after));
    SourcesOf(rules, after);
    var gears := GearsSource(Sources(rules, after)).value;
    var e :| e in after && Becomes(e, gears);
  }

  /** Once the flag moved to a repository that is a source, gears go to that repository. */
  lemma {:induction false} GearsGoToRepository(rules: Rules, config: Json, repo: Json, url: string, host: Option<string>)
    ensures var gears := GearsSource(Sources(rules, Entries(GearsSet(config, repo, url, host))));
            FoundIn(Entries(config), Some(url)) ==> gears.Some? && SameRepository(gears.value.cloneUrl, url)
  {
    hide SameRepository, Trim, Lower;
    if !FoundIn(Entries(config), Some(url)) {
      return;
    }
    var list, after := Entries(config), Entries(GearsSet(config, repo, url, host));
    MarksExactly(config, "gears_here", Some(url));
    var k :| 0 <= k < |list| && Names(list[k], url);
    forall i | 0 <= i < |after| && Flag(after[i], "gears_here")
      ensures Names(after[i], url)
    {
      FlagAlone(list[i], "gears_here", true);
    }
    FlaggedNamesGears(rules, after, url, k);
  }

  lemma {:induction false} FlagsDoNotName(list: seq<Json>, repo: string, url: string)
    ensures FirstRepo(AllMarked(list, "gears_here", None), repo, url) == FirstRepo(list, repo, url)
  {
    hide SameRepository, Trim, Lower;
    var cleared := AllMarked(list, "gears_here", None);
    forall i | 0 <= i < |list|
      ensures IsRepo(cleared[i], repo, url) <==> IsRepo(list[i], repo, url)
    {
      FlagAlone(list[i], "gears_here", false);
    }
    FirstRepoIs(cleared, repo, url);
    FirstRepoIs(list, repo, url);
    var i, j := FirstRepo(cleared, repo, url), FirstRepo(list, repo, url);
    assert !(i < j) && !(j < i);
  }

  /** The one entry flagged when no source named the repository. */
  lemma {:induction false} FoldedFlag(list: seq<Json>, gearRepo: Json, repo: string, host: Option<string>, e: Json)
    requires !AnyFlagged(list, "gears_here") && e in Folded(list, gearRepo, repo, host) && Flag(e, "gears_here")
    ensures var i := FirstRepo(list, repo, RepoUrl(repo, host));
            Text(e, "clone_url") == if i < |list| then Text(list[i], "clone_url")
                                    else Text(NewEntry(gearRepo, repo, RepoUrl(repo, host)), "clone_url")
  {
    hide SameRepository, Trim, Lower;
    var folded := Folded(list, gearRepo, repo, host);
    var k :| 0 <= k < |folded| && folded[k] == e;
    assert k < |list| ==> !Flag(list[k], "gears_here");
  }

  lemma {:induction false} Untrimmed(host: Option<string>, repo: string)
    ensures Trim(RepoUrl(repo, host)) != ""
  {
    var url := RepoUrl(repo, host);
    TrimKeeps(url, |url| - 1);
  }

  lemma {:induction false} TrimKeeps(s: string, i: nat)
    requires i < |s| && !Blank(s[i])
    ensures Trim(s) != ""
  {
    StartKeeps(s, i);
    var t := TrimStart(s);
    assert t[|t| - (|s| - i)] == s[i];
    EndKeeps(t, |t| - (|s| - i));
  }

  lemma {:induction false} StartKeeps(s: string, i: nat)
    requires i < |s| && !Blank(s[i])
    ensures |TrimStart(s)| >= |s| - i && TrimStart(s)[|TrimStart(s)| - (|s| - i)] == s[i]
    decreases |s|
  {
    if Blank(s[0]) {
      StartKeeps(s[1..], i - 1);
    }
  }

  lemma {:induction false} EndKeeps(s: string, i: nat)
    requires i < |s| && !Blank(s[i])
    ensures TrimEnd(s) != ""
    decreases |s|
  {
    if Blank(s[|s| - 1]) {
      EndKeeps(s[..|s| - 1], i);
    }
  }

  /** A list with one flagged entry `e` that a fold made. */
  lemma {:induction false} GearsAfterFold(rules: Rules, cleared: seq<Json>, gearRepo: Json, name: string, host: Option<string>)
    requires !AnyFlagged(cleared, "gears_here")
    ensures var i := FirstRepo(cleared, name, RepoUrl(name, host));
            GearsSource(Sources(rules, Folded(cleared, gearRepo, name, host))).Some? <==>
            i == |cleared| || Text(cleared[i], "clone_url").Some?
  {
    hide SameRepository, Trim, Lower;
    var folded := Folded(cleared, gearRepo, name, host);
    FoldedCount(cleared, gearRepo, name, host);
    NoneFlagged(folded, "gears_here");
    var k :| 0 <= k < |folded| && Flag(folded[k], "gears_here");
    assert folded[k] in folded;
    forall e | e in folded && Flag(e, "gears_here")
      ensures Text(e, "clone_url").Some? <==>
              var i := FirstRepo(cleared, name, RepoUrl(name, host)); i == |cleared| || Text(cleared[i], "clone_url").Some?
    {
      FoldedFlag(cleared, gearRepo, name, host, e);
      NewIsFlagged(gearRepo, name, RepoUrl(name, host));
      Untrimmed(host, name);
    }
    GearsSourceExists(rules, folded);
  }

  /**
   Where no source named the repository by its URL, gears have a source
   exactly when the entry that took the flag can be cloned: one found by its
   path alone may have no clone URL, and then they have none.
   */
  lemma {:induction false} GearsSourceAfterFold(rules: Rules, config: Json, repo: Json, name: string, url: string, host: Option<string>)
    requires !FoundIn(Entries(config), Some(url)) && Text(repo, "repo") == Some(name)
    ensures var list := Entries(config);
            var i := FirstRepo(list, name, RepoUrl(name, host));
            GearsSource(Sources(rules, Entries(GearsSet(config, repo, url, host)))).Some? <==>
            i == |list| || Text(list[i], "clone_url").Some?
  {
    hide FirstRepo, Sources, GearsSource, GearsSet, FoundIn, Folded;
    var list := Entries(config);
    GearsSetFolds(config, repo, name, url, host);
    FlagsDoNotName(list, name, RepoUrl(name, host));
    GearsAfterFold(rules, AllMarked(list, "gears_here", None), repo, name, host);
    var i := FirstRepo(list, name, RepoUrl(name, host));
    if i < |list| {
      FlagAlone(list[i], "gears_here", false);
    }
  }
}
