/** The `/api/github-repos` transformation (server/routes.ts): public,
    non-fork repositories from the code-hosting API are turned into the
    summaries the projects section consumes. The HTTP fetch itself is left
    out; the transformation works on the list it returns. */
module Repos {
  import opened Wrappers
  import opened Seqs
  import opened Text

  /** One repository as the hosting API reports it. Absent or null fields
      are `None`. */
  datatype RawRepo = RawRepo(
    name: string,
    fork: bool,
    isPrivate: bool,
    description: Option<string>,
    language: Option<string>,
    stargazersCount: Option<int>,
    forksCount: Option<int>,
    watchersCount: Option<int>,
    htmlUrl: string,
    homepage: Option<string>,
    topics: Option<seq<string>>,
    createdAt: string,
    updatedAt: string)

  /** The summary the server returns for one repository. */
  datatype RepoSummary = RepoSummary(
    id: string,
    name: string,
    title: string,
    description: string,
    language: string,
    stars: int,
    forks: int,
    watchers: int,
    htmlUrl: string,
    homepage: string,
    topics: seq<string>,
    createdAt: string,
    updatedAt: string)

  const NoDescription: string := "No description available"
  const UnknownLanguage: string := "Unknown"
  const PagesPrefix: string := "https://prince62058.github.io/"

  /** A string value `s || fallback`: the empty string and absence are falsy. */
  function OrElse(s: Option<string>, fallback: string): string {
    if s.Some? && s.value != "" then s.value else fallback
  }

  /** A count `n || 0`. */
  function CountOrZero(n: Option<int>): int {
    if n.Some? then n.value else 0
  }

  // ---------------------------------------------------------------------
  // Titles: `name.replace(/-/g, ' ').replace(/\b\w/g, l => l.toUpperCase())`

  /** `\w` of a JavaScript regular expression without the `u` flag. */
  predicate IsWordChar(c: char) {
    ('a' <= c <= 'z') || ('A' <= c <= 'Z') || ('0' <= c <= '9') || c == '_'
  }

  /** `\b\w` matches at position i: a word character with no word
      character just before it. */
  predicate AtWordStart(s: string, i: nat)
    requires i < |s|
  {
    IsWordChar(s[i]) && (i == 0 || !IsWordChar(s[i - 1]))
  }

  function HyphensToSpaces(s: string): (r: string)
    ensures |r| == |s|
    ensures forall i :: 0 <= i < |s| ==> r[i] == (if s[i] == '-' then ' ' else s[i])
    decreases |s|
  {
    if s == [] then [] else [if s[0] == '-' then ' ' else s[0]] + HyphensToSpaces(s[1..])
  }

  /** The global replacement scans left to right; `afterWord` says whether
      the character before `s` was a word character. Each match is one
      character, and boundaries are judged on the unreplaced string. */
  function CapitalizeScan(s: string, afterWord: bool): string
    decreases |s|
  {
    if s == [] then []
    else [if IsWordChar(s[0]) && !afterWord then UpperChar(s[0]) else s[0]]
         + CapitalizeScan(s[1..], IsWordChar(s[0]))
  }

  /** The scan upper-cases exactly the characters at which `\b\w` matches. */
  lemma {:induction false} CapitalizeScanAt(s: string, afterWord: bool, i: nat)
    requires i < |s|
    ensures |CapitalizeScan(s, afterWord)| == |s|
    ensures CapitalizeScan(s, afterWord)[i]
         == if IsWordChar(s[i]) && (if i == 0 then !afterWord else !IsWordChar(s[i - 1]))
            then UpperChar(s[i]) else s[i]
    decreases |s|
  {
    CapitalizeScanLength(s, afterWord);
    if i > 0 {
      CapitalizeScanAt(s[1..], IsWordChar(s[0]), i - 1);
      assert s[1..][i - 1] == s[i];
      if i > 1 { assert s[1..][i - 2] == s[i - 1]; }
    }
  }

  lemma {:induction false} CapitalizeScanLength(s: string, afterWord: bool)
    ensures |CapitalizeScan(s, afterWord)| == |s|
    decreases |s|
  {
    if s != [] {
      CapitalizeScanLength(s[1..], IsWordChar(s[0]));
    }
  }

  /** The title shown for a repository: as long as its name. */
  function Title(name: string): (r: string)
    ensures |r| == |name|
  {
    CapitalizeScanLength(HyphensToSpaces(name), false);
    CapitalizeScan(HyphensToSpaces(name), false)
  }

  /** A title has the length of its name; every '-' becomes ' '; a word
      character that starts a word is upper-cased; every other character is
      kept. */
  lemma TitleAt(name: string, i: nat)
    requires i < |name|
    ensures |Title(name)| == |name|
    ensures name[i] == '-' ==> Title(name)[i] == ' '
    ensures AtWordStart(name, i) ==> Title(name)[i] == UpperChar(name[i])
    ensures name[i] != '-' && !AtWordStart(name, i) ==> Title(name)[i] == name[i]
  {
    CapitalizeScanAt(HyphensToSpaces(name), false, i);
  }

  // ---------------------------------------------------------------------

  /** `homepage && homepage.trim() !== ""`, else the project-pages address;
      either way the link is never blank. */
  function Homepage(raw: RawRepo): (r: string)
    ensures !IsBlank(r)
  {
    if raw.homepage.Some? && raw.homepage.value != "" && Trim(raw.homepage.value) != "" then
      TrimEmptyIffBlank(raw.homepage.value);
      raw.homepage.value
    else
      assert (PagesPrefix + raw.name + "/")[0] == 'h';
      PagesPrefix + raw.name + "/"
  }

  lemma HomepageFallback(raw: RawRepo)
    ensures raw.homepage.Some? && !IsBlank(raw.homepage.value) ==> Homepage(raw) == raw.homepage.value
    ensures raw.homepage.None? || IsBlank(raw.homepage.value) ==>
              Homepage(raw) == PagesPrefix + raw.name + "/"
  {
    if raw.homepage.Some? {
      TrimEmptyIffBlank(raw.homepage.value);
    }
  }

  /** The summary of one repository, with the source's defaults. */
  function Summarize(raw: RawRepo): (r: RepoSummary)
    ensures r.id == r.name == raw.name
    ensures r.title == Title(raw.name) && r.homepage == Homepage(raw)
    ensures r.description != "" && r.language != ""
    ensures raw.description.None? || raw.description.value == "" ==> r.description == NoDescription
    ensures raw.language.None? || raw.language.value == "" ==> r.language == UnknownLanguage
    ensures raw.stargazersCount.None? ==> r.stars == 0
    ensures raw.forksCount.None? ==> r.forks == 0
    ensures raw.watchersCount.None? ==> r.watchers == 0
    ensures raw.topics.None? ==> r.topics == []
    ensures raw.description.Some? && raw.description.value != "" ==> r.description == raw.description.value
    ensures raw.language.Some? && raw.language.value != "" ==> r.language == raw.language.value
    ensures raw.stargazersCount.Some? ==> r.stars == raw.stargazersCount.value
    ensures raw.forksCount.Some? ==> r.forks == raw.forksCount.value
    ensures raw.watchersCount.Some? ==> r.watchers == raw.watchersCount.value
    ensures raw.topics.Some? ==> r.topics == raw.topics.value
    ensures r.htmlUrl == raw.htmlUrl && r.createdAt == raw.createdAt && r.updatedAt == raw.updatedAt
  {
    RepoSummary(
      raw.name,
      raw.name,
      Title(raw.name),
      OrElse(raw.description, NoDescription),
      OrElse(raw.language, UnknownLanguage),
      CountOrZero(raw.stargazersCount),
      CountOrZero(raw.forksCount),
      CountOrZero(raw.watchersCount),
      raw.htmlUrl,
      Homepage(raw),
      raw.topics.GetOr([]),
      raw.createdAt,
      raw.updatedAt)
  }

  predicate IsListed(raw: RawRepo) {
    !raw.fork && !raw.isPrivate
  }

  function SummarizeAll(raws: seq<RawRepo>): (r: seq<RepoSummary>)
    ensures |r| == |raws|
    ensures forall i :: 0 <= i < |raws| ==> r[i] == Summarize(raws[i])
    decreases |raws|
  {
    if raws == [] then [] else [Summarize(raws[0])] + SummarizeAll(raws[1..])
  }

  /** The response of `/api/github-repos` for a successful fetch. */
  function PublicRepoSummaries(raws: seq<RawRepo>): (r: seq<RepoSummary>)
    ensures |r| <= |raws|
  {
    SummarizeAll(Filter(raws, IsListed))
  }

  /** The response lists, in input order, the summaries of exactly the
      repositories that are neither forks nor private. */
  lemma PublicRepoSummariesCorrect(raws: seq<RawRepo>)
    ensures var kept := Filter(raws, IsListed);
      && SubseqOf(kept, raws)
      && PublicRepoSummaries(raws) == SummarizeAll(kept)
      && (forall raw :: raw in kept <==> raw in raws && IsListed(raw))
    ensures forall o :: o in PublicRepoSummaries(raws) ==>
              exists raw :: raw in raws && IsListed(raw) && o == Summarize(raw)
  {
    var kept := Filter(raws, IsListed);
    FilterIsSubseq(raws, IsListed);
    FilterMembers(raws, IsListed);
    var r := SummarizeAll(kept);
    forall o | o in r
      ensures exists raw :: raw in raws && IsListed(raw) && o == Summarize(raw)
    {
      var i :| 0 <= i < |kept| && r[i] == o;
      var raw := kept[i];
      assert raw in raws && IsListed(raw) && o == Summarize(raw);
    }
  }
}
