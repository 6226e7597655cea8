/** The project catalogue logic of the projects section
    (client/src/components/projects-section.tsx): classifying a repository
    by its language and topics, choosing a colour and an icon, merging the
    fetched repositories into the hand-written list, and filtering by
    category and search term. */
module Projects {
  import opened Wrappers
  import opened Seqs
  import opened Text
  import Repos

  datatype Icon = CalendarCheck | Music | UserCheck | Database | Globe | Code | Terminal | Cpu | Smartphone

  datatype Project = Project(
    id: string,
    title: string,
    description: string,
    icon: Icon,
    tags: seq<string>,
    category: seq<string>,
    color: string,
    github: Option<string>,
    demo: Option<string>,
    download: Option<bool>,
    stars: Option<int>,
    forks: Option<int>,
    watchers: Option<int>,
    language: Option<string>,
    homepage: Option<string>,
    htmlUrl: Option<string>)

  datatype Stats = Stats(stars: int, forks: int, watchers: int)

  function Manual(id: string, title: string, description: string, icon: Icon, tags: seq<string>,
                  category: seq<string>, color: string, github: string, demo: string): Project
  {
    Project(id, title, description, icon, tags, category, color, Some(github), Some(demo), Some(true),
            None, None, None, None, None, None)
  }

  /** The hand-written projects, in display order. */
  const ManualProjects: seq<Project> := [
    Manual("reservation-system", "Online Reservation System",
           "Comprehensive booking system with Java backend and JDBC database connectivity for seamless reservation management.",
           CalendarCheck, ["Java", "MySQL", "JDBC"], ["java", "web"], "from-blue-500 to-indigo-600",
           "Online-Reservation-Using-JDBC-IN-JAVA", "https://prince62058.github.io/Online-Reservation-Using-JDBC-IN-JAVA/"),
    Manual("music-webapp", "Music Webapp",
           "Interactive music player with intuitive controls including play, pause, next, previous, and volume management.",
           Music, ["HTML", "CSS", "JavaScript"], ["web"], "from-purple-500 to-pink-600",
           "MusicWeb-APP", "https://prince62058.github.io/MusicWeb-APP/"),
    Manual("face-recognition", "Face Recognition System",
           "Automated attendance tracking system using OpenCV for face detection and Scikit-learn for machine learning algorithms.",
           UserCheck, ["OpenCV", "Python", "ML"], ["ml"], "from-green-500 to-teal-600",
           "Face-Recognition-Attendance-Systems", "https://prince62058.github.io/Face-Recognition-Attendance-Systems/"),
    Manual("login-signup", "Login Signup System",
           "User authentication system with secure login and registration functionality, featuring modern UI design and form validation.",
           UserCheck, ["HTML", "CSS", "JavaScript"], ["web"], "from-indigo-500 to-purple-600",
           "Login-Signup", "https://prince62058.github.io/Login-Signup/"),
    Manual("hrms", "Human Resource Management System",
           "Comprehensive HRMS application for managing employee data, payroll, attendance, and HR operations with intuitive dashboard interface.",
           Database, ["Java", "Database", "Management"], ["java", "backend"], "from-emerald-500 to-cyan-600",
           "HRMS", "https://prince62058.github.io/HRMS/"),
    Manual("servidor", "Servidor Full Stack",
           "Complete full-stack web application with modern backend architecture and responsive frontend design, featuring comprehensive user management and API integration.",
           Globe, ["Full Stack", "Backend", "Frontend"], ["web", "backend"], "from-violet-500 to-purple-600",
           "servidor", "https://prince62058.github.io/servidor/")
  ]

  /** `language?.toLowerCase() || ''`: a missing language reads as "". */
  function LowerLanguage(language: Option<string>): string {
    if language.Some? then Lower(language.value) else ""
  }

  // ---------------------------------------------------------------------
  // Icons and colours: the first rule whose keyword occurs wins.

  const DefaultColor: string := "from-gray-500 to-gray-700"

  /** Some keyword of the icon table other than the JavaScript ones
      occurs in `lang`. */
  predicate HasIconKeyword(lang: string) {
    Contains(lang, "python") || Contains(lang, "java") || Contains(lang, "html") || Contains(lang, "css")
    || Contains(lang, "sql") || Contains(lang, "database") || Contains(lang, "swift") || Contains(lang, "kotlin")
  }

  function LanguageIcon(language: Option<string>): (r: Icon)
    ensures var lang := LowerLanguage(language);
      r == Code <==> Contains(lang, "javascript") || Contains(lang, "js") || !HasIconKeyword(lang)
    ensures r in {Code, Terminal, Cpu, Globe, Database, Smartphone}
  {
    var lang := LowerLanguage(language);
    if Contains(lang, "javascript") || Contains(lang, "js") then Code
    else if Contains(lang, "python") then Terminal
    else if Contains(lang, "java") then Cpu
    else if Contains(lang, "html") || Contains(lang, "css") then Globe
    else if Contains(lang, "sql") || Contains(lang, "database") then Database
    else if Contains(lang, "swift") || Contains(lang, "kotlin") then Smartphone
    else Code
  }

  /** Some keyword of the colour table occurs in `lang`. */
  predicate HasColorKeyword(lang: string) {
    Contains(lang, "javascript") || Contains(lang, "js") || Contains(lang, "python")
    || Contains(lang, "java") || Contains(lang, "html") || Contains(lang, "css")
    || Contains(lang, "sql") || Contains(lang, "database") || Contains(lang, "swift")
    || Contains(lang, "kotlin") || Contains(lang, "typescript")
  }

  function LanguageColor(language: Option<string>): (r: string)
    ensures r == DefaultColor <==> !HasColorKeyword(LowerLanguage(language))
  {
    var lang := LowerLanguage(language);
    if Contains(lang, "javascript") || Contains(lang, "js") then "from-yellow-500 to-orange-600"
    else if Contains(lang, "python") then "from-blue-500 to-green-600"
    else if Contains(lang, "java") then "from-red-500 to-orange-600"
    else if Contains(lang, "html") || Contains(lang, "css") then "from-purple-500 to-pink-600"
    else if Contains(lang, "sql") || Contains(lang, "database") then "from-gray-500 to-blue-600"
    else if Contains(lang, "swift") || Contains(lang, "kotlin") then "from-indigo-500 to-purple-600"
    else if Contains(lang, "typescript") then "from-blue-600 to-indigo-700"
    else DefaultColor
  }

  /** Icon and colour ignore the case of the language, and a missing
      language is treated as the empty one, which gets the defaults. */
  lemma LanguageStyleCaseInsensitive(language: string)
    ensures LanguageColor(Some(language)) == LanguageColor(Some(Lower(language)))
    ensures LanguageIcon(Some(language)) == LanguageIcon(Some(Lower(language)))
    ensures LanguageColor(None) == LanguageColor(Some("")) == DefaultColor
    ensures LanguageIcon(None) == LanguageIcon(Some("")) == Code
  {
    LowerIdempotent(language);
    assert !HasColorKeyword("");
  }

  /** "JavaScript" takes the JavaScript colour and icon, not Java's: the
      first matching rule wins. */
  lemma JavaScriptStyle(language: string)
    requires Contains(Lower(language), "javascript")
    ensures LanguageColor(Some(language)) == "from-yellow-500 to-orange-600"
    ensures LanguageIcon(Some(language)) == Code
  {
  }

  // ---------------------------------------------------------------------
  // Categories

  /** The categories in the order the rules are tried. */
  const CategoryOrder: seq<string> := ["web", "ml", "java", "mobile", "backend"]
  const Other: string := "other"

  /** Whether the rule of category `cat` fires for a lower-cased language
      and lower-cased topics. */
  predicate RuleFires(cat: string, lang: string, topics: seq<string>) {
    if cat == "web" then
      Contains(lang, "javascript") || Contains(lang, "html") || Contains(lang, "css")
      || Contains(lang, "typescript") || "web" in topics
    else if cat == "ml" then
      Contains(lang, "python") || "machine-learning" in topics || "ml" in topics || "ai" in topics
    else if cat == "java" then
      Contains(lang, "java")
    else if cat == "mobile" then
      "mobile" in topics || Contains(lang, "swift") || Contains(lang, "kotlin")
    else if cat == "backend" then
      "api" in topics || "backend" in topics
    else false
  }

  function RulesFor(lang: string, topics: seq<string>): string -> bool {
    cat => RuleFires(cat, lang, topics)
  }

  function LowerAll(topics: seq<string>): (r: seq<string>)
    ensures |r| == |topics|
    ensures forall i :: 0 <= i < |topics| ==> r[i] == Lower(topics[i])
  {
    seq(|topics|, i requires 0 <= i < |topics| => Lower(topics[i]))
  }

  /** The categories of a repository: those whose rule fires, in rule
      order, or just "other" when none does. */
  function Categories(language: Option<string>, topics: seq<string>): (r: seq<string>)
    ensures r != []
  {
    var fired := Filter(CategoryOrder, RulesFor(LowerLanguage(language), LowerAll(topics)));
    if fired == [] then [Other] else fired
  }

  /** getProjectCategory: tries the rules one by one and pushes each
      category whose rule fires. */
  method ProjectCategory(language: Option<string>, topics: seq<string>) returns (categories: seq<string>)
    ensures categories == Categories(language, topics)
  {
    categories := [];
    var lang := LowerLanguage(language);
    var topicsLower := LowerAll(topics);
    var web := RuleFires("web", lang, topicsLower);
    if web {
      categories := categories + ["web"];
    }
    var ml := RuleFires("ml", lang, topicsLower);
    if ml {
      categories := categories + ["ml"];
    }
    var java := RuleFires("java", lang, topicsLower);
    if java {
      categories := categories + ["java"];
    }
    var mobile := RuleFires("mobile", lang, topicsLower);
    if mobile {
      categories := categories + ["mobile"];
    }
    var backend := RuleFires("backend", lang, topicsLower);
    if backend {
      categories := categories + ["backend"];
    }
    assert categories == Fired(web, ml, java, mobile, backend);
    CategoriesFired(language, topics);
    if categories == [] {
      categories := [Other];
    }
  }

  /** `categories.push(cat)` when the rule for `cat` fired. */
  function PushIf(categories: seq<string>, cat: string, fired: bool): seq<string> {
    if fired then categories + [cat] else categories
  }

  /** The categories of the rules that fired, pushed in rule order. */
  function Fired(web: bool, ml: bool, java: bool, mobile: bool, backend: bool): seq<string> {
    PushIf(PushIf(PushIf(PushIf(PushIf([], "web", web), "ml", ml), "java", java), "mobile", mobile), "backend", backend)
  }

  /** The categories are the fired ones, or "other" when none fired. */
  lemma CategoriesFired(language: Option<string>, topics: seq<string>)
    ensures var lang, tl := LowerLanguage(language), LowerAll(topics);
      var fired := Fired(RuleFires("web", lang, tl), RuleFires("ml", lang, tl), RuleFires("java", lang, tl),
                         RuleFires("mobile", lang, tl), RuleFires("backend", lang, tl));
      Categories(language, topics) == if fired == [] then [Other] else fired
  {
    FiredCategories(LowerLanguage(language), LowerAll(topics));
  }

  /** Filtering the rule order by the rules pushes each fired category in turn. */
  lemma FiredCategories(lang: string, topics: seq<string>)
    ensures Filter(CategoryOrder, RulesFor(lang, topics))
         == Fired(RuleFires("web", lang, topics), RuleFires("ml", lang, topics), RuleFires("java", lang, topics),
                  RuleFires("mobile", lang, topics), RuleFires("backend", lang, topics))
  {
    var p := RulesFor(lang, topics);
    assert CategoryOrder[..0] == [];
    CategoryStep(0, p);
    CategoryStep(1, p);
    CategoryStep(2, p);
    CategoryStep(3, p);
    CategoryStep(4, p);
    assert CategoryOrder[..5] == CategoryOrder;
  }

  /** Trying one more rule appends its category exactly when it fires. */
  lemma CategoryStep(k: nat, p: string -> bool)
    requires k < |CategoryOrder|
    ensures Filter(CategoryOrder[..k + 1], p)
         == PushIf(Filter(CategoryOrder[..k], p), CategoryOrder[k], p(CategoryOrder[k]))
  {
    assert CategoryOrder[..k + 1] == CategoryOrder[..k] + [CategoryOrder[k]];
    FilterAppend(CategoryOrder[..k], [CategoryOrder[k]], p);
  }

  /** The category list is never empty; "other" appears exactly when no
      rule fires, and then alone; otherwise the list is the fired
      categories, each once, in the fixed rule order. */
  lemma CategoriesShape(language: Option<string>, topics: seq<string>)
    ensures var r := Categories(language, topics);
      var lang, tl := LowerLanguage(language), LowerAll(topics);
      && r != []
      && (Other in r <==> forall c :: c in CategoryOrder ==> !RuleFires(c, lang, tl))
      && (Other in r ==> r == [Other])
      && (Other !in r ==> SubseqOf(r, CategoryOrder) && Distinct(r))
      && (forall c :: c in CategoryOrder ==> (c in r <==> RuleFires(c, lang, tl)))
  {
    var lang, tl := LowerLanguage(language), LowerAll(topics);
    FilteredOrder(RulesFor(lang, tl));
  }

  /** Whatever the rules, filtering the rule order keeps it ordered and
      repeat-free, holds exactly the categories that pass, and never holds
      "other". */
  lemma FilteredOrder(p: string -> bool)
    ensures var fired := Filter(CategoryOrder, p);
      && SubseqOf(fired, CategoryOrder) && Distinct(fired) && Other !in fired
      && (forall c :: c in fired <==> c in CategoryOrder && p(c))
  {
    var fired := Filter(CategoryOrder, p);
    FilterIsSubseq(CategoryOrder, p);
    FilterMembers(CategoryOrder, p);
    OrderDistinct();
    SubseqDistinct(fired, CategoryOrder);
  }

  /** The rule order names each category once, and not "other". */
  lemma OrderDistinct()
    ensures Distinct(CategoryOrder) && Other !in CategoryOrder
  {
    assert CategoryOrder[0][0] == 'w' && CategoryOrder[1][0] == 'm' && CategoryOrder[2][0] == 'j';
    assert CategoryOrder[3][0] == 'm' && CategoryOrder[4][0] == 'b' && Other[0] == 'o';
    assert CategoryOrder[1][1] == 'l' && CategoryOrder[3][1] == 'o';
  }

  lemma {:induction false} SubseqDistinct(a: seq<string>, b: seq<string>)
    requires SubseqOf(a, b) && Distinct(b)
    ensures Distinct(a)
    decreases |b|
  {
    if a != [] {
      if a[0] == b[0] && SubseqOf(a[1..], b[1..]) {
        SubseqDistinct(a[1..], b[1..]);
        SubseqMembers(a[1..], b[1..]);
        forall j | 0 < j < |a| ensures a[0] != a[j] {
          assert a[j] == a[1..][j - 1];
          assert a[j] in b[1..];
        }
      } else {
        SubseqDistinct(a, b[1..]);
      }
    }
  }

  lemma {:induction false} SubseqMembers<T>(a: seq<T>, b: seq<T>)
    requires SubseqOf(a, b)
    ensures forall x :: x in a ==> x in b
    decreases |b|
  {
    if a != [] {
      if a[0] == b[0] && SubseqOf(a[1..], b[1..]) {
        SubseqMembers(a[1..], b[1..]);
        forall x | x in a ensures x in b {
          if x != a[0] {
            assert x in a[1..];
          }
        }
      } else {
        SubseqMembers(a, b[1..]);
      }
    }
  }

  /** The java rule is a substring test, so any language containing
      "javascript" is classified both as web and as java. */
  lemma JavaScriptIsAlsoJava(language: string, topics: seq<string>)
    requires Contains(Lower(language), "javascript")
    ensures "web" in Categories(Some(language), topics)
    ensures "java" in Categories(Some(language), topics)
  {
    ContainsPrefix(Lower(language), "javascript", "java");
    CategoriesShape(Some(language), topics);
  }

  // ---------------------------------------------------------------------
  // Merging fetched repositories into the catalogue

  /** `topics.slice(0, 2)`. */
  function FirstTopics(topics: seq<string>): (r: seq<string>)
    ensures |r| == if |topics| <= 2 then |topics| else 2
    ensures r == topics[..|r|]
  {
    if |topics| <= 2 then topics else topics[..2]
  }

  /** `[language, ...topics.slice(0, 2)].filter(Boolean)`: the language and
      the first two topics, in that order, without the empty ones. */
  function RepoTags(repo: Repos.RepoSummary): (tags: seq<string>)
    ensures |tags| <= 3
    ensures forall t :: t in tags ==> t != ""
    ensures SubseqOf(tags, [repo.language] + FirstTopics(repo.topics))
    ensures forall t :: t in [repo.language] + FirstTopics(repo.topics) && t != "" ==> t in tags
    ensures forall t :: t != "" ==> multiset(tags)[t] == multiset([repo.language] + FirstTopics(repo.topics))[t]
  {
    var candidates := [repo.language] + FirstTopics(repo.topics);
    FilterIsSubseq(candidates, NonEmpty);
    FilterMembers(candidates, NonEmpty);
    FilterCount(candidates, NonEmpty);
    Filter(candidates, NonEmpty)
  }

  predicate NonEmpty(s: string) { s != "" }

  /** A fetched repository as a catalogue project. */
  function FromRepo(repo: Repos.RepoSummary): (p: Project)
    ensures p.github == Some(repo.name) && p.category == Categories(Some(repo.language), repo.topics)
  {
    Project(repo.id, repo.title, repo.description, LanguageIcon(Some(repo.language)), RepoTags(repo),
            Categories(Some(repo.language), repo.topics), LanguageColor(Some(repo.language)),
            Some(repo.name), Some(repo.homepage), Some(true), Some(repo.stars), Some(repo.forks),
            Some(repo.watchers), Some(repo.language), Some(repo.homepage), Some(repo.htmlUrl))
  }

  function FromRepos(repos: seq<Repos.RepoSummary>): (r: seq<Project>)
    ensures |r| == |repos|
    ensures forall i :: 0 <= i < |repos| ==> r[i] == FromRepo(repos[i])
  {
    seq(|repos|, i requires 0 <= i < |repos| => FromRepo(repos[i]))
  }

  predicate Truthy(s: Option<string>) { s.Some? && s.value != "" }

  function SameGithub(p: Project): Project -> bool {
    (gp: Project) => gp.github == p.github
  }

  /** A manual project updated from the first fetched project with the same
      repository name: counts are taken over, the demo link only when the
      manual one is missing or empty. */
  function WithGithubData(p: Project, fetched: seq<Project>): Project {
    match FirstWhere(fetched, SameGithub(p))
    case None => p
    case Some(k) =>
      p.(stars := fetched[k].stars, forks := fetched[k].forks, watchers := fetched[k].watchers,
         demo := if Truthy(p.demo) then p.demo else fetched[k].demo)
  }

  function GithubNames(manual: seq<Project>): set<Option<string>> {
    set i | 0 <= i < |manual| :: manual[i].github
  }

  function Unseen(manual: seq<Project>): Project -> bool {
    (gp: Project) => gp.github !in GithubNames(manual)
  }

  /** The merged catalogue: the updated manual projects, then the fetched
      ones whose repository the manual list does not name. */
  function Merge(manual: seq<Project>, repos: seq<Repos.RepoSummary>): (r: seq<Project>)
    ensures |manual| <= |r| <= |manual| + |repos|
  {
    var fetched := FromRepos(repos);
    seq(|manual|, i requires 0 <= i < |manual| => WithGithubData(manual[i], fetched))
      + Filter(fetched, Unseen(manual))
  }

  /** After the manual projects come exactly the fetched projects whose
      repository the manual list does not name, in fetched order. */
  lemma MergeAppendsUnseen(manual: seq<Project>, repos: seq<Repos.RepoSummary>)
    ensures var r, fetched := Merge(manual, repos), FromRepos(repos);
      && |r| >= |manual|
      && r[|manual|..] == Filter(fetched, Unseen(manual))
      && (forall gp :: gp in r[|manual|..] <==> gp in fetched && gp.github !in GithubNames(manual))
  {
    var fetched := FromRepos(repos);
    var r := Merge(manual, repos);
    var updated := seq(|manual|, i requires 0 <= i < |manual| => WithGithubData(manual[i], fetched));
    assert r == updated + Filter(fetched, Unseen(manual));
    assert r[|manual|..] == Filter(fetched, Unseen(manual));
    FilterMembers(fetched, Unseen(manual));
  }

  /** The i-th merged project is the i-th manual project with at most its
      counts and demo link changed; a non-empty manual demo link is kept,
      and a project no fetched repository matches is left as it was. */
  lemma MergeUpdatesManual(manual: seq<Project>, repos: seq<Repos.RepoSummary>, i: nat)
    requires i < |manual|
    ensures var r, fetched := Merge(manual, repos), FromRepos(repos);
      && i < |r|
      && r[i] == manual[i].(stars := r[i].stars, forks := r[i].forks, watchers := r[i].watchers,
                            demo := r[i].demo)
      && (Truthy(manual[i].demo) ==> r[i].demo == manual[i].demo)
      && ((forall gp :: gp in fetched ==> gp.github != manual[i].github) ==> r[i] == manual[i])
  {
    var fetched := FromRepos(repos);
    var r := Merge(manual, repos);
    assert r[i] == WithGithubData(manual[i], fetched);
    if forall gp :: gp in fetched ==> gp.github != manual[i].github {
      assert forall j :: 0 <= j < |fetched| ==> !SameGithub(manual[i])(fetched[j]);
    }
  }

  /** Whatever is fetched, the merged catalogue starts with the manual
      projects in their order, each keeping its id, title, description,
      tags, categories and repository name. */
  lemma MergeKeepsManual(manual: seq<Project>, repos: seq<Repos.RepoSummary>)
    ensures var r := Merge(manual, repos);
      && |manual| <= |r|
      && forall i :: 0 <= i < |manual| ==>
           && r[i].id == manual[i].id && r[i].title == manual[i].title
           && r[i].description == manual[i].description && r[i].tags == manual[i].tags
           && r[i].category == manual[i].category && r[i].github == manual[i].github
  {
    forall i | 0 <= i < |manual|
      ensures Merge(manual, repos)[i] == manual[i].(stars := Merge(manual, repos)[i].stars,
                forks := Merge(manual, repos)[i].forks, watchers := Merge(manual, repos)[i].watchers,
                demo := Merge(manual, repos)[i].demo)
    {
      MergeUpdatesManual(manual, repos, i);
    }
  }

  /** The catalogue the section starts from and merges into: the six
      hand-written projects come first, in their order, with their own
      fields, whatever is fetched. */
  lemma CatalogueStartsWithManual(repos: seq<Repos.RepoSummary>)
    ensures |ManualProjects| == 6
    ensures var r := Merge(ManualProjects, repos);
      && |ManualProjects| <= |r|
      && forall i :: 0 <= i < |ManualProjects| ==>
           && r[i].id == ManualProjects[i].id && r[i].title == ManualProjects[i].title
           && r[i].description == ManualProjects[i].description && r[i].tags == ManualProjects[i].tags
           && r[i].category == ManualProjects[i].category && r[i].github == ManualProjects[i].github
  {
    MergeKeepsManual(ManualProjects, repos);
  }

  /** A matched manual project takes the counts of the first fetched
      repository with its name, and that repository's homepage as demo
      link when its own is missing or empty. */
  lemma MergeTakesFirstMatch(manual: seq<Project>, repos: seq<Repos.RepoSummary>, i: nat, k: nat)
    requires i < |manual| && k < |repos| && Some(repos[k].name) == manual[i].github
    requires forall j :: 0 <= j < k ==> Some(repos[j].name) != manual[i].github
    ensures var r := Merge(manual, repos);
      && i < |r|
      && r[i].stars == Some(repos[k].stars) && r[i].forks == Some(repos[k].forks)
      && r[i].watchers == Some(repos[k].watchers)
      && (!Truthy(manual[i].demo) ==> r[i].demo == Some(repos[k].homepage))
  {
    var fetched := FromRepos(repos);
    var r := Merge(manual, repos);
    var same := SameGithub(manual[i]);
    assert r[i] == WithGithubData(manual[i], fetched);
    assert fetched[k] == FromRepo(repos[k]);
    assert same(fetched[k]);
    forall j | 0 <= j < k ensures !same(fetched[j]) {
      assert fetched[j] == FromRepo(repos[j]);
    }
    var found := FirstWhere(fetched, same);
    assert found.Some?;
    assert found.value == k;
  }

  // ---------------------------------------------------------------------
  // Filtering

  /** The case-insensitive search: the term occurs in the title, the
      description or one of the tags. */
  predicate MatchesSearch(p: Project, term: string) {
    var t := Lower(term);
    Contains(Lower(p.title), t) || Contains(Lower(p.description), t)
    || exists tag :: tag in p.tags && Contains(Lower(tag), t)
  }

  function InCategory(cat: string): Project -> bool {
    (p: Project) => cat in p.category
  }

  function SearchFor(term: string): Project -> bool {
    (p: Project) => MatchesSearch(p, term)
  }

  /** The filter effect: narrows the catalogue by the active category
      (unless it is "all"), then by the search term (unless it is empty). */
  method FilterProjects(allProjects: seq<Project>, activeFilter: string, searchTerm: string)
    returns (filtered: seq<Project>)
    ensures SubseqOf(filtered, allProjects)
    ensures activeFilter == "all" && searchTerm == "" ==> filtered == allProjects
    ensures forall p :: p in filtered <==>
              && p in allProjects
              && (activeFilter == "all" || activeFilter in p.category)
              && (searchTerm == "" || MatchesSearch(p, searchTerm))
    ensures forall p :: multiset(filtered)[p] ==
              if (activeFilter == "all" || activeFilter in p.category) && (searchTerm == "" || MatchesSearch(p, searchTerm))
              then multiset(allProjects)[p] else 0
  {
    filtered := allProjects;
    SubseqRefl(allProjects);
    if activeFilter != "all" {
      FilterIsSubseq(filtered, InCategory(activeFilter));
      FilterMembers(filtered, InCategory(activeFilter));
      FilterCount(filtered, InCategory(activeFilter));
      SubseqTrans(Filter(filtered, InCategory(activeFilter)), filtered, allProjects);
      filtered := Filter(filtered, InCategory(activeFilter));
    }
    assert forall p :: p in filtered <==>
             p in allProjects && (activeFilter == "all" || activeFilter in p.category);
    assert forall p :: multiset(filtered)[p] ==
             if activeFilter == "all" || activeFilter in p.category then multiset(allProjects)[p] else 0;
    if searchTerm != "" {
      FilterIsSubseq(filtered, SearchFor(searchTerm));
      FilterMembers(filtered, SearchFor(searchTerm));
      FilterCount(filtered, SearchFor(searchTerm));
      SubseqTrans(Filter(filtered, SearchFor(searchTerm)), filtered, allProjects);
      filtered := Filter(filtered, SearchFor(searchTerm));
    }
  }

  /** The counts shown on a card: those fetched for the project's id, or
      zeros while nothing is fetched or the id has no entry. */
  function ProjectStats(githubStats: Option<map<string, Stats>>, projectId: string): (r: Stats)
    ensures githubStats.Some? && projectId in githubStats.value ==> r == githubStats.value[projectId]
    ensures githubStats.None? || projectId !in githubStats.value ==> r == Stats(0, 0, 0)
  {
    if githubStats.Some? && projectId in githubStats.value then githubStats.value[projectId]
    else Stats(0, 0, 0)
  }
}
