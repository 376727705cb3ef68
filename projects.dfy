/**
  Projects: the list with completion statistics, lookup by slug, and the two
  mutations (create with a derived slug, status update).
 */
module Projects {
  import opened Wrappers
  import opened Schema
  import opened Seqs
  import opened Store

  // ----- Completion statistics -----

  /**
    `Math.round(done / total * 100)` for a non-empty project, 0 for an empty
    one, computed on exact rationals: `Math.round(x)` is `floor(x + 1/2)`.
   */
  function CompletionPercent(done: nat, total: nat): (r: nat)
    ensures total == 0 ==> r == 0
    ensures total > 0 ==> 2 * r * total <= 200 * done + total < 2 * (r + 1) * total
    ensures done <= total ==> r <= 100
    ensures 0 < total && done == total ==> r == 100
    ensures done == 0 ==> r == 0
  {
    if total == 0 then 0
    else
      var r := (200 * done + total) / (2 * total);
      RoundingBounds(done, total, r);
      r
  }

  lemma RoundingBounds(done: nat, total: nat, r: int)
    requires total > 0 && r == (200 * done + total) / (2 * total)
    ensures 0 <= r
    ensures 2 * r * total <= 200 * done + total < 2 * (r + 1) * total
    ensures done <= total ==> r <= 100
    ensures done == total ==> r == 100
    ensures done == 0 ==> r == 0
  {
    var n, d := 200 * done + total, 2 * total;
    assert d * r <= n < d * (r + 1);
    if done <= total {
      assert n < d * 101;
      LessUnderFactor(r, 101, d);
    }
    if done == total {
      assert d * 100 <= n;
      LessUnderFactor(99, r, d);
    }
    if done == 0 {
      assert n < d;
      LessUnderFactor(r, 1, d);
    }
    LessUnderFactor(-1, r, d);
  }

  /** Euclidean division by a positive divisor rounds down. */
  lemma FloorDiv(a: int, d: int)
    requires d > 0
    ensures d * (a / d) <= a < d * (a / d + 1)
  {
  }

  lemma LessUnderFactor(a: int, b: int, c: int)
    requires c > 0 && c * a < c * b
    ensures a < b
  {
  }

  /** A project document spread together with its task counts, as `list` returns it. */
  datatype ProjectStats = ProjectStats(project: Project, completionPercent: nat, totalTasks: nat, doneTasks: nat)

  /** The statistics of one project over the `by_project` lookup of its tasks. */
  function WithStats(p: Project, tasks: seq<Task>): (r: ProjectStats)
    ensures r.project == p
    ensures r.doneTasks <= r.totalTasks && r.completionPercent <= 100
    ensures r.totalTasks == 0 ==> r.completionPercent == 0
    ensures 0 < r.totalTasks == r.doneTasks ==> r.completionPercent == 100
    ensures r.totalTasks == |Filter(tasks, InProject(p.id))|
    ensures r.doneTasks == |Filter(Filter(tasks, InProject(p.id)), IsTaskDone)|
    ensures r.completionPercent == CompletionPercent(r.doneTasks, r.totalTasks)
  {
    var own := Filter(tasks, InProject(p.id));
    var done := Filter(own, IsTaskDone);
    ProjectStats(p, CompletionPercent(|done|, |own|), |own|, |done|)
  }

  function StatsFor(tasks: seq<Task>): Project -> ProjectStats {
    (p: Project) => WithStats(p, tasks)
  }

  function StatsOrder(s: ProjectStats): int { s.project.order }

  function StatsProject(s: ProjectStats): Project { s.project }

  predicate StatsActive(s: ProjectStats) { s.project.status == Active }

  /** `projects.list`: every project with its statistics, sorted by `order`. */
  function List(projects: seq<Project>, tasks: seq<Task>): (r: seq<ProjectStats>)
    ensures |r| == |projects|
    ensures SortedBy(r, StatsOrder)
  {
    SortBy(Map(projects, StatsFor(tasks)), StatsOrder)
  }

  /**
    The list holds each project exactly once, in the stable order of `order`,
    and each entry carries that project's own statistics.
   */
  lemma ListSpec(projects: seq<Project>, tasks: seq<Task>)
    ensures Map(List(projects, tasks), StatsProject) == SortBy(projects, ProjectOrder)
    ensures multiset(Map(List(projects, tasks), StatsProject)) == multiset(projects)
    ensures forall i :: 0 <= i < |projects| ==>
      List(projects, tasks)[i] == WithStats(List(projects, tasks)[i].project, tasks)
  {
    SortByMap(projects, StatsFor(tasks), StatsOrder, ProjectOrder);
    var sorted := SortBy(projects, ProjectOrder);
    MapInverse(sorted, StatsFor(tasks), StatsProject);
  }

  // ----- Lookup by slug -----

  /** `projects.getBySlug`: the first project (in creation order) with that slug. */
  function GetBySlug(projects: seq<Project>, slug: string): (r: Option<Project>)
    ensures r.Some? ==> r.value.slug == slug
    ensures r.Some? ==> exists k :: 0 <= k < |projects| && projects[k] == r.value && forall j :: 0 <= j < k ==> projects[j].slug != slug
    ensures r.None? <==> forall j :: 0 <= j < |projects| ==> projects[j].slug != slug
  {
    Find(projects, ProjectHasSlug(slug))
  }

  // ----- Slug derivation -----

  /** JavaScript's `\s`: the ASCII blanks, the byte order mark and the Unicode space separators. */
  predicate IsJsSpace(c: char) {
    || c == '\t' || c == '\n' || c == '\U{000B}' || c == '\U{000C}' || c == '\r' || c == ' '
    || c == '\U{00A0}' || c == '\U{1680}' || ('\U{2000}' <= c <= '\U{200A}')
    || c == '\U{2028}' || c == '\U{2029}' || c == '\U{202F}' || c == '\U{205F}'
    || c == '\U{3000}' || c == '\U{FEFF}'
  }

  /** `[\w-]` without the `u` flag: ASCII letters, digits, underscore and hyphen. */
  predicate IsSlugChar(c: char) {
    ('a' <= c <= 'z') || ('A' <= c <= 'Z') || ('0' <= c <= '9') || c == '_' || c == '-'
  }

  predicate IsUpperAscii(c: char) { 'A' <= c <= 'Z' }

  /**
    `toLowerCase` of one character, as far as it can matter to a slug: ASCII
    capitals, and the two characters whose lowercase contains an ASCII letter
    (capital I with dot above becomes `i` and a combining dot, the Kelvin
    sign becomes `k`). Every other character is kept.
   */
  function LowerChar(c: char): (r: string)
    ensures r != [] && forall i :: 0 <= i < |r| ==> !IsUpperAscii(r[i])
    ensures IsUpperAscii(c) ==> |r| == 1 && 'a' <= r[0] <= 'z' && r[0] as int - c as int == 'a' as int - 'A' as int
    ensures !IsUpperAscii(c) && c != '\U{0130}' && c != '\U{212A}' ==> r == [c]
    ensures !IsJsSpace(c) ==> forall i :: 0 <= i < |r| ==> !IsJsSpace(r[i])
  {
    if IsUpperAscii(c) then [((c as int) + 32) as char]
    else if c == '\U{0130}' then "i\U{0307}"
    else if c == '\U{212A}' then "k"
    else [c]
  }

  /** `toLowerCase` of a string, one character at a time. */
  function LowerCase(s: string): (r: string)
    ensures forall i :: 0 <= i < |r| ==> !IsUpperAscii(r[i])
  {
    if s == [] then [] else LowerChar(s[0]) + LowerCase(s[1..])
  }

  /** The suffix of `s` after its leading run of whitespace. */
  function DropSpaces(s: string): (r: string)
    ensures |r| <= |s| && r == s[|s| - |r|..]
    ensures r == [] || !IsJsSpace(r[0])
  {
    if s != [] && IsJsSpace(s[0]) then DropSpaces(s[1..]) else s
  }

  /** `replace(/\s+/g, '-')`: each maximal run of whitespace becomes one hyphen. */
  function CollapseSpaces(s: string): (r: string)
    ensures forall i :: 0 <= i < |r| ==> !IsJsSpace(r[i])
    decreases |s|
  {
    if s == [] then []
    else if IsJsSpace(s[0]) then "-" + CollapseSpaces(DropSpaces(s[1..]))
    else [s[0]] + CollapseSpaces(s[1..])
  }

  /**
    The slug `create` derives from a project name:
    `name.toLowerCase().replace(/\s+/g, '-').replace(/[^\w-]+/g, '')`.
   */
  function Slugify(name: string): (r: string)
    ensures forall i :: 0 <= i < |r| ==> IsSlugChar(r[i]) && !IsUpperAscii(r[i])
  {
    CollapseSpacesChars(LowerCase(name), (c: char) => !IsUpperAscii(c));
    FilterMembers(CollapseSpaces(LowerCase(name)), IsSlugChar);
    Filter(CollapseSpaces(LowerCase(name)), IsSlugChar)
  }

  /**
    Replacing whitespace runs brings in no character but the hyphen: any
    property every character of the input has, every other character of the
    result has too.
   */
  lemma {:induction false} CollapseSpacesChars(s: string, p: char -> bool)
    requires forall i :: 0 <= i < |s| ==> p(s[i])
    ensures forall i :: 0 <= i < |CollapseSpaces(s)| ==> CollapseSpaces(s)[i] == '-' || p(CollapseSpaces(s)[i])
    decreases |s|
  {
    if s != [] {
      var r := CollapseSpaces(s);
      if IsJsSpace(s[0]) {
        var rest := DropSpaces(s[1..]);
        forall i | 0 <= i < |rest| ensures p(rest[i]) {
          assert rest[i] == s[1..][|s[1..]| - |rest| + i];
        }
        CollapseSpacesChars(rest, p);
        assert r == "-" + CollapseSpaces(rest);
      } else {
        forall i | 0 <= i < |s[1..]| ensures p(s[1..][i]) {
          assert s[1..][i] == s[i + 1];
        }
        CollapseSpacesChars(s[1..], p);
        assert r == [s[0]] + CollapseSpaces(s[1..]);
      }
    }
  }

  /** Lowercasing a string without capitals changes nothing. */
  lemma {:induction false} LowerCaseOfLower(s: string)
    requires forall i :: 0 <= i < |s| ==> !IsUpperAscii(s[i]) && s[i] != '\U{0130}' && s[i] != '\U{212A}'
    ensures LowerCase(s) == s
  {
    if s != [] {
      LowerCaseOfLower(s[1..]);
      assert s == [s[0]] + s[1..];
    }
  }

  /** Lowercasing creates no whitespace: blank-free text stays blank-free, and a non-blank first character stays non-blank. */
  lemma {:induction false} LowerCaseNoSpaces(s: string)
    ensures (forall i :: 0 <= i < |s| ==> !IsJsSpace(s[i])) ==> forall i :: 0 <= i < |LowerCase(s)| ==> !IsJsSpace(LowerCase(s)[i])
    ensures s != [] && !IsJsSpace(s[0]) ==> LowerCase(s) != [] && !IsJsSpace(LowerCase(s)[0])
  {
    if s != [] {
      LowerCaseNoSpaces(s[1..]);
      var h, t := LowerChar(s[0]), LowerCase(s[1..]);
      assert LowerCase(s) == h + t;
      if forall i :: 0 <= i < |s| ==> !IsJsSpace(s[i]) {
        assert forall i :: 0 <= i < |s[1..]| ==> !IsJsSpace(s[1..][i]) by {
          forall i | 0 <= i < |s[1..]| ensures !IsJsSpace(s[1..][i]) {
            assert s[1..][i] == s[i + 1];
          }
        }
        forall i | 0 <= i < |h + t| ensures !IsJsSpace((h + t)[i]) {
          if i >= |h| {
            assert (h + t)[i] == t[i - |h|];
          }
        }
      }
    }
  }

  /** Lowercasing works character by character, so it distributes over concatenation. */
  lemma {:induction false} LowerCaseAppend(a: string, b: string)
    ensures LowerCase(a + b) == LowerCase(a) + LowerCase(b)
  {
    if a == [] {
      assert a + b == b;
    } else {
      calc {
        LowerCase(a + b);
        { assert (a + b)[0] == a[0] && (a + b)[1..] == a[1..] + b; }
        LowerChar(a[0]) + LowerCase(a[1..] + b);
        { LowerCaseAppend(a[1..], b); }
        LowerChar(a[0]) + (LowerCase(a[1..]) + LowerCase(b));
        LowerCase(a) + LowerCase(b);
      }
    }
  }

  /** Dropping a run of whitespace from before a non-blank rest leaves exactly that rest. */
  lemma {:induction false} DropRun(w: string, b: string)
    requires forall i :: 0 <= i < |w| ==> IsJsSpace(w[i])
    requires b == [] || !IsJsSpace(b[0])
    ensures DropSpaces(w + b) == b
  {
    if w == [] {
      assert w + b == b;
    } else {
      DropRun(w[1..], b);
      assert (w + b)[0] == w[0] && (w + b)[1..] == w[1..] + b;
    }
  }

  /** A leading run of whitespace becomes one hyphen. */
  lemma CollapseLeadingRun(w: string, b: string)
    requires w != [] && forall i :: 0 <= i < |w| ==> IsJsSpace(w[i])
    requires b == [] || !IsJsSpace(b[0])
    ensures CollapseSpaces(w + b) == "-" + CollapseSpaces(b)
  {
    var s := w + b;
    assert s[0] == w[0] && s[1..] == w[1..] + b;
    DropRun(w[1..], b);
    assert DropSpaces(s[1..]) == b;
    CollapseHead(s);
  }

  lemma CollapseHead(s: string)
    requires s != [] && IsJsSpace(s[0])
    ensures CollapseSpaces(s) == "-" + CollapseSpaces(DropSpaces(s[1..]))
  {
  }

  /**
    The rule of `replace(/\s+/g, '-')`: the blank-free text before a maximal
    run of whitespace is kept, and the run becomes a single hyphen.
   */
  lemma {:induction false} CollapseRun(a: string, w: string, b: string)
    requires forall i :: 0 <= i < |a| ==> !IsJsSpace(a[i])
    requires w != [] && forall i :: 0 <= i < |w| ==> IsJsSpace(w[i])
    requires b == [] || !IsJsSpace(b[0])
    ensures CollapseSpaces(a + w + b) == a + "-" + CollapseSpaces(b)
  {
    if a == [] {
      assert a + w + b == w + b && a + "-" == "-";
      CollapseLeadingRun(w, b);
    } else {
      calc {
        CollapseSpaces(a + w + b);
        { assert (a + w + b)[0] == a[0] && (a + w + b)[1..] == a[1..] + w + b; }
        [a[0]] + CollapseSpaces(a[1..] + w + b);
        { CollapseRun(a[1..], w, b); }
        [a[0]] + (a[1..] + "-" + CollapseSpaces(b));
        { assert a == [a[0]] + a[1..]; }
        a + "-" + CollapseSpaces(b);
      }
    }
  }

  lemma {:induction false} CollapseWithoutSpaces(s: string)
    requires forall i :: 0 <= i < |s| ==> !IsJsSpace(s[i])
    ensures CollapseSpaces(s) == s
  {
    if s != [] {
      CollapseWithoutSpaces(s[1..]);
      assert s == [s[0]] + s[1..];
    }
  }

  /** A name without whitespace loses its capitals and every character outside `[\w-]`. */
  lemma SlugifyWord(a: string)
    requires forall i :: 0 <= i < |a| ==> !IsJsSpace(a[i])
    ensures Slugify(a) == Filter(LowerCase(a), IsSlugChar)
  {
    LowerCaseNoSpaces(a);
    CollapseWithoutSpaces(LowerCase(a));
  }

  lemma LowerCaseAroundRun(a: string, w: string, b: string)
    requires forall i :: 0 <= i < |w| ==> IsJsSpace(w[i])
    ensures LowerCase(a + w + b) == LowerCase(a) + w + LowerCase(b)
  {
    calc {
      LowerCase(a + w + b);
      { LowerCaseAppend(a + w, b); }
      LowerCase(a + w) + LowerCase(b);
      { LowerCaseAppend(a, w); LowerCaseOfLower(w); }
      LowerCase(a) + w + LowerCase(b);
    }
  }

  lemma FilterAroundHyphen(x: string, y: string)
    ensures Filter(x + "-" + y, IsSlugChar) == Filter(x, IsSlugChar) + "-" + Filter(y, IsSlugChar)
  {
    FilterAppend(x + "-", y, IsSlugChar);
    FilterAppend(x, "-", IsSlugChar);
    FilterCons('-', [], IsSlugChar);
  }

  /**
    A run of whitespace between two parts of a name becomes one hyphen
    between the slugs of the parts.
   */
  lemma SlugifyJoin(a: string, w: string, b: string)
    requires forall i :: 0 <= i < |a| ==> !IsJsSpace(a[i])
    requires w != [] && forall i :: 0 <= i < |w| ==> IsJsSpace(w[i])
    requires b == [] || !IsJsSpace(b[0])
    ensures Slugify(a + w + b) == Slugify(a) + "-" + Slugify(b)
  {
    var la, lb := LowerCase(a), LowerCase(b);
    LowerCaseAroundRun(a, w, b);
    LowerCaseNoSpaces(a);
    LowerCaseNoSpaces(b);
    CollapseRun(la, w, lb);
    FilterAroundHyphen(la, CollapseSpaces(lb));
    SlugifyWord(a);
  }

  /** The words joined with the separator `sep` between each two. */
  function JoinWith(words: seq<string>, sep: string): string {
    if |words| == 0 then ""
    else if |words| == 1 then words[0]
    else words[0] + sep + JoinWith(words[1..], sep)
  }

  /**
    A name made of non-empty blank-free words separated by the same run of
    whitespace (such as "Take It Down!!") slugs to the slugs of its words
    joined by hyphens ("take-it-down").
   */
  lemma {:induction false} SlugifyWords(words: seq<string>, w: string)
    requires forall k :: 0 <= k < |words| ==> words[k] != [] && forall i :: 0 <= i < |words[k]| ==> !IsJsSpace(words[k][i])
    requires w != [] && forall i :: 0 <= i < |w| ==> IsJsSpace(w[i])
    ensures Slugify(JoinWith(words, w)) == JoinWith(Map(words, Slugify), "-")
  {
    var slugs := Map(words, Slugify);
    if |words| == 1 {
      assert slugs == [Slugify(words[0])];
    } else if |words| >= 2 {
      var tail := words[1..];
      SlugifyWords(tail, w);
      assert JoinWith(tail, w)[0] == words[1][0] by { JoinStartsWithFirst(tail, w); }
      SlugifyJoin(words[0], w, JoinWith(tail, w));
      assert slugs[1..] == Map(tail, Slugify);
    }
  }

  /** `toLowerCase` of a first character and the rest. */
  lemma LowerCaseCons(c: char, rest: string)
    ensures LowerCase([c] + rest) == LowerChar(c) + LowerCase(rest)
  {
    assert ([c] + rest)[1..] == rest;
  }

  /** The slug of a blank-free name, one character at a time. */
  lemma SlugifyCons(c: char, rest: string)
    requires !IsJsSpace(c) && forall i :: 0 <= i < |rest| ==> !IsJsSpace(rest[i])
    ensures Slugify([c] + rest) == Filter(LowerChar(c), IsSlugChar) + Slugify(rest)
  {
    var w := [c] + rest;
    assert forall i :: 0 <= i < |w| ==> !IsJsSpace(w[i]) by {
      forall i | 0 <= i < |w| ensures !IsJsSpace(w[i]) {
        if i > 0 { assert w[i] == rest[i - 1]; }
      }
    }
    SlugifyWord(w);
    SlugifyWord(rest);
    LowerCaseCons(c, rest);
    FilterAppend(LowerChar(c), LowerCase(rest), IsSlugChar);
  }

  /** A capital letter's slug is its lower-case letter. */
  lemma SlugOfCapital(c: char)
    requires IsUpperAscii(c)
    ensures Filter(LowerChar(c), IsSlugChar) == [((c as int) + 32) as char]
  {
    var l := ((c as int) + 32) as char;
    assert LowerChar(c) == [l];
    assert IsSlugChar(l);
    FilterCons(l, [], IsSlugChar);
  }

  /** Any other character that lower-casing keeps is its own slug when it is a slug character, and is dropped otherwise. */
  lemma SlugOfKept(c: char)
    requires !IsUpperAscii(c) && c != '\U{0130}' && c != '\U{212A}'
    ensures Filter(LowerChar(c), IsSlugChar) == if IsSlugChar(c) then [c] else []
  {
    assert LowerChar(c) == [c];
    FilterCons(c, [], IsSlugChar);
  }

  /** An ASCII capital's lower case, and every other character itself. */
  function AsciiLower(c: char): char {
    if IsUpperAscii(c) then ((c as int) + 32) as char else c
  }

  /**
    A word of slug characters followed only by marks that are neither blank
    nor slug characters slugs to the word's ASCII lower case.
   */
  lemma {:induction false} SlugifyPlainWord(s: string, k: nat)
    requires k <= |s|
    requires forall i :: 0 <= i < k ==> IsSlugChar(s[i])
    requires forall i :: k <= i < |s| ==> !IsSlugChar(s[i]) && !IsJsSpace(s[i]) && s[i] != '\U{0130}' && s[i] != '\U{212A}'
    ensures Slugify(s) == Map(s[..k], AsciiLower)
    decreases |s|
  {
    if s != [] {
      var rest := s[1..];
      assert forall i :: 0 <= i < |rest| ==> rest[i] == s[i + 1];
      SlugifyCons(s[0], rest);
      assert s == [s[0]] + rest;
      if k > 0 {
        if IsUpperAscii(s[0]) { SlugOfCapital(s[0]); } else { SlugOfKept(s[0]); }
        SlugifyPlainWord(rest, k - 1);
        assert s[..k] == [s[0]] + rest[..k - 1];
      } else {
        SlugOfKept(s[0]);
        SlugifyPlainWord(rest, 0);
      }
    }
  }

  /** The words of the name "Take It Down!!", spelled out letter by letter, slug to "take", "it" and "down". */
  lemma SlugOfTake(s: string)
    requires |s| == 4 && s[0] == 'T' && s[1] == 'a' && s[2] == 'k' && s[3] == 'e'
    ensures Slugify(s) == "take"
  {
    SlugifyPlainWord(s, 4);
    assert s[..4] == s;
  }

  lemma SlugOfIt(s: string)
    requires |s| == 2 && s[0] == 'I' && s[1] == 't'
    ensures Slugify(s) == "it"
  {
    SlugifyPlainWord(s, 2);
    assert s[..2] == s;
  }

  lemma SlugOfDown(s: string)
    requires |s| == 6 && s[0] == 'D' && s[1] == 'o' && s[2] == 'w' && s[3] == 'n' && s[4] == '!' && s[5] == '!'
    ensures Slugify(s) == "down"
  {
    SlugifyPlainWord(s, 4);
  }

  /** The name "Take It Down!!", spelled out letter by letter, slugs to "take-it-down". */
  lemma SlugOfTakeItDown(s: string)
    requires |s| == 14
    requires s[0] == 'T' && s[1] == 'a' && s[2] == 'k' && s[3] == 'e' && s[4] == ' '
    requires s[5] == 'I' && s[6] == 't' && s[7] == ' '
    requires s[8] == 'D' && s[9] == 'o' && s[10] == 'w' && s[11] == 'n' && s[12] == '!' && s[13] == '!'
    ensures Slugify(s) == "take-it-down"
  {
    var take, rest := s[..4], s[5..];
    var it, down := rest[..2], rest[3..];
    SlugOfTake(take);
    SlugOfIt(it);
    SlugOfDown(down);
    assert it + rest[2..3] + down == rest;
    SlugifyJoin(it, rest[2..3], down);
    assert take + s[4..5] + rest == s;
    SlugifyJoin(take, s[4..5], rest);
  }

  lemma JoinStartsWithFirst(words: seq<string>, sep: string)
    requires |words| >= 1 && words[0] != []
    ensures JoinWith(words, sep) != [] && JoinWith(words, sep)[0] == words[0][0]
  {
  }

  /** A slug is its own slug, so deriving it again from a slug changes nothing. */
  lemma SlugifyIdempotent(name: string)
    ensures Slugify(Slugify(name)) == Slugify(name)
  {
    var s := Slugify(name);
    LowerCaseOfLower(s);
    CollapseWithoutSpaces(s);
    FilterAll(s, IsSlugChar);
  }

  // ----- Mutations -----

  /**
    `projects.create`: a new active project at the end of the order, with its
    derived slug, and a log entry that names no project or task.
   */
  method Create(db: Store, name: string, description: string, priority: Priority, now: int) returns (id: Id)
    requires db.Valid()
    modifies db
    ensures db.Valid()
    ensures id == old(db.nextId) && db.nextId == id + 2
    ensures db.projects == old(db.projects) +
      [Project(id, name, Slugify(name), description, Active, priority, |old(db.projects)|, None, None)]
    ensures db.logs == old(db.logs) +
      [LogEntry(id + 1, None, None, "project_created", "Initialized new active core: " + name, now)]
    ensures db.tasks == old(db.tasks) && db.subtasks == old(db.subtasks)
  {
    var order := |db.projects|;
    id := db.InsertProject(Project(0, name, Slugify(name), description, Active, priority, order, None, None));
    var _ := db.InsertLog(LogEntry(0, None, None, "project_created", "Initialized new active core: " + name, now));
  }

  /** `projects.updateStatus`: patches the status; patching a missing document throws. */
  method UpdateStatus(db: Store, id: Id, status: ProjectStatus) returns (r: Result<(), Failure>)
    requires db.Valid()
    modifies db
    ensures db.Valid() && db.nextId == old(db.nextId)
    ensures r.Err? <==> IndexWhere(old(db.projects), ProjectHasId(id)).None?
    ensures r.Err? ==> r.error == MissingDocument(id) && db.projects == old(db.projects)
    ensures r.Ok? ==> var k := IndexWhere(old(db.projects), ProjectHasId(id)).value;
      db.projects == old(db.projects)[k := old(db.projects)[k].(status := status)]
    ensures db.tasks == old(db.tasks) && db.subtasks == old(db.subtasks) && db.logs == old(db.logs)
  {
    match IndexWhere(db.projects, ProjectHasId(id))
    case None =>
      r := Err(MissingDocument(id));
    case Some(k) =>
      db.ReplaceProject(k, db.projects[k].(status := status));
      r := Ok(());
  }

  /** A status update leaves the id of every project where it was. */
  lemma UpdateStatusKeepsIds(projects: seq<Project>, k: nat, status: ProjectStatus)
    requires k < |projects|
    ensures Map(projects[k := projects[k].(status := status)], ProjectIdOf) == Map(projects, ProjectIdOf)
  {
  }
}
