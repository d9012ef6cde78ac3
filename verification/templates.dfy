/** The output file set: which relative paths a project receives for given
    template data, and how each is looked up and rendered into the result
    object. The template engine itself is a parameter, a `Library` from
    lookup path to renderer. */
module Templates {
  import opened Wrappers
  import opened Types

  /** How many paths each list contributes, and how many there are in all. */
  const BaseCount: nat := 21
  const JestCount: nat := 2
  const DockerCount: nat := 3
  const FileCount: nat := BaseCount + JestCount + DockerCount

  /** Every path the generator can emit, numbered in the order it is pushed
      onto the list: the base paths first, then the two Jest paths, then
      the three Docker paths. */
  const Files: seq<string> := [
    "package.json",
    "tsconfig.json",
    "src/app.ts",
    "src/server.ts",
    "src/config/database.ts",
    "src/config/redis.ts",
    "src/controllers/healthController.ts",
    "src/routes/healthRoutes.ts",
    "src/routes/index.ts",
    "src/middlewares/errorHandler.ts",
    "src/middlewares/requestLogger.ts",
    "src/services/healthService.ts",
    "src/types/index.ts",
    "src/utils/logger.ts",
    "src/utils/api-response.ts",
    ".env.example",
    ".gitignore",
    ".eslintrc.js",
    ".prettierrc",
    "nodemon.json",
    "README.md",
    "jest.config.js",
    "src/__tests__/health.test.ts",
    "Dockerfile",
    ".dockerignore",
    "docker-compose.yml"
  ]

  function FileAt(i: nat): string
    requires i < FileCount
  {
    Files[i]
  }

  /** The number a path with this length and fifth character would have.
      Every path above is at least nine characters long and no two share
      both, so this pair identifies the path; it lets `FileIndex` find a
      path's number without comparing it against every other path. */
  function Slot(len: nat, c: char): Option<nat> {
    match (len, c)
    case (9, 'M') => Some(20)
    case (10, 'a') => Some(2)
    case (10, 'e') => Some(23)
    case (10, 'i') => Some(16)
    case (11, 't') => Some(18)
    case (12, '.') => Some(15)
    case (12, 'a') => Some(0)
    case (12, 'i') => Some(17)
    case (12, 'm') => Some(19)
    case (13, 'k') => Some(24)
    case (13, 'n') => Some(1)
    case (13, 's') => Some(3)
    case (14, '.') => Some(21)
    case (18, 'e') => Some(25)
    case (18, 't') => Some(12)
    case (19, 'c') => Some(5)
    case (19, 'r') => Some(8)
    case (19, 'u') => Some(13)
    case (22, 'c') => Some(4)
    case (25, 'u') => Some(14)
    case (26, 'r') => Some(7)
    case (28, '_') => Some(22)
    case (29, 's') => Some(11)
    case (31, 'm') => Some(9)
    case (32, 'm') => Some(10)
    case (35, 'c') => Some(6)
    case _ => None
  }

  /** The number of a path, if it is one of the paths above. */
  function FileIndex(path: string): (r: Option<nat>)
    ensures r.Some? ==> r.value < FileCount && FileAt(r.value) == path
  {
    if |path| < 5 then None
    else
      match Slot(|path|, path[4])
      case Some(i) => if i < FileCount && FileAt(i) == path then Some(i) else None
      case None => None
  }

  lemma IndexRange0(i: nat)
    requires i < 4
    ensures FileIndex(FileAt(i)) == Some(i)
  {
  }

  lemma IndexRange1(i: nat)
    requires 4 <= i < 8
    ensures FileIndex(FileAt(i)) == Some(i)
  {
  }

  lemma IndexRange2(i: nat)
    requires 8 <= i < 10
    ensures FileIndex(FileAt(i)) == Some(i)
  {
  }

  lemma IndexRange3(i: nat)
    requires 10 <= i < 12
    ensures FileIndex(FileAt(i)) == Some(i)
  {
  }

  lemma IndexRange4(i: nat)
    requires 12 <= i < 16
    ensures FileIndex(FileAt(i)) == Some(i)
  {
  }

  lemma IndexRange5(i: nat)
    requires 16 <= i < 20
    ensures FileIndex(FileAt(i)) == Some(i)
  {
  }

  lemma IndexRange6(i: nat)
    requires 20 <= i < 23
    ensures FileIndex(FileAt(i)) == Some(i)
  {
  }

  lemma IndexRange7(i: nat)
    requires 23 <= i < FileCount
    ensures FileIndex(FileAt(i)) == Some(i)
  {
  }

  /** `FileIndex` inverts `FileAt`. */
  lemma IndexOf(i: nat)
    requires i < FileCount
    ensures FileIndex(FileAt(i)) == Some(i)
  {
    if i < 4 { IndexRange0(i); }
    else if i < 8 { IndexRange1(i); }
    else if i < 10 { IndexRange2(i); }
    else if i < 12 { IndexRange3(i); }
    else if i < 16 { IndexRange4(i); }
    else if i < 20 { IndexRange5(i); }
    else if i < 23 { IndexRange6(i); }
    else { IndexRange7(i); }
  }

  /** No path is listed twice: `FileAt` is injective. */
  lemma FileAtInjective(i: nat, j: nat)
    requires i < FileCount && j < FileCount
    ensures FileAt(i) == FileAt(j) <==> i == j
  {
    IndexOf(i);
    IndexOf(j);
  }

  /** No element occurs twice. */
  predicate Distinct<T(==)>(s: seq<T>) {
    forall i, j :: 0 <= i < j < |s| ==> s[i] != s[j]
  }

  /** The paths numbered `lo` up to but excluding `hi`, in order. */
  function Span(lo: nat, hi: nat): (s: seq<string>)
    requires lo <= hi <= FileCount
    ensures |s| == hi - lo
    ensures forall k :: 0 <= k < |s| ==> s[k] == FileAt(lo + k)
  {
    seq(hi - lo, k requires 0 <= k < hi - lo => FileAt(lo + k))
  }

  /** Every member of a span has its number in the span's range. */
  lemma SpanOnly(lo: nat, hi: nat, k: nat)
    requires lo <= hi <= FileCount && k < hi - lo
    ensures FileIndex(Span(lo, hi)[k]) == Some(lo + k)
  {
    IndexOf(lo + k);
  }

  /** A span holds exactly the paths whose number lies in its range. */
  lemma SpanMembers(lo: nat, hi: nat, p: string)
    requires lo <= hi <= FileCount
    ensures p in Span(lo, hi) <==> FileIndex(p).Some? && lo <= FileIndex(p).value < hi
  {
    var s := Span(lo, hi);
    if p in s {
      var k :| 0 <= k < |s| && s[k] == p;
      SpanOnly(lo, hi, k);
    }
    if FileIndex(p).Some? && lo <= FileIndex(p).value < hi {
      assert s[FileIndex(p).value - lo] == p;
    }
  }

  lemma SpanDistinct(lo: nat, hi: nat)
    requires lo <= hi <= FileCount
    ensures Distinct(Span(lo, hi))
  {
    var s := Span(lo, hi);
    forall i, j | 0 <= i < j < |s|
      ensures s[i] != s[j]
    {
      FileAtInjective(lo + i, lo + j);
    }
  }

  lemma DistinctConcat<T>(a: seq<T>, b: seq<T>)
    requires Distinct(a) && Distinct(b)
    requires forall x :: x in a ==> x !in b
    ensures Distinct(a + b)
  {
    var s := a + b;
    forall i, j | 0 <= i < j < |s|
      ensures s[i] != s[j]
    {
      if j >= |a| && i < |a| {
        assert s[i] in a && s[j] in b;
      }
    }
  }

  /** The 21 paths every project receives. */
  function BaseFiles(): seq<string> {
    Span(0, BaseCount)
  }

  /** The paths added when `jest` is set. */
  function JestFiles(): seq<string> {
    Span(BaseCount, BaseCount + JestCount)
  }

  /** The paths added when `docker` is set. */
  function DockerFiles(): seq<string> {
    Span(BaseCount + JestCount, FileCount)
  }

  /** The list `getTemplates` walks: the base paths, then the Jest paths
      when `jest` is set, then the Docker paths when `docker` is set. */
  function TemplateFiles(d: TemplateData): seq<string> {
    BaseFiles()
      + (if d.jest then JestFiles() else [])
      + (if d.docker then DockerFiles() else [])
  }

  /** Whether the path numbered `i` belongs in a project built from `d`. */
  predicate Emitted(i: nat, d: TemplateData) {
    i < BaseCount
    || (BaseCount <= i < BaseCount + JestCount && d.jest)
    || (BaseCount + JestCount <= i < FileCount && d.docker)
  }

  /** A path is in the list exactly when it is one of the known paths and
      its group is switched on. */
  lemma TemplateFilesMembers(d: TemplateData, p: string)
    ensures p in TemplateFiles(d) <==> FileIndex(p).Some? && Emitted(FileIndex(p).value, d)
  {
    SpanMembers(0, BaseCount, p);
    SpanMembers(BaseCount, BaseCount + JestCount, p);
    SpanMembers(BaseCount + JestCount, FileCount, p);
  }

  /** The list never repeats a path, and it has 21 entries plus two for
      Jest and three for Docker. */
  lemma TemplateFilesDistinct(d: TemplateData)
    ensures Distinct(TemplateFiles(d))
    ensures |TemplateFiles(d)| == BaseCount + (if d.jest then JestCount else 0) + (if d.docker then DockerCount else 0)
  {
    var base, jest, docker := BaseFiles(), JestFiles(), DockerFiles();
    SpanDistinct(0, BaseCount);
    SpanDistinct(BaseCount, BaseCount + JestCount);
    SpanDistinct(BaseCount + JestCount, FileCount);
    var j := if d.jest then jest else [];
    var k := if d.docker then docker else [];
    forall p | p in base
      ensures p !in j
    {
      SpanMembers(0, BaseCount, p);
      SpanMembers(BaseCount, BaseCount + JestCount, p);
    }
    DistinctConcat(base, j);
    forall p | p in base + j
      ensures p !in k
    {
      SpanMembers(0, BaseCount, p);
      SpanMembers(BaseCount, BaseCount + JestCount, p);
      SpanMembers(BaseCount + JestCount, FileCount, p);
    }
    DistinctConcat(base + j, k);
  }

  /** The flag-specific paths, by name. */
  lemma JestFilesIffJest(d: TemplateData)
    ensures "jest.config.js" in TemplateFiles(d) <==> d.jest
    ensures "src/__tests__/health.test.ts" in TemplateFiles(d) <==> d.jest
  {
    IndexOf(21);
    IndexOf(22);
    TemplateFilesMembers(d, "jest.config.js");
    TemplateFilesMembers(d, "src/__tests__/health.test.ts");
  }

  lemma DockerFilesIffDocker(d: TemplateData)
    ensures "Dockerfile" in TemplateFiles(d) <==> d.docker
    ensures ".dockerignore" in TemplateFiles(d) <==> d.docker
    ensures "docker-compose.yml" in TemplateFiles(d) <==> d.docker
  {
    IndexOf(23);
    IndexOf(24);
    IndexOf(25);
    TemplateFilesMembers(d, "Dockerfile");
    TemplateFilesMembers(d, ".dockerignore");
    TemplateFilesMembers(d, "docker-compose.yml");
  }

  /** Every base path is listed whatever the flags; among them are the
      two configuration modules, whatever `database` and `redis` say. */
  lemma BaseFilesAlways(d: TemplateData)
    ensures forall p :: p in BaseFiles() ==> p in TemplateFiles(d)
    ensures "src/config/database.ts" in TemplateFiles(d)
    ensures "src/config/redis.ts" in TemplateFiles(d)
  {
    assert FileAt(4) == "src/config/database.ts";
    assert FileAt(5) == "src/config/redis.ts";
    assert BaseFiles()[4] == FileAt(4);
    assert BaseFiles()[5] == FileAt(5);
  }

  /** Only `jest` and `docker` choose paths: any two data with the same
      two flags get the same list. */
  lemma TemplateFilesOnlyJestAndDocker(d1: TemplateData, d2: TemplateData)
    requires d1.jest == d2.jest && d1.docker == d2.docker
    ensures forall p :: p in TemplateFiles(d1) <==> p in TemplateFiles(d2)
  {
    forall p
      ensures p in TemplateFiles(d1) <==> p in TemplateFiles(d2)
    {
      TemplateFilesMembers(d1, p);
      TemplateFilesMembers(d2, p);
    }
  }

  /** The name under which a path's template is looked up: every forward
      slash replaced by the platform's separator. */
  function LookupName(path: string, sep: char): (r: string)
    ensures |r| == |path|
  {
    seq(|path|, k requires 0 <= k < |path| => if path[k] == '/' then sep else path[k])
  }

  /** On a platform whose separator is the forward slash the rewrite
      changes nothing. */
  lemma LookupNameSlash(path: string)
    ensures LookupName(path, '/') == path
  {
  }

  /** Paths that do not already contain the separator keep distinct
      lookup names, so no two keys share a template. */
  lemma LookupNameInjective(p: string, q: string, sep: char)
    requires sep !in p && sep !in q
    requires LookupName(p, sep) == LookupName(q, sep)
    ensures p == q
  {
    assert |p| == |q|;
    forall k | 0 <= k < |p|
      ensures p[k] == q[k]
    {
      assert LookupName(p, sep)[k] == LookupName(q, sep)[k];
    }
  }

  /** What the engine produces for one template and the data. */
  type Renderer = TemplateData -> string

  /** The template directory, keyed by lookup name. */
  type Library = map<string, Renderer>

  /** A JavaScript object built by assignment: its entries in insertion
      order, each key at most once. */
  type Record = seq<(string, string)>

  function Keys(r: Record): (keys: seq<string>)
    ensures |keys| == |r|
  {
    seq(|r|, k requires 0 <= k < |r| => r[k].0)
  }

  /** `r[key]`, or `None` for a key the object does not have. */
  function Get(r: Record, key: string): (v: Option<string>)
    ensures v.Some? <==> key in Keys(r)
  {
    if r == [] then None
    else if r[0].0 == key then
      assert Keys(r)[0] == key;
      Some(r[0].1)
    else
      assert Keys(r) == [r[0].0] + Keys(r[1..]);
      Get(r[1..], key)
  }

  /** `r[key] = value`: a key already present keeps its place and takes
      the new value; a new key is added last. */
  function Put(r: Record, key: string, value: string): (out: Record)
    ensures Get(out, key) == Some(value)
    ensures forall other :: other != key ==> Get(out, other) == Get(r, other)
    ensures Keys(out) == if key in Keys(r) then Keys(r) else Keys(r) + [key]
  {
    if r == [] then [(key, value)]
    else
      assert r == [r[0]] + r[1..];
      Cons(r[0], r[1..]);
      if r[0].0 == key then
        Cons((key, value), r[1..]);
        [(key, value)] + r[1..]
      else
        var rest := Put(r[1..], key, value);
        Cons(r[0], rest);
        [r[0]] + rest
  }

  /** An object with one more entry in front: its keys, and what reading
      any key gives. */
  lemma Cons(head: (string, string), rest: Record)
    ensures Keys([head] + rest) == [head.0] + Keys(rest)
    ensures Get([head] + rest, head.0) == Some(head.1)
    ensures forall key :: key != head.0 ==> Get([head] + rest, key) == Get(rest, key)
  {
    var r := [head] + rest;
    assert r[1..] == rest;
  }

  /** Whether the template of every path can be found. */
  predicate AllFound(files: seq<string>, lib: Library, sep: char) {
    forall k :: 0 <= k < |files| ==> LookupName(files[k], sep) in lib
  }

  /** The object a walk over `files` should produce: one entry per path,
      in order, keyed by the path itself and holding its rendered template. */
  function Entries(files: seq<string>, d: TemplateData, lib: Library, sep: char): (r: Record)
    requires AllFound(files, lib, sep)
    ensures Keys(r) == files
  {
    seq(|files|, k requires 0 <= k < |files| => (files[k], lib[LookupName(files[k], sep)](d)))
  }

  /** The `forEach` over `files`: each path's template is looked up and
      rendered, and the result assigned into `acc` under the path. A
      template that cannot be found makes the engine throw, which ends the
      walk with the lookup name. */
  function RenderEach(files: seq<string>, d: TemplateData, lib: Library, sep: char, acc: Record): (r: Result<Record, string>)
    ensures r.Success? <==> AllFound(files, lib, sep)
    ensures r.Failure? ==> r.error !in lib
    ensures r.Failure? ==> exists k :: 0 <= k < |files| && r.error == LookupName(files[k], sep) && AllFound(files[..k], lib, sep)
    decreases |files|
  {
    if files == [] then Success(acc)
    else
      var name := LookupName(files[0], sep);
      if name !in lib then Failure(name)
      else
        var r := RenderEach(files[1..], d, lib, sep, Put(acc, files[0], lib[name](d)));
        assert AllFound(files, lib, sep) <==> AllFound(files[1..], lib, sep) by {
          if AllFound(files[1..], lib, sep) {
            forall k | 0 < k < |files|
              ensures LookupName(files[k], sep) in lib
            {
              assert files[k] == files[1..][k - 1];
            }
          }
        }
        assert r.Failure? ==> exists k :: 0 <= k < |files| && r.error == LookupName(files[k], sep) && AllFound(files[..k], lib, sep) by {
          if r.Failure? {
            var k :| 0 <= k < |files[1..]| && r.error == LookupName(files[1..][k], sep) && AllFound(files[1..][..k], lib, sep);
            assert r.error == LookupName(files[k + 1], sep);
            FoundBefore(files, lib, sep, k);
          }
        }
        r
  }

  /** A found head followed by a found stretch of the rest is a found
      stretch of the whole list. */
  lemma FoundBefore(files: seq<string>, lib: Library, sep: char, k: nat)
    requires k < |files| - 1 && LookupName(files[0], sep) in lib
    requires AllFound(files[1..][..k], lib, sep)
    ensures AllFound(files[..k + 1], lib, sep)
  {
    var found, rest := files[..k + 1], files[1..][..k];
    forall j | 0 < j < |found|
      ensures LookupName(found[j], sep) in lib
    {
      assert found[j] == rest[j - 1];
    }
  }

  /** A found head is assigned, and the walk goes on with the rest. */
  lemma RenderEachStep(files: seq<string>, d: TemplateData, lib: Library, sep: char, acc: Record)
    requires files != [] && LookupName(files[0], sep) in lib
    ensures RenderEach(files, d, lib, sep, acc)
         == RenderEach(files[1..], d, lib, sep, Put(acc, files[0], lib[LookupName(files[0], sep)](d)))
  {
  }

  /** A walk's entries are its first entry followed by the rest's. */
  lemma EntriesCons(files: seq<string>, d: TemplateData, lib: Library, sep: char)
    requires files != [] && AllFound(files, lib, sep)
    ensures AllFound(files[1..], lib, sep)
    ensures Entries(files, d, lib, sep)
      == [(files[0], lib[LookupName(files[0], sep)](d))] + Entries(files[1..], d, lib, sep)
  {
    var rest := files[1..];
    forall k | 0 <= k < |rest|
      ensures LookupName(rest[k], sep) in lib
    {
      assert rest[k] == files[k + 1];
    }
  }

  /** Dropping the head keeps a list free of repeats, and the head is not
      among the rest. */
  lemma DistinctTail<T>(s: seq<T>)
    requires s != [] && Distinct(s)
    ensures Distinct(s[1..])
    ensures s[0] !in s[1..]
  {
    var rest := s[1..];
    forall i, j | 0 <= i < j < |rest|
      ensures rest[i] != rest[j]
    {
      assert rest[i] == s[i + 1] && rest[j] == s[j + 1];
    }
  }

  /** When no path repeats and none is in `acc` yet, no assignment
      overwrites another: the walk appends exactly `Entries`. */
  lemma {:induction false} RenderEachEntries(files: seq<string>, d: TemplateData, lib: Library, sep: char, acc: Record)
    requires Distinct(files) && AllFound(files, lib, sep)
    requires forall k :: 0 <= k < |files| ==> files[k] !in Keys(acc)
    ensures RenderEach(files, d, lib, sep, acc) == Success(acc + Entries(files, d, lib, sep))
    decreases |files|
  {
    if files != [] {
      var value := lib[LookupName(files[0], sep)](d);
      var acc' := Put(acc, files[0], value);
      FreshRest(files, acc, value);
      EntriesCons(files, d, lib, sep);
      RenderEachStep(files, d, lib, sep, acc);
      RenderEachEntries(files[1..], d, lib, sep, acc');
      AppendShift(acc, (files[0], value), Entries(files[1..], d, lib, sep));
    } else {
      assert acc + Entries(files, d, lib, sep) == acc;
    }
  }

  /** After the head of a repeat-free list is assigned as a new key, no
      later path is a key yet. */
  lemma FreshRest(files: seq<string>, acc: Record, value: string)
    requires files != [] && Distinct(files)
    requires forall k :: 0 <= k < |files| ==> files[k] !in Keys(acc)
    ensures Put(acc, files[0], value) == acc + [(files[0], value)]
    ensures Distinct(files[1..])
    ensures forall k :: 0 <= k < |files[1..]| ==> files[1..][k] !in Keys(Put(acc, files[0], value))
  {
    PutNew(acc, files[0], value);
    DistinctTail(files);
    var rest := files[1..];
    forall k | 0 <= k < |rest|
      ensures rest[k] !in Keys(acc) + [files[0]]
    {
      assert rest[k] == files[k + 1];
    }
  }

  /** Moving one element across a concatenation. */
  lemma AppendShift<T>(a: seq<T>, x: T, b: seq<T>)
    ensures (a + [x]) + b == a + ([x] + b)
  {
  }

  /** Assigning a key the object does not have appends one entry. */
  lemma {:induction false} PutNew(r: Record, key: string, value: string)
    requires key !in Keys(r)
    ensures Put(r, key, value) == r + [(key, value)]
    decreases |r|
  {
    if r != [] {
      assert Keys(r) == [r[0].0] + Keys(r[1..]);
      assert key != r[0].0 && key !in Keys(r[1..]);
      PutNew(r[1..], key, value);
      assert Put(r, key, value) == [r[0]] + Put(r[1..], key, value);
      assert [r[0]] + (r[1..] + [(key, value)]) == r + [(key, value)];
    }
  }

  /** `getTemplates`: the object with one rendered entry per listed path,
      or the lookup name of the first template that cannot be found. */
  function GetTemplates(d: TemplateData, lib: Library, sep: char): (r: Result<Record, string>)
    ensures r.Success? <==> AllFound(TemplateFiles(d), lib, sep)
    ensures r.Success? ==> r.value == Entries(TemplateFiles(d), d, lib, sep)
    ensures r.Failure? ==> r.error !in lib && exists p :: p in TemplateFiles(d) && r.error == LookupName(p, sep)
    ensures r.Failure? ==> exists k :: 0 <= k < |TemplateFiles(d)| && r.error == LookupName(TemplateFiles(d)[k], sep)
                                    && AllFound(TemplateFiles(d)[..k], lib, sep)
  {
    TemplateFilesDistinct(d);
    if AllFound(TemplateFiles(d), lib, sep) then
      RenderEachEntries(TemplateFiles(d), d, lib, sep, []);
      RenderEach(TemplateFiles(d), d, lib, sep, [])
    else
      RenderEach(TemplateFiles(d), d, lib, sep, [])
  }

  /** At most one path is missing with every path before it found. */
  lemma FirstMissingUnique(files: seq<string>, lib: Library, sep: char, i: nat, k: nat)
    requires i < |files| && LookupName(files[i], sep) !in lib && AllFound(files[..i], lib, sep)
    requires k < |files| && LookupName(files[k], sep) !in lib && AllFound(files[..k], lib, sep)
    ensures i == k
  {
  }

  /** The name `getTemplates` reports is fixed by the library: the lookup
      name of the first listed path, in list order, whose template is
      missing. */
  lemma {:induction false} FirstMissingReported(d: TemplateData, lib: Library, sep: char, i: nat)
    requires i < |TemplateFiles(d)| && LookupName(TemplateFiles(d)[i], sep) !in lib
    requires AllFound(TemplateFiles(d)[..i], lib, sep)
    ensures GetTemplates(d, lib, sep) == Failure(LookupName(TemplateFiles(d)[i], sep))
  {
    var files, r := TemplateFiles(d), GetTemplates(d, lib, sep);
    assert !AllFound(files, lib, sep);
    var k :| 0 <= k < |files| && r.error == LookupName(files[k], sep) && AllFound(files[..k], lib, sep);
    FirstMissingUnique(files, lib, sep, i, k);
  }

  /** With no templates at all, the error names `package.json`, the first
      listed path. */
  lemma EmptyLibraryReportsPackageJson(d: TemplateData, sep: char)
    ensures GetTemplates(d, map[], sep) == Failure(LookupName("package.json", sep))
  {
    var files := TemplateFiles(d);
    assert files[0] == Files[0] == "package.json";
    assert AllFound(files[..0], map[], sep);
    FirstMissingReported(d, map[], sep, 0);
  }

  /** In an object whose keys do not repeat, reading a key returns the
      value stored with it. */
  lemma {:induction false} GetDistinct(r: Record, k: nat)
    requires k < |r| && Distinct(Keys(r))
    ensures Get(r, r[k].0) == Some(r[k].1)
    decreases |r|
  {
    if k > 0 {
      assert Keys(r)[0] != Keys(r)[k];
      assert Keys(r[1..]) == Keys(r)[1..];
      DistinctTail(Keys(r));
      GetDistinct(r[1..], k - 1);
    }
  }

  /** On success the keys are the listed paths, unchanged by the separator
      rewrite, each exactly once: 21 of them, plus two with Jest and three
      with Docker. */
  lemma TemplatesKeys(d: TemplateData, lib: Library, sep: char)
    requires GetTemplates(d, lib, sep).Success?
    ensures Keys(GetTemplates(d, lib, sep).value) == TemplateFiles(d)
    ensures Distinct(Keys(GetTemplates(d, lib, sep).value))
    ensures |GetTemplates(d, lib, sep).value|
      == BaseCount + (if d.jest then JestCount else 0) + (if d.docker then DockerCount else 0)
  {
    TemplateFilesDistinct(d);
  }

  /** On success reading a path from the object gives that path's rendered
      template exactly when the path is listed. */
  lemma TemplatesContent(d: TemplateData, lib: Library, sep: char, p: string)
    requires GetTemplates(d, lib, sep).Success?
    ensures Get(GetTemplates(d, lib, sep).value, p).Some? <==> p in TemplateFiles(d)
    ensures p in TemplateFiles(d) ==>
      LookupName(p, sep) in lib
      && Get(GetTemplates(d, lib, sep).value, p) == Some(lib[LookupName(p, sep)](d))
  {
    var r := GetTemplates(d, lib, sep).value;
    TemplatesKeys(d, lib, sep);
    if p in TemplateFiles(d) {
      var k :| 0 <= k < |TemplateFiles(d)| && TemplateFiles(d)[k] == p;
      assert r[k].0 == p;
      GetDistinct(r, k);
    }
  }
}
