/** How the generated modules refer to each other: every relative import a
    transcribed template performs loads a file the generator emits, and
    when that file is one of the transcribed templates it exports the name
    asked for, in every configuration. Module resolution follows the
    TypeScript rule for relative specifiers: `<target>.ts`, else
    `<target>/index.ts`. */
module Wiring {
  import opened Wrappers
  import opened Types
  import opened Nunjucks
  import opened Templates
  import ServerTemplate
  import AppTemplate
  import RedisTemplate
  import DatabaseTemplate

  /** A directory given by its segments, as text with a trailing slash. */
  function DirPrefix(dir: seq<string>): string {
    if dir == [] then "" else DirPrefix(dir[..|dir| - 1]) + dir[|dir| - 1] + "/"
  }

  /** Where a relative specifier written in a file of `dir` points, as a
      path without extension: `./` stays in `dir` and each `../` climbs
      one level. A bare specifier names a package and has no target here. */
  function Target(dir: seq<string>, spec: string): Option<string>
    decreases |spec|
  {
    if |spec| >= 2 && spec[0] == '.' && spec[1] == '/' then Some(DirPrefix(dir) + spec[2..])
    else if |spec| >= 3 && spec[0] == '.' && spec[1] == '.' && spec[2] == '/' && dir != [] then
      Target(dir[..|dir| - 1], "./" + spec[3..])
    else None
  }

  /** Whether a path is among the files emitted for `d`. */
  predicate Listed(p: string, d: TemplateData) {
    FileIndex(p).Some? && Emitted(FileIndex(p).value, d)
  }

  /** The emitted file a relative import loads, if any. */
  function Resolve(dir: seq<string>, spec: string, d: TemplateData): (r: Option<string>)
    ensures r.Some? ==> r.value in TemplateFiles(d)
  {
    match Target(dir, spec)
    case None => None
    case Some(t) =>
      if Listed(t + ".ts", d) then
        TemplateFilesMembers(d, t + ".ts");
        Some(t + ".ts")
      else if Listed(t + "/index.ts", d) then
        TemplateFilesMembers(d, t + "/index.ts");
        Some(t + "/index.ts")
      else None
  }

  /** The names exported by the emitted files this model transcribes. */
  function ExportsOf(path: string, d: TemplateData): Option<set<string>> {
    if path == "src/app.ts" then Some(Exports(AppTemplate.Source, d))
    else if path == "src/server.ts" then Some(Exports(ServerTemplate.Source, d))
    else if path == "src/config/redis.ts" then Some(Exports(RedisTemplate.Source(), d))
    else if path == "src/config/database.ts" then Some(Exports(DatabaseTemplate.Source(), d))
    else None
  }

  /** An import `(name, spec)` written in a file of `dir` is satisfied when
      it loads an emitted file that, if transcribed here, exports `name`. */
  predicate Satisfied(dir: seq<string>, x: (string, string), d: TemplateData) {
    && Resolve(dir, x.1, d).Some?
    && (ExportsOf(Resolve(dir, x.1, d).value, d).Some? ==> x.0 in ExportsOf(Resolve(dir, x.1, d).value, d).value)
  }

  /** The directories of the four transcribed files. */
  const SrcDir: seq<string> := ["src"]
  const ConfigDir: seq<string> := ["src", "config"]

  // ---------------------------------------------------------------------
  // src/server.ts

  const ServerImports: set<(string, string)> := {
    ("default", "./app"),
    ("connectDatabase", "./config/database"),
    ("connectRedis", "./config/redis"),
    ("logger", "./utils/logger")
  }

  lemma ServerHeadImports()
    ensures ImportsWithinFrom(ServerTemplate.Head(), 0, ServerImports)
  {
  }

  lemma ServerBodyImports()
    ensures ImportsWithinFrom(ServerTemplate.DatabaseStart(), 0, ServerImports)
    ensures ImportsWithinFrom(ServerTemplate.RedisStart(), 0, ServerImports)
    ensures ImportsWithinFrom(ServerTemplate.StartupLog(), 0, ServerImports)
    ensures ImportsWithinFrom(ServerTemplate.Rest(), 0, ServerImports)
  {
  }

  /** The server's relative imports are among the app, the two connectors
      and the logger, whatever the flags. */
  lemma ServerImportsBound(d: TemplateData)
    ensures Imports(ServerTemplate.Source, d) <= ServerImports
  {
    var h, ds, rs, sl, r := ServerTemplate.Head(), ServerTemplate.DatabaseStart(),
      ServerTemplate.RedisStart(), ServerTemplate.StartupLog(), ServerTemplate.Rest();
    ServerHeadImports();
    ServerBodyImports();
    ImportsWithinAppend(h, ds, ServerImports);
    ImportsWithinAppend(h + ds, rs, ServerImports);
    ImportsWithinAppend(h + ds + rs, sl, ServerImports);
    ImportsWithinAppend(h + ds + rs + sl, r, ServerImports);
    ImportsWithin(ServerTemplate.Source, d, ServerImports);
  }

  /** A `./` specifier points at the rest of it inside `dir`. */
  lemma TargetHere(dir: seq<string>, rest: string)
    ensures Target(dir, "./" + rest) == Some(DirPrefix(dir) + rest)
  {
    assert ("./" + rest)[2..] == rest;
  }

  /** A `../` specifier is the same as a `./` one written in the parent. */
  lemma ResolveUp(dir: seq<string>, rest: string, d: TemplateData)
    requires dir != []
    ensures Resolve(dir, "../" + rest, d) == Resolve(dir[..|dir| - 1], "./" + rest, d)
  {
    assert ("../" + rest)[3..] == rest;
  }

  /** An import whose target with `.ts` is an emitted file loads that file. */
  lemma ResolvesFile(dir: seq<string>, rest: string, d: TemplateData, i: nat)
    requires i < FileCount && Emitted(i, d)
    requires DirPrefix(dir) + rest + ".ts" == FileAt(i)
    ensures Resolve(dir, "./" + rest, d) == Some(FileAt(i))
  {
    TargetHere(dir, rest);
    IndexOf(i);
  }

  /** An import whose target is not a known file but a directory holding
      an emitted `index.ts` loads that index. */
  lemma ResolvesIndex(dir: seq<string>, rest: string, d: TemplateData, i: nat)
    requires FileIndex(DirPrefix(dir) + rest + ".ts").None?
    requires i < FileCount && Emitted(i, d)
    requires DirPrefix(dir) + rest + "/index.ts" == FileAt(i)
    ensures Resolve(dir, "./" + rest, d) == Some(FileAt(i))
  {
    TargetHere(dir, rest);
    IndexOf(i);
  }

  lemma SrcPrefix()
    ensures DirPrefix(SrcDir) == "src/"
    ensures ConfigDir[..|ConfigDir| - 1] == SrcDir
  {
  }

  lemma AppResolves(d: TemplateData)
    ensures Resolve(SrcDir, "./app", d) == Some("src/app.ts")
  {
    SrcPrefix();
    assert "./app" == "./" + "app";
    ResolvesFile(SrcDir, "app", d, 2);
  }

  lemma DatabaseSpec()
    ensures "./config/database" == "./" + "config/database"
  {
  }

  lemma DatabaseFile()
    ensures DirPrefix(SrcDir) + "config/database" + ".ts" == FileAt(4)
  {
    SrcPrefix();
  }

  lemma DatabaseResolves(d: TemplateData)
    ensures Resolve(SrcDir, "./config/database", d) == Some("src/config/database.ts")
  {
    DatabaseSpec();
    DatabaseFile();
    assert FileAt(4) == "src/config/database.ts";
    ResolvesFile(SrcDir, "config/database", d, 4);
  }

  lemma RedisResolves(d: TemplateData)
    ensures Resolve(SrcDir, "./config/redis", d) == Some("src/config/redis.ts")
  {
    SrcPrefix();
    assert "./config/redis" == "./" + "config/redis";
    ResolvesFile(SrcDir, "config/redis", d, 5);
  }

  lemma LoggerResolves(d: TemplateData)
    ensures Resolve(SrcDir, "./utils/logger", d) == Some("src/utils/logger.ts")
    ensures Resolve(ConfigDir, "../utils/logger", d) == Some("src/utils/logger.ts")
  {
    SrcPrefix();
    assert "./utils/logger" == "./" + "utils/logger";
    assert "../utils/logger" == "../" + "utils/logger";
    ResolvesFile(SrcDir, "utils/logger", d, 13);
    ResolveUp(ConfigDir, "utils/logger", d);
  }

  lemma LoggerNotTranscribed(d: TemplateData)
    ensures ExportsOf("src/utils/logger.ts", d).None?
  {
  }

  /** The default import of `./app` finds the app's default export. */
  lemma AppImportSatisfied(d: TemplateData)
    ensures Satisfied(SrcDir, ("default", "./app"), d)
  {
    AppResolves(d);
    AppTemplate.DefaultExported(d);
  }

  /** `connectDatabase` is exported by the database module, which is
      always emitted. */
  lemma ConnectDatabaseImportSatisfied(d: TemplateData)
    ensures Satisfied(SrcDir, ("connectDatabase", "./config/database"), d)
  {
    DatabaseResolves(d);
    DatabaseTemplate.ExportsAlways(d);
  }

  /** `connectRedis` is exported by both branches of the Redis module, so
      the import resolves whether or not Redis is chosen. */
  lemma ConnectRedisImportSatisfied(d: TemplateData)
    ensures Satisfied(SrcDir, ("connectRedis", "./config/redis"), d)
  {
    RedisResolves(d);
    RedisTemplate.ConnectRedisAlwaysExported(d);
  }

  /** The logger is emitted in every configuration, from `src` and from
      `src/config` alike. */
  lemma LoggerImportSatisfied(d: TemplateData)
    ensures Satisfied(SrcDir, ("logger", "./utils/logger"), d)
    ensures Satisfied(ConfigDir, ("logger", "../utils/logger"), d)
  {
    LoggerResolves(d);
    LoggerNotTranscribed(d);
  }

  /** Every relative import the server performs is satisfied, in every
      configuration. */
  lemma ServerWired(d: TemplateData)
    ensures forall x :: x in Imports(ServerTemplate.Source, d) ==> Satisfied(SrcDir, x, d)
  {
    ServerImportsBound(d);
    AppImportSatisfied(d);
    ConnectDatabaseImportSatisfied(d);
    ConnectRedisImportSatisfied(d);
    LoggerImportSatisfied(d);
    forall x | x in Imports(ServerTemplate.Source, d)
      ensures Satisfied(SrcDir, x, d)
    {
      assert x in ServerImports;
      assert || x == ("default", "./app")
             || x == ("connectDatabase", "./config/database")
             || x == ("connectRedis", "./config/redis")
             || x == ("logger", "./utils/logger");
    }
  }

  // ---------------------------------------------------------------------
  // src/app.ts

  const AppImports: set<(string, string)> := {
    ("default", "./routes"),
    ("errorHandler", "./middlewares/errorHandler"),
    ("requestLogger", "./middlewares/requestLogger")
  }

  lemma AppPartsImports()
    ensures ImportsWithinFrom(AppTemplate.Head(), 0, AppImports)
    ensures ImportsWithinFrom(AppTemplate.Middleware(), 0, AppImports)
    ensures ImportsWithinFrom(AppTemplate.Docs(), 0, AppImports)
    ensures ImportsWithinFrom(AppTemplate.Tail(), 0, AppImports)
  {
  }

  /** The app's relative imports are among the routes, the error handler
      and the request logger, whatever the flags. */
  lemma AppImportsBound(d: TemplateData)
    ensures Imports(AppTemplate.Source, d) <= AppImports
  {
    var h, m, dc, t := AppTemplate.Head(), AppTemplate.Middleware(), AppTemplate.Docs(), AppTemplate.Tail();
    AppPartsImports();
    ImportsWithinAppend(h, m, AppImports);
    ImportsWithinAppend(h + m, dc, AppImports);
    ImportsWithinAppend(h + m + dc, t, AppImports);
    ImportsWithin(AppTemplate.Source, d, AppImports);
  }

  /** `./routes` is a directory import: there is no `src/routes.ts`, so it
      loads `src/routes/index.ts`. */
  lemma RoutesResolves(d: TemplateData)
    ensures Resolve(SrcDir, "./routes", d) == Some("src/routes/index.ts")
  {
    SrcPrefix();
    assert "./routes" == "./" + "routes";
    assert FileIndex("src/routes.ts").None?;
    ResolvesIndex(SrcDir, "routes", d, 8);
  }

  lemma ErrorHandlerSpec()
    ensures "./middlewares/errorHandler" == "./" + "middlewares/errorHandler"
  {
  }

  lemma ErrorHandlerFile()
    ensures DirPrefix(SrcDir) + "middlewares/errorHandler" + ".ts" == FileAt(9)
  {
    SrcPrefix();
  }

  lemma ErrorHandlerResolves(d: TemplateData)
    ensures Resolve(SrcDir, "./middlewares/errorHandler", d) == Some("src/middlewares/errorHandler.ts")
  {
    ErrorHandlerSpec();
    ErrorHandlerFile();
    assert FileAt(9) == "src/middlewares/errorHandler.ts";
    ResolvesFile(SrcDir, "middlewares/errorHandler", d, 9);
  }

  lemma RequestLoggerSpec()
    ensures "./middlewares/requestLogger" == "./" + "middlewares/requestLogger"
  {
  }

  lemma RequestLoggerFile()
    ensures DirPrefix(SrcDir) + "middlewares/requestLogger" + ".ts" == FileAt(10)
  {
    SrcPrefix();
  }

  lemma RequestLoggerResolves(d: TemplateData)
    ensures Resolve(SrcDir, "./middlewares/requestLogger", d) == Some("src/middlewares/requestLogger.ts")
  {
    RequestLoggerSpec();
    RequestLoggerFile();
    assert FileAt(10) == "src/middlewares/requestLogger.ts";
    ResolvesFile(SrcDir, "middlewares/requestLogger", d, 10);
  }

  lemma AppTargetsNotTranscribed(d: TemplateData)
    ensures ExportsOf("src/routes/index.ts", d).None?
    ensures ExportsOf("src/middlewares/errorHandler.ts", d).None?
    ensures ExportsOf("src/middlewares/requestLogger.ts", d).None?
  {
  }

  lemma AppImportsSatisfied(d: TemplateData)
    ensures Satisfied(SrcDir, ("default", "./routes"), d)
    ensures Satisfied(SrcDir, ("errorHandler", "./middlewares/errorHandler"), d)
    ensures Satisfied(SrcDir, ("requestLogger", "./middlewares/requestLogger"), d)
  {
    RoutesResolves(d);
    ErrorHandlerResolves(d);
    RequestLoggerResolves(d);
    AppTargetsNotTranscribed(d);
  }

  /** Every relative import the app performs loads an emitted file. */
  lemma AppWired(d: TemplateData)
    ensures forall x :: x in Imports(AppTemplate.Source, d) ==> Satisfied(SrcDir, x, d)
  {
    AppImportsBound(d);
    AppImportsSatisfied(d);
    forall x | x in Imports(AppTemplate.Source, d)
      ensures Satisfied(SrcDir, x, d)
    {
      assert x in AppImports;
      assert || x == ("default", "./routes")
             || x == ("errorHandler", "./middlewares/errorHandler")
             || x == ("requestLogger", "./middlewares/requestLogger");
    }
  }

  // ---------------------------------------------------------------------
  // src/config/redis.ts and src/config/database.ts

  const ConfigImports: set<(string, string)> := {("logger", "../utils/logger")}

  lemma RedisPartsImports()
    ensures ImportsWithinFrom(RedisTemplate.Source(), 0, ConfigImports)
  {
  }

  lemma DatabasePartsImports()
    ensures ImportsWithinFrom(DatabaseTemplate.Intro(), 0, ConfigImports)
    ensures ImportsWithinFrom(DatabaseTemplate.Uri(), 0, ConfigImports)
    ensures ImportsWithinFrom(DatabaseTemplate.Outro(), 0, ConfigImports)
  {
  }

  /** The only relative import of either configuration module is the
      logger, one level up, and it loads an emitted file. */
  lemma ConfigWired(d: TemplateData)
    ensures Imports(RedisTemplate.Source(), d) <= ConfigImports
    ensures Imports(DatabaseTemplate.Source(), d) <= ConfigImports
    ensures forall x :: x in Imports(RedisTemplate.Source(), d) ==> Satisfied(ConfigDir, x, d)
    ensures forall x :: x in Imports(DatabaseTemplate.Source(), d) ==> Satisfied(ConfigDir, x, d)
  {
    var i, u, o := DatabaseTemplate.Intro(), DatabaseTemplate.Uri(), DatabaseTemplate.Outro();
    RedisPartsImports();
    ImportsWithin(RedisTemplate.Source(), d, ConfigImports);
    DatabasePartsImports();
    ImportsWithinAppend(i, u, ConfigImports);
    ImportsWithinAppend(i + u, o, ConfigImports);
    ImportsWithin(DatabaseTemplate.Source(), d, ConfigImports);
    LoggerImportSatisfied(d);
  }
}
