/** The server bootstrap template (`src/server.ts` of a generated project):
    the database and cache imports, the mongoose connection listeners, the
    start-up calls and the log lines, each gated by its flag. */
module ServerTemplate {
  import opened Types
  import opened Nunjucks

  /** The fixed pieces of text between the template's tags. */
  datatype Piece =
    | Prelude
    | MongooseImport
    | Setup
    | MongooseListeners
    | StartServerOpen
    | ConnectDatabaseCall
    | ConnectRedisCall
    | ListenOpen
    | ListenClose
    | DocsLog
    | Epilogue

  function PieceText(p: Piece): string {
    match p
    case Prelude => "import 'dotenv/config';\nimport http from 'http';\n"
    case MongooseImport => "import mongoose from 'mongoose';\n"
    case Setup => "\nconst PORT = process.env.PORT || 3000;\nconst server = http.createServer(app);\n\n"
    case MongooseListeners =>
      "mongoose.connection.once('open', () => {\n"
      + "  logger.info('MongoDB connection ready');\n"
      + "});\n"
      + "\n"
      + "mongoose.connection.on('error', (err: any) => {\n"
      + "  logger.error('MongoDB connection error', err);\n"
      + "});\n"
    case StartServerOpen => "\n\nasync function startServer() {\n  try {\n    "
    // the database connector is started without being awaited
    case ConnectDatabaseCall => "connectDatabase();\n    "
    case ConnectRedisCall => "await connectRedis();\n    "
    case ListenOpen => "server.listen(PORT, () => {\n      logger.info(`\U{1F680} "
    case ListenClose => " is running on port ${PORT}`);\n      "
    case DocsLog =>
      "logger.info(`\U{1F4DA} API Documentation available at http://localhost:${PORT}/api-docs`);\n      "
    case Epilogue =>
      "});\n"
      + "  } catch (error) {\n"
      + "    logger.error('Failed to start server:', error);\n"
      + "    process.exit(1);\n"
      + "  }\n"
      + "}\n"
      + "\n"
      + "startServer().catch(err => {\n"
      + "  console.error('Failed to start server:', err);\n"
      + "  process.exit(1);\n"
      + "});\n"
  }

  function AppImport(): Node<Piece> { ImportDefault("app", "./app") }
  function ConnectDatabaseImport(): Node<Piece> { Import("connectDatabase", "./config/database") }
  function ConnectRedisImport(): Node<Piece> { Import("connectRedis", "./config/redis") }
  function LoggerImport(): Node<Piece> { Import("logger", "./utils/logger") }

  /** The imports, the server set-up, the mongoose listeners and the
      opening of `startServer`. */
  function Head(): Template<Piece> {
    [ Text(Prelude),
      AppImport(),
      If(Database, [Text(MongooseImport), ConnectDatabaseImport()], []),
      If(Redis, [ConnectRedisImport()], []),
      LoggerImport(),
      Text(Setup),
      If(Database, [Text(MongooseListeners)], []),
      Text(StartServerOpen) ]
  }

  /** The database start-up call. */
  function DatabaseStart(): Template<Piece> {
    [If(Database, [Text(ConnectDatabaseCall)], [])]
  }

  /** The cache start-up call. */
  function RedisStart(): Template<Piece> {
    [If(Redis, [Text(ConnectRedisCall)], [])]
  }

  /** `server.listen` and the start-up log line naming the project. */
  function StartupLog(): Template<Piece> {
    [Text(ListenOpen), ProjectName, Text(ListenClose)]
  }

  /** The optional documentation log line and the end of the file. */
  function Rest(): Template<Piece> {
    [If(Swagger, [Text(DocsLog)], []), Text(Epilogue)]
  }

  const Source: Template<Piece> := Head() + DatabaseStart() + RedisStart() + StartupLog() + Rest()

  /** The generated `src/server.ts`. */
  function Content(d: TemplateData): string {
    Render(Source, PieceText, d)
  }

  /** Inspecting the whole file inspects each of its parts. */
  lemma Inspect(n: Node<Piece>, f: Flag, v: bool)
    ensures MayEmit(Source, n, f, v)
         == (MayEmit(Head(), n, f, v) || MayEmit(DatabaseStart(), n, f, v) || MayEmit(RedisStart(), n, f, v)
             || MayEmit(StartupLog(), n, f, v) || MayEmit(Rest(), n, f, v))
    ensures MustEmit(Source, n, f, v)
         == (MustEmit(Head(), n, f, v) || MustEmit(DatabaseStart(), n, f, v) || MustEmit(RedisStart(), n, f, v)
             || MustEmit(StartupLog(), n, f, v) || MustEmit(Rest(), n, f, v))
  {
    InspectAppend(Head(), DatabaseStart(), n, f, v);
    InspectAppend(Head() + DatabaseStart(), RedisStart(), n, f, v);
    InspectAppend(Head() + DatabaseStart() + RedisStart(), StartupLog(), n, f, v);
    InspectAppend(Head() + DatabaseStart() + RedisStart() + StartupLog(), Rest(), n, f, v);
  }

  /** Some part emits `n` whenever flag `f` has value `v`. */
  predicate Present(n: Node<Piece>, f: Flag, v: bool) {
    MustEmit(Head(), n, f, v) || MustEmit(DatabaseStart(), n, f, v) || MustEmit(RedisStart(), n, f, v)
    || MustEmit(StartupLog(), n, f, v) || MustEmit(Rest(), n, f, v)
  }

  /** No part can emit `n` while flag `f` has value `v`. */
  predicate Absent(n: Node<Piece>, f: Flag, v: bool) {
    !MayEmit(Head(), n, f, v) && !MayEmit(DatabaseStart(), n, f, v) && !MayEmit(RedisStart(), n, f, v)
    && !MayEmit(StartupLog(), n, f, v) && !MayEmit(Rest(), n, f, v)
  }

  /** A leaf present when `f` is set and absent when it is clear is in the
      file exactly when `f` is set. */
  lemma IffFlag(n: Node<Piece>, f: Flag, d: TemplateData)
    requires Present(n, f, true) && Absent(n, f, false)
    ensures n in Select(Source, d) <==> FlagValue(d, f)
  {
    Inspect(n, f, true);
    Inspect(n, f, false);
    EmittedIffFlag(Source, n, f, d);
  }

  /** A leaf present for both values of `f` is always in the file. */
  lemma Always(n: Node<Piece>, f: Flag, d: TemplateData)
    requires Present(n, f, true) && Present(n, f, false)
    ensures n in Select(Source, d)
  {
    Inspect(n, f, true);
    Inspect(n, f, false);
    EmittedAlways(Source, n, f, d);
  }

  // Each gated leaf, evaluated against the parts in a proof of its own.
  lemma MongooseImportPresent() ensures Present(Text(MongooseImport), Database, true) {}
  lemma MongooseImportAbsent() ensures Absent(Text(MongooseImport), Database, false) {}
  lemma ConnectDatabaseImportPresent() ensures Present(ConnectDatabaseImport(), Database, true) {}
  lemma ConnectDatabaseImportAbsent() ensures Absent(ConnectDatabaseImport(), Database, false) {}
  lemma ConnectRedisImportPresent() ensures Present(ConnectRedisImport(), Redis, true) {}
  lemma ConnectRedisImportAbsent() ensures Absent(ConnectRedisImport(), Redis, false) {}
  lemma ListenersPresent() ensures Present(Text(MongooseListeners), Database, true) {}
  lemma ListenersAbsent() ensures Absent(Text(MongooseListeners), Database, false) {}
  lemma DatabaseCallPresent() ensures Present(Text(ConnectDatabaseCall), Database, true) {}
  lemma DatabaseCallAbsent() ensures Absent(Text(ConnectDatabaseCall), Database, false) {}
  lemma RedisCallPresent() ensures Present(Text(ConnectRedisCall), Redis, true) {}
  lemma RedisCallAbsent() ensures Absent(Text(ConnectRedisCall), Redis, false) {}
  lemma DocsLogPresent() ensures Present(Text(DocsLog), Swagger, true) {}
  lemma DocsLogAbsent() ensures Absent(Text(DocsLog), Swagger, false) {}
  lemma AppImportPresentIfSet() ensures Present(AppImport(), Database, true) {}
  lemma AppImportPresentIfClear() ensures Present(AppImport(), Database, false) {}
  lemma LoggerImportPresentIfSet() ensures Present(LoggerImport(), Database, true) {}
  lemma LoggerImportPresentIfClear() ensures Present(LoggerImport(), Database, false) {}

  lemma MongooseImportIffDatabase(d: TemplateData)
    ensures Text(MongooseImport) in Select(Source, d) <==> d.database
  {
    MongooseImportPresent();
    MongooseImportAbsent();
    IffFlag(Text(MongooseImport), Database, d);
  }

  lemma ConnectDatabaseImportIffDatabase(d: TemplateData)
    ensures ConnectDatabaseImport() in Select(Source, d) <==> d.database
  {
    ConnectDatabaseImportPresent();
    ConnectDatabaseImportAbsent();
    IffFlag(ConnectDatabaseImport(), Database, d);
  }

  lemma ConnectRedisImportIffRedis(d: TemplateData)
    ensures ConnectRedisImport() in Select(Source, d) <==> d.redis
  {
    ConnectRedisImportPresent();
    ConnectRedisImportAbsent();
    IffFlag(ConnectRedisImport(), Redis, d);
  }

  lemma AppAndLoggerAlwaysImported(d: TemplateData)
    ensures AppImport() in Select(Source, d)
    ensures LoggerImport() in Select(Source, d)
  {
    AppImportPresentIfSet();
    AppImportPresentIfClear();
    Always(AppImport(), Database, d);
    LoggerImportPresentIfSet();
    LoggerImportPresentIfClear();
    Always(LoggerImport(), Database, d);
  }

  /** The mongoose `open` and `error` listeners are registered exactly for a
      database project. */
  lemma ListenersIffDatabase(d: TemplateData)
    ensures Text(MongooseListeners) in Select(Source, d) <==> d.database
  {
    ListenersPresent();
    ListenersAbsent();
    IffFlag(Text(MongooseListeners), Database, d);
  }

  lemma DatabaseCallIffDatabase(d: TemplateData)
    ensures Text(ConnectDatabaseCall) in Select(Source, d) <==> d.database
  {
    DatabaseCallPresent();
    DatabaseCallAbsent();
    IffFlag(Text(ConnectDatabaseCall), Database, d);
  }

  lemma RedisCallIffRedis(d: TemplateData)
    ensures Text(ConnectRedisCall) in Select(Source, d) <==> d.redis
  {
    RedisCallPresent();
    RedisCallAbsent();
    IffFlag(Text(ConnectRedisCall), Redis, d);
  }

  lemma DocsLogIffSwagger(d: TemplateData)
    ensures Text(DocsLog) in Select(Source, d) <==> d.swagger
  {
    DocsLogPresent();
    DocsLogAbsent();
    IffFlag(Text(DocsLog), Swagger, d);
  }

  /** Inside `startServer`, the database connector is started before the
      cache connector, and both before `server.listen`. */
  lemma StartupOrder(d: TemplateData)
    ensures d.database ==> Precedes(Text(ConnectDatabaseCall), Text(ListenOpen), Select(Source, d))
    ensures d.redis ==> Precedes(Text(ConnectRedisCall), Text(ListenOpen), Select(Source, d))
    ensures d.database && d.redis ==> Precedes(Text(ConnectDatabaseCall), Text(ConnectRedisCall), Select(Source, d))
  {
    var dbCall, cacheCall, listen := Text(ConnectDatabaseCall), Text(ConnectRedisCall), Text(ListenOpen);
    var a := Head() + DatabaseStart();
    var b := a + RedisStart();
    EmittedIffFlag(DatabaseStart(), dbCall, Database, d);
    EmittedIffFlag(RedisStart(), cacheCall, Redis, d);
    EmittedAlways(StartupLog(), listen, Database, d);
    SelectAppend(Head(), DatabaseStart(), d);
    SelectAppend(a, RedisStart(), d);
    if d.database {
      PrecedesAcross(b, StartupLog(), d, dbCall, listen);
      PrecedesAppendRight(b + StartupLog(), Rest(), d, dbCall, listen);
    }
    if d.redis {
      PrecedesAcross(b, StartupLog(), d, cacheCall, listen);
      PrecedesAppendRight(b + StartupLog(), Rest(), d, cacheCall, listen);
    }
    if d.database && d.redis {
      PrecedesAcross(a, RedisStart(), d, dbCall, cacheCall);
      PrecedesAppendRight(b, StartupLog(), d, dbCall, cacheCall);
      PrecedesAppendRight(b + StartupLog(), Rest(), d, dbCall, cacheCall);
    }
  }

  /** The start-up log line carries the project name verbatim, between the
      rocket and `is running on port`. */
  lemma StartupLogNamesProject(d: TemplateData)
    ensures Content(d)
         == Render(Head() + DatabaseStart() + RedisStart(), PieceText, d)
            + "server.listen(PORT, () => {\n      logger.info(`\U{1F680} " + d.projectName
            + " is running on port ${PORT}`);\n      "
            + Render(Rest(), PieceText, d)
  {
    var b := Head() + DatabaseStart() + RedisStart();
    RenderAppend(b, StartupLog(), PieceText, d);
    RenderAppend(b + StartupLog(), Rest(), PieceText, d);
    StartupLogText(d);
  }

  lemma StartupLogText(d: TemplateData)
    ensures Render(StartupLog(), PieceText, d) == PieceText(ListenOpen) + d.projectName + PieceText(ListenClose)
  {
    var log := StartupLog();
    assert RenderFrom(log, 2, PieceText, d) == PieceText(ListenClose);
    assert RenderFrom(log, 1, PieceText, d) == d.projectName + PieceText(ListenClose);
  }

  /** Whether the file tests `f` is whether one of its parts does. */
  lemma InspectTests(f: Flag)
    ensures Tests(Source, f)
         == (Tests(Head(), f) || Tests(DatabaseStart(), f) || Tests(RedisStart(), f)
             || Tests(StartupLog(), f) || Tests(Rest(), f))
  {
    TestsAppend(Head(), DatabaseStart(), f);
    TestsAppend(Head() + DatabaseStart(), RedisStart(), f);
    TestsAppend(Head() + DatabaseStart() + RedisStart(), StartupLog(), f);
    TestsAppend(Head() + DatabaseStart() + RedisStart() + StartupLog(), Rest(), f);
  }

  lemma JestUntested() ensures !Tests(Source, Jest) { InspectTests(Jest); }
  lemma DockerUntested() ensures !Tests(Source, Docker) { InspectTests(Docker); }

  /** The file is the same for any two projects with the same name and the
      same database, cache and documentation flags. */
  lemma ContentDependsOnlyOn(d1: TemplateData, d2: TemplateData)
    requires d1.projectName == d2.projectName
    requires d1.database == d2.database && d1.redis == d2.redis && d1.swagger == d2.swagger
    ensures Content(d1) == Content(d2)
  {
    JestUntested();
    DockerUntested();
    RenderDependsOnlyOn(Source, PieceText, d1, d2);
  }
}
