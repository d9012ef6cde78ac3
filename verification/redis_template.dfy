/** The cache connection template (`src/config/redis.ts` of a generated
    project). With the `redis` flag it renders an ioredis client configured
    from the environment, with connection listeners and four exports;
    without it, a stub `connectRedis` that only logs. */
module RedisTemplate {
  import opened Wrappers
  import opened Types
  import opened Nunjucks
  import opened JsString

  /** The fixed pieces of text between the template's tags. */
  datatype Piece =
    | ClientImport
    | ClientSetup
    | ConnectBody
    | GetClientBody
    | DisconnectBody
    | DefaultBody
    | StubBody
    | Trailer

  function PieceText(p: Piece): string {
    match p
    case ClientImport => "import IORedis from 'ioredis';\n"
    case ClientSetup =>
      "\n"
      + "const redisConnection = new IORedis({\n"
      + "  maxRetriesPerRequest: null,\n"
      + "  port: process.env.REDIS_PORT\n"
      + "    ? parseInt(process.env.REDIS_PORT, 10)\n"
      + "    : undefined,\n"
      + "  host: process.env.REDIS_HOST || 'localhost',\n"
      + "  password: process.env.REDIS_PASSWORD || undefined,\n"
      + "  db: process.env.REDIS_DB ? parseInt(process.env.REDIS_DB, 10) : 0,\n"
      + "});\n"
      + "\n"
      + "redisConnection.on('connect', () => {\n"
      + "  logger.info('✅ Connected to Redis');\n"
      + "});\n"
      + "\n"
      + "redisConnection.on('error', (err) => {\n"
      + "  logger.error('❌ Redis connection error:', err);\n"
      + "});\n"
      + "\n"
      + "redisConnection.on('close', () => {\n"
      + "  logger.info('\U{1F50C} Redis connection closed');\n"
      + "});\n"
      + "\n"
    case ConnectBody =>
      " = async () => {\n"
      + "  try {\n"
      + "    await redisConnection.ping();\n"
      + "  } catch (error) {\n"
      + "    process.exit(1);\n"
      + "  }\n"
      + "};\n"
      + "\n"
    case GetClientBody => " = () => redisConnection;\n\n"
    case DisconnectBody =>
      " = async () => {\n"
      + "  try {\n"
      + "    await redisConnection.quit();\n"
      + "    logger.info('✅ Disconnected from Redis');\n"
      + "  } catch (error) {\n"
      + "    logger.error('❌ Redis disconnection error:', error);\n"
      + "  }\n"
      + "};\n"
      + "\n"
    case DefaultBody => "redisConnection;\n"
    // the stub only logs that no cache is configured
    case StubBody => " = async () => {\n  console.log('Redis connection not configured');\n};\n"
    case Trailer => "\n"
  }

  function LoggerImport(): Node<Piece> { Import("logger", "../utils/logger") }

  /** The ioredis client, its listeners and its exports. */
  function Client(): Template<Piece> {
    [ Text(ClientImport),
      LoggerImport(),
      Text(ClientSetup),
      ExportConst("connectRedis"), Text(ConnectBody),
      ExportConst("getRedisClient"), Text(GetClientBody),
      ExportConst("disconnectRedis"), Text(DisconnectBody),
      ExportDefault, Text(DefaultBody) ]
  }

  /** The stand-in rendered when no cache is configured. */
  function Stub(): Template<Piece> {
    [ExportConst("connectRedis"), Text(StubBody)]
  }

  function Source(): Template<Piece> {
    [If(Redis, Client(), Stub()), Text(Trailer)]
  }

  /** The generated `src/config/redis.ts`. */
  function Content(d: TemplateData): string {
    Render(Source(), PieceText, d)
  }

  /** The file emits the client followed by a newline when the flag is
      set, and the stub followed by a newline otherwise. */
  lemma Branches(d: TemplateData)
    ensures Select(Source(), d) == (if d.redis then Client() else Stub()) + [Text(Trailer)]
  {
    var branch := if d.redis then Client() else Stub();
    SelectLeaves(branch, d);
    SelectLeaves([Text(Trailer)], d);
    assert SelectFrom(Source(), 1, d) == [Text(Trailer)];
  }

  /** The text is that of the selected branch and a final newline. */
  lemma BranchText(d: TemplateData)
    ensures Content(d) == Render(if d.redis then Client() else Stub(), PieceText, d) + "\n"
  {
    var branch := if d.redis then Client() else Stub();
    assert RenderFrom(Source(), 1, PieceText, d) == PieceText(Trailer);
    assert Content(d) == Render(branch, PieceText, d) + RenderFrom(Source(), 1, PieceText, d);
  }

  lemma ClientExports()
    ensures ExportsFrom(Client() + [Text(Trailer)], 0) == {"connectRedis", "getRedisClient", "disconnectRedis", "default"}
  {
    ExportsFromAppend(Client(), [Text(Trailer)], 0);
    assert ExportsFrom(Client(), 0) == {"connectRedis", "getRedisClient", "disconnectRedis", "default"};
  }

  lemma StubExports()
    ensures ExportsFrom(Stub() + [Text(Trailer)], 0) == {"connectRedis"}
  {
    ExportsFromAppend(Stub(), [Text(Trailer)], 0);
    assert ExportsFrom(Stub(), 0) == {"connectRedis"};
  }

  /** The exports of each branch: the client exports `connectRedis`,
      `getRedisClient`, `disconnectRedis` and a default; the stub exports
      only `connectRedis`. */
  lemma ExportsByFlag(d: TemplateData)
    ensures d.redis ==> Exports(Source(), d) == {"connectRedis", "getRedisClient", "disconnectRedis", "default"}
    ensures !d.redis ==> Exports(Source(), d) == {"connectRedis"}
  {
    Branches(d);
    if d.redis {
      ClientExports();
    } else {
      StubExports();
    }
  }

  /** `connectRedis` is exported whatever the flag, so the server's import
      of it always resolves. */
  lemma ConnectRedisAlwaysExported(d: TemplateData)
    ensures "connectRedis" in Exports(Source(), d)
  {
    ExportsByFlag(d);
  }

  /** The rendered file depends on the cache flag alone: not on the project
      name nor on any other flag. */
  lemma ContentDependsOnlyOn(d1: TemplateData, d2: TemplateData)
    requires d1.redis == d2.redis
    ensures Content(d1) == Content(d2)
  {
    NameUnused();
    DatabaseUntested();
    SwaggerUntested();
    JestUntested();
    DockerUntested();
    RenderDependsOnlyOn(Source(), PieceText, d1, d2);
  }

  lemma NameUnused() ensures !UsesName(Source()) {}

  lemma DatabaseUntested() ensures !Tests(Source(), Database) {}
  lemma SwaggerUntested() ensures !Tests(Source(), Swagger) {}
  lemma JestUntested() ensures !Tests(Source(), Jest) {}
  lemma DockerUntested() ensures !Tests(Source(), Docker) {}

  // -------------------------------------------------------------------
  // The client options, read from the environment at run time

  /** The options the client is created with. */
  datatype RedisOptions = RedisOptions(
    maxRetriesPerRequest: Option<int>,
    port: Option<Parsed>,
    host: string,
    password: Option<string>,
    db: Parsed)

  /** The options object of the generated client, for a given environment. */
  function Options(env: Env): (o: RedisOptions)
    ensures o.maxRetriesPerRequest == None
    ensures o.host == (if Truthy(env, "REDIS_HOST").Some? then env["REDIS_HOST"] else "localhost")
    ensures o.password == Truthy(env, "REDIS_PASSWORD")
    ensures Truthy(env, "REDIS_PORT") == None ==> o.port == None
    ensures Truthy(env, "REDIS_DB") == None ==> o.db == Num(0)
  {
    var port := Truthy(env, "REDIS_PORT");
    var db := Truthy(env, "REDIS_DB");
    RedisOptions(
      None,
      if port.Some? then Some(ParseInt(port.value)) else None,
      Truthy(env, "REDIS_HOST").GetOr("localhost"),
      Truthy(env, "REDIS_PASSWORD"),
      if db.Some? then ParseInt(db.value) else Num(0))
  }

  /** A port or database index written in decimal is read back as that
      number; a negative one keeps its sign. */
  lemma OptionsReadNumbers(env: Env, port: nat, db: nat)
    ensures "REDIS_PORT" in env && env["REDIS_PORT"] == Decimal(port) ==> Options(env).port == Some(Num(port))
    ensures "REDIS_DB" in env && env["REDIS_DB"] == Decimal(db) ==> Options(env).db == Num(db)
    ensures "REDIS_DB" in env && env["REDIS_DB"] == "-" + Decimal(db) ==> Options(env).db == Num(-(db as int))
  {
    ParseDecimal(port);
    ParseDecimal(db);
    ParseNegativeDecimal(db);
  }
}
