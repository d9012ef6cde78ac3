/** The express application template (`src/app.ts` of a generated project):
    fixed imports and middleware, the API documentation set-up gated by the
    `swagger` flag, the routes and the error handler. */
module AppTemplate {
  import opened Types
  import opened Nunjucks

  /** The fixed pieces of text between the template's tags. */
  datatype Piece =
    | PackageImports
    | SwaggerImports
    | CreateApp
    | UseHelmet
    | UseCors
    | UseJson
    | UseRequestLogger
    | Gap
    | DefinitionOpen
    | TitleOpen
    | TitleClose
    | DefinitionRest
    | DocsMount
    | MountRoutes
    | UseErrorHandler
    | AppName

  function PieceText(p: Piece): string {
    match p
    case PackageImports => "import express from 'express';\nimport cors from 'cors';\nimport helmet from 'helmet';\n"
    case SwaggerImports => "import swaggerJsdoc from 'swagger-jsdoc';\nimport swaggerUi from 'swagger-ui-express';\n"
    case CreateApp => "\nconst app = express();\n\n"
    case UseHelmet => "app.use(helmet());\n"
    case UseCors => "app.use(cors());\n"
    case UseJson => "app.use(express.json());\n"
    case UseRequestLogger => "app.use(requestLogger);\n"
    case Gap => "\n"
    case DefinitionOpen =>
      "const swaggerOptions = {\n"
      + "  definition: {\n"
      + "    openapi: '3.0.0',\n"
      + "    info: {\n"
      + "      "
    case TitleOpen => "title: '"
    case TitleClose => " API',\n"
    case DefinitionRest =>
      "      version: '1.0.0',\n"
      + "      description: 'A Node.js TypeScript API',\n"
      + "    },\n"
      + "    servers: [\n"
      + "      {\n"
      + "        url: 'http://localhost:${process.env.PORT || 3000}',\n"
      + "        description: 'Development server',\n"
      + "      },\n"
      + "    ],\n"
      + "  },\n"
      + "  apis: ['./src/routes/*.ts'],\n"
      + "};\n"
      + "\n"
      + "const specs = swaggerJsdoc(swaggerOptions);\n"
    case DocsMount => "app.use('/api-docs', swaggerUi.serve, swaggerUi.setup(specs));\n"
    case MountRoutes => "\n\napp.use('/api', routes);\n\n"
    case UseErrorHandler => "app.use(errorHandler);\n\n"
    case AppName => "app;\n"
  }

  function RoutesImport(): Node<Piece> { ImportDefault("routes", "./routes") }
  function ErrorHandlerImport(): Node<Piece> { Import("errorHandler", "./middlewares/errorHandler") }
  function RequestLoggerImport(): Node<Piece> { Import("requestLogger", "./middlewares/requestLogger") }

  /** The imports and the creation of the application. */
  function Head(): Template<Piece> {
    [ Text(PackageImports),
      If(Swagger, [Text(SwaggerImports)], []),
      RoutesImport(),
      ErrorHandlerImport(),
      RequestLoggerImport(),
      Text(CreateApp) ]
  }

  /** The middleware registered on every application, in order. */
  function Middleware(): Template<Piece> {
    [Text(UseHelmet), Text(UseCors), Text(UseJson), Text(UseRequestLogger), Text(Gap)]
  }

  /** The OpenAPI options, titled after the project, and the `/api-docs` mount. */
  function Docs(): Template<Piece> {
    [If(Swagger, [Text(DefinitionOpen), Text(TitleOpen), ProjectName, Text(TitleClose), Text(DefinitionRest), Text(DocsMount)], [])]
  }

  /** The routes under `/api`, the error handler and the default export. */
  function Tail(): Template<Piece> {
    [Text(MountRoutes), Text(UseErrorHandler), ExportDefault, Text(AppName)]
  }

  const Source: Template<Piece> := Head() + Middleware() + Docs() + Tail()

  /** The generated `src/app.ts`. */
  function Content(d: TemplateData): string {
    Render(Source, PieceText, d)
  }

  /** Inspecting the whole file inspects each of its parts. */
  lemma Inspect(n: Node<Piece>, f: Flag, v: bool)
    ensures MayEmit(Source, n, f, v)
         == (MayEmit(Head(), n, f, v) || MayEmit(Middleware(), n, f, v) || MayEmit(Docs(), n, f, v) || MayEmit(Tail(), n, f, v))
    ensures MustEmit(Source, n, f, v)
         == (MustEmit(Head(), n, f, v) || MustEmit(Middleware(), n, f, v) || MustEmit(Docs(), n, f, v) || MustEmit(Tail(), n, f, v))
  {
    InspectAppend(Head(), Middleware(), n, f, v);
    InspectAppend(Head() + Middleware(), Docs(), n, f, v);
    InspectAppend(Head() + Middleware() + Docs(), Tail(), n, f, v);
  }

  /** Whether the file tests `f` is whether one of its parts does. */
  lemma InspectTests(f: Flag)
    ensures Tests(Source, f)
         == (Tests(Head(), f) || Tests(Middleware(), f) || Tests(Docs(), f) || Tests(Tail(), f))
  {
    TestsAppend(Head(), Middleware(), f);
    TestsAppend(Head() + Middleware(), Docs(), f);
    TestsAppend(Head() + Middleware() + Docs(), Tail(), f);
  }

  /** Some part emits `n` whenever flag `f` has value `v`. */
  predicate Present(n: Node<Piece>, f: Flag, v: bool) {
    MustEmit(Head(), n, f, v) || MustEmit(Middleware(), n, f, v) || MustEmit(Docs(), n, f, v) || MustEmit(Tail(), n, f, v)
  }

  /** No part can emit `n` while flag `f` has value `v`. */
  predicate Absent(n: Node<Piece>, f: Flag, v: bool) {
    !MayEmit(Head(), n, f, v) && !MayEmit(Middleware(), n, f, v) && !MayEmit(Docs(), n, f, v) && !MayEmit(Tail(), n, f, v)
  }

  /** A leaf present when `f` is set and absent when it is clear is in the
      file exactly when `f` is set. */
  lemma IffFlag(n: Node<Piece>, f: Flag, d: TemplateData)
    requires Present(n, f, true) && Absent(n, f, false)
    ensures n in Select(Source, d) <==> FlagValue(d, f)
  {
    Inspect(n, f, true);
    Inspect(n, f, false);
    EmittedIffFlag(Source, n, f, d);
  }

  // Each gated leaf, evaluated against the parts in a proof of its own.
  lemma SwaggerImportsPresent() ensures Present(Text(SwaggerImports), Swagger, true) {}
  lemma SwaggerImportsAbsent() ensures Absent(Text(SwaggerImports), Swagger, false) {}
  lemma OptionsPresent() ensures Present(Text(DefinitionOpen), Swagger, true) {}
  lemma OptionsAbsent() ensures Absent(Text(DefinitionOpen), Swagger, false) {}
  lemma DocsMountPresent() ensures Present(Text(DocsMount), Swagger, true) {}
  lemma DocsMountAbsent() ensures Absent(Text(DocsMount), Swagger, false) {}

  /** `swagger-jsdoc` and `swagger-ui-express` are imported exactly when the
      documentation is enabled. */
  lemma SwaggerImportsIffSwagger(d: TemplateData)
    ensures Text(SwaggerImports) in Select(Source, d) <==> d.swagger
  {
    SwaggerImportsPresent();
    SwaggerImportsAbsent();
    IffFlag(Text(SwaggerImports), Swagger, d);
  }

  /** The OpenAPI options are there exactly when the documentation is enabled. */
  lemma OptionsIffSwagger(d: TemplateData)
    ensures Text(DefinitionOpen) in Select(Source, d) <==> d.swagger
  {
    OptionsPresent();
    OptionsAbsent();
    IffFlag(Text(DefinitionOpen), Swagger, d);
  }

  /** The documentation is mounted at `/api-docs` exactly when it is enabled. */
  lemma DocsMountIffSwagger(d: TemplateData)
    ensures Text(DocsMount) in Select(Source, d) <==> d.swagger
  {
    DocsMountPresent();
    DocsMountAbsent();
    IffFlag(Text(DocsMount), Swagger, d);
  }

  /** Six leaves of the documentation block's shape render one after the
      other, whatever text the pieces stand for. */
  lemma RenderTitled(t: Template<Piece>, text: Piece -> string, d: TemplateData)
    requires |t| == 6 && t[2] == ProjectName
    requires t[0].Text? && t[1].Text? && t[3].Text? && t[4].Text? && t[5].Text?
    ensures RenderFrom(t, 0, text, d)
         == text(t[0].piece) + text(t[1].piece) + d.projectName + text(t[3].piece)
            + text(t[4].piece) + text(t[5].piece)
  {
    assert RenderFrom(t, 5, text, d) == text(t[5].piece);
    assert RenderFrom(t, 4, text, d) == text(t[4].piece) + text(t[5].piece);
    assert RenderFrom(t, 3, text, d) == text(t[3].piece) + text(t[4].piece) + text(t[5].piece);
    assert RenderFrom(t, 2, text, d) == d.projectName + RenderFrom(t, 3, text, d);
    assert RenderFrom(t, 1, text, d) == text(t[1].piece) + RenderFrom(t, 2, text, d);
  }

  /** The text of the documentation block when it is enabled. */
  lemma DocsBlockText(d: TemplateData)
    ensures RenderFrom(Docs()[0].thenPart, 0, PieceText, d)
         == PieceText(DefinitionOpen) + PieceText(TitleOpen) + d.projectName + PieceText(TitleClose)
            + PieceText(DefinitionRest) + PieceText(DocsMount)
  {
    RenderTitled(Docs()[0].thenPart, PieceText, d);
  }

  /** The documentation title is the project name followed by ` API`; without
      documentation the block renders to nothing. */
  lemma DocsTitle(d: TemplateData)
    ensures d.swagger ==> Render(Docs(), PieceText, d)
                          == PieceText(DefinitionOpen) + "title: '" + d.projectName + " API',\n"
                             + PieceText(DefinitionRest) + PieceText(DocsMount)
    ensures !d.swagger ==> Render(Docs(), PieceText, d) == ""
  {
    DocsBlockText(d);
    assert PieceText(TitleOpen) == "title: '" && PieceText(TitleClose) == " API',\n";
  }

  /** Whatever the flags, the file lays out the imports, then the four
      middleware in a fixed order, then the optional documentation block, then
      the routes, the error handler and the default export. */
  lemma Layout(d: TemplateData)
    ensures Select(Source, d) == Select(Head(), d) + Middleware() + Select(Docs(), d) + Tail()
  {
    var hm, hmd := Head() + Middleware(), Head() + Middleware() + Docs();
    SelectLeaves(Middleware(), d);
    SelectLeaves(Tail(), d);
    SelectAppend(Head(), Middleware(), d);
    SelectAppend(hm, Docs(), d);
    SelectAppend(hmd, Tail(), d);
  }

  /** helmet, cors, the JSON body parser and the request logger are
      registered in that order in every configuration. */
  lemma MiddlewareOrder(d: TemplateData)
    ensures Precedes(Text(UseHelmet), Text(UseCors), Select(Source, d))
    ensures Precedes(Text(UseCors), Text(UseJson), Select(Source, d))
    ensures Precedes(Text(UseJson), Text(UseRequestLogger), Select(Source, d))
  {
    Layout(d);
    var s, k := Select(Source, d), |Select(Head(), d)|;
    assert s[k] == Text(UseHelmet) && s[k + 1] == Text(UseCors);
    assert s[k + 2] == Text(UseJson) && s[k + 3] == Text(UseRequestLogger);
  }

  /** Every configuration ends by mounting the routes at `/api`, registering
      the error handler after all other middleware, and exporting the
      application. */
  lemma EndsWithRoutesAndErrorHandler(d: TemplateData)
    ensures |Select(Source, d)| >= 4
    ensures Select(Source, d)[|Select(Source, d)| - 4..]
         == [Text(MountRoutes), Text(UseErrorHandler), ExportDefault, Text(AppName)]
  {
    Layout(d);
  }

  /** The application is the module's default export in every
      configuration, which is what the server's default import needs. */
  lemma DefaultExported(d: TemplateData)
    ensures "default" in Exports(Source, d)
  {
    EndsWithRoutesAndErrorHandler(d);
    var s := Select(Source, d);
    var n: Node<Piece> := ExportDefault;
    assert s[|s| - 2] == n;
    assert n in s && n.IsExport() && ExportedName(n) == "default";
    ExportsMeaning(Source, d, "default");
  }

  lemma DatabaseUntested() ensures !Tests(Source, Database) { InspectTests(Database); }
  lemma RedisUntested() ensures !Tests(Source, Redis) { InspectTests(Redis); }
  lemma JestUntested() ensures !Tests(Source, Jest) { InspectTests(Jest); }
  lemma DockerUntested() ensures !Tests(Source, Docker) { InspectTests(Docker); }

  /** The file is the same for any two projects with the same name and the
      same documentation flag. */
  lemma ContentDependsOnlyOn(d1: TemplateData, d2: TemplateData)
    requires d1.projectName == d2.projectName && d1.swagger == d2.swagger
    ensures Content(d1) == Content(d2)
  {
    DatabaseUntested();
    RedisUntested();
    JestUntested();
    DockerUntested();
    RenderDependsOnlyOn(Source, PieceText, d1, d2);
  }
}
