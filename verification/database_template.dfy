/** The MongoDB connection template (`src/config/database.ts` of a
    generated project). It has no conditional part: every project gets it,
    with the project name as the database of the default connection URI. */
module DatabaseTemplate {
  import opened Wrappers
  import opened Types
  import opened Nunjucks
  import opened JsString

  /** The fixed pieces of text around the interpolation. */
  datatype Piece =
    | MongooseImport
    | Gap
    | ConnectOpen
    | UriHost
    | ConnectRest
    | DisconnectBody

  function PieceText(p: Piece): string {
    match p
    case MongooseImport => "import mongoose from 'mongoose';\n"
    case Gap => "\n"
    case ConnectOpen =>
      " = async () => {\n"
      + "  try {\n"
      + "    const mongoUri =\n"
      + "      process.env.MONGODB_URI || '"
    case UriHost => DefaultUriPrefix
    case ConnectRest =>
      "';\n"
      + "    await mongoose.connect(mongoUri);\n"
      + "  } catch (error) {\n"
      + "    process.exit(1);\n"
      + "  }\n"
      + "};\n"
      + "\n"
    case DisconnectBody =>
      " = async () => {\n"
      + "  try {\n"
      + "    await mongoose.disconnect();\n"
      + "    logger.info('✅ Disconnected from MongoDB');\n"
      + "  } catch (error) {\n"
      + "    logger.error('❌ MongoDB disconnection error:', error);\n"
      + "  }\n"
      + "};\n"
  }

  /** The server and port of the default connection URI. */
  const DefaultUriPrefix := "mongodb://localhost:27017/"

  function LoggerImport(): Node<Piece> { Import("logger", "../utils/logger") }

  /** The imports and the connector up to the opening quote of its default URI. */
  function Intro(): Template<Piece> {
    [ Text(MongooseImport),
      LoggerImport(),
      Text(Gap),
      ExportConst("connectDatabase"), Text(ConnectOpen) ]
  }

  /** The default URI: a fixed host and the project name as the database. */
  function Uri(): Template<Piece> {
    [Text(UriHost), ProjectName]
  }

  /** The rest of the connector and the disconnector. */
  function Outro(): Template<Piece> {
    [Text(ConnectRest), ExportConst("disconnectDatabase"), Text(DisconnectBody)]
  }

  function Source(): Template<Piece> {
    Intro() + Uri() + Outro()
  }

  /** The generated `src/config/database.ts`. */
  function Content(d: TemplateData): string {
    Render(Source(), PieceText, d)
  }

  /** The URI the generated connector uses: `MONGODB_URI` when it is set
      to a non-empty string, else the local server with the project's
      name as the database. */
  function MongoUri(env: Env, projectName: string): (uri: string)
    ensures "MONGODB_URI" in env && env["MONGODB_URI"] != "" ==> uri == env["MONGODB_URI"]
    ensures "MONGODB_URI" !in env || env["MONGODB_URI"] == "" ==> uri == DefaultUriPrefix + projectName
  {
    Truthy(env, "MONGODB_URI").GetOr(DefaultUriPrefix + projectName)
  }

  /** The name is inserted verbatim: the file is a fixed text, then the
      default URI the connector falls back to, then another fixed text. */
  lemma DefaultUriInContent(d: TemplateData, env: Env)
    requires "MONGODB_URI" !in env
    ensures Content(d) == Render(Intro(), PieceText, d) + MongoUri(env, d.projectName) + Render(Outro(), PieceText, d)
  {
    RenderAppend(Intro(), Uri(), PieceText, d);
    RenderAppend(Intro() + Uri(), Outro(), PieceText, d);
    UriText(d);
  }

  lemma UriText(d: TemplateData)
    ensures Render(Uri(), PieceText, d) == DefaultUriPrefix + d.projectName
  {
    var u := Uri();
    assert RenderFrom(u, 1, PieceText, d) == d.projectName;
  }

  /** Neither the fixed texts nor the file's shape depend on any flag. */
  lemma NoFlagTested(f: Flag)
    ensures !Tests(Source(), f)
  {
    TestsAppend(Intro(), Uri(), f);
    TestsAppend(Intro() + Uri(), Outro(), f);
  }

  /** The file is the same for any two projects with the same name. */
  lemma ContentDependsOnlyOn(d1: TemplateData, d2: TemplateData)
    requires d1.projectName == d2.projectName
    ensures Content(d1) == Content(d2)
  {
    forall f ensures !Tests(Source(), f) {
      NoFlagTested(f);
    }
    RenderDependsOnlyOn(Source(), PieceText, d1, d2);
  }

  lemma SourceExports()
    ensures ExportsFrom(Source(), 0) == {"connectDatabase", "disconnectDatabase"}
  {
    ExportsFromAppend(Intro(), Uri(), 0);
    ExportsFromAppend(Intro() + Uri(), Outro(), 0);
    assert ExportsFrom(Intro(), 0) == {"connectDatabase"};
    assert ExportsFrom(Uri(), 0) == {};
    assert ExportsFrom(Outro(), 0) == {"disconnectDatabase"};
  }

  /** Every project's file exports `connectDatabase`, the name the server
      imports, and `disconnectDatabase`. */
  lemma ExportsAlways(d: TemplateData)
    ensures Exports(Source(), d) == {"connectDatabase", "disconnectDatabase"}
  {
    NoFlagTested(Database);
    assert AllLeaves(Source()) by {
      forall i | 0 <= i < |Source()| ensures Source()[i].IsLeaf() {
        assert Source()[i] in Intro() + Uri() + Outro();
      }
    }
    SelectLeaves(Source(), d);
    SourceExports();
  }
}
