/** What ends up on disk for the transcribed templates: when the library
    holds the four transcribed renderers under their lookup names, the
    file the write loop leaves at each of their paths is that template
    rendered for the configuration, so the per-template facts carry over
    to the written text. */
module Output {
  import opened Types
  import opened Nunjucks
  import opened Templates
  import opened FileGenerator
  import ServerTemplate
  import AppTemplate
  import RedisTemplate
  import DatabaseTemplate

  /** Entries 2 to 5 of the path list are `src/app.ts`, `src/server.ts`,
      `src/config/database.ts` and `src/config/redis.ts`. */
  lemma TranscribedPaths()
    ensures FileAt(2) == "src/app.ts" && FileAt(3) == "src/server.ts"
    ensures FileAt(4) == "src/config/database.ts" && FileAt(5) == "src/config/redis.ts"
  {
  }

  /** The library renders the four transcribed paths with the transcribed
      templates. */
  ghost predicate Transcribed(lib: Library, sep: char) {
    && LookupName(FileAt(2), sep) in lib
    && LookupName(FileAt(3), sep) in lib
    && LookupName(FileAt(4), sep) in lib
    && LookupName(FileAt(5), sep) in lib
    && (forall d :: lib[LookupName(FileAt(2), sep)](d) == AppTemplate.Content(d))
    && (forall d :: lib[LookupName(FileAt(3), sep)](d) == ServerTemplate.Content(d))
    && (forall d :: lib[LookupName(FileAt(4), sep)](d) == DatabaseTemplate.Content(d))
    && (forall d :: lib[LookupName(FileAt(5), sep)](d) == RedisTemplate.Content(d))
  }

  /** A base path is listed in every configuration. */
  lemma BaseListed(i: nat, d: TemplateData)
    requires i < BaseCount
    ensures FileAt(i) in TemplateFiles(d)
  {
    IndexOf(i);
    TemplateFilesMembers(d, FileAt(i));
  }

  /** The file written at `src/server.ts` is the text of the server
      template's emitted leaves, which hold the `connectRedis` import
      exactly when `redis` is set and the `connectDatabase` import exactly
      when `database` is set. */
  lemma WrittenServer(projectPath: string, d: TemplateData, lib: Library, sep: char, files: map<string, string>)
    requires Transcribed(lib, sep) && GetTemplates(d, lib, sep).Success?
    requires HoldsFirst(projectPath, GetTemplates(d, lib, sep).value, |TemplateFiles(d)|, files)
    ensures Paths.Join(projectPath, FileAt(3)) in files
    ensures files[Paths.Join(projectPath, FileAt(3))]
         == RenderLeaves(Select(ServerTemplate.Source, d), ServerTemplate.PieceText, d)
    ensures ServerTemplate.ConnectRedisImport() in Select(ServerTemplate.Source, d) <==> d.redis
    ensures ServerTemplate.ConnectDatabaseImport() in Select(ServerTemplate.Source, d) <==> d.database
  {
    BaseListed(3, d);
    WrittenTemplates(projectPath, d, lib, sep, files);
    RenderIsSelectedLeaves(ServerTemplate.Source, ServerTemplate.PieceText, d);
    ServerTemplate.ConnectRedisImportIffRedis(d);
    ServerTemplate.ConnectDatabaseImportIffDatabase(d);
  }

  /** The file written at `src/config/redis.ts` is the client with `redis`
      and the stub without, followed by a newline; either way it exports
      `connectRedis`. */
  lemma WrittenRedis(projectPath: string, d: TemplateData, lib: Library, sep: char, files: map<string, string>)
    requires Transcribed(lib, sep) && GetTemplates(d, lib, sep).Success?
    requires HoldsFirst(projectPath, GetTemplates(d, lib, sep).value, |TemplateFiles(d)|, files)
    ensures Paths.Join(projectPath, FileAt(5)) in files
    ensures files[Paths.Join(projectPath, FileAt(5))]
         == Render(if d.redis then RedisTemplate.Client() else RedisTemplate.Stub(), RedisTemplate.PieceText, d) + "\n"
    ensures "connectRedis" in Exports(RedisTemplate.Source(), d)
  {
    BaseListed(5, d);
    WrittenTemplates(projectPath, d, lib, sep, files);
    RedisTemplate.BranchText(d);
    RedisTemplate.ConnectRedisAlwaysExported(d);
  }
}
