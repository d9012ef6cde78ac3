# notsc core, modelled in Dafny

notsc is a command-line tool that scaffolds a Node.js/TypeScript API
project. This project models the pure core of the tool and proves
properties of it:

- **Configuration.** The project-name validator and its default, the
  `git` default, the confirm and list defaults, the configuration record,
  the install command per package manager, and the order of the creation
  steps. This is module `Generator` (`src/generator.ts`), using `Types`
  (`src/types.ts`) and the JavaScript string primitives in `JsString`.
- **Template data and the write loop.** Module `FileGenerator`
  (`src/fileGenerator.ts`) covers the projection of the configuration onto
  template data, and the loop that ensures each directory and then writes
  each file. That loop is modelled as a list of file-system operations and
  the map from path to content those operations leave behind. `Paths`
  models `path.join` and `path.dirname`.
- **The output file set.** Module `Templates` models `getTemplates`
  (`src/templates.ts`): 21 base paths, two more with `jest`, three more
  with `docker`. Each path is looked up under its separator-rewritten name
  and rendered into a JavaScript object in insertion order. The object is
  modelled as an association list.
- **Flag-gated template content.** Module `Nunjucks` is a small template
  syntax tree: text, the `{{ projectName }}` variable, import and export
  leaves, and `{% if flag %}…{% else %}…{% endif %}`. It has a total
  renderer with no escaping. `ServerTemplate`, `AppTemplate`,
  `RedisTemplate` and `DatabaseTemplate` transcribe the four templates as
  values of that tree.
- **Cross-file wiring.** `Wiring` resolves every relative import of the
  four transcribed templates to a file the generator emits. When the target
  is itself transcribed, the target exports the imported name. This holds
  in every configuration. Package imports (`express`, `mongoose`, `ioredis`
  and the like) are kept as literal text: they are not import leaves, so
  `Nunjucks.Imports` and every `Wiring` lemma range over relative imports
  only.
- **Written output.** `Output` joins the two: when the library renders
  the four transcribed paths with the transcribed templates, the file the
  write loop leaves at `src/server.ts` or `src/config/redis.ts` carries the
  facts proved about that template.
- **Failures.** `mkdirSync` may throw and `generateFiles` may reject, on a
  missing template or on a file-system call that rejects. Which call
  rejects, if any, is a parameter. `Generator.CreationSteps` stops at the
  step that threw and rethrows.
- **Response helpers.** `ApiResponse` models the body and the HTTP status
  built by the generated project's `successResponse` and `errorResponse`
  (`templates/src/utils/api-response.ts`).

Databases are a single Mongo variant in the code:

- `databaseType` is declared (`src/types.ts:4`) but never asked for or
  set (`src/generator.ts:132-141`), and is not passed to the templates
  (`src/fileGenerator.ts:8-16`);
- `src/config/database.ts`, the Mongo connector, is always emitted
  (`src/templates.ts:16`), whatever `database` says;
- no Prisma key is listed.

The model follows the code: `BuildConfig` sets `databaseType` to `None`,
and `ToTemplateData` leaves it `None`.

The template engine is a foreign library. It is replaced by a renderer
parameter: a `Library` maps each lookup name to a function from template
data to text. A lookup name missing from the library is the engine's
"template not found" error, which `getTemplates` lets escape. The model
returns it as a `Failure`.

## Model

| member | source | states |
|---|---|---|
| JsString.TrimStart | src/generator.ts:86 | the result is a suffix of the input with no leading white space, and everything dropped is white space |
| JsString.TrimEnd | src/generator.ts:86 | the result is a prefix of the input with no trailing white space, and everything dropped is white space |
| JsString.TrimEmpty | src/generator.ts:86 | `input.trim()` is empty exactly when every character is white space |
| JsString.ParseDecimal | templates/src/config/redis.ts:7 | `parseInt(s, 10)` of the decimal numeral of n gives back n |
| JsString.ParseNegativeDecimal | templates/src/config/redis.ts:11 | `parseInt` of a minus sign followed by the numeral of n gives -n |
| Nunjucks.RenderIsSelectedLeaves | src/templates.ts:45 | the rendered text is the concatenation of the leaves the flags select, in order |
| Nunjucks.RenderAppend | src/templates.ts:45 | rendering a concatenation of templates concatenates their renderings |
| Nunjucks.SelectAppend | src/templates.ts:45 | the leaves selected from a concatenation are those of each part, in order |
| Nunjucks.EmittedIffFlag | src/templates.ts:45 | a leaf that is emitted whenever a flag is set and cannot be emitted when it is clear is emitted exactly when the flag is set |
| Nunjucks.EmittedAlways | src/templates.ts:45 | a leaf emitted for both values of a flag is always emitted |
| Nunjucks.RenderDependsOnlyOn | src/templates.ts:6 | the text depends only on the flags the template tests, and on the project name only if it uses it |
| Nunjucks.SelectDependsOnlyOn | src/templates.ts:45 | the selected leaves depend only on the flags the template tests |
| Nunjucks.ExportsMeaning | src/templates.ts:45 | a name is exported exactly when some emitted export leaf binds it |
| Nunjucks.ImportsMeaning | src/templates.ts:45 | a (name, module) pair is imported exactly when some emitted import leaf asks for it |
| Nunjucks.PrecedesAcross | src/templates.ts:45 | an emitted leaf of an earlier part comes before an emitted leaf of a later part |
| Nunjucks.ImportsWithin | src/templates.ts:45 | when every import leaf of every branch is in an allowed set, so is every import emitted for any flags |
| Nunjucks.ImportsWithinAppend | src/templates.ts:45 | that all import leaves are allowed holds of a concatenation exactly when it holds of both parts |
| ServerTemplate.MongooseImportIffDatabase | templates/src/server.ts:4 | the `mongoose` import is emitted exactly when `database` is set |
| ServerTemplate.ConnectDatabaseImportIffDatabase | templates/src/server.ts:5 | the `connectDatabase` import is emitted exactly when `database` is set |
| ServerTemplate.ConnectRedisImportIffRedis | templates/src/server.ts:6 | the `connectRedis` import is emitted exactly when `redis` is set |
| ServerTemplate.AppAndLoggerAlwaysImported | templates/src/server.ts:3-7 | the app and logger imports are emitted in every configuration |
| ServerTemplate.ListenersIffDatabase | templates/src/server.ts:12-19 | the mongoose `open` and `error` listeners are emitted exactly when `database` is set |
| ServerTemplate.DatabaseCallIffDatabase | templates/src/server.ts:23 | the un-awaited `connectDatabase()` call is emitted exactly when `database` is set |
| ServerTemplate.RedisCallIffRedis | templates/src/server.ts:24 | `await connectRedis()` is emitted exactly when `redis` is set |
| ServerTemplate.DocsLogIffSwagger | templates/src/server.ts:27 | the API documentation log line is emitted exactly when `swagger` is set |
| ServerTemplate.StartupOrder | templates/src/server.ts:23-25 | each connector call comes before `server.listen`, and the database call before the cache call |
| ServerTemplate.StartupLogNamesProject | templates/src/server.ts:25-26 | the start-up log line contains the project name verbatim, unescaped |
| ServerTemplate.JestUntested | templates/src/server.ts:4-27 | the template never tests `jest` |
| ServerTemplate.DockerUntested | templates/src/server.ts:4-27 | the template never tests `docker` |
| ServerTemplate.ContentDependsOnlyOn | templates/src/server.ts:4-27 | two projects agreeing on name, `database`, `redis` and `swagger` get the same file, whatever their `jest`, `docker` and package manager |
| AppTemplate.SwaggerImportsIffSwagger | templates/src/app.ts:4-5 | the `swagger-jsdoc` and `swagger-ui-express` imports are emitted exactly when `swagger` is set |
| AppTemplate.OptionsIffSwagger | templates/src/app.ts:17-35 | the OpenAPI options are emitted exactly when `swagger` is set |
| AppTemplate.DocsMountIffSwagger | templates/src/app.ts:36 | the `/api-docs` mount is emitted exactly when `swagger` is set |
| AppTemplate.DocsTitle | templates/src/app.ts:17-37 | with `swagger` the block carries the title `<projectName> API` verbatim; without it the block renders to nothing |
| AppTemplate.Layout | templates/src/app.ts:1-43 | for any flags the file is the imports, the four middleware, the optional docs block, then the routes, error handler and export |
| AppTemplate.MiddlewareOrder | templates/src/app.ts:12-15 | helmet, cors, the JSON parser and the request logger are registered in that order in every configuration |
| AppTemplate.EndsWithRoutesAndErrorHandler | templates/src/app.ts:39-43 | every configuration ends by mounting routes at `/api`, then the error handler, then the default export |
| AppTemplate.DefaultExported | templates/src/app.ts:43 | the app is the module's default export in every configuration |
| AppTemplate.DatabaseUntested | templates/src/app.ts:1-43 | the template never tests `database` |
| AppTemplate.RedisUntested | templates/src/app.ts:1-43 | the template never tests `redis` |
| AppTemplate.ContentDependsOnlyOn | templates/src/app.ts:4-37 | the file depends only on `swagger` and the project name |
| RedisTemplate.Branches | templates/src/config/redis.ts:1-49 | with `redis` the file is the ioredis client branch, otherwise only the logging stub, each followed by a newline |
| RedisTemplate.BranchText | templates/src/config/redis.ts:1-49 | the text is the selected branch's rendering followed by a newline |
| RedisTemplate.ClientExports | templates/src/config/redis.ts:26-45 | the client branch exports `connectRedis`, `getRedisClient`, `disconnectRedis` and a default |
| RedisTemplate.StubExports | templates/src/config/redis.ts:46-48 | the stub exports `connectRedis` alone |
| RedisTemplate.ExportsByFlag | templates/src/config/redis.ts:26-48 | `getRedisClient`, `disconnectRedis` and the default export exist exactly when `redis` is set; `connectRedis` exists in both branches |
| RedisTemplate.ConnectRedisAlwaysExported | templates/src/config/redis.ts:26-48 | `connectRedis` is exported for every configuration |
| RedisTemplate.ContentDependsOnlyOn | templates/src/config/redis.ts:1-49 | two projects with the same `redis` flag get the same file |
| RedisTemplate.NameUnused | templates/src/config/redis.ts:1-49 | the template never interpolates the project name |
| RedisTemplate.Options | templates/src/config/redis.ts:4-12 | host falls back to `localhost` when `REDIS_HOST` is unset or empty; password is absent unless set; port is absent and `db` is 0 when their variables are unset or empty |
| RedisTemplate.OptionsReadNumbers | templates/src/config/redis.ts:6-11 | a decimal `REDIS_PORT` or `REDIS_DB` is read back as its value, a negative `REDIS_DB` with its sign |
| DatabaseTemplate.MongoUri | templates/src/config/database.ts:6-7 | the URI is `MONGODB_URI` when non-empty, else `mongodb://localhost:27017/` followed by the project name |
| DatabaseTemplate.UriText | templates/src/config/database.ts:7 | the default URI renders as the fixed prefix followed by the project name verbatim |
| DatabaseTemplate.DefaultUriInContent | templates/src/config/database.ts:1-21 | the file is a fixed text around the default URI of the project |
| DatabaseTemplate.NoFlagTested | templates/src/config/database.ts:1-21 | the template tests no flag |
| DatabaseTemplate.ContentDependsOnlyOn | templates/src/config/database.ts:1-21 | two projects with the same name get the same file |
| DatabaseTemplate.ExportsAlways | templates/src/config/database.ts:4-14 | the file exports exactly `connectDatabase` and `disconnectDatabase` in every configuration |
| Templates.FileIndex | src/templates.ts:11-41 | a path found in the list is found at an index holding that very path |
| Templates.IndexOf | src/templates.ts:11-41 | every listed path is found at its own index |
| Templates.FileAtInjective | src/templates.ts:11-41 | the 26 paths are pairwise distinct |
| Templates.TemplateFilesMembers | src/templates.ts:11-41 | a path is in the result list exactly when it is one of the known paths and its group is switched on |
| Templates.TemplateFilesDistinct | src/templates.ts:11-41 | no path is listed twice, and there are 21 + 2·jest + 3·docker of them |
| Templates.BaseFilesAlways | src/templates.ts:11-33 | the 21 base paths, `src/config/database.ts` and `src/config/redis.ts` among them, are listed for every configuration |
| Templates.JestFilesIffJest | src/templates.ts:35-37 | `jest.config.js` and `src/__tests__/health.test.ts` are listed exactly when `jest` is set |
| Templates.DockerFilesIffDocker | src/templates.ts:39-41 | `Dockerfile`, `.dockerignore` and `docker-compose.yml` are listed exactly when `docker` is set |
| Templates.TemplateFilesOnlyJestAndDocker | src/templates.ts:35-41 | `database`, `redis`, `swagger` and the package manager never change the listed paths |
| Templates.LookupNameSlash | src/templates.ts:44 | with `/` as separator the lookup name is the key itself |
| Templates.LookupNameInjective | src/templates.ts:44 | on keys without the separator, different keys have different lookup names |
| Templates.Get | src/templates.ts:45 | a key has a value exactly when it is among the record's keys |
| Templates.Put | src/templates.ts:45 | assignment sets the key, leaves other keys alone, and appends a new key at the end |
| Templates.RenderEach | src/templates.ts:43-46 | the loop succeeds exactly when every lookup name is in the library; otherwise it fails with the first missing lookup name in list order, every path before it having been found |
| Templates.RenderEachEntries | src/templates.ts:43-46 | on distinct paths the loop appends one entry per path, in list order |
| Templates.GetTemplates | src/templates.ts:8-49 | success exactly when every template is found, the result being one rendered entry per listed path; else the lookup name of the first listed path whose template is missing |
| Templates.FirstMissingReported | src/templates.ts:43-46 | the reported name is determined: for any listed path that is missing with every earlier path found, the error is that path's lookup name |
| Templates.EmptyLibraryReportsPackageJson | src/templates.ts:11-46 | with no templates at all, the error names `package.json`, the first listed path |
| Templates.TemplatesKeys | src/templates.ts:43-48 | the result's keys are the listed paths, with forward slashes, each once, 21 + 2·jest + 3·docker of them |
| Templates.TemplatesContent | src/templates.ts:43-48 | the value at a listed path is its template rendered with the data, and unlisted paths have none |
| Paths.Join | src/fileGenerator.ts:22 | the joined path starts with the project path |
| Paths.JoinInjective | src/fileGenerator.ts:22 | joining one base to two keys gives the same path only for equal keys |
| Paths.LastSlash | src/fileGenerator.ts:23 | the index found holds a slash and no later character is one; none is found only when there is no slash |
| Paths.DirnameOfJoin | src/fileGenerator.ts:22-23 | the directory ensured for a key is the project path, or the project path joined to the key's own directory |
| Generator.MatchesNamePatternMeaning | src/generator.ts:87 | `^[a-z0-9-]+$` matches exactly the non-empty strings of lowercase letters, digits and hyphens |
| Generator.ValidateName | src/generator.ts:85-91 | a rejection carries one of the two messages |
| Generator.ValidateNameAccepts | src/generator.ts:85-91 | the validator accepts exactly the non-empty names made of lowercase letters, digits and hyphens |
| Generator.ValidateNameBlank | src/generator.ts:86 | empty or all-white-space input, and only such input, gets 'Please enter a project name.' |
| Generator.ValidateNameBadChar | src/generator.ts:87-89 | non-blank input holding any character outside `[a-z0-9-]` gets the lowercase/hyphen message |
| Generator.PaddedNameRejected | src/generator.ts:87-89 | a valid name with leading or trailing white space is rejected, as the pattern sees the untrimmed input |
| Generator.DefaultName | src/generator.ts:84 | the offered default is the command-line name when that is non-empty, and `my-node-ts-api` when it is absent or empty |
| Generator.FallbackNameValid | src/generator.ts:84-91 | the fallback `my-node-ts-api` passes the validator |
| Generator.AnsweredName | src/generator.ts:84-91 | an accepted name passes the validator; a rejection carries one of its two messages |
| Generator.AnsweredNameFallback | src/generator.ts:84 | an empty answer with no name given on the command line yields `my-node-ts-api` |
| Generator.AnsweredNameTyped | src/generator.ts:84-91 | a typed answer is accepted exactly when it is valid, and is then the name |
| Generator.AnsweredNameDefault | src/generator.ts:84 | an empty answer takes the valid command-line name |
| Generator.AnsweredNameEmpty | src/generator.ts:84-91 | an empty answer stands for the offered default: it is accepted exactly when that default is valid, and an absent or empty command-line name gives `my-node-ts-api` |
| Generator.GitFlag | src/generator.ts:140 | `git` is false only when the option is explicitly false |
| Generator.ManagerNameRoundTrip | src/generator.ts:123-129 | the three choices and their names correspond one to one |
| Generator.InstallCommand | src/generator.ts:148-152 | the command is the manager's name followed by ` install` |
| Generator.InstallCommandInjective | src/generator.ts:148-152 | different managers run different install commands |
| Generator.BuildConfig | src/generator.ts:132-141 | the record copies the name, takes confirms left at their default as false, the package manager as npm by default, `databaseType` as absent, and `git` from the option |
| Generator.ResolveConfig | src/generator.ts:75-141 | a configuration is produced exactly when the name answer is accepted; it is then the record built from the answers under the answered name, which is the typed answer whenever one was typed |
| Generator.DefaultConfig | src/generator.ts:93-141 | all answers left at their defaults give `my-node-ts-api`, every feature off, npm, and git on |
| Generator.InstallIsNotGit | src/generator.ts:148-178 | no install command is a git command |
| Generator.GitStepsIffGit | src/generator.ts:46-61 | a git command is issued exactly when the files were generated and `git` is set, and then all three are issued in order after the install |
| Generator.InstallIffGenerated | src/generator.ts:46-55 | the install command is issued exactly when `mkdirSync` and `generateFiles` both completed |
| Generator.CreationSteps | src/generator.ts:46-72 | an error thrown by `mkdirSync` or `generateFiles` is rethrown, and only such an error |
| Generator.CreationOrder | src/generator.ts:46-61 | the directory is made, then the files written, then the install run, all in the project directory; a run that throws issues a prefix of these steps ending at the step that threw |
| FileGenerator.ToTemplateData | src/fileGenerator.ts:8-16 | the project name is the configured name; the feature flags and package manager are copied; no database type is passed |
| FileGenerator.ProjectionRoundTrip | src/fileGenerator.ts:8-16 | the projection loses exactly `git` and `databaseType` |
| FileGenerator.GitNeverRendered | src/fileGenerator.ts:8-18 | the rendered files do not depend on `git` or `databaseType` |
| FileGenerator.WrittenStep | src/fileGenerator.ts:26-29 | ensuring a directory and then writing a file changes the written content at that path alone |
| FileGenerator.WriteEntries | src/fileGenerator.ts:21-30 | for each entry in order, its directory is ensured and then its file written; a rejected call ends the loop after the calls before it; the files written are exactly the joined keys of the entries completed, each with its entry's content |
| FileGenerator.IssuedTemplates | src/fileGenerator.ts:18-30 | two operations per completed listed path, in list order |
| FileGenerator.WrittenTemplates | src/fileGenerator.ts:18-30 | the written files are exactly the listed paths joined to the project path, each holding its rendered template |
| FileGenerator.WrittenPrefix | src/fileGenerator.ts:18-30 | after the first entries, the written files are exactly those listed paths joined to the project path, each holding its rendered template |
| FileGenerator.WriteListed | src/fileGenerator.ts:21-30 | the loop resolves exactly when no call up to the last rejects; the calls that completed are a prefix of the per-path ensure-then-write sequence, and a path's file exists exactly when its write completed |
| FileGenerator.GenerateFiles | src/fileGenerator.ts:7-30 | a missing template rejects before any call; a rejected file-system call rejects after the calls before it; otherwise every listed path is written once, verbatim, right after its directory is ensured, and nothing else is written |
| Output.WrittenServer | src/fileGenerator.ts:18-29 | with the transcribed renderers, the file written at `src/server.ts` is the text of the leaves whose `connectRedis` import is there exactly with `redis` and whose `connectDatabase` import is there exactly with `database` |
| Output.WrittenRedis | src/fileGenerator.ts:18-29 | with the transcribed renderers, the file written at `src/config/redis.ts` is the client with `redis` and the stub without, and exports `connectRedis` either way |
| ApiResponse.SuccessResponse | templates/src/utils/api-response.ts:10-23 | the status is `success`; the code is both the body's and the HTTP status; data is unchanged; the message defaults to `success` when absent or empty |
| ApiResponse.ErrorResponse | templates/src/utils/api-response.ts:25-32 | the status is `error`; the code is both the body's and the HTTP status; the message is kept; there is no data |
| ApiResponse.HelpersWellFormed | templates/src/utils/api-response.ts:3-32 | both helpers build replies whose HTTP status is the body code and which carry a message |
| ApiResponse.SuccessRecoverable | templates/src/utils/api-response.ts:10-23 | a success reply determines its code, its data and any non-empty message |
| ApiResponse.ErrorRecoverable | templates/src/utils/api-response.ts:25-32 | an error reply determines its code and message |
| ApiResponse.SuccessIsNotError | templates/src/utils/api-response.ts:16-30 | no success reply equals an error reply |
| Wiring.Resolve | templates/src/server.ts:3-7 | a relative import that resolves lands on a file the generator emits |
| Wiring.ServerImportsBound | templates/src/server.ts:3-7 | for any flags the server's relative imports are among the app, the two connectors and the logger |
| Wiring.AppImportsBound | templates/src/app.ts:6-8 | for any flags the app's relative imports are among the routes, the error handler and the request logger |
| Wiring.AppImportSatisfied | templates/src/server.ts:3 | `import app from './app'` loads `src/app.ts`, which has a default export |
| Wiring.ConnectDatabaseImportSatisfied | templates/src/server.ts:5 | `./config/database` loads the always-emitted database module, which exports `connectDatabase` |
| Wiring.ConnectRedisImportSatisfied | templates/src/server.ts:6 | `./config/redis` loads the always-emitted cache module, which exports `connectRedis` with or without `redis` |
| Wiring.LoggerImportSatisfied | templates/src/server.ts:7 | the logger import resolves to the emitted `src/utils/logger.ts`, from `src` and from `src/config` |
| Wiring.RoutesResolves | templates/src/app.ts:6 | `./routes` is a directory import that loads `src/routes/index.ts` |
| Wiring.ServerWired | templates/src/server.ts:3-7 | every relative import the server emits, for any flags, loads an emitted file that exports the name when it is transcribed |
| Wiring.AppWired | templates/src/app.ts:6-8 | every relative import the app emits, for any flags, loads an emitted file |
| Wiring.ConfigWired | templates/src/config/redis.ts:2 | the only relative import of the cache and database modules is the logger, which is emitted |

## Left out

- Interactive prompting: the overwrite confirm and the removal of an
  existing directory (`src/generator.ts:26-42`), and all console output, are
  user interface and I/O. The prompt's answers are the `Answers` parameter.
  A rejected name is a `Failure` carrying the validator's message, where
  the real prompt asks again.
- `execSync` for the install and git commands, and the warnings printed
  when they fail (`src/generator.ts:144-183`), run external processes. The
  model keeps the commands and the directory they run in, as `Step` values.
- `path.resolve(process.cwd(), name)` (`src/generator.ts:24`) reads the
  process's working directory. It is a `cwd` parameter. Path normalisation
  of `.` and `..` segments is not modelled; the keys and valid names never
  contain them.
- The Commander command line and `process.exit` (`src/index.ts`) are
  plumbing.
- The Nunjucks engine itself: parsing, the file loader and `env.render`
  are a foreign library. They are replaced by the template syntax tree and
  by a `Library` of renderers keyed by lookup name. Only the four templates
  above are transcribed. The others are opaque renderers: package.json,
  tsconfig, the controllers, routes, middlewares, services, the logger,
  README and the Docker and Jest files. Their sources are not part of this
  model.
- The runtime behaviour of the generated code: Express, mongoose, ioredis,
  `process.exit`, timers and JSON serialisation. Two exceptions are
  modelled: the option values the cache client is built with, and the URI
  the database connector chooses.
- JsString.ParseDecimal: `parseInt` is modelled for white space, one sign
  and a run of decimal digits, which covers every numeral. Radix prefixes
  and other radices are not needed, because the source always passes 10.
  The value is an unbounded integer. JavaScript's `parseInt` returns a
  double, so a numeral above 2^53 does not read back exactly there
  (`parseInt("9007199254740993", 10)` is 9007199254740992); the model does
  not follow that rounding.
- ServerTemplate.MongooseImportIffDatabase: this and the other "iff" lemmas
  of the four templates speak of template leaves being emitted, not of
  substrings of the rendered text. A user-chosen project name could contain
  any text, so an absence statement about substrings would not hold.
- ServerTemplate.ConnectDatabaseImportIffDatabase: stated on emitted leaves, as above.
- ServerTemplate.ConnectRedisImportIffRedis: stated on emitted leaves, as above.
- ServerTemplate.ListenersIffDatabase: stated on emitted leaves, as above.
- ServerTemplate.DatabaseCallIffDatabase: stated on emitted leaves, as above.
- ServerTemplate.RedisCallIffRedis: stated on emitted leaves, as above.
- ServerTemplate.DocsLogIffSwagger: stated on emitted leaves, as above.
- AppTemplate.SwaggerImportsIffSwagger: stated on emitted leaves, as above.
- AppTemplate.OptionsIffSwagger: stated on emitted leaves, as above.
- AppTemplate.DocsMountIffSwagger: stated on emitted leaves, as above.
- Wiring.ServerWired: export sets are known only for the four transcribed
  files. For the other targets (the logger, the routes index and the two
  middlewares) the model shows only that the file is emitted, not which
  names it exports.
- Wiring.AppWired: its targets are all untranscribed files, so only their
  existence is shown.
- Wiring.ServerImportsBound: bounds the relative imports only. The server
  also imports `dotenv/config`, `http` and, with `database`, `mongoose`
  (`templates/src/server.ts:1-4`). These are package imports kept as
  literal text.
- Wiring.AppImportsBound: bounds the relative imports only. The app also
  imports `express`, `cors`, `helmet` and, with `swagger`, `swagger-jsdoc`
  and `swagger-ui-express` (`templates/src/app.ts:1-5`), kept as literal
  text.
- Wiring.ConfigWired: covers the relative logger import only. The cache
  module also imports `ioredis` with `redis`, and the database module
  imports `mongoose`
  (`templates/src/config/redis.ts:1`, `templates/src/config/database.ts:1`),
  kept as literal text.
- Generator.GitStepsIffGit: the three git commands are issued together.
  A failing `git init` or `git add` skips the commands after it and prints
  a warning (`src/generator.ts:172-182`). Command outcomes come from
  external processes and are not modelled; neither is a failing install,
  which is likewise caught (`src/generator.ts:154-168`).
- FileGenerator.GenerateFiles: a rejected `fs.writeFile` is taken to leave
  no file at its path. A partly written file is not modelled. Which call
  rejects is the `reject` parameter, not a model of the disk.
- Path semantics are POSIX: `Paths.Join` and `Paths.Dirname` use `/`.
  On Windows `path.join` writes backslashes, so `DirnameOfJoin`'s
  "project path, a slash, the key's directory" does not describe the path
  there. `Templates.LookupName` still takes the separator as a parameter,
  because the lookup name is all the template engine sees.
- Database variants: `databaseType` (`src/types.ts:4`) is never set, so
  `src/config/database-prisma.ts` and `prisma/seed.ts` are never emitted.
  They are not part of this model.
- The Jest test template: the source lists the key
  `src/__tests__/health.test.ts` (`src/templates.ts:36`), while the test
  template in the repository sits under `src/tests/`. The key listed in
  `src/templates.ts` is modelled. Whether the engine finds a template for
  it depends on the library. When it does not, `GetTemplates` returns that
  lookup name as a failure. The test's own assertions are not modelled.
- Integer widths: the response `code` is an unbounded integer. JavaScript
  numbers and HTTP status ranges are not modelled.
