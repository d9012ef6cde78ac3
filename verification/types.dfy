/** The two records the generator passes around: the resolved project
    configuration and the data handed to the template renderer. */
module Types {
  import opened Wrappers

  /** The three package managers the prompt offers. */
  datatype PackageManager = Npm | Yarn | Pnpm

  /** The database variants the configuration type admits. The generator
      never fills this field in, so it is always `None` in practice. */
  datatype DatabaseType = MongoDB | PostgresPrisma

  datatype ProjectConfig = ProjectConfig(
    name: string,
    database: bool,
    databaseType: Option<DatabaseType>,
    swagger: bool,
    redis: bool,
    jest: bool,
    docker: bool,
    packageManager: PackageManager,
    git: bool
  )

  /** What every template is rendered against. It has no `git` field. */
  datatype TemplateData = TemplateData(
    projectName: string,
    database: bool,
    databaseType: Option<DatabaseType>,
    swagger: bool,
    redis: bool,
    jest: bool,
    docker: bool,
    packageManager: PackageManager
  )
}
