/** Configuration resolution and the creation sequence of `createProject`:
    the project-name validator and its default, the `git` option, the
    package-manager install commands, and the order of the steps that
    build a project. Prompting and process execution are outside the
    model; a prompt's answer is a parameter and a command is a step. */
module Generator {
  import opened Wrappers
  import opened Types
  import opened JsString
  import opened Paths

  /** The name offered when none is given on the command line. */
  const FallbackName := "my-node-ts-api"

  const EmptyNameMessage := "Please enter a project name."
  const NameCharsMessage := "Use only lowercase letters, numbers, and hyphens (e.g., my-api-project)"

  /** The character class `[a-z0-9-]`. */
  predicate IsNameChar(c: char) {
    ('a' <= c <= 'z') || ('0' <= c <= '9') || c == '-'
  }

  /** `/^[a-z0-9-]+$/.test(s)`: one character of the class, followed by
      either the end of the input or another match. */
  predicate MatchesNamePattern(s: string) {
    |s| > 0 && IsNameChar(s[0]) && (|s| == 1 || MatchesNamePattern(s[1..]))
  }

  /** The pattern accepts exactly the non-empty strings built from the
      class. */
  lemma {:induction false} MatchesNamePatternMeaning(s: string)
    ensures MatchesNamePattern(s) <==> |s| > 0 && forall i :: 0 <= i < |s| ==> IsNameChar(s[i])
    decreases |s|
  {
    if |s| > 1 {
      MatchesNamePatternMeaning(s[1..]);
      assert forall i :: 1 <= i < |s| ==> s[i] == s[1..][i - 1];
    }
  }

  /** What the validator returns: `true`, or the message to show. */
  datatype Verdict = Valid | Invalid(message: string)

  /** The prompt's `validate`: blank input first, then the pattern, which
      is tested on the input as typed, not on its trimmed form. */
  function ValidateName(input: string): (v: Verdict)
    ensures v.Invalid? ==> v.message in {EmptyNameMessage, NameCharsMessage}
  {
    if Trim(input) == "" then Invalid(EmptyNameMessage)
    else if !MatchesNamePattern(input) then Invalid(NameCharsMessage)
    else Valid
  }

  /** No white space is a name character. */
  lemma SpaceIsNotNameChar(c: char)
    requires IsSpace(c)
    ensures !IsNameChar(c)
  {
  }

  /** The validator accepts exactly the non-empty names made of lowercase
      letters, digits and hyphens. */
  lemma ValidateNameAccepts(input: string)
    ensures ValidateName(input) == Valid
      <==> |input| > 0 && forall i :: 0 <= i < |input| ==> IsNameChar(input[i])
  {
    MatchesNamePatternMeaning(input);
    TrimEmpty(input);
    if |input| > 0 && forall i :: 0 <= i < |input| ==> IsNameChar(input[i]) {
      assert !IsSpace(input[0]);
    }
  }

  /** Empty or all-white-space input gets the "enter a name" message, and
      only such input does. */
  lemma ValidateNameBlank(input: string)
    ensures ValidateName(input) == Invalid(EmptyNameMessage)
      <==> forall i :: 0 <= i < |input| ==> IsSpace(input[i])
  {
    TrimEmpty(input);
  }

  /** Input that is not blank but holds some character outside the class
      gets the character-set message. */
  lemma ValidateNameBadChar(input: string, i: nat, j: nat)
    requires i < |input| && !IsNameChar(input[i])
    requires j < |input| && !IsSpace(input[j])
    ensures ValidateName(input) == Invalid(NameCharsMessage)
  {
    TrimEmpty(input);
    MatchesNamePatternMeaning(input);
  }

  /** A valid name with white space around it is rejected, because the
      pattern sees the untrimmed input. */
  lemma PaddedNameRejected(name: string, pad: string)
    requires ValidateName(name) == Valid
    requires pad != [] && forall i :: 0 <= i < |pad| ==> IsSpace(pad[i])
    ensures ValidateName(pad + name) == Invalid(NameCharsMessage)
    ensures ValidateName(name + pad) == Invalid(NameCharsMessage)
  {
    ValidateNameAccepts(name);
    SpaceIsNotNameChar(pad[0]);
    assert !IsSpace(name[0]);
    assert (pad + name)[0] == pad[0] && (pad + name)[|pad|] == name[0];
    assert (name + pad)[|name|] == pad[0] && (name + pad)[0] == name[0];
    ValidateNameBadChar(pad + name, 0, |pad|);
    ValidateNameBadChar(name + pad, |name|, 0);
  }

  /** The prompt's default: the command-line name when it is truthy, the
      fallback otherwise. */
  function DefaultName(projectName: Option<string>): (r: string)
    ensures r != ""
    ensures projectName.Some? && projectName.value != "" ==> r == projectName.value
    ensures projectName == None || projectName == Some("") ==> r == FallbackName
  {
    if projectName.Some? && projectName.value != "" then projectName.value else FallbackName
  }

  lemma FallbackNameChars()
    ensures |FallbackName| > 0 && forall i :: 0 <= i < |FallbackName| ==> IsNameChar(FallbackName[i])
  {
  }

  /** The fallback name passes the validator. */
  lemma FallbackNameValid()
    ensures ValidateName(FallbackName) == Valid
  {
    FallbackNameChars();
    ValidateNameAccepts(FallbackName);
  }

  /** The name an answer stands for: an empty answer takes the default, as
      the input prompt does, and the result must pass the validator; a
      rejected answer yields the message the prompt shows before asking
      again. */
  function AnsweredName(typed: string, projectName: Option<string>): (r: Result<string, string>)
    ensures r.Success? ==> ValidateName(r.value) == Valid
    ensures r.Failure? ==> r.error in {EmptyNameMessage, NameCharsMessage}
  {
    var name := if typed == "" then DefaultName(projectName) else typed;
    match ValidateName(name)
    case Valid => Success(name)
    case Invalid(message) => Failure(message)
  }

  /** With no name on the command line and an empty answer, the project is
      called `my-node-ts-api`. */
  lemma AnsweredNameFallback()
    ensures AnsweredName("", None) == Success(FallbackName)
  {
    FallbackNameValid();
  }

  /** A typed answer is used as typed: it succeeds exactly when the
      validator accepts it. */
  lemma AnsweredNameTyped(typed: string, projectName: Option<string>)
    requires typed != ""
    ensures AnsweredName(typed, projectName).Success? <==> ValidateName(typed) == Valid
    ensures AnsweredName(typed, projectName).Success? ==> AnsweredName(typed, projectName).value == typed
  {
  }

  /** An empty answer stands for the offered default: it is accepted
      exactly when that default passes the validator, and is then the name.
      An empty or absent command-line name offers `my-node-ts-api`. */
  lemma AnsweredNameEmpty(projectName: Option<string>)
    ensures AnsweredName("", projectName).Success? <==> ValidateName(DefaultName(projectName)) == Valid
    ensures AnsweredName("", projectName).Success? ==> AnsweredName("", projectName).value == DefaultName(projectName)
    ensures projectName == None || projectName == Some("") ==> AnsweredName("", projectName) == Success(FallbackName)
  {
    FallbackNameValid();
  }

  /** An empty answer takes a valid command-line name as it is. */
  lemma AnsweredNameDefault(projectName: string)
    requires ValidateName(projectName) == Valid
    ensures AnsweredName("", Some(projectName)) == Success(projectName)
  {
  }

  /** `options.git !== false`: only an explicit `false` turns git off. */
  function GitFlag(git: Option<bool>): (r: bool)
    ensures r <==> git != Some(false)
  {
    match git
    case None => true
    case Some(b) => b
  }

  /** The text of each package-manager choice. */
  function ManagerName(pm: PackageManager): string {
    match pm
    case Npm => "npm"
    case Yarn => "yarn"
    case Pnpm => "pnpm"
  }

  /** The choice a text names, if it is one of the three. */
  function ParseManager(s: string): (r: Option<PackageManager>) {
    if s == "npm" then Some(Npm)
    else if s == "yarn" then Some(Yarn)
    else if s == "pnpm" then Some(Pnpm)
    else None
  }

  /** The choice names and the choices correspond one to one. */
  lemma ManagerNameRoundTrip(pm: PackageManager, s: string)
    ensures ParseManager(ManagerName(pm)) == Some(pm)
    ensures ParseManager(s) == Some(pm) ==> ManagerName(pm) == s
  {
  }

  /** The install command for each manager: its name followed by
      ` install`. */
  function InstallCommand(pm: PackageManager): (cmd: string)
    ensures cmd == ManagerName(pm) + " install"
  {
    match pm
    case Npm => "npm install"
    case Yarn => "yarn install"
    case Pnpm => "pnpm install"
  }

  /** Different managers never share a command. */
  lemma InstallCommandInjective(a: PackageManager, b: PackageManager)
    requires InstallCommand(a) == InstallCommand(b)
    ensures a == b
  {
    ManagerNameRoundTrip(a, "");
    ManagerNameRoundTrip(b, "");
    assert ManagerName(a) == InstallCommand(a)[..|InstallCommand(a)| - 8];
    assert ManagerName(b) == InstallCommand(b)[..|InstallCommand(b)| - 8];
  }

  /** The answers of the prompt sequence. A confirm or list left at its
      default is `None`. */
  datatype Answers = Answers(
    name: string,
    database: Option<bool>,
    swagger: Option<bool>,
    redis: Option<bool>,
    jest: Option<bool>,
    docker: Option<bool>,
    packageManager: Option<PackageManager>
  )

  /** The record built at the end of `getProjectConfig`: every confirm
      defaults to no, the package manager to npm, `git` follows the
      option, and `databaseType` is never filled in. */
  function BuildConfig(name: string, answers: Answers, git: Option<bool>): (c: ProjectConfig)
    ensures c.name == name
    ensures c.database == (answers.database == Some(true))
    ensures c.swagger == (answers.swagger == Some(true))
    ensures c.redis == (answers.redis == Some(true))
    ensures c.jest == (answers.jest == Some(true))
    ensures c.docker == (answers.docker == Some(true))
    ensures c.packageManager == answers.packageManager.GetOr(Npm)
    ensures c.databaseType == None
    ensures c.git <==> git != Some(false)
  {
    ProjectConfig(
      name := name,
      database := answers.database.GetOr(false),
      databaseType := None,
      swagger := answers.swagger.GetOr(false),
      redis := answers.redis.GetOr(false),
      jest := answers.jest.GetOr(false),
      docker := answers.docker.GetOr(false),
      packageManager := answers.packageManager.GetOr(Npm),
      git := GitFlag(git)
    )
  }

  /** `getProjectConfig`: the configuration, or the validator's message
      when the name is rejected. */
  function ResolveConfig(answers: Answers, projectName: Option<string>, git: Option<bool>): (r: Result<ProjectConfig, string>)
    ensures r.Success? <==> AnsweredName(answers.name, projectName).Success?
    ensures r.Success? ==> ValidateName(r.value.name) == Valid
    ensures r.Success? ==> r.value == BuildConfig(AnsweredName(answers.name, projectName).value, answers, git)
    ensures r.Success? && answers.name != "" ==> r.value.name == answers.name
    ensures r.Failure? ==> r.error in {EmptyNameMessage, NameCharsMessage}
  {
    match AnsweredName(answers.name, projectName)
    case Failure(message) => Failure(message)
    case Success(name) => Success(BuildConfig(name, answers, git))
  }

  /** Accepting every default gives the plain project: all features off,
      npm, and git on. */
  lemma DefaultConfig()
    ensures ResolveConfig(Answers("", None, None, None, None, None, None), None, None)
      == Success(ProjectConfig(FallbackName, false, None, false, false, false, false, Npm, true))
  {
    AnsweredNameFallback();
  }

  /** One effect of `createProject` after the configuration is known. */
  datatype Step =
    | MakeDirectory(path: string)
    | GenerateFiles(path: string)
    | Run(command: string, cwd: string)

  const GitInit := "git init"
  const GitAdd := "git add ."
  const GitCommit := "git commit -m \"Initial commit\""

  /** The project directory: the name resolved against the working
      directory. A valid name holds no slash, so this is a plain join. */
  function ProjectPath(cwd: string, name: string): string {
    Join(cwd, name)
  }

  /** `initializeGit`: the three git commands, in the project directory. */
  function GitSteps(path: string): (steps: seq<Step>)
    ensures |steps| == 3
  {
    [Run(GitInit, path), Run(GitAdd, path), Run(GitCommit, path)]
  }

  /** How far the `try` block of `createProject` gets: `mkdirSync` may
      throw, and `generateFiles` may reject (a template the engine cannot
      find, or a failed file-system call, see `FileGenerator.GenerateFiles`).
      Install and git failures are caught inside their own functions and
      never reach this block. */
  datatype Progress = MkdirFailed | GenerateFailed | Generated

  /** The steps issued, and whether the error is rethrown to the caller. */
  datatype Creation = Creation(steps: seq<Step>, rethrown: bool)

  /** The steps of `createProject` once the directory is free: create it,
      write the files, install, and initialise git only when `git` is set.
      A throw inside the `try` ends the run there and is rethrown. */
  function CreationSteps(config: ProjectConfig, cwd: string, progress: Progress): (c: Creation)
    ensures c.rethrown <==> progress != Generated
  {
    var path := ProjectPath(cwd, config.name);
    match progress
    case MkdirFailed => Creation([MakeDirectory(path)], true)
    case GenerateFailed => Creation([MakeDirectory(path), GenerateFiles(path)], true)
    case Generated =>
      Creation([MakeDirectory(path), GenerateFiles(path), Run(InstallCommand(config.packageManager), path)]
               + (if config.git then GitSteps(path) else []), false)
  }

  /** No install command is a git command. */
  lemma InstallIsNotGit(pm: PackageManager)
    ensures InstallCommand(pm) !in {GitInit, GitAdd, GitCommit}
  {
  }

  /** Whether some step runs a command of the given set. */
  predicate RunsOneOf(steps: seq<Step>, commands: set<string>) {
    exists i :: 0 <= i < |steps| && steps[i].Run? && steps[i].command in commands
  }

  /** A git command is issued exactly when the files were generated and
      `git` is set, and then all three are issued, in order, after the
      install. */
  lemma GitStepsIffGit(config: ProjectConfig, cwd: string, progress: Progress)
    ensures RunsOneOf(CreationSteps(config, cwd, progress).steps, {GitInit, GitAdd, GitCommit})
            <==> progress == Generated && config.git
    ensures progress == Generated && config.git
            ==> CreationSteps(config, cwd, progress).steps[3..] == GitSteps(ProjectPath(cwd, config.name))
  {
    var steps := CreationSteps(config, cwd, progress).steps;
    InstallIsNotGit(config.packageManager);
    if progress == Generated && config.git {
      assert steps[3].Run? && steps[3].command == GitInit;
    }
  }

  /** The install command is issued exactly when the files were
      generated. */
  lemma InstallIffGenerated(config: ProjectConfig, cwd: string, progress: Progress)
    ensures RunsOneOf(CreationSteps(config, cwd, progress).steps, {InstallCommand(config.packageManager)})
            <==> progress == Generated
  {
    var steps := CreationSteps(config, cwd, progress).steps;
    if progress == Generated {
      assert steps[2].Run? && steps[2].command == InstallCommand(config.packageManager);
    }
  }

  /** Every step acts on the project directory; the directory is made
      before the files are written, and the files exist before the
      install runs. A run that throws issues a prefix of these steps,
      ending at the step that threw. */
  lemma CreationOrder(config: ProjectConfig, cwd: string, progress: Progress)
    ensures var full := CreationSteps(config, cwd, Generated).steps;
      var path := ProjectPath(cwd, config.name);
      && |full| >= 3
      && full[0] == MakeDirectory(path)
      && full[1] == GenerateFiles(path)
      && full[2] == Run(InstallCommand(config.packageManager), path)
      && forall i :: 0 <= i < |full| ==>
           (full[i].Run? ==> full[i].cwd == path) && (!full[i].Run? ==> full[i].path == path)
    ensures var steps := CreationSteps(config, cwd, progress).steps;
      && steps <= CreationSteps(config, cwd, Generated).steps
      && (progress == MkdirFailed ==> |steps| == 1)
      && (progress == GenerateFailed ==> |steps| == 2)
  {
  }
}
