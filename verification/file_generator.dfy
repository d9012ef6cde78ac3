/** `generateFiles`: the configuration projected onto template data, the
    templates rendered, and each entry written below the project path.
    The file system is modelled as the list of operations issued and the
    contents they leave behind. */
module FileGenerator {
  import opened Wrappers
  import opened Types
  import opened Paths
  import opened Templates

  /** The data every template sees: the configuration without `git`, and
      with no `databaseType`. */
  function ToTemplateData(config: ProjectConfig): (d: TemplateData)
    ensures d.projectName == config.name
    ensures d.database == config.database && d.swagger == config.swagger && d.redis == config.redis
    ensures d.jest == config.jest && d.docker == config.docker
    ensures d.packageManager == config.packageManager
    ensures d.databaseType == None
  {
    TemplateData(
      projectName := config.name,
      database := config.database,
      databaseType := None,
      swagger := config.swagger,
      redis := config.redis,
      jest := config.jest,
      docker := config.docker,
      packageManager := config.packageManager
    )
  }

  /** The configuration a template datum describes, given the `git` flag
      the projection dropped. */
  function FromTemplateData(d: TemplateData, git: bool): ProjectConfig {
    ProjectConfig(d.projectName, d.database, d.databaseType, d.swagger, d.redis,
                  d.jest, d.docker, d.packageManager, git)
  }

  /** The projection loses exactly `git` and `databaseType`: putting `git`
      back recovers the configuration up to `databaseType`, and any datum
      without a database type is the projection of some configuration. */
  lemma ProjectionRoundTrip(config: ProjectConfig, d: TemplateData, git: bool)
    ensures FromTemplateData(ToTemplateData(config), config.git) == config.(databaseType := None)
    ensures d.databaseType == None ==> ToTemplateData(FromTemplateData(d, git)) == d
  {
  }

  /** `git` cannot reach a template: two configurations that differ only
      in `git` (or in the `databaseType` the projection drops) render the
      same object. */
  lemma GitNeverRendered(config: ProjectConfig, git: bool, lib: Library, sep: char)
    ensures GetTemplates(ToTemplateData(config.(git := git)), lib, sep)
         == GetTemplates(ToTemplateData(config), lib, sep)
    ensures GetTemplates(ToTemplateData(config.(databaseType := None)), lib, sep)
         == GetTemplates(ToTemplateData(config), lib, sep)
  {
    assert ToTemplateData(config.(git := git)) == ToTemplateData(config);
    assert ToTemplateData(config.(databaseType := None)) == ToTemplateData(config);
  }

  /** One file-system call of the write loop. */
  datatype FsOp = EnsureDir(dir: string) | WriteFile(path: string, content: string)

  /** The files on disk after a run of operations: each write sets its
      path's content, a later write of the same path replacing it. */
  function Written(ops: seq<FsOp>): map<string, string>
    decreases |ops|
  {
    if ops == [] then map[]
    else
      var m := Written(ops[..|ops| - 1]);
      match ops[|ops| - 1]
      case EnsureDir(_) => m
      case WriteFile(p, c) => m[p := c]
  }

  /** Appending an `ensureDir` and a write changes only the written path. */
  lemma WrittenStep(ops: seq<FsOp>, dir: string, p: string, c: string)
    ensures Written(ops + [EnsureDir(dir), WriteFile(p, c)]) == Written(ops)[p := c]
  {
    var s := ops + [EnsureDir(dir), WriteFile(p, c)];
    assert s[..|s| - 1] == ops + [EnsureDir(dir)];
    assert (ops + [EnsureDir(dir)])[..|ops|] == ops;
  }

  /** Ensuring a directory writes no file. */
  lemma WrittenEnsureDir(ops: seq<FsOp>, dir: string)
    ensures Written(ops + [EnsureDir(dir)]) == Written(ops)
  {
    assert (ops + [EnsureDir(dir)])[..|ops|] == ops;
  }

  /** The two operations the loop issues for one entry. */
  function EntryOps(projectPath: string, entry: (string, string)): seq<FsOp> {
    var full := Join(projectPath, entry.0);
    [EnsureDir(Dirname(full)), WriteFile(full, entry.1)]
  }

  /** `ops` is what the loop has issued for the first `i` entries. */
  predicate IssuedFor(projectPath: string, entries: Record, i: nat, ops: seq<FsOp>)
    requires i <= |entries|
  {
    && |ops| == 2 * i
    && forall k :: 0 <= k < i ==> ops[2 * k..2 * k + 2] == EntryOps(projectPath, entries[k])
  }

  /** `files` holds the content of the first `i` entries, each at its
      joined path, and nothing else. */
  predicate HoldsFirst(projectPath: string, entries: Record, i: nat, files: map<string, string>)
    requires i <= |entries|
  {
    && (forall k :: 0 <= k < i ==>
          Join(projectPath, entries[k].0) in files && files[Join(projectPath, entries[k].0)] == entries[k].1)
    && (forall p :: p in files ==> exists k :: 0 <= k < i && p == Join(projectPath, entries[k].0))
  }

  /** Appending a pair to a sequence of pairs keeps the earlier pairs in
      place and puts the new one last. */
  lemma PairsAppend<T>(ops: seq<T>, e: seq<T>, i: nat)
    requires |ops| == 2 * i && |e| == 2
    ensures forall k :: 0 <= k < i ==> (ops + e)[2 * k..2 * k + 2] == ops[2 * k..2 * k + 2]
    ensures (ops + e)[2 * i..2 * i + 2] == e
  {
    forall k | 0 <= k < i
      ensures (ops + e)[2 * k..2 * k + 2] == ops[2 * k..2 * k + 2]
    {
      assert 2 * k + 2 <= |ops|;
    }
    assert (ops + e)[2 * i..] == e;
  }

  /** One turn of the loop extends the issued operations by the entry's
      two. */
  lemma IssuedStep(projectPath: string, entries: Record, i: nat, ops: seq<FsOp>)
    requires i < |entries|
    requires IssuedFor(projectPath, entries, i, ops)
    ensures IssuedFor(projectPath, entries, i + 1, ops + EntryOps(projectPath, entries[i]))
  {
    var e := EntryOps(projectPath, entries[i]);
    PairsAppend(ops, e, i);
    forall k | 0 <= k < i + 1
      ensures (ops + e)[2 * k..2 * k + 2] == EntryOps(projectPath, entries[k])
    {
      if k < i {
        assert ops[2 * k..2 * k + 2] == EntryOps(projectPath, entries[k]);
      }
    }
  }

  /** Writing the next entry's file keeps every earlier entry's file:
      because keys do not repeat, the write lands on a path no earlier entry
      uses. */
  lemma HoldsKept(projectPath: string, entries: Record, i: nat, m: map<string, string>)
    requires i < |entries| && Distinct(Keys(entries))
    requires HoldsFirst(projectPath, entries, i, m)
    ensures forall k :: 0 <= k < i + 1 ==>
              var pk := Join(projectPath, entries[k].0);
              pk in m[Join(projectPath, entries[i].0) := entries[i].1]
              && m[Join(projectPath, entries[i].0) := entries[i].1][pk] == entries[k].1
  {
    var full := Join(projectPath, entries[i].0);
    forall k | 0 <= k < i
      ensures Join(projectPath, entries[k].0) != full
    {
      assert Keys(entries)[k] == entries[k].0 && Keys(entries)[i] == entries[i].0;
      if Join(projectPath, entries[k].0) == full {
        JoinInjective(projectPath, entries[k].0, entries[i].0);
      }
    }
  }

  /** Writing the next entry's file adds no path other than that entry's. */
  lemma HoldsOnly(projectPath: string, entries: Record, i: nat, m: map<string, string>, m': map<string, string>)
    requires i < |entries|
    requires HoldsFirst(projectPath, entries, i, m)
    requires m' == m[Join(projectPath, entries[i].0) := entries[i].1]
    ensures forall p :: p in m' ==> exists k :: 0 <= k < i + 1 && p == Join(projectPath, entries[k].0)
  {
    forall p | p in m'
      ensures exists k :: 0 <= k < i + 1 && p == Join(projectPath, entries[k].0)
    {
      if p != Join(projectPath, entries[i].0) {
        var k :| 0 <= k < i && p == Join(projectPath, entries[k].0);
      }
    }
  }

  /** One turn of the loop adds the entry's file and nothing else. */
  lemma HoldsStep(projectPath: string, entries: Record, i: nat, ops: seq<FsOp>)
    requires i < |entries| && Distinct(Keys(entries))
    requires HoldsFirst(projectPath, entries, i, Written(ops))
    ensures HoldsFirst(projectPath, entries, i + 1, Written(ops + EntryOps(projectPath, entries[i])))
  {
    var full := Join(projectPath, entries[i].0);
    WrittenStep(ops, Dirname(full), full, entries[i].1);
    HoldsKept(projectPath, entries, i, Written(ops));
    HoldsOnly(projectPath, entries, i, Written(ops), Written(ops)[full := entries[i].1]);
  }

  /** The write loop over the rendered object: for each entry, in order,
      the directory of `join(projectPath, key)` is ensured and then the
      entry's content is written there. `reject` is the index of the first
      file-system call that rejects, if any: that call has no effect and
      its rejection ends the loop. `ops` are the calls that completed and
      `done` the number of entries whose file was written. */
  method WriteEntries(projectPath: string, entries: Record, reject: Option<nat>) returns (ops: seq<FsOp>, done: nat)
    requires Distinct(Keys(entries))
    ensures reject.Some? && reject.value < 2 * |entries| ==> |ops| == reject.value
    ensures reject.None? || reject.value >= 2 * |entries| ==> |ops| == 2 * |entries|
    ensures done <= |entries| && (|ops| == 2 * done || |ops| == 2 * done + 1)
    ensures IssuedFor(projectPath, entries, done, ops[..2 * done])
    ensures |ops| == 2 * done + 1 ==>
              done < |entries| && ops[2 * done] == EnsureDir(Dirname(Join(projectPath, entries[done].0)))
    ensures HoldsFirst(projectPath, entries, done, Written(ops))
  {
    ops := [];
    var i := 0;
    while i < |entries|
      invariant 0 <= i <= |entries|
      invariant IssuedFor(projectPath, entries, i, ops)
      invariant HoldsFirst(projectPath, entries, i, Written(ops))
      invariant reject.None? || reject.value >= 2 * i
    {
      if reject.Some? && reject.value == 2 * i {
        WholePrefix(ops);
        return ops, i;
      }
      if reject.Some? && reject.value == 2 * i + 1 {
        var dir := Dirname(Join(projectPath, entries[i].0));
        DirOnly(projectPath, entries, i, ops, dir);
        return ops + [EnsureDir(dir)], i;
      }
      assert reject.None? || reject.value >= 2 * (i + 1);
      IssuedStep(projectPath, entries, i, ops);
      HoldsStep(projectPath, entries, i, ops);
      ops := ops + EntryOps(projectPath, entries[i]);
      i := i + 1;
    }
    WholePrefix(ops);
    done := i;
  }

  lemma WholePrefix<T>(s: seq<T>)
    ensures s[..|s|] == s
  {
  }

  /** A run whose write rejects after the directory was ensured: the
      earlier entries are as they were, and no file is added. */
  lemma DirOnly(projectPath: string, entries: Record, i: nat, ops: seq<FsOp>, dir: string)
    requires i < |entries|
    requires IssuedFor(projectPath, entries, i, ops)
    requires HoldsFirst(projectPath, entries, i, Written(ops))
    ensures var ops' := ops + [EnsureDir(dir)];
      && IssuedFor(projectPath, entries, i, ops'[..2 * i])
      && ops'[2 * i] == EnsureDir(dir)
      && HoldsFirst(projectPath, entries, i, Written(ops'))
  {
    WrittenEnsureDir(ops, dir);
    assert (ops + [EnsureDir(dir)])[..2 * i] == ops;
  }

  /** The loop's operations over the rendered object, stated per listed
      path: for each of the first `done` paths its directory is ensured,
      then its template written. */
  lemma IssuedTemplates(projectPath: string, d: TemplateData, lib: Library, sep: char, ops: seq<FsOp>, done: nat)
    requires GetTemplates(d, lib, sep).Success?
    requires done <= |TemplateFiles(d)|
    requires IssuedFor(projectPath, GetTemplates(d, lib, sep).value, done, ops)
    ensures |ops| == 2 * done
    ensures forall k :: 0 <= k < done ==>
              && LookupName(TemplateFiles(d)[k], sep) in lib
              && ops[2 * k] == EnsureDir(Dirname(Join(projectPath, TemplateFiles(d)[k])))
              && ops[2 * k + 1] == WriteFile(Join(projectPath, TemplateFiles(d)[k]),
                                             lib[LookupName(TemplateFiles(d)[k], sep)](d))
  {
    var files := TemplateFiles(d);
    var entries := GetTemplates(d, lib, sep).value;
    forall k | 0 <= k < done
      ensures && LookupName(files[k], sep) in lib
              && ops[2 * k] == EnsureDir(Dirname(Join(projectPath, files[k])))
              && ops[2 * k + 1] == WriteFile(Join(projectPath, files[k]), lib[LookupName(files[k], sep)](d))
    {
      assert entries[k] == (files[k], lib[LookupName(files[k], sep)](d));
      assert ops[2 * k..2 * k + 2] == EntryOps(projectPath, entries[k]);
      assert ops[2 * k] == ops[2 * k..2 * k + 2][0];
      assert ops[2 * k + 1] == ops[2 * k..2 * k + 2][1];
    }
  }

  /** The files the loop leaves after writing the first `done` entries,
      stated per listed path: exactly those paths joined to the project
      path, each holding its rendered template. */
  lemma WrittenPrefix(projectPath: string, d: TemplateData, lib: Library, sep: char, files: map<string, string>, done: nat)
    requires GetTemplates(d, lib, sep).Success?
    requires done <= |TemplateFiles(d)|
    requires HoldsFirst(projectPath, GetTemplates(d, lib, sep).value, done, files)
    ensures forall p :: p in files <==> exists k :: 0 <= k < done && p == Join(projectPath, TemplateFiles(d)[k])
    ensures forall k :: 0 <= k < done ==>
              && LookupName(TemplateFiles(d)[k], sep) in lib
              && Join(projectPath, TemplateFiles(d)[k]) in files
              && files[Join(projectPath, TemplateFiles(d)[k])] == lib[LookupName(TemplateFiles(d)[k], sep)](d)
  {
    var list := TemplateFiles(d);
    var entries := GetTemplates(d, lib, sep).value;
    forall p | p in files
      ensures exists k :: 0 <= k < done && p == Join(projectPath, list[k])
    {
      var k :| 0 <= k < done && p == Join(projectPath, entries[k].0);
      assert entries[k].0 == list[k];
    }
    forall k | 0 <= k < done
      ensures && LookupName(list[k], sep) in lib
              && Join(projectPath, list[k]) in files
              && files[Join(projectPath, list[k])] == lib[LookupName(list[k], sep)](d)
    {
      assert entries[k] == (list[k], lib[LookupName(list[k], sep)](d));
    }
  }

  /** With every entry written, the files are exactly the listed paths
      joined to the project path, each holding its rendered template. */
  lemma WrittenTemplates(projectPath: string, d: TemplateData, lib: Library, sep: char, files: map<string, string>)
    requires GetTemplates(d, lib, sep).Success?
    requires HoldsFirst(projectPath, GetTemplates(d, lib, sep).value, |TemplateFiles(d)|, files)
    ensures forall p :: p in files <==> exists f :: f in TemplateFiles(d) && p == Join(projectPath, f)
    ensures forall f :: f in TemplateFiles(d) ==>
              && LookupName(f, sep) in lib
              && Join(projectPath, f) in files
              && files[Join(projectPath, f)] == lib[LookupName(f, sep)](d)
  {
    var list := TemplateFiles(d);
    WrittenPrefix(projectPath, d, lib, sep, files, |list|);
    forall p | p in files
      ensures exists f :: f in list && p == Join(projectPath, f)
    {
      var k :| 0 <= k < |list| && p == Join(projectPath, list[k]);
      assert list[k] in list;
    }
    forall f | f in list
      ensures && LookupName(f, sep) in lib
              && Join(projectPath, f) in files
              && files[Join(projectPath, f)] == lib[LookupName(f, sep)](d)
    {
      var k :| 0 <= k < |list| && list[k] == f;
    }
  }

  /** Why `generateFiles` rejects: the engine cannot find a template (the
      error escapes `getTemplates` before anything is written), or the
      file-system call with the given index rejects. */
  datatype GenerateError = TemplateNotFound(name: string) | FsRejected(call: nat)

  /** `generateFiles`: the operations that completed, and whether the
      promise resolves. A missing template rejects before any call. A
      rejected file-system call ends the loop, leaving the files of the
      entries before it. Otherwise every listed path is written exactly
      once, to `join(projectPath, key)`, with its rendered template, right
      after its directory is ensured, and nothing else is written. */
  method GenerateFiles(projectPath: string, config: ProjectConfig, lib: Library, sep: char, reject: Option<nat>)
    returns (ops: seq<FsOp>, r: Result<(), GenerateError>)
    ensures GetTemplates(ToTemplateData(config), lib, sep).Failure? ==>
              && ops == []
              && r == Failure(TemplateNotFound(GetTemplates(ToTemplateData(config), lib, sep).error))
    ensures GetTemplates(ToTemplateData(config), lib, sep).Success? ==>
              var n := 2 * |TemplateFiles(ToTemplateData(config))|;
              && (r.Success? <==> reject.None? || reject.value >= n)
              && (r.Success? ==> |ops| == n)
              && (r.Failure? ==> r.error == FsRejected(reject.value) && |ops| == reject.value)
    ensures var d := ToTemplateData(config);
            var files := TemplateFiles(d);
            forall k :: 0 <= k < |files| && 2 * k < |ops| ==>
              && LookupName(files[k], sep) in lib
              && ops[2 * k] == EnsureDir(Dirname(Join(projectPath, files[k])))
              && (2 * k + 1 < |ops| ==> ops[2 * k + 1] == WriteFile(Join(projectPath, files[k]), lib[LookupName(files[k], sep)](d)))
    ensures var d := ToTemplateData(config);
            var files := TemplateFiles(d);
            && (forall p :: p in Written(ops) <==>
                  exists k :: 0 <= k < |files| && 2 * k + 1 < |ops| && p == Join(projectPath, files[k]))
            && (forall k :: 0 <= k < |files| && 2 * k + 1 < |ops| ==>
                  && Join(projectPath, files[k]) in Written(ops)
                  && Written(ops)[Join(projectPath, files[k])] == lib[LookupName(files[k], sep)](d))
    ensures r.Success? ==>
              var d := ToTemplateData(config);
              && (forall p :: p in Written(ops) <==> exists f :: f in TemplateFiles(d) && p == Join(projectPath, f))
              && (forall f :: f in TemplateFiles(d) ==>
                    && LookupName(f, sep) in lib
                    && Join(projectPath, f) in Written(ops)
                    && Written(ops)[Join(projectPath, f)] == lib[LookupName(f, sep)](d))
  {
    var d := ToTemplateData(config);
    var templates := GetTemplates(d, lib, sep);
    if templates.Failure? {
      return [], Failure(TemplateNotFound(templates.error));
    }
    TemplatesKeys(d, lib, sep);
    ops, r := WriteListed(projectPath, TemplateFiles(d), d, lib, sep, templates.value, reject);
  }

  /** The loop of `generateFiles` over the object rendered for `files`,
      stated per listed path. */
  method WriteListed(projectPath: string, files: seq<string>, d: TemplateData, lib: Library, sep: char,
                     entries: Record, reject: Option<nat>)
    returns (ops: seq<FsOp>, r: Result<(), GenerateError>)
    requires AllFound(files, lib, sep) && entries == Entries(files, d, lib, sep) && Distinct(files)
    ensures r.Success? <==> reject.None? || reject.value >= 2 * |files|
    ensures r.Success? ==> |ops| == 2 * |files|
    ensures r.Failure? ==> r.error == FsRejected(reject.value) && |ops| == reject.value
    ensures forall k :: 0 <= k < |files| && 2 * k < |ops| ==>
              && LookupName(files[k], sep) in lib
              && ops[2 * k] == EnsureDir(Dirname(Join(projectPath, files[k])))
              && (2 * k + 1 < |ops| ==> ops[2 * k + 1] == WriteFile(Join(projectPath, files[k]), lib[LookupName(files[k], sep)](d)))
    ensures forall p :: p in Written(ops) <==>
              exists k :: 0 <= k < |files| && 2 * k + 1 < |ops| && p == Join(projectPath, files[k])
    ensures forall k :: 0 <= k < |files| && 2 * k + 1 < |ops| ==>
              && Join(projectPath, files[k]) in Written(ops)
              && Written(ops)[Join(projectPath, files[k])] == lib[LookupName(files[k], sep)](d)
    ensures r.Success? ==>
              && (forall p :: p in Written(ops) <==> exists f :: f in files && p == Join(projectPath, f))
              && (forall f :: f in files ==>
                    && LookupName(f, sep) in lib
                    && Join(projectPath, f) in Written(ops)
                    && Written(ops)[Join(projectPath, f)] == lib[LookupName(f, sep)](d))
  {
    var done;
    ops, done := WriteEntries(projectPath, entries, reject);
    IssuedCompleted(projectPath, files, d, lib, sep, entries, ops, done);
    WrittenCompleted(projectPath, files, d, lib, sep, entries, ops, done);
    if reject.Some? && reject.value < 2 * |files| {
      return ops, Failure(FsRejected(reject.value));
    }
    WrittenAll(projectPath, files, d, lib, sep, ops);
    r := Success(());
  }

  /** Once every write has completed, the per-index statement reads as one
      per listed path. */
  lemma WrittenAll(projectPath: string, files: seq<string>, d: TemplateData, lib: Library, sep: char, ops: seq<FsOp>)
    requires AllFound(files, lib, sep) && |ops| == 2 * |files|
    requires forall p :: p in Written(ops) <==>
               exists k :: 0 <= k < |files| && 2 * k + 1 < |ops| && p == Join(projectPath, files[k])
    requires forall k :: 0 <= k < |files| && 2 * k + 1 < |ops| ==>
               && Join(projectPath, files[k]) in Written(ops)
               && Written(ops)[Join(projectPath, files[k])] == lib[LookupName(files[k], sep)](d)
    ensures forall p :: p in Written(ops) <==> exists f :: f in files && p == Join(projectPath, f)
    ensures forall f :: f in files ==>
              && LookupName(f, sep) in lib
              && Join(projectPath, f) in Written(ops)
              && Written(ops)[Join(projectPath, f)] == lib[LookupName(f, sep)](d)
  {
    forall p | p in Written(ops)
      ensures exists f :: f in files && p == Join(projectPath, f)
    {
      var k :| 0 <= k < |files| && 2 * k + 1 < |ops| && p == Join(projectPath, files[k]);
      assert files[k] in files;
    }
    forall p | exists f :: f in files && p == Join(projectPath, f)
      ensures p in Written(ops)
    {
      var f :| f in files && p == Join(projectPath, f);
      var k :| 0 <= k < |files| && files[k] == f;
      assert 2 * k + 1 < |ops|;
    }
    forall f | f in files
      ensures && LookupName(f, sep) in lib
              && Join(projectPath, f) in Written(ops)
              && Written(ops)[Join(projectPath, f)] == lib[LookupName(f, sep)](d)
    {
      var k :| 0 <= k < |files| && files[k] == f;
      assert 2 * k + 1 < |ops|;
    }
  }

  /** The calls completed before a rejection, stated per listed path: a
      prefix of the full run, possibly ending with the directory of the
      entry whose write rejected. */
  lemma IssuedCompleted(projectPath: string, files: seq<string>, d: TemplateData, lib: Library, sep: char,
                        entries: Record, ops: seq<FsOp>, done: nat)
    requires AllFound(files, lib, sep) && entries == Entries(files, d, lib, sep)
    requires done <= |files| && (|ops| == 2 * done || |ops| == 2 * done + 1)
    requires IssuedFor(projectPath, entries, done, ops[..2 * done])
    requires |ops| == 2 * done + 1 ==>
               done < |files| && ops[2 * done] == EnsureDir(Dirname(Join(projectPath, entries[done].0)))
    ensures forall k :: 0 <= k < |files| && 2 * k < |ops| ==>
              && LookupName(files[k], sep) in lib
              && ops[2 * k] == EnsureDir(Dirname(Join(projectPath, files[k])))
              && (2 * k + 1 < |ops| ==> ops[2 * k + 1] == WriteFile(Join(projectPath, files[k]), lib[LookupName(files[k], sep)](d)))
  {
    forall k | 0 <= k < |files| && 2 * k < |ops|
      ensures && LookupName(files[k], sep) in lib
              && ops[2 * k] == EnsureDir(Dirname(Join(projectPath, files[k])))
              && (2 * k + 1 < |ops| ==> ops[2 * k + 1] == WriteFile(Join(projectPath, files[k]), lib[LookupName(files[k], sep)](d)))
    {
      assert entries[k] == (files[k], lib[LookupName(files[k], sep)](d));
      if k < done {
        var pair := ops[..2 * done][2 * k..2 * k + 2];
        assert pair == EntryOps(projectPath, entries[k]);
        assert ops[2 * k] == pair[0] && ops[2 * k + 1] == pair[1];
      }
    }
  }

  /** The files left by the calls that completed, stated per listed path:
      a path's file is there exactly when its write completed, and then it
      holds the rendered template. */
  lemma WrittenCompleted(projectPath: string, files: seq<string>, d: TemplateData, lib: Library, sep: char,
                         entries: Record, ops: seq<FsOp>, done: nat)
    requires AllFound(files, lib, sep) && entries == Entries(files, d, lib, sep)
    requires done <= |files| && (|ops| == 2 * done || |ops| == 2 * done + 1)
    requires HoldsFirst(projectPath, entries, done, Written(ops))
    ensures forall p :: p in Written(ops) <==>
              exists k :: 0 <= k < |files| && 2 * k + 1 < |ops| && p == Join(projectPath, files[k])
    ensures forall k :: 0 <= k < |files| && 2 * k + 1 < |ops| ==>
              && Join(projectPath, files[k]) in Written(ops)
              && Written(ops)[Join(projectPath, files[k])] == lib[LookupName(files[k], sep)](d)
  {
    forall p | p in Written(ops)
      ensures exists k :: 0 <= k < |files| && 2 * k + 1 < |ops| && p == Join(projectPath, files[k])
    {
      var k :| 0 <= k < done && p == Join(projectPath, entries[k].0);
      assert entries[k].0 == files[k];
    }
    forall k | 0 <= k < |files| && 2 * k + 1 < |ops|
      ensures && Join(projectPath, files[k]) in Written(ops)
              && Written(ops)[Join(projectPath, files[k])] == lib[LookupName(files[k], sep)](d)
    {
      assert k < done;
      assert entries[k] == (files[k], lib[LookupName(files[k], sep)](d));
    }
  }
}
