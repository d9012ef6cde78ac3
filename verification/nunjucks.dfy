/** A tiny model of the template language the generator renders with:
    literal text, the `{{ projectName }}` interpolation and
    `{% if flag %}…{% else %}…{% endif %}` blocks. Rendering performs no
    escaping, so the project name is inserted exactly as given.

    A template is generic in its vocabulary `P` of fixed text pieces: each
    template file names its pieces with an enumeration and supplies the
    verbatim text of each piece to `Render`. Named imports and exported
    declarations are leaves of their own so that the wiring between
    generated files can be stated; they render to exactly the source text
    they stand for.

    Every walk over a template is written over a position `i` in the
    sequence (the `…From` functions), which keeps evaluation of the
    concrete templates cheap for the verifier. */
module Nunjucks {
  import opened Types

  /** The boolean switches a template may test. */
  datatype Flag = Database | Swagger | Redis | Jest | Docker

  function FlagValue(d: TemplateData, f: Flag): bool {
    match f
    case Database => d.database
    case Swagger => d.swagger
    case Redis => d.redis
    case Jest => d.jest
    case Docker => d.docker
  }

  datatype Node<P> =
    | Text(piece: P)
      /** `{{ projectName }}` */
    | ProjectName
      /** `import { binding } from 'from';` and a newline */
    | Import(binding: string, from: string)
      /** `import binding from 'from';` and a newline */
    | ImportDefault(binding: string, from: string)
      /** `export const binding`; the declaration continues in the next leaves */
    | ExportConst(binding: string)
      /** `export default `; the exported expression follows */
    | ExportDefault
      /** `{% if flag %}thenPart{% else %}elsePart{% endif %}` */
    | If(flag: Flag, thenPart: seq<Node<P>>, elsePart: seq<Node<P>>)
  {
    predicate IsLeaf() {
      !If?
    }

    predicate IsExport() {
      ExportConst? || ExportDefault?
    }

    predicate IsImport() {
      Import? || ImportDefault?
    }
  }

  type Template<P> = seq<Node<P>>

  predicate AllLeaves<P>(s: seq<Node<P>>) {
    forall i :: 0 <= i < |s| ==> s[i].IsLeaf()
  }

  function RenderLeaf<P>(n: Node<P>, text: P -> string, d: TemplateData): string
    requires n.IsLeaf()
  {
    match n
    case Text(p) => text(p)
    case ProjectName => d.projectName
    case Import(b, m) => "import { " + b + " } from '" + m + "';\n"
    case ImportDefault(b, m) => "import " + b + " from '" + m + "';\n"
    case ExportConst(b) => "export const " + b
    case ExportDefault => "export default "
  }

  /** The text produced from position `i` on. */
  function RenderFrom<P>(t: Template<P>, i: nat, text: P -> string, d: TemplateData): string
    decreases t, |t| - i
  {
    if i >= |t| then ""
    else
      (match t[i]
       case If(f, a, b) => if FlagValue(d, f) then RenderFrom(a, 0, text, d) else RenderFrom(b, 0, text, d)
       case _ => RenderLeaf(t[i], text, d))
      + RenderFrom(t, i + 1, text, d)
  }

  /** The text a template produces for `d`. */
  function Render<P>(t: Template<P>, text: P -> string, d: TemplateData): string {
    RenderFrom(t, 0, text, d)
  }

  /** The leaves emitted from position `i` on: every conditional replaced
      by the branch its flag selects. */
  function SelectFrom<P>(t: Template<P>, i: nat, d: TemplateData): (leaves: seq<Node<P>>)
    ensures AllLeaves(leaves)
    decreases t, |t| - i
  {
    if i >= |t| then []
    else
      (match t[i]
       case If(f, a, b) => if FlagValue(d, f) then SelectFrom(a, 0, d) else SelectFrom(b, 0, d)
       case _ => [t[i]])
      + SelectFrom(t, i + 1, d)
  }

  /** The leaves a template emits for `d`, in order. */
  function Select<P>(t: Template<P>, d: TemplateData): (leaves: seq<Node<P>>)
    ensures AllLeaves(leaves)
  {
    SelectFrom(t, 0, d)
  }

  /** The text of a sequence of leaves laid end to end. */
  function RenderLeaves<P>(leaves: seq<Node<P>>, text: P -> string, d: TemplateData): string
    requires AllLeaves(leaves)
  {
    if leaves == [] then "" else RenderLeaf(leaves[0], text, d) + RenderLeaves(leaves[1..], text, d)
  }

  /** Whether some conditional from position `i` on tests flag `f`. */
  predicate TestsFrom<P>(t: Template<P>, i: nat, f: Flag)
    decreases t, |t| - i
  {
    if i >= |t| then false
    else
      (match t[i]
       case If(g, a, b) => g == f || TestsFrom(a, 0, f) || TestsFrom(b, 0, f)
       case _ => false)
      || TestsFrom(t, i + 1, f)
  }

  predicate Tests<P>(t: Template<P>, f: Flag) {
    TestsFrom(t, 0, f)
  }

  /** Whether `{{ projectName }}` occurs from position `i` on. */
  predicate UsesNameFrom<P>(t: Template<P>, i: nat)
    decreases t, |t| - i
  {
    if i >= |t| then false
    else
      (match t[i]
       case If(_, a, b) => UsesNameFrom(a, 0) || UsesNameFrom(b, 0)
       case ProjectName => true
       case _ => false)
      || UsesNameFrom(t, i + 1)
  }

  predicate UsesName<P>(t: Template<P>) {
    UsesNameFrom(t, 0)
  }

  /** Whether leaf `n` can be emitted from position `i` on when flag `f`
      has value `v`, whatever the other flags are. */
  predicate MayEmitFrom<P(==)>(t: Template<P>, i: nat, n: Node<P>, f: Flag, v: bool)
    decreases t, |t| - i
  {
    if i >= |t| then false
    else
      (match t[i]
       case If(g, a, b) =>
         if g == f then (if v then MayEmitFrom(a, 0, n, f, v) else MayEmitFrom(b, 0, n, f, v))
         else MayEmitFrom(a, 0, n, f, v) || MayEmitFrom(b, 0, n, f, v)
       case _ => t[i] == n)
      || MayEmitFrom(t, i + 1, n, f, v)
  }

  predicate MayEmit<P(==)>(t: Template<P>, n: Node<P>, f: Flag, v: bool) {
    MayEmitFrom(t, 0, n, f, v)
  }

  /** Whether leaf `n` is emitted from position `i` on whenever flag `f`
      has value `v`, whatever the other flags are. */
  predicate MustEmitFrom<P(==)>(t: Template<P>, i: nat, n: Node<P>, f: Flag, v: bool)
    decreases t, |t| - i
  {
    if i >= |t| then false
    else
      (match t[i]
       case If(g, a, b) =>
         if g == f then (if v then MustEmitFrom(a, 0, n, f, v) else MustEmitFrom(b, 0, n, f, v))
         else MustEmitFrom(a, 0, n, f, v) && MustEmitFrom(b, 0, n, f, v)
       case _ => t[i] == n)
      || MustEmitFrom(t, i + 1, n, f, v)
  }

  predicate MustEmit<P(==)>(t: Template<P>, n: Node<P>, f: Flag, v: bool) {
    MustEmitFrom(t, 0, n, f, v)
  }

  /** The name an export leaf binds; `export default` binds `default`. */
  function ExportedName<P>(n: Node<P>): string
    requires n.IsExport()
  {
    if n.ExportConst? then n.binding else "default"
  }

  /** The name an import leaf asks its module for; a default import asks
      for `default`. */
  function ImportedName<P>(n: Node<P>): string
    requires n.IsImport()
  {
    if n.Import? then n.binding else "default"
  }

  /** The names bound by the export leaves of `leaves[i..]`. */
  function ExportsFrom<P>(leaves: seq<Node<P>>, i: nat): set<string>
    decreases |leaves| - i
  {
    if i >= |leaves| then {}
    else (if leaves[i].IsExport() then {ExportedName(leaves[i])} else {}) + ExportsFrom(leaves, i + 1)
  }

  /** The names a rendered template exports. */
  function Exports<P>(t: Template<P>, d: TemplateData): set<string> {
    ExportsFrom(Select(t, d), 0)
  }

  /** The (name, module) pairs asked for by the import leaves of `leaves[i..]`. */
  function ImportsFrom<P>(leaves: seq<Node<P>>, i: nat): set<(string, string)>
    decreases |leaves| - i
  {
    if i >= |leaves| then {}
    else (if leaves[i].IsImport() then {(ImportedName(leaves[i]), leaves[i].from)} else {}) + ImportsFrom(leaves, i + 1)
  }

  /** The imports a rendered template performs, as (exported name, module) pairs. */
  function Imports<P>(t: Template<P>, d: TemplateData): set<(string, string)> {
    ImportsFrom(Select(t, d), 0)
  }

  /** Whether every import leaf from position `i` on, in either branch of
      every conditional, asks for a pair in `allowed`. */
  predicate ImportsWithinFrom<P>(t: Template<P>, i: nat, allowed: set<(string, string)>)
    decreases t, |t| - i
  {
    if i >= |t| then true
    else
      (match t[i]
       case If(_, a, b) => ImportsWithinFrom(a, 0, allowed) && ImportsWithinFrom(b, 0, allowed)
       case Import(b, m) => (b, m) in allowed
       case ImportDefault(_, m) => ("default", m) in allowed
       case _ => true)
      && ImportsWithinFrom(t, i + 1, allowed)
  }

  /** `x` occurs strictly before `y` in `s`. */
  predicate Precedes<T(==)>(x: T, y: T, s: seq<T>) {
    exists i, j :: 0 <= i < j < |s| && s[i] == x && s[j] == y
  }

  // ---------------------------------------------------------------------
  // Rendering and selection

  lemma {:induction false} RenderLeavesAppend<P>(a: seq<Node<P>>, b: seq<Node<P>>, text: P -> string, d: TemplateData)
    requires AllLeaves(a) && AllLeaves(b)
    ensures RenderLeaves(a + b, text, d) == RenderLeaves(a, text, d) + RenderLeaves(b, text, d)
    decreases a
  {
    if a == [] {
      assert a + b == b;
    } else {
      assert (a + b)[1..] == a[1..] + b;
      assert AllLeaves(a[1..]) by {
        forall i | 0 <= i < |a[1..]| ensures a[1..][i].IsLeaf() {
          assert a[1..][i] == a[i + 1];
        }
      }
      RenderLeavesAppend(a[1..], b, text, d);
    }
  }

  /** Rendering is the text of the selected leaves laid end to end. */
  lemma {:induction false} RenderFromIsSelectedLeaves<P>(t: Template<P>, i: nat, text: P -> string, d: TemplateData)
    ensures RenderFrom(t, i, text, d) == RenderLeaves(SelectFrom(t, i, d), text, d)
    decreases t, |t| - i
  {
    if i < |t| {
      RenderFromIsSelectedLeaves(t, i + 1, text, d);
      var rest := SelectFrom(t, i + 1, d);
      match t[i]
      case If(f, a, b) =>
        var branch := if FlagValue(d, f) then a else b;
        RenderFromIsSelectedLeaves(branch, 0, text, d);
        RenderLeavesAppend(SelectFrom(branch, 0, d), rest, text, d);
      case _ =>
        assert RenderLeaves([t[i]], text, d) == RenderLeaf(t[i], text, d);
        RenderLeavesAppend([t[i]], rest, text, d);
    }
  }

  lemma RenderIsSelectedLeaves<P>(t: Template<P>, text: P -> string, d: TemplateData)
    ensures Render(t, text, d) == RenderLeaves(Select(t, d), text, d)
  {
    RenderFromIsSelectedLeaves(t, 0, text, d);
  }

  /** A template without conditionals emits its leaves as written. */
  lemma {:induction false} SelectFromLeaves<P>(t: Template<P>, i: nat, d: TemplateData)
    requires AllLeaves(t) && i <= |t|
    ensures SelectFrom(t, i, d) == t[i..]
    decreases |t| - i
  {
    if i < |t| {
      SelectFromLeaves(t, i + 1, d);
      assert t[i..] == [t[i]] + t[i + 1..];
    }
  }

  lemma SelectLeaves<P>(t: Template<P>, d: TemplateData)
    requires AllLeaves(t)
    ensures Select(t, d) == t
  {
    SelectFromLeaves(t, 0, d);
  }

  // ---------------------------------------------------------------------
  // Which leaves are emitted

  /** Every leaf emitted for `d` may be emitted for the value `d` gives `f`. */
  lemma {:induction false} MayEmitSound<P>(t: Template<P>, i: nat, n: Node<P>, d: TemplateData, f: Flag)
    requires n in SelectFrom(t, i, d)
    ensures MayEmitFrom(t, i, n, f, FlagValue(d, f))
    decreases t, |t| - i
  {
    var v := FlagValue(d, f);
    var rest := SelectFrom(t, i + 1, d);
    if n in rest {
      MayEmitSound(t, i + 1, n, d, f);
    } else {
      match t[i]
      case If(g, a, b) =>
        if FlagValue(d, g) {
          MayEmitSound(a, 0, n, d, f);
        } else {
          MayEmitSound(b, 0, n, d, f);
        }
      case _ =>
    }
  }

  /** Every leaf that must be emitted for the value `d` gives `f` is emitted. */
  lemma {:induction false} MustEmitSound<P>(t: Template<P>, i: nat, n: Node<P>, d: TemplateData, f: Flag)
    requires MustEmitFrom(t, i, n, f, FlagValue(d, f))
    ensures n in SelectFrom(t, i, d)
    decreases t, |t| - i
  {
    var v := FlagValue(d, f);
    if MustEmitFrom(t, i + 1, n, f, v) {
      MustEmitSound(t, i + 1, n, d, f);
    } else {
      match t[i]
      case If(g, a, b) =>
        if FlagValue(d, g) {
          MustEmitSound(a, 0, n, d, f);
        } else {
          MustEmitSound(b, 0, n, d, f);
        }
      case _ =>
    }
  }

  /** A leaf that must be emitted when `f` is set and cannot be emitted when
      it is clear is emitted exactly when `f` is set. */
  lemma EmittedIffFlag<P>(t: Template<P>, n: Node<P>, f: Flag, d: TemplateData)
    requires MustEmit(t, n, f, true)
    requires !MayEmit(t, n, f, false)
    ensures n in Select(t, d) <==> FlagValue(d, f)
  {
    if FlagValue(d, f) {
      MustEmitSound(t, 0, n, d, f);
    } else if n in Select(t, d) {
      MayEmitSound(t, 0, n, d, f);
    }
  }

  /** A leaf that must be emitted for either value of some flag is always
      emitted. */
  lemma EmittedAlways<P>(t: Template<P>, n: Node<P>, f: Flag, d: TemplateData)
    requires MustEmit(t, n, f, true) && MustEmit(t, n, f, false)
    ensures n in Select(t, d)
  {
    MustEmitSound(t, 0, n, d, f);
  }

  // ---------------------------------------------------------------------
  // What the output depends on

  /** Data that agree on every flag a template tests (and on the project
      name, when the template interpolates it) render it to the same text. */
  lemma {:induction false} RenderFromDependsOnlyOn<P>(t: Template<P>, i: nat, text: P -> string, d1: TemplateData, d2: TemplateData)
    requires forall f :: TestsFrom(t, i, f) ==> FlagValue(d1, f) == FlagValue(d2, f)
    requires UsesNameFrom(t, i) ==> d1.projectName == d2.projectName
    ensures RenderFrom(t, i, text, d1) == RenderFrom(t, i, text, d2)
    decreases t, |t| - i
  {
    if i < |t| {
      RenderFromDependsOnlyOn(t, i + 1, text, d1, d2);
      match t[i]
      case If(g, a, b) =>
        assert TestsFrom(t, i, g);
        RenderFromDependsOnlyOn(a, 0, text, d1, d2);
        RenderFromDependsOnlyOn(b, 0, text, d1, d2);
      case _ =>
    }
  }

  lemma RenderDependsOnlyOn<P>(t: Template<P>, text: P -> string, d1: TemplateData, d2: TemplateData)
    requires forall f :: Tests(t, f) ==> FlagValue(d1, f) == FlagValue(d2, f)
    requires UsesName(t) ==> d1.projectName == d2.projectName
    ensures Render(t, text, d1) == Render(t, text, d2)
  {
    RenderFromDependsOnlyOn(t, 0, text, d1, d2);
  }

  /** The emitted leaves depend only on the flags the template tests. */
  lemma {:induction false} SelectFromDependsOnlyOn<P>(t: Template<P>, i: nat, d1: TemplateData, d2: TemplateData)
    requires forall f :: TestsFrom(t, i, f) ==> FlagValue(d1, f) == FlagValue(d2, f)
    ensures SelectFrom(t, i, d1) == SelectFrom(t, i, d2)
    decreases t, |t| - i
  {
    if i < |t| {
      SelectFromDependsOnlyOn(t, i + 1, d1, d2);
      match t[i]
      case If(g, a, b) =>
        assert TestsFrom(t, i, g);
        SelectFromDependsOnlyOn(a, 0, d1, d2);
        SelectFromDependsOnlyOn(b, 0, d1, d2);
      case _ =>
    }
  }

  lemma SelectDependsOnlyOn<P>(t: Template<P>, d1: TemplateData, d2: TemplateData)
    requires forall f :: Tests(t, f) ==> FlagValue(d1, f) == FlagValue(d2, f)
    ensures Select(t, d1) == Select(t, d2)
  {
    SelectFromDependsOnlyOn(t, 0, d1, d2);
  }

  // ---------------------------------------------------------------------
  // Templates written as concatenations of parts

  lemma {:induction false} RenderFromShift<P>(a: Template<P>, b: Template<P>, j: nat, text: P -> string, d: TemplateData)
    ensures RenderFrom(a + b, |a| + j, text, d) == RenderFrom(b, j, text, d)
    decreases |b| - j
  {
    if j < |b| {
      assert (a + b)[|a| + j] == b[j];
      RenderFromShift(a, b, j + 1, text, d);
    }
  }

  lemma {:induction false} RenderFromAppend<P>(a: Template<P>, b: Template<P>, i: nat, text: P -> string, d: TemplateData)
    requires i <= |a|
    ensures RenderFrom(a + b, i, text, d) == RenderFrom(a, i, text, d) + RenderFrom(b, 0, text, d)
    decreases |a| - i
  {
    if i == |a| {
      RenderFromShift(a, b, 0, text, d);
    } else {
      assert (a + b)[i] == a[i];
      RenderFromAppend(a, b, i + 1, text, d);
    }
  }

  lemma RenderAppend<P>(a: Template<P>, b: Template<P>, text: P -> string, d: TemplateData)
    ensures Render(a + b, text, d) == Render(a, text, d) + Render(b, text, d)
  {
    RenderFromAppend(a, b, 0, text, d);
  }

  lemma {:induction false} SelectFromShift<P>(a: Template<P>, b: Template<P>, j: nat, d: TemplateData)
    ensures SelectFrom(a + b, |a| + j, d) == SelectFrom(b, j, d)
    decreases |b| - j
  {
    if j < |b| {
      assert (a + b)[|a| + j] == b[j];
      SelectFromShift(a, b, j + 1, d);
    }
  }

  lemma {:induction false} SelectFromAppend<P>(a: Template<P>, b: Template<P>, i: nat, d: TemplateData)
    requires i <= |a|
    ensures SelectFrom(a + b, i, d) == SelectFrom(a, i, d) + SelectFrom(b, 0, d)
    decreases |a| - i
  {
    if i == |a| {
      SelectFromShift(a, b, 0, d);
    } else {
      assert (a + b)[i] == a[i];
      SelectFromAppend(a, b, i + 1, d);
    }
  }

  lemma SelectAppend<P>(a: Template<P>, b: Template<P>, d: TemplateData)
    ensures Select(a + b, d) == Select(a, d) + Select(b, d)
  {
    SelectFromAppend(a, b, 0, d);
  }

  lemma {:induction false} MayShift<P>(a: Template<P>, b: Template<P>, j: nat, n: Node<P>, f: Flag, v: bool)
    ensures MayEmitFrom(a + b, |a| + j, n, f, v) == MayEmitFrom(b, j, n, f, v)
    decreases |b| - j
  {
    if j < |b| {
      assert (a + b)[|a| + j] == b[j];
      MayShift(a, b, j + 1, n, f, v);
    }
  }

  lemma {:induction false} MayAppendFrom<P>(a: Template<P>, b: Template<P>, i: nat, n: Node<P>, f: Flag, v: bool)
    requires i <= |a|
    ensures MayEmitFrom(a + b, i, n, f, v) == (MayEmitFrom(a, i, n, f, v) || MayEmit(b, n, f, v))
    decreases |a| - i
  {
    if i == |a| {
      MayShift(a, b, 0, n, f, v);
    } else {
      assert (a + b)[i] == a[i];
      MayAppendFrom(a, b, i + 1, n, f, v);
    }
  }

  lemma {:induction false} MustShift<P>(a: Template<P>, b: Template<P>, j: nat, n: Node<P>, f: Flag, v: bool)
    ensures MustEmitFrom(a + b, |a| + j, n, f, v) == MustEmitFrom(b, j, n, f, v)
    decreases |b| - j
  {
    if j < |b| {
      assert (a + b)[|a| + j] == b[j];
      MustShift(a, b, j + 1, n, f, v);
    }
  }

  lemma {:induction false} MustAppendFrom<P>(a: Template<P>, b: Template<P>, i: nat, n: Node<P>, f: Flag, v: bool)
    requires i <= |a|
    ensures MustEmitFrom(a + b, i, n, f, v) == (MustEmitFrom(a, i, n, f, v) || MustEmit(b, n, f, v))
    decreases |a| - i
  {
    if i == |a| {
      MustShift(a, b, 0, n, f, v);
    } else {
      assert (a + b)[i] == a[i];
      MustAppendFrom(a, b, i + 1, n, f, v);
    }
  }

  lemma {:induction false} UsageShift<P>(a: Template<P>, b: Template<P>, j: nat, f: Flag)
    ensures TestsFrom(a + b, |a| + j, f) == TestsFrom(b, j, f)
    ensures UsesNameFrom(a + b, |a| + j) == UsesNameFrom(b, j)
    decreases |b| - j
  {
    if j < |b| {
      assert (a + b)[|a| + j] == b[j];
      UsageShift(a, b, j + 1, f);
    }
  }

  lemma {:induction false} UsageAppendFrom<P>(a: Template<P>, b: Template<P>, i: nat, f: Flag)
    requires i <= |a|
    ensures TestsFrom(a + b, i, f) == (TestsFrom(a, i, f) || Tests(b, f))
    ensures UsesNameFrom(a + b, i) == (UsesNameFrom(a, i) || UsesName(b))
    decreases |a| - i
  {
    if i == |a| {
      UsageShift(a, b, 0, f);
    } else {
      assert (a + b)[i] == a[i];
      UsageAppendFrom(a, b, i + 1, f);
    }
  }

  lemma TestsAppend<P>(a: Template<P>, b: Template<P>, f: Flag)
    ensures Tests(a + b, f) == (Tests(a, f) || Tests(b, f))
  {
    UsageAppendFrom(a, b, 0, f);
  }

  /** Inspecting a concatenation inspects its parts. */
  lemma InspectAppend<P>(a: Template<P>, b: Template<P>, n: Node<P>, f: Flag, v: bool)
    ensures MayEmit(a + b, n, f, v) == (MayEmit(a, n, f, v) || MayEmit(b, n, f, v))
    ensures MustEmit(a + b, n, f, v) == (MustEmit(a, n, f, v) || MustEmit(b, n, f, v))
    ensures Tests(a + b, f) == (Tests(a, f) || Tests(b, f))
    ensures UsesName(a + b) == (UsesName(a) || UsesName(b))
  {
    MayAppendFrom(a, b, 0, n, f, v);
    MustAppendFrom(a, b, 0, n, f, v);
    UsageAppendFrom(a, b, 0, f);
  }

  /** A name is exported exactly when some emitted export leaf binds it. */
  lemma {:induction false} ExportsFromMeaning<P>(leaves: seq<Node<P>>, i: nat, x: string)
    ensures x in ExportsFrom(leaves, i)
        <==> exists k :: i <= k < |leaves| && leaves[k].IsExport() && ExportedName(leaves[k]) == x
    decreases |leaves| - i
  {
    if i < |leaves| {
      ExportsFromMeaning(leaves, i + 1, x);
    }
  }

  lemma {:induction false} ExportsFromAppend<P>(a: seq<Node<P>>, b: seq<Node<P>>, i: nat)
    requires i <= |a|
    ensures ExportsFrom(a + b, i) == ExportsFrom(a, i) + ExportsFrom(b, 0)
    decreases |a| - i
  {
    if i == |a| {
      ExportsFromShift(a, b, 0);
    } else {
      assert (a + b)[i] == a[i];
      ExportsFromAppend(a, b, i + 1);
    }
  }

  lemma {:induction false} ExportsFromShift<P>(a: seq<Node<P>>, b: seq<Node<P>>, j: nat)
    ensures ExportsFrom(a + b, |a| + j) == ExportsFrom(b, j)
    decreases |b| - j
  {
    if j < |b| {
      assert (a + b)[|a| + j] == b[j];
      ExportsFromShift(a, b, j + 1);
    }
  }

  lemma ExportsMeaning<P>(t: Template<P>, d: TemplateData, x: string)
    ensures x in Exports(t, d)
        <==> exists n :: n in Select(t, d) && n.IsExport() && ExportedName(n) == x
  {
    ExportsFromMeaning(Select(t, d), 0, x);
  }

  /** A pair is imported exactly when some emitted import leaf asks for it. */
  lemma {:induction false} ImportsFromMeaning<P>(leaves: seq<Node<P>>, i: nat, x: (string, string))
    ensures x in ImportsFrom(leaves, i)
        <==> exists k :: i <= k < |leaves| && leaves[k].IsImport() && (ImportedName(leaves[k]), leaves[k].from) == x
    decreases |leaves| - i
  {
    if i < |leaves| {
      ImportsFromMeaning(leaves, i + 1, x);
    }
  }

  lemma ImportsMeaning<P>(t: Template<P>, d: TemplateData, x: (string, string))
    ensures x in Imports(t, d)
        <==> exists n :: n in Select(t, d) && n.IsImport() && (ImportedName(n), n.from) == x
  {
    ImportsFromMeaning(Select(t, d), 0, x);
  }

  /** A leaf emitted by the first part of a template comes before a leaf
      emitted by the second part. */
  lemma PrecedesAcross<P>(a: Template<P>, b: Template<P>, d: TemplateData, x: Node<P>, y: Node<P>)
    requires x in Select(a, d) && y in Select(b, d)
    ensures Precedes(x, y, Select(a + b, d))
  {
    SelectAppend(a, b, d);
    var sa, sb := Select(a, d), Select(b, d);
    var i :| 0 <= i < |sa| && sa[i] == x;
    var j :| 0 <= j < |sb| && sb[j] == y;
    assert (sa + sb)[i] == x && (sa + sb)[|sa| + j] == y;
  }

  /** Appending to a template keeps the order of what it already emits. */
  lemma PrecedesAppendRight<P>(a: Template<P>, b: Template<P>, d: TemplateData, x: Node<P>, y: Node<P>)
    requires Precedes(x, y, Select(a, d))
    ensures Precedes(x, y, Select(a + b, d))
  {
    SelectAppend(a, b, d);
    var sa, sb := Select(a, d), Select(b, d);
    var i, j :| 0 <= i < j < |sa| && sa[i] == x && sa[j] == y;
    assert (sa + sb)[i] == x && (sa + sb)[j] == y;
  }

  /** Prepending to a template keeps the order of what it already emits. */
  lemma PrecedesAppendLeft<P>(a: Template<P>, b: Template<P>, d: TemplateData, x: Node<P>, y: Node<P>)
    requires Precedes(x, y, Select(b, d))
    ensures Precedes(x, y, Select(a + b, d))
  {
    SelectAppend(a, b, d);
    var sa, sb := Select(a, d), Select(b, d);
    var i, j :| 0 <= i < j < |sb| && sb[i] == x && sb[j] == y;
    assert (sa + sb)[|sa| + i] == x && (sa + sb)[|sa| + j] == y;
  }

  /** An emitted import leaf asks for an allowed pair. */
  lemma {:induction false} ImportsWithinSelected<P>(t: Template<P>, i: nat, d: TemplateData, allowed: set<(string, string)>, n: Node<P>)
    requires ImportsWithinFrom(t, i, allowed)
    requires n in SelectFrom(t, i, d) && n.IsImport()
    ensures (ImportedName(n), n.from) in allowed
    decreases t, |t| - i
  {
    if n in SelectFrom(t, i + 1, d) {
      ImportsWithinSelected(t, i + 1, d, allowed, n);
    } else {
      match t[i]
      case If(g, a, b) =>
        if FlagValue(d, g) {
          ImportsWithinSelected(a, 0, d, allowed, n);
        } else {
          ImportsWithinSelected(b, 0, d, allowed, n);
        }
      case _ =>
    }
  }

  /** A template whose import leaves all ask for allowed pairs performs
      only allowed imports, whatever the data. */
  lemma ImportsWithin<P>(t: Template<P>, d: TemplateData, allowed: set<(string, string)>)
    requires ImportsWithinFrom(t, 0, allowed)
    ensures Imports(t, d) <= allowed
  {
    forall x | x in Imports(t, d)
      ensures x in allowed
    {
      ImportsMeaning(t, d, x);
      var n :| n in Select(t, d) && n.IsImport() && (ImportedName(n), n.from) == x;
      ImportsWithinSelected(t, 0, d, allowed, n);
    }
  }

  lemma {:induction false} ImportsWithinShift<P>(a: Template<P>, b: Template<P>, j: nat, allowed: set<(string, string)>)
    ensures ImportsWithinFrom(a + b, |a| + j, allowed) == ImportsWithinFrom(b, j, allowed)
    decreases |b| - j
  {
    if j < |b| {
      assert (a + b)[|a| + j] == b[j];
      ImportsWithinShift(a, b, j + 1, allowed);
    }
  }

  lemma {:induction false} ImportsWithinAppendFrom<P>(a: Template<P>, b: Template<P>, i: nat, allowed: set<(string, string)>)
    requires i <= |a|
    ensures ImportsWithinFrom(a + b, i, allowed)
         == (ImportsWithinFrom(a, i, allowed) && ImportsWithinFrom(b, 0, allowed))
    decreases |a| - i
  {
    if i == |a| {
      ImportsWithinShift(a, b, 0, allowed);
    } else {
      assert (a + b)[i] == a[i];
      ImportsWithinAppendFrom(a, b, i + 1, allowed);
    }
  }

  /** The import bound of a concatenation is that of its parts. */
  lemma ImportsWithinAppend<P>(a: Template<P>, b: Template<P>, allowed: set<(string, string)>)
    ensures ImportsWithinFrom(a + b, 0, allowed)
         == (ImportsWithinFrom(a, 0, allowed) && ImportsWithinFrom(b, 0, allowed))
  {
    ImportsWithinAppendFrom(a, b, 0, allowed);
  }
}
