/** The two POSIX path operations the generator uses: joining a project
    path with a relative key, and taking the directory part of a path.
    Normalisation of `.` and `..` segments is not modelled; the keys the
    generator joins contain neither. */
module Paths {
  import opened Wrappers

  /** `path.join(base, rel)` for a `rel` that does not start with a slash:
      exactly one separator between the two parts. */
  function Join(base: string, rel: string): (r: string)
    ensures |r| >= |base| && r[..|base|] == base
  {
    if base == "" then rel
    else if base[|base| - 1] == '/' then base + rel
    else base + "/" + rel
  }

  /** Joining the same base to two keys gives the same path only when the
      keys are equal. */
  lemma JoinInjective(base: string, p: string, q: string)
    requires Join(base, p) == Join(base, q)
    ensures p == q
  {
    if base != "" && base[|base| - 1] != '/' {
      assert p == Join(base, p)[|base| + 1..];
      assert q == Join(base, q)[|base| + 1..];
    } else if base != "" {
      assert p == Join(base, p)[|base|..];
      assert q == Join(base, q)[|base|..];
    }
  }

  /** The index of the last slash in `p`, if any. */
  function LastSlash(p: string): (r: Option<nat>)
    ensures r.Some? ==>
              && r.value < |p| && p[r.value] == '/'
              && (forall k :: r.value < k < |p| ==> p[k] != '/')
    ensures r.None? ==> forall k :: 0 <= k < |p| ==> p[k] != '/'
  {
    if p == [] then None
    else if p[|p| - 1] == '/' then Some(|p| - 1)
    else LastSlash(p[..|p| - 1])
  }

  /** `path.dirname(p)` for a path without a trailing slash: everything
      before the last slash, `/` when that slash is the first character,
      and `.` when there is none. */
  function Dirname(p: string): string {
    match LastSlash(p)
    case None => "."
    case Some(i) => if i == 0 then "/" else p[..i]
  }

  /** A key without a slash lies directly in the base directory. */
  lemma DirnameOfFlatJoin(base: string, key: string)
    requires base != "" && base[|base| - 1] != '/'
    requires '/' !in key
    ensures Dirname(Join(base, key)) == base
  {
    var p := Join(base, key);
    assert p == base + "/" + key;
    var n := |base| + 1;
    assert forall k :: 0 <= k < |key| ==> p[n + k] == key[k];
    assert LastSlash(p) == Some(|base|) by {
      var r := LastSlash(p);
      assert p[|base|] == '/';
      if r.None? {
        assert false;
      }
    }
  }

  /** Joining to a base without a trailing slash puts the key right after
      the base and one separator. */
  lemma JoinSuffix(base: string, key: string)
    requires base != "" && base[|base| - 1] != '/'
    ensures |Join(base, key)| == |base| + 1 + |key|
    ensures Join(base, key)[|base|] == '/'
    ensures forall k :: 0 <= k < |key| ==> Join(base, key)[|base| + 1 + k] == key[k]
  {
  }

  /** A slash with no slash after it is the last one. */
  lemma LastSlashAt(p: string, j: nat)
    requires j < |p| && p[j] == '/'
    requires forall k :: j < k < |p| ==> p[k] != '/'
    ensures LastSlash(p) == Some(j)
  {
  }

  /** A path ending in `key` has its last slash where `key` has it, when
      `key` has one. */
  lemma LastSlashOfSuffix(p: string, key: string, n: nat)
    requires n + |key| == |p|
    requires forall k :: 0 <= k < |key| ==> p[n + k] == key[k]
    requires LastSlash(key).Some?
    ensures LastSlash(p) == Some(n + LastSlash(key).value)
  {
    var i := LastSlash(key).value;
    assert p[n + i] == '/';
    forall k | n + i < k < |p|
      ensures p[k] != '/'
    {
      assert p[k] == key[k - n];
    }
    LastSlashAt(p, n + i);
  }

  /** A path ending in a relative `key` with a slash has as its directory
      everything before `key` followed by the key's own directory. */
  lemma DirnameOfSuffix(p: string, key: string, n: nat)
    requires 0 < n && n + |key| == |p|
    requires forall k :: 0 <= k < |key| ==> p[n + k] == key[k]
    requires key != [] && key[0] != '/' && '/' in key
    ensures Dirname(p) == p[..n] + Dirname(key)
  {
    var i := LastSlash(key).value;
    assert i != 0;
    LastSlashOfSuffix(p, key, n);
    assert p[..n + i] == p[..n] + key[..i];
  }

  /** A relative key with a slash lies in its own directory, joined to the
      base. */
  lemma DirnameOfNestedJoin(base: string, key: string)
    requires base != "" && base[|base| - 1] != '/'
    requires key != [] && key[0] != '/' && '/' in key
    ensures Dirname(Join(base, key)) == Join(base, Dirname(key))
  {
    var p, n := Join(base, key), |base| + 1;
    JoinSuffix(base, key);
    DirnameOfSuffix(p, key, n);
    assert p[..n] == base + "/";
  }

  /** The directory of a key inside a base directory: the base itself when
      the key has no slash, and the key's own directory joined to the base
      otherwise. Either way the file lies directly inside it. */
  lemma DirnameOfJoin(base: string, key: string)
    requires base != "" && base[|base| - 1] != '/'
    requires key != "" && key[|key| - 1] != '/'
    ensures '/' !in key ==> Dirname(Join(base, key)) == base
    ensures '/' in key && key[0] != '/' ==> Dirname(Join(base, key)) == Join(base, Dirname(key))
  {
    if '/' !in key {
      DirnameOfFlatJoin(base, key);
    } else if key[0] != '/' {
      DirnameOfNestedJoin(base, key);
    }
  }
}
