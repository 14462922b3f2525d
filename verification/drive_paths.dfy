/** Path rules of the drive: which relative paths take part in the sync, and how the
    client turns a server path into a relative one.

    A relative path is the list of its components, as `Path::components` yields them:
    two strings name the same local file exactly when their component lists agree. */
module DrivePaths {
  import opened Common

  type Name = string
  type Rel = seq<Name>

  const DIRECTORY_FILE: Rel := [".directory"]

  predicate EqIgnoreAsciiCase(a: string, b: string) {
    |a| == |b| && forall i | 0 <= i < |a| :: LowerChar(a[i]) == LowerChar(b[i])
  }

  predicate Reserved(name: Name) {
    EqIgnoreAsciiCase(name, "System") || EqIgnoreAsciiCase(name, "autorun.inf")
  }

  predicate Dotted(name: Name) {
    |name| > 0 && name[0] == '.'
  }

  predicate HasReservedName(rel: Rel) {
    exists i | 0 <= i < |rel| :: Reserved(rel[i])
  }

  /** Paths the pull side ignores. */
  predicate SyncSkipped(rel: Rel) {
    HasReservedName(rel) || rel == DIRECTORY_FILE
  }

  /** Paths the push side and the directory walks ignore. */
  predicate Internal(rel: Rel) {
    rel != DIRECTORY_FILE &&
    (HasReservedName(rel) || exists i | 0 <= i < |rel| :: Dotted(rel[i]))
  }

  /** Paths both directions handle; the convergence theorems speak of these. */
  predicate Syncable(rel: Rel) {
    !SyncSkipped(rel) && !Internal(rel)
  }

  /** Everything below an internal directory is internal, and so is everything below a
      directory called `.directory`, although that name alone is not. Hence a walk that
      does not descend into internal directories loses no file it should visit. */
  lemma InternalIsInherited(dir: Rel, rest: Rel)
    ensures Internal(dir) ==> Internal(dir + rest)
    ensures dir == DIRECTORY_FILE && rest != [] ==> Internal(dir + rest)
    ensures !Internal(dir + rest) && rest != [] ==> !Internal(dir) && dir != DIRECTORY_FILE
  {
    var all := dir + rest;
    if Internal(dir) {
      if HasReservedName(dir) {
        var i :| 0 <= i < |dir| && Reserved(dir[i]);
        assert Reserved(all[i]);
      } else {
        var i :| 0 <= i < |dir| && Dotted(dir[i]);
        assert Dotted(all[i]);
      }
      assert |dir| > 0;
      assert rest == [] ==> all == dir;
    } else if dir == DIRECTORY_FILE {
      assert Dotted(all[0]);
      if rest != [] {
        assert |all| > 1;
      }
    }
  }

  /** What separates the three predicates: a path skipped by exactly one direction is
      either `.directory` (pushed, never pulled) or has a dotted but no reserved component
      (pulled, never pushed). */
  lemma OneWayPaths(rel: Rel)
    ensures !Internal(rel) && SyncSkipped(rel) <==> rel == DIRECTORY_FILE
    ensures Internal(rel) && !SyncSkipped(rel) <==>
            rel != DIRECTORY_FILE && !HasReservedName(rel) && exists i | 0 <= i < |rel| :: Dotted(rel[i])
  {
    if rel == DIRECTORY_FILE {
      assert !Reserved(rel[0]);
    }
  }

  // ------------------------------------------------------------- path strings

  function TrimSlashes(s: string): string {
    if s != "" && s[0] == '/' then TrimSlashes(s[1..]) else s
  }

  function ForwardSlashes(s: string): (r: string)
    ensures |r| == |s|
    ensures forall i | 0 <= i < |s| :: r[i] == if s[i] == '\\' then '/' else s[i]
  {
    if s == "" then "" else [if s[0] == '\\' then '/' else s[0]] + ForwardSlashes(s[1..])
  }

  /** `normalize_rel_path`: trims first, replaces second. */
  function Normalize(path: string): string {
    ForwardSlashes(TrimSlashes(path))
  }

  /** The form `pending_push` records: replaces first, trims second. */
  function PendingForm(path: string): string {
    TrimSlashes(ForwardSlashes(path))
  }

  /** The two normal forms agree on exactly the paths whose first character after the
      leading slashes is not a backslash. On the others `normalize_rel_path` answers a
      string with a leading slash, which is not relative. */
  lemma {:induction false} NormalFormsAgree(path: string)
    ensures Normalize(path) == PendingForm(path) <==>
            !(|TrimSlashes(path)| > 0 && TrimSlashes(path)[0] == '\\')
  {
    if path == "" {
    } else if path[0] == '/' {
      NormalFormsAgree(path[1..]);
    } else {
      var f := ForwardSlashes(path);
      if path[0] == '\\' {
        TrimShrinks(f);
      }
    }
  }

  lemma {:induction false} TrimShrinks(s: string)
    requires s != "" && s[0] == '/'
    ensures |TrimSlashes(s)| < |s|
  {
    if |s| > 1 && s[1] == '/' {
      TrimShrinks(s[1..]);
    }
  }

  function Join(rel: Rel): string {
    if rel == [] then "" else if |rel| == 1 then rel[0] else rel[0] + "/" + Join(rel[1..])
  }

  predicate PlainName(name: Name) {
    name != "" && forall c | c in name :: c != '/' && c != '\\'
  }

  /** A server path is a slash followed by the relative path. For names free of both
      separators the client's normal form gives back the joined components, so distinct
      server paths stay distinct on the client. */
  lemma {:induction false} NormalizeServerPath(rel: Rel)
    requires rel != [] && forall n | n in rel :: PlainName(n)
    ensures Normalize("/" + Join(rel)) == Join(rel)
  {
    var j := Join(rel);
    JoinIsPlain(rel);
    assert ("/" + j)[1..] == j;
    assert TrimSlashes("/" + j) == TrimSlashes(j) == j;
    forall i | 0 <= i < |j| ensures ForwardSlashes(j)[i] == j[i] {
      assert j[i] in j;
    }
  }

  lemma {:induction false} JoinIsPlain(rel: Rel)
    requires rel != [] && forall n | n in rel :: PlainName(n)
    ensures Join(rel) != "" && Join(rel)[0] != '/' && forall c | c in Join(rel) :: c != '\\'
  {
    assert rel[0] in rel;
    assert rel[0][0] in rel[0];
    if |rel| > 1 {
      JoinIsPlain(rel[1..]);
    }
  }

  /** Joining loses nothing: two lists of plain names with one joined form are equal. */
  lemma {:induction false} JoinInjective(a: Rel, b: Rel)
    requires a != [] && b != []
    requires forall n | n in a :: PlainName(n)
    requires forall n | n in b :: PlainName(n)
    requires Join(a) == Join(b)
    ensures a == b
  {
    assert a[0] in a && b[0] in b;
    var s, t := Join(a), Join(b);
    FirstSeparator(a);
    FirstSeparator(b);
    forall k | 0 <= k < |a[0]| ensures s[k] == a[0][k] != '/' {
      assert a[0][k] in a[0];
    }
    forall k | 0 <= k < |b[0]| ensures t[k] == b[0][k] != '/' {
      assert b[0][k] in b[0];
    }
    assert |a[0]| == |b[0]|;
    assert a[0] == s[..|a[0]|] == t[..|b[0]|] == b[0];
    if |a| > 1 {
      assert |b| > 1;
      assert Join(a[1..]) == s[|a[0]| + 1..] == t[|b[0]| + 1..] == Join(b[1..]);
      JoinInjective(a[1..], b[1..]);
      assert a == [a[0]] + a[1..] == [b[0]] + b[1..] == b;
    } else {
      assert |b| == 1;
    }
  }

  lemma FirstSeparator(a: Rel)
    requires a != []
    ensures |a| == 1 ==> Join(a) == a[0]
    ensures |a| > 1 ==> |Join(a)| > |a[0]| && Join(a)[|a[0]|] == '/' && Join(a)[|a[0]| + 1..] == Join(a[1..])
    ensures a[0] <= Join(a)
  {
  }

  /** The name before the next slash. */
  function FirstName(s: string): (n: string)
    ensures n <= s && forall i | 0 <= i < |n| :: n[i] != '/'
    ensures |n| < |s| ==> s[|n|] == '/'
  {
    if s == "" || s[0] == '/' then "" else [s[0]] + FirstName(s[1..])
  }

  /** A path string as the file system reads it. */
  function Components(s: string): Rel {
    if s == "" then []
    else if s[0] == '/' then Components(s[1..])
    else [FirstName(s)] + Components(s[|FirstName(s)|..])
  }

  /** A path as the Windows watcher reports it. */
  function BackJoin(rel: Rel): string {
    if rel == [] then "" else if |rel| == 1 then rel[0] else rel[0] + "\\" + BackJoin(rel[1..])
  }

  lemma {:induction false} ComponentsOfJoin(rel: Rel)
    requires forall n | n in rel :: PlainName(n)
    ensures Components(Join(rel)) == rel
  {
    if rel != [] {
      var s, n := Join(rel), rel[0];
      assert n in rel && n[0] in n;
      FirstSeparator(rel);
      var f := FirstName(s);
      forall k | 0 <= k < |n| ensures n[k] != '/' && s[k] == n[k] {
        assert n[k] in n;
      }
      assert |f| == |n| && f == s[..|n|] == n;
      if |rel| > 1 {
        ComponentsOfJoin(rel[1..]);
        assert s[|n|..][1..] == s[|n| + 1..] == Join(rel[1..]);
        assert rel == [n] + rel[1..];
      } else {
        assert s[|n|..] == "";
      }
    }
  }

  lemma {:induction false} BackJoinForward(rel: Rel)
    requires forall n | n in rel :: PlainName(n)
    ensures ForwardSlashes(BackJoin(rel)) == Join(rel)
  {
    if rel != [] {
      BackJoinForward(rel[1..]);
      assert rel[0] in rel;
      var b, j := BackJoin(rel), Join(rel);
      assert |rel| > 1 ==> b == rel[0] + "\\" + BackJoin(rel[1..]);
      assert |b| == |j|;
      forall i | 0 <= i < |j| ensures ForwardSlashes(b)[i] == j[i] {
        if i < |rel[0]| {
          assert rel[0][i] in rel[0];
        } else if i > |rel[0]| {
          assert b[i] == BackJoin(rel[1..])[i - |rel[0]| - 1] && j[i] == Join(rel[1..])[i - |rel[0]| - 1];
        }
      }
    }
  }

  /** Whichever separator the watcher uses, what is recorded names the file it saw. */
  lemma WatchedPath(rel: Rel)
    requires rel != [] && forall n | n in rel :: PlainName(n)
    ensures Components(PendingForm(Join(rel))) == rel && Components(PendingForm(BackJoin(rel))) == rel
  {
    var j := Join(rel);
    JoinIsPlain(rel);
    BackJoinForward(rel);
    ComponentsOfJoin(rel);
    forall i | 0 <= i < |j| ensures ForwardSlashes(j)[i] == j[i] {
      assert j[i] in j;
    }
    assert ForwardSlashes(j) == j;
  }
}
