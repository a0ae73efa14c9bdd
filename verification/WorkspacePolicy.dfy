/** The path policy of a builder workspace, and the bounded patch job that obeys it. */
module WorkspacePolicy {
  import opened Wrappers
  import opened Paths
  import opened Strings

  const MAX_PATH_CHARS := 500
  const MAX_POLICY_PATHS := 64

  datatype Error = InvalidPolicy | PathNotAllowed | EmptyPatch | WriteFailed | TreeUnreadable | TreeMismatch

  datatype Result<T> = Ok(value: T) | Err(error: Error)

  predicate IsLetter(c: char) {
    'A' <= c <= 'Z' || 'a' <= c <= 'z'
  }

  /** canonicalRelativePath accepts exactly these strings, and returns them unchanged. */
  predicate IsCanonical(s: string) {
    && 1 <= Utf16Length(s) <= MAX_PATH_CHARS && '\\' !in s && '\0' !in s
    && s[0] != '/' && !(|s| >= 2 && IsLetter(s[0]) && s[1] == ':')
    && (forall i | 0 <= i < |Split(s)| :: Split(s)[i] != "" && Split(s)[i] != "." && Split(s)[i] != "..")
    && ".git" !in Split(s)
  }

  function CanonicalRelativePath(s: string): (r: Result<string>)
    ensures r == if IsCanonical(s) then Ok(s) else Err(InvalidPolicy)
  {
    if |s| == 0 || Utf16Length(s) > MAX_PATH_CHARS || '\\' in s || '\0' in s then Err(InvalidPolicy)
    else if s[0] == '/' || (|s| >= 2 && IsLetter(s[0]) && s[1] == ':') then Err(InvalidPolicy)
    else
      var segments := Split(s);
      if exists i | 0 <= i < |segments| :: segments[i] == "" || segments[i] == "." || segments[i] == ".."
          then Err(InvalidPolicy)
      else if ".git" in segments then Err(InvalidPolicy)
      else
        JoinSplit(s);
        Ok(Join(segments))
  }

  datatype Policy = Policy(baseCommit: string, readable: seq<string>, writable: seq<string>)

  datatype Access = Read | Write

  function Allowed(p: Policy, access: Access): seq<string> {
    if access.Write? then p.writable else p.readable
  }

  predicate Covers(prefixes: seq<string>, path: string) {
    exists i | 0 <= i < |prefixes| :: ContainsPath(prefixes[i], path)
  }

  predicate IsPathList(values: seq<string>) {
    1 <= |values| <= MAX_POLICY_PATHS && forall i | 0 <= i < |values| :: IsCanonical(values[i])
  }

  /** The values without repetitions, in the order of their first occurrence. */
  function Unique(values: seq<string>): (r: seq<string>)
    ensures forall x :: x in r <==> x in values
    ensures forall i, j | 0 <= i < j < |r| :: r[i] != r[j]
  {
    if values == [] then []
    else
      var n := |values| - 1;
      assert values == values[..n] + [values[n]];
      var before := Unique(values[..n]);
      if values[n] in before then before else before + [values[n]]
  }

  /** createBuilderWorkspacePolicy, as far as paths go. */
  function CreatePolicy(baseCommit: string, readable: seq<string>, writable: seq<string>): Result<Policy> {
    if !IsPathList(readable) || !IsPathList(writable) then Err(InvalidPolicy)
    else if exists i | 0 <= i < |Unique(writable)| :: !Covers(Unique(readable), Unique(writable)[i])
        then Err(InvalidPolicy)
    else Ok(Policy(baseCommit, Sorted(Unique(readable)), Sorted(Unique(writable))))
  }

  /** authorizeBuilderPath */
  function Authorize(p: Policy, path: string, access: Access): Result<string> {
    var canonical := CanonicalRelativePath(path);
    if canonical.Err? then canonical
    else if !Covers(Allowed(p, access), canonical.value) then Err(PathNotAllowed)
    else canonical
  }

  /** A path is authorised exactly when it is canonical and its segments extend those of
      an allowed path; in particular it never climbs out or enters the Git metadata. */
  lemma AuthorizedMeansInside(p: Policy, path: string, access: Access)
    ensures Authorize(p, path, access).Ok? <==>
              && IsCanonical(path)
              && exists i | 0 <= i < |Allowed(p, access)| :: Split(Allowed(p, access)[i]) <= Split(path)
    ensures Authorize(p, path, access).Ok?
        ==> Authorize(p, path, access).value == path && ".." !in Split(path) && ".git" !in Split(path)
  {
    var allowed := Allowed(p, access);
    forall i | 0 <= i < |allowed| ensures ContainsPath(allowed[i], path) <==> Split(allowed[i]) <= Split(path) {
      ContainsMeansSegments(allowed[i], path);
    }
  }

  /** Neither an absolute path nor one with a drive, a backslash or a NUL is ever authorised. */
  lemma AuthorizedIsRelative(p: Policy, path: string, access: Access)
    requires Authorize(p, path, access).Ok?
    ensures path != "" && path[0] != '/' && '\\' !in path && '\0' !in path
    ensures |path| >= 2 && path[1] == ':' ==> !IsLetter(path[0])
  {
    hide Covers, Split;
  }

  lemma AuthorizeReturnsThePath(p: Policy, path: string, access: Access)
    requires Authorize(p, path, access).Ok?
    ensures Authorize(p, path, access).value == path && Covers(Allowed(p, access), path)
  {
    hide IsCanonical;
  }

  /** A path is refused as malformed exactly when it is not canonical, and as outside of the
      policy when it is. */
  lemma RefusedPaths(p: Policy, path: string, access: Access)
    ensures Authorize(p, path, access) == Err(InvalidPolicy) <==> !IsCanonical(path)
    ensures Authorize(p, path, access) == Err(PathNotAllowed) <==>
              IsCanonical(path) && forall a | a in Allowed(p, access) :: !(Split(a) <= Split(path))
  {
    hide IsCanonical, Split, Covers, Allowed;
    CoversMeans(Allowed(p, access), path);
  }

  lemma CoversMeans(prefixes: seq<string>, path: string)
    ensures Covers(prefixes, path) <==> exists p | p in prefixes :: Split(p) <= Split(path)
  {
    hide Split, ContainsPath;
    forall p | p in prefixes ensures ContainsPath(p, path) <==> Split(p) <= Split(path) {
      ContainsMeansSegments(p, path);
    }
    if p :| p in prefixes && Split(p) <= Split(path) {
      var i :| 0 <= i < |prefixes| && prefixes[i] == p;
      assert ContainsPath(prefixes[i], path);
    }
  }

  lemma SameCover(a: seq<string>, b: seq<string>, path: string)
    requires forall x :: x in a <==> x in b
    ensures Covers(a, path) <==> Covers(b, path)
  {
    CoversMeans(a, path);
    CoversMeans(b, path);
    hide Covers, Split;
  }

  /** A policy is built exactly from two lists of 1 to 64 canonical paths of which every
      writable one extends a readable one, segment by segment. */
  lemma CreatePolicyExactly(baseCommit: string, readable: seq<string>, writable: seq<string>)
    ensures CreatePolicy(baseCommit, readable, writable).Ok? <==>
              && 1 <= |readable| <= 64 && 1 <= |writable| <= 64
              && (forall r | r in readable :: IsCanonical(r)) && (forall w | w in writable :: IsCanonical(w))
              && forall w | w in writable :: exists r | r in readable :: Split(r) <= Split(w)
    ensures CreatePolicy(baseCommit, readable, writable).Err?
        ==> CreatePolicy(baseCommit, readable, writable) == Err(InvalidPolicy)
  {
    hide IsCanonical, Sorted, Split, Covers;
    var unique := Unique(writable);
    forall w | w in writable
      ensures Covers(Unique(readable), w) <==> exists r | r in readable :: Split(r) <= Split(w)
    {
      SameCover(Unique(readable), readable, w);
      CoversMeans(readable, w);
    }
    forall w | w in writable ensures exists i :: 0 <= i < |unique| && unique[i] == w { assert w in unique; }
    assert forall i | 0 <= i < |unique| :: unique[i] in writable;
    forall w | w in writable ensures exists i :: 0 <= i < |writable| && writable[i] == w {}
  }

  /** A policy that was built grants writing below the writable paths it was built from, and
      reading below the readable ones; it holds each once and in order, with the base commit. */
  lemma PolicyGrants(baseCommit: string, readable: seq<string>, writable: seq<string>, path: string)
    requires CreatePolicy(baseCommit, readable, writable).Ok?
    ensures var p := CreatePolicy(baseCommit, readable, writable).value;
            && (Authorize(p, path, Write).Ok? <==>
                  IsCanonical(path) && exists w | w in writable :: Split(w) <= Split(path))
            && (Authorize(p, path, Read).Ok? <==>
                  IsCanonical(path) && exists r | r in readable :: Split(r) <= Split(path))
            && p.baseCommit == baseCommit && InOrder(p.readable) && InOrder(p.writable)
            && (forall x :: x in p.readable <==> x in readable) && (forall x :: x in p.writable <==> x in writable)
  {
    hide IsCanonical, Sorted, Split, Covers, InOrder;
    var (r, w) := (Unique(readable), Unique(writable));
    SortedCovers(w, path);
    SameCover(w, writable, path);
    CoversMeans(writable, path);
    SortedCovers(r, path);
    SameCover(r, readable, path);
    CoversMeans(readable, path);
    SortedInOrder(w);
    SortedInOrder(r);
    SortedHolds(w);
    SortedHolds(r);
  }

  lemma SortedHolds(s: seq<string>)
    ensures forall x :: x in Sorted(s) <==> x in s
  {
    forall x ensures x in Sorted(s) <==> x in s { assert x in multiset(Sorted(s)) <==> x in multiset(s); }
  }

  /** In every policy that was built, permission to write implies permission to read. */
  lemma WriteImpliesRead(baseCommit: string, readable: seq<string>, writable: seq<string>, path: string)
    requires CreatePolicy(baseCommit, readable, writable).Ok?
    requires Authorize(CreatePolicy(baseCommit, readable, writable).value, path, Write).Ok?
    ensures Authorize(CreatePolicy(baseCommit, readable, writable).value, path, Read).Ok?
  {
    hide IsCanonical, Sorted, ContainsPath, Split;
    var w, r := Unique(writable), Unique(readable);
    SortedCovers(w, path);
    var i :| 0 <= i < |w| && ContainsPath(w[i], path);
    assert Covers(r, w[i]);
    var j :| 0 <= j < |r| && ContainsPath(r[j], w[i]);
    ContainsIsTransitive(r[j], w[i], path);
    SortedCovers(r, path);
  }

  /** Sorting changes nothing about what is covered. */
  lemma SortedCovers(prefixes: seq<string>, path: string)
    ensures Covers(Sorted(prefixes), path) <==> Covers(prefixes, path)
  {
    hide Covers, Sorted;
    SortedHolds(prefixes);
    SameCover(Sorted(prefixes), prefixes, path);
  }

  // ----- the patch

  datatype Operation = Operation(path: string, content: string)

  type Files = map<string, string>

  function Written(files: Files, operations: seq<Operation>): Files
    decreases |operations|
  {
    if operations == [] then files
    else Written(files[operations[0].path := operations[0].content], operations[1..])
  }

  /** The last operation on a path decides its content; other paths keep theirs. */
  lemma {:induction false} LastWriteWins(files: Files, operations: seq<Operation>, path: string, last: nat)
    requires last < |operations| ==> operations[last].path == path
    requires forall i | last < i < |operations| :: operations[i].path != path
    requires last >= |operations| ==> forall i | 0 <= i < |operations| :: operations[i].path != path
    ensures if last < |operations|
        then path in Written(files, operations) && Written(files, operations)[path] == operations[last].content
            else (path in Written(files, operations) <==> path in files)
                 && (path in files ==> Written(files, operations)[path] == files[path])
    decreases |operations|
  {
    if operations != [] {
      var files', rest := files[operations[0].path := operations[0].content], operations[1..];
      if last == 0 {
        LastWriteWins(files', rest, path, |rest|);
      } else {
        LastWriteWins(files', rest, path, last - 1);
      }
    }
  }

  lemma WrittenNothing(files: Files)
    ensures Written(files, []) == files
  {
  }

  lemma {:induction false} WrittenAppend(files: Files, operations: seq<Operation>, o: Operation)
    ensures Written(files, operations + [o]) == Written(files, operations)[o.path := o.content]
    decreases |operations|
  {
    if operations == [] {
      assert (operations + [o])[1..] == [];
    } else {
      assert (operations + [o])[1..] == operations[1..] + [o];
      WrittenAppend(files[operations[0].path := operations[0].content], operations[1..], o);
    }
  }

  /** The error of the first operation whose path may not be written, if any. */
  function Refusal(p: Policy, operations: seq<Operation>): Option<Error>
    decreases |operations|
  {
    if operations == [] then None
    else
      var n := |operations| - 1;
      var before := Refusal(p, operations[..n]);
      var last := Authorize(p, operations[n].path, Write);
      if before.Some? || last.Ok? then before else Some(last.error)
  }

  lemma {:induction false} NoRefusalMeansAllAuthorized(p: Policy, operations: seq<Operation>)
    ensures Refusal(p, operations).None? <==>
              forall i | 0 <= i < |operations| :: Authorize(p, operations[i].path, Write).Ok?
    decreases |operations|
  {
    hide Authorize;
    if operations != [] {
      var n := |operations| - 1;
      NoRefusalMeansAllAuthorized(p, operations[..n]);
      if Refusal(p, operations).None? {
        forall i | 0 <= i < |operations| ensures Authorize(p, operations[i].path, Write).Ok? {
          if i < n { assert operations[..n][i] == operations[i]; }
        }
      } else if Refusal(p, operations[..n]).Some? {
        var i :| 0 <= i < n && Authorize(p, operations[..n][i].path, Write).Err?;
        assert operations[i] == operations[..n][i];
      }
    }
  }

  /** A refusal stays one when operations follow. */
  lemma {:induction false} RefusalIsFirst(p: Policy, operations: seq<Operation>, i: nat)
    requires i <= |operations| && Refusal(p, operations[..i]).Some?
    ensures Refusal(p, operations) == Refusal(p, operations[..i])
    decreases |operations|
  {
    hide Authorize;
    if i == |operations| {
      assert operations[..i] == operations;
    } else {
      var n := |operations| - 1;
      assert operations[..n][..i] == operations[..i];
      RefusalIsFirst(p, operations[..n], i);
    }
  }

  /** The refusal is the one of the first operation that may not be made. */
  lemma {:induction false} RefusalNamesFirst(p: Policy, operations: seq<Operation>)
    requires Refusal(p, operations).Some?
    ensures exists i | 0 <= i < |operations| ::
              && Authorize(p, operations[i].path, Write) == Err(Refusal(p, operations).value)
              && forall k | 0 <= k < i :: Authorize(p, operations[k].path, Write).Ok?
    decreases |operations|
  {
    hide Authorize;
    var n := |operations| - 1;
    var before := operations[..n];
    NoRefusalMeansAllAuthorized(p, before);
    if Refusal(p, before).Some? {
      RefusalNamesFirst(p, before);
      var i :| 0 <= i < n && Authorize(p, before[i].path, Write) == Err(Refusal(p, before).value)
               && forall k | 0 <= k < i :: Authorize(p, before[k].path, Write).Ok?;
      assert operations[i] == before[i];
      forall k | 0 <= k < i ensures Authorize(p, operations[k].path, Write).Ok? {
        assert operations[k] == before[k];
      }
    } else {
      forall k | 0 <= k < n ensures Authorize(p, operations[k].path, Write).Ok? {
        assert operations[k] == before[k];
      }
    }
  }

  function PathsOf(operations: seq<Operation>): (r: seq<string>)
    ensures |r| == |operations| && forall i | 0 <= i < |r| :: r[i] == operations[i].path
  {
    seq(|operations|, i requires 0 <= i < |operations| => operations[i].path)
  }

  /** How many writes are made when the write numbered `failing` is refused. */
  function Done(operations: seq<Operation>, failing: Option<nat>): (n: nat)
    ensures n <= |operations|
  {
    if failing.Some? && failing.value < |operations| then failing.value else |operations|
  }

  /** What a patch returns: the changed paths in order, each as often as it was written, and
      the digests of the operations and of the resulting tree. */
  datatype Evidence = Evidence(baseCommit: string, changedPaths: seq<string>, diffHash: string, treeHash: string)

  /** What is outside: the write that the file system refuses, if any; the digest of the
      operations; and what the workspace says of its tree afterwards, if it can. */
  datatype Surroundings = Surroundings(
    failing: Option<nat>,
    digest: seq<Operation> -> string,
    treeIdentity: Option<string>)

  /** The loop over the paths of a patch, before anything is written. */
  method AuthorizeAll(p: Policy, operations: seq<Operation>) returns (r: Result<seq<Operation>>)
    ensures r == if Refusal(p, operations).Some? then Err(Refusal(p, operations).value) else Ok(operations)
  {
    hide Authorize;
    var normalized: seq<Operation> := [];
    for i := 0 to |operations|
      invariant Refusal(p, operations[..i]).None?
      invariant normalized == operations[..i]
    {
      assert operations[..i + 1][..i] == operations[..i];
      var authorized := Authorize(p, operations[i].path, Write);
      if authorized.Err? {
        RefusalIsFirst(p, operations, i + 1);
        return Err(authorized.error);
      }
      AuthorizeReturnsThePath(p, operations[i].path, Write);
      normalized := normalized + [Operation(authorized.value, operations[i].content)];
    }
    assert operations[..|operations|] == operations;
    r := Ok(normalized);
  }

  class Workspace {
    const baseCommit: string
    var files: Files

    constructor (baseCommit: string, files: Files)
      ensures this.baseCommit == baseCommit && this.files == files
    {
      this.baseCommit, this.files := baseCommit, files;
    }

    /** applyBoundedPatch. Nothing is written unless every path is authorised; otherwise
        the operations are applied in order, up to the failing one. The tree is read and
        the base commit compared after the writes, so a failure there is reported with the
        patch in place. */
    method ApplyBoundedPatch(p: Policy, operations: seq<Operation>, world: Surroundings)
      returns (result: Result<Evidence>)
      modifies this
      ensures operations == [] ==> result == Err(EmptyPatch)
      ensures Refusal(p, operations).Some? ==> result == Err(Refusal(p, operations).value)
      ensures operations == [] || Refusal(p, operations).Some? ==> files == old(files)
      ensures operations != [] && Refusal(p, operations).None?
          ==> files == Written(old(files), operations[..Done(operations, world.failing)])
      ensures result.Ok? <==>
                && operations != [] && (forall o | o in operations :: Authorize(p, o.path, Write).Ok?)
                && Done(operations, world.failing) == |operations|
                && world.treeIdentity.Some? && baseCommit == p.baseCommit
      ensures result.Ok? ==>
                && result.value.baseCommit == baseCommit && Some(result.value.treeHash) == world.treeIdentity
                && result.value.diffHash == world.digest(operations) && InOrder(result.value.changedPaths)
                && multiset(result.value.changedPaths) == multiset(PathsOf(operations))
      ensures operations != [] && Refusal(p, operations).None? ==>
                && (result == Err(WriteFailed) <==> Done(operations, world.failing) < |operations|)
                && (result == Err(TreeUnreadable) <==>
                      Done(operations, world.failing) == |operations| && world.treeIdentity.None?)
                && (result == Err(TreeMismatch) <==>
                      && Done(operations, world.failing) == |operations| && world.treeIdentity.Some?
                      && baseCommit != p.baseCommit)
    {
      hide Authorize, Written, InOrder, Sorted, Refusal, PathsOf;
      NoRefusalMeansAllAuthorized(p, operations);
      assert forall i | 0 <= i < |operations| :: operations[i] in operations;
      SortedInOrder(PathsOf(operations));
      if operations == [] { return Err(EmptyPatch); }
      var authorized := AuthorizeAll(p, operations);
      if authorized.Err? { return Err(authorized.error); }
      var normalized := authorized.value;
      assert operations[..|operations|] == operations;
      WrittenNothing(files);
      for i := 0 to |operations|
        invariant i <= Done(operations, world.failing)
        invariant files == Written(old(files), operations[..i])
      {
        if world.failing == Some(i) { return Err(WriteFailed); }
        WrittenAppend(old(files), operations[..i], operations[i]);
        assert operations[..i + 1] == operations[..i] + [operations[i]];
        files := files[normalized[i].path := normalized[i].content];
      }
      if world.treeIdentity.None? { return Err(TreeUnreadable); }
      if baseCommit != p.baseCommit { return Err(TreeMismatch); }
      result := Ok(Evidence(baseCommit, Sorted(PathsOf(normalized)), world.digest(normalized),
          world.treeIdentity.value));
    }
  }

  /** Whatever part of an authorised patch is applied, every file outside the writable
      paths is as it was. */
  lemma {:induction false} OutsideUnchanged(p: Policy, files: Files, operations: seq<Operation>, done: nat,
      path: string)
    requires Refusal(p, operations).None? && !Covers(p.writable, path) && done <= |operations|
    ensures path in Written(files, operations[..done]) <==> path in files
    ensures path in files ==> Written(files, operations[..done])[path] == files[path]
  {
    NoRefusalMeansAllAuthorized(p, operations);
    forall i | 0 <= i < done ensures operations[..done][i].path != path {
      AuthorizeReturnsThePath(p, operations[i].path, Write);
    }
    LastWriteWins(files, operations[..done], path, done);
  }
}
