/** Repository-relative paths of workflow tests. */
module TestPaths {

  import opened Results
  import opened Sorting
  import opened Text

  const TEST_ROOT_PREFIX: Utf16 := Ascii("packages/workflow-engine/test/")
  const TEST_SUFFIX: Utf16 := Ascii(".test.ts")
  const SLASH: CodeUnit := 0x2F
  const DOT: CodeUnit := 0x2E

  /** The characters no path may hold: backslash, NUL, carriage return, line feed. */
  predicate Forbidden(c: CodeUnit) {
    c == 0x5C || c == 0 || c == 0x0D || c == 0x0A
  }

  /** `posix.normalize` leaves alone exactly the relative paths whose segments are names. */
  predicate NamesOnly(path: Utf16, segment: Utf16) {
    if path == [] then Name(segment)
    else if path[0] == SLASH then Name(segment) && NamesOnly(path[1..], [])
    else NamesOnly(path[1..], segment + [path[0]])
  }

  predicate Name(segment: Utf16) {
    segment != [] && segment != [DOT] && segment != [DOT, DOT]
  }

  predicate StartsWith(text: Utf16, prefix: Utf16) {
    prefix <= text
  }

  predicate EndsWith(text: Utf16, suffix: Utf16) {
    |suffix| <= |text| && text[|text| - |suffix|..] == suffix
  }

  /** `assertWorkflowTestPath` */
  predicate IsTestPath(file: Utf16) {
    && file != []
    && (forall i :: 0 <= i < |file| ==> !Forbidden(file[i]))
    && NamesOnly(file, [])
    && StartsWith(file, TEST_ROOT_PREFIX)
    && EndsWith(file, TEST_SUFFIX)
  }

  // ----- segments

  /** path[i..j] lies between two slashes, or a slash and an end of the path, or is the whole path. */
  predicate SegmentAt(path: Utf16, i: int, j: int) {
    && 0 <= i <= j <= |path| && (forall k :: i <= k < j ==> path[k] != SLASH)
    && (i == 0 || path[i - 1] == SLASH) && (j == |path| || path[j] == SLASH)
  }

  /** A path is one of names exactly when no segment of it is empty, `.` or `..`. */
  lemma NamesOnlyMeans(path: Utf16)
    ensures NamesOnly(path, []) <==>
              forall i, j | SegmentAt(path, i, j) :: path[i..j] != [] && path[i..j] != [DOT] && path[i..j] != [DOT, DOT]
  {
    hide NamesOnly;
    NamesFrom(path, 0, 0);
    assert path[0..] == path && path[0..0] == [];
  }

  /** The rest of a path from at, where the segment begun at start is still open. */
  lemma {:induction false} NamesFrom(path: Utf16, start: nat, at: nat)
    requires start <= at <= |path| && (forall k :: start <= k < at ==> path[k] != SLASH)
    requires start == 0 || path[start - 1] == SLASH
    ensures NamesOnly(path[at..], path[start..at]) <==>
              forall i, j | SegmentAt(path, i, j) && start <= i :: Name(path[i..j])
    decreases |path| - at
  {
    hide NamesOnly, Name;
    if at == |path| {
      LastName(path, start);
      assert path[at..] == [] && path[start..at] == path[start..];
    } else if path[at] == SLASH {
      NamesFrom(path, at + 1, at + 1);
      NameThenRest(path, start, at);
    } else {
      NamesFrom(path, start, at + 1);
      assert path[at..][1..] == path[at + 1..] && path[start..at] + [path[at]] == path[start..at + 1];
      NameGoesOn(path[at..], path[start..at]);
    }
  }

  lemma NameGoesOn(path: Utf16, segment: Utf16)
    requires path != [] && path[0] != SLASH
    ensures NamesOnly(path, segment) <==> NamesOnly(path[1..], segment + [path[0]])
  {
  }

  lemma LastName(path: Utf16, start: nat)
    requires start <= |path| && (start == 0 || path[start - 1] == SLASH)
    requires forall k :: start <= k < |path| ==> path[k] != SLASH
    ensures NamesOnly([], path[start..]) <==>
              forall i, j | SegmentAt(path, i, j) && start <= i :: Name(path[i..j])
  {
    hide Name;
    assert SegmentAt(path, start, |path|) && path[start..|path|] == path[start..];
    forall i, j | SegmentAt(path, i, j) && start <= i ensures i == start && j == |path| {
    }
  }

  lemma NameThenRest(path: Utf16, start: nat, at: nat)
    requires start <= at < |path| && path[at] == SLASH && (start == 0 || path[start - 1] == SLASH)
    requires forall k :: start <= k < at ==> path[k] != SLASH
    requires NamesOnly(path[at + 1..], path[at + 1..at + 1]) <==>
               forall i, j | SegmentAt(path, i, j) && at + 1 <= i :: Name(path[i..j])
    ensures NamesOnly(path[at..], path[start..at]) <==>
              forall i, j | SegmentAt(path, i, j) && start <= i :: Name(path[i..j])
  {
    hide Name;
    assert path[at..][1..] == path[at + 1..] && path[at + 1..at + 1] == [];
    assert SegmentAt(path, start, at);
    forall i, j | SegmentAt(path, i, j) && start <= i ensures (i == start && j == at) || at + 1 <= i {
    }
  }

  /** A test path lies below the test root, ends like a test, holds no backslash, NUL or line break, and
      has no segment that is empty, `.` or `..`. */
  lemma TestPathMeans(file: Utf16)
    ensures IsTestPath(file) <==>
              && Ascii("packages/workflow-engine/test/") <= file
              && |file| >= 8 && file[|file| - 8..] == Ascii(".test.ts")
              && 0x5C !in file && 0x00 !in file && 0x0D !in file && 0x0A !in file
              && forall i, j | SegmentAt(file, i, j) ::
                   file[i..j] != [] && file[i..j] != [DOT] && file[i..j] != [DOT, DOT]
  {
    hide NamesOnly, SegmentAt;
    NamesOnlyMeans(file);
    assert (forall i :: 0 <= i < |file| ==> !Forbidden(file[i])) <==> forall c :: c in file ==> !Forbidden(c);
  }

  datatype FileSetError = NotTestPath(file: Utf16) | DuplicateFile(file: Utf16)

  /** What `digestWorkflowTestFileSet` digests: the files sorted, each a test path and none twice. */
  method DigestedFileSet(files: seq<Utf16>) returns (r: Result<seq<Utf16>, FileSetError>)
    ensures r.Ok? <==> Distinct(files) && forall f :: f in files ==> IsTestPath(f)
    ensures r.Ok? ==> r.value == Sort(files, AtMost)
  {
    hide IsTestPath;
    var seen: set<Utf16> := {};
    for i := 0 to |files|
      invariant seen == set k | 0 <= k < i :: files[k]
      invariant forall k :: 0 <= k < i ==> IsTestPath(files[k])
      invariant forall j, k :: 0 <= j < k < i ==> files[j] != files[k]
    {
      if !IsTestPath(files[i]) {
        assert files[i] in files;
        return Err(NotTestPath(files[i]));
      }
      if files[i] in seen {
        return Err(DuplicateFile(files[i]));
      }
      seen := seen + {files[i]};
    }
    return Ok(Sort(files, AtMost));
  }
}
