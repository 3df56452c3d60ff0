/** A valid shard manifest, unit by unit. */
module ManifestFacts {

  import opened Lists
  import opened Results
  import opened ShardManifest
  import opened Shards
  import opened Sorting
  import opened TestPaths
  import opened Text

  ghost predicate StrictlyAscending(files: seq<Utf16>) {
    forall i, j :: 0 <= i < j < |files| ==> files[i] != files[j] && AtMost(files[i], files[j])
  }

  /** A unit owns its entrypoint among test files listed in order. */
  ghost predicate SoundUnit(u: Unit) {
    && u.durationMicros >= 0 && u.entrypoint in u.ownedPhysicalFiles
    && StrictlyAscending(u.ownedPhysicalFiles) && forall f :: f in u.ownedPhysicalFiles ==> IsTestPath(f)
  }

  /** Each number from one to the number of units is the ordinal of one unit. */
  ghost predicate NumberedOnce(units: seq<Unit>) {
    && (forall i :: 0 <= i < |units| ==> 1 <= units[i].legacyOrdinal <= |units|)
    && forall i, j :: 0 <= i < j < |units| ==> units[i].legacyOrdinal != units[j].legacyOrdinal
  }

  ghost predicate Apart(units: seq<Unit>) {
    forall i, j :: 0 <= i < j < |units| ==>
      forall f :: f in units[i].ownedPhysicalFiles ==> f !in units[j].ownedPhysicalFiles
  }

  function CountFiles(units: seq<Unit>): nat {
    if units == [] then 0 else CountFiles(units[..|units| - 1]) + |units[|units| - 1].ownedPhysicalFiles|
  }

  /** `/^run-\d{17}-[0-9a-f-]{36}$/` */
  predicate RunId(id: Utf16) {
    && |id| == 4 + 17 + 1 + 36 && id[..4] == Ascii("run-") && id[21] == 0x2D
    && (forall c :: c in id[4..21] ==> 0x30 <= c <= 0x39)
    && forall c :: c in id[22..] ==> 0x30 <= c <= 0x39 || 0x61 <= c <= 0x66 || c == 0x2D
  }

  lemma RunIdMeans(id: Utf16)
    ensures WellFormedRunId(id) <==> RunId(id)
  {
    assert Ascii("run-") == [0x72, 0x75, 0x6E, 0x2D];
    if |id| == 58 {
      forall i | 4 <= i < 21 ensures id[i] in id[4..21] {
        assert id[4..21][i - 4] == id[i];
      }
      forall i | 22 <= i < 58 ensures id[i] in id[22..] {
        assert id[22..][i - 22] == id[i];
      }
    }
  }

  lemma AscendingIsSorted(files: seq<Utf16>)
    ensures files == Sort(files, AtMost) && Distinct(files) <==> StrictlyAscending(files)
  {
    AtMostIsTotalOrder();
    hide AtMost;
    SortSorts(files, AtMost);
    if StrictlyAscending(files) {
      SortedUnique(files, Sort(files, AtMost), AtMost);
    }
  }

  lemma SoundIsOk(u: Unit)
    ensures UnitOk(u) <==> SoundUnit(u) && u.legacyOrdinal >= 1
  {
    hide IsTestPath, StrictlyAscending, Sort, Distinct;
    AscendingIsSorted(u.ownedPhysicalFiles);
  }

  lemma {:induction false} MembersOfDistinct<T>(s: seq<T>)
    requires Distinct(s)
    ensures |Members(s)| == |s|
  {
    if s != [] {
      var n := |s| - 1;
      DistinctPrefix(s, n);
      MembersOfDistinct(s[..n]);
      assert Members(s) == Members(s[..n]) + {s[n]};
    }
  }

  /** The numbers one to n. */
  function UpTo(n: nat): (r: set<int>)
    ensures |r| == n && forall k :: k in r <==> 1 <= k <= n
  {
    if n == 0 then {} else UpTo(n - 1) + {n}
  }

  lemma SameWhenNoSmaller(a: set<int>, b: set<int>)
    requires a <= b && |a| >= |b|
    ensures a == b
  {
    assert |b - a| == 0;
    assert b - a == {};
  }

  lemma FillsRange(s: set<int>, n: nat)
    requires |s| == n
    ensures (forall k :: 1 <= k <= n ==> k in s) <==> forall x :: x in s ==> 1 <= x <= n
  {
    if UpTo(n) <= s {
      SameWhenNoSmaller(UpTo(n), s);
    }
    if s <= UpTo(n) {
      SameWhenNoSmaller(s, UpTo(n));
    }
  }

  /** With distinct ordinals, none missing is none too large. */
  lemma NumberedIsContiguous(units: seq<Unit>)
    requires forall i, j :: 0 <= i < j < |units| ==> units[i].legacyOrdinal != units[j].legacyOrdinal
    ensures Contiguous(units) <==> NumberedOnce(units)
  {
    var ordinals := Ordinals(units);
    MembersOfDistinct(ordinals);
    FillsRange(Members(ordinals), |units|);
    forall i | 0 <= i < |units| ensures units[i].legacyOrdinal in Members(ordinals) {
      assert ordinals[i] in ordinals;
    }
    forall x | x in Members(ordinals) ensures exists i :: 0 <= i < |units| && units[i].legacyOrdinal == x {
      var i :| 0 <= i < |ordinals| && ordinals[i] == x;
    }
    forall k: int ensures k in Ordinals(units) <==> k in Members(ordinals) {
    }
  }

  /** Of units that share no file, each listing its own once, the files are as many as listed. */
  lemma {:induction false} FilesCounted(units: seq<Unit>)
    requires Apart(units) && forall i :: 0 <= i < |units| ==> Distinct(units[i].ownedPhysicalFiles)
    ensures |OwnedSet(units)| == CountFiles(units)
  {
    hide Distinct, OwnedSet, Members, Apart;
    if units == [] {
      NothingOwned();
    } else {
      var n := |units| - 1;
      var front, last := units[..n], units[n];
      FrontApart(units);
      FilesCounted(front);
      OwnersOneMore(front, last);
      assert units == front + [last];
      MembersOfDistinct(last.ownedPhysicalFiles);
    }
  }

  lemma NothingOwned()
    ensures OwnedSet([]) == {}
  {
  }

  lemma FrontApart(units: seq<Unit>)
    requires units != [] && Apart(units)
    ensures var n := |units| - 1;
            Apart(units[..n]) && OwnedSet(units[..n]) !! Members(units[n].ownedPhysicalFiles)
  {
    var n := |units| - 1;
    forall f | f in OwnedSet(units[..n]) ensures f !in units[n].ownedPhysicalFiles {
      var i :| 0 <= i < n && f in units[..n][i].ownedPhysicalFiles;
      assert f in units[i].ownedPhysicalFiles;
    }
  }

  lemma AllCompatibleMeans(units: seq<Unit>)
    ensures AllCompatible(units) <==>
              && (forall i :: 0 <= i < |units| ==> SoundUnit(units[i]) && units[i].legacyOrdinal >= 1)
              && Apart(units)
              && forall i, j :: 0 <= i < j < |units| ==> units[i].legacyOrdinal != units[j].legacyOrdinal
  {
    hide UnitOk, StrictlyAscending, IsTestPath;
    forall u: Unit ensures UnitOk(u) <==> SoundUnit(u) && u.legacyOrdinal >= 1 {
      SoundIsOk(u);
    }
    if AllCompatible(units) {
      forall i, j | 0 <= i < j < |units| ensures Compatible(units[i], units[j]) {
      }
    }
  }

  /** The units of a manifest, shard after shard, are sound, share no file, are numbered once each and
      counted; the shards are where those units are placed; and the digest is of all that. */
  lemma ValidMeans(m: Manifest)
    ensures var (p, units) := (m.payload, AllUnits(m.payload.shards));
            ValidManifest(m) <==>
              && RunId(p.sourceTelemetryRunId)
              && (forall i :: 0 <= i < |units| ==> SoundUnit(units[i])) && Apart(units) && NumberedOnce(units)
              && p.executionUnitCount == |units| && |units| >= 1
              && p.physicalFileCount == CountFiles(units) && CountFiles(units) >= 1
              && Assign(units) == Ok(p.shards) && m.inventoryDigest == DigestOf(p)
  {
    hide WellFormedRunId, RunId, AllCompatible, SoundUnit, Contiguous, OwnedSet, Assign, AllUnits, Apart;
    var units := AllUnits(m.payload.shards);
    RunIdMeans(m.payload.sourceTelemetryRunId);
    AllCompatibleMeans(units);
    if (forall i :: 0 <= i < |units| ==> SoundUnit(units[i])) && Apart(units) {
      forall i | 0 <= i < |units| ensures Distinct(units[i].ownedPhysicalFiles) {
        SoundIsDistinct(units[i]);
      }
      FilesCounted(units);
    }
    if forall i, j :: 0 <= i < j < |units| ==> units[i].legacyOrdinal != units[j].legacyOrdinal {
      NumberedIsContiguous(units);
    }
  }

  lemma SoundIsDistinct(u: Unit)
    requires SoundUnit(u)
    ensures Distinct(u.ownedPhysicalFiles)
  {
  }
}
