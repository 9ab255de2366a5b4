/** The refresh of relocate_repository.py as it runs: reports rewritten in place, digests
    read through memo caches keyed by path, modification time and size. */
module ReportRefresh {
  import opened Plans
  import opened Fingerprints

  datatype File = File(content: Content, mtime: int, size: nat)

  type Stamp = (string, int, nat)

  lemma QuietPrefix(env: Env, files: Files, dirs: seq<string>, n: nat)
    requires NoDuplicates(dirs) && n < |dirs| && Pass(env, files, dirs[..n + 1]) == files
    ensures Pass(env, files, dirs[..n]) == files
  {
    var upTo := dirs[..n + 1];
    assert upTo[..n] == dirs[..n] && upTo[n] == dirs[n];
    Untouched(env, files, dirs[..n], dirs[n]);
    RefreshOneKeeps(env, Pass(env, files, dirs[..n]), dirs[n]);
  }

  lemma PassNext(env: Env, files: Files, dirs: seq<string>, n: nat)
    requires n < |dirs|
    ensures Pass(env, files, dirs[..n + 1]) == RefreshOne(env, Pass(env, files, dirs[..n]), dirs[n])
  {
    assert dirs[..n + 1][..n] == dirs[..n];
  }

  // ---- when the caches tell the truth -----------------------------------------------------

  function ContentsOf(disk: map<string, File>): Files {
    map p | p in disk :: disk[p].content
  }

  predicate Current(disk: map<string, File>, s: Stamp) {
    s.0 in disk && disk[s.0].mtime == s.1 && disk[s.0].size == s.2
  }

  predicate AllCurrent(disk: map<string, File>, k: seq<Stamp>) {
    forall i :: 0 <= i < |k| ==> Current(disk, k[i])
  }

  function Names(k: seq<Stamp>): (names: seq<string>)
    ensures |names| == |k|
  {
    seq(|k|, i requires 0 <= i < |k| => k[i].0)
  }

  /** No cached digest of a current file is wrong, and nothing hashed so far carries a
      modification time later than the clock. */
  ghost predicate FileCacheHolds(env: Env, disk: map<string, File>, cache: map<Stamp, Digest>, clock: int) {
    && (forall p :: p in disk ==> disk[p].mtime <= clock)
    && (forall s: Stamp :: s in cache ==> s.1 <= clock)
    && (forall s: Stamp :: s in cache && Current(disk, s) ==> cache[s] == env.digest(disk[s.0].content))
  }

  ghost predicate SkillCacheHolds(env: Env, disk: map<string, File>, cache: map<seq<Stamp>, Digest>, clock: int) {
    forall k: seq<Stamp> :: k in cache ==> SkillEntryHolds(env, disk, k, cache[k], clock)
  }

  ghost predicate SkillEntryHolds(env: Env, disk: map<string, File>, k: seq<Stamp>, digest: Digest, clock: int) {
    && (forall i :: 0 <= i < |k| ==> k[i].1 <= clock)
    && (AllCurrent(disk, k) ==> SkillDigest(env, ContentsOf(disk), Names(k)) == Some(digest))
  }

  function Rewritten(disk: map<string, File>, dir: string, report: Report, now: int, size: nat): map<string, File> {
    disk[ReportPath(dir) := File(Document(report), now, size)]
  }

  lemma RewrittenContents(disk: map<string, File>, dir: string, report: Report, now: int, size: nat)
    ensures ContentsOf(Rewritten(disk, dir, report, now, size)) == ContentsOf(disk)[ReportPath(dir) := Document(report)]
  {
  }

  lemma FileCacheAfterWrite(env: Env, disk: map<string, File>, cache: map<Stamp, Digest>, clock: int,
                            dir: string, report: Report, now: int, size: nat)
    requires FileCacheHolds(env, disk, cache, clock) && now > clock
    ensures FileCacheHolds(env, Rewritten(disk, dir, report, now, size), cache, now)
  {
  }

  /** A memo key still current after the write names no rewritten file, so it was current
      before; and no skill file is a report, so its digest has not moved. */
  lemma SkillEntryAfterWrite(env: Env, disk: map<string, File>, k: seq<Stamp>, digest: Digest, clock: int,
                             dir: string, report: Report, now: int, size: nat)
    requires SkillEntryHolds(env, disk, k, digest, clock) && now > clock
    ensures SkillEntryHolds(env, Rewritten(disk, dir, report, now, size), k, digest, now)
  {
    var after := Rewritten(disk, dir, report, now, size);
    if AllCurrent(after, k) {
      forall i | 0 <= i < |k| ensures Current(disk, k[i]) && k[i].0 != ReportPath(dir) {
        assert Current(after, k[i]);
      }
      RewrittenContents(disk, dir, report, now, size);
      SkillDigestAfterWrite(env, ContentsOf(disk), ContentsOf(after), dir, Names(k));
    }
  }

  /** Rewriting a report moves no skill digest, unless it is itself a manifest. */
  lemma SkillDigestAfterWrite(env: Env, f: Files, g: Files, dir: string, manifests: seq<string>)
    requires ReportPath(dir) !in manifests && g.Keys == f.Keys + {ReportPath(dir)}
    requires forall p :: p in f && p != ReportPath(dir) ==> g[p] == f[p]
    ensures SkillDigest(env, f, manifests) == SkillDigest(env, g, manifests)
  {
    forall d: string ensures SameAt(f, g, SkillFile(d)) {
      SkillFilesAreNotReports(d, dir);
    }
    SkillDigestFrame(env, f, g, manifests);
  }

  class Tree {
    const env: Env
    var disk: map<string, File>
    var fileCache: map<Stamp, Digest>
    var skillCache: map<seq<Stamp>, Digest>
    var clock: int

    ghost function Contents(): Files
      reads this
    {
      ContentsOf(disk)
    }

    ghost predicate Valid()
      reads this
    {
      FileCacheHolds(env, disk, fileCache, clock) && SkillCacheHolds(env, disk, skillCache, clock)
    }

    constructor (e: Env, found: map<string, File>, now: int)
      requires forall p :: p in found ==> found[p].mtime <= now
      ensures Valid() && env == e && disk == found
    {
      env, disk, clock := e, found, now;
      fileCache, skillCache := map[], map[];
    }

    /** file_sha256. */
    method FileSha256(path: string) returns (digest: Option<Digest>)
      requires Valid()
      modifies `fileCache
      ensures Valid() && digest == FileDigest(env, Contents(), path)
    {
      if path !in disk {
        return None;
      }
      var file := disk[path];
      var stamp := (path, file.mtime, file.size);
      if stamp in fileCache {
        return Some(fileCache[stamp]);
      }
      var value := env.digest(file.content);
      fileCache := fileCache[stamp := value];
      return Some(value);
    }

    /** The memo key: every manifest must exist. */
    method Stamps(manifests: seq<string>) returns (key: Option<seq<Stamp>>)
      ensures key.Some? <==> forall i :: 0 <= i < |manifests| ==> manifests[i] in disk
      ensures key.Some? ==> Names(key.value) == manifests && AllCurrent(disk, key.value)
    {
      var stamps: seq<Stamp> := [];
      var n := 0;
      while n < |manifests|
        invariant n <= |manifests| && |stamps| == n
        invariant forall i :: 0 <= i < n ==> manifests[i] in disk && stamps[i].0 == manifests[i] && Current(disk, stamps[i])
      {
        if manifests[n] !in disk {
          return None;
        }
        var file := disk[manifests[n]];
        stamps := stamps + [(manifests[n], file.mtime, file.size)];
        n := n + 1;
      }
      assert Names(stamps) == manifests;
      return Some(stamps);
    }

    /** The skill files named by the manifests' rows. */
    method ReadManifests(manifests: seq<string>) returns (paths: Option<set<string>>)
      requires forall i :: 0 <= i < |manifests| ==> manifests[i] in disk
      ensures paths.Some? <==> ManifestsRead(env, Contents(), manifests)
      ensures paths.Some? ==> paths.value == SkillPaths(env, Contents(), manifests)
    {
      var found: set<string> := {};
      var n := 0;
      while n < |manifests|
        invariant n <= |manifests|
        invariant ManifestsRead(env, Contents(), manifests[..n])
        invariant found == SkillPaths(env, Contents(), manifests[..n])
      {
        var rows := env.skillsOf(disk[manifests[n]].content);
        if rows.None? {
          return None;
        }
        assert manifests[..n + 1][..n] == manifests[..n];
        found := found + set d | d in rows.value :: SkillFile(Rooted(env, d));
        n := n + 1;
      }
      assert manifests[..n] == manifests;
      return Some(found);
    }

    method HashAll(paths: set<string>) returns (digests: Option<map<string, Digest>>)
      requires Valid()
      modifies `fileCache
      ensures Valid()
      ensures digests.Some? <==> paths <= Contents().Keys
      ensures digests.Some? ==> digests.value == map p: string | p in paths :: env.digest(Contents()[p])
    {
      var done: map<string, Digest> := map[];
      var left := paths;
      while left != {}
        invariant Valid() && left <= paths && done.Keys == paths - left
        invariant forall p :: p in done ==> p in disk && done[p] == env.digest(disk[p].content)
      {
        var p :| p in left;
        var digest := FileSha256(p);
        if digest.None? {
          return None;
        }
        done, left := done[p := digest.value], left - {p};
      }
      return Some(done);
    }

    /** manifest_skill_content_sha256. */
    method ManifestSkillSha256(manifests: seq<string>) returns (digest: Option<Digest>)
      requires Valid()
      modifies `fileCache, `skillCache
      ensures Valid() && digest == SkillDigest(env, Contents(), manifests)
    {
      var key := Stamps(manifests);
      if key.None? {
        return None;
      }
      if key.value in skillCache {
        return Some(skillCache[key.value]);
      }
      var paths := ReadManifests(manifests);
      if paths.None? {
        return None;
      }
      var digests := HashAll(paths.value);
      if digests.None? {
        return None;
      }
      var value := env.combine(digests.value);
      Remember(key.value, value);
      return Some(value);
    }

    method Remember(key: seq<Stamp>, value: Digest)
      requires Valid() && AllCurrent(disk, key) && SkillDigest(env, Contents(), Names(key)) == Some(value)
      modifies `skillCache
      ensures Valid()
    {
      assert SkillEntryHolds(env, disk, key, value, clock) by {
        assert forall i :: 0 <= i < |key| ==> Current(disk, key[i]);
      }
      skillCache := skillCache[key := value];
    }

    /** report_path.write_text: the new modification time lies after everything hashed. */
    method WriteReport(dir: string, report: Report)
      requires Valid()
      modifies `disk, `clock
      ensures Valid() && Contents() == old(Contents())[ReportPath(dir) := Document(report)]
    {
      var now :| now > clock;
      var size: nat := *;
      RewrittenContents(disk, dir, report, now, size);
      FileCacheAfterWrite(env, disk, fileCache, clock, dir, report, now, size);
      forall k | k in skillCache
        ensures SkillEntryHolds(env, Rewritten(disk, dir, report, now, size), k, skillCache[k], now)
      {
        SkillEntryAfterWrite(env, disk, k, skillCache[k], clock, dir, report, now, size);
      }
      disk, clock := disk[ReportPath(dir) := File(Document(report), now, size)], now;
    }

    /** `if key in prints: prints[key] = file_sha256(path)`. */
    method RenewWith(prints: Option<Prints>, key: Key, path: string) returns (renewed: Option<Prints>)
      requires Valid()
      modifies `fileCache
      ensures Valid()
      ensures renewed == if prints.None? then None else Renew(prints.value, (key, FileDigest(env, Contents(), path)))
    {
      if prints.None? || key !in prints.value {
        return prints;
      }
      var digest := FileSha256(path);
      return if digest.None? then None else Some(prints.value[key := digest.value]);
    }

    method RenewInputs(prints: Prints, input: string) returns (renewed: Option<Prints>)
      requires Valid()
      modifies `fileCache
      ensures Valid() && renewed == RenewAll(prints, InputWants(env, Contents(), input))
    {
      ghost var wants := InputWants(env, Contents(), input);
      RenewThree(prints, wants[0], wants[1], wants[2]);
      renewed := RenewWith(Some(prints), InputTrain, input + "/train.parquet");
      renewed := RenewWith(renewed, InputEval, input + "/eval.parquet");
      renewed := RenewWith(renewed, InputBuildReport, ReportPath(input));
    }

    method RenewOutputs(prints: Prints, dir: string) returns (renewed: Option<Prints>)
      requires Valid()
      modifies `fileCache
      ensures Valid() && renewed == RenewAll(prints, OutputWants(env, Contents(), dir))
    {
      ghost var wants := OutputWants(env, Contents(), dir);
      RenewTwo(prints, wants[0], wants[1]);
      renewed := RenewWith(Some(prints), TrainParquet, dir + "/train.parquet");
      renewed := RenewWith(renewed, EvalParquet, dir + "/eval.parquet");
    }

    method RenewSkills(prints: Option<Prints>, manifests: seq<string>) returns (renewed: Option<Prints>)
      requires Valid()
      modifies `fileCache, `skillCache
      ensures Valid()
      ensures renewed == if prints.None? then None
                         else Renew(prints.value, (SkillContent, if manifests == [] then None
                                                                 else SkillDigest(env, Contents(), manifests)))
    {
      if prints.None? || SkillContent !in prints.value {
        return prints;
      }
      if manifests == [] {
        return None;
      }
      var digest := ManifestSkillSha256(manifests);
      return if digest.None? then None else Some(prints.value[SkillContent := digest.value]);
    }

    method RenewManifests(prints: Option<Prints>, r: Report) returns (renewed: Option<Prints>)
      requires Valid()
      modifies `fileCache, `skillCache
      ensures Valid()
      ensures renewed == if prints.None? then None else RenewAll(prints.value, ManifestWants(env, Contents(), r))
    {
      if prints.Some? {
        ManifestSteps(env, Contents(), r, prints.value);
      }
      renewed := prints;
      var manifests: seq<string> := [];
      if Given(TrainManifest(r)) {
        var train := Rooted(env, TrainManifest(r).value);
        manifests := manifests + [train];
        renewed := RenewWith(renewed, TrainManifestKey, train);
      }
      if Given(r.evalManifest) {
        var eval := Rooted(env, r.evalManifest.value);
        manifests := manifests + [eval];
        renewed := RenewWith(renewed, EvalManifestKey, eval);
      }
      assert manifests == Manifests(env, r);
      renewed := RenewSkills(renewed, manifests);
    }

    /** The digests of one report, renewed; None where the source records a problem. */
    method Recompute(dir: string, r: Report) returns (updated: Option<Report>)
      requires Valid()
      modifies `fileCache, `skillCache
      ensures Valid() && updated == Recomputed(env, Contents(), dir, r)
    {
      if r.fingerprints.None? {
        return Some(r);
      }
      if r.inputDir.None? {
        return None;
      }
      var input := Rooted(env, r.inputDir.value);
      RenewConcat(r.fingerprints.value, InputWants(env, Contents(), input), ManifestWants(env, Contents(), r));
      var prints := RenewInputs(r.fingerprints.value, input);
      prints := RenewManifests(prints, r);
      if prints.None? {
        return None;
      }
      if r.outputs.None? {
        return Some(r.(fingerprints := prints));
      }
      var outputs := RenewOutputs(r.outputs.value, dir);
      return if outputs.None? then None else Some(r.(fingerprints := prints, outputs := outputs));
    }

    /** One report; `problem` is set where the source adds to `unresolved`. */
    method RefreshReport(dir: string) returns (written: bool, problem: bool)
      requires Valid()
      modifies `disk, `clock, `fileCache, `skillCache
      ensures Valid() && Contents() == RefreshOne(env, old(Contents()), dir)
      ensures written <==> Contents() != old(Contents())
      ensures problem <==> !CanRefresh(env, old(Contents()), dir)
    {
      var path := ReportPath(dir);
      if path !in disk || !disk[path].content.Document? {
        return false, true;
      }
      var report := disk[path].content.report;
      var updated := Recompute(dir, report);
      if updated.None? {
        return false, true;
      }
      assert Contents()[path] == Document(report);
      if updated.value != report {
        WriteReport(dir, updated.value);
        assert Contents()[path] != old(Contents())[path];
        return true, false;
      }
      assert Contents()[path := Document(report)] == Contents();
      return false, false;
    }

    method RefreshPass(dirs: seq<string>) returns (passChanged: bool, unresolved: set<string>)
      requires Valid() && NoDuplicates(dirs)
      modifies `disk, `clock, `fileCache, `skillCache
      ensures Valid() && Contents() == Pass(env, old(Contents()), dirs)
      ensures passChanged <==> Contents() != old(Contents())
      ensures forall d :: d in unresolved ==> d in dirs
    {
      passChanged, unresolved := false, {};
      ghost var before := Contents();
      var n := 0;
      while n < |dirs|
        invariant n <= |dirs| && Valid() && Contents() == Pass(env, before, dirs[..n])
        invariant passChanged <==> Contents() != before
        invariant forall d :: d in unresolved ==> d in dirs
      {
        PassNext(env, before, dirs, n);
        if Pass(env, before, dirs[..n + 1]) == before {
          QuietPrefix(env, before, dirs, n);
        }
        var written, problem := RefreshReport(dirs[n]);
        passChanged := passChanged || written;
        if problem {
          unresolved := unresolved + {dirs[n]};
        }
        n := n + 1;
      }
      assert dirs[..n] == dirs;
    }

    /** refresh_rl_build_reports: at most four passes, stopping after one without changes. */
    method RefreshReports(dirs: seq<string>) returns (unresolved: set<string>)
      requires Valid() && NoDuplicates(dirs)
      modifies `disk, `clock, `fileCache, `skillCache
      ensures Valid() && Contents() == Refresh(env, old(Contents()), dirs, PASSES)
      ensures forall d :: d in unresolved ==> d in dirs
    {
      unresolved := {};
      ghost var start := Contents();
      var passes := 0;
      while passes < PASSES
        invariant passes <= PASSES && Valid()
        invariant Refresh(env, start, dirs, PASSES) == Refresh(env, Contents(), dirs, PASSES - passes)
        invariant forall d :: d in unresolved ==> d in dirs
      {
        var passChanged, problems := RefreshPass(dirs);
        unresolved := unresolved + problems;
        passes := passes + 1;
        if !passChanged {
          break;
        }
      }
    }
  }

  lemma {:induction false} RenewConcat(prints: Prints, a: seq<Want>, b: seq<Want>)
    ensures RenewAll(prints, a + b) ==
      if RenewAll(prints, a).None? then None else RenewAll(RenewAll(prints, a).value, b)
  {
    if b == [] {
      assert a + b == a;
    } else {
      var init, last := b[..|b| - 1], b[|b| - 1];
      assert a + b == (a + init) + [last] && b == init + [last];
      RenewConcat(prints, a, init);
      RenewSnoc(prints, a + init, last);
      if RenewAll(prints, a).Some? {
        RenewSnoc(RenewAll(prints, a).value, init, last);
      }
    }
  }

  lemma ManifestSteps(env: Env, files: Files, r: Report, prints: Prints)
    ensures var train := if Given(TrainManifest(r))
        then Renew(prints, (TrainManifestKey, FileDigest(env, files, Rooted(env, TrainManifest(r).value))))
        else Some(prints);
      var eval := if Given(r.evalManifest)
        then Chain(train, (EvalManifestKey, FileDigest(env, files, Rooted(env, r.evalManifest.value)))) else train;
      RenewAll(prints, ManifestWants(env, files, r)) ==
        Chain(eval, (SkillContent, if Manifests(env, r) == [] then None else SkillDigest(env, files, Manifests(env, r))))
  {
    var t: seq<Want> := if Given(TrainManifest(r))
      then [(TrainManifestKey, FileDigest(env, files, Rooted(env, TrainManifest(r).value)))] else [];
    var e: seq<Want> := if Given(r.evalManifest)
      then [(EvalManifestKey, FileDigest(env, files, Rooted(env, r.evalManifest.value)))] else [];
    RenewSnoc(prints, t + e, (SkillContent, if Manifests(env, r) == [] then None
                                            else SkillDigest(env, files, Manifests(env, r))));
    if t != [] {
      RenewSnoc(prints, [], t[0]);
      assert [] + [t[0]] == t;
    }
    if e != [] {
      RenewSnoc(prints, t, e[0]);
      assert t + [e[0]] == t + e;
    } else {
      assert t + e == t;
    }
  }

  function Chain(prints: Option<Prints>, want: Want): Option<Prints> {
    if prints.None? then None else Renew(prints.value, want)
  }

  lemma RenewSnoc(prints: Prints, wants: seq<Want>, want: Want)
    ensures RenewAll(prints, wants + [want]) == Chain(RenewAll(prints, wants), want)
  {
    assert (wants + [want])[..|wants|] == wants;
  }

  lemma RenewTwo(prints: Prints, a: Want, b: Want)
    ensures RenewAll(prints, [a, b]) == Chain(Renew(prints, a), b)
  {
    RenewSnoc(prints, [], a);
    assert [] + [a] == [a];
    RenewSnoc(prints, [a], b);
    assert [a] + [b] == [a, b];
  }

  lemma RenewThree(prints: Prints, a: Want, b: Want, c: Want)
    ensures RenewAll(prints, [a, b, c]) == Chain(Chain(Renew(prints, a), b), c)
  {
    RenewTwo(prints, a, b);
    RenewSnoc(prints, [a, b], c);
    assert [a, b] + [c] == [a, b, c];
  }
}
