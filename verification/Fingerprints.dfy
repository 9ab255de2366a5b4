/** relocate_repository.py: refreshing build reports that hash one another, in at
    most four passes. Here files are a map from paths to contents and every digest
    is recomputed; ReportRefresh adds the memo caches. */
module Fingerprints {
  import opened Plans

  type Digest = string

  /** The digest fields a report may carry; each is refreshed only if it is there. */
  datatype Key =
    | InputTrain          // input_train_sha256
    | InputEval           // input_eval_sha256
    | InputBuildReport    // input_build_report_sha256
    | TrainManifestKey    // train_manifest_sha256
    | EvalManifestKey     // eval_manifest_sha256
    | SkillContent        // skill_content_sha256
    | TrainParquet        // train_parquet_sha256
    | EvalParquet         // eval_parquet_sha256
    | Other(name: string)

  type Prints = map<Key, Digest>

  /** What the refresh reads and writes of a build report; `rest` is everything else. */
  datatype Report = Report(inputDir: Option<string>, trainManifest: Option<string>, manifest: Option<string>,
                           evalManifest: Option<string>, fingerprints: Option<Prints>,
                           outputs: Option<Prints>, rest: string)

  /** A file: a readable report, or anything else. */
  datatype Content = Document(report: Report) | Blob(bytes: string)

  type Files = map<string, Content>

  /** `skillsOf` lists the skill directories a manifest names, or fails on bad rows;
      `combine` digests the skill files in path order. */
  datatype Env = Env(root: string, digest: Content -> Digest, skillsOf: Content -> Option<set<string>>,
                     combine: map<string, Digest> -> Digest)

  const PASSES := 4

  function Rooted(env: Env, p: string): string {
    if "/" <= p then p else env.root + "/" + p
  }

  function ReportPath(dir: string): string {
    dir + "/build_report.json"
  }

  function SkillFile(dir: string): string {
    dir + "/SKILL.md"
  }

  lemma SkillFilesAreNotReports(a: string, b: string)
    ensures SkillFile(a) != ReportPath(b)
  {
    assert SkillFile(a)[|SkillFile(a)| - 1] == 'd';
    assert ReportPath(b)[|ReportPath(b)| - 1] == 'n';
  }

  lemma ReportPathInjective(a: string, b: string)
    requires ReportPath(a) == ReportPath(b)
    ensures a == b
  {
    assert ReportPath(a)[..|a|] == a;
    assert ReportPath(b)[..|b|] == b;
  }

  // ---- one report -------------------------------------------------------------------------

  function FileDigest(env: Env, files: Files, path: string): Option<Digest> {
    if path in files then Some(env.digest(files[path])) else None
  }

  predicate ManifestsRead(env: Env, files: Files, manifests: seq<string>) {
    forall i :: 0 <= i < |manifests| ==> manifests[i] in files && env.skillsOf(files[manifests[i]]).Some?
  }

  function SkillPaths(env: Env, files: Files, manifests: seq<string>): set<string>
    requires ManifestsRead(env, files, manifests)
  {
    if manifests == [] then {}
    else
      var last := |manifests| - 1;
      SkillPaths(env, files, manifests[..last])
        + set d | d in env.skillsOf(files[manifests[last]]).value :: SkillFile(Rooted(env, d))
  }

  function SkillDigest(env: Env, files: Files, manifests: seq<string>): Option<Digest> {
    if !ManifestsRead(env, files, manifests) then None
    else
      var paths := SkillPaths(env, files, manifests);
      if paths <= files.Keys then Some(env.combine(map p | p in paths :: env.digest(files[p]))) else None
  }

  /** A digest to put under a key, None when its source cannot be read. */
  type Want = (Key, Option<Digest>)

  /** `if key in prints: prints[key] = digest`, failing if the digest cannot be had. */
  function Renew(prints: Prints, want: Want): Option<Prints> {
    if want.0 !in prints then Some(prints)
    else if want.1.None? then None
    else Some(prints[want.0 := want.1.value])
  }

  function RenewAll(prints: Prints, wants: seq<Want>): Option<Prints> {
    if wants == [] then Some(prints)
    else
      var before := RenewAll(prints, wants[..|wants| - 1]);
      if before.None? then None else Renew(before.value, wants[|wants| - 1])
  }

  predicate Given(o: Option<string>) {
    o.Some? && o.value != ""
  }

  /** `report.get("train_manifest") or report.get("manifest")`. */
  function TrainManifest(r: Report): Option<string> {
    if Given(r.trainManifest) then r.trainManifest else r.manifest
  }

  function Manifests(env: Env, r: Report): seq<string> {
    (if Given(TrainManifest(r)) then [Rooted(env, TrainManifest(r).value)] else [])
      + (if Given(r.evalManifest) then [Rooted(env, r.evalManifest.value)] else [])
  }

  function InputWants(env: Env, files: Files, dir: string): seq<Want> {
    [(InputTrain, FileDigest(env, files, dir + "/train.parquet")),
     (InputEval, FileDigest(env, files, dir + "/eval.parquet")),
     (InputBuildReport, FileDigest(env, files, ReportPath(dir)))]
  }

  function ManifestWants(env: Env, files: Files, r: Report): seq<Want> {
    (if Given(TrainManifest(r)) then [(TrainManifestKey, FileDigest(env, files, Rooted(env, TrainManifest(r).value)))]
     else [])
      + (if Given(r.evalManifest) then [(EvalManifestKey, FileDigest(env, files, Rooted(env, r.evalManifest.value)))]
         else [])
      + [(SkillContent, if Manifests(env, r) == [] then None else SkillDigest(env, files, Manifests(env, r)))]
  }

  function OutputWants(env: Env, files: Files, dir: string): seq<Want> {
    [(TrainParquet, FileDigest(env, files, dir + "/train.parquet")),
     (EvalParquet, FileDigest(env, files, dir + "/eval.parquet"))]
  }

  function ReportWants(env: Env, files: Files, r: Report): seq<Want>
    requires r.inputDir.Some?
  {
    InputWants(env, files, Rooted(env, r.inputDir.value)) + ManifestWants(env, files, r)
  }

  /** The report in `dir` with its digests recomputed from `files`; None when a source
      cannot be read, and the report itself when it has no fingerprints. */
  function Recomputed(env: Env, files: Files, dir: string, r: Report): Option<Report> {
    if r.fingerprints.None? then Some(r)
    else if r.inputDir.None? then None
    else
      var prints := RenewAll(r.fingerprints.value, ReportWants(env, files, r));
      if prints.None? then None
      else if r.outputs.None? then Some(r.(fingerprints := prints))
      else
        var outputs := RenewAll(r.outputs.value, OutputWants(env, files, dir));
        if outputs.None? then None else Some(r.(fingerprints := prints, outputs := outputs))
  }

  predicate Readable(files: Files, dir: string) {
    ReportPath(dir) in files && files[ReportPath(dir)].Document?
  }

  predicate CanRefresh(env: Env, files: Files, dir: string) {
    Readable(files, dir) && Recomputed(env, files, dir, files[ReportPath(dir)].report).Some?
  }

  function RefreshOne(env: Env, files: Files, dir: string): Files {
    if CanRefresh(env, files, dir)
    then files[ReportPath(dir) := Document(Recomputed(env, files, dir, files[ReportPath(dir)].report).value)]
    else files
  }

  // ---- passes -----------------------------------------------------------------------------

  function Pass(env: Env, files: Files, dirs: seq<string>): Files {
    if dirs == [] then files else RefreshOne(env, Pass(env, files, dirs[..|dirs| - 1]), dirs[|dirs| - 1])
  }

  function Passes(env: Env, files: Files, dirs: seq<string>, n: nat): Files {
    if n == 0 then files else Pass(env, Passes(env, files, dirs, n - 1), dirs)
  }

  /** Passes until one changes nothing, at most `n`. */
  function Refresh(env: Env, files: Files, dirs: seq<string>, n: nat): Files
    decreases n
  {
    if n == 0 then files
    else
      var next := Pass(env, files, dirs);
      if next == files then files else Refresh(env, next, dirs, n - 1)
  }

  /** A fresh recomputation from these very files would change nothing. */
  predicate Settled(env: Env, files: Files, dir: string) {
    CanRefresh(env, files, dir) ==>
      Recomputed(env, files, dir, files[ReportPath(dir)].report) == Some(files[ReportPath(dir)].report)
  }

  /** Stopping early loses nothing: a pass without changes would be followed by more of them. */
  lemma {:induction false} RefreshIsPasses(env: Env, files: Files, dirs: seq<string>, n: nat)
    ensures Refresh(env, files, dirs, n) == Passes(env, files, dirs, n)
    decreases n
  {
    if n > 0 {
      PassesShift(env, files, dirs, n - 1);
      if Pass(env, files, dirs) == files {
        StaysFixed(env, files, dirs, n);
      } else {
        RefreshIsPasses(env, Pass(env, files, dirs), dirs, n - 1);
      }
    }
  }

  lemma {:induction false} StaysFixed(env: Env, files: Files, dirs: seq<string>, n: nat)
    requires Pass(env, files, dirs) == files
    ensures Passes(env, files, dirs, n) == files
  {
    if n > 0 {
      StaysFixed(env, files, dirs, n - 1);
    }
  }

  lemma {:induction false} PassesShift(env: Env, files: Files, dirs: seq<string>, n: nat)
    ensures Passes(env, Pass(env, files, dirs), dirs, n) == Passes(env, files, dirs, n + 1)
  {
    if n > 0 {
      PassesShift(env, files, dirs, n - 1);
    }
  }

  // ---- what a recomputation reads ---------------------------------------------------------

  /** The files a report's digests are taken from, skill files apart. */
  function Upstream(env: Env, dir: string, r: Report): set<string> {
    (if r.inputDir.Some? then
       var input := Rooted(env, r.inputDir.value);
       {input + "/train.parquet", input + "/eval.parquet", ReportPath(input)}
     else {})
      + (set m | m in Manifests(env, r)) + {dir + "/train.parquet", dir + "/eval.parquet"}
  }

  predicate SameAt(f: Files, g: Files, q: string) {
    (q in f <==> q in g) && (q in f ==> f[q] == g[q])
  }

  ghost predicate SameSkills(f: Files, g: Files) {
    forall d: string :: SameAt(f, g, SkillFile(d))
  }

  lemma {:induction false} SkillPathsFrame(env: Env, f: Files, g: Files, manifests: seq<string>)
    requires ManifestsRead(env, f, manifests) && ManifestsRead(env, g, manifests)
    requires forall m :: m in manifests ==> SameAt(f, g, m)
    requires SameSkills(f, g)
    ensures SkillPaths(env, f, manifests) == SkillPaths(env, g, manifests)
    ensures forall p :: p in SkillPaths(env, f, manifests) ==> SameAt(f, g, p)
  {
    if manifests != [] {
      var init, m := manifests[..|manifests| - 1], manifests[|manifests| - 1];
      SkillPathsFrame(env, f, g, init);
      assert SameAt(f, g, m);
    }
  }

  lemma SkillDigestFrame(env: Env, f: Files, g: Files, manifests: seq<string>)
    requires forall m :: m in manifests ==> SameAt(f, g, m)
    requires SameSkills(f, g)
    ensures SkillDigest(env, f, manifests) == SkillDigest(env, g, manifests)
  {
    assert forall i :: 0 <= i < |manifests| ==> manifests[i] in manifests && SameAt(f, g, manifests[i]);
    if ManifestsRead(env, f, manifests) {
      SkillPathsFrame(env, f, g, manifests);
      var paths := SkillPaths(env, f, manifests);
      if paths <= f.Keys {
        assert (map p | p in paths :: env.digest(f[p])) == (map p | p in paths :: env.digest(g[p]));
      }
    }
  }

  lemma InputFrame(env: Env, f: Files, g: Files, dir: string, r: Report)
    requires forall q :: q in Upstream(env, dir, r) ==> SameAt(f, g, q)
    requires r.inputDir.Some?
    ensures var input := Rooted(env, r.inputDir.value); InputWants(env, f, input) == InputWants(env, g, input)
  {
    var input := Rooted(env, r.inputDir.value);
    assert SameAt(f, g, input + "/train.parquet") && SameAt(f, g, input + "/eval.parquet");
    assert SameAt(f, g, ReportPath(input));
  }

  lemma ManifestFrame(env: Env, f: Files, g: Files, dir: string, r: Report)
    requires forall q :: q in Upstream(env, dir, r) ==> SameAt(f, g, q)
    requires SameSkills(f, g)
    ensures ManifestWants(env, f, r) == ManifestWants(env, g, r)
  {
    SkillDigestFrame(env, f, g, Manifests(env, r));
    if Given(TrainManifest(r)) {
      assert Manifests(env, r)[0] in Manifests(env, r);
      assert SameAt(f, g, Rooted(env, TrainManifest(r).value));
    }
    if Given(r.evalManifest) {
      assert Manifests(env, r)[|Manifests(env, r)| - 1] in Manifests(env, r);
      assert SameAt(f, g, Rooted(env, r.evalManifest.value));
    }
  }

  lemma OutputFrame(env: Env, f: Files, g: Files, dir: string, r: Report)
    requires forall q :: q in Upstream(env, dir, r) ==> SameAt(f, g, q)
    ensures OutputWants(env, f, dir) == OutputWants(env, g, dir)
  {
    assert SameAt(f, g, dir + "/train.parquet") && SameAt(f, g, dir + "/eval.parquet");
  }

  /** A recomputation depends on the upstream files and the skill files alone. */
  lemma RecomputedFrame(env: Env, f: Files, g: Files, dir: string, r: Report)
    requires forall q :: q in Upstream(env, dir, r) ==> SameAt(f, g, q)
    requires SameSkills(f, g)
    ensures Recomputed(env, f, dir, r) == Recomputed(env, g, dir, r)
  {
    if r.inputDir.Some? {
      InputFrame(env, f, g, dir, r);
    }
    ManifestFrame(env, f, g, dir, r);
    OutputFrame(env, f, g, dir, r);
  }

  // ---- what a refresh leaves alone --------------------------------------------------------

  predicate SameKeys(a: Option<Prints>, b: Option<Prints>) {
    a.None? == b.None? && (a.Some? ==> a.value.Keys == b.value.Keys)
  }

  /** Only digests differ, and they are under the same names. */
  predicate SameShape(a: Report, b: Report) {
    && b.inputDir == a.inputDir && b.trainManifest == a.trainManifest && b.manifest == a.manifest
    && b.evalManifest == a.evalManifest && b.rest == a.rest
    && SameKeys(a.fingerprints, b.fingerprints) && SameKeys(a.outputs, b.outputs)
  }

  predicate DistinctWants(wants: seq<Want>) {
    forall i, j :: 0 <= i < j < |wants| ==> wants[i].0 != wants[j].0
  }

  /** The wanted digests are in place, wherever the key exists. */
  predicate Met(prints: Prints, wants: seq<Want>) {
    forall i :: 0 <= i < |wants| && wants[i].0 in prints ==> wants[i].1 == Some(prints[wants[i].0])
  }

  lemma {:induction false} RenewAllMeets(prints: Prints, wants: seq<Want>)
    requires DistinctWants(wants) && RenewAll(prints, wants).Some?
    ensures var q := RenewAll(prints, wants).value; q.Keys == prints.Keys && Met(q, wants)
  {
    if wants != [] {
      RenewAllMeets(prints, wants[..|wants| - 1]);
    }
  }

  /** The renewed digests can be had exactly if every wanted one can. */
  predicate Available(prints: Prints, wants: seq<Want>) {
    forall i :: 0 <= i < |wants| && wants[i].0 in prints ==> wants[i].1.Some?
  }

  lemma {:induction false} RenewAllAvailable(prints: Prints, wants: seq<Want>)
    ensures RenewAll(prints, wants).Some? <==> Available(prints, wants)
    ensures RenewAll(prints, wants).Some? ==> RenewAll(prints, wants).value.Keys == prints.Keys
  {
    if wants != [] {
      var init, last := wants[..|wants| - 1], wants[|wants| - 1];
      RenewAllAvailable(prints, init);
      assert forall i :: 0 <= i < |wants| ==> wants[i] == if i < |init| then init[i] else last;
    }
  }

  lemma {:induction false} MetIsKept(prints: Prints, wants: seq<Want>)
    requires Met(prints, wants)
    ensures RenewAll(prints, wants) == Some(prints)
  {
    if wants != [] {
      var init, last := wants[..|wants| - 1], wants[|wants| - 1];
      assert forall i :: 0 <= i < |init| ==> init[i] == wants[i];
      MetIsKept(prints, init);
      if last.0 in prints {
        assert prints[last.0 := last.1.value] == prints;
      }
    }
  }

  lemma WantsAreDistinct(env: Env, files: Files, dir: string, r: Report)
    ensures r.inputDir.Some? ==> DistinctWants(ReportWants(env, files, r))
    ensures DistinctWants(OutputWants(env, files, dir))
  {
  }

  /** A recomputed report keeps its shape, and recomputing it again changes nothing. */
  lemma RecomputedTwice(env: Env, files: Files, dir: string, r: Report)
    requires Recomputed(env, files, dir, r).Some?
    ensures var s := Recomputed(env, files, dir, r).value;
      SameShape(r, s) && Recomputed(env, files, dir, s) == Some(s)
  {
    if r.fingerprints.Some? {
      WantsAreDistinct(env, files, dir, r);
      var s := Recomputed(env, files, dir, r).value;
      RenewAllMeets(r.fingerprints.value, ReportWants(env, files, r));
      MetIsKept(s.fingerprints.value, ReportWants(env, files, r));
      SameWants(env, files, r, s);
      if r.outputs.Some? {
        RenewAllMeets(r.outputs.value, OutputWants(env, files, dir));
        MetIsKept(s.outputs.value, OutputWants(env, files, dir));
      }
    }
  }

  lemma SameWants(env: Env, files: Files, r: Report, s: Report)
    requires r.inputDir.Some? && s.inputDir == r.inputDir && s.trainManifest == r.trainManifest
    requires s.manifest == r.manifest && s.evalManifest == r.evalManifest
    ensures ReportWants(env, files, s) == ReportWants(env, files, r)
  {
  }

  /** Reports keep their shape and nothing else is touched. */
  ghost predicate Refreshed(f: Files, g: Files, dirs: seq<string>) {
    && g.Keys == f.Keys
    && (forall q :: q in f && (forall d :: d in dirs ==> q != ReportPath(d)) ==> g[q] == f[q])
    && (forall q :: q in f ==> SameForm(f[q], g[q]))
  }

  predicate SameForm(a: Content, b: Content) {
    a == b || (a.Document? && b.Document? && SameShape(a.report, b.report))
  }

  lemma RefreshOneKeeps(env: Env, files: Files, dir: string)
    ensures var g := RefreshOne(env, files, dir);
      && g.Keys == files.Keys
      && (forall q :: q in files && q != ReportPath(dir) ==> g[q] == files[q])
      && (ReportPath(dir) in files ==> SameForm(files[ReportPath(dir)], g[ReportPath(dir)]))
      && (g == files || (CanRefresh(env, files, dir) && g[ReportPath(dir)] != files[ReportPath(dir)]))
  {
    if CanRefresh(env, files, dir) {
      RecomputedTwice(env, files, dir, files[ReportPath(dir)].report);
    }
  }

  lemma {:induction false} PassKeeps(env: Env, files: Files, dirs: seq<string>)
    ensures Refreshed(files, Pass(env, files, dirs), dirs)
  {
    if dirs != [] {
      PassKeeps(env, files, dirs[..|dirs| - 1]);
      RefreshOneKeeps(env, Pass(env, files, dirs[..|dirs| - 1]), dirs[|dirs| - 1]);
    }
  }

  /** The refresh rewrites digests in the reports it lists and nothing else. */
  lemma {:induction false} PassesKeep(env: Env, files: Files, dirs: seq<string>, n: nat)
    ensures Refreshed(files, Passes(env, files, dirs, n), dirs)
  {
    if n > 0 {
      PassesKeep(env, files, dirs, n - 1);
      PassKeeps(env, Passes(env, files, dirs, n - 1), dirs);
    }
  }

  // ---- stopping means settled -------------------------------------------------------------

  lemma {:induction false} Untouched(env: Env, files: Files, dirs: seq<string>, dir: string)
    requires dir !in dirs
    ensures SameAt(files, Pass(env, files, dirs), ReportPath(dir))
  {
    PassKeeps(env, files, dirs);
    forall d | d in dirs ensures ReportPath(d) != ReportPath(dir) {
      if ReportPath(d) == ReportPath(dir) {
        ReportPathInjective(d, dir);
      }
    }
  }

  /** When a pass changes nothing every report equals its recomputation from the files,
      whatever depends on what; and conversely. */
  lemma {:induction false} QuietPassMeansSettled(env: Env, files: Files, dirs: seq<string>)
    requires NoDuplicates(dirs)
    ensures Pass(env, files, dirs) == files <==> forall d :: d in dirs ==> Settled(env, files, d)
  {
    if dirs != [] {
      var init, last := dirs[..|dirs| - 1], dirs[|dirs| - 1];
      var before := Pass(env, files, init);
      assert dirs == init + [last];
      QuietPassMeansSettled(env, files, init);
      Untouched(env, files, init, last);
      RefreshOneKeeps(env, before, last);
      SettledIsKept(env, files, last);
      assert Pass(env, files, dirs) == files ==> before == files;
      assert forall d :: d in dirs <==> d in init || d == last;
    }
  }

  lemma SettledIsKept(env: Env, files: Files, dir: string)
    ensures RefreshOne(env, files, dir) == files <==> Settled(env, files, dir)
  {
    RefreshOneKeeps(env, files, dir);
  }

  // ---- how many passes are enough ---------------------------------------------------------

  /** The report in `d` is refreshed from the one in `e`. */
  predicate Reads(env: Env, files: Files, d: string, e: string) {
    Readable(files, d) && ReportPath(e) in Upstream(env, d, files[ReportPath(d)].report)
  }

  /** `ranks` counts passes, for the reports of some part of the tree that reads no listed
      report outside it: reading a report visited earlier in the pass is free, reading one
      visited later costs a pass. */
  ghost predicate Ranked(env: Env, files: Files, dirs: seq<string>, ranks: map<string, nat>) {
    forall i, j :: 0 <= i < |dirs| && 0 <= j < |dirs| && dirs[i] in ranks && Reads(env, files, dirs[i], dirs[j]) ==>
      Precedes(dirs, ranks, j, i)
  }

  predicate Precedes(dirs: seq<string>, ranks: map<string, nat>, j: nat, i: nat)
    requires i < |dirs| && j < |dirs| && dirs[i] in ranks
  {
    dirs[j] in ranks && if j < i then ranks[dirs[j]] <= ranks[dirs[i]] else ranks[dirs[j]] < ranks[dirs[i]]
  }

  predicate Below(ranks: map<string, nat>, d: string, n: nat) {
    d in ranks && ranks[d] < n
  }

  ghost predicate SettledBelow(env: Env, files: Files, dirs: seq<string>, ranks: map<string, nat>, n: nat) {
    forall d :: d in dirs && Below(ranks, d, n) ==> Settled(env, files, d)
  }

  /** The reports of rank below `n` have the same content. */
  ghost predicate SameBelow(f: Files, g: Files, dirs: seq<string>, ranks: map<string, nat>, n: nat) {
    forall d :: d in dirs && Below(ranks, d, n) ==> SameAt(f, g, ReportPath(d))
  }

  /** The first `k` reports of rank up to `n` are settled. */
  ghost predicate SettledUpTo(env: Env, files: Files, dirs: seq<string>, k: nat, ranks: map<string, nat>, n: nat)
    requires k <= |dirs|
  {
    forall i :: 0 <= i < k && Below(ranks, dirs[i], n + 1) ==> Settled(env, files, dirs[i])
  }

  lemma RankedStays(env: Env, f: Files, g: Files, dirs: seq<string>, ranks: map<string, nat>)
    requires Ranked(env, f, dirs, ranks) && Refreshed(f, g, dirs)
    ensures Ranked(env, g, dirs, ranks)
  {
    forall i, j | 0 <= i < |dirs| && 0 <= j < |dirs| && dirs[i] in ranks && Reads(env, g, dirs[i], dirs[j])
      ensures Precedes(dirs, ranks, j, i)
    {
      ReadsStays(env, f, g, dirs, dirs[i], dirs[j]);
    }
  }

  lemma ReadsStays(env: Env, f: Files, g: Files, dirs: seq<string>, d: string, e: string)
    requires Refreshed(f, g, dirs)
    ensures Reads(env, g, d, e) <==> Reads(env, f, d, e)
  {
    var q := ReportPath(d);
    if q in f {
      assert SameForm(f[q], g[q]);
      if Readable(f, d) {
        SameUpstream(env, d, f[q].report, g[q].report);
      }
    }
  }

  /** Rewriting one report leaves settled whatever does not read it. */
  lemma SettledFrame(env: Env, f: Files, g: Files, dir: string, changed: string)
    requires g.Keys == f.Keys && forall q :: q in f && q != ReportPath(changed) ==> g[q] == f[q]
    requires SameAt(f, g, ReportPath(dir))
    requires !Reads(env, f, dir, changed)
    ensures Settled(env, f, dir) <==> Settled(env, g, dir)
  {
    forall d: string ensures SameAt(f, g, SkillFile(d)) {
      SkillFilesAreNotReports(d, changed);
    }
    if Readable(f, dir) {
      RecomputedFrame(env, f, g, dir, f[ReportPath(dir)].report);
    }
  }

  lemma RefreshOneSettles(env: Env, files: Files, dir: string)
    requires !Reads(env, files, dir, dir)
    ensures Settled(env, RefreshOne(env, files, dir), dir)
  {
    var g := RefreshOne(env, files, dir);
    if CanRefresh(env, files, dir) {
      var r := files[ReportPath(dir)].report;
      RefreshOneKeeps(env, files, dir);
      RecomputedTwice(env, files, dir, r);
      forall d: string ensures SameAt(files, g, SkillFile(d)) {
        SkillFilesAreNotReports(d, dir);
      }
      SameUpstream(env, dir, r, g[ReportPath(dir)].report);
      RecomputedFrame(env, files, g, dir, g[ReportPath(dir)].report);
    }
  }

  lemma SameUpstream(env: Env, dir: string, r: Report, s: Report)
    requires SameShape(r, s)
    ensures Upstream(env, dir, r) == Upstream(env, dir, s)
  {
  }

  /** Up to position `k` of a pass that starts with everything below `n` settled, those
      reports stay as they are, and the reports up to rank `n` settle as they are visited. */
  lemma {:induction false} PassSettles(env: Env, files: Files, dirs: seq<string>, k: nat, ranks: map<string, nat>, n: nat)
    requires NoDuplicates(dirs) && k <= |dirs|
    requires Ranked(env, files, dirs, ranks) && SettledBelow(env, files, dirs, ranks, n)
    ensures var g := Pass(env, files, dirs[..k]);
      SettledBelow(env, g, dirs, ranks, n) && SameBelow(files, g, dirs, ranks, n) && SettledUpTo(env, g, dirs, k, ranks, n)
  {
    if k > 0 {
      var f, g := Pass(env, files, dirs[..k - 1]), Pass(env, files, dirs[..k]);
      PassSettles(env, files, dirs, k - 1, ranks, n);
      PrefixRanked(env, files, dirs, k - 1, ranks);
      PassVisits(env, files, dirs, k);
      VisitSettles(env, f, dirs, k - 1, ranks, n);
      SameThrough(files, f, g, dirs, ranks, n);
    }
  }

  lemma PassVisits(env: Env, files: Files, dirs: seq<string>, k: nat)
    requires 0 < k <= |dirs|
    ensures Pass(env, files, dirs[..k]) == RefreshOne(env, Pass(env, files, dirs[..k - 1]), dirs[k - 1])
  {
    assert dirs[..k][..k - 1] == dirs[..k - 1];
  }

  lemma SameThrough(f: Files, g: Files, h: Files, dirs: seq<string>, ranks: map<string, nat>, n: nat)
    requires SameBelow(f, g, dirs, ranks, n) && SameBelow(g, h, dirs, ranks, n)
    ensures SameBelow(f, h, dirs, ranks, n)
  {
    forall d | d in dirs && Below(ranks, d, n) ensures SameAt(f, h, ReportPath(d)) {
      assert SameAt(f, g, ReportPath(d)) && SameAt(g, h, ReportPath(d));
    }
  }

  lemma PrefixRanked(env: Env, files: Files, dirs: seq<string>, k: nat, ranks: map<string, nat>)
    requires k <= |dirs| && Ranked(env, files, dirs, ranks)
    ensures Ranked(env, Pass(env, files, dirs[..k]), dirs, ranks)
  {
    PassKeeps(env, files, dirs[..k]);
    RefreshedWider(files, Pass(env, files, dirs[..k]), dirs[..k], dirs);
    RankedStays(env, files, Pass(env, files, dirs[..k]), dirs, ranks);
  }

  lemma RefreshedWider(f: Files, g: Files, dirs: seq<string>, all: seq<string>)
    requires Refreshed(f, g, dirs) && forall d :: d in dirs ==> d in all
    ensures Refreshed(f, g, all)
  {
  }

  lemma VisitSettles(env: Env, f: Files, dirs: seq<string>, k: nat, ranks: map<string, nat>, n: nat)
    requires NoDuplicates(dirs) && k < |dirs|
    requires Ranked(env, f, dirs, ranks) && SettledBelow(env, f, dirs, ranks, n) && SettledUpTo(env, f, dirs, k, ranks, n)
    ensures var g := RefreshOne(env, f, dirs[k]);
      SettledBelow(env, g, dirs, ranks, n) && SameBelow(f, g, dirs, ranks, n) && SettledUpTo(env, g, dirs, k + 1, ranks, n)
  {
    var g := RefreshOne(env, f, dirs[k]);
    SettledIsKept(env, f, dirs[k]);
    if dirs[k] in ranks {
      assert Reads(env, f, dirs[k], dirs[k]) ==> Precedes(dirs, ranks, k, k);
      RefreshOneSettles(env, f, dirs[k]);
    }
    if g != f {
      forall i | 0 <= i < |dirs| && i != k && Below(ranks, dirs[i], if i < k then n + 1 else n)
        ensures Settled(env, g, dirs[i]) && SameAt(f, g, ReportPath(dirs[i]))
      {
        OthersStaySettled(env, f, dirs, k, ranks, n, i);
      }
    }
  }

  /** Rewriting the report at `k` touches no settled report of rank below `n`, nor one
      visited before of rank `n`. */
  lemma OthersStaySettled(env: Env, f: Files, dirs: seq<string>, k: nat, ranks: map<string, nat>, n: nat, i: nat)
    requires NoDuplicates(dirs) && k < |dirs| && i < |dirs| && i != k
    requires Ranked(env, f, dirs, ranks) && SettledBelow(env, f, dirs, ranks, n)
    requires Settled(env, f, dirs[i]) && !Settled(env, f, dirs[k])
    requires Below(ranks, dirs[i], if i < k then n + 1 else n)
    ensures var g := RefreshOne(env, f, dirs[k]); Settled(env, g, dirs[i]) && SameAt(f, g, ReportPath(dirs[i]))
  {
    var g := RefreshOne(env, f, dirs[k]);
    RefreshOneKeeps(env, f, dirs[k]);
    if ReportPath(dirs[i]) == ReportPath(dirs[k]) {
      ReportPathInjective(dirs[i], dirs[k]);
    }
    assert !Below(ranks, dirs[k], n);
    assert Reads(env, f, dirs[i], dirs[k]) ==> Precedes(dirs, ranks, k, i);
    SettledFrame(env, f, g, dirs[i], dirs[k]);
  }

  lemma PassesRanked(env: Env, files: Files, dirs: seq<string>, ranks: map<string, nat>, n: nat)
    requires Ranked(env, files, dirs, ranks)
    ensures Ranked(env, Passes(env, files, dirs, n), dirs, ranks)
  {
    PassesKeep(env, files, dirs, n);
    RankedStays(env, files, Passes(env, files, dirs, n), dirs, ranks);
  }

  lemma WholePassSettles(env: Env, files: Files, dirs: seq<string>, ranks: map<string, nat>, n: nat)
    requires NoDuplicates(dirs) && Ranked(env, files, dirs, ranks) && SettledBelow(env, files, dirs, ranks, n)
    ensures SettledBelow(env, Pass(env, files, dirs), dirs, ranks, n + 1)
    ensures SameBelow(files, Pass(env, files, dirs), dirs, ranks, n)
  {
    PassSettles(env, files, dirs, |dirs|, ranks, n);
    assert dirs[..|dirs|] == dirs;
  }

  /** After `n` passes every report of rank below `n` equals its recomputation. */
  lemma {:induction false} PassesSettle(env: Env, files: Files, dirs: seq<string>, ranks: map<string, nat>, n: nat)
    requires NoDuplicates(dirs) && Ranked(env, files, dirs, ranks)
    ensures SettledBelow(env, Passes(env, files, dirs, n), dirs, ranks, n)
  {
    if n > 0 {
      PassesSettle(env, files, dirs, ranks, n - 1);
      PassesRanked(env, files, dirs, ranks, n - 1);
      WholePassSettles(env, Passes(env, files, dirs, n - 1), dirs, ranks, n - 1);
    }
  }

  /** And that content is final: no later pass touches it. */
  lemma {:induction false} SettledIsFinal(env: Env, files: Files, dirs: seq<string>, ranks: map<string, nat>, n: nat, m: nat)
    requires NoDuplicates(dirs) && Ranked(env, files, dirs, ranks) && n <= m
    ensures SameBelow(Passes(env, files, dirs, n), Passes(env, files, dirs, m), dirs, ranks, n)
    decreases m
  {
    if n < m {
      SettledIsFinal(env, files, dirs, ranks, n, m - 1);
      OneMorePassIsQuiet(env, files, dirs, ranks, n, m - 1);
      SameThrough(Passes(env, files, dirs, n), Passes(env, files, dirs, m - 1), Passes(env, files, dirs, m), dirs, ranks, n);
    }
  }

  lemma OneMorePassIsQuiet(env: Env, files: Files, dirs: seq<string>, ranks: map<string, nat>, n: nat, m: nat)
    requires NoDuplicates(dirs) && Ranked(env, files, dirs, ranks) && n <= m
    ensures SameBelow(Passes(env, files, dirs, m), Passes(env, files, dirs, m + 1), dirs, ranks, n)
  {
    PassesSettle(env, files, dirs, ranks, m);
    PassesRanked(env, files, dirs, ranks, m);
    WholePassSettles(env, Passes(env, files, dirs, m), dirs, ranks, m);
  }

  /** The refresh leaves every report equal to its recomputation that depends on no more
      than three links read against the visiting order, one after the other. */
  lemma RefreshSettles(env: Env, files: Files, dirs: seq<string>, ranks: map<string, nat>)
    requires NoDuplicates(dirs) && Ranked(env, files, dirs, ranks)
    ensures SettledBelow(env, Refresh(env, files, dirs, PASSES), dirs, ranks, PASSES)
    ensures Refreshed(files, Refresh(env, files, dirs, PASSES), dirs)
  {
    RefreshIsPasses(env, files, dirs, PASSES);
    PassesSettle(env, files, dirs, ranks, PASSES);
    PassesKeep(env, files, dirs, PASSES);
  }
}
