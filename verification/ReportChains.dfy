/** Chains of reports that hash one another: the exact number of passes they need, for
    any visiting order, and a chain of five that four passes leave unsettled. */
module ReportChains {
  import opened Plans
  import opened Fingerprints

  // ---- one link ---------------------------------------------------------------------------

  /** The report in `d` can be refreshed and carries a digest of the report in `e`, which
      is that of its input directory; none of its manifests is a report. */
  ghost predicate LinkedTo(env: Env, files: Files, d: string, e: string) {
    && CanRefresh(env, files, d) && ReportPath(e) in files
    && var r := files[ReportPath(d)].report;
       r.fingerprints.Some? && InputBuildReport in r.fingerprints.value && Rooted(env, r.inputDir.value) == e
       && NoReports(Manifests(env, r))
  }

  ghost predicate NoReports(paths: seq<string>) {
    forall q, d: string :: q in paths ==> q != ReportPath(d)
  }

  function LinkDigest(files: Files, d: string): Digest
    requires Readable(files, d)
  {
    var r := files[ReportPath(d)].report;
    if r.fingerprints.Some? && InputBuildReport in r.fingerprints.value then r.fingerprints.value[InputBuildReport] else ""
  }

  lemma LinkRecomputed(env: Env, files: Files, d: string, e: string)
    requires LinkedTo(env, files, d, e)
    ensures LinkDigest(RefreshOne(env, files, d), d) == env.digest(files[ReportPath(e)])
  {
    var r := files[ReportPath(d)].report;
    var wants := ReportWants(env, files, r);
    assert wants[2] == (InputBuildReport, FileDigest(env, files, ReportPath(e)));
    WantsAreDistinct(env, files, d, r);
    RenewAllAvailable(r.fingerprints.value, wants);
    RenewAllMeets(r.fingerprints.value, wants);
  }

  // ---- links stay links -------------------------------------------------------------------

  /** The same keys are wanted, and a digest can be had for one if it can for the other. */
  predicate AlikeWants(a: seq<Want>, b: seq<Want>) {
    |a| == |b| && forall i :: 0 <= i < |a| ==> a[i].0 == b[i].0 && (a[i].1.Some? ==> b[i].1.Some?)
  }

  lemma AlikeAvailable(p: Prints, q: Prints, a: seq<Want>, b: seq<Want>)
    requires p.Keys == q.Keys && AlikeWants(a, b) && Available(p, a)
    ensures Available(q, b)
  {
    forall i | 0 <= i < |b| && b[i].0 in q ensures b[i].1.Some? {
      assert a[i].0 in p.Keys;
    }
  }

  lemma SkillDigestStays(env: Env, f: Files, g: Files, dirs: seq<string>, manifests: seq<string>)
    requires Refreshed(f, g, dirs) && NoReports(manifests)
    ensures SkillDigest(env, f, manifests) == SkillDigest(env, g, manifests)
  {
    forall d: string ensures SameAt(f, g, SkillFile(d)) {
      forall e | e in dirs ensures SkillFile(d) != ReportPath(e) {
        SkillFilesAreNotReports(d, e);
      }
    }
    SkillDigestFrame(env, f, g, manifests);
  }

  lemma AlikeConcat(a: seq<Want>, b: seq<Want>, c: seq<Want>, d: seq<Want>)
    requires AlikeWants(a, b) && AlikeWants(c, d)
    ensures AlikeWants(a + c, b + d)
  {
    forall i | 0 <= i < |a + c| ensures (a + c)[i].0 == (b + d)[i].0 && ((a + c)[i].1.Some? ==> (b + d)[i].1.Some?) {
      assert (a + c)[i] == if i < |a| then a[i] else c[i - |a|];
      assert (b + d)[i] == if i < |b| then b[i] else d[i - |b|];
    }
  }

  function ManifestWant(env: Env, files: Files, key: Key, manifest: Option<string>): seq<Want> {
    if Given(manifest) then [(key, FileDigest(env, files, Rooted(env, manifest.value)))] else []
  }

  lemma ManifestWantStays(env: Env, f: Files, g: Files, key: Key, manifest: Option<string>)
    requires g.Keys == f.Keys
    ensures AlikeWants(ManifestWant(env, f, key, manifest), ManifestWant(env, g, key, manifest))
  {
    if Given(manifest) {
      assert Rooted(env, manifest.value) in f.Keys <==> Rooted(env, manifest.value) in g.Keys;
    }
  }

  lemma ManifestWantsStay(env: Env, f: Files, g: Files, dirs: seq<string>, r: Report)
    requires Refreshed(f, g, dirs) && NoReports(Manifests(env, r))
    ensures AlikeWants(ManifestWants(env, f, r), ManifestWants(env, g, r))
  {
    var skills := if Manifests(env, r) == [] then None else SkillDigest(env, f, Manifests(env, r));
    var train, train' := ManifestWant(env, f, TrainManifestKey, TrainManifest(r)), ManifestWant(env, g, TrainManifestKey, TrainManifest(r));
    var eval, eval' := ManifestWant(env, f, EvalManifestKey, r.evalManifest), ManifestWant(env, g, EvalManifestKey, r.evalManifest);
    SkillDigestStays(env, f, g, dirs, Manifests(env, r));
    ManifestWantStays(env, f, g, TrainManifestKey, TrainManifest(r));
    ManifestWantStays(env, f, g, EvalManifestKey, r.evalManifest);
    AlikeConcat(train, train', eval, eval');
    AlikeConcat(train + eval, train' + eval', [(SkillContent, skills)], [(SkillContent, skills)]);
  }

  lemma InputWantsStay(env: Env, f: Files, g: Files, dir: string)
    requires g.Keys == f.Keys
    ensures AlikeWants(InputWants(env, f, dir), InputWants(env, g, dir))
  {
    assert ReportPath(dir) in f.Keys <==> ReportPath(dir) in g.Keys;
  }

  lemma ReportWantsStay(env: Env, f: Files, g: Files, dirs: seq<string>, r: Report)
    requires Refreshed(f, g, dirs) && NoReports(Manifests(env, r)) && r.inputDir.Some?
    ensures AlikeWants(ReportWants(env, f, r), ReportWants(env, g, r))
  {
    var input := Rooted(env, r.inputDir.value);
    InputWantsStay(env, f, g, input);
    ManifestWantsStay(env, f, g, dirs, r);
    AlikeConcat(InputWants(env, f, input), InputWants(env, g, input), ManifestWants(env, f, r), ManifestWants(env, g, r));
  }

  /** A report that can be refreshed still can be when digests elsewhere have changed. */
  lemma AlikeRenewed(p: Prints, q: Prints, a: seq<Want>, b: seq<Want>)
    requires p.Keys == q.Keys && AlikeWants(a, b) && RenewAll(p, a).Some?
    ensures RenewAll(q, b).Some?
  {
    RenewAllAvailable(p, a);
    AlikeAvailable(p, q, a, b);
    RenewAllAvailable(q, b);
  }

  lemma RecomputedStays(env: Env, f: Files, g: Files, dirs: seq<string>, d: string, r: Report, s: Report)
    requires Refreshed(f, g, dirs) && SameShape(r, s) && NoReports(Manifests(env, r))
    requires Recomputed(env, f, d, r).Some?
    ensures Recomputed(env, g, d, s).Some?
  {
    if r.fingerprints.Some? {
      ReportWantsStay(env, f, g, dirs, r);
      SameWants(env, g, r, s);
      AlikeRenewed(r.fingerprints.value, s.fingerprints.value, ReportWants(env, f, r), ReportWants(env, g, s));
      if r.outputs.Some? {
        AlikeRenewed(r.outputs.value, s.outputs.value, OutputWants(env, f, d), OutputWants(env, g, d));
      }
    }
  }

  lemma LinkStays(env: Env, f: Files, g: Files, dirs: seq<string>, d: string, e: string)
    requires LinkedTo(env, f, d, e) && Refreshed(f, g, dirs)
    ensures LinkedTo(env, g, d, e)
  {
    var q := ReportPath(d);
    assert SameForm(f[q], g[q]);
    RecomputedStays(env, f, g, dirs, d, f[q].report, g[q].report);
  }

  /** A linked report reads its source and no other report. */
  lemma LinkReads(env: Env, files: Files, d: string, e: string, other: string)
    requires LinkedTo(env, files, d, e)
    ensures Reads(env, files, d, other) ==> other == e
  {
    ParquetIsNoReport(e + "/train", other);
    ParquetIsNoReport(e + "/eval", other);
    ParquetIsNoReport(d + "/train", other);
    ParquetIsNoReport(d + "/eval", other);
    ParquetNames(e);
    ParquetNames(d);
    if ReportPath(other) == ReportPath(e) {
      ReportPathInjective(other, e);
    }
  }

  lemma ParquetNames(dir: string)
    ensures dir + "/train.parquet" == (dir + "/train") + ".parquet" && dir + "/eval.parquet" == (dir + "/eval") + ".parquet"
  {
    assert "/train.parquet" == "/train" + ".parquet" && "/eval.parquet" == "/eval" + ".parquet";
  }

  lemma ParquetIsNoReport(stem: string, dir: string)
    ensures stem + ".parquet" != ReportPath(dir)
  {
    var p := stem + ".parquet";
    assert p[|p| - 1] == 't';
    assert ReportPath(dir)[|ReportPath(dir)| - 1] == 'n';
  }

  // ---- what a visit reads -----------------------------------------------------------------

  /** Once visited, a report keeps its content until the end of the pass. */
  lemma {:induction false} KeptAfterVisit(env: Env, files: Files, dirs: seq<string>, k: nat, d: string)
    requires k <= |dirs| && d !in dirs[k..]
    ensures SameAt(Pass(env, files, dirs[..k]), Pass(env, files, dirs), ReportPath(d))
    decreases |dirs|
  {
    if k == |dirs| {
      assert dirs[..k] == dirs;
    } else {
      var init, last := dirs[..|dirs| - 1], dirs[|dirs| - 1];
      assert dirs[k..] == init[k..] + [last];
      assert init[..k] == dirs[..k];
      KeptAfterVisit(env, files, init, k, d);
      RefreshOneKeeps(env, Pass(env, files, init), last);
      if ReportPath(d) == ReportPath(last) {
        ReportPathInjective(d, last);
      }
    }
  }

  lemma VisitReads(env: Env, files: Files, dirs: seq<string>, k: nat, e: string)
    requires NoDuplicates(dirs) && k < |dirs| && LinkedTo(env, files, dirs[k], e)
    ensures var before, after := Pass(env, files, dirs[..k]), Pass(env, files, dirs);
      && Readable(after, dirs[k]) && ReportPath(e) in before
      && LinkDigest(after, dirs[k]) == env.digest(before[ReportPath(e)])
  {
    var before := Pass(env, files, dirs[..k]);
    PassKeeps(env, files, dirs[..k]);
    LinkStays(env, files, before, dirs[..k], dirs[k], e);
    LinkRecomputed(env, before, dirs[k], e);
    RefreshOneKeeps(env, before, dirs[k]);
    VisitLasts(env, files, dirs, k);
  }

  lemma VisitLasts(env: Env, files: Files, dirs: seq<string>, k: nat)
    requires NoDuplicates(dirs) && k < |dirs|
    ensures SameAt(RefreshOne(env, Pass(env, files, dirs[..k]), dirs[k]), Pass(env, files, dirs), ReportPath(dirs[k]))
  {
    PassVisits(env, files, dirs, k + 1);
    NotAmong(dirs, k + 1, |dirs|, k);
    assert dirs[k + 1..|dirs|] == dirs[k + 1..];
    KeptAfterVisit(env, files, dirs, k + 1, dirs[k]);
  }

  /** The source is visited after the reader. */
  predicate Against(dirs: seq<string>, reader: string, source: string) {
    IndexOf(dirs, reader) < IndexOf(dirs, source)
  }

  /** A link against the visiting order carries the source's digest of the pass before,
      any other link that of the same pass. */
  lemma PassReads(env: Env, files: Files, dirs: seq<string>, d: string, e: string)
    requires NoDuplicates(dirs) && d in dirs && e in dirs && d != e && LinkedTo(env, files, d, e)
    ensures var after := Pass(env, files, dirs);
      && LinkedTo(env, after, d, e)
      && LinkDigest(after, d) == env.digest(if Against(dirs, d, e) then files[ReportPath(e)] else after[ReportPath(e)])
  {
    var k, j := IndexOf(dirs, d), IndexOf(dirs, e);
    PassKeeps(env, files, dirs);
    LinkStays(env, files, Pass(env, files, dirs), dirs, d, e);
    VisitReads(env, files, dirs, k, e);
    if k < j {
      NotAmong(dirs, 0, k, j);
      Untouched(env, files, dirs[..k], e);
    } else {
      NotAmong(dirs, k, |dirs|, j);
      assert dirs[k..|dirs|] == dirs[k..];
      KeptAfterVisit(env, files, dirs, k, e);
    }
  }

  lemma NotAmong(dirs: seq<string>, lo: nat, hi: nat, j: nat)
    requires NoDuplicates(dirs) && lo <= hi <= |dirs| && j < |dirs| && !(lo <= j < hi)
    ensures dirs[j] !in dirs[lo..hi]
  {
    forall i | lo <= i < hi ensures dirs[i] != dirs[j] {
      DifferentValues(dirs, i, j);
    }
  }

  lemma DifferentValues(dirs: seq<string>, i: nat, j: nat)
    requires NoDuplicates(dirs) && i < |dirs| && j < |dirs|
    ensures i != j ==> dirs[i] != dirs[j]
  {
  }

  // ---- chains -----------------------------------------------------------------------------

  /** A chain within the tree: each of its reports hashes the one before it. */
  ghost predicate Chained(env: Env, files: Files, dirs: seq<string>, chain: seq<string>) {
    && NoDuplicates(dirs) && NoDuplicates(chain) && chain != []
    && (forall d :: d in chain ==> d in dirs)
    && (forall i :: 0 < i < |chain| ==> LinkAt(env, files, chain, i))
  }

  ghost predicate LinkAt(env: Env, files: Files, chain: seq<string>, i: nat)
    requires 0 < i < |chain|
  {
    LinkedTo(env, files, chain[i], chain[i - 1])
  }

  /** The chain begins at a report that reads no listed report. */
  ghost predicate FromTheSource(env: Env, files: Files, dirs: seq<string>, chain: seq<string>)
    requires chain != []
  {
    forall d :: d in dirs ==> !Reads(env, files, chain[0], d)
  }

  /** Links read against the visiting order among the first `i`. */
  function LinksAgainst(dirs: seq<string>, chain: seq<string>, i: nat): nat
    requires i < |chain|
  {
    if i == 0 then 0
    else LinksAgainst(dirs, chain, i - 1) + if Against(dirs, chain[i], chain[i - 1]) then 1 else 0
  }

  function PassesNeeded(dirs: seq<string>, chain: seq<string>): nat
    requires chain != []
  {
    1 + LinksAgainst(dirs, chain, |chain| - 1)
  }

  lemma {:induction false} LinksGrow(dirs: seq<string>, chain: seq<string>, i: nat, j: nat)
    requires i <= j < |chain|
    ensures LinksAgainst(dirs, chain, i) <= LinksAgainst(dirs, chain, j)
    decreases j
  {
    if i < j {
      LinksGrow(dirs, chain, i, j - 1);
    }
  }

  function ChainRanks(dirs: seq<string>, chain: seq<string>): map<string, nat> {
    map d | d in chain :: LinksAgainst(dirs, chain, IndexOf(chain, d))
  }

  lemma ChainIsRanked(env: Env, files: Files, dirs: seq<string>, chain: seq<string>)
    requires Chained(env, files, dirs, chain) && FromTheSource(env, files, dirs, chain)
    ensures Ranked(env, files, dirs, ChainRanks(dirs, chain))
  {
    var ranks := ChainRanks(dirs, chain);
    forall i, j | 0 <= i < |dirs| && 0 <= j < |dirs| && dirs[i] in ranks && Reads(env, files, dirs[i], dirs[j])
      ensures Precedes(dirs, ranks, j, i)
    {
      IndexOfDistinct(dirs, i);
      IndexOfDistinct(dirs, j);
      LinkIsRanked(env, files, dirs, chain, IndexOf(chain, dirs[i]), dirs[j]);
    }
  }

  lemma LinkIsRanked(env: Env, files: Files, dirs: seq<string>, chain: seq<string>, i: nat, e: string)
    requires Chained(env, files, dirs, chain) && FromTheSource(env, files, dirs, chain)
    requires i < |chain| && e in dirs && Reads(env, files, chain[i], e)
    ensures e in chain
    ensures var ranks, d := ChainRanks(dirs, chain), chain[i];
      if IndexOf(dirs, e) < IndexOf(dirs, d) then ranks[e] <= ranks[d] else ranks[e] < ranks[d]
  {
    IndexOfDistinct(chain, i);
    assert i > 0 && LinkAt(env, files, chain, i);
    LinkReads(env, files, chain[i], chain[i - 1], e);
    IndexOfDistinct(chain, i - 1);
    DifferentPlaces(dirs, chain[i], chain[i - 1]);
  }

  lemma DifferentPlaces(dirs: seq<string>, d: string, e: string)
    requires d in dirs && e in dirs && d != e
    ensures IndexOf(dirs, d) != IndexOf(dirs, e)
  {
    assert dirs[IndexOf(dirs, d)] == d && dirs[IndexOf(dirs, e)] == e;
  }

  /** The version of a report after `p` passes. */
  function Version(env: Env, files: Files, dirs: seq<string>, d: string, p: nat): Content {
    var after := Passes(env, files, dirs, p);
    if ReportPath(d) in after then after[ReportPath(d)] else Blob("")
  }

  /** No two successive versions of a report of the chain share a digest by chance. */
  ghost predicate NoCollision(env: Env, files: Files, dirs: seq<string>, chain: seq<string>) {
    forall d, p: nat :: d in chain ==> Tells(env, files, dirs, d, p)
  }

  /** The digest tells if pass `p + 1` changes the report. */
  predicate Tells(env: Env, files: Files, dirs: seq<string>, d: string, p: nat) {
    Moves(env, files, dirs, d, p) ==>
      env.digest(Version(env, files, dirs, d, p)) != env.digest(Version(env, files, dirs, d, p + 1))
  }

  /** Pass `p + 1` changes the report. */
  predicate Moves(env: Env, files: Files, dirs: seq<string>, d: string, p: nat) {
    Version(env, files, dirs, d, p) != Version(env, files, dirs, d, p + 1)
  }

  lemma VersionDigest(env: Env, files: Files, dirs: seq<string>, chain: seq<string>, i: nat, p: nat)
    requires Chained(env, files, dirs, chain) && 0 < i < |chain|
    ensures var d, e, after := chain[i], chain[i - 1], Passes(env, files, dirs, p + 1);
      && LinkedTo(env, after, d, e) && Version(env, files, dirs, d, p + 1) == after[ReportPath(d)]
      && LinkDigest(after, d) == env.digest(Version(env, files, dirs, e, if Against(dirs, d, e) then p else p + 1))
  {
    var f := Passes(env, files, dirs, p);
    assert LinkAt(env, files, chain, i);
    PassesKeep(env, files, dirs, p);
    LinkStays(env, files, f, dirs, chain[i], chain[i - 1]);
    PassReads(env, f, dirs, chain[i], chain[i - 1]);
  }

  /** A change travels a link: at once along the visiting order, one pass later against it. */
  lemma MovesAlong(env: Env, files: Files, dirs: seq<string>, chain: seq<string>, i: nat, p: nat)
    requires Chained(env, files, dirs, chain) && NoCollision(env, files, dirs, chain) && 0 < i < |chain|
    requires Moves(env, files, dirs, chain[i - 1], p)
    ensures Against(dirs, chain[i], chain[i - 1]) ==> Moves(env, files, dirs, chain[i], p + 1)
    ensures !Against(dirs, chain[i], chain[i - 1]) && p > 0 ==> Moves(env, files, dirs, chain[i], p)
  {
    assert Tells(env, files, dirs, chain[i - 1], p);
    if Against(dirs, chain[i], chain[i - 1]) {
      VersionDigest(env, files, dirs, chain, i, p);
      VersionDigest(env, files, dirs, chain, i, p + 1);
    } else if p > 0 {
      VersionDigest(env, files, dirs, chain, i, p - 1);
      VersionDigest(env, files, dirs, chain, i, p);
    }
  }

  /** `h` is the last report before the first link against the visiting order. */
  predicate BeforeFirstAgainst(dirs: seq<string>, chain: seq<string>, h: nat) {
    h < |chain| && LinksAgainst(dirs, chain, h) == 0 && (h + 1 < |chain| ==> LinksAgainst(dirs, chain, h + 1) == 1)
  }

  lemma {:induction false} ChainMoves(env: Env, files: Files, dirs: seq<string>, chain: seq<string>, h: nat, i: nat)
    requires Chained(env, files, dirs, chain) && NoCollision(env, files, dirs, chain)
    requires BeforeFirstAgainst(dirs, chain, h) && Moves(env, files, dirs, chain[h], 0)
    requires h <= i < |chain|
    ensures Moves(env, files, dirs, chain[i], LinksAgainst(dirs, chain, i))
  {
    if h < i {
      ChainMoves(env, files, dirs, chain, h, i - 1);
      AgainstFromThere(dirs, chain, h, i);
      LinkMoves(env, files, dirs, chain, i);
    }
  }

  lemma AgainstFromThere(dirs: seq<string>, chain: seq<string>, h: nat, i: nat)
    requires BeforeFirstAgainst(dirs, chain, h) && h < i < |chain|
    ensures LinksAgainst(dirs, chain, i) > 0
  {
    LinksGrow(dirs, chain, h + 1, i);
  }

  lemma LinkMoves(env: Env, files: Files, dirs: seq<string>, chain: seq<string>, i: nat)
    requires Chained(env, files, dirs, chain) && NoCollision(env, files, dirs, chain) && 0 < i < |chain|
    requires Moves(env, files, dirs, chain[i - 1], LinksAgainst(dirs, chain, i - 1)) && LinksAgainst(dirs, chain, i) > 0
    ensures Moves(env, files, dirs, chain[i], LinksAgainst(dirs, chain, i))
  {
    MovesAlong(env, files, dirs, chain, i, LinksAgainst(dirs, chain, i - 1));
  }

  /** Every count up to the last is reached. */
  lemma {:induction false} SomeLinkReaches(dirs: seq<string>, chain: seq<string>, h: nat, j: nat, n: nat) returns (i: nat)
    requires h <= j < |chain| && LinksAgainst(dirs, chain, h) <= n <= LinksAgainst(dirs, chain, j)
    ensures h <= i <= j && LinksAgainst(dirs, chain, i) == n
    decreases j
  {
    i := j;
    if LinksAgainst(dirs, chain, j) > n {
      i := SomeLinkReaches(dirs, chain, h, j - 1, n);
    }
  }

  lemma SomethingMoves(env: Env, files: Files, dirs: seq<string>, chain: seq<string>, h: nat, n: nat) returns (d: string)
    requires Chained(env, files, dirs, chain) && NoCollision(env, files, dirs, chain)
    requires BeforeFirstAgainst(dirs, chain, h) && Moves(env, files, dirs, chain[h], 0)
    requires n < PassesNeeded(dirs, chain)
    ensures d in chain && Moves(env, files, dirs, d, n)
  {
    var i := SomeLinkReaches(dirs, chain, h, |chain| - 1, n);
    ChainMoves(env, files, dirs, chain, h, i);
    d := chain[i];
  }

  lemma StillMoving(env: Env, files: Files, dirs: seq<string>, d: string, n: nat)
    requires NoDuplicates(dirs) && Moves(env, files, dirs, d, n)
    ensures !(forall e :: e in dirs ==> Settled(env, Passes(env, files, dirs, n), e))
  {
    QuietPassMeansSettled(env, Passes(env, files, dirs, n), dirs);
  }

  /** In any tree, whatever its other reports read and wherever the chain begins: the tree
      is not settled as long as the passes do not exceed the links of a chain that are read
      against the visiting order, once a change reaches the first of them. */
  lemma ChainOutlasts(env: Env, files: Files, dirs: seq<string>, chain: seq<string>, h: nat, n: nat)
    requires Chained(env, files, dirs, chain) && NoCollision(env, files, dirs, chain)
    requires BeforeFirstAgainst(dirs, chain, h) && Moves(env, files, dirs, chain[h], 0)
    requires n < PassesNeeded(dirs, chain)
    ensures !(forall d :: d in dirs ==> Settled(env, Passes(env, files, dirs, n), d))
  {
    var d := SomethingMoves(env, files, dirs, chain, h, n);
    StillMoving(env, files, dirs, d, n);
  }

  lemma EnoughPasses(env: Env, files: Files, dirs: seq<string>, chain: seq<string>, n: nat)
    requires Chained(env, files, dirs, chain) && FromTheSource(env, files, dirs, chain) && n >= PassesNeeded(dirs, chain)
    ensures forall d :: d in chain ==> Settled(env, Passes(env, files, dirs, n), d)
  {
    ChainIsRanked(env, files, dirs, chain);
    ChainRankBelow(dirs, chain, n);
    PassesSettle(env, files, dirs, ChainRanks(dirs, chain), n);
  }

  lemma ChainRankBelow(dirs: seq<string>, chain: seq<string>, n: nat)
    requires chain != [] && n >= PassesNeeded(dirs, chain)
    ensures forall d :: d in chain ==> Below(ChainRanks(dirs, chain), d, n)
    ensures forall d :: Below(ChainRanks(dirs, chain), d, n) ==> d in chain
  {
    forall d | d in chain ensures Below(ChainRanks(dirs, chain), d, n) {
      LinksGrow(dirs, chain, IndexOf(chain, d), |chain| - 1);
    }
  }

  /** A chain that is settled stays as it is. */
  lemma SettledChainRests(env: Env, files: Files, dirs: seq<string>, chain: seq<string>, n: nat, d: string)
    requires Chained(env, files, dirs, chain) && FromTheSource(env, files, dirs, chain) && d in chain
    requires forall c :: c in chain ==> Settled(env, Passes(env, files, dirs, n), c)
    ensures !Moves(env, files, dirs, d, n)
  {
    var ranks, m := ChainRanks(dirs, chain), PassesNeeded(dirs, chain);
    ChainIsRanked(env, files, dirs, chain);
    PassesRanked(env, files, dirs, ranks, n);
    ChainRankBelow(dirs, chain, m);
    WholePassSettles(env, Passes(env, files, dirs, n), dirs, ranks, m);
    assert SameAt(Passes(env, files, dirs, n), Passes(env, files, dirs, n + 1), ReportPath(d));
  }

  /** In any tree, the reports of a chain from its source on are settled after `n` passes
      if and only if `n` exceeds the number of the chain's links read against the visiting
      order, once a change reaches the first of them. */
  lemma ChainNeedsPasses(env: Env, files: Files, dirs: seq<string>, chain: seq<string>, h: nat, n: nat)
    requires Chained(env, files, dirs, chain) && FromTheSource(env, files, dirs, chain)
    requires NoCollision(env, files, dirs, chain)
    requires BeforeFirstAgainst(dirs, chain, h) && Moves(env, files, dirs, chain[h], 0)
    ensures (forall d :: d in chain ==> Settled(env, Passes(env, files, dirs, n), d)) <==> n >= PassesNeeded(dirs, chain)
  {
    if n >= PassesNeeded(dirs, chain) {
      EnoughPasses(env, files, dirs, chain, n);
    } else {
      var d := SomethingMoves(env, files, dirs, chain, h, n);
      if forall c :: c in chain ==> Settled(env, Passes(env, files, dirs, n), c) {
        SettledChainRests(env, files, dirs, chain, n, d);
      }
    }
  }

  /** The source is out of date, that is, its recomputation differs from it, and every link
      holds the digest that its source has now. */
  predicate SourceStale(env: Env, files: Files, chain: seq<string>)
    requires chain != []
  {
    !Settled(env, files, chain[0]) && forall i :: 0 < i < |chain| ==> CurrentAt(env, files, chain, i)
  }

  predicate CurrentAt(env: Env, files: Files, chain: seq<string>, i: nat)
    requires 0 < i < |chain|
  {
    var d, e := chain[i], chain[i - 1];
    Readable(files, d) && ReportPath(e) in files && LinkDigest(files, d) == env.digest(files[ReportPath(e)])
  }

  /** Files that differ in unread reports only give a report the same recomputation. */
  lemma SettledAmong(env: Env, f: Files, g: Files, dirs: seq<string>, d: string)
    requires Refreshed(f, g, dirs) && SameAt(f, g, ReportPath(d))
    requires forall e :: e in dirs ==> !Reads(env, f, d, e)
    ensures Settled(env, f, d) <==> Settled(env, g, d)
  {
    forall t: string ensures SameAt(f, g, SkillFile(t)) {
      forall e | e in dirs ensures SkillFile(t) != ReportPath(e) {
        SkillFilesAreNotReports(t, e);
      }
    }
    if Readable(f, d) {
      RecomputedFrame(env, f, g, d, f[ReportPath(d)].report);
    }
  }

  lemma StaleSourceMoves(env: Env, files: Files, dirs: seq<string>, chain: seq<string>)
    requires Chained(env, files, dirs, chain) && FromTheSource(env, files, dirs, chain)
    requires !Settled(env, files, chain[0])
    ensures Moves(env, files, dirs, chain[0], 0)
  {
    var d, k := chain[0], IndexOf(dirs, chain[0]);
    SourceStaleWhenVisited(env, files, dirs, chain);
    PassKeeps(env, files, dirs[..k]);
    RefreshOneKeeps(env, Pass(env, files, dirs[..k]), d);
    VisitLasts(env, files, dirs, k);
    assert Passes(env, files, dirs, 1) == Pass(env, files, dirs);
  }

  lemma SourceStaleWhenVisited(env: Env, files: Files, dirs: seq<string>, chain: seq<string>)
    requires Chained(env, files, dirs, chain) && FromTheSource(env, files, dirs, chain)
    requires !Settled(env, files, chain[0])
    ensures var before := Pass(env, files, dirs[..IndexOf(dirs, chain[0])]);
      SameAt(files, before, ReportPath(chain[0])) && RefreshOne(env, before, chain[0]) != before
  {
    var d, k := chain[0], IndexOf(dirs, chain[0]);
    var before := Pass(env, files, dirs[..k]);
    PassKeeps(env, files, dirs[..k]);
    NotAmong(dirs, 0, k, k);
    Untouched(env, files, dirs[..k], d);
    SettledAmong(env, files, before, dirs[..k], d);
    SettledIsKept(env, before, d);
  }

  lemma {:induction false} StaleUpTo(env: Env, files: Files, dirs: seq<string>, chain: seq<string>, i: nat)
    requires Chained(env, files, dirs, chain) && FromTheSource(env, files, dirs, chain)
    requires NoCollision(env, files, dirs, chain) && SourceStale(env, files, chain)
    requires i < |chain| && LinksAgainst(dirs, chain, i) == 0
    ensures Moves(env, files, dirs, chain[i], 0)
  {
    if i == 0 {
      StaleSourceMoves(env, files, dirs, chain);
    } else {
      StaleUpTo(env, files, dirs, chain, i - 1);
      VersionDigest(env, files, dirs, chain, i, 0);
      assert CurrentAt(env, files, chain, i) && Tells(env, files, dirs, chain[i - 1], 0);
      assert Version(env, files, dirs, chain[i], 0) == files[ReportPath(chain[i])];
    }
  }

  lemma {:induction false} FindFirstAgainst(dirs: seq<string>, chain: seq<string>, i: nat) returns (h: nat)
    requires i < |chain| && LinksAgainst(dirs, chain, i) == 0
    ensures BeforeFirstAgainst(dirs, chain, h)
    decreases |chain| - i
  {
    h := i;
    if i + 1 < |chain| && !Against(dirs, chain[i + 1], chain[i]) {
      h := FindFirstAgainst(dirs, chain, i + 1);
    }
  }

  /** In any tree, a chain whose source is out of date is settled after `n` passes if and
      only if `n` exceeds the number of its links read against the visiting order. */
  lemma StaleSourceNeedsPasses(env: Env, files: Files, dirs: seq<string>, chain: seq<string>, n: nat)
    requires Chained(env, files, dirs, chain) && FromTheSource(env, files, dirs, chain)
    requires NoCollision(env, files, dirs, chain) && SourceStale(env, files, chain)
    ensures (forall d :: d in chain ==> Settled(env, Passes(env, files, dirs, n), d)) <==> n >= PassesNeeded(dirs, chain)
  {
    var h := FindFirstAgainst(dirs, chain, 0);
    StaleUpTo(env, files, dirs, chain, h);
    ChainNeedsPasses(env, files, dirs, chain, h, n);
  }

  /** So the four passes of the source settle it exactly when at most three links are read
      against the visiting order. */
  lemma RefreshSettlesChain(env: Env, files: Files, dirs: seq<string>, chain: seq<string>)
    requires Chained(env, files, dirs, chain) && FromTheSource(env, files, dirs, chain)
    requires NoCollision(env, files, dirs, chain) && SourceStale(env, files, chain)
    ensures (forall d :: d in chain ==> Settled(env, Refresh(env, files, dirs, PASSES), d))
      <==> LinksAgainst(dirs, chain, |chain| - 1) <= 3
  {
    RefreshIsPasses(env, files, dirs, PASSES);
    StaleSourceNeedsPasses(env, files, dirs, chain, PASSES);
  }

  // ---- a chain of five ---------------------------------------------------------------------

  /** Five reports in sorted order, each hashing the next one; the last hashes a data file
      that has changed since. */
  const FIVE_DIRS: seq<string> := ["/a", "/b", "/c", "/d", "/e"]
  const FIVE_CHAIN: seq<string> := ["/e", "/d", "/c", "/b", "/a"]

  function TextDigest(c: Content): Digest {
    match c
    case Blob(bytes) => bytes
    case Document(r) =>
      if r.fingerprints.None? then ""
      else if InputBuildReport in r.fingerprints.value then "d" + r.fingerprints.value[InputBuildReport]
      else if InputTrain in r.fingerprints.value then "d" + r.fingerprints.value[InputTrain]
      else ""
  }

  function FiveEnv(): Env {
    Env("/", TextDigest, (c: Content) => None, (m: map<string, Digest>) => "")
  }

  function Hashing(input: string, key: Key, digest: Digest): Content {
    Document(Report(Some(input), None, None, None, Some(map[key := digest]), None, ""))
  }

  /** The digest each report holds: of the data as it was, and of the report before. */
  function Carried(n: nat): Digest {
    if n == 0 then "old" else "d" + Carried(n - 1)
  }

  function FiveFiles(): Files {
    map["/x/train.parquet" := Blob("new"),
        ReportPath("/e") := Hashing("/x", InputTrain, Carried(0)),
        ReportPath("/d") := Hashing("/e", InputBuildReport, Carried(1)),
        ReportPath("/c") := Hashing("/d", InputBuildReport, Carried(2)),
        ReportPath("/b") := Hashing("/c", InputBuildReport, Carried(3)),
        ReportPath("/a") := Hashing("/b", InputBuildReport, Carried(4))]
  }

  lemma FivePaths()
    ensures ReportPath("/a")[1] == 'a' && ReportPath("/b")[1] == 'b' && ReportPath("/c")[1] == 'c'
    ensures ReportPath("/d")[1] == 'd' && ReportPath("/e")[1] == 'e' && "/x/train.parquet"[1] == 'x'
  {
  }

  lemma FiveContents(i: nat)
    requires i < 5
    ensures var f, q := FiveFiles(), ReportPath(FIVE_CHAIN[i]);
      q in f && f[q] == if i == 0 then Hashing("/x", InputTrain, Carried(0)) else Hashing(FIVE_CHAIN[i - 1], InputBuildReport, Carried(i))
    ensures "/x/train.parquet" in FiveFiles() && FiveFiles()["/x/train.parquet"] == Blob("new")
  {
    FivePaths();
  }

  lemma FiveLink(i: nat)
    requires 0 < i < 5
    ensures LinkAt(FiveEnv(), FiveFiles(), FIVE_CHAIN, i) && CurrentAt(FiveEnv(), FiveFiles(), FIVE_CHAIN, i)
  {
    FiveContents(i);
    FiveContents(i - 1);
    FiveRooted(i - 1);
    HashesReport(FiveEnv(), FiveFiles(), FIVE_CHAIN[i], FIVE_CHAIN[i - 1], Carried(i));
  }

  lemma FiveRooted(i: nat)
    requires i < 5
    ensures "/" <= FIVE_CHAIN[i]
  {
  }

  lemma HashesReport(env: Env, files: Files, d: string, e: string, was: Digest)
    requires ReportPath(d) in files && ReportPath(e) in files && Rooted(env, e) == e
    requires files[ReportPath(d)] == Hashing(e, InputBuildReport, was)
    ensures LinkedTo(env, files, d, e) && LinkDigest(files, d) == was
  {
    var r := files[ReportPath(d)].report;
    var wants := ReportWants(env, files, r);
    assert wants[2] == (InputBuildReport, FileDigest(env, files, ReportPath(e)));
    WantsAreDistinct(env, files, d, r);
    OneKeyAvailable(r.fingerprints.value, wants, 2);
  }

  lemma FiveIsChained()
    ensures Chained(FiveEnv(), FiveFiles(), FIVE_DIRS, FIVE_CHAIN)
    ensures FromTheSource(FiveEnv(), FiveFiles(), FIVE_DIRS, FIVE_CHAIN)
  {
    FiveDistinct();
    forall i: nat | 0 < i < |FIVE_CHAIN| ensures LinkAt(FiveEnv(), FiveFiles(), FIVE_CHAIN, i) {
      FiveLink(i);
    }
    forall d | d in FIVE_DIRS ensures !Reads(FiveEnv(), FiveFiles(), "/e", d) {
      FiveSource(d);
    }
  }

  lemma FiveDistinct()
    ensures NoDuplicates(FIVE_DIRS) && NoDuplicates(FIVE_CHAIN)
  {
    assert "/a"[1] == 'a' && "/b"[1] == 'b' && "/c"[1] == 'c' && "/d"[1] == 'd' && "/e"[1] == 'e';
  }

  lemma FiveSource(d: string)
    requires d in FIVE_CHAIN
    ensures !Reads(FiveEnv(), FiveFiles(), "/e", d)
  {
    FiveContents(0);
    ParquetNames("/x");
    ParquetNames("/e");
    ParquetIsNoReport("/x" + "/train", d);
    ParquetIsNoReport("/x" + "/eval", d);
    ParquetIsNoReport("/e" + "/train", d);
    ParquetIsNoReport("/e" + "/eval", d);
    assert ReportPath("/x")[1] == 'x' && ReportPath(d)[1] == d[1];
  }

  lemma FiveSourceIsStale()
    ensures SourceStale(FiveEnv(), FiveFiles(), FIVE_CHAIN)
  {
    forall i: nat | 0 < i < |FIVE_CHAIN| ensures CurrentAt(FiveEnv(), FiveFiles(), FIVE_CHAIN, i) {
      FiveLink(i);
    }
    FiveDataChanged();
  }

  lemma FiveDataChanged()
    ensures !Settled(FiveEnv(), FiveFiles(), FIVE_CHAIN[0])
  {
    FiveContents(0);
    assert "/x" + "/train.parquet" == "/x/train.parquet";
    assert "new"[0] == 'n' && Carried(0)[0] == 'o';
    DataChanged(FiveEnv(), FiveFiles(), "/e", "/x", Carried(0));
  }

  lemma DataChanged(env: Env, files: Files, d: string, input: string, was: Digest)
    requires ReportPath(d) in files && files[ReportPath(d)] == Hashing(input, InputTrain, was) && Rooted(env, input) == input
    requires input + "/train.parquet" in files && env.digest(files[input + "/train.parquet"]) != was
    ensures !Settled(env, files, d)
  {
    var r := files[ReportPath(d)].report;
    var wants := ReportWants(env, files, r);
    assert wants[0] == (InputTrain, FileDigest(env, files, input + "/train.parquet"));
    WantsAreDistinct(env, files, d, r);
    OneKeyAvailable(r.fingerprints.value, wants, 0);
    RenewAllMeets(r.fingerprints.value, wants);
  }

  /** A report that carries one digest can be refreshed if that one can be had. */
  lemma OneKeyAvailable(prints: Prints, wants: seq<Want>, i: nat)
    requires DistinctWants(wants) && i < |wants| && prints.Keys == {wants[i].0} && wants[i].1.Some?
    ensures RenewAll(prints, wants).Some?
  {
    forall j | 0 <= j < |wants| && wants[j].0 in prints ensures wants[j].1.Some? {
      assert wants[j].0 in prints.Keys;
    }
    RenewAllAvailable(prints, wants);
  }

  lemma FivePlace(i: nat)
    requires i < 5
    ensures IndexOf(FIVE_DIRS, FIVE_CHAIN[i]) == 4 - i
  {
    FiveDistinct();
    IndexOfDistinct(FIVE_DIRS, 4 - i);
  }

  lemma {:induction false} FiveAgainst(i: nat)
    requires i < 5
    ensures LinksAgainst(FIVE_DIRS, FIVE_CHAIN, i) == i
  {
    if i > 0 {
      FivePlace(i);
      FivePlace(i - 1);
      FiveAgainst(i - 1);
    }
  }

  /** Reports of one shape with a single digest differ in their text digest when they differ. */
  lemma TextDigestTells(a: Content, b: Content, key: Key)
    requires a.Document? && b.Document? && SameShape(a.report, b.report) && a.report.outputs.None?
    requires key == InputBuildReport || key == InputTrain
    requires a.report.fingerprints.Some? && a.report.fingerprints.value.Keys == {key}
    ensures TextDigest(a) == TextDigest(b) ==> a == b
  {
    if TextDigest(a) == TextDigest(b) {
      var x, y := a.report.fingerprints.value, b.report.fingerprints.value;
      assert ("d" + x[key])[1..] == x[key] && ("d" + y[key])[1..] == y[key];
      assert x == y;
    }
  }

  lemma FiveNoCollision()
    ensures NoCollision(FiveEnv(), FiveFiles(), FIVE_DIRS, FIVE_CHAIN)
  {
    var env, files := FiveEnv(), FiveFiles();
    forall d, p: nat | d in FIVE_CHAIN ensures Tells(env, files, FIVE_DIRS, d, p) {
      FiveVersion(d, p);
      FiveVersion(d, p + 1);
      TextDigestTells(Version(env, files, FIVE_DIRS, d, p), Version(env, files, FIVE_DIRS, d, p + 1),
                      if d == "/e" then InputTrain else InputBuildReport);
    }
  }

  lemma FiveReport(d: string)
    requires d in FIVE_CHAIN
    ensures var files := FiveFiles();
      && ReportPath(d) in files && files[ReportPath(d)].Document?
      && files[ReportPath(d)].report.outputs.None? && files[ReportPath(d)].report.fingerprints.Some?
      && files[ReportPath(d)].report.fingerprints.value.Keys == {if d == "/e" then InputTrain else InputBuildReport}
  {
    var i :| 0 <= i < |FIVE_CHAIN| && FIVE_CHAIN[i] == d;
    FiveContents(i);
    if i > 0 {
      FiveDistinct();
      DifferentValues(FIVE_CHAIN, 0, i);
    }
  }

  lemma FiveVersion(d: string, p: nat)
    requires d in FIVE_CHAIN
    ensures var v, files := Version(FiveEnv(), FiveFiles(), FIVE_DIRS, d, p), FiveFiles();
      && v.Document? && ReportPath(d) in files && files[ReportPath(d)].Document?
      && SameShape(files[ReportPath(d)].report, v.report) && v.report.outputs.None?
      && v.report.fingerprints.Some?
      && v.report.fingerprints.value.Keys == {if d == "/e" then InputTrain else InputBuildReport}
  {
    FiveReport(d);
    PassesKeep(FiveEnv(), FiveFiles(), FIVE_DIRS, p);
    var q := ReportPath(d);
    assert SameForm(FiveFiles()[q], Passes(FiveEnv(), FiveFiles(), FIVE_DIRS, p)[q]);
  }

  lemma OneTooFew(env: Env, files: Files, dirs: seq<string>, chain: seq<string>)
    requires Chained(env, files, dirs, chain) && FromTheSource(env, files, dirs, chain)
    requires NoCollision(env, files, dirs, chain) && SourceStale(env, files, chain)
    requires LinksAgainst(dirs, chain, |chain| - 1) == PASSES && forall d :: d in dirs <==> d in chain
    ensures !(forall d :: d in dirs ==> Settled(env, Refresh(env, files, dirs, PASSES), d))
    ensures forall d :: d in dirs ==> Settled(env, Passes(env, files, dirs, PASSES + 1), d)
  {
    RefreshSettlesChain(env, files, dirs, chain);
    StaleSourceNeedsPasses(env, files, dirs, chain, PASSES + 1);
  }

  lemma FiveSame()
    ensures forall d :: d in FIVE_DIRS <==> d in FIVE_CHAIN
  {
  }

  lemma FiveIsOneTooFew(env: Env, files: Files, dirs: seq<string>, chain: seq<string>)
    requires env == FiveEnv() && files == FiveFiles() && dirs == FIVE_DIRS && chain == FIVE_CHAIN
    ensures !(forall d :: d in dirs ==> Settled(env, Refresh(env, files, dirs, PASSES), d))
    ensures forall d :: d in dirs ==> Settled(env, Passes(env, files, dirs, PASSES + 1), d)
  {
    FiveIsChained();
    FiveNoCollision();
    FiveSourceIsStale();
    FiveAgainst(4);
    FiveSame();
    OneTooFew(env, files, dirs, chain);
  }

  /** A concrete tree, visited in sorted order, on which the refresh stops too early. */
  lemma FourPassesFallShort()
    ensures !(forall d :: d in FIVE_DIRS ==> Settled(FiveEnv(), Refresh(FiveEnv(), FiveFiles(), FIVE_DIRS, PASSES), d))
    ensures forall d :: d in FIVE_DIRS ==> Settled(FiveEnv(), Passes(FiveEnv(), FiveFiles(), FIVE_DIRS, 5), d)
  {
    FiveIsOneTooFew(FiveEnv(), FiveFiles(), FIVE_DIRS, FIVE_CHAIN);
  }
}
