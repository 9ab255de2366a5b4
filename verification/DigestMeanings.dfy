/** What the digests of a build report are digests of, in terms of its keys and of paths:
    when a report is settled, and what one refresh writes. */
module DigestMeanings {
  import opened Plans
  import opened Fingerprints

  // ---- what the fields of a report name ---------------------------------------------------

  /** rooted_path */
  function Absolute(env: Env, p: string): string {
    if p != "" && p[0] == '/' then p else env.root + "/" + p
  }

  /** The report names `m` as its training manifest: `train_manifest`, or `manifest` when
      that is missing or empty. */
  predicate TrainManifestIs(r: Report, m: string) {
    m != "" && (r.trainManifest == Some(m) || ((r.trainManifest == None || r.trainManifest == Some("")) && r.manifest == Some(m)))
  }

  predicate EvalManifestIs(r: Report, m: string) {
    m != "" && r.evalManifest == Some(m)
  }

  /** The report names the manifest at `q`. */
  ghost predicate ManifestAt(env: Env, r: Report, q: string) {
    exists m :: (TrainManifestIs(r, m) || EvalManifestIs(r, m)) && q == Absolute(env, m)
  }

  /** `q` is the skill file of a directory that one of the report's manifests lists. */
  ghost predicate ListedSkill(env: Env, files: Files, r: Report, q: string) {
    exists m, d :: SkillOf(env, files, r, m, d) && q == Absolute(env, d) + "/SKILL.md"
  }

  ghost predicate SkillOf(env: Env, files: Files, r: Report, m: string, d: string) {
    ManifestAt(env, r, m) && m in files && env.skillsOf(files[m]).Some? && d in env.skillsOf(files[m]).value
  }

  // ---- true digests -----------------------------------------------------------------------

  /** If the key is there, it holds the digest of the file at `path`. */
  predicate Holds(env: Env, files: Files, prints: Prints, key: Key, path: string) {
    key in prints ==> path in files && prints[key] == env.digest(files[path])
  }

  predicate InputsTrue(env: Env, files: Files, prints: Prints, inputDir: string) {
    && Holds(env, files, prints, InputTrain, Absolute(env, inputDir) + "/train.parquet")
    && Holds(env, files, prints, InputEval, Absolute(env, inputDir) + "/eval.parquet")
    && Holds(env, files, prints, InputBuildReport, Absolute(env, inputDir) + "/build_report.json")
  }

  ghost predicate ManifestsTrue(env: Env, files: Files, prints: Prints, r: Report) {
    && (forall m :: TrainManifestIs(r, m) ==> Holds(env, files, prints, TrainManifestKey, Absolute(env, m)))
    && (forall m :: EvalManifestIs(r, m) ==> Holds(env, files, prints, EvalManifestKey, Absolute(env, m)))
  }

  /** The skill digest combines the digests of exactly the listed skill files. */
  ghost predicate SkillsTrue(env: Env, files: Files, prints: Prints, r: Report) {
    SkillContent in prints ==> exists paths: set<string> :: SkillsCombine(env, files, r, paths, prints[SkillContent])
  }

  ghost predicate SkillsCombine(env: Env, files: Files, r: Report, paths: set<string>, digest: Digest) {
    && paths <= files.Keys && (forall q :: q in paths <==> ListedSkill(env, files, r, q))
    && digest == env.combine(map q | q in paths :: env.digest(files[q]))
  }

  predicate OutputsTrue(env: Env, files: Files, outputs: Prints, dir: string) {
    && Holds(env, files, outputs, TrainParquet, dir + "/train.parquet")
    && Holds(env, files, outputs, EvalParquet, dir + "/eval.parquet")
  }

  /** All digests that a refresh of the report `r` in `dir` looks at. */
  ghost predicate AllTrue(env: Env, files: Files, dir: string, r: Report) {
    r.fingerprints.Some? ==>
      && r.inputDir.Some?
      && InputsTrue(env, files, r.fingerprints.value, r.inputDir.value)
      && ManifestsTrue(env, files, r.fingerprints.value, r)
      && SkillsTrue(env, files, r.fingerprints.value, r)
      && (r.outputs.Some? ==> OutputsTrue(env, files, r.outputs.value, dir))
  }

  /** Everything those digests are taken from can be read. */
  ghost predicate SourcesRead(env: Env, files: Files, dir: string, r: Report) {
    r.fingerprints.Some? ==>
      && r.inputDir.Some?
      && var p := r.fingerprints.value; var input := Absolute(env, r.inputDir.value);
      && (InputTrain in p ==> input + "/train.parquet" in files)
      && (InputEval in p ==> input + "/eval.parquet" in files)
      && (InputBuildReport in p ==> input + "/build_report.json" in files)
      && (forall m :: TrainManifestIs(r, m) && TrainManifestKey in p ==> Absolute(env, m) in files)
      && (forall m :: EvalManifestIs(r, m) && EvalManifestKey in p ==> Absolute(env, m) in files)
      && (SkillContent in p ==> SkillsRead(env, files, r))
      && (r.outputs.Some? ==>
            && (TrainParquet in r.outputs.value ==> dir + "/train.parquet" in files)
            && (EvalParquet in r.outputs.value ==> dir + "/eval.parquet" in files))
  }

  ghost predicate SkillsRead(env: Env, files: Files, r: Report) {
    && (exists q :: ManifestAt(env, r, q))
    && (forall q :: ManifestAt(env, r, q) ==> q in files && env.skillsOf(files[q]).Some?)
    && (forall q :: ListedSkill(env, files, r, q) ==> q in files)
  }

  /** A key whose digest a refresh recomputes. */
  predicate Refreshable(r: Report, key: Key) {
    || key in {InputTrain, InputEval, InputBuildReport, SkillContent}
    || (key == TrainManifestKey && (Given(r.trainManifest) || Given(r.manifest)))
    || (key == EvalManifestKey && Given(r.evalManifest))
  }

  /** `s` is `r` but for the digests that a refresh recomputes; no key comes or goes. */
  predicate SameButDigests(r: Report, s: Report) {
    && SameShape(r, s)
    && (r.fingerprints.Some? ==> forall key :: key in r.fingerprints.value && !Refreshable(r, key) ==>
          s.fingerprints.value[key] == r.fingerprints.value[key])
    && (r.outputs.Some? ==> forall key :: key in r.outputs.value && key != TrainParquet && key != EvalParquet ==>
          s.outputs.value[key] == r.outputs.value[key])
  }

  // ---- the wanted digests in these terms --------------------------------------------------

  lemma AbsoluteIsRooted(env: Env, p: string)
    ensures Rooted(env, p) == Absolute(env, p)
  {
  }

  lemma TrainManifestNamed(r: Report)
    ensures Given(TrainManifest(r)) ==> TrainManifestIs(r, TrainManifest(r).value)
    ensures forall m :: TrainManifestIs(r, m) ==> Given(TrainManifest(r)) && TrainManifest(r).value == m
    ensures Given(TrainManifest(r)) <==> Given(r.trainManifest) || Given(r.manifest)
  {
  }

  lemma EvalManifestNamed(r: Report)
    ensures Given(r.evalManifest) ==> EvalManifestIs(r, r.evalManifest.value)
    ensures forall m :: EvalManifestIs(r, m) ==> Given(r.evalManifest) && r.evalManifest.value == m
  {
  }

  lemma ManifestsAre(env: Env, r: Report)
    ensures forall q :: q in Manifests(env, r) <==> ManifestAt(env, r, q)
  {
    TrainManifestNamed(r);
    EvalManifestNamed(r);
    forall q ensures q in Manifests(env, r) <==> ManifestAt(env, r, q) {
      if q in Manifests(env, r) {
        if Given(TrainManifest(r)) && q == Rooted(env, TrainManifest(r).value) {
          assert TrainManifestIs(r, TrainManifest(r).value);
        } else {
          assert EvalManifestIs(r, r.evalManifest.value) && q == Rooted(env, r.evalManifest.value);
        }
      }
      if ManifestAt(env, r, q) {
        var m :| (TrainManifestIs(r, m) || EvalManifestIs(r, m)) && q == Absolute(env, m);
        if EvalManifestIs(r, m) {
          assert Manifests(env, r)[|Manifests(env, r)| - 1] == q;
        } else {
          assert Manifests(env, r)[0] == q;
        }
      }
    }
  }

  /** The directories listed in some manifest of the sequence. */
  ghost predicate ListedIn(env: Env, files: Files, manifests: seq<string>, q: string) {
    exists m, d :: m in manifests && m in files && env.skillsOf(files[m]).Some?
                   && d in env.skillsOf(files[m]).value && q == SkillFile(Rooted(env, d))
  }

  lemma {:induction false} SkillPathsAre(env: Env, files: Files, manifests: seq<string>, q: string)
    requires ManifestsRead(env, files, manifests)
    ensures q in SkillPaths(env, files, manifests) <==> ListedIn(env, files, manifests, q)
  {
    if manifests != [] {
      var init, last := manifests[..|manifests| - 1], manifests[|manifests| - 1];
      SkillPathsAre(env, files, init, q);
      assert manifests == init + [last];
      assert last in files && env.skillsOf(files[last]).Some?;
      if ListedIn(env, files, manifests, q) {
        var m, d :| m in manifests && m in files && env.skillsOf(files[m]).Some?
                    && d in env.skillsOf(files[m]).value && q == SkillFile(Rooted(env, d));
        assert m in init || m == last;
      }
    }
  }

  lemma ListedSkills(env: Env, files: Files, r: Report, q: string)
    ensures ListedIn(env, files, Manifests(env, r), q) <==> ListedSkill(env, files, r, q)
  {
    ManifestsAre(env, r);
    if ListedSkill(env, files, r, q) {
      var m, d :| SkillOf(env, files, r, m, d) && q == Absolute(env, d) + "/SKILL.md";
      assert m in Manifests(env, r) && q == SkillFile(Rooted(env, d));
    }
    if ListedIn(env, files, Manifests(env, r), q) {
      var m, d :| m in Manifests(env, r) && m in files && env.skillsOf(files[m]).Some?
                  && d in env.skillsOf(files[m]).value && q == SkillFile(Rooted(env, d));
      assert SkillOf(env, files, r, m, d) && q == Absolute(env, d) + "/SKILL.md";
    }
  }

  lemma SkillPathsListed(env: Env, files: Files, r: Report)
    requires ManifestsRead(env, files, Manifests(env, r))
    ensures forall q :: q in SkillPaths(env, files, Manifests(env, r)) <==> ListedSkill(env, files, r, q)
  {
    forall q ensures q in SkillPaths(env, files, Manifests(env, r)) <==> ListedSkill(env, files, r, q) {
      SkillPathsAre(env, files, Manifests(env, r), q);
      ListedSkills(env, files, r, q);
    }
  }

  lemma ManifestsReadIs(env: Env, files: Files, r: Report)
    ensures ManifestsRead(env, files, Manifests(env, r)) <==>
      forall q :: ManifestAt(env, r, q) ==> q in files && env.skillsOf(files[q]).Some?
  {
    var manifests := Manifests(env, r);
    ManifestsAre(env, r);
    if ManifestsRead(env, files, manifests) {
      assert forall q :: q in manifests ==> q in files && env.skillsOf(files[q]).Some?;
    } else {
      var i :| 0 <= i < |manifests| && !(manifests[i] in files && env.skillsOf(files[manifests[i]]).Some?);
      assert ManifestAt(env, r, manifests[i]);
    }
  }

  lemma SomeManifest(env: Env, r: Report)
    ensures Manifests(env, r) != [] <==> exists q :: ManifestAt(env, r, q)
  {
    ManifestsAre(env, r);
    if Manifests(env, r) != [] {
      assert ManifestAt(env, r, Manifests(env, r)[0]);
    }
  }

  lemma SkillDigestOfPaths(env: Env, files: Files, manifests: seq<string>, paths: set<string>)
    requires ManifestsRead(env, files, manifests) && paths == SkillPaths(env, files, manifests)
    ensures SkillDigest(env, files, manifests).Some? <==> paths <= files.Keys
    ensures paths <= files.Keys ==>
      SkillDigest(env, files, manifests).value == env.combine(map q | q in paths :: env.digest(files[q]))
  {
    if paths <= files.Keys {
      assert (map q | q in paths :: env.digest(files[q])) == (map p | p in SkillPaths(env, files, manifests) :: env.digest(files[p]));
    }
  }

  lemma ListedAreFiles(env: Env, files: Files, r: Report, paths: set<string>)
    requires forall q :: q in paths <==> ListedSkill(env, files, r, q)
    ensures paths <= files.Keys <==> forall q :: ListedSkill(env, files, r, q) ==> q in files
  {
  }

  /** The wanted skill digest can be had if the skills can be read, and is then the
      combination of the listed files. */
  lemma SkillDigestIs(env: Env, files: Files, r: Report)
    ensures (Manifests(env, r) != [] && SkillDigest(env, files, Manifests(env, r)).Some?) <==> SkillsRead(env, files, r)
    ensures SkillsRead(env, files, r) ==>
      exists paths :: SkillsCombine(env, files, r, paths, SkillDigest(env, files, Manifests(env, r)).value)
  {
    var manifests := Manifests(env, r);
    SomeManifest(env, r);
    ManifestsReadIs(env, files, r);
    if ManifestsRead(env, files, manifests) {
      var paths := SkillPaths(env, files, manifests);
      SkillPathsListed(env, files, r);
      ListedAreFiles(env, files, r, paths);
      SkillDigestOfPaths(env, files, manifests, paths);
      if SkillsRead(env, files, r) {
        assert SkillsCombine(env, files, r, paths, SkillDigest(env, files, manifests).value);
      }
    }
  }

  /** Only one set of paths can be combined. */
  lemma OneCombination(env: Env, files: Files, r: Report, a: set<string>, b: set<string>, x: Digest, y: Digest)
    requires SkillsCombine(env, files, r, a, x) && SkillsCombine(env, files, r, b, y)
    ensures a == b && x == y
  {
  }

  // ---- wanted digests and true digests ----------------------------------------------------

  predicate MetWant(prints: Prints, want: Want) {
    want.0 in prints ==> want.1 == Some(prints[want.0])
  }

  lemma MetParts(prints: Prints, a: seq<Want>, b: seq<Want>)
    ensures Met(prints, a + b) <==> Met(prints, a) && Met(prints, b)
  {
    if Met(prints, a + b) {
      forall i | 0 <= i < |a| ensures MetWant(prints, a[i]) {
        assert (a + b)[i] == a[i];
      }
      forall i | 0 <= i < |b| ensures MetWant(prints, b[i]) {
        assert (a + b)[|a| + i] == b[i];
      }
    }
    if Met(prints, a) && Met(prints, b) {
      forall i | 0 <= i < |a + b| ensures MetWant(prints, (a + b)[i]) {
        assert (a + b)[i] == if i < |a| then a[i] else b[i - |a|];
      }
    }
  }

  lemma MetOne(prints: Prints, want: Want)
    ensures Met(prints, [want]) <==> MetWant(prints, want)
  {
    assert [want][0] == want;
  }

  lemma HoldsIsMet(env: Env, files: Files, prints: Prints, key: Key, path: string)
    ensures Holds(env, files, prints, key, path) <==> MetWant(prints, (key, FileDigest(env, files, path)))
  {
  }

  lemma InputsMet(env: Env, files: Files, prints: Prints, dir: string)
    ensures Met(prints, InputWants(env, files, Rooted(env, dir))) <==> InputsTrue(env, files, prints, dir)
  {
    var wants, input := InputWants(env, files, Rooted(env, dir)), Absolute(env, dir);
    AbsoluteIsRooted(env, dir);
    assert wants == [wants[0]] + ([wants[1]] + [wants[2]]);
    MetParts(prints, [wants[0]], [wants[1]] + [wants[2]]);
    MetParts(prints, [wants[1]], [wants[2]]);
    MetOne(prints, wants[0]);
    MetOne(prints, wants[1]);
    MetOne(prints, wants[2]);
    HoldsIsMet(env, files, prints, InputTrain, input + "/train.parquet");
    HoldsIsMet(env, files, prints, InputEval, input + "/eval.parquet");
    HoldsIsMet(env, files, prints, InputBuildReport, input + "/build_report.json");
  }

  lemma OutputsMet(env: Env, files: Files, prints: Prints, dir: string)
    ensures Met(prints, OutputWants(env, files, dir)) <==> OutputsTrue(env, files, prints, dir)
  {
    var wants := OutputWants(env, files, dir);
    assert wants == [wants[0]] + [wants[1]];
    MetParts(prints, [wants[0]], [wants[1]]);
    MetOne(prints, wants[0]);
    MetOne(prints, wants[1]);
    HoldsIsMet(env, files, prints, TrainParquet, dir + "/train.parquet");
    HoldsIsMet(env, files, prints, EvalParquet, dir + "/eval.parquet");
  }

  lemma TrainManifestMet(env: Env, files: Files, prints: Prints, r: Report)
    ensures var wants := if Given(TrainManifest(r))
                         then [(TrainManifestKey, FileDigest(env, files, Rooted(env, TrainManifest(r).value)))] else [];
      Met(prints, wants) <==>
        forall m :: TrainManifestIs(r, m) ==> Holds(env, files, prints, TrainManifestKey, Absolute(env, m))
  {
    TrainManifestNamed(r);
    if Given(TrainManifest(r)) {
      var m := TrainManifest(r).value;
      AbsoluteIsRooted(env, m);
      MetOne(prints, (TrainManifestKey, FileDigest(env, files, Rooted(env, m))));
      HoldsIsMet(env, files, prints, TrainManifestKey, Absolute(env, m));
    }
  }

  lemma EvalManifestMet(env: Env, files: Files, prints: Prints, r: Report)
    ensures var wants := if Given(r.evalManifest)
                         then [(EvalManifestKey, FileDigest(env, files, Rooted(env, r.evalManifest.value)))] else [];
      Met(prints, wants) <==>
        forall m :: EvalManifestIs(r, m) ==> Holds(env, files, prints, EvalManifestKey, Absolute(env, m))
  {
    EvalManifestNamed(r);
    if Given(r.evalManifest) {
      var m := r.evalManifest.value;
      AbsoluteIsRooted(env, m);
      MetOne(prints, (EvalManifestKey, FileDigest(env, files, Rooted(env, m))));
      HoldsIsMet(env, files, prints, EvalManifestKey, Absolute(env, m));
    }
  }

  lemma SkillsMet(env: Env, files: Files, prints: Prints, r: Report)
    requires SkillContent in prints ==> SkillsRead(env, files, r)
    ensures var want := if Manifests(env, r) == [] then None else SkillDigest(env, files, Manifests(env, r));
      Met(prints, [(SkillContent, want)]) <==> SkillsTrue(env, files, prints, r)
  {
    var want := if Manifests(env, r) == [] then None else SkillDigest(env, files, Manifests(env, r));
    MetOne(prints, (SkillContent, want));
    SkillDigestIs(env, files, r);
    if SkillContent in prints {
      var paths :| SkillsCombine(env, files, r, paths, want.value);
      if SkillsTrue(env, files, prints, r) {
        var others :| SkillsCombine(env, files, r, others, prints[SkillContent]);
        OneCombination(env, files, r, paths, others, want.value, prints[SkillContent]);
      }
    }
  }

  lemma ManifestsMet(env: Env, files: Files, prints: Prints, r: Report)
    requires SkillContent in prints ==> SkillsRead(env, files, r)
    ensures Met(prints, ManifestWants(env, files, r)) <==>
      ManifestsTrue(env, files, prints, r) && SkillsTrue(env, files, prints, r)
  {
    var train := if Given(TrainManifest(r))
                 then [(TrainManifestKey, FileDigest(env, files, Rooted(env, TrainManifest(r).value)))] else [];
    var eval := if Given(r.evalManifest)
                then [(EvalManifestKey, FileDigest(env, files, Rooted(env, r.evalManifest.value)))] else [];
    var want := if Manifests(env, r) == [] then None else SkillDigest(env, files, Manifests(env, r));
    assert ManifestWants(env, files, r) == (train + eval) + [(SkillContent, want)];
    MetParts(prints, train + eval, [(SkillContent, want)]);
    MetParts(prints, train, eval);
    TrainManifestMet(env, files, prints, r);
    EvalManifestMet(env, files, prints, r);
    SkillsMet(env, files, prints, r);
  }

  lemma ReportMet(env: Env, files: Files, prints: Prints, r: Report)
    requires r.inputDir.Some? && (SkillContent in prints ==> SkillsRead(env, files, r))
    ensures Met(prints, ReportWants(env, files, r)) <==>
      && InputsTrue(env, files, prints, r.inputDir.value)
      && ManifestsTrue(env, files, prints, r) && SkillsTrue(env, files, prints, r)
  {
    MetParts(prints, InputWants(env, files, Rooted(env, r.inputDir.value)), ManifestWants(env, files, r));
    InputsMet(env, files, prints, r.inputDir.value);
    ManifestsMet(env, files, prints, r);
  }

  // ---- readable sources -------------------------------------------------------------------

  predicate Obtainable(prints: Prints, want: Want) {
    want.0 in prints ==> want.1.Some?
  }

  lemma AvailableParts(prints: Prints, a: seq<Want>, b: seq<Want>)
    ensures Available(prints, a + b) <==> Available(prints, a) && Available(prints, b)
  {
    if Available(prints, a + b) {
      forall i | 0 <= i < |a| ensures Obtainable(prints, a[i]) {
        assert (a + b)[i] == a[i];
      }
      forall i | 0 <= i < |b| ensures Obtainable(prints, b[i]) {
        assert (a + b)[|a| + i] == b[i];
      }
    }
    if Available(prints, a) && Available(prints, b) {
      forall i | 0 <= i < |a + b| ensures Obtainable(prints, (a + b)[i]) {
        assert (a + b)[i] == if i < |a| then a[i] else b[i - |a|];
      }
    }
  }

  lemma AvailableOne(prints: Prints, want: Want)
    ensures Available(prints, [want]) <==> Obtainable(prints, want)
  {
    assert [want][0] == want;
  }

  lemma InputsAvailable(env: Env, files: Files, p: Prints, dir: string)
    ensures var input := Absolute(env, dir);
      Available(p, InputWants(env, files, Rooted(env, dir))) <==>
        && (InputTrain in p ==> input + "/train.parquet" in files)
        && (InputEval in p ==> input + "/eval.parquet" in files)
        && (InputBuildReport in p ==> input + "/build_report.json" in files)
  {
    var wants := InputWants(env, files, Rooted(env, dir));
    AbsoluteIsRooted(env, dir);
    assert wants == [wants[0]] + ([wants[1]] + [wants[2]]);
    AvailableParts(p, [wants[0]], [wants[1]] + [wants[2]]);
    AvailableParts(p, [wants[1]], [wants[2]]);
    AvailableOne(p, wants[0]);
    AvailableOne(p, wants[1]);
    AvailableOne(p, wants[2]);
  }

  lemma OutputsAvailable(env: Env, files: Files, p: Prints, dir: string)
    ensures Available(p, OutputWants(env, files, dir)) <==>
      && (TrainParquet in p ==> dir + "/train.parquet" in files)
      && (EvalParquet in p ==> dir + "/eval.parquet" in files)
  {
    var wants := OutputWants(env, files, dir);
    assert wants == [wants[0]] + [wants[1]];
    AvailableParts(p, [wants[0]], [wants[1]]);
    AvailableOne(p, wants[0]);
    AvailableOne(p, wants[1]);
  }

  lemma TrainManifestAvailable(env: Env, files: Files, p: Prints, r: Report)
    ensures var wants := if Given(TrainManifest(r))
                         then [(TrainManifestKey, FileDigest(env, files, Rooted(env, TrainManifest(r).value)))] else [];
      Available(p, wants) <==> forall m :: TrainManifestIs(r, m) && TrainManifestKey in p ==> Absolute(env, m) in files
  {
    TrainManifestNamed(r);
    if Given(TrainManifest(r)) {
      AbsoluteIsRooted(env, TrainManifest(r).value);
      AvailableOne(p, (TrainManifestKey, FileDigest(env, files, Rooted(env, TrainManifest(r).value))));
    }
  }

  lemma EvalManifestAvailable(env: Env, files: Files, p: Prints, r: Report)
    ensures var wants := if Given(r.evalManifest)
                         then [(EvalManifestKey, FileDigest(env, files, Rooted(env, r.evalManifest.value)))] else [];
      Available(p, wants) <==> forall m :: EvalManifestIs(r, m) && EvalManifestKey in p ==> Absolute(env, m) in files
  {
    EvalManifestNamed(r);
    if Given(r.evalManifest) {
      AbsoluteIsRooted(env, r.evalManifest.value);
      AvailableOne(p, (EvalManifestKey, FileDigest(env, files, Rooted(env, r.evalManifest.value))));
    }
  }

  lemma ManifestsAvailable(env: Env, files: Files, p: Prints, r: Report)
    ensures Available(p, ManifestWants(env, files, r)) <==>
      && (forall m :: TrainManifestIs(r, m) && TrainManifestKey in p ==> Absolute(env, m) in files)
      && (forall m :: EvalManifestIs(r, m) && EvalManifestKey in p ==> Absolute(env, m) in files)
      && (SkillContent in p ==> SkillsRead(env, files, r))
  {
    var train := if Given(TrainManifest(r))
                 then [(TrainManifestKey, FileDigest(env, files, Rooted(env, TrainManifest(r).value)))] else [];
    var eval := if Given(r.evalManifest)
                then [(EvalManifestKey, FileDigest(env, files, Rooted(env, r.evalManifest.value)))] else [];
    var want := if Manifests(env, r) == [] then None else SkillDigest(env, files, Manifests(env, r));
    assert ManifestWants(env, files, r) == (train + eval) + [(SkillContent, want)];
    AvailableParts(p, train + eval, [(SkillContent, want)]);
    AvailableParts(p, train, eval);
    AvailableOne(p, (SkillContent, want));
    TrainManifestAvailable(env, files, p, r);
    EvalManifestAvailable(env, files, p, r);
    SkillDigestIs(env, files, r);
  }

  /** A report can be refreshed exactly when all its sources can be read. */
  lemma RecomputedIffRead(env: Env, files: Files, dir: string, r: Report)
    ensures Recomputed(env, files, dir, r).Some? <==> SourcesRead(env, files, dir, r)
  {
    if r.fingerprints.Some? && r.inputDir.Some? {
      var p := r.fingerprints.value;
      AvailableParts(p, InputWants(env, files, Rooted(env, r.inputDir.value)), ManifestWants(env, files, r));
      InputsAvailable(env, files, p, r.inputDir.value);
      ManifestsAvailable(env, files, p, r);
      RenewAllAvailable(p, ReportWants(env, files, r));
      if r.outputs.Some? {
        OutputsAvailable(env, files, r.outputs.value, dir);
        RenewAllAvailable(r.outputs.value, OutputWants(env, files, dir));
      }
    }
  }

  // ---- what a refresh writes --------------------------------------------------------------

  lemma {:induction false} RenewAllOthers(prints: Prints, wants: seq<Want>, key: Key)
    requires RenewAll(prints, wants).Some? && (forall i :: 0 <= i < |wants| ==> wants[i].0 != key) && key in prints
    ensures key in RenewAll(prints, wants).value && RenewAll(prints, wants).value[key] == prints[key]
  {
    if wants != [] {
      var init := wants[..|wants| - 1];
      assert forall i :: 0 <= i < |init| ==> init[i] == wants[i];
      RenewAllOthers(prints, init, key);
    }
  }

  lemma WantedAreRefreshable(env: Env, files: Files, r: Report)
    requires r.inputDir.Some?
    ensures forall i :: 0 <= i < |ReportWants(env, files, r)| ==> Refreshable(r, ReportWants(env, files, r)[i].0)
  {
    TrainManifestNamed(r);
  }

  lemma OthersKept(env: Env, files: Files, dir: string, r: Report, s: Report)
    requires Recomputed(env, files, dir, r) == Some(s)
    ensures SameButDigests(r, s)
  {
    RecomputedTwice(env, files, dir, r);
    if r.fingerprints.Some? {
      var wants := ReportWants(env, files, r);
      WantedAreRefreshable(env, files, r);
      forall key | key in r.fingerprints.value && !Refreshable(r, key)
        ensures s.fingerprints.value[key] == r.fingerprints.value[key]
      {
        RenewAllOthers(r.fingerprints.value, wants, key);
      }
      if r.outputs.Some? {
        forall key | key in r.outputs.value && key != TrainParquet && key != EvalParquet
          ensures s.outputs.value[key] == r.outputs.value[key]
        {
          RenewAllOthers(r.outputs.value, OutputWants(env, files, dir), key);
        }
      }
    }
  }

  /** The recomputed report is true of the files it was recomputed from. */
  lemma RecomputedIsTrue(env: Env, files: Files, dir: string, r: Report, s: Report)
    requires Recomputed(env, files, dir, r) == Some(s)
    ensures AllTrue(env, files, dir, s)
  {
    RecomputedTwice(env, files, dir, r);
    RecomputedIffRead(env, files, dir, s);
    SettledIffTrue(env, files, dir, s);
  }

  /** A readable report equals its recomputation if and only if its digests are true. */
  lemma SettledIffTrue(env: Env, files: Files, dir: string, r: Report)
    requires SourcesRead(env, files, dir, r)
    ensures Recomputed(env, files, dir, r) == Some(r) <==> AllTrue(env, files, dir, r)
  {
    RecomputedIffRead(env, files, dir, r);
    if r.fingerprints.Some? {
      PrintsRenewedIffTrue(env, files, r);
      if r.outputs.Some? {
        OutputsRenewedIffTrue(env, files, dir, r.outputs.value);
      }
    }
  }

  lemma PrintsRenewedIffTrue(env: Env, files: Files, r: Report)
    requires r.fingerprints.Some? && r.inputDir.Some? && RenewAll(r.fingerprints.value, ReportWants(env, files, r)).Some?
    requires SkillContent in r.fingerprints.value ==> SkillsRead(env, files, r)
    ensures RenewAll(r.fingerprints.value, ReportWants(env, files, r)).value == r.fingerprints.value <==>
      && InputsTrue(env, files, r.fingerprints.value, r.inputDir.value)
      && ManifestsTrue(env, files, r.fingerprints.value, r) && SkillsTrue(env, files, r.fingerprints.value, r)
  {
    WantsAreDistinct(env, files, "", r);
    ReportMet(env, files, r.fingerprints.value, r);
    RenewedIffMet(r.fingerprints.value, ReportWants(env, files, r));
  }

  lemma OutputsRenewedIffTrue(env: Env, files: Files, dir: string, outputs: Prints)
    requires RenewAll(outputs, OutputWants(env, files, dir)).Some?
    ensures RenewAll(outputs, OutputWants(env, files, dir)).value == outputs <==> OutputsTrue(env, files, outputs, dir)
  {
    assert DistinctWants(OutputWants(env, files, dir));
    OutputsMet(env, files, outputs, dir);
    RenewedIffMet(outputs, OutputWants(env, files, dir));
  }

  lemma RenewedIffMet(prints: Prints, wants: seq<Want>)
    requires RenewAll(prints, wants).Some? && DistinctWants(wants)
    ensures RenewAll(prints, wants).value == prints <==> Met(prints, wants)
  {
    RenewAllMeets(prints, wants);
    if Met(prints, wants) {
      MetIsKept(prints, wants);
    }
  }

  /** A listed report is settled if and only if its sources cannot all be read or every
      digest it carries is that of the file its key stands for. */
  lemma SettledMeans(env: Env, files: Files, dir: string)
    ensures Settled(env, files, dir) <==>
      var q := dir + "/build_report.json";
      q in files && files[q].Document? && SourcesRead(env, files, dir, files[q].report) ==>
        AllTrue(env, files, dir, files[q].report)
  {
    if Readable(files, dir) {
      var r := files[ReportPath(dir)].report;
      RecomputedIffRead(env, files, dir, r);
      if SourcesRead(env, files, dir, r) {
        SettledIffTrue(env, files, dir, r);
      }
    }
  }

  /** One refresh of a report whose sources can be read makes its digests those of the files
      as they were, keeps every other key and field, and touches no other file; a report
      whose sources cannot be read is left alone. */
  lemma RefreshOneMeans(env: Env, files: Files, dir: string)
    ensures var q, g := dir + "/build_report.json", RefreshOne(env, files, dir);
      if q in files && files[q].Document? && SourcesRead(env, files, dir, files[q].report) then
        && g.Keys == files.Keys && (forall p :: p in files && p != q ==> g[p] == files[p])
        && g[q].Document? && AllTrue(env, files, dir, g[q].report) && SameButDigests(files[q].report, g[q].report)
      else g == files
  {
    if Readable(files, dir) {
      var r := files[ReportPath(dir)].report;
      RecomputedIffRead(env, files, dir, r);
      if SourcesRead(env, files, dir, r) {
        var s := Recomputed(env, files, dir, r).value;
        RecomputedIsTrue(env, files, dir, r, s);
        OthersKept(env, files, dir, r, s);
      }
    }
  }

  /** After the four passes every report of rank below four whose sources can be read has
      true digests. */
  lemma RefreshMakesTrue(env: Env, files: Files, dirs: seq<string>, ranks: map<string, nat>, d: string)
    requires NoDuplicates(dirs) && Ranked(env, files, dirs, ranks) && d in dirs && d in ranks && ranks[d] < 4
    ensures var g, q := Refresh(env, files, dirs, PASSES), d + "/build_report.json";
      q in g && g[q].Document? && SourcesRead(env, g, d, g[q].report) ==> AllTrue(env, g, d, g[q].report)
  {
    RefreshSettles(env, files, dirs, ranks);
    SettledMeans(env, Refresh(env, files, dirs, PASSES), d);
  }
}
