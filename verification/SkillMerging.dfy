/** merge_skills.py: clustering same-name skills with a memoised judge whose answers are
    arbitrary, and choosing each cluster's survivor. */
module SkillMerging {
  import opened Plans
  import opened Text

  datatype Skill = Skill(name: string, repo: string, relPath: string, size: nat, isSubSkill: bool)

  /** One answer of the model: a verdict, text without one, or a failed call. */
  datatype Reply = Verdict(same: bool) | Unparseable | Failed

  type Cache = map<string, bool>

  function Where(s: Skill): string {
    s.repo + "|" + s.relPath
  }

  /** The name and the two places in sorted order. */
  function CacheKey(a: Skill, b: Skill): string {
    var first, second := if LessText(Where(b), Where(a)) then Where(b) else Where(a),
                         if LessText(Where(b), Where(a)) then Where(a) else Where(b);
    a.name + "||" + first + "||" + second
  }

  /** Within one name the order of the question does not matter. */
  lemma CacheKeySymmetric(a: Skill, b: Skill)
    requires a.name == b.name
    ensures CacheKey(a, b) == CacheKey(b, a)
  {
    LessTextTotal(Where(a), Where(b));
    LessTextAsymmetric(Where(a), Where(b));
    LessTextAsymmetric(Where(b), Where(a));
  }

  predicate NoBar(s: string) { '|' !in s }

  predicate Barless(s: Skill) { NoBar(s.name) && NoBar(s.repo) && NoBar(s.relPath) }

  lemma BarAt(x: string, r: string, y: string, s: string)
    requires x + ("|" + r) == y + ("|" + s) && |x| < |y|
    ensures y[|x|] == '|'
  {
    assert (x + ("|" + r))[|x|] == '|' && (y + ("|" + s))[|x|] == y[|x|];
  }

  /** A part without a bar ends at the first bar. */
  lemma FirstPart(x: string, r: string, y: string, s: string)
    requires NoBar(x) && NoBar(y) && x + ("|" + r) == y + ("|" + s)
    ensures x == y && r == s
  {
    if |x| < |y| {
      BarAt(x, r, y, s);
      assert false;
    } else if |y| < |x| {
      BarAt(y, s, x, r);
      assert false;
    } else {
      var a, b := x + ("|" + r), y + ("|" + s);
      assert a[..|x|] == x && b[..|y|] == y && a[|x| + 1..] == r && b[|y| + 1..] == s;
    }
  }

  function Key(name: string, repo: string, path: string, repo': string, path': string): string {
    name + ("|" + ("" + ("|" + (repo + ("|" + (path + ("|" + ("" + ("|" + (repo' + ("|" + path')))))))))))
  }

  lemma KeyText(name: string, repo: string, path: string, repo': string, path': string)
    ensures name + "||" + (repo + "|" + path) + "||" + (repo' + "|" + path') == Key(name, repo, path, repo', path')
  {
  }

  /** Such a key gives away all its parts. */
  lemma KeyParts(n: string, a: string, b: string, c: string, d: string, n': string, a': string, b': string, c': string, d': string)
    requires NoBar(n) && NoBar(a) && NoBar(b) && NoBar(c) && NoBar(n') && NoBar(a') && NoBar(b') && NoBar(c')
    requires Key(n, a, b, c, d) == Key(n', a', b', c', d')
    ensures n == n' && a == a' && b == b' && c == c' && d == d'
  {
    var r4, s4 := c + ("|" + d), c' + ("|" + d');
    var r3, s3 := "" + ("|" + r4), "" + ("|" + s4);
    var r2, s2 := b + ("|" + r3), b' + ("|" + s3);
    var r1, s1 := a + ("|" + r2), a' + ("|" + s2);
    var r0, s0 := "" + ("|" + r1), "" + ("|" + s1);
    FirstPart(n, r0, n', s0);
    FirstPart("", r1, "", s1);
    FirstPart(a, r2, a', s2);
    FirstPart(b, r3, b', s3);
    FirstPart("", r4, "", s4);
    FirstPart(c, d, c', d');
  }

  predicate SamePlace(a: Skill, b: Skill) { a.repo == b.repo && a.relPath == b.relPath }

  /** The two skills in the order of the key. */
  lemma KeyOrder(a: Skill, b: Skill) returns (first: Skill, second: Skill)
    ensures (first == a && second == b) || (first == b && second == a)
    ensures CacheKey(a, b) == Key(a.name, first.repo, first.relPath, second.repo, second.relPath)
  {
    first, second := if LessText(Where(b), Where(a)) then b else a, if LessText(Where(b), Where(a)) then a else b;
    KeyText(a.name, first.repo, first.relPath, second.repo, second.relPath);
  }

  /** Two questions share their answer exactly if they are about the same name and the same two
      places, in either order; as long as no name or place has a bar in it. */
  lemma SameKeyIff(a: Skill, b: Skill, c: Skill, d: Skill)
    requires Barless(a) && Barless(b) && Barless(c) && Barless(d) && a.name == b.name && c.name == d.name
    ensures CacheKey(a, b) == CacheKey(c, d) <==>
      a.name == c.name && ((SamePlace(a, c) && SamePlace(b, d)) || (SamePlace(a, d) && SamePlace(b, c)))
  {
    var p, q := KeyOrder(a, b);
    var r, s := KeyOrder(c, d);
    if CacheKey(a, b) == CacheKey(c, d) {
      KeyParts(a.name, p.repo, p.relPath, q.repo, q.relPath, c.name, r.repo, r.relPath, s.repo, s.relPath);
    }
    if a.name == c.name && SamePlace(a, d) && SamePlace(b, c) {
      CacheKeySymmetric(a, b);
    }
  }

  /** With a bar in a path two different places are one: their skills share every answer. */
  lemma BarsCollide(name: string, size: nat, other: Skill)
    ensures var a, b := Skill(name, "r", "s|t", size, false), Skill(name, "r|s", "t", size, false);
      !SamePlace(a, b) && CacheKey(a, other) == CacheKey(b, other)
  {
    assert "r" + "|" + "s|t" == "r|s" + "|" + "t";
    assert |"r"| != |"r|s"|;
  }

  predicate Judged(cache: Cache, a: Skill, b: Skill, same: bool) {
    CacheKey(a, b) in cache && cache[CacheKey(a, b)] == same
  }

  /** Answers already given are never revised. */
  predicate Grew(before: Cache, after: Cache) {
    forall k :: k in before ==> k in after && after[k] == before[k]
  }

  predicate SameAsRepresentative(clusters: seq<seq<Skill>>, cache: Cache) {
    forall i, m :: 0 <= i < |clusters| && 0 < m < |clusters[i]| ==> Judged(cache, clusters[i][0], clusters[i][m], true)
  }

  predicate UnlikeEarlier(clusters: seq<seq<Skill>>, cache: Cache) {
    forall j, i, m :: 0 <= j < i < |clusters| && 0 <= m < |clusters[i]| && clusters[j] != [] ==>
      Judged(cache, clusters[j][0], clusters[i][m], false)
  }

  /** Every candidate is placed once, with a representative it was judged the same as, and
      was judged different from the representatives of all earlier clusters. */
  predicate Clustering(candidates: seq<Skill>, clusters: seq<seq<Skill>>, cache: Cache) {
    && multiset(Flatten(clusters)) == multiset(candidates)
    && (candidates != [] ==> forall i :: 0 <= i < |clusters| ==> clusters[i] != [])
    && SameAsRepresentative(clusters, cache)
    && UnlikeEarlier(clusters, cache)
  }

  lemma {:induction false} FlattenAppend<T>(ss: seq<seq<T>>, i: nat, x: T)
    requires i < |ss|
    ensures multiset(Flatten(ss[i := ss[i] + [x]])) == multiset(Flatten(ss)) + multiset{x}
  {
    var grown := ss[i := ss[i] + [x]];
    if i == 0 {
      assert grown[1..] == ss[1..];
    } else {
      assert grown[1..] == ss[1..][i - 1 := ss[1..][i - 1] + [x]];
      FlattenAppend(ss[1..], i - 1, x);
    }
  }

  lemma ClusteringGrows(candidates: seq<Skill>, clusters: seq<seq<Skill>>, before: Cache, after: Cache)
    requires Clustering(candidates, clusters, before) && Grew(before, after)
    ensures Clustering(candidates, clusters, after)
  {
  }

  lemma JoinCluster(seen: seq<Skill>, clusters: seq<seq<Skill>>, cache: Cache, i: nat, c: Skill)
    requires seen != [] && Clustering(seen, clusters, cache) && i < |clusters|
    requires Judged(cache, clusters[i][0], c, true)
    requires forall j :: 0 <= j < i ==> Judged(cache, clusters[j][0], c, false)
    ensures Clustering(seen + [c], clusters[i := clusters[i] + [c]], cache)
  {
    FlattenAppend(clusters, i, c);
    JoinKeepsVerdicts(clusters, cache, i, c);
  }

  lemma JoinKeepsVerdicts(clusters: seq<seq<Skill>>, cache: Cache, i: nat, c: Skill)
    requires (forall j :: 0 <= j < |clusters| ==> clusters[j] != []) && i < |clusters|
    requires SameAsRepresentative(clusters, cache) && UnlikeEarlier(clusters, cache)
    requires Judged(cache, clusters[i][0], c, true)
    requires forall j :: 0 <= j < i ==> Judged(cache, clusters[j][0], c, false)
    ensures var grown := clusters[i := clusters[i] + [c]]; SameAsRepresentative(grown, cache) && UnlikeEarlier(grown, cache)
  {
    var grown := clusters[i := clusters[i] + [c]];
    forall k, m | 0 <= k < |grown| && 0 < m < |grown[k]| ensures Judged(cache, grown[k][0], grown[k][m], true) {
      assert grown[k][0] == clusters[k][0];
    }
    forall j, k, m | 0 <= j < k < |grown| && 0 <= m < |grown[k]|
      ensures Judged(cache, grown[j][0], grown[k][m], false)
    {
      assert grown[j][0] == clusters[j][0];
      assert m < |clusters[k]| ==> grown[k][m] == clusters[k][m];
    }
  }

  lemma NewCluster(seen: seq<Skill>, clusters: seq<seq<Skill>>, cache: Cache, c: Skill)
    requires seen != [] && Clustering(seen, clusters, cache)
    requires forall j :: 0 <= j < |clusters| ==> Judged(cache, clusters[j][0], c, false)
    ensures Clustering(seen + [c], clusters + [[c]], cache)
  {
    FlattenSnoc(clusters, [c]);
    var more := clusters + [[c]];
    assert multiset(Flatten(clusters) + [c]) == multiset(seen + [c]);
    forall k, m | 0 <= k < |more| && 0 < m < |more[k]| ensures Judged(cache, more[k][0], more[k][m], true) {
      assert k < |clusters| && more[k] == clusters[k];
    }
    forall j, k, m | 0 <= j < k < |more| && 0 <= m < |more[k]| && more[j] != []
      ensures Judged(cache, more[j][0], more[k][m], false)
    {
      assert more[j] == clusters[j];
      if k == |clusters| {
        assert more[k] == [c] && more[k][m] == c;
      } else {
        assert more[k] == clusters[k];
      }
    }
  }

  lemma OneCluster(candidates: seq<Skill>, cache: Cache)
    requires |candidates| <= 1
    ensures Clustering(candidates, [candidates], cache)
  {
    assert Flatten([candidates]) == candidates + Flatten([]) == candidates;
  }

  // ---- the judge --------------------------------------------------------------------------

  /** The replies to one question: failed calls, up to three, or fewer and then an answer. */
  ghost predicate Asked(replies: seq<Reply>) {
    && 1 <= |replies| <= 3
    && (forall i :: 0 <= i < |replies| - 1 ==> replies[i].Failed?)
    && (|replies| < 3 ==> !replies[|replies| - 1].Failed?)
  }

  /** What they decide: the verdict, if one came; otherwise that the skills are the same. */
  ghost function Decision(replies: seq<Reply>): bool {
    replies != [] && replies[|replies| - 1].Verdict? ==> replies[|replies| - 1].same
  }

  class MergeJudge {
    var cache: Cache
    /** The replies the model gave, by question. */
    ghost var replies: map<string, seq<Reply>>

    /** Every question was put one to three times, and the cache holds what its replies decide. */
    ghost predicate Valid()
      reads this
    {
      forall k :: k in replies ==> Asked(replies[k]) && k in cache && cache[k] == Decision(replies[k])
    }

    constructor (saved: Cache)
      ensures Valid() && cache == saved && replies == map[]
    {
      cache, replies := saved, map[];
    }

    /** A call to the model: any answer at all. */
    method Ask(a: Skill, b: Skill) returns (reply: Reply)
      modifies this`replies
      ensures var k := CacheKey(a, b);
              replies == old(replies)[k := (if k in old(replies) then old(replies)[k] else []) + [reply]]
    {
      reply := *;
      ghost var k := CacheKey(a, b);
      replies := replies[k := (if k in replies then replies[k] else []) + [reply]];
    }

    /** The attempts of _score_pair: at most three, ended by the first answer; what cannot
        be read, or keeps failing, counts as the same skill. */
    method AskRepeatedly(a: Skill, b: Skill) returns (same: bool, ghost got: seq<Reply>)
      requires CacheKey(a, b) !in replies
      modifies this`replies
      ensures Asked(got) && same == Decision(got) && replies == old(replies)[CacheKey(a, b) := got]
    {
      var attempt := 0;
      same, got := true, [];
      while attempt < 3
        invariant attempt <= 3 && same
        invariant |got| == attempt && forall i :: 0 <= i < |got| ==> got[i].Failed?
        invariant replies == if got == [] then old(replies) else old(replies)[CacheKey(a, b) := got]
      {
        var reply := Ask(a, b);
        got := got + [reply];
        attempt := attempt + 1;
        match reply {
          case Verdict(verdict) => same := verdict; break;
          case Unparseable => same := true; break;
          case Failed =>
        }
      }
    }

    /** _score_pair: the cached answer, or a new one that is kept. */
    method ScorePair(a: Skill, b: Skill) returns (same: bool)
      requires Valid()
      modifies this
      ensures Valid() && Judged(cache, a, b, same) && Grew(old(cache), cache)
      ensures cache.Keys == old(cache).Keys + {CacheKey(a, b)}
      ensures CacheKey(a, b) in old(cache) ==> cache == old(cache) && replies == old(replies)
      ensures CacheKey(a, b) !in old(cache) ==>
                && CacheKey(a, b) in replies && replies - {CacheKey(a, b)} == old(replies)
                && var got := replies[CacheKey(a, b)];
                   && 1 <= |got| <= 3 && (forall i :: 0 <= i < |got| - 1 ==> got[i].Failed?)
                   && (|got| < 3 ==> !got[|got| - 1].Failed?)
                   && same == (got[|got| - 1].Verdict? ==> got[|got| - 1].same)
    {
      var k := CacheKey(a, b);
      if k in cache {
        return cache[k];
      }
      ghost var got;
      same, got := AskRepeatedly(a, b);
      cache := cache[k := same];
    }

    /** The first cluster whose representative matches, asking one after the other. */
    method FindCluster(clusters: seq<seq<Skill>>, c: Skill) returns (found: nat)
      requires forall i :: 0 <= i < |clusters| ==> clusters[i] != []
      requires Valid()
      modifies this
      ensures Valid()
      ensures Grew(old(cache), cache) && found <= |clusters|
      ensures forall j :: 0 <= j < found ==> Judged(cache, clusters[j][0], c, false)
      ensures found < |clusters| ==> Judged(cache, clusters[found][0], c, true)
    {
      found := 0;
      while found < |clusters|
        invariant found <= |clusters| && Valid() && Grew(old(cache), cache)
        invariant forall j :: 0 <= j < found ==> Judged(cache, clusters[j][0], c, false)
      {
        var same := ScorePair(clusters[found][0], c);
        if same {
          return;
        }
        found := found + 1;
      }
    }

    /** One turn of the loop over candidates. */
    method Place(ghost seen: seq<Skill>, clusters: seq<seq<Skill>>, c: Skill) returns (clusters': seq<seq<Skill>>)
      requires seen != [] && Clustering(seen, clusters, cache)
      requires Valid()
      modifies this
      ensures Valid()
      ensures Clustering(seen + [c], clusters', cache) && Grew(old(cache), cache)
    {
      ghost var before := cache;
      var found := FindCluster(clusters, c);
      ClusteringGrows(seen, clusters, before, cache);
      if found < |clusters| {
        JoinCluster(seen, clusters, cache, found, c);
        clusters' := clusters[found := clusters[found] + [c]];
      } else {
        NewCluster(seen, clusters, cache, c);
        clusters' := clusters + [[c]];
      }
    }

    /** cluster. */
    method Cluster(candidates: seq<Skill>) returns (clusters: seq<seq<Skill>>)
      requires Valid()
      modifies this
      ensures Valid()
      ensures Clustering(candidates, clusters, cache) && Grew(old(cache), cache)
    {
      if |candidates| <= 1 {
        OneCluster(candidates, cache);
        return [candidates];
      }
      clusters := [[candidates[0]]];
      OneCluster(candidates[..1], cache);
      assert candidates[..1] == [candidates[0]];
      var n := 1;
      while n < |candidates|
        invariant 1 <= n <= |candidates| && Valid() && Grew(old(cache), cache)
        invariant Clustering(candidates[..n], clusters, cache)
      {
        TakeSnoc(candidates, n);
        clusters := Place(candidates[..n], clusters, candidates[n]);
        n := n + 1;
      }
      assert candidates[..n] == candidates;
    }
  }

  // ---- a judge that answers by an equivalence ---------------------------------------------

  ghost predicate Equivalence(v: (Skill, Skill) -> bool, among: seq<Skill>) {
    && (forall a :: a in among ==> v(a, a))
    && (forall a, b :: a in among && b in among && v(a, b) ==> v(b, a))
    && (forall a, b, c :: a in among && b in among && c in among && v(a, b) && v(b, c) ==> v(a, c))
  }

  /** The cached answers about these skills are those of `v`. */
  ghost predicate AnswersBy(cache: Cache, v: (Skill, Skill) -> bool, among: seq<Skill>) {
    forall a, b :: a in among && b in among && CacheKey(a, b) in cache ==> cache[CacheKey(a, b)] == v(a, b)
  }

  lemma {:induction false} FlattenMember<T>(ss: seq<seq<T>>, i: nat, m: nat)
    requires i < |ss| && m < |ss[i]|
    ensures ss[i][m] in Flatten(ss)
  {
    if i > 0 {
      FlattenMember(ss[1..], i - 1, m);
    }
  }

  lemma {:induction false} FlattenPlace<T>(ss: seq<seq<T>>, x: T) returns (i: nat, m: nat)
    requires x in Flatten(ss)
    ensures i < |ss| && m < |ss[i]| && ss[i][m] == x
  {
    if x in ss[0] {
      i := 0;
      m :| 0 <= m < |ss[0]| && ss[0][m] == x;
    } else {
      i, m := FlattenPlace(ss[1..], x);
      i := i + 1;
    }
  }

  lemma ClusteredIsCandidate(candidates: seq<Skill>, clusters: seq<seq<Skill>>, cache: Cache, i: nat, m: nat)
    requires Clustering(candidates, clusters, cache) && i < |clusters| && m < |clusters[i]|
    ensures clusters[i][m] in candidates
  {
    FlattenMember(clusters, i, m);
    assert clusters[i][m] in multiset(Flatten(clusters));
    assert clusters[i][m] in multiset(candidates);
  }

  /** The clusters are exactly the classes of the equivalence. */
  lemma ClustersAreClasses(candidates: seq<Skill>, clusters: seq<seq<Skill>>, cache: Cache, v: (Skill, Skill) -> bool,
                           i: nat, m: nat, j: nat, n: nat)
    requires Clustering(candidates, clusters, cache)
    requires Equivalence(v, candidates) && AnswersBy(cache, v, candidates)
    requires i < |clusters| && m < |clusters[i]| && j < |clusters| && n < |clusters[j]|
    ensures v(clusters[i][m], clusters[j][n]) <==> i == j
  {
    MemberOfClass(candidates, clusters, cache, v, i, m);
    MemberOfClass(candidates, clusters, cache, v, j, n);
    ClusteredIsCandidate(candidates, clusters, cache, i, m);
    ClusteredIsCandidate(candidates, clusters, cache, j, n);
    ClusteredIsCandidate(candidates, clusters, cache, i, 0);
    ClusteredIsCandidate(candidates, clusters, cache, j, 0);
    if i < j {
      assert Judged(cache, clusters[i][0], clusters[j][0], false);
    } else if j < i {
      assert Judged(cache, clusters[j][0], clusters[i][0], false);
    }
  }

  lemma MemberOfClass(candidates: seq<Skill>, clusters: seq<seq<Skill>>, cache: Cache, v: (Skill, Skill) -> bool,
                      i: nat, m: nat)
    requires Clustering(candidates, clusters, cache)
    requires Equivalence(v, candidates) && AnswersBy(cache, v, candidates)
    requires i < |clusters| && m < |clusters[i]|
    ensures v(clusters[i][0], clusters[i][m])
  {
    ClusteredIsCandidate(candidates, clusters, cache, i, 0);
    ClusteredIsCandidate(candidates, clusters, cache, i, m);
    if m > 0 {
      assert Judged(cache, clusters[i][0], clusters[i][m], true);
    }
  }

  /** So the order of the candidates does not change which skills end up together. */
  lemma OrderDoesNotMatter(a: seq<Skill>, b: seq<Skill>, p: seq<seq<Skill>>, q: seq<seq<Skill>>,
                           cp: Cache, cq: Cache, v: (Skill, Skill) -> bool, i: nat)
    requires multiset(a) == multiset(b) && a != [] && i < |p|
    requires Clustering(a, p, cp) && Clustering(b, q, cq)
    requires Equivalence(v, a) && AnswersBy(cp, v, a) && AnswersBy(cq, v, a)
    ensures exists j :: 0 <= j < |q| && forall x :: x in p[i] <==> x in q[j]
  {
    assert forall x :: x in b <==> x in multiset(b);
    assert forall x :: x in a <==> x in multiset(a);
    ClusteredIsCandidate(a, p, cp, i, 0);
    var rep := p[i][0];
    assert rep in multiset(Flatten(q));
    var j, n := FlattenPlace(q, rep);
    forall x ensures x in p[i] <==> x in q[j] {
      if x in p[i] {
        var m :| 0 <= m < |p[i]| && p[i][m] == x;
        SameClassElsewhere(a, b, p, q, cp, cq, v, i, 0, m, j, n);
      }
      if x in q[j] {
        var m :| 0 <= m < |q[j]| && q[j][m] == x;
        SameClassElsewhere(b, a, q, p, cq, cp, v, j, n, m, i, 0);
      }
    }
  }

  /** Two skills of one cluster meet again in the other clustering. */
  lemma SameClassElsewhere(a: seq<Skill>, b: seq<Skill>, p: seq<seq<Skill>>, q: seq<seq<Skill>>,
                           cp: Cache, cq: Cache, v: (Skill, Skill) -> bool,
                           i: nat, l: nat, m: nat, j: nat, n: nat)
    requires multiset(a) == multiset(b)
    requires Clustering(a, p, cp) && Clustering(b, q, cq)
    requires Equivalence(v, a) && Equivalence(v, b) && AnswersBy(cp, v, a) && AnswersBy(cq, v, b)
    requires i < |p| && l < |p[i]| && m < |p[i]| && j < |q| && n < |q[j]| && p[i][l] == q[j][n]
    ensures p[i][m] in q[j]
  {
    ClustersAreClasses(a, p, cp, v, i, l, i, m);
    ClusteredIsCandidate(a, p, cp, i, m);
    assert p[i][m] in multiset(a);
    assert p[i][m] in multiset(Flatten(q));
    var k, o := FlattenPlace(q, p[i][m]);
    ClustersAreClasses(b, q, cq, v, j, n, k, o);
  }

  // ---- the survivor -----------------------------------------------------------------------

  function Preferred(cluster: seq<Skill>): seq<Skill> {
    var top := Pick(cluster, (s: Skill) => s.isSubSkill, false);
    if top == [] then cluster else top
  }

  predicate IsFirstLongest(pool: seq<Skill>, i: int) {
    && 0 <= i < |pool|
    && (forall j :: 0 <= j < |pool| ==> pool[j].size <= pool[i].size)
    && (forall j :: 0 <= j < i ==> pool[j].size < pool[i].size)
  }

  lemma PreferredAre(cluster: seq<Skill>)
    requires cluster != []
    ensures Preferred(cluster) != []
    ensures forall s :: s in Preferred(cluster) ==> s in cluster
  {
    PickMembers(cluster, (s: Skill) => s.isSubSkill, false);
  }

  lemma PreferredFirst(cluster: seq<Skill>, best: Skill)
    requires best in Preferred(cluster)
    ensures best.isSubSkill ==> forall s :: s in cluster ==> s.isSubSkill
    ensures forall s :: s in cluster && s.isSubSkill == best.isSubSkill ==> s in Preferred(cluster)
  {
    PickMembers(cluster, (s: Skill) => s.isSubSkill, false);
  }

  /** max(pool, key=size), which keeps the first of equals. */
  method FirstLongest(pool: seq<Skill>) returns (best: Skill)
    requires pool != []
    ensures exists i :: IsFirstLongest(pool, i) && pool[i] == best
  {
    best := pool[0];
    ghost var at := 0;
    var n := 1;
    while n < |pool|
      invariant at < n <= |pool| && pool[at] == best
      invariant forall j :: 0 <= j < n ==> pool[j].size <= best.size
      invariant forall j :: 0 <= j < at ==> pool[j].size < best.size
    {
      if pool[n].size > best.size {
        best, at := pool[n], n;
      }
      n := n + 1;
    }
    assert IsFirstLongest(pool, at);
  }

  /** pick_best_in_cluster: the first longest one, top-level skills before sub-skills. */
  method PickBestInCluster(cluster: seq<Skill>) returns (best: Skill)
    requires cluster != []
    ensures best in cluster
    ensures best.isSubSkill ==> forall s :: s in cluster ==> s.isSubSkill
    ensures forall s :: s in cluster && s.isSubSkill == best.isSubSkill ==> s.size <= best.size
    ensures exists i :: IsFirstLongest(Preferred(cluster), i) && Preferred(cluster)[i] == best
  {
    PreferredAre(cluster);
    best := FirstLongest(Preferred(cluster));
    assert best in Preferred(cluster);
    PreferredFirst(cluster, best);
  }
}
