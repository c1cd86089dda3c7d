/**
 * The network aggregation of RepoService: the repository network and the
 * developer network around one repository.
 *
 * Both look up the application cache first. On a miss they select the graph
 * space, fetch the neighbour rows of the root (phase 1), build the node list
 * (de-duplicated by name, first occurrence winning), then issue one relation
 * query per neighbour index restricted to the neighbours after it (phase 2),
 * append every relation row as an edge, and cache the result.
 *
 * The graph store is abstract: it is given by the rows each query would
 * return, or `None` when `exec` yields `null` or data without `tables`. Every
 * query sent is recorded in `sent`; `Text` renders a query as the statement
 * text the service sends.
 */
module Repo {
  import opened Wrappers
  import opened Strings
  import opened Sequences
  import opened FirstOccurrence
  import Nebula

  datatype Node = Node(name: string, value: int)
  datatype Edge = Edge(source: string, target: string, weight: int)
  datatype NetworkResult = NetworkResult(nodes: seq<Node>, edges: seq<Edge>)

  /** A phase-1 row of the repository network. */
  datatype RelatedRepo = RelatedRepo(selfInf: int, inf: int, name: string, w: int)
  /** A phase-1 row of the developer network. */
  datatype RelatedDeveloper = RelatedDeveloper(name: string, w: int)
  /** A phase-2 row. */
  datatype Relation = Relation(source: string, target: string, w: int)

  /** The graph store: the `tables` each query yields, if any. */
  datatype Gateway = Gateway(
    relatedRepos: Query -> Option<seq<RelatedRepo>>,
    relatedDevelopers: Query -> Option<seq<RelatedDeveloper>>,
    relations: Query -> Option<seq<Relation>>)

  /** The application cache entries this service reads and writes. */
  type NetworkCache = map<string, NetworkResult>

  /** What one lookup returns, the cache after it, and the queries it sent, in order. */
  datatype Lookup = Lookup(result: Option<NetworkResult>, cache: NetworkCache, sent: seq<Query>)

  // ---------------------------------------------------------------------------
  // Cache keys and query texts

  function RepoNetworkCacheKey(name: string): string
  {
    "RepoService_RepoNetwork_" + name
  }

  function DeveloperNetworkCacheKey(name: string): string
  {
    "RepoService_DeveloperNetwork_" + name
  }

  /**
   * Each key family determines its name, the two families never share a key,
   * and neither meets the session token's key.
   */
  lemma CacheKeysDistinct(a: string, b: string)
    ensures RepoNetworkCacheKey(a) == RepoNetworkCacheKey(b) <==> a == b
    ensures DeveloperNetworkCacheKey(a) == DeveloperNetworkCacheKey(b) <==> a == b
    ensures RepoNetworkCacheKey(a) != DeveloperNetworkCacheKey(b)
    ensures RepoNetworkCacheKey(a) != Nebula.NsidKey && DeveloperNetworkCacheKey(a) != Nebula.NsidKey
  {
    var ra, rb := RepoNetworkCacheKey(a), RepoNetworkCacheKey(b);
    assert ra[24..] == a && rb[24..] == b;
    var da, db := DeveloperNetworkCacheKey(a), DeveloperNetworkCacheKey(b);
    assert da[29..] == a && db[29..] == b;
    assert ra[12] == 'R' && db[12] == 'D';
    assert ra[0] == 'R' && da[0] == 'R' && Nebula.NsidKey[0] == 'c';
  }

  /** The statements this service sends; `Text` gives the exact text sent. */
  datatype Query =
    | Use(space: string)
    | RelatedRepos(root: string)
    | RelatedDevelopers(root: string)
    | RepoRelations(repo: string, targets: seq<string>)
    | DeveloperRelations(login: string, targets: seq<string>)

  /** The query text; a list of targets is interpolated as an array, which joins it with `,`. */
  function Text(q: Query): string
  {
    match q
    case Use(space) => "USE " + space
    case RelatedRepos(name) =>
      "MATCH (n:repo{repo_name:\"" + name + "\"})<-[rel:relationship]-(r:repo) WITH n.influence AS self_inf, rel.weight AS w, r.repo_name AS name, r.influence AS inf RETURN name, self_inf, inf, w ORDER BY w DESC LIMIT 30"
    case RelatedDevelopers(name) =>
      "MATCH (n:repo{repo_name:\"" + name + "\"})<-[rel:relationship]-(r:actor) WITH rel.weight AS w, r.actor_login AS name RETURN name, w ORDER BY w DESC LIMIT 30"
    case RepoRelations(repo, targets) =>
      "MATCH (r1:repo{repo_name:" + repo + "})-[rel:relationship]->(r2:repo) WHERE r2.repo_name IN ["
        + Join(targets, ',') + "] RETURN r1.repo_name AS source, r2.repo_name AS target, rel.weight AS w;"
    case DeveloperRelations(login, targets) =>
      "MATCH (a1:actor{actor_login:" + login + "})-[rel:relationship]->(a2:actor) WHERE a2.actor_login IN ["
        + Join(targets, ',') + "] RETURN a1.actor_login AS source, a2.actor_login AS target, rel.weight AS w;"
  }

  /** A name in double quotes, unescaped. */
  function Quote(name: string): string
  {
    "\"" + name + "\""
  }

  function Quoted(names: seq<string>): seq<string>
  {
    seq(|names|, i requires 0 <= i < |names| => Quote(names[i]))
  }

  function RepoNames(rows: seq<RelatedRepo>): seq<string>
  {
    seq(|rows|, i requires 0 <= i < |rows| => rows[i].name)
  }

  function DeveloperNames(rows: seq<RelatedDeveloper>): seq<string>
  {
    seq(|rows|, i requires 0 <= i < |rows| => rows[i].name)
  }

  function NodeNames(nodes: seq<Node>): seq<string>
  {
    seq(|nodes|, i requires 0 <= i < |nodes| => nodes[i].name)
  }

  /**
   * The IN list of the relation query for index `i`: nothing for the last
   * index, and otherwise, when no name holds a `,`, a list that splits on `,`
   * back into the quoted names after `i`, in row order.
   */
  lemma RelationTargetsParse(names: seq<string>, i: nat)
    requires i < |names|
    requires forall k :: 0 <= k < |names| ==> ',' !in names[k]
    ensures i == |names| - 1 ==> Join(Quoted(names)[i + 1..], ',') == ""
    ensures i < |names| - 1 ==> Split(Join(Quoted(names)[i + 1..], ','), ',') == Quoted(names)[i + 1..]
  {
    var targets := Quoted(names)[i + 1..];
    if i < |names| - 1 {
      forall k | 0 <= k < |targets| ensures ',' !in targets[k] {
        var n := names[i + 1 + k];
        assert targets[k] == "\"" + n + "\"";
        assert ',' !in n;
      }
      JoinSplit(targets, ',');
    }
  }

  // ---------------------------------------------------------------------------
  // Phase 1: the node list and the root edges

  /** The neighbour rows that add a node: first occurrences of names other than the root. */
  function KeptRepos(root: string, rows: seq<RelatedRepo>): seq<RelatedRepo>
  {
    KeptRows(rows, RepoNames(rows), {root})
  }

  function KeptDevelopers(rows: seq<RelatedDeveloper>): seq<RelatedDeveloper>
  {
    KeptRows(rows, DeveloperNames(rows), {})
  }

  /** A repository neighbour's node is valued by its influence. */
  function RepoNodes(kept: seq<RelatedRepo>): seq<Node>
  {
    seq(|kept|, j requires 0 <= j < |kept| => Node(kept[j].name, kept[j].inf))
  }

  /** The root's edge to each kept neighbour, weighted by the relationship. */
  function RootEdges(root: string, kept: seq<RelatedRepo>): seq<Edge>
  {
    seq(|kept|, j requires 0 <= j < |kept| => Edge(root, kept[j].name, kept[j].w))
  }

  /** A developer's node is valued by the relationship weight. */
  function DeveloperNodes(kept: seq<RelatedDeveloper>): seq<Node>
  {
    seq(|kept|, j requires 0 <= j < |kept| => Node(kept[j].name, kept[j].w))
  }

  /** The names of the kept rows are the first occurrences of the row names. */
  lemma KeptRepoNames(root: string, rows: seq<RelatedRepo>)
    ensures NodeNames(RepoNodes(KeptRepos(root, rows))) == FirstNames(RepoNames(rows), {root})
  {
  }

  lemma KeptDeveloperNames(rows: seq<RelatedDeveloper>)
    ensures NodeNames(DeveloperNodes(KeptDevelopers(rows))) == FirstNames(DeveloperNames(rows), {})
  {
  }

  /** findIndex on the node names: the first node carrying `name`, or -1. */
  method FindIndex(nodes: seq<Node>, name: string) returns (idx: int)
    ensures -1 <= idx < |nodes|
    ensures idx >= 0 ==> nodes[idx].name == name && forall j :: 0 <= j < idx ==> nodes[j].name != name
    ensures idx == -1 <==> name !in NodeNames(nodes)
  {
    for i := 0 to |nodes|
      invariant forall j :: 0 <= j < i ==> nodes[j].name != name
    {
      if nodes[i].name == name {
        assert NodeNames(nodes)[i] == name;
        return i;
      }
    }
    idx := -1;
    assert forall k :: 0 <= k < |nodes| ==> NodeNames(nodes)[k] != name;
  }

  /** The node names seen after some rows: the root and every name so far. */
  lemma RepoNodesSeen(root: string, rows: seq<RelatedRepo>, rootValue: int, x: string)
    ensures x in NodeNames([Node(root, rootValue)] + RepoNodes(KeptRepos(root, rows)))
            <==> x == root || x in RepoNames(rows)
  {
    var nodes := [Node(root, rootValue)] + RepoNodes(KeptRepos(root, rows));
    KeptRepoNames(root, rows);
    FirstNamesSeen(RepoNames(rows), {root});
    assert NodeNames(nodes) == [root] + NodeNames(RepoNodes(KeptRepos(root, rows)));
  }

  lemma RepoNamesPrefix(rows: seq<RelatedRepo>, i: nat)
    requires i < |rows|
    ensures RepoNames(rows[..i + 1]) == RepoNames(rows)[..i + 1]
    ensures RepoNames(rows[..i]) == RepoNames(rows)[..i]
  {
  }

  lemma DeveloperNamesPrefix(rows: seq<RelatedDeveloper>, i: nat)
    requires i < |rows|
    ensures DeveloperNames(rows[..i + 1]) == DeveloperNames(rows)[..i + 1]
    ensures DeveloperNames(rows[..i]) == DeveloperNames(rows)[..i]
  {
  }

  /** The first forEach of getRepoNetwork, after the root node: one node and one root edge per new name. */
  method SeedRepoNetwork(root: string, rows: seq<RelatedRepo>) returns (nodes: seq<Node>, edges: seq<Edge>)
    requires |rows| > 0
    ensures nodes == [Node(root, rows[0].selfInf)] + RepoNodes(KeptRepos(root, rows))
    ensures edges == RootEdges(root, KeptRepos(root, rows))
  {
    nodes := [Node(root, rows[0].selfInf)];
    edges := [];
    assert rows[..0] == [];
    for i := 0 to |rows|
      invariant nodes == [Node(root, rows[0].selfInf)] + RepoNodes(KeptRepos(root, rows[..i]))
      invariant edges == RootEdges(root, KeptRepos(root, rows[..i]))
    {
      var names := RepoNames(rows);
      RepoNamesPrefix(rows, i);
      KeptRowsStep(rows, names, {root}, i);
      assert rows[..i + 1][..i] == rows[..i];
      RepoNodesSeen(root, rows[..i], rows[0].selfInf, rows[i].name);
      var found := FindIndex(nodes, rows[i].name);
      if found < 0 {
        nodes := nodes + [Node(rows[i].name, rows[i].inf)];
        edges := edges + [Edge(root, rows[i].name, rows[i].w)];
      }
    }
    assert rows[..|rows|] == rows;
  }

  /** The first forEach of getDeveloperNetwork: one node per new name, and no root. */
  method SeedDeveloperNetwork(rows: seq<RelatedDeveloper>) returns (nodes: seq<Node>)
    ensures nodes == DeveloperNodes(KeptDevelopers(rows))
  {
    nodes := [];
    assert rows[..0] == [];
    for i := 0 to |rows|
      invariant nodes == DeveloperNodes(KeptDevelopers(rows[..i]))
    {
      var names := DeveloperNames(rows);
      DeveloperNamesPrefix(rows, i);
      KeptRowsStep(rows, names, {}, i);
      assert rows[..i + 1][..i] == rows[..i];
      KeptDeveloperNames(rows[..i]);
      FirstNamesSeen(DeveloperNames(rows[..i]), {});
      var found := FindIndex(nodes, rows[i].name);
      if found < 0 {
        nodes := nodes + [Node(rows[i].name, rows[i].w)];
      }
    }
    assert rows[..|rows|] == rows;
  }

  // ---------------------------------------------------------------------------
  // Phase 2: one relation query per index

  /**
   * The query getRepoNetwork issues for each index, or `None` where it returns
   * early (the guard compares the index with the quoted name's JavaScript
   * length, in UTF-16 code units).
   */
  function RepoPlan(repos: seq<string>): seq<Option<Query>>
  {
    seq(|repos|, i requires 0 <= i < |repos| =>
      if i >= Utf16Length(repos[i]) - 1 then None else Some(RepoRelations(repos[i], repos[i + 1..])))
  }

  /** The query getDeveloperNetwork issues for each index, or `None` for the last. */
  function DeveloperPlan(developers: seq<string>): seq<Option<Query>>
  {
    seq(|developers|, i requires 0 <= i < |developers| =>
      if i >= |developers| - 1 then None else Some(DeveloperRelations(developers[i], developers[i + 1..])))
  }

  /** The queries a plan issues, in index order. */
  function Issued(plan: seq<Option<Query>>): seq<Query>
    decreases |plan|
  {
    if plan == [] then []
    else
      var n := |plan| - 1;
      Issued(plan[..n]) + (if plan[n].Some? then [plan[n].value] else [])
  }

  /** Every relation row, copied as an edge. */
  function RelationEdges(rels: seq<Relation>): seq<Edge>
  {
    seq(|rels|, k requires 0 <= k < |rels| => Edge(rels[k].source, rels[k].target, rels[k].w))
  }

  /** The edges one index contributes: none when skipped or when the store yields nothing. */
  function BatchOf(entry: Option<Query>, gw: Gateway): seq<Edge>
  {
    if entry.Some? && gw.relations(entry.value).Some? then RelationEdges(gw.relations(entry.value).value) else []
  }

  /** The edges of all indices, in index order. */
  function BatchEdges(plan: seq<Option<Query>>, gw: Gateway): seq<Edge>
    decreases |plan|
  {
    if plan == [] then []
    else
      var n := |plan| - 1;
      BatchEdges(plan[..n], gw) + BatchOf(plan[n], gw)
  }

  lemma PlanStep(plan: seq<Option<Query>>, i: nat, gw: Gateway)
    requires i < |plan|
    ensures Issued(plan[..i + 1]) == Issued(plan[..i]) + (if plan[i].Some? then [plan[i].value] else [])
    ensures BatchEdges(plan[..i + 1], gw) == BatchEdges(plan[..i], gw) + BatchOf(plan[i], gw)
  {
    assert plan[..i + 1][..i] == plan[..i];
  }

  /** Phases compose: the edges and queries of a plan are those of its parts, in order. */
  lemma {:induction false} PlanAppend(p: seq<Option<Query>>, q: seq<Option<Query>>, gw: Gateway)
    ensures Issued(p + q) == Issued(p) + Issued(q)
    ensures BatchEdges(p + q, gw) == BatchEdges(p, gw) + BatchEdges(q, gw)
    decreases |q|
  {
    if q == [] {
      assert p + q == p;
    } else {
      var n := |q| - 1;
      PlanAppend(p, q[..n], gw);
      assert (p + q)[..|p + q| - 1] == p + q[..n];
      AppendAssoc(Issued(p), Issued(q[..n]), if q[n].Some? then [q[n].value] else []);
      AppendAssoc(BatchEdges(p, gw), BatchEdges(q[..n], gw), BatchOf(q[n], gw));
    }
  }

  /** An index the store answers with nothing adds no edge, and the indices after it still count. */
  lemma NullBatchSkipped(plan: seq<Option<Query>>, i: nat, gw: Gateway)
    requires i < |plan| && plan[i].Some? && gw.relations(plan[i].value).None?
    ensures Issued(plan) == Issued(plan[..i]) + [plan[i].value] + Issued(plan[i + 1..])
    ensures BatchEdges(plan, gw) == BatchEdges(plan[..i], gw) + BatchEdges(plan[i + 1..], gw)
  {
    assert plan == plan[..i + 1] + plan[i + 1..];
    PlanAppend(plan[..i + 1], plan[i + 1..], gw);
    PlanStep(plan, i, gw);
    assert BatchOf(plan[i], gw) == [];
    assert BatchEdges(plan[..i + 1], gw) == BatchEdges(plan[..i], gw);
  }

  /** The developer guard: a query for every index but the last, each restricted to the developers after it. */
  lemma {:induction false} DeveloperPlanIssues(developers: seq<string>, k: nat)
    requires k <= |developers|
    ensures var plan := DeveloperPlan(developers);
      && (forall i :: 0 <= i < |plan| ==> (plan[i].Some? <==> i < |developers| - 1))
      && Issued(plan[..k]) == seq(if k == |developers| && k > 0 then k - 1 else k,
                                  i requires 0 <= i < k && i < |developers| - 1 =>
                                    DeveloperRelations(developers[i], developers[i + 1..]))
    decreases k
  {
    var plan := DeveloperPlan(developers);
    if k > 0 {
      DeveloperPlanIssues(developers, k - 1);
      PlanStep(plan, k - 1, Gateway(_ => None, _ => None, _ => None));
    }
  }

  /**
   * The repository guard as written: index `i` issues its query exactly when
   * `i` is below the quoted name's length minus one, that is when `i` is at
   * most the name's length in UTF-16 code units.
   */
  lemma RepoPlanGuard(names: seq<string>)
    ensures var repos, plan := Quoted(names), RepoPlan(Quoted(names));
      forall i :: 0 <= i < |plan| ==>
        && (plan[i].Some? <==> i <= Utf16Length(names[i]))
        && (plan[i].Some? ==> plan[i].value == RepoRelations(Quote(names[i]), repos[i + 1..]))
  {
    forall n: string ensures Utf16Length(Quote(n)) == Utf16Length(n) + 2 {
      QuoteLength(n);
    }
  }

  lemma QuoteLength(name: string)
    ensures Utf16Length(Quote(name)) == Utf16Length(name) + 2
  {
    var q := "\"";
    Utf16LengthAppend(q, name);
    Utf16LengthAppend(q + name, q);
  }

  /**
   * A name above U+FFFF counts twice: with an emoji at index 2 the guard
   * still issues that index's query, as JavaScript's `length` would.
   */
  lemma RepoGuardCountsCodeUnits()
    ensures var repos := Quoted(["a", "b", "\U{1F600}", "c"]);
      && Utf16Length(repos[2]) == 4 && |repos[2]| == 3
      && RepoPlan(repos)[2] == Some(RepoRelations("\"\U{1F600}\"", ["\"c\""]))
  {
    var repos := Quoted(["a", "b", "\U{1F600}", "c"]);
    QuoteLength("\U{1F600}");
    assert repos[2] == "\"\U{1F600}\"" && repos[3] == "\"c\"";
    assert repos[3..] == ["\"c\""];
  }

  /**
   * With four one-letter names the repository guard skips index 2, whose
   * suffix still holds a name, while the developer guard queries it.
   */
  lemma RepoGuardSkipsNonLastIndex()
    ensures var repos := Quoted(["a", "b", "c", "d"]);
      && RepoPlan(repos)[2].None? && repos[3..] == ["\"d\""]
      && RepoPlan(repos)[1].Some? && DeveloperPlan(repos)[2].Some?
  {
    var repos := Quoted(["a", "b", "c", "d"]);
    assert repos[2] == "\"c\"" && repos[3] == "\"d\"";
    assert repos[1] == "\"b\"";
    QuoteLength("b");
    QuoteLength("c");
  }

  // ---------------------------------------------------------------------------
  // The two lookups

  /** The repository network built from non-empty phase-1 rows. */
  function RepoNetworkOf(root: string, rows: seq<RelatedRepo>, gw: Gateway): NetworkResult
    requires |rows| > 0
  {
    var kept := KeptRepos(root, rows);
    NetworkResult(
      [Node(root, rows[0].selfInf)] + RepoNodes(kept),
      RootEdges(root, kept) + BatchEdges(RepoPlan(Quoted(RepoNames(rows))), gw))
  }

  /** The developer network built from non-empty phase-1 rows. */
  function DeveloperNetworkOf(rows: seq<RelatedDeveloper>, gw: Gateway): NetworkResult
  {
    NetworkResult(DeveloperNodes(KeptDevelopers(rows)), BatchEdges(DeveloperPlan(Quoted(DeveloperNames(rows))), gw))
  }

  /** getRepoNetwork: a cache hit, no data, or the network, cached. */
  function RepoLookup(cache: NetworkCache, space: string, name: string, gw: Gateway): Lookup
  {
    var key := RepoNetworkCacheKey(name);
    if key in cache then Lookup(Some(cache[key]), cache, [])
    else
      var q := RelatedRepos(name);
      var rows := gw.relatedRepos(q);
      if rows.None? || |rows.value| == 0 then Lookup(None, cache, [Use(space), q])
      else
        var network := RepoNetworkOf(name, rows.value, gw);
        Lookup(Some(network), cache[key := network],
               [Use(space), q] + Issued(RepoPlan(Quoted(RepoNames(rows.value)))))
  }

  /** getDeveloperNetwork: a cache hit, no data, or the network, cached. */
  function DeveloperLookup(cache: NetworkCache, space: string, name: string, gw: Gateway): Lookup
  {
    var key := DeveloperNetworkCacheKey(name);
    if key in cache then Lookup(Some(cache[key]), cache, [])
    else
      var q := RelatedDevelopers(name);
      var rows := gw.relatedDevelopers(q);
      if rows.None? || |rows.value| == 0 then Lookup(None, cache, [Use(space), q])
      else
        var network := DeveloperNetworkOf(rows.value, gw);
        Lookup(Some(network), cache[key := network],
               [Use(space), q] + Issued(DeveloperPlan(Quoted(DeveloperNames(rows.value)))))
  }

  /**
   * A cached network is returned as is and nothing is sent; without phase-1
   * rows the result is absent and the cache untouched; otherwise exactly the
   * variant's key is written, with the result.
   */
  lemma RepoLookupCases(cache: NetworkCache, space: string, name: string, gw: Gateway)
    ensures var l, key := RepoLookup(cache, space, name, gw), RepoNetworkCacheKey(name);
      var rows := gw.relatedRepos(RelatedRepos(name));
      && (key in cache ==> l == Lookup(Some(cache[key]), cache, []))
      && (key !in cache ==> |l.sent| >= 2 && l.sent[..2] == [Use(space), RelatedRepos(name)])
      && (key !in cache ==> (l.result.None? <==> rows.None? || |rows.value| == 0))
      && (l.result.None? ==> l.cache == cache)
      && (l.result.Some? ==> key in l.cache && l.cache[key] == l.result.value)
      && (forall k :: k != key ==> (k in l.cache <==> k in cache) && (k in cache ==> l.cache[k] == cache[k]))
  {
  }

  lemma DeveloperLookupCases(cache: NetworkCache, space: string, name: string, gw: Gateway)
    ensures var l, key := DeveloperLookup(cache, space, name, gw), DeveloperNetworkCacheKey(name);
      var rows := gw.relatedDevelopers(RelatedDevelopers(name));
      && (key in cache ==> l == Lookup(Some(cache[key]), cache, []))
      && (key !in cache ==> |l.sent| >= 2 && l.sent[..2] == [Use(space), RelatedDevelopers(name)])
      && (key !in cache ==> (l.result.None? <==> rows.None? || |rows.value| == 0))
      && (l.result.None? ==> l.cache == cache)
      && (l.result.Some? ==> key in l.cache && l.cache[key] == l.result.value)
      && (forall k :: k != key ==> (k in l.cache <==> k in cache) && (k in cache ==> l.cache[k] == cache[k]))
  {
  }

  /** Asking again after a network was found returns the same network and sends nothing. */
  lemma LookupsRepeat(cache: NetworkCache, space: string, name: string, gw: Gateway, gw2: Gateway)
    ensures var l := RepoLookup(cache, space, name, gw);
      l.result.Some? ==> RepoLookup(l.cache, space, name, gw2) == Lookup(l.result, l.cache, [])
    ensures var l := DeveloperLookup(cache, space, name, gw);
      l.result.Some? ==> DeveloperLookup(l.cache, space, name, gw2) == Lookup(l.result, l.cache, [])
  {
  }

  /** A repository lookup never changes a developer network entry, and the other way round. */
  lemma LookupsKeepEachOther(cache: NetworkCache, space: string, a: string, b: string, gw: Gateway)
    ensures var c := RepoLookup(cache, space, a, gw).cache; var k := DeveloperNetworkCacheKey(b);
      (k in c <==> k in cache) && (k in cache ==> c[k] == cache[k])
    ensures var c := DeveloperLookup(cache, space, a, gw).cache; var k := RepoNetworkCacheKey(b);
      (k in c <==> k in cache) && (k in cache ==> c[k] == cache[k])
  {
    CacheKeysDistinct(a, b);
    CacheKeysDistinct(b, a);
  }

  /**
   * The repository network: the root first, valued by the first row's
   * self-influence; then one node per first occurrence of a name other than
   * the root, in row order; all names distinct. The edges start with one root
   * edge per such node, matching it, followed by every row of every answered
   * phase-2 query.
   */
  lemma RepoNetworkShape(root: string, rows: seq<RelatedRepo>, gw: Gateway)
    requires |rows| > 0
    ensures var net, names := RepoNetworkOf(root, rows, gw), RepoNames(rows);
      var ps := Firsts(names, {root});
      && net.nodes[0] == Node(root, rows[0].selfInf)
      && Distinct(NodeNames(net.nodes))
      && (forall x :: x in NodeNames(net.nodes) <==> x == root || x in names)
      && |net.nodes| == |ps| + 1 <= |rows| + 1
      && Increasing(ps)
      && (forall p :: 0 <= p < |rows| ==> (p in ps <==> names[p] != root && names[p] !in names[..p]))
      && (forall k :: 1 <= k < |net.nodes| ==>
            net.nodes[k] == Node(rows[ps[k - 1]].name, rows[ps[k - 1]].inf)
            && net.edges[k - 1] == Edge(root, rows[ps[k - 1]].name, rows[ps[k - 1]].w))
      && net.edges[|net.nodes| - 1..] == BatchEdges(RepoPlan(Quoted(names)), gw)
  {
    var net, names := RepoNetworkOf(root, rows, gw), RepoNames(rows);
    var kept := KeptRepos(root, rows);
    var ps := Firsts(names, {root});
    assert |kept| == |ps|;
    assert NodeNames(net.nodes) == [root] + FirstNames(names, {root}) by {
      KeptRepoNames(root, rows);
    }
    assert Distinct(NodeNames(net.nodes)) by {
      FirstNamesDistinct(names, {root});
      FirstNamesSeen(names, {root});
    }
    forall x ensures x in NodeNames(net.nodes) <==> x == root || x in names {
      RepoNodesSeen(root, rows, rows[0].selfInf, x);
    }
    FirstsCharacterized(names, {root});
    forall k | 1 <= k < |net.nodes|
      ensures net.nodes[k] == Node(rows[ps[k - 1]].name, rows[ps[k - 1]].inf)
      ensures net.edges[k - 1] == Edge(root, rows[ps[k - 1]].name, rows[ps[k - 1]].w)
    {
      assert kept[k - 1] == rows[ps[k - 1]];
    }
    assert net.edges[|net.nodes| - 1..] == BatchEdges(RepoPlan(Quoted(names)), gw) by {
      assert |RootEdges(root, kept)| == |net.nodes| - 1;
    }
  }

  /**
   * The developer network: one node per distinct name, the first row carrying
   * it, valued by its weight; no root node and no phase-1 edge, so the edges
   * are exactly the rows of the answered phase-2 queries.
   */
  lemma DeveloperNetworkShape(rows: seq<RelatedDeveloper>, gw: Gateway)
    ensures var net, names := DeveloperNetworkOf(rows, gw), DeveloperNames(rows);
      var ps := Firsts(names, {});
      && Distinct(NodeNames(net.nodes))
      && (forall x :: x in NodeNames(net.nodes) <==> x in names)
      && |net.nodes| == |ps| <= |rows|
      && Increasing(ps)
      && (forall p :: 0 <= p < |rows| ==> (p in ps <==> names[p] !in names[..p]))
      && (forall k :: 0 <= k < |net.nodes| ==> net.nodes[k] == Node(rows[ps[k]].name, rows[ps[k]].w))
      && net.edges == BatchEdges(DeveloperPlan(Quoted(names)), gw)
  {
    var names := DeveloperNames(rows);
    KeptDeveloperNames(rows);
    FirstNamesDistinct(names, {});
    FirstNamesSeen(names, {});
    FirstsCharacterized(names, {});
  }

  /**
   * A worked case: two neighbours `alpha` and `beta` of a root with
   * self-influence 10. Both indices pass the repository guard, so besides the
   * query from `alpha` restricted to `beta`, a query from `beta` with an empty
   * IN list is sent; when it yields no rows, the edges are the two root edges
   * and the one relation row.
   */
  lemma TwoNeighboursExample(space: string, root: string, gw: Gateway)
    requires root != "alpha" && root != "beta"
    requires gw.relatedRepos(RelatedRepos(root))
             == Some([RelatedRepo(10, 5, "alpha", 9), RelatedRepo(10, 3, "beta", 7)])
    requires gw.relations(RepoRelations("\"alpha\"", ["\"beta\""])) == Some([Relation("alpha", "beta", 2)])
    requires gw.relations(RepoRelations("\"beta\"", [])).None? || gw.relations(RepoRelations("\"beta\"", [])) == Some([])
    ensures var l := RepoLookup(map[], space, root, gw);
      && l.result == Some(NetworkResult(
           [Node(root, 10), Node("alpha", 5), Node("beta", 3)],
           [Edge(root, "alpha", 9), Edge(root, "beta", 7), Edge("alpha", "beta", 2)]))
      && l.sent == [Use(space), RelatedRepos(root),
                    RepoRelations("\"alpha\"", ["\"beta\""]), RepoRelations("\"beta\"", [])]
  {
    var rows := [RelatedRepo(10, 5, "alpha", 9), RelatedRepo(10, 3, "beta", 7)];
    TwoNeighboursPhaseOne(root, rows);
    TwoNeighboursPlan(rows);
    var plan := RepoPlan(Quoted(RepoNames(rows)));
    assert plan[..1] == [plan[0]] && plan[..0] == [];
    assert BatchOf(plan[0], gw) == [Edge("alpha", "beta", 2)];
    assert BatchOf(plan[1], gw) == [];
    assert BatchEdges(plan[..1], gw) == [Edge("alpha", "beta", 2)];
    assert BatchEdges(plan, gw) == [Edge("alpha", "beta", 2)];
    assert Issued(plan[..1]) == [RepoRelations("\"alpha\"", ["\"beta\""])];
    var net := RepoNetworkOf(root, rows, gw);
    assert net.nodes == [Node(root, 10), Node("alpha", 5), Node("beta", 3)];
    assert net.edges == [Edge(root, "alpha", 9), Edge(root, "beta", 7), Edge("alpha", "beta", 2)];
  }

  /** The phase-1 part of the worked case: both neighbours are kept. */
  lemma TwoNeighboursPhaseOne(root: string, rows: seq<RelatedRepo>)
    requires root != "alpha" && root != "beta"
    requires rows == [RelatedRepo(10, 5, "alpha", 9), RelatedRepo(10, 3, "beta", 7)]
    ensures KeptRepos(root, rows) == rows
    ensures RepoNodes(rows) == [Node("alpha", 5), Node("beta", 3)]
    ensures RootEdges(root, rows) == [Edge(root, "alpha", 9), Edge(root, "beta", 7)]
  {
    var names := RepoNames(rows);
    assert names == ["alpha", "beta"];
    assert names[..1] == ["alpha"] && names[..0] == [];
    assert Firsts(names[..1], {root}) == [0];
    assert Firsts(names, {root}) == [0, 1];
  }

  /** The phase-2 part of the worked case: both indices pass the guard. */
  lemma TwoNeighboursPlan(rows: seq<RelatedRepo>)
    requires rows == [RelatedRepo(10, 5, "alpha", 9), RelatedRepo(10, 3, "beta", 7)]
    ensures RepoPlan(Quoted(RepoNames(rows)))
            == [Some(RepoRelations("\"alpha\"", ["\"beta\""])), Some(RepoRelations("\"beta\"", []))]
  {
    var names := RepoNames(rows);
    assert names == ["alpha", "beta"];
    var repos := Quoted(names);
    assert Quote("alpha") == "\"alpha\"" && Quote("beta") == "\"beta\"";
    assert repos == ["\"alpha\"", "\"beta\""];
    assert |repos[0]| == 7 && |repos[1]| == 6;
    assert repos[1..] == ["\"beta\""] && repos[2..] == [];
  }

  // ---------------------------------------------------------------------------
  // The service

  class RepoService {
    /** The application cache (only the network entries are used here). */
    var cache: NetworkCache
    /** The queries sent to the graph store so far. */
    ghost var sent: seq<Query>
    /** `config.nebula.space`. */
    const space: string

    constructor (space: string, cache: NetworkCache)
      ensures this.space == space && this.cache == cache && sent == []
    {
      this.space := space;
      this.cache := cache;
      sent := [];
    }

    /** The phase-2 loop of getRepoNetwork, taken in index order. */
    method RepoRelationBatches(repos: seq<string>, gw: Gateway) returns (added: seq<Edge>)
      modifies this`sent
      ensures added == BatchEdges(RepoPlan(repos), gw)
      ensures sent == old(sent) + Issued(RepoPlan(repos))
    {
      ghost var plan := RepoPlan(repos);
      added := [];
      for index := 0 to |repos|
        invariant added == BatchEdges(plan[..index], gw)
        invariant sent == old(sent) + Issued(plan[..index])
      {
        PlanStep(plan, index, gw);
        var repo := repos[index];
        if index < Utf16Length(repo) - 1 {
          var q := RepoRelations(repo, repos[index + 1..]);
          AppendAssoc(old(sent), Issued(plan[..index]), [q]);
          sent := sent + [q];
          var relationships := gw.relations(q);
          if relationships.Some? {
            added := AppendRelations(added, relationships.value);
          }
        }
      }
      assert plan[..|repos|] == plan;
    }

    /** The phase-2 loop of getDeveloperNetwork, taken in index order. */
    method DeveloperRelationBatches(developers: seq<string>, gw: Gateway) returns (added: seq<Edge>)
      modifies this`sent
      ensures added == BatchEdges(DeveloperPlan(developers), gw)
      ensures sent == old(sent) + Issued(DeveloperPlan(developers))
    {
      ghost var plan := DeveloperPlan(developers);
      added := [];
      for index := 0 to |developers|
        invariant added == BatchEdges(plan[..index], gw)
        invariant sent == old(sent) + Issued(plan[..index])
      {
        PlanStep(plan, index, gw);
        if index < |developers| - 1 {
          var q := DeveloperRelations(developers[index], developers[index + 1..]);
          AppendAssoc(old(sent), Issued(plan[..index]), [q]);
          sent := sent + [q];
          var relationships := gw.relations(q);
          if relationships.Some? {
            added := AppendRelations(added, relationships.value);
          }
        }
      }
      assert plan[..|developers|] == plan;
    }

    method GetRepoNetwork(name: string, gw: Gateway) returns (r: Option<NetworkResult>)
      modifies this
      ensures var l := RepoLookup(old(cache), space, name, gw);
        r == l.result && cache == l.cache && sent == old(sent) + l.sent
    {
      var key := RepoNetworkCacheKey(name);
      if key in cache {
        return Some(cache[key]);
      }
      sent := sent + [Use(space)];
      var q := RelatedRepos(name);
      sent := sent + [q];
      var relatedRepos := gw.relatedRepos(q);
      if relatedRepos.None? || |relatedRepos.value| == 0 {
        return None;
      }
      var rows := relatedRepos.value;
      var nodes, edges := SeedRepoNetwork(name, rows);
      var repos := Quoted(RepoNames(rows));
      ghost var before := sent;
      var added := RepoRelationBatches(repos, gw);
      AppendAssoc(old(sent), [Use(space), q], Issued(RepoPlan(repos)));
      assert before == old(sent) + [Use(space), q];
      r := Some(NetworkResult(nodes, edges + added));
      cache := cache[key := r.value];
    }

    method GetDeveloperNetwork(name: string, gw: Gateway) returns (r: Option<NetworkResult>)
      modifies this
      ensures var l := DeveloperLookup(old(cache), space, name, gw);
        r == l.result && cache == l.cache && sent == old(sent) + l.sent
    {
      var key := DeveloperNetworkCacheKey(name);
      if key in cache {
        return Some(cache[key]);
      }
      sent := sent + [Use(space)];
      var q := RelatedDevelopers(name);
      sent := sent + [q];
      var relatedActors := gw.relatedDevelopers(q);
      if relatedActors.None? || |relatedActors.value| == 0 {
        return None;
      }
      var rows := relatedActors.value;
      var nodes := SeedDeveloperNetwork(rows);
      var developers := Quoted(DeveloperNames(rows));
      ghost var before := sent;
      var added := DeveloperRelationBatches(developers, gw);
      AppendAssoc(old(sent), [Use(space), q], Issued(DeveloperPlan(developers)));
      assert before == old(sent) + [Use(space), q];
      r := Some(NetworkResult(nodes, added));
      cache := cache[key := r.value];
    }
  }

  /** The forEach that pushes every relation row onto the edges. */
  method AppendRelations(edges: seq<Edge>, rels: seq<Relation>) returns (out: seq<Edge>)
    ensures out == edges + RelationEdges(rels)
  {
    out := edges;
    for k := 0 to |rels|
      invariant out == edges + RelationEdges(rels[..k])
    {
      assert RelationEdges(rels[..k + 1]) == RelationEdges(rels[..k]) + [Edge(rels[k].source, rels[k].target, rels[k].w)];
      out := out + [Edge(rels[k].source, rels[k].target, rels[k].w)];
    }
    assert rels[..|rels|] == rels;
  }

}
