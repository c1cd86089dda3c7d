# open-galaxy-backend: network aggregation and gateway client, in Dafny

This project models the two sequential cores of the open-galaxy-backend
service layer.

- **RepoService** (`repo.dfy`) builds the repository network and the
  developer network around a repository.
  - It first looks in the application cache.
  - On a miss it selects the graph space and fetches the neighbour rows
    (phase 1).
  - It builds a node list in which names are de-duplicated and the first
    occurrence wins. The repository variant also adds a root node and one
    root edge per neighbour.
  - It sends one relation query per neighbour index, restricted to the
    neighbours after that index (phase 2), and appends every returned
    row as an edge.
  - It caches the result. No phase-1 data gives `null`, and nothing is
    cached then.
- **NebulaService** (`nebula.dfy`) is the client of the graph gateway.
  - `parseCookie` splits `set-cookie` headers into a key/value map.
  - `getNSID` returns the cached session token, or logs in and caches the
    token.
  - `execInternal` runs one statement; `exec` turns every failure into
    `null`.
  - `init` runs the six index statements in order and continues past
    failures.
  - `close` posts a disconnect when a token is cached.

Supporting modules:

- `strings.dfy`: JavaScript's `split` with one separator character,
  `join`, and `trim`. It proves the split/join round trip both ways and
  describes `trim` as a slice.
- `first_occurrence.dfy`: the reference definition of "the first row
  carrying each name". Both node lists are specified against it.
- `sequences.dfy`: associativity of concatenation.
- `wrappers.dfy`: `Option`, which stands for `null`/`undefined`.

How the model is set up:

- Each service is a class. It holds the cache it reads and writes and a
  ghost log `sent` of the requests it posts.
- Each method is proved against a specification function: `RepoLookup`,
  `DeveloperLookup`, `AcquireNsid`, `ExecSpec`, `RunExecs` and
  `CookieMap`. The lemmas state the promised properties about those
  functions.
- The transport is abstract:
  - The graph gateway is a datatype holding the response to `connect` and
    the response to `exec` for each token and statement. The `connect`
    response is one value per run.
  - JavaScript's `length` is `Strings.Utf16Length`: a character above
    U+FFFF counts as two code units. `Strings.Utf16LengthBmp` shows it is
    the number of characters exactly when there is no such character. A response is
    `TransportError | Resp(code, data, setCookies)`.
  - The graph store seen by RepoService gives the `tables` each query
    yields, or `None` when `exec` yields `null` or data without `tables`.
  - RepoService's queries are a `Query` datatype. `Repo.Text` renders the
    exact query text the service sends.

## Model

| member | source | states |
|---|---|---|
| Repo.CacheKeysDistinct | app/service/repo.ts:19-21 | each network key determines its name; a repository key never equals a developer key; neither equals the session token's key |
| Repo.RelationTargetsParse | app/service/repo.ts:51-54 | the IN list of the query for the last index is empty; for any other index, when no name holds a `,`, it splits on `,` back into exactly the quoted names after that index in row order (phase-1 rows, not de-duplicated nodes) |
| Repo.FindIndex | app/service/repo.ts:40 | returns the first index whose node carries the name, or -1 exactly when no node does |
| Repo.RepoNodesSeen | app/service/repo.ts:38-40 | after any rows, a name is among the node names exactly when it is the root or one of those rows' names |
| Repo.SeedRepoNetwork | app/service/repo.ts:38-50 | the forEach loop gives the root node valued by the first row's self-influence, then one node and one root edge for each kept row, in row order |
| Repo.SeedDeveloperNetwork | app/service/repo.ts:88-94 | the forEach loop gives one node per kept row, valued by its weight, with no root node |
| Repo.KeptRepoNames | app/service/repo.ts:38-50 | the names of the repository nodes after the root are the first occurrences of the row names other than the root |
| Repo.KeptDeveloperNames | app/service/repo.ts:88-94 | the names of the developer nodes are the first occurrences of the row names |
| Repo.RepoPlanGuard | app/service/repo.ts:52-54 | index `i` sends its query exactly when `i` is at most the JavaScript length of `name_i`, counted in UTF-16 code units (the guard compares the index with the quoted name's `length`); the query goes from `"name_i"` to the quoted names after `i` |
| Repo.QuoteLength | app/service/repo.ts:52 | quoting a name adds exactly two code units to its JavaScript length |
| Repo.RepoGuardCountsCodeUnits | app/service/repo.ts:53 | a name holding a character above U+FFFF counts it twice, as JavaScript's `length` does: with an emoji name at index 2 of four, index 2 still sends its query |
| Repo.RepoGuardSkipsNonLastIndex | app/service/repo.ts:53 | with four one-letter names the repository guard skips index 2 although `"d"` follows it, while the developer guard queries index 2 |
| Repo.DeveloperPlanIssues | app/service/repo.ts:96-98 | a query is sent for every index except the last, and the queries sent are exactly those from each developer to the developers after it, in index order |
| Repo.PlanAppend | app/service/repo.ts:52-63 | the queries and edges of consecutive index ranges concatenate |
| Repo.NullBatchSkipped | app/service/repo.ts:55 | an index whose query yields nothing contributes its query but no edge, and the indices after it still contribute |
| Repo.RepoNetworkShape | app/service/repo.ts:38-63 | node 0 is the root valued by `rows[0].self_inf`; node names are distinct; a name is a node exactly when it is the root or a row name; later nodes are the first row of each name other than the root, in increasing row order; root edge `k-1` goes to node `k` with that row's weight, so there is one fewer of them than nodes; after them come the phase-2 edges |
| Repo.DeveloperNetworkShape | app/service/repo.ts:88-107 | node names are distinct and are exactly the row names; each node is the first row carrying the name, valued by `w`, in increasing row order; there are no root node and no phase-1 edges, so the edges are exactly the phase-2 rows |
| Repo.RepoLookupCases | app/service/repo.ts:25-37 | a cached network is returned with nothing sent and the cache unchanged; on a miss `USE space` and the neighbour query go out first; the result is absent exactly when the rows are null or empty, and then the cache is unchanged; otherwise the result is stored under the key and no other key changes |
| Repo.DeveloperLookupCases | app/service/repo.ts:75-87 | the same four cases for the developer network and its key |
| Repo.LookupsRepeat | app/service/repo.ts:25-27 | after a lookup finds a network, the same lookup returns that network and sends nothing, whatever the store now answers |
| Repo.LookupsKeepEachOther | app/service/repo.ts:65 | a repository lookup never changes a developer entry, and a developer lookup never changes a repository entry |
| Repo.TwoNeighboursExample | app/service/repo.ts:35-66 | for neighbours `alpha` and `beta`, the nodes are root, alpha and beta; the edges are the two root edges followed by the single relation row; four queries are sent, the last with an empty IN list |
| Repo.AppendRelations | app/service/repo.ts:56-62 | every relation row is appended as `{source, target, weight: w}`, verbatim and in order, after the existing edges |
| Repo.RepoService.RepoRelationBatches | app/service/repo.ts:52-63 | the phase-2 loop sends exactly the planned queries in index order and collects exactly the rows of the answered ones |
| Repo.RepoService.DeveloperRelationBatches | app/service/repo.ts:96-107 | the same for the developer guard and query |
| Repo.RepoService.GetRepoNetwork | app/service/repo.ts:23-67 | the result, the new cache and the queries sent are those of `RepoLookup` |
| Repo.RepoService.GetDeveloperNetwork | app/service/repo.ts:73-111 | the result, the new cache and the queries sent are those of `DeveloperLookup` |
| Repo.RepoService.constructor | app/service/repo.ts:17 | starts from the given cache and space, with nothing sent |
| FirstOccurrence.FirstsCharacterized | app/service/repo.ts:39-40 | the kept indices increase, and an index is kept exactly when its name is not excluded and does not occur earlier |
| FirstOccurrence.FirstNamesSeen | app/service/repo.ts:39-40 | a name is kept exactly when it occurs and is not excluded |
| FirstOccurrence.FirstNamesDistinct | app/service/repo.ts:39-40 | no name is kept twice |
| FirstOccurrence.KeptRowsStep | app/service/repo.ts:39-50 | one more row is added exactly when its name is new and not excluded |
| Nebula.ParseCookie | app/service/nebula.ts:127-136 | the nested loops build exactly `CookieMap(cookies)` |
| Nebula.SetCookieParts | app/service/nebula.ts:130-133 | the inner loop sets every part of one cookie in turn |
| Nebula.SetPartsAppend | app/service/nebula.ts:129-134 | setting the parts of two lists in turn equals setting the parts of the first list, then those of the second |
| Nebula.SetPartsLastWins | app/service/nebula.ts:129-134 | a key is present exactly when some part carries it; its value is that of the last part carrying it; without such a part the key is as before |
| Nebula.CookieMapLastWins | app/service/nebula.ts:127-136 | the map holds exactly the keys of the `;`-parts of all cookies, each valued by its last occurrence |
| Nebula.CookiePartFields | app/service/nebula.ts:131 | the key is the trimmed part up to its first `=`; the value is absent without `=`, and otherwise is the text up to the next `=` or the end |
| Strings.Split | app/service/nebula.ts:130-131 | `split` always gives at least one piece |
| Strings.JoinSplit | app/service/repo.ts:54 | splitting the `,`-joined pieces gives the pieces back when none holds `,` |
| Strings.SplitFirstTwo | app/service/nebula.ts:131 | the first piece ends at the first separator; the second runs to the next separator or the end |
| Strings.Utf16Length | app/service/repo.ts:53 | `repo.length` counts UTF-16 code units: at least one and at most two per character |
| Strings.Utf16LengthAppend | app/service/repo.ts:52-53 | the length of a concatenation is the sum of the lengths |
| Strings.Utf16LengthBmp | app/service/repo.ts:53 | the length equals the number of characters exactly when no character lies above U+FFFF |
| Strings.TrimSlice | app/service/nebula.ts:131 | `trim` gives the slice between the leading and the trailing white space; what it removes is white space, and it keeps no white space at either end |
| Nebula.AcquireNsidCases | app/service/nebula.ts:56-89 | a truthy cached token resolves with nothing sent; otherwise one connect is sent; the three rejections (transport error, code not 0, key absent) happen exactly in their cases and leave the cache unchanged; success caches `cookieMap[nsidKey]` and resolves to it |
| Nebula.ExecOutcome | app/service/nebula.ts:20-54 | exec yields data exactly when a token is obtained and the gateway answers code 0, and then yields `ret.data`; it never fails; the exec request carries the obtained token |
| Nebula.SessionReuse | app/service/nebula.ts:59-62 | with a truthy token cached, exec sends only one exec request and keeps the cache |
| Nebula.RunExecs | app/service/nebula.ts:121-123 | one result for each statement |
| Nebula.RunExecsSendsEveryQuery | app/service/nebula.ts:113-123 | while a token can be had, every statement reaches the gateway once, in order, whatever each one answers |
| Nebula.RunExecsWithCachedSession | app/service/nebula.ts:121-123 | with a truthy token cached, the statements go out as one exec request each, in order, and the cache is unchanged |
| Nebula.RunExecsWhenLoginFails | app/service/nebula.ts:121-123 | when every login attempt fails (transport error, code not 0, or no `common-nsid` cookie) and no token is cached, every statement still runs: each one tries to log in again and yields `null`, and the cache is unchanged |
| Nebula.NebulaService.GetNsid | app/service/nebula.ts:56-89 | the result, the new cache and the requests sent are those of `AcquireNsid` |
| Nebula.NebulaService.ExecInternal | app/service/nebula.ts:31-54 | rejects on a transport error or a non-zero code, otherwise resolves to the data; posts one exec request carrying the token |
| Nebula.NebulaService.Exec | app/service/nebula.ts:20-29 | the result, the new cache and the requests sent are those of `ExecSpec` |
| Nebula.NebulaService.ExecEach | app/service/nebula.ts:121-123 | running the statements in turn leaves the cache and the requests of `RunExecs` |
| Nebula.NebulaService.Init | app/service/nebula.ts:110-125 | runs the six listed statements, starting with `USE <space>;`, as `RunExecs` does |
| Nebula.NebulaService.Close | app/service/nebula.ts:91-108 | the promise settles exactly when a truthy token is cached; only then is one disconnect carrying it posted; the cache is never changed |
| Nebula.NebulaService.constructor | app/service/nebula.ts:18 | starts from the given cache and space, with nothing sent |

## Left out

- The HTTP transport and the `requestretry` retry policy. The gateway's
  answers are inputs.
- The Cookie request header and the request bodies. Credentials,
  addresses and URLs are not modelled; a request records only its kind,
  its token and its statement.
- Logging.
- `Promise.all` concurrency in phase 2. The batches run in index order,
  so edges after the phase-1 prefix appear in index order, and that order
  is not promised by the code. Likewise, RepoService's queries are not
  routed through NebulaService's session handling.
- The meaning of the graph queries: `MATCH`, `ORDER BY w DESC` and
  `LIMIT 30`. The rows are arbitrary inputs, and `Repo.Text` only renders
  the query text.
- The store is indexed by the `Query` value rather than by its text. This
  is more general than a store that sees only the text.
- The shared application cache is split into one map per service. The two
  services use disjoint keys, which `Repo.CacheKeysDistinct` shows for
  the network keys against the session key. Its values are typed per
  service.
- A stored `undefined` token is modelled as `None`.
- Nebula.RunExecsWhenLoginFails, Nebula.RunExecsSendsEveryQuery: the
  gateway's `connect` answer is fixed for a whole run. Every login attempt
  in one run gets the same response, so a login that fails for one
  statement and succeeds for a later one is not captured.
- Numeric `self_inf`, `inf` and `w` values are opaque integers; they are
  only copied.
- Nebula.NebulaService.GetNsid: a missing `set-cookie` header, which makes
  the source throw inside the response callback, is not modelled; the
  header is always a list.
- `app/controller/repo.ts` (routing glue), `config/config.default.ts`
  (only `nsidKey = "common-nsid"` is used) and
  `typings/app/service/index.d.ts` are not part of this model.
- The repository variant's phase-2 guard is modelled as the code writes
  it, comparing the index with the length of the quoted name in UTF-16
  code units. A guard
  meant to require at least one neighbour after the index would compare
  against the list length, as the developer variant does.
  `Repo.RepoGuardSkipsNonLastIndex` and `Repo.TwoNeighboursExample` show
  the consequences: an index with neighbours after it can be skipped, and
  the last index can send a query with an empty IN list.
