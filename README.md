# Workflowy outline client, modelled in Dafny

This project models the core of a Python client for the Workflowy outliner.

- **Building the outline.** `WorkFlowyProject.build_list` and `__parse_tree` turn the nested raw payload into a tree of list nodes. Each item is a dictionary with the keys `id`, `nm`, `no`, `ct`, `lm`, `cp` and `ch`.
  - A synthetic root sits at level 0, and every child is one level below its parent.
  - Every timestamp is offset by the date the user joined.
  - Parsing fills two indices: `all_lists` (raw id to node, with the root under `None`) and `parent_ids` (raw id to the raw id of the parent).
- **Parent lookup.** `get_list_parent` answers parent queries from those two indices.
- **List nodes.** `WorkFlowyList` and its near-duplicate `WorkFlowySublist` share one class, `ListNode`, with a `kind`. It covers:
  - the constructor's normalisation of its arguments and its check of the children;
  - the recursive name search, in first-match or all-matches mode and in exact or case-insensitive mode;
  - the completion flag, the id lookup, and the three setters.
- **Transport.** `WorkFlowyTransport` covers:
  - the session-id check made on construction;
  - the argument guards of `api_request` and `login_request`;
  - the extraction of the session id from a `Set-Cookie` header value.

## Files and modules

| file | module | contents |
|---|---|---|
| `wrappers.dfy` | `Wrappers` | `Option`, `Result` |
| `pyvalues.dfy` | `PyValues` | dynamic Python values, truthiness, the `isinstance` defaults, index keys |
| `strings.dfy` | `Strings` | `str.find`, `in`, `str.split`, `join`, ASCII lower-casing |
| `outline.dfy` | `WorkflowyList` | the `ListNode` class and its search specification |
| `transport.dfy` | `WorkflowyTransport` | the `Transport` class, session-id syntax, cookie extraction |
| `project.dfy` | `WorkflowyProject` | the raw payload, the pure parse and index specifications, the `Project` class |

## How the model reads

- **State changes are imperative.** `__parse_tree` fills the two dictionaries in place, and `build_list` sets fields on the project and its transport. So `Project` is a class with `map` fields, and `ParseTree` is a recursive method with a loop over the children.
- **Each method is proved against a pure function.**
  - `Parse`, `Registrations` and `RecordParents` state the node value, the keys stored and the resulting `parent_ids`.
  - The lemmas about those functions state the properties the code promises.
- **The search works the same way.** `SearchSublist` is a method with the source's loop and early returns. It is proved equal to `ExpectedHits` of `AllMatches`, and `AllMatches` is proved to be the filter of the pre-order traversal.
- **Python `None` and `False`.** The root's `parent_id=False` is only tested for truthiness, so it is modelled as the key `None`. The session id is tested by identity (`is not False` in the constructor, `is False` in `api_request`). The transport stores it as an `Option`: `CheckSessionId` maps exactly the value `False` to `None`, and every other value, `None`, `0` and `''` included, is either a well-formed `str` or rejected.

Three behaviours of the code differ from what one might expect, and the model follows the code:

- `search_sublist` returns `False` when nothing matches, not an empty sequence. This is `NoMatch`.
- `get_list_parent` returns the root entry for an id without a recorded parent. It does not return "none".
- `__parse_tree` registers the children in `all_lists` before their parent, so registration is post-order, not pre-order.

## Model

| member | source | states |
|---|---|---|
| PyValues.StrOr | workflowy/workflowy_list.py:10-12 | a `str` argument is kept; any other value becomes the default |
| PyValues.IntOr | workflowy/workflowy_list.py:13-17 | an `int` argument (a `bool` counts, as 1 or 0) is kept; any other value becomes the default |
| Strings.IndexOfFirst | workflowy/workflowy_transport.py:85 | the result is an occurrence with none before it, and `None` means there is no occurrence at all |
| Strings.IndexFromFirst | workflowy/workflowy_transport.py:85 | the first occurrence at or after the start position, or none at any position from there |
| Strings.Split | workflowy/workflowy_transport.py:81 | `split` with a non-empty separator gives at least one piece |
| Strings.SplitJoin | workflowy/workflowy_transport.py:81 | joining the pieces with the separator gives back the header |
| Strings.SplitPiecesFree | workflowy/workflowy_transport.py:81 | no piece of a split contains the separator |
| Strings.IndexOfPastPrefix | workflowy/workflowy_transport.py:87 | the first `;` or `=` after a prefix free of it is found in the rest, shifted by the prefix length |
| Strings.IndexOfAtStart | workflowy/workflowy_transport.py:85 | a string that starts with the pattern finds it at 0 |
| Strings.ContainsImpliesIgnoreCase | workflowy/workflowy_list.py:59 | a substring is also found case-insensitively |
| WorkflowyList.ProjectOwnerRejectedAsWritten | workflowy/workflowy_list.py:29-38 | the owner check as written rejects the `WorkFlowyProject` that builds the list, so the list constructor raises for any children it is given, with the owner error whenever the children are accepted (as for a leaf or an empty root); the corrected check accepts the project and the constructor succeeds |
| WorkflowyList.NameMatches | workflowy/workflowy_list.py:59 | the match rule of the search: in exact mode the name equals the expression; otherwise the expression occurs in the name ignoring ASCII case, the substring stand-in for `re.search(expression, name, re.IGNORECASE)` |
| WorkflowyList.ExactMatchIsFuzzyMatch | workflowy/workflowy_list.py:59 | for an expression without regular-expression metacharacters, a name equal to it also matches it in non-exact mode |
| WorkflowyList.SelectAppend | workflowy/workflowy_list.py:64-67 | the matches of two node sequences in a row are the matches of each, in order |
| WorkflowyList.SelectExactWithinFuzzy | workflowy/workflowy_list.py:59 | for an expression without regular-expression metacharacters, every exact-mode match of a sequence is a non-exact-mode match |
| WorkflowyList.FirstOfExtension | workflowy/workflowy_list.py:68-69 | in first-match mode, a non-empty prefix of the hits decides the one hit kept |
| WorkflowyList.ListNode.Init | workflowy/workflowy_list.py:9-24 | the new node stores the given fields and children, and its subtree is a well-formed tree |
| WorkflowyList.ListNode.Create | workflowy/workflowy_list.py:9-38 | succeeds iff every child is a node of the same class and the owner is accepted; a wrong child raises first, then a wrong owner; strings, level and times are normalised; the children are kept in order; the error raised is the one `Rejection` gives; the sublist class (workflowy/workflowy_sublist.py:8-37) is the same with sublist children and an owner of class `WorkFlowyList` |
| WorkflowyList.ListNode.ValueKept | workflowy/workflowy_list.py:9-24 | a node whose fields and subtree no one has written to keeps its well-formedness and its value |
| WorkflowyList.ListNode.ChildValuesAt | workflowy/workflowy_list.py:21-24 | the value of the node lists the values of its children in order |
| WorkflowyList.ListNode.ChildMatchesPrefix | workflowy/workflowy_list.py:64-67 | the hits of the first `i` children are a prefix of the hits of the first `j` |
| WorkflowyList.ListNode.MatchesArePreorderFilter | workflowy/workflowy_list.py:58-71 | the matches of the subtree are exactly the pre-order nodes whose names match |
| WorkflowyList.ListNode.ExactHitsWithinFuzzyHits | workflowy/workflowy_list.py:59 | for an expression without regular-expression metacharacters, every node found in exact mode is also found in non-exact mode |
| WorkflowyList.ListNode.SearchSublist | workflowy/workflowy_list.py:48-71 | a non-`str` expression raises; otherwise the result is `False` when no node matches, all pre-order matches in all-matches mode, else the first pre-order match (this node when it matches); `WorkFlowySublist.search_sublist` (workflowy/workflowy_sublist.py:47-70) is the same |
| WorkflowyList.ListNode.SearchChildren | workflowy/workflowy_list.py:64-69 | the loop over the children yields all their pre-order hits, or only the first hit in first-match mode |
| WorkflowyList.ListNode.SearchChild | workflowy/workflowy_list.py:65-69 | one pass of the loop extends the hits by the child's hits and stops exactly at the first hit in first-match mode |
| WorkflowyList.ListNode.ChildMatchesStep | workflowy/workflowy_list.py:64-67 | the hits of `i + 1` children are those of `i` children followed by child `i`'s |
| WorkflowyList.ListNode.SearchResult | workflowy/workflowy_list.py:59-71 | this node's own hit followed by the kept child hits is the expected result, `False` when empty |
| WorkflowyList.ListNode.FirstChildHit | workflowy/workflowy_list.py:66-69 | when no earlier child has a hit, the first child with a hit supplies the first hit of all the children |
| WorkflowyList.ListNode.IsCompleted | workflowy/workflowy_list.py:102-103 | a node is completed exactly when its completion time is not 0; `is_completed` of the sublist class (workflowy/workflowy_sublist.py:101-102) is the same |
| WorkflowyList.ListNode.GetList | workflowy/workflowy_list.py:122-126 | an id present in the index gives its node; a missing id raises "not found"; `get_sublist` (workflowy/workflowy_sublist.py:121-125) is the same |
| WorkflowyList.ListNode.SetName | workflowy/workflowy_list.py:131-136 | only on the list class, which alone defines the setters: the name becomes the new one; description and completion time are unchanged |
| WorkflowyList.ListNode.SetDescription | workflowy/workflowy_list.py:139-144 | only on the list class: the description becomes the new one; name and completion time are unchanged |
| WorkflowyList.ListNode.SetComplete | workflowy/workflowy_list.py:147-151 | only on the list class: `False` sets the completion time to 0, so the node is not completed; `True` stores the timestamp |
| WorkflowyTransport.CheckSessionId | workflowy/workflowy_transport.py:14-17 | accepted iff the id is `False` or a `str` of 32 characters from `[a-z0-9]` (optionally followed by one newline, as `$` allows); only `False` means no session |
| WorkflowyTransport.SessionIdHasNoSeparators | workflowy/workflowy_transport.py:15 | an accepted id contains no `,`, `;` or `=` |
| WorkflowyTransport.Transport.Init | workflowy/workflowy_transport.py:18 | the transport keeps the checked session id |
| WorkflowyTransport.Transport.Create | workflowy/workflowy_transport.py:11-18 | construction succeeds iff the session id passes the check, and raises 'Invalid session ID' otherwise |
| WorkflowyTransport.Transport.ApiRequest | workflowy/workflowy_transport.py:32-45 | without a session it raises first; a non-`str` endpoint or non-`dict` data raises; otherwise the URL is the API prefix followed by the endpoint, and the form has one field per entry of the data (only the form's field count is modelled, not its contents; the cookie is the subject of `ApiCookieRoundTrip`) |
| WorkflowyTransport.Transport.ApiCookieRoundTrip | workflowy/workflowy_transport.py:44 | the `Cookie` header an API call sends reads back, through the login extraction, as the same session id |
| WorkflowyTransport.Transport.LoginRequest | workflowy/workflowy_transport.py:58-90 | falsy credentials raise before any request; no `set-cookie` header gives `False`; otherwise the loop returns what the first cookie that mentions `sessionid` gives |
| WorkflowyTransport.FindSession | workflowy/workflowy_transport.py:84-90 | the loop over the cookies: the first cookie that mentions `sessionid` gives the second `=`-piece of its text before the first `;` (an `IndexError` when that text has no `=`); no such cookie gives `False` |
| WorkflowyTransport.SessionFromHeader | workflowy/workflowy_transport.py:76-90 | the session id of a `set-cookie` header: the header is split on `", "` and the cookies are searched as `FindSession` says |
| WorkflowyTransport.CookieValue | workflowy/workflowy_transport.py:87 | the text before the first `;` split on `=` has an element 1 iff that text contains `=`; otherwise `IndexError` |
| WorkflowyTransport.SplitMore | workflowy/workflowy_transport.py:87 | a split has a second piece iff the separator occurs |
| WorkflowyTransport.FindSessionNone | workflowy/workflowy_transport.py:84-90 | the result is `False` iff no cookie mentions `sessionid` |
| WorkflowyTransport.FindSessionFirst | workflowy/workflowy_transport.py:84-89 | any other result comes from the first cookie that mentions `sessionid` |
| WorkflowyTransport.SessionCookieRoundTrip | workflowy/workflowy_transport.py:81-89 | a cookie `sessionid=<id>` followed by its attributes gives back the id, whatever cookies follow it |
| WorkflowyProject.Parse | workflowy/workflowy_project.py:63-107 | the value `__parse_tree` builds for an item at a level: a missing `ct` or `lm` raises `KeyError`, a `null` `ch` raises `TypeError`, the children are parsed in order one level deeper with the first failure deciding, and the node takes the normalised strings and the times offset by the join date |
| WorkflowyProject.ParseOkIffWellFormed | workflowy/workflowy_project.py:78-88 | parsing succeeds iff every item of the subtree has `ct` and `lm` and no `null` `ch` |
| WorkflowyProject.ChildrenOkIffWellFormed | workflowy/workflowy_project.py:87-88 | the loop over the first `k` children succeeds iff each of them is well-formed |
| WorkflowyProject.ParseChildrenInOrder | workflowy/workflowy_project.py:87-98 | the parsed children are the parses of the raw children, in the order of `ch` |
| WorkflowyProject.ParseChildrenErrorSticks | workflowy/workflowy_project.py:87-88 | the first child that fails decides the error |
| WorkflowyProject.ParseLevels | workflowy/workflowy_project.py:87-94 | every parsed node's level is its depth below the node parsed at the given level |
| WorkflowyProject.ParseFields | workflowy/workflowy_project.py:75-84 | missing or `null` strings become `''`, `ct` and `lm` are join date plus offset (0 when `null`), `cp` counts only when present and not `null`, a missing `ch` gives no children |
| WorkflowyProject.RootParse | workflowy/workflowy_project.py:54-61 | the root has level 0, empty strings, creation time 0, last-modified time equal to the join date, no completion, and the top-level items as children |
| WorkflowyProject.RegistrationsCount | workflowy/workflowy_project.py:87-106 | parsing registers exactly one key per raw item |
| WorkflowyProject.ChildRegistrationsCount | workflowy/workflowy_project.py:87-88 | the children's subtrees register one key per item they hold |
| WorkflowyProject.IndexSize | workflowy/workflowy_project.py:106 | with distinct ids (the root's `None` included), `all_lists` has one entry per raw item plus the root |
| WorkflowyProject.RecordParentsFrame | workflowy/workflowy_project.py:103-104 | parsing a subtree leaves the `parent_ids` entries of other ids alone |
| WorkflowyProject.ChildRecordFrame | workflowy/workflowy_project.py:87-88 | the same for the loop over the children |
| WorkflowyProject.RecordedParentsAreRegistered | workflowy/workflowy_project.py:103-106 | every entry parsing adds to `parent_ids` is keyed by an item of the subtree and names an item of the subtree or the subtree's parent |
| WorkflowyProject.ChildParentsAreRegistered | workflowy/workflowy_project.py:87-88 | the same for the loop over the children, whose parent is the item itself |
| WorkflowyProject.ParentIndexFollowsLinks | workflowy/workflowy_project.py:87-104 | with distinct ids, every item whose parent's id is truthy is recorded with that id, and every item whose parent's id is falsy gets no entry |
| WorkflowyProject.ChildLinksRecorded | workflowy/workflowy_project.py:87-88 | the same for the loop over the children |
| WorkflowyProject.EntriesFrame | workflowy/workflowy_project.py:90-106 | parsing a subtree leaves the value-index entries of ids outside the subtree alone |
| WorkflowyProject.ChildEntriesFrame | workflowy/workflowy_project.py:87-88 | the same for the loop over the children |
| WorkflowyProject.ParsedKeys | workflowy/workflowy_project.py:90-106 | every item whose node is indexed is registered by the subtree |
| WorkflowyProject.ChildParsedKeys | workflowy/workflowy_project.py:87-88 | the same for the loop over the children |
| WorkflowyProject.EntriesFollowItems | workflowy/workflowy_project.py:87-106 | with distinct ids, after parsing a subtree each item's id is indexed with the value parsed from that very item |
| WorkflowyProject.ChildEntriesFollowItems | workflowy/workflowy_project.py:87-88 | the same for the loop over the children |
| WorkflowyProject.LinkKeys | workflowy/workflowy_project.py:103-106 | every item of a parent link is an item registered by the subtree |
| WorkflowyProject.Project.Init | workflowy/workflowy_project.py:19-28 | a new project has the join date 0 and empty indices |
| WorkflowyProject.Project.Create | workflowy/workflowy_project.py:21-28 | construction succeeds iff the transport accepts the session id |
| WorkflowyProject.Project.BuildList | workflowy/workflowy_project.py:30-61 | both indices are reset; join date, client id and transaction id are taken only when truthy; the result is the parse of the synthetic root at level 0, indexed under `None`, with `all_lists` holding exactly the registered keys, each with the node whose value the index fold `Entries` gives for it, and `parent_ids` the recorded parents |
| WorkflowyProject.Project.ParseTree | workflowy/workflowy_project.py:63-107 | succeeds iff the pure parse does, with its error otherwise; the node's value is the parse; `all_lists` gains exactly the subtree's keys, maps the item's own id to the node, keeps every other entry, and holds for each key a node whose value is the one `Entries` gives; `parent_ids` is updated as `RecordParents` says |
| WorkflowyProject.Project.ParseSubtrees | workflowy/workflowy_project.py:85-88 | the loop parses every child in order, one level deeper, with the error of the first child that fails |
| WorkflowyProject.Project.ParseSubtree | workflowy/workflowy_project.py:87-88 | one pass of the loop: parses and appends one child, extending the index and parent facts by its subtree |
| WorkflowyProject.Project.ParseChild | workflowy/workflowy_project.py:87-88 | parses one child one level deeper under the item's raw id: the loop result so far is extended by that child's parse, or fails with its error, and the index and parent facts grow by the child's subtree |
| WorkflowyProject.Project.AddTree | workflowy/workflowy_project.py:90-106 | once the children are parsed and indexed, builds the item's node from its parse and registers it, completing the facts `ParseTree` states for the whole subtree |
| WorkflowyProject.Project.BuildNode | workflowy/workflowy_project.py:79-101 | the constructor call gives a well-formed node whose value is the parse of the item |
| WorkflowyProject.Project.Register | workflowy/workflowy_project.py:103-106 | the parent id is recorded only when it is truthy, then the node is indexed under its raw id, its value entering the value index |
| WorkflowyProject.Project.GetListParent | workflowy/workflowy_project.py:109-120 | a `str` id with a recorded parent gives that parent's node; any other id gives the root entry; a lookup raises exactly when the key it computes is missing from `all_lists`, and the error names that key |
| WorkflowyProject.Project.ParentLookupAfterBuild | workflowy/workflowy_project.py:119-120 | after a build, every lookup succeeds; with distinct ids, an item gets the `all_lists` entry under its parent's id when that id is truthy, and the root entry otherwise |
| WorkflowyProject.Project.IndexAfterBuild | workflowy/workflowy_project.py:63-107 | after a build with distinct ids, every item's id is a key of `all_lists` whose node is well-formed and has the value parsed from that item |

## Left out

- HTTP I/O is not modelled: the `requests` session, `post`, `raise_for_status`, `response.json()`, the exception wrapping, and the `print` of the session id. The login response's `set-cookie` header is a parameter of `LoginRequest`.
- Fetching the initialization data is not modelled. `BuildList` takes its parts as parameters, with `None` for a `null` value. A key missing from the initialization data (a `KeyError`) is not modelled.
- Raw items are typed: an `id`, `nm` or `no` that is neither a string nor `null`, a time that is neither an integer nor `null`, and a `ch` that is neither a list of items nor `null` (a string or a dictionary, which the loop would iterate over), are not modelled.
- The methods without behaviour are not modelled: `listRequest`, `get_opml`, `delete`, `create_list`, `__generate_id`, and `set_parent`, which only checks the class of its argument. No move, create or delete contract is stated.
- `get_parent` calls a method that no class defines, and is not modelled.
- The plain getters (`get_id`, `get_name`, `get_level`, `get_sublists`, ...) are field reads of `ListNode`.
- The account facade, the client, `Workflowy.py` and the exception class are not part of this model.
- WorkflowyList.ListNode.SearchSublist: non-exact matching is an ASCII case-insensitive substring search. Regular-expression metacharacters in the expression and Unicode case folding are not modelled.
- WorkflowyList.ExactMatchIsFuzzyMatch: holds only for an expression without regular-expression metacharacters; with them the source's pattern search may miss the name that equals it (`$100`) or raise (`C++`).
- WorkflowyList.SelectExactWithinFuzzy: the same restriction to expressions without metacharacters.
- WorkflowyList.ListNode.ExactHitsWithinFuzzyHits: the same restriction to expressions without metacharacters.
- WorkflowyTransport.Transport.ApiRequest: the form sent is modelled by its number of fields only, not by the keys and values of the data.
- WorkflowyList.ListNode.GetList: `get_list` reads `list.sublists`, an attribute the project does not have. The model takes the id index as a parameter.
- WorkflowyList.ListNode.SetComplete: the timestamp for `True` comes from `transport.get_timestamp()`, which the transport does not define. It is a parameter.
- WorkflowyList.ListNode.Create: the constructor's `isinstance(transport, WorkFlowyTransport)` check is not modelled. The project always passes its own transport.
- WorkflowyProject.Project.ParseTree: states the value of the node each key of the subtree ends up with, not the identity of that node object. After a failed parse it states nothing about the partly filled indices.
- WorkflowyProject.Project.GetListParent: the `else False` branch of `get_list_parent` is not modelled, because a node object is always truthy. Before any build the source raises `AttributeError`; the model starts with empty indices and reports the missing root key.

## Findings

| source | as written | input that shows it | evidently intended | confidence | as-written member | corrected member |
|---|---|---|---|---|---|---|
| workflowy/workflowy_list.py:29-32 | the list constructor demands an owner whose class is named `WorkFlowyTree`, but `__parse_tree` (workflowy/workflowy_project.py:90-101) passes the `WorkFlowyProject` itself | `build_list` on an empty payload: the root's constructor raises 'List must be a WorkFlowyTree object'. On any other payload the items are visited in pre-order, and the first item that lacks `ct` or `lm` (`KeyError`, workflowy/workflowy_project.py:79-80), has a `null` `ch` (`TypeError`, workflowy/workflowy_project.py:87) or is a leaf decides; when it is a leaf, its constructor raises the owner error, so every payload without such a missing key or `null` `ch` ends in that error | the list accepts the project that builds it | not executed; high, since no class named `WorkFlowyTree` exists | WorkflowyList.ProjectOwnerRejectedAsWritten | WorkflowyList.ListNode.Create |
