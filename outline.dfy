/** One outline item: `WorkFlowyList` (workflowy/workflowy_list.py) and its
    near-duplicate `WorkFlowySublist` (workflowy/workflowy_sublist.py), as one
    class `ListNode` whose `kind` says which of the two it is. The two differ
    only in the child class they accept, the owner class they demand and the
    wording of their errors. */
module WorkflowyList {
  import opened Wrappers
  import opened PyValues
  import opened Strings

  datatype Kind = ListKind | SublistKind

  /** The `WorkFlowyException`s the node raises. */
  datatype NodeError =
    | WrongChildType(kind: Kind)    // a child that is not a node of the same class
    | WrongOwner(kind: Kind)        // the owning tree object has the wrong class
    | ExpressionNotString           // search expression is not a `str`
    | NotFound(kind: Kind, id: Key) // lookup of an id missing from the owner's index

  /** What `search_sublist` returns: `False`, or a list of nodes. */
  datatype Hits = NoMatch | Matches(nodes: seq<ListNode>)

  /** An element of the `sublists` argument: a node object, or any other value. */
  datatype Element = Node(node: ListNode) | Foreign

  /** The `sublists` argument: a Python list of elements, or something that is not a list. */
  datatype SublistsArg = NotAList | Elements(items: seq<Element>)

  /** The value view of a node and its subtree (every field, children in order). */
  datatype NodeValue = NodeValue(
    id: string,
    name: string,
    description: string,
    level: int,
    creationTime: int,
    lastModifiedTime: int,
    completedTime: int,
    children: seq<NodeValue>)

  /** Class name of the object that `WorkFlowyProject.__parse_tree` passes as `main_list`. */
  const ProjectClass := "WorkFlowyProject"

  /** The owner check of the constructors as written: a list demands an owner
      whose class is named `WorkFlowyTree`, a sublist one named `WorkFlowyList`. */
  predicate OwnerAcceptedAsWritten(kind: Kind, ownerClass: string)
  {
    match kind
    case ListKind => ownerClass == "WorkFlowyTree"
    case SublistKind => ownerClass == "WorkFlowyList"
  }

  /** The owner check as evidently intended: a list accepts the project that
      builds it. */
  predicate OwnerAccepted(kind: Kind, ownerClass: string)
  {
    match kind
    case ListKind => ownerClass == ProjectClass
    case SublistKind => ownerClass == "WorkFlowyList"
  }

  /** The error the constructor raises, given whether its owner check
      passes: a foreign child first, then a rejected owner. */
  function Rejection(kind: Kind, sublists: SublistsArg, ownerAccepted: bool): Option<NodeError>
  {
    if !ListNode.ChildrenAccepted(kind, sublists) then Some(WrongChildType(kind))
    else if !ownerAccepted then Some(WrongOwner(kind))
    else None
  }

  /** As written, no list node can be built by the project: its owner check
      rejects the very object that `__parse_tree` passes, so the constructor
      raises whatever the children, and the first one called, for a leaf or
      for an empty root, raises the owner error. The corrected check accepts
      the project. */
  lemma ProjectOwnerRejectedAsWritten(sublists: SublistsArg)
    ensures !OwnerAcceptedAsWritten(ListKind, ProjectClass)
    ensures Rejection(ListKind, sublists, OwnerAcceptedAsWritten(ListKind, ProjectClass)).Some?
    ensures ListNode.ChildrenAccepted(ListKind, sublists) ==>
      Rejection(ListKind, sublists, OwnerAcceptedAsWritten(ListKind, ProjectClass)) == Some(WrongOwner(ListKind))
    ensures Rejection(ListKind, Elements([]), OwnerAcceptedAsWritten(ListKind, ProjectClass)) == Some(WrongOwner(ListKind))
    ensures OwnerAccepted(ListKind, ProjectClass)
    ensures ListNode.ChildrenAccepted(ListKind, sublists) ==>
      Rejection(ListKind, sublists, OwnerAccepted(ListKind, ProjectClass)).None?
  {
  }

  /** The search rule: exact mode is case-sensitive equality with the name,
      otherwise a case-insensitive search for the expression inside the name. */
  predicate NameMatches(expression: string, name: string, exactMatch: bool)
  {
    (exactMatch && expression == name) || (!exactMatch && ContainsIgnoreCase(name, expression))
  }

  /** An expression with no regular-expression metacharacter: for it the
      pattern search of non-exact mode is a plain substring search, which is
      what `NameMatches` models. */
  predicate Literal(expression: string)
  {
    forall i :: 0 <= i < |expression| ==> expression[i] !in ".^$*+?{}[]\\|()"
  }

  /** A name that equals a literal expression also matches it in non-exact
      mode. */
  lemma ExactMatchIsFuzzyMatch(expression: string, name: string)
    requires Literal(expression)
    requires NameMatches(expression, name, true)
    ensures NameMatches(expression, name, false)
  {
    IndexOfAtStart(name, expression);
    ContainsImpliesIgnoreCase(name, expression);
  }

  /** The nodes of `ns` whose names match, in order. */
  ghost function Select(ns: seq<ListNode>, expression: string, exactMatch: bool): seq<ListNode>
    reads set n | n in ns
  {
    if ns == [] then []
    else (if NameMatches(expression, ns[0].name, exactMatch) then [ns[0]] else [])
         + Select(ns[1..], expression, exactMatch)
  }

  lemma {:induction false} SelectAppend(a: seq<ListNode>, b: seq<ListNode>, expression: string, exactMatch: bool)
    ensures Select(a + b, expression, exactMatch) == Select(a, expression, exactMatch) + Select(b, expression, exactMatch)
  {
    if a != [] {
      assert (a + b)[0] == a[0];
      assert (a + b)[1..] == a[1..] + b;
      SelectAppend(a[1..], b, expression, exactMatch);
    } else {
      assert a + b == b;
    }
  }

  /** For a literal expression, every exact-mode hit among `ns` is also a
      non-exact-mode hit. */
  lemma {:induction false} SelectExactWithinFuzzy(ns: seq<ListNode>, expression: string)
    requires Literal(expression)
    ensures forall n :: n in Select(ns, expression, true) ==> n in Select(ns, expression, false)
  {
    if ns != [] {
      SelectExactWithinFuzzy(ns[1..], expression);
      if NameMatches(expression, ns[0].name, true) {
        ExactMatchIsFuzzyMatch(expression, ns[0].name);
      }
    }
  }

  /** The result `search_sublist` gives when `all` are the matches of the
      subtree in pre-order: `False` when there are none, all of them in
      all-matches mode, else the first one alone. */
  function ExpectedHits(all: seq<ListNode>, getAll: bool): Hits
  {
    if all == [] then NoMatch
    else if getAll then Matches(all)
    else Matches([all[0]])
  }

  /** The hits kept from `all`: all of them, or only the first. */
  function FirstHits(all: seq<ListNode>, getAll: bool): seq<ListNode>
  {
    if getAll || all == [] then all else [all[0]]
  }

  /** A non-empty prefix decides the first hit. */
  lemma FirstOfExtension(prefix: seq<ListNode>, all: seq<ListNode>)
    requires prefix <= all
    ensures prefix != [] ==> FirstHits(all, false) == [prefix[0]]
  {
  }

  class ListNode {
    const kind: Kind
    const id: string
    var name: string
    var description: string
    const level: int
    const creationTime: int
    const lastModifiedTime: int
    var completedTime: int
    const sublists: seq<ListNode>

    /** Every node below this one. */
    ghost const Descendants: set<ListNode>

    /** The subtree is a finite tree of nodes of this node's class. */
    ghost predicate Valid()
      decreases Descendants
    {
      this !in Descendants &&
      forall i :: 0 <= i < |sublists| ==>
        && sublists[i] in Descendants
        && sublists[i].Descendants <= Descendants
        && sublists[i] !in sublists[i].Descendants
        && sublists[i].kind == kind
        && sublists[i].Valid()
    }

    constructor Init(kind: Kind, id: string, name: string, description: string, level: int,
                     creationTime: int, lastModifiedTime: int, completedTime: int, sublists: seq<ListNode>)
      requires forall i :: 0 <= i < |sublists| ==> sublists[i].kind == kind && sublists[i].Valid()
      ensures Valid()
      ensures this.kind == kind && this.id == id && this.name == name && this.description == description
      ensures this.level == level && this.creationTime == creationTime
      ensures this.lastModifiedTime == lastModifiedTime && this.completedTime == completedTime
      ensures this.sublists == sublists
    {
      this.kind := kind;
      this.id := id;
      this.name := name;
      this.description := description;
      this.level := level;
      this.creationTime := creationTime;
      this.lastModifiedTime := lastModifiedTime;
      this.completedTime := completedTime;
      this.sublists := sublists;
      this.Descendants := set i, n | 0 <= i < |sublists| && n in {sublists[i]} + sublists[i].Descendants :: n;
      new;
      assert this !in Descendants;
      forall i | 0 <= i < |sublists|
        ensures sublists[i] in Descendants && sublists[i].Descendants <= Descendants
        ensures sublists[i] !in sublists[i].Descendants
      {
        assert sublists[i] in {sublists[i]} + sublists[i].Descendants;
        assert sublists[i].Valid();
      }
    }

    /** `__init__`: normalises every scalar argument (a non-`str` string becomes
        `''`, a non-`int` level -1, a non-`int` time 0), keeps the children in
        order, and raises on a child of another class, then on an owner of
        the wrong class. A `sublists` argument that is not a list gives no children. */
    static method Create(kind: Kind, id: Py, name: Py, description: Py, level: Py,
                         creationTime: Py, lastModifiedTime: Py, completedTime: Py,
                         sublists: SublistsArg, ownerClass: string)
      returns (r: Result<ListNode, NodeError>)
      requires sublists.Elements? ==>
        forall i :: 0 <= i < |sublists.items| && sublists.items[i].Node? ==> sublists.items[i].node.Valid()
      ensures r.Ok? <==> ChildrenAccepted(kind, sublists) && OwnerAccepted(kind, ownerClass)
      ensures !ChildrenAccepted(kind, sublists) ==> r == Err(WrongChildType(kind))
      ensures ChildrenAccepted(kind, sublists) && !OwnerAccepted(kind, ownerClass) ==> r == Err(WrongOwner(kind))
      ensures r.Err? <==> Rejection(kind, sublists, OwnerAccepted(kind, ownerClass)).Some?
      ensures r.Err? ==> Some(r.error) == Rejection(kind, sublists, OwnerAccepted(kind, ownerClass))
      ensures r.Ok? ==> fresh(r.value) && r.value.Valid() && r.value.kind == kind
      ensures r.Ok? ==> r.value.id == StrOr(id, "") && r.value.name == StrOr(name, "")
                        && r.value.description == StrOr(description, "")
      ensures r.Ok? ==> r.value.level == IntOr(level, -1) && r.value.creationTime == IntOr(creationTime, 0)
                        && r.value.lastModifiedTime == IntOr(lastModifiedTime, 0)
                        && r.value.completedTime == IntOr(completedTime, 0)
      ensures r.Ok? ==> r.value.sublists == AcceptedChildren(kind, sublists)
    {
      var accepted: seq<ListNode> := [];
      if sublists.Elements? {
        var items := sublists.items;
        for i := 0 to |items|
          invariant |accepted| == i
          invariant forall j :: 0 <= j < i ==> items[j].Node? && items[j].node.kind == kind && accepted[j] == items[j].node
        {
          if items[i].Node? && items[i].node.kind == kind {
            accepted := accepted + [items[i].node];
          } else {
            return Err(WrongChildType(kind));
          }
        }
      }
      if !OwnerAccepted(kind, ownerClass) {
        return Err(WrongOwner(kind));
      }
      var node := new ListNode.Init(kind, StrOr(id, ""), StrOr(name, ""), StrOr(description, ""),
                                    IntOr(level, -1), IntOr(creationTime, 0), IntOr(lastModifiedTime, 0),
                                    IntOr(completedTime, 0), accepted);
      return Ok(node);
    }

    /** Whether the constructor accepts the `sublists` argument. */
    static predicate ChildrenAccepted(kind: Kind, sublists: SublistsArg)
    {
      sublists.Elements? ==>
        forall i :: 0 <= i < |sublists.items| ==> sublists.items[i].Node? && sublists.items[i].node.kind == kind
    }

    /** The children the constructor keeps: the list's nodes, in order. */
    static function AcceptedChildren(kind: Kind, sublists: SublistsArg): seq<ListNode>
      requires ChildrenAccepted(kind, sublists)
    {
      if sublists.NotAList? then []
      else seq(|sublists.items|, i requires 0 <= i < |sublists.items| => sublists.items[i].node)
    }

    /** The value of this subtree. */
    ghost function Value(): NodeValue
      requires Valid()
      reads this, Descendants
      decreases Descendants, 1
    {
      NodeValue(id, name, description, level, creationTime, lastModifiedTime, completedTime,
                ChildValues(|sublists|))
    }

    /** The values of the first `k` children. */
    ghost function ChildValues(k: nat): seq<NodeValue>
      requires Valid() && k <= |sublists|
      reads this, Descendants
      decreases Descendants, 0, k
    {
      if k == 0 then [] else ChildValues(k - 1) + [sublists[k - 1].Value()]
    }

    /** A node whose subtree no one has written to keeps its value. */
    twostate lemma ValueKept()
      requires Valid() && unchanged(this) && unchanged(Descendants)
      ensures Valid() && Value() == old(Value())
    {
    }

    lemma {:induction false} ChildValuesAt(k: nat)
      requires Valid() && k <= |sublists|
      ensures |ChildValues(k)| == k
      ensures forall j :: 0 <= j < k ==> ChildValues(k)[j] == sublists[j].Value()
    {
      if k > 0 {
        ChildValuesAt(k - 1);
      }
    }

    /** The nodes of this subtree in pre-order: this node, then each child's
        subtree in order. */
    ghost function Preorder(): seq<ListNode>
      requires Valid()
      reads this, Descendants
      decreases Descendants, 1
    {
      [this] + ChildPreorder(|sublists|)
    }

    ghost function ChildPreorder(k: nat): seq<ListNode>
      requires Valid() && k <= |sublists|
      reads this, Descendants
      decreases Descendants, 0, k
    {
      if k == 0 then [] else ChildPreorder(k - 1) + sublists[k - 1].Preorder()
    }

    /** This node as a one-element list if its name matches, else empty. */
    function SelfMatch(expression: string, exactMatch: bool): seq<ListNode>
      reads this
    {
      if NameMatches(expression, name, exactMatch) then [this] else []
    }

    /** Every matching node of this subtree, in pre-order. */
    ghost function AllMatches(expression: string, exactMatch: bool): seq<ListNode>
      requires Valid()
      reads this, Descendants
      decreases Descendants, 1
    {
      SelfMatch(expression, exactMatch) + ChildMatches(expression, exactMatch, |sublists|)
    }

    /** The matches within the subtrees of the first `k` children, in order. */
    ghost function ChildMatches(expression: string, exactMatch: bool, k: nat): seq<ListNode>
      requires Valid() && k <= |sublists|
      reads this, Descendants
      decreases Descendants, 0, k
    {
      if k == 0 then [] else ChildMatches(expression, exactMatch, k - 1) + sublists[k - 1].AllMatches(expression, exactMatch)
    }

    lemma {:induction false} ChildMatchesPrefix(expression: string, exactMatch: bool, i: nat, j: nat)
      requires Valid() && i <= j <= |sublists|
      ensures ChildMatches(expression, exactMatch, i) <= ChildMatches(expression, exactMatch, j)
      decreases j
    {
      if i < j {
        ChildMatchesPrefix(expression, exactMatch, i, j - 1);
      }
    }

    /** The recursive matches are exactly the pre-order nodes whose names
        match: the search is a filter of the pre-order traversal. */
    lemma {:induction false} MatchesArePreorderFilter(expression: string, exactMatch: bool)
      requires Valid()
      ensures AllMatches(expression, exactMatch) == Select(Preorder(), expression, exactMatch)
      decreases Descendants, 1
    {
      ChildMatchesArePreorderFilter(expression, exactMatch, |sublists|);
      assert ([this] + ChildPreorder(|sublists|))[1..] == ChildPreorder(|sublists|);
    }

    lemma {:induction false} ChildMatchesArePreorderFilter(expression: string, exactMatch: bool, k: nat)
      requires Valid() && k <= |sublists|
      ensures ChildMatches(expression, exactMatch, k) == Select(ChildPreorder(k), expression, exactMatch)
      decreases Descendants, 0, k
    {
      if k > 0 {
        ChildMatchesArePreorderFilter(expression, exactMatch, k - 1);
        sublists[k - 1].MatchesArePreorderFilter(expression, exactMatch);
        SelectAppend(ChildPreorder(k - 1), sublists[k - 1].Preorder(), expression, exactMatch);
      }
    }

    /** For a literal expression, every node found in exact mode is also
        found in non-exact mode. */
    lemma ExactHitsWithinFuzzyHits(expression: string)
      requires Valid() && Literal(expression)
      ensures forall n :: n in AllMatches(expression, true) ==> n in AllMatches(expression, false)
    {
      MatchesArePreorderFilter(expression, true);
      MatchesArePreorderFilter(expression, false);
      SelectExactWithinFuzzy(Preorder(), expression);
    }

    /** `search_sublist`: raises on a non-`str` expression; otherwise searches
        the subtree in pre-order. A match on this node in first-match mode
        returns `[self]` without descending; otherwise the children are searched
        in order. The result is `False` when nothing matches. */
    method SearchSublist(expression: Py, getAll: bool, exactMatch: bool) returns (r: Result<Hits, NodeError>)
      requires Valid()
      decreases Descendants, 1
      ensures !expression.PyStr? ==> r == Err(ExpressionNotString)
      ensures expression.PyStr? ==> r == Ok(ExpectedHits(AllMatches(expression.s, exactMatch), getAll))
    {
      if !expression.PyStr? {
        return Err(ExpressionNotString);
      }
      var pattern := expression.s;
      var matches: seq<ListNode> := [];
      if NameMatches(pattern, name, exactMatch) {
        matches := [this];
        if !getAll {
          return Ok(Matches(matches));
        }
      }
      var found := SearchChildren(pattern, getAll, exactMatch);
      matches := matches + found;
      SearchResult(pattern, getAll, exactMatch);
      return Ok(if |matches| > 0 then Matches(matches) else NoMatch);
    }

    /** The loop of `search_sublist` over the children: each child's hits are
        appended, and first-match mode stops at the first child with a hit. */
    method SearchChildren(pattern: string, getAll: bool, exactMatch: bool) returns (matches: seq<ListNode>)
      requires Valid()
      decreases Descendants, 0
      ensures matches == FirstHits(ChildMatches(pattern, exactMatch, |sublists|), getAll)
    {
      matches := [];
      for i := 0 to |sublists|
        invariant getAll ==> matches == ChildMatches(pattern, exactMatch, i)
        invariant !getAll ==> matches == [] == ChildMatches(pattern, exactMatch, i)
      {
        var stop;
        matches, stop := SearchChild(pattern, getAll, exactMatch, i, matches);
        if stop {
          return;
        }
      }
    }

    /** One step of the loop of `search_sublist`: search child `i` and append
        its hits; `stop` is set when first-match mode has found its hit. */
    method SearchChild(pattern: string, getAll: bool, exactMatch: bool, i: nat, matches: seq<ListNode>)
      returns (next: seq<ListNode>, stop: bool)
      requires Valid() && i < |sublists|
      requires getAll ==> matches == ChildMatches(pattern, exactMatch, i)
      requires !getAll ==> matches == [] == ChildMatches(pattern, exactMatch, i)
      decreases Descendants, 0, 0
      ensures stop ==> !getAll && next == FirstHits(ChildMatches(pattern, exactMatch, |sublists|), false)
      ensures !stop && getAll ==> next == ChildMatches(pattern, exactMatch, i + 1)
      ensures !stop && !getAll ==> next == [] == ChildMatches(pattern, exactMatch, i + 1)
    {
      ghost var done := ChildMatches(pattern, exactMatch, i);
      ChildMatchesStep(pattern, exactMatch, i);
      var found := sublists[i].SearchSublist(PyStr(pattern), getAll, exactMatch);
      next, stop := matches, false;
      if found.value.Matches? {
        next := matches + found.value.nodes;
        if !getAll && |next| > 0 {
          FirstChildHit(pattern, exactMatch, i);
          stop := true;
        }
      }
    }

    lemma ChildMatchesStep(pattern: string, exactMatch: bool, i: nat)
      requires Valid() && i < |sublists|
      ensures ChildMatches(pattern, exactMatch, i + 1) ==
              ChildMatches(pattern, exactMatch, i) + sublists[i].AllMatches(pattern, exactMatch)
    {
    }

    /** The hits of the subtree are this node's own hit followed by the kept
        hits of its children. */
    lemma SearchResult(pattern: string, getAll: bool, exactMatch: bool)
      requires Valid()
      requires getAll || !NameMatches(pattern, name, exactMatch)
      ensures var hits := SelfMatch(pattern, exactMatch) + FirstHits(ChildMatches(pattern, exactMatch, |sublists|), getAll);
              ExpectedHits(AllMatches(pattern, exactMatch), getAll) == if |hits| > 0 then Matches(hits) else NoMatch
    {
    }

    /** In first-match mode, the first child with a hit supplies the first
        hit among all the children. */
    lemma FirstChildHit(pattern: string, exactMatch: bool, i: nat)
      requires Valid() && i < |sublists|
      requires ChildMatches(pattern, exactMatch, i) == []
      ensures ChildMatches(pattern, exactMatch, i + 1) == sublists[i].AllMatches(pattern, exactMatch)
      ensures sublists[i].AllMatches(pattern, exactMatch) != [] ==>
                FirstHits(ChildMatches(pattern, exactMatch, |sublists|), false) ==
                [sublists[i].AllMatches(pattern, exactMatch)[0]]
    {
      ghost var childAll := sublists[i].AllMatches(pattern, exactMatch);
      ChildMatchesStep(pattern, exactMatch, i);
      assert [] + childAll == childAll;
      ChildMatchesPrefix(pattern, exactMatch, i + 1, |sublists|);
      FirstOfExtension(childAll, ChildMatches(pattern, exactMatch, |sublists|));
    }

    /** `is_completed` */
    function IsCompleted(): bool
      reads this
    {
      completedTime != 0
    }

    /** `get_list` / `get_sublist`: the node the owner's id index holds under
        `id`, or a "not found" error. The index is passed explicitly. */
    function GetList(index: map<Key, ListNode>, id: Key): (r: Result<ListNode, NodeError>)
      ensures r.Ok? <==> id in index
      ensures r.Ok? ==> r.value == index[id]
      ensures r.Err? ==> r.error == NotFound(kind, id)
    {
      if id in index then Ok(index[id]) else Err(NotFound(kind, id))
    }

    /** `set_name`, which only the list class defines: only the name changes
        (the accompanying transport call does nothing). */
    method SetName(newName: string)
      requires kind == ListKind
      modifies this
      ensures name == newName
      ensures description == old(description) && completedTime == old(completedTime)
    {
      name := newName;
    }

    /** `set_description`: only the description changes. */
    method SetDescription(newDescription: string)
      requires kind == ListKind
      modifies this
      ensures description == newDescription
      ensures name == old(name) && completedTime == old(completedTime)
    {
      description := newDescription;
    }

    /** `set_complete`: `False` resets the completion time to 0, so the node is
        no longer completed; `True` stores the transport's timestamp. */
    method SetComplete(complete: bool, timestamp: int)
      requires kind == ListKind
      modifies this
      ensures completedTime == (if complete then timestamp else 0)
      ensures !complete ==> !IsCompleted()
      ensures complete ==> (IsCompleted() <==> timestamp != 0)
      ensures name == old(name) && description == old(description)
    {
      if complete {
        completedTime := timestamp;
      } else {
        completedTime := 0;
      }
    }
  }
}
