/** The project (workflowy/workflowy_project.py): it rebuilds the outline
    tree from the raw payload, offsetting every timestamp by the date the
    user joined, and fills two indices as it goes: `all_lists` (raw id to
    node, the synthetic root under `None`) and `parent_ids` (raw id to the
    raw id of the parent, when that id is truthy). Fetching the payload is
    not modelled; its parts are parameters of `BuildList`. */
module WorkflowyProject {
  import opened Wrappers
  import opened PyValues
  import opened WorkflowyList
  import opened WorkflowyTransport

  /** One key of a raw payload dictionary: missing, present with `null`, or
      present with a value. */
  datatype Field<+T> = Absent | Null | Present(value: T)

  /** The `ch` key of a raw item: missing, `null`, or a list of items. */
  datatype ChildField = Missing | NullList | Listed(items: seq<RawItem>)

  /** A raw outline item as the payload holds it. */
  datatype RawItem = RawItem(
    id: Field<string>,
    nm: Field<string>,
    no: Field<string>,
    ct: Field<int>,
    lm: Field<int>,
    cp: Field<int>,
    ch: ChildField)

  /** The errors that parsing and the parent lookup raise. */
  datatype ProjectError =
    | MissingKey(key: string)  // `KeyError` on `raw_list['ct']` or `raw_list['lm']`
    | NotIterable              // `TypeError` when `ch` is `null`
    | NoEntry(id: Key)         // `KeyError` on `all_lists[parent_id]`

  /** The synthetic root that `build_list` wraps around the top-level items. */
  function RootItem(children: seq<RawItem>): RawItem
  {
    RawItem(Null, Null, Null, Null, Present(0), Absent, Listed(children))
  }

  /** The top-level items: `rootProjectChildren` when it is truthy, else `[]`. */
  function TopLevel(rootChildren: Option<seq<RawItem>>): seq<RawItem>
  {
    if rootChildren.Some? then rootChildren.value else []
  }

  /** The key the item is indexed under: its raw id, `''` when the key is missing. */
  function KeyOf(raw: RawItem): Key
  {
    match raw.id
    case Absent => Some("")
    case Null => None
    case Present(s) => Some(s)
  }

  /** The value handed to the node constructor for a string field. */
  function StrArg(f: Field<string>): Py
  {
    match f
    case Absent => PyStr("")
    case Null => PyNone
    case Present(s) => PyStr(s)
  }

  /** The children to iterate over: `[]` when the key is missing. */
  function RawChildren(raw: RawItem): seq<RawItem>
  {
    if raw.ch.Listed? then raw.ch.items else []
  }

  /** `epoch + v if v is not None else 0`, for a key that is present. */
  function TimeOf(f: Field<int>, epoch: int): int
  {
    if f.Present? then epoch + f.value else 0
  }

  /** The parse succeeds: `ct` and `lm` are present, `ch` is not `null`, and
      the same holds throughout the subtree. */
  ghost predicate WellFormed(raw: RawItem)
    decreases raw, 1
  {
    !raw.ct.Absent? && !raw.lm.Absent? && !raw.ch.NullList? &&
    ChildrenWellFormed(raw, |RawChildren(raw)|)
  }

  ghost predicate ChildrenWellFormed(raw: RawItem, k: nat)
    requires k <= |RawChildren(raw)|
    decreases raw, 0, k
  {
    k == 0 || (ChildrenWellFormed(raw, k - 1) && WellFormed(raw.ch.items[k - 1]))
  }

  /** `__parse_tree` as a value: the node's fields with their defaults, and
      its children parsed in order one level deeper. Errors are the ones
      raised first: a missing `ct`, a missing `lm`, a `null` `ch`, then the
      first child that fails. */
  function Parse(raw: RawItem, level: int, epoch: int): Result<NodeValue, ProjectError>
    decreases raw, 1
  {
    if raw.ct.Absent? then Err(MissingKey("ct"))
    else if raw.lm.Absent? then Err(MissingKey("lm"))
    else if raw.ch.NullList? then Err(NotIterable)
    else
      match ParseChildren(raw, |RawChildren(raw)|, level + 1, epoch)
      case Err(e) => Err(e)
      case Ok(children) =>
        Ok(NodeValue(StrOr(StrArg(raw.id), ""), StrOr(StrArg(raw.nm), ""), StrOr(StrArg(raw.no), ""),
                     level, TimeOf(raw.ct, epoch), TimeOf(raw.lm, epoch), TimeOf(raw.cp, epoch), children))
  }

  /** The first `k` children of `raw`, parsed in order at `level`. */
  function ParseChildren(raw: RawItem, k: nat, level: int, epoch: int): Result<seq<NodeValue>, ProjectError>
    requires k <= |RawChildren(raw)|
    decreases raw, 0, k
  {
    if k == 0 then Ok([])
    else
      match ParseChildren(raw, k - 1, level, epoch)
      case Err(e) => Err(e)
      case Ok(done) =>
        match Parse(raw.ch.items[k - 1], level, epoch)
        case Err(e) => Err(e)
        case Ok(v) => Ok(done + [v])
  }

  /** The keys parsing `raw` stores into `all_lists`, in the order it stores
      them: every child's subtree in order, then the item itself. */
  function Registrations(raw: RawItem): seq<Key>
    decreases raw, 1
  {
    ChildRegistrations(raw, |RawChildren(raw)|) + [KeyOf(raw)]
  }

  function ChildRegistrations(raw: RawItem, k: nat): seq<Key>
    requires k <= |RawChildren(raw)|
    decreases raw, 0, k
  {
    if k == 0 then [] else ChildRegistrations(raw, k - 1) + Registrations(raw.ch.items[k - 1])
  }

  /** The number of raw items in the subtree. */
  function Size(raw: RawItem): nat
    decreases raw, 1
  {
    1 + ChildrenSize(raw, |RawChildren(raw)|)
  }

  function ChildrenSize(raw: RawItem, k: nat): nat
    requires k <= |RawChildren(raw)|
    decreases raw, 0, k
  {
    if k == 0 then 0 else ChildrenSize(raw, k - 1) + Size(raw.ch.items[k - 1])
  }

  /** The elements of `s`, as a set. */
  function Keys(s: seq<Key>): set<Key>
  {
    set k | k in s
  }

  /** No key is registered twice. */
  predicate Distinct(s: seq<Key>)
  {
    forall i, j :: 0 <= i < j < |s| ==> s[i] != s[j]
  }

  /** `parent_ids` after parsing `raw` under a parent whose raw id is
      `parent`, starting from `m`: the children's subtrees first, each under
      this item's id, then this item's own entry when `parent` is truthy. */
  function RecordParents(m: map<Key, string>, raw: RawItem, parent: Key): map<Key, string>
    decreases raw, 1
  {
    var afterChildren := RecordChildParents(m, raw, |RawChildren(raw)|);
    if KeyTruthy(parent) then afterChildren[KeyOf(raw) := parent.value] else afterChildren
  }

  function RecordChildParents(m: map<Key, string>, raw: RawItem, k: nat): map<Key, string>
    requires k <= |RawChildren(raw)|
    decreases raw, 0, k
  {
    if k == 0 then m else RecordParents(RecordChildParents(m, raw, k - 1), raw.ch.items[k - 1], KeyOf(raw))
  }

  /** The (item key, parent key) pairs of the subtree, the item's own pair
      with `parent` included. */
  function Links(raw: RawItem, parent: Key): set<(Key, Key)>
    decreases raw, 1
  {
    {(KeyOf(raw), parent)} + ChildLinks(raw, |RawChildren(raw)|)
  }

  function ChildLinks(raw: RawItem, k: nat): set<(Key, Key)>
    requires k <= |RawChildren(raw)|
    decreases raw, 0, k
  {
    if k == 0 then {} else ChildLinks(raw, k - 1) + Links(raw.ch.items[k - 1], KeyOf(raw))
  }

  /** Every node of `v` sits at its depth below a node at `depth`. */
  predicate LevelsFrom(v: NodeValue, depth: int)
    decreases v
  {
    v.level == depth && forall j :: 0 <= j < |v.children| ==> LevelsFrom(v.children[j], depth + 1)
  }

  /** The entry `parent_ids` holds for an item whose parent has raw id `p`:
      the parent's id when it is truthy, and no entry otherwise. */
  predicate LinkRecorded(parents: map<Key, string>, c: Key, p: Key)
  {
    if KeyTruthy(p) then c in parents && parents[c] == p.value else c !in parents
  }

  /** Parsing succeeds exactly on well-formed payloads. */
  lemma {:induction false} ParseOkIffWellFormed(raw: RawItem, level: int, epoch: int)
    decreases raw, 1
    ensures Parse(raw, level, epoch).Ok? <==> WellFormed(raw)
  {
    if !raw.ct.Absent? && !raw.lm.Absent? && !raw.ch.NullList? {
      ChildrenOkIffWellFormed(raw, |RawChildren(raw)|, level + 1, epoch);
    }
  }

  lemma {:induction false} ChildrenOkIffWellFormed(raw: RawItem, k: nat, level: int, epoch: int)
    requires k <= |RawChildren(raw)|
    decreases raw, 0, k
    ensures ParseChildren(raw, k, level, epoch).Ok? <==> ChildrenWellFormed(raw, k)
  {
    if k > 0 {
      ChildrenOkIffWellFormed(raw, k - 1, level, epoch);
      ParseOkIffWellFormed(raw.ch.items[k - 1], level, epoch);
    }
  }

  /** A successful parse keeps the children, in order: the `j`-th parsed
      child is the parse of the `j`-th raw child. */
  lemma {:induction false} ParseChildrenInOrder(raw: RawItem, k: nat, level: int, epoch: int)
    requires k <= |RawChildren(raw)| && ParseChildren(raw, k, level, epoch).Ok?
    decreases k
    ensures |ParseChildren(raw, k, level, epoch).value| == k
    ensures forall j :: 0 <= j < k ==> Parse(raw.ch.items[j], level, epoch) == Ok(ParseChildren(raw, k, level, epoch).value[j])
  {
    if k > 0 {
      ParseChildrenInOrder(raw, k - 1, level, epoch);
    }
  }

  /** Once a child fails, the parse of the children fails with its error. */
  lemma {:induction false} ParseChildrenErrorSticks(raw: RawItem, i: nat, k: nat, level: int, epoch: int)
    requires i <= k <= |RawChildren(raw)| && ParseChildren(raw, i, level, epoch).Err?
    decreases k
    ensures ParseChildren(raw, k, level, epoch) == ParseChildren(raw, i, level, epoch)
  {
    if i < k {
      ParseChildrenErrorSticks(raw, i, k - 1, level, epoch);
    }
  }

  /** The level of every parsed node is its depth below the node parsed at `level`. */
  lemma {:induction false} ParseLevels(raw: RawItem, level: int, epoch: int)
    requires Parse(raw, level, epoch).Ok?
    decreases raw
    ensures LevelsFrom(Parse(raw, level, epoch).value, level)
  {
    var v := Parse(raw, level, epoch).value;
    var n := |RawChildren(raw)|;
    ParseChildrenInOrder(raw, n, level + 1, epoch);
    forall j | 0 <= j < |v.children|
      ensures LevelsFrom(v.children[j], level + 1)
    {
      ParseLevels(raw.ch.items[j], level + 1, epoch);
    }
  }

  /** The fields of a parsed node: a missing or `null` string becomes `''`,
      `ct` and `lm` are offsets from the join date (0 when `null`), `cp` is
      one only when present and not `null`, and a missing `ch` gives no
      children. */
  lemma ParseFields(raw: RawItem, level: int, epoch: int)
    requires Parse(raw, level, epoch).Ok?
    ensures var v := Parse(raw, level, epoch).value;
      && v.id == (if raw.id.Present? then raw.id.value else "")
      && v.name == (if raw.nm.Present? then raw.nm.value else "")
      && v.description == (if raw.no.Present? then raw.no.value else "")
      && v.level == level
      && v.creationTime == (if raw.ct.Null? then 0 else epoch + raw.ct.value)
      && v.lastModifiedTime == (if raw.lm.Null? then 0 else epoch + raw.lm.value)
      && v.completedTime == (if raw.cp.Present? then epoch + raw.cp.value else 0)
      && |v.children| == |RawChildren(raw)|
      && (raw.ch.Missing? ==> v.children == [])
  {
    ParseChildrenInOrder(raw, |RawChildren(raw)|, level + 1, epoch);
  }

  /** The synthetic root: level 0, empty strings, no creation or completion
      time, last modified at the join date, and the top-level items as its
      children. */
  lemma RootParse(children: seq<RawItem>, epoch: int)
    requires Parse(RootItem(children), 0, epoch).Ok?
    ensures var v := Parse(RootItem(children), 0, epoch).value;
      v.id == "" && v.name == "" && v.description == "" && v.level == 0 &&
      v.creationTime == 0 && v.lastModifiedTime == epoch && v.completedTime == 0 &&
      |v.children| == |children| &&
      forall j :: 0 <= j < |children| ==> Parse(children[j], 1, epoch) == Ok(v.children[j])
  {
    ParseChildrenInOrder(RootItem(children), |children|, 1, epoch);
  }

  lemma KeysAppend(a: seq<Key>, b: seq<Key>)
    ensures Keys(a + b) == Keys(a) + Keys(b)
  {
  }

  /** Adding one key to a union of key sets. */
  lemma UnionStep(now: set<Key>, before: set<Key>, earlier: set<Key>, added: set<Key>, all: set<Key>, k: Key)
    requires now == before + {k} && before == earlier + added && all == added + {k}
    ensures now == earlier + all
  {
  }

  /** An item registers its descendants' keys and its own. */
  lemma RegistrationKeys(raw: RawItem)
    ensures Keys(Registrations(raw)) == Keys(ChildRegistrations(raw, |RawChildren(raw)|)) + {KeyOf(raw)}
  {
    KeysAppend(ChildRegistrations(raw, |RawChildren(raw)|), [KeyOf(raw)]);
  }

  /** A sequence without repetitions has as many distinct elements as entries. */
  lemma {:induction false} DistinctKeysCount(s: seq<Key>)
    requires Distinct(s)
    ensures |Keys(s)| == |s|
  {
    if s != [] {
      var t, last := s[..|s| - 1], s[|s| - 1];
      assert s == t + [last];
      assert Distinct(t);
      assert last !in Keys(t) by {
        forall i | 0 <= i < |t|
          ensures t[i] != last
        {
          assert s[i] != s[|s| - 1];
        }
      }
      KeysAppend(t, [last]);
      assert Keys([last]) == {last};
      DistinctKeysCount(t);
    }
  }

  /** Both halves of a sequence without repetitions are without
      repetitions, and share no element. */
  lemma DistinctAppend(a: seq<Key>, b: seq<Key>)
    requires Distinct(a + b)
    ensures Distinct(a) && Distinct(b) && Keys(a) !! Keys(b)
  {
    assert forall i :: 0 <= i < |a| ==> (a + b)[i] == a[i];
    assert forall i :: 0 <= i < |b| ==> (a + b)[|a| + i] == b[i];
    forall x | x in Keys(a)
      ensures x !in Keys(b)
    {
      var i :| 0 <= i < |a| && a[i] == x;
      forall j | 0 <= j < |b|
        ensures b[j] != x
      {
        assert (a + b)[i] != (a + b)[|a| + j];
      }
    }
  }

  /** Parsing registers one key per raw item. */
  lemma {:induction false} RegistrationsCount(raw: RawItem)
    decreases raw, 1
    ensures |Registrations(raw)| == Size(raw)
  {
    ChildRegistrationsCount(raw, |RawChildren(raw)|);
  }

  lemma {:induction false} ChildRegistrationsCount(raw: RawItem, k: nat)
    requires k <= |RawChildren(raw)|
    decreases raw, 0, k
    ensures |ChildRegistrations(raw, k)| == ChildrenSize(raw, k)
  {
    if k > 0 {
      ChildRegistrationsCount(raw, k - 1);
      RegistrationsCount(raw.ch.items[k - 1]);
    }
  }

  /** When no two items share a raw id, `all_lists` gets one entry per item. */
  lemma IndexSize(raw: RawItem)
    requires Distinct(Registrations(raw))
    ensures |Keys(Registrations(raw))| == Size(raw)
  {
    RegistrationsCount(raw);
    DistinctKeysCount(Registrations(raw));
  }

  /** Parsing `raw` leaves the `parent_ids` entries of keys outside the
      subtree alone. */
  lemma {:induction false} RecordParentsFrame(m: map<Key, string>, raw: RawItem, parent: Key, k: Key)
    requires k !in Keys(Registrations(raw))
    decreases raw, 1
    ensures k in RecordParents(m, raw, parent) <==> k in m
    ensures k in m ==> RecordParents(m, raw, parent)[k] == m[k]
  {
    KeysAppend(ChildRegistrations(raw, |RawChildren(raw)|), [KeyOf(raw)]);
    ChildRecordFrame(m, raw, |RawChildren(raw)|, k);
  }

  lemma {:induction false} ChildRecordFrame(m: map<Key, string>, raw: RawItem, j: nat, k: Key)
    requires j <= |RawChildren(raw)| && k !in Keys(ChildRegistrations(raw, j))
    decreases raw, 0, j
    ensures k in RecordChildParents(m, raw, j) <==> k in m
    ensures k in m ==> RecordChildParents(m, raw, j)[k] == m[k]
  {
    if j > 0 {
      KeysAppend(ChildRegistrations(raw, j - 1), Registrations(raw.ch.items[j - 1]));
      ChildRecordFrame(m, raw, j - 1, k);
      RecordParentsFrame(RecordChildParents(m, raw, j - 1), raw.ch.items[j - 1], KeyOf(raw), k);
    }
  }

  /** Every entry parsing adds to `parent_ids` is keyed by an item of the
      subtree and names an item of the subtree or the subtree's parent. */
  lemma {:induction false} RecordedParentsAreRegistered(m: map<Key, string>, raw: RawItem, parent: Key)
    decreases raw, 1
    ensures var r := RecordParents(m, raw, parent);
      forall k :: k in r ==>
        (k in m && r[k] == m[k]) ||
        (k in Keys(Registrations(raw)) && (Some(r[k]) in Keys(Registrations(raw)) || Some(r[k]) == parent))
  {
    KeysAppend(ChildRegistrations(raw, |RawChildren(raw)|), [KeyOf(raw)]);
    ChildParentsAreRegistered(m, raw, |RawChildren(raw)|);
  }

  lemma {:induction false} ChildParentsAreRegistered(m: map<Key, string>, raw: RawItem, j: nat)
    requires j <= |RawChildren(raw)|
    decreases raw, 0, j
    ensures var r := RecordChildParents(m, raw, j);
      forall k :: k in r ==>
        (k in m && r[k] == m[k]) ||
        (k in Keys(ChildRegistrations(raw, j)) && Some(r[k]) in Keys(ChildRegistrations(raw, j)) + {KeyOf(raw)})
  {
    if j > 0 {
      var child := raw.ch.items[j - 1];
      var prev := RecordChildParents(m, raw, j - 1);
      var r := RecordParents(prev, child, KeyOf(raw));
      var done, next := Keys(ChildRegistrations(raw, j - 1)), Keys(Registrations(child));
      KeysAppend(ChildRegistrations(raw, j - 1), Registrations(child));
      assert Keys(ChildRegistrations(raw, j)) == done + next;
      ChildParentsAreRegistered(m, raw, j - 1);
      RecordedParentsAreRegistered(prev, child, KeyOf(raw));
      forall k | k in r
        ensures (k in m && r[k] == m[k]) || (k in done + next && Some(r[k]) in done + next + {KeyOf(raw)})
      {
        if !(k in prev && r[k] == prev[k]) {
          assert k in next && (Some(r[k]) in next || Some(r[k]) == KeyOf(raw));
        }
      }
    }
  }

  /** Every (item, parent) link that `Links` lists ends in `parent_ids` as
      `LinkRecorded` says, provided no two items share a raw id and the map
      started without any of the subtree's keys. */
  lemma {:induction false} ParentIndexFollowsLinks(m: map<Key, string>, raw: RawItem, parent: Key)
    requires Distinct(Registrations(raw)) && m.Keys !! Keys(Registrations(raw))
    decreases raw, 1
    ensures forall c, p :: (c, p) in Links(raw, parent) ==> LinkRecorded(RecordParents(m, raw, parent), c, p)
  {
    var n := |RawChildren(raw)|;
    var before := RecordChildParents(m, raw, n);
    DistinctAppend(ChildRegistrations(raw, n), [KeyOf(raw)]);
    KeysAppend(ChildRegistrations(raw, n), [KeyOf(raw)]);
    ChildRecordFrame(m, raw, n, KeyOf(raw));
    ChildLinksRecorded(m, raw, n);
    ChildLinkKeys(raw, n);
  }

  lemma {:induction false} ChildLinksRecorded(m: map<Key, string>, raw: RawItem, j: nat)
    requires j <= |RawChildren(raw)|
    requires Distinct(ChildRegistrations(raw, j)) && m.Keys !! Keys(ChildRegistrations(raw, j))
    decreases raw, 0, j
    ensures forall c, p :: (c, p) in ChildLinks(raw, j) ==> LinkRecorded(RecordChildParents(m, raw, j), c, p)
  {
    if j > 0 {
      var child := raw.ch.items[j - 1];
      var before := RecordChildParents(m, raw, j - 1);
      DistinctAppend(ChildRegistrations(raw, j - 1), Registrations(child));
      KeysAppend(ChildRegistrations(raw, j - 1), Registrations(child));
      ChildLinksRecorded(m, raw, j - 1);
      ChildParentsAreRegistered(m, raw, j - 1);
      ChildLinkKeys(raw, j - 1);
      ParentIndexFollowsLinks(before, child, KeyOf(raw));
      forall c, p | (c, p) in ChildLinks(raw, j - 1)
        ensures LinkRecorded(RecordChildParents(m, raw, j), c, p)
      {
        RecordParentsFrame(before, child, KeyOf(raw), c);
      }
    }
  }

  /** The items of every link are items of the subtree. */
  lemma {:induction false} LinkKeys(raw: RawItem, parent: Key)
    decreases raw, 1
    ensures forall c, p :: (c, p) in Links(raw, parent) ==> c in Keys(Registrations(raw))
  {
    KeysAppend(ChildRegistrations(raw, |RawChildren(raw)|), [KeyOf(raw)]);
    ChildLinkKeys(raw, |RawChildren(raw)|);
  }

  lemma {:induction false} ChildLinkKeys(raw: RawItem, j: nat)
    requires j <= |RawChildren(raw)|
    decreases raw, 0, j
    ensures forall c, p :: (c, p) in ChildLinks(raw, j) ==> c in Keys(ChildRegistrations(raw, j))
  {
    if j > 0 {
      KeysAppend(ChildRegistrations(raw, j - 1), Registrations(raw.ch.items[j - 1]));
      ChildLinkKeys(raw, j - 1);
      LinkKeys(raw.ch.items[j - 1], KeyOf(raw));
    }
  }

  /** The values `all_lists` holds after parsing `raw` at `level`, starting
      from `m`: the children's subtrees in order, then the item itself when
      it parses, each later entry replacing an earlier one with the same key. */
  function Entries(m: map<Key, NodeValue>, raw: RawItem, level: int, epoch: int): map<Key, NodeValue>
    decreases raw, 1
  {
    var afterChildren := ChildEntries(m, raw, |RawChildren(raw)|, level + 1, epoch);
    match Parse(raw, level, epoch)
    case Ok(v) => afterChildren[KeyOf(raw) := v]
    case Err(_) => afterChildren
  }

  function ChildEntries(m: map<Key, NodeValue>, raw: RawItem, k: nat, level: int, epoch: int): map<Key, NodeValue>
    requires k <= |RawChildren(raw)|
    decreases raw, 0, k
  {
    if k == 0 then m else Entries(ChildEntries(m, raw, k - 1, level, epoch), raw.ch.items[k - 1], level, epoch)
  }

  /** The (raw id, parsed value) pairs of the items of the subtree that parse. */
  function Parsed(raw: RawItem, level: int, epoch: int): set<(Key, NodeValue)>
    decreases raw, 1
  {
    (match Parse(raw, level, epoch) case Ok(v) => {(KeyOf(raw), v)} case Err(_) => {})
    + ChildParsed(raw, |RawChildren(raw)|, level + 1, epoch)
  }

  function ChildParsed(raw: RawItem, k: nat, level: int, epoch: int): set<(Key, NodeValue)>
    requires k <= |RawChildren(raw)|
    decreases raw, 0, k
  {
    if k == 0 then {} else ChildParsed(raw, k - 1, level, epoch) + Parsed(raw.ch.items[k - 1], level, epoch)
  }

  /** When `raw` parses, its own value is stored last, over its children's entries. */
  lemma EntriesOk(m: map<Key, NodeValue>, raw: RawItem, level: int, epoch: int)
    requires Parse(raw, level, epoch).Ok?
    ensures Entries(m, raw, level, epoch)
      == ChildEntries(m, raw, |RawChildren(raw)|, level + 1, epoch)[KeyOf(raw) := Parse(raw, level, epoch).value]
  {
  }

  /** One more child adds its subtree's entries over those of the earlier children. */
  lemma ChildEntriesStep(m: map<Key, NodeValue>, raw: RawItem, i: nat, level: int, epoch: int)
    requires i < |RawChildren(raw)|
    ensures ChildEntries(m, raw, i + 1, level, epoch)
      == Entries(ChildEntries(m, raw, i, level, epoch), raw.ch.items[i], level, epoch)
  {
  }

  /** Parsing `raw` leaves the values of keys outside the subtree alone. */
  lemma {:induction false} EntriesFrame(m: map<Key, NodeValue>, raw: RawItem, level: int, epoch: int, k: Key)
    requires k !in Keys(Registrations(raw))
    decreases raw, 1
    ensures k in Entries(m, raw, level, epoch) <==> k in m
    ensures k in m ==> Entries(m, raw, level, epoch)[k] == m[k]
  {
    KeysAppend(ChildRegistrations(raw, |RawChildren(raw)|), [KeyOf(raw)]);
    ChildEntriesFrame(m, raw, |RawChildren(raw)|, level + 1, epoch, k);
  }

  lemma {:induction false} ChildEntriesFrame(m: map<Key, NodeValue>, raw: RawItem, j: nat, level: int, epoch: int, k: Key)
    requires j <= |RawChildren(raw)| && k !in Keys(ChildRegistrations(raw, j))
    decreases raw, 0, j
    ensures k in ChildEntries(m, raw, j, level, epoch) <==> k in m
    ensures k in m ==> ChildEntries(m, raw, j, level, epoch)[k] == m[k]
  {
    if j > 0 {
      KeysAppend(ChildRegistrations(raw, j - 1), Registrations(raw.ch.items[j - 1]));
      ChildEntriesFrame(m, raw, j - 1, level, epoch, k);
      EntriesFrame(ChildEntries(m, raw, j - 1, level, epoch), raw.ch.items[j - 1], level, epoch, k);
    }
  }

  /** Every parsed item is one the subtree registers. */
  lemma {:induction false} ParsedKeys(raw: RawItem, level: int, epoch: int)
    decreases raw, 1
    ensures forall k, v :: (k, v) in Parsed(raw, level, epoch) ==> k in Keys(Registrations(raw))
  {
    KeysAppend(ChildRegistrations(raw, |RawChildren(raw)|), [KeyOf(raw)]);
    ChildParsedKeys(raw, |RawChildren(raw)|, level + 1, epoch);
  }

  lemma {:induction false} ChildParsedKeys(raw: RawItem, j: nat, level: int, epoch: int)
    requires j <= |RawChildren(raw)|
    decreases raw, 0, j
    ensures forall k, v :: (k, v) in ChildParsed(raw, j, level, epoch) ==> k in Keys(ChildRegistrations(raw, j))
  {
    if j > 0 {
      KeysAppend(ChildRegistrations(raw, j - 1), Registrations(raw.ch.items[j - 1]));
      ChildParsedKeys(raw, j - 1, level, epoch);
      ParsedKeys(raw.ch.items[j - 1], level, epoch);
    }
  }

  /** When no two items of the subtree share a raw id, parsing stores every
      item that parses under its raw id with its own parsed value, whatever
      the map held before. */
  lemma {:induction false} EntriesFollowItems(m: map<Key, NodeValue>, raw: RawItem, level: int, epoch: int)
    requires Distinct(Registrations(raw))
    decreases raw, 1
    ensures forall k, v :: (k, v) in Parsed(raw, level, epoch) ==>
      k in Entries(m, raw, level, epoch) && Entries(m, raw, level, epoch)[k] == v
  {
    var n := |RawChildren(raw)|;
    DistinctAppend(ChildRegistrations(raw, n), [KeyOf(raw)]);
    KeysAppend(ChildRegistrations(raw, n), [KeyOf(raw)]);
    ChildEntriesFollowItems(m, raw, n, level + 1, epoch);
    ChildParsedKeys(raw, n, level + 1, epoch);
  }

  lemma {:induction false} ChildEntriesFollowItems(m: map<Key, NodeValue>, raw: RawItem, j: nat, level: int, epoch: int)
    requires j <= |RawChildren(raw)| && Distinct(ChildRegistrations(raw, j))
    decreases raw, 0, j
    ensures forall k, v :: (k, v) in ChildParsed(raw, j, level, epoch) ==>
      k in ChildEntries(m, raw, j, level, epoch) && ChildEntries(m, raw, j, level, epoch)[k] == v
  {
    if j > 0 {
      var child := raw.ch.items[j - 1];
      var before := ChildEntries(m, raw, j - 1, level, epoch);
      DistinctAppend(ChildRegistrations(raw, j - 1), Registrations(child));
      KeysAppend(ChildRegistrations(raw, j - 1), Registrations(child));
      ChildEntriesFollowItems(m, raw, j - 1, level, epoch);
      EntriesFollowItems(before, child, level, epoch);
      ChildParsedKeys(raw, j - 1, level, epoch);
      forall k, v | (k, v) in ChildParsed(raw, j - 1, level, epoch)
        ensures k in ChildEntries(m, raw, j, level, epoch) && ChildEntries(m, raw, j, level, epoch)[k] == v
      {
        EntriesFrame(before, child, level, epoch, k);
      }
    }
  }

  /** The project: its transport, the join date every raw timestamp is
      offset by, and the two indices `build_list` fills. */
  class Project {
    const transport: Transport
    /** `dateJoinedTimestampInSeconds`, 0 until a build reads the join date. */
    var epoch: int
    /** `parent_ids`: raw id of an item to the raw id of its parent. */
    var parentIds: map<Key, string>
    /** `all_lists`: raw id of an item to its node, the root under `None`. */
    var allLists: map<Key, ListNode>
    /** The value of the subtree of every node `all_lists` holds, by key. */
    ghost var indexedValues: map<Key, NodeValue>

    /** Every indexed node roots a well-formed tree of lists. */
    ghost predicate Valid()
      reads this
    {
      forall k :: k in allLists ==> allLists[k].Valid() && allLists[k].kind == ListKind
    }

    /** `indexedValues` holds the current value of every indexed node. */
    ghost predicate Indexed()
      reads this, allLists.Values, set k, n | k in allLists && n in allLists[k].Descendants :: n
    {
      forall k :: k in allLists ==> allLists[k].Valid() && k in indexedValues && allLists[k].Value() == indexedValues[k]
    }

    constructor Init(transport: Transport)
      ensures Valid() && Indexed() && this.transport == transport
      ensures epoch == 0 && parentIds == map[] && allLists == map[]
    {
      this.transport := transport;
      epoch := 0;
      parentIds := map[];
      allLists := map[];
      indexedValues := map[];
    }

    /** `__init__(session_id)`: the transport raises on an invalid session id. */
    static method Create(session: Py) returns (r: Result<Project, TransportError>)
      ensures r.Ok? <==> CheckSessionId(session).Ok?
      ensures r.Err? ==> r.error == InvalidSessionId
      ensures r.Ok? ==> fresh(r.value) && fresh(r.value.transport) && r.value.Valid() && r.value.Indexed()
      ensures r.Ok? ==> r.value.transport.Valid() && r.value.transport.sessionId == CheckSessionId(session).value
      ensures r.Ok? ==> r.value.epoch == 0 && r.value.parentIds == map[] && r.value.allLists == map[]
    {
      var t := Transport.Create(session);
      if t.Err? {
        return Err(t.error);
      }
      var p := new Project.Init(t.value);
      return Ok(p);
    }

    /** `build_list`, given the parts of the initialization data it reads
        (`None` for a `null` value): resets both indices, takes the join date
        and the transport's two ids when they are truthy, and parses the
        top-level items under a synthetic root at level 0 with no parent. */
    method BuildList(rootChildren: Option<seq<RawItem>>, dateJoined: Option<int>,
                     clientId: Option<string>, transactionId: Option<string>)
      returns (r: Result<ListNode, ProjectError>)
      requires transport.Valid()
      modifies this, transport
      ensures Valid() && Indexed() && transport.Valid()
      ensures epoch == if dateJoined.Some? && dateJoined.value != 0 then dateJoined.value else old(epoch)
      ensures transport.clientId == if KeyTruthy(clientId) then clientId else old(transport.clientId)
      ensures transport.mostRecentOperationTransactionId ==
        if KeyTruthy(transactionId) then transactionId else old(transport.mostRecentOperationTransactionId)
      ensures r.Err? ==> Parse(RootItem(TopLevel(rootChildren)), 0, epoch) == Err(r.error)
      ensures r.Ok? ==> Parse(RootItem(TopLevel(rootChildren)), 0, epoch).Ok?
      ensures r.Ok? ==> r.value.Valid() && r.value.Value() == Parse(RootItem(TopLevel(rootChildren)), 0, epoch).value
      ensures r.Ok? ==> allLists.Keys == Keys(Registrations(RootItem(TopLevel(rootChildren)))) && allLists[None] == r.value
      ensures r.Ok? ==> parentIds == RecordParents(map[], RootItem(TopLevel(rootChildren)), None)
      ensures r.Ok? ==> indexedValues == Entries(map[], RootItem(TopLevel(rootChildren)), 0, epoch)
    {
      parentIds := map[];
      allLists := map[];
      indexedValues := map[];
      if dateJoined.Some? && dateJoined.value != 0 {
        epoch := dateJoined.value;
      }
      if KeyTruthy(clientId) {
        transport.clientId := clientId;
      }
      if KeyTruthy(transactionId) {
        transport.mostRecentOperationTransactionId := transactionId;
      }
      r := ParseTree(RootItem(TopLevel(rootChildren)), None, 0);
    }

    /** The key `get_list_parent` looks up: the recorded parent id of a `str`
        id, `None` (the root's key) for any other id. */
    function ParentKey(id: Py): Key
      reads this
    {
      if id.PyStr? && Some(id.s) in parentIds then Some(parentIds[Some(id.s)]) else None
    }

    /** `get_list_parent(id)`: the node indexed under the recorded parent id,
        or the root for a non-`str` id or one without a recorded parent; an
        unindexed key raises. */
    function GetListParent(id: Py): (r: Result<ListNode, ProjectError>)
      reads this
      ensures id.PyStr? && Some(id.s) in parentIds && Some(parentIds[Some(id.s)]) in allLists ==>
        r == Ok(allLists[Some(parentIds[Some(id.s)])])
      ensures !(id.PyStr? && Some(id.s) in parentIds) && None in allLists ==> r == Ok(allLists[None])
      ensures r.Err? <==> ParentKey(id) !in allLists
      ensures r.Err? ==> r.error == NoEntry(ParentKey(id))
    {
      var key := ParentKey(id);
      if key in allLists then Ok(allLists[key]) else Err(NoEntry(key))
    }

    /** After a build, every parent lookup succeeds. When no two items share
        a raw id, an item gets the node of its parent when that parent's id
        is truthy, and the root otherwise (for a top-level item, the same). */
    lemma ParentLookupAfterBuild(children: seq<RawItem>)
      requires allLists.Keys == Keys(Registrations(RootItem(children)))
      requires parentIds == RecordParents(map[], RootItem(children), None)
      ensures forall id :: GetListParent(id).Ok?
      ensures Distinct(Registrations(RootItem(children))) ==>
        forall c, p :: (c, p) in Links(RootItem(children), None) && c.Some? ==>
          var parent := if KeyTruthy(p) then p else None;
          parent in allLists && GetListParent(PyStr(c.value)) == Ok(allLists[parent])
    {
      var root := RootItem(children);
      KeysAppend(ChildRegistrations(root, |children|), [None]);
      RecordedParentsAreRegistered(map[], root, None);
      if Distinct(Registrations(root)) {
        ParentIndexFollowsLinks(map[], root, None);
      }
    }

    /** After a build in which no two items share a raw id, every item is
        indexed under its raw id by the node that holds its parsed value. */
    lemma IndexAfterBuild(children: seq<RawItem>)
      requires Indexed() && Distinct(Registrations(RootItem(children)))
      requires allLists.Keys == Keys(Registrations(RootItem(children)))
      requires indexedValues == Entries(map[], RootItem(children), 0, epoch)
      ensures forall k, v :: (k, v) in Parsed(RootItem(children), 0, epoch) ==>
        k in allLists && allLists[k].Valid() && allLists[k].Value() == v
    {
      EntriesFollowItems(map[], RootItem(children), 0, epoch);
      ParsedKeys(RootItem(children), 0, epoch);
    }

    /** `__parse_tree`: builds the node of `raw` and, first, the nodes of its
        children one level deeper, registering each under its raw id in
        `all_lists` and, when the parent's id is truthy, in `parent_ids`. */
    method ParseTree(raw: RawItem, parentId: Key, level: int) returns (r: Result<ListNode, ProjectError>)
      requires Valid() && Indexed()
      modifies this`allLists, this`parentIds, this`indexedValues
      decreases raw, 3
      ensures Valid() && Indexed()
      ensures r.Ok? <==> Parse(raw, level, epoch).Ok?
      ensures r.Err? ==> r.error == Parse(raw, level, epoch).error
      ensures r.Ok? ==> r.value.Valid() && r.value.kind == ListKind
      ensures r.Ok? ==> r.value.Value() == Parse(raw, level, epoch).value
      ensures r.Ok? ==> allLists.Keys == old(allLists).Keys + Keys(Registrations(raw))
      ensures r.Ok? ==> allLists[KeyOf(raw)] == r.value
      ensures r.Ok? ==> forall k :: k in old(allLists) && k !in Keys(Registrations(raw)) ==> allLists[k] == old(allLists)[k]
      ensures r.Ok? ==> parentIds == RecordParents(old(parentIds), raw, parentId)
      ensures r.Ok? ==> indexedValues == Entries(old(indexedValues), raw, level, epoch)
    {
      if raw.ct.Absent? {
        return Err(MissingKey("ct"));
      }
      if raw.lm.Absent? {
        return Err(MissingKey("lm"));
      }
      if raw.ch.NullList? {
        return Err(NotIterable);
      }
      ghost var lists0, parents0, values0 := allLists, parentIds, indexedValues;
      ghost var values;
      var children;
      children, values := ParseSubtrees(raw, level + 1);
      if children.Err? {
        return Err(children.error);
      }
      var node := AddTree(raw, parentId, level, children.value, values, lists0, parents0, values0);
      return Ok(node);
    }

    /** The end of `__parse_tree` once the children of `raw` are parsed and
        indexed: builds its node and registers it. */
    method AddTree(raw: RawItem, parentId: Key, level: int, processed: seq<ListNode>, ghost values: seq<NodeValue>,
                   ghost lists0: map<Key, ListNode>, ghost parents0: map<Key, string>, ghost values0: map<Key, NodeValue>)
        returns (node: ListNode)
      requires Valid() && Indexed()
      requires !raw.ct.Absent? && !raw.lm.Absent? && !raw.ch.NullList?
      requires ParseChildren(raw, |RawChildren(raw)|, level + 1, epoch) == Ok(values)
      requires |processed| == |values|
      requires forall j :: 0 <= j < |processed| ==>
        processed[j].Valid() && processed[j].kind == ListKind && processed[j].Value() == values[j]
      requires allLists.Keys == lists0.Keys + Keys(ChildRegistrations(raw, |RawChildren(raw)|))
      requires forall k :: k in lists0 && k !in Keys(ChildRegistrations(raw, |RawChildren(raw)|)) ==>
        allLists[k] == lists0[k]
      requires parentIds == RecordChildParents(parents0, raw, |RawChildren(raw)|)
      requires indexedValues == ChildEntries(values0, raw, |RawChildren(raw)|, level + 1, epoch)
      modifies this`allLists, this`parentIds, this`indexedValues
      ensures Valid() && Indexed()
      ensures node.Valid() && node.kind == ListKind
      ensures Parse(raw, level, epoch).Ok? && node.Value() == Parse(raw, level, epoch).value
      ensures KeyOf(raw) in allLists && allLists[KeyOf(raw)] == node
      ensures allLists.Keys == lists0.Keys + Keys(Registrations(raw))
      ensures forall k :: k in lists0 && k !in Keys(Registrations(raw)) ==> allLists[k] == lists0[k]
      ensures parentIds == RecordParents(parents0, raw, parentId)
      ensures indexedValues == Entries(values0, raw, level, epoch)
    {
      node := BuildNode(raw, level, processed, values);
      RegistrationKeys(raw);
      ghost var childKeys := allLists.Keys;
      Register(KeyOf(raw), parentId, node);
      UnionStep(allLists.Keys, childKeys, lists0.Keys, Keys(ChildRegistrations(raw, |RawChildren(raw)|)),
                Keys(Registrations(raw)), KeyOf(raw));
      EntriesOk(values0, raw, level, epoch);
    }

    /** The end of `__parse_tree`: records the parent's id when it is truthy,
        then indexes the node under its raw id. */
    method Register(id: Key, parentId: Key, node: ListNode)
      requires Valid() && Indexed() && node.Valid() && node.kind == ListKind
      modifies this`allLists, this`parentIds, this`indexedValues
      ensures Valid() && Indexed()
      ensures parentIds == if KeyTruthy(parentId) then old(parentIds)[id := parentId.value] else old(parentIds)
      ensures allLists == old(allLists)[id := node]
      ensures allLists.Keys == old(allLists).Keys + {id}
      ensures indexedValues == old(indexedValues)[id := node.Value()]
      ensures node.Value() == old(node.Value())
    {
      if KeyTruthy(parentId) {
        parentIds := parentIds[id := parentId.value];
      }
      ghost var before := allLists;
      allLists := allLists[id := node];
      indexedValues := indexedValues[id := old(node.Value())];
      node.ValueKept();
      forall k | k in allLists
        ensures allLists[k].Valid() && k in indexedValues && allLists[k].Value() == indexedValues[k]
      {
        if k != id {
          assert allLists[k] == before[k];
          allLists[k].ValueKept();
        }
      }
    }

    /** The constructor call of `__parse_tree`: the node of `raw` over its
        already parsed children, its times offset by the join date. */
    method BuildNode(raw: RawItem, level: int, processed: seq<ListNode>, ghost values: seq<NodeValue>) returns (node: ListNode)
      requires !raw.ct.Absent? && !raw.lm.Absent? && !raw.ch.NullList?
      requires ParseChildren(raw, |RawChildren(raw)|, level + 1, epoch) == Ok(values)
      requires |processed| == |values|
      requires forall j :: 0 <= j < |processed| ==>
        processed[j].Valid() && processed[j].kind == ListKind && processed[j].Value() == values[j]
      requires Indexed()
      ensures node.Valid() && node.kind == ListKind
      ensures Parse(raw, level, epoch).Ok? && node.Value() == Parse(raw, level, epoch).value
      ensures Indexed()
    {
      var n := |processed|;
      var creationTime := if raw.ct.Present? then epoch + raw.ct.value else 0;
      var lastModifiedTime := if raw.lm.Present? then epoch + raw.lm.value else 0;
      var completedTime := if raw.cp.Present? then epoch + raw.cp.value else 0;
      var created := ListNode.Create(ListKind, StrArg(raw.id), StrArg(raw.nm), StrArg(raw.no), PyInt(level),
                                     PyInt(creationTime), PyInt(lastModifiedTime), PyInt(completedTime),
                                     Elements(seq(n, j requires 0 <= j < n => Node(processed[j]))), ProjectClass);
      assert created.Ok?;
      node := created.value;
      ghost var expected := NodeValue(StrOr(StrArg(raw.id), ""), StrOr(StrArg(raw.nm), ""), StrOr(StrArg(raw.no), ""),
                                      level, creationTime, lastModifiedTime, completedTime, values);
      assert Parse(raw, level, epoch) == Ok(expected);
      node.ChildValuesAt(n);
      assert node.ChildValues(n) == values;
      forall k | k in allLists
        ensures allLists[k].Valid() && k in indexedValues && allLists[k].Value() == indexedValues[k]
      {
        allLists[k].ValueKept();
      }
    }

    /** The loop of `__parse_tree` over the children of `raw`: parses each
        in order at `level`, registering every subtree. */
    method ParseSubtrees(raw: RawItem, level: int) returns (r: Result<seq<ListNode>, ProjectError>, ghost values: seq<NodeValue>)
      requires Valid() && Indexed()
      modifies this`allLists, this`parentIds, this`indexedValues
      decreases raw, 2
      ensures Valid() && Indexed()
      ensures r.Err? ==> ParseChildren(raw, |RawChildren(raw)|, level, epoch) == Err(r.error)
      ensures r.Ok? ==> ParseChildren(raw, |RawChildren(raw)|, level, epoch) == Ok(values)
      ensures r.Ok? ==> |r.value| == |values| == |RawChildren(raw)|
      ensures r.Ok? ==> forall j :: 0 <= j < |r.value| ==>
        r.value[j].Valid() && r.value[j].kind == ListKind && r.value[j].Value() == values[j]
      ensures r.Ok? ==> allLists.Keys == old(allLists).Keys + Keys(ChildRegistrations(raw, |RawChildren(raw)|))
      ensures r.Ok? ==> forall k :: k in old(allLists) && k !in Keys(ChildRegistrations(raw, |RawChildren(raw)|)) ==>
        allLists[k] == old(allLists)[k]
      ensures r.Ok? ==> parentIds == RecordChildParents(old(parentIds), raw, |RawChildren(raw)|)
      ensures r.Ok? ==> indexedValues == ChildEntries(old(indexedValues), raw, |RawChildren(raw)|, level, epoch)
    {
      var n := |RawChildren(raw)|;
      ghost var lists0, parents0, values0 := allLists, parentIds, indexedValues;
      var processed: seq<ListNode> := [];
      values := [];
      for i := 0 to n
        invariant |processed| == |values| == i
        invariant ParseChildren(raw, i, level, epoch) == Ok(values)
        invariant forall j :: 0 <= j < i ==>
          processed[j].Valid() && processed[j].kind == ListKind && processed[j].Value() == values[j]
        invariant Valid() && Indexed()
        invariant indexedValues == ChildEntries(values0, raw, i, level, epoch)
        invariant allLists.Keys == lists0.Keys + Keys(ChildRegistrations(raw, i))
        invariant forall k :: k in lists0 && k !in Keys(ChildRegistrations(raw, i)) ==> allLists[k] == lists0[k]
        invariant parentIds == RecordChildParents(parents0, raw, i)
      {
        var next;
        next, values := ParseSubtree(raw, level, i, processed, values, lists0, parents0, values0);
        if next.Err? {
          ParseChildrenErrorSticks(raw, i + 1, n, level, epoch);
          return Err(next.error), values;
        }
        processed := next.value;
      }
      return Ok(processed), values;
    }

    /** One pass of that loop: parses child `i` of `raw` and appends its
        node to the nodes parsed so far. */
    method ParseSubtree(raw: RawItem, level: int, i: nat, processed: seq<ListNode>, ghost values: seq<NodeValue>,
                        ghost lists0: map<Key, ListNode>, ghost parents0: map<Key, string>,
                        ghost values0: map<Key, NodeValue>)
      returns (r: Result<seq<ListNode>, ProjectError>, ghost nextValues: seq<NodeValue>)
      requires Valid() && Indexed() && i < |RawChildren(raw)|
      requires indexedValues == ChildEntries(values0, raw, i, level, epoch)
      requires |processed| == |values| == i && ParseChildren(raw, i, level, epoch) == Ok(values)
      requires forall j :: 0 <= j < i ==>
        processed[j].Valid() && processed[j].kind == ListKind && processed[j].Value() == values[j]
      requires allLists.Keys == lists0.Keys + Keys(ChildRegistrations(raw, i))
      requires forall k :: k in lists0 && k !in Keys(ChildRegistrations(raw, i)) ==> allLists[k] == lists0[k]
      requires parentIds == RecordChildParents(parents0, raw, i)
      modifies this`allLists, this`parentIds, this`indexedValues
      decreases raw, 1
      ensures Valid() && Indexed()
      ensures r.Err? ==> ParseChildren(raw, i + 1, level, epoch) == Err(r.error)
      ensures r.Ok? ==> |r.value| == |nextValues| == i + 1 && ParseChildren(raw, i + 1, level, epoch) == Ok(nextValues)
      ensures r.Ok? ==> forall j :: 0 <= j < i + 1 ==>
        r.value[j].Valid() && r.value[j].kind == ListKind && r.value[j].Value() == nextValues[j]
      ensures r.Ok? ==> allLists.Keys == lists0.Keys + Keys(ChildRegistrations(raw, i + 1))
      ensures r.Ok? ==> forall k :: k in lists0 && k !in Keys(ChildRegistrations(raw, i + 1)) ==> allLists[k] == lists0[k]
      ensures r.Ok? ==> parentIds == RecordChildParents(parents0, raw, i + 1)
      ensures r.Ok? ==> indexedValues == ChildEntries(values0, raw, i + 1, level, epoch)
    {
      var child := ParseChild(raw, level, i, values, lists0, parents0, values0);
      if child.Err? {
        return Err(child.error), values;
      }
      var nodes := processed + [child.value];
      nextValues := values + [child.value.Value()];
      forall j | 0 <= j < i + 1
        ensures nodes[j].Valid() && nodes[j].kind == ListKind && nodes[j].Value() == nextValues[j]
      {
        if j < i {
          assert nodes[j] == processed[j] && nextValues[j] == values[j];
          processed[j].ValueKept();
        }
      }
      r := Ok(nodes);
    }

    /** Parses child `i` of `raw` one level deeper, under the raw id of `raw`,
        extending the index and parent facts of the first `i` children to
        the first `i + 1`. */
    method ParseChild(raw: RawItem, level: int, i: nat, ghost values: seq<NodeValue>,
                      ghost lists0: map<Key, ListNode>, ghost parents0: map<Key, string>,
                      ghost values0: map<Key, NodeValue>)
      returns (r: Result<ListNode, ProjectError>)
      requires Valid() && Indexed() && i < |RawChildren(raw)| && ParseChildren(raw, i, level, epoch) == Ok(values)
      requires indexedValues == ChildEntries(values0, raw, i, level, epoch)
      requires allLists.Keys == lists0.Keys + Keys(ChildRegistrations(raw, i))
      requires forall k :: k in lists0 && k !in Keys(ChildRegistrations(raw, i)) ==> allLists[k] == lists0[k]
      requires parentIds == RecordChildParents(parents0, raw, i)
      modifies this`allLists, this`parentIds, this`indexedValues
      decreases raw, 0
      ensures Valid() && Indexed()
      ensures r.Err? ==> ParseChildren(raw, i + 1, level, epoch) == Err(r.error)
      ensures r.Ok? ==> r.value.Valid() && r.value.kind == ListKind
      ensures r.Ok? ==> ParseChildren(raw, i + 1, level, epoch) == Ok(values + [r.value.Value()])
      ensures r.Ok? ==> allLists.Keys == lists0.Keys + Keys(ChildRegistrations(raw, i + 1))
      ensures r.Ok? ==> forall k :: k in lists0 && k !in Keys(ChildRegistrations(raw, i + 1)) ==> allLists[k] == lists0[k]
      ensures r.Ok? ==> parentIds == RecordChildParents(parents0, raw, i + 1)
      ensures r.Ok? ==> indexedValues == ChildEntries(values0, raw, i + 1, level, epoch)
    {
      ghost var keys0 := allLists.Keys;
      r := ParseTree(raw.ch.items[i], KeyOf(raw), level);
      if r.Ok? {
        ChildEntriesStep(values0, raw, i, level, epoch);
        KeysAppend(ChildRegistrations(raw, i), Registrations(raw.ch.items[i]));
        assert allLists.Keys == keys0 + Keys(Registrations(raw.ch.items[i]));
      }
    }
  }
}
