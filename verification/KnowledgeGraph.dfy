/**
 The in-memory finance graph (strategyos_mvp/knowledge_graph.py): nodes and edges that are only ever
 added, and the edges that join vendors sharing a tax id or a bank account.
 */
module KnowledgeGraph {
  import opened Options
  import opened Seqs

  datatype NodeLabel = EvidenceNode | VendorNode | FindingNode | OtherNode(name: nat)

  datatype EdgeLabel = SameTaxId | SameBankAccount | InvolvesVendor | SupportedBy | OtherEdge(name: nat)

  /** "label:key"; no label holds a colon, and keys are only compared. */
  datatype Id = Id(kind: NodeLabel, key: nat)

  datatype Property =
    | VendorId | VendorName | IdentifierHash | SourcePath | SourceHash | Locator | Title
    | OtherProperty(name: nat)

  datatype Node = Node(id: Id, properties: map<Property, nat>)

  datatype Ends = Ends(source: Id, target: Id, kind: EdgeLabel)

  datatype Edge = Edge(ends: Ends, properties: map<Property, nat>)

  /** Properties without the empty ones. */
  function Clean(properties: map<Property, Option<nat>>): map<Property, nat> {
    map p | p in properties && properties[p].Some? :: properties[p].value
  }

  function SetDefault<K, V>(m: map<K, V>, k: K, v: V): map<K, V> {
    if k in m then m else m[k := v]
  }

  /** `after` is `before` with what was offered: what was there is unchanged, every offered key is there, and
      whatever is new was offered. */
  ghost predicate Grows<K(!new), V(!new)>(before: map<K, V>, after: map<K, V>, offers: iset<(K, V)>) {
    && (forall k :: k in before ==> k in after && after[k] == before[k])
    && (forall o :: o in offers ==> o.0 in after)
    && (forall k :: k in after && k !in before ==> (k, after[k]) in offers)
  }

  lemma GrowsBoth<K(!new), V(!new)>(a: map<K, V>, b: map<K, V>, c: map<K, V>, first: iset<(K, V)>, second: iset<(K, V)>)
    requires Grows(a, b, first) && Grows(b, c, second)
    ensures Grows(a, c, first + second)
  {
  }

  /** Offering the same things again changes nothing, whatever has been added in between. */
  lemma GrowsOnce<K(!new), V(!new)>(a: map<K, V>, b: map<K, V>, c: map<K, V>, d: map<K, V>,
                                    offers: iset<(K, V)>, between: iset<(K, V)>)
    requires Grows(a, b, offers) && Grows(b, c, between) && Grows(c, d, offers)
    ensures d == c
  {
    assert forall k :: k in d ==> k in c || (k, d[k]) in offers;
    assert d.Keys == c.Keys;
  }

  lemma SetDefaultGrows<K(!new), V(!new)>(m: map<K, V>, k: K, v: V)
    ensures Grows(m, SetDefault(m, k, v), iset{(k, v)})
  {
  }

  lemma GrowsOneMore<K(!new), V(!new)>(a: map<K, V>, b: map<K, V>, offers: iset<(K, V)>, k: K, v: V, more: iset<(K, V)>)
    requires Grows(a, b, offers) && more == offers + iset{(k, v)}
    ensures Grows(a, SetDefault(b, k, v), more)
  {
    SetDefaultGrows(b, k, v);
    GrowsBoth(a, b, SetDefault(b, k, v), offers, iset{(k, v)});
  }

  // ----- Vendor rows and what they share -----

  datatype Field = TaxId | BankAccount

  /** A row of the vendor master; missing identifiers are None. */
  datatype Row = Row(vendor: nat, name: Option<nat>, taxId: Option<nat>, bankAccount: Option<nat>)

  function FieldOf(row: Row, field: Field): Option<nat> {
    match field
    case TaxId => row.taxId
    case BankAccount => row.bankAccount
  }

  function LabelOf(field: Field): EdgeLabel {
    match field
    case TaxId => SameTaxId
    case BankAccount => SameBankAccount
  }

  function IdOf(row: Row): Id { Id(VendorNode, row.vendor) }

  function KeyOf(field: Field): Row -> nat { row => FieldOf(row, field).Or(0) }

  function Present(field: Field): Row -> bool { row => FieldOf(row, field).Some? }

  function VendorProperties(row: Row): map<Property, Option<nat>> {
    map[VendorId := Some(row.vendor), VendorName := row.name]
  }

  // ----- Pairs -----

  /** pairwise: every value with every later one. */
  ghost predicate Before<T>(values: seq<T>, n: int, left: T, right: T) {
    exists i, j :: 0 <= i < j < |values| && i < n && values[i] == left && values[j] == right
  }

  method Pairwise<T(==)>(values: seq<T>) returns (pairs: seq<(T, T)>)
    ensures forall left, right :: (left, right) in pairs <==> Before(values, |values|, left, right)
  {
    pairs := [];
    for i := 0 to |values|
      invariant forall left, right :: (left, right) in pairs <==> Before(values, i, left, right)
    {
      ghost var sofar := pairs;
      for j := i + 1 to |values|
        invariant forall left, right :: (left, right) in pairs <==>
          (left, right) in sofar || (left == values[i] && right in values[i + 1..j])
      {
        pairs := pairs + [(values[i], values[j])];
      }
      BeforeMore(values, i);
    }
  }

  lemma BeforeMore<T>(values: seq<T>, i: nat)
    requires i < |values|
    ensures forall left, right :: Before(values, i + 1, left, right) <==>
              Before(values, i, left, right) || (left == values[i] && right in values[i + 1..])
  {
    forall left, right
      ensures Before(values, i + 1, left, right) <==>
                Before(values, i, left, right) || (left == values[i] && right in values[i + 1..])
    {
      if left == values[i] && right in values[i + 1..] {
        var j :| 0 <= j < |values[i + 1..]| && values[i + 1..][j] == right;
        assert values[i + 1 + j] == right;
      }
      if Before(values, i + 1, left, right) {
        var k, j :| 0 <= k < j < |values| && k < i + 1 && values[k] == left && values[j] == right;
        assert k == i ==> values[i + 1..][j - i - 1] == right;
      }
    }
  }

  ghost predicate AreIds(group: seq<Row>, ids: seq<Id>) {
    |ids| == |group| && forall i :: 0 <= i < |group| ==> ids[i] == IdOf(group[i])
  }

  ghost predicate Joined(pairs: seq<(Id, Id)>, source: Id, target: Id) {
    (source, target) in pairs || (target, source) in pairs
  }

  lemma PairJoinsGroup(group: seq<Row>, ids: seq<Id>, left: Id, right: Id)
    requires AreIds(group, ids) && Before(ids, |ids|, left, right)
    ensures exists a, b :: TwoOf(group, a, b) && left == IdOf(a) && right == IdOf(b)
    ensures exists a, b :: TwoOf(group, a, b) && right == IdOf(a) && left == IdOf(b)
  {
    var i: nat, j: nat :| i < j < |ids| && ids[i] == left && ids[j] == right;
    PlacesAreTwo(group, i, j);
    PlacesAreTwo(group, j, i);
  }

  lemma GroupIsPaired(group: seq<Row>, ids: seq<Id>, a: Row, b: Row)
    requires AreIds(group, ids) && TwoOf(group, a, b)
    ensures Before(ids, |ids|, IdOf(a), IdOf(b)) || Before(ids, |ids|, IdOf(b), IdOf(a))
  {
    var i, j := PlacesOf(group, a, b);
    assert ids[i] == IdOf(a) && ids[j] == IdOf(b);
  }

  /** Each pair joined in both directions joins every two rows of the group. */
  lemma PairsJoinGroup(group: seq<Row>, ids: seq<Id>, pairs: seq<(Id, Id)>, source: Id, target: Id)
    requires AreIds(group, ids)
    requires forall left, right :: (left, right) in pairs <==> Before(ids, |ids|, left, right)
    ensures Joined(pairs, source, target) <==>
            exists a, b :: TwoOf(group, a, b) && source == IdOf(a) && target == IdOf(b)
  {
    if (source, target) in pairs {
      PairJoinsGroup(group, ids, source, target);
    } else if (target, source) in pairs {
      PairJoinsGroup(group, ids, target, source);
    }
    if exists a, b :: TwoOf(group, a, b) && source == IdOf(a) && target == IdOf(b) {
      var a, b :| TwoOf(group, a, b) && source == IdOf(a) && target == IdOf(b);
      GroupIsPaired(group, ids, a, b);
    }
  }

  // ----- What entity resolution offers -----

  type Hash = (Field, nat) -> nat

  function VendorOffer(row: Row): (Id, Node) { (IdOf(row), Node(IdOf(row), Clean(VendorProperties(row)))) }

  function EndsOf(field: Field, source: Id, target: Id): Ends { Ends(source, target, LabelOf(field)) }

  function LinkOffer(field: Field, hash: nat, source: Id, target: Id): (Ends, Edge) {
    var ends := EndsOf(field, source, target);
    (ends, Edge(ends, map[IdentifierHash := hash]))
  }

  ghost predicate OffersVendor(group: seq<Row>, o: (Id, Node)) {
    exists a :: a in group && o == VendorOffer(a)
  }

  ghost function GroupVendors(group: seq<Row>): iset<(Id, Node)> {
    iset o | OffersVendor(group, o)
  }

  ghost predicate IsLink(field: Field, hash: nat, o: (Ends, Edge)) {
    o == LinkOffer(field, hash, o.0.source, o.0.target)
  }

  ghost function PairLinks(pairs: seq<(Id, Id)>, field: Field, hash: nat): iset<(Ends, Edge)> {
    iset o: (Ends, Edge) | IsLink(field, hash, o) && Joined(pairs, o.0.source, o.0.target)
  }

  ghost predicate InGroup(group: seq<Row>, source: Id, target: Id) {
    exists a, b :: TwoOf(group, a, b) && source == IdOf(a) && target == IdOf(b)
  }

  ghost function GroupLinks(group: seq<Row>, field: Field, hash: nat): iset<(Ends, Edge)> {
    iset o: (Ends, Edge) | IsLink(field, hash, o) && InGroup(group, o.0.source, o.0.target)
  }

  /** Two rows of the master that share the field. */
  ghost predicate Shared(rows: seq<Row>, field: Field, a: Row, b: Row) {
    TwoOf(rows, a, b) && FieldOf(a, field).Some? && FieldOf(a, field) == FieldOf(b, field)
  }

  ghost predicate SharedOn(rows: seq<Row>, field: Field, keys: set<nat>, a: Row, b: Row) {
    Shared(rows, field, a, b) && KeyOf(field)(a) in keys
  }

  ghost predicate SharesVendor(rows: seq<Row>, field: Field, keys: set<nat>, o: (Id, Node)) {
    exists a, b :: SharedOn(rows, field, keys, a, b) && o == VendorOffer(a)
  }

  ghost predicate SharesLink(rows: seq<Row>, field: Field, hash: Hash, keys: set<nat>, o: (Ends, Edge)) {
    exists a, b ::
      SharedOn(rows, field, keys, a, b) && o == LinkOffer(field, hash(field, KeyOf(field)(a)), IdOf(a), IdOf(b))
  }

  /** The vendors whose rows share one of these identifiers, and the edges between them. */
  ghost function Vendors(rows: seq<Row>, field: Field, keys: set<nat>): iset<(Id, Node)> {
    iset o | SharesVendor(rows, field, keys, o)
  }

  ghost function Links(rows: seq<Row>, field: Field, hash: Hash, keys: set<nat>): iset<(Ends, Edge)> {
    iset o | SharesLink(rows, field, hash, keys, o)
  }

  ghost function KeysIn(rows: seq<Row>, field: Field): set<nat> {
    KeysOf(Filter(rows, Present(field)), KeyOf(field))
  }

  ghost function AllVendors(rows: seq<Row>): iset<(Id, Node)> {
    Vendors(rows, TaxId, KeysIn(rows, TaxId)) + Vendors(rows, BankAccount, KeysIn(rows, BankAccount))
  }

  ghost function AllLinks(rows: seq<Row>, hash: Hash): iset<(Ends, Edge)> {
    Links(rows, TaxId, hash, KeysIn(rows, TaxId)) + Links(rows, BankAccount, hash, KeysIn(rows, BankAccount))
  }

  lemma GroupRows(rows: seq<Row>, field: Field, k: nat, group: seq<Row>, a: Row)
    requires group == Filter(Filter(rows, Present(field)), HasKey(KeyOf(field), k))
    ensures multiset(group)[a] == if FieldOf(a, field) == Some(k) then multiset(rows)[a] else 0
    ensures a in group <==> a in rows && FieldOf(a, field) == Some(k)
  {
    FilterCount(rows, Present(field), a);
    FilterCount(Filter(rows, Present(field)), HasKey(KeyOf(field), k), a);
  }

  lemma GroupShares(rows: seq<Row>, field: Field, k: nat, group: seq<Row>, a: Row, b: Row)
    requires group == Filter(Filter(rows, Present(field)), HasKey(KeyOf(field), k))
    ensures TwoOf(group, a, b) <==> SharedOn(rows, field, {k}, a, b)
  {
    GroupRows(rows, field, k, group, a);
    GroupRows(rows, field, k, group, b);
  }

  lemma GroupLinkOffers(rows: seq<Row>, field: Field, hash: Hash, k: nat, group: seq<Row>)
    requires group == Filter(Filter(rows, Present(field)), HasKey(KeyOf(field), k))
    ensures Links(rows, field, hash, {k}) == GroupLinks(group, field, hash(field, k))
  {
    forall a, b ensures TwoOf(group, a, b) <==> SharedOn(rows, field, {k}, a, b) {
      GroupShares(rows, field, k, group, a, b);
    }
    forall o ensures SharesLink(rows, field, hash, {k}, o) <==> o in GroupLinks(group, field, hash(field, k)) {
    }
  }

  lemma GroupVendorOffers(rows: seq<Row>, field: Field, k: nat, group: seq<Row>)
    requires group == Filter(Filter(rows, Present(field)), HasKey(KeyOf(field), k)) && |group| >= 2
    ensures Vendors(rows, field, {k}) == GroupVendors(group)
  {
    forall o ensures SharesVendor(rows, field, {k}, o) <==> OffersVendor(group, o) {
      if SharesVendor(rows, field, {k}, o) {
        var a, b :| SharedOn(rows, field, {k}, a, b) && o == VendorOffer(a);
        GroupShares(rows, field, k, group, a, b);
      }
      if OffersVendor(group, o) {
        var a :| a in group && o == VendorOffer(a);
        var b := PartnerOf(group, a);
        GroupShares(rows, field, k, group, a, b);
      }
    }
  }

  /** A group of one offers nothing. */
  lemma SmallGroupOffers(rows: seq<Row>, field: Field, hash: Hash, k: nat, group: seq<Row>)
    requires group == Filter(Filter(rows, Present(field)), HasKey(KeyOf(field), k)) && |group| < 2
    ensures Vendors(rows, field, {k}) == iset{} && Links(rows, field, hash, {k}) == iset{}
  {
    forall a, b ensures !SharedOn(rows, field, {k}, a, b) {
      GroupShares(rows, field, k, group, a, b);
      if TwoOf(group, a, b) {
        var i, j := PlacesOf(group, a, b);
      }
    }
    forall o: (Id, Node) ensures !SharesVendor(rows, field, {k}, o) {
    }
    forall o: (Ends, Edge) ensures !SharesLink(rows, field, hash, {k}, o) {
    }
  }

  lemma PartnerOf(group: seq<Row>, a: Row) returns (b: Row)
    requires a in group && |group| >= 2
    ensures TwoOf(group, a, b)
  {
    var i: nat :| i < |group| && group[i] == a;
    var j := if i == 0 then 1 else 0;
    PlacesAreTwo(group, i, j);
    b := group[j];
  }

  lemma SharedOnMore(rows: seq<Row>, field: Field, keys: set<nat>, k: nat, a: Row, b: Row)
    ensures SharedOn(rows, field, keys + {k}, a, b) <==>
            SharedOn(rows, field, keys, a, b) || SharedOn(rows, field, {k}, a, b)
  {
  }

  lemma MoreVendors(rows: seq<Row>, field: Field, keys: set<nat>, k: nat)
    ensures Vendors(rows, field, keys + {k}) == Vendors(rows, field, keys) + Vendors(rows, field, {k})
  {
    forall o
      ensures SharesVendor(rows, field, keys + {k}, o) <==>
              SharesVendor(rows, field, keys, o) || SharesVendor(rows, field, {k}, o)
    {
      forall a, b
        ensures SharedOn(rows, field, keys + {k}, a, b) <==>
                SharedOn(rows, field, keys, a, b) || SharedOn(rows, field, {k}, a, b)
      {
        SharedOnMore(rows, field, keys, k, a, b);
      }
    }
  }

  lemma MoreLinks(rows: seq<Row>, field: Field, hash: Hash, keys: set<nat>, k: nat)
    ensures Links(rows, field, hash, keys + {k}) == Links(rows, field, hash, keys) + Links(rows, field, hash, {k})
  {
    forall o
      ensures SharesLink(rows, field, hash, keys + {k}, o) <==>
              SharesLink(rows, field, hash, keys, o) || SharesLink(rows, field, hash, {k}, o)
    {
      forall a, b
        ensures SharedOn(rows, field, keys + {k}, a, b) <==>
                SharedOn(rows, field, keys, a, b) || SharedOn(rows, field, {k}, a, b)
      {
        SharedOnMore(rows, field, keys, k, a, b);
      }
    }
  }

  datatype Contents = Contents(nodes: map<Id, Node>, edges: map<Ends, Edge>)

  // ----- Findings -----

  datatype Citation = Citation(path: nat, hash: Option<nat>, locator: Option<nat>)

  /** A finding; `vendors` are the nonempty parts of its slash-separated vendor id. */
  datatype Finding = Finding(id: Id, properties: map<Property, Option<nat>>, vendorName: Option<nat>, vendors: seq<nat>,
                             citations: seq<Citation>)

  function NodeOf(f: Finding): Node { Node(f.id, Clean(f.properties)) }

  function VendorIdOf(f: Finding, i: nat): Id
    requires i < |f.vendors|
  {
    Id(VendorNode, f.vendors[i])
  }

  function InvolvedProperties(f: Finding, i: nat): map<Property, Option<nat>>
    requires i < |f.vendors|
  {
    map[VendorId := Some(f.vendors[i]), VendorName := f.vendorName]
  }

  function InvolvedNode(f: Finding, i: nat): Node
    requires i < |f.vendors|
  {
    Node(VendorIdOf(f, i), Clean(InvolvedProperties(f, i)))
  }

  function InvolvedEdge(f: Finding, i: nat): Edge
    requires i < |f.vendors|
  {
    Edge(Ends(f.id, VendorIdOf(f, i), InvolvesVendor), Clean(map[]))
  }

  function EvidenceIdOf(f: Finding, i: nat): Id
    requires i < |f.citations|
  {
    Id(EvidenceNode, f.citations[i].path)
  }

  function CitedProperties(f: Finding, i: nat): map<Property, Option<nat>>
    requires i < |f.citations|
  {
    map[SourcePath := Some(f.citations[i].path), SourceHash := f.citations[i].hash]
  }

  function CitedNode(f: Finding, i: nat): Node
    requires i < |f.citations|
  {
    Node(EvidenceIdOf(f, i), Clean(CitedProperties(f, i)))
  }

  function CitedEdge(f: Finding, i: nat): Edge
    requires i < |f.citations|
  {
    Edge(Ends(f.id, EvidenceIdOf(f, i), SupportedBy), Clean(map[Locator := f.citations[i].locator]))
  }

  ghost function InvolvedNodes(f: Finding, n: nat): iset<(Id, Node)>
    requires n <= |f.vendors|
  {
    iset i | 0 <= i < n :: (VendorIdOf(f, i), InvolvedNode(f, i))
  }

  ghost function InvolvedEdges(f: Finding, n: nat): iset<(Ends, Edge)>
    requires n <= |f.vendors|
  {
    iset i | 0 <= i < n :: (InvolvedEdge(f, i).ends, InvolvedEdge(f, i))
  }

  ghost function CitedNodes(f: Finding, n: nat): iset<(Id, Node)>
    requires n <= |f.citations|
  {
    iset i | 0 <= i < n :: (EvidenceIdOf(f, i), CitedNode(f, i))
  }

  ghost function CitedEdges(f: Finding, n: nat): iset<(Ends, Edge)>
    requires n <= |f.citations|
  {
    iset i | 0 <= i < n :: (CitedEdge(f, i).ends, CitedEdge(f, i))
  }

  ghost function NodesOf(f: Finding): iset<(Id, Node)> {
    iset{(f.id, NodeOf(f))} + InvolvedNodes(f, |f.vendors|) + CitedNodes(f, |f.citations|)
  }

  ghost function EdgesOf(f: Finding): iset<(Ends, Edge)> {
    InvolvedEdges(f, |f.vendors|) + CitedEdges(f, |f.citations|)
  }

  ghost function FindingNodes(findings: seq<Finding>): iset<(Id, Node)> {
    iset f, o | f in findings && o in NodesOf(f) :: o
  }

  ghost function FindingEdges(findings: seq<Finding>): iset<(Ends, Edge)> {
    iset f, o | f in findings && o in EdgesOf(f) :: o
  }

  /** The contents after the first `n` involved vendors. */
  ghost predicate Involved(before: Contents, after: Contents, f: Finding, n: nat)
    requires n <= |f.vendors|
  {
    && Grows(before.nodes, after.nodes, InvolvedNodes(f, n))
    && Grows(before.edges, after.edges, InvolvedEdges(f, n))
  }

  lemma OneMoreInvolved(f: Finding, i: nat)
    requires i < |f.vendors|
    ensures InvolvedNodes(f, i + 1) == InvolvedNodes(f, i) + iset{(VendorIdOf(f, i), InvolvedNode(f, i))}
    ensures InvolvedEdges(f, i + 1) == InvolvedEdges(f, i) + iset{(InvolvedEdge(f, i).ends, InvolvedEdge(f, i))}
  {
  }

  lemma InvolvedStep(a: Contents, b: Contents, c: Contents, f: Finding, i: nat)
    requires i < |f.vendors| && Involved(a, b, f, i)
    requires c.nodes == SetDefault(b.nodes, VendorIdOf(f, i), InvolvedNode(f, i))
    requires c.edges == SetDefault(b.edges, InvolvedEdge(f, i).ends, InvolvedEdge(f, i))
    ensures Involved(a, c, f, i + 1)
  {
    OneMoreInvolved(f, i);
    GrowsOneMore(a.nodes, b.nodes, InvolvedNodes(f, i), VendorIdOf(f, i), InvolvedNode(f, i), InvolvedNodes(f, i + 1));
    GrowsOneMore(a.edges, b.edges, InvolvedEdges(f, i), InvolvedEdge(f, i).ends, InvolvedEdge(f, i),
                 InvolvedEdges(f, i + 1));
  }

  /** The contents after the first `n` citations. */
  ghost predicate Cited(before: Contents, after: Contents, f: Finding, n: nat)
    requires n <= |f.citations|
  {
    && Grows(before.nodes, after.nodes, CitedNodes(f, n))
    && Grows(before.edges, after.edges, CitedEdges(f, n))
  }

  lemma OneMoreCited(f: Finding, i: nat)
    requires i < |f.citations|
    ensures CitedNodes(f, i + 1) == CitedNodes(f, i) + iset{(EvidenceIdOf(f, i), CitedNode(f, i))}
    ensures CitedEdges(f, i + 1) == CitedEdges(f, i) + iset{(CitedEdge(f, i).ends, CitedEdge(f, i))}
  {
  }

  lemma CitedStep(a: Contents, b: Contents, c: Contents, f: Finding, i: nat)
    requires i < |f.citations| && Cited(a, b, f, i)
    requires c.nodes == SetDefault(b.nodes, EvidenceIdOf(f, i), CitedNode(f, i))
    requires c.edges == SetDefault(b.edges, CitedEdge(f, i).ends, CitedEdge(f, i))
    ensures Cited(a, c, f, i + 1)
  {
    OneMoreCited(f, i);
    GrowsOneMore(a.nodes, b.nodes, CitedNodes(f, i), EvidenceIdOf(f, i), CitedNode(f, i), CitedNodes(f, i + 1));
    GrowsOneMore(a.edges, b.edges, CitedEdges(f, i), CitedEdge(f, i).ends, CitedEdge(f, i), CitedEdges(f, i + 1));
  }

  lemma FindingsOneMore(findings: seq<Finding>, i: nat)
    requires i < |findings|
    ensures FindingNodes(findings[..i + 1]) == FindingNodes(findings[..i]) + NodesOf(findings[i])
    ensures FindingEdges(findings[..i + 1]) == FindingEdges(findings[..i]) + EdgesOf(findings[i])
  {
    assert findings[..i + 1] == findings[..i] + [findings[i]];
    assert findings[i] in findings[..i + 1];
  }

  // ----- The graph -----

  ghost predicate Resolved(before: Contents, after: Contents, rows: seq<Row>, field: Field, hash: Hash,
                           keys: set<nat>)
  {
    && Grows(before.nodes, after.nodes, Vendors(rows, field, keys))
    && Grows(before.edges, after.edges, Links(rows, field, hash, keys))
  }

  lemma ResolvedNothing(c: Contents, rows: seq<Row>, field: Field, hash: Hash)
    ensures Resolved(c, c, rows, field, hash, {})
  {
    assert Vendors(rows, field, {}) == iset{};
    assert Links(rows, field, hash, {}) == iset{};
  }

  lemma ResolvedMore(a: Contents, b: Contents, c: Contents, rows: seq<Row>, field: Field, hash: Hash,
                     keys: set<nat>, k: nat)
    requires Resolved(a, b, rows, field, hash, keys) && Resolved(b, c, rows, field, hash, {k})
    ensures Resolved(a, c, rows, field, hash, keys + {k})
  {
    GrowsBoth(a.nodes, b.nodes, c.nodes, Vendors(rows, field, keys), Vendors(rows, field, {k}));
    GrowsBoth(a.edges, b.edges, c.edges, Links(rows, field, hash, keys), Links(rows, field, hash, {k}));
    MoreVendors(rows, field, keys, k);
    MoreLinks(rows, field, hash, keys, k);
  }

  class StructuralGraph {
    var nodes: map<Id, Node>
    var edges: map<Ends, Edge>

    ghost function Now(): Contents
      reads this
    {
      Contents(nodes, edges)
    }

    constructor ()
      ensures nodes == map[] && edges == map[]
    {
      nodes, edges := map[], map[];
    }

    method AddNode(id: Id, properties: map<Property, Option<nat>>)
      modifies this`nodes
      ensures nodes == SetDefault(old(nodes), id, Node(id, Clean(properties)))
    {
      if id !in nodes {
        nodes := nodes[id := Node(id, Clean(properties))];
      }
    }

    method AddEdge(ends: Ends, properties: map<Property, Option<nat>>)
      modifies this`edges
      ensures edges == SetDefault(old(edges), ends, Edge(ends, Clean(properties)))
    {
      if ends !in edges {
        edges := edges[ends := Edge(ends, Clean(properties))];
      }
    }

    method AddVendors(group: seq<Row>) returns (ids: seq<Id>)
      modifies this`nodes
      ensures AreIds(group, ids)
      ensures Grows(old(nodes), nodes, GroupVendors(group))
    {
      ids := [];
      assert GroupVendors([]) == iset{};
      for i := 0 to |group|
        invariant AreIds(group[..i], ids)
        invariant Grows(old(nodes), nodes, GroupVendors(group[..i]))
      {
        ghost var before := nodes;
        AddNode(IdOf(group[i]), VendorProperties(group[i]));
        VendorsOneMore(group, i);
        GrowsOneMore(old(nodes), before, GroupVendors(group[..i]), IdOf(group[i]), VendorOffer(group[i]).1,
                     GroupVendors(group[..i + 1]));
        ids := ids + [IdOf(group[i])];
      }
      assert group[..|group|] == group;
    }

    method AddLinks(pairs: seq<(Id, Id)>, field: Field, hash: nat)
      modifies this`edges
      ensures Grows(old(edges), edges, PairLinks(pairs, field, hash))
    {
      assert PairLinks([], field, hash) == iset{};
      for i := 0 to |pairs|
        invariant Grows(old(edges), edges, PairLinks(pairs[..i], field, hash))
      {
        var (left, right) := pairs[i];
        ghost var before := edges;
        AddEdge(EndsOf(field, left, right), map[IdentifierHash := Some(hash)]);
        ghost var between := edges;
        AddEdge(EndsOf(field, right, left), map[IdentifierHash := Some(hash)]);
        LinkBothWays(before, between, edges, field, hash, left, right);
        GrowsBoth(old(edges), before, edges, PairLinks(pairs[..i], field, hash),
                  iset{LinkOffer(field, hash, left, right), LinkOffer(field, hash, right, left)});
        LinksOneMore(pairs, i, field, hash);
      }
      assert pairs[..|pairs|] == pairs;
    }

    method ResolveGroup(rows: seq<Row>, field: Field, hash: Hash, k: nat, group: seq<Row>)
      requires group == Filter(Filter(rows, Present(field)), HasKey(KeyOf(field), k))
      modifies this
      ensures Resolved(old(Now()), Now(), rows, field, hash, {k})
    {
      if |group| < 2 {
        SmallGroupOffers(rows, field, hash, k, group);
        return;
      }
      var ids := AddVendors(group);
      var pairs := Pairwise(ids);
      AddLinks(pairs, field, hash(field, k));
      PairsLinkGroup(group, ids, pairs, field, hash(field, k));
      GroupVendorOffers(rows, field, k, group);
      GroupLinkOffers(rows, field, hash, k, group);
    }

    /** One more group of a field that started from `start`. */
    method ResolveNext(rows: seq<Row>, field: Field, hash: Hash, k: nat, group: seq<Row>,
                       ghost start: Contents, ghost done: set<nat>)
      requires group == Filter(Filter(rows, Present(field)), HasKey(KeyOf(field), k))
      requires Resolved(start, Now(), rows, field, hash, done)
      modifies this
      ensures Resolved(start, Now(), rows, field, hash, done + {k})
    {
      ghost var before := Now();
      ResolveGroup(rows, field, hash, k, group);
      ResolvedMore(start, before, Now(), rows, field, hash, done, k);
    }

    /** One field of entity_resolution_edges; the groups may be visited in any order. */
    method ResolveField(rows: seq<Row>, field: Field, hash: Hash)
      modifies this
      ensures Resolved(old(Now()), Now(), rows, field, hash, KeysIn(rows, field))
    {
      var groups := GroupBy(Filter(rows, Present(field)), KeyOf(field));
      ghost var start := Now();
      ghost var done: set<nat> := {};
      var rest := groups.Keys;
      ResolvedNothing(start, rows, field, hash);
      while rest != {}
        invariant done + rest == groups.Keys
        invariant Resolved(start, Now(), rows, field, hash, done)
      {
        var k :| k in rest;
        ResolveNext(rows, field, hash, k, groups[k], start, done);
        rest, done := rest - {k}, done + {k};
      }
      assert done == groups.Keys;
    }

    method EntityResolutionEdges(rows: seq<Row>, hash: Hash)
      modifies this
      ensures Grows(old(nodes), nodes, AllVendors(rows))
      ensures Grows(old(edges), edges, AllLinks(rows, hash))
    {
      ResolveField(rows, TaxId, hash);
      ghost var nodes1, edges1 := nodes, edges;
      ResolveField(rows, BankAccount, hash);
      GrowsBoth(old(nodes), nodes1, nodes, Vendors(rows, TaxId, KeysIn(rows, TaxId)),
                Vendors(rows, BankAccount, KeysIn(rows, BankAccount)));
      GrowsBoth(old(edges), edges1, edges, Links(rows, TaxId, hash, KeysIn(rows, TaxId)),
                Links(rows, BankAccount, hash, KeysIn(rows, BankAccount)));
    }

    /** finding_nodes */
    method AddFindings(findings: seq<Finding>)
      modifies this
      ensures Grows(old(nodes), nodes, FindingNodes(findings))
      ensures Grows(old(edges), edges, FindingEdges(findings))
    {
      assert FindingNodes([]) == iset{} && FindingEdges([]) == iset{};
      for i := 0 to |findings|
        invariant Grows(old(nodes), nodes, FindingNodes(findings[..i]))
        invariant Grows(old(edges), edges, FindingEdges(findings[..i]))
      {
        ghost var nodes0, edges0 := nodes, edges;
        AddFinding(findings[i]);
        GrowsBoth(old(nodes), nodes0, nodes, FindingNodes(findings[..i]), NodesOf(findings[i]));
        GrowsBoth(old(edges), edges0, edges, FindingEdges(findings[..i]), EdgesOf(findings[i]));
        FindingsOneMore(findings, i);
      }
      assert findings[..|findings|] == findings;
    }

    method AddFinding(f: Finding)
      modifies this
      ensures Grows(old(nodes), nodes, NodesOf(f))
      ensures Grows(old(edges), edges, EdgesOf(f))
    {
      AddNode(f.id, f.properties);
      SetDefaultGrows(old(nodes), f.id, NodeOf(f));
      ghost var nodes1 := nodes;
      AddInvolved(f);
      ghost var nodes2, edges2 := nodes, edges;
      AddCited(f);
      GrowsBoth(old(nodes), nodes1, nodes2, iset{(f.id, NodeOf(f))}, InvolvedNodes(f, |f.vendors|));
      GrowsBoth(old(nodes), nodes2, nodes, iset{(f.id, NodeOf(f))} + InvolvedNodes(f, |f.vendors|),
                CitedNodes(f, |f.citations|));
      GrowsBoth(old(edges), edges2, edges, InvolvedEdges(f, |f.vendors|), CitedEdges(f, |f.citations|));
    }

    method AddInvolvedVendor(f: Finding, i: nat)
      requires i < |f.vendors|
      modifies this
      ensures nodes == SetDefault(old(nodes), VendorIdOf(f, i), InvolvedNode(f, i))
      ensures edges == SetDefault(old(edges), InvolvedEdge(f, i).ends, InvolvedEdge(f, i))
    {
      AddNode(VendorIdOf(f, i), InvolvedProperties(f, i));
      AddEdge(Ends(f.id, VendorIdOf(f, i), InvolvesVendor), map[]);
    }

    method AddInvolved(f: Finding)
      modifies this
      ensures Involved(old(Now()), Now(), f, |f.vendors|)
    {
      for i := 0 to |f.vendors|
        invariant Involved(old(Now()), Now(), f, i)
      {
        ghost var before := Now();
        AddInvolvedVendor(f, i);
        InvolvedStep(old(Now()), before, Now(), f, i);
      }
    }

    method AddCitation(f: Finding, i: nat)
      requires i < |f.citations|
      modifies this
      ensures nodes == SetDefault(old(nodes), EvidenceIdOf(f, i), CitedNode(f, i))
      ensures edges == SetDefault(old(edges), CitedEdge(f, i).ends, CitedEdge(f, i))
    {
      AddNode(EvidenceIdOf(f, i), CitedProperties(f, i));
      AddEdge(Ends(f.id, EvidenceIdOf(f, i), SupportedBy), map[Locator := f.citations[i].locator]);
    }

    method AddCited(f: Finding)
      modifies this
      ensures Cited(old(Now()), Now(), f, |f.citations|)
    {
      for i := 0 to |f.citations|
        invariant Cited(old(Now()), Now(), f, i)
      {
        ghost var before := Now();
        AddCitation(f, i);
        CitedStep(old(Now()), before, Now(), f, i);
      }
    }
  }

  lemma VendorsOneMore(group: seq<Row>, i: nat)
    requires i < |group|
    ensures GroupVendors(group[..i + 1]) == GroupVendors(group[..i]) + iset{VendorOffer(group[i])}
  {
    assert group[..i + 1] == group[..i] + [group[i]];
    forall o ensures OffersVendor(group[..i + 1], o) <==> OffersVendor(group[..i], o) || o == VendorOffer(group[i]) {
      assert group[i] in group[..i + 1];
    }
  }

  lemma LinksOneMore(pairs: seq<(Id, Id)>, i: nat, field: Field, hash: nat)
    requires i < |pairs|
    ensures PairLinks(pairs[..i + 1], field, hash) == PairLinks(pairs[..i], field, hash)
              + iset{LinkOffer(field, hash, pairs[i].0, pairs[i].1), LinkOffer(field, hash, pairs[i].1, pairs[i].0)}
  {
    assert pairs[..i + 1] == pairs[..i] + [pairs[i]];
  }

  lemma LinkBothWays(a: map<Ends, Edge>, b: map<Ends, Edge>, c: map<Ends, Edge>, field: Field, hash: nat,
                     left: Id, right: Id)
    requires b == SetDefault(a, EndsOf(field, left, right),
                             Edge(EndsOf(field, left, right), Clean(map[IdentifierHash := Some(hash)])))
    requires c == SetDefault(b, EndsOf(field, right, left),
                             Edge(EndsOf(field, right, left), Clean(map[IdentifierHash := Some(hash)])))
    ensures Grows(a, c, iset{LinkOffer(field, hash, left, right), LinkOffer(field, hash, right, left)})
  {
    assert Clean(map[IdentifierHash := Some(hash)]) == map[IdentifierHash := hash];
    SetDefaultGrows(a, EndsOf(field, left, right), LinkOffer(field, hash, left, right).1);
    SetDefaultGrows(b, EndsOf(field, right, left), LinkOffer(field, hash, right, left).1);
    GrowsBoth(a, b, c, iset{LinkOffer(field, hash, left, right)}, iset{LinkOffer(field, hash, right, left)});
    assert iset{LinkOffer(field, hash, left, right)} + iset{LinkOffer(field, hash, right, left)}
        == iset{LinkOffer(field, hash, left, right), LinkOffer(field, hash, right, left)};
  }

  lemma PairsLinkGroup(group: seq<Row>, ids: seq<Id>, pairs: seq<(Id, Id)>, field: Field, hash: nat)
    requires AreIds(group, ids)
    requires forall left, right :: (left, right) in pairs <==> Before(ids, |ids|, left, right)
    ensures PairLinks(pairs, field, hash) == GroupLinks(group, field, hash)
  {
    forall source, target ensures Joined(pairs, source, target) <==> InGroup(group, source, target) {
      PairsJoinGroup(group, ids, pairs, source, target);
    }
  }

  // ----- What the edges mean -----

  ghost predicate OneRowPerVendor(rows: seq<Row>) {
    forall i, j :: 0 <= i < j < |rows| ==> rows[i].vendor != rows[j].vendor
  }

  /** Rows of one vendor that hold the field hold the same value. */
  ghost predicate VendorsAgree(rows: seq<Row>, field: Field) {
    forall a, b :: a in rows && b in rows && a.vendor == b.vendor && FieldOf(a, field).Some? && FieldOf(b, field).Some?
      ==> FieldOf(a, field) == FieldOf(b, field)
  }

  /** The edges of entity resolution, over a graph that had none of them. */
  ghost predicate ResolvedFrom(before: map<Ends, Edge>, edges: map<Ends, Edge>, rows: seq<Row>, hash: Hash) {
    && Grows(before, edges, AllLinks(rows, hash))
    && forall e :: e in before ==> e.kind != SameTaxId && e.kind != SameBankAccount
  }

  ghost predicate LinkedBy(rows: seq<Row>, field: Field, source: Id, target: Id) {
    exists a, b :: Shared(rows, field, a, b) && source == IdOf(a) && target == IdOf(b)
  }

  lemma KeyIsIn(rows: seq<Row>, field: Field, a: Row)
    requires a in rows && FieldOf(a, field).Some?
    ensures KeyOf(field)(a) in KeysIn(rows, field)
  {
    assert a in Filter(rows, Present(field));
  }

  lemma EdgeIsLink(before: map<Ends, Edge>, edges: map<Ends, Edge>, rows: seq<Row>, hash: Hash,
                   field: Field, source: Id, target: Id)
    returns (a: Row, b: Row)
    requires ResolvedFrom(before, edges, rows, hash) && EndsOf(field, source, target) in edges
    ensures Shared(rows, field, a, b) && source == IdOf(a) && target == IdOf(b)
    ensures edges[EndsOf(field, source, target)].properties ==
            map[IdentifierHash := hash(field, FieldOf(a, field).value)]
  {
    var o := (EndsOf(field, source, target), edges[EndsOf(field, source, target)]);
    assert o in AllLinks(rows, hash);
    var g: Field := if SharesLink(rows, TaxId, hash, KeysIn(rows, TaxId), o) then TaxId else BankAccount;
    assert SharesLink(rows, g, hash, KeysIn(rows, g), o);
    a, b :| SharedOn(rows, g, KeysIn(rows, g), a, b) && o == LinkOffer(g, hash(g, KeyOf(g)(a)), IdOf(a), IdOf(b));
    assert o.0.kind == LabelOf(g) == LabelOf(field);
  }

  lemma LinkIsEdge(before: map<Ends, Edge>, edges: map<Ends, Edge>, rows: seq<Row>, hash: Hash,
                   field: Field, a: Row, b: Row)
    requires ResolvedFrom(before, edges, rows, hash) && Shared(rows, field, a, b)
    ensures EndsOf(field, IdOf(a), IdOf(b)) in edges
  {
    KeyIsIn(rows, field, a);
    var o := LinkOffer(field, hash(field, KeyOf(field)(a)), IdOf(a), IdOf(b));
    assert SharedOn(rows, field, KeysIn(rows, field), a, b);
    assert SharesLink(rows, field, hash, KeysIn(rows, field), o);
    assert o in Links(rows, field, hash, KeysIn(rows, field));
    assert o in AllLinks(rows, hash);
  }

  /** Two nodes are joined by a SAME edge exactly when two rows, one for each, share the field. */
  lemma EdgesExactly(before: map<Ends, Edge>, edges: map<Ends, Edge>, rows: seq<Row>, hash: Hash,
                     field: Field, source: Id, target: Id)
    requires ResolvedFrom(before, edges, rows, hash)
    ensures EndsOf(field, source, target) in edges <==> LinkedBy(rows, field, source, target)
  {
    if EndsOf(field, source, target) in edges {
      var a, b := EdgeIsLink(before, edges, rows, hash, field, source, target);
    }
    if LinkedBy(rows, field, source, target) {
      var a, b :| Shared(rows, field, a, b) && source == IdOf(a) && target == IdOf(b);
      LinkIsEdge(before, edges, rows, hash, field, a, b);
    }
  }

  ghost predicate Holds(rows: seq<Row>, field: Field, vendor: nat, value: nat) {
    exists a :: a in rows && a.vendor == vendor && FieldOf(a, field) == Some(value)
  }

  ghost predicate ShareValue(rows: seq<Row>, field: Field, u: nat, v: nat) {
    exists value: nat :: Holds(rows, field, u, value) && Holds(rows, field, v, value)
  }

  lemma LinkedVendorsShare(rows: seq<Row>, field: Field, u: nat, v: nat)
    requires u != v
    ensures LinkedBy(rows, field, Id(VendorNode, u), Id(VendorNode, v)) <==> ShareValue(rows, field, u, v)
  {
    if LinkedBy(rows, field, Id(VendorNode, u), Id(VendorNode, v)) {
      var a, b :| Shared(rows, field, a, b) && Id(VendorNode, u) == IdOf(a) && Id(VendorNode, v) == IdOf(b);
      assert Holds(rows, field, u, FieldOf(a, field).value) && Holds(rows, field, v, FieldOf(a, field).value);
    }
    if ShareValue(rows, field, u, v) {
      var value: nat :| Holds(rows, field, u, value) && Holds(rows, field, v, value);
      var a :| a in rows && a.vendor == u && FieldOf(a, field) == Some(value);
      var b :| b in rows && b.vendor == v && FieldOf(b, field) == Some(value);
      assert Shared(rows, field, a, b);
    }
  }

  /** The edges join exactly the distinct vendors that hold the same value. */
  lemma SameEdgesExactly(before: map<Ends, Edge>, edges: map<Ends, Edge>, rows: seq<Row>, hash: Hash,
                         field: Field, u: nat, v: nat)
    requires ResolvedFrom(before, edges, rows, hash) && u != v
    ensures EndsOf(field, Id(VendorNode, u), Id(VendorNode, v)) in edges <==> ShareValue(rows, field, u, v)
  {
    EdgesExactly(before, edges, rows, hash, field, Id(VendorNode, u), Id(VendorNode, v));
    LinkedVendorsShare(rows, field, u, v);
  }

  /** The same by name: a tax edge joins holders of one tax id, a bank edge holders of one bank account. */
  lemma TaxAndBankEdges(before: map<Ends, Edge>, edges: map<Ends, Edge>, rows: seq<Row>, hash: Hash, u: nat, v: nat)
    requires ResolvedFrom(before, edges, rows, hash) && u != v
    ensures Ends(Id(VendorNode, u), Id(VendorNode, v), SameTaxId) in edges <==>
            exists a, b :: a in rows && b in rows && a.vendor == u && b.vendor == v
                           && a.taxId.Some? && a.taxId == b.taxId
    ensures Ends(Id(VendorNode, u), Id(VendorNode, v), SameBankAccount) in edges <==>
            exists a, b :: a in rows && b in rows && a.vendor == u && b.vendor == v
                           && a.bankAccount.Some? && a.bankAccount == b.bankAccount
  {
    SameEdgesExactly(before, edges, rows, hash, TaxId, u, v);
    SameEdgesExactly(before, edges, rows, hash, BankAccount, u, v);
    SharingRows(rows, TaxId, u, v);
    SharingRows(rows, BankAccount, u, v);
    assert forall row :: FieldOf(row, TaxId) == row.taxId && FieldOf(row, BankAccount) == row.bankAccount;
  }

  lemma SharingRows(rows: seq<Row>, field: Field, u: nat, v: nat)
    ensures ShareValue(rows, field, u, v) <==>
            exists a, b :: a in rows && b in rows && a.vendor == u && b.vendor == v
                           && FieldOf(a, field).Some? && FieldOf(a, field) == FieldOf(b, field)
  {
    forall a, b | a in rows && b in rows && a.vendor == u && b.vendor == v
                  && FieldOf(a, field).Some? && FieldOf(a, field) == FieldOf(b, field)
      ensures ShareValue(rows, field, u, v)
    {
      var x := FieldOf(a, field).value;
      assert Holds(rows, field, u, x) && Holds(rows, field, v, x);
    }
  }

  /** The properties of a vendor node: its id, and its name where there is one. */
  function VendorSays(vendor: nat, name: Option<nat>): map<Property, nat> {
    if name.Some? then map[VendorId := vendor, VendorName := name.value] else map[VendorId := vendor]
  }

  lemma CleanVendor(vendor: nat, name: Option<nat>)
    ensures Clean(map[VendorId := Some(vendor), VendorName := name]) == VendorSays(vendor, name)
  {
  }

  /** Resolution adds a node for each vendor with a row that shares an identifier, and the node speaks of such a row. */
  lemma VendorNodesExactly(before: map<Id, Node>, nodes: map<Id, Node>, rows: seq<Row>, id: Id)
    requires Grows(before, nodes, AllVendors(rows))
    ensures id in nodes <==>
            id in before || exists field, a, b :: Shared(rows, field, a, b) && id == Id(VendorNode, a.vendor)
    ensures id in nodes && id !in before ==>
            exists field, a, b :: Shared(rows, field, a, b) && nodes[id] == Node(id, VendorSays(a.vendor, a.name))
  {
    forall field, a, b | Shared(rows, field, a, b) ensures IdOf(a) in nodes {
      KeyIsIn(rows, field, a);
      assert SharedOn(rows, field, KeysIn(rows, field), a, b);
      assert SharesVendor(rows, field, KeysIn(rows, field), VendorOffer(a));
      assert VendorOffer(a) in AllVendors(rows);
    }
    if id in nodes && id !in before {
      var field: Field, a, b := NewVendor(rows, (id, nodes[id]));
      CleanVendor(a.vendor, a.name);
    }
  }

  lemma NewVendor(rows: seq<Row>, o: (Id, Node)) returns (field: Field, a: Row, b: Row)
    requires o in AllVendors(rows)
    ensures Shared(rows, field, a, b) && o == VendorOffer(a)
  {
    field := if SharesVendor(rows, TaxId, KeysIn(rows, TaxId), o) then TaxId else BankAccount;
    assert SharesVendor(rows, field, KeysIn(rows, field), o);
    a, b :| SharedOn(rows, field, KeysIn(rows, field), a, b) && o == VendorOffer(a);
  }

  /** No vendor is joined to itself when each has one row. */
  lemma NoSelfEdges(before: map<Ends, Edge>, edges: map<Ends, Edge>, rows: seq<Row>, hash: Hash, field: Field, id: Id)
    requires ResolvedFrom(before, edges, rows, hash) && OneRowPerVendor(rows)
    ensures EndsOf(field, id, id) !in edges
  {
    EdgesExactly(before, edges, rows, hash, field, id, id);
    if LinkedBy(rows, field, id, id) {
      var a, b :| Shared(rows, field, a, b) && id == IdOf(a) && id == IdOf(b);
      var i, j := PlacesOf(rows, a, b);
    }
  }

  /** Joined, or the same vendor. */
  ghost predicate SameEntity(edges: map<Ends, Edge>, field: Field, u: nat, v: nat) {
    u == v || EndsOf(field, Id(VendorNode, u), Id(VendorNode, v)) in edges
  }

  lemma OneRowAgrees(rows: seq<Row>, field: Field)
    requires OneRowPerVendor(rows)
    ensures VendorsAgree(rows, field)
  {
  }

  lemma SameEntityIsSymmetric(before: map<Ends, Edge>, edges: map<Ends, Edge>, rows: seq<Row>, hash: Hash,
                              field: Field, u: nat, v: nat)
    requires ResolvedFrom(before, edges, rows, hash) && SameEntity(edges, field, u, v)
    ensures SameEntity(edges, field, v, u)
  {
    if u != v {
      SameEdgesExactly(before, edges, rows, hash, field, u, v);
      SameEdgesExactly(before, edges, rows, hash, field, v, u);
    }
  }

  lemma SharingIsTransitive(rows: seq<Row>, field: Field, u: nat, v: nat, w: nat)
    requires VendorsAgree(rows, field) && ShareValue(rows, field, u, v) && ShareValue(rows, field, v, w)
    ensures ShareValue(rows, field, u, w)
  {
    var x: nat :| Holds(rows, field, u, x) && Holds(rows, field, v, x);
    var y: nat :| Holds(rows, field, v, y) && Holds(rows, field, w, y);
    var a :| a in rows && a.vendor == v && FieldOf(a, field) == Some(x);
    var b :| b in rows && b.vendor == v && FieldOf(b, field) == Some(y);
    assert Some(x) == Some(y);
  }

  /** Where the rows of a vendor agree, being the same entity is transitive, so with its reflexivity and symmetry
      an equivalence. */
  lemma SameEntityIsTransitive(before: map<Ends, Edge>, edges: map<Ends, Edge>, rows: seq<Row>, hash: Hash,
                               field: Field, u: nat, v: nat, w: nat)
    requires ResolvedFrom(before, edges, rows, hash) && VendorsAgree(rows, field)
    requires SameEntity(edges, field, u, v) && SameEntity(edges, field, v, w)
    ensures SameEntity(edges, field, u, w)
  {
    if u != v && v != w && u != w {
      SameEdgesExactly(before, edges, rows, hash, field, u, v);
      SameEdgesExactly(before, edges, rows, hash, field, v, w);
      SharingIsTransitive(rows, field, u, v, w);
      SameEdgesExactly(before, edges, rows, hash, field, u, w);
    }
  }

  ghost predicate IsTransitive(edges: map<Ends, Edge>, field: Field) {
    forall u, v, w ::
      SameEntity(edges, field, u, v) && SameEntity(edges, field, v, w) ==> SameEntity(edges, field, u, w)
  }

  /** For every vendor that holds two values, any holder of the one and any holder of the other share a value. */
  ghost predicate HoldersShare(rows: seq<Row>, field: Field) {
    forall v, x, y, u, w ::
      && x != y && Holds(rows, field, v, x) && Holds(rows, field, v, y)
      && Holds(rows, field, u, x) && Holds(rows, field, w, y)
      ==> u == w || ShareValue(rows, field, u, w)
  }

  lemma SharersOfOne(rows: seq<Row>, field: Field, u: nat, v: nat, w: nat)
    requires HoldersShare(rows, field) && ShareValue(rows, field, u, v) && ShareValue(rows, field, v, w)
    ensures u == w || ShareValue(rows, field, u, w)
  {
    var x: nat :| Holds(rows, field, u, x) && Holds(rows, field, v, x);
    var y: nat :| Holds(rows, field, v, y) && Holds(rows, field, w, y);
  }

  lemma SharersMakeTransitive(before: map<Ends, Edge>, edges: map<Ends, Edge>, rows: seq<Row>, hash: Hash,
                              field: Field, u: nat, v: nat, w: nat)
    requires ResolvedFrom(before, edges, rows, hash) && HoldersShare(rows, field)
    requires SameEntity(edges, field, u, v) && SameEntity(edges, field, v, w)
    ensures SameEntity(edges, field, u, w)
  {
    if u != v && v != w && u != w {
      SameEdgesExactly(before, edges, rows, hash, field, u, v);
      SameEdgesExactly(before, edges, rows, hash, field, v, w);
      SharersOfOne(rows, field, u, v, w);
      SameEdgesExactly(before, edges, rows, hash, field, u, w);
    }
  }

  lemma TransitiveMakesSharers(before: map<Ends, Edge>, edges: map<Ends, Edge>, rows: seq<Row>, hash: Hash,
                               field: Field, u: nat, v: nat, w: nat)
    requires ResolvedFrom(before, edges, rows, hash)
    requires ShareValue(rows, field, u, v) && ShareValue(rows, field, v, w)
    requires SameEntity(edges, field, u, v) && SameEntity(edges, field, v, w) ==> SameEntity(edges, field, u, w)
    ensures u == w || ShareValue(rows, field, u, w)
  {
    if u != v && v != w && u != w {
      SameEdgesExactly(before, edges, rows, hash, field, u, v);
      SameEdgesExactly(before, edges, rows, hash, field, v, w);
      SameEdgesExactly(before, edges, rows, hash, field, u, w);
    }
  }

  /** Being the same entity is transitive exactly when, in the master, for every vendor that holds two values any
      holder of the one and any holder of the other share a value. */
  lemma TransitiveExactly(before: map<Ends, Edge>, edges: map<Ends, Edge>, rows: seq<Row>, hash: Hash, field: Field)
    requires ResolvedFrom(before, edges, rows, hash)
    ensures IsTransitive(edges, field) <==> HoldersShare(rows, field)
  {
    if HoldersShare(rows, field) {
      forall u, v, w | SameEntity(edges, field, u, v) && SameEntity(edges, field, v, w)
        ensures SameEntity(edges, field, u, w)
      {
        SharersMakeTransitive(before, edges, rows, hash, field, u, v, w);
      }
    }
    if IsTransitive(edges, field) {
      forall v, x, y, u, w |
        && x != y && Holds(rows, field, v, x) && Holds(rows, field, v, y)
        && Holds(rows, field, u, x) && Holds(rows, field, w, y)
        ensures u == w || ShareValue(rows, field, u, w)
      {
        assert ShareValue(rows, field, u, v) && ShareValue(rows, field, v, w);
        TransitiveMakesSharers(before, edges, rows, hash, field, u, v, w);
      }
    }
  }

  /** With one master row per vendor the SAME edges, with identity, are an equivalence. */
  lemma OneRowMakesEquivalence(before: map<Ends, Edge>, edges: map<Ends, Edge>, rows: seq<Row>, hash: Hash,
                               field: Field)
    requires ResolvedFrom(before, edges, rows, hash) && OneRowPerVendor(rows)
    ensures forall u :: SameEntity(edges, field, u, u)
    ensures forall u, v :: SameEntity(edges, field, u, v) ==> SameEntity(edges, field, v, u)
    ensures IsTransitive(edges, field)
  {
    OneRowAgrees(rows, field);
    forall u, v | SameEntity(edges, field, u, v) ensures SameEntity(edges, field, v, u) {
      SameEntityIsSymmetric(before, edges, rows, hash, field, u, v);
    }
    forall u, v, w | SameEntity(edges, field, u, v) && SameEntity(edges, field, v, w)
      ensures SameEntity(edges, field, u, w)
    {
      SameEntityIsTransitive(before, edges, rows, hash, field, u, v, w);
    }
  }

  lemma SharesWithBoth(rows: seq<Row>)
    requires rows == TwoRowsForVendor2()
    ensures ShareValue(rows, TaxId, 1, 2) && ShareValue(rows, TaxId, 2, 3) && !ShareValue(rows, TaxId, 1, 3)
  {
    assert rows[0] in rows && rows[1] in rows && rows[2] in rows && rows[3] in rows;
    assert Holds(rows, TaxId, 1, 10) && Holds(rows, TaxId, 2, 10);
    assert Holds(rows, TaxId, 2, 20) && Holds(rows, TaxId, 3, 20);
  }

  /** A vendor with two rows can break it: 1 and 3 share nothing, but 2 shares with both. */
  lemma TwoRowsBreakTransitivity(before: map<Ends, Edge>, edges: map<Ends, Edge>, rows: seq<Row>, hash: Hash)
    requires ResolvedFrom(before, edges, rows, hash) && rows == TwoRowsForVendor2()
    ensures SameEntity(edges, TaxId, 1, 2) && SameEntity(edges, TaxId, 2, 3) && !SameEntity(edges, TaxId, 1, 3)
  {
    SharesWithBoth(rows);
    SameEdgesExactly(before, edges, rows, hash, TaxId, 1, 2);
    SameEdgesExactly(before, edges, rows, hash, TaxId, 2, 3);
    SameEdgesExactly(before, edges, rows, hash, TaxId, 1, 3);
  }

  function TwoRowsForVendor2(): seq<Row> {
    [Row(1, None, Some(10), None), Row(2, None, Some(10), None),
     Row(2, None, Some(20), None), Row(3, None, Some(20), None)]
  }

  /** Replaying entity resolution changes neither a node nor an edge, also after the findings were added. */
  lemma ReplayChangesNothing(a: Contents, b: Contents, c: Contents, d: Contents, rows: seq<Row>, hash: Hash,
                             findings: seq<Finding>)
    requires Grows(a.nodes, b.nodes, AllVendors(rows)) && Grows(a.edges, b.edges, AllLinks(rows, hash))
    requires Grows(b.nodes, c.nodes, FindingNodes(findings)) && Grows(b.edges, c.edges, FindingEdges(findings))
    requires Grows(c.nodes, d.nodes, AllVendors(rows)) && Grows(c.edges, d.edges, AllLinks(rows, hash))
    ensures d == c
  {
    GrowsOnce(a.nodes, b.nodes, c.nodes, d.nodes, AllVendors(rows), FindingNodes(findings));
    GrowsOnce(a.edges, b.edges, c.edges, d.edges, AllLinks(rows, hash), FindingEdges(findings));
  }

  /** The finding layer leaves every node and edge as it was and adds no edge between vendors. */
  lemma FindingsLeaveStructure(a: Contents, b: Contents, findings: seq<Finding>, id: Id, e: Ends)
    requires Grows(a.nodes, b.nodes, FindingNodes(findings)) && Grows(a.edges, b.edges, FindingEdges(findings))
    ensures id in a.nodes ==> id in b.nodes && b.nodes[id] == a.nodes[id]
    ensures e in a.edges ==> e in b.edges && b.edges[e] == a.edges[e]
    ensures e in b.edges && e !in a.edges ==>
            (e.kind == InvolvesVendor || e.kind == SupportedBy) && exists f :: f in findings && e.source == f.id
  {
    if e in b.edges && e !in a.edges {
      var o := (e, b.edges[e]);
      assert o in FindingEdges(findings);
      var f :| f in findings && o in EdgesOf(f);
    }
  }

  // ----- What the finding layer says -----

  /** The ids a finding speaks of: its own, its vendors' and its citations'. */
  ghost predicate SpeaksOf(f: Finding, id: Id) {
    || id == f.id
    || (exists v :: v in f.vendors && id == Id(VendorNode, v))
    || (exists c :: c in f.citations && id == Id(EvidenceNode, c.path))
  }

  /** The edges of a finding, to each of its vendors and each of its citations. */
  ghost predicate PointsTo(f: Finding, e: Ends) {
    && e.source == f.id
    && ((e.kind == InvolvesVendor && exists v :: v in f.vendors && e.target == Id(VendorNode, v))
        || (e.kind == SupportedBy && exists c :: c in f.citations && e.target == Id(EvidenceNode, c.path)))
  }

  lemma SpokenNodes(f: Finding, id: Id)
    ensures SpeaksOf(f, id) <==> exists o :: o in NodesOf(f) && o.0 == id
  {
    forall v | v in f.vendors ensures exists o :: o in NodesOf(f) && o.0 == Id(VendorNode, v) {
      var i :| 0 <= i < |f.vendors| && f.vendors[i] == v;
      assert (VendorIdOf(f, i), InvolvedNode(f, i)) in NodesOf(f);
    }
    forall c | c in f.citations ensures exists o :: o in NodesOf(f) && o.0 == Id(EvidenceNode, c.path) {
      var i :| 0 <= i < |f.citations| && f.citations[i] == c;
      assert (EvidenceIdOf(f, i), CitedNode(f, i)) in NodesOf(f);
    }
    assert (f.id, NodeOf(f)) in NodesOf(f);
  }

  lemma PointedEdges(f: Finding, e: Ends)
    ensures PointsTo(f, e) <==> exists o :: o in EdgesOf(f) && o.0 == e
  {
    forall v | v in f.vendors
      ensures exists o :: o in EdgesOf(f) && o.0 == Ends(f.id, Id(VendorNode, v), InvolvesVendor)
    {
      var i :| 0 <= i < |f.vendors| && f.vendors[i] == v;
      assert (InvolvedEdge(f, i).ends, InvolvedEdge(f, i)) in EdgesOf(f);
    }
    forall c | c in f.citations
      ensures exists o :: o in EdgesOf(f) && o.0 == Ends(f.id, Id(EvidenceNode, c.path), SupportedBy)
    {
      var i :| 0 <= i < |f.citations| && f.citations[i] == c;
      assert (CitedEdge(f, i).ends, CitedEdge(f, i)) in EdgesOf(f);
    }
  }

  /** The layer adds the nodes and edges its findings speak of, and no others. */
  lemma FindingLayerExactly(a: Contents, b: Contents, findings: seq<Finding>, id: Id, e: Ends)
    requires Grows(a.nodes, b.nodes, FindingNodes(findings)) && Grows(a.edges, b.edges, FindingEdges(findings))
    ensures id in b.nodes <==> id in a.nodes || exists f :: f in findings && SpeaksOf(f, id)
    ensures e in b.edges <==> e in a.edges || exists f :: f in findings && PointsTo(f, e)
  {
    forall f | f in findings ensures SpeaksOf(f, id) <==> exists o :: o in NodesOf(f) && o.0 == id {
      SpokenNodes(f, id);
    }
    forall f | f in findings ensures PointsTo(f, e) <==> exists o :: o in EdgesOf(f) && o.0 == e {
      PointedEdges(f, e);
    }
    forall f, o | f in findings && o in NodesOf(f) ensures o in FindingNodes(findings) {
    }
    forall f, o | f in findings && o in EdgesOf(f) ensures o in FindingEdges(findings) {
    }
  }

  /** A text that is there, under its name. */
  function Only(p: Property, x: Option<nat>): map<Property, nat> {
    if x.Some? then map[p := x.value] else map[]
  }

  /** What a finding says of an id: its own properties that are not empty, a vendor's id and name, or a source's path
      and digest. */
  ghost predicate SaysOf(f: Finding, id: Id, n: Node) {
    || (id == f.id && n.id == id && forall p :: p in n.properties <==> p in f.properties && f.properties[p] != None)
    || (exists v :: v in f.vendors && n == Node(Id(VendorNode, v), VendorSays(v, f.vendorName)))
    || (exists c :: c in f.citations &&
          n == Node(Id(EvidenceNode, c.path), map[SourcePath := c.path] + Only(SourceHash, c.hash)))
  }

  lemma NewNodesTell(f: Finding, o: (Id, Node))
    requires o in NodesOf(f)
    ensures SaysOf(f, o.0, o.1)
  {
    if o in InvolvedNodes(f, |f.vendors|) {
      var i :| 0 <= i < |f.vendors| && o == (VendorIdOf(f, i), InvolvedNode(f, i));
      InvolvedSays(f, i);
    } else if o in CitedNodes(f, |f.citations|) {
      var i :| 0 <= i < |f.citations| && o == (EvidenceIdOf(f, i), CitedNode(f, i));
      CitedSays(f, i);
    }
  }

  lemma InvolvedSays(f: Finding, i: nat)
    requires i < |f.vendors|
    ensures SaysOf(f, VendorIdOf(f, i), InvolvedNode(f, i))
  {
    CleanVendor(f.vendors[i], f.vendorName);
    assert f.vendors[i] in f.vendors;
  }

  lemma CitedSays(f: Finding, i: nat)
    requires i < |f.citations|
    ensures SaysOf(f, EvidenceIdOf(f, i), CitedNode(f, i))
  {
    var c := f.citations[i];
    assert c in f.citations;
    assert Clean(CitedProperties(f, i)) == map[SourcePath := c.path] + Only(SourceHash, c.hash);
  }

  /** What is new in the layer says what a finding says; a citation's edge carries its locator. */
  lemma FindingLayerTells(a: Contents, b: Contents, findings: seq<Finding>, id: Id, e: Ends)
    requires Grows(a.nodes, b.nodes, FindingNodes(findings)) && Grows(a.edges, b.edges, FindingEdges(findings))
    ensures id in b.nodes && id !in a.nodes ==> exists f :: f in findings && SaysOf(f, id, b.nodes[id])
    ensures e in b.edges && e !in a.edges ==>
              exists f :: f in findings && e.source == f.id &&
                if e.kind == InvolvesVendor then b.edges[e] == Edge(e, map[])
                else exists c :: c in f.citations && e.target == Id(EvidenceNode, c.path)
                                 && b.edges[e] == Edge(e, Only(Locator, c.locator))
  {
    if id in b.nodes && id !in a.nodes {
      var f, o :| f in findings && o in NodesOf(f) && o == (id, b.nodes[id]);
      NewNodesTell(f, o);
    }
    if e in b.edges && e !in a.edges {
      var f, o :| f in findings && o in EdgesOf(f) && o == (e, b.edges[e]);
      NewEdgeTells(f, o);
    }
  }

  lemma NewEdgeTells(f: Finding, o: (Ends, Edge))
    requires o in EdgesOf(f)
    ensures o.0.source == f.id
    ensures if o.0.kind == InvolvesVendor then o.1 == Edge(o.0, map[])
            else exists c :: c in f.citations && o.0.target == Id(EvidenceNode, c.path)
                             && o.1 == Edge(o.0, Only(Locator, c.locator))
  {
    if o in CitedEdges(f, |f.citations|) {
      var i :| 0 <= i < |f.citations| && o == (CitedEdge(f, i).ends, CitedEdge(f, i));
      var c := f.citations[i];
      assert c in f.citations;
      assert Clean(map[Locator := c.locator]) == Only(Locator, c.locator);
    } else {
      assert Clean(map[]) == map[];
    }
  }
}
