/**
 The record search (strategyos_mvp/citation_resolver.py): a bounded depth-first search, on an
 explicit stack, for the one JSON object that carries a given identifier.
 */
module RecordSearch {
  import opened Options
  import opened Strings
  import opened Json
  import opened Seqs

  const MAX_VISITED: nat := 10000
  const MAX_DEPTH: nat := 30

  /** [A-Za-z0-9][A-Za-z0-9_.:-]{0,159} */
  predicate IsLocator(s: string) {
    && 1 <= |s| <= 160 && IsAlnum(s[0])
    && forall i :: 1 <= i < |s| ==> IsAlnum(s[i]) || s[i] == '_' || s[i] == '.' || s[i] == ':' || s[i] == '-'
  }

  predicate IsIdName(name: string) {
    name == "id" || (|name| >= 3 && name[|name| - 3..] == "_id")
  }

  /** An object with an id field whose value is the locator. */
  predicate Carries(j: Json, locator: string) {
    j.JObject? && exists i :: 0 <= i < |j.fields| && IsIdName(j.fields[i].name) && j.fields[i].value == JString(locator)
  }

  predicate IsContainer(j: Json) { j.JObject? || j.JList? }

  /** A letter or digit, followed by at most 159 letters, digits, underscores, dots, colons and hyphens. */
  lemma LocatorsExactly(s: string)
    ensures IsLocator(s) <==>
            exists c, rest :: s == [c] + rest && IsAlnum(c) && |rest| <= 159
                              && forall d :: d in rest ==> IsAlnum(d) || d in ['_', '.', ':', '-']
  {
    if IsLocator(s) {
      assert s == [s[0]] + s[1..];
    }
    forall c, rest | s == [c] + rest && IsAlnum(c) && |rest| <= 159
                     && forall d :: d in rest ==> IsAlnum(d) || d in ['_', '.', ':', '-']
      ensures IsLocator(s)
    {
      assert forall i :: 1 <= i < |s| ==> s[i] == rest[i - 1] && rest[i - 1] in rest;
    }
  }

  /** An object carries a locator in an entry named id, or ending in _id, whose value is that text. */
  lemma CarriesExactly(j: Json, locator: string)
    ensures Carries(j, locator) <==>
            exists fields, f: Field :: j == JObject(fields) && f in fields && f.value == JString(locator)
                                && (f.name == "id" || exists stem :: f.name == stem + "_id")
  {
    forall name ensures IsIdName(name) <==> name == "id" || exists stem :: name == stem + "_id" {
      if IsIdName(name) && name != "id" {
        assert name == name[..|name| - 3] + "_id";
      }
    }
    if Carries(j, locator) {
      assert j == JObject(j.fields);
    }
  }

  // ----- The meaning: a recursive survey of the tree -----

  /** Containers in a tree, how deep the deepest one lies below the root, and the objects that carry the locator. */
  datatype Survey = Survey(nodes: nat, height: nat, matches: multiset<Json>)

  /** The same for a forest, one level up: `reach` counts levels from the parent. */
  datatype Forest = Forest(nodes: nat, reach: nat, matches: multiset<Json>)

  function Plant(s: Survey, f: Forest): Forest {
    Forest(s.nodes + f.nodes, if s.height + 1 > f.reach then s.height + 1 else f.reach, s.matches + f.matches)
  }

  function Root(j: Json, locator: string, below: Forest): Survey {
    Survey(1 + below.nodes, below.reach, (if Carries(j, locator) then multiset{j} else multiset{}) + below.matches)
  }

  function SurveyOf(j: Json, locator: string): Survey
    decreases j, 1
  {
    match j
    case JList(items) => Root(j, locator, SurveyItems(items, locator))
    case JObject(fields) => Root(j, locator, SurveyFields(fields, locator))
    case _ => Root(j, locator, Forest(0, 0, multiset{}))
  }

  function SurveyItems(items: seq<Json>, locator: string): Forest
    decreases items, 0
  {
    if items == [] then Forest(0, 0, multiset{})
    else
      var rest := SurveyItems(items[1..], locator);
      if IsContainer(items[0]) then Plant(SurveyOf(items[0], locator), rest) else rest
  }

  function SurveyFields(fields: seq<Field>, locator: string): Forest
    decreases fields, 0
  {
    if fields == [] then Forest(0, 0, multiset{})
    else
      var rest := SurveyFields(fields[1..], locator);
      if IsContainer(fields[0].value) then Plant(SurveyOf(fields[0].value, locator), rest) else rest
  }

  // ----- The search -----

  function Containers(items: seq<Json>): seq<Json> {
    if items == [] then [] else (if IsContainer(items[0]) then [items[0]] else []) + Containers(items[1..])
  }

  function Values(fields: seq<Field>): seq<Json> {
    if fields == [] then [] else [fields[0].value] + Values(fields[1..])
  }

  /** The values the search descends into. */
  function Kids(j: Json): seq<Json> {
    match j
    case JList(items) => Containers(items)
    case JObject(fields) => Containers(Values(fields))
    case _ => []
  }

  datatype Pending = Pending(json: Json, depth: nat)

  function Pushed(kids: seq<Json>, depth: nat): seq<Pending> {
    if kids == [] then [] else [Pending(kids[0], depth)] + Pushed(kids[1..], depth)
  }

  ghost function SurveyAll(kids: seq<Json>, locator: string): Forest {
    if kids == [] then Forest(0, 0, multiset{}) else Plant(SurveyOf(kids[0], locator), SurveyAll(kids[1..], locator))
  }

  lemma {:induction false} ItemsAreContainers(items: seq<Json>, locator: string)
    ensures SurveyItems(items, locator) == SurveyAll(Containers(items), locator)
  {
    if items != [] {
      ItemsAreContainers(items[1..], locator);
      assert [] + Containers(items[1..]) == Containers(items[1..]);
      if IsContainer(items[0]) {
        assert ([items[0]] + Containers(items[1..]))[1..] == Containers(items[1..]);
      }
    }
  }

  lemma {:induction false} FieldsAreValues(fields: seq<Field>, locator: string)
    ensures SurveyFields(fields, locator) == SurveyItems(Values(fields), locator)
  {
    if fields != [] {
      FieldsAreValues(fields[1..], locator);
      assert ([fields[0].value] + Values(fields[1..]))[1..] == Values(fields[1..]);
    }
  }

  /** A tree is its root and the trees below it. */
  lemma SurveyIsRootAndKids(j: Json, locator: string)
    ensures SurveyOf(j, locator) == Root(j, locator, SurveyAll(Kids(j), locator))
  {
    match j
    case JList(items) => ItemsAreContainers(items, locator);
    case JObject(fields) =>
      FieldsAreValues(fields, locator);
      ItemsAreContainers(Values(fields), locator);
    case _ =>
  }

  // ----- The survey, told from the paths of the tree -----

  /** The root, and every path that leads to an object or a list. */
  ghost predicate Leads(j: Json, path: Path) {
    path == [] || exists v :: At(j, path) == Some(v) && (v.JObject? || v.JList?)
  }

  function LeadsTo(j: Json, v: Json): Path -> bool {
    path => At(j, path) == Some(v)
  }

  function LeadsToCarrier(j: Json, locator: string): Path -> bool {
    path => At(j, path).Some? && Carries(At(j, path).value, locator)
  }

  ghost predicate Distinct(paths: seq<Path>) {
    forall i, k :: 0 <= i < k < |paths| ==> paths[i] != paths[k]
  }

  /** Some paths from `j`, counted: how many, how many of them to a carrier, and how many to each single one. */
  ghost predicate Counted(j: Json, locator: string, paths: seq<Path>, nodes: nat, matches: multiset<Json>) {
    && Distinct(paths) && |paths| == nodes
    && |Filter(paths, LeadsToCarrier(j, locator))| == |matches|
    && forall v :: matches[v] == if Carries(v, locator) then |Filter(paths, LeadsTo(j, v))| else 0
  }

  /** A height that bounds the paths and is reached. */
  ghost predicate Reached(paths: seq<Path>, height: nat) {
    (forall p :: p in paths ==> |p| <= height) && (height > 0 ==> exists p :: p in paths && |p| == height)
  }

  lemma DistinctTogether(a: seq<Path>, b: seq<Path>)
    requires Distinct(a) && Distinct(b) && forall p :: p in a ==> p !in b
    ensures Distinct(a + b)
  {
    forall i, k | 0 <= i < k < |a + b| ensures (a + b)[i] != (a + b)[k] {
      if i < |a| <= k {
        assert a[i] in a && b[k - |a|] in b;
      }
    }
  }

  lemma CountedTogether(j: Json, locator: string, a: seq<Path>, m: nat, x: multiset<Json>,
                        b: seq<Path>, n: nat, y: multiset<Json>)
    requires Counted(j, locator, a, m, x) && Counted(j, locator, b, n, y)
    requires forall p :: p in a ==> p !in b
    ensures Counted(j, locator, a + b, m + n, x + y)
  {
    DistinctTogether(a, b);
    FilterOfConcat(a, b, LeadsToCarrier(j, locator));
    forall v ensures |Filter(a + b, LeadsTo(j, v))| == |Filter(a, LeadsTo(j, v))| + |Filter(b, LeadsTo(j, v))| {
      FilterOfConcat(a, b, LeadsTo(j, v));
    }
  }

  /** The same paths, from one level up. */
  function Under(p: Position, paths: seq<Path>): seq<Path> {
    if paths == [] then [] else Under(p, paths[..|paths| - 1]) + [[p] + paths[|paths| - 1]]
  }

  lemma {:induction false} UnderAt(p: Position, paths: seq<Path>)
    ensures |Under(p, paths)| == |paths|
    ensures forall i :: 0 <= i < |paths| ==> Under(p, paths)[i] == [p] + paths[i]
  {
    if paths != [] {
      UnderAt(p, paths[..|paths| - 1]);
    }
  }

  lemma {:induction false} FilterUnder(p: Position, paths: seq<Path>, above: Path -> bool, below: Path -> bool)
    requires forall path :: above([p] + path) == below(path)
    ensures |Filter(Under(p, paths), above)| == |Filter(paths, below)|
  {
    if paths != [] {
      var init, last := paths[..|paths| - 1], paths[|paths| - 1];
      FilterUnder(p, init, above, below);
      FilterAppend(Under(p, init), [p] + last, above);
    }
  }

  lemma AtUnder(j: Json, p: Position, kid: Json, path: Path)
    requires Child(j, p) == Some(kid)
    ensures At(j, [p] + path) == At(kid, path)
  {
    assert ([p] + path)[1..] == path;
  }

  lemma CountedUnder(j: Json, p: Position, kid: Json, locator: string, paths: seq<Path>, n: nat, x: multiset<Json>)
    requires Child(j, p) == Some(kid) && Counted(kid, locator, paths, n, x)
    ensures Counted(j, locator, Under(p, paths), n, x)
  {
    UnderAt(p, paths);
    forall path ensures At(j, [p] + path) == At(kid, path) {
      AtUnder(j, p, kid, path);
    }
    FilterUnder(p, paths, LeadsToCarrier(j, locator), LeadsToCarrier(kid, locator));
    forall v ensures |Filter(Under(p, paths), LeadsTo(j, v))| == |Filter(paths, LeadsTo(kid, v))| {
      FilterUnder(p, paths, LeadsTo(j, v), LeadsTo(kid, v));
    }
  }

  // What the survey descends into, as positions below a node: the fields of an object or the items of a list.

  function Place(j: Json, n: nat): Position {
    if j.JObject? then AtField(n) else AtItem(n)
  }

  ghost predicate Holds(j: Json, values: seq<Json>) {
    && IsContainer(j)
    && forall p :: Child(j, p) == if p == Place(j, p.n) && p.n < |values| then Some(values[p.n]) else None
  }

  /** The leading paths that go below a node at its k-th value or a later one. */
  ghost predicate Below(j: Json, k: nat, path: Path) {
    path != [] && path[0].n >= k && Leads(j, path)
  }

  /** A list of exactly those paths, counted. */
  ghost predicate Listed(j: Json, locator: string, k: nat, paths: seq<Path>, f: Forest) {
    && Counted(j, locator, paths, f.nodes, f.matches) && Reached(paths, f.reach)
    && forall p :: p in paths <==> Below(j, k, p)
  }

  /** A list of all leading paths, counted. */
  ghost predicate Surveyed(j: Json, locator: string, paths: seq<Path>) {
    var s := SurveyOf(j, locator);
    && Counted(j, locator, paths, s.nodes, s.matches) && Reached(paths, s.height)
    && forall p :: p in paths <==> Leads(j, p)
  }

  lemma LeadsUnder(j: Json, p: Position, kid: Json, path: Path)
    requires Child(j, p) == Some(kid)
    ensures Leads(j, [p] + path) <==> Leads(kid, path) && (kid.JObject? || kid.JList?)
  {
    AtUnder(j, p, kid, path);
    if path != [] && !kid.JObject? && !kid.JList? {
      assert Child(kid, path[0]) == None;
    }
  }

  lemma BelowNext(j: Json, values: seq<Json>, k: nat, path: Path)
    requires Holds(j, values) && k < |values|
    ensures Below(j, k, path) <==>
            || Below(j, k + 1, path)
            || (path != [] && path[0] == Place(j, k) && (values[k].JObject? || values[k].JList?)
                && Leads(values[k], path[1..]))
  {
    if path != [] && path[0].n == k {
      assert path == [path[0]] + path[1..];
      if path[0] == Place(j, k) {
        LeadsUnder(j, path[0], values[k], path[1..]);
      } else {
        assert Child(j, path[0]) == None;
      }
    }
  }

  lemma NothingListed(j: Json, locator: string, values: seq<Json>)
    requires Holds(j, values)
    ensures Listed(j, locator, |values|, [], Forest(0, 0, multiset{}))
  {
    forall path: Path ensures !Below(j, |values|, path) {
      if path != [] && path[0].n >= |values| {
        assert Child(j, path[0]) == None;
      }
    }
  }

  lemma KidListed(j: Json, locator: string, values: seq<Json>, k: nat, own: seq<Path>, rest: seq<Path>, f: Forest)
    requires Holds(j, values) && k < |values| && IsContainer(values[k])
    requires Surveyed(values[k], locator, own) && Listed(j, locator, k + 1, rest, f)
    ensures Listed(j, locator, k, Under(Place(j, k), own) + rest, Plant(SurveyOf(values[k], locator), f))
  {
    var p, kid := Place(j, k), values[k];
    var s, under := SurveyOf(kid, locator), Under(p, own);
    assert Counted(j, locator, under + rest, s.nodes + f.nodes, s.matches + f.matches) by {
      CountedUnder(j, p, kid, locator, own, s.nodes, s.matches);
      MembersUnder(p, own);
      CountedTogether(j, locator, under, s.nodes, s.matches, rest, f.nodes, f.matches);
    }
    assert Reached(under + rest, if s.height + 1 > f.reach then s.height + 1 else f.reach) by {
      ReachedUnder(p, own, s.height, rest, f.reach);
    }
    forall path ensures path in under + rest <==> Below(j, k, path) {
      BelowNext(j, values, k, path);
      MembersUnder(p, own);
    }
  }

  lemma MembersUnder(p: Position, paths: seq<Path>)
    ensures forall path :: path in Under(p, paths) <==> path != [] && path[0] == p && path[1..] in paths
  {
    UnderAt(p, paths);
    forall path | path != [] && path[0] == p && path[1..] in paths ensures path in Under(p, paths) {
      var i :| 0 <= i < |paths| && paths[i] == path[1..];
      assert Under(p, paths)[i] == [p] + path[1..] == path;
    }
    forall path | path in Under(p, paths) ensures path != [] && path[0] == p && path[1..] in paths {
      var i :| 0 <= i < |paths| && Under(p, paths)[i] == path;
      assert ([p] + paths[i])[1..] == paths[i];
    }
  }

  lemma ReachedUnder(p: Position, own: seq<Path>, height: nat, rest: seq<Path>, reach: nat)
    requires Reached(own, height) && Reached(rest, reach) && [] in own
    ensures Reached(Under(p, own) + rest, if height + 1 > reach then height + 1 else reach)
  {
    MembersUnder(p, own);
    var all := Under(p, own) + rest;
    forall path | path in all ensures |path| <= (if height + 1 > reach then height + 1 else reach) {
      if path in Under(p, own) {
        assert path[1..] in own;
      }
    }
    if height + 1 > reach {
      var tall := if height > 0 then (var q :| q in own && |q| == height; q) else [];
      assert ([p] + tall)[1..] == tall && [p] + tall in Under(p, own);
      assert [p] + tall in all && |[p] + tall| == height + 1;
    } else {
      var tall :| tall in rest && |tall| == reach;
      assert tall in all;
    }
  }

  lemma SkippedListed(j: Json, locator: string, values: seq<Json>, k: nat, rest: seq<Path>, f: Forest)
    requires Holds(j, values) && k < |values| && !IsContainer(values[k]) && Listed(j, locator, k + 1, rest, f)
    ensures Listed(j, locator, k, rest, f)
  {
    forall path ensures Below(j, k, path) <==> Below(j, k + 1, path) {
      BelowNext(j, values, k, path);
    }
  }

  /** The paths below a node, from its k-th value on, are what the survey of those values counts. */
  lemma ListBelow(j: Json, locator: string, values: seq<Json>, k: nat) returns (paths: seq<Path>)
    requires Holds(j, values) && k <= |values| && forall i :: 0 <= i < |values| ==> values[i] < j
    ensures Listed(j, locator, k, paths, SurveyItems(values[k..], locator))
    decreases j, 0, |values| - k
  {
    if k == |values| {
      NothingListed(j, locator, values);
      paths := [];
    } else {
      paths := ListBelow(j, locator, values, k + 1);
      assert values[k..][1..] == values[k + 1..];
      if IsContainer(values[k]) {
        var own := ListPaths(values[k], locator);
        KidListed(j, locator, values, k, own, paths, SurveyItems(values[k + 1..], locator));
        paths := Under(Place(j, k), own) + paths;
      } else {
        SkippedListed(j, locator, values, k, paths, SurveyItems(values[k + 1..], locator));
      }
    }
  }

  lemma RootListed(j: Json, locator: string, below: seq<Path>, f: Forest)
    requires Listed(j, locator, 0, below, f) && SurveyOf(j, locator) == Root(j, locator, f)
    ensures Surveyed(j, locator, [[]] + below)
  {
    var root: Path := [];
    var own := if Carries(j, locator) then multiset{j} else multiset{};
    assert Counted(j, locator, [root] + below, 1 + f.nodes, own + f.matches) by {
      RootCounted(j, locator);
      assert !Below(j, 0, root);
      CountedTogether(j, locator, [root], 1, own, below, f.nodes, f.matches);
    }
    assert Reached([root] + below, f.reach) by {
      ReachedFromRoot(below, f.reach);
    }
    assert forall path: Path :: path in [root] + below <==> Leads(j, path) by {
      RootLeads(j, below);
    }
  }

  lemma RootLeads(j: Json, below: seq<Path>)
    requires forall p :: p in below <==> Below(j, 0, p)
    ensures forall path: Path :: path in [[]] + below <==> Leads(j, path)
  {
  }

  lemma ReachedFromRoot(below: seq<Path>, reach: nat)
    requires Reached(below, reach)
    ensures Reached([[]] + below, reach)
  {
    assert forall path :: path in below ==> path in [[]] + below;
  }

  lemma RootCounted(j: Json, locator: string)
    ensures Counted(j, locator, [[]], 1, if Carries(j, locator) then multiset{j} else multiset{})
  {
    var root: Path := [];
    FilterSingle(root, LeadsToCarrier(j, locator));
    forall v ensures |Filter([root], LeadsTo(j, v))| == if v == j then 1 else 0 {
      FilterSingle(root, LeadsTo(j, v));
    }
  }

  /** The leading paths of a tree are what its survey counts: its nodes are their number, its height is their greatest
      length, and a carrier is matched as often as paths lead to it. */
  lemma ListPaths(j: Json, locator: string) returns (paths: seq<Path>)
    ensures Surveyed(j, locator, paths)
    decreases j, 1
  {
    var below, f := [], Forest(0, 0, multiset{});
    match j {
      case JList(items) =>
        HoldsItems(items);
        assert items[0..] == items;
        below := ListBelow(j, locator, items, 0);
        f := SurveyItems(items, locator);
      case JObject(fields) =>
        HoldsValues(fields);
        FieldsAreValues(fields, locator);
        assert Values(fields)[0..] == Values(fields);
        below := ListBelow(j, locator, Values(fields), 0);
        f := SurveyFields(fields, locator);
      case _ =>
        NothingBelow(j, locator);
    }
    RootListed(j, locator, below, f);
    paths := [[]] + below;
  }

  lemma HoldsItems(items: seq<Json>)
    ensures Holds(JList(items), items)
    ensures forall i :: 0 <= i < |items| ==> items[i] < JList(items)
  {
  }

  lemma HoldsValues(fields: seq<Field>)
    ensures Holds(JObject(fields), Values(fields))
    ensures forall i :: 0 <= i < |Values(fields)| ==> Values(fields)[i] < JObject(fields)
  {
    ValuesAt(fields);
    forall i | 0 <= i < |fields| ensures fields[i].value < JObject(fields) {
      assert fields[i] < JObject(fields);
    }
  }

  lemma NothingBelow(j: Json, locator: string)
    requires !IsContainer(j)
    ensures Listed(j, locator, 0, [], Forest(0, 0, multiset{}))
  {
    forall path: Path ensures !Below(j, 0, path) {
      if path != [] {
        assert Child(j, path[0]) == None;
      }
    }
  }

  lemma {:induction false} ValuesAt(fields: seq<Field>)
    ensures |Values(fields)| == |fields|
    ensures forall i :: 0 <= i < |fields| ==> Values(fields)[i] == fields[i].value
  {
    if fields != [] {
      ValuesAt(fields[1..]);
    }
  }

  ghost function NodesIn(pending: seq<Pending>, locator: string): nat {
    if pending == [] then 0
    else NodesIn(pending[..|pending| - 1], locator) + SurveyOf(pending[|pending| - 1].json, locator).nodes
  }

  ghost function MatchesIn(pending: seq<Pending>, locator: string): multiset<Json> {
    if pending == [] then multiset{}
    else MatchesIn(pending[..|pending| - 1], locator) + SurveyOf(pending[|pending| - 1].json, locator).matches
  }

  /** The deepest level the pending trees reach, 0 when there are none. */
  ghost function DepthIn(pending: seq<Pending>, locator: string): nat {
    if pending == [] then 0
    else
      var p := pending[|pending| - 1];
      var rest, own := DepthIn(pending[..|pending| - 1], locator), p.depth + SurveyOf(p.json, locator).height;
      if own > rest then own else rest
  }

  lemma PendingAppend(pending: seq<Pending>, p: Pending, locator: string)
    ensures NodesIn(pending + [p], locator) == NodesIn(pending, locator) + SurveyOf(p.json, locator).nodes
    ensures MatchesIn(pending + [p], locator) == MatchesIn(pending, locator) + SurveyOf(p.json, locator).matches
    ensures DepthIn(pending + [p], locator) ==
            var own := p.depth + SurveyOf(p.json, locator).height;
            if own > DepthIn(pending, locator) then own else DepthIn(pending, locator)
  {
    assert (pending + [p])[..|pending|] == pending;
  }

  /** Pushing the kids of a node, one level below it, adds their forest. */
  lemma {:induction false} PushAddsForest(pending: seq<Pending>, kids: seq<Json>, depth: nat, locator: string)
    ensures var pushed, forest := pending + Pushed(kids, depth + 1), SurveyAll(kids, locator);
            && NodesIn(pushed, locator) == NodesIn(pending, locator) + forest.nodes
            && MatchesIn(pushed, locator) == MatchesIn(pending, locator) + forest.matches
            && DepthIn(pushed, locator) ==
               if kids != [] && depth + forest.reach > DepthIn(pending, locator) then depth + forest.reach
               else DepthIn(pending, locator)
    decreases |kids|
  {
    if kids == [] {
      assert pending + Pushed(kids, depth + 1) == pending;
    } else {
      var p := Pending(kids[0], depth + 1);
      assert pending + Pushed(kids, depth + 1) == pending + [p] + Pushed(kids[1..], depth + 1);
      PendingAppend(pending, p, locator);
      PushAddsForest(pending + [p], kids[1..], depth, locator);
    }
  }

  /** Within the bounds and with exactly one match. */
  ghost predicate Fits(s: Survey) {
    s.nodes <= MAX_VISITED && s.height <= MAX_DEPTH && |s.matches| == 1
  }

  ghost predicate Unique(root: Json, locator: string) {
    Fits(SurveyOf(root, locator))
  }

  /** The one path that leads to a carrier. */
  ghost predicate OnlyCarrier(root: Json, locator: string, path: Path) {
    && LeadsToCarrier(root, locator)(path)
    && forall other :: LeadsToCarrier(root, locator)(other) ==> other == path
  }

  /** No leading path is longer than the depth allowed, and no more lead than may be visited. */
  ghost predicate Bounded(root: Json) {
    && (forall path :: Leads(root, path) ==> |path| <= 30)
    && (forall paths :: Distinct(paths) && (forall path :: path in paths ==> Leads(root, path)) ==>
          |paths| <= 10000)
  }

  lemma {:induction false} DistinctSize(paths: seq<Path>)
    requires Distinct(paths)
    ensures |set path | path in paths| == |paths|
  {
    if paths != [] {
      var init, last := paths[..|paths| - 1], paths[|paths| - 1];
      DistinctSize(init);
      assert (set path | path in paths) == (set path | path in init) + {last};
    }
  }

  lemma NoMore(paths: seq<Path>, all: seq<Path>)
    requires Distinct(paths) && Distinct(all) && forall path :: path in paths ==> path in all
    ensures |paths| <= |all|
  {
    DistinctSize(paths);
    DistinctSize(all);
    Smaller((set path | path in paths), (set path | path in all));
  }

  lemma {:induction false} Smaller(a: set<Path>, b: set<Path>)
    requires a <= b
    ensures |a| <= |b|
  {
    assert b == a + (b - a);
  }

  lemma BoundedExactly(root: Json, locator: string, paths: seq<Path>)
    requires Surveyed(root, locator, paths)
    ensures Bounded(root) <==>
            SurveyOf(root, locator).nodes <= MAX_VISITED && SurveyOf(root, locator).height <= MAX_DEPTH
  {
    assert forall path :: path in paths ==> Leads(root, path);
    forall some | Distinct(some) && (forall path :: path in some ==> Leads(root, path)) ensures |some| <= |paths| {
      NoMore(some, paths);
    }
  }

  lemma CarriersLead(root: Json, locator: string, path: Path)
    requires LeadsToCarrier(root, locator)(path)
    ensures Leads(root, path)
  {
  }

  lemma OnlyCarrierIsOne(root: Json, locator: string, paths: seq<Path>, path: Path)
    requires Surveyed(root, locator, paths) && OnlyCarrier(root, locator, path)
    ensures |Filter(paths, LeadsToCarrier(root, locator))| == 1
    ensures At(root, path).Some? && At(root, path).value in SurveyOf(root, locator).matches
  {
    CarriersLead(root, locator, path);
    var i :| 0 <= i < |paths| && paths[i] == path;
    FilterOnly(paths, LeadsToCarrier(root, locator), i);
    assert path in Filter(paths, LeadsTo(root, At(root, path).value));
  }

  lemma OneIsOnlyCarrier(root: Json, locator: string, paths: seq<Path>) returns (path: Path)
    requires Surveyed(root, locator, paths) && |Filter(paths, LeadsToCarrier(root, locator))| == 1
    ensures OnlyCarrier(root, locator, path)
  {
    var i := FilterOne(paths, LeadsToCarrier(root, locator));
    path := paths[i];
    forall other | LeadsToCarrier(root, locator)(other) ensures other == path {
      CarriersLead(root, locator, other);
    }
  }

  /** One match is one path to a carrier, and the match is what it leads to. */
  lemma OneMatch(root: Json, locator: string, paths: seq<Path>)
    requires Surveyed(root, locator, paths)
    ensures |SurveyOf(root, locator).matches| == 1 <==> exists path :: OnlyCarrier(root, locator, path)
    ensures forall path :: OnlyCarrier(root, locator, path) ==>
              At(root, path).Some? && At(root, path).value in SurveyOf(root, locator).matches
  {
    forall path | OnlyCarrier(root, locator, path)
      ensures |Filter(paths, LeadsToCarrier(root, locator))| == 1
      ensures At(root, path).Some? && At(root, path).value in SurveyOf(root, locator).matches
    {
      OnlyCarrierIsOne(root, locator, paths, path);
    }
    if |Filter(paths, LeadsToCarrier(root, locator))| == 1 {
      var path := OneIsOnlyCarrier(root, locator, paths);
    }
  }

  /** A tree fits exactly when it is within the bounds and exactly one of its paths leads to a carrier. */
  lemma UniqueExactly(root: Json, locator: string)
    ensures Unique(root, locator) <==> Bounded(root) && exists path :: OnlyCarrier(root, locator, path)
    ensures forall path :: Unique(root, locator) && OnlyCarrier(root, locator, path) ==>
              At(root, path).Some? && SurveyOf(root, locator).matches == multiset{At(root, path).value}
  {
    var paths := ListPaths(root, locator);
    BoundedExactly(root, locator, paths);
    OneMatch(root, locator, paths);
    forall path | Unique(root, locator) && OnlyCarrier(root, locator, path)
      ensures SurveyOf(root, locator).matches == multiset{At(root, path).value}
    {
      TheOne(SurveyOf(root, locator).matches, At(root, path).value);
    }
  }

  lemma TheOne(m: multiset<Json>, v: Json)
    requires |m| == 1 && v in m
    ensures m == multiset{v}
  {
    assert m == multiset{v} + (m - multiset{v});
  }

  /** The search of a document; None stands for a file that is missing, changed or not JSON. */
  method ResolveRecord(document: Option<Json>, locator: string) returns (r: Option<Json>)
    ensures r.Some? <==>
            && IsLocator(locator) && document.Some? && Bounded(document.value)
            && exists path :: OnlyCarrier(document.value, locator, path)
    ensures r.Some? ==> forall path :: OnlyCarrier(document.value, locator, path) ==> At(document.value, path) == r
  {
    if !IsLocator(locator) || document.None? {
      return None;
    }
    r := Search(document.value, locator);
    UniqueExactly(document.value, locator);
  }

  /** Loop invariant of the search: what is done and what is pending make up the whole tree. */
  ghost predicate Searching(whole: Survey, locator: string, visited: nat, found: seq<Json>, pending: seq<Pending>) {
    && visited + NodesIn(pending, locator) == whole.nodes
    && multiset(found) + MatchesIn(pending, locator) == whole.matches
    && (whole.height > MAX_DEPTH <==> DepthIn(pending, locator) > MAX_DEPTH)
  }

  function Found(found: seq<Json>, j: Json, locator: string): seq<Json> {
    if Carries(j, locator) then found + [j] else found
  }

  // A pending tree is exchanged for its root and the trees below it.

  ghost predicate MadeOf(p: Pending, kids: seq<Json>, locator: string) {
    SurveyOf(p.json, locator) == Root(p.json, locator, SurveyAll(kids, locator))
  }

  lemma ExchangeNodes(locator: string, rest: seq<Pending>, p: Pending, kids: seq<Json>)
    requires MadeOf(p, kids, locator)
    ensures NodesIn(rest + [p], locator) == 1 + NodesIn(rest + Pushed(kids, p.depth + 1), locator)
  {
    PendingAppend(rest, p, locator);
    PushAddsForest(rest, kids, p.depth, locator);
  }

  lemma ExchangeMatches(locator: string, rest: seq<Pending>, p: Pending, kids: seq<Json>)
    requires MadeOf(p, kids, locator)
    ensures MatchesIn(rest + [p], locator)
         == (if Carries(p.json, locator) then multiset{p.json} else multiset{})
            + MatchesIn(rest + Pushed(kids, p.depth + 1), locator)
  {
    PendingAppend(rest, p, locator);
    PushAddsForest(rest, kids, p.depth, locator);
  }

  lemma ExchangeDepth(locator: string, rest: seq<Pending>, p: Pending, kids: seq<Json>)
    requires MadeOf(p, kids, locator)
    ensures DepthIn(rest + [p], locator) >= p.depth
    ensures var below := DepthIn(rest + Pushed(kids, p.depth + 1), locator);
            DepthIn(rest + [p], locator) == if p.depth > below then p.depth else below
  {
    PendingAppend(rest, p, locator);
    PushAddsForest(rest, kids, p.depth, locator);
    assert kids == [] ==> SurveyAll(kids, locator).reach == 0;
  }

  lemma Exchange(locator: string, rest: seq<Pending>, p: Pending)
    ensures var pending := rest + Pushed(Kids(p.json), p.depth + 1);
            && NodesIn(rest + [p], locator) == 1 + NodesIn(pending, locator)
            && MatchesIn(rest + [p], locator)
               == (if Carries(p.json, locator) then multiset{p.json} else multiset{}) + MatchesIn(pending, locator)
            && DepthIn(rest + [p], locator) >= p.depth
            && DepthIn(rest + [p], locator)
               == if p.depth > DepthIn(pending, locator) then p.depth else DepthIn(pending, locator)
  {
    SurveyIsRootAndKids(p.json, locator);
    ExchangeNodes(locator, rest, p, Kids(p.json));
    ExchangeMatches(locator, rest, p, Kids(p.json));
    ExchangeDepth(locator, rest, p, Kids(p.json));
  }

  /** Visiting a node moves it from pending to done, or shows that the tree does not fit. */
  lemma Visit(whole: Survey, locator: string, visited: nat, found: seq<Json>, rest: seq<Pending>, p: Pending)
    requires Searching(whole, locator, visited, found, rest + [p])
    ensures visited + 1 > MAX_VISITED || p.depth > MAX_DEPTH || |Found(found, p.json, locator)| > 1 ==> !Fits(whole)
    ensures var pending := rest + Pushed(Kids(p.json), p.depth + 1);
            && NodesIn(pending, locator) < NodesIn(rest + [p], locator)
            && (p.depth <= MAX_DEPTH ==> Searching(whole, locator, visited + 1, Found(found, p.json, locator), pending))
  {
    Exchange(locator, rest, p);
    Larger(Found(found, p.json, locator), whole.matches);
  }

  lemma Larger(found: seq<Json>, matches: multiset<Json>)
    requires multiset(found) <= matches
    ensures |found| <= |matches|
  {
    assert matches == multiset(found) + (matches - multiset(found));
  }

  lemma StartSearch(root: Json, locator: string)
    ensures Searching(SurveyOf(root, locator), locator, 0, [], [Pending(root, 0)])
  {
    PendingAppend([], Pending(root, 0), locator);
    assert [] + [Pending(root, 0)] == [Pending(root, 0)];
  }

  lemma EndSearch(whole: Survey, locator: string, visited: nat, found: seq<Json>)
    requires Searching(whole, locator, visited, found, []) && visited <= MAX_VISITED
    ensures Fits(whole) <==> |found| == 1
    ensures |found| == 1 ==> whole.matches == multiset{found[0]}
  {
    assert |multiset(found)| == |found|;
    if |found| == 1 {
      assert found == [found[0]];
    }
  }

  method Search(root: Json, locator: string) returns (r: Option<Json>)
    ensures r.Some? <==> Unique(root, locator)
    ensures r.Some? ==> SurveyOf(root, locator).matches == multiset{r.value} && Carries(r.value, locator)
  {
    ghost var whole := SurveyOf(root, locator);
    var pending := [Pending(root, 0)];
    var found: seq<Json> := [];
    var visited := 0;
    StartSearch(root, locator);
    while pending != []
      invariant Searching(whole, locator, visited, found, pending)
      invariant visited <= MAX_VISITED
      invariant forall j :: j in found ==> Carries(j, locator)
      decreases NodesIn(pending, locator)
    {
      var p := pending[|pending| - 1];
      assert pending == pending[..|pending| - 1] + [p];
      pending := pending[..|pending| - 1];
      Visit(whole, locator, visited, found, pending, p);
      visited := visited + 1;
      if visited > MAX_VISITED || p.depth > MAX_DEPTH {
        return None;
      }
      if Carries(p.json, locator) {
        found := found + [p.json];
        if |found| > 1 {
          return None;
        }
      }
      pending := pending + Pushed(Kids(p.json), p.depth + 1);
    }
    EndSearch(whole, locator, visited, found);
    if |found| != 1 {
      return None;
    }
    return Some(found[0]);
  }
}
