/**
 What counts as evidence for a numerical claim (strategyos_mvp/claim_contracts.py): the lines drawn
 from a JSON value, in which questions and conversation history have no part.
 */
module ApprovedEvidence {
  import opened Options
  import opened Strings
  import opened Json

  const EXCLUDED: set<string> :=
    {"question", "prompt", "history", "conversation_history", "driver_context", "assistant_context"}

  predicate Excluded(name: string) { Lower(name) in EXCLUDED }

  /** The text of a currency entry that is no string, and the delta lines that regular expressions find in a text. */
  datatype Reader = Reader(currencyText: Json -> string, deltas: string -> seq<string>)

  predicate EndsWith(s: string, end: string) {
    |end| <= |s| && s[|s| - |end|..] == end
  }

  predicate Contains(s: string, part: string) {
    |part| <= |s| && (s[..|part|] == part || (s != "" && Contains(s[1..], part)))
  }

  /** The currency a number inherits from its object, "" when there is none. */
  function CurrencyOf(r: Reader, fields: seq<Field>): string {
    match Lookup(fields, "currency")
    case None => ""
    case Some(JNull) => ""
    case Some(JString(s)) => Upper(s)
    case Some(other) => Upper(r.currencyText(other))
  }

  /** The line that gives a number the unit its name or its object supplies. */
  function Typed(f: Field, currency: string): seq<string> {
    if !f.value.JNumber? then []
    else
      var unit := if Contains(Lower(f.name), "sar") then "SAR" else currency;
      if EndsWith(f.name, "_pct") || EndsWith(f.name, "_percent") then [f.value.text + "%"]
      else if unit != "" then [unit + " " + f.value.text]
      else []
  }

  /** approved_evidence_text */
  function Evidence(r: Reader, v: Json): seq<string>
    decreases v, 1
  {
    match v
    case JObject(fields) => EvidenceOfFields(r, CurrencyOf(r, fields), fields)
    case JList(items) => EvidenceOfItems(r, items)
    case JString(s) => [s] + r.deltas(s)
    case JNumber(text) => [text] + r.deltas(text)
    case _ => []
  }

  function EvidenceOfFields(r: Reader, currency: string, fields: seq<Field>): seq<string>
    decreases fields, 0
  {
    if fields == [] then []
    else if Excluded(fields[0].name) then EvidenceOfFields(r, currency, fields[1..])
    else Typed(fields[0], currency) + Evidence(r, fields[0].value) + EvidenceOfFields(r, currency, fields[1..])
  }

  function EvidenceOfItems(r: Reader, items: seq<Json>): seq<string>
    decreases items, 0
  {
    if items == [] then [] else Evidence(r, items[0]) + EvidenceOfItems(r, items[1..])
  }

  lemma NextField(r: Reader, currency: string, fields: seq<Field>, i: nat, result: seq<string>)
    requires i < |fields|
    ensures result + EvidenceOfFields(r, currency, fields[i..])
         == (if Excluded(fields[i].name)
             then result
             else result + Typed(fields[i], currency) + Evidence(r, fields[i].value))
            + EvidenceOfFields(r, currency, fields[i + 1..])
  {
    assert fields[i..][1..] == fields[i + 1..];
    var typed, more := Typed(fields[i], currency), Evidence(r, fields[i].value);
    var rest := EvidenceOfFields(r, currency, fields[i + 1..]);
    assert result + (typed + more + rest) == result + typed + more + rest;
  }

  lemma NextItem(r: Reader, items: seq<Json>, i: nat, result: seq<string>)
    requires i < |items|
    ensures result + EvidenceOfItems(r, items[i..])
         == result + Evidence(r, items[i]) + EvidenceOfItems(r, items[i + 1..])
  {
    assert items[i..][1..] == items[i + 1..];
    var more, rest := Evidence(r, items[i]), EvidenceOfItems(r, items[i + 1..]);
    assert result + (more + rest) == result + more + rest;
  }

  /** The recursion that extends one list. */
  method Extract(r: Reader, v: Json) returns (result: seq<string>)
    ensures result == Evidence(r, v)
    decreases v, 1
  {
    match v
    case JObject(fields) => result := ExtractFields(r, CurrencyOf(r, fields), fields);
    case JList(items) => result := ExtractItems(r, items);
    case JString(s) => result := [s] + r.deltas(s);
    case JNumber(text) => result := [text] + r.deltas(text);
    case _ => result := [];
  }

  method ExtractFields(r: Reader, currency: string, fields: seq<Field>) returns (result: seq<string>)
    ensures result == EvidenceOfFields(r, currency, fields)
    decreases fields, 0
  {
    result := [];
    assert fields[0..] == fields;
    for i := 0 to |fields|
      invariant result + EvidenceOfFields(r, currency, fields[i..]) == EvidenceOfFields(r, currency, fields)
    {
      NextField(r, currency, fields, i, result);
      if Excluded(fields[i].name) {
        continue;
      }
      var more := Extract(r, fields[i].value);
      result := result + Typed(fields[i], currency) + more;
    }
    assert fields[|fields|..] == [];
  }

  method ExtractItems(r: Reader, items: seq<Json>) returns (result: seq<string>)
    ensures result == EvidenceOfItems(r, items)
    decreases items, 0
  {
    result := [];
    assert items[0..] == items;
    for i := 0 to |items|
      invariant result + EvidenceOfItems(r, items[i..]) == EvidenceOfItems(r, items)
    {
      NextItem(r, items, i, result);
      var more := Extract(r, items[i]);
      result := result + more;
    }
    assert items[|items|..] == [];
  }

  // ----- The evidence, told from the paths of the value -----

  /** The entries that are no evidence: what the client asked or said, and what was told to the assistant. */
  lemma ExcludedExactly(name: string)
    ensures Excluded(name) <==>
            var key := Lower(name);
            || key == "question" || key == "prompt" || key == "history" || key == "conversation_history"
            || key == "driver_context" || key == "assistant_context"
  {
  }

  /** A path into a value through no excluded entry. */
  ghost predicate Open(v: Json, path: Path)
    decreases |path|
  {
    path == [] ||
    (&& Child(v, path[0]).Some? && Open(Child(v, path[0]).value, path[1..])
     && (path[0].AtField? ==> !Excluded(v.fields[path[0].n].name)))
  }

  /** The unit a number takes over: SAR when its name speaks of it, else the currency of its object. */
  ghost predicate UnitFor(r: Reader, fields: seq<Field>, f: Field, unit: string) {
    if exists a, b :: Lower(f.name) == a + "sar" + b then unit == "SAR" else unit == CurrencyOf(r, fields)
  }

  ghost predicate IsShare(name: string) {
    exists a :: name == a + "_pct" || name == a + "_percent"
  }

  /** The typed line of a number in an object. */
  ghost predicate TypedAs(r: Reader, fields: seq<Field>, f: Field, line: string) {
    && f in fields && !Excluded(f.name)
    && exists text :: f.value == JNumber(text)
        && if IsShare(f.name) then line == text + "%"
           else exists unit :: UnitFor(r, fields, f, unit) && unit != "" && line == unit + " " + text
  }

  /** What one node yields of its own: its text and the deltas in it, or the typed lines of its entries. */
  ghost predicate Yields(r: Reader, v: Json, line: string) {
    match v
    case JString(s) => line == s || line in r.deltas(s)
    case JNumber(text) => line == text || line in r.deltas(text)
    case JObject(fields) => exists f :: TypedAs(r, fields, f, line)
    case _ => false
  }

  ghost predicate YieldsAt(r: Reader, v: Json, line: string, path: Path) {
    Open(v, path) && At(v, path).Some? && Yields(r, At(v, path).value, line)
  }

  lemma ContainsPart(s: string, part: string)
    ensures Contains(s, part) <==> exists a, b :: s == a + part + b
  {
    if Contains(s, part) {
      var a, b := WhereContained(s, part);
    }
    forall a, b | s == a + part + b ensures Contains(s, part) {
      ContainedAt(s, a, part, b);
    }
  }

  lemma {:induction false} WhereContained(s: string, part: string) returns (a: string, b: string)
    requires Contains(s, part)
    ensures s == a + part + b
  {
    if s[..|part|] == part {
      a, b := "", s[|part|..];
    } else {
      var a', b' := WhereContained(s[1..], part);
      a, b := [s[0]] + a', b';
      assert s == [s[0]] + s[1..];
    }
  }

  lemma {:induction false} ContainedAt(s: string, a: string, part: string, b: string)
    requires s == a + part + b
    ensures Contains(s, part)
  {
    if a == "" {
      assert s[..|part|] == part;
    } else {
      assert s[1..] == a[1..] + part + b;
      ContainedAt(s[1..], a[1..], part, b);
    }
  }

  lemma EndsWithPart(s: string, end: string)
    ensures EndsWith(s, end) <==> exists a :: s == a + end
  {
    if EndsWith(s, end) {
      assert s == s[..|s| - |end|] + end;
    }
  }

  lemma TypedExactly(r: Reader, fields: seq<Field>, f: Field, line: string)
    requires f in fields && !Excluded(f.name)
    ensures line in Typed(f, CurrencyOf(r, fields)) <==> TypedAs(r, fields, f, line)
  {
    EndsWithPart(f.name, "_pct");
    EndsWithPart(f.name, "_percent");
    ContainsPart(Lower(f.name), "sar");
    if f.value.JNumber? {
      var unit := if Contains(Lower(f.name), "sar") then "SAR" else CurrencyOf(r, fields);
      assert UnitFor(r, fields, f, unit);
      assert f.value == JNumber(f.value.text);
    }
  }

  lemma {:induction false} FieldsYield(r: Reader, currency: string, fields: seq<Field>, line: string)
    ensures line in EvidenceOfFields(r, currency, fields) <==>
            exists f :: f in fields && !Excluded(f.name) && (line in Typed(f, currency) || line in Evidence(r, f.value))
  {
    if fields != [] {
      FieldsYield(r, currency, fields[1..], line);
      assert fields == [fields[0]] + fields[1..];
    }
  }

  lemma {:induction false} ItemsYield(r: Reader, items: seq<Json>, line: string)
    ensures line in EvidenceOfItems(r, items) <==> exists v :: v in items && line in Evidence(r, v)
  {
    if items != [] {
      ItemsYield(r, items[1..], line);
      assert EvidenceOfItems(r, items) == Evidence(r, items[0]) + EvidenceOfItems(r, items[1..]);
      assert forall v :: v in items <==> v == items[0] || v in items[1..];
    }
  }

  /** A child of a value that is not excluded. */
  ghost predicate OpenChild(v: Json, p: Position, kid: Json) {
    Child(v, p) == Some(kid) && (p.AtField? ==> !Excluded(v.fields[p.n].name))
  }

  /** Evidence comes from the node itself or from a child that is not excluded. */
  lemma EvidenceStep(r: Reader, v: Json, line: string)
    ensures line in Evidence(r, v) <==>
            Yields(r, v, line) || exists p, kid :: OpenChild(v, p, kid) && line in Evidence(r, kid)
  {
    match v
    case JObject(fields) =>
      FieldsYield(r, CurrencyOf(r, fields), fields, line);
      forall f | f in fields && !Excluded(f.name)
        ensures line in Typed(f, CurrencyOf(r, fields)) <==> TypedAs(r, fields, f, line)
        ensures exists n :: OpenChild(v, AtField(n), f.value)
      {
        TypedExactly(r, fields, f, line);
        var n :| 0 <= n < |fields| && fields[n] == f;
        assert OpenChild(v, AtField(n), f.value);
      }
    case JList(items) =>
      ItemsYield(r, items, line);
      forall u | u in items ensures exists n :: OpenChild(v, AtItem(n), u) {
        var n :| 0 <= n < |items| && items[n] == u;
        assert OpenChild(v, AtItem(n), u);
      }
    case _ =>
  }

  lemma {:induction false} YieldedIsEvidence(r: Reader, v: Json, line: string, path: Path)
    requires YieldsAt(r, v, line, path)
    ensures line in Evidence(r, v)
    decreases |path|
  {
    EvidenceStep(r, v, line);
    if path != [] {
      var kid := Child(v, path[0]).value;
      YieldedIsEvidence(r, kid, line, path[1..]);
      assert OpenChild(v, path[0], kid);
    }
  }

  lemma {:induction false} EvidenceIsYielded(r: Reader, v: Json, line: string) returns (path: Path)
    requires line in Evidence(r, v)
    ensures YieldsAt(r, v, line, path)
    decreases v
  {
    EvidenceStep(r, v, line);
    if Yields(r, v, line) {
      path := [];
    } else {
      var p, kid :| OpenChild(v, p, kid) && line in Evidence(r, kid);
      ChildIsSmaller(v, p, kid);
      var rest := EvidenceIsYielded(r, kid, line);
      path := [p] + rest;
      assert path[1..] == rest;
    }
  }

  lemma ChildIsSmaller(v: Json, p: Position, kid: Json)
    requires Child(v, p) == Some(kid)
    ensures kid < v
  {
    if p.AtField? {
      assert v.fields[p.n] < v && kid < v.fields[p.n];
    }
  }

  /** A line is evidence exactly when a node yields it that is reached through no excluded entry. */
  lemma EvidenceExactly(r: Reader, v: Json, line: string)
    ensures line in Evidence(r, v) <==> exists path :: YieldsAt(r, v, line, path)
  {
    if line in Evidence(r, v) {
      var path := EvidenceIsYielded(r, v, line);
    }
    forall path | YieldsAt(r, v, line, path) ensures line in Evidence(r, v) {
      YieldedIsEvidence(r, v, line, path);
    }
  }

  // ----- What the evidence does not depend on -----

  /** The value without its excluded entries, at any depth outside a currency entry, whose text is used as it is. */
  function Pruned(v: Json): Json
    decreases v, 1
  {
    match v
    case JObject(fields) => JObject(PrunedFields(fields))
    case JList(items) => JList(PrunedItems(items))
    case _ => v
  }

  function PrunedFields(fields: seq<Field>): seq<Field>
    decreases fields, 0
  {
    if fields == [] then []
    else
      var rest := PrunedFields(fields[1..]);
      if Excluded(fields[0].name) then rest
      else if fields[0].name == "currency" then [fields[0]] + rest
      else [Field(fields[0].name, Pruned(fields[0].value))] + rest
  }

  function PrunedItems(items: seq<Json>): seq<Json>
    decreases items, 0
  {
    if items == [] then [] else [Pruned(items[0])] + PrunedItems(items[1..])
  }

  lemma CurrencyIsNotExcluded()
    ensures !Excluded("currency")
  {
    LowerFacts("currency");
    assert Lower("currency")[0] == 'c' && |Lower("currency")| == 8;
  }

  lemma {:induction false} CurrencySurvives(fields: seq<Field>)
    ensures Lookup(PrunedFields(fields), "currency") == Lookup(fields, "currency")
  {
    CurrencyIsNotExcluded();
    if fields != [] {
      CurrencySurvives(fields[1..]);
    }
  }

  lemma {:induction false} PrunedEvidence(r: Reader, v: Json)
    ensures Evidence(r, Pruned(v)) == Evidence(r, v)
    decreases v, 1
  {
    match v
    case JObject(fields) =>
      CurrencySurvives(fields);
      PrunedEvidenceOfFields(r, CurrencyOf(r, fields), fields);
    case JList(items) => PrunedEvidenceOfItems(r, items);
    case _ =>
  }

  lemma {:induction false} PrunedEvidenceOfFields(r: Reader, currency: string, fields: seq<Field>)
    ensures EvidenceOfFields(r, currency, PrunedFields(fields)) == EvidenceOfFields(r, currency, fields)
    decreases fields, 0
  {
    if fields != [] {
      PrunedEvidenceOfFields(r, currency, fields[1..]);
      PrunedEvidence(r, fields[0].value);
    }
  }

  lemma {:induction false} PrunedEvidenceOfItems(r: Reader, items: seq<Json>)
    ensures EvidenceOfItems(r, PrunedItems(items)) == EvidenceOfItems(r, items)
    decreases items, 0
  {
    if items != [] {
      PrunedEvidenceOfItems(r, items[1..]);
      PrunedEvidence(r, items[0]);
    }
  }

  /** Values that differ only in questions, prompts, history and context yield the same evidence. */
  lemma QuestionsAreNoEvidence(r: Reader, a: Json, b: Json)
    requires Pruned(a) == Pruned(b)
    ensures Evidence(r, a) == Evidence(r, b)
  {
    PrunedEvidence(r, a);
    PrunedEvidence(r, b);
  }

  /** What any other entry yields is evidence of the whole, and so is the typed line of a number in it. */
  lemma {:induction false} OtherEntriesAreEvidence(r: Reader, currency: string, fields: seq<Field>, f: Field,
                                                   line: string)
    requires f in fields && !Excluded(f.name)
    requires line in Typed(f, currency) || line in Evidence(r, f.value)
    ensures line in EvidenceOfFields(r, currency, fields)
  {
    if f != fields[0] {
      OtherEntriesAreEvidence(r, currency, fields[1..], f, line);
    }
  }
}
