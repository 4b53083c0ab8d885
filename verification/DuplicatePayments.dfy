/**
 Duplicate payments (strategyos_mvp/oracle_finance.py): payment legs that share vendor, invoice,
 amount and currency are one invoice paid more than once; everything beyond one payment is
 recoverable.
 */
module DuplicatePayments {
  import opened Options
  import opened Strings
  import opened Sums
  import opened Seqs

  /** An AP or other fact with the fields of its record; texts are None when missing. */
  datatype Leg = Leg(
    naturalKey: string, ap: bool, vendorId: Option<string>, supplierKey: Option<string>, vendorName: Option<string>,
    invoiceNum: Option<string>, invoiceReference: Option<string>, paid: bool, amount: Option<real>, currency: string)

  /** `a or b` on optional texts: an empty text counts as missing. */
  function Either(a: Option<string>, b: Option<string>): Option<string> {
    if a.Some? && a.value != "" then a else b
  }

  function Compact(s: string): string {
    if s == "" then ""
    else (if IsAlnum(s[0]) then [UpperChar(s[0])] else "") + Compact(s[1..])
  }

  /** Letters and digits in upper case, None when nothing remains. */
  function Token(raw: Option<string>): Option<string> {
    if raw.Some? && Compact(raw.value) != "" then Some(Compact(raw.value)) else None
  }

  /** What makes two payments the same payment. */
  datatype PaymentKey = PaymentKey(vendor: string, invoice: string, amount: real, currency: string)

  function Amount(leg: Leg): real { leg.amount.Or(0.0) }

  predicate Eligible(leg: Leg) {
    && leg.ap && leg.paid
    && Token(Either(leg.invoiceNum, leg.invoiceReference)).Some?
    && Amount(leg) != 0.0
  }

  function KeyOf(leg: Leg): PaymentKey {
    var vendor := Token(leg.vendorId);
    PaymentKey(
      if vendor.Some? then vendor.value else Token(leg.vendorName).Or("unknown"),
      Token(Either(leg.invoiceNum, leg.invoiceReference)).Or(""), Amount(leg), leg.currency)
  }

  /** The texts a finding takes over from its first leg. */
  datatype FindingName = FindingName(vendor: string, vendorName: string, invoice: string)

  function NameOf(leg: Leg): FindingName {
    FindingName(Either(leg.vendorId, Either(leg.supplierKey, None)).Or("unknown"),
                Either(leg.vendorName, None).Or("Unknown vendor"),
                Either(leg.invoiceNum, leg.invoiceReference).Or(leg.naturalKey))
  }

  /** finding_id, after the prefix all of them share */
  function IdOf(name: FindingName): string { name.vendor + ":" + name.invoice }

  /** `key` is the group a finding reports; `legs` are the payments its evidence is drawn from, in order. */
  datatype Finding = Finding(key: PaymentKey, name: FindingName, recoverable: real, legs: seq<Leg>)

  function LegsOf(legs: seq<Leg>, k: PaymentKey): seq<Leg> {
    Filter(Filter(legs, Eligible), HasKey(KeyOf, k))
  }

  function Largest(legs: seq<Leg>): (m: real)
    requires legs != []
    ensures exists leg :: leg in legs && Amount(leg) == m
  {
    var last := Amount(legs[|legs| - 1]);
    if |legs| == 1 then last
    else
      var earlier := Largest(legs[..|legs| - 1]);
      if earlier > last then earlier else last
  }

  /** `n` payments of `x`. */
  ghost function Times(n: nat, x: real): real {
    if n == 0 then 0.0 else Times(n - 1, x) + x
  }

  lemma {:induction false} TimesIsProduct(n: nat, x: real)
    ensures Times(n, x) == n as real * x
  {
    if n > 0 {
      TimesIsProduct(n - 1, x);
      OneMore((n - 1) as real, x);
      assert n as real == (n - 1) as real + 1.0;
    }
  }

  lemma OneMore(n: real, x: real)
    ensures (n + 1.0) * x == n * x + x
  {
  }

  lemma {:induction false} TimesSign(n: nat, x: real)
    ensures x > 0.0 && n > 0 ==> Times(n, x) > 0.0
    ensures x <= 0.0 ==> Times(n, x) <= 0.0
  {
    if n > 0 {
      TimesSign(n - 1, x);
    }
  }

  /** The payments of a key beyond the first. */
  ghost function Excess(legs: seq<Leg>): PaymentKey -> real {
    (k: PaymentKey) => var n := |LegsOf(legs, k)|; if n >= 2 && k.amount > 0.0 then Times(n - 1, k.amount) else 0.0
  }

  /** A finding reports one group of several legs, is named after the first and claims the rest. */
  ghost predicate Explained(legs: seq<Leg>, f: Finding) {
    && |f.legs| >= 2 && f.legs == LegsOf(legs, f.key) && f.key.amount > 0.0
    && f.name == NameOf(f.legs[0])
    && f.recoverable == Times(|f.legs| - 1, f.key.amount)
  }

  lemma {:induction false} SumOfEqual(legs: seq<Leg>, amount: real)
    requires forall leg :: leg in legs ==> Amount(leg) == amount
    ensures Sum(legs, Amount) == Times(|legs|, amount)
  {
    if legs != [] {
      assert legs[|legs| - 1] in legs;
      SumOfEqual(legs[..|legs| - 1], amount);
    }
  }

  lemma KeyedAmount(leg: Leg, k: PaymentKey)
    requires KeyOf(leg) == k
    ensures Amount(leg) == k.amount
  {
  }

  /** Sum less maximum, in a group of equal amounts. */
  lemma GroupExcess(group: seq<Leg>, amount: real)
    requires group != [] && forall leg :: leg in group ==> Amount(leg) == amount
    ensures Sum(group, Amount) - Largest(group) == Times(|group| - 1, amount)
    ensures amount > 0.0 ==> (Sum(group, Amount) - Largest(group) > 0.0 <==> |group| >= 2)
    ensures amount <= 0.0 ==> Sum(group, Amount) - Largest(group) <= 0.0
  {
    SumOfEqual(group, amount);
    TimesSign(|group| - 1, amount);
  }

  function Recoverable(f: Finding): real { f.recoverable }

  /** What one group comes to: a single payment or no positive surplus is no finding. */
  function Judge(k: PaymentKey, matched: seq<Leg>): Option<Finding>
    requires matched != []
  {
    if |matched| < 2 then None
    else
      var duplicateValue := SumAmounts(matched) - Largest(matched);
      if duplicateValue <= 0.0 then None
      else Some(Finding(k, NameOf(matched[0]), duplicateValue, matched))
  }

  lemma JudgeGroup(k: PaymentKey, matched: seq<Leg>)
    requires matched != [] && forall leg :: leg in matched ==> Amount(leg) == k.amount
    ensures Judge(k, matched) == if |matched| >= 2 && k.amount > 0.0
                                 then Some(Finding(k, NameOf(matched[0]), Times(|matched| - 1, k.amount), matched))
                                 else None
  {
    if |matched| < 2 {
      assert Judge(k, matched) == None;
    } else {
      GroupExcess(matched, k.amount);
      var surplus := SumAmounts(matched) - Largest(matched);
      if k.amount > 0.0 {
        assert Judge(k, matched) == Some(Finding(k, NameOf(matched[0]), surplus, matched));
      } else {
        assert Judge(k, matched) == None;
      }
    }
  }

  lemma JudgeWorth(legs: seq<Leg>, k: PaymentKey, matched: seq<Leg>)
    requires matched == LegsOf(legs, k) && matched != []
    ensures Judge(k, matched) == if Repeated(legs, k)
                                 then Some(Finding(k, NameOf(matched[0]), Times(|matched| - 1, k.amount), matched))
                                 else None
  {
    GroupAmounts(legs, k);
    JudgeGroup(k, matched);
  }

  lemma JudgeExplains(legs: seq<Leg>, k: PaymentKey, matched: seq<Leg>)
    requires matched == LegsOf(legs, k) && matched != []
    ensures Judge(k, matched) == None <==> !Repeated(legs, k)
    ensures Judge(k, matched).Some? ==> Judge(k, matched).value.key == k && Explained(legs, Judge(k, matched).value)
  {
    JudgeWorth(legs, k, matched);
  }

  /** A finding claims (legs - 1) times the amount. */
  lemma ClaimIsProduct(legs: seq<Leg>, f: Finding)
    requires Explained(legs, f)
    ensures f.recoverable == (|f.legs| - 1) as real * f.key.amount
  {
    TimesIsProduct(|f.legs| - 1, f.key.amount);
  }

  /** What is found under a key. */
  function Verdict(legs: seq<Leg>): PaymentKey -> Option<Finding> {
    (k: PaymentKey) => if LegsOf(legs, k) == [] then None else Judge(k, LegsOf(legs, k))
  }

  function KeyOrder(legs: seq<Leg>): seq<PaymentKey> {
    FirstKeys(legs, Eligible, KeyOf)
  }

  /** The first leg of one key comes before every leg of another. */
  ghost predicate Precedes(legs: seq<Leg>, f: Finding, g: Finding) {
    FirstBefore(legs, Eligible, KeyOf, f.key, g.key)
  }

  /** The detector: legs are grouped by key, and each group of several legs becomes a finding. */
  method Detect(legs: seq<Leg>) returns (findings: seq<Finding>)
    ensures findings == Findings(legs)
    ensures forall f :: f in findings ==> Explained(legs, f) && f.recoverable == (|f.legs| - 1) as real * f.key.amount
    ensures forall k :: Repeated(legs, k) ==> Reports(findings, k)
    ensures forall i, j :: 0 <= i < j < |findings| ==> Precedes(legs, findings[i], findings[j])
  {
    var groups, keys := Group(legs);
    findings := [];
    for i := 0 to |keys|
      invariant findings == Collect(keys[..i], Verdict(legs))
    {
      assert keys[i] in keys;
      VerdictOfGroup(legs, keys[i], groups);
      CollectNext(keys, i, Verdict(legs));
      var finding := Judge(keys[i], groups[keys[i]]);
      if finding.Some? {
        findings := findings + [finding.value];
      }
    }
    assert keys[..|keys|] == keys;
    FindingsAreExplained(legs);
    FindingsClaim(legs);
    RepeatsAreReported(legs);
    FindingsAreInOrder(legs);
  }

  lemma VerdictOfGroup(legs: seq<Leg>, k: PaymentKey, groups: map<PaymentKey, seq<Leg>>)
    requires Grouped(Filter(legs, Eligible), KeyOf, groups) && k in groups
    ensures groups[k] != [] && Verdict(legs)(k) == Judge(k, groups[k])
  {
    GroupIsPresent(Filter(legs, Eligible), KeyOf, k);
  }

  /** What the detector finds. */
  function Findings(legs: seq<Leg>): seq<Finding> {
    Collect(KeyOrder(legs), Verdict(legs))
  }

  lemma FindingsClaim(legs: seq<Leg>)
    ensures forall f :: f in Findings(legs) ==> f.recoverable == (|f.legs| - 1) as real * f.key.amount
  {
    FindingsAreExplained(legs);
    forall f | f in Findings(legs) ensures f.recoverable == (|f.legs| - 1) as real * f.key.amount {
      ClaimIsProduct(legs, f);
    }
  }

  lemma FindingsAreExplained(legs: seq<Leg>)
    ensures forall f :: f in Findings(legs) ==> Explained(legs, f)
  {
    forall f | f in Findings(legs) ensures Explained(legs, f) {
      var k :| k in KeyOrder(legs) && Verdict(legs)(k) == Some(f);
      JudgeExplains(legs, k, LegsOf(legs, k));
    }
  }

  lemma RepeatsAreReported(legs: seq<Leg>)
    ensures forall k :: Repeated(legs, k) ==> Reports(Findings(legs), k)
  {
    forall k | Repeated(legs, k) ensures Reports(Findings(legs), k) {
      var leg := LegsOf(legs, k)[0];
      assert leg in LegsOf(legs, k);
      assert HasKey(KeyOf, k)(leg) && k in KeyOrder(legs);
      JudgeExplains(legs, k, LegsOf(legs, k));
      assert Verdict(legs)(k).value in Findings(legs);
    }
  }

  function KeyFound(f: Finding): PaymentKey { f.key }

  /** Findings come in the order of the first legs of their keys. */
  lemma FindingsAreInOrder(legs: seq<Leg>)
    ensures var findings := Findings(legs);
            forall i, j :: 0 <= i < j < |findings| ==> Precedes(legs, findings[i], findings[j])
  {
    var findings := Findings(legs);
    FirstKeysInOrder(legs, Eligible, KeyOf);
    CollectKeepsOrder(KeyOrder(legs), Verdict(legs), KeyFound, Earlier(legs, Eligible, KeyOf));
    forall i, j | 0 <= i < j < |findings| ensures Precedes(legs, findings[i], findings[j]) {
      assert Earlier(legs, Eligible, KeyOf)(KeyFound(findings[i]), KeyFound(findings[j]));
    }
  }

  function SumAmounts(legs: seq<Leg>): real { Sum(legs, Amount) }

  lemma GroupAmounts(legs: seq<Leg>, k: PaymentKey)
    ensures forall leg :: leg in LegsOf(legs, k) ==> Amount(leg) == k.amount
  {
    forall leg | leg in LegsOf(legs, k) ensures Amount(leg) == k.amount {
      assert HasKey(KeyOf, k)(leg);
      KeyedAmount(leg, k);
    }
  }

  ghost predicate Repeated(legs: seq<Leg>, k: PaymentKey) {
    |LegsOf(legs, k)| >= 2 && k.amount > 0.0
  }

  ghost predicate Reports(findings: seq<Finding>, k: PaymentKey) {
    exists f :: f in findings && f.key == k
  }

  method Group(legs: seq<Leg>) returns (groups: map<PaymentKey, seq<Leg>>, keys: seq<PaymentKey>)
    ensures Grouped(Filter(legs, Eligible), KeyOf, groups)
    ensures keys == KeyOrder(legs) && groups.Keys == set k | k in keys
  {
    groups, keys := map[], [];
    assert legs[..0] == [];
    for i := 0 to |legs|
      invariant Grouped(Filter(legs[..i], Eligible), KeyOf, groups)
      invariant keys == KeyOrder(legs[..i])
    {
      var leg := legs[i];
      NextLeg(legs, i, groups);
      if !Eligible(leg) {
        continue;
      }
      if KeyOf(leg) !in keys {
        keys := keys + [KeyOf(leg)];
      }
      groups := Append(groups, KeyOf(leg), leg);
    }
    assert legs[..|legs|] == legs;
    OrderHoldsKeys(legs);
  }

  lemma NextLeg(legs: seq<Leg>, i: nat, groups: map<PaymentKey, seq<Leg>>)
    requires i < |legs| && Grouped(Filter(legs[..i], Eligible), KeyOf, groups)
    ensures Grouped(Filter(legs[..i + 1], Eligible), KeyOf,
                    if Eligible(legs[i]) then Append(groups, KeyOf(legs[i]), legs[i]) else groups)
    ensures KeyOrder(legs[..i + 1]) ==
            if Eligible(legs[i]) && KeyOf(legs[i]) !in KeyOrder(legs[..i]) then KeyOrder(legs[..i]) + [KeyOf(legs[i])]
            else KeyOrder(legs[..i])
  {
    assert legs[..i + 1] == legs[..i] + [legs[i]];
    FirstKeysAppend(legs[..i], legs[i], Eligible, KeyOf);
    FilterAppend(legs[..i], legs[i], Eligible);
    GroupOneMore(Filter(legs[..i], Eligible), KeyOf, groups, legs[i]);
  }

  lemma OrderHoldsKeys(legs: seq<Leg>)
    ensures KeysOf(Filter(legs, Eligible), KeyOf) == set k | k in KeyOrder(legs)
  {
  }

  // ----- Conservation -----

  function AmountOfKey(k: PaymentKey): real { k.amount }

  ghost predicate AllPositive(legs: seq<Leg>) {
    forall leg :: leg in legs && Eligible(leg) ==> Amount(leg) > 0.0
  }

  lemma VerdictWorth(legs: seq<Leg>, k: PaymentKey)
    ensures Excess(legs)(k) == if Verdict(legs)(k).Some? then Recoverable(Verdict(legs)(k).value) else 0.0
  {
    if LegsOf(legs, k) != [] {
      JudgeWorth(legs, k, LegsOf(legs, k));
    }
  }

  /** The findings claim the surplus of their keys. */
  lemma FindingsAddUp(legs: seq<Leg>)
    ensures Sum(Findings(legs), Recoverable) == Total(KeysOf(Filter(legs, Eligible), KeyOf), Excess(legs))
  {
    var keys := KeyOrder(legs);
    forall k | k in keys
      ensures Excess(legs)(k) == if Verdict(legs)(k).Some? then Recoverable(Verdict(legs)(k).value) else 0.0
    {
      VerdictWorth(legs, k);
    }
    SumOfCollect(keys, Verdict(legs), Recoverable, Excess(legs));
    FirstKeysInOrder(legs, Eligible, KeyOf);
    FirstKeysDiffer(legs, Eligible, KeyOf, keys);
    SumOfDistinct(keys, Excess(legs));
    OrderHoldsKeys(legs);
  }

  /** Value is conserved: over positive payments, what is recoverable is everything paid less one payment
      per distinct key. */
  lemma RecoverableIsTheSurplus(legs: seq<Leg>)
    requires AllPositive(legs)
    ensures var paid := Filter(legs, Eligible);
            Sum(Findings(legs), Recoverable) == Sum(paid, Amount) - Total(KeysOf(paid, KeyOf), AmountOfKey)
  {
    FindingsAddUp(legs);
    var paid := Filter(legs, Eligible);
    var keys := KeysOf(paid, KeyOf);
    forall leg | leg in paid ensures KeyOf(leg) in keys {
    }
    SumByClass(paid, keys, KeyOf, Amount);
    forall k | k in keys
      ensures ClassSum(paid, KeyOf, Amount)(k) == Excess(legs)(k) + AmountOfKey(k)
    {
      KeySurplus(legs, k);
    }
    TotalIsAdditive(keys, Excess(legs), AmountOfKey, ClassSum(paid, KeyOf, Amount));
  }

  lemma KeySurplus(legs: seq<Leg>, k: PaymentKey)
    requires AllPositive(legs) && k in KeysOf(Filter(legs, Eligible), KeyOf)
    ensures ClassSum(Filter(legs, Eligible), KeyOf, Amount)(k) == Excess(legs)(k) + AmountOfKey(k)
  {
    var paid, group := Filter(legs, Eligible), LegsOf(legs, k);
    GroupIsPresent(paid, KeyOf, k);
    GroupAmounts(legs, k);
    SumOfFilter(paid, HasKey(KeyOf, k), Amount, InClass(KeyOf, k, Amount));
    SumOfEqual(group, k.amount);
    var leg := group[0];
    assert leg in group && leg in paid;
    assert k.amount > 0.0;
  }

  // ----- What depends on the order of the facts, and what does not -----

  /** Which groups are reported and what each one claims do not depend on the order of the facts. */
  lemma ClaimsForgetOrder(a: seq<Leg>, b: seq<Leg>, k: PaymentKey)
    requires SameBag(a, b)
    ensures (Repeated(a, k) <==> Repeated(b, k)) && SameBag(LegsOf(a, k), LegsOf(b, k)) && Excess(a)(k) == Excess(b)(k)
  {
    LegsForgetOrder(a, b, k);
  }

  ghost predicate SpeltAlike(legs: seq<Leg>, k: PaymentKey) {
    forall leg :: leg in LegsOf(legs, k) ==> NameOf(leg) == NameOf(LegsOf(legs, k)[0])
  }

  ghost predicate SameNames(a: seq<Leg>, b: seq<Leg>) {
    forall k :: Repeated(a, k) ==> Repeated(b, k) && NameOf(LegsOf(a, k)[0]) == NameOf(LegsOf(b, k)[0])
  }

  lemma LegsForgetOrder(a: seq<Leg>, b: seq<Leg>, k: PaymentKey)
    requires SameBag(a, b)
    ensures SameBag(LegsOf(a, k), LegsOf(b, k)) && |LegsOf(a, k)| == |LegsOf(b, k)|
    ensures forall leg :: leg in LegsOf(a, k) <==> leg in LegsOf(b, k)
  {
    FilterSameBag(a, b, Eligible, Eligible);
    FilterSameBag(Filter(a, Eligible), Filter(b, Eligible), HasKey(KeyOf, k), HasKey(KeyOf, k));
    SameBagMembers(LegsOf(a, k), LegsOf(b, k));
  }

  lemma AlikeKeepsNames(a: seq<Leg>, b: seq<Leg>)
    requires SameBag(a, b) && forall k :: Repeated(a, k) ==> SpeltAlike(a, k)
    ensures SameNames(a, b)
  {
    forall k | Repeated(a, k) ensures Repeated(b, k) && NameOf(LegsOf(a, k)[0]) == NameOf(LegsOf(b, k)[0]) {
      LegsForgetOrder(a, b, k);
      assert LegsOf(b, k)[0] in LegsOf(a, k);
      assert SpeltAlike(a, k);
    }
  }

  /** Any leg of a group can come first. */
  lemma LegComesFirst(a: seq<Leg>, k: PaymentKey, leg: Leg) returns (b: seq<Leg>)
    requires leg in LegsOf(a, k)
    ensures SameBag(a, b) && LegsOf(b, k) != [] && LegsOf(b, k)[0] == leg
  {
    var i :| 0 <= i < |a| && a[i] == leg;
    var rest := a[..i] + a[i + 1..];
    MoveToFront(a, i);
    b := [leg] + rest;
    assert Eligible(leg) && HasKey(KeyOf, k)(leg);
    LegsOfConcat([leg], rest, k);
    FilterAppend([], leg, Eligible);
    FilterAppend([], leg, HasKey(KeyOf, k));
    assert [] + [leg] == [leg];
  }

  /** The findings bear the same names for every order of the facts exactly when the legs of each reported group
      spell vendor id, vendor name and invoice alike. */
  lemma NamesForgetOrder(a: seq<Leg>)
    ensures (forall b :: SameBag(a, b) ==> SameNames(a, b)) <==> (forall k :: Repeated(a, k) ==> SpeltAlike(a, k))
  {
    if forall k :: Repeated(a, k) ==> SpeltAlike(a, k) {
      forall b | SameBag(a, b) ensures SameNames(a, b) {
        AlikeKeepsNames(a, b);
      }
    } else {
      var k :| Repeated(a, k) && !SpeltAlike(a, k);
      var leg :| leg in LegsOf(a, k) && NameOf(leg) != NameOf(LegsOf(a, k)[0]);
      var b := LegComesFirst(a, k, leg);
      assert !SameNames(a, b);
    }
  }

  /** Two spellings of one vendor: the same group, but its name depends on which payment comes first. */
  lemma NameDependsOnOrder()
    ensures exists a, b: seq<Leg>, k ::
              SameBag(a, b) && Repeated(a, k) && Repeated(b, k)
              && NameOf(LegsOf(a, k)[0]) != NameOf(LegsOf(b, k)[0])
  {
    var x := Leg("p1", true, Some("V-1"), None, None, Some("7"), None, true, Some(5.0), "SAR");
    var y := x.(naturalKey := "p2", vendorId := Some("v1"));
    var k := PaymentKey("V1", "7", 5.0, "SAR");
    Spellings();
    assert KeyOf(x) == k == KeyOf(y) && Eligible(x) && Eligible(y);
    TwoLegs(x, y, k);
    TwoLegs(y, x, k);
    assert SameBag([x, y], [y, x]);
    assert NameOf(x) != NameOf(y) by {
      assert "V-1"[1] != "v1"[1];
    }
  }

  lemma TwoLegs(x: Leg, y: Leg, k: PaymentKey)
    requires KeyOf(x) == k == KeyOf(y) && Eligible(x) && Eligible(y)
    ensures LegsOf([x, y], k) == [x, y]
  {
    assert [x, y] == [] + [x] + [y];
    FilterAppend([], x, Eligible);
    FilterAppend([x], y, Eligible);
    FilterAppend([], x, HasKey(KeyOf, k));
    FilterAppend([x], y, HasKey(KeyOf, k));
  }

  lemma Spellings()
    ensures Compact("V-1") == "V1" == Compact("v1") && Compact("7") == "7"
  {
    assert "V-1"[1..] == "-1" && "-1"[1..] == "1" && "v1"[1..] == "1" && "1"[1..] == "" && "7"[1..] == "";
    assert Compact("1") == "1";
    assert Compact("-1") == "1";
  }

  // ----- Which payments are the same -----

  /** The letters and digits of a text, in upper case. */
  function Letters(text: Option<string>): string {
    if text.Some? then Upper(Filter(text.value, IsAlnum)) else ""
  }

  lemma {:induction false} UpperOfConcat(a: string, b: string)
    ensures Upper(a + b) == Upper(a) + Upper(b)
  {
    if a == "" {
      assert a + b == b;
    } else {
      assert (a + b)[1..] == a[1..] + b;
      UpperOfConcat(a[1..], b);
    }
  }

  lemma LettersOfConcat(c: char, s: string)
    ensures Upper(Filter([c] + s, IsAlnum)) ==
            (if IsAlnum(c) then [UpperChar(c)] else "") + Upper(Filter(s, IsAlnum))
  {
    assert Filter([c], IsAlnum) == if IsAlnum(c) then [c] else "" by {
      assert [c] == [] + [c];
      FilterAppend([], c, IsAlnum);
    }
    FilterOfConcat([c], s, IsAlnum);
    UpperOfConcat(Filter([c], IsAlnum), Filter(s, IsAlnum));
    assert Upper([c]) == [UpperChar(c)];
  }

  lemma {:induction false} CompactIsLetters(s: string)
    ensures Compact(s) == Letters(Some(s))
  {
    if s != "" {
      CompactIsLetters(s[1..]);
      assert s == [s[0]] + s[1..];
      LettersOfConcat(s[0], s[1..]);
    }
  }

  /** The first of two texts that is not empty. */
  ghost predicate FirstText(a: Option<string>, b: Option<string>, text: Option<string>) {
    text == if a == None || a == Some("") then b else a
  }

  lemma EitherIsFirst(a: Option<string>, b: Option<string>)
    ensures FirstText(a, b, Either(a, b))
  {
  }

  /** A payment of a payables fact: dated, of an amount that is not zero, with a letter or digit in its invoice text. */
  ghost predicate IsPayment(leg: Leg) {
    && leg.ap && leg.paid
    && (exists x :: x != 0.0 && leg.amount == Some(x))
    && (exists text :: FirstText(leg.invoiceNum, leg.invoiceReference, text) && Letters(text) != "")
  }

  /** The vendor a payment counts for: its id, else its name, else none. */
  function VendorLetters(leg: Leg): string {
    if Letters(leg.vendorId) != "" then Letters(leg.vendorId) else Letters(leg.vendorName)
  }

  /** Two payments of one invoice of one vendor, in one currency and of one amount. */
  ghost predicate SamePayment(a: Leg, b: Leg) {
    && VendorLetters(a) == VendorLetters(b) && a.amount == b.amount && a.currency == b.currency
    && exists x, y ::
         && FirstText(a.invoiceNum, a.invoiceReference, x) && FirstText(b.invoiceNum, b.invoiceReference, y)
         && Letters(x) == Letters(y)
  }

  lemma TokenIsLetters(text: Option<string>)
    ensures Token(text) == if Letters(text) == "" then None else Some(Letters(text))
  {
    if text.Some? {
      CompactIsLetters(text.value);
    }
  }

  lemma {:induction false} UpperHasNoSmallLetters(s: string)
    ensures forall c :: c in Upper(s) ==> !('a' <= c <= 'z')
  {
    if s != "" {
      UpperHasNoSmallLetters(s[1..]);
    }
  }

  lemma VendorIsKnown(text: Option<string>)
    ensures Letters(text) != "unknown"
  {
    if text.Some? {
      UpperHasNoSmallLetters(Filter(text.value, IsAlnum));
      assert "unknown"[0] in "unknown";
    }
  }

  lemma PaymentsExactly(leg: Leg)
    ensures Eligible(leg) <==> IsPayment(leg)
  {
    EitherIsFirst(leg.invoiceNum, leg.invoiceReference);
    TokenIsLetters(Either(leg.invoiceNum, leg.invoiceReference));
    assert leg.amount.Some? ==> leg.amount == Some(leg.amount.value);
  }

  lemma KeyTexts(leg: Leg)
    ensures KeyOf(leg).vendor == (if VendorLetters(leg) == "" then "unknown" else VendorLetters(leg))
    ensures VendorLetters(leg) != "unknown"
    ensures KeyOf(leg).invoice == Letters(Either(leg.invoiceNum, leg.invoiceReference))
  {
    TokenIsLetters(leg.vendorId);
    TokenIsLetters(leg.vendorName);
    VendorIsKnown(leg.vendorId);
    VendorIsKnown(leg.vendorName);
    TokenIsLetters(Either(leg.invoiceNum, leg.invoiceReference));
  }

  lemma SameKeyExactly(a: Leg, b: Leg)
    requires IsPayment(a) && IsPayment(b)
    ensures KeyOf(a) == KeyOf(b) <==> SamePayment(a, b)
  {
    KeyTexts(a);
    KeyTexts(b);
    EitherIsFirst(a.invoiceNum, a.invoiceReference);
    EitherIsFirst(b.invoiceNum, b.invoiceReference);
  }

  /** The legs of a finding are the payments that are the same as its first one, all of them. */
  lemma FindingGathers(legs: seq<Leg>, f: Finding, leg: Leg)
    requires f in Findings(legs)
    ensures f.legs != [] && IsPayment(f.legs[0])
    ensures leg in f.legs <==> leg in legs && IsPayment(leg) && SamePayment(f.legs[0], leg)
  {
    FindingsAreExplained(legs);
    var first := f.legs[0];
    assert first in f.legs;
    PaymentsExactly(first);
    PaymentsExactly(leg);
    if IsPayment(leg) {
      SameKeyExactly(first, leg);
    }
  }

  ghost predicate Filled(text: Option<string>) { text != None && text != Some("") }

  /** The vendor id, else the supplier key; the vendor name; the invoice number, else its reference. */
  ghost predicate Prints(leg: Leg, name: FindingName) {
    && (if Filled(leg.vendorId) then Some(name.vendor) == leg.vendorId
        else if Filled(leg.supplierKey) then Some(name.vendor) == leg.supplierKey
        else name.vendor == "unknown")
    && (if Filled(leg.vendorName) then Some(name.vendorName) == leg.vendorName
        else name.vendorName == "Unknown vendor")
    && (if Filled(leg.invoiceNum) then Some(name.invoice) == leg.invoiceNum
        else Some(name.invoice) == leg.invoiceReference)
  }

  lemma LegPrints(leg: Leg)
    requires Filled(leg.invoiceNum) || leg.invoiceReference.Some?
    ensures Prints(leg, NameOf(leg))
  {
  }

  /** A finding prints the texts of its first leg. */
  lemma FindingPrints(legs: seq<Leg>, f: Finding)
    requires f in Findings(legs)
    ensures f.legs != [] && Prints(f.legs[0], f.name)
  {
    FindingsAreExplained(legs);
    assert f.legs[0] in f.legs;
    PaymentsExactly(f.legs[0]);
    LegPrints(f.legs[0]);
  }

  // ----- Identifiers -----

  /** The vendor text of one name is that of the other, a colon and a part of its invoice text. */
  ghost predicate RunsOver(a: FindingName, b: FindingName) {
    exists r :: a.vendor == b.vendor + ":" + r && b.invoice == r + ":" + a.invoice
  }

  /** The texts of two names print the same identifier: they are the same, or a colon can be read in two places. */
  ghost predicate Confusable(a: FindingName, b: FindingName) {
    (a.vendor == b.vendor && a.invoice == b.invoice) || RunsOver(a, b) || RunsOver(b, a)
  }

  lemma LongerVendor(a: FindingName, b: FindingName)
    requires IdOf(a) == IdOf(b) && |a.vendor| > |b.vendor|
    ensures RunsOver(a, b)
  {
    var id := IdOf(a);
    var r := a.vendor[|b.vendor| + 1..];
    assert id[..|a.vendor|] == a.vendor && id[..|b.vendor|] == b.vendor && id[|b.vendor|] == ':';
    assert a.vendor == b.vendor + ":" + r;
    assert id[|b.vendor| + 1..] == b.invoice && id[|b.vendor| + 1..] == r + ":" + a.invoice;
  }

  lemma RunningOverCollides(a: FindingName, b: FindingName)
    requires RunsOver(a, b)
    ensures IdOf(a) == IdOf(b)
  {
    var r :| a.vendor == b.vendor + ":" + r && b.invoice == r + ":" + a.invoice;
    assert (b.vendor + ":" + r) + ":" + a.invoice == b.vendor + ":" + (r + ":" + a.invoice);
  }

  /** When two names print the same identifier. */
  lemma SameIdExactly(a: FindingName, b: FindingName)
    ensures IdOf(a) == IdOf(b) <==> Confusable(a, b)
  {
    if IdOf(a) == IdOf(b) {
      if |a.vendor| > |b.vendor| {
        LongerVendor(a, b);
      } else if |b.vendor| > |a.vendor| {
        LongerVendor(b, a);
      } else {
        var id := IdOf(a);
        assert a.vendor == id[..|a.vendor|] == b.vendor;
        assert a.invoice == id[|a.vendor| + 1..] == b.invoice;
      }
    }
    if RunsOver(a, b) {
      RunningOverCollides(a, b);
    }
    if RunsOver(b, a) {
      RunningOverCollides(b, a);
    }
  }

  /** What the first leg of a group prints. */
  function FirstName(legs: seq<Leg>, k: PaymentKey): FindingName
    requires LegsOf(legs, k) != []
  {
    NameOf(LegsOf(legs, k)[0])
  }

  ghost predicate IdsDiffer(legs: seq<Leg>) {
    forall f, g :: f in Findings(legs) && g in Findings(legs) && f.key != g.key ==> IdOf(f.name) != IdOf(g.name)
  }

  ghost predicate FirstNamesDiffer(legs: seq<Leg>) {
    forall k, l :: Repeated(legs, k) && Repeated(legs, l) && k != l ==>
      !Confusable(FirstName(legs, k), FirstName(legs, l))
  }

  lemma FindingIsFirst(legs: seq<Leg>, f: Finding)
    requires f in Findings(legs)
    ensures Repeated(legs, f.key) && f.name == FirstName(legs, f.key)
  {
    FindingsAreExplained(legs);
  }

  lemma DifferingNames(legs: seq<Leg>, f: Finding, g: Finding)
    requires FirstNamesDiffer(legs) && f in Findings(legs) && g in Findings(legs) && f.key != g.key
    ensures IdOf(f.name) != IdOf(g.name)
  {
    FindingIsFirst(legs, f);
    FindingIsFirst(legs, g);
    assert !Confusable(FirstName(legs, f.key), FirstName(legs, g.key));
    SameIdExactly(f.name, g.name);
  }

  lemma DifferingIds(legs: seq<Leg>, k: PaymentKey, l: PaymentKey)
    requires IdsDiffer(legs) && Repeated(legs, k) && Repeated(legs, l) && k != l
    ensures !Confusable(FirstName(legs, k), FirstName(legs, l))
  {
    var f := FindingOf(legs, k);
    var g := FindingOf(legs, l);
    assert IdOf(f.name) != IdOf(g.name);
    SameIdExactly(f.name, g.name);
  }

  /** Identifiers tell the findings apart exactly when no two repeated groups have first legs whose vendor and invoice
      texts are the same or can be confused at a colon. */
  lemma IdsDifferExactly(legs: seq<Leg>)
    ensures IdsDiffer(legs) <==> FirstNamesDiffer(legs)
  {
    if FirstNamesDiffer(legs) {
      forall f, g | f in Findings(legs) && g in Findings(legs) && f.key != g.key
        ensures IdOf(f.name) != IdOf(g.name)
      {
        DifferingNames(legs, f, g);
      }
    }
    if IdsDiffer(legs) {
      forall k, l | Repeated(legs, k) && Repeated(legs, l) && k != l
        ensures !Confusable(FirstName(legs, k), FirstName(legs, l))
      {
        DifferingIds(legs, k, l);
      }
    }
  }

  // Three ways to collide: two amounts of one invoice, two vendors without an id, and a colon in a vendor id.

  lemma AmountsCollide() returns (legs: seq<Leg>, f: Finding, g: Finding)
    ensures f in Findings(legs) && g in Findings(legs) && IdOf(f.name) == IdOf(g.name)
    ensures f.key != g.key && f.key.vendor == g.key.vendor && f.key.invoice == g.key.invoice
  {
    var x := Leg("p1", true, Some("V-1"), None, None, Some("7"), None, true, Some(5.0), "SAR");
    var y := x.(amount := Some(6.0));
    Spellings();
    legs, f, g := TwoPairs(x, y);
  }

  lemma UnknownVendorsCollide() returns (legs: seq<Leg>, f: Finding, g: Finding)
    ensures f in Findings(legs) && g in Findings(legs) && IdOf(f.name) == IdOf(g.name)
    ensures f.key.vendor != g.key.vendor && f.key.(vendor := g.key.vendor) == g.key
  {
    var x := Leg("p1", true, None, None, Some("A"), Some("7"), None, true, Some(5.0), "SAR");
    var y := x.(vendorName := Some("B"));
    OneLetter('A');
    OneLetter('B');
    OneLetter('7');
    assert "A"[0] != "B"[0];
    assert KeyOf(x).vendor == "A" && KeyOf(y).vendor == "B";
    legs, f, g := TwoPairs(x, y);
  }

  lemma ColonsCollide() returns (legs: seq<Leg>, f: Finding, g: Finding)
    ensures f in Findings(legs) && g in Findings(legs) && IdOf(f.name) == IdOf(g.name)
    ensures f.key.vendor != g.key.vendor && f.key.invoice != g.key.invoice
  {
    var x := Leg("p1", true, Some("V:1"), None, None, Some("2"), None, true, Some(5.0), "SAR");
    var y := x.(vendorId := Some("V"), invoiceNum := Some("1:2"));
    AcrossColon('V', '1');
    AcrossColon('1', '2');
    OneLetter('V');
    OneLetter('2');
    assert "V:1" == ['V', ':', '1'] && "1:2" == ['1', ':', '2'] && "V" == ['V'] && "2" == ['2'];
    assert KeyOf(x).vendor == ['V', '1'] && KeyOf(y).vendor == ['V'];
    assert KeyOf(x).invoice == ['2'] && KeyOf(y).invoice == ['1', '2'];
    assert "V:1" + ":" + "2" == "V" + ":" + "1:2";
    legs, f, g := TwoPairs(x, y);
  }

  lemma OneLetter(c: char)
    requires IsAlnum(c) && UpperChar(c) == c
    ensures Compact([c]) == [c]
  {
    assert [c][1..] == "";
  }

  lemma AcrossColon(c: char, d: char)
    requires IsAlnum(c) && UpperChar(c) == c && IsAlnum(d) && UpperChar(d) == d
    ensures Compact([c, ':', d]) == [c, d]
  {
    OneLetter(d);
    assert [c, ':', d][1..] == [':', d] && [':', d][1..] == [d];
    assert Compact([':', d]) == [d];
  }

  lemma TwoPairs(x: Leg, y: Leg) returns (legs: seq<Leg>, f: Finding, g: Finding)
    requires Eligible(x) && Eligible(y) && KeyOf(x) != KeyOf(y) && Amount(x) > 0.0 && Amount(y) > 0.0
    requires IdOf(NameOf(x)) == IdOf(NameOf(y))
    ensures f in Findings(legs) && g in Findings(legs) && f.key == KeyOf(x) && g.key == KeyOf(y)
    ensures IdOf(f.name) == IdOf(g.name)
  {
    legs := [x, x] + [y, y];
    LegsOfPairs(x, y);
    f := FindingOf(legs, KeyOf(x));
    g := FindingOf(legs, KeyOf(y));
    assert f.name == NameOf(x) && g.name == NameOf(y);
  }

  lemma LegsOfPairs(x: Leg, y: Leg)
    requires Eligible(x) && Eligible(y) && KeyOf(x) != KeyOf(y)
    ensures LegsOf([x, x] + [y, y], KeyOf(x)) == [x, x] && LegsOf([x, x] + [y, y], KeyOf(y)) == [y, y]
  {
    PairIsFound(x, [], [y, y]);
    PairIsFound(y, [x, x], []);
    assert [] + [x, x] + [y, y] == [x, x] + [y, y] == [x, x] + [y, y] + [];
  }

  lemma FindingOf(legs: seq<Leg>, k: PaymentKey) returns (f: Finding)
    requires Repeated(legs, k)
    ensures f in Findings(legs) && f.key == k && f.name == NameOf(LegsOf(legs, k)[0])
  {
    RepeatsAreReported(legs);
    FindingsAreExplained(legs);
    f :| f in Findings(legs) && f.key == k;
  }

  /** Two equal legs among legs of other keys. */
  lemma PairIsFound(x: Leg, before: seq<Leg>, after: seq<Leg>)
    requires Eligible(x)
    requires forall y :: y in before ==> KeyOf(y) != KeyOf(x)
    requires forall y :: y in after ==> KeyOf(y) != KeyOf(x)
    ensures LegsOf(before + [x, x] + after, KeyOf(x)) == [x, x]
  {
    TwoLegs(x, x, KeyOf(x));
    OtherLegs(before, KeyOf(x));
    OtherLegs(after, KeyOf(x));
    LegsInMiddle(before, [x, x], after, KeyOf(x));
  }

  lemma LegsInMiddle(before: seq<Leg>, legs: seq<Leg>, after: seq<Leg>, k: PaymentKey)
    requires LegsOf(before, k) == [] && LegsOf(after, k) == []
    ensures LegsOf(before + legs + after, k) == LegsOf(legs, k)
  {
    LegsOfConcat(before + legs, after, k);
    LegsOfConcat(before, legs, k);
  }

  lemma LegsOfConcat(a: seq<Leg>, b: seq<Leg>, k: PaymentKey)
    ensures LegsOf(a + b, k) == LegsOf(a, k) + LegsOf(b, k)
  {
    FilterOfConcat(a, b, Eligible);
    FilterOfConcat(Filter(a, Eligible), Filter(b, Eligible), HasKey(KeyOf, k));
  }

  lemma OtherLegs(legs: seq<Leg>, k: PaymentKey)
    requires forall leg :: leg in legs ==> KeyOf(leg) != k
    ensures LegsOf(legs, k) == []
  {
    FilterNone(Filter(legs, Eligible), HasKey(KeyOf, k));
  }
}
