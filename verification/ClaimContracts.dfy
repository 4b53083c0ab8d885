/**
 The numerical claim check (strategyos_mvp/claim_contracts.py).  Tokenizing is not modelled: a text
 is the list of literals found in it, with the claims its table headings make.
 */
module ClaimContracts {
  import opened Options

  datatype Scale = Thousand | Million | Billion | Trillion

  datatype Suffix = NoSuffix | Scaled(scale: Scale) | PercentSign | Bps | Points | Counted(what: nat)

  /** A literal as written: 385.1M is the coefficient 3851 with one digit after the point and the suffix M. */
  datatype Literal = Literal(currency: Option<nat>, coefficient: int, digits: nat, suffix: Suffix)

  datatype Unit = Plain | Money(currency: nat) | Percent | BasisPoints | PercentagePoints | Count(what: nat)

  /** QuantityClaim */
  datatype Claim = Claim(value: real, unit: Unit)

  /** `entries` are the literals after list numbering is dropped, `literals` those of the text as it stands. */
  datatype Text = Text(entries: seq<Literal>, literals: seq<Literal>, tables: set<Claim>)

  /** x times the factor a suffix stands for. */
  function Times(x: real, s: Scale): real {
    match s
    case Thousand => x * 1000.0
    case Million => x * 1000000.0
    case Billion => x * 1000000000.0
    case Trillion => x * 1000000000000.0
  }

  /** x with its decimal point moved n digits to the left. */
  function Shifted(x: real, n: nat): real
    decreases n
  {
    if n == 0 then x else Shifted(x / 10.0, n - 1)
  }

  function DecimalOf(l: Literal): real { Shifted(l.coefficient as real, l.digits) }

  function ValueOf(l: Literal): real {
    if l.suffix.Scaled? then Times(DecimalOf(l), l.suffix.scale) else DecimalOf(l)
  }

  function UnitOf(l: Literal): Unit {
    if l.suffix == Points then PercentagePoints
    else if l.suffix == Bps then BasisPoints
    else if l.currency.Some? then Money(l.currency.value)
    else
      match l.suffix
      case PercentSign => Percent
      case Counted(what) => Count(what)
      case _ => Plain
  }

  function ClaimOf(l: Literal): Claim { Claim(ValueOf(l), UnitOf(l)) }

  /** quantities: every claim a text makes. */
  function Quantities(t: Text): set<Claim> {
    (set l | l in t.entries :: ClaimOf(l)) + t.tables
  }

  ghost predicate Stated(c: Claim, texts: seq<Text>) {
    exists t :: t in texts && c in Quantities(t)
  }

  // ----- Display rounding -----

  function Abs(x: real): real { if x < 0.0 then -x else x }

  /** quantize(Decimal(1), rounding=ROUND_HALF_UP) */
  function RoundHalfUp(x: real): int {
    if x >= 0.0 then (x + 0.5).Floor else -((0.5 - x).Floor)
  }

  lemma {:induction false} ShiftedIsPositive(x: real, n: nat)
    requires x > 0.0
    ensures Shifted(x, n) > 0.0
    decreases n
  {
    if n > 0 {
      ShiftedIsPositive(x / 10.0, n - 1);
    }
  }

  /** What the last written digit of a scaled literal is worth. */
  function Quantum(l: Literal): (q: real)
    requires l.suffix.Scaled?
    ensures q > 0.0
  {
    ShiftedIsPositive(1.0, l.digits);
    Times(Shifted(1.0, l.digits), l.suffix.scale)
  }

  /** The multiple of the quantum a fact is rounded to. */
  function RoundedTo(fact: real, quantum: real): real
    requires quantum > 0.0
  {
    RoundHalfUp(fact / quantum) as real * quantum
  }

  /** The branch of unsupported_quantities that accepts a literal because of one fact. */
  predicate Rounds(l: Literal, fact: Claim) {
    && l.currency.Some? && l.suffix.Scaled?
    && fact.unit == Money(l.currency.value) && fact.value != 0.0
    && ValueOf(l) == RoundedTo(fact.value, Quantum(l))
    && Abs(ValueOf(l) - fact.value) / Abs(fact.value) <= 0.005
  }

  ghost predicate RoundedIn(c: Claim, t: Text, allowed: set<Claim>) {
    exists l, fact :: l in t.literals && fact in allowed && Rounds(l, fact) && c == ClaimOf(l)
  }

  ghost predicate Backed(c: Claim, t: Text, allowed: set<Claim>) {
    c in allowed || RoundedIn(c, t, allowed)
  }

  ghost predicate Unsupported(c: Claim, candidate: seq<Text>, allowed: set<Claim>) {
    exists t :: t in candidate && c in Quantities(t) && !Backed(c, t, allowed)
  }

  ghost predicate IsAllowed(allowed: set<Claim>, approved: seq<Text>) {
    forall c :: c in allowed <==> Stated(c, approved)
  }

  /** The approved claims, as one set. */
  ghost function TheAllowed(approved: seq<Text>): (allowed: set<Claim>)
    ensures IsAllowed(allowed, approved)
  {
    set t, c | t in approved && c in Quantities(t) :: c
  }

  /** unsupported_quantities == {} */
  ghost predicate Supported(candidate: seq<Text>, approved: seq<Text>) {
    forall c :: !Unsupported(c, candidate, TheAllowed(approved))
  }

  // ----- The loops -----

  method AllowedClaims(approved: seq<Text>) returns (allowed: set<Claim>)
    ensures IsAllowed(allowed, approved)
  {
    allowed := {};
    for i := 0 to |approved|
      invariant IsAllowed(allowed, approved[..i])
    {
      StatedMore(approved[..i], approved[i]);
      assert approved[..i] + [approved[i]] == approved[..i + 1];
      allowed := allowed + Quantities(approved[i]);
    }
    assert approved[..|approved|] == approved;
  }

  lemma StatedMore(texts: seq<Text>, t: Text)
    ensures forall c :: Stated(c, texts + [t]) <==> Stated(c, texts) || c in Quantities(t)
  {
    assert t in texts + [t];
    assert forall u :: u in texts ==> u in texts + [t];
  }

  method RoundedFrom(l: Literal, allowed: set<Claim>) returns (rounds: bool)
    ensures rounds <==> exists fact :: fact in allowed && Rounds(l, fact)
  {
    rounds := false;
    var rest := allowed;
    while rest != {}
      invariant rest <= allowed
      invariant rounds <==> exists fact :: fact in allowed - rest && Rounds(l, fact)
    {
      var fact :| fact in rest;
      if Rounds(l, fact) {
        rounds := true;
      }
      rest := rest - {fact};
    }
  }

  method RoundedClaims(t: Text, allowed: set<Claim>) returns (rounded: set<Claim>)
    ensures forall c :: c in rounded <==> RoundedIn(c, t, allowed)
  {
    rounded := {};
    for i := 0 to |t.literals|
      invariant forall c :: c in rounded <==>
        exists l, fact :: l in t.literals[..i] && fact in allowed && Rounds(l, fact) && c == ClaimOf(l)
    {
      var l := t.literals[i];
      var rounds := RoundedFrom(l, allowed);
      assert t.literals[..i + 1] == t.literals[..i] + [l];
      if rounds {
        rounded := rounded + {Claim(ValueOf(l), Money(l.currency.value))};
      }
    }
    assert t.literals[..|t.literals|] == t.literals;
  }

  method UnsupportedQuantities(candidate: seq<Text>, approved: seq<Text>) returns (missing: set<Claim>)
    ensures forall c :: c in missing <==> Unsupported(c, candidate, TheAllowed(approved))
  {
    var allowed := AllowedClaims(approved);
    assert allowed == TheAllowed(approved);
    missing := {};
    for i := 0 to |candidate|
      invariant forall c :: c in missing <==> Unsupported(c, candidate[..i], allowed)
    {
      var rounded := RoundedClaims(candidate[i], allowed);
      UnsupportedMore(candidate[..i], candidate[i], allowed);
      assert candidate[..i] + [candidate[i]] == candidate[..i + 1];
      missing := missing + (Quantities(candidate[i]) - allowed - rounded);
    }
    assert candidate[..|candidate|] == candidate;
  }

  lemma UnsupportedMore(texts: seq<Text>, t: Text, allowed: set<Claim>)
    ensures forall c :: Unsupported(c, texts + [t], allowed) <==>
              Unsupported(c, texts, allowed) || (c in Quantities(t) && !Backed(c, t, allowed))
  {
    assert t in texts + [t];
    assert forall u :: u in texts ==> u in texts + [t];
  }

  /** claims_supported */
  method ClaimsSupported(candidate: seq<Text>, approved: seq<Text>) returns (ok: bool)
    ensures ok <==> Supported(candidate, approved)
  {
    var missing := UnsupportedQuantities(candidate, approved);
    ok := missing == {};
    if !ok {
      var c :| c in missing;
      assert Unsupported(c, candidate, TheAllowed(approved));
    }
  }

  // ----- What rounding means -----

  /** Multiplying by a positive number keeps the order. */
  lemma Scaling(a: real, b: real, q: real, aq: real, bq: real)
    requires q > 0.0 && aq == a * q && bq == b * q
    ensures a < b <==> aq < bq
    ensures a == b <==> aq == bq
  {
    if a < b {
      assert (b - a) * q > 0.0;
    } else if b < a {
      assert (a - b) * q > 0.0;
    }
  }

  /** The nearest integer, a tie going away from zero. */
  ghost predicate Nearest(r: real, x: real) {
    Abs(r - x) < 0.5 || (Abs(r - x) == 0.5 && Abs(r) > Abs(x))
  }

  lemma RoundHalfUpIsNearest(x: real, k: int)
    ensures k == RoundHalfUp(x) <==> Nearest(k as real, x)
  {
    var r := RoundHalfUp(x);
    assert Nearest(r as real, x);
    if k < r {
      assert k as real <= r as real - 1.0;
    } else if k > r {
      assert k as real >= r as real + 1.0;
    }
  }

  /** The same at the precision of a literal. */
  ghost predicate NearestMultiple(value: real, fact: real, quantum: real) {
    Abs(value - fact) < quantum / 2.0 || (Abs(value - fact) == quantum / 2.0 && Abs(value) > Abs(fact))
  }

  lemma AbsScales(a: real, q: real, aq: real)
    requires q > 0.0 && aq == a * q
    ensures Abs(aq) == Abs(a) * q
  {
    Scaling(a, 0.0, q, aq, 0.0);
  }

  lemma DistanceScales(a: real, b: real, q: real, aq: real, bq: real)
    requires q > 0.0 && aq == a * q && bq == b * q
    ensures Abs(a - b) < 0.5 <==> Abs(aq - bq) < q / 2.0
    ensures Abs(a - b) == 0.5 <==> Abs(aq - bq) == q / 2.0
  {
    assert aq - bq == (a - b) * q;
    AbsScales(a - b, q, aq - bq);
    Scaling(Abs(a - b), 0.5, q, Abs(aq - bq), q / 2.0);
  }

  lemma SizeScales(a: real, b: real, q: real, aq: real, bq: real)
    requires q > 0.0 && aq == a * q && bq == b * q
    ensures Abs(a) > Abs(b) <==> Abs(aq) > Abs(bq)
  {
    AbsScales(a, q, aq);
    AbsScales(b, q, bq);
    Scaling(Abs(b), Abs(a), q, Abs(bq), Abs(aq));
  }

  lemma NearestScales(k: real, x: real, q: real, kq: real, xq: real)
    requires q > 0.0 && kq == k * q && xq == x * q
    ensures Nearest(k, x) <==> NearestMultiple(kq, xq, q)
  {
    DistanceScales(k, x, q, kq, xq);
    SizeScales(k, x, q, kq, xq);
  }

  /** A multiple of the quantum is the rounded quotient times the quantum exactly when it is nearest. */
  lemma RoundedMultiple(value: real, k: int, fact: real, q: real)
    requires q > 0.0 && value == k as real * q
    ensures value == RoundedTo(fact, q) <==> NearestMultiple(value, fact, q)
  {
    var x := fact / q;
    var r := RoundHalfUp(x);
    assert fact == x * q;
    RoundHalfUpIsNearest(x, k);
    NearestScales(k as real, x, q, value, fact);
    Scaling(k as real, r as real, q, value, RoundedTo(fact, q));
  }

  lemma {:induction false} ShiftedMultiple(k: int, x: real, kx: real, n: nat)
    requires kx == k as real * x
    ensures Shifted(kx, n) == k as real * Shifted(x, n)
    decreases n
  {
    if n > 0 {
      ShiftedMultiple(k, x / 10.0, kx / 10.0, n - 1);
    }
  }

  lemma ValueIsMultiple(l: Literal)
    requires l.suffix.Scaled?
    ensures ValueOf(l) == l.coefficient as real * Quantum(l)
  {
    ShiftedMultiple(l.coefficient, 1.0, l.coefficient as real, l.digits);
  }

  lemma Ratio(d: real, f: real)
    requires f > 0.0
    ensures d / f <= 0.005 <==> d <= 0.005 * f
  {
    var r := d / f;
    assert r * f == d;
    Scaling(0.005, r, f, 0.005 * f, d);
  }

  /** Exactly the literals accepted as a rounding of a fact: of the same currency, a multiple of the literal's own
      quantum nearest to the fact with ties away from zero, and within half a percent of it. */
  lemma RoundsExactly(l: Literal, fact: Claim)
    ensures Rounds(l, fact) <==>
              && l.currency.Some? && l.suffix.Scaled? && fact.unit == Money(l.currency.value) && fact.value != 0.0
              && NearestMultiple(ValueOf(l), fact.value, Quantum(l))
              && Abs(ValueOf(l) - fact.value) <= 0.005 * Abs(fact.value)
  {
    if l.suffix.Scaled? && fact.value != 0.0 {
      ValueIsMultiple(l);
      RoundedMultiple(ValueOf(l), l.coefficient, fact.value, Quantum(l));
      Ratio(Abs(ValueOf(l) - fact.value), Abs(fact.value));
    }
  }

  /** A claim that passes is an approved one, or within half a quantum and half a percent of an approved amount
      in the same currency, and of its sign. */
  ghost predicate CloseTo(c: Claim, l: Literal, fact: Claim) {
    && c == ClaimOf(l) && c.unit == fact.unit && c.unit.Money? && l.suffix.Scaled?
    && Abs(c.value - fact.value) <= Quantum(l) / 2.0
    && Abs(c.value - fact.value) <= 0.005 * Abs(fact.value)
    && (c.value > 0.0 <==> fact.value > 0.0) && c.value != 0.0
  }

  lemma RoundedIsClose(l: Literal, fact: Claim)
    requires Rounds(l, fact)
    ensures CloseTo(ClaimOf(l), l, fact)
  {
    RoundsExactly(l, fact);
  }

  lemma AcceptedClaims(candidate: seq<Text>, approved: seq<Text>, t: Text, c: Claim)
    requires Supported(candidate, approved) && t in candidate && c in Quantities(t)
    ensures Stated(c, approved) || exists l, fact :: l in t.literals && Stated(fact, approved) && CloseTo(c, l, fact)
  {
    var allowed := TheAllowed(approved);
    assert !Unsupported(c, candidate, allowed);
    if c !in allowed {
      var l, fact :| l in t.literals && fact in allowed && Rounds(l, fact) && c == ClaimOf(l);
      RoundedIsClose(l, fact);
      assert Stated(fact, approved);
    }
  }

  /** More evidence never makes a supported claim unsupported. */
  lemma SupportIsMonotone(candidate: seq<Text>, approved: seq<Text>, more: seq<Text>)
    requires Supported(candidate, approved)
    requires forall c :: Stated(c, approved) ==> Stated(c, more)
    ensures Supported(candidate, more)
  {
    var fewer, allowed := TheAllowed(approved), TheAllowed(more);
    assert fewer <= allowed;
    forall c ensures !Unsupported(c, candidate, allowed) {
      assert !Unsupported(c, candidate, fewer);
      forall t | t in candidate && c in Quantities(t) ensures Backed(c, t, allowed) {
        assert Backed(c, t, fewer);
      }
    }
  }

  /** Every text supports itself. */
  lemma TextSupportsItself(texts: seq<Text>)
    ensures Supported(texts, texts)
  {
    forall c ensures !Unsupported(c, texts, TheAllowed(texts)) {
      assert c in TheAllowed(texts) <==> Stated(c, texts);
    }
  }

  /** A text's claims stand or fall by that text: no other candidate's literal can license them. */
  lemma TextsAreJudgedAlone(a: seq<Text>, b: seq<Text>, approved: seq<Text>)
    ensures Supported(a + b, approved) <==> Supported(a, approved) && Supported(b, approved)
  {
    var allowed := TheAllowed(approved);
    forall c ensures Unsupported(c, a + b, allowed) <==> Unsupported(c, a, allowed) || Unsupported(c, b, allowed) {
      assert forall t :: t in a + b <==> t in a || t in b;
    }
  }

  // ----- Roundings of roundings -----

  function IntTen(k: nat): (n: nat)
    ensures n >= 1 && (k >= 1 ==> n % 2 == 0)
  {
    if k == 0 then 1 else 10 * IntTen(k - 1)
  }

  /** A power of ten. */
  function Ten(e: int): (r: real)
    ensures r > 0.0
    decreases if e < 0 then -e else e
  {
    if e == 0 then 1.0 else if e > 0 then 10.0 * Ten(e - 1) else Ten(e + 1) / 10.0
  }

  /** k times x, by adding. */
  function Multiple(k: int, x: real): real
    decreases if k < 0 then -k else k
  {
    if k == 0 then 0.0 else if k > 0 then Multiple(k - 1, x) + x else Multiple(k + 1, x) - x
  }

  lemma {:induction false} MultipleIsProduct(k: int, x: real)
    ensures Multiple(k, x) == k as real * x
    decreases if k < 0 then -k else k
  {
    if k > 0 {
      MultipleIsProduct(k - 1, x);
      assert k as real == (k - 1) as real + 1.0;
    } else if k < 0 {
      MultipleIsProduct(k + 1, x);
      assert k as real == (k + 1) as real - 1.0;
    }
  }

  lemma MultipleNext(k: int, x: real)
    ensures Multiple(k + 1, x) == Multiple(k, x) + x
  {
  }

  lemma {:induction false} MultipleSum(a: int, b: int, x: real)
    ensures Multiple(a + b, x) == Multiple(a, x) + Multiple(b, x)
    decreases if b < 0 then -b else b
  {
    if b > 0 {
      MultipleSum(a, b - 1, x);
      MultipleNext(a + b - 1, x);
    } else if b < 0 {
      MultipleSum(a, b + 1, x);
      MultipleNext(a + b, x);
    }
  }

  lemma {:induction false} MultipleOfMultiple(a: int, c: int, x: real)
    ensures Multiple(a, Multiple(c, x)) == Multiple(a * c, x)
    decreases if a < 0 then -a else a
  {
    if a > 0 {
      MultipleOfMultiple(a - 1, c, x);
      MultipleSum((a - 1) * c, c, x);
      assert (a - 1) * c + c == a * c;
    } else if a < 0 {
      MultipleOfMultiple(a + 1, c, x);
      MultipleSum((a + 1) * c, -c, x);
      MultipleSum(c, -c, x);
      assert (a + 1) * c - c == a * c;
    }
  }

  lemma {:induction false} MultipleGrows(k: nat, x: real)
    requires x > 0.0
    ensures Multiple(k, x) >= 0.0 && (k >= 1 ==> Multiple(k, x) >= x) && (k >= 2 ==> Multiple(k, x) >= 2.0 * x)
  {
    if k > 0 {
      MultipleGrows(k - 1, x);
    }
  }

  /** The distance of two multiples is a multiple. */
  lemma MultipleDistance(a: int, b: int, x: real)
    requires x > 0.0
    ensures Abs(Multiple(a, x) - Multiple(b, x)) == Multiple(if a < b then b - a else a - b, x)
  {
    if a < b {
      MultipleSum(a, b - a, x);
      MultipleGrows(b - a, x);
    } else {
      MultipleSum(b, a - b, x);
      MultipleGrows(a - b, x);
    }
  }

  lemma MultipleOfTen(n: nat, x: real)
    ensures Multiple(10 * n, x) == 10.0 * Multiple(n, x)
  {
    MultipleOfMultiple(10, n, x);
    MultipleIsProduct(10, Multiple(n, x));
  }

  lemma {:induction false} TenSum(e: int, k: nat)
    ensures Ten(e + k) == Multiple(IntTen(k), Ten(e))
    decreases k
  {
    if k > 0 {
      TenSum(e, k - 1);
      assert Ten(e + k) == 10.0 * Ten(e + k - 1);
      MultipleOfTen(IntTen(k - 1), Ten(e));
    } else {
      assert Multiple(1, Ten(e)) == Multiple(0, Ten(e)) + Ten(e);
    }
  }

  lemma {:induction false} ShiftedTen(e: int, n: nat)
    ensures Shifted(Ten(e), n) == Ten(e - n)
    decreases n
  {
    if n > 0 {
      assert Ten(e) / 10.0 == Ten(e - 1);
      ShiftedTen(e - 1, n - 1);
    }
  }

  function Exponent(s: Scale): nat {
    match s
    case Thousand => 3
    case Million => 6
    case Billion => 9
    case Trillion => 12
  }

  lemma ThousandTimes(e: int)
    ensures Ten(e + 3) == Ten(e) * 1000.0
  {
    assert Ten(e + 1) == 10.0 * Ten(e);
    assert Ten(e + 2) == 10.0 * Ten(e + 1);
    assert Ten(e + 3) == 10.0 * Ten(e + 2);
  }

  lemma TimesTen(e: int, s: Scale)
    ensures Times(Ten(e), s) == Ten(e + Exponent(s))
  {
    ThousandTimes(e);
    ThousandTimes(e + 3);
    ThousandTimes(e + 6);
    ThousandTimes(e + 9);
  }

  /** The quantum of a literal as a power of ten. */
  lemma QuantumIsTen(l: Literal)
    requires l.suffix.Scaled?
    ensures Quantum(l) == Ten(Exponent(l.suffix.scale) - l.digits)
  {
    ShiftedTen(0, l.digits);
    TimesTen(0 - l.digits, l.suffix.scale);
  }

  lemma {:induction false} TenGrows(e: int, k: nat)
    ensures Ten(e) <= Ten(e + k)
    ensures k >= 1 ==> Ten(e) < Ten(e + k)
    decreases k
  {
    if k > 0 {
      TenGrows(e, k - 1);
      assert Ten(e + k) == 10.0 * Ten(e + k - 1);
    }
  }

  /** A coarser quantum is an even multiple of a finer one. */
  lemma QuantaDivide(l: Literal, m: Literal) returns (c: nat)
    requires l.suffix.Scaled? && m.suffix.Scaled? && Quantum(l) >= Quantum(m)
    ensures c >= 1 && Quantum(l) == Multiple(c, Quantum(m))
    ensures Quantum(l) > Quantum(m) ==> c % 2 == 0
  {
    QuantumIsTen(l);
    QuantumIsTen(m);
    var e: int, f: int := Exponent(l.suffix.scale) - l.digits, Exponent(m.suffix.scale) - m.digits;
    if e < f {
      TenGrows(e, f - e);
    }
    c := IntTen(e - f);
    TenSum(f, e - f);
  }

  lemma {:induction false} SmallerMultiple(size: nat, half: nat, p: real)
    requires p > 0.0 && Multiple(size, p) < Multiple(half, p)
    ensures Multiple(size, p) <= Multiple(half, p) - p
    decreases half
  {
    if half == 0 {
      MultipleGrows(size, p);
    } else if size > 0 {
      SmallerMultiple(size - 1, half - 1, p);
    } else {
      MultipleGrows(half, p);
    }
  }

  /** Multiples of p less than half of an even multiple of p apart are at least p closer than that. */
  lemma Gap(a: int, b: int, half: nat, p: real)
    requires p > 0.0 && Abs(Multiple(a, p) - Multiple(b, p)) < Multiple(half + half, p) / 2.0
    ensures Abs(Multiple(a, p) - Multiple(b, p)) <= Multiple(half + half, p) / 2.0 - p
  {
    MultipleDistance(a, b, p);
    MultipleSum(half, half, p);
    SmallerMultiple(if a < b then b - a else a - b, half, p);
  }

  /** A multiple of q nearest to a multiple of q is that multiple. */
  lemma NearestToMultiple(a: int, b: int, q: real)
    requires q > 0.0 && NearestMultiple(Multiple(a, q), Multiple(b, q), q)
    ensures a == b
  {
    MultipleDistance(a, b, q);
    MultipleGrows(if a < b then b - a else a - b, q);
  }

  predicate SameSign(x: real, y: real) { (x > 0.0 && y > 0.0) || (x < 0.0 && y < 0.0) }

  /** The outcome at a coarser quantum q: only a tie at q that the finer rounding made can go wrong. */
  lemma CoarserOutcome(l: real, m: real, n: real, q: real, p: real)
    requires p > 0.0 && q >= 2.0 * p && SameSign(l, m) && SameSign(m, n)
    requires NearestMultiple(l, m, q) && NearestMultiple(m, n, p)
    requires Abs(l - m) < q / 2.0 ==> Abs(l - m) <= q / 2.0 - p
    ensures NearestMultiple(l, n, q) <==> Abs(l - m) < q / 2.0 || Abs(n) >= Abs(m)
  {
    if Abs(l - m) < q / 2.0 {
      assert Abs(l - n) < q / 2.0;
    } else if m > 0.0 {
      assert l == m + q / 2.0;
    } else {
      assert l == m - q / 2.0;
    }
  }

  /** When a rounding of a rounding is a rounding: exactly when it stays within half a percent and, at a coarser
      quantum, the intermediate value was no tie or the finer rounding did not move it away from zero; at a finer
      or equal one, the intermediate value, unchanged, is nearest at that quantum already. */
  ghost predicate Chains(l: Literal, m: Literal, fact: Claim)
    requires l.suffix.Scaled? && m.suffix.Scaled?
  {
    && Abs(ValueOf(l) - fact.value) <= 0.005 * Abs(fact.value)
    && if Quantum(l) > Quantum(m)
       then Abs(ValueOf(l) - ValueOf(m)) < Quantum(l) / 2.0 || Abs(fact.value) >= Abs(ValueOf(m))
       else NearestMultiple(ValueOf(m), fact.value, Quantum(l))
  }

  lemma ValueIsMultipleOf(l: Literal)
    requires l.suffix.Scaled?
    ensures ValueOf(l) == Multiple(l.coefficient, Quantum(l))
  {
    ValueIsMultiple(l);
    MultipleIsProduct(l.coefficient, Quantum(l));
  }

  lemma CoarserChains(l: Literal, m: Literal, n: real)
    requires l.suffix.Scaled? && m.suffix.Scaled? && Quantum(l) > Quantum(m)
    requires NearestMultiple(ValueOf(l), ValueOf(m), Quantum(l)) && NearestMultiple(ValueOf(m), n, Quantum(m))
    requires SameSign(ValueOf(l), ValueOf(m)) && SameSign(ValueOf(m), n)
    ensures NearestMultiple(ValueOf(l), n, Quantum(l)) <==>
            Abs(ValueOf(l) - ValueOf(m)) < Quantum(l) / 2.0 || Abs(n) >= Abs(ValueOf(m))
  {
    var p := Quantum(m);
    var c := QuantaDivide(l, m);
    ValueIsMultipleOf(l);
    ValueIsMultipleOf(m);
    MultipleOfMultiple(l.coefficient, c, p);
    MultipleGrows(c, p);
    if Abs(ValueOf(l) - ValueOf(m)) < Quantum(l) / 2.0 {
      Gap(l.coefficient * c, m.coefficient, c / 2, p);
    }
    CoarserOutcome(ValueOf(l), ValueOf(m), n, Quantum(l), p);
  }

  lemma FinerIsUnchanged(l: Literal, m: Literal)
    requires l.suffix.Scaled? && m.suffix.Scaled? && Quantum(l) <= Quantum(m)
    requires NearestMultiple(ValueOf(l), ValueOf(m), Quantum(l))
    ensures ValueOf(l) == ValueOf(m)
  {
    var c := QuantaDivide(m, l);
    ValueIsMultipleOf(l);
    ValueIsMultipleOf(m);
    MultipleOfMultiple(m.coefficient, c, Quantum(l));
    NearestToMultiple(l.coefficient, m.coefficient * c, Quantum(l));
  }

  /** What an accepted rounding gives. */
  lemma RoundsGives(l: Literal, fact: Claim)
    requires Rounds(l, fact)
    ensures l.currency.Some? && l.suffix.Scaled? && fact.unit == Money(l.currency.value) && fact.value != 0.0
    ensures NearestMultiple(ValueOf(l), fact.value, Quantum(l)) && SameSign(ValueOf(l), fact.value)
  {
    RoundsExactly(l, fact);
    RoundedIsClose(l, fact);
  }

  /** A rounding of a rounding of a fact is a rounding of the fact if and only if Chains says so. */
  lemma ChainsExactly(l: Literal, m: Literal, fact: Claim)
    requires Rounds(l, ClaimOf(m)) && Rounds(m, fact)
    ensures Rounds(l, fact) <==> Chains(l, m, fact)
  {
    RoundsGives(l, ClaimOf(m));
    RoundsGives(m, fact);
    RoundsExactly(l, fact);
    if Quantum(l) > Quantum(m) {
      CoarserChains(l, m, fact.value);
    } else {
      FinerIsUnchanged(l, m);
    }
  }

  // ----- What a literal claims -----

  /** The unit a literal is written in: points and basis points whatever stands before them, else its currency, else
      its suffix; the scales are no units. */
  ghost predicate WrittenIn(l: Literal, unit: Unit) {
    match unit
    case PercentagePoints => l.suffix == Points
    case BasisPoints => l.suffix == Bps
    case Money(k) => l.currency == Some(k) && l.suffix != Points && l.suffix != Bps
    case Percent => l.currency == None && l.suffix == PercentSign
    case Count(what) => l.currency == None && l.suffix == Counted(what)
    case Plain => l.currency == None && (l.suffix == NoSuffix || exists s :: l.suffix == Scaled(s))
  }

  /** Every literal is written in exactly the unit it claims. */
  lemma UnitIsWritten(l: Literal, unit: Unit)
    ensures UnitOf(l) == unit <==> WrittenIn(l, unit)
  {
    assert l.suffix.Scaled? ==> l.suffix == Scaled(l.suffix.scale);
  }

  /** The value of a literal: its coefficient, with the decimal point moved by its scale and its digits. */
  lemma ValueIsWritten(l: Literal)
    ensures var scale := if l.suffix.Scaled? then Exponent(l.suffix.scale) else 0;
            ValueOf(l) == l.coefficient as real * Ten(scale - l.digits)
  {
    if l.suffix.Scaled? {
      ValueIsMultiple(l);
      QuantumIsTen(l);
    } else {
      DecimalIsWritten(l);
    }
  }

  lemma DecimalIsWritten(l: Literal)
    ensures DecimalOf(l) == l.coefficient as real * Ten(0 - l.digits)
  {
    ShiftedMultiple(l.coefficient, 1.0, l.coefficient as real, l.digits);
    ShiftedTen(0, l.digits);
  }

  /** A text makes a claim: a literal of it has that value and is written in that unit, or a heading of a table. */
  ghost predicate Makes(t: Text, c: Claim) {
    c in t.tables || exists l :: l in t.entries && ValueOf(l) == c.value && WrittenIn(l, c.unit)
  }

  lemma QuantitiesAreMade(t: Text, c: Claim)
    ensures c in Quantities(t) <==> Makes(t, c)
  {
    forall l | l in t.entries ensures ClaimOf(l) == c <==> ValueOf(l) == c.value && WrittenIn(l, c.unit) {
      UnitIsWritten(l, c.unit);
    }
  }

  ghost predicate IsMoney(unit: Unit) { exists k :: unit == Money(k) }

  /** A claim that is no money amount is accepted exactly when an approved text makes that very claim: the same value
      in the same unit. */
  lemma OtherUnitsExactly(candidate: seq<Text>, approved: seq<Text>, t: Text, c: Claim)
    requires t in candidate && c in Quantities(t) && !IsMoney(c.unit)
    ensures !Unsupported(c, candidate, TheAllowed(approved)) <==> exists u :: u in approved && Makes(u, c)
  {
    forall u ensures c in Quantities(u) <==> Makes(u, c) {
      QuantitiesAreMade(u, c);
    }
    forall v ensures !RoundedIn(c, v, TheAllowed(approved)) {
      forall l, fact | Rounds(l, fact) ensures c != ClaimOf(l) {
        assert ClaimOf(l).unit == Money(l.currency.value);
      }
    }
    assert c in TheAllowed(approved) <==> Stated(c, approved);
  }

  /** Percent, percentage points and basis points never stand for each other: a claim in one of them fails where no
      approved literal is written in it and no approved table states it. */
  lemma RatiosStandAlone(candidate: seq<Text>, approved: seq<Text>, t: Text, l: Literal)
    requires t in candidate && l in t.entries
    requires l.suffix == Points || l.suffix == Bps || (l.suffix == PercentSign && l.currency == None)
    requires forall u, m :: u in approved && m in u.entries ==> m.suffix != l.suffix
    requires forall u, c :: u in approved && c in u.tables ==> c.unit != UnitOf(l)
    ensures !Supported(candidate, approved)
  {
    var c := ClaimOf(l);
    assert c in Quantities(t);
    OtherUnitsExactly(candidate, approved, t, c);
    assert forall u, m :: u in approved && m in u.entries ==> !WrittenIn(m, c.unit);
  }

  function Amount(coefficient: int, digits: nat, scale: Scale): Text {
    var l := Literal(Some(0), coefficient, digits, Scaled(scale));
    Text([l], [l], {})
  }

  /** What the three amounts below are worth. */
  lemma Amounts(l: Literal, m: Literal, n: Literal)
    requires l == Amount(101, 2, Million).literals[0]
    requires m == Amount(1005, 0, Thousand).literals[0]
    requires n == Amount(10045, 1, Thousand).literals[0]
    ensures ValueOf(l) == 1010000.0 && Quantum(l) == 10000.0
    ensures ValueOf(m) == 1005000.0 && Quantum(m) == 1000.0
    ensures ValueOf(n) == 1004500.0
  {
    assert Shifted(101.0, 2) == Shifted(10.1, 1) == Shifted(1.01, 0);
    assert Shifted(1.0, 2) == Shifted(0.1, 1) == Shifted(0.01, 0);
    assert Shifted(10045.0, 1) == Shifted(1004.5, 0);
  }

  /** Support is not transitive: 1.01M may be written for 1005K and 1005K for 1004.5K, but not 1.01M for 1004.5K. */
  lemma SupportIsNotTransitive()
    ensures var a, b, c := Amount(101, 2, Million), Amount(1005, 0, Thousand), Amount(10045, 1, Thousand);
            Supported([a], [b]) && Supported([b], [c]) && !Supported([a], [c])
  {
    var a, b, c := Amount(101, 2, Million), Amount(1005, 0, Thousand), Amount(10045, 1, Thousand);
    var l, m, n := a.literals[0], b.literals[0], c.literals[0];
    OneAmount(a, b);
    OneAmount(b, c);
    OneAmount(a, c);
    Amounts(l, m, n);
    RoundsExactly(l, ClaimOf(m));
    RoundsExactly(m, ClaimOf(n));
    ChainsExactly(l, m, ClaimOf(n));
  }

  lemma OneAmount(a: Text, b: Text)
    requires |a.entries| == |b.entries| == 1 && a.literals == a.entries && a.tables == b.tables == {}
    ensures Supported([a], [b]) <==>
              ClaimOf(a.entries[0]) == ClaimOf(b.entries[0]) || Rounds(a.literals[0], ClaimOf(b.entries[0]))
  {
    var x, y := ClaimOf(a.entries[0]), ClaimOf(b.entries[0]);
    assert Quantities(a) == {x} && Quantities(b) == {y};
    var allowed := TheAllowed([b]);
    assert b in [b];
    assert allowed == {y};
    assert RoundedIn(x, a, allowed) <==> Rounds(a.literals[0], y);
    assert a in [a];
    if Supported([a], [b]) {
      assert !Unsupported(x, [a], allowed);
    } else {
      var c :| Unsupported(c, [a], allowed);
      assert c == x;
    }
  }
}
