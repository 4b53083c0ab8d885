/**
 The authority matrix (strategyos_mvp/authority_matrix.py): a document is normalized before it is
 stored, and every save is a compare-and-swap on the version that also appends to an audit log.
 */
module AuthorityMatrix {
  import opened Options
  import opened Strings

  datatype Right = NoRight | View | Analyse | Recommend | ActWithApproval

  datatype Domain = Finance | Hr | Contracts | BoardMaterials | AssistantTeam

  const DOMAINS: seq<Domain> := [Finance, Hr, Contracts, BoardMaterials, AssistantTeam]

  /** The text of a right as it arrives; a missing one counts as none. */
  datatype RawRight = Known(right: Right) | Unknown(text: nat)

  /** A subject as it arrives; missing texts are None. */
  datatype RawSubject =
    | NotMapping
    | RawSubject(id: string, caption: Option<string>, kind: Option<string>, rights: map<Domain, RawRight>)

  /** The entries of a document besides its domains, subjects and version; values are only carried along. */
  datatype Field = PolicyId | Section | Status | ApproverChains | UpdatedAt | UpdatedBy | OtherField(name: nat)

  /** A document as it arrives: unknown domains are None, missing domains and subjects are empty lists. */
  datatype Raw = Raw(domains: seq<Option<Domain>>, subjects: seq<RawSubject>, version: Option<int>,
                     fields: map<Field, nat>)

  datatype Subject = Subject(id: string, caption: string, kind: string, rights: map<Domain, Right>)

  datatype Matrix = Matrix(domains: seq<Domain>, subjects: seq<Subject>, version: int, fields: map<Field, nat>)

  // ----- Normalization -----

  function SubjectId(raw: string): string { Lower(Strip(raw)) }

  function BeforeColon(id: string): string {
    if id == "" || id[0] == ':' then "" else [id[0]] + BeforeColon(id[1..])
  }

  function KnownDomains(domains: seq<Option<Domain>>): seq<Domain> {
    if domains == [] then []
    else (if domains[0].Some? then [domains[0].value] else []) + KnownDomains(domains[1..])
  }

  function DomainsOf(raw: Raw): seq<Domain> {
    if raw.domains == [] then DOMAINS else KnownDomains(raw.domains)
  }

  function RightOf(rights: map<Domain, RawRight>, d: Domain): RawRight {
    if d in rights then rights[d] else Known(NoRight)
  }

  /** The right granted per domain; None when one of them is not a right. */
  function RightsOf(rights: map<Domain, RawRight>, domains: seq<Domain>): Option<map<Domain, Right>> {
    if exists d :: d in domains && RightOf(rights, d).Unknown? then None
    else Some(map d | d in domains :: RightOf(rights, d).right)
  }

  function OrElse(text: Option<string>, other: string): string {
    if text.Some? && text.value != "" then text.value else other
  }

  predicate Skipped(raw: RawSubject, seen: set<string>) {
    raw.NotMapping? || SubjectId(raw.id) == "" || SubjectId(raw.id) in seen || ':' !in SubjectId(raw.id)
  }

  function SubjectOf(raw: RawSubject, rights: map<Domain, Right>): Subject
    requires raw.RawSubject?
  {
    var id := SubjectId(raw.id);
    Subject(id, OrElse(raw.caption, id), OrElse(raw.kind, BeforeColon(id)), rights)
  }

  /** The subjects kept, in order, the first of each id; None when one of them holds an invalid right. */
  function Subjects(raws: seq<RawSubject>, domains: seq<Domain>, seen: set<string>): Option<seq<Subject>> {
    if raws == [] then Some([])
    else if Skipped(raws[0], seen) then Subjects(raws[1..], domains, seen)
    else
      match (RightsOf(raws[0].rights, domains), Subjects(raws[1..], domains, seen + {SubjectId(raws[0].id)}))
      case (Some(rights), Some(rest)) => Some([SubjectOf(raws[0], rights)] + rest)
      case _ => None
  }

  /** The other entries of the default document, in a code of our own. */
  const DEFAULT_FIELDS: map<Field, nat> :=
    map[PolicyId := 0, Section := 1, Status := 2, ApproverChains := 3, UpdatedAt := 4, UpdatedBy := 5]

  function AtLeastOne(version: Option<int>): int {
    if version.Some? && version.value > 1 then version.value else 1
  }

  /** The normalized document; None where the source raises ValueError. */
  function Normalize(raw: Raw): Option<Matrix> {
    match Subjects(raw.subjects, DomainsOf(raw), {})
    case None => None
    case Some(subjects) =>
      if subjects == [] then None
      else Some(Matrix(DomainsOf(raw), subjects, AtLeastOne(raw.version), DEFAULT_FIELDS + raw.fields))
  }

  ghost function Joined(a: seq<Subject>, b: Option<seq<Subject>>): Option<seq<Subject>> {
    if b.Some? then Some(a + b.value) else None
  }

  lemma JoinedNothing(b: Option<seq<Subject>>)
    ensures Joined([], b) == b
  {
    if b.Some? {
      assert [] + b.value == b.value;
    }
  }

  lemma SubjectsStep(raws: seq<RawSubject>, i: nat, domains: seq<Domain>, seen: set<string>, done: seq<Subject>)
    requires i < |raws|
    ensures var rest := Subjects(raws[i..], domains, seen);
            && (Skipped(raws[i], seen) ==> rest == Subjects(raws[i + 1..], domains, seen))
            && (!Skipped(raws[i], seen) ==>
                  var rights := RightsOf(raws[i].rights, domains);
                  && (rights.None? ==> rest == None)
                  && (rights.Some? ==>
                        var more := Subjects(raws[i + 1..], domains, seen + {SubjectId(raws[i].id)});
                        Joined(done, rest) == Joined(done + [SubjectOf(raws[i], rights.value)], more)))
  {
    assert raws[i..][1..] == raws[i + 1..];
    if !Skipped(raws[i], seen) && RightsOf(raws[i].rights, domains).Some? {
      var more := Subjects(raws[i + 1..], domains, seen + {SubjectId(raws[i].id)});
      if more.Some? {
        var one := [SubjectOf(raws[i], RightsOf(raws[i].rights, domains).value)];
        assert done + one + more.value == done + (one + more.value);
      }
    }
  }

  /** The loop over the subjects, which raises at the first invalid right. */
  method NormalizeDocument(raw: Raw) returns (r: Option<Matrix>)
    ensures r == Normalize(raw)
  {
    var domains := DomainsOf(raw);
    var subjects: seq<Subject> := [];
    var seen: set<string> := {};
    assert raw.subjects[0..] == raw.subjects;
    JoinedNothing(Subjects(raw.subjects, domains, {}));
    for i := 0 to |raw.subjects|
      invariant Joined(subjects, Subjects(raw.subjects[i..], domains, seen)) == Subjects(raw.subjects, domains, {})
    {
      var entry := raw.subjects[i];
      SubjectsStep(raw.subjects, i, domains, seen, subjects);
      if Skipped(entry, seen) {
        continue;
      }
      seen := seen + {SubjectId(entry.id)};
      var rights := RightsOf(entry.rights, domains);
      if rights.None? {
        return None;
      }
      subjects := subjects + [SubjectOf(entry, rights.value)];
    }
    assert raw.subjects[|raw.subjects|..] == [] && subjects + [] == subjects;
    if subjects == [] {
      return None;
    }
    return Some(Matrix(domains, subjects, AtLeastOne(raw.version), DEFAULT_FIELDS + raw.fields));
  }

  // ----- What a normalized document says -----

  ghost predicate Names(raw: RawSubject, id: string) {
    raw.RawSubject? && SubjectId(raw.id) == id
  }

  /** The entries that are kept: the first of each clean id that holds a colon. */
  ghost predicate Kept(raws: seq<RawSubject>, seen: set<string>, i: nat) {
    && i < |raws| && raws[i].RawSubject?
    && ':' in SubjectId(raws[i].id) && SubjectId(raws[i].id) !in seen
    && forall j: nat :: j < i ==> !Names(raws[j], SubjectId(raws[i].id))
  }

  ghost predicate BadRight(raw: RawSubject, domains: seq<Domain>) {
    raw.RawSubject? && exists d, text :: d in domains && d in raw.rights && raw.rights[d] == Unknown(text)
  }

  /** The texts of an entry with their defaults, and its right in every domain, none when it names none. */
  ghost predicate Describes(s: Subject, raw: RawSubject, domains: seq<Domain>) {
    && Names(raw, s.id)
    && (if raw.caption.Some? && raw.caption.value != "" then Some(s.caption) == raw.caption else s.caption == s.id)
    && (if raw.kind.Some? && raw.kind.value != "" then Some(s.kind) == raw.kind
        else ':' !in s.kind && s.kind + ":" <= s.id)
    && (forall d :: d in s.rights <==> d in domains)
    && (forall d :: d in domains ==>
          if d in raw.rights then raw.rights[d] == Known(s.rights[d]) else s.rights[d] == NoRight)
  }

  lemma {:induction false} BeforeColonIsPrefix(id: string)
    requires ':' in id
    ensures ':' !in BeforeColon(id) && BeforeColon(id) + ":" <= id
  {
    if id[0] != ':' {
      assert id == [id[0]] + id[1..];
      BeforeColonIsPrefix(id[1..]);
      assert BeforeColon(id) + ":" == [id[0]] + (BeforeColon(id[1..]) + ":");
    }
  }

  lemma RightsExactly(raw: RawSubject, domains: seq<Domain>)
    requires raw.RawSubject?
    ensures RightsOf(raw.rights, domains).None? <==> BadRight(raw, domains)
  {
    if d :| d in domains && RightOf(raw.rights, d).Unknown? {
      assert raw.rights[d] == Unknown(raw.rights[d].text);
    }
  }

  lemma KeptIsDescribed(raw: RawSubject, domains: seq<Domain>, seen: set<string>)
    requires !Skipped(raw, seen) && RightsOf(raw.rights, domains).Some?
    ensures Describes(SubjectOf(raw, RightsOf(raw.rights, domains).value), raw, domains)
  {
    BeforeColonIsPrefix(SubjectId(raw.id));
    forall d | d in domains && d in raw.rights ensures !raw.rights[d].Unknown? {
      assert RightOf(raw.rights, d) == raw.rights[d];
    }
  }

  /** Whether a later entry is kept depends on the first one only when that is kept. */
  lemma KeptNext(raws: seq<RawSubject>, seen: set<string>, i: nat)
    requires raws != [] && 1 <= i
    ensures Kept(raws, seen, i) <==>
            Kept(raws[1..], if Skipped(raws[0], seen) then seen else seen + {SubjectId(raws[0].id)}, i - 1)
  {
    if i < |raws| && raws[i].RawSubject? {
      var id := SubjectId(raws[i].id);
      assert raws[1..][i - 1] == raws[i];
      assert (forall j: nat :: j < i ==> !Names(raws[j], id)) <==>
             !Names(raws[0], id) && (forall j: nat :: j < i - 1 ==> !Names(raws[1..][j], id)) by {
        assert forall j: nat :: j < i - 1 ==> raws[1..][j] == raws[j + 1];
        assert forall j: nat :: 1 <= j < i ==> raws[j] == raws[1..][j - 1];
      }
    }
  }

  lemma KeptFirst(raws: seq<RawSubject>, seen: set<string>)
    requires raws != []
    ensures Kept(raws, seen, 0) <==> !Skipped(raws[0], seen)
  {
  }

  /** The places of what is kept, in order. */
  ghost predicate Places(raws: seq<RawSubject>, seen: set<string>, places: seq<nat>) {
    && (forall i: nat :: i in places <==> Kept(raws, seen, i))
    && (forall k, l :: 0 <= k < l < |places| ==> places[k] < places[l])
  }

  function Shifted(places: seq<nat>): seq<nat> {
    if places == [] then [] else [places[0] + 1] + Shifted(places[1..])
  }

  lemma {:induction false} ShiftedAt(places: seq<nat>)
    ensures |Shifted(places)| == |places|
    ensures forall k :: 0 <= k < |places| ==> Shifted(places)[k] == places[k] + 1
    ensures forall i: nat :: i in Shifted(places) <==> i > 0 && i - 1 in places
  {
    if places != [] {
      ShiftedAt(places[1..]);
    }
  }

  function PlacesOf(raws: seq<RawSubject>, seen: set<string>): seq<nat> {
    if raws == [] then []
    else if Skipped(raws[0], seen) then Shifted(PlacesOf(raws[1..], seen))
    else [0] + Shifted(PlacesOf(raws[1..], seen + {SubjectId(raws[0].id)}))
  }

  lemma {:induction false} PlacesAreKept(raws: seq<RawSubject>, seen: set<string>)
    ensures Places(raws, seen, PlacesOf(raws, seen))
  {
    if raws != [] {
      var next := if Skipped(raws[0], seen) then seen else seen + {SubjectId(raws[0].id)};
      PlacesAreKept(raws[1..], next);
      ShiftedAt(PlacesOf(raws[1..], next));
      KeptFirst(raws, seen);
      forall i: nat | 1 <= i ensures Kept(raws, seen, i) <==> Kept(raws[1..], next, i - 1) {
        KeptNext(raws, seen, i);
      }
    }
  }

  /** Each subject describes the entry at its place. */
  ghost predicate DescribesAll(raws: seq<RawSubject>, domains: seq<Domain>, subjects: seq<Subject>, places: seq<nat>) {
    && |subjects| == |places|
    && forall k :: 0 <= k < |places| ==> places[k] < |raws| && Describes(subjects[k], raws[places[k]], domains)
  }

  lemma DescribesLater(raws: seq<RawSubject>, domains: seq<Domain>, subjects: seq<Subject>, places: seq<nat>)
    requires raws != [] && DescribesAll(raws[1..], domains, subjects, places)
    ensures DescribesAll(raws, domains, subjects, Shifted(places))
  {
    ShiftedAt(places);
    assert forall k :: 0 <= k < |places| ==> raws[1..][places[k]] == raws[places[k] + 1];
  }

  lemma {:induction false} SubjectsDescribe(raws: seq<RawSubject>, domains: seq<Domain>, seen: set<string>)
    requires Subjects(raws, domains, seen).Some?
    ensures DescribesAll(raws, domains, Subjects(raws, domains, seen).value, PlacesOf(raws, seen))
  {
    if raws != [] {
      var next := if Skipped(raws[0], seen) then seen else seen + {SubjectId(raws[0].id)};
      SubjectsDescribe(raws[1..], domains, next);
      DescribesLater(raws, domains, Subjects(raws[1..], domains, next).value, PlacesOf(raws[1..], next));
      if !Skipped(raws[0], seen) {
        KeptIsDescribed(raws[0], domains, seen);
      }
    }
  }

  ghost predicate SomeBad(raws: seq<RawSubject>, domains: seq<Domain>, seen: set<string>) {
    exists i: nat :: Kept(raws, seen, i) && BadRight(raws[i], domains)
  }

  lemma BadNext(raws: seq<RawSubject>, domains: seq<Domain>, seen: set<string>, next: set<string>)
    requires raws != [] && next == if Skipped(raws[0], seen) then seen else seen + {SubjectId(raws[0].id)}
    ensures SomeBad(raws, domains, seen) <==>
            (!Skipped(raws[0], seen) && BadRight(raws[0], domains)) || SomeBad(raws[1..], domains, next)
  {
    KeptFirst(raws, seen);
    forall i: nat | i >= 1 && Kept(raws, seen, i) ensures Kept(raws[1..], next, i - 1) && raws[1..][i - 1] == raws[i] {
      KeptNext(raws, seen, i);
    }
    forall i: nat | Kept(raws[1..], next, i) ensures Kept(raws, seen, i + 1) && raws[1..][i] == raws[i + 1] {
      KeptNext(raws, seen, i + 1);
    }
  }

  lemma {:induction false} RaisesWhenBad(raws: seq<RawSubject>, domains: seq<Domain>, seen: set<string>)
    ensures Subjects(raws, domains, seen).None? <==> SomeBad(raws, domains, seen)
  {
    if raws != [] {
      var next := if Skipped(raws[0], seen) then seen else seen + {SubjectId(raws[0].id)};
      RaisesWhenBad(raws[1..], domains, next);
      BadNext(raws, domains, seen, next);
      if !Skipped(raws[0], seen) {
        RightsExactly(raws[0], domains);
      }
    }
  }

  /** Normalizing raises exactly when nothing is kept or a kept entry holds an unknown right; else the subjects are the
      kept entries in order, with the domains that are known, or all of them when none is named. */
  lemma NormalizeExactly(raw: Raw) returns (places: seq<nat>)
    ensures Places(raw.subjects, {}, places)
    ensures Normalize(raw).None? <==> places == [] || SomeBad(raw.subjects, DomainsOf(raw), {})
    ensures Normalize(raw).Some? ==>
              var m := Normalize(raw).value;
              && DescribesAll(raw.subjects, m.domains, m.subjects, places)
              && (raw.domains == [] ==> m.domains == [Finance, Hr, Contracts, BoardMaterials, AssistantTeam])
              && (raw.domains != [] ==> forall d :: d in m.domains <==> Some(d) in raw.domains)
              && m.version == (if raw.version.Some? && raw.version.value > 1 then raw.version.value else 1)
              && (forall x :: x in raw.fields ==> x in m.fields && m.fields[x] == raw.fields[x])
  {
    places := PlacesOf(raw.subjects, {});
    PlacesAreKept(raw.subjects, {});
    RaisesWhenBad(raw.subjects, DomainsOf(raw), {});
    if Subjects(raw.subjects, DomainsOf(raw), {}).Some? {
      SubjectsDescribe(raw.subjects, DomainsOf(raw), {});
    }
    KnownAreNamed(raw.domains);
  }

  lemma {:induction false} KnownAreNamed(domains: seq<Option<Domain>>)
    ensures forall d :: d in KnownDomains(domains) <==> Some(d) in domains
  {
    if domains != [] {
      KnownAreNamed(domains[1..]);
      assert domains == [domains[0]] + domains[1..];
    }
  }

  // ----- Normalizing what is normal -----

  /** What normalization leaves of a subject. */
  predicate NormalSubject(s: Subject, domains: seq<Domain>) {
    && SubjectId(s.id) == s.id && s.id != "" && ':' in s.id
    && s.caption != "" && (s.kind != "" || BeforeColon(s.id) == "")
    && s.rights.Keys == set d | d in domains
  }

  predicate Distinct(subjects: seq<Subject>, seen: set<string>) {
    && (forall i :: 0 <= i < |subjects| ==> subjects[i].id !in seen)
    && (forall i, j :: 0 <= i < j < |subjects| ==> subjects[i].id != subjects[j].id)
  }

  predicate NormalMatrix(m: Matrix) {
    && m.subjects != [] && Distinct(m.subjects, {}) && m.version >= 1
    && (forall s :: s in m.subjects ==> NormalSubject(s, m.domains))
    && DEFAULT_FIELDS.Keys <= m.fields.Keys
  }

  lemma KeptSubjectIsNormal(raw: RawSubject, domains: seq<Domain>, seen: set<string>)
    requires !Skipped(raw, seen) && RightsOf(raw.rights, domains).Some?
    ensures NormalSubject(SubjectOf(raw, RightsOf(raw.rights, domains).value), domains)
  {
    CleanedOnce(raw.id);
  }

  lemma {:induction false} SubjectsAreNormal(raws: seq<RawSubject>, domains: seq<Domain>, seen: set<string>)
    requires Subjects(raws, domains, seen).Some?
    ensures var subjects := Subjects(raws, domains, seen).value;
            Distinct(subjects, seen) && forall s :: s in subjects ==> NormalSubject(s, domains)
  {
    if raws != [] {
      if Skipped(raws[0], seen) {
        SubjectsAreNormal(raws[1..], domains, seen);
      } else {
        SubjectsAreNormal(raws[1..], domains, seen + {SubjectId(raws[0].id)});
        KeptSubjectIsNormal(raws[0], domains, seen);
      }
    }
  }

  /** Normalization makes documents normal: clean ids, each once, a right for every domain. */
  lemma NormalizeMakesNormal(raw: Raw)
    requires Normalize(raw).Some?
    ensures NormalMatrix(Normalize(raw).value)
  {
    SubjectsAreNormal(raw.subjects, DomainsOf(raw), {});
  }

  function AsRawSubject(s: Subject): RawSubject {
    RawSubject(s.id, Some(s.caption), Some(s.kind), map d | d in s.rights :: Known(s.rights[d]))
  }

  function AsRawSubjects(subjects: seq<Subject>): seq<RawSubject> {
    if subjects == [] then [] else [AsRawSubject(subjects[0])] + AsRawSubjects(subjects[1..])
  }

  function AsRawDomains(domains: seq<Domain>): seq<Option<Domain>> {
    if domains == [] then [] else [Some(domains[0])] + AsRawDomains(domains[1..])
  }

  /** A stored document, as it is read back. */
  function AsRaw(m: Matrix): Raw {
    Raw(AsRawDomains(m.domains), AsRawSubjects(m.subjects), Some(m.version), m.fields)
  }

  function Reread(s: Subject, domains: seq<Domain>): Subject {
    s.(rights := map d | d in domains :: if d in s.rights then s.rights[d] else NoRight)
  }

  function RereadAll(subjects: seq<Subject>, domains: seq<Domain>): seq<Subject> {
    if subjects == [] then [] else [Reread(subjects[0], domains)] + RereadAll(subjects[1..], domains)
  }

  /** What reading a stored document back yields: without domains it gets all of them, with no rights in them. */
  function ReadBack(m: Matrix): Matrix {
    if m.domains != [] then m else m.(domains := DOMAINS, subjects := RereadAll(m.subjects, DOMAINS))
  }

  lemma {:induction false} DomainsAgain(domains: seq<Domain>)
    ensures KnownDomains(AsRawDomains(domains)) == domains
  {
    if domains != [] {
      DomainsAgain(domains[1..]);
    }
  }

  lemma SubjectAgain(s: Subject, own: seq<Domain>, domains: seq<Domain>, seen: set<string>)
    requires NormalSubject(s, own) && s.id !in seen
    ensures !Skipped(AsRawSubject(s), seen)
    ensures RightsOf(AsRawSubject(s).rights, domains).Some?
    ensures SubjectOf(AsRawSubject(s), RightsOf(AsRawSubject(s).rights, domains).value) == Reread(s, domains)
  {
    var rights := AsRawSubject(s).rights;
    assert forall d :: d in domains ==> RightOf(rights, d) == Known(if d in s.rights then s.rights[d] else NoRight);
    assert RightsOf(rights, domains).value == Reread(s, domains).rights;
  }

  lemma {:induction false} SubjectsAgain(subjects: seq<Subject>, own: seq<Domain>, domains: seq<Domain>,
                                         seen: set<string>)
    requires Distinct(subjects, seen) && forall s :: s in subjects ==> NormalSubject(s, own)
    ensures Subjects(AsRawSubjects(subjects), domains, seen) == Some(RereadAll(subjects, domains))
  {
    if subjects != [] {
      var s := subjects[0];
      SubjectAgain(s, own, domains, seen);
      assert forall x :: x in subjects[1..] ==> x in subjects;
      SubjectsAgain(subjects[1..], own, domains, seen + {s.id});
      assert AsRawSubjects(subjects)[1..] == AsRawSubjects(subjects[1..]);
    }
  }

  lemma {:induction false} RereadOwnDomains(subjects: seq<Subject>, domains: seq<Domain>)
    requires forall s :: s in subjects ==> NormalSubject(s, domains)
    ensures RereadAll(subjects, domains) == subjects
  {
    if subjects != [] {
      assert NormalSubject(subjects[0], domains);
      assert Reread(subjects[0], domains).rights == subjects[0].rights;
      assert forall x :: x in subjects[1..] ==> x in subjects;
      RereadOwnDomains(subjects[1..], domains);
    }
  }

  lemma RereadSubjects(m: Matrix)
    requires NormalMatrix(m)
    ensures Subjects(AsRawSubjects(m.subjects), DomainsOf(AsRaw(m)), {}) == Some(ReadBack(m).subjects)
    ensures DomainsOf(AsRaw(m)) == ReadBack(m).domains
  {
    DomainsAgain(m.domains);
    SubjectsAgain(m.subjects, m.domains, DomainsOf(AsRaw(m)), {});
    if m.domains != [] {
      RereadOwnDomains(m.subjects, m.domains);
    }
  }

  /** A normal document is accepted again, and read back as ReadBack says. */
  lemma NormalIsReadBack(m: Matrix)
    requires NormalMatrix(m)
    ensures Normalize(AsRaw(m)) == Some(ReadBack(m))
  {
    RereadSubjects(m);
    assert ReadBack(m).subjects != [];
    assert DEFAULT_FIELDS + m.fields == m.fields;
  }

  predicate NamesADomain(raw: Raw) {
    raw.domains == [] || exists d :: d in raw.domains && d.Some?
  }

  lemma {:induction false} SomeDomainIsKnown(domains: seq<Option<Domain>>)
    ensures KnownDomains(domains) != [] <==> exists d :: d in domains && d.Some?
  {
    if domains != [] {
      SomeDomainIsKnown(domains[1..]);
      assert domains == [domains[0]] + domains[1..];
    }
  }

  /** Normalizing twice is normalizing once, except for a document all of whose domains are unknown. */
  lemma NormalizeTwice(raw: Raw)
    requires Normalize(raw).Some?
    ensures Normalize(AsRaw(Normalize(raw).value)) == Normalize(raw) <==> NamesADomain(raw)
  {
    NormalizeMakesNormal(raw);
    NormalIsReadBack(Normalize(raw).value);
    SomeDomainIsKnown(raw.domains);
  }

  lemma PlainId()
    ensures SubjectId("a:b") == "a:b" && ':' in "a:b"
  {
    assert Strip("a:b") == "a:b";
    assert "a:b"[1..] == ":b" && ":b"[1..] == "b" && "b"[1..] == "";
    assert Lower("b") == "b" && Lower(":b") == ":b";
    assert "a:b"[1] == ':';
  }

  /** A document whose one domain is unknown is not left alone by a second normalization. */
  lemma UnknownDomainsAreWidened()
    ensures var raw := Raw([None], [RawSubject("a:b", None, None, map[])], None, map[]);
            Normalize(raw).Some? && Normalize(AsRaw(Normalize(raw).value)) != Normalize(raw)
  {
    var entry := RawSubject("a:b", None, None, map[]);
    var raw := Raw([None], [entry], None, map[]);
    PlainId();
    assert [entry][1..] == [];
    assert !Skipped(entry, {});
    assert Subjects([entry], [], {}).Some?;
    NormalizeTwice(raw);
  }

  // ----- Saving to the database -----

  /** The stored row: the document as saved, and the columns beside it. */
  datatype Row = Row(matrix: Matrix, version: int, at: nat, actor: nat)

  datatype Entry = Entry(matrix: Matrix, version: int, actor: nat)

  /** A save between its read and its transaction: the matrix it read, what it expects, what it will write. */
  datatype Pending = Pending(base: Matrix, expected: Option<int>, next: Matrix, actor: nat)

  function Stamp(m: Matrix, version: int, at: nat, actor: nat): Matrix {
    m.(version := version, fields := m.fields[UpdatedAt := at][UpdatedBy := actor])
  }

  /** get_authority_matrix: `fallback` is what the file backend answers; None where it raises. */
  function Current(fallback: Option<Matrix>, row: Option<Row>): Option<Matrix> {
    if row.None? then fallback
    else
      match Normalize(AsRaw(row.value.matrix))
      case None => None
      case Some(m) => Some(Stamp(m, row.value.version, row.value.at, row.value.actor))
  }

  /** The part of a save before its transaction; None where it raises. */
  function Prepared(current: Option<Matrix>, raw: Raw, expected: Option<int>, at: nat, actor: nat): Option<Pending> {
    if current.None? || (expected.Some? && current.value.version != expected.value) then None
    else
      match Normalize(raw)
      case None => None
      case Some(m) => Some(Pending(current.value, expected, Stamp(m, current.value.version + 1, at, actor), actor))
  }

  predicate Fresh(row: Option<Row>, p: Pending) {
    row.None? || row.value.version == p.base.version
  }

  function RowOf(p: Pending, now: nat): Row { Row(p.next, p.next.version, now, p.actor) }

  function EntryOf(p: Pending): Entry { Entry(p.next, p.next.version, p.actor) }

  /** One tenant's rows in the database. */
  class MatrixTable {
    const fallback: Option<Matrix>
    var row: Option<Row>
    var audit: seq<Entry>

    constructor (fallback: Option<Matrix>)
      ensures this.fallback == fallback && row == None && audit == []
    {
      this.fallback := fallback;
      row, audit := None, [];
    }

    /** get_authority_matrix */
    method Get() returns (m: Option<Matrix>)
      ensures m == Current(fallback, row)
    {
      if row.None? {
        return fallback;
      }
      m := NormalizeDocument(AsRaw(row.value.matrix));
      if m.Some? {
        m := Some(Stamp(m.value, row.value.version, row.value.at, row.value.actor));
      }
    }

    method Prepare(raw: Raw, expected: Option<int>, at: nat, actor: nat) returns (p: Option<Pending>)
      ensures p == Prepared(Current(fallback, row), raw, expected, at, actor)
    {
      var current := Get();
      if current.None? {
        return None;
      }
      if expected.Some? && current.value.version != expected.value {
        return None;
      }
      var normalized := NormalizeDocument(raw);
      if normalized.None? {
        return None;
      }
      var stamped := Stamp(normalized.value, current.value.version + 1, at, actor);
      return Some(Pending(current.value, expected, stamped, actor));
    }

    /** The transaction: insert, or update where the version is still the one that was read; then the audit row. */
    method Commit(p: Pending, now: nat) returns (saved: bool)
      modifies this
      ensures saved <==> Fresh(old(row), p)
      ensures saved ==> row == Some(RowOf(p, now)) && audit == old(audit) + [EntryOf(p)]
      ensures !saved ==> row == old(row) && audit == old(audit)
    {
      if row.Some? && row.value.version != p.base.version {
        return false;
      }
      row := Some(Row(p.next, p.next.version, now, p.actor));
      audit := audit + [Entry(p.next, p.next.version, p.actor)];
      return true;
    }
  }

  // ----- Every interleaving of clients that read, then save -----

  type Client = nat

  datatype Step =
    | Begin(client: Client, raw: Raw, expected: Option<int>, at: nat, actor: nat)
    | Finish(client: Client, now: nat)

  /** The table, the saves under way, and as history every save that was committed with the row it stored. */
  datatype State = State(row: Option<Row>, audit: seq<Entry>, pending: map<Client, Pending>,
                         history: seq<(Pending, Row)>)

  function Next(fallback: Option<Matrix>, s: State, step: Step): State {
    match step
    case Begin(client, raw, expected, at, actor) =>
      (match Prepared(Current(fallback, s.row), raw, expected, at, actor)
       case None => s.(pending := s.pending - {client})
       case Some(p) => s.(pending := s.pending[client := p]))
    case Finish(client, now) =>
      if client !in s.pending then s
      else
        var p, rest := s.pending[client], s.pending - {client};
        if Fresh(s.row, p) then
          State(Some(RowOf(p, now)), s.audit + [EntryOf(p)], rest, s.history + [(p, RowOf(p, now))])
        else s.(pending := rest)
  }

  function Run(fallback: Option<Matrix>, steps: seq<Step>): State {
    if steps == [] then State(None, [], map[], [])
    else Next(fallback, Run(fallback, steps[..|steps| - 1]), steps[|steps| - 1])
  }

  /** The row after the first k commits. */
  function RowAt(history: seq<(Pending, Row)>, k: nat): Option<Row>
    requires k <= |history|
  {
    if k == 0 then None else Some(history[k - 1].1)
  }

  /** What is read back of a row is its document, under the version, date and signature of the row. */
  lemma CurrentShows(fallback: Option<Matrix>, row: Row, m: Matrix)
    requires Normalize(AsRaw(row.matrix)) == Some(m)
    ensures var current := Current(fallback, Some(row));
            && current.Some? && current.value.version == row.version
            && current.value.domains == m.domains && current.value.subjects == m.subjects
            && UpdatedAt in current.value.fields && current.value.fields[UpdatedAt] == row.at
            && UpdatedBy in current.value.fields && current.value.fields[UpdatedBy] == row.actor
  {
  }

  /** A prepared save will write its document as normalized, under the next version, dated and signed. */
  lemma PreparedWrites(current: Option<Matrix>, raw: Raw, expected: Option<int>, at: nat, actor: nat)
    ensures Prepared(current, raw, expected, at, actor).Some? <==>
            && current.Some? && Normalize(raw).Some? && (expected == None || expected == Some(current.value.version))
    ensures Prepared(current, raw, expected, at, actor).Some? ==>
              var p, m := Prepared(current, raw, expected, at, actor).value, Normalize(raw).value;
              && p.base == current.value && p.expected == expected && p.actor == actor
              && p.next.domains == m.domains && p.next.subjects == m.subjects
              && p.next.version == current.value.version + 1
              && UpdatedAt in p.next.fields && p.next.fields[UpdatedAt] == at
              && UpdatedBy in p.next.fields && p.next.fields[UpdatedBy] == actor
              && (forall x :: x != UpdatedAt && x != UpdatedBy ==>
                    (x in p.next.fields <==> x in m.fields) && (x in m.fields ==> p.next.fields[x] == m.fields[x]))
  {
  }

  /** A save that read the matrix left by the first k commits, and will write its successor. */
  ghost predicate ReadAfter(fallback: Option<Matrix>, history: seq<(Pending, Row)>, k: nat, p: Pending) {
    && k <= |history| && fallback.Some?
    && Current(fallback, RowAt(history, k)) == Some(p.base)
    && p.base.version == fallback.value.version + k
    && p.next.version == p.base.version + 1
    && (p.expected.Some? ==> p.expected.value == p.base.version)
    && NormalMatrix(p.next)
  }

  /** Every commit was computed from the state its predecessors left. */
  ghost predicate Serial(fallback: Option<Matrix>, history: seq<(Pending, Row)>) {
    forall k :: 0 <= k < |history| ==>
      && ReadAfter(fallback, history[..k], k, history[k].0)
      && history[k].1 == RowOf(history[k].0, history[k].1.at)
  }

  ghost predicate AuditIsHistory(s: State) {
    && |s.audit| == |s.history| && s.row == RowAt(s.history, |s.history|)
    && forall k :: 0 <= k < |s.audit| ==> s.audit[k] == EntryOf(s.history[k].0)
  }

  /** The save read what some of the commits so far had left. */
  ghost predicate HasRead(fallback: Option<Matrix>, history: seq<(Pending, Row)>, p: Pending) {
    exists k :: ReadAfter(fallback, history, k, p)
  }

  ghost predicate Consistent(fallback: Option<Matrix>, s: State) {
    && Serial(fallback, s.history) && AuditIsHistory(s)
    && forall c :: c in s.pending ==> HasRead(fallback, s.history, s.pending[c])
  }

  ghost predicate Sane(fallback: Option<Matrix>) {
    fallback.Some? ==> NormalMatrix(fallback.value)
  }

  /** Reading never fails once something is stored, and the version read counts the commits. */
  lemma CurrentAfter(fallback: Option<Matrix>, history: seq<(Pending, Row)>)
    requires Serial(fallback, history)
    ensures var current := Current(fallback, RowAt(history, |history|));
            && (history != [] ==> fallback.Some?)
            && (fallback.Some? ==> current.Some? && current.value.version == fallback.value.version + |history|)
            && (fallback.None? ==> current.None?)
  {
    if history != [] {
      NormalIsReadBack(history[|history| - 1].0.next);
    }
  }

  lemma PreparedReads(fallback: Option<Matrix>, history: seq<(Pending, Row)>, raw: Raw, expected: Option<int>, at: nat,
                      actor: nat)
    requires Sane(fallback) && Serial(fallback, history)
    ensures var p := Prepared(Current(fallback, RowAt(history, |history|)), raw, expected, at, actor);
            p.Some? ==> ReadAfter(fallback, history, |history|, p.value)
  {
    CurrentAfter(fallback, history);
    var current := Current(fallback, RowAt(history, |history|));
    if Prepared(current, raw, expected, at, actor).Some? {
      NormalizeMakesNormal(raw);
    }
  }

  /** A pending save is fresh exactly when nothing was committed since it read. */
  lemma FreshExactly(fallback: Option<Matrix>, history: seq<(Pending, Row)>, k: nat, p: Pending)
    requires Serial(fallback, history) && ReadAfter(fallback, history, k, p)
    ensures Fresh(RowAt(history, |history|), p) <==> k == |history|
  {
    if history != [] {
      assert history[|history| - 1].1.version == fallback.value.version + |history|;
    }
  }

  /** What was read after k commits was read so whatever is committed later. */
  lemma ReadAfterMore(fallback: Option<Matrix>, history: seq<(Pending, Row)>, k: nat, p: Pending, more: (Pending, Row))
    requires ReadAfter(fallback, history, k, p)
    ensures ReadAfter(fallback, history + [more], k, p)
  {
    assert RowAt(history + [more], k) == RowAt(history, k);
  }

  lemma SerialMore(fallback: Option<Matrix>, history: seq<(Pending, Row)>, p: Pending, now: nat)
    requires Serial(fallback, history) && ReadAfter(fallback, history, |history|, p)
    ensures Serial(fallback, history + [(p, RowOf(p, now))])
  {
    var history' := history + [(p, RowOf(p, now))];
    forall k | 0 <= k < |history'|
      ensures ReadAfter(fallback, history'[..k], k, history'[k].0) &&
              history'[k].1 == RowOf(history'[k].0, history'[k].1.at)
    {
      assert history'[..k] == history[..k];
      if k == |history| {
        assert history[..k] == history;
      }
    }
  }

  lemma HasReadMore(fallback: Option<Matrix>, history: seq<(Pending, Row)>, p: Pending, more: (Pending, Row))
    requires HasRead(fallback, history, p)
    ensures HasRead(fallback, history + [more], p)
  {
    var k :| ReadAfter(fallback, history, k, p);
    ReadAfterMore(fallback, history, k, p, more);
  }

  lemma BeginKeepsPending(fallback: Option<Matrix>, s: State, step: Step)
    requires Sane(fallback) && Consistent(fallback, s) && step.Begin?
    ensures Consistent(fallback, Next(fallback, s, step))
  {
    PreparedReads(fallback, s.history, step.raw, step.expected, step.at, step.actor);
    var p := Prepared(Current(fallback, s.row), step.raw, step.expected, step.at, step.actor);
    assert p.Some? ==> HasRead(fallback, s.history, p.value);
  }

  lemma FinishKeepsPending(fallback: Option<Matrix>, s: State, step: Step)
    requires Consistent(fallback, s) && step.Finish?
    ensures var s' := Next(fallback, s, step);
            forall c :: c in s'.pending ==> HasRead(fallback, s'.history, s'.pending[c])
  {
    var s' := Next(fallback, s, step);
    if s'.history != s.history {
      forall c | c in s'.pending ensures HasRead(fallback, s'.history, s'.pending[c]) {
        HasReadMore(fallback, s.history, s.pending[c],
                    (s.pending[step.client], RowOf(s.pending[step.client], step.now)));
      }
    }
  }

  lemma NextKeepsSerial(fallback: Option<Matrix>, s: State, step: Step)
    requires Consistent(fallback, s)
    ensures Serial(fallback, Next(fallback, s, step).history)
  {
    if step.Finish? && step.client in s.pending && Fresh(s.row, s.pending[step.client]) {
      var p := s.pending[step.client];
      var k :| ReadAfter(fallback, s.history, k, p);
      FreshExactly(fallback, s.history, k, p);
      SerialMore(fallback, s.history, p, step.now);
    }
  }

  lemma NextKeepsAudit(fallback: Option<Matrix>, s: State, step: Step)
    requires AuditIsHistory(s)
    ensures AuditIsHistory(Next(fallback, s, step))
  {
  }

  /** Over every interleaving each commit was computed from exactly what the commits before it left, and the
      audit log is that history. */
  lemma {:induction false} RunIsConsistent(fallback: Option<Matrix>, steps: seq<Step>)
    requires Sane(fallback)
    ensures Consistent(fallback, Run(fallback, steps))
  {
    if steps != [] {
      var s := Run(fallback, steps[..|steps| - 1]);
      RunIsConsistent(fallback, steps[..|steps| - 1]);
      var step := steps[|steps| - 1];
      if step.Begin? {
        BeginKeepsPending(fallback, s, step);
      } else {
        FinishKeepsPending(fallback, s, step);
        NextKeepsSerial(fallback, s, step);
        NextKeepsAudit(fallback, s, step);
      }
    }
  }

  /** Versions are consecutive, the stored document is the last of the audit log, and a save that named a version
      replaced exactly that one. */
  lemma VersionsAreConsecutive(fallback: Option<Matrix>, steps: seq<Step>, k: nat)
    requires Sane(fallback) && k < |Run(fallback, steps).audit|
    ensures var s := Run(fallback, steps);
            && |s.history| == |s.audit| && fallback.Some?
            && s.audit[k].version == s.audit[k].matrix.version == fallback.value.version + 1 + k
            && (k == |s.audit| - 1 ==>
                 s.row.Some? && s.row.value.matrix == s.audit[k].matrix && s.row.value.version == s.audit[k].version)
            && (s.history[k].0.expected.Some? ==> s.history[k].0.expected.value == s.audit[k].version - 1)
  {
    RunIsConsistent(fallback, steps);
  }

  /** A save commits exactly when the matrix it read is still the current one; a stale one changes nothing stored. */
  lemma StaleSavesChangeNothing(fallback: Option<Matrix>, steps: seq<Step>, client: Client, now: nat)
    requires Sane(fallback) && client in Run(fallback, steps).pending
    ensures var s := Run(fallback, steps);
            var p, s' := s.pending[client], Next(fallback, s, Finish(client, now));
            if Current(fallback, s.row) == Some(p.base) then
              s'.row == Some(RowOf(p, now)) && s'.audit == s.audit + [EntryOf(p)]
            else s'.row == s.row && s'.audit == s.audit
  {
    RunIsConsistent(fallback, steps);
    var s := Run(fallback, steps);
    var p := s.pending[client];
    var k :| ReadAfter(fallback, s.history, k, p);
    FreshExactly(fallback, s.history, k, p);
    CurrentAfter(fallback, s.history);
  }

  /** What is in the audit log stays there. */
  lemma {:induction false} AuditOnlyGrows(fallback: Option<Matrix>, steps: seq<Step>, n: nat)
    requires n <= |steps|
    ensures Run(fallback, steps[..n]).audit <= Run(fallback, steps).audit
  {
    if n == |steps| {
      assert steps[..n] == steps;
    } else {
      AuditOnlyGrows(fallback, steps[..|steps| - 1], n);
      assert steps[..|steps| - 1][..n] == steps[..n];
    }
  }

  // ----- Saving to a file -----

  /** One tenant's file and audit log; every write happens under the file's lock, so writes follow one another. */
  class MatrixFile {
    const default: Matrix
    var stored: Option<Matrix>
    var audit: seq<Entry>

    ghost predicate Valid()
      reads this
    {
      && NormalMatrix(default) && default.version == 1
      && (if audit == [] then stored == None else stored == Some(audit[|audit| - 1].matrix))
      && forall k :: 0 <= k < |audit| ==>
           audit[k].version == audit[k].matrix.version == 2 + k && NormalMatrix(audit[k].matrix)
    }

    /** The matrix a reader gets. */
    ghost function Contents(): Matrix
      reads this
    {
      if stored.None? then default else ReadBack(stored.value)
    }

    constructor (default: Matrix)
      requires NormalMatrix(default) && default.version == 1
      ensures Valid() && this.default == default && audit == []
    {
      this.default := default;
      stored, audit := None, [];
    }

    method ReadFile() returns (m: Option<Matrix>)
      requires Valid()
      ensures m == Some(Contents()) && Contents().version == 1 + |audit|
    {
      if stored.None? {
        return Some(default);
      }
      m := NormalizeDocument(AsRaw(stored.value));
      NormalIsReadBack(stored.value);
    }

    /** None where the source raises; then nothing has changed. */
    method WriteFile(raw: Raw, expected: Option<int>, at: nat, actor: nat) returns (saved: Option<Matrix>)
      requires Valid()
      modifies this
      ensures Valid()
      ensures saved.Some? <==> (expected.None? || expected.value == old(Contents().version)) && Normalize(raw).Some?
      ensures saved.None? ==> stored == old(stored) && audit == old(audit)
      ensures saved.Some? ==> saved.value == Stamp(Normalize(raw).value, old(Contents().version) + 1, at, actor)
      ensures saved.Some? ==> stored == saved && audit == old(audit) + [Entry(saved.value, saved.value.version, actor)]
    {
      var current := ReadFile();
      if expected.Some? && current.value.version != expected.value {
        return None;
      }
      var normalized := NormalizeDocument(raw);
      if normalized.None? {
        return None;
      }
      NormalizeMakesNormal(raw);
      var next := Stamp(normalized.value, current.value.version + 1, at, actor);
      stored := Some(next);
      audit := audit + [Entry(next, next.version, actor)];
      return Some(next);
    }
  }
}
