/**
  The permit chunker of the offline index builder (scripts/build_index.py):
  the agency lookup built from the corpus, and chunk_permit, which renders one
  permit as exactly one chunk of labelled lines plus metadata.

  Field values are strings (or a list of strings for related permits).  A
  field the record does not have is `None`; `dict.get` semantics decide the
  defaults and Python truthiness decides which optional lines appear.
*/
module Chunker {
  import opened Wrappers

  /** An agency of the corpus; `name` and `formerly` may be missing. */
  datatype Agency = Agency(id: string, name: Option<string>, formerly: Option<string>)

  /** A permit record: `id` and `name` are required, every other field is read with a default. */
  datatype Permit = Permit(
    id: string,
    name: string,
    category: Option<string>,
    agency: Option<string>,
    description: Option<string>,
    requirements: Option<string>,
    fees: Option<string>,
    processingTime: Option<string>,
    howToApply: Option<string>,
    applyUrl: Option<string>,
    notes: Option<string>,
    relatedPermits: Option<seq<string>>)

  /** One entry of chunks.json: the text that is embedded and the metadata shown as a source. */
  datatype Chunk = Chunk(text: string, permitId: string, permitName: string, category: string, agency: string)

  /** The kinds of line a chunk's text may hold. */
  datatype Label =
    | PermitName | Category | AgencyName | Formerly | Description
    | Requirements | Fees | ProcessingTime | HowToApply | ApplicationUrl | Notes | RelatedPermits

  /** One labelled line of a chunk's text. */
  datatype Line = Line(key: Label, value: string)

  /** Where each kind of line goes in the fixed order of a chunk. */
  function Position(l: Label): nat
  {
    match l
    case PermitName => 0
    case Category => 1
    case AgencyName => 2
    case Formerly => 3
    case Description => 4
    case Requirements => 5
    case Fees => 6
    case ProcessingTime => 7
    case HowToApply => 8
    case ApplicationUrl => 9
    case Notes => 10
    case RelatedPermits => 11
  }

  /** The text of one line, as the f-strings of chunk_permit produce it. */
  function Render(line: Line): string
  {
    match line.key
    case PermitName => "Permit: " + line.value
    case Category => "Category: " + line.value
    case AgencyName => "Agency: " + line.value
    case Formerly => "(Formerly: " + line.value + ")"
    case Description => "Description: " + line.value
    case Requirements => "Requirements: " + line.value
    case Fees => "Fees: " + line.value
    case ProcessingTime => "Processing Time: " + line.value
    case HowToApply => "How to Apply: " + line.value
    case ApplicationUrl => "Application URL: " + line.value
    case Notes => "Notes: " + line.value
    case RelatedPermits => "Related Permits: " + line.value
  }

  /** The parts with `sep` between each consecutive pair: empty for no parts, the part itself for one. */
  function JoinWith(sep: string, parts: seq<string>): string
  {
    if parts == [] then ""
    else if |parts| == 1 then parts[0]
    else parts[0] + sep + JoinWith(sep, parts[1..])
  }

  // ------------------------------------------------- agency lookup (load_permits)

  /** Each agency under its id; a later agency with the same id replaces an earlier one. */
  function AgencyLookup(agencies: seq<Agency>): map<string, Agency>
  {
    if agencies == [] then map[]
    else
      var last := agencies[|agencies| - 1];
      AgencyLookup(agencies[..|agencies| - 1])[last.id := last]
  }

  /** The lookup knows exactly the ids of the corpus's agencies. */
  lemma {:induction false} AgencyLookupKeys(agencies: seq<Agency>)
    ensures AgencyLookup(agencies).Keys == set a | a in agencies :: a.id
  {
    if agencies != [] {
      var front := agencies[..|agencies| - 1];
      AgencyLookupKeys(front);
      assert agencies == front + [agencies[|agencies| - 1]];
    }
  }

  /** An id maps to the last agency that carries it. */
  lemma {:induction false} AgencyLookupLastWins(agencies: seq<Agency>, i: nat)
    requires i < |agencies|
    requires forall j :: i < j < |agencies| ==> agencies[j].id != agencies[i].id
    ensures agencies[i].id in AgencyLookup(agencies)
    ensures AgencyLookup(agencies)[agencies[i].id] == agencies[i]
  {
    var m := |agencies| - 1;
    if i < m {
      AgencyLookupLastWins(agencies[..m], i);
    }
  }

  // ------------------------------------------------- chunk_permit

  /** Python truthiness of an optional string field: present and non-empty. */
  predicate Truthy(field: Option<string>)
  {
    field.Some? && field.value != ""
  }

  /** The agency the permit names, or `None` when its id (or "" for no reference) is not in the lookup. */
  function AgencyOf(p: Permit, lookup: map<string, Agency>): Option<Agency>
  {
    var key := p.agency.GetOr("");
    if key in lookup then Some(lookup[key]) else None
  }

  /** The name of the permit's agency, or "Unknown Agency" when the agency is unknown or has no name. */
  function AgencyNameOf(p: Permit, lookup: map<string, Agency>): string
  {
    match AgencyOf(p, lookup)
    case None => "Unknown Agency"
    case Some(a) => a.name.GetOr("Unknown Agency")
  }

  /** The former name of the permit's agency, or "" when the agency is unknown or has none. */
  function FormerlyOf(p: Permit, lookup: map<string, Agency>): string
  {
    match AgencyOf(p, lookup)
    case None => ""
    case Some(a) => a.formerly.GetOr("")
  }

  /** The line for an optional field, appended only when the field is truthy. */
  function OptionalLine(key: Label, field: Option<string>): seq<Line>
  {
    if Truthy(field) then [Line(key, field.value)] else []
  }

  /** The related-permits line: the ids joined with ", ", only for a non-empty list. */
  function RelatedLine(p: Permit): seq<Line>
  {
    match p.relatedPermits
    case Some(ids) => if ids != [] then [Line(RelatedPermits, JoinWith(", ", ids))] else []
    case None => []
  }

  /** The three lines every chunk starts with: permit name, category, agency. */
  function LeadLines(p: Permit, lookup: map<string, Agency>): seq<Line>
  {
    [Line(PermitName, p.name), Line(Category, p.category.GetOr("N/A")), Line(AgencyName, AgencyNameOf(p, lookup))]
  }

  /** The agency's former name, when it has a non-empty one. */
  function FormerlyLine(p: Permit, lookup: map<string, Agency>): seq<Line>
  {
    var formerly := FormerlyOf(p, lookup);
    if formerly != "" then [Line(Formerly, formerly)] else []
  }

  /** The lines of the optional fields, each only when truthy, in their fixed order. */
  function OptionalLines(p: Permit): seq<Line>
  {
    OptionalLine(Requirements, p.requirements)
    + OptionalLine(Fees, p.fees)
    + OptionalLine(ProcessingTime, p.processingTime)
    + OptionalLine(HowToApply, p.howToApply)
    + OptionalLine(ApplicationUrl, p.applyUrl)
    + OptionalLine(Notes, p.notes)
    + RelatedLine(p)
  }

  /** The `parts` list of chunk_permit, as labelled lines. */
  function Lines(p: Permit, lookup: map<string, Agency>): seq<Line>
  {
    LeadLines(p, lookup) + FormerlyLine(p, lookup) + [Line(Description, p.description.GetOr("N/A"))] + OptionalLines(p)
  }

  function Rendered(lines: seq<Line>): (r: seq<string>)
    ensures |r| == |lines|
  {
    seq(|lines|, i requires 0 <= i < |lines| => Render(lines[i]))
  }

  /** chunk_permit: one chunk whose text is the newline-join of the rendered lines. */
  function ChunkPermit(p: Permit, lookup: map<string, Agency>): (chunks: seq<Chunk>)
    ensures |chunks| == 1
    ensures chunks[0].permitId == p.id && chunks[0].permitName == p.name
    ensures chunks[0].category == (if p.category.Some? then p.category.value else "")
    ensures chunks[0].agency == AgencyNameOf(p, lookup)
  {
    var text := JoinWith("\n", Rendered(Lines(p, lookup)));
    [Chunk(text, p.id, p.name, p.category.GetOr(""), AgencyNameOf(p, lookup))]
  }

  // ------------------------------------------------- what a chunk holds

  /**
    Field by field, the value a chunk shows for each kind of line, or `None`
    when that line is left out.
  */
  function Expected(p: Permit, lookup: map<string, Agency>, l: Label): Option<string>
  {
    match l
    case PermitName => Some(p.name)
    case Category => Some(if p.category.Some? then p.category.value else "N/A")
    case AgencyName => Some(AgencyNameOf(p, lookup))
    case Formerly => if FormerlyOf(p, lookup) != "" then Some(FormerlyOf(p, lookup)) else None
    case Description => Some(if p.description.Some? then p.description.value else "N/A")
    case Requirements => if Truthy(p.requirements) then p.requirements else None
    case Fees => if Truthy(p.fees) then p.fees else None
    case ProcessingTime => if Truthy(p.processingTime) then p.processingTime else None
    case HowToApply => if Truthy(p.howToApply) then p.howToApply else None
    case ApplicationUrl => if Truthy(p.applyUrl) then p.applyUrl else None
    case Notes => if Truthy(p.notes) then p.notes else None
    case RelatedPermits =>
      if p.relatedPermits.Some? && p.relatedPermits.value != [] then Some(JoinWith(", ", p.relatedPermits.value))
      else None
  }

  /**
    A chunk holds the line (l, v) exactly when the permit's field for l has
    the value v: each optional line appears iff its field is truthy, the
    former-name line iff the agency has a non-empty `formerly`.
  */
  lemma LinesMatchFields(p: Permit, lookup: map<string, Agency>, l: Label, v: string)
    ensures Line(l, v) in Lines(p, lookup) <==> Expected(p, lookup, l) == Some(v)
  {
    var lead, formerly := LeadLines(p, lookup), FormerlyLine(p, lookup);
    var desc, optional := [Line(Description, p.description.GetOr("N/A"))], OptionalLines(p);
    assert Lines(p, lookup) == lead + formerly + desc + optional;
    assert Line(l, v) in Lines(p, lookup) <==>
      Line(l, v) in lead || Line(l, v) in formerly || Line(l, v) in desc || Line(l, v) in optional;
    OptionalLinesMatch(p, lookup, l, v);
  }

  /** The optional lines hold (l, v) exactly when l is an optional label whose field shows v. */
  lemma OptionalLinesMatch(p: Permit, lookup: map<string, Agency>, l: Label, v: string)
    ensures Line(l, v) in OptionalLines(p) <==> Position(l) > Position(Description) && Expected(p, lookup, l) == Some(v)
  {
    var s0 := OptionalLine(Requirements, p.requirements);
    var s1 := OptionalLine(Fees, p.fees);
    var s2 := OptionalLine(ProcessingTime, p.processingTime);
    var s3 := OptionalLine(HowToApply, p.howToApply);
    var s4 := OptionalLine(ApplicationUrl, p.applyUrl);
    var s5 := OptionalLine(Notes, p.notes);
    var s6 := RelatedLine(p);
    assert OptionalLines(p) == s0 + s1 + s2 + s3 + s4 + s5 + s6;
    assert Line(l, v) in OptionalLines(p) <==>
      Line(l, v) in s0 || Line(l, v) in s1 || Line(l, v) in s2 || Line(l, v) in s3
      || Line(l, v) in s4 || Line(l, v) in s5 || Line(l, v) in s6;
  }

  /** Positions strictly increase along `lines`. */
  predicate Ordered(lines: seq<Line>)
  {
    forall i, j :: 0 <= i < j < |lines| ==> Position(lines[i].key) < Position(lines[j].key)
  }

  /** Every line of `lines` goes before position `n`. */
  predicate AllBefore(lines: seq<Line>, n: nat)
  {
    forall i :: 0 <= i < |lines| ==> Position(lines[i].key) < n
  }

  /** Appending at most one line of a later kind keeps the lines in order. */
  lemma Extend(prev: seq<Line>, seg: seq<Line>, l: Label)
    requires Ordered(prev) && AllBefore(prev, Position(l))
    requires |seg| <= 1 && forall i :: 0 <= i < |seg| ==> seg[i].key == l
    ensures Ordered(prev + seg) && AllBefore(prev + seg, Position(l) + 1)
  {
  }

  /** Two ordered runs, the first wholly before position n and the second from it on, stay ordered together. */
  lemma Concat(a: seq<Line>, b: seq<Line>, n: nat)
    requires Ordered(a) && AllBefore(a, n)
    requires Ordered(b) && forall i :: 0 <= i < |b| ==> Position(b[i].key) >= n
    ensures Ordered(a + b)
  {
  }

  /** The optional lines come in their fixed order, all after the description. */
  lemma OptionalLinesInOrder(p: Permit)
    ensures Ordered(OptionalLines(p))
    ensures forall i :: 0 <= i < |OptionalLines(p)| ==> Position(OptionalLines(p)[i].key) > Position(Description)
  {
    var s0 := OptionalLine(Requirements, p.requirements);
    var s1 := s0 + OptionalLine(Fees, p.fees);
    Extend(s0, OptionalLine(Fees, p.fees), Fees);
    var s2 := s1 + OptionalLine(ProcessingTime, p.processingTime);
    Extend(s1, OptionalLine(ProcessingTime, p.processingTime), ProcessingTime);
    var s3 := s2 + OptionalLine(HowToApply, p.howToApply);
    Extend(s2, OptionalLine(HowToApply, p.howToApply), HowToApply);
    var s4 := s3 + OptionalLine(ApplicationUrl, p.applyUrl);
    Extend(s3, OptionalLine(ApplicationUrl, p.applyUrl), ApplicationUrl);
    var s5 := s4 + OptionalLine(Notes, p.notes);
    Extend(s4, OptionalLine(Notes, p.notes), Notes);
    Extend(s5, RelatedLine(p), RelatedPermits);
    assert OptionalLines(p) == s5 + RelatedLine(p);
  }

  /** Lines always come in the fixed order, each kind at most once. */
  lemma LinesInFixedOrder(p: Permit, lookup: map<string, Agency>)
    ensures Ordered(Lines(p, lookup))
  {
    var s0 := LeadLines(p, lookup);
    var s1 := s0 + FormerlyLine(p, lookup);
    Extend(s0, FormerlyLine(p, lookup), Formerly);
    var desc := [Line(Description, p.description.GetOr("N/A"))];
    Extend(s1, desc, Description);
    var s2 := s1 + desc;
    var rest := OptionalLines(p);
    OptionalLinesInOrder(p);
    Concat(s2, rest, Position(Description) + 1);
    assert Lines(p, lookup) == s2 + rest;
  }

  /** The text starts with the permit, category and agency lines, in that order. */
  lemma ChunkTextHeader(p: Permit, lookup: map<string, Agency>)
    ensures var permitLine := "Permit: " + p.name;
      var categoryLine := "Category: " + (if p.category.Some? then p.category.value else "N/A");
      var agencyLine := "Agency: " + AgencyNameOf(p, lookup);
      permitLine + "\n" + categoryLine + "\n" + agencyLine + "\n" <= ChunkPermit(p, lookup)[0].text
  {
    var lines := Lines(p, lookup);
    var lead := LeadLines(p, lookup);
    assert |lines| >= 4 && lines[0] == lead[0] && lines[1] == lead[1] && lines[2] == lead[2];
    var parts := Rendered(lines);
    assert parts[0] == "Permit: " + p.name;
    assert parts[1] == "Category: " + (if p.category.Some? then p.category.value else "N/A");
    assert parts[2] == "Agency: " + AgencyNameOf(p, lookup);
    JoinHeader(parts);
  }

  /** Joining at least four parts puts the first three, each with its separator, in front. */
  lemma JoinHeader(parts: seq<string>)
    requires |parts| >= 4
    ensures parts[0] + "\n" + parts[1] + "\n" + parts[2] + "\n" <= JoinWith("\n", parts)
  {
    var t1, t2, t3 := JoinWith("\n", parts[1..]), JoinWith("\n", parts[2..]), JoinWith("\n", parts[3..]);
    assert parts[1..][1..] == parts[2..] && parts[2..][1..] == parts[3..];
    assert JoinWith("\n", parts) == parts[0] + "\n" + t1;
    assert t1 == parts[1] + "\n" + t2;
    assert t2 == parts[2] + "\n" + t3;
    var h1 := parts[0] + "\n";
    var h2 := h1 + parts[1] + "\n";
    var h3 := h2 + parts[2] + "\n";
    Associative(h1, parts[1] + "\n", t2);
    Associative(h1, parts[1], "\n");
    Associative(h2, parts[2] + "\n", t3);
    Associative(h2, parts[2], "\n");
    assert JoinWith("\n", parts) == h3 + t3;
  }

  lemma Associative(a: string, b: string, c: string)
    ensures a + (b + c) == (a + b) + c
  {
  }

  /**
    A permit whose agency reference finds no agency, or an agency without a
    name, is credited to "Unknown Agency"; with no agency found there is no
    former-name line either.
  */
  lemma UnknownAgency(p: Permit, lookup: map<string, Agency>)
    requires AgencyOf(p, lookup).None? || AgencyOf(p, lookup).value.name.None?
    ensures ChunkPermit(p, lookup)[0].agency == "Unknown Agency"
    ensures AgencyOf(p, lookup).None? ==> forall v :: Line(Formerly, v) !in Lines(p, lookup)
  {
  }

  /** A missing agency reference looks up the empty id, so it is unknown unless some agency has id "". */
  lemma MissingAgencyReference(p: Permit, lookup: map<string, Agency>)
    requires p.agency.None? && "" !in lookup
    ensures AgencyOf(p, lookup).None?
    ensures ChunkPermit(p, lookup)[0].agency == "Unknown Agency"
  {
  }
}
