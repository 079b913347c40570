/**
 The nine formats of the Exógena report, and the report that generates and validates them.
 Rows once generated are not edited; the journal may differ from one generation to the next.
 */
module ExogenaReports {
  import opened Prelude
  import opened Money
  import opened TextSearch
  import opened Nit
  import opened Exogena

  datatype Code = F1001 | F1003 | F1005 | F1006 | F1007 | F1008 | F1009 | F1010 | F1012

  const AllCodes := [F1001, F1003, F1005, F1006, F1007, F1008, F1009, F1010, F1012]

  // ---------------------------------------------------------------- what a line adds to a format

  function Keyed(l: JournalLine, key: Key, v: Vec): Option<Contribution>
    requires l.partner.Some?
  {
    Some(Contribution(key, Clean(l.partner.value), v))
  }

  function ByNit(l: JournalLine, v: Vec): Option<Contribution>
  {
    if l.partner.None? then None else Keyed(l, Plain(NitKey(l.partner.value)), v)
  }

  function ByConcept(l: JournalLine, concept: string, v: Vec): Option<Contribution>
  {
    if l.partner.None? then None else Keyed(l, Pair(NitKey(l.partner.value), concept), v)
  }

  predicate IsSourceRetention(name: string)
  {
    ContainsAny(name, ["retefu", "retencion en la fuente", "rete fuente", "retefuente", "rete renta"])
  }

  function Line1003(l: JournalLine): Option<Contribution>
  {
    if l.tax.None? || !IsSourceRetention(Lower(l.tax.value)) then None
    else ByConcept(l, "1301", Vec(Abs(l.Balance()), Abs(l.taxBase), Abs(l.Balance()), 0))
  }

  function VatLine(l: JournalLine): Option<Contribution>
  {
    if l.tax.None? || !IsVat(Lower(l.tax.value)) then None
    else ByNit(l, Vec(Abs(l.taxBase), 0, 0, Abs(l.Balance())))
  }

  function Line1005(l: JournalLine): Option<Contribution> { if l.Purchase() then VatLine(l) else None }

  function Line1006(l: JournalLine): Option<Contribution> { if l.Sale() then VatLine(l) else None }

  function Amount1007(l: JournalLine): int
  {
    if l.credit > 0 then l.credit else if l.debit > 0 && l.move == OutRefund then -l.debit else 0
  }

  function Line1007(l: JournalLine): Option<Contribution>
  {
    if !l.Sale() || l.account != Income then None
    else ByConcept(l, if "42" <= l.code then "4002" else "4001", Vec(Amount1007(l), 0, 0, 0))
  }

  function Line1008(l: JournalLine): Option<Contribution>
  {
    if l.account != Receivable then None else ByNit(l, Vec(l.Balance(), 0, 0, 0))
  }

  function Line1009(l: JournalLine): Option<Contribution>
  {
    if l.account != Payable then None else ByNit(l, Vec(Abs(l.Balance()), 0, 0, 0))
  }

  function Line1010(l: JournalLine): Option<Contribution>
  {
    if l.account != Equity then None else ByNit(l, Vec(Abs(l.Balance()), 0, 0, 0))
  }

  function Concept1012(name: string): string
  {
    if IsVat(name) then "0001"
    else if ContainsAny(name, ["retefu", "retencion en la fuente", "rete fuente"]) then "0002"
    else if Contains(name, "rete iva") then "0003"
    else if Contains(name, "ica") || Contains(name, "rete ica") then "0004"
    else if Contains(name, "timbre") then "0005"
    else "0099"
  }

  /** The summary of declarations has no partner. */
  function Line1012(l: JournalLine): Option<Contribution>
  {
    if l.tax.None? then None
    else Some(Contribution(Pair("", Concept1012(Lower(l.tax.value))), "",
                           Vec(Abs(l.Balance()), Abs(l.taxBase), 0, 0)))
  }

  // ---------------------------------------------------------------- the formats

  /** `year` holds the posted lines of the fiscal year, `upToEnd` those up to its last day. */
  datatype Journal = Journal(year: seq<JournalLine>, upToEnd: seq<JournalLine>)

  datatype Minimums = Minimums(min1001: int, min1007: int, min1008: int, min1009: int)

  function Grouped(lines: seq<JournalLine>, f: JournalLine -> Option<Contribution>): seq<Row>
  {
    AddAll([], Collect(lines, f))
  }

  function Positive(rows: seq<Row>): seq<Row>
  {
    if rows == [] then [] else (if rows[0].v.amount > 0 then [rows[0]] else []) + Positive(rows[1..])
  }

  function RowsFor(code: Code, j: Journal, mins: Minimums): seq<Row>
  {
    match code
    case F1001 => ApplyThreshold(Groups1001(j.year), mins.min1001)
    case F1003 => Grouped(j.year, Line1003)
    case F1005 => Grouped(j.year, Line1005)
    case F1006 => Grouped(j.year, Line1006)
    case F1007 => ApplyThreshold(Grouped(j.year, Line1007), mins.min1007)
    case F1008 => ApplyThreshold(Positive(Grouped(j.upToEnd, Line1008)), mins.min1008)
    case F1009 => ApplyThreshold(Positive(Grouped(j.upToEnd, Line1009)), mins.min1009)
    case F1010 => Grouped(j.upToEnd, Line1010)
    case F1012 => Grouped(j.year, Line1012)
  }

  lemma PositiveStep(rows: seq<Row>, i: nat)
    requires i < |rows|
    ensures Positive(rows[i..]) == (if rows[i].v.amount > 0 then [rows[i]] else []) + Positive(rows[i + 1..])
  {
    assert rows[i..][0] == rows[i] && rows[i..][1..] == rows[i + 1..];
  }

  method KeepPositive(rows: seq<Row>) returns (kept: seq<Row>)
    ensures kept == Positive(rows)
  {
    hide Positive;
    kept := [];
    assert rows[0..] == rows;
    for i := 0 to |rows|
      invariant kept + Positive(rows[i..]) == Positive(rows)
    {
      PositiveStep(rows, i);
      var more: seq<Row> := if rows[i].v.amount > 0 then [rows[i]] else [];
      ghost var rest := Positive(rows[i + 1..]);
      assert kept + (more + rest) == kept + more + rest;
      kept := kept + more;
    }
    assert Positive(rows[|rows|..]) == [] by { NonePositive(rows[|rows|..]); }
  }

  lemma NonePositive(rows: seq<Row>)
    requires rows == []
    ensures Positive(rows) == []
  {}

  method GenerateFormat(code: Code, j: Journal, mins: Minimums) returns (rows: seq<Row>)
    ensures rows == RowsFor(code, j, mins)
  {
    match code
    case F1001 => {
      rows := GroupLines(j.year, Line1001);
      rows := AttributeTaxes(rows, j.year);
      rows := ApplyMinThreshold(rows, mins.min1001);
    }
    case F1003 => { rows := GroupLines(j.year, Line1003); }
    case F1005 => { rows := GroupLines(j.year, Line1005); }
    case F1006 => { rows := GroupLines(j.year, Line1006); }
    case F1007 => {
      rows := GroupLines(j.year, Line1007);
      rows := ApplyMinThreshold(rows, mins.min1007);
    }
    case F1008 => {
      rows := GroupLines(j.upToEnd, Line1008);
      rows := KeepPositive(rows);
      rows := ApplyMinThreshold(rows, mins.min1008);
    }
    case F1009 => {
      rows := GroupLines(j.upToEnd, Line1009);
      rows := KeepPositive(rows);
      rows := ApplyMinThreshold(rows, mins.min1009);
    }
    case F1010 => { rows := GroupLines(j.upToEnd, Line1010); }
    case F1012 => { rows := GroupLines(j.year, Line1012); }
  }

  // ---------------------------------------------------------------- what every generated row satisfies

  lemma {:induction false} PositiveFrom(rows: seq<Row>)
    ensures forall r :: r in Positive(rows) ==> r in rows && r.v.amount > 0
  {
    if rows != [] { PositiveFrom(rows[1..]); }
  }

  lemma PositiveEach(rows: seq<Row>)
    ensures NonNegative(Positive(rows))
    ensures DvOk(rows) ==> DvOk(Positive(rows))
    ensures AllPlain(rows) ==> AllPlain(Positive(rows))
  {
    PositiveFrom(rows);
    hide Positive, CheckDigit;
    var kept := Positive(rows);
    forall i | 0 <= i < |kept| ensures kept[i] in rows && kept[i].v.amount > 0 { assert kept[i] in kept; }
  }

  lemma {:induction false} AttributeEach(rows: seq<Row>, nit: string, v: Vec)
    ensures DvOk(rows) ==> DvOk(Attribute(rows, nit, v))
    ensures NonNegative(rows) && v.amount >= 0 ==> NonNegative(Attribute(rows, nit, v))
  {
    hide CheckDigit;
    if rows != [] && rows[0].key.nit != nit {
      AttributeEach(rows[1..], nit, v);
      if DvOk(rows) { assert DvOk(rows[1..]); }
      if NonNegative(rows) { assert NonNegative(rows[1..]); }
    }
  }

  lemma Tax1001Amount(l: JournalLine)
    ensures Tax1001(l).amount == 0
  {}

  lemma {:induction false} AttributeAllEach(rows: seq<Row>, lines: seq<JournalLine>)
    ensures DvOk(rows) ==> DvOk(AttributeAll(rows, lines))
    ensures NonNegative(rows) ==> NonNegative(AttributeAll(rows, lines))
    decreases lines
  {
    if lines != [] {
      hide DvOk, NonNegative, Attribute, Tax1001, Clean;
      var l := lines[0];
      if IsTaxLine(l) {
        Tax1001Amount(l);
        AttributeEach(rows, Clean(l.partner.value), Tax1001(l));
        AttributeAllEach(Attribute(rows, Clean(l.partner.value), Tax1001(l)), lines[1..]);
      } else {
        AttributeAllEach(rows, lines[1..]);
      }
    }
  }

  /** A line's contribution carries the tax number of its key. */
  lemma NitFor(code: Code, l: JournalLine)
    ensures LineIn(code, l).Some? ==> LineIn(code, l).value.nit == NitOf(LineIn(code, l).value.key)
  {
    if l.partner.Some? { NitKeyExactly(l.partner.value); }
    hide NitKey, Clean, Concept1001, Amount1001, Concept1012, Lower, IsVat, IsSourceRetention;
  }

  lemma GroupedDv(code: Code, j: Journal, f: JournalLine -> Option<Contribution>)
    requires forall l :: f(l) == LineIn(code, l)
    ensures DvOk(Grouped(LinesFor(code, j), f))
  {
    hide LineIn, DvOk;
    var lines := LinesFor(code, j);
    var cs := Collect(lines, f);
    forall k | 0 <= k < |cs| ensures cs[k].nit == NitOf(cs[k].key) {
      CollectFrom(lines, f, k);
      var i :| 0 <= i < |lines| && f(lines[i]) == Some(cs[k]);
      NitFor(code, lines[i]);
    }
    NoRowsOk();
    AddAllDv([], cs);
  }

  /** Every row of every format shows the tax number of its group and the check digit of that
      number, whatever the journal. */
  lemma FormatDv(code: Code, j: Journal, mins: Minimums)
    ensures DvOk(RowsFor(code, j, mins))
  {
    hide DvOk, Grouped, AttributeAll, ApplyThreshold, Positive, Line1001, Line1003, Line1005, Line1006, Line1007;
    hide Line1008, Line1009, Line1010, Line1012;
    match code
    case F1001 => {
      GroupedDv(code, j, Line1001);
      AttributeAllEach(Grouped(j.year, Line1001), j.year);
      Groups1001Is(j.year);
      ThresholdEach(Groups1001(j.year), mins.min1001);
    }
    case F1003 => { GroupedDv(code, j, Line1003); }
    case F1005 => { GroupedDv(code, j, Line1005); }
    case F1006 => { GroupedDv(code, j, Line1006); }
    case F1007 => {
      GroupedDv(code, j, Line1007);
      ThresholdEach(Grouped(j.year, Line1007), mins.min1007);
    }
    case F1008 => {
      GroupedDv(code, j, Line1008);
      PositiveEach(Grouped(j.upToEnd, Line1008));
      ThresholdEach(Positive(Grouped(j.upToEnd, Line1008)), mins.min1008);
    }
    case F1009 => {
      GroupedDv(code, j, Line1009);
      PositiveEach(Grouped(j.upToEnd, Line1009));
      ThresholdEach(Positive(Grouped(j.upToEnd, Line1009)), mins.min1009);
    }
    case F1010 => { GroupedDv(code, j, Line1010); }
    case F1012 => { GroupedDv(code, j, Line1012); }
  }

  lemma Groups1001Is(lines: seq<JournalLine>)
    ensures Groups1001(lines) == AttributeAll(Grouped(lines, Line1001), lines)
  {}

  lemma NoRowsOk()
    ensures DvOk([]) && NonNegative([])
  {}

  ghost predicate NeverNegative(lines: seq<JournalLine>, f: JournalLine -> Option<Contribution>)
  {
    forall i :: 0 <= i < |lines| && f(lines[i]).Some? ==> f(lines[i]).value.v.amount >= 0
  }

  lemma GroupedNonNegative(lines: seq<JournalLine>, f: JournalLine -> Option<Contribution>)
    requires NeverNegative(lines, f)
    ensures NonNegative(Grouped(lines, f))
  {
    var cs := Collect(lines, f);
    forall k | 0 <= k < |cs| ensures cs[k].v.amount >= 0 {
      CollectFrom(lines, f, k);
      var i :| 0 <= i < |lines| && f(lines[i]) == Some(cs[k]);
    }
    AddAllNonNegative([], cs);
  }

  lemma VatAmount(l: JournalLine)
    ensures Line1005(l).Some? ==> Line1005(l).value.v.amount >= 0
    ensures Line1006(l).Some? ==> Line1006(l).value.v.amount >= 0
  {
    hide Lower, IsVat;
  }

  /** Apart from payments and income, every format can only hold non-negative amounts. */
  lemma FormatNonNegative(code: Code, j: Journal, mins: Minimums)
    requires code != F1001 && code != F1007
    ensures NonNegative(RowsFor(code, j, mins))
  {
    hide NonNegative, Grouped, Positive, ApplyThreshold, NitKey, Clean, IsVat, IsSourceRetention, Concept1012, Lower;
    match code
    case F1003 => { GroupedNonNegative(j.year, Line1003); }
    case F1005 => {
      forall l ensures Line1005(l).Some? ==> Line1005(l).value.v.amount >= 0 { VatAmount(l); }
      GroupedNonNegative(j.year, Line1005);
    }
    case F1006 => {
      forall l ensures Line1006(l).Some? ==> Line1006(l).value.v.amount >= 0 { VatAmount(l); }
      GroupedNonNegative(j.year, Line1006);
    }
    case F1008 => {
      PositiveEach(Grouped(j.upToEnd, Line1008));
      ThresholdEach(Positive(Grouped(j.upToEnd, Line1008)), mins.min1008);
    }
    case F1009 => {
      PositiveEach(Grouped(j.upToEnd, Line1009));
      ThresholdEach(Positive(Grouped(j.upToEnd, Line1009)), mins.min1009);
    }
    case F1010 => { GroupedNonNegative(j.upToEnd, Line1010); }
    case F1012 => { GroupedNonNegative(j.year, Line1012); }
  }

  predicate RefundLine(l: JournalLine)
  {
    (l.move == InRefund && l.credit > 0) || (l.move == OutRefund && l.debit > 0)
  }

  /** Without refunds payments and income cannot be negative either. */
  lemma NoRefundNonNegative(code: Code, j: Journal, mins: Minimums)
    requires code == F1001 || code == F1007
    requires forall i :: 0 <= i < |j.year| ==> !RefundLine(j.year[i])
    ensures NonNegative(RowsFor(code, j, mins))
  {
    hide NonNegative, AddAll, Collect, AttributeAll, ApplyThreshold, NitKey, Clean;
    if code == F1001 {
      GroupedNonNegative(j.year, Line1001);
      AttributeAllEach(Grouped(j.year, Line1001), j.year);
      ThresholdEach(Groups1001(j.year), mins.min1001);
    } else {
      GroupedNonNegative(j.year, Line1007);
      ThresholdEach(Grouped(j.year, Line1007), mins.min1007);
    }
  }

  // ---------------------------------------------------------------- what the formats add up to

  function SumOver(lines: seq<JournalLine>, w: JournalLine -> int): int
  {
    if lines == [] then 0 else w(lines[0]) + SumOver(lines[1..], w)
  }

  lemma {:induction false} AddAllConcept(rows: seq<Row>, cs: seq<Contribution>, concept: string, m: Measure)
    ensures ConceptSum(AddAll(rows, cs), concept, m) == ConceptSum(rows, concept, m) + ContributedFor(cs, concept, m)
    decreases cs
  {
    hide ConceptSum, AddTo, ConceptOf, Get;
    if cs != [] {
      AddToSum(rows, cs[0], concept, m);
      AddAllConcept(AddTo(rows, cs[0]), cs[1..], concept, m);
    }
  }

  function ContributedFor(cs: seq<Contribution>, concept: string, m: Measure): int
  {
    if cs == [] then 0
    else (if ConceptOf(cs[0].key) == concept then Get(cs[0].v, m) else 0) + ContributedFor(cs[1..], concept, m)
  }

  /** What a line adds to a measure of a concept. */
  function Adds(c: Option<Contribution>, concept: string, m: Measure): int
  {
    if c.Some? && ConceptOf(c.value.key) == concept then Get(c.value.v, m) else 0
  }

  lemma {:induction false} CollectedSum(
      lines: seq<JournalLine>, f: JournalLine -> Option<Contribution>, concept: string, m: Measure,
      w: JournalLine -> int)
    requires forall l :: w(l) == Adds(f(l), concept, m)
    ensures ContributedFor(Collect(lines, f), concept, m) == SumOver(lines, w)
  {
    if lines != [] {
      hide ConceptOf, Get;
      CollectedSum(lines[1..], f, concept, m, w);
      var rest := Collect(lines[1..], f);
      assert w(lines[0]) == Adds(f(lines[0]), concept, m);
      if f(lines[0]).Some? {
        assert Collect(lines, f) == [f(lines[0]).value] + rest;
        assert Collect(lines, f)[1..] == rest;
      } else {
        assert Collect(lines, f) == rest;
      }
    }
  }

  lemma GroupedConcept(
      lines: seq<JournalLine>, f: JournalLine -> Option<Contribution>, concept: string, m: Measure,
      w: JournalLine -> int)
    requires forall l :: w(l) == Adds(f(l), concept, m)
    ensures ConceptSum(Grouped(lines, f), concept, m) == SumOver(lines, w)
  {
    hide ContributedFor, SumOver, Adds, AddAll, Collect;
    AddAllConcept([], Collect(lines, f), concept, m);
    CollectedSum(lines, f, concept, m, w);
    NoRows(concept, m);
  }

  // what the books say of a line, format by format, in the line's own fields

  datatype Reading = Reading(nit: string, concept: string, v: Vec)

  function PartnerNit(vat: string): string { if Clean(vat) == "" then "NO_NIT" else Clean(vat) }

  predicate StartsWith(code: string, digits: string) { |digits| <= |code| && code[..|digits|] == digits }

  predicate SourceName(n: string)
  {
    || Contains(n, "retefu") || Contains(n, "retencion en la fuente")
    || Contains(n, "rete fuente") || Contains(n, "rete renta")
  }

  function PaymentConcept(code: string): string
  {
    if StartsWith(code, "51") then "5002"
    else if StartsWith(code, "52") then "5003"
    else if StartsWith(code, "53") then "5004"
    else "5001"
  }

  function DeclarationConcept(n: string): string
  {
    if VatName(n) then "0001"
    else if Contains(n, "retefu") || Contains(n, "retencion en la fuente") || Contains(n, "rete fuente") then "0002"
    else if Contains(n, "rete iva") then "0003"
    else if Contains(n, "ica") then "0004"
    else if Contains(n, "timbre") then "0005"
    else "0099"
  }

  /** Purchases, less the credits of their refunds; sales likewise. */
  function Paid(l: JournalLine): int
  {
    if l.debit > 0 then l.debit else if l.credit > 0 && l.move == InRefund then -l.credit else 0
  }

  function Earned(l: JournalLine): int
  {
    if l.credit > 0 then l.credit else if l.debit > 0 && l.move == OutRefund then -l.debit else 0
  }

  /** The measures a line adds to a format and the concept it adds them to; nothing for lines the
      format does not read. */
  function MeasuresOf(code: Code, l: JournalLine): Option<(string, Vec)>
  {
    var bought, sold := l.move in {InInvoice, InRefund}, l.move in {OutInvoice, OutRefund};
    var size, base := Abs(l.debit - l.credit), Abs(l.taxBase);
    var name := if l.tax.Some? then Lower(l.tax.value) else "";
    match code
    case F1001 => if bought then Some((PaymentConcept(l.code), Vec(Paid(l), 0, 0, 0))) else None
    case F1003 => if l.tax.Some? && SourceName(name) then Some(("1301", Vec(size, base, size, 0))) else None
    case F1005 => if bought && l.tax.Some? && VatName(name) then Some(("", Vec(base, 0, 0, size))) else None
    case F1006 => if sold && l.tax.Some? && VatName(name) then Some(("", Vec(base, 0, 0, size))) else None
    case F1007 =>
      if sold && l.account == Income
      then Some((if StartsWith(l.code, "42") then "4002" else "4001", Vec(Earned(l), 0, 0, 0))) else None
    case F1008 => if l.account == Receivable then Some(("", Vec(l.debit - l.credit, 0, 0, 0))) else None
    case F1009 => if l.account == Payable then Some(("", Vec(size, 0, 0, 0))) else None
    case F1010 => if l.account == Equity then Some(("", Vec(size, 0, 0, 0))) else None
    case F1012 => if l.tax.Some? then Some((DeclarationConcept(name), Vec(size, base, 0, 0))) else None
  }

  /** Every format but the summary of declarations reads only lines with a partner. */
  function Read(code: Code, l: JournalLine): Option<Reading>
  {
    var m := MeasuresOf(code, l);
    if m.None? then None
    else if code == F1012 then Some(Reading("", m.value.0, m.value.1))
    else if l.partner.None? then None
    else Some(Reading(PartnerNit(l.partner.value), m.value.0, m.value.1))
  }

  function KeyIn(code: Code, nit: string, concept: string): Key
  {
    if code in {F1001, F1003, F1007, F1012} then Pair(nit, concept) else Plain(nit)
  }

  function LineIn(code: Code, l: JournalLine): Option<Contribution>
  {
    match code
    case F1001 => Line1001(l)
    case F1003 => Line1003(l)
    case F1005 => Line1005(l)
    case F1006 => Line1006(l)
    case F1007 => Line1007(l)
    case F1008 => Line1008(l)
    case F1009 => Line1009(l)
    case F1010 => Line1010(l)
    case F1012 => Line1012(l)
  }

  lemma NamesRead(n: string)
    ensures IsVat(n) <==> VatName(n)
    ensures IsSourceRetention(n) <==> SourceName(n)
    ensures Concept1012(n) == DeclarationConcept(n)
  {
    hide Contains, ContainsAny;
    var source := ["retefu", "retencion en la fuente", "rete fuente", "retefuente", "rete renta"];
    ContainsAnyExactly(n, source);
    assert source[0] == "retefu" && source[1] == "retencion en la fuente" && source[2] == "rete fuente";
    assert source[3] == "retefuente" && source[4] == "rete renta";
    if Contains(n, "retefuente") { ContainsStart(n, "retefu", "retefuente"); }
    var three := ["retefu", "retencion en la fuente", "rete fuente"];
    ContainsAnyExactly(n, three);
    assert three[0] == "retefu" && three[1] == "retencion en la fuente" && three[2] == "rete fuente";
    if Contains(n, "rete ica") { assert "ica" <= "rete ica"[5..]; ContainsEnd(n, "ica", "rete ica", 5); }
  }

  lemma CodesRead(code: string)
    ensures Concept1001(code) == PaymentConcept(code)
    ensures "42" <= code <==> StartsWith(code, "42")
  {}

  /** The contribution of a reading. */
  ghost predicate IsReading(code: Code, c: Option<Contribution>, r: Option<Reading>)
  {
    && (c.Some? <==> r.Some?)
    && (r.Some? ==> c.value.key == KeyIn(code, r.value.nit, r.value.concept) && c.value.v == r.value.v)
  }

  lemma KeysRead(l: JournalLine)
    ensures l.partner.Some? ==> NitKey(l.partner.value) == PartnerNit(l.partner.value)
  {
    if l.partner.Some? { NitKeyExactly(l.partner.value); }
  }

  lemma FlowIsRead(code: Code, l: JournalLine)
    requires code in {F1001, F1007}
    ensures IsReading(code, LineIn(code, l), Read(code, l))
  {
    CodesRead(l.code);
    KeysRead(l);
    hide Lower, Clean, NitKey, PartnerNit, VatName, SourceName, DeclarationConcept;
    hide Concept1001, PaymentConcept, StartsWith;
  }

  lemma TaxIsRead(code: Code, l: JournalLine)
    requires code in {F1003, F1005, F1006, F1012}
    ensures IsReading(code, LineIn(code, l), Read(code, l))
  {
    if l.tax.Some? { NamesRead(Lower(l.tax.value)); }
    KeysRead(l);
    hide Lower, Clean, NitKey, PartnerNit, IsVat, VatName, SourceName, IsSourceRetention;
    hide Concept1012, DeclarationConcept, Paid, Earned, PaymentConcept, StartsWith;
  }

  lemma BalanceIsRead(code: Code, l: JournalLine)
    requires code in {F1008, F1009, F1010}
    ensures IsReading(code, LineIn(code, l), Read(code, l))
  {
    KeysRead(l);
    hide Lower, Clean, NitKey, PartnerNit, VatName, SourceName, DeclarationConcept, Paid, Earned;
    hide PaymentConcept, StartsWith;
  }

  /** What a format adds for a line is what the books say of it. */
  lemma LineIsRead(code: Code, l: JournalLine)
    ensures IsReading(code, LineIn(code, l), Read(code, l))
  {
    hide LineIn, Read, IsReading;
    if code in {F1001, F1007} {
      FlowIsRead(code, l);
    } else if code in {F1003, F1005, F1006, F1012} {
      TaxIsRead(code, l);
    } else {
      BalanceIsRead(code, l);
    }
  }

  function LinesFor(code: Code, j: Journal): seq<JournalLine>
  {
    if code in {F1008, F1009, F1010} then j.upToEnd else j.year
  }

  /** What the books hold for a concept of a format, and for a tax number and a concept. */
  function ReadFor(code: Code, l: JournalLine, concept: string, m: Measure): int
  {
    var r := Read(code, l);
    if r.Some? && r.value.concept == concept then Get(r.value.v, m) else 0
  }

  function ReadOf(code: Code, l: JournalLine, nit: string, concept: string, m: Measure): int
  {
    var r := Read(code, l);
    if r.Some? && r.value.nit == nit && r.value.concept == concept then Get(r.value.v, m) else 0
  }

  lemma MeasuresConcept(code: Code, l: JournalLine)
    ensures code in {F1005, F1006, F1008, F1009, F1010} && Read(code, l).Some? ==> Read(code, l).value.concept == ""
  {
    hide Lower, Clean, VatName;
  }

  lemma ReadAdds(code: Code, l: JournalLine, concept: string, m: Measure)
    ensures ReadFor(code, l, concept, m) == Adds(LineIn(code, l), concept, m)
  {
    LineIsRead(code, l);
    MeasuresConcept(code, l);
    hide Read, LineIn, Get;
  }

  function GroupsFor(code: Code, j: Journal): seq<Row> { Grouped(LinesFor(code, j), l => LineIn(code, l)) }

  /** Before filters and aggregation, every concept of every format holds exactly what the books
      hold for it, in every measure. */
  lemma ConceptTotals(code: Code, j: Journal, concept: string, m: Measure)
    ensures ConceptSum(GroupsFor(code, j), concept, m) == SumOver(LinesFor(code, j), l => ReadFor(code, l, concept, m))
  {
    hide ConceptSum, Grouped, SumOver, ReadFor, Adds, LineIn;
    forall l ensures ReadFor(code, l, concept, m) == Adds(LineIn(code, l), concept, m) {
      ReadAdds(code, l, concept, m);
    }
    GroupedConcept(LinesFor(code, j), l => LineIn(code, l), concept, m, l => ReadFor(code, l, concept, m));
  }

  lemma ReadAddsOf(code: Code, l: JournalLine, nit: string, concept: string, m: Measure)
    requires code in {F1005, F1006, F1008, F1009, F1010} ==> concept == ""
    ensures ReadOf(code, l, nit, concept, m) == AddsTo(LineIn(code, l), KeyIn(code, nit, concept), m)
  {
    LineIsRead(code, l);
    MeasuresConcept(code, l);
    hide Read, LineIn, Get;
  }

  function AddsTo(c: Option<Contribution>, key: Key, m: Measure): int
  {
    if c.Some? && c.value.key == key then Get(c.value.v, m) else 0
  }

  /** And so does every tax number. */
  lemma PartnerTotals(code: Code, j: Journal, nit: string, concept: string, m: Measure)
    requires code in {F1005, F1006, F1008, F1009, F1010} ==> concept == ""
    ensures Get(At(GroupsFor(code, j), KeyIn(code, nit, concept)), m)
         == SumOver(LinesFor(code, j), l => ReadOf(code, l, nit, concept, m))
  {
    hide SumOver, ReadOf, AddsTo, LineIn, AddAll, Collect, At, Get, KeyIn;
    var key := KeyIn(code, nit, concept);
    forall l ensures ReadOf(code, l, nit, concept, m) == AddsTo(LineIn(code, l), key, m) {
      ReadAddsOf(code, l, nit, concept, m);
    }
    var f := l => LineIn(code, l);
    var w := l => ReadOf(code, l, nit, concept, m);
    GroupsAddUp([], Collect(LinesFor(code, j), f), key, m);
    CollectedForKey(LinesFor(code, j), f, key, m, w);
    NothingAt(key, m);
  }

  lemma NothingAt(key: Key, m: Measure)
    ensures Get(At([], key), m) == 0
  {}

  lemma {:induction false} SameCollected(
      lines: seq<JournalLine>, f: JournalLine -> Option<Contribution>, g: JournalLine -> Option<Contribution>)
    requires forall l :: f(l) == g(l)
    ensures Collect(lines, f) == Collect(lines, g)
  {
    if lines != [] { SameCollected(lines[1..], f, g); }
  }

  /** The groups of a format under its own name. */
  lemma GroupsAre(code: Code, j: Journal, f: JournalLine -> Option<Contribution>)
    requires forall l :: f(l) == LineIn(code, l)
    ensures GroupsFor(code, j) == Grouped(LinesFor(code, j), f)
  {
    hide LineIn;
    SameCollected(LinesFor(code, j), l => LineIn(code, l), f);
  }

  /** The VAT formats report all the VAT, and its whole base, of purchases and of sales. */
  lemma VatTotals(j: Journal, mins: Minimums, m: Measure)
    ensures ConceptSum(RowsFor(F1005, j, mins), "", m) == SumOver(j.year, l => ReadFor(F1005, l, "", m))
    ensures ConceptSum(RowsFor(F1006, j, mins), "", m) == SumOver(j.year, l => ReadFor(F1006, l, "", m))
  {
    hide ConceptSum, Grouped, SumOver, ReadFor, Line1005, Line1006;
    GroupsAre(F1005, j, Line1005);
    GroupsAre(F1006, j, Line1006);
    hide GroupsFor;
    ConceptTotals(F1005, j, "", m);
    ConceptTotals(F1006, j, "", m);
  }

  /** Format 1003 reports all the tax withheld at source, as amount and as retention, and its base. */
  lemma RetentionTotals(j: Journal, mins: Minimums, m: Measure)
    ensures ConceptSum(RowsFor(F1003, j, mins), "1301", m) == SumOver(j.year, l => ReadFor(F1003, l, "1301", m))
  {
    hide ConceptSum, Grouped, SumOver, ReadFor, Line1003;
    GroupsAre(F1003, j, Line1003);
    hide GroupsFor;
    ConceptTotals(F1003, j, "1301", m);
  }

  lemma {:induction false} PositiveSum(rows: seq<Row>)
    requires NonNegative(rows)
    ensures ConceptSum(Positive(rows), "", Amount) == ConceptSum(rows, "", Amount)
  {
    if rows != [] {
      assert NonNegative(rows[1..]);
      PositiveSum(rows[1..]);
      if rows[0].v.amount > 0 {
        assert Positive(rows)[1..] == Positive(rows[1..]);
      } else {
        assert Positive(rows) == Positive(rows[1..]);
      }
    }
  }

  lemma {:induction false} AddToPlain(rows: seq<Row>, c: Contribution)
    requires AllPlain(rows) && c.key.Plain?
    ensures AllPlain(AddTo(rows, c))
  {
    if rows != [] && rows[0].key != c.key {
      assert AllPlain(rows[1..]);
      AddToPlain(rows[1..], c);
    }
  }

  lemma {:induction false} AddAllPlain(rows: seq<Row>, cs: seq<Contribution>)
    requires AllPlain(rows) && forall k :: 0 <= k < |cs| ==> cs[k].key.Plain?
    ensures AllPlain(AddAll(rows, cs))
    decreases cs
  {
    if cs != [] {
      AddToPlain(rows, cs[0]);
      AddAllPlain(AddTo(rows, cs[0]), cs[1..]);
    }
  }

  lemma GroupedPlain(lines: seq<JournalLine>, f: JournalLine -> Option<Contribution>)
    requires forall l :: f(l).Some? ==> f(l).value.key.Plain?
    ensures AllPlain(Grouped(lines, f))
  {
    var cs := Collect(lines, f);
    forall k | 0 <= k < |cs| ensures cs[k].key.Plain? {
      CollectFrom(lines, f, k);
      var i :| 0 <= i < |lines| && f(lines[i]) == Some(cs[k]);
    }
    AddAllPlain([], cs);
  }

  /** Format 1009 loses nothing to its filter or to the minimum amount: it reports the absolute
      balances of all payable lines with a partner. */
  lemma PayableTotals(j: Journal, mins: Minimums)
    ensures ConceptSum(RowsFor(F1009, j, mins), "", Amount) == SumOver(j.upToEnd, l => ReadFor(F1009, l, "", Amount))
  {
    hide ConceptSum, Grouped, SumOver, NitKey, Clean, NonNegative, AllPlain, Positive, ApplyThreshold, ReadFor;
    var rows := Grouped(j.upToEnd, Line1009);
    GroupedNonNegative(j.upToEnd, Line1009);
    GroupedPlain(j.upToEnd, Line1009);
    hide Line1009;
    GroupsAre(F1009, j, Line1009);
    hide GroupsFor;
    ConceptTotals(F1009, j, "", Amount);
    PositiveSum(rows);
    PositiveEach(rows);
    PlainConserves(Positive(rows), mins.min1009, "", Amount);
  }

  /** Format 1007 reports all income less refunds by concept, less exactly what aggregation
      overwrites. */
  lemma IncomeTotals(j: Journal, mins: Minimums, concept: string, m: Measure)
    ensures ConceptSum(RowsFor(F1007, j, mins), concept, m)
         == SumOver(j.year, l => ReadFor(F1007, l, concept, m))
            - Lost(Grouped(j.year, Line1007), mins.min1007, concept, m)
  {
    hide ConceptSum, Grouped, SumOver, ApplyThreshold, Lost, ReadFor, Line1007;
    ThresholdLoses(Grouped(j.year, Line1007), mins.min1007, concept, m);
    GroupsAre(F1007, j, Line1007);
    hide GroupsFor;
    ConceptTotals(F1007, j, concept, m);
  }

  lemma {:induction false} AttributeAmount(rows: seq<Row>, nit: string, v: Vec, concept: string)
    requires v.amount == 0
    ensures ConceptSum(Attribute(rows, nit, v), concept, Amount) == ConceptSum(rows, concept, Amount)
  {
    if rows != [] {
      hide ConceptOf;
      if rows[0].key.nit != nit {
        AttributeAmount(rows[1..], nit, v, concept);
        assert Attribute(rows, nit, v)[1..] == Attribute(rows[1..], nit, v);
      } else {
        assert Attribute(rows, nit, v)[1..] == rows[1..];
      }
    }
  }

  lemma {:induction false} AttributeAllAmount(rows: seq<Row>, lines: seq<JournalLine>, concept: string)
    ensures ConceptSum(AttributeAll(rows, lines), concept, Amount) == ConceptSum(rows, concept, Amount)
    decreases lines
  {
    if lines != [] {
      hide ConceptSum, Attribute, Tax1001, Clean;
      var l := lines[0];
      if IsTaxLine(l) {
        Tax1001Amount(l);
        AttributeAmount(rows, Clean(l.partner.value), Tax1001(l), concept);
        AttributeAllAmount(Attribute(rows, Clean(l.partner.value), Tax1001(l)), lines[1..], concept);
      } else {
        AttributeAllAmount(rows, lines[1..], concept);
      }
    }
  }

  /** Format 1001 reports all payments less refunds by concept, less exactly what aggregation
      overwrites. */
  lemma PaymentTotals(j: Journal, mins: Minimums, concept: string)
    ensures ConceptSum(RowsFor(F1001, j, mins), concept, Amount)
         == SumOver(j.year, l => ReadFor(F1001, l, concept, Amount))
            - Lost(Groups1001(j.year), mins.min1001, concept, Amount)
  {
    hide ConceptSum, Grouped, AttributeAll, SumOver, ApplyThreshold, Lost, ReadFor, Line1001;
    ThresholdLoses(Groups1001(j.year), mins.min1001, concept, Amount);
    Groups1001Is(j.year);
    AttributeAllAmount(Grouped(j.year, Line1001), j.year, concept);
    GroupsAre(F1001, j, Line1001);
    hide GroupsFor;
    ConceptTotals(F1001, j, concept, Amount);
  }

  lemma {:induction false} CollectedForKey(
      lines: seq<JournalLine>, f: JournalLine -> Option<Contribution>, key: Key, m: Measure, w: JournalLine -> int)
    requires forall l :: w(l) == AddsTo(f(l), key, m)
    ensures ContributedTo(Collect(lines, f), key, m) == SumOver(lines, w)
  {
    if lines != [] {
      hide Get;
      CollectedForKey(lines[1..], f, key, m, w);
      var rest := Collect(lines[1..], f);
      assert w(lines[0]) == AddsTo(f(lines[0]), key, m);
      if f(lines[0]).Some? {
        assert Collect(lines, f) == [f(lines[0]).value] + rest;
        assert Collect(lines, f)[1..] == rest;
      } else {
        assert Collect(lines, f) == rest;
      }
    }
  }

  lemma {:induction false} PositiveHas(rows: seq<Row>, key: Key)
    requires HasKey(Positive(rows), key)
    ensures HasKey(rows, key)
  {
    if rows[0].v.amount > 0 {
      assert Positive(rows)[1..] == Positive(rows[1..]);
      if rows[0].key != key { PositiveHas(rows[1..], key); }
    } else {
      assert Positive(rows) == Positive(rows[1..]);
      PositiveHas(rows[1..], key);
    }
  }

  /** The filter keeps exactly the keys with a positive amount, with their values. */
  lemma {:induction false} PositiveExactly(rows: seq<Row>, key: Key)
    requires Distinct(rows)
    ensures HasKey(Positive(rows), key) <==> At(rows, key).amount > 0
    ensures At(rows, key).amount > 0 ==> At(Positive(rows), key) == At(rows, key)
    ensures Distinct(Positive(rows))
  {
    if rows != [] {
      PositiveExactly(rows[1..], key);
      if rows[0].v.amount > 0 {
        assert Positive(rows)[1..] == Positive(rows[1..]);
        if HasKey(Positive(rows[1..]), rows[0].key) { PositiveHas(rows[1..], rows[0].key); }
      } else {
        assert Positive(rows) == Positive(rows[1..]);
        if rows[0].key == key && HasKey(Positive(rows), key) { PositiveHas(rows[1..], key); }
      }
    }
  }

  /** Format 1008 retains exactly the tax numbers with a positive receivable balance, each once and
      with that balance, and the minimum amount then loses nothing of their total. */
  lemma ReceivableTotals(j: Journal, mins: Minimums, nit: string)
    ensures var rows := Positive(Grouped(j.upToEnd, Line1008));
      var balance := SumOver(j.upToEnd, l => ReadOf(F1008, l, nit, "", Amount));
      && Distinct(rows)
      && (HasKey(rows, Plain(nit)) <==> balance > 0)
      && (balance > 0 ==> At(rows, Plain(nit)).amount == balance)
      && ConceptSum(RowsFor(F1008, j, mins), "", Amount) == ConceptSum(rows, "", Amount)
  {
    hide ConceptSum, AddAll, Collect, SumOver, NitKey, Clean, AllPlain, Positive, ApplyThreshold, HasKey, At, Distinct;
    hide ReadOf;
    var cs := Collect(j.upToEnd, Line1008);
    var rows := Grouped(j.upToEnd, Line1008);
    NoRowsDistinct(Plain(nit));
    AddAllKeys([], cs);
    GroupedPlain(j.upToEnd, Line1008);
    hide Line1008;
    GroupsAre(F1008, j, Line1008);
    hide GroupsFor;
    PartnerTotals(F1008, j, nit, "", Amount);
    PositiveExactly(rows, Plain(nit));
    PositiveEach(rows);
    PlainConserves(Positive(rows), mins.min1008, "", Amount);
  }

  lemma NoRowsDistinct(key: Key)
    ensures Distinct([]) && At([], key) == Zero
  {}

  /** Formats 1010 and 1012 report all equity of partners and, by concept, all taxes. */
  lemma EquityAndTaxTotals(j: Journal, mins: Minimums, concept: string, m: Measure)
    ensures ConceptSum(RowsFor(F1010, j, mins), "", m) == SumOver(j.upToEnd, l => ReadFor(F1010, l, "", m))
    ensures ConceptSum(RowsFor(F1012, j, mins), concept, m) == SumOver(j.year, l => ReadFor(F1012, l, concept, m))
  {
    hide ConceptSum, Grouped, SumOver, ReadFor, Line1010, Line1012;
    GroupsAre(F1010, j, Line1010);
    GroupsAre(F1012, j, Line1012);
    hide GroupsFor;
    ConceptTotals(F1010, j, "", m);
    ConceptTotals(F1012, j, concept, m);
  }

  // ---------------------------------------------------------------- validation

  datatype Format = Format(code: Code, rows: seq<Row>)

  datatype Problem = BadCheckDigit(code: Code, row: Row) | NegativeAmount(code: Code, row: Row) | NoCompanyNit

  predicate BadDv(r: Row) { r.nit != "" && r.dv != "" && r.dv != CheckDigit(r.nit) }

  predicate MayNotBeNegative(code: Code) { code != F1003 && code != F1012 }

  function DvProblems(code: Code, rows: seq<Row>): seq<Problem>
  {
    if rows == [] then []
    else (if BadDv(rows[0]) then [BadCheckDigit(code, rows[0])] else []) + DvProblems(code, rows[1..])
  }

  function NegativeProblems(code: Code, rows: seq<Row>): seq<Problem>
  {
    if rows == [] then []
    else (if rows[0].v.amount < 0 then [NegativeAmount(code, rows[0])] else []) + NegativeProblems(code, rows[1..])
  }

  function AllDvProblems(formats: seq<Format>): seq<Problem>
  {
    if formats == [] then []
    else DvProblems(formats[0].code, formats[0].rows) + AllDvProblems(formats[1..])
  }

  function AllNegativeProblems(formats: seq<Format>): seq<Problem>
  {
    if formats == [] then []
    else (if MayNotBeNegative(formats[0].code) then NegativeProblems(formats[0].code, formats[0].rows) else [])
         + AllNegativeProblems(formats[1..])
  }

  function Problems(formats: seq<Format>, companyNit: string): seq<Problem>
  {
    AllDvProblems(formats) + AllNegativeProblems(formats) + (if companyNit == "" then [NoCompanyNit] else [])
  }

  method FindProblems(formats: seq<Format>, companyNit: string) returns (errors: seq<Problem>)
    ensures errors == Problems(formats, companyNit)
  {
    errors := FindDvProblems(formats);
    var negative := FindNegativeProblems(formats);
    errors := errors + negative;
    if companyNit == "" { errors := errors + [NoCompanyNit]; }
  }

  /** Each list of problems, one format or one row at a time. */
  lemma ProblemsStep(formats: seq<Format>, i: nat)
    requires i < |formats|
    ensures AllDvProblems(formats[i..])
         == DvProblems(formats[i].code, formats[i].rows) + AllDvProblems(formats[i + 1..])
    ensures AllNegativeProblems(formats[i..])
         == (if MayNotBeNegative(formats[i].code) then NegativeProblems(formats[i].code, formats[i].rows) else [])
            + AllNegativeProblems(formats[i + 1..])
  {
    hide DvProblems, NegativeProblems;
    assert formats[i..][0] == formats[i] && formats[i..][1..] == formats[i + 1..];
  }

  lemma RowProblemsStep(code: Code, rows: seq<Row>, i: nat)
    requires i < |rows|
    ensures DvProblems(code, rows[i..])
         == (if BadDv(rows[i]) then [BadCheckDigit(code, rows[i])] else []) + DvProblems(code, rows[i + 1..])
    ensures NegativeProblems(code, rows[i..])
         == (if rows[i].v.amount < 0 then [NegativeAmount(code, rows[i])] else [])
            + NegativeProblems(code, rows[i + 1..])
  {
    hide BadDv;
    assert rows[i..][0] == rows[i] && rows[i..][1..] == rows[i + 1..];
  }

  lemma NoProblems(code: Code)
    ensures AllDvProblems([]) == [] && AllNegativeProblems([]) == []
    ensures DvProblems(code, []) == [] && NegativeProblems(code, []) == []
  {}

  method FindDvProblems(formats: seq<Format>) returns (errors: seq<Problem>)
    ensures errors == AllDvProblems(formats)
  {
    hide AllDvProblems, DvProblems, AllNegativeProblems, NegativeProblems;
    errors := [];
    assert formats[0..] == formats;
    for i := 0 to |formats|
      invariant errors + AllDvProblems(formats[i..]) == AllDvProblems(formats)
    {
      ProblemsStep(formats, i);
      var bad := FormatDvProblems(formats[i]);
      ghost var rest := AllDvProblems(formats[i + 1..]);
      assert errors + (bad + rest) == errors + bad + rest;
      errors := errors + bad;
    }
    NoProblems(F1001);
    assert formats[|formats|..] == [];
  }

  method FindNegativeProblems(formats: seq<Format>) returns (errors: seq<Problem>)
    ensures errors == AllNegativeProblems(formats)
  {
    hide AllDvProblems, DvProblems, AllNegativeProblems, NegativeProblems;
    errors := [];
    assert formats[0..] == formats;
    for i := 0 to |formats|
      invariant errors + AllNegativeProblems(formats[i..]) == AllNegativeProblems(formats)
    {
      ProblemsStep(formats, i);
      var bad: seq<Problem> := [];
      if MayNotBeNegative(formats[i].code) { bad := FormatNegativeProblems(formats[i]); }
      ghost var rest := AllNegativeProblems(formats[i + 1..]);
      assert errors + (bad + rest) == errors + bad + rest;
      errors := errors + bad;
    }
    NoProblems(F1001);
    assert formats[|formats|..] == [];
  }

  method FormatDvProblems(f: Format) returns (errors: seq<Problem>)
    ensures errors == DvProblems(f.code, f.rows)
  {
    hide DvProblems, NegativeProblems, BadDv;
    errors := [];
    assert f.rows[0..] == f.rows;
    for k := 0 to |f.rows|
      invariant errors + DvProblems(f.code, f.rows[k..]) == DvProblems(f.code, f.rows)
    {
      RowProblemsStep(f.code, f.rows, k);
      var bad: seq<Problem> := if BadDv(f.rows[k]) then [BadCheckDigit(f.code, f.rows[k])] else [];
      ghost var rest := DvProblems(f.code, f.rows[k + 1..]);
      assert errors + (bad + rest) == errors + bad + rest;
      errors := errors + bad;
    }
    NoProblems(f.code);
    assert f.rows[|f.rows|..] == [];
  }

  method FormatNegativeProblems(f: Format) returns (errors: seq<Problem>)
    ensures errors == NegativeProblems(f.code, f.rows)
  {
    hide DvProblems, NegativeProblems, BadDv;
    errors := [];
    assert f.rows[0..] == f.rows;
    for k := 0 to |f.rows|
      invariant errors + NegativeProblems(f.code, f.rows[k..]) == NegativeProblems(f.code, f.rows)
    {
      RowProblemsStep(f.code, f.rows, k);
      var bad: seq<Problem> := if f.rows[k].v.amount < 0 then [NegativeAmount(f.code, f.rows[k])] else [];
      ghost var rest := NegativeProblems(f.code, f.rows[k + 1..]);
      assert errors + (bad + rest) == errors + bad + rest;
      errors := errors + bad;
    }
    NoProblems(f.code);
    assert f.rows[|f.rows|..] == [];
  }

  /** A row is reported for its check digit exactly when it has a tax number and a digit that is not
      the one of that number, and for its amount exactly when that is negative. */
  lemma {:induction false} RowProblemsExactly(code: Code, rows: seq<Row>)
    ensures forall p :: p in DvProblems(code, rows) <==>
      p.BadCheckDigit? && p.code == code && p.row in rows && p.row.nit != "" && p.row.dv !in {"", CheckDigit(p.row.nit)}
    ensures forall p :: p in NegativeProblems(code, rows) <==>
      p.NegativeAmount? && p.code == code && p.row in rows && p.row.v.amount < 0
  {
    hide CheckDigit;
    if rows != [] { RowProblemsExactly(code, rows[1..]); }
  }

  /** Amounts are checked in all formats but those of retentions and of declarations. */
  lemma {:induction false} ProblemsExactly(formats: seq<Format>)
    ensures forall p :: p in AllDvProblems(formats) <==>
      p.BadCheckDigit? && exists f :: f in formats && p in DvProblems(f.code, f.rows)
    ensures forall p :: p in AllNegativeProblems(formats) <==>
      p.NegativeAmount? && p.code in {F1001, F1005, F1006, F1007, F1008, F1009, F1010}
      && exists f :: f in formats && p in NegativeProblems(f.code, f.rows)
  {
    if formats != [] {
      var f, rest := formats[0], formats[1..];
      ProblemsExactly(rest);
      RowProblemsExactly(f.code, f.rows);
      hide DvProblems, NegativeProblems, AllDvProblems, AllNegativeProblems;
      OneMoreFormat(formats);
    }
  }

  lemma OneMoreFormat(formats: seq<Format>)
    requires formats != []
    ensures AllDvProblems(formats) == DvProblems(formats[0].code, formats[0].rows) + AllDvProblems(formats[1..])
    ensures AllNegativeProblems(formats)
         == (if formats[0].code in {F1001, F1005, F1006, F1007, F1008, F1009, F1010}
             then NegativeProblems(formats[0].code, formats[0].rows) else []) + AllNegativeProblems(formats[1..])
    ensures forall f :: f in formats <==> f == formats[0] || f in formats[1..]
  {
    hide DvProblems, NegativeProblems;
  }

  lemma {:induction false} NoDvProblems(code: Code, rows: seq<Row>)
    requires DvOk(rows)
    ensures DvProblems(code, rows) == []
  {
    if rows != [] {
      assert DvOk(rows[1..]);
      NoDvProblems(code, rows[1..]);
    }
  }

  lemma {:induction false} NegativeProblemsExactly(code: Code, rows: seq<Row>)
    ensures NegativeProblems(code, rows) == [] <==> NonNegative(rows)
  {
    if rows != [] {
      NegativeProblemsExactly(code, rows[1..]);
      assert NonNegative(rows) <==> rows[0].v.amount >= 0 && NonNegative(rows[1..]) by {
        if rows[0].v.amount >= 0 && NonNegative(rows[1..]) {
          forall i | 0 <= i < |rows| ensures rows[i].v.amount >= 0 {
            if i > 0 { assert rows[i] == rows[1..][i - 1]; }
          }
        }
        if NonNegative(rows) {
          forall i | 0 <= i < |rows[1..]| ensures rows[1..][i].v.amount >= 0 { assert rows[1..][i] == rows[i + 1]; }
        }
      }
    }
  }

  /** What generation guarantees of a format. */
  ghost predicate FormatGood(f: Format)
  {
    DvOk(f.rows) && (f.code != F1001 && f.code != F1007 ==> NonNegative(f.rows))
  }

  ghost predicate AllGood(formats: seq<Format>)
  {
    forall i :: 0 <= i < |formats| ==> FormatGood(formats[i])
  }

  predicate IsFlow(code: Code) { code == F1001 || code == F1007 }

  /** No negative payment and no negative income. */
  ghost predicate FlowsNonNegative(formats: seq<Format>)
  {
    forall i :: 0 <= i < |formats| && IsFlow(formats[i].code) ==> NonNegative(formats[i].rows)
  }

  lemma FlowsHead(formats: seq<Format>)
    requires formats != []
    ensures FlowsNonNegative(formats) <==>
      (IsFlow(formats[0].code) ==> NonNegative(formats[0].rows)) && FlowsNonNegative(formats[1..])
    ensures AllGood(formats) ==> FormatGood(formats[0]) && AllGood(formats[1..])
  {
    hide NonNegative, FormatGood;
    var rest := formats[1..];
    assert forall i :: 0 < i < |formats| ==> formats[i] == rest[i - 1];
    assert forall i :: 0 <= i < |rest| ==> rest[i] == formats[i + 1];
  }

  lemma {:induction false} ProblemsOf(formats: seq<Format>)
    requires AllGood(formats)
    ensures AllDvProblems(formats) == []
    ensures AllNegativeProblems(formats) == [] <==> FlowsNonNegative(formats)
  {
    if formats != [] {
      FlowsHead(formats);
      hide FlowsNonNegative, AllGood, DvOk, NonNegative;
      var f := formats[0];
      ProblemsOf(formats[1..]);
      NoDvProblems(f.code, f.rows);
      NegativeProblemsExactly(f.code, f.rows);
    }
  }

  // ---------------------------------------------------------------- the report

  datatype Status = Draft | Generated | Validated | Errors

  datatype Report = Report(formats: seq<Format>, status: Status)

  datatype Refusal = NoNit | NothingSelected | DuplicateFormat | NotGenerated

  datatype Action =
    | Generate(chosen: set<Code>, journal: Journal, mins: Minimums, overwrite: bool)
    | Validate
    | ResetDraft

  function Selected(codes: seq<Code>, chosen: set<Code>): seq<Code>
  {
    if codes == [] then [] else (if codes[0] in chosen then [codes[0]] else []) + Selected(codes[1..], chosen)
  }

  function Made(codes: seq<Code>, j: Journal, mins: Minimums): seq<Format>
  {
    if codes == [] then [] else [Format(codes[0], RowsFor(codes[0], j, mins))] + Made(codes[1..], j, mins)
  }

  /** A report has at most one format of each code. */
  predicate Clashes(formats: seq<Format>, codes: seq<Code>)
  {
    exists i :: 0 <= i < |formats| && formats[i].code in codes
  }

  /** A refused action is rolled back. */
  function Step(r: Report, nit: string, a: Action): (Report, Option<Refusal>)
  {
    match a
    case Generate(chosen, journal, mins, overwrite) =>
      var codes := Selected(AllCodes, chosen);
      var before := if overwrite then [] else r.formats;
      if nit == "" then (r, Some(NoNit))
      else if codes == [] then (r, Some(NothingSelected))
      else if Clashes(before, codes) then (r, Some(DuplicateFormat))
      else (Report(before + Made(codes, journal, mins), Generated), None)
    case Validate =>
      if r.status != Generated then (r, Some(NotGenerated))
      else (r.(status := if Problems(r.formats, nit) == [] then Validated else Errors), None)
    case ResetDraft => (Report([], Draft), None)
  }

  function Run(r: Report, nit: string, acts: seq<Action>): Report
    decreases acts
  {
    if acts == [] then r else Run(Step(r, nit, acts[0]).0, nit, acts[1..])
  }

  /** Generated formats are good, and a validated or rejected report has the verdict it deserves. */
  ghost predicate Inv(r: Report, nit: string)
  {
    && AllGood(r.formats)
    && (r.status != Draft ==> nit != "")
    && (r.status == Validated ==> FlowsNonNegative(r.formats))
    && (r.status == Errors ==> !FlowsNonNegative(r.formats))
  }

  lemma {:induction false} MadeGood(codes: seq<Code>, j: Journal, mins: Minimums)
    ensures AllGood(Made(codes, j, mins))
  {
    if codes != [] {
      FormatDv(codes[0], j, mins);
      if codes[0] != F1001 && codes[0] != F1007 { FormatNonNegative(codes[0], j, mins); }
      hide FormatGood, RowsFor;
      assert FormatGood(Format(codes[0], RowsFor(codes[0], j, mins))) by {
        GoodFormat(codes[0], RowsFor(codes[0], j, mins));
      }
      MadeGood(codes[1..], j, mins);
    }
  }

  lemma GoodFormat(code: Code, rows: seq<Row>)
    requires DvOk(rows) && (code != F1001 && code != F1007 ==> NonNegative(rows))
    ensures FormatGood(Format(code, rows))
  {}

  lemma StepKeeps(r: Report, nit: string, a: Action)
    requires Inv(r, nit)
    ensures Inv(Step(r, nit, a).0, nit)
  {
    hide FormatGood, FlowsNonNegative;
    match a
    case Generate(chosen, journal, mins, overwrite) => {
      hide AllGood, Made, Selected;
      MadeGood(Selected(AllCodes, chosen), journal, mins);
      GoodAppend(if overwrite then [] else r.formats, Made(Selected(AllCodes, chosen), journal, mins));
    }
    case Validate => {
      ProblemsOf(r.formats);
      hide AllGood, AllDvProblems, AllNegativeProblems;
    }
    case ResetDraft => {}
  }

  lemma GoodAppend(a: seq<Format>, b: seq<Format>)
    ensures (AllGood(a) || a == []) && AllGood(b) ==> AllGood(a + b)
  {
    hide FormatGood;
  }

  lemma {:induction false} RunKeeps(r: Report, nit: string, acts: seq<Action>)
    requires Inv(r, nit)
    ensures Inv(Run(r, nit, acts), nit)
    decreases acts
  {
    hide Inv, Step;
    if acts != [] {
      StepKeeps(r, nit, acts[0]);
      RunKeeps(Step(r, nit, acts[0]).0, nit, acts[1..]);
    }
  }

  // ---------------------------------------------------------------- one format of each code

  ghost predicate OneOfEach(formats: seq<Format>)
  {
    forall i, k :: 0 <= i < k < |formats| ==> formats[i].code != formats[k].code
  }

  lemma {:induction false} MadeCodes(codes: seq<Code>, j: Journal, mins: Minimums)
    ensures |Made(codes, j, mins)| == |codes|
    ensures forall i :: 0 <= i < |codes| ==> Made(codes, j, mins)[i].code == codes[i]
  {
    hide RowsFor;
    if codes != [] { MadeCodes(codes[1..], j, mins); }
  }

  ghost predicate DistinctCodes(codes: seq<Code>)
  {
    forall i, k :: 0 <= i < k < |codes| ==> codes[i] != codes[k]
  }

  lemma {:induction false} SelectedOnce(codes: seq<Code>, chosen: set<Code>)
    requires DistinctCodes(codes)
    ensures DistinctCodes(Selected(codes, chosen))
  {
    if codes != [] {
      var rest := codes[1..];
      assert forall i :: 0 <= i < |rest| ==> rest[i] == codes[i + 1];
      SelectedOnce(rest, chosen);
      forall c ensures c in Selected(rest, chosen) ==> c in rest { SelectedExactly(rest, chosen, c); }
      assert codes[0] !in rest;
      var picked := Selected(rest, chosen);
      assert forall i :: 0 <= i < |picked| ==> picked[i] in picked;
    }
  }

  lemma StepOneOfEach(r: Report, nit: string, a: Action)
    requires OneOfEach(r.formats)
    ensures OneOfEach(Step(r, nit, a).0.formats)
  {
    if a.Generate? {
      hide Made, Selected, RowsFor;
      var codes := Selected(AllCodes, a.chosen);
      assert DistinctCodes(AllCodes);
      SelectedOnce(AllCodes, a.chosen);
      MadeCodes(codes, a.journal, a.mins);
      var before := if a.overwrite then [] else r.formats;
      if !Clashes(before, codes) { AppendOneOfEach(before, Made(codes, a.journal, a.mins), codes); }
    }
  }

  lemma AppendOneOfEach(before: seq<Format>, made: seq<Format>, codes: seq<Code>)
    requires OneOfEach(before) && !Clashes(before, codes) && |made| == |codes|
    requires forall i :: 0 <= i < |codes| ==> made[i].code == codes[i]
    requires DistinctCodes(codes)
    ensures OneOfEach(before + made)
  {
    forall i, k | 0 <= i < |before| && 0 <= k < |made| ensures before[i].code != made[k].code {
      assert before[i].code !in codes;
      assert codes[k] in codes;
    }
  }

  /** Over every run a report has at most one format of each code; a generation is refused for that
      reason exactly when it does not overwrite and a chosen format is there already. */
  lemma {:induction false} RunOneOfEach(nit: string, r: Report, acts: seq<Action>)
    requires OneOfEach(r.formats)
    ensures OneOfEach(Run(r, nit, acts).formats)
    decreases acts
  {
    if acts != [] {
      hide OneOfEach, Step;
      StepOneOfEach(r, nit, acts[0]);
      RunOneOfEach(nit, Step(r, nit, acts[0]).0, acts[1..]);
    }
  }

  lemma RefusedExactly(r: Report, nit: string, chosen: set<Code>, j: Journal, mins: Minimums, overwrite: bool)
    ensures var e := Step(r, nit, Generate(chosen, j, mins, overwrite)).1;
      && (e == Some(NoNit) <==> nit == "")
      && (e == Some(NothingSelected) <==> nit != "" && chosen == {})
      && (e == Some(DuplicateFormat) <==>
            nit != "" && chosen != {} && !overwrite && exists f :: f in r.formats && f.code in chosen)
  {
    hide Made, RowsFor, Selected;
    var codes := Selected(AllCodes, chosen);
    forall c ensures c in codes <==> c in chosen { SelectedExactly(AllCodes, chosen, c); EveryCode(c); }
    assert codes == [] <==> chosen == {} by {
      if codes != [] { assert codes[0] in codes; }
      if chosen != {} { var c :| c in chosen; assert c in codes; }
    }
    ClashExactly(r.formats, codes);
  }

  lemma ClashExactly(formats: seq<Format>, codes: seq<Code>)
    ensures Clashes(formats, codes) <==> exists f :: f in formats && f.code in codes
    ensures !Clashes([], codes)
  {
    if Clashes(formats, codes) {
      var i :| 0 <= i < |formats| && formats[i].code in codes;
      assert formats[i] in formats;
    }
  }

  /** After any run, validating a generated report never finds a wrong check digit or a missing
      company number, and accepts it exactly when no payment and no income is negative. */
  lemma GenerateThenValidate(nit: string, acts: seq<Action>)
    ensures var r := Run(Report([], Draft), nit, acts);
      r.status == Generated ==>
        && AllDvProblems(r.formats) == []
        && nit != ""
        && Step(r, nit, Validate).1 == None
        && (Step(r, nit, Validate).0.status == Validated <==> FlowsNonNegative(r.formats))
        && (Step(r, nit, Validate).0.status == Errors <==> !FlowsNonNegative(r.formats))
  {
    var r := Run(Report([], Draft), nit, acts);
    RunKeeps(Report([], Draft), nit, acts);
    ProblemsOf(r.formats);
    hide AllGood, FlowsNonNegative, AllDvProblems, AllNegativeProblems, Run;
  }

  lemma {:induction false} MadeFlows(codes: seq<Code>, j: Journal, mins: Minimums)
    ensures FlowsNonNegative(Made(codes, j, mins)) <==>
      (forall c :: c in codes && (c == F1001 || c == F1007) ==> NonNegative(RowsFor(c, j, mins)))
  {
    if codes != [] {
      hide FlowsNonNegative, RowsFor, NonNegative;
      MadeFlows(codes[1..], j, mins);
      FlowsHead(Made(codes, j, mins));
      assert Made(codes, j, mins)[1..] == Made(codes[1..], j, mins);
    }
  }

  lemma {:induction false} SelectedExactly(codes: seq<Code>, chosen: set<Code>, c: Code)
    ensures c in Selected(codes, chosen) <==> c in codes && c in chosen
  {
    if codes != [] { SelectedExactly(codes[1..], chosen, c); }
  }

  lemma EveryCode(c: Code)
    ensures c in AllCodes
  {
    assert AllCodes[0] == F1001 && AllCodes[1] == F1003 && AllCodes[2] == F1005 && AllCodes[3] == F1006;
    assert AllCodes[4] == F1007 && AllCodes[5] == F1008 && AllCodes[6] == F1009 && AllCodes[7] == F1010;
    assert AllCodes[8] == F1012;
  }

  /** The same in terms of the journal: an overwriting generation is accepted at validation
      exactly when the selected ones of formats 1001 and 1007 have no negative row. */
  lemma ValidatedExactly(r: Report, nit: string, chosen: set<Code>, j: Journal, mins: Minimums)
    requires nit != "" && chosen != {}
    ensures var made := Step(r, nit, Generate(chosen, j, mins, true));
      && made.1 == None
      && (Step(made.0, nit, Validate).0.status == Validated <==>
            (forall c :: c in chosen && (c == F1001 || c == F1007) ==> NonNegative(RowsFor(c, j, mins))))
  {
    hide Step, Made, RowsFor, NonNegative, Selected, FlowsNonNegative, AllGood;
    var codes := Selected(AllCodes, chosen);
    OverwritingGenerate(r, nit, chosen, j, mins);
    MadeGood(codes, j, mins);
    MadeFlows(codes, j, mins);
    VerdictOf(Report(Made(codes, j, mins), Generated), nit);
  }

  lemma OverwritingGenerate(r: Report, nit: string, chosen: set<Code>, j: Journal, mins: Minimums)
    requires nit != "" && chosen != {}
    ensures var codes := Selected(AllCodes, chosen);
      && Step(r, nit, Generate(chosen, j, mins, true)) == (Report(Made(codes, j, mins), Generated), None)
      && forall c :: c in codes <==> c in chosen
  {
    hide Made, Selected;
    var codes := Selected(AllCodes, chosen);
    forall c ensures c in codes <==> c in chosen { SelectedExactly(AllCodes, chosen, c); EveryCode(c); }
    var some :| some in chosen;
    assert some in codes;
    ClashExactly([], codes);
    assert [] + Made(codes, j, mins) == Made(codes, j, mins);
  }

  lemma VerdictOf(r: Report, nit: string)
    requires nit != "" && r.status == Generated && AllGood(r.formats)
    ensures Step(r, nit, Validate).0.status == Validated <==> FlowsNonNegative(r.formats)
  {
    hide AllGood, FlowsNonNegative, AllDvProblems, AllNegativeProblems;
    ProblemsOf(r.formats);
  }

  lemma {:induction false} NonNegativeTotal(rows: seq<Row>, concept: string)
    requires NonNegative(rows)
    ensures ConceptSum(rows, concept, Amount) >= 0
  {
    if rows != [] {
      assert NonNegative(rows[1..]);
      NonNegativeTotal(rows[1..], concept);
    }
  }

  lemma RunOfTwo(r: Report, nit: string, a: Action, b: Action)
    ensures Run(r, nit, [a, b]) == Step(Step(r, nit, a).0, nit, b).0
  {
    hide Step;
    var acts := [a, b];
    assert acts[1..] == [b] && [b][1..] == [];
    assert Run(Step(r, nit, a).0, nit, [b]) == Run(Step(Step(r, nit, a).0, nit, b).0, nit, []);
  }

  function OneRefund(): JournalLine
  {
    JournalLine(Some("900123456"), InRefund, OtherAccount, "6135", 0, 500, None, 0)
  }

  lemma SumOverOne(l: JournalLine, w: JournalLine -> int)
    ensures SumOver([l], w) == w(l)
  {
    assert [l][1..] == [];
  }

  lemma OtherCode()
    ensures PaymentConcept("6135") == "5001"
  {
    assert "6135"[..2] == "61";
  }

  lemma OneRefundRead()
    ensures SumOver([OneRefund()], l => ReadFor(F1001, l, "5001", Amount)) == -500
  {
    hide Clean, Lower, PaymentConcept, SumOver;
    OtherCode();
    SumOverOne(OneRefund(), l => ReadFor(F1001, l, "5001", Amount));
  }

  /** For instance: a year with nothing but one supplier's refund is generated and rejected. */
  lemma RefundIsRejected()
    ensures var j := Journal([OneRefund()], []);
      var generate := Generate({F1001}, j, Minimums(0, 0, 0, 0), true);
      Run(Report([], Draft), "900", [generate, Validate]).status == Errors
  {
    hide Run, RowsFor, OneRefund, NonNegative;
    var j, mins := Journal([OneRefund()], []), Minimums(0, 0, 0, 0);
    var generate := Generate({F1001}, j, mins, true);
    var start := Report([], Draft);
    RunOfTwo(start, "900", generate, Validate);
    OneRefundRead();
    PaymentTotals(j, mins, "5001");
    NothingLost(j, mins);
    if NonNegative(RowsFor(F1001, j, mins)) { NonNegativeTotal(RowsFor(F1001, j, mins), "5001"); }
    ValidatedExactly(start, "900", {F1001}, j, mins);
    GeneratedIsChecked(start, "900", {F1001}, j, mins);
  }

  lemma NothingLost(j: Journal, mins: Minimums)
    requires mins.min1001 == 0
    ensures Lost(Groups1001(j.year), mins.min1001, "5001", Amount) == 0
  {}

  lemma GeneratedIsChecked(r: Report, nit: string, chosen: set<Code>, j: Journal, mins: Minimums)
    requires nit != "" && chosen != {}
    ensures var made := Step(r, nit, Generate(chosen, j, mins, true)).0;
      Step(made, nit, Validate).0.status in {Validated, Errors}
  {
    hide Made, RowsFor, Problems;
    RefusedExactly(r, nit, chosen, j, mins, true);
    hide Selected;
  }

  // ---------------------------------------------------------------- in place

  lemma SelectedStep(codes: seq<Code>, chosen: set<Code>, i: nat)
    requires i < |codes|
    ensures Selected(codes[i..], chosen)
         == (if codes[i] in chosen then [codes[i]] else []) + Selected(codes[i + 1..], chosen)
  {
    assert codes[i..][0] == codes[i] && codes[i..][1..] == codes[i + 1..];
  }

  method SelectFormats(codes: seq<Code>, chosen: set<Code>) returns (selected: seq<Code>)
    ensures selected == Selected(codes, chosen)
  {
    selected := [];
    assert codes[0..] == codes;
    for i := 0 to |codes|
      invariant selected + Selected(codes[i..], chosen) == Selected(codes, chosen)
    {
      SelectedStep(codes, chosen, i);
      ghost var rest := Selected(codes[i + 1..], chosen);
      if codes[i] in chosen {
        assert selected + ([codes[i]] + rest) == selected + [codes[i]] + rest;
        selected := selected + [codes[i]];
      } else {
        assert [] + rest == rest;
      }
    }
    assert Selected(codes[|codes|..], chosen) == [];
  }

  lemma MadeStep(codes: seq<Code>, j: Journal, mins: Minimums, i: nat)
    requires i < |codes|
    ensures Made(codes[i..], j, mins) == [Format(codes[i], RowsFor(codes[i], j, mins))] + Made(codes[i + 1..], j, mins)
  {
    hide RowsFor;
    assert codes[i..][0] == codes[i] && codes[i..][1..] == codes[i + 1..];
  }

  lemma NoneMade(j: Journal, mins: Minimums)
    ensures Made([], j, mins) == []
  {}

  method MakeFormats(codes: seq<Code>, j: Journal, mins: Minimums) returns (made: seq<Format>)
    ensures made == Made(codes, j, mins)
  {
    hide Made, RowsFor;
    made := [];
    assert codes[0..] == codes;
    for i := 0 to |codes|
      invariant made + Made(codes[i..], j, mins) == Made(codes, j, mins)
    {
      MadeStep(codes, j, mins, i);
      var rows := GenerateFormat(codes[i], j, mins);
      var format := Format(codes[i], rows);
      ghost var rest := Made(codes[i + 1..], j, mins);
      assert made + ([format] + rest) == made + [format] + rest;
      made := made + [format];
    }
    NoneMade(j, mins);
    assert codes[|codes|..] == [];
  }

  class ReportRecord {
    const companyNit: string
    var formats: seq<Format>
    var status: Status

    ghost function State(): Report
      reads this
    {
      Report(formats, status)
    }

    constructor (vat: string)
      ensures State() == Report([], Draft) && companyNit == Clean(vat)
    {
      companyNit := Clean(vat);
      formats, status := [], Draft;
    }

    method ActionGenerate(chosen: set<Code>, j: Journal, mins: Minimums, overwrite: bool) returns (e: Option<Refusal>)
      modifies this
      ensures (State(), e) == Step(old(State()), companyNit, Generate(chosen, j, mins, overwrite))
    {
      if companyNit == "" { return Some(NoNit); }
      var selected := SelectFormats(AllCodes, chosen);
      if selected == [] { return Some(NothingSelected); }
      var made := if overwrite then [] else formats;
      if Clashes(made, selected) { return Some(DuplicateFormat); }
      var more := MakeFormats(selected, j, mins);
      made := made + more;
      formats, status := made, Generated;
      e := None;
    }

    method ActionValidate() returns (e: Option<Refusal>)
      modifies this`status
      ensures (State(), e) == Step(old(State()), companyNit, Validate)
    {
      if status != Generated { return Some(NotGenerated); }
      var errors := FindProblems(formats, companyNit);
      status := if errors == [] then Validated else Errors;
      e := None;
    }

    method ActionResetDraft()
      modifies this
      ensures State() == Step(old(State()), companyNit, ResetDraft).0
    {
      formats, status := [], Draft;
    }
  }
}
