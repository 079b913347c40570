/**
 The Exógena tax report. Each format groups journal lines by tax number (and concept) in a
 dictionary, kept here as rows with distinct keys in order of insertion. Rows below a minimum
 amount are merged under the tax number of "cuantías menores".
 */
module Exogena {
  import opened Prelude
  import opened Money
  import opened TextSearch
  import opened Nit

  // ---------------------------------------------------------------- rows

  datatype Vec = Vec(amount: int, base: int, retention: int, vat: int)

  const Zero := Vec(0, 0, 0, 0)

  function Plus(v: Vec, w: Vec): Vec
  {
    Vec(v.amount + w.amount, v.base + w.base, v.retention + w.retention, v.vat + w.vat)
  }

  datatype Measure = Amount | Base | Retention | Vat

  function Get(v: Vec, m: Measure): int
  {
    match m
    case Amount => v.amount
    case Base => v.base
    case Retention => v.retention
    case Vat => v.vat
  }

  lemma GetPlus(v: Vec, w: Vec, m: Measure)
    ensures Get(Plus(v, w), m) == Get(v, m) + Get(w, m)
  {}

  /** Most formats key their rows by tax number and concept, some by tax number alone. */
  datatype Key = Pair(nit: string, concept: string) | Plain(nit: string)

  function ConceptOf(key: Key): string { if key.Pair? then key.concept else "" }

  datatype Row = Row(key: Key, nit: string, dv: string, v: Vec)

  const MinorNit := "222222222"

  function MinorKey(concept: string): Key { Pair(MinorNit, concept) }

  predicate HasKey(rows: seq<Row>, key: Key)
  {
    rows != [] && (rows[0].key == key || HasKey(rows[1..], key))
  }

  ghost predicate Distinct(rows: seq<Row>)
  {
    rows != [] ==> !HasKey(rows[1..], rows[0].key) && Distinct(rows[1..])
  }

  /** The total of a measure over the rows of a concept. */
  function ConceptSum(rows: seq<Row>, concept: string, m: Measure): int
  {
    if rows == [] then 0
    else (if ConceptOf(rows[0].key) == concept then Get(rows[0].v, m) else 0) + ConceptSum(rows[1..], concept, m)
  }

  /** The value stored under a key, zero when there is none. */
  function At(rows: seq<Row>, key: Key): Vec
  {
    if rows == [] then Zero else if rows[0].key == key then rows[0].v else At(rows[1..], key)
  }

  /** Dictionary assignment: replace the row with the same key, or append. */
  function Put(rows: seq<Row>, row: Row): seq<Row>
  {
    if rows == [] then [row]
    else if rows[0].key == row.key then [row] + rows[1..]
    else [rows[0]] + Put(rows[1..], row)
  }

  // ---------------------------------------------------------------- grouping

  datatype Contribution = Contribution(key: Key, nit: string, v: Vec)

  /** Accumulates into the row of the key, creating it with the partner's data first. */
  function AddTo(rows: seq<Row>, c: Contribution): seq<Row>
  {
    if rows == [] then [Row(c.key, c.nit, CheckDigit(c.nit), c.v)]
    else if rows[0].key == c.key then [rows[0].(v := Plus(rows[0].v, c.v))] + rows[1..]
    else [rows[0]] + AddTo(rows[1..], c)
  }

  function AddAll(rows: seq<Row>, cs: seq<Contribution>): seq<Row>
    decreases cs
  {
    if cs == [] then rows else AddAll(AddTo(rows, cs[0]), cs[1..])
  }

  lemma {:induction false} AddToKeeps(rows: seq<Row>, c: Contribution)
    ensures forall k :: HasKey(AddTo(rows, c), k) <==> HasKey(rows, k) || k == c.key
    ensures Distinct(rows) ==> Distinct(AddTo(rows, c))
  {
    if rows != [] && rows[0].key != c.key {
      AddToKeeps(rows[1..], c);
      assert AddTo(rows, c)[1..] == AddTo(rows[1..], c);
    }
  }

  lemma {:induction false} AddToSum(rows: seq<Row>, c: Contribution, concept: string, m: Measure)
    ensures ConceptSum(AddTo(rows, c), concept, m)
         == ConceptSum(rows, concept, m) + (if ConceptOf(c.key) == concept then Get(c.v, m) else 0)
  {
    hide Get, Plus, ConceptOf, CheckDigit;
    if rows != [] && rows[0].key != c.key {
      AddToSum(rows[1..], c, concept, m);
      assert AddTo(rows, c)[1..] == AddTo(rows[1..], c);
    } else if rows != [] {
      GetPlus(rows[0].v, c.v, m);
      assert AddTo(rows, c)[1..] == rows[1..];
    }
  }

  function ContributedTo(cs: seq<Contribution>, key: Key, m: Measure): int
  {
    if cs == [] then 0 else (if cs[0].key == key then Get(cs[0].v, m) else 0) + ContributedTo(cs[1..], key, m)
  }

  lemma {:induction false} AddToAt(rows: seq<Row>, c: Contribution, key: Key, m: Measure)
    ensures Get(At(AddTo(rows, c), key), m) == Get(At(rows, key), m) + (if c.key == key then Get(c.v, m) else 0)
  {
    if rows == [] {
      assert Get(Zero, m) == 0;
    } else {
      GetPlus(rows[0].v, c.v, m);
      hide Get, Plus, CheckDigit;
      if rows[0].key != c.key {
        AddToAt(rows[1..], c, key, m);
        assert AddTo(rows, c)[1..] == AddTo(rows[1..], c);
      } else {
        assert AddTo(rows, c)[1..] == rows[1..];
      }
    }
  }

  /** Grouping: what ends up under a key is what was there plus everything contributed to it. */
  lemma {:induction false} GroupsAddUp(rows: seq<Row>, cs: seq<Contribution>, key: Key, m: Measure)
    ensures Get(At(AddAll(rows, cs), key), m) == Get(At(rows, key), m) + ContributedTo(cs, key, m)
    decreases cs
  {
    if cs != [] {
      AddToAt(rows, cs[0], key, m);
      hide Get, At, AddTo;
      GroupsAddUp(AddTo(rows, cs[0]), cs[1..], key, m);
    }
  }

  /** The tax number that belongs to a key; partners without digits have none. */
  function NitOf(key: Key): string { if key.nit == "NO_NIT" then "" else key.nit }

  /** A row shows the tax number of its key and the check digit of that number. */
  ghost predicate RowOk(r: Row) { r.nit == NitOf(r.key) && r.dv == CheckDigit(r.nit) }

  ghost predicate DvOk(rows: seq<Row>)
  {
    forall i :: 0 <= i < |rows| ==> RowOk(rows[i])
  }

  lemma {:induction false} AddToDv(rows: seq<Row>, c: Contribution)
    requires DvOk(rows) && c.nit == NitOf(c.key)
    ensures DvOk(AddTo(rows, c))
  {
    if rows != [] && rows[0].key != c.key {
      assert DvOk(rows[1..]);
      AddToDv(rows[1..], c);
    }
  }

  lemma {:induction false} AddAllDv(rows: seq<Row>, cs: seq<Contribution>)
    requires DvOk(rows) && forall i :: 0 <= i < |cs| ==> cs[i].nit == NitOf(cs[i].key)
    ensures DvOk(AddAll(rows, cs))
    decreases cs
  {
    if cs != [] {
      AddToDv(rows, cs[0]);
      AddAllDv(AddTo(rows, cs[0]), cs[1..]);
    }
  }

  lemma {:induction false} AddAllKeys(rows: seq<Row>, cs: seq<Contribution>)
    ensures Distinct(rows) ==> Distinct(AddAll(rows, cs))
    ensures forall k :: HasKey(rows, k) ==> HasKey(AddAll(rows, cs), k)
    ensures forall i :: 0 <= i < |cs| ==> HasKey(AddAll(rows, cs), cs[i].key)
    decreases cs
  {
    if cs != [] {
      AddToKeeps(rows, cs[0]);
      AddAllKeys(AddTo(rows, cs[0]), cs[1..]);
      forall i | 0 <= i < |cs| ensures HasKey(AddAll(rows, cs), cs[i].key) {
        if i > 0 { assert cs[i] == cs[1..][i - 1]; }
      }
    }
  }

  ghost predicate NonNegative(rows: seq<Row>)
  {
    forall i :: 0 <= i < |rows| ==> rows[i].v.amount >= 0
  }

  lemma {:induction false} AddToNonNegative(rows: seq<Row>, c: Contribution)
    requires NonNegative(rows) && c.v.amount >= 0
    ensures NonNegative(AddTo(rows, c))
  {
    if rows != [] && rows[0].key != c.key {
      assert NonNegative(rows[1..]);
      AddToNonNegative(rows[1..], c);
    }
  }

  lemma {:induction false} AddAllNonNegative(rows: seq<Row>, cs: seq<Contribution>)
    requires NonNegative(rows) && forall i :: 0 <= i < |cs| ==> cs[i].v.amount >= 0
    ensures NonNegative(AddAll(rows, cs))
    decreases cs
  {
    if cs != [] {
      AddToNonNegative(rows, cs[0]);
      AddAllNonNegative(AddTo(rows, cs[0]), cs[1..]);
    }
  }

  // ---------------------------------------------------------------- the minimum amount

  predicate IsSmall(r: Row, min: int) { Abs(r.v.amount) < min }

  function Kept(rows: seq<Row>, min: int): seq<Row>
  {
    if rows == [] then [] else (if IsSmall(rows[0], min) then [] else [rows[0]]) + Kept(rows[1..], min)
  }

  function Small(rows: seq<Row>, min: int): seq<Row>
  {
    if rows == [] then [] else (if IsSmall(rows[0], min) then [rows[0]] else []) + Small(rows[1..], min)
  }

  function MinorOf(r: Row): Contribution { Contribution(MinorKey(ConceptOf(r.key)), MinorNit, r.v) }

  /** The small rows merged by concept. */
  function Minors(rows: seq<Row>, min: int, minors: seq<Row>): seq<Row>
    decreases rows
  {
    if rows == [] then minors
    else Minors(rows[1..], min, if IsSmall(rows[0], min) then AddTo(minors, MinorOf(rows[0])) else minors)
  }

  function PutAll(rows: seq<Row>, minors: seq<Row>): seq<Row>
    decreases minors
  {
    if minors == [] then rows else PutAll(Put(rows, minors[0]), minors[1..])
  }

  function ApplyThreshold(rows: seq<Row>, min: int): seq<Row>
  {
    if min <= 0 then rows else PutAll(Kept(rows, min), Minors(rows, min, []))
  }

  lemma {:induction false} KeptAndSmall(rows: seq<Row>, min: int, concept: string, m: Measure)
    ensures ConceptSum(Kept(rows, min), concept, m) + ConceptSum(Small(rows, min), concept, m)
         == ConceptSum(rows, concept, m)
  {
    hide IsSmall, ConceptOf, Get;
    if rows != [] {
      KeptAndSmall(rows[1..], min, concept, m);
      if IsSmall(rows[0], min) {
        assert Kept(rows, min) == Kept(rows[1..], min);
        assert Small(rows, min)[1..] == Small(rows[1..], min);
      } else {
        assert Small(rows, min) == Small(rows[1..], min);
        assert Kept(rows, min)[1..] == Kept(rows[1..], min);
      }
    }
  }

  predicate SmallWith(rows: seq<Row>, min: int, concept: string)
  {
    exists i :: 0 <= i < |rows| && IsSmall(rows[i], min) && ConceptOf(rows[i].key) == concept
  }

  lemma SmallWithHead(rows: seq<Row>, min: int, concept: string)
    requires rows != []
    ensures SmallWith(rows, min, concept) <==>
      (IsSmall(rows[0], min) && ConceptOf(rows[0].key) == concept) || SmallWith(rows[1..], min, concept)
  {
    if SmallWith(rows, min, concept) {
      var i :| 0 <= i < |rows| && IsSmall(rows[i], min) && ConceptOf(rows[i].key) == concept;
      assert i > 0 ==> rows[1..][i - 1] == rows[i];
    }
    if SmallWith(rows[1..], min, concept) {
      var i :| 0 <= i < |rows| - 1 && IsSmall(rows[1..][i], min) && ConceptOf(rows[1..][i].key) == concept;
      assert rows[i + 1] == rows[1..][i];
    }
  }

  ghost predicate MinorKeyed(rows: seq<Row>)
  {
    forall i :: 0 <= i < |rows| ==> rows[i].key.Pair? && rows[i].key.nit == MinorNit
  }

  lemma {:induction false} AddToMinorKeyed(minors: seq<Row>, c: Contribution)
    requires MinorKeyed(minors) && c.key.Pair? && c.key.nit == MinorNit
    ensures MinorKeyed(AddTo(minors, c))
  {
    if minors != [] && minors[0].key != c.key {
      assert MinorKeyed(minors[1..]);
      AddToMinorKeyed(minors[1..], c);
    }
  }

  lemma {:induction false} MinorsKeys(rows: seq<Row>, min: int, minors: seq<Row>, concept: string)
    requires Distinct(minors) && MinorKeyed(minors)
    ensures var ms := Minors(rows, min, minors);
      && Distinct(ms) && MinorKeyed(ms)
      && (HasKey(ms, MinorKey(concept)) <==> HasKey(minors, MinorKey(concept)) || SmallWith(rows, min, concept))
    decreases rows
  {
    if rows != [] {
      SmallWithHead(rows, min, concept);
      hide SmallWith, IsSmall, Distinct, MinorKeyed, HasKey, AddTo;
      if IsSmall(rows[0], min) {
        var c := MinorOf(rows[0]);
        AddToKeeps(minors, c);
        AddToMinorKeyed(minors, c);
        MinorsKeys(rows[1..], min, AddTo(minors, c), concept);
      } else {
        MinorsKeys(rows[1..], min, minors, concept);
      }
    }
  }

  /** The merged rows hold, per concept, exactly the total of the small rows. */
  lemma {:induction false} MinorsSum(rows: seq<Row>, min: int, minors: seq<Row>, concept: string, m: Measure)
    ensures ConceptSum(Minors(rows, min, minors), concept, m)
         == ConceptSum(minors, concept, m) + ConceptSum(Small(rows, min), concept, m)
    decreases rows
  {
    hide IsSmall, AddTo, ConceptOf, Get, MinorOf;
    if rows != [] {
      if IsSmall(rows[0], min) {
        var c := MinorOf(rows[0]);
        AddToSum(minors, c, concept, m);
        MinorConcept(rows[0]);
        MinorsSum(rows[1..], min, AddTo(minors, c), concept, m);
        assert Small(rows, min)[1..] == Small(rows[1..], min);
      } else {
        MinorsSum(rows[1..], min, minors, concept, m);
        assert Small(rows, min) == Small(rows[1..], min);
      }
    }
  }

  lemma MinorConcept(r: Row)
    ensures ConceptOf(MinorOf(r).key) == ConceptOf(r.key) && MinorOf(r).v == r.v
  {}

  lemma {:induction false} PutSum(rows: seq<Row>, row: Row, concept: string, m: Measure)
    ensures ConceptSum(Put(rows, row), concept, m)
         == ConceptSum(rows, concept, m)
            + (if ConceptOf(row.key) == concept then Get(row.v, m) - Get(At(rows, row.key), m) else 0)
  {
    if rows == [] {
      assert Get(Zero, m) == 0;
      assert ConceptSum([row][1..], concept, m) == 0;
    } else {
      hide Get, ConceptOf;
      if rows[0].key != row.key {
        PutSum(rows[1..], row, concept, m);
        assert Put(rows, row)[1..] == Put(rows[1..], row);
      } else {
        assert Put(rows, row)[1..] == rows[1..];
      }
    }
  }

  lemma {:induction false} PutAt(rows: seq<Row>, row: Row, key: Key)
    ensures At(Put(rows, row), key) == (if key == row.key then row.v else At(rows, key))
  {
    if rows != [] && rows[0].key != row.key {
      PutAt(rows[1..], row, key);
      assert Put(rows, row)[1..] == Put(rows[1..], row);
    } else if rows != [] {
      assert Put(rows, row)[1..] == rows[1..];
    }
  }

  lemma {:induction false} PutAllSum(rows: seq<Row>, minors: seq<Row>, concept: string, m: Measure)
    requires Distinct(minors) && MinorKeyed(minors)
    ensures ConceptSum(PutAll(rows, minors), concept, m)
         == ConceptSum(rows, concept, m) + ConceptSum(minors, concept, m)
            - (if HasKey(minors, MinorKey(concept)) then Get(At(rows, MinorKey(concept)), m) else 0)
    decreases minors
  {
    if minors != [] {
      var r := minors[0];
      var key := MinorKey(concept);
      PutSum(rows, r, concept, m);
      PutAt(rows, r, key);
      assert MinorKeyed(minors[1..]);
      assert ConceptOf(r.key) == concept <==> r.key == key;
      hide At, Put, ConceptOf, MinorKey, MinorKeyed, Get;
      PutAllSum(Put(rows, r), minors[1..], concept, m);
    }
  }

  /** Threshold aggregation keeps the per-concept totals of every measure, except that a
      retained row under the reserved tax number is overwritten, and lost, when some small row
      has its concept. */
  lemma ThresholdConserves(rows: seq<Row>, min: int, concept: string, m: Measure)
    requires min > 0
    ensures ConceptSum(ApplyThreshold(rows, min), concept, m)
         == ConceptSum(rows, concept, m)
            - (if SmallWith(rows, min, concept) then Get(At(Kept(rows, min), MinorKey(concept)), m) else 0)
  {
    KeptAndSmall(rows, min, concept, m);
    MinorsSum(rows, min, [], concept, m);
    MinorsKeys(rows, min, [], concept);
    PutAllSum(Kept(rows, min), Minors(rows, min, []), concept, m);
    NoRows(concept, m);
    hide ConceptSum, SmallWith, Minors, PutAll, At, Get, Kept, HasKey;
  }

  /** What aggregation loses of a concept: the retained row under the reserved number, if some
      small row overwrites it. */
  function Lost(rows: seq<Row>, min: int, concept: string, m: Measure): int
  {
    if min > 0 && SmallWith(rows, min, concept) then Get(At(Kept(rows, min), MinorKey(concept)), m) else 0
  }

  lemma ThresholdLoses(rows: seq<Row>, min: int, concept: string, m: Measure)
    ensures ConceptSum(ApplyThreshold(rows, min), concept, m)
         == ConceptSum(rows, concept, m) - Lost(rows, min, concept, m)
  {
    hide ConceptSum, SmallWith, At, Kept;
    if min > 0 { ThresholdConserves(rows, min, concept, m); }
  }

  lemma NoRows(concept: string, m: Measure)
    ensures ConceptSum([], concept, m) == 0
  {}

  lemma {:induction false} NoKeyNoValue(rows: seq<Row>, key: Key, m: Measure)
    requires !HasKey(rows, key)
    ensures Get(At(rows, key), m) == 0
  {
    if rows != [] { NoKeyNoValue(rows[1..], key, m); }
  }

  /** In particular nothing is lost when no retained row uses the reserved tax number. */
  lemma ThresholdConservesWhenFree(rows: seq<Row>, min: int, concept: string, m: Measure)
    requires !HasKey(Kept(rows, min), MinorKey(concept))
    ensures ConceptSum(ApplyThreshold(rows, min), concept, m) == ConceptSum(rows, concept, m)
  {
    if min > 0 {
      ThresholdConserves(rows, min, concept, m);
      NoKeyNoValue(Kept(rows, min), MinorKey(concept), m);
    }
  }

  ghost predicate AllPlain(rows: seq<Row>)
  {
    forall i :: 0 <= i < |rows| ==> rows[i].key.Plain?
  }

  lemma {:induction false} PlainIsFree(rows: seq<Row>, min: int, concept: string)
    requires AllPlain(rows)
    ensures !HasKey(Kept(rows, min), MinorKey(concept))
  {
    if rows != [] {
      assert AllPlain(rows[1..]);
      PlainIsFree(rows[1..], min, concept);
      if IsSmall(rows[0], min) {
        assert Kept(rows, min) == Kept(rows[1..], min);
      } else {
        assert Kept(rows, min)[1..] == Kept(rows[1..], min);
      }
    }
  }

  /** The formats keyed by tax number alone never lose anything, even for a partner that has the
      reserved number. */
  lemma PlainConserves(rows: seq<Row>, min: int, concept: string, m: Measure)
    requires AllPlain(rows)
    ensures ConceptSum(ApplyThreshold(rows, min), concept, m) == ConceptSum(rows, concept, m)
  {
    PlainIsFree(rows, min, concept);
    hide ConceptSum, ApplyThreshold, Kept, HasKey;
    ThresholdConservesWhenFree(rows, min, concept, m);
  }

  /** A large and a small row of one concept, the large one under the reserved number. */
  lemma ThresholdCanLose()
    ensures var big := Row(Pair("222222222", "5001"), "222222222", "0", Vec(900, 0, 0, 0));
      var small := Row(Pair("1", "5001"), "1", "0", Vec(10, 0, 0, 0));
      && ConceptSum([big, small], "5001", Amount) == 910
      && ConceptSum(ApplyThreshold([big, small], 100), "5001", Amount) == 10
  {
    var big := Row(Pair("222222222", "5001"), "222222222", "0", Vec(900, 0, 0, 0));
    var small := Row(Pair("1", "5001"), "1", "0", Vec(10, 0, 0, 0));
    var rows := [big, small];
    assert rows[1..] == [small] && [small][1..] == [];
    assert ConceptSum([small], "5001", Amount) == 10 by { NoRows("5001", Amount); }
    assert Kept([small], 100) == [] && Kept(rows, 100) == [big] + Kept([small], 100);
    assert At([big], MinorKey("5001")) == big.v;
    assert IsSmall(rows[1], 100) && ConceptOf(rows[1].key) == "5001";
    ThresholdConserves(rows, 100, "5001", Amount);
  }

  lemma {:induction false} PutEach(rows: seq<Row>, row: Row)
    ensures DvOk(rows) && RowOk(row) ==> DvOk(Put(rows, row))
    ensures NonNegative(rows) && row.v.amount >= 0 ==> NonNegative(Put(rows, row))
  {
    if rows != [] && rows[0].key != row.key {
      PutEach(rows[1..], row);
      if DvOk(rows) { assert DvOk(rows[1..]); }
      if NonNegative(rows) { assert NonNegative(rows[1..]); }
    }
  }

  lemma {:induction false} PutAllEach(rows: seq<Row>, minors: seq<Row>)
    ensures DvOk(rows) && DvOk(minors) ==> DvOk(PutAll(rows, minors))
    ensures NonNegative(rows) && NonNegative(minors) ==> NonNegative(PutAll(rows, minors))
    decreases minors
  {
    if minors != [] {
      PutEach(rows, minors[0]);
      PutAllEach(Put(rows, minors[0]), minors[1..]);
    }
  }

  lemma {:induction false} KeptFrom(rows: seq<Row>, min: int)
    ensures forall r :: r in Kept(rows, min) ==> r in rows
  {
    if rows != [] { KeptFrom(rows[1..], min); }
  }

  /** A row is retained exactly when its amount reaches the minimum, on either side of zero. */
  lemma {:induction false} RetainedExactly(rows: seq<Row>, min: int)
    ensures forall r :: r in Kept(rows, min) <==> r in rows && (r.v.amount >= min || r.v.amount <= -min)
  {
    if rows != [] { RetainedExactly(rows[1..], min); }
  }

  lemma KeptEach(rows: seq<Row>, min: int)
    ensures DvOk(rows) ==> DvOk(Kept(rows, min))
    ensures NonNegative(rows) ==> NonNegative(Kept(rows, min))
  {
    KeptFrom(rows, min);
    hide Kept, CheckDigit;
    var kept := Kept(rows, min);
    forall i | 0 <= i < |kept| ensures kept[i] in rows { assert kept[i] in kept; }
  }

  lemma {:induction false} MinorsEach(rows: seq<Row>, min: int, minors: seq<Row>)
    ensures DvOk(minors) ==> DvOk(Minors(rows, min, minors))
    ensures NonNegative(rows) && NonNegative(minors) ==> NonNegative(Minors(rows, min, minors))
    decreases rows
  {
    if rows != [] {
      if NonNegative(rows) { assert NonNegative(rows[1..]); }
      if IsSmall(rows[0], min) {
        if DvOk(minors) { AddToDv(minors, MinorOf(rows[0])); }
        if NonNegative(rows) && NonNegative(minors) { AddToNonNegative(minors, MinorOf(rows[0])); }
        MinorsEach(rows[1..], min, AddTo(minors, MinorOf(rows[0])));
      } else {
        MinorsEach(rows[1..], min, minors);
      }
    }
  }

  lemma ThresholdEach(rows: seq<Row>, min: int)
    ensures DvOk(rows) ==> DvOk(ApplyThreshold(rows, min))
    ensures NonNegative(rows) ==> NonNegative(ApplyThreshold(rows, min))
  {
    KeptEach(rows, min);
    MinorsEach(rows, min, []);
    PutAllEach(Kept(rows, min), Minors(rows, min, []));
  }

  lemma SplitStep(grouped: seq<Row>, min: int, minors: seq<Row>, i: nat)
    requires i < |grouped|
    ensures Kept(grouped[i..], min)
         == (if IsSmall(grouped[i], min) then [] else [grouped[i]]) + Kept(grouped[i + 1..], min)
    ensures Minors(grouped[i..], min, minors)
         == Minors(grouped[i + 1..], min,
                   if IsSmall(grouped[i], min) then AddTo(minors, MinorOf(grouped[i])) else minors)
  {
    hide AddTo, IsSmall, MinorOf;
    assert grouped[i..][0] == grouped[i] && grouped[i..][1..] == grouped[i + 1..];
  }

  lemma NothingLeft(grouped: seq<Row>, min: int, minors: seq<Row>)
    ensures Kept(grouped[|grouped|..], min) == [] && Minors(grouped[|grouped|..], min, minors) == minors
  {}

  method SplitSmall(grouped: seq<Row>, min: int) returns (kept: seq<Row>, minors: seq<Row>)
    ensures kept == Kept(grouped, min) && minors == Minors(grouped, min, [])
  {
    hide AddTo, IsSmall, MinorOf, Kept, Minors;
    kept, minors := [], [];
    assert grouped[0..] == grouped;
    for i := 0 to |grouped|
      invariant kept + Kept(grouped[i..], min) == Kept(grouped, min)
      invariant Minors(grouped[i..], min, minors) == Minors(grouped, min, [])
    {
      SplitStep(grouped, min, minors, i);
      if IsSmall(grouped[i], min) {
        minors := AddTo(minors, MinorOf(grouped[i]));
      } else {
        ghost var rest := Kept(grouped[i + 1..], min);
        assert kept + ([grouped[i]] + rest) == kept + [grouped[i]] + rest;
        kept := kept + [grouped[i]];
      }
    }
    NothingLeft(grouped, min, minors);
  }

  method ApplyMinThreshold(grouped: seq<Row>, min: int) returns (result: seq<Row>)
    ensures result == ApplyThreshold(grouped, min)
  {
    if min <= 0 { return grouped; }
    hide Put, Kept, Minors;
    var minors;
    result, minors := SplitSmall(grouped, min);
    ghost var kept := result;
    for j := 0 to |minors|
      invariant PutAll(result, minors[j..]) == PutAll(kept, minors)
    {
      assert minors[j..][1..] == minors[j + 1..];
      result := Put(result, minors[j]);
    }
  }

  // ---------------------------------------------------------------- journal lines

  datatype MoveType = InInvoice | InRefund | OutInvoice | OutRefund | OtherMove

  datatype AccountType = Income | Receivable | Payable | Equity | OtherAccount

  /** `partner` is the partner's VAT text; `tax` the name of the tax the line books, if any. */
  datatype JournalLine = JournalLine(
    partner: Option<string>, move: MoveType, account: AccountType, code: string,
    debit: int, credit: int, tax: Option<string>, taxBase: int)
  {
    function Balance(): int { debit - credit }
    predicate Purchase() { move == InInvoice || move == InRefund }
    predicate Sale() { move == OutInvoice || move == OutRefund }
  }

  function NitKey(vat: string): string { var n := Clean(vat); if n == "" then "NO_NIT" else n }

  predicate IsVat(name: string) { Contains(name, "iva") && !Contains(name, "rete") }

  function Amount1001(l: JournalLine): int
  {
    if l.debit > 0 then l.debit else if l.credit > 0 && l.move == InRefund then -l.credit else 0
  }

  function Concept1001(code: string): string
  {
    if "51" <= code then "5002" else if "52" <= code then "5003" else if "53" <= code then "5004" else "5001"
  }

  function Line1001(l: JournalLine): Option<Contribution>
  {
    if !l.Purchase() || l.partner.None? then None
    else Some(Contribution(Pair(NitKey(l.partner.value), Concept1001(l.code)), Clean(l.partner.value),
                           Vec(Amount1001(l), 0, 0, 0)))
  }

  predicate IsRetention(name: string) { ContainsAny(name, ["retefu", "retencion", "rete iva", "rete ica"]) }

  /** What a tax line of a purchase adds to its partner's group. */
  function Tax1001(l: JournalLine): Vec
  {
    if l.tax.None? then Zero
    else
      var name := Lower(l.tax.value);
      if IsRetention(name) then Vec(0, Abs(l.taxBase), Abs(l.Balance()), 0)
      else if IsVat(name) then Vec(0, 0, 0, Abs(l.Balance()))
      else Zero
  }

  predicate IsTaxLine(l: JournalLine) { l.Purchase() && l.tax.Some? && l.partner.Some? }

  /** Adds to the first row of the tax number, if there is one. */
  function Attribute(rows: seq<Row>, nit: string, v: Vec): seq<Row>
  {
    if rows == [] then []
    else if rows[0].key.nit == nit then [rows[0].(v := Plus(rows[0].v, v))] + rows[1..]
    else [rows[0]] + Attribute(rows[1..], nit, v)
  }

  function AttributeAll(rows: seq<Row>, lines: seq<JournalLine>): seq<Row>
    decreases lines
  {
    if lines == [] then rows
    else
      var l := lines[0];
      AttributeAll(if IsTaxLine(l) then Attribute(rows, Clean(l.partner.value), Tax1001(l)) else rows, lines[1..])
  }

  function Collect(lines: seq<JournalLine>, f: JournalLine -> Option<Contribution>): seq<Contribution>
  {
    if lines == [] then []
    else (match f(lines[0]) case Some(c) => [c] case None => []) + Collect(lines[1..], f)
  }

  function Groups1001(lines: seq<JournalLine>): seq<Row>
  {
    AttributeAll(AddAll([], Collect(lines, Line1001)), lines)
  }

  method GroupLines(lines: seq<JournalLine>, f: JournalLine -> Option<Contribution>) returns (rows: seq<Row>)
    ensures rows == AddAll([], Collect(lines, f))
  {
    rows := [];
    for i := 0 to |lines|
      invariant AddAll(rows, Collect(lines[i..], f)) == AddAll([], Collect(lines, f))
    {
      assert lines[i..][0] == lines[i] && lines[i..][1..] == lines[i + 1..];
      var c := f(lines[i]);
      if c.Some? {
        assert Collect(lines[i..], f)[1..] == Collect(lines[i + 1..], f);
        rows := AddTo(rows, c.value);
      } else {
        assert Collect(lines[i..], f) == Collect(lines[i + 1..], f);
      }
    }
  }

  method AttributeTaxes(grouped: seq<Row>, lines: seq<JournalLine>) returns (rows: seq<Row>)
    ensures rows == AttributeAll(grouped, lines)
  {
    rows := grouped;
    for i := 0 to |lines|
      invariant AttributeAll(rows, lines[i..]) == AttributeAll(grouped, lines)
    {
      assert lines[i..][0] == lines[i] && lines[i..][1..] == lines[i + 1..];
      if IsTaxLine(lines[i]) {
        rows := Attribute(rows, Clean(lines[i].partner.value), Tax1001(lines[i]));
      }
    }
  }

  // ---------------------------------------------------------------- the taxes in format 1001

  predicate VatName(n: string) { Contains(n, "iva") && !Contains(n, "rete") }

  predicate WithholdingName(n: string)
  {
    Contains(n, "retefu") || Contains(n, "retencion") || Contains(n, "rete iva") || Contains(n, "rete ica")
  }

  /** What the books say of a tax line of a purchase: a retention with its base, or VAT. */
  function TaxReading(l: JournalLine): Vec
  {
    if !(l.move == InInvoice || l.move == InRefund) || l.tax.None? then Vec(0, 0, 0, 0)
    else
      var n := Lower(l.tax.value);
      if WithholdingName(n) then Vec(0, Abs(l.taxBase), Abs(l.debit - l.credit), 0)
      else if VatName(n) then Vec(0, 0, 0, Abs(l.debit - l.credit))
      else Vec(0, 0, 0, 0)
  }

  lemma TaxIsReading(l: JournalLine)
    ensures IsTaxLine(l) ==> Tax1001(l) == TaxReading(l)
    ensures !IsTaxLine(l) && l.partner.Some? ==> TaxReading(l) == Vec(0, 0, 0, 0)
  {
    hide Contains, ContainsAny, Lower;
    if l.tax.Some? {
      var n := Lower(l.tax.value);
      var parts := ["retefu", "retencion", "rete iva", "rete ica"];
      ContainsAnyExactly(n, parts);
      assert parts[0] == "retefu" && parts[1] == "retencion" && parts[2] == "rete iva" && parts[3] == "rete ica";
    }
  }

  /** Whether a row or a line is of the given tax number, or any. */
  predicate Of(nit: Option<string>, n: string) { nit.None? || nit.value == n }

  /** The total of a measure over the rows of a tax number, or over all. */
  function TaxTotal(rows: seq<Row>, nit: Option<string>, m: Measure): int
  {
    if rows == [] then 0
    else (if Of(nit, rows[0].key.nit) then Get(rows[0].v, m) else 0) + TaxTotal(rows[1..], nit, m)
  }

  /** The same in the books, over the purchase lines of partners with digits in their tax number. */
  function TaxesBooked(lines: seq<JournalLine>, nit: Option<string>, m: Measure): int
  {
    if lines == [] then 0
    else
      var l := lines[0];
      (if l.partner.Some? && Clean(l.partner.value) != "" && Of(nit, Clean(l.partner.value))
       then Get(TaxReading(l), m) else 0)
      + TaxesBooked(lines[1..], nit, m)
  }

  predicate HasNit(rows: seq<Row>, nit: string)
  {
    rows != [] && (rows[0].key.nit == nit || HasNit(rows[1..], nit))
  }

  lemma {:induction false} AttributeKeeps(rows: seq<Row>, n: string, v: Vec, nit: Option<string>, m: Measure)
    ensures forall k :: HasNit(Attribute(rows, n, v), k) <==> HasNit(rows, k)
    ensures TaxTotal(Attribute(rows, n, v), nit, m)
         == TaxTotal(rows, nit, m) + (if HasNit(rows, n) && Of(nit, n) then Get(v, m) else 0)
  {
    if rows != [] {
      GetPlus(rows[0].v, v, m);
      hide Get, Plus, Of;
      if rows[0].key.nit != n {
        AttributeKeeps(rows[1..], n, v, nit, m);
        assert Attribute(rows, n, v)[1..] == Attribute(rows[1..], n, v);
      } else {
        assert Attribute(rows, n, v)[1..] == rows[1..];
      }
    }
  }

  ghost predicate NitsKnown(rows: seq<Row>, lines: seq<JournalLine>)
  {
    && !HasNit(rows, "")
    && forall i :: 0 <= i < |lines| && IsTaxLine(lines[i]) && Clean(lines[i].partner.value) != "" ==>
         HasNit(rows, Clean(lines[i].partner.value))
  }

  lemma {:induction false} AttributeAllTaxes(rows: seq<Row>, lines: seq<JournalLine>, nit: Option<string>, m: Measure)
    requires NitsKnown(rows, lines)
    ensures TaxTotal(AttributeAll(rows, lines), nit, m) == TaxTotal(rows, nit, m) + TaxesBooked(lines, nit, m)
    decreases lines
  {
    if lines != [] {
      hide Tax1001, TaxReading, Attribute, HasNit, Clean, Of;
      var l := lines[0];
      TaxIsReading(l);
      NothingGot(m);
      var next := if IsTaxLine(l) then Attribute(rows, Clean(l.partner.value), Tax1001(l)) else rows;
      if IsTaxLine(l) { AttributeKeeps(rows, Clean(l.partner.value), Tax1001(l), nit, m); }
      hide Get;
      assert NitsKnown(next, lines[1..]) by {
        forall i | 0 <= i < |lines| - 1 && IsTaxLine(lines[1..][i]) && Clean(lines[1..][i].partner.value) != ""
          ensures HasNit(next, Clean(lines[1..][i].partner.value))
        {
          assert lines[1..][i] == lines[i + 1];
        }
      }
      AttributeAllTaxes(next, lines[1..], nit, m);
    }
  }

  lemma NothingGot(m: Measure)
    ensures Get(Vec(0, 0, 0, 0), m) == 0
  {}

  lemma {:induction false} KeyGivesNit(rows: seq<Row>, key: Key)
    requires HasKey(rows, key)
    ensures HasNit(rows, key.nit)
  {
    if rows[0].key != key { KeyGivesNit(rows[1..], key); }
  }

  lemma {:induction false} AddAllNits(rows: seq<Row>, cs: seq<Contribution>, nit: Option<string>, m: Measure)
    requires !HasNit(rows, "") && forall i :: 0 <= i < |cs| ==> cs[i].key.nit != "" && Get(cs[i].v, m) == 0
    ensures !HasNit(AddAll(rows, cs), "") && TaxTotal(AddAll(rows, cs), nit, m) == TaxTotal(rows, nit, m)
    decreases cs
  {
    if cs != [] {
      hide Get;
      AddToNits(rows, cs[0], nit, m);
      AddAllNits(AddTo(rows, cs[0]), cs[1..], nit, m);
    }
  }

  lemma {:induction false} AddToNits(rows: seq<Row>, c: Contribution, nit: Option<string>, m: Measure)
    requires !HasNit(rows, "") && c.key.nit != "" && Get(c.v, m) == 0
    ensures !HasNit(AddTo(rows, c), "") && TaxTotal(AddTo(rows, c), nit, m) == TaxTotal(rows, nit, m)
  {
    if rows != [] {
      GetPlus(rows[0].v, c.v, m);
      hide Get, Plus, Of, CheckDigit;
      if rows[0].key != c.key {
        AddToNits(rows[1..], c, nit, m);
        assert AddTo(rows, c)[1..] == AddTo(rows[1..], c);
      } else {
        assert AddTo(rows, c)[1..] == rows[1..];
      }
    }
  }

  lemma {:induction false} CollectIncludes(lines: seq<JournalLine>, f: JournalLine -> Option<Contribution>, i: nat)
    requires i < |lines| && f(lines[i]).Some?
    ensures f(lines[i]).value in Collect(lines, f)
  {
    if i > 0 {
      assert lines[1..][i - 1] == lines[i];
      CollectIncludes(lines[1..], f, i - 1);
    }
  }

  /** Every collected contribution comes from some line. */
  lemma {:induction false} CollectFrom(lines: seq<JournalLine>, f: JournalLine -> Option<Contribution>, k: nat)
    requires k < |Collect(lines, f)|
    ensures exists i :: 0 <= i < |lines| && f(lines[i]) == Some(Collect(lines, f)[k])
  {
    var head: seq<Contribution> := match f(lines[0]) case Some(c) => [c] case None => [];
    if k < |head| {
      assert f(lines[0]) == Some(Collect(lines, f)[k]);
    } else {
      CollectFrom(lines[1..], f, k - |head|);
      var i :| 0 <= i < |lines| - 1 && f(lines[1..][i]) == Some(Collect(lines[1..], f)[k - |head|]);
      assert f(lines[i + 1]) == Some(Collect(lines, f)[k]);
    }
  }

  lemma PaymentsHoldNoTax(l: JournalLine, m: Measure)
    requires Line1001(l).Some? && m != Amount
    ensures Line1001(l).value.key.nit == NitKey(l.partner.value) && Get(Line1001(l).value.v, m) == 0
  {
    hide NitKey, Clean, Concept1001, Amount1001;
  }

  /** Before aggregation, format 1001 reports for every tax number, and so in all, exactly the
      retentions, their bases and the VAT of the purchase lines of partners with that number; a
      partner without digits is reported none. */
  lemma Taxes1001(lines: seq<JournalLine>, nit: Option<string>, m: Measure)
    requires m != Amount
    ensures TaxTotal(Groups1001(lines), nit, m) == TaxesBooked(lines, nit, m)
  {
    hide Line1001, Clean, Get, NitKey;
    var cs := Collect(lines, Line1001);
    var rows := AddAll([], cs);
    forall k | 0 <= k < |cs| ensures cs[k].key.nit != "" && Get(cs[k].v, m) == 0 {
      CollectFrom(lines, Line1001, k);
      var i :| 0 <= i < |lines| && Line1001(lines[i]) == Some(cs[k]);
      PaymentsHoldNoTax(lines[i], m);
      LineHasPartner(lines[i]);
      NitKeyExactly(lines[i].partner.value);
    }
    AddAllNits([], cs, nit, m);
    AddAllKeys([], cs);
    forall i | 0 <= i < |lines| && IsTaxLine(lines[i]) && Clean(lines[i].partner.value) != ""
      ensures HasNit(rows, Clean(lines[i].partner.value))
    {
      LineHasPartner(lines[i]);
      CollectIncludes(lines, Line1001, i);
      var c := Line1001(lines[i]).value;
      var k :| 0 <= k < |cs| && cs[k] == c;
      KeyGivesNit(rows, cs[k].key);
      PaymentsHoldNoTax(lines[i], m);
      NitKeyExactly(lines[i].partner.value);
    }
    AttributeAllTaxes(rows, lines, nit, m);
  }

  lemma LineHasPartner(l: JournalLine)
    ensures Line1001(l).Some? <==> l.Purchase() && l.partner.Some?
  {}

  /** In particular the retention of the whole format is that of the retention lines whose partner
      has digits in its tax number. */
  lemma Retention1001(lines: seq<JournalLine>)
    ensures TaxTotal(Groups1001(lines), None, Retention) == TaxesBooked(lines, None, Retention)
  {
    hide Groups1001, TaxTotal, TaxesBooked;
    Taxes1001(lines, None, Retention);
  }

  lemma NitKeyExactly(vat: string)
    ensures NitKey(vat) == (if Clean(vat) == "" then "NO_NIT" else Clean(vat))
    ensures NitKey(vat) != ""
    ensures NitOf(Plain(NitKey(vat))) == Clean(vat)
  {
    if Clean(vat) != "" { assert IsDigit(Clean(vat)[0]); }
  }
}
