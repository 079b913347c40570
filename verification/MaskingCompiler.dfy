/**
 The masking compiler: a column is classified by physical type, name and Odoo type; the class
 selects a SQL expression; the expression is clamped to the column. Expressions are a small
 abstract syntax with static types and an evaluator; `random()` and `md5` are supplied by an
 environment.
 */
module MaskingCompiler {
  import opened Prelude
  import opened TextSearch

  // ---------------------------------------------------------------- columns

  /** Physical types by their normalised names; `Exotic` is any name without a strategy,
      `Missing` the empty name. */
  datatype DataType =
    | CharacterVarying | Character | TextType | Citext
    | Numeric | DoublePrecision | Real
    | SmallInt | Integer | BigInt
    | Boolean | Date | Timestamp | TimestampTz | Time
    | Bytea | Json | Jsonb
    | Exotic(name: string) | Missing

  /** Odoo field types that the classifier tells apart. */
  datatype FieldType =
    | Many2one | One2many | Many2many | Reference | Selection
    | CharField | TextField | HtmlField | Monetary | OtherField(name: string) | NoField

  datatype Semantic =
    | Email | Phone | Nit | Cedula | Iban | PaymentCard
    | Money | FreeText | ShortString
    | DateClass | BooleanClass | SelectionClass | ForeignKey
    | Binary | JsonClass | JsonbClass | Unsupported
    | Other(name: string)

  const NameHints: seq<(seq<string>, Semantic)> := [
    (["email", "email_normalized", "email_from"], Email),
    (["phone", "mobile", "fax", "phone_sanitized"], Phone),
    (["vat", "nit", "tax_id"], Nit),
    (["cedula", "identification_id", "document_number", "id_number"], Cedula),
    (["iban", "acc_number", "bank_account"], Iban),
    (["card_number", "credit_card", "cc_number"], PaymentCard)]

  const MonetaryHints := [
    "amount", "price", "total", "balance", "debit", "credit",
    "cost", "subtotal", "tax", "salary", "wage", "payment"]

  predicate Textual(dt: DataType) { dt in {CharacterVarying, Character, TextType, Citext} }

  predicate Numerical(dt: DataType) { dt in {Numeric, DoublePrecision, Real} }

  function FirstHint(col: string, hints: seq<(seq<string>, Semantic)>): Option<Semantic>
  {
    if hints == [] then None
    else if ContainsAny(col, hints[0].0) then Some(hints[0].1)
    else FirstHint(col, hints[1..])
  }

  /** The physical type decides first; name hints and the Odoo type only refine text columns
      (and, for numbers, whether the column is money). */
  function Classify(column: string, field: FieldType, dt: DataType, maxLen: Option<nat>): Semantic
  {
    var col := Lower(column);
    match dt
    case Bytea => Binary
    case Jsonb => JsonbClass
    case Json => JsonClass
    case Boolean => BooleanClass
    case Date => DateClass
    case Timestamp => DateClass
    case TimestampTz => DateClass
    case Time => DateClass
    case Integer => ForeignKey
    case BigInt => ForeignKey
    case SmallInt => ForeignKey
    case Numeric => ClassifyNumber(col, field)
    case DoublePrecision => ClassifyNumber(col, field)
    case Real => ClassifyNumber(col, field)
    case Exotic(_) => Unsupported
    case _ => ClassifyText(col, field, dt, maxLen)
  }

  function ClassifyNumber(col: string, field: FieldType): Semantic
  {
    if ContainsAny(col, MonetaryHints) || field == Monetary then Money else ForeignKey
  }

  function ClassifyText(col: string, field: FieldType, dt: DataType, maxLen: Option<nat>): Semantic
  {
    var hint := FirstHint(col, NameHints);
    if hint.Some? then hint.value
    else
      match field
      case NoField =>
        if dt == TextType then FreeText
        else if maxLen.Some? && maxLen.value >= 50 then FreeText
        else ShortString
      case Many2one => ForeignKey
      case One2many => ForeignKey
      case Many2many => ForeignKey
      case Reference => ForeignKey
      case Selection => SelectionClass
      case CharField => ShortString
      case _ => FreeText
  }

  // ---------------------------------------------------------------- expressions

  datatype Expr =
    | Column
    | StrLit(s: string)
    | EmptyBytes
    | EmptyObject(binary: bool)
    | IntLit(int)
    | NumLit(x: real)
    | Random(draw: nat)
    | AsText(e: Expr)
    | Md5(e: Expr)
    | Substr(e: Expr, start: nat, count: nat)
    | Length(e: Expr)
    | FloorInt(e: Expr)
    | Add(a: Expr, b: Expr)
    | Mul(a: Expr, b: Expr)
    | Concat(a: Expr, b: Expr)
    | Left(e: Expr, length: nat)
    | UnlessNull(e: Expr)

  function NineDigits(draw: nat): Expr
  {
    AsText(Add(IntLit(100000000), FloorInt(Mul(Random(draw), IntLit(900000000)))))
  }

  function HashOfColumn(count: nat): Expr { Substr(Md5(AsText(Column)), 1, count) }

  /** `range` is the configured monetary noise. The error is an unknown semantic type. */
  function StrategySql(semantic: Semantic, range: real): Result<Option<Expr>, string>
  {
    match semantic
    case DateClass => Ok(None)
    case BooleanClass => Ok(None)
    case SelectionClass => Ok(None)
    case ForeignKey => Ok(None)
    case Unsupported => Ok(None)
    case Binary => Ok(Some(UnlessNull(EmptyBytes)))
    case JsonClass => Ok(Some(UnlessNull(EmptyObject(false))))
    case JsonbClass => Ok(Some(UnlessNull(EmptyObject(true))))
    case Email => Ok(Some(UnlessNull(Concat(Concat(StrLit("user"), HashOfColumn(8)), StrLit("@masked.invalid")))))
    case Phone => Ok(Some(UnlessNull(StrLit("+57XXXXXXXXXX"))))
    case Cedula => Ok(Some(UnlessNull(NineDigits(0))))
    case Nit =>
      Ok(Some(UnlessNull(Concat(Concat(NineDigits(0), StrLit("-")), AsText(FloorInt(Mul(Random(1), IntLit(10))))))))
    case PaymentCard => Ok(Some(UnlessNull(StrLit("[REDACTED]"))))
    case Iban => Ok(Some(UnlessNull(StrLit("[REDACTED]"))))
    case Money => Ok(Some(Mul(Column, Add(NumLit(1.0 - range), Mul(Random(0), NumLit(2.0 * range))))))
    case FreeText =>
      Ok(Some(UnlessNull(Concat(Concat(StrLit("[REDACTED text length="), Length(AsText(Column))), StrLit("]")))))
    case ShortString => Ok(Some(UnlessNull(Concat(StrLit("MASKED:"), HashOfColumn(12)))))
    case Other(name) => Err("unknown semantic type: " + name)
  }

  predicate Bounded(dt: DataType) { dt == CharacterVarying || dt == Character }

  function Clamp(e: Expr, dt: DataType, maxLen: Option<nat>): Expr
  {
    if maxLen.Some? && Bounded(dt) then Left(e, maxLen.value) else e
  }

  // ---------------------------------------------------------------- static types

  datatype Type = TText | TInt | TNumeric | TDouble | TReal | TBytea | TJson | TJsonb | TOther(dt: DataType)

  function ColumnType(dt: DataType): Type
  {
    match dt
    case CharacterVarying => TText
    case Character => TText
    case TextType => TText
    case Citext => TText
    case Numeric => TNumeric
    case DoublePrecision => TDouble
    case Real => TReal
    case SmallInt => TInt
    case Integer => TInt
    case BigInt => TInt
    case Bytea => TBytea
    case Json => TJson
    case Jsonb => TJsonb
    case _ => TOther(dt)
  }

  predicate IsNumber(t: Type) { t.TInt? || t.TNumeric? || t.TDouble? || t.TReal? }

  /** Arithmetic is floating point as soon as one operand is. */
  function ArithType(s: Option<Type>, t: Option<Type>): Option<Type>
  {
    if s.None? || t.None? || !IsNumber(s.value) || !IsNumber(t.value) then None
    else if s.value.TDouble? || t.value.TDouble? then Some(TDouble)
    else if s.value.TReal? || t.value.TReal? then Some(if s == t then TReal else TDouble)
    else if s.value.TNumeric? || t.value.TNumeric? then Some(TNumeric)
    else Some(TInt)
  }

  function Needs(found: Option<Type>, wanted: Type, result: Type): Option<Type>
  {
    if found == Some(wanted) then Some(result) else None
  }

  function TypeOf(e: Expr, col: Type): Option<Type>
  {
    match e
    case Column => Some(col)
    case StrLit(_) => Some(TText)
    case EmptyBytes => Some(TBytea)
    case EmptyObject(binary) => Some(if binary then TJsonb else TJson)
    case IntLit(_) => Some(TInt)
    case NumLit(_) => Some(TNumeric)
    case Random(_) => Some(TDouble)
    case AsText(a) => if TypeOf(a, col).Some? then Some(TText) else None
    case Md5(a) => Needs(TypeOf(a, col), TText, TText)
    case Substr(a, _, _) => Needs(TypeOf(a, col), TText, TText)
    case Length(a) => Needs(TypeOf(a, col), TText, TInt)
    case FloorInt(a) => Needs(TypeOf(a, col), TDouble, TInt)
    case Add(a, b) => ArithType(TypeOf(a, col), TypeOf(b, col))
    case Mul(a, b) => ArithType(TypeOf(a, col), TypeOf(b, col))
    case Concat(a, b) => if TypeOf(b, col).Some? then Needs(TypeOf(a, col), TText, TText) else None
    case Left(a, _) => Needs(TypeOf(a, col), TText, TText)
    case UnlessNull(a) => TypeOf(a, col)
  }

  /** The assignment casts of Postgres between the types above. */
  predicate Assignable(t: Type, dt: DataType)
  {
    match t
    case TText => Textual(dt)
    case TNumeric => Numerical(dt)
    case TDouble => Numerical(dt)
    case TReal => Numerical(dt)
    case TInt => Numerical(dt) || dt in {SmallInt, Integer, BigInt}
    case TBytea => dt == Bytea
    case TJson => dt == Json
    case TJsonb => dt == Jsonb
    case TOther(same) => same == dt
  }

  // ---------------------------------------------------------------- evaluation

  datatype Value =
    | Null | Text(s: string) | Whole(n: int) | Number(x: real)
    | Bytes(bytes: seq<int>) | Document(doc: string) | Opaque(tag: string)

  datatype Env = Env(random: nat -> real, md5: string -> string, render: Value -> string)

  predicate HasType(v: Value, t: Type)
  {
    v.Null? ||
    match t
    case TText => v.Text?
    case TInt => v.Whole?
    case TNumeric => v.Number?
    case TDouble => v.Number?
    case TReal => v.Number?
    case TBytea => v.Bytes?
    case TJson => v.Document?
    case TJsonb => v.Document?
    case TOther(_) => v.Opaque?
  }

  function Decimal(n: nat): string
  {
    var digit := ['0' + (n % 10) as char];
    if n < 10 then digit else Decimal(n / 10) + digit
  }

  function Render(v: Value, env: Env): string
  {
    match v
    case Text(s) => s
    case Whole(n) => if n >= 0 then Decimal(n) else "-" + Decimal(-n)
    case _ => env.render(v)
  }

  function Slice(s: string, start: nat, count: nat): string
  {
    var lo := if start == 0 then 0 else start - 1;
    if lo >= |s| then "" else if lo + count >= |s| then s[lo..] else s[lo..lo + count]
  }

  function Prefix(s: string, n: nat): string { if n >= |s| then s else s[..n] }

  function AddValues(v: Value, w: Value): Value
  {
    match (v, w)
    case (Whole(a), Whole(b)) => Whole(a + b)
    case (Whole(a), Number(y)) => Number(a as real + y)
    case (Number(x), Whole(b)) => Number(x + b as real)
    case (Number(x), Number(y)) => Number(x + y)
    case _ => Null
  }

  function MulValues(v: Value, w: Value): Value
  {
    match (v, w)
    case (Whole(a), Whole(b)) => Whole(a * b)
    case (Whole(a), Number(y)) => Number(a as real * y)
    case (Number(x), Whole(b)) => Number(x * b as real)
    case (Number(x), Number(y)) => Number(x * y)
    case _ => Null
  }

  /** Strict in NULL, except that a null guard yields NULL on a null column. */
  function Eval(e: Expr, cell: Value, env: Env): Value
  {
    match e
    case Column => cell
    case StrLit(s) => Text(s)
    case EmptyBytes => Bytes([])
    case EmptyObject(_) => Document("{}")
    case IntLit(n) => Whole(n)
    case NumLit(x) => Number(x)
    case Random(k) => Number(env.random(k))
    case AsText(a) => var v := Eval(a, cell, env); if v.Null? then Null else Text(Render(v, env))
    case Md5(a) => var v := Eval(a, cell, env); if v.Text? then Text(env.md5(v.s)) else Null
    case Substr(a, start, count) =>
      var v := Eval(a, cell, env); if v.Text? then Text(Slice(v.s, start, count)) else Null
    case Length(a) => var v := Eval(a, cell, env); if v.Text? then Whole(|v.s|) else Null
    case FloorInt(a) => var v := Eval(a, cell, env); if v.Number? then Whole(v.x.Floor) else Null
    case Add(a, b) => AddValues(Eval(a, cell, env), Eval(b, cell, env))
    case Mul(a, b) => MulValues(Eval(a, cell, env), Eval(b, cell, env))
    case Concat(a, b) =>
      var v, w := Eval(a, cell, env), Eval(b, cell, env);
      if v.Null? || w.Null? then Null else Text(Render(v, env) + Render(w, env))
    case Left(a, n) => var v := Eval(a, cell, env); if v.Text? then Text(Prefix(v.s, n)) else Null
    case UnlessNull(a) => if cell.Null? then Null else Eval(a, cell, env)
  }

  lemma ArithSound(v: Value, w: Value, s: Type, t: Type)
    requires HasType(v, s) && HasType(w, t) && ArithType(Some(s), Some(t)).Some?
    ensures HasType(AddValues(v, w), ArithType(Some(s), Some(t)).value)
    ensures HasType(MulValues(v, w), ArithType(Some(s), Some(t)).value)
    ensures !v.Null? && !w.Null? ==> !AddValues(v, w).Null? && !MulValues(v, w).Null?
  {
  }

  ghost predicate Sound(e: Expr, col: Type, cell: Value, env: Env)
  {
    TypeOf(e, col).Some? ==>
      && HasType(Eval(e, cell, env), TypeOf(e, col).value)
      && (!cell.Null? ==> !Eval(e, cell, env).Null?)
  }

  predicate IsUnary(e: Expr)
  {
    e.AsText? || e.Md5? || e.Substr? || e.Length? || e.FloorInt? || e.Left? || e.UnlessNull?
  }

  lemma UnarySound(e: Expr, col: Type, cell: Value, env: Env)
    requires IsUnary(e) && HasType(cell, col) && Sound(e.e, col, cell, env)
    ensures Sound(e, col, cell, env)
  {
    hide Render, Slice, Prefix;
  }

  lemma ConcatSound(e: Expr, col: Type, cell: Value, env: Env)
    requires e.Concat? && Sound(e.a, col, cell, env) && Sound(e.b, col, cell, env)
    ensures Sound(e, col, cell, env)
  {
    hide Render;
  }

  lemma ArithmeticSound(e: Expr, col: Type, cell: Value, env: Env)
    requires (e.Add? || e.Mul?) && Sound(e.a, col, cell, env) && Sound(e.b, col, cell, env)
    ensures Sound(e, col, cell, env)
  {
    hide AddValues, MulValues;
    var s, t := TypeOf(e.a, col), TypeOf(e.b, col);
    if ArithType(s, t).Some? {
      ArithSound(Eval(e.a, cell, env), Eval(e.b, cell, env), s.value, t.value);
    }
  }

  /** Type soundness of the evaluator: a well-typed expression on a well-typed cell gives a value
      of its static type, and a non-null cell gives a non-null value. */
  lemma {:induction false} EvalSound(e: Expr, col: Type, cell: Value, env: Env)
    requires HasType(cell, col)
    ensures Sound(e, col, cell, env)
  {
    if IsUnary(e) {
      EvalSound(e.e, col, cell, env);
      UnarySound(e, col, cell, env);
    } else if e.Concat? {
      EvalSound(e.a, col, cell, env);
      EvalSound(e.b, col, cell, env);
      ConcatSound(e, col, cell, env);
    } else if e.Add? || e.Mul? {
      EvalSound(e.a, col, cell, env);
      EvalSound(e.b, col, cell, env);
      ArithmeticSound(e, col, cell, env);
    }
  }

  // ---------------------------------------------------------------- soundness of the compiler

  predicate TextClass(c: Semantic)
  {
    c in {Email, Phone, Nit, Cedula, Iban, PaymentCard, FreeText, ShortString}
  }

  predicate Untouched(c: Semantic)
  {
    c in {DateClass, BooleanClass, SelectionClass, ForeignKey, Unsupported}
  }

  /** The class is left alone, or it produces a value of the column's own family. */
  predicate ClassFits(c: Semantic, dt: DataType)
  {
    || Untouched(c)
    || (TextClass(c) && Textual(dt))
    || (c == Money && Numerical(dt))
    || (c == Binary && dt == Bytea)
    || (c == JsonClass && dt == Json)
    || (c == JsonbClass && dt == Jsonb)
  }

  lemma {:induction false} HintIsTextual(col: string, hints: seq<(seq<string>, Semantic)>)
    requires forall i :: 0 <= i < |hints| ==> TextClass(hints[i].1)
    ensures FirstHint(col, hints).Some? ==> TextClass(FirstHint(col, hints).value)
  {
    if hints != [] { HintIsTextual(col, hints[1..]); }
  }

  lemma ClassifyFits(column: string, field: FieldType, dt: DataType, maxLen: Option<nat>)
    requires dt != Missing
    ensures ClassFits(Classify(column, field, dt, maxLen), dt)
  {
    hide Lower, ContainsAny, FirstHint;
    HintIsTextual(Lower(column), NameHints);
  }

  /** Without a physical type the column is always taken for text, so the condition is needed:
      the class then fits no type but a textual one. */
  lemma MissingTypeIsText(column: string, field: FieldType, maxLen: Option<nat>)
    ensures var c := Classify(column, field, Missing, maxLen);
      Untouched(c) || (TextClass(c) && forall dt :: ClassFits(c, dt) ==> Textual(dt))
  {
    hide Lower, ContainsAny, FirstHint;
    HintIsTextual(Lower(column), NameHints);
  }

  // ---------------------------------------------------------------- which class a column gets

  predicate EmailName(n: string) { Contains(n, "email") }

  predicate PhoneName(n: string) { Contains(n, "phone") || Contains(n, "mobile") || Contains(n, "fax") }

  predicate NitName(n: string) { Contains(n, "vat") || Contains(n, "nit") || Contains(n, "tax_id") }

  predicate CedulaName(n: string)
  {
    || Contains(n, "cedula") || Contains(n, "identification_id")
    || Contains(n, "document_number") || Contains(n, "id_number")
  }

  predicate IbanName(n: string) { Contains(n, "iban") || Contains(n, "acc_number") || Contains(n, "bank_account") }

  predicate CardName(n: string)
  {
    Contains(n, "card_number") || Contains(n, "credit_card") || Contains(n, "cc_number")
  }

  predicate TellingName(n: string)
  {
    EmailName(n) || PhoneName(n) || NitName(n) || CedulaName(n) || IbanName(n) || CardName(n)
  }

  predicate MoneyName(n: string)
  {
    || Contains(n, "amount") || Contains(n, "price") || Contains(n, "total") || Contains(n, "balance")
    || Contains(n, "debit") || Contains(n, "credit") || Contains(n, "cost") || Contains(n, "tax")
    || Contains(n, "salary") || Contains(n, "wage") || Contains(n, "payment")
  }

  lemma AnyOfThree(n: string, a: string, b: string, c: string)
    ensures ContainsAny(n, [a, b, c]) <==> Contains(n, a) || Contains(n, b) || Contains(n, c)
  {
    hide ContainsAny, Contains;
    ContainsAnyExactly(n, [a, b, c]);
    var parts := [a, b, c];
    assert parts[0] == a && parts[1] == b && parts[2] == c;
  }

  lemma AnyOfFour(n: string, a: string, b: string, c: string, d: string)
    ensures ContainsAny(n, [a, b, c, d]) <==> Contains(n, a) || Contains(n, b) || Contains(n, c) || Contains(n, d)
  {
    hide ContainsAny, Contains;
    var parts := [a, b, c, d];
    ContainsAnyExactly(n, parts);
    assert parts[0] == a && parts[1] == b && parts[2] == c && parts[3] == d;
  }

  lemma HintStep(n: string, needles: seq<string>, c: Semantic, rest: seq<(seq<string>, Semantic)>)
    ensures FirstHint(n, [(needles, c)] + rest) == if ContainsAny(n, needles) then Some(c) else FirstHint(n, rest)
  {
    hide ContainsAny;
    assert ([(needles, c)] + rest)[1..] == rest;
  }

  lemma NeedlesOfNames(n: string)
    ensures ContainsAny(n, ["email", "email_normalized", "email_from"]) <==> EmailName(n)
    ensures ContainsAny(n, ["phone", "mobile", "fax", "phone_sanitized"]) <==> PhoneName(n)
    ensures ContainsAny(n, ["vat", "nit", "tax_id"]) <==> NitName(n)
    ensures ContainsAny(n, ["cedula", "identification_id", "document_number", "id_number"]) <==> CedulaName(n)
    ensures ContainsAny(n, ["iban", "acc_number", "bank_account"]) <==> IbanName(n)
    ensures ContainsAny(n, ["card_number", "credit_card", "cc_number"]) <==> CardName(n)
  {
    hide ContainsAny, Contains;
    AnyOfThree(n, "email", "email_normalized", "email_from");
    if Contains(n, "email_normalized") { ContainsStart(n, "email", "email_normalized"); }
    if Contains(n, "email_from") { ContainsStart(n, "email", "email_from"); }
    AnyOfFour(n, "phone", "mobile", "fax", "phone_sanitized");
    if Contains(n, "phone_sanitized") { ContainsStart(n, "phone", "phone_sanitized"); }
    AnyOfThree(n, "vat", "nit", "tax_id");
    AnyOfFour(n, "cedula", "identification_id", "document_number", "id_number");
    AnyOfThree(n, "iban", "acc_number", "bank_account");
    AnyOfThree(n, "card_number", "credit_card", "cc_number");
  }

  /** The first telling name wins, in the order of the list. */
  lemma HintExactly(n: string)
    ensures FirstHint(n, NameHints) ==
      if EmailName(n) then Some(Email)
      else if PhoneName(n) then Some(Phone)
      else if NitName(n) then Some(Nit)
      else if CedulaName(n) then Some(Cedula)
      else if IbanName(n) then Some(Iban)
      else if CardName(n) then Some(PaymentCard)
      else None
  {
    hide ContainsAny, EmailName, PhoneName, NitName, CedulaName, IbanName, CardName;
    NeedlesOfNames(n);
    var h5 := [(["card_number", "credit_card", "cc_number"], PaymentCard)];
    var h4 := [(["iban", "acc_number", "bank_account"], Iban)] + h5;
    var h3 := [(["cedula", "identification_id", "document_number", "id_number"], Cedula)] + h4;
    var h2 := [(["vat", "nit", "tax_id"], Nit)] + h3;
    var h1 := [(["phone", "mobile", "fax", "phone_sanitized"], Phone)] + h2;
    var h0 := [(["email", "email_normalized", "email_from"], Email)] + h1;
    assert NameHints == h0;
    HintStep(n, ["card_number", "credit_card", "cc_number"], PaymentCard, []);
    HintStep(n, ["iban", "acc_number", "bank_account"], Iban, h5);
    HintStep(n, ["cedula", "identification_id", "document_number", "id_number"], Cedula, h4);
    HintStep(n, ["vat", "nit", "tax_id"], Nit, h3);
    HintStep(n, ["phone", "mobile", "fax", "phone_sanitized"], Phone, h2);
    HintStep(n, ["email", "email_normalized", "email_from"], Email, h1);
    assert h5 + [] == h5;
  }

  /** The class of a text column: by its name if that tells, else by its Odoo type, else, outside
      Odoo, by its declared length. */
  lemma TextClassExactly(column: string, field: FieldType, dt: DataType, maxLen: Option<nat>)
    requires dt in {CharacterVarying, Character, TextType, Citext, Missing}
    ensures var n := Lower(column);
      Classify(column, field, dt, maxLen) ==
        if EmailName(n) then Email
        else if PhoneName(n) then Phone
        else if NitName(n) then Nit
        else if CedulaName(n) then Cedula
        else if IbanName(n) then Iban
        else if CardName(n) then PaymentCard
        else if field in {Many2one, One2many, Many2many, Reference} then ForeignKey
        else if field == Selection then SelectionClass
        else if field == CharField then ShortString
        else if field == NoField && dt != TextType && (maxLen.None? || maxLen.value < 50) then ShortString
        else FreeText
  {
    hide FirstHint, Lower, EmailName, PhoneName, NitName, CedulaName, IbanName, CardName;
    HintExactly(Lower(column));
  }

  lemma {:induction false} MoneyNeedles(n: string)
    ensures ContainsAny(n, MonetaryHints) <==> MoneyName(n)
  {
    hide ContainsAny, Contains;
    ContainsAnyExactly(n, MonetaryHints);
    if Contains(n, "subtotal") { assert "total" <= "subtotal"[3..]; ContainsEnd(n, "total", "subtotal", 3); }
    var h := MonetaryHints;
    assert h[0] == "amount" && h[1] == "price" && h[2] == "total" && h[3] == "balance" && h[4] == "debit";
    assert h[5] == "credit" && h[6] == "cost" && h[7] == "subtotal" && h[8] == "tax" && h[9] == "salary";
    assert h[10] == "wage" && h[11] == "payment" && |h| == 12;
  }

  /** A column of numbers is money exactly when its name or its Odoo type says so. */
  lemma NumberClassExactly(column: string, field: FieldType, dt: DataType, maxLen: Option<nat>)
    requires dt in {Numeric, DoublePrecision, Real}
    ensures Classify(column, field, dt, maxLen)
         == if MoneyName(Lower(column)) || field == Monetary then Money else ForeignKey
  {
    hide ContainsAny, Lower, MoneyName;
    MoneyNeedles(Lower(column));
  }

  /** Text columns with no telling name and a relational or selection type, number columns that are
      not money, and every type but text, numbers, files and documents. */
  predicate LeftAlone(n: string, field: FieldType, dt: DataType)
  {
    if dt in {CharacterVarying, Character, TextType, Citext, Missing}
    then !TellingName(n) && field in {Many2one, One2many, Many2many, Reference, Selection}
    else if dt in {Numeric, DoublePrecision, Real} then !MoneyName(n) && field != Monetary
    else dt !in {Bytea, Json, Jsonb}
  }

  /** Those are exactly the columns that masking leaves alone; every other one has a strategy. */
  lemma LeftAloneExactly(column: string, field: FieldType, dt: DataType, maxLen: Option<nat>, range: real)
    ensures var s := StrategySql(Classify(column, field, dt, maxLen), range);
      s.Ok? && (s.value.None? <==> LeftAlone(Lower(column), field, dt))
  {
    hide EmailName, PhoneName, NitName, CedulaName, IbanName, CardName, MoneyName, Lower, FirstHint, ContainsAny;
    if dt in {CharacterVarying, Character, TextType, Citext, Missing} {
      TextClassExactly(column, field, dt, maxLen);
    } else if dt in {Numeric, DoublePrecision, Real} {
      NumberClassExactly(column, field, dt, maxLen);
    }
  }

  /** The physical types that are decided by themselves. */
  lemma OtherClassesExactly(column: string, field: FieldType, maxLen: Option<nat>)
    ensures Classify(column, field, Bytea, maxLen) == Binary
    ensures Classify(column, field, Json, maxLen) == JsonClass
    ensures Classify(column, field, Jsonb, maxLen) == JsonbClass
  {}

  lemma EmailColumn()
    ensures Classify("Email", CharField, CharacterVarying, Some(64)) == Email
  {
    hide FirstHint;
    LowerExactly("Email", 0);
    assert Lower("Email") == "email";
    assert Contains("email", "email");
    TextClassExactly("Email", CharField, CharacterVarying, Some(64));
  }

  lemma NineDigitsTyped(draw: nat, col: Type)
    ensures TypeOf(NineDigits(draw), col) == Some(TText)
  {
    var scaled := Mul(Random(draw), IntLit(900000000));
    assert TypeOf(scaled, col) == Some(TDouble);
    assert TypeOf(FloorInt(scaled), col) == Some(TInt);
    assert TypeOf(Add(IntLit(100000000), FloorInt(scaled)), col) == Some(TInt);
  }

  lemma HashTyped(count: nat, col: Type)
    ensures TypeOf(HashOfColumn(count), col) == Some(TText)
  {
    assert TypeOf(AsText(Column), col) == Some(TText);
    assert TypeOf(Md5(AsText(Column)), col) == Some(TText);
  }

  lemma CheckDigitTyped(col: Type)
    ensures TypeOf(AsText(FloorInt(Mul(Random(1), IntLit(10)))), col) == Some(TText)
  {
    var scaled := Mul(Random(1), IntLit(10));
    assert TypeOf(scaled, col) == Some(TDouble);
    assert TypeOf(FloorInt(scaled), col) == Some(TInt);
  }

  lemma NoiseTyped(range: real, col: Type)
    requires IsNumber(col)
    ensures TypeOf(Mul(Column, Add(NumLit(1.0 - range), Mul(Random(0), NumLit(2.0 * range)))), col) == Some(TDouble)
  {
    var spread := Mul(Random(0), NumLit(2.0 * range));
    assert TypeOf(spread, col) == Some(TDouble);
    assert TypeOf(Add(NumLit(1.0 - range), spread), col) == Some(TDouble);
  }

  lemma ConcatTyped(a: Expr, b: Expr, c: Expr, col: Type)
    requires TypeOf(a, col) == Some(TText) && TypeOf(b, col).Some? && TypeOf(c, col).Some?
    ensures TypeOf(UnlessNull(Concat(a, b)), col) == Some(TText)
    ensures TypeOf(UnlessNull(Concat(Concat(a, b), c)), col) == Some(TText)
  {
    assert TypeOf(Concat(a, b), col) == Some(TText);
    assert TypeOf(Concat(Concat(a, b), c), col) == Some(TText);
  }

  lemma LiteralTyped(s: string, col: Type)
    ensures TypeOf(StrLit(s), col) == Some(TText)
    ensures TypeOf(UnlessNull(StrLit(s)), col) == Some(TText)
  {}

  lemma GuardTyped(e: Expr, col: Type)
    ensures TypeOf(UnlessNull(e), col) == TypeOf(e, col)
  {}

  lemma LengthTyped(col: Type)
    ensures TypeOf(Length(AsText(Column)), col) == Some(TInt)
  {
    assert TypeOf(AsText(Column), col) == Some(TText);
  }

  lemma TextStrategyTyped(c: Semantic, range: real, col: Type)
    requires TextClass(c)
    ensures StrategySql(c, range).Ok? && StrategySql(c, range).value.Some?
    ensures TypeOf(StrategySql(c, range).value.value, col) == Some(TText)
  {
    hide NineDigits, HashOfColumn, TypeOf;
    match c
    case Email => {
      HashTyped(8, col);
      LiteralTyped("user", col);
      LiteralTyped("@masked.invalid", col);
      ConcatTyped(StrLit("user"), HashOfColumn(8), StrLit("@masked.invalid"), col);
    }
    case Nit => {
      NineDigitsTyped(0, col);
      CheckDigitTyped(col);
      LiteralTyped("-", col);
      ConcatTyped(NineDigits(0), StrLit("-"), AsText(FloorInt(Mul(Random(1), IntLit(10)))), col);
    }
    case Cedula => {
      NineDigitsTyped(0, col);
      GuardTyped(NineDigits(0), col);
    }
    case FreeText => {
      LengthTyped(col);
      LiteralTyped("[REDACTED text length=", col);
      LiteralTyped("]", col);
      ConcatTyped(StrLit("[REDACTED text length="), Length(AsText(Column)), StrLit("]"), col);
    }
    case ShortString => {
      HashTyped(12, col);
      LiteralTyped("MASKED:", col);
      ConcatTyped(StrLit("MASKED:"), HashOfColumn(12), StrLit("MASKED:"), col);
    }
    case Phone => { LiteralTyped("+57XXXXXXXXXX", col); }
    case _ => { LiteralTyped("[REDACTED]", col); }
  }

  /** The strategies of the classes that are not textual. */
  lemma OtherStrategyTyped(c: Semantic, range: real, col: Type)
    requires !TextClass(c) && (c == Money ==> IsNumber(col)) && !c.Other?
    ensures var s := StrategySql(c, range);
      && s.Ok? && (s.value.None? <==> Untouched(c))
      && (c == Money ==> TypeOf(s.value.value, col) == Some(TDouble))
      && (c == Binary ==> TypeOf(s.value.value, col) == Some(TBytea))
      && (c == JsonClass ==> TypeOf(s.value.value, col) == Some(TJson))
      && (c == JsonbClass ==> TypeOf(s.value.value, col) == Some(TJsonb))
  {
    if c == Money {
      hide TypeOf;
      NoiseTyped(range, col);
    }
  }

  /** On a class that fits, the strategy exists and has the type the column needs. */
  lemma StrategyTyped(c: Semantic, dt: DataType, range: real)
    requires ClassFits(c, dt)
    ensures var s := StrategySql(c, range);
      && s.Ok?
      && (s.value.None? <==> Untouched(c))
      && (s.value.Some? ==>
            && TypeOf(s.value.value, ColumnType(dt)).Some?
            && Assignable(TypeOf(s.value.value, ColumnType(dt)).value, dt)
            && (Textual(dt) ==> TypeOf(s.value.value, ColumnType(dt)) == Some(TText)))
  {
    hide StrategySql, TypeOf;
    if TextClass(c) {
      TextStrategyTyped(c, range, ColumnType(dt));
    } else {
      OtherStrategyTyped(c, range, ColumnType(dt));
    }
  }

  /** The value fits the declared length of a bounded character column. */
  predicate FitsColumn(v: Value, dt: DataType, maxLen: Option<nat>)
  {
    Bounded(dt) && maxLen.Some? && v.Text? ==> |v.s| <= maxLen.value
  }

  lemma NullStaysNull(c: Semantic, range: real, dt: DataType, maxLen: Option<nat>, env: Env)
    requires StrategySql(c, range).Ok? && StrategySql(c, range).value.Some?
    ensures Eval(Clamp(StrategySql(c, range).value.value, dt, maxLen), Null, env) == Null
  {
    assert Eval(StrategySql(c, range).value.value, Null, env) == Null;
  }

  lemma ClampFits(e: Expr, dt: DataType, maxLen: Option<nat>, cell: Value, env: Env)
    ensures FitsColumn(Eval(Clamp(e, dt, maxLen), cell, env), dt, maxLen)
  {
  }

  /** For every column with a known physical type, whatever its name and Odoo type: the compiler
      never fails; it leaves the column alone, or its clamped expression is well typed, is
      assignable to the column, maps NULL to NULL and only NULL to NULL, and fits the declared
      length. */
  lemma MaskingSound(column: string, field: FieldType, dt: DataType, maxLen: Option<nat>,
                     range: real, cell: Value, env: Env)
    requires dt != Missing && HasType(cell, ColumnType(dt))
    ensures var s := StrategySql(Classify(column, field, dt, maxLen), range);
      && s.Ok?
      && (s.value.Some? ==>
            var e := Clamp(s.value.value, dt, maxLen);
            var t := TypeOf(e, ColumnType(dt));
            && t.Some? && Assignable(t.value, dt)
            && HasType(Eval(e, cell, env), t.value)
            && (Eval(e, cell, env).Null? <==> cell.Null?)
            && FitsColumn(Eval(e, cell, env), dt, maxLen))
  {
    hide Classify, StrategySql, Eval, ClassFits;
    var c := Classify(column, field, dt, maxLen);
    ClassifyFits(column, field, dt, maxLen);
    StrategyTyped(c, dt, range);
    var s := StrategySql(c, range);
    if s.value.Some? {
      var e := Clamp(s.value.value, dt, maxLen);
      assert Bounded(dt) ==> Textual(dt);
      EvalSound(e, ColumnType(dt), cell, env);
      NullStaysNull(c, range, dt, maxLen, env);
      ClampFits(s.value.value, dt, maxLen, cell, env);
    }
  }

  /** Monetary noise keeps the scale: the masked figure is within the configured range of the
      original, on both sides of zero. */
  lemma NoiseBounded(x: real, range: real, env: Env)
    requires 0.0 <= range && 0.0 <= env.random(0) < 1.0
    ensures StrategySql(Money, range).Ok? && StrategySql(Money, range).value.Some?
    ensures var v := Eval(StrategySql(Money, range).value.value, Number(x), env);
      && v.Number?
      && (x >= 0.0 ==> -(range * x) <= v.x - x <= range * x)
      && (x <= 0.0 ==> range * x <= v.x - x <= -(range * x))
  {
    hide Eval, StrategySql, Noisy;
    NoiseEval(x, range, env);
    NoiseFactor(x, range, env.random(0));
  }

  function Noisy(x: real, range: real, u: real): real { x * (1.0 - range + u * (2.0 * range)) }

  lemma NoiseEval(x: real, range: real, env: Env)
    ensures StrategySql(Money, range).Ok? && StrategySql(Money, range).value.Some?
    ensures Eval(StrategySql(Money, range).value.value, Number(x), env) == Number(Noisy(x, range, env.random(0)))
  {
    var low, span := 1.0 - range, 2.0 * range;
    var spread := Mul(Random(0), NumLit(span));
    assert Eval(spread, Number(x), env) == Number(env.random(0) * span);
    assert Eval(Add(NumLit(low), spread), Number(x), env) == Number(low + env.random(0) * span);
  }

  lemma NoiseFactor(x: real, range: real, u: real)
    requires 0.0 <= range && 0.0 <= u < 1.0
    ensures x >= 0.0 ==> -(range * x) <= Noisy(x, range, u) - x <= range * x
    ensures x <= 0.0 ==> range * x <= Noisy(x, range, u) - x <= -(range * x)
  {
    var f := u * (2.0 * range);
    UnitScale(u, 2.0 * range);
    assert x * (1.0 - range + f) == x - range * x + f * x;
    if x >= 0.0 {
      ProductBetween(f, 2.0 * range, x);
      assert 2.0 * range * x == 2.0 * (range * x);
    }
    if x <= 0.0 {
      ProductBetween(f, 2.0 * range, -x);
      assert f * -x == -(f * x);
      assert 2.0 * range * -x == -2.0 * (range * x);
    }
  }

  lemma UnitScale(u: real, b: real)
    requires 0.0 <= u < 1.0 && 0.0 <= b
    ensures 0.0 <= u * b <= b
  {
    assert (1.0 - u) * b >= 0.0;
  }

  lemma ProductBetween(f: real, b: real, x: real)
    requires 0.0 <= f <= b && 0.0 <= x
    ensures 0.0 <= f * x <= b * x
  {
    assert (b - f) * x >= 0.0;
  }

  // ---------------------------------------------------------------- what a masked value reveals

  /** The column is used only through its hash or its length, never directly. */
  predicate Sealed(e: Expr)
  {
    match e
    case Column => false
    case Md5(a) => a == AsText(Column) || Sealed(a)
    case Length(a) => a == AsText(Column) || Sealed(a)
    case AsText(a) => Sealed(a)
    case Substr(a, _, _) => Sealed(a)
    case FloorInt(a) => Sealed(a)
    case Left(a, _) => Sealed(a)
    case UnlessNull(a) => Sealed(a)
    case Add(a, b) => Sealed(a) && Sealed(b)
    case Mul(a, b) => Sealed(a) && Sealed(b)
    case Concat(a, b) => Sealed(a) && Sealed(b)
    case _ => true
  }

  /** Two cells that a sealed expression cannot tell apart. */
  predicate SameTrace(v: Value, w: Value, env: Env)
  {
    && !v.Null? && !w.Null?
    && env.md5(Render(v, env)) == env.md5(Render(w, env))
    && |Render(v, env)| == |Render(w, env)|
  }

  lemma UnaryHides(e: Expr, v: Value, w: Value, env: Env)
    requires IsUnary(e) && !v.Null? && !w.Null? && Eval(e.e, v, env) == Eval(e.e, w, env)
    ensures Eval(e, v, env) == Eval(e, w, env)
  {
    hide Render, Slice, Prefix;
  }

  lemma BinaryHides(e: Expr, v: Value, w: Value, env: Env)
    requires e.Concat? || e.Add? || e.Mul?
    requires Eval(e.a, v, env) == Eval(e.a, w, env) && Eval(e.b, v, env) == Eval(e.b, w, env)
    ensures Eval(e, v, env) == Eval(e, w, env)
  {
    hide Render, AddValues, MulValues;
  }

  lemma TraceHides(e: Expr, v: Value, w: Value, env: Env)
    requires (e.Md5? || e.Length?) && e.e == AsText(Column) && SameTrace(v, w, env)
    ensures Eval(e, v, env) == Eval(e, w, env)
  {
    hide Render;
    assert Eval(AsText(Column), v, env) == Text(Render(v, env));
    assert Eval(AsText(Column), w, env) == Text(Render(w, env));
  }

  lemma {:induction false} SealedHides(e: Expr, v: Value, w: Value, env: Env)
    requires Sealed(e) && SameTrace(v, w, env)
    ensures Eval(e, v, env) == Eval(e, w, env)
  {
    if e.Concat? || e.Add? || e.Mul? {
      hide Eval;
      SealedHides(e.a, v, w, env);
      SealedHides(e.b, v, w, env);
      BinaryHides(e, v, w, env);
    } else if (e.Md5? || e.Length?) && e.e == AsText(Column) {
      hide Eval;
      TraceHides(e, v, w, env);
    } else if IsUnary(e) {
      hide Eval;
      SealedHides(e.e, v, w, env);
      UnaryHides(e, v, w, env);
    } else {
      hide Render;
    }
  }

  lemma NineDigitsSealed(draw: nat)
    ensures Sealed(NineDigits(draw))
  {
    var limit := IntLit(900000000);
    assert Sealed(limit);
    var scaled := Mul(Random(draw), limit);
    assert Sealed(scaled);
    assert Sealed(FloorInt(scaled));
    var first := IntLit(100000000);
    assert Sealed(first);
    assert Sealed(Add(first, FloorInt(scaled)));
  }

  lemma CheckDigitSealed()
    ensures Sealed(AsText(FloorInt(Mul(Random(1), IntLit(10)))))
  {
    var limit := IntLit(10);
    assert Sealed(limit);
    var scaled := Mul(Random(1), limit);
    assert Sealed(scaled);
    assert Sealed(FloorInt(scaled));
  }

  lemma ConcatSealed(a: Expr, b: Expr, c: Expr)
    requires Sealed(a) && Sealed(b) && Sealed(c)
    ensures Sealed(UnlessNull(Concat(a, b))) && Sealed(UnlessNull(Concat(Concat(a, b), c)))
  {
    assert Sealed(Concat(a, b));
    assert Sealed(Concat(Concat(a, b), c));
  }

  lemma StrategySealed(c: Semantic, range: real)
    requires StrategySql(c, range).Ok? && StrategySql(c, range).value.Some? && c != Money
    ensures Sealed(StrategySql(c, range).value.value)
  {
    hide NineDigits, HashOfColumn;
    match c
    case Email => HashSealed(8); ConcatSealed(StrLit("user"), HashOfColumn(8), StrLit("@masked.invalid"));
    case Nit =>
      NineDigitsSealed(0);
      CheckDigitSealed();
      ConcatSealed(NineDigits(0), StrLit("-"), AsText(FloorInt(Mul(Random(1), IntLit(10)))));
    case Cedula => NineDigitsSealed(0);
    case FreeText =>
      ConcatSealed(StrLit("[REDACTED text length="), Length(AsText(Column)), StrLit("]"));
    case ShortString => HashSealed(12); ConcatSealed(StrLit("MASKED:"), HashOfColumn(12), StrLit(""));
    case _ =>
  }

  lemma HashSealed(count: nat)
    ensures Sealed(HashOfColumn(count))
  {
    assert Sealed(Md5(AsText(Column)));
  }

  /** Apart from monetary noise, a masked value reveals at most the hash and the length of the
      original: two non-null cells that agree on both are masked to the same value under the
      same random draws. */
  lemma MaskHides(c: Semantic, range: real, dt: DataType, maxLen: Option<nat>, v: Value, w: Value, env: Env)
    requires StrategySql(c, range).Ok? && StrategySql(c, range).value.Some? && c != Money
    requires SameTrace(v, w, env)
    ensures var e := Clamp(StrategySql(c, range).value.value, dt, maxLen);
      Eval(e, v, env) == Eval(e, w, env)
  {
    hide StrategySql, Eval, SameTrace;
    var e := StrategySql(c, range).value.value;
    StrategySealed(c, range);
    SealedHides(Clamp(e, dt, maxLen), v, w, env);
  }

  // ---------------------------------------------------------------- recognising masked values

  predicate IsSpace(c: char) { c == ' ' || c == '\t' || c == '\n' || c == '\r' }

  function StripRight(s: string): string
  {
    if s == "" || !IsSpace(s[|s| - 1]) then s else StripRight(s[..|s| - 1])
  }

  function StripLeft(s: string): string
  {
    if s == "" || !IsSpace(s[0]) then s else StripLeft(s[1..])
  }

  function Strip(s: string): string { StripRight(StripLeft(s)) }

  /** The audit's test for the masker's own output. */
  predicate IsMaskedValue(value: string)
  {
    value != "" &&
    var v := Strip(value);
    "MASKED:" <= v || "[REDACTED" <= v || v == "+57XXXXXXXXXX" || Contains(v, "@masked.invalid")
  }

  ghost predicate Hex(s: string)
  {
    |s| == 32 && forall i :: 0 <= i < |s| ==> '0' <= s[i] <= '9' || 'a' <= s[i] <= 'f'
  }

  /** The length from which the recognised marker of a class is complete. */
  function MarkerLength(c: Semantic): nat
  {
    match c
    case Email => 27
    case Phone => 13
    case ShortString => 7
    case _ => 9
  }

  lemma {:induction false} StripRightPrefix(s: string)
    ensures StripRight(s) <= s
    ensures forall k :: 0 <= k < |s| && !IsSpace(s[k]) ==> k < |StripRight(s)|
  {
    if s != "" && IsSpace(s[|s| - 1]) {
      StripRightPrefix(s[..|s| - 1]);
    }
  }

  ghost predicate AllSpaces(s: string) { forall i :: 0 <= i < |s| ==> IsSpace(s[i]) }

  lemma {:induction false} StripLeftSpaces(a: string, t: string)
    requires AllSpaces(a) && (t == "" || !IsSpace(t[0]))
    ensures StripLeft(a + t) == t
  {
    if a == "" {
      assert a + t == t;
    } else {
      assert (a + t)[1..] == a[1..] + t;
      StripLeftSpaces(a[1..], t);
    }
  }

  lemma {:induction false} StripRightSpaces(t: string, b: string)
    requires AllSpaces(b) && (t == "" || !IsSpace(t[|t| - 1]))
    ensures StripRight(t + b) == t
  {
    if b == "" {
      assert t + b == t;
    } else {
      assert (t + b)[..|t + b| - 1] == t + b[..|b| - 1];
      StripRightSpaces(t, b[..|b| - 1]);
    }
  }

  /** Stripping removes exactly the spaces around a text. */
  lemma StripExactly(a: string, t: string, b: string)
    requires AllSpaces(a) && AllSpaces(b)
    requires t != "" && !IsSpace(t[0]) && !IsSpace(t[|t| - 1])
    ensures Strip(a + t + b) == t
  {
    assert a + t + b == a + (t + b);
    StripLeftSpaces(a, t + b);
    StripRightSpaces(t, b);
  }

  /** On a text that begins with a non-space, stripping keeps a prefix that ends in a non-space. */
  lemma StripKeeps(s: string, marker: string)
    requires marker != "" && marker <= s && !IsSpace(s[0]) && !IsSpace(marker[|marker| - 1])
    ensures marker <= Strip(s)
  {
    StripRightPrefix(s);
    assert s[|marker| - 1] == marker[|marker| - 1];
  }

  lemma StripShorter(s: string)
    requires s == "" || !IsSpace(s[0])
    ensures Strip(s) <= s
  {
    StripRightPrefix(s);
  }

  lemma {:induction false} ContainsNeedsHead(s: string, part: string)
    requires part != "" && forall i :: 0 <= i < |s| && i + |part| <= |s| ==> s[i] != part[0]
    ensures !Contains(s, part)
  {
    if |part| <= |s| {
      assert s[0] != part[0];
      assert forall i :: 0 <= i < |s| - 1 ==> s[1..][i] == s[i + 1];
      ContainsNeedsHead(s[1..], part);
    }
  }

  lemma {:induction false} ContainsAt(s: string, part: string, i: nat)
    requires i + |part| <= |s| && s[i..i + |part|] == part
    ensures Contains(s, part)
  {
    if i > 0 {
      assert s[1..][i - 1..i - 1 + |part|] == part;
      ContainsAt(s[1..], part, i - 1);
    }
  }

  /** A clamped constant marker is recognised exactly when the marker fits. */
  lemma MarkerRecognised(full: string, marker: string, n: nat)
    requires marker in ["MASKED:", "[REDACTED"] && marker <= full
    requires forall i :: 0 <= i < |full| ==> full[i] != '@'
    ensures IsMaskedValue(Prefix(full, n)) <==> n >= |marker|
  {
    var s := Prefix(full, n);
    StripShorter(s);
    var v := Strip(s);
    ContainsNeedsHead(v, "@masked.invalid");
    if n >= |marker| {
      StripKeeps(s, marker);
    } else if s != "" {
      assert v == "" || v[0] == marker[0];
    }
  }

  lemma PhoneRecognised(n: nat)
    ensures IsMaskedValue(Prefix("+57XXXXXXXXXX", n)) <==> n >= 13
  {
    var full := "+57XXXXXXXXXX";
    var s := Prefix(full, n);
    StripShorter(s);
    ContainsNeedsHead(Strip(s), "@masked.invalid");
    if n >= 13 {
      StripKeeps(s, full);
    }
  }

  lemma EmailRecognised(hash: string, n: nat)
    requires |hash| == 8 && forall i :: 0 <= i < 8 ==> hash[i] != '@' && !IsSpace(hash[i])
    ensures IsMaskedValue(Prefix("user" + hash + "@masked.invalid", n)) <==> n >= 27
  {
    var domain := "@masked.invalid";
    var full := "user" + hash + domain;
    assert |domain| == 15 && |full| == 27;
    var s := Prefix(full, n);
    StripShorter(s);
    var v := Strip(s);
    if n >= 27 {
      assert full[26] == domain[14] == 'd';
      StripKeeps(full, full);
      assert v == full;
      assert full[12..27] == domain;
      ContainsAt(full, domain, 12);
    } else {
      forall i | 0 <= i < |v| && i + 15 <= |v| ensures v[i] != domain[0] {
        assert i < 12 && v[i] == full[i];
        if i >= 4 { assert full[i] == hash[i - 4]; }
      }
      ContainsNeedsHead(v, domain);
      assert v == "" || v[0] == 'u';
    }
  }

  lemma {:induction false} DecimalDigits(n: nat)
    ensures Decimal(n) != "" && forall i :: 0 <= i < |Decimal(n)| ==> '0' <= Decimal(n)[i] <= '9'
  {
    if n >= 10 { DecimalDigits(n / 10); }
  }

  predicate Recognisable(c: Semantic) { c in {Email, Phone, Iban, PaymentCard, FreeText, ShortString} }

  /** The unclamped replacement text of a recognisable class. */
  function Replacement(c: Semantic, cell: Value, env: Env): string
  {
    var text := Render(cell, env);
    match c
    case Email => "user" + Slice(env.md5(text), 1, 8) + "@masked.invalid"
    case Phone => "+57XXXXXXXXXX"
    case FreeText => "[REDACTED text length=" + Decimal(|text|) + "]"
    case ShortString => "MASKED:" + Slice(env.md5(text), 1, 12)
    case _ => "[REDACTED]"
  }

  lemma EvalConcat(a: Expr, b: Expr, cell: Value, env: Env)
    requires !Eval(a, cell, env).Null? && !Eval(b, cell, env).Null?
    ensures Eval(Concat(a, b), cell, env) == Text(Render(Eval(a, cell, env), env) + Render(Eval(b, cell, env), env))
  {
    hide Render;
  }

  lemma EvalHash(count: nat, cell: Value, env: Env)
    requires !cell.Null?
    ensures Eval(HashOfColumn(count), cell, env) == Text(Slice(env.md5(Render(cell, env)), 1, count))
  {
    hide Render, Slice;
    assert Eval(AsText(Column), cell, env) == Text(Render(cell, env));
    assert Eval(Md5(AsText(Column)), cell, env) == Text(env.md5(Render(cell, env)));
  }

  /** What the strategies compute, spelled out. */
  lemma StrategyText(c: Semantic, range: real, cell: Value, env: Env)
    requires Recognisable(c) && !cell.Null?
    ensures StrategySql(c, range).Ok? && StrategySql(c, range).value.Some?
    ensures Eval(StrategySql(c, range).value.value, cell, env) == Text(Replacement(c, cell, env))
  {
    hide Slice, HashOfColumn, Decimal;
    match c
    case Email =>
      EvalHash(8, cell, env);
      EvalConcat(StrLit("user"), HashOfColumn(8), cell, env);
      EvalConcat(Concat(StrLit("user"), HashOfColumn(8)), StrLit("@masked.invalid"), cell, env);
    case ShortString =>
      EvalHash(12, cell, env);
      EvalConcat(StrLit("MASKED:"), HashOfColumn(12), cell, env);
    case FreeText =>
      var l := Length(AsText(Column));
      assert Eval(AsText(Column), cell, env) == Text(Render(cell, env));
      assert Eval(l, cell, env) == Whole(|Render(cell, env)|);
      EvalConcat(StrLit("[REDACTED text length="), l, cell, env);
      EvalConcat(Concat(StrLit("[REDACTED text length="), l), StrLit("]"), cell, env);
    case _ =>
  }

  lemma ReplacementRecognised(c: Semantic, cell: Value, env: Env, n: nat)
    requires Recognisable(c) && Hex(env.md5(Render(cell, env)))
    ensures IsMaskedValue(Prefix(Replacement(c, cell, env), n)) <==> n >= MarkerLength(c)
    ensures |Replacement(c, cell, env)| >= MarkerLength(c)
  {
    hide IsMaskedValue, Render, Decimal;
    var text := Render(cell, env);
    var hash := env.md5(text);
    var full := Replacement(c, cell, env);
    match c
    case Email => EmailRecognised(Slice(hash, 1, 8), n);
    case Phone => PhoneRecognised(n);
    case ShortString => MarkerRecognised(full, "MASKED:", n);
    case FreeText =>
      DecimalDigits(|text|);
      MarkerRecognised(full, "[REDACTED", n);
    case _ => MarkerRecognised(full, "[REDACTED", n);
  }

  /** The audit recognises a replacement exactly when the column is wide enough for its marker:
      a narrower column makes the masker's own output look like a leak. */
  lemma RecognisedExactly(c: Semantic, range: real, dt: DataType, maxLen: Option<nat>, cell: Value, env: Env)
    requires Recognisable(c) && !cell.Null? && Hex(env.md5(Render(cell, env)))
    ensures StrategySql(c, range).Ok? && StrategySql(c, range).value.Some?
    ensures var v := Eval(Clamp(StrategySql(c, range).value.value, dt, maxLen), cell, env);
      v.Text? && (IsMaskedValue(v.s) <==> (maxLen.Some? && Bounded(dt) ==> maxLen.value >= MarkerLength(c)))
  {
    hide StrategySql, IsMaskedValue, Replacement, Render, Hex;
    var full := Replacement(c, cell, env);
    StrategyText(c, range, cell, env);
    ReplacementRecognised(c, cell, env, if maxLen.Some? then maxLen.value else 0);
    ReplacementRecognised(c, cell, env, |full|);
    assert Prefix(full, |full|) == full;
  }

  /** For instance: a short string in a `varchar(6)` becomes "MASKED", which the audit takes for
      an unmasked value. */
  lemma NarrowColumnLooksUnmasked(cell: Value, env: Env)
    requires cell == Text("Ana") && Hex(env.md5("Ana"))
    ensures StrategySql(ShortString, 0.1).Ok? && StrategySql(ShortString, 0.1).value.Some?
    ensures var e := Clamp(StrategySql(ShortString, 0.1).value.value, CharacterVarying, Some(6));
      Eval(e, cell, env) == Text("MASKED") && !IsMaskedValue("MASKED")
  {
    hide StrategySql, IsMaskedValue, Slice;
    StrategyText(ShortString, 0.1, cell, env);
    RecognisedExactly(ShortString, 0.1, CharacterVarying, Some(6), cell, env);
    assert Prefix(Replacement(ShortString, cell, env), 6) == "MASKED";
  }

  /** Digits and hyphens only. */
  ghost predicate Numeral(s: string)
  {
    forall i :: 0 <= i < |s| ==> '0' <= s[i] <= '9' || s[i] == '-'
  }

  lemma NumeralNotMarked(s: string, n: nat)
    requires Numeral(s)
    ensures !IsMaskedValue(Prefix(s, n))
  {
    var t := Prefix(s, n);
    StripShorter(t);
    var v := Strip(t);
    ContainsNeedsHead(v, "@masked.invalid");
    assert v == "" || v[0] == s[0];
  }

  lemma WholeNumeral(n: int, env: Env)
    ensures Numeral(Render(Whole(n), env))
  {
    if n >= 0 { DecimalDigits(n); } else { DecimalDigits(-n); }
  }

  /** The whole numbers that the random draws are turned into. */
  function Scaled(u: real, limit: int): int { (u * limit as real).Floor }

  function DrawnNumber(u: real): int { 100000000 + Scaled(u, 900000000) }

  function DrawnDigit(u: real): int { Scaled(u, 10) }

  lemma EvalFloor(draw: nat, limit: int, cell: Value, env: Env)
    ensures Eval(FloorInt(Mul(Random(draw), IntLit(limit))), cell, env) == Whole(Scaled(env.random(draw), limit))
  {
    hide Render;
    var bound, random := IntLit(limit), Random(draw);
    assert Eval(bound, cell, env) == Whole(limit);
    assert Eval(random, cell, env) == Number(env.random(draw));
    var product := Mul(random, bound);
    assert Eval(product, cell, env) == MulValues(Number(env.random(draw)), Whole(limit));
  }

  lemma EvalSum(n: int, e: Expr, cell: Value, env: Env)
    requires Eval(e, cell, env).Whole?
    ensures Eval(Add(IntLit(n), e), cell, env) == Whole(n + Eval(e, cell, env).n)
  {
    hide Render;
    var first := IntLit(n);
    assert Eval(first, cell, env) == Whole(n);
  }

  lemma EvalText(e: Expr, cell: Value, env: Env)
    requires !Eval(e, cell, env).Null?
    ensures Eval(AsText(e), cell, env) == Text(Render(Eval(e, cell, env), env))
  {
    hide Render;
  }

  lemma NineDigitsText(draw: nat, cell: Value, env: Env)
    ensures Eval(NineDigits(draw), cell, env) == Text(Render(Whole(DrawnNumber(env.random(draw))), env))
  {
    hide Render, Eval, Scaled;
    var floor := FloorInt(Mul(Random(draw), IntLit(900000000)));
    EvalFloor(draw, 900000000, cell, env);
    EvalSum(100000000, floor, cell, env);
    EvalText(Add(IntLit(100000000), floor), cell, env);
  }

  lemma CheckDigitText(cell: Value, env: Env)
    ensures Eval(AsText(FloorInt(Mul(Random(1), IntLit(10)))), cell, env)
         == Text(Render(Whole(DrawnDigit(env.random(1))), env))
  {
    hide Render, Eval, Scaled;
    EvalFloor(1, 10, cell, env);
    EvalText(FloorInt(Mul(Random(1), IntLit(10))), cell, env);
  }

  /** The text that replaces a tax number or an identity card. */
  function IdentifierFor(c: Semantic, env: Env): string
  {
    var base := Render(Whole(DrawnNumber(env.random(0))), env);
    if c == Cedula then base else base + "-" + Render(Whole(DrawnDigit(env.random(1))), env)
  }

  lemma CedulaText(range: real, cell: Value, env: Env)
    requires !cell.Null?
    ensures StrategySql(Cedula, range).Ok? && StrategySql(Cedula, range).value.Some?
    ensures Eval(StrategySql(Cedula, range).value.value, cell, env) == Text(IdentifierFor(Cedula, env))
  {
    hide NineDigits, Render, DrawnNumber;
    NineDigitsText(0, cell, env);
  }

  lemma NitText(range: real, cell: Value, env: Env)
    requires !cell.Null?
    ensures StrategySql(Nit, range).Ok? && StrategySql(Nit, range).value.Some?
    ensures Eval(StrategySql(Nit, range).value.value, cell, env) == Text(IdentifierFor(Nit, env))
  {
    hide NineDigits, DrawnNumber, DrawnDigit, Decimal;
    NineDigitsText(0, cell, env);
    CheckDigitText(cell, env);
    EvalConcat(NineDigits(0), StrLit("-"), cell, env);
    EvalConcat(Concat(NineDigits(0), StrLit("-")), AsText(FloorInt(Mul(Random(1), IntLit(10)))), cell, env);
  }

  lemma IdentifierText(c: Semantic, range: real, cell: Value, env: Env)
    requires (c == Nit || c == Cedula) && !cell.Null?
    ensures StrategySql(c, range).Ok? && StrategySql(c, range).value.Some?
    ensures Eval(StrategySql(c, range).value.value, cell, env) == Text(IdentifierFor(c, env))
    ensures Numeral(IdentifierFor(c, env))
  {
    hide StrategySql, Eval;
    if c == Nit { NitText(range, cell, env); } else { CedulaText(range, cell, env); }
    hide Render, DrawnNumber, DrawnDigit;
    WholeNumeral(DrawnNumber(env.random(0)), env);
    WholeNumeral(DrawnDigit(env.random(1)), env);
  }

  lemma DrawBounds(u: real)
    requires 0.0 <= u < 1.0
    ensures 100000000 <= DrawnNumber(u) <= 999999999 && 0 <= DrawnDigit(u) <= 9
  {
    var x, y := u * 900000000.0, u * 10.0;
    assert 0.0 <= x < 900000000.0 && 0.0 <= y < 10.0;
  }

  /** It is a fresh number of nine digits, followed for tax numbers by a hyphen and one digit. */
  lemma IdentifierShape(env: Env)
    requires 0.0 <= env.random(0) < 1.0 && 0.0 <= env.random(1) < 1.0
    ensures var n, d := DrawnNumber(env.random(0)), DrawnDigit(env.random(1));
      && 100000000 <= n <= 999999999 && IdentifierFor(Cedula, env) == Decimal(n)
      && 0 <= d <= 9 && IdentifierFor(Nit, env) == Decimal(n) + "-" + Decimal(d)
  {
    hide DrawnNumber, DrawnDigit, Decimal;
    DrawBounds(env.random(0));
    DrawBounds(env.random(1));
  }

  /** Files become empty and documents empty objects. */
  lemma EmptyReplacements(range: real, cell: Value, env: Env)
    requires !cell.Null?
    ensures StrategySql(Binary, range) == Ok(Some(UnlessNull(EmptyBytes)))
    ensures Eval(UnlessNull(EmptyBytes), cell, env) == Bytes([])
    ensures StrategySql(JsonClass, range) == Ok(Some(UnlessNull(EmptyObject(false))))
    ensures StrategySql(JsonbClass, range) == Ok(Some(UnlessNull(EmptyObject(true))))
    ensures Eval(UnlessNull(EmptyObject(false)), cell, env) == Document("{}")
    ensures Eval(UnlessNull(EmptyObject(true)), cell, env) == Document("{}")
  {
    assert Eval(EmptyBytes, cell, env) == Bytes([]);
    assert Eval(EmptyObject(false), cell, env) == Document("{}");
    assert Eval(EmptyObject(true), cell, env) == Document("{}");
  }

  /** The replacements of tax numbers and identity cards are never recognised, whatever the column. */
  lemma IdentifiersNeverRecognised(c: Semantic, range: real, dt: DataType, maxLen: Option<nat>, cell: Value, env: Env)
    requires (c == Nit || c == Cedula) && !cell.Null?
    ensures StrategySql(c, range).Ok? && StrategySql(c, range).value.Some?
    ensures var v := Eval(Clamp(StrategySql(c, range).value.value, dt, maxLen), cell, env);
      v.Text? && !IsMaskedValue(v.s)
  {
    hide StrategySql, IsMaskedValue, Numeral, IdentifierFor;
    IdentifierText(c, range, cell, env);
    var s := IdentifierFor(c, env);
    NumeralNotMarked(s, if maxLen.Some? then maxLen.value else 0);
    NumeralNotMarked(s, |s|);
  }

  // ---------------------------------------------------------------- the pieces of the expressions

  /** The number that a text of digits denotes. */
  function NumberOf(s: string): nat
  {
    if s == "" then 0
    else 10 * NumberOf(s[..|s| - 1]) + (if '0' <= s[|s| - 1] <= '9' then (s[|s| - 1] - '0') as nat else 0)
  }

  /** Decimal notation denotes its number, without a leading zero. */
  lemma {:induction false} DecimalRoundTrip(n: nat)
    ensures Decimal(n) != "" && NumberOf(Decimal(n)) == n
    ensures n > 0 ==> Decimal(n)[0] != '0'
    ensures n < 10 ==> |Decimal(n)| == 1
  {
    if n >= 10 {
      DecimalRoundTrip(n / 10);
      var d := Decimal(n);
      assert d[..|d| - 1] == Decimal(n / 10);
    }
  }

  /** `substr` counts from one and stops at the end of the text. */
  lemma SliceExactly(s: string, start: nat, count: nat)
    requires start >= 1
    ensures start - 1 + count <= |s| ==> Slice(s, start, count) == s[start - 1..start - 1 + count]
    ensures start - 1 <= |s| < start - 1 + count ==> Slice(s, start, count) == s[start - 1..]
    ensures start - 1 > |s| ==> Slice(s, start, count) == ""
  {}

  /** The arithmetic of the database on whole and fractional numbers. */
  lemma Arithmetic(a: int, b: int, x: real, y: real)
    ensures AddValues(Whole(a), Whole(b)) == Whole(a + b) && MulValues(Whole(a), Whole(b)) == Whole(a * b)
    ensures AddValues(Number(x), Number(y)) == Number(x + y) && MulValues(Number(x), Number(y)) == Number(x * y)
    ensures AddValues(Whole(a), Number(y)) == Number(a as real + y)
    ensures AddValues(Number(x), Whole(b)) == Number(x + b as real)
    ensures MulValues(Whole(a), Number(y)) == Number(a as real * y)
    ensures MulValues(Number(x), Whole(b)) == Number(x * b as real)
  {}

  /** The text of NULL is NULL. */
  lemma NullText(a: Expr, cell: Value, env: Env)
    requires Eval(a, cell, env).Null?
    ensures Eval(AsText(a), cell, env) == Null
  {}

  /** Joining anything to NULL gives NULL. */
  lemma NullAbsorbs(a: Expr, b: Expr, cell: Value, env: Env)
    requires Eval(a, cell, env).Null? || Eval(b, cell, env).Null?
    ensures Eval(Concat(a, b), cell, env) == Null
  {}

  /** Single precision stays so only with itself. */
  lemma RealArithmetic(t: Type)
    requires IsNumber(t)
    ensures ArithType(Some(TReal), Some(t)) == Some(if t == TReal then TReal else TDouble)
    ensures ArithType(Some(t), Some(TReal)) == Some(if t == TReal then TReal else TDouble)
  {}

  /** Whole numbers fit every column of numbers, and a value of any other type its own column only. */
  lemma AssignableExactly(dt: DataType, other: DataType)
    ensures Assignable(TInt, dt) <==> dt in {Numeric, DoublePrecision, Real, SmallInt, Integer, BigInt}
    ensures Assignable(TOther(other), dt) <==> other == dt
  {}
}
