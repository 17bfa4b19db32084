/** The parser of the configuration format: what each item does to the stacks of contexts and keys. */
module ConfParse {
  import opened Basics
  import opened Text
  import opened ConfLex

  datatype Value =
    | VString(s: string) | VBool(b: bool) | VInt(n: int) | VFloat(text: string) | VDate(text: string)
    | VArray(a: seq<Value>) | VMap(m: map<string, Value>)

  /** An open map or array. */
  datatype Ctx = MapCtx(m: map<string, Value>) | ArrCtx(a: seq<Value>)

  datatype Parser = Parser(ctxs: seq<Ctx>, keys: seq<string>)

  datatype EnvResult = NotSet | Unreadable | Set(value: Value)

  datatype IncludeResult = NoFile | Included(m: map<string, Value>)

  /** What lies outside: environment variables already parsed, other files already parsed, and whether
      the library accepts the text of a float or of a date. */
  datatype Outside = Outside(env: string -> EnvResult, file: string -> IncludeResult,
                             isFloat: string -> bool, isDate: string -> bool)

  function Last<T>(s: seq<T>): (x: T)
    requires s != []
  {
    s[|s| - 1]
  }

  function Init<T>(s: seq<T>): (t: seq<T>)
    requires s != []
    ensures |t| == |s| - 1
  {
    s[..|s| - 1]
  }

  function Closed(ctx: Ctx): (v: Value) {
    match ctx
    case MapCtx(m) => VMap(m)
    case ArrCtx(a) => VArray(a)
  }

  /** Setting a value in a map takes the key from the stack; there has to be one. */
  predicate CanSet(p: Parser) {
    p.ctxs != [] && (Last(p.ctxs).MapCtx? ==> p.keys != [])
  }

  function SetValue(p: Parser, v: Value): (p': Parser)
    requires CanSet(p)
    ensures |p'.ctxs| == |p.ctxs|
  {
    match Last(p.ctxs)
    case ArrCtx(a) => p.(ctxs := Init(p.ctxs) + [ArrCtx(a + [v])])
    case MapCtx(m) => Parser(Init(p.ctxs) + [MapCtx(m[Last(p.keys) := v])], Init(p.keys))
  }

  predicate CanClose(p: Parser) {
    |p.ctxs| >= 2 && CanSet(p.(ctxs := Init(p.ctxs)))
  }

  /** Leaving a context makes it a value of the one around it. */
  function Close(p: Parser): (p': Parser)
    requires CanClose(p)
  {
    SetValue(p.(ctxs := Init(p.ctxs)), Closed(Last(p.ctxs)))
  }

  // ----- literals -----

  predicate AllDigits(s: string) {
    forall i :: 0 <= i < |s| ==> IsDigit(s[i])
  }

  function NatOf(s: string): (n: nat)
    requires AllDigits(s)
  {
    if s == "" then 0 else 10 * NatOf(s[..|s| - 1]) + (s[|s| - 1] as int - '0' as int)
  }

  /** strconv.ParseInt in base 10 and 64 bits. */
  function ParseInt(s: string): (r: Option<int>) {
    var neg := s != "" && s[0] == '-';
    var digits := if neg then s[1..] else s;
    if digits == "" || !AllDigits(digits) then None
    else
      var n := if neg then 0 - NatOf(digits) else NatOf(digits);
      if MIN_INT64 <= n <= MAX_INT64 then Some(n) else None
  }

  /** The length of the longest prefix of digits and minus signs. */
  function NumberLength(s: string): (n: nat)
    ensures n <= |s|
  {
    if s != "" && (IsDigit(s[0]) || s[0] == '-') then 1 + NumberLength(s[1..]) else 0
  }

  /** What a suffix multiplies by; other suffixes are taken for no value at all. */
  function Multiplier(suffix: string): (m: Option<int>) {
    if suffix == "" then Some(1)
    else if suffix == "k" then Some(1000)
    else if suffix == "kb" || suffix == "ki" || suffix == "kib" then Some(1024)
    else if suffix == "m" then Some(1000_000)
    else if suffix == "mb" || suffix == "mi" || suffix == "mib" then Some(0x10_0000)
    else if suffix == "g" then Some(1000_000_000)
    else if suffix == "gb" || suffix == "gi" || suffix == "gib" then Some(0x4000_0000)
    else if suffix == "t" then Some(1000_000_000_000)
    else if suffix == "tb" || suffix == "ti" || suffix == "tib" then Some(0x100_0000_0000)
    else if suffix == "p" then Some(1000_000_000_000_000)
    else if suffix == "pb" || suffix == "pi" || suffix == "pib" then Some(0x4_0000_0000_0000)
    else if suffix == "e" then Some(1000_000_000_000_000_000)
    else if suffix == "eb" || suffix == "ei" || suffix == "eib" then Some(0x1000_0000_0000_0000)
    else None
  }

  /** Variables are looked up from the innermost map outwards. */
  function LookupCtxs(ctxs: seq<Ctx>, name: string): (v: Option<Value>) {
    if ctxs == [] then None
    else if Last(ctxs).MapCtx? && name in Last(ctxs).m then Some(Last(ctxs).m[name])
    else LookupCtxs(Init(ctxs), name)
  }

  const BCRYPT_PREFIX := "2a$"

  function LookupVariable(p: Parser, name: string, out: Outside): (v: Option<Value>) {
    if BCRYPT_PREFIX <= name then Some(VString("$" + name))
    else
      match LookupCtxs(p.ctxs, name)
      case Some(v) => Some(v)
      case None => match out.env(name) case Set(v) => Some(v) case _ => None
  }

  // ----- items -----

  predicate SetsValue(typ: ItemType) {
    typ == ItemString || typ == ItemBool || typ == ItemInteger || typ == ItemFloat || typ == ItemDatetime || typ == ItemVariable
  }

  /** What the stacks must hold for an item not to run into an empty one. */
  predicate CanTake(p: Parser, typ: ItemType) {
    && (SetsValue(typ) ==> CanSet(p))
    && (typ == ItemMapEnd || typ == ItemArrayEnd ==> CanClose(p))
    && (typ == ItemInclude ==> p.ctxs != [] && Last(p.ctxs).MapCtx?)
  }

  /** processItem; None is an error. */
  function Process(p: Parser, it: Item, out: Outside): (r: Option<Parser>)
    requires CanTake(p, it.typ)
  {
    match it.typ
    case ItemError => None
    case ItemKey => Some(p.(keys := p.keys + [it.val]))
    case ItemMapStart => Some(p.(ctxs := p.ctxs + [MapCtx(map[])]))
    case ItemArrayStart => Some(p.(ctxs := p.ctxs + [ArrCtx([])]))
    case ItemMapEnd => Some(Close(p))
    case ItemArrayEnd => Some(Close(p))
    case ItemString => Some(SetValue(p, VString(it.val)))
    case ItemInteger => ProcessInteger(p, it.val)
    case ItemFloat => if out.isFloat(it.val) then Some(SetValue(p, VFloat(it.val))) else None
    case ItemBool => ProcessBool(p, Lower(it.val))
    case ItemDatetime => if out.isDate(it.val) then Some(SetValue(p, VDate(it.val))) else None
    case ItemVariable =>
      (match LookupVariable(p, it.val, out) case Some(v) => Some(SetValue(p, v)) case None => None)
    case ItemInclude =>
      (match out.file(it.val)
       case NoFile => None
       case Included(m) => Some(p.(ctxs := Init(p.ctxs) + [MapCtx(Last(p.ctxs).m + m)])))
    case _ => Some(p)
  }

  function ProcessInteger(p: Parser, val: string): (r: Option<Parser>)
    requires CanSet(p)
  {
    var n := NumberLength(val);
    match ParseInt(val[..n])
    case None => None
    case Some(num) =>
      match Multiplier(Lower(val[n..]))
      case Some(m) => Some(SetValue(p, VInt(Wrap64(num * m))))
      case None => Some(p)
  }

  function ProcessBool(p: Parser, word: string): (r: Option<Parser>)
    requires CanSet(p)
  {
    if word == "true" || word == "yes" || word == "on" then Some(SetValue(p, VBool(true)))
    else if word == "false" || word == "no" || word == "off" then Some(SetValue(p, VBool(false)))
    else None
  }
}
