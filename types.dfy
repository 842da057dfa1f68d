/**
 * The runtime values of src/types.rs, the casts between them, and symbol interning.
 *
 * A `SchemeType` is a function handle, a signed 64-bit number, a character, a string
 * or a heap object. Heap objects are the empty-list, true and false singletons,
 * interned symbols and pairs. A symbol is identified by the allocation number the
 * interning table gave it and carries its name, as the object built by `new_symbol`
 * holds its name as its single field.
 */
module Types {
  import opened Wrappers

  const I64_MIN: int := -0x8000_0000_0000_0000
  const I64_MAX: int := 0x7FFF_FFFF_FFFF_FFFF

  newtype i64 = x: int | -0x8000_0000_0000_0000 <= x <= 0x7FFF_FFFF_FFFF_FFFF

  /** The width of `usize` is a property of the platform the interpreter is built for. */
  datatype Platform = Bits32 | Bits64

  function UsizeMax(p: Platform): (m: nat)
    ensures m == 0xFFFF_FFFF || m == 0xFFFF_FFFF_FFFF_FFFF
  {
    match p
    case Bits32 => 0xFFFF_FFFF
    case Bits64 => 0xFFFF_FFFF_FFFF_FFFF
  }

  /** A handle to a callable; what calling it does belongs to the interpreter. */
  datatype FunctionRef = FunctionRef(id: nat)

  datatype SchemeObject =
    | EmptyList
    | TrueObject
    | FalseObject
    | SymbolObject(id: nat, name: string)
    | Pair(car: SchemeType, cdr: SchemeType)

  datatype SchemeType =
    | Function(func: FunctionRef)
    | Number(number: i64)
    | Char(ch: char)
    | String(text: string)
    | Object(obj: SchemeObject)

  datatype CastError = CastError

  // ----- casts -----

  /** `to_number` */
  function ToNumber(v: SchemeType): (r: Result<i64, CastError>)
    ensures r.Ok? <==> v.Number?
    ensures r.Ok? ==> v == Number(r.value)
  {
    if v.Number? then Ok(v.number) else Err(CastError)
  }

  /**
   * `to_index`: a number that is neither negative nor above `usize::MAX`, unchanged.
   * The conversion through `u64` is the identity on such numbers.
   */
  function ToIndex(v: SchemeType, p: Platform): (r: Result<nat, CastError>)
    ensures r.Ok? <==> v.Number? && 0 <= v.number as int <= UsizeMax(p)
    ensures r.Ok? ==> r.value == v.number as int
  {
    match ToNumber(v)
    case Err(e) => Err(e)
    case Ok(raw) =>
      if raw < 0 then Err(CastError)
      else
        var num := raw as int;
        if num > UsizeMax(p) then Err(CastError) else Ok(num)
  }

  /** `to_char` */
  function ToChar(v: SchemeType): (r: Result<char, CastError>)
    ensures r.Ok? <==> v.Char?
    ensures r.Ok? ==> v == Char(r.value)
  {
    if v.Char? then Ok(v.ch) else Err(CastError)
  }

  /** `into_object` */
  function IntoObject(v: SchemeType): (r: Result<SchemeObject, CastError>)
    ensures r.Ok? <==> v.Object?
    ensures r.Ok? ==> v == Object(r.value)
  {
    if v.Object? then Ok(v.obj) else Err(CastError)
  }

  /** `into_string` */
  function IntoString(v: SchemeType): (r: Result<string, CastError>)
    ensures r.Ok? <==> v.String?
    ensures r.Ok? ==> v == String(r.value)
  {
    if v.String? then Ok(v.text) else Err(CastError)
  }

  /** `to_function` */
  function ToFunction(v: SchemeType): (r: Result<FunctionRef, CastError>)
    ensures r.Ok? <==> v.Function?
    ensures r.Ok? ==> v == Function(r.value)
  {
    match v
    case Function(f) => Ok(f)
    case _ => Err(CastError)
  }

  /** `to_bool`: every value but the false singleton counts as true. */
  function ToBool(v: SchemeType): (r: bool)
    ensures !r <==> v == Object(FalseObject)
  {
    v != Object(FalseObject)
  }

  /** `From<bool>`: the true or the false singleton. */
  function FromBool(b: bool): (r: SchemeType)
    ensures ToBool(r) == b
    ensures r == Object(TrueObject) || r == Object(FalseObject)
  {
    if b then Object(TrueObject) else Object(FalseObject)
  }

  /**
   * `From<usize>`: a number with the index's value. The source panics on an index
   * above `i64::MAX`, so callers must not pass one.
   */
  function FromUsize(index: nat, p: Platform): (r: SchemeType)
    requires index <= UsizeMax(p)
    requires index <= I64_MAX
    ensures ToIndex(r, p) == Ok(index)
    ensures ToNumber(r) == Ok(index as i64)
  {
    Number(index as i64)
  }

  // ----- pair chains -----

  /**
   * The chain of pairs holding `items` in order and ending in `tail`: what the list
   * factory returns after pushing `items` and building with `tail`.
   */
  function ListOf(items: seq<SchemeType>, tail: SchemeType): (r: SchemeType)
    ensures items == [] ==> r == tail
    ensures items != [] ==> r.Object? && r.obj.Pair? && r.obj.car == items[0]
  {
    if items == [] then tail else Object(Pair(items[0], ListOf(items[1..], tail)))
  }

  /** Follows `n` pairs from `v`, collecting their cars; `None` if a link is not a pair. */
  function Unchain(v: SchemeType, n: nat): Option<(seq<SchemeType>, SchemeType)> {
    if n == 0 then Some(([], v))
    else if v.Object? && v.obj.Pair? then
      match Unchain(v.obj.cdr, n - 1)
      case None => None
      case Some((items, tail)) => Some(([v.obj.car] + items, tail))
    else None
  }

  /** A chain gives back its items and its tail. */
  lemma {:induction false} UnchainListOf(items: seq<SchemeType>, tail: SchemeType)
    ensures Unchain(ListOf(items, tail), |items|) == Some((items, tail))
  {
    if items != [] {
      UnchainListOf(items[1..], tail);
      assert [items[0]] + items[1..] == items;
    }
  }

  /** Chains of the same length are equal only when their items and tails are. */
  lemma ListOfInjective(a: seq<SchemeType>, s: SchemeType, b: seq<SchemeType>, t: SchemeType)
    requires |a| == |b| && ListOf(a, s) == ListOf(b, t)
    ensures a == b && s == t
  {
    UnchainListOf(a, s);
    UnchainListOf(b, t);
  }

  // ----- interning -----

  /** The table behind `new_symbol`: one symbol object per name, allocated on first use. */
  class SymbolTable {
    var symbols: map<string, SchemeObject>
    /** The allocation number the next new symbol object gets. */
    var nextId: nat

    /** Every entry is a symbol with its own name and an allocation number of its own. */
    ghost predicate Valid()
      reads this
    {
      && (forall name :: name in symbols ==>
            symbols[name].SymbolObject? && symbols[name].name == name && symbols[name].id < nextId)
      && (forall a, b :: a in symbols && b in symbols && a != b ==> symbols[a].id != symbols[b].id)
    }

    constructor()
      ensures Valid() && symbols == map[]
    {
      symbols := map[];
      nextId := 0;
    }

    /**
     * `new_symbol`: the symbol already interned under `name`, leaving the table as it
     * was, or a newly allocated one, added as the table's only new entry.
     */
    method NewSymbol(name: string) returns (sym: SchemeObject)
      requires Valid()
      modifies this
      ensures Valid()
      ensures sym.SymbolObject? && sym.name == name
      ensures name in symbols && symbols[name] == sym
      ensures name in old(symbols) ==> sym == old(symbols)[name] && symbols == old(symbols) && nextId == old(nextId)
      ensures name !in old(symbols) ==>
        symbols == old(symbols)[name := sym] && nextId == old(nextId) + 1 &&
        forall other :: other in old(symbols) ==> old(symbols)[other].id != sym.id
    {
      if name in symbols {
        sym := symbols[name];
      } else {
        sym := SymbolObject(nextId, name);
        symbols := symbols[name := sym];
        nextId := nextId + 1;
      }
    }
  }
}
