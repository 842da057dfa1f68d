/**
 * The syntax tree of src/ast.rs: symbols of three origins, generated temporaries,
 * proper and improper lists, the list builder, the downcasts, and the reification
 * of a node into runtime data.
 */
module Ast {
  import opened Wrappers
  import T = Types
  import L = Lexical
  import Tok = Tokenizer

  // ----- core symbols -----

  datatype CoreSymbol =
    | And | Begin | Or | Let | LetRec | LetStar | Lambda | If | Set | Error | Quote
    | BeginProgram | GenUnspecified

  /** `CoreSymbol::get_name`: every core name is spelled as an ordinary identifier. */
  function CoreName(c: CoreSymbol): (name: string)
    ensures L.NormalSymbolText(name)
  {
    match c
    case And => "and"
    case Begin => "begin"
    case Or => "or"
    case Let => "let"
    case LetRec => "letrec"
    case LetStar => "let*"
    case Lambda => "lambda"
    case If => "if"
    case Set => "set"
    case Error => "error"
    case Quote => "quote"
    case BeginProgram => "$begin-program"
    case GenUnspecified => "$gen_unspecified"
  }

  /** Different core symbols have different names. */
  lemma CoreNameInjective(a: CoreSymbol, b: CoreSymbol)
    requires CoreName(a) == CoreName(b)
    ensures a == b
  {
  }

  // ----- symbols -----

  const U64_LIMIT: int := 0x1_0000_0000_0000_0000

  newtype u64 = x: int | 0 <= x < 0x1_0000_0000_0000_0000

  /** A symbol is equal to another exactly when origin and payload are. */
  datatype AstSymbol = Core(core: CoreSymbol) | Temp(id: u64) | Defined(name: string)

  /** The text every temporary's name starts with. */
  const TEMP_PREFIX: string := "$temp$id"

  function DigitChar(d: nat): (c: char)
    requires d < 10
    ensures L.IsDigit(c)
  {
    ('0' as int + d) as char
  }

  function DigitValue(c: char): (d: nat)
    requires L.IsDigit(c)
    ensures d < 10
  {
    c as int - '0' as int
  }

  /** The decimal spelling of `n` that `format!("{}", n)` produces: digits, no leading zero. */
  function Decimal(n: nat): (r: string)
    ensures |r| > 0
    ensures forall i :: 0 <= i < |r| ==> L.IsDigit(r[i])
    ensures r[0] == '0' ==> n == 0
    decreases n
  {
    if n < 10 then [DigitChar(n)] else Decimal(n / 10) + [DigitChar(n % 10)]
  }

  /** Reads a string of digits as a number. */
  function ParseDecimal(s: string): nat
    requires forall i :: 0 <= i < |s| ==> L.IsDigit(s[i])
    decreases |s|
  {
    if s == [] then 0 else ParseDecimal(s[..|s| - 1]) * 10 + DigitValue(s[|s| - 1])
  }

  /** Reading the decimal spelling gives the number back. */
  lemma {:induction false} ParseDecimalOfDecimal(n: nat)
    ensures ParseDecimal(Decimal(n)) == n
    decreases n
  {
    var s := Decimal(n);
    if n >= 10 {
      ParseDecimalOfDecimal(n / 10);
      assert s[..|s| - 1] == Decimal(n / 10);
    }
  }

  /** Different numbers have different spellings. */
  lemma DecimalInjective(a: nat, b: nat)
    requires Decimal(a) == Decimal(b)
    ensures a == b
  {
    ParseDecimalOfDecimal(a);
    ParseDecimalOfDecimal(b);
  }

  /** `AstSymbol::new`: a user-defined symbol, named as spelled. */
  function NewSymbol(name: string): (sym: AstSymbol)
    ensures SymbolName(sym) == name
    ensures sym.Defined?
  {
    Defined(name)
  }

  /** `From<CoreSymbol>` */
  function FromCore(c: CoreSymbol): (sym: AstSymbol)
    ensures SymbolName(sym) == CoreName(c)
    ensures sym.Core?
  {
    Core(c)
  }

  /**
   * `AstSymbol::get_name`: a user symbol's spelling, a core symbol's name, or, for a
   * temporary, `$temp$id` followed by the decimal digits of its id, which together
   * spell an ordinary identifier.
   */
  function SymbolName(sym: AstSymbol): (name: string)
    ensures sym.Defined? ==> name == sym.name
    ensures sym.Core? ==> name == CoreName(sym.core)
    ensures sym.Temp? ==>
      && |name| > |TEMP_PREFIX| && name[..|TEMP_PREFIX|] == TEMP_PREFIX
      && (forall i :: |TEMP_PREFIX| <= i < |name| ==> L.IsDigit(name[i]))
      && L.NormalSymbolText(name)
  {
    match sym
    case Core(c) => CoreName(c)
    case Temp(id) =>
      var d := Decimal(id as nat);
      PrefixedDigitsAreIdentifier(d);
      TEMP_PREFIX + d
    case Defined(name) => name
  }

  /** `$temp$id` followed by digits is an ordinary identifier. */
  lemma PrefixedDigitsAreIdentifier(d: string)
    requires forall i :: 0 <= i < |d| ==> L.IsDigit(d[i])
    ensures L.NormalSymbolText(TEMP_PREFIX + d)
  {
    var s := TEMP_PREFIX + d;
    forall i | 1 <= i < |s| ensures L.IsSubsequent(s[i]) {
      if i >= |TEMP_PREFIX| {
        assert s[i] == d[i - |TEMP_PREFIX|];
      }
    }
  }

  /** Temporaries with different ids have different names. */
  lemma TempNameInjective(a: u64, b: u64)
    requires SymbolName(Temp(a)) == SymbolName(Temp(b))
    ensures a == b
  {
    var sa, sb := SymbolName(Temp(a)), SymbolName(Temp(b));
    assert sa[|TEMP_PREFIX|..] == Decimal(a as nat);
    assert sb[|TEMP_PREFIX|..] == Decimal(b as nat);
    DecimalInjective(a as nat, b as nat);
  }

  /**
   * The scanner reads a temporary's name as a symbol with that name: the name is
   * available to programs, although the symbol it came from is not.
   */
  lemma TempNameScansAsSymbol(id: u64)
    ensures var name := SymbolName(Temp(id));
      Tok.Scan(name) == Ok(Tok.Scanned(Tok.PublicToken(Tok.Symbol(name)), |name|))
  {
    var name := SymbolName(Temp(id));
    Tok.SymbolIsRawSpelling(name, []);
    assert name + [] == name;
  }

  /** A temporary and the user symbol spelled like it share a name but are different symbols. */
  lemma TempDiffersFromSameNamedUserSymbol(id: u64)
    ensures var t := Temp(id); var d := NewSymbol(SymbolName(t));
      t != d && SymbolName(t) == SymbolName(d)
  {
  }

  /** The counter behind `gen_temp`, which wraps around like the `u64` it is. */
  class TempCounter {
    var count: u64
    /** The ids handed out so far. */
    ghost var issued: set<u64>

    /** Every id handed out is below the counter; this holds until the counter wraps. */
    ghost predicate Valid()
      reads this
    {
      forall id :: id in issued ==> id < count
    }

    constructor()
      ensures count == 0 && issued == {} && Valid()
    {
      count := 0;
      issued := {};
    }

    /**
     * `gen_temp`: a temporary with the counter's value, then the counter steps on.
     * Before the counter wraps, the id is new and above every earlier one.
     */
    method GenTemp() returns (sym: AstSymbol)
      modifies this
      ensures sym == Temp(old(count))
      ensures count as int == (old(count) as int + 1) % U64_LIMIT
      ensures issued == old(issued) + {old(count)}
      ensures old(Valid()) && old(count) as int + 1 < U64_LIMIT ==>
        Valid() && old(count) !in old(issued) && (forall id :: id in old(issued) ==> id < old(count))
    {
      sym := Temp(count);
      issued := issued + {count};
      count := ((count as int + 1) % U64_LIMIT) as u64;
    }
  }

  // ----- nodes and lists -----

  datatype NonList = Number(value: T.i64) | Symbol(symbol: AstSymbol) | String(text: string) | Bool(truth: bool)

  /** A list ends in the empty list or in a leaf; never in another list. */
  datatype ListType = Proper | Improper(leaf: NonList)

  datatype AstList = AstList(nodes: seq<AstNode>, listType: ListType)

  datatype AstNode = List(list: AstList) | NonList(leaf: NonList)

  /** `ListType::is_proper_list`: the list ends in the empty list. */
  predicate IsProperListType(t: ListType)
    ensures IsProperListType(t) <==> t == Proper
  {
    !IsImproperListType(t)
  }

  /** `ListType::is_improper_list`: the list ends in a leaf. */
  predicate IsImproperListType(t: ListType)
    ensures IsImproperListType(t) <==> exists x :: t == Improper(x)
  {
    t.Improper?
  }

  /** `ListType::into_node`: the empty list or the tail leaf, as a node. */
  function IntoNode(t: ListType): (n: AstNode)
    ensures n.List? <==> IsProperListType(t)
    ensures n.List? ==> IsEmptyList(n.list)
    ensures n.NonList? ==> t == Improper(n.leaf)
  {
    match t
    case Proper => List(Empty())
    case Improper(x) => NonList(x)
  }

  /** `AstList::none` */
  function Empty(): (l: AstList)
    ensures IsEmptyList(l)
  {
    AstList([], Proper)
  }

  /** `AstList::one` */
  function One(node: AstNode): (l: AstList)
    ensures IsProperList(l) && AsNodes(l) == [node]
  {
    AstList([node], Proper)
  }

  /** `From<Vec<AstNode>> for AstList` */
  function FromNodes(nodes: seq<AstNode>): (l: AstList)
    ensures IsProperList(l) && AsNodes(l) == nodes
  {
    AstList(nodes, Proper)
  }

  /** `AstList::is_proper_list` */
  predicate IsProperList(l: AstList)
    ensures IsProperList(l) <==> l == AstList(l.nodes, Proper)
  {
    IsProperListType(l.listType)
  }

  /** `is_empty_list`: a proper list with no nodes, which is the list `none` builds. */
  predicate IsEmptyList(l: AstList)
    ensures IsEmptyList(l) <==> l == AstList([], Proper)
  {
    IsProperList(l) && l.nodes == []
  }

  /** `AstList::is_improper_list`: exactly the lists that are not proper. */
  predicate IsImproperList(l: AstList)
    ensures IsImproperList(l) <==> !IsProperList(l)
  {
    IsImproperListType(l.listType)
  }

  /** `as_nodes`: all the nodes, so that they and the list type determine the list. */
  function AsNodes(l: AstList): (nodes: seq<AstNode>)
    ensures l == AstList(nodes, l.listType)
  {
    l.nodes
  }

  /** `into_inner`: the nodes and the tail as a node. */
  function IntoInner(l: AstList): (r: (seq<AstNode>, AstNode))
    ensures r.0 == l.nodes
    ensures r.1 == IntoNode(l.listType)
  {
    (l.nodes, IntoNode(l.listType))
  }

  // ----- the list builder -----

  /**
   * What `build_with_tail` returns for the pushed `nodes` and the `tail` node.
   * It fails only for an empty builder and a tail that is an improper list.
   */
  function BuiltWithTail(nodes: seq<AstNode>, tail: AstNode): (r: Option<AstList>)
    ensures r.None? <==> nodes == [] && tail.List? && IsImproperList(tail.list)
    ensures r.Some? && tail.List? ==> r.value == AstList(nodes + tail.list.nodes, tail.list.listType)
    ensures tail.NonList? ==> r == Some(AstList(nodes, Improper(tail.leaf)))
  {
    match tail
    case List(l) =>
      if nodes == [] && IsImproperList(l) then None else Some(AstList(nodes + l.nodes, l.listType))
    case NonList(x) => Some(AstList(nodes, Improper(x)))
  }

  /** Taking a list apart with `into_inner` and building it again gives the same list. */
  lemma BuildWithTailRoundTrip(l: AstList)
    ensures BuiltWithTail(IntoInner(l).0, IntoInner(l).1) == Some(l)
  {
    assert l.nodes + [] == l.nodes;
  }

  /** Building `a` with the proper list `b` as its tail is building `a + b`. */
  lemma BuildWithProperTailAppends(a: seq<AstNode>, b: seq<AstNode>)
    ensures BuiltWithTail(a, FromList(FromNodes(b))) == Some(AstList(a + b, Proper))
  {
  }

  /**
   * Splicing is associative: a list built on a tail, used as the tail of more nodes,
   * is the list built from all the nodes on that tail, unless the outer builder is
   * empty and the inner result improper.
   */
  lemma BuildWithTailSplices(a: seq<AstNode>, b: seq<AstNode>, tail: AstNode)
    requires BuiltWithTail(b, tail).Some?
    requires a != [] || IsProperList(BuiltWithTail(b, tail).value)
    ensures BuiltWithTail(a, List(BuiltWithTail(b, tail).value)) == BuiltWithTail(a + b, tail)
  {
    if tail.List? {
      assert a + (b + tail.list.nodes) == (a + b) + tail.list.nodes;
    }
  }

  /** `AstListBuilder`: nodes pushed in order, then built into a list. */
  class AstListBuilder {
    var nodes: seq<AstNode>

    constructor()
      ensures nodes == []
    {
      nodes := [];
    }

    method Push(node: AstNode)
      modifies this
      ensures nodes == old(nodes) + [node]
    {
      nodes := nodes + [node];
    }

    /** `build_with_type`: the pushed nodes ending in the given list type. */
    method BuildWithType(listType: ListType) returns (list: AstList)
      ensures AsNodes(list) == nodes && list.listType == listType
    {
      list := AstList(nodes, listType);
    }

    /** `build`: a proper list of exactly the pushed nodes, in push order. */
    method Build() returns (list: AstList)
      ensures IsProperList(list) && AsNodes(list) == nodes
      ensures list == FromNodes(nodes)
    {
      list := BuildWithType(Proper);
    }

    /** `build_with_tail`: splice a list tail onto the pushed nodes, or end in a leaf. */
    method BuildWithTail(tail: AstNode) returns (r: Option<AstList>)
      modifies this
      ensures r == BuiltWithTail(old(nodes), tail)
      ensures r.Some? ==> nodes == r.value.nodes
      ensures r.None? ==> nodes == old(nodes)
    {
      match tail
      case List(list) =>
        if |nodes| == 0 && IsImproperList(list) {
          return None;
        }
        nodes := nodes + list.nodes;
        var built := BuildWithType(list.listType);
        r := Some(built);
      case NonList(leaf) =>
        var built := BuildWithType(Improper(leaf));
        r := Some(built);
    }
  }

  // ----- node constructors -----

  function FromNumber(number: T.i64): (n: AstNode)
    ensures KindName(n) == "number" && n.leaf.value == number
  {
    NonList(Number(number))
  }

  function FromString(text: string): (n: AstNode)
    ensures KindName(n) == "string" && n.leaf.text == text
  {
    NonList(String(text))
  }

  function FromBool(truth: bool): (n: AstNode)
    ensures KindName(n) == "boolean" && n.leaf.truth == truth
  {
    NonList(Bool(truth))
  }

  /** `From<AstSymbol> for AstNode` */
  function FromSymbol(sym: AstSymbol): (n: AstNode)
    ensures IntoSymbol(n) == Ok(sym)
  {
    NonList(Symbol(sym))
  }

  /** `From<CoreSymbol> for AstNode` */
  function FromCoreSymbol(c: CoreSymbol): (n: AstNode)
    ensures IntoSymbol(n) == Ok(Core(c))
  {
    FromSymbol(FromCore(c))
  }

  /** `From<AstList> for AstNode` */
  function FromList(l: AstList): (n: AstNode)
    ensures IntoList(n) == Ok(l)
  {
    List(l)
  }

  /** `From<Vec<AstNode>> for AstNode` */
  function FromNodeSeq(nodes: seq<AstNode>): (n: AstNode)
    ensures IntoProperList(n) == Ok(nodes)
  {
    FromList(FromNodes(nodes))
  }

  // ----- downcasts -----

  function AsList(n: AstNode): (r: Option<AstList>)
    ensures r.Some? <==> n.List?
    ensures r.Some? ==> n == List(r.value)
  {
    if n.List? then Some(n.list) else None
  }

  function AsProperList(n: AstNode): (r: Option<seq<AstNode>>)
    ensures r.Some? <==> n.List? && IsProperList(n.list)
    ensures r.Some? ==> n == List(AstList(r.value, Proper))
  {
    match AsList(n)
    case None => None
    case Some(l) => if IsProperList(l) then Some(AsNodes(l)) else None
  }

  function AsSymbol(n: AstNode): (r: Option<AstSymbol>)
    ensures r.Some? <==> n.NonList? && n.leaf.Symbol?
    ensures r.Some? ==> n == NonList(Symbol(r.value))
  {
    if n.NonList? && n.leaf.Symbol? then Some(n.leaf.symbol) else None
  }

  /** `into_symbol`: the symbol, or the node itself back. */
  function IntoSymbol(n: AstNode): (r: Result<AstSymbol, AstNode>)
    ensures r.Err? ==> r.error == n
    ensures r.Ok? <==> AsSymbol(n).Some?
    ensures r.Ok? ==> n == NonList(Symbol(r.value))
  {
    match n
    case NonList(Symbol(sym)) => Ok(sym)
    case _ => Err(n)
  }

  /** `into_list`: the list, or the node itself back. */
  function IntoList(n: AstNode): (r: Result<AstList, AstNode>)
    ensures r.Err? ==> r.error == n
    ensures r.Ok? <==> n.List?
    ensures r.Ok? ==> n == List(r.value)
  {
    match n
    case List(l) => Ok(l)
    case _ => Err(n)
  }

  /** `into_proper_list`: the nodes of a proper list, or the node itself back. */
  function IntoProperList(n: AstNode): (r: Result<seq<AstNode>, AstNode>)
    ensures r.Err? ==> r.error == n
    ensures r.Ok? <==> AsProperList(n).Some?
    ensures r.Ok? ==> n == List(AstList(r.value, Proper))
  {
    match IntoList(n)
    case Err(e) => Err(e)
    case Ok(l) => if !IsProperList(l) then Err(List(l)) else Ok(IntoInner(l).0)
  }

  /** `AstNode::is_improper_list` */
  predicate NodeIsImproperList(n: AstNode)
    ensures NodeIsImproperList(n) <==> n.List? && !IsProperList(n.list)
  {
    match AsList(n)
    case Some(l) => IsImproperList(l)
    case None => false
  }

  /** `AstNode::get_name`: the kind of a node, for messages. */
  function KindName(n: AstNode): (name: string)
    ensures name == "improper list" <==> NodeIsImproperList(n)
    ensures name == "proper list" <==> AsProperList(n).Some?
    ensures name == "symbol" <==> AsSymbol(n).Some?
  {
    match n
    case NonList(Number(_)) => "number"
    case NonList(Symbol(_)) => "symbol"
    case NonList(String(_)) => "string"
    case List(l) => if IsImproperList(l) then "improper list" else "proper list"
    case NonList(Bool(_)) => "boolean"
  }

  // ----- reification -----

  /** The names a node's symbols are interned under when it is reified. */
  function Names(n: AstNode): set<string>
    decreases n
  {
    match n
    case NonList(x) => LeafNames(x)
    case List(l) => NamesOfSeq(l.nodes) + TailNames(l.listType)
  }

  function LeafNames(x: NonList): set<string> {
    if x.Symbol? then {SymbolName(x.symbol)} else {}
  }

  function TailNames(t: ListType): set<string> {
    if t.Improper? then LeafNames(t.leaf) else {}
  }

  function NamesOfSeq(ns: seq<AstNode>): (names: set<string>)
    ensures forall j :: 0 <= j < |ns| ==> Names(ns[j]) <= names
    decreases ns
  {
    if ns == [] then {} else NamesOfSeq(ns[..|ns| - 1]) + Names(ns[|ns| - 1])
  }

  /** The datum of a leaf, with symbols looked up by name in the interning table `m`. */
  function LeafDatum(x: NonList, m: map<string, T.SchemeObject>): (d: T.SchemeType)
    requires LeafNames(x) <= m.Keys
    ensures x.Number? ==> d == T.Number(x.value)
    ensures x.Symbol? ==> d == T.Object(m[SymbolName(x.symbol)])
    ensures x.String? ==> d == T.String(x.text)
    ensures x.Bool? ==> d == T.FromBool(x.truth) && T.ToBool(d) == x.truth
  {
    match x
    case Number(v) => T.Number(v)
    case Symbol(sym) => T.Object(m[SymbolName(sym)])
    case String(text) => T.String(text)
    case Bool(b) => T.FromBool(b)
  }

  /** `ListType::to_datum`: the empty list, or the datum of the tail leaf. */
  function TailDatum(t: ListType, m: map<string, T.SchemeObject>): (d: T.SchemeType)
    requires TailNames(t) <= m.Keys
    ensures t.Proper? ==> d == T.Object(T.EmptyList)
    ensures t.Improper? ==> d == LeafDatum(t.leaf, m)
  {
    match t
    case Proper => T.Object(T.EmptyList)
    case Improper(x) => LeafDatum(x, m)
  }

  /**
   * What `to_datum` produces for `n` once every name it uses is interned in `m`. A
   * list with nodes becomes a pair and the empty list the empty-list object;
   * `ReifyList` reads the whole chain back.
   */
  function Reify(n: AstNode, m: map<string, T.SchemeObject>): (d: T.SchemeType)
    requires Names(n) <= m.Keys
    ensures n.List? && n.list.nodes != [] ==> d.Object? && d.obj.Pair?
    ensures n == List(Empty()) ==> d == T.Object(T.EmptyList)
    decreases n
  {
    match n
    case NonList(x) => LeafDatum(x, m)
    case List(l) => T.ListOf(ReifySeq(l.nodes, m), TailDatum(l.listType, m))
  }

  function ReifySeq(ns: seq<AstNode>, m: map<string, T.SchemeObject>): (r: seq<T.SchemeType>)
    requires NamesOfSeq(ns) <= m.Keys
    ensures |r| == |ns|
    ensures forall j :: 0 <= j < |ns| ==> Names(ns[j]) <= m.Keys && r[j] == Reify(ns[j], m)
    decreases ns
  {
    if ns == [] then [] else ReifySeq(ns[..|ns| - 1], m) + [Reify(ns[|ns| - 1], m)]
  }

  /** `m2` keeps every entry of `m1`. */
  ghost predicate Extends(m1: map<string, T.SchemeObject>, m2: map<string, T.SchemeObject>) {
    forall k :: k in m1 ==> k in m2 && m2[k] == m1[k]
  }

  /** Interning more names does not change the datum of a node whose names were interned. */
  lemma {:induction false} ReifyMono(n: AstNode, m1: map<string, T.SchemeObject>, m2: map<string, T.SchemeObject>)
    requires Names(n) <= m1.Keys && Extends(m1, m2)
    ensures Names(n) <= m2.Keys && Reify(n, m1) == Reify(n, m2)
    decreases n
  {
    match n
    case NonList(x) =>
    case List(l) => ReifySeqMono(l.nodes, m1, m2);
  }

  lemma {:induction false} ReifySeqMono(ns: seq<AstNode>, m1: map<string, T.SchemeObject>, m2: map<string, T.SchemeObject>)
    requires NamesOfSeq(ns) <= m1.Keys && Extends(m1, m2)
    ensures NamesOfSeq(ns) <= m2.Keys && ReifySeq(ns, m1) == ReifySeq(ns, m2)
    decreases ns
  {
    if ns != [] {
      ReifySeqMono(ns[..|ns| - 1], m1, m2);
      ReifyMono(ns[|ns| - 1], m1, m2);
    }
  }

  /**
   * A list reifies to a chain of pairs holding its nodes' data in order, ending in the
   * empty list when it is proper and in its tail leaf's datum when it is improper.
   */
  lemma ReifyList(l: AstList, m: map<string, T.SchemeObject>)
    requires Names(List(l)) <= m.Keys
    ensures var chain := T.Unchain(Reify(List(l), m), |l.nodes|);
      && chain.Some?
      && |chain.value.0| == |l.nodes|
      && (forall j :: 0 <= j < |l.nodes| ==> Names(l.nodes[j]) <= m.Keys && chain.value.0[j] == Reify(l.nodes[j], m))
      && (l.listType.Proper? ==> chain.value.1 == T.Object(T.EmptyList))
      && (l.listType.Improper? ==> chain.value.1 == LeafDatum(l.listType.leaf, m))
  {
    T.UnchainListOf(ReifySeq(l.nodes, m), TailDatum(l.listType, m));
  }

  /**
   * A temporary reifies to the same interned symbol as the user symbol spelled like
   * its name, although the two symbols differ.
   */
  lemma TempReifiesLikeUserSymbol(id: u64, m: map<string, T.SchemeObject>)
    requires SymbolName(Temp(id)) in m
    ensures var t := Temp(id); var d := NewSymbol(SymbolName(t));
      t != d && Reify(FromSymbol(t), m) == Reify(FromSymbol(d), m)
  {
  }

  /** The datum of a leaf, interning its symbol's name in `table`. */
  method LeafToDatum(x: NonList, table: T.SymbolTable) returns (d: T.SchemeType)
    requires table.Valid()
    modifies table
    ensures table.Valid()
    ensures Extends(old(table.symbols), table.symbols)
    ensures table.symbols.Keys == old(table.symbols).Keys + LeafNames(x)
    ensures d == LeafDatum(x, table.symbols)
  {
    match x
    case Number(v) =>
      d := T.Number(v);
    case Symbol(sym) =>
      var obj := table.NewSymbol(SymbolName(sym));
      d := T.Object(obj);
    case String(text) =>
      d := T.String(text);
    case Bool(b) =>
      d := T.FromBool(b);
  }

  /**
   * `to_datum`: reify `node`, interning its symbols' names in `table` on the way. The
   * table gains exactly the node's names and keeps its old entries.
   */
  method ToDatum(node: AstNode, table: T.SymbolTable) returns (d: T.SchemeType)
    requires table.Valid()
    modifies table
    ensures table.Valid()
    ensures Extends(old(table.symbols), table.symbols)
    ensures table.symbols.Keys == old(table.symbols).Keys + Names(node)
    ensures d == Reify(node, table.symbols)
    decreases node, 1
  {
    match node
    case NonList(x) =>
      d := LeafToDatum(x, table);
    case List(l) =>
      d := ListToDatum(l, table);
  }

  /**
   * The list case of `to_datum`: push each node's datum in order, then build the
   * chain on the tail's datum.
   */
  method ListToDatum(l: AstList, table: T.SymbolTable) returns (d: T.SchemeType)
    requires table.Valid()
    modifies table
    ensures table.Valid()
    ensures Extends(old(table.symbols), table.symbols)
    ensures table.symbols.Keys == old(table.symbols).Keys + Names(List(l))
    ensures d == Reify(List(l), table.symbols)
    decreases List(l), 0
  {
    var items: seq<T.SchemeType> := [];
    for i := 0 to |l.nodes|
      invariant table.Valid()
      invariant Extends(old(table.symbols), table.symbols)
      invariant table.symbols.Keys == old(table.symbols).Keys + NamesOfSeq(l.nodes[..i])
      invariant items == ReifySeq(l.nodes[..i], table.symbols)
    {
      ghost var before := table.symbols;
      var item := ToDatum(l.nodes[i], table);
      ReifySeqMono(l.nodes[..i], before, table.symbols);
      assert l.nodes[..i + 1][..i] == l.nodes[..i];
      items := items + [item];
    }
    assert l.nodes[..|l.nodes|] == l.nodes;
    ghost var before := table.symbols;
    var tail := TailToDatum(l.listType, table);
    ReifySeqMono(l.nodes, before, table.symbols);
    d := T.ListOf(items, tail);
  }

  /** `ListType::to_datum` as run: the empty list, or the tail leaf's datum. */
  method TailToDatum(t: ListType, table: T.SymbolTable) returns (d: T.SchemeType)
    requires table.Valid()
    modifies table
    ensures table.Valid()
    ensures Extends(old(table.symbols), table.symbols)
    ensures table.symbols.Keys == old(table.symbols).Keys + TailNames(t)
    ensures d == TailDatum(t, table.symbols)
  {
    match t
    case Proper =>
      d := T.Object(T.EmptyList);
    case Improper(x) =>
      d := LeafToDatum(x, table);
  }
}
