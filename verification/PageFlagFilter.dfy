/** The page flag filters: the text of a filter is compiled into a mask and bits, and flag words are
    tested against them. */
module PageFlagFilter {
  import opened Wrappers

  /** A 64-bit flag word, as the set of its bits. */
  type Bits = set<nat>

  predicate IsBit(b: nat) {
    b < 64
  }

  /** KPF_ALL_BITS. */
  function AllBits(): (r: Bits)
    ensures forall b: nat :: b in r <==> IsBit(b)
  {
    set b: nat | b < 64 && IsBit(b)
  }

  const COMPOUND_HEAD: nat := 15
  const COMPOUND_TAIL: nat := 16

  /** The flag names by bit, without their one-letter prefixes, and parse_number, which ends the program
      (None) on what is not a number. */
  datatype Table = Table(names: seq<Option<string>>, number: string -> Option<Bits>)

  // ---------- one name ----------

  /** strncmp(str, name, |t|) == 0, where str begins with t. */
  predicate Abbreviates(t: string, name: string) {
    |t| <= |name| && name[..|t|] == t
  }

  predicate Names(t: string, name: Option<string>) {
    name.Some? && Abbreviates(t, name.value)
  }

  function FirstNamed(names: seq<Option<string>>, t: string, i: nat): (r: nat)
    requires i <= |names|
    ensures i <= r <= |names| && (r < |names| ==> Names(t, names[r]))
    ensures forall j | i <= j < r :: !Names(t, names[j])
    decreases |names| - i
  {
    if i == |names| || Names(t, names[i]) then i else FirstNamed(names, t, i + 1)
  }

  /** The bits meant by the name t, where str is the text from the name on. */
  function FlagName(table: Table, t: string, str: string): Option<Bits> {
    if t == "" then Some({})
    else if Abbreviates(t, "compound") then Some({COMPOUND_HEAD, COMPOUND_TAIL})
    else
      var i := FirstNamed(table.names, t, 0);
      if i < |table.names| then Some({i}) else table.number(str)
  }

  /** A name means the first flag whose name it abbreviates; the text is read as a number only if it
      abbreviates none. */
  lemma {:induction false} FlagNameExact(table: Table, t: string, str: string, i: nat)
    requires t != "" && !Abbreviates(t, "compound") && i <= |table.names|
    requires forall j | 0 <= j < i :: !Names(t, table.names[j])
    ensures i < |table.names| && Names(t, table.names[i]) ==> FlagName(table, t, str) == Some({i})
    ensures i == |table.names| ==> FlagName(table, t, str) == table.number(str)
  {
    var r := FirstNamed(table.names, t, 0);
    assert i <= r;
  }

  /** parse_flag_name. */
  method ParseFlagName(table: Table, str: string, len: nat) returns (r: Option<Bits>)
    requires len <= |str|
    ensures r == FlagName(table, str[..len], str)
    ensures len == 0 ==> r == Some({})
    ensures 0 < len <= 8 && str[..len] == "compound"[..len] ==> r == Some({15, 16})
  {
    if |str| == 0 || len == 0 {
      return Some({});
    }
    var t := str[..len];
    if len <= 8 && Abbreviates(t, "compound") {
      return Some({COMPOUND_HEAD, COMPOUND_TAIL});
    }
    for i := 0 to |table.names|
      invariant FirstNamed(table.names, t, 0) == FirstNamed(table.names, t, i)
    {
      if table.names[i].Some? && Abbreviates(t, table.names[i].value) {
        return Some({i});
      }
    }
    r := table.number(str);
  }

  // ---------- a list of names ----------

  /** The end of the name at i. */
  function End(s: string, i: nat): (e: nat)
    requires i <= |s|
    ensures i <= e <= |s| && (e < |s| ==> s[e] == ',' || s[e] == '=')
    ensures forall j | i <= j < e :: s[j] != ',' && s[j] != '='
    decreases |s| - i
  {
    if i == |s| || s[i] == ',' || s[i] == '=' then i else End(s, i + 1)
  }

  /** A name in a list, with the text from it on, and whether it is negated. */
  datatype Item = Item(negated: bool, name: string, str: string)

  function ItemAt(s: string, i: nat): Item
    requires i <= |s|
  {
    var e := End(s, i);
    if i < e && s[i] == '~' then Item(true, s[i + 1..e], s[i + 1..]) else Item(false, s[i..e], s[i..])
  }

  /** The comma-separated items from position i, up to an equals sign or the end. */
  function Items(s: string, i: nat): seq<Item>
    requires i <= |s|
    decreases |s| - i, 1
  {
    [ItemAt(s, i)] + Following(s, End(s, i))
  }

  /** The items after the one that ends at e. */
  function Following(s: string, e: nat): seq<Item>
    requires e <= |s|
    decreases |s| - e, 0
  {
    if e < |s| && s[e] == ',' then Items(s, e + 1) else []
  }

  /** The characters from a to b stand between commas or the ends of the list that starts at i, and no equals
      sign ends the list before them. */
  ghost predicate Stands(s: string, i: nat, a: nat, b: nat) {
    && i <= a <= b <= |s| && (a == i || s[a - 1] == ',') && (b == |s| || s[b] == ',' || s[b] == '=')
    && (forall j | i <= j < a :: s[j] != '=') && (forall j | a <= j < b :: s[j] != ',' && s[j] != '=')
  }

  /** They are read as x: the name behind a first ~, or all of them. */
  ghost predicate ReadAs(s: string, a: nat, b: nat, x: Item)
    requires a <= b <= |s|
  {
    if a < b && s[a] == '~' then x == Item(true, s[a + 1..b], s[a + 1..]) else x == Item(false, s[a..b], s[a..])
  }

  ghost predicate IsItem(s: string, i: nat, a: nat, b: nat, x: Item) {
    Stands(s, i, a, b) && ReadAs(s, a, b, x)
  }

  /** The items are exactly what stands in the list. */
  lemma {:induction false} ItemsExact(s: string, i: nat, x: Item)
    requires i <= |s|
    ensures x in Items(s, i) <==> exists a: nat, b: nat :: IsItem(s, i, a, b, x)
  {
    if x in Items(s, i) {
      var a, b := ItemPlace(s, i, x);
    }
    if a: nat, b: nat :| IsItem(s, i, a, b, x) {
      ItemListed(s, i, a, b, x);
    }
  }

  lemma {:induction false} ItemPlace(s: string, i: nat, x: Item) returns (a: nat, b: nat)
    requires i <= |s| && x in Items(s, i)
    ensures IsItem(s, i, a, b, x)
    decreases |s| - i
  {
    var e := End(s, i);
    if x == ItemAt(s, i) {
      a, b := i, e;
    } else {
      assert x in Following(s, e);
      a, b := ItemPlace(s, e + 1, x);
      StandsOn(s, i, a, b);
    }
  }

  lemma {:induction false} StandsOn(s: string, i: nat, a: nat, b: nat)
    requires i <= |s| && End(s, i) < |s| && s[End(s, i)] == ',' && Stands(s, End(s, i) + 1, a, b)
    ensures Stands(s, i, a, b)
  {
  }

  lemma {:induction false} StandsBehind(s: string, i: nat, a: nat, b: nat)
    requires Stands(s, i, a, b)
    ensures a == i ==> b == End(s, i)
    ensures i < a ==> End(s, i) < a && s[End(s, i)] == ',' && Stands(s, End(s, i) + 1, a, b)
  {
    var e := End(s, i);
    if i < a {
      assert s[a - 1] == ',';
      assert e < a;
    }
  }

  lemma {:induction false} ItemListed(s: string, i: nat, a: nat, b: nat, x: Item)
    requires IsItem(s, i, a, b, x)
    ensures x in Items(s, i)
    decreases |s| - i
  {
    StandsBehind(s, i, a, b);
    if i < a {
      ItemListed(s, End(s, i) + 1, a, b, x);
      assert x in Following(s, End(s, i));
    } else {
      assert x == ItemAt(s, i);
    }
  }

  function Union(a: Option<Bits>, b: Option<Bits>): Option<Bits> {
    if a.Some? && b.Some? then Some(a.value + b.value) else None
  }

  function ItemBits(table: Table, x: Item, all: bool): Option<Bits> {
    if x.negated && !all then Some({}) else FlagName(table, x.name, x.str)
  }

  /** The bits of the items that are not negated, together with the negated ones if all. */
  function Collect(table: Table, items: seq<Item>, all: bool): Option<Bits> {
    if items == [] then Some({}) else Union(ItemBits(table, items[0], all), Collect(table, items[1..], all))
  }

  lemma {:induction false} UnionAssoc(a: Bits, b: Bits, c: Option<Bits>)
    ensures Union(Some(a + b), c) == Union(Some(a), Union(Some(b), c))
  {
    if c.Some? {
      assert a + b + c.value == a + (b + c.value);
    }
  }

  lemma {:induction false} UnionNothing(a: Option<Bits>)
    ensures Union(a, Some({})) == a && Union(Some({}), a) == a
  {
    if a.Some? {
      assert a.value + {} == a.value && {} + a.value == a.value;
    }
  }

  function Flags(table: Table, s: string, i: nat, all: bool): Option<Bits>
    requires i <= |s|
  {
    Collect(table, Items(s, i), all)
  }

  lemma {:induction false} CollectCons(table: Table, x: Item, rest: seq<Item>, all: bool)
    ensures Collect(table, [x] + rest, all) == Union(ItemBits(table, x, all), Collect(table, rest, all))
  {
    assert ([x] + rest)[1..] == rest;
  }

  lemma {:induction false} FlagsStep(table: Table, s: string, i: nat, all: bool)
    requires i <= |s|
    ensures var e := End(s, i);
            Flags(table, s, i, all) ==
            Union(ItemBits(table, ItemAt(s, i), all),
                  if e < |s| && s[e] == ',' then Flags(table, s, e + 1, all) else Some({}))
  {
    CollectCons(table, ItemAt(s, i), Following(s, End(s, i)), all);
  }

  /** The flags so far and the item that ends at p, against what is still to come. */
  lemma {:induction false} ItemDone(table: Table, s: string, str: nat, flags: Bits, all: bool)
    requires str <= |s|
    ensures var p, f := End(s, str), ItemBits(table, ItemAt(s, str), all);
            Union(Some(flags), Flags(table, s, str, all)) ==
            if f.None? then None
            else if p < |s| && s[p] == ',' then Union(Some(flags + f.value), Flags(table, s, p + 1, all))
            else Some(flags + f.value)
  {
    var p, f := End(s, str), ItemBits(table, ItemAt(s, str), all);
    FlagsStep(table, s, str, all);
    if f.Some? {
      if p < |s| && s[p] == ',' {
        UnionAssoc(flags, f.value, Flags(table, s, p + 1, all));
      } else {
        UnionNothing(f);
      }
    }
  }

  /** The loop is at p, in the item that starts at str, and flags and what is to come make up the goal. */
  ghost predicate Scanning(table: Table, s: string, str: nat, p: nat, all: bool, flags: Bits, goal: Option<Bits>) {
    && str <= p <= |s| && End(s, str) == End(s, p)
    && goal == Union(Some(flags), Flags(table, s, str, all))
  }

  predicate AtEnd(s: string, p: nat) {
    p >= |s| || s[p] == ',' || s[p] == '='
  }

  lemma {:induction false} ScanOn(table: Table, s: string, str: nat, p: nat, all: bool, flags: Bits, goal: Option<Bits>)
    requires Scanning(table, s, str, p, all, flags, goal) && !AtEnd(s, p)
    ensures Scanning(table, s, str, p + 1, all, flags, goal)
  {
  }

  /** parse_flag_names, from position start. */
  method ParseFlagNames(table: Table, s: string, start: nat, all: bool) returns (r: Option<Bits>)
    requires start <= |s|
    ensures r == Flags(table, s, start, all)
  {
    var str: nat, p: nat := start, start;
    var flags: Bits := {};
    ghost var goal := Flags(table, s, start, all);
    UnionNothing(goal);
    while true
      invariant Scanning(table, s, str, p, all, flags, goal)
      decreases |s| - p
    {
      if p == |s| || s[p] == ',' || s[p] == '=' {
        var done;
        r, done := EndOfItem(table, s, str, p, flags, all, goal);
        if done {
          return;
        }
        flags := r.value;
        str := p + 1;
      } else {
        ScanOn(table, s, str, p, all, flags, goal);
      }
      p := p + 1;
    }
  }

  /** The body of the loop at the end p of an item: the list may be over, or not be parsable. */
  method EndOfItem(table: Table, s: string, str: nat, p: nat, flags: Bits, all: bool, ghost goal: Option<Bits>)
    returns (r: Option<Bits>, done: bool)
    requires Scanning(table, s, str, p, all, flags, goal) && AtEnd(s, p)
    ensures if done then r == goal else r.Some? && Scanning(table, s, p + 1, p + 1, all, r.value, goal)
  {
    var f := ParseItem(table, s, str, p, all);
    ItemDone(table, s, str, flags, all);
    if f.None? {
      return None, true;
    }
    r := Some(flags + f.value);
    done := p == |s| || s[p] != ',';
  }

  /** What the loop does at the end p of an item that starts at str. */
  method ParseItem(table: Table, s: string, str: nat, p: nat, all: bool) returns (f: Option<Bits>)
    requires str <= p <= |s| && p == End(s, str)
    ensures f == ItemBits(table, ItemAt(s, str), all)
  {
    f := Some({});
    if str == |s| || s[str] != '~' {
      f := ParseFlagName(table, s[str..], p - str);
      assert s[str..][..p - str] == s[str..p];
    } else if all && str + 1 < |s| {
      f := ParseFlagName(table, s[str + 1..], p - str - 1);
      assert s[str + 1..][..p - str - 1] == s[str + 1..p];
    }
  }

  // ---------- filters ----------

  datatype Filter = Filter(mask: Bits, bits: Bits)

  function Find(s: string, c: char, i: nat): (r: nat)
    requires i <= |s|
    ensures i <= r <= |s| && (r < |s| ==> s[r] == c) && forall j | i <= j < r :: s[j] != c
    decreases |s| - i
  {
    if i == |s| || s[i] == c then i else Find(s, c, i + 1)
  }

  lemma {:induction false} FindIff(s: string, c: char)
    ensures Find(s, c, 0) < |s| <==> c in s
    ensures s != "" ==> (Find(s, c, 0) == 0 <==> s[0] == c)
  {
  }

  /** parse_bits_mask. */
  method ParseBitsMask(table: Table, s: string) returns (r: Option<Filter>)
    ensures r == Compile(table, s)
  {
    FindIff(s, '=');
    FindIff(s, '~');
    var p := Find(s, '=', 0);
    var mask, bits: Option<Bits>;
    if p < |s| && p == 0 {
      mask := Some(AllBits());
      bits := ParseFlagNames(table, s, p + 1, false);
    } else if p < |s| {
      mask := ParseFlagNames(table, s, 0, false);
      bits := ParseFlagNames(table, s, p + 1, false);
    } else if Find(s, '~', 0) < |s| {
      mask := ParseFlagNames(table, s, 0, true);
      bits := ParseFlagNames(table, s, 0, false);
    } else {
      mask := ParseFlagNames(table, s, 0, false);
      bits := Some(AllBits());
    }
    r := if mask.Some? && bits.Some? then Some(Filter(mask.value, bits.value)) else None;
  }

  function Both(mask: Option<Bits>, bits: Option<Bits>): Option<Filter> {
    if mask.Some? && bits.Some? then Some(Filter(mask.value, bits.value)) else None
  }

  function Compile(table: Table, s: string): Option<Filter> {
    if s != "" && s[0] == '=' then Both(Some(AllBits()), Flags(table, s, 1, false))
    else if '=' in s then Both(Flags(table, s, 0, false), Flags(table, s, Find(s, '=', 0) + 1, false))
    else if '~' in s then Both(Flags(table, s, 0, true), Flags(table, s, 0, false))
    else Both(Flags(table, s, 0, false), Some(AllBits()))
  }

  /** bit_mask_ok for one filter. */
  predicate Accepts(f: Filter, flags: Bits) {
    if f.bits == AllBits() then flags * f.mask != {} else flags * f.mask == f.bits
  }

  /** The filters in use: never more than one. */
  class Filters {
    var filters: seq<Filter>

    ghost predicate Valid()
      reads this
    {
      |filters| <= 1
    }

    /** The words that get through. */
    ghost predicate Passes(flags: Bits)
      reads this
    {
      forall i | 0 <= i < |filters| :: Accepts(filters[i], flags)
    }

    constructor ()
      ensures Valid() && filters == [] && forall flags :: Passes(flags)
    {
      filters := [];
    }

    /** add_bits_filter: false where the source gives up. */
    method Add(f: Filter) returns (ok: bool)
      requires Valid()
      modifies this
      ensures Valid() && (ok <==> old(filters) == [])
      ensures filters == if ok then [f] else old(filters)
    {
      ok := |filters| < 1;
      if ok {
        filters := filters + [f];
      }
    }

    /** A filter given by its text: the first one decides alone which words get through; a second one, or
        one that does not parse, is refused. */
    method AddText(table: Table, s: string) returns (ok: bool)
      requires Valid()
      modifies this
      ensures Valid() && (ok <==> old(filters) == [] && Compile(table, s).Some?)
      ensures ok ==> forall flags :: Passes(flags) <==> Accepts(Compile(table, s).value, flags)
      ensures !ok ==> filters == old(filters)
    {
      var f := ParseBitsMask(table, s);
      if f.None? {
        return false;
      }
      ok := Add(f.value);
      assert ok ==> filters[0] == f.value;
    }

    method BitMaskOk(flags: Bits) returns (ok: bool)
      ensures ok <==> Passes(flags)
    {
      for i := 0 to |filters|
        invariant forall j | 0 <= j < i :: Accepts(filters[j], flags)
      {
        if filters[i].bits == AllBits() {
          if flags * filters[i].mask == {} {
            return false;
          }
        } else if flags * filters[i].mask != filters[i].bits {
          return false;
        }
      }
      ok := true;
    }
  }

  // ---------- what a filter means ----------

  /** Some item, negated or not, means the bit. */
  ghost predicate Mentions(table: Table, items: seq<Item>, negated: bool, b: nat) {
    exists x | x in items ::
      x.negated == negated && FlagName(table, x.name, x.str).Some? && b in FlagName(table, x.name, x.str).value
  }

  lemma {:induction false} MentionsHead(table: Table, items: seq<Item>, negated: bool, b: nat)
    requires items != []
    ensures Mentions(table, items, negated, b) <==>
            Mentions(table, [items[0]], negated, b) || Mentions(table, items[1..], negated, b)
  {
    assert items == [items[0]] + items[1..];
  }

  /** The bits collected are those that the items mean. */
  lemma {:induction false} CollectExact(table: Table, items: seq<Item>, all: bool, b: nat)
    requires Collect(table, items, all).Some?
    ensures b in Collect(table, items, all).value <==>
            Mentions(table, items, false, b) || (all && Mentions(table, items, true, b))
  {
    if items != [] {
      CollectExact(table, items[1..], all, b);
      MentionsHead(table, items, false, b);
      MentionsHead(table, items, true, b);
      assert items[0] in [items[0]];
    }
  }

  /** A plain list accepts the words with at least one of the flags. */
  lemma {:induction false} PlainListMeansAny(table: Table, s: string, flags: Bits)
    requires '=' !in s && '~' !in s && Compile(table, s).Some?
    ensures Accepts(Compile(table, s).value, flags) <==> exists b | b in flags :: Mentions(table, Items(s, 0), false, b)
  {
    var mask := Compile(table, s).value.mask;
    forall b: nat ensures b in mask <==> Mentions(table, Items(s, 0), false, b) {
      CollectExact(table, Items(s, 0), false, b);
    }
    if flags * mask != {} {
      var b :| b in flags * mask;
      assert Mentions(table, Items(s, 0), false, b);
    }
    if b :| b in flags && Mentions(table, Items(s, 0), false, b) {
      assert b in flags * mask;
    }
  }

  /** The positive flags are all set and the negated ones all clear. */
  ghost predicate Obeys(table: Table, items: seq<Item>, flags: Bits) {
    && (forall b: nat | Mentions(table, items, false, b) :: b in flags)
    && (forall b: nat | Mentions(table, items, true, b) :: b !in flags)
  }

  ghost predicate Consistent(table: Table, items: seq<Item>) {
    forall b: nat | Mentions(table, items, false, b) :: !Mentions(table, items, true, b)
  }

  /** The positive flags are all 64. */
  ghost predicate MentionsAll(table: Table, items: seq<Item>) {
    forall b: nat :: Mentions(table, items, false, b) <==> IsBit(b)
  }

  /** The compiled filter of a list with negated flags. */
  lemma {:induction false} NegatedListCompiles(table: Table, s: string)
    requires '=' !in s && '~' in s && Compile(table, s).Some?
    ensures var f := Compile(table, s).value;
            forall b: nat ::
              && (b in f.bits <==> Mentions(table, Items(s, 0), false, b))
              && (b in f.mask <==> b in f.bits || Mentions(table, Items(s, 0), true, b))
  {
    var items, f := Items(s, 0), Compile(table, s).value;
    forall b: nat
      ensures b in f.bits <==> Mentions(table, items, false, b)
      ensures b in f.mask <==> b in f.bits || Mentions(table, items, true, b)
    {
      CollectExact(table, items, false, b);
      CollectExact(table, items, true, b);
    }
  }

  lemma {:induction false} NegatedListMeansAll(table: Table, s: string, flags: Bits)
    requires '=' !in s && '~' in s && Compile(table, s).Some? && Compile(table, s).value.bits != AllBits()
    requires Consistent(table, Items(s, 0))
    ensures Accepts(Compile(table, s).value, flags) <==> Obeys(table, Items(s, 0), flags)
  {
    var items, f := Items(s, 0), Compile(table, s).value;
    NegatedListCompiles(table, s);
    if Obeys(table, items, flags) {
      assert flags * f.mask == f.bits;
    }
    if flags * f.mask == f.bits {
      forall b: nat | Mentions(table, items, false, b) ensures b in flags {
        assert b in flags * f.mask;
      }
      forall b: nat | Mentions(table, items, true, b) ensures b !in flags {
        assert b in flags <==> b in flags * f.mask;
      }
    }
  }

  /** A list with negated flags accepts exactly the words that obey it, provided that no flag is given
      both ways and the positive flags are not all 64: a matter of the text alone. */
  lemma {:induction false} NegatedListMeansAllIff(table: Table, s: string)
    requires '=' !in s && '~' in s && Compile(table, s).Some?
    ensures (forall flags: Bits :: Accepts(Compile(table, s).value, flags) <==> Obeys(table, Items(s, 0), flags))
            <==> Consistent(table, Items(s, 0)) && !MentionsAll(table, Items(s, 0))
  {
    var items, f := Items(s, 0), Compile(table, s).value;
    NegatedListCompiles(table, s);
    assert f.bits == AllBits() <==> MentionsAll(table, items);
    if f.bits == AllBits() {
      assert IsBit(0) && IsBit(1) && 0 in {0} * f.mask && 1 in f.bits;
      assert Accepts(f, {0}) && !Obeys(table, items, {0});
    } else if !Consistent(table, items) {
      assert f.bits * f.mask == f.bits;
      assert Accepts(f, f.bits) && !Obeys(table, items, f.bits);
    } else {
      forall flags: Bits ensures Accepts(f, flags) <==> Obeys(table, items, flags) {
        NegatedListMeansAll(table, s, flags);
      }
    }
  }

  /** The two sides of an equals sign; nothing on the left stands for every bit. */
  function LeftSide(table: Table, s: string): Option<Bits>
    requires '=' in s
  {
    if s[0] == '=' then Some(AllBits()) else Flags(table, s, 0, false)
  }

  function RightSide(table: Table, s: string): Option<Bits>
    requires '=' in s
  {
    Flags(table, s, Find(s, '=', 0) + 1, false)
  }

  /** mask=bits accepts exactly the words that agree with bits on the mask, except when the bits are all
      64: then it does so only if the mask is empty. */
  lemma {:induction false} EqualsMeansExactIff(table: Table, s: string)
    requires '=' in s && Compile(table, s).Some?
    ensures LeftSide(table, s).Some? && RightSide(table, s).Some?
    ensures (forall flags: Bits | flags <= AllBits() ::
               Accepts(Compile(table, s).value, flags) <==> flags * LeftSide(table, s).value == RightSide(table, s).value)
            <==> RightSide(table, s).value != AllBits() || LeftSide(table, s).value * AllBits() == {}
  {
    var f := Compile(table, s).value;
    assert f.mask == LeftSide(table, s).value && f.bits == RightSide(table, s).value;
    if f.bits == AllBits() {
      if b :| b in f.mask * AllBits() {
        AnyOne(f, b);
      } else {
        forall flags: Bits | flags <= AllBits() ensures Accepts(f, flags) <==> flags * f.mask == f.bits {
          assert flags * f.mask <= f.mask * AllBits();
          assert IsBit(0);
        }
      }
    }
  }

  lemma {:induction false} AnyOne(f: Filter, b: nat)
    requires f.bits == AllBits() && b in f.mask * AllBits()
    ensures {b} <= AllBits() && Accepts(f, {b}) && {b} * f.mask != f.bits
  {
    assert b in {b} * f.mask;
    var c := if b == 0 then 1 else 0;
    assert IsBit(c) && c in AllBits() && c !in {b} * f.mask;
  }

  // ---------- texts on which the filter language fails ----------

  /** A table whose first flag can be abbreviated to x, and whose numbers give 9 as all 64 bits. */
  ghost predicate HasExample(table: Table) {
    && table.names != [] && Names("x", table.names[0]) && table.number("9") == Some(AllBits())
    && forall i | 0 <= i < |table.names| :: !Names("9", table.names[i])
  }

  lemma {:induction false} FlagX(table: Table, str: string)
    requires HasExample(table)
    ensures FlagName(table, "x", str) == Some({0})
  {
    assert !Abbreviates("x", "compound") by {
      assert "compound"[..1][0] == 'c';
    }
    FlagNameExact(table, "x", str, 0);
  }

  lemma {:induction false} Flag9(table: Table)
    requires HasExample(table)
    ensures FlagName(table, "9", "9") == Some(AllBits())
  {
    assert !Abbreviates("9", "compound") by {
      assert "compound"[..1][0] == 'c';
    }
    FlagNameExact(table, "9", "9", |table.names|);
  }

  /** A flag given both ways: the word of just that flag is accepted, although the list demands it clear. */
  lemma {:induction false} BothWaysAccepted(table: Table)
    requires HasExample(table)
    ensures var s := "x,~x";
            && Compile(table, s) == Some(Filter({0}, {0})) && !Consistent(table, Items(s, 0))
            && Accepts(Compile(table, s).value, {0}) && !Obeys(table, Items(s, 0), {0})
  {
    var s := "x,~x";
    assert End(s, 0) == 1 && End(s, 2) == 4;
    assert s[0..1] == "x" && s[3..4] == "x" && s[0..] == s && s[3..] == "x";
    var plus, minus := Item(false, "x", s), Item(true, "x", "x");
    assert ItemAt(s, 0) == plus && ItemAt(s, 2) == minus;
    assert Following(s, 4) == [] && Items(s, 2) == [minus] && Items(s, 0) == [plus, minus];
    FlagX(table, s);
    FlagX(table, "x");
    CollectTwo(table, plus, minus);
    assert s[0] != '=' && '=' !in s && s[2] == '~';
    assert plus in Items(s, 0) && minus in Items(s, 0);
    assert Mentions(table, Items(s, 0), false, 0) && Mentions(table, Items(s, 0), true, 0);
    assert IsBit(1) && 1 !in {0};
  }

  lemma {:induction false} CollectOne(table: Table, x: Item, all: bool)
    ensures Collect(table, [x], all) == ItemBits(table, x, all)
  {
    CollectCons(table, x, [], all);
    assert [x] + [] == [x];
    UnionNothing(ItemBits(table, x, all));
  }

  lemma {:induction false} CollectTwo(table: Table, plus: Item, minus: Item)
    requires !plus.negated && minus.negated
    requires FlagName(table, plus.name, plus.str) == Some({0}) == FlagName(table, minus.name, minus.str)
    ensures Collect(table, [plus, minus], false) == Some({0}) == Collect(table, [plus, minus], true)
  {
    var zero: Bits := {0};
    assert zero + zero == zero;
    CollectOne(table, minus, false);
    CollectOne(table, minus, true);
    CollectCons(table, plus, [minus], false);
    CollectCons(table, plus, [minus], true);
    assert [plus] + [minus] == [plus, minus];
    UnionNothing(Some(zero));
  }

  /** All 64 bits on the right-hand side: the word of just the masked flag is accepted, although it does not
      equal them. */
  lemma {:induction false} AllBitsNotExact(table: Table)
    requires HasExample(table)
    ensures var s := "x=9";
            && Compile(table, s) == Some(Filter({0}, AllBits()))
            && Accepts(Compile(table, s).value, {0}) && {0} * {0} != AllBits()
  {
    var s := "x=9";
    assert End(s, 0) == 1 && End(s, 2) == 3 && Find(s, '=', 0) == 1;
    assert s[0..1] == "x" && s[2..3] == "9" && s[0..] == s && s[2..] == "9";
    var left, right := Item(false, "x", s), Item(false, "9", "9");
    assert ItemAt(s, 0) == left && ItemAt(s, 2) == right;
    assert Following(s, 1) == [] && Following(s, 3) == [] && Items(s, 0) == [left] && Items(s, 2) == [right];
    FlagX(table, s);
    Flag9(table);
    CollectOne(table, left, false);
    CollectOne(table, right, false);
    assert s[1] == '=' && s[0] != '=';
    assert IsBit(1) && 1 !in {0} * {0} && {0} * {0} == {0};
  }
}
