/** The two selectors for priorities: a search in a normalized string (shell) and membership in an
    expanded list (Ruby). */
module Priority {

  // ---------- decimals ----------

  predicate Digit(c: char) {
    '0' <= c <= '9'
  }

  predicate Digits(s: string) {
    s != "" && forall i | 0 <= i < |s| :: Digit(s[i])
  }

  function DigitOf(d: nat): (c: char)
    requires d < 10
    ensures Digit(c) && c as int - '0' as int == d
  {
    '0' + d as char
  }

  function Decimal(n: nat): (s: string)
    ensures Digits(s)
  {
    if n < 10 then [DigitOf(n)] else Decimal(n / 10) + [DigitOf(n % 10)]
  }

  /** to_i, and how seq reads its arguments. */
  function Value(s: string): nat
    requires Digits(s) || s == ""
  {
    if s == "" then 0
    else
      var front := s[..|s| - 1];
      10 * Value(front) + (s[|s| - 1] as int - '0' as int)
  }

  lemma {:induction false} ValueOfDecimal(n: nat)
    ensures Value(Decimal(n)) == n
  {
    var s := Decimal(n);
    if n < 10 {
      assert s[..|s| - 1] == "";
    } else {
      assert s[..|s| - 1] == Decimal(n / 10);
      ValueOfDecimal(n / 10);
    }
  }

  lemma {:induction false} DecimalInjective(m: nat, n: nat)
    ensures Decimal(m) == Decimal(n) <==> m == n
  {
    ValueOfDecimal(m);
    ValueOfDecimal(n);
  }

  // ---------- the list ----------

  /** An item of PRIORITY; what lies between two commas in a row is an empty single one. */
  datatype Item = Single(s: string) | Range(first: string, last: string)

  predicate WellFormed(item: Item) {
    match item
    case Single(s) => s == "" || Digits(s)
    case Range(a, b) => Digits(a) && Digits(b)
  }

  predicate AllWellFormed(items: seq<Item>) {
    forall i | 0 <= i < |items| :: WellFormed(items[i])
  }

  function Interval(a: int, b: int): seq<int>
    decreases b - a
  {
    if a > b then [] else [a] + Interval(a + 1, b)
  }

  /** The list that Ruby makes of it. */
  function Expand(items: seq<Item>): seq<int>
    requires AllWellFormed(items)
  {
    if items == [] then []
    else
      (match items[0]
       case Single(s) => [Value(s)]
       case Range(a, b) => Interval(Value(a), Value(b))) + Expand(items[1..])
  }

  // ---------- the string ----------

  /** seq a b | tr '\n' ',' */
  function SeqText(a: nat, b: nat): string
    decreases b - a
  {
    if a > b then "" else Decimal(a) + "," + SeqText(a + 1, b)
  }

  function ItemText(item: Item): string
    requires WellFormed(item)
  {
    match item
    case Single(s) => s
    case Range(a, b) => SeqText(Value(a), Value(b))
  }

  function Text(items: seq<Item>): string
    requires AllWellFormed(items)
  {
    if items == [] then ","
    else "," + ItemText(items[0]) + Text(items[1..])
  }

  /** sed 's/,,/,/g' */
  function Squeeze(s: string): string {
    if |s| < 2 then s
    else if s[0] == ',' && s[1] == ',' then "," + Squeeze(s[2..])
    else [s[0]] + Squeeze(s[1..])
  }

  lemma {:induction false} Assoc(a: string, b: string, c: string)
    ensures a + b + c == a + (b + c)
  {
  }

  lemma {:induction false} TextStep(out: string, items: seq<Item>, i: nat)
    requires AllWellFormed(items) && i < |items|
    ensures out + Text(items[i..]) == out + "," + ItemText(items[i]) + Text(items[i + 1..])
  {
    var rest := items[i..];
    assert rest[1..] == items[i + 1..] && rest[0] == items[i];
    var item, text := ItemText(items[i]), Text(items[i + 1..]);
    Assoc(out, "," + item, text);
    Assoc(out, ",", item);
  }

  /** grep -q ",n," */
  ghost predicate Contains(s: string, n: string) {
    exists i :: OccursAt(s, n, i)
  }

  predicate OccursAt(s: string, n: string, i: int) {
    && 0 <= i && i + |n| + 2 <= |s|
    && s[i] == ',' && s[i + 1..i + 1 + |n|] == n && s[i + 1 + |n|] == ','
  }

  // ---------- fields ----------

  predicate Field(f: string) {
    forall i | 0 <= i < |f| :: f[i] != ','
  }

  predicate Fields(fs: seq<string>) {
    forall i | 0 <= i < |fs| :: Field(fs[i])
  }

  /** Every field with a comma before it, and a comma at the end. */
  function Join(fs: seq<string>): (s: string)
    ensures |s| >= 1 && s[0] == ','
  {
    if fs == [] then "," else "," + fs[0] + Join(fs[1..])
  }

  /** A field with commas on both sides is found exactly where it is a field. */
  lemma {:induction false} FoundIff(fs: seq<string>, n: string)
    requires Fields(fs) && Field(n) && n != ""
    ensures Contains(Join(fs), n) <==> n in fs
  {
    if fs == [] {
    } else {
      var f, rest := fs[0], fs[1..];
      FoundIff(rest, n);
      assert n in fs <==> n == f || n in rest;
      if i :| OccursAt(Join(fs), n, i) {
        FoundHead(f, Join(rest), n, i);
      }
      if n == f {
        FoundHere(f, Join(rest));
      }
      if i :| OccursAt(Join(rest), n, i) {
        FoundLater(f, Join(rest), n, i);
      }
    }
  }

  lemma {:induction false} FoundHere(f: string, t: string)
    requires |t| >= 1 && t[0] == ','
    ensures OccursAt("," + f + t, f, 0)
  {
    assert ("," + f + t)[1..1 + |f|] == f;
  }

  lemma {:induction false} FoundLater(f: string, t: string, n: string, i: int)
    requires OccursAt(t, n, i)
    ensures OccursAt("," + f + t, n, i + 1 + |f|)
  {
    var s, j := "," + f + t, i + 1 + |f|;
    assert s[j..] == t[i..];
    assert s[j + 1..j + 1 + |n|] == t[i + 1..i + 1 + |n|];
  }

  lemma {:induction false} FoundHead(f: string, t: string, n: string, i: int)
    requires Field(f) && Field(n) && |t| >= 1 && t[0] == ',' && OccursAt("," + f + t, n, i)
    ensures n == f || OccursAt(t, n, i - 1 - |f|)
  {
    var s := "," + f + t;
    assert forall k | 1 <= k <= |f| :: s[k] == f[k - 1];
    assert forall k | 0 <= k < |n| :: s[i + 1 + k] == n[k];
    if i == 0 {
      assert s[1 + |f|] == ',' && s[1 + |n|] == ',';
      assert |f| == |n|;
      assert s[1..1 + |f|] == f;
    } else if i <= |f| {
      assert false;
    } else {
      var j := i - 1 - |f|;
      assert s[i + 1..i + 1 + |n|] == t[j + 1..j + 1 + |n|];
    }
  }

  // ---------- what sed does to the fields ----------

  function SqueezeFields(fs: seq<string>): (r: seq<string>)
    ensures Fields(fs) ==> Fields(r)
    ensures forall n | n != "" :: n in r <==> n in fs
  {
    if fs == [] then []
    else if fs[0] != "" then
      var r := SqueezeFields(fs[1..]);
      assert fs == [fs[0]] + fs[1..];
      [fs[0]] + r
    else if |fs| == 1 then []
    else
      var r := SqueezeFields(fs[2..]);
      assert fs == [fs[0], fs[1]] + fs[2..];
      [fs[1]] + r
  }

  lemma {:induction false} SqueezePast(f: string, s: string)
    requires Field(f) && s != "" && s[0] == ','
    ensures Squeeze(f + s) == f + Squeeze(s)
  {
    if f == "" {
      assert f + s == s && f + Squeeze(s) == Squeeze(s);
    } else {
      var t := f + s;
      SqueezePast(f[1..], s);
      assert t[1..] == f[1..] + s && t[0] == f[0];
      assert [f[0]] + (f[1..] + Squeeze(s)) == f + Squeeze(s);
    }
  }

  lemma {:induction false} SqueezeKeeps(s: string)
    requires s != "" && s[0] != ','
    ensures Squeeze("," + s) == "," + Squeeze(s)
  {
    var t := "," + s;
    assert t[1..] == s && t[1] == s[0];
  }

  lemma {:induction false} SqueezeDrops(s: string)
    ensures Squeeze("," + ("," + s)) == "," + Squeeze(s)
  {
    var t := "," + ("," + s);
    assert t[2..] == s && t[0] == ',' && t[1] == ',';
  }

  lemma {:induction false} SqueezeOne(f: string, t: string)
    requires Field(f) && f != "" && t != "" && t[0] == ','
    ensures Squeeze("," + f + t) == "," + f + Squeeze(t)
  {
    SqueezePast(f, t);
    SqueezeKeeps(f + t);
    Assoc(",", f, t);
    Assoc(",", f, Squeeze(t));
  }

  lemma {:induction false} SqueezeTwo(f: string, t: string)
    requires Field(f) && t != "" && t[0] == ','
    ensures Squeeze("," + "" + ("," + f + t)) == "," + f + Squeeze(t)
  {
    SqueezePast(f, t);
    SqueezeDrops(f + t);
    Assoc(",", f, t);
    Assoc(",", f, Squeeze(t));
    assert "," + "" == ",";
  }

  lemma {:induction false} JoinCons(f: string, fs: seq<string>)
    ensures Join([f] + fs) == "," + f + Join(fs)
  {
    assert ([f] + fs)[1..] == fs;
  }

  lemma {:induction false} SqueezeJoin(fs: seq<string>)
    requires Fields(fs)
    ensures Squeeze(Join(fs)) == Join(SqueezeFields(fs))
  {
    if fs == [] {
    } else if fs[0] != "" {
      SqueezeJoin(fs[1..]);
      SqueezeOne(fs[0], Join(fs[1..]));
      JoinCons(fs[0], SqueezeFields(fs[1..]));
    } else if |fs| == 1 {
      assert fs[1..] == [];
      var s := "," + "" + ",";
      assert Join(fs) == s && s[2..] == "";
      assert Squeeze(s) == ",";
    } else {
      assert fs[1..][1..] == fs[2..] && fs[1..][0] == fs[1];
      SqueezeJoin(fs[2..]);
      SqueezeTwo(fs[1], Join(fs[2..]));
      JoinCons(fs[1], SqueezeFields(fs[2..]));
    }
  }

  // ---------- the fields of the normalized string ----------

  function SeqFields(a: nat, b: nat): seq<string>
    decreases b - a
  {
    if a > b then [""] else [Decimal(a)] + SeqFields(a + 1, b)
  }

  function ItemFields(item: Item): seq<string>
    requires WellFormed(item)
  {
    match item
    case Single(s) => [s]
    case Range(a, b) => SeqFields(Value(a), Value(b))
  }

  function FieldsOf(items: seq<Item>): seq<string>
    requires AllWellFormed(items)
  {
    if items == [] then [] else ItemFields(items[0]) + FieldsOf(items[1..])
  }

  lemma {:induction false} DigitsAreField(s: string)
    requires s == "" || Digits(s)
    ensures Field(s)
  {
  }

  lemma {:induction false} FieldsConcat(a: seq<string>, b: seq<string>)
    requires Fields(a) && Fields(b)
    ensures Fields(a + b)
  {
  }

  lemma {:induction false} SeqFieldsAreFields(a: nat, b: nat)
    ensures Fields(SeqFields(a, b))
    decreases b - a
  {
    if a <= b {
      SeqFieldsAreFields(a + 1, b);
      DigitsAreField(Decimal(a));
      FieldsConcat([Decimal(a)], SeqFields(a + 1, b));
    }
  }

  lemma {:induction false} Regroup(d: string, text: string, t: string)
    ensures "," + (d + "," + text) + t == "," + d + ("," + text + t)
  {
    Assoc(d, ",", text);
    Assoc(",", d, "," + text);
    Assoc("," + d, "," + text, t);
  }

  lemma {:induction false} SeqFieldsJoin(a: nat, b: nat, fs: seq<string>)
    ensures "," + SeqText(a, b) + Join(fs) == Join(SeqFields(a, b) + fs)
    decreases b - a
  {
    if a > b {
      JoinCons("", fs);
    } else {
      SeqFieldsJoin(a + 1, b, fs);
      assert SeqFields(a, b) + fs == [Decimal(a)] + (SeqFields(a + 1, b) + fs);
      JoinCons(Decimal(a), SeqFields(a + 1, b) + fs);
      Regroup(Decimal(a), SeqText(a + 1, b), Join(fs));
    }
  }

  lemma {:induction false} TextIsJoin(items: seq<Item>)
    requires AllWellFormed(items)
    ensures Text(items) == Join(FieldsOf(items)) && Fields(FieldsOf(items))
  {
    if items != [] {
      var fs := FieldsOf(items[1..]);
      TextIsJoin(items[1..]);
      match items[0]
      case Single(s) =>
        JoinCons(s, fs);
        DigitsAreField(s);
        FieldsConcat([s], fs);
      case Range(a, b) =>
        SeqFieldsJoin(Value(a), Value(b), fs);
        SeqFieldsAreFields(Value(a), Value(b));
        FieldsConcat(SeqFields(Value(a), Value(b)), fs);
    }
  }

  // ---------- the two selectors ----------

  /** The item names n, as Ruby reads it. */
  predicate Selects(item: Item, n: nat)
    requires WellFormed(item)
  {
    match item
    case Single(s) => Value(s) == n
    case Range(a, b) => Value(a) <= n <= Value(b)
  }

  /** The item names n, as the string search sees it: a single number by its text. */
  predicate Shows(item: Item, n: nat)
    requires WellFormed(item)
  {
    match item
    case Single(s) => s == Decimal(n)
    case Range(a, b) => Value(a) <= n <= Value(b)
  }

  /** The item is a range, or written without leading zeros. */
  predicate Canonical(item: Item)
    requires WellFormed(item)
  {
    item.Single? ==> item.s == Decimal(Value(item.s))
  }

  lemma {:induction false} ShowsIff(item: Item, n: nat)
    requires WellFormed(item)
    ensures Shows(item, n) <==> Selects(item, n) && Canonical(item)
    ensures item.Range? ==> Canonical(item)
  {
    ValueOfDecimal(n);
  }

  lemma {:induction false} IntervalExact(a: int, b: int, n: int)
    ensures n in Interval(a, b) <==> a <= n <= b
    decreases b - a
  {
    if a <= b {
      IntervalExact(a + 1, b, n);
    }
  }

  lemma {:induction false} SeqFieldsExact(a: nat, b: nat, n: nat)
    ensures Decimal(n) in SeqFields(a, b) <==> a <= n <= b
    decreases b - a
  {
    if a <= b {
      SeqFieldsExact(a + 1, b, n);
      DecimalInjective(a, n);
    }
  }

  lemma {:induction false} ExpandExact(items: seq<Item>, n: nat)
    requires AllWellFormed(items)
    ensures n in Expand(items) <==> exists i | 0 <= i < |items| :: Selects(items[i], n)
  {
    if items != [] {
      var rest := items[1..];
      ExpandExact(rest, n);
      if items[0].Range? {
        IntervalExact(Value(items[0].first), Value(items[0].last), n);
      }
      assert forall i | 0 <= i < |rest| :: rest[i] == items[i + 1];
      assert (exists i | 0 <= i < |items| :: Selects(items[i], n)) <==>
             Selects(items[0], n) || exists i | 0 <= i < |rest| :: Selects(rest[i], n);
    }
  }

  lemma {:induction false} FieldsExact(items: seq<Item>, n: nat)
    requires AllWellFormed(items)
    ensures Decimal(n) in FieldsOf(items) <==> exists i | 0 <= i < |items| :: Shows(items[i], n)
  {
    if items != [] {
      var rest := items[1..];
      FieldsExact(rest, n);
      if items[0].Range? {
        SeqFieldsExact(Value(items[0].first), Value(items[0].last), n);
      }
      assert forall i | 0 <= i < |rest| :: rest[i] == items[i + 1];
      assert (exists i | 0 <= i < |items| :: Shows(items[i], n)) <==>
             Shows(items[0], n) || exists i | 0 <= i < |rest| :: Shows(rest[i], n);
    }
  }

  /** check_skip_priority on the normalized string. */
  ghost predicate ShellSelects(items: seq<Item>, n: nat)
    requires AllWellFormed(items)
  {
    Contains(Squeeze(Text(items)), Decimal(n))
  }

  /** The search finds n exactly if an item without leading zeros names it. */
  lemma {:induction false} ShellExact(items: seq<Item>, n: nat)
    requires AllWellFormed(items)
    ensures ShellSelects(items, n) <==> exists i | 0 <= i < |items| :: Shows(items[i], n)
  {
    var fs := FieldsOf(items);
    TextIsJoin(items);
    SqueezeJoin(fs);
    DigitsAreField(Decimal(n));
    FoundIff(SqueezeFields(fs), Decimal(n));
    FieldsExact(items, n);
  }

  /** With no leading zeros the two selectors agree. */
  lemma {:induction false} CanonicalListsAgree(items: seq<Item>, n: nat)
    requires AllWellFormed(items) && forall i | 0 <= i < |items| :: Canonical(items[i])
    ensures ShellSelects(items, n) <==> n in Expand(items)
  {
    ShellExact(items, n);
    ExpandExact(items, n);
    forall i | 0 <= i < |items| ensures Shows(items[i], n) <==> Selects(items[i], n) {
      ShowsIff(items[i], n);
    }
  }

  /** n is named by an item without leading zeros. */
  ghost predicate Covered(items: seq<Item>, n: nat)
    requires AllWellFormed(items)
  {
    exists i | 0 <= i < |items| :: Selects(items[i], n) && Canonical(items[i])
  }

  /** The two selectors agree on every priority exactly if each number written with leading zeros, and the
      0 that an empty item stands for in Ruby, is also named by some item without. */
  lemma {:induction false} ListsAgreeIff(items: seq<Item>)
    requires AllWellFormed(items)
    ensures (forall n: nat :: ShellSelects(items, n) <==> n in Expand(items)) <==>
            forall i | 0 <= i < |items| && items[i].Single? :: Covered(items, Value(items[i].s))
  {
    forall n: nat
      ensures ShellSelects(items, n) <==> Covered(items, n)
      ensures n in Expand(items) <==> exists i | 0 <= i < |items| :: Selects(items[i], n)
    {
      ShellExact(items, n);
      ExpandExact(items, n);
      forall i | 0 <= i < |items| ensures Shows(items[i], n) <==> Selects(items[i], n) && Canonical(items[i]) {
        ShowsIff(items[i], n);
      }
    }
    if forall i | 0 <= i < |items| && items[i].Single? :: Covered(items, Value(items[i].s)) {
      forall n: nat, i | 0 <= i < |items| && Selects(items[i], n) ensures Covered(items, n) {
      }
    } else {
      var i :| 0 <= i < |items| && items[i].Single? && !Covered(items, Value(items[i].s));
      assert Selects(items[i], Value(items[i].s));
    }
  }

  // ---------- priorities as a recipe writes them ----------

  /** The item has the text of a priority in the normalized string. */
  predicate ShowsText(item: Item, d: string)
    requires WellFormed(item) && Digits(d)
  {
    match item
    case Single(s) => s == d
    case Range(a, b) => d == Decimal(Value(d)) && Value(a) <= Value(d) <= Value(b)
  }

  lemma {:induction false} SeqFieldsText(a: nat, b: nat, d: string)
    requires Digits(d)
    ensures d in SeqFields(a, b) <==> d == Decimal(Value(d)) && a <= Value(d) <= b
    decreases b - a
  {
    if a <= b {
      SeqFieldsText(a + 1, b, d);
      ValueOfDecimal(a);
    }
  }

  lemma {:induction false} FieldsText(items: seq<Item>, d: string)
    requires AllWellFormed(items) && Digits(d)
    ensures d in FieldsOf(items) <==> exists i | 0 <= i < |items| :: ShowsText(items[i], d)
  {
    if items != [] {
      var rest := items[1..];
      FieldsText(rest, d);
      if items[0].Range? {
        SeqFieldsText(Value(items[0].first), Value(items[0].last), d);
      }
      assert forall i | 0 <= i < |rest| :: rest[i] == items[i + 1];
      assert (exists i | 0 <= i < |items| :: ShowsText(items[i], d)) <==>
             ShowsText(items[0], d) || exists i | 0 <= i < |rest| :: ShowsText(rest[i], d);
    }
  }

  /** The search for a recipe's priority as it is written. */
  ghost predicate ShellSelectsText(items: seq<Item>, d: string)
    requires AllWellFormed(items)
  {
    Contains(Squeeze(Text(items)), d)
  }

  lemma {:induction false} TextExact(items: seq<Item>, d: string)
    requires AllWellFormed(items) && Digits(d)
    ensures ShellSelectsText(items, d) <==> exists i | 0 <= i < |items| :: ShowsText(items[i], d)
  {
    var fs := FieldsOf(items);
    TextIsJoin(items);
    SqueezeJoin(fs);
    DigitsAreField(d);
    FoundIff(SqueezeFields(fs), d);
    FieldsText(items, d);
  }

  /** A priority that a recipe writes with leading zeros: the selectors agree on it exactly if Ruby does not
      select it or the list has it as a single item in the very same writing. */
  lemma {:induction false} PaddedAgreesIff(items: seq<Item>, d: string)
    requires AllWellFormed(items) && Digits(d) && d != Decimal(Value(d))
    ensures (ShellSelectsText(items, d) <==> Value(d) in Expand(items)) <==>
            Value(d) !in Expand(items) || Single(d) in items
  {
    TextExact(items, d);
    ExpandExact(items, Value(d));
    if i :| 0 <= i < |items| && ShowsText(items[i], d) {
      assert items[i] == Single(d) && Selects(items[i], Value(d));
    }
    if Single(d) in items {
      var i :| 0 <= i < |items| && items[i] == Single(d);
      assert ShowsText(items[i], d);
    }
  }
}
