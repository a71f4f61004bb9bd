/** PRIORITY as the text that the user gives: how the shell and Ruby split it at commas and tell ranges
    from numbers. */
module PriorityText {
  import opened Priority

  // ---------- the pieces between the commas ----------

  function Comma(t: string, i: nat): (e: nat)
    requires i <= |t|
    ensures i <= e <= |t| && (e < |t| ==> t[e] == ',')
    ensures forall j | i <= j < e :: t[j] != ','
    decreases |t| - i
  {
    if i == |t| || t[i] == ',' then i else Comma(t, i + 1)
  }

  function Pieces(t: string): seq<string> {
    PiecesFrom(t, 0)
  }

  /** The pieces of the text from o on. */
  function PiecesFrom(t: string, o: nat): seq<string>
    requires o <= |t|
    decreases |t| - o
  {
    var e := Comma(t, o);
    if e == |t| then [t[o..]] else [t[o..e]] + PiecesFrom(t, e + 1)
  }

  /** The words that are left when the commas are blanks. */
  function Words(ps: seq<string>): seq<string> {
    if ps == [] then [] else (if ps[0] == "" then [] else [ps[0]]) + Words(ps[1..])
  }

  /** Ruby's split: empty pieces at the end are dropped, others are not. */
  function Trim(ps: seq<string>): seq<string> {
    if Words(ps) == [] then [] else [ps[0]] + Trim(ps[1..])
  }

  // ---------- ranges ----------

  /** The first hyphen from i on that has a digit on either side. */
  function RangeAt(p: string, i: nat): (h: nat)
    requires i <= |p|
    ensures i <= h <= |p| && (h < |p| ==> IsRangeAt(p, h))
    ensures forall j | i <= j < h :: !IsRangeAt(p, j)
    decreases |p| - i
  {
    if i == |p| || IsRangeAt(p, i) then i else RangeAt(p, i + 1)
  }

  predicate IsRangeAt(p: string, h: nat) {
    0 < h < |p| - 1 && Digit(p[h - 1]) && p[h] == '-' && Digit(p[h + 1])
  }

  /** cut -d'-': the end of the field that starts at i. */
  function FieldEnd(p: string, i: nat): (e: nat)
    requires i <= |p|
    ensures i <= e <= |p| && (e < |p| ==> p[e] == '-')
    ensures forall j | i <= j < e :: p[j] != '-'
    decreases |p| - i
  {
    if i == |p| || p[i] == '-' then i else FieldEnd(p, i + 1)
  }

  /** A word with digit, hyphen, digit in it is a range between its first two fields. */
  function ShellItem(p: string): Item {
    if RangeAt(p, 0) == |p| then Single(p)
    else
      var f := FieldEnd(p, 0);
      Range(p[..f], if f < |p| then p[f + 1..FieldEnd(p, f + 1)] else p)
  }

  function DigitsStart(p: string, h: nat): (b: nat)
    requires h <= |p|
    ensures b <= h && forall j | b <= j < h :: Digit(p[j])
    ensures b > 0 ==> !Digit(p[b - 1])
  {
    if h > 0 && Digit(p[h - 1]) then DigitsStart(p, h - 1) else h
  }

  function DigitsEnd(p: string, h: nat): (e: nat)
    requires h <= |p|
    ensures h <= e <= |p| && forall j | h <= j < e :: Digit(p[j])
    ensures e < |p| ==> !Digit(p[e])
    decreases |p| - h
  {
    if h < |p| && Digit(p[h]) then DigitsEnd(p, h + 1) else h
  }

  /** The leftmost match of /(\d+)-(\d+)/, with as many digits as there are. */
  function RubyItem(p: string): Item {
    var h := RangeAt(p, 0);
    if h == |p| then Single(p) else Range(p[DigitsStart(p, h)..h], p[h + 1..DigitsEnd(p, h + 1)])
  }

  /** Empty, a number, or two numbers with a hyphen between them. */
  predicate Proper(p: string) {
    p == "" || Digits(p) || exists h | 0 <= h < |p| :: IsHyphen(p, h)
  }

  predicate IsHyphen(p: string, h: int) {
    0 <= h < |p| && p[h] == '-' && Digits(p[..h]) && Digits(p[h + 1..])
  }

  lemma {:induction false} HyphenOnly(p: string, h: nat)
    requires IsHyphen(p, h)
    ensures 0 < h < |p| - 1 && forall j | 0 <= j < |p| && j != h :: Digit(p[j])
  {
    var a, b := p[..h], p[h + 1..];
    forall j | 0 <= j < |p| && j != h ensures Digit(p[j]) {
      assert if j < h then p[j] == a[j] else p[j] == b[j - h - 1];
    }
  }

  lemma {:induction false} RangeAtHyphen(p: string, h: nat)
    requires IsHyphen(p, h)
    ensures RangeAt(p, 0) == h
  {
    HyphenOnly(p, h);
    var r := RangeAt(p, 0);
    assert IsRangeAt(p, h);
    assert r <= h;
    assert p[r] == '-';
  }

  lemma {:induction false} FieldsOfRange(p: string, h: nat)
    requires IsHyphen(p, h)
    ensures FieldEnd(p, 0) == h && FieldEnd(p, h + 1) == |p|
    ensures DigitsStart(p, h) == 0 && DigitsEnd(p, h + 1) == |p|
  {
    HyphenOnly(p, h);
  }

  lemma {:induction false} ReadRange(p: string, h: nat)
    requires IsHyphen(p, h)
    ensures ShellItem(p) == RubyItem(p) == Range(p[..h], p[h + 1..])
  {
    RangeAtHyphen(p, h);
    FieldsOfRange(p, h);
  }

  lemma {:induction false} ReadSingle(p: string)
    requires p == "" || Digits(p)
    ensures ShellItem(p) == RubyItem(p) == Single(p)
  {
  }

  /** Both sides read a proper piece in the same way. */
  lemma {:induction false} ReadAlike(p: string)
    requires Proper(p)
    ensures ShellItem(p) == RubyItem(p) && WellFormed(RubyItem(p))
  {
    if h :| 0 <= h < |p| && IsHyphen(p, h) {
      ReadRange(p, h);
    } else {
      ReadSingle(p);
    }
  }

  // ---------- the lists ----------

  function ShellItems(ps: seq<string>): (r: seq<Item>)
    ensures |r| == |ps| && forall i | 0 <= i < |r| :: r[i] == ShellItem(ps[i])
  {
    if ps == [] then [] else [ShellItem(ps[0])] + ShellItems(ps[1..])
  }

  function RubyItems(ps: seq<string>): (r: seq<Item>)
    ensures |r| == |ps| && forall i | 0 <= i < |r| :: r[i] == RubyItem(ps[i])
  {
    if ps == [] then [] else [RubyItem(ps[0])] + RubyItems(ps[1..])
  }

  /** A list of proper pieces. */
  predicate ProperText(t: string) {
    forall i | 0 <= i < |Pieces(t)| :: Proper(Pieces(t)[i])
  }

  lemma {:induction false} WordsMembers(ps: seq<string>)
    ensures forall p :: p in Words(ps) <==> p in ps && p != ""
  {
    if ps != [] {
      assert ps == [ps[0]] + ps[1..];
      WordsMembers(ps[1..]);
    }
  }

  lemma {:induction false} TrimMembers(ps: seq<string>)
    ensures forall p | p in Trim(ps) :: p in ps
    ensures forall p | p in ps && p != "" :: p in Trim(ps)
    decreases |ps|
  {
    WordsMembers(ps);
    if Words(ps) != [] {
      assert ps == [ps[0]] + ps[1..];
      TrimMembers(ps[1..]);
    }
  }

  lemma {:induction false} ProperLists(t: string)
    requires ProperText(t)
    ensures AllWellFormed(ShellItems(Words(Pieces(t)))) && AllWellFormed(RubyItems(Trim(Pieces(t))))
  {
    var ps := Pieces(t);
    var ws, rs := Words(ps), Trim(ps);
    WordsMembers(ps);
    TrimMembers(ps);
    forall i | 0 <= i < |ws| ensures WellFormed(ShellItem(ws[i])) {
      assert ws[i] in ws;
      ReadAlike(ws[i]);
    }
    forall i | 0 <= i < |rs| ensures WellFormed(RubyItem(rs[i])) {
      assert rs[i] in rs;
      ReadAlike(rs[i]);
    }
  }

  /** normalize_priority. */
  method NormalizePriority(t: string) returns (r: string)
    requires ProperText(t)
    ensures AllWellFormed(ShellItems(Words(Pieces(t))))
    ensures r == Squeeze(Text(ShellItems(Words(Pieces(t)))))
  {
    ProperLists(t);
    var words := Words(Pieces(t));
    var out := Concatenate(words);
    r := Squeeze(out + ",");
  }

  /** Its loop. */
  method Concatenate(words: seq<string>) returns (out: string)
    requires AllWellFormed(ShellItems(words))
    ensures out + "," == Text(ShellItems(words))
  {
    out := "";
    ghost var items := ShellItems(words);
    ghost var goal := Text(items);
    assert items[0..] == items && "" + goal == goal;
    for i := 0 to |words|
      invariant out + Text(items[i..]) == goal
    {
      TextStep(out, items, i);
      out := Append(out, words[i]);
    }
    assert items[|words|..] == [];
  }

  /** The body of the loop. */
  method Append(out: string, word: string) returns (longer: string)
    requires WellFormed(ShellItem(word))
    ensures longer == out + "," + ItemText(ShellItem(word))
  {
    match ShellItem(word)
    case Single(s) => longer := out + "," + s;
    case Range(a, b) => longer := out + "," + SeqText(Value(a), Value(b));
  }

  /** check_skip_priority: the search in the normalized text. */
  ghost predicate ShellFinds(t: string, n: nat)
    requires ProperText(t)
  {
    ProperLists(t);
    ShellSelects(ShellItems(Words(Pieces(t))), n)
  }

  /** The list that Ruby makes of the text. */
  function RubyList(t: string): seq<int>
    requires ProperText(t)
  {
    ProperLists(t);
    Expand(RubyItems(Trim(Pieces(t))))
  }

  ghost predicate SomeShows(items: seq<Item>, n: nat)
    requires AllWellFormed(items)
  {
    exists i | 0 <= i < |items| :: Shows(items[i], n)
  }

  lemma {:induction false} WordIsPiece(ps: seq<string>, i: nat, n: nat)
    requires AllWellFormed(RubyItems(Trim(ps))) && i < |Words(ps)| && Proper(Words(ps)[i])
    requires WellFormed(ShellItem(Words(ps)[i])) && Shows(ShellItem(Words(ps)[i]), n)
    ensures SomeShows(RubyItems(Trim(ps)), n)
  {
    var p, rs := Words(ps)[i], Trim(ps);
    WordsMembers(ps);
    TrimMembers(ps);
    assert p in Words(ps);
    var j :| 0 <= j < |rs| && rs[j] == p;
    ReadAlike(p);
    assert Shows(RubyItems(rs)[j], n);
  }

  lemma {:induction false} PieceIsWord(ps: seq<string>, i: nat, n: nat)
    requires AllWellFormed(ShellItems(Words(ps))) && i < |Trim(ps)| && Proper(Trim(ps)[i])
    requires WellFormed(RubyItem(Trim(ps)[i])) && Shows(RubyItem(Trim(ps)[i]), n)
    ensures SomeShows(ShellItems(Words(ps)), n)
  {
    var p, ws := Trim(ps)[i], Words(ps);
    WordsMembers(ps);
    TrimMembers(ps);
    ReadSingle("");
    assert p in Trim(ps) && p != "";
    var j :| 0 <= j < |ws| && ws[j] == p;
    ReadAlike(p);
    assert Shows(ShellItems(ws)[j], n);
  }

  /** Empty pieces show nothing, so the search finds the same in either list. */
  lemma {:induction false} ShownAlike(t: string, n: nat)
    requires ProperText(t)
    ensures AllWellFormed(RubyItems(Trim(Pieces(t)))) && (ShellFinds(t, n) <==> ShellSelects(RubyItems(Trim(Pieces(t))), n))
  {
    ProperLists(t);
    var ps := Pieces(t);
    var ws, rs := Words(ps), Trim(ps);
    WordsMembers(ps);
    TrimMembers(ps);
    ShellExact(ShellItems(ws), n);
    ShellExact(RubyItems(rs), n);
    if i :| 0 <= i < |ws| && Shows(ShellItems(ws)[i], n) {
      assert ws[i] in ws;
      WordIsPiece(ps, i, n);
    }
    if i :| 0 <= i < |rs| && Shows(RubyItems(rs)[i], n) {
      assert rs[i] in rs;
      PieceIsWord(ps, i, n);
    }
  }

  /** A number in the text that the search cannot find as it is written: one with leading zeros, or the 0
      that Ruby reads from an empty piece before a later one. */
  predicate Hidden(t: string, n: nat)
    requires ProperText(t)
  {
    ProperLists(t);
    exists i :: 0 <= i < |RubyItems(Trim(Pieces(t)))| && Names(RubyItems(Trim(Pieces(t))), i, n)
  }

  predicate Names(items: seq<Item>, i: int, n: nat)
    requires AllWellFormed(items) && 0 <= i < |items|
  {
    items[i].Single? && Value(items[i].s) == n && !Canonical(items[i])
  }

  /** The two selectors agree on every priority exactly if each hidden number is also named by an item
      without leading zeros. */
  lemma {:induction false} SelectorsAgreeIff(t: string)
    requires ProperText(t)
    ensures AllWellFormed(RubyItems(Trim(Pieces(t))))
    ensures (forall n: nat :: ShellFinds(t, n) <==> n in RubyList(t)) <==>
            forall n: nat | Hidden(t, n) :: Covered(RubyItems(Trim(Pieces(t))), n)
  {
    ProperLists(t);
    var items := RubyItems(Trim(Pieces(t)));
    ListsAgreeIff(items);
    forall n: nat ensures ShellFinds(t, n) <==> ShellSelects(items, n) {
      ShownAlike(t, n);
    }
    if forall n: nat | Hidden(t, n) :: Covered(items, n) {
      forall i | 0 <= i < |items| && items[i].Single? ensures Covered(items, Value(items[i].s)) {
        SingleCovered(t, items, i);
      }
    } else {
      var n: nat :| Hidden(t, n) && !Covered(items, n);
      var i :| 0 <= i < |items| && Names(items, i, n);
      assert items[i].Single? && !Covered(items, Value(items[i].s));
    }
  }

  lemma {:induction false} SingleCovered(t: string, items: seq<Item>, i: nat)
    requires ProperText(t) && items == RubyItems(Trim(Pieces(t))) && AllWellFormed(items)
    requires i < |items| && items[i].Single?
    requires forall n: nat | Hidden(t, n) :: Covered(items, n)
    ensures Covered(items, Value(items[i].s))
  {
    if Canonical(items[i]) {
      assert Selects(items[i], Value(items[i].s));
    } else {
      assert Names(items, i, Value(items[i].s));
      assert Hidden(t, Value(items[i].s));
    }
  }

  /** With PRIORITY=01 Ruby selects priority 1 and the shell does not. */
  lemma {:induction false} ZeroPaddedDisagrees()
    ensures ProperText("01") && 1 in RubyList("01") && !ShellFinds("01", 1)
  {
    var one := ["01"];
    assert Comma("01", 0) == 2;
    assert Pieces("01") == one && one[1..] == [];
    assert Words(one) == one && Trim(one) == one;
    ReadSingle("01");
    assert ShellItems(one)[0] == RubyItems(one)[0] == Single("01");
    assert "01"[..1] == "0" && "0"[..0] == "" && Value("0") == 0 && Value("01") == 1;
    assert Decimal(1) == "1";
    ExpandExact(RubyItems(one), 1);
    ShellExact(ShellItems(one), 1);
  }

  // ---------- priorities as a recipe writes them ----------

  /** The search for a recipe's priority as it is written. */
  ghost predicate ShellFindsText(t: string, d: string)
    requires ProperText(t)
  {
    ProperLists(t);
    ShellSelectsText(ShellItems(Words(Pieces(t))), d)
  }

  lemma {:induction false} PaddedShown(t: string, d: string)
    requires ProperText(t) && Digits(d) && d != Decimal(Value(d))
    ensures ShellFindsText(t, d) <==> d in Pieces(t)
  {
    ProperLists(t);
    var words := Words(Pieces(t));
    WordsMembers(Pieces(t));
    TextExact(ShellItems(words), d);
    if i :| 0 <= i < |words| && ShowsText(ShellItems(words)[i], d) {
      PaddedItem(words[i], d);
      assert words[i] in words;
    }
    if d in Pieces(t) {
      var i :| 0 <= i < |words| && words[i] == d;
      ReadSingle(d);
      assert ShowsText(ShellItems(words)[i], d);
    }
  }

  lemma {:induction false} PaddedItem(p: string, d: string)
    requires Digits(d) && d != Decimal(Value(d))
    requires WellFormed(ShellItem(p)) && ShowsText(ShellItem(p), d)
    ensures p == d
  {
  }

  lemma {:induction false} PieceIsSelected(t: string, d: string)
    requires ProperText(t) && Digits(d) && d in Pieces(t)
    ensures Value(d) in RubyList(t)
  {
    ProperLists(t);
    var rs := Trim(Pieces(t));
    TrimMembers(Pieces(t));
    ExpandExact(RubyItems(rs), Value(d));
    var i :| 0 <= i < |rs| && rs[i] == d;
    ReadSingle(d);
    assert Selects(RubyItems(rs)[i], Value(d));
  }

  /** A priority that a recipe writes with leading zeros: the selectors agree on it exactly if Ruby does not
      select it or the text has it in the very same writing. */
  lemma {:induction false} PaddedRecipeAgreesIff(t: string, d: string)
    requires ProperText(t) && Digits(d) && d != Decimal(Value(d))
    ensures (ShellFindsText(t, d) <==> Value(d) in RubyList(t)) <==> Value(d) !in RubyList(t) || d in Pieces(t)
  {
    PaddedShown(t, d);
    if d in Pieces(t) {
      PieceIsSelected(t, d);
    }
  }

  /** A priority that a recipe writes without: the search is the one for its number. */
  lemma {:induction false} PlainRecipe(t: string, n: nat)
    requires ProperText(t)
    ensures ShellFindsText(t, Decimal(n)) <==> ShellFinds(t, n)
  {
    ProperLists(t);
  }

  /** With PRIORITY=5 Ruby selects a recipe that writes 05 and the shell does not. */
  lemma {:induction false} PaddedRecipeDisagrees()
    ensures ProperText("5") && Value("05") in RubyList("5") && !ShellFindsText("5", "05")
  {
    var five := ["5"];
    assert Comma("5", 0) == 1;
    assert Pieces("5") == five && five[1..] == [];
    ReadSingle("5");
    assert "05"[..1] == "0" && "0"[..0] == "" && "5"[..0] == "" && Value("0") == 0 && Value("5") == 5 && Value("05") == 5;
    assert Decimal(5) == "5";
    PieceIsSelected("5", "5");
    PaddedShown("5", "05");
  }

  // ---------- what is found, character by character ----------

  /** The pieces with single commas between them. */
  function Joined(ps: seq<string>): string {
    if ps == [] then "" else if |ps| == 1 then ps[0] else ps[0] + "," + Joined(ps[1..])
  }

  lemma {:induction false} JoinedOne(p: string, ps: seq<string>)
    requires ps != []
    ensures [p] + ps != [] && Joined([p] + ps) == p + "," + Joined(ps)
  {
    assert ([p] + ps)[1..] == ps;
  }

  /** The pieces are the text cut at every comma: none has a comma, and joined by commas they are the text. */
  lemma {:induction false} PiecesExact(t: string)
    ensures Pieces(t) != [] && Joined(Pieces(t)) == t
    ensures forall i | 0 <= i < |Pieces(t)| :: Field(Pieces(t)[i])
  {
    JoinedFrom(t, 0);
    assert t[0..] == t;
    forall i | 0 <= i < |Pieces(t)| ensures Field(Pieces(t)[i]) {
      var a, b := PieceStands(t, 0, i);
    }
  }

  lemma {:induction false} JoinedFrom(t: string, o: nat)
    requires o <= |t|
    ensures Joined(PiecesFrom(t, o)) == t[o..]
    decreases |t| - o
  {
    var e := Comma(t, o);
    if e < |t| {
      calc {
        Joined(PiecesFrom(t, o));
        Joined([t[o..e]] + PiecesFrom(t, e + 1));
        { JoinedOne(t[o..e], PiecesFrom(t, e + 1)); }
        t[o..e] + "," + Joined(PiecesFrom(t, e + 1));
        { JoinedFrom(t, e + 1); }
        t[o..e] + "," + t[e + 1..];
        { CutAt(t, o, e); }
        t[o..];
      }
    }
  }

  lemma {:induction false} CutAt(t: string, o: nat, e: nat)
    requires o <= e < |t| && t[e] == ','
    ensures t[o..] == t[o..e] + "," + t[e + 1..]
  {
  }

  /** The characters from a to b stand between commas or ends of the text. */
  predicate Stands(t: string, a: nat, b: nat) {
    a <= b <= |t| && (a == 0 || t[a - 1] == ',') && (b == |t| || t[b] == ',') && Field(t[a..b])
  }

  /** A place ends at the first comma behind its start. */
  lemma {:induction false} StandsToComma(t: string, a: nat, b: nat)
    requires Stands(t, a, b)
    ensures b == Comma(t, a)
  {
    forall j | a <= j < b ensures t[j] != ',' {
      assert t[a..b][j - a] == t[j];
    }
  }

  lemma {:induction false} StandsIsPiece(t: string, o: nat, a: nat, b: nat)
    requires Stands(t, a, b) && o <= a
    ensures t[a..b] in PiecesFrom(t, o)
    decreases |t| - o
  {
    StandsToComma(t, a, b);
    if o < a {
      assert t[a - 1] == ',';
      StandsIsPiece(t, Comma(t, o) + 1, a, b);
    } else {
      assert t[a..|t|] == t[a..];
      assert t[a..b] == PiecesFrom(t, a)[0];
    }
  }

  lemma {:induction false} CommaStands(t: string, a: nat)
    requires a <= |t| && (a == 0 || t[a - 1] == ',')
    ensures Stands(t, a, Comma(t, a))
  {
  }

  lemma {:induction false} PieceStands(t: string, o: nat, i: nat) returns (a: nat, b: nat)
    requires o <= |t| && (o == 0 || t[o - 1] == ',') && i < |PiecesFrom(t, o)|
    ensures Stands(t, a, b) && t[a..b] == PiecesFrom(t, o)[i]
    decreases |t| - o
  {
    if i == 0 {
      a, b := o, Comma(t, o);
      CommaStands(t, o);
    } else {
      a, b := PieceStands(t, Comma(t, o) + 1, i - 1);
    }
  }

  /** The pieces are what stands between commas or ends. */
  lemma {:induction false} StandsIffPiece(t: string, p: string)
    ensures (exists a: nat, b: nat :: Stands(t, a, b) && t[a..b] == p) <==> p in Pieces(t)
  {
    if a: nat, b: nat :| Stands(t, a, b) && t[a..b] == p {
      StandsIsPiece(t, 0, a, b);
    }
    if i: nat :| i < |Pieces(t)| && Pieces(t)[i] == p {
      var a, b := PieceStands(t, 0, i);
    }
  }

  /** The number n stands in the text, or a range with n in it. */
  ghost predicate NumberStands(t: string, a: nat, b: nat, n: nat) {
    Stands(t, a, b) && t[a..b] == Decimal(n)
  }

  ghost predicate RangeStands(t: string, a: nat, b: nat, h: nat, n: nat) {
    && Stands(t, a, b) && IsHyphen(t[a..b], h)
    && Value(t[a..b][..h]) <= n <= Value(t[a..b][h + 1..])
  }

  ghost predicate Standing(t: string, n: nat) {
    (exists a: nat, b: nat :: NumberStands(t, a, b, n)) || (exists a: nat, b: nat, h: nat :: RangeStands(t, a, b, h, n))
  }

  /** The piece is the number n or a range with n in it. */
  ghost predicate Gives(p: string, n: nat) {
    p == Decimal(n) || exists h :: GivesRange(p, h, n)
  }

  ghost predicate GivesRange(p: string, h: int, n: nat) {
    IsHyphen(p, h) && Value(p[..h]) <= n <= Value(p[h + 1..])
  }

  lemma {:induction false} GivesIff(p: string, n: nat)
    requires Proper(p)
    ensures WellFormed(ShellItem(p)) && WellFormed(RubyItem(p))
    ensures Gives(p, n) <==> Shows(ShellItem(p), n)
    ensures Gives(p, n) ==> p != "" && Selects(RubyItem(p), n)
  {
    ReadAlike(p);
    if h :| 0 <= h < |p| && IsHyphen(p, h) {
      RangeGives(p, h, n);
      ReadRange(p, h);
    } else {
      ReadSingle(p);
      assert forall h :: !GivesRange(p, h, n);
      ValueOfDecimal(n);
    }
  }

  lemma {:induction false} RangeGives(p: string, h: nat, n: nat)
    requires IsHyphen(p, h)
    ensures Gives(p, n) <==> GivesRange(p, h, n)
  {
    HyphenOnly(p, h);
    assert p != Decimal(n) by {
      assert !Digit(p[h]);
    }
    forall g | GivesRange(p, g, n) ensures g == h {
      HyphenOnly(p, g);
    }
  }

  lemma {:induction false} StandingIff(t: string, n: nat)
    ensures Standing(t, n) <==> exists p | p in Pieces(t) :: Gives(p, n)
  {
    if p :| p in Pieces(t) && Gives(p, n) {
      PieceStanding(t, p, n);
    }
    if a: nat, b: nat :| NumberStands(t, a, b, n) {
      StandsIffPiece(t, t[a..b]);
      assert Gives(t[a..b], n);
    }
    if a: nat, b: nat, h: nat :| RangeStands(t, a, b, h, n) {
      StandsIffPiece(t, t[a..b]);
      assert GivesRange(t[a..b], h, n);
    }
  }

  lemma {:induction false} PieceStanding(t: string, p: string, n: nat)
    requires p in Pieces(t) && Gives(p, n)
    ensures Standing(t, n)
  {
    StandsIffPiece(t, p);
    var a: nat, b: nat :| Stands(t, a, b) && t[a..b] == p;
    if p == Decimal(n) {
      assert NumberStands(t, a, b, n);
    } else {
      var h :| GivesRange(p, h, n);
      assert RangeStands(t, a, b, h, n);
    }
  }

  /** The shell finds a priority exactly if it stands in the text between commas or ends, as a number or
      within a range. */
  lemma {:induction false} ShellFindsIff(t: string, n: nat)
    requires ProperText(t)
    ensures ShellFinds(t, n) <==> Standing(t, n)
  {
    StandingIff(t, n);
    ProperLists(t);
    if ShellFinds(t, n) {
      var p := FoundGives(Pieces(t), n);
    }
    if p :| p in Pieces(t) && Gives(p, n) {
      GivesFound(Pieces(t), p, n);
    }
  }

  lemma {:induction false} ProperWord(ps: seq<string>, i: nat) returns (p: string)
    requires i < |Words(ps)| && forall k | 0 <= k < |ps| :: Proper(ps[k])
    ensures p == Words(ps)[i] && p in ps && Proper(p)
  {
    WordsMembers(ps);
    p := Words(ps)[i];
    assert p in Words(ps);
    var k :| 0 <= k < |ps| && ps[k] == p;
    assert Proper(ps[k]);
  }

  lemma {:induction false} FoundGives(ps: seq<string>, n: nat) returns (p: string)
    requires AllWellFormed(ShellItems(Words(ps))) && forall i | 0 <= i < |ps| :: Proper(ps[i])
    requires ShellSelects(ShellItems(Words(ps)), n)
    ensures p in ps && Gives(p, n)
  {
    var words := Words(ps);
    ShellExact(ShellItems(words), n);
    var i :| 0 <= i < |words| && Shows(ShellItems(words)[i], n);
    p := ProperWord(ps, i);
    GivesIff(p, n);
  }

  lemma {:induction false} GivesFound(ps: seq<string>, p: string, n: nat)
    requires AllWellFormed(ShellItems(Words(ps))) && p in ps && Proper(p) && Gives(p, n)
    ensures ShellSelects(ShellItems(Words(ps)), n)
  {
    var words := Words(ps);
    GivesIff(p, n);
    WordsMembers(ps);
    var i :| 0 <= i < |words| && words[i] == p;
    assert Shows(ShellItems(words)[i], n);
    ShellExact(ShellItems(words), n);
  }

  /** And Ruby selects it then, too. */
  lemma {:induction false} RubySelectsStanding(t: string, n: nat)
    requires ProperText(t) && Standing(t, n)
    ensures n in RubyList(t)
  {
    ProperLists(t);
    StandingIff(t, n);
    var p :| p in Pieces(t) && Gives(p, n);
    GivesIff(p, n);
    var rs := Trim(Pieces(t));
    TrimMembers(Pieces(t));
    ExpandExact(RubyItems(rs), n);
    var i :| 0 <= i < |rs| && rs[i] == p;
    assert Selects(RubyItems(rs)[i], n);
  }
}
