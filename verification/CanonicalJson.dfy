/** canonicalJson: printing JSON values with sorted keys, and why the text determines the value. */
module CanonicalJson {
  import opened Sorting

  /** A finite number is represented by the text JavaScript prints for it; members are in insertion order. */
  datatype Json = Null | Bool(b: bool) | Num(text: string) | Str(s: string) | Arr(items: seq<Json>) | Obj(members: seq<Member>)
  datatype Member = Member(key: string, value: Json)

  // ---- Printing -----------------------------------------------------------

  function HexDigit(d: nat): char
    requires d < 16
  {
    "0123456789abcdef"[d]
  }

  /** One character of a quoted string, escaped as in section 7 of RFC 8259 the way JSON.stringify does. */
  function EscapeChar(c: char): string {
    if c == '\"' then "\\\""
    else if c == '\\' then "\\\\"
    else if c as int == 8 then "\\b"
    else if c as int == 9 then "\\t"
    else if c as int == 10 then "\\n"
    else if c as int == 12 then "\\f"
    else if c as int == 13 then "\\r"
    else if c as int < 32 then "\\u00" + [HexDigit(c as int / 16), HexDigit(c as int % 16)]
    else [c]
  }

  function Escape(s: string): string {
    if s == "" then "" else EscapeChar(s[0]) + Escape(s[1..])
  }

  function Quote(s: string): string { "\"" + (Escape(s) + "\"") }

  /** The text of a value, members in the order they are given. */
  function Write(v: Json): string
    decreases v, 1
  {
    match v
    case Null => "null"
    case Bool(b) => if b then "true" else "false"
    case Num(text) => text
    case Str(s) => Quote(s)
    case Arr(items) => "[" + (if items == [] then "" else Write(items[0]) + WriteItems(items[1..])) + "]"
    case Obj(members) => "{" + (if members == [] then "" else WriteMember(members[0]) + WriteMembers(members[1..])) + "}"
  }

  function WriteItems(items: seq<Json>): string
    decreases items, 0
  {
    if items == [] then "" else "," + Write(items[0]) + WriteItems(items[1..])
  }

  function WriteMember(m: Member): string
    decreases m, 0
  {
    Quote(m.key) + ":" + Write(m.value)
  }

  function WriteMembers(members: seq<Member>): string
    decreases members, 0
  {
    if members == [] then "" else "," + WriteMember(members[0]) + WriteMembers(members[1..])
  }

  /** The key a member is sorted by. */
  function KeyOf(): Member -> string { (m: Member) => m.key }

  /** The value with the members of every object sorted by key. */
  function Canon(v: Json): Json
    decreases v, 1
  {
    match v
    case Arr(items) => Arr(CanonItems(items))
    case Obj(members) => Obj(Sort(CanonMembers(members), KeyOf()))
    case _ => v
  }

  function CanonItems(items: seq<Json>): (r: seq<Json>)
    ensures |r| == |items| && forall i | 0 <= i < |items| :: r[i] == Canon(items[i])
    decreases items, 0
  {
    if items == [] then [] else [Canon(items[0])] + CanonItems(items[1..])
  }

  function CanonMembers(members: seq<Member>): (r: seq<Member>)
    ensures |r| == |members|
    ensures forall i | 0 <= i < |members| :: r[i] == Member(members[i].key, Canon(members[i].value))
    decreases members, 0
  {
    if members == [] then [] else [Member(members[0].key, Canon(members[0].value))] + CanonMembers(members[1..])
  }

  function CanonicalText(v: Json): string { Write(Canon(v)) }

  // ---- Which values are meant ---------------------------------------------

  predicate NumberChar(c: char) { '0' <= c <= '9' || c == '+' || c == '-' || c == '.' || c == 'e' || c == 'E' }

  /** Every number in the value carries a number's text. */
  predicate Printable(v: Json)
    decreases v
  {
    match v
    case Num(text) => text != "" && ('0' <= text[0] <= '9' || text[0] == '-') && forall i | 0 <= i < |text| :: NumberChar(text[i])
    case Arr(items) => forall x | x in items :: Printable(x)
    case Obj(members) => forall m | m in members :: Printable(m.value)
    case _ => true
  }

  /** No object in the value repeats a key. */
  predicate KeysDistinct(v: Json)
    decreases v
  {
    match v
    case Arr(items) => forall x | x in items :: KeysDistinct(x)
    case Obj(members) => DistinctKeys(members) && forall m | m in members :: KeysDistinct(m.value)
    case _ => true
  }

  predicate DistinctKeys(members: seq<Member>) {
    forall i, j | 0 <= i < j < |members| :: members[i].key != members[j].key
  }

  /** Equality of values that ignores the insertion order of keys. */
  predicate Same(v: Json, w: Json)
    decreases v
  {
    match (v, w)
    case (Arr(xs), Arr(ys)) => |xs| == |ys| && forall i | 0 <= i < |xs| :: Same(xs[i], ys[i])
    case (Obj(ms), Obj(ns)) => |ms| == |ns| && forall i | 0 <= i < |ms| :: HasSame(ns, ms[i])
    case _ => v == w
  }

  /** Some member has the key and, up to key order, the value of m. */
  predicate HasSame(members: seq<Member>, m: Member)
    decreases m
  {
    exists j :: 0 <= j < |members| && members[j].key == m.key && Same(m.value, members[j].value)
  }

  // ---- Quoted strings are uniquely decodable ------------------------------

  /** A reader for one escaped character: the inverse of EscapeChar. */
  function HexValue(c: char): nat {
    if '0' <= c <= '9' then c as int - '0' as int else if 'a' <= c <= 'f' then c as int - 'a' as int + 10 else 0
  }

  function Unescape(s: string): (int, string)
    requires s != ""
  {
    if s[0] != '\\' then (s[0] as int, s[1..])
    else if |s| < 2 then (0, "")
    else if s[1] == 'u' then
      if |s| < 6 then (0, "") else (16 * HexValue(s[4]) + HexValue(s[5]), s[6..])
    else
      var code := match s[1]
        case 'b' => 8
        case 't' => 9
        case 'n' => 10
        case 'f' => 12
        case 'r' => 13
        case c => c as int;
      (code, s[2..])
  }

  lemma HexRoundTrip(d: nat)
    requires d < 16
    ensures HexValue(HexDigit(d)) == d
  {}

  lemma UnescapeChar(c: char, x: string)
    ensures EscapeChar(c) + x != "" && (EscapeChar(c) + x)[0] != '\"'
    ensures Unescape(EscapeChar(c) + x) == (c as int, x)
  {
    var e := EscapeChar(c);
    assert (e + x)[|e|..] == x;
    if c as int < 32 {
      HexRoundTrip(c as int / 16);
      HexRoundTrip(c as int % 16);
    }
  }

  lemma {:induction false} EscapeUnique(a: string, b: string, x: string, y: string)
    requires Escape(a) + "\"" + x == Escape(b) + "\"" + y
    ensures a == b && x == y
    decreases |a|
  {
    var s, t := Escape(a) + "\"" + x, Escape(b) + "\"" + y;
    EscapedHead(a, x);
    EscapedHead(b, y);
    if a != "" && b != "" {
      EscapeUnique(a[1..], b[1..], x, y);
      assert a == [a[0]] + a[1..] && b == [b[0]] + b[1..];
    } else {
      assert s[1..] == t[1..];
    }
  }

  lemma EscapedHead(a: string, x: string)
    ensures var s := Escape(a) + "\"" + x;
            && s != ""
            && (a == "" ==> s[0] == '\"' && s[1..] == x)
            && (a != "" ==> s[0] != '\"' && Unescape(s) == (a[0] as int, Escape(a[1..]) + "\"" + x))
  {
    if a != "" {
      UnescapeChar(a[0], Escape(a[1..]) + "\"" + x);
      assert EscapeChar(a[0]) + (Escape(a[1..]) + "\"" + x) == Escape(a) + "\"" + x;
    } else {
      assert "" + "\"" + x == "\"" + x;
    }
  }

  lemma QuoteUnique(a: string, b: string, x: string, y: string)
    requires Quote(a) + x == Quote(b) + y
    ensures a == b && x == y
  {
    QuotedTail(a, x);
    QuotedTail(b, y);
    hide *;
    EscapeUnique(a, b, x, y);
  }

  lemma QuotedTail(a: string, x: string)
    ensures (Quote(a) + x)[1..] == Escape(a) + "\"" + x
  {}

  // ---- Printed values are uniquely decodable ------------------------------

  /** What may follow a value inside a larger text. */
  predicate Delimited(x: string) { x == "" || x[0] == ',' || x[0] == ']' || x[0] == '}' }

  lemma WriteHead(v: Json, x: string)
    requires Printable(v)
    ensures Write(v) != "" && (Write(v) + x)[0] == Write(v)[0]
    ensures var c := Write(v)[0];
            match v
            case Null => c == 'n'
            case Bool(b) => c == if b then 't' else 'f'
            case Num(_) => '0' <= c <= '9' || c == '-'
            case Str(_) => c == '\"'
            case Arr(_) => c == '['
            case Obj(_) => c == '{'
  {}

  lemma {:induction false} NumUnique(a: string, b: string, x: string, y: string)
    requires forall i | 0 <= i < |a| :: NumberChar(a[i])
    requires forall i | 0 <= i < |b| :: NumberChar(b[i])
    requires Delimited(x) && Delimited(y) && a + x == b + y
    ensures a == b && x == y
    decreases |a|
  {
    assert a != "" ==> (a + x)[0] == a[0];
    assert b != "" ==> (b + y)[0] == b[0];
    if a != "" && b != "" {
      assert (a + x)[1..] == a[1..] + x && (b + y)[1..] == b[1..] + y;
      NumUnique(a[1..], b[1..], x, y);
      assert a == [a[0]] + a[1..] && b == [b[0]] + b[1..];
    } else {
      assert a == "" ==> a + x == x;
      assert b == "" ==> b + y == y;
    }
  }

  /** A printed value followed by a delimiter determines the value and what follows it. */
  lemma {:induction false} WriteUnique(v: Json, w: Json, x: string, y: string)
    requires Printable(v) && Printable(w) && Delimited(x) && Delimited(y)
    requires Write(v) + x == Write(w) + y
    ensures v == w && x == y
    decreases v, 1
  {
    WriteHead(v, x);
    WriteHead(w, y);
    match v
    case Null => assert (Write(v) + x)[4..] == x && (Write(w) + y)[4..] == y;
    case Bool(b) =>
      var n := if b then 4 else 5;
      assert (Write(v) + x)[n..] == x && (Write(w) + y)[n..] == y;
    case Num(text) => NumUnique(text, w.text, x, y);
    case Str(s) => QuoteUnique(s, w.s, x, y);
    case Arr(items) => ArrUnique(items, w.items, x, y);
    case Obj(members) => ObjUnique(members, w.members, x, y);
  }

  lemma {:induction false} ArrUnique(items: seq<Json>, others: seq<Json>, x: string, y: string)
    requires forall v | v in items :: Printable(v)
    requires forall v | v in others :: Printable(v)
    requires Delimited(x) && Delimited(y) && Write(Arr(items)) + x == Write(Arr(others)) + y
    ensures items == others && x == y
    decreases items, 2
  {
    ArrText(items, x);
    ArrText(others, y);
    hide Write, WriteItems, Printable;
    if items != [] { WriteHead(items[0], Rest(items, x)); }
    if others != [] { WriteHead(others[0], Rest(others, y)); }
    assert ("]" + x)[0] == ']' && ("]" + x)[1..] == x && ("]" + y)[0] == ']' && ("]" + y)[1..] == y;
    if items != [] && others != [] {
      WriteUnique(items[0], others[0], Rest(items, x), Rest(others, y));
      RestIsTail(items, x);
      RestIsTail(others, y);
      ItemsUnique(items[1..], others[1..], x, y);
      assert items == [items[0]] + items[1..] && others == [others[0]] + others[1..];
    }
  }

  lemma RestIsTail(items: seq<Json>, x: string)
    requires items != []
    ensures Rest(items, x) == WriteItems(items[1..]) + ("]" + x)
  {}

  lemma {:induction false} ObjUnique(members: seq<Member>, others: seq<Member>, x: string, y: string)
    requires forall m | m in members :: Printable(m.value)
    requires forall m | m in others :: Printable(m.value)
    requires Delimited(x) && Delimited(y) && Write(Obj(members)) + x == Write(Obj(others)) + y
    ensures members == others && x == y
    decreases members, 2
  {
    ObjText(members, x);
    ObjText(others, y);
    hide Write, WriteMembers, WriteMember, Printable;
    assert ("}" + x)[1..] == x && ("}" + y)[1..] == y;
    if members != [] && others != [] {
      MemberUnique(members[0], others[0], MemberRest(members, x), MemberRest(others, y));
      MembersUnique(members[1..], others[1..], x, y);
      assert members == [members[0]] + members[1..] && others == [others[0]] + others[1..];
    }
  }

  /** What follows the first item of an array text, and the first member of an object text. */
  function Rest(items: seq<Json>, x: string): (r: string)
    requires items != []
    ensures Delimited(r)
  {
    WriteItems(items[1..]) + ("]" + x)
  }

  function MemberRest(members: seq<Member>, x: string): (r: string)
    requires members != []
    ensures Delimited(r)
  {
    WriteMembers(members[1..]) + ("}" + x)
  }

  lemma ArrText(items: seq<Json>, x: string)
    ensures (Write(Arr(items)) + x)[1..] == if items == [] then "]" + x else Write(items[0]) + Rest(items, x)
  {
    if items != [] {
      var a, b := Write(items[0]), WriteItems(items[1..]);
      assert "[" + (a + b) + "]" + x == "[" + (a + (b + ("]" + x)));
    }
  }

  lemma ObjText(members: seq<Member>, x: string)
    ensures (Write(Obj(members)) + x)[1..] == if members == [] then "}" + x else WriteMember(members[0]) + MemberRest(members, x)
    ensures (Write(Obj(members)) + x)[1] == if members == [] then '}' else '\"'
  {
    if members != [] {
      var a, b := WriteMember(members[0]), WriteMembers(members[1..]);
      assert "{" + (a + b) + "}" + x == "{" + (a + (b + ("}" + x)));
    }
  }

  lemma {:induction false} ItemsUnique(xs: seq<Json>, ys: seq<Json>, x: string, y: string)
    requires forall v | v in xs :: Printable(v)
    requires forall v | v in ys :: Printable(v)
    requires WriteItems(xs) + ("]" + x) == WriteItems(ys) + ("]" + y)
    ensures xs == ys && x == y
    decreases xs, 0
  {
    hide *;
    ItemsText(xs, x);
    ItemsText(ys, y);
    if xs != [] && ys != [] {
      RestIsTail(xs, x);
      RestIsTail(ys, y);
      WriteUnique(xs[0], ys[0], Rest(xs, x), Rest(ys, y));
      ItemsUnique(xs[1..], ys[1..], x, y);
      assert xs == [xs[0]] + xs[1..] && ys == [ys[0]] + ys[1..];
    }
  }

  lemma ItemsText(items: seq<Json>, x: string)
    ensures var t := WriteItems(items) + ("]" + x);
            && t[0] == (if items == [] then ']' else ',')
            && t[1..] == if items == [] then x else Write(items[0]) + Rest(items, x)
  {
    if items != [] {
      AfterComma(Write(items[0]), WriteItems(items[1..]), "]" + x);
    }
  }

  lemma AfterComma(a: string, b: string, x: string)
    ensures ("," + a + b + x)[0] == ',' && ("," + a + b + x)[1..] == a + (b + x)
  {
    assert "," + a + b + x == "," + (a + (b + x));
  }

  lemma {:induction false} MemberUnique(m: Member, n: Member, x: string, y: string)
    requires Printable(m.value) && Printable(n.value) && Delimited(x) && Delimited(y)
    requires WriteMember(m) + x == WriteMember(n) + y
    ensures m == n && x == y
    decreases m, 0
  {
    MemberText(m, x);
    MemberText(n, y);
    QuoteUnique(m.key, n.key, ":" + (Write(m.value) + x), ":" + (Write(n.value) + y));
    assert (":" + (Write(m.value) + x))[1..] == Write(m.value) + x;
    assert (":" + (Write(n.value) + y))[1..] == Write(n.value) + y;
    WriteUnique(m.value, n.value, x, y);
  }

  lemma MemberText(m: Member, x: string)
    ensures WriteMember(m) + x == Quote(m.key) + (":" + (Write(m.value) + x))
  {
    var a, b := Quote(m.key), Write(m.value);
    assert a + ":" + b + x == a + (":" + (b + x));
  }

  lemma {:induction false} MembersUnique(ms: seq<Member>, ns: seq<Member>, x: string, y: string)
    requires forall m | m in ms :: Printable(m.value)
    requires forall m | m in ns :: Printable(m.value)
    requires WriteMembers(ms) + ("}" + x) == WriteMembers(ns) + ("}" + y)
    ensures ms == ns && x == y
    decreases ms, 0
  {
    MembersText(ms, x);
    MembersText(ns, y);
    hide WriteMember, WriteMembers, Printable;
    if ms != [] && ns != [] {
      MemberUnique(ms[0], ns[0], MemberRest(ms, x), MemberRest(ns, y));
      MembersUnique(ms[1..], ns[1..], x, y);
      assert ms == [ms[0]] + ms[1..] && ns == [ns[0]] + ns[1..];
    }
  }

  lemma MembersText(members: seq<Member>, x: string)
    ensures var t := WriteMembers(members) + ("}" + x);
            && t[0] == (if members == [] then '}' else ',')
            && t[1..] == if members == [] then x else WriteMember(members[0]) + MemberRest(members, x)
  {
    if members != [] {
      AfterComma(WriteMember(members[0]), WriteMembers(members[1..]), "}" + x);
    }
  }

  // ---- Equal texts mean equal values --------------------------------------

  lemma {:induction false} CanonPrintable(v: Json)
    requires Printable(v)
    ensures Printable(Canon(v))
    decreases v
  {
    match v
    case Arr(items) => forall i | 0 <= i < |items| { CanonPrintable(items[i]); }
    case Obj(members) =>
      var ms := CanonMembers(members);
      SortSorts(ms, KeyOf());
      forall m | m in Sort(ms, KeyOf()) ensures Printable(m.value) {
        SameElements(Sort(ms, KeyOf()), ms, m);
        var i :| 0 <= i < |ms| && ms[i] == m;
        CanonPrintable(members[i].value);
      }
    case _ =>
  }

  /** Sorted forms are equal exactly for values that are the same up to key order. */
  lemma {:induction false} CanonDecidesSame(v: Json, w: Json)
    requires KeysDistinct(v) && KeysDistinct(w)
    ensures Canon(v) == Canon(w) <==> Same(v, w)
    decreases v
  {
    match (v, w)
    case (Arr(xs), Arr(ys)) =>
      if |xs| == |ys| {
        forall i | 0 <= i < |xs| ensures Canon(xs[i]) == Canon(ys[i]) <==> Same(xs[i], ys[i]) { CanonDecidesSame(xs[i], ys[i]); }
        assert CanonItems(xs) == CanonItems(ys) <==> forall i | 0 <= i < |xs| :: CanonItems(xs)[i] == CanonItems(ys)[i];
      } else {
        assert |CanonItems(xs)| != |CanonItems(ys)|;
      }
    case (Obj(ms), Obj(ns)) =>
      forall i, j | 0 <= i < |ms| && 0 <= j < |ns|
        ensures Canon(ms[i].value) == Canon(ns[j].value) <==> Same(ms[i].value, ns[j].value)
      {
        CanonDecidesSame(ms[i].value, ns[j].value);
      }
      MembersDecideSame(ms, ns);
    case _ =>
  }

  /** The sorted form of some member is the sorted form of m. */
  ghost predicate HasCanon(members: seq<Member>, m: Member) {
    Member(m.key, Canon(m.value)) in CanonMembers(members)
  }

  /** The case of objects, once it is known for the member values. */
  lemma MembersDecideSame(ms: seq<Member>, ns: seq<Member>)
    requires DistinctKeys(ms) && DistinctKeys(ns)
    requires forall i, j | 0 <= i < |ms| && 0 <= j < |ns| :: Canon(ms[i].value) == Canon(ns[j].value) <==> Same(ms[i].value, ns[j].value)
    ensures Canon(Obj(ms)) == Canon(Obj(ns)) <==> Same(Obj(ms), Obj(ns))
  {
    forall i | 0 <= i < |ms| ensures HasCanon(ns, ms[i]) <==> HasSame(ns, ms[i]) {
      CanonMemberIn(ms, ns, i);
    }
    hide *;
    ObjectsDecideSame(ms, ns);
  }

  lemma ObjectsDecideSame(ms: seq<Member>, ns: seq<Member>)
    requires DistinctKeys(ms) && DistinctKeys(ns)
    requires forall i | 0 <= i < |ms| :: HasCanon(ns, ms[i]) <==> HasSame(ns, ms[i])
    ensures Canon(Obj(ms)) == Canon(Obj(ns)) <==> Same(Obj(ms), Obj(ns))
  {
    hide *;
    SortedObjects(ms, ns);
    SameAsMultisets(ms, ns);
    SameObjects(ms, ns);
  }

  lemma SameObjects(ms: seq<Member>, ns: seq<Member>)
    ensures Same(Obj(ms), Obj(ns)) <==> |ms| == |ns| && forall i | 0 <= i < |ms| :: HasSame(ns, ms[i])
  {}

  lemma SortedObjects(ms: seq<Member>, ns: seq<Member>)
    requires DistinctKeys(ms) && DistinctKeys(ns)
    ensures Canon(Obj(ms)) == Canon(Obj(ns)) <==> multiset(CanonMembers(ms)) == multiset(CanonMembers(ns))
  {
    var cs, ds := CanonMembers(ms), CanonMembers(ns);
    assert DistinctKeys(cs);
    assert Canon(Obj(ms)) == Obj(Sort(cs, KeyOf())) && Canon(Obj(ns)) == Obj(Sort(ds, KeyOf()));
    DistinctMeansDetermines(cs);
    hide *;
    SortIgnoresOrder(cs, ds, KeyOf());
  }

  lemma SameAsMultisets(ms: seq<Member>, ns: seq<Member>)
    requires DistinctKeys(ms) && DistinctKeys(ns)
    ensures multiset(CanonMembers(ms)) == multiset(CanonMembers(ns))
       <==> |ms| == |ns| && forall i | 0 <= i < |ms| :: HasCanon(ns, ms[i])
  {
    var cs, ds := CanonMembers(ms), CanonMembers(ns);
    assert DistinctKeys(cs) && DistinctKeys(ds);
    assert forall i | 0 <= i < |ms| :: HasCanon(ns, ms[i]) <==> cs[i] in ds;
    hide CanonMembers, Canon, DistinctKeys, HasCanon;
    DistinctMultisets(cs, ds);
    if multiset(cs) == multiset(ds) {
      forall i | 0 <= i < |ms| ensures HasCanon(ns, ms[i]) { assert cs[i] in ds; }
    }
    if |ms| == |ns| && forall i | 0 <= i < |ms| :: HasCanon(ns, ms[i]) {
      forall i | 0 <= i < |cs| ensures cs[i] in ds { assert HasCanon(ns, ms[i]); }
    }
  }

  lemma CanonMemberIn(ms: seq<Member>, ns: seq<Member>, i: nat)
    requires i < |ms|
    requires forall i, j | 0 <= i < |ms| && 0 <= j < |ns| :: Canon(ms[i].value) == Canon(ns[j].value) <==> Same(ms[i].value, ns[j].value)
    ensures HasCanon(ns, ms[i]) <==> HasSame(ns, ms[i])
  {
    var c, ds := Member(ms[i].key, Canon(ms[i].value)), CanonMembers(ns);
    if HasSame(ns, ms[i]) {
      var j :| 0 <= j < |ns| && ns[j].key == ms[i].key && Same(ms[i].value, ns[j].value);
      assert ds[j] == c;
    }
    if c in ds {
      var j :| 0 <= j < |ds| && ds[j] == c;
      assert ns[j].key == ms[i].key && Same(ms[i].value, ns[j].value);
    }
  }

  lemma DistinctMeansDetermines(ms: seq<Member>)
    requires DistinctKeys(ms)
    ensures KeyDetermines(ms, KeyOf())
  {}

  /** Lists with distinct keys are permutations of each other exactly when equally long and one within the other. */
  lemma DistinctMultisets(cs: seq<Member>, ds: seq<Member>)
    requires DistinctKeys(cs) && DistinctKeys(ds)
    ensures multiset(cs) == multiset(ds) <==> |cs| == |ds| && forall i | 0 <= i < |cs| :: cs[i] in ds
  {
    if multiset(cs) == multiset(ds) {
      forall i | 0 <= i < |cs| ensures cs[i] in ds { SameElements(cs, ds, cs[i]); }
      assert |cs| == |multiset(cs)| == |multiset(ds)| == |ds|;
    }
    if |cs| == |ds| && forall i | 0 <= i < |cs| :: cs[i] in ds {
      forall m | m in cs ensures multiset(cs)[m] <= multiset(ds)[m] {
        Multiplicity(cs, m);
        Multiplicity(ds, m);
      }
      assert multiset(cs) <= multiset(ds);
      assert |multiset(ds) - multiset(cs)| == 0;
    }
  }

  lemma {:induction false} Multiplicity(ms: seq<Member>, m: Member)
    requires DistinctKeys(ms)
    ensures multiset(ms)[m] == if m in ms then 1 else 0
  {
    if ms != [] {
      assert ms == [ms[0]] + ms[1..];
      Multiplicity(ms[1..], m);
    }
  }

  /**
   * canonicalJson is uniquely decodable: two values have one text exactly when they are
   * the same up to the insertion order of keys.
   */
  lemma TextDecidesSame(v: Json, w: Json)
    requires Printable(v) && Printable(w) && KeysDistinct(v) && KeysDistinct(w)
    ensures CanonicalText(v) == CanonicalText(w) <==> Same(v, w)
  {
    CanonPrintable(v);
    CanonPrintable(w);
    CanonDecidesSame(v, w);
    if CanonicalText(v) == CanonicalText(w) {
      assert Write(Canon(v)) + "" == Write(Canon(w)) + "";
      WriteUnique(Canon(v), Canon(w), "", "");
    }
  }
}
