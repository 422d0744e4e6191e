/** The JSON texts that `canonicalJson` writes, `packages/shared/src/index.ts`, and a parser for them. */
module Json {
  import opened Digests
  import opened Numerals

  datatype Json =
    | Str(text: Words)
    | Num(value: nat)
    | Bool(truth: bool)
    | Arr(items: seq<Json>)
    | Obj(members: seq<Member>)

  datatype Member = Member(key: Words, value: Json)

  /*** Strings, section 7 of RFC 8259 ***/

  predicate IsHigh(u: nat) { 0xd800 <= u < 0xdc00 }

  predicate IsLow(u: nat) { 0xdc00 <= u < 0xe000 }

  function HexDigit(d: nat): nat
    requires d < 16
  {
    if d < 10 then 48 + d else 87 + d
  }

  function UnicodeEscape(u: nat): Words
    requires u < 0x10000
  {
    [92, 117, HexDigit(u / 4096), HexDigit(u / 256 % 16), HexDigit(u / 16 % 16), HexDigit(u % 16)]
  }

  /** One unit that is not part of a surrogate pair. */
  function EscapeUnit(u: nat): Words {
    if u == 34 || u == 92 then [92, u]
    else if u == 8 then [92, 98]
    else if u == 9 then [92, 116]
    else if u == 10 then [92, 110]
    else if u == 12 then [92, 102]
    else if u == 13 then [92, 114]
    else if u < 32 || IsHigh(u) || IsLow(u) then UnicodeEscape(u)
    else [u]
  }

  function Escaped(s: Words): Words {
    if s == [] then []
    else if |s| >= 2 && IsHigh(s[0]) && IsLow(s[1]) then s[..2] + Escaped(s[2..])
    else EscapeUnit(s[0]) + Escaped(s[1..])
  }

  /*** The printer ***/

  function Print(j: Json): Words
    decreases j, 0
  {
    match j
    case Str(s) => [34] + Escaped(s) + [34]
    case Num(n) => Digits(n)
    case Bool(b) => if b then [116, 114, 117, 101] else [102, 97, 108, 115, 101]
    case Arr(items) => [91] + Items(items) + [93]
    case Obj(members) => [123] + Members(members) + [125]
  }

  /** Comma-separated items. */
  function Items(items: seq<Json>): Words
    decreases items, 1
  {
    if items == [] then []
    else if |items| == 1 then Print(items[0])
    else Print(items[0]) + [44] + Items(items[1..])
  }

  function MemberText(m: Member): Words
    decreases m, 1
  {
    [34] + Escaped(m.key) + [34] + ([58] + Print(m.value))
  }

  function Members(members: seq<Member>): Words
    decreases members, 2
  {
    if members == [] then []
    else if |members| == 1 then MemberText(members[0])
    else MemberText(members[0]) + [44] + Members(members[1..])
  }

  /*** The parser ***/

  function HexValueOf(u: nat): Option<nat> {
    if 48 <= u <= 57 then Some(u - 48) else if 97 <= u <= 102 then Some(u - 87) else None
  }

  /** The unit an escape sequence stands for, and the length of the sequence. */
  function Unescape(t: Words): Option<(nat, nat)> {
    if |t| < 2 then None
    else if t[1] == 34 || t[1] == 92 then Some((t[1], 2))
    else if t[1] == 98 then Some((8, 2))
    else if t[1] == 116 then Some((9, 2))
    else if t[1] == 110 then Some((10, 2))
    else if t[1] == 102 then Some((12, 2))
    else if t[1] == 114 then Some((13, 2))
    else if t[1] != 117 || |t| < 6 then None
    else
      var a, b, c, d := HexValueOf(t[2]), HexValueOf(t[3]), HexValueOf(t[4]), HexValueOf(t[5]);
      if a.None? || b.None? || c.None? || d.None? then None
      else Some((a.value * 4096 + b.value * 256 + c.value * 16 + d.value, 6))
  }

  /** The rest of a string after its opening quote. */
  function ParseString(t: Words): (r: Option<(Words, Words)>)
    ensures r.Some? ==> |r.value.1| < |t|
  {
    if t == [] then None
    else if t[0] == 34 then Some(([], t[1..]))
    else if t[0] == 92 then
      var e := Unescape(t);
      if e.None? then None
      else
        var r := ParseString(t[e.value.1..]);
        if r.None? then None else Some(([e.value.0] + r.value.0, r.value.1))
    else
      var r := ParseString(t[1..]);
      if r.None? then None else Some(([t[0]] + r.value.0, r.value.1))
  }

  /** The longest run of digits. */
  function DigitRun(t: Words): (n: nat)
    ensures n <= |t| && (forall i | 0 <= i < n :: IsDigit(t[i])) && (n < |t| ==> !IsDigit(t[n]))
  {
    if t == [] || !IsDigit(t[0]) then 0 else 1 + DigitRun(t[1..])
  }

  function Expect(t: Words, literal: Words): Option<Words> {
    if |literal| <= |t| && t[..|literal|] == literal then Some(t[|literal|..]) else None
  }

  function Parse(t: Words): (r: Option<(Json, Words)>)
    ensures r.Some? ==> |r.value.1| < |t|
    decreases |t|, 0
  {
    if t == [] then None
    else if t[0] == 34 then
      var r := ParseString(t[1..]);
      if r.None? then None else Some((Str(r.value.0), r.value.1))
    else if t[0] == 91 then
      if |t| > 1 && t[1] == 93 then Some((Arr([]), t[2..]))
      else
        var r := ParseItems(t[1..]);
        if r.None? then None else Some((Arr(r.value.0), r.value.1))
    else if t[0] == 123 then
      if |t| > 1 && t[1] == 125 then Some((Obj([]), t[2..]))
      else
        var r := ParseMembers(t[1..]);
        if r.None? then None else Some((Obj(r.value.0), r.value.1))
    else if t[0] == 116 then
      var r := Expect(t, [116, 114, 117, 101]);
      if r.None? then None else Some((Bool(true), r.value))
    else if t[0] == 102 then
      var r := Expect(t, [102, 97, 108, 115, 101]);
      if r.None? then None else Some((Bool(false), r.value))
    else
      var n := DigitRun(t);
      if n == 0 then None else Some((Num(Number(t[..n])), t[n..]))
  }

  function ParseItems(t: Words): (r: Option<(seq<Json>, Words)>)
    ensures r.Some? ==> |r.value.1| < |t|
    decreases |t|, 1
  {
    var first := Parse(t);
    if first.None? || first.value.1 == [] then None
    else if first.value.1[0] == 93 then Some(([first.value.0], first.value.1[1..]))
    else if first.value.1[0] != 44 then None
    else
      var rest := ParseItems(first.value.1[1..]);
      if rest.None? then None else Some(([first.value.0] + rest.value.0, rest.value.1))
  }

  function ParseMember(t: Words): (r: Option<(Member, Words)>)
    ensures r.Some? ==> |r.value.1| < |t|
    decreases |t|, 1
  {
    if t == [] || t[0] != 34 then None
    else
      var key := ParseString(t[1..]);
      if key.None? || key.value.1 == [] || key.value.1[0] != 58 then None
      else
        var value := Parse(key.value.1[1..]);
        if value.None? then None else Some((Member(key.value.0, value.value.0), value.value.1))
  }

  function ParseMembers(t: Words): (r: Option<(seq<Member>, Words)>)
    ensures r.Some? ==> |r.value.1| < |t|
    decreases |t|, 2
  {
    var first := ParseMember(t);
    if first.None? || first.value.1 == [] then None
    else if first.value.1[0] == 125 then Some(([first.value.0], first.value.1[1..]))
    else if first.value.1[0] != 44 then None
    else
      var rest := ParseMembers(first.value.1[1..]);
      if rest.None? then None else Some(([first.value.0] + rest.value.0, rest.value.1))
  }

  /*** The parser inverts the printer ***/

  lemma HexInverts(d: nat)
    requires d < 16
    ensures HexValueOf(HexDigit(d)) == Some(d)
  {}

  lemma FourDigits(u: nat)
    requires u < 0x10000
    ensures u / 4096 < 16 && u == u / 4096 * 4096 + u / 256 % 16 * 256 + u / 16 % 16 * 16 + u % 16
  {
    var v, w := u / 16, u / 256;
    assert v / 16 == w && w / 16 == u / 4096;
    assert u == v * 16 + u % 16 && v == w * 16 + v % 16 && w == u / 4096 * 16 + w % 16;
  }

  lemma UnicodeInverts(u: nat, t: Words)
    requires u < 0x10000 && |t| >= 6 && t[..6] == UnicodeEscape(u)
    ensures Unescape(t) == Some((u, 6))
  {
    FourDigits(u);
    HexInverts(u / 4096);
    HexInverts(u / 256 % 16);
    HexInverts(u / 16 % 16);
    HexInverts(u % 16);
    var e := UnicodeEscape(u);
    assert t[1] == e[1] && t[2] == e[2] && t[3] == e[3] && t[4] == e[4] && t[5] == e[5];
  }

  lemma EscapeInverts(u: nat, rest: Words)
    requires EscapeUnit(u)[0] == 92
    ensures Unescape(EscapeUnit(u) + rest) == Some((u, |EscapeUnit(u)|))
  {
    if |EscapeUnit(u)| == 6 {
      UnicodeInverts(u, EscapeUnit(u) + rest);
    }
  }

  /** What the parser does with one printed unit before an already parsed rest. */
  lemma UnitInverts(u: nat, t: Words, s: Words, rest: Words)
    requires ParseString(t) == Some((s, rest))
    ensures ParseString(EscapeUnit(u) + t) == Some(([u] + s, rest))
  {
    var text := EscapeUnit(u) + t;
    assert text[|EscapeUnit(u)|..] == t;
    if EscapeUnit(u)[0] == 92 { EscapeInverts(u, t); }
  }

  lemma PairInverts(high: nat, low: nat, t: Words, s: Words, rest: Words)
    requires IsHigh(high) && IsLow(low) && ParseString(t) == Some((s, rest))
    ensures ParseString([high, low] + t) == Some(([high, low] + s, rest))
  {
    var text := [high, low] + t;
    assert text[1..] == [low] + t && text[1..][1..] == t;
    assert [high] + ([low] + s) == [high, low] + s;
  }

  lemma Regroup<T>(a: seq<T>, b: seq<T>, c: seq<T>)
    ensures (a + b) + c == a + (b + c)
  {}

  lemma Wrapped(left: Words, body: Words, right: Words, rest: Words)
    ensures (left + body + right) + rest == left + (body + (right + rest))
  {}

  lemma {:induction false} StringInverts(s: Words, rest: Words)
    ensures ParseString(Escaped(s) + ([34] + rest)) == Some((s, rest))
    decreases |s|
  {
    var close := [34] + rest;
    if s == [] {
      assert Escaped(s) + close == close && close[1..] == rest;
    } else {
      var n := if |s| >= 2 && IsHigh(s[0]) && IsLow(s[1]) then 2 else 1;
      var first := if n == 2 then s[..2] else EscapeUnit(s[0]);
      StringInverts(s[n..], rest);
      StringStep(s, n, first, Escaped(s[n..]) + close, rest);
      Regroup(first, Escaped(s[n..]), close);
    }
  }

  lemma StringStep(s: Words, n: nat, first: Words, t: Words, rest: Words)
    requires 1 <= n <= |s| && ParseString(t) == Some((s[n..], rest))
    requires if n == 2 then IsHigh(s[0]) && IsLow(s[1]) && first == s[..2] else n == 1 && first == EscapeUnit(s[0])
    ensures ParseString(first + t) == Some((s, rest))
  {
    if n == 2 {
      PairInverts(s[0], s[1], t, s[2..], rest);
      assert first == [s[0], s[1]];
    } else {
      UnitInverts(s[0], t, s[1..], rest);
    }
    assert s == (if n == 2 then [s[0], s[1]] else [s[0]]) + s[n..];
  }

  predicate Ends(rest: Words) {
    rest == [] || !IsDigit(rest[0])
  }

  lemma NumberInverts(n: nat, rest: Words)
    requires Ends(rest)
    ensures Parse(Digits(n) + rest) == Some((Num(n), rest))
  {
    NumberOfDigits(n);
    var t := Digits(n) + rest;
    assert forall i | 0 <= i < |Digits(n)| :: t[i] == Digits(n)[i];
    assert IsDigit(t[0]);
    assert rest != [] ==> t[|Digits(n)|] == rest[0];
    var k := DigitRun(t);
    assert k == |Digits(n)|;
    assert t[..k] == Digits(n) && t[k..] == rest;
  }

  /*** One step of the parser, on texts already taken apart ***/

  lemma StringStarts(t: Words, s: Words, rest: Words)
    requires ParseString(t) == Some((s, rest))
    ensures Parse([34] + t) == Some((Str(s), rest))
  {
    assert ([34] + t)[1..] == t;
  }

  lemma ArrayStarts(t: Words, items: seq<Json>, rest: Words)
    requires ParseItems(t) == Some((items, rest)) && t != [] && t[0] != 93
    ensures Parse([91] + t) == Some((Arr(items), rest))
  {
    assert ([91] + t)[1..] == t;
  }

  lemma ObjectStarts(t: Words, members: seq<Member>, rest: Words)
    requires ParseMembers(t) == Some((members, rest)) && t != [] && t[0] == 34
    ensures Parse([123] + t) == Some((Obj(members), rest))
  {
    assert ([123] + t)[1..] == t;
  }

  lemma LiteralInverts(b: bool, rest: Words)
    ensures Parse(Print(Bool(b)) + rest) == Some((Bool(b), rest))
  {
    var literal := Print(Bool(b));
    assert (literal + rest)[..|literal|] == literal && (literal + rest)[|literal|..] == rest;
  }

  lemma EmptyInverts(rest: Words)
    ensures Parse(Print(Arr([])) + rest) == Some((Arr([]), rest))
    ensures Parse(Print(Obj([])) + rest) == Some((Obj([]), rest))
  {
    assert Print(Arr([])) + rest == [91, 93] + rest && ([91, 93] + rest)[2..] == rest;
    assert Print(Obj([])) + rest == [123, 125] + rest && ([123, 125] + rest)[2..] == rest;
  }

  lemma LastItem(t: Words, j: Json, rest: Words)
    requires Parse(t) == Some((j, [93] + rest))
    ensures ParseItems(t) == Some(([j], rest))
  {
    assert ([93] + rest)[1..] == rest;
  }

  lemma NextItem(t: Words, j: Json, tail: Words, items: seq<Json>, rest: Words)
    requires Parse(t) == Some((j, [44] + tail)) && ParseItems(tail) == Some((items, rest))
    ensures ParseItems(t) == Some(([j] + items, rest))
  {
    assert ([44] + tail)[1..] == tail;
  }

  lemma LastMember(t: Words, m: Member, rest: Words)
    requires ParseMember(t) == Some((m, [125] + rest))
    ensures ParseMembers(t) == Some(([m], rest))
  {
    assert ([125] + rest)[1..] == rest;
  }

  lemma NextMember(t: Words, m: Member, tail: Words, members: seq<Member>, rest: Words)
    requires ParseMember(t) == Some((m, [44] + tail)) && ParseMembers(tail) == Some((members, rest))
    ensures ParseMembers(t) == Some(([m] + members, rest))
  {
    assert ([44] + tail)[1..] == tail;
  }

  lemma MemberSplits(t: Words, m: Member, value: Words, rest: Words)
    requires ParseString(t) == Some((m.key, [58] + value)) && Parse(value) == Some((m.value, rest))
    ensures ParseMember([34] + t) == Some((m, rest))
  {
    assert ([34] + t)[1..] == t && ([58] + value)[1..] == value;
  }

  /*** The induction ***/

  /** Whatever follows a printed value, unless it continues a number, the parser stops exactly there. */
  lemma {:induction false} ParseInverts(j: Json, rest: Words)
    requires Ends(rest)
    ensures Parse(Print(j) + rest) == Some((j, rest))
    decreases j, 0
  {
    match j
    case Str(s) =>
      StringInverts(s, rest);
      StringStarts(Escaped(s) + ([34] + rest), s, rest);
      Wrapped([34], Escaped(s), [34], rest);
    case Num(n) => NumberInverts(n, rest);
    case Bool(b) => LiteralInverts(b, rest);
    case Arr(items) =>
      if items == [] {
        EmptyInverts(rest);
      } else {
        ItemsInvert(items, rest);
        ArrayStarts(Items(items) + ([93] + rest), items, rest);
        Wrapped([91], Items(items), [93], rest);
      }
    case Obj(members) =>
      if members == [] {
        EmptyInverts(rest);
      } else {
        MembersInvert(members, rest);
        ObjectStarts(Members(members) + ([125] + rest), members, rest);
        Wrapped([123], Members(members), [125], rest);
      }
  }

  lemma PrintStart(j: Json)
    ensures Print(j) != [] && Print(j)[0] != 93
  {
    if j.Num? { NumberOfDigits(j.value); }
  }

  lemma {:induction false} ItemsInvert(items: seq<Json>, rest: Words)
    requires items != []
    ensures ParseItems(Items(items) + ([93] + rest)) == Some((items, rest))
    ensures Items(items) != [] && Items(items)[0] != 93
    decreases items, 1
  {
    PrintStart(items[0]);
    if |items| == 1 {
      ParseInverts(items[0], [93] + rest);
      LastItem(Print(items[0]) + ([93] + rest), items[0], rest);
      assert items == [items[0]];
    } else {
      var tail := Items(items[1..]) + ([93] + rest);
      ItemsInvert(items[1..], rest);
      ParseInverts(items[0], [44] + tail);
      NextItem(Print(items[0]) + ([44] + tail), items[0], tail, items[1..], rest);
      assert [items[0]] + items[1..] == items;
      Wrapped(Print(items[0]), [44], Items(items[1..]), [93] + rest);
    }
  }

  lemma {:induction false} MemberInverts(m: Member, rest: Words)
    requires Ends(rest)
    ensures ParseMember(MemberText(m) + rest) == Some((m, rest))
    decreases m, 1
  {
    var value := Print(m.value) + rest;
    StringInverts(m.key, [58] + value);
    ParseInverts(m.value, rest);
    MemberSplits(Escaped(m.key) + ([34] + ([58] + value)), m, value, rest);
    MemberRegroups(Escaped(m.key), Print(m.value), rest);
  }

  lemma MemberRegroups(key: Words, value: Words, rest: Words)
    ensures ([34] + key + [34] + ([58] + value)) + rest == [34] + (key + ([34] + ([58] + (value + rest))))
  {
    Wrapped([34], key, [34], ([58] + value) + rest);
    Regroup([58], value, rest);
    Regroup([34] + key + [34], [58] + value, rest);
  }

  lemma {:induction false} MembersInvert(members: seq<Member>, rest: Words)
    requires members != []
    ensures ParseMembers(Members(members) + ([125] + rest)) == Some((members, rest))
    ensures Members(members) != [] && Members(members)[0] == 34
    decreases members, 2
  {
    if |members| == 1 {
      MemberInverts(members[0], [125] + rest);
      LastMember(MemberText(members[0]) + ([125] + rest), members[0], rest);
      assert members == [members[0]];
    } else {
      var tail := Members(members[1..]) + ([125] + rest);
      MembersInvert(members[1..], rest);
      MemberInverts(members[0], [44] + tail);
      NextMember(MemberText(members[0]) + ([44] + tail), members[0], tail, members[1..], rest);
      assert [members[0]] + members[1..] == members;
      Wrapped(MemberText(members[0]), [44], Members(members[1..]), [125] + rest);
    }
  }

  /** A text determines its value. */
  lemma PrintIsUnambiguous(a: Json, b: Json)
    ensures Print(a) == Print(b) <==> a == b
  {
    ParseInverts(a, []);
    ParseInverts(b, []);
    assert Print(a) + [] == Print(a) && Print(b) + [] == Print(b);
  }

  /*** The text is proper UTF-16, so its UTF-8 form exists and determines it ***/

  predicate Paired(t: Words)
    decreases |t|
  {
    if t == [] then true
    else if IsHigh(t[0]) then |t| > 1 && IsLow(t[1]) && Paired(t[2..])
    else !IsLow(t[0]) && Paired(t[1..])
  }

  lemma {:induction false} PairedConcat(a: Words, b: Words)
    requires Paired(a) && Paired(b)
    ensures Paired(a + b)
    decreases |a|
  {
    if a == [] {
      assert a + b == b;
    } else {
      var n := if IsHigh(a[0]) then 2 else 1;
      PairedConcat(a[n..], b);
      assert (a + b)[n..] == a[n..] + b;
    }
  }

  lemma {:induction false} PlainIsPaired(t: Words)
    requires forall i | 0 <= i < |t| :: !IsHigh(t[i]) && !IsLow(t[i])
    ensures Paired(t)
  {
    if t != [] { PlainIsPaired(t[1..]); }
  }

  lemma {:induction false} EscapedIsPaired(s: Words)
    ensures Paired(Escaped(s))
    decreases |s|
  {
    if s != [] {
      if |s| >= 2 && IsHigh(s[0]) && IsLow(s[1]) {
        EscapedIsPaired(s[2..]);
        assert s[..2][2..] == [];
        PairedConcat(s[..2], Escaped(s[2..]));
      } else {
        EscapedIsPaired(s[1..]);
        PlainIsPaired(EscapeUnit(s[0]));
        PairedConcat(EscapeUnit(s[0]), Escaped(s[1..]));
      }
    }
  }

  lemma WrapIsPaired(left: Words, body: Words, right: Words)
    requires Paired(left) && Paired(body) && Paired(right)
    ensures Paired(left + body + right)
  {
    PairedConcat(left, body);
    PairedConcat(left + body, right);
  }

  /** No printed text holds an unpaired surrogate, whatever strings went in. */
  lemma {:induction false} PrintIsPaired(j: Json)
    ensures Paired(Print(j))
    decreases j, 0
  {
    match j
    case Str(s) => QuotedIsPaired(s);
    case Num(n) =>
      NumberOfDigits(n);
      PlainIsPaired(Digits(n));
    case Bool(b) => PlainIsPaired(Print(j));
    case Arr(items) =>
      ItemsArePaired(items);
      PlainIsPaired([91]);
      PlainIsPaired([93]);
      WrapIsPaired([91], Items(items), [93]);
    case Obj(members) =>
      MembersArePaired(members);
      PlainIsPaired([123]);
      PlainIsPaired([125]);
      WrapIsPaired([123], Members(members), [125]);
  }

  lemma QuotedIsPaired(s: Words)
    ensures Paired([34] + Escaped(s) + [34])
  {
    EscapedIsPaired(s);
    PlainIsPaired([34]);
    WrapIsPaired([34], Escaped(s), [34]);
  }

  lemma {:induction false} ItemsArePaired(items: seq<Json>)
    ensures Paired(Items(items))
    decreases items, 1
  {
    if items != [] {
      PrintIsPaired(items[0]);
      if |items| > 1 {
        ItemsArePaired(items[1..]);
        PlainIsPaired([44]);
        WrapIsPaired(Print(items[0]), [44], Items(items[1..]));
      }
    }
  }

  lemma {:induction false} MembersArePaired(members: seq<Member>)
    ensures Paired(Members(members))
    decreases members, 2
  {
    if members != [] {
      MemberIsPaired(members[0]);
      if |members| > 1 {
        MembersArePaired(members[1..]);
        PlainIsPaired([44]);
        WrapIsPaired(MemberText(members[0]), [44], Members(members[1..]));
      }
    }
  }

  lemma {:induction false} MemberIsPaired(m: Member)
    ensures Paired(MemberText(m))
    decreases m, 1
  {
    QuotedIsPaired(m.key);
    PlainIsPaired([58]);
    PrintIsPaired(m.value);
    PairedConcat([58], Print(m.value));
    PairedConcat([34] + Escaped(m.key) + [34], [58] + Print(m.value));
  }
}
