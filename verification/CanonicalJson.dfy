/** Canonical JSON: the text idempotency keys are digested from.  Values are those of
    sections 4 to 7 of RFC 8259; a number is its shortest decimal text. */
module CanonicalJson {
  import opened Prelude
  import opened CodeUnits
  import opened Sorting

  datatype JsonValue =
    | Null
    | Boolean(b: bool)
    | Numeral(digits: JsString)
    | Text(s: JsString)
    | Items(items: seq<JsonValue>)
    | Members(members: seq<(JsString, JsonValue)>)

  const Quote: CodeUnit := 34
  const Comma: CodeUnit := 44
  const Colon: CodeUnit := 58
  const Backslash: CodeUnit := 92
  const OpenBracket: CodeUnit := 91
  const CloseBracket: CodeUnit := 93
  const OpenBrace: CodeUnit := 123
  const CloseBrace: CodeUnit := 125
  const LowerU: CodeUnit := 117

  const NullText: JsString := [110, 117, 108, 108]
  const TrueText: JsString := [116, 114, 117, 101]
  const FalseText: JsString := [102, 97, 108, 115, 101]

  // ---------------------------------------------------------------- well-formed values

  /** A digit, a sign, a point or an exponent mark. */
  predicate NumeralUnit(u: CodeUnit) {
    48 <= u <= 57 || u == 43 || u == 45 || u == 46 || u == 69 || u == 101
  }

  predicate IsNumeral(d: JsString) {
    && d != [] && (d[0] == 45 || 48 <= d[0] <= 57)
    && forall i :: 0 <= i < |d| ==> NumeralUnit(d[i])
  }

  predicate DistinctKeys(ms: seq<(JsString, JsonValue)>) {
    forall i, j :: 0 <= i < j < |ms| ==> ms[i].0 != ms[j].0
  }

  predicate WellFormed(v: JsonValue) {
    match v
    case Null => true
    case Boolean(_) => true
    case Numeral(d) => IsNumeral(d)
    case Text(_) => true
    case Items(items) => forall i :: 0 <= i < |items| ==> WellFormed(items[i])
    case Members(ms) => DistinctKeys(ms) && forall i :: 0 <= i < |ms| ==> WellFormed(ms[i].1)
  }

  predicate HasKey(ms: seq<(JsString, JsonValue)>, k: JsString) {
    exists i :: 0 <= i < |ms| && ms[i].0 == k
  }

  function KeyIndex(ms: seq<(JsString, JsonValue)>, k: JsString): (r: nat)
    requires HasKey(ms, k)
    ensures r < |ms| && ms[r].0 == k
  {
    if ms[0].0 == k then 0 else KeyIndex(ms[1..], k) + 1
  }

  /** Equal, ignoring the order of members in objects. */
  ghost predicate Same(a: JsonValue, b: JsonValue) {
    match a
    case Items(items) =>
      && b.Items? && |items| == |b.items|
      && forall i :: 0 <= i < |items| ==> Same(items[i], b.items[i])
    case Members(ms) =>
      && b.Members? && (forall k :: HasKey(ms, k) <==> HasKey(b.members, k))
      && forall k :: HasKey(ms, k) && HasKey(b.members, k) ==>
        Same(ms[KeyIndex(ms, k)].1, b.members[KeyIndex(b.members, k)].1)
    case _ => a == b
  }

  // ---------------------------------------------------------------- quoting strings

  predicate High(u: CodeUnit) {
    0xD800 <= u < 0xDC00
  }

  predicate Low(u: CodeUnit) {
    0xDC00 <= u < 0xE000
  }

  function HexDigit(n: int): (r: CodeUnit)
    requires 0 <= n < 16
  {
    if n < 10 then 48 + n else 87 + n
  }

  function HexValue(u: CodeUnit): int {
    if u < 58 then u - 48 else u - 87
  }

  function Escaped(u: CodeUnit): JsString {
    [Backslash, LowerU, HexDigit(u / 4096), HexDigit(u / 256 % 16), HexDigit(u / 16 % 16), HexDigit(u % 16)]
  }

  /** The letter of a two-unit escape. */
  function Short(u: CodeUnit): Option<CodeUnit> {
    if u == 8 then Some(98)
    else if u == 9 then Some(116)
    else if u == 10 then Some(110)
    else if u == 12 then Some(102)
    else if u == 13 then Some(114)
    else if u == Quote || u == Backslash then Some(u)
    else None
  }

  function Unshort(u: CodeUnit): CodeUnit {
    if u == 98 then 8
    else if u == 116 then 9
    else if u == 110 then 10
    else if u == 102 then 12
    else if u == 114 then 13
    else u
  }

  /** Control characters, quotes, backslashes and unpaired surrogates are escaped. */
  function Escape(s: JsString): JsString {
    if s == [] then []
    else if High(s[0]) && |s| > 1 && Low(s[1]) then [s[0], s[1]] + Escape(s[2..])
    else if Short(s[0]).Some? then [Backslash, Short(s[0]).value] + Escape(s[1..])
    else if s[0] < 32 || High(s[0]) || Low(s[0]) then Escaped(s[0]) + Escape(s[1..])
    else [s[0]] + Escape(s[1..])
  }

  function Quoted(s: JsString): JsString {
    [Quote] + Escape(s) + [Quote]
  }

  /** Read back up to the closing quote: the string and what follows it. */
  function Unescape(t: JsString): (JsString, JsString) {
    if t == [] then ([], [])
    else if t[0] == Quote then ([], t[1..])
    else if t[0] == Backslash && |t| >= 6 && t[1] == LowerU then
      var (s, rest) := Unescape(t[6..]);
      var n := ((HexValue(t[2]) * 16 + HexValue(t[3])) * 16 + HexValue(t[4])) * 16 + HexValue(t[5]);
      ([if 0 <= n < 0x1_0000 then n else 0] + s, rest)
    else if t[0] == Backslash && |t| >= 2 then
      var (s, rest) := Unescape(t[2..]);
      ([Unshort(t[1])] + s, rest)
    else
      var (s, rest) := Unescape(t[1..]);
      ([t[0]] + s, rest)
  }

  lemma HexRoundTrip(u: CodeUnit)
    ensures var e := Escaped(u);
            ((HexValue(e[2]) * 16 + HexValue(e[3])) * 16 + HexValue(e[4])) * 16 + HexValue(e[5]) == u
  {
    var a, b, c := u / 16, u / 256, u / 4096;
    assert u / 16 / 16 == u / 256 && u / 256 / 16 == u / 4096;
    assert c < 16;
    assert HexValue(HexDigit(c)) == c;
    assert HexValue(HexDigit(b % 16)) == b % 16 && c * 16 + b % 16 == b;
    assert HexValue(HexDigit(a % 16)) == a % 16 && b * 16 + a % 16 == a;
    assert HexValue(HexDigit(u % 16)) == u % 16 && a * 16 + u % 16 == u;
  }

  lemma ReadPlain(u: CodeUnit, tail: JsString)
    requires u != Quote && u != Backslash
    ensures Unescape([u] + tail) == ([u] + Unescape(tail).0, Unescape(tail).1)
  {
    assert ([u] + tail)[1..] == tail;
  }

  lemma ReadShort(u: CodeUnit, tail: JsString)
    requires Short(u).Some?
    ensures Unescape([Backslash, Short(u).value] + tail) == ([u] + Unescape(tail).0, Unescape(tail).1)
  {
    assert ([Backslash, Short(u).value] + tail)[2..] == tail;
  }

  lemma ReadHex(u: CodeUnit, tail: JsString)
    ensures Unescape(Escaped(u) + tail) == ([u] + Unescape(tail).0, Unescape(tail).1)
  {
    HexRoundTrip(u);
    assert (Escaped(u) + tail)[6..] == tail;
  }

  predicate PairFirst(s: JsString) {
    |s| > 1 && High(s[0]) && Low(s[1])
  }

  lemma PairReads(s: JsString, tail: JsString)
    requires PairFirst(s) && Unescape(tail).0 == s[2..]
    ensures Unescape([s[0], s[1]] + tail) == (s, Unescape(tail).1)
  {
    assert [s[0], s[1]] + tail == [s[0]] + ([s[1]] + tail);
    ReadPlain(s[1], tail);
    ReadPlain(s[0], [s[1]] + tail);
    assert s == [s[0]] + ([s[1]] + s[2..]);
  }

  lemma OneReads(s: JsString, tail: JsString)
    requires s != [] && !PairFirst(s) && Unescape(tail).0 == s[1..]
    ensures Escape(s) == Escape(s)[..|Escape(s)| - |Escape(s[1..])|] + Escape(s[1..])
    ensures Unescape(Escape(s)[..|Escape(s)| - |Escape(s[1..])|] + tail) == (s, Unescape(tail).1)
  {
    var head := Escape(s)[..|Escape(s)| - |Escape(s[1..])|];
    assert s == [s[0]] + s[1..];
    if Short(s[0]).Some? {
      assert head == [Backslash, Short(s[0]).value];
      ReadShort(s[0], tail);
    } else if s[0] < 32 || High(s[0]) || Low(s[0]) {
      assert head == Escaped(s[0]);
      ReadHex(s[0], tail);
    } else {
      assert head == [s[0]];
      ReadPlain(s[0], tail);
    }
  }

  function HeadOf(s: JsString): JsString
    requires s != []
  {
    Escape(s)[..|Escape(s)| - |Escape(if PairFirst(s) then s[2..] else s[1..])|]
  }

  lemma HeadThenTail(s: JsString, rest: JsString)
    requires s != []
    ensures var tail := Escape(if PairFirst(s) then s[2..] else s[1..]);
            Escape(s) + [Quote] + rest == HeadOf(s) + (tail + [Quote] + rest)
    ensures PairFirst(s) ==> HeadOf(s) == [s[0], s[1]]
  {
    var tail := Escape(if PairFirst(s) then s[2..] else s[1..]);
    assert Escape(s) == HeadOf(s) + tail;
  }

  /** A quoted string can be read back, whatever follows it. */
  lemma {:induction false} QuoteReads(s: JsString, rest: JsString)
    ensures Unescape(Escape(s) + [Quote] + rest) == (s, rest)
  {
    if s == [] {
      assert Escape(s) + [Quote] + rest == [Quote] + rest;
    } else {
      HeadThenTail(s, rest);
      if PairFirst(s) {
        QuoteReads(s[2..], rest);
        PairReads(s, Escape(s[2..]) + [Quote] + rest);
      } else {
        QuoteReads(s[1..], rest);
        OneReads(s, Escape(s[1..]) + [Quote] + rest);
      }
    }
  }

  lemma QuotedPrefix(a: JsString, b: JsString, x: JsString, y: JsString)
    requires Quoted(a) + x == Quoted(b) + y
    ensures a == b && x == y
  {
    assert (Quoted(a) + x)[1..] == Escape(a) + [Quote] + x;
    assert (Quoted(b) + y)[1..] == Escape(b) + [Quote] + y;
    QuoteReads(a, x);
    QuoteReads(b, y);
  }

  // ---------------------------------------------------------------- the canonical text

  function Keys(ms: seq<(JsString, JsonValue)>): (r: seq<JsString>)
    ensures |r| == |ms|
    ensures forall i :: 0 <= i < |r| ==> r[i] == ms[i].0
  {
    seq(|ms|, i requires 0 <= i < |ms| => ms[i].0)
  }

  predicate NotAbove(a: JsString, b: JsString) {
    !Less(b, a)
  }

  function SortedKeys(ms: seq<(JsString, JsonValue)>): (r: seq<JsString>)
    ensures forall k :: k in r ==> HasKey(ms, k)
  {
    var keys := Keys(ms);
    var r := Sort(keys, NotAbove);
    assert forall k :: k in r ==> k in multiset(keys);
    r
  }

  function Canonicalize(v: JsonValue): JsString
    decreases v, 1
  {
    match v
    case Null => NullText
    case Boolean(b) => if b then TrueText else FalseText
    case Numeral(d) => d
    case Text(s) => Quoted(s)
    case Items(items) => [OpenBracket] + CanonicalItems(v, 0) + [CloseBracket]
    case Members(ms) => [OpenBrace] + CanonicalMembers(v, SortedKeys(ms)) + [CloseBrace]
  }

  function CanonicalItems(v: JsonValue, i: nat): JsString
    requires v.Items? && i <= |v.items|
    decreases v, 0, |v.items| - i
  {
    if i == |v.items| then []
    else (if i > 0 then [Comma] else []) + Canonicalize(v.items[i]) + CanonicalItems(v, i + 1)
  }

  function CanonicalMembers(v: JsonValue, keys: seq<JsString>): JsString
    requires v.Members? && forall k :: k in keys ==> HasKey(v.members, k)
    decreases v, 0, |keys|
  {
    if keys == [] then []
    else
      Quoted(keys[0]) + [Colon] + Canonicalize(v.members[KeyIndex(v.members, keys[0])].1)
      + (if |keys| > 1 then [Comma] else []) + CanonicalMembers(v, keys[1..])
  }

  // ---------------------------------------------------------------- texts that end where they should

  function KindOf(v: JsonValue): nat {
    match v
    case Null => 0
    case Boolean(_) => 1
    case Numeral(_) => 2
    case Text(_) => 3
    case Items(_) => 4
    case Members(_) => 5
  }

  function KindByFirst(u: CodeUnit): nat {
    if u == 110 then 0
    else if u == 116 || u == 102 then 1
    else if u == 45 || 48 <= u <= 57 then 2
    else if u == Quote then 3
    else if u == OpenBracket then 4
    else if u == OpenBrace then 5
    else 6
  }

  lemma FirstUnit(v: JsonValue)
    requires WellFormed(v)
    ensures Canonicalize(v) != [] && KindByFirst(Canonicalize(v)[0]) == KindOf(v)
  {
  }

  predicate Delimits(x: JsString) {
    x == [] || x[0] == Comma || x[0] == CloseBracket || x[0] == CloseBrace
  }

  lemma NumeralNotLonger(a: JsString, b: JsString, x: JsString, y: JsString)
    requires IsNumeral(b) && Delimits(x) && a + x == b + y
    ensures |b| <= |a|
  {
    var t, n := a + x, |a|;
    assert forall i :: 0 <= i < |b| ==> t[i] == (b + y)[i] == b[i];
    assert n < |t| ==> t[n] == x[0];
  }

  lemma NumeralPrefix(a: JsString, b: JsString, x: JsString, y: JsString)
    requires IsNumeral(a) && IsNumeral(b) && Delimits(x) && Delimits(y) && a + x == b + y
    ensures a == b && x == y
  {
    NumeralNotLonger(a, b, x, y);
    NumeralNotLonger(b, a, y, x);
    SplitAt(a, b, x, y);
  }

  lemma SameHead(u: CodeUnit, x: JsString, w: CodeUnit, y: JsString)
    requires [u] + x == [w] + y
    ensures u == w && x == y
  {
    assert ([u] + x)[0] == u && ([w] + y)[0] == w && ([u] + x)[1..] == x && ([w] + y)[1..] == y;
  }

  function ItemsText(v: JsonValue, i: nat, x: JsString): JsString
    requires v.Items? && i <= |v.items|
  {
    CanonicalItems(v, i) + [CloseBracket] + x
  }

  function MembersText(v: JsonValue, keys: seq<JsString>, x: JsString): JsString
    requires v.Members? && forall k :: k in keys ==> HasKey(v.members, k)
  {
    CanonicalMembers(v, keys) + [CloseBrace] + x
  }

  function Lookup(v: JsonValue, k: JsString): JsonValue
    requires v.Members? && HasKey(v.members, k)
  {
    v.members[KeyIndex(v.members, k)].1
  }

  lemma ItemsTextIs(v: JsonValue, i: nat, x: JsString)
    requires v.Items? && i <= |v.items|
    ensures ItemsText(v, i, x)
         == if i == |v.items| then [CloseBracket] + x
            else if i == 0 then Canonicalize(v.items[i]) + ItemsText(v, i + 1, x)
            else [Comma] + (Canonicalize(v.items[i]) + ItemsText(v, i + 1, x))
  {
  }

  lemma MembersTextIs(v: JsonValue, keys: seq<JsString>, x: JsString)
    requires v.Members? && forall k :: k in keys ==> HasKey(v.members, k)
    ensures keys == [] ==> MembersText(v, keys, x) == [CloseBrace] + x
    ensures keys != [] ==>
      MembersText(v, keys, x)
      == Quoted(keys[0]) + ([Colon] + (Canonicalize(Lookup(v, keys[0])) + MembersRest(v, keys, x)))
  {
    if keys != [] {
      var rest := CanonicalMembers(v, keys[1..]);
      var comma := if |keys| > 1 then [Comma] else [];
      assert MembersRest(v, keys, x) == comma + rest + [CloseBrace] + x by { RestIs(v, keys, x); }
      FirstOfFive(Quoted(keys[0]), Canonicalize(Lookup(v, keys[0])), comma + rest, [CloseBrace], x);
      assert MembersText(v, keys, x)
          == Quoted(keys[0]) + [Colon] + Canonicalize(Lookup(v, keys[0])) + (comma + rest) + [CloseBrace] + x by {
        Regroup(Quoted(keys[0]) + [Colon] + Canonicalize(Lookup(v, keys[0])), comma, rest);
      }
    }
  }

  lemma RestIs(v: JsonValue, keys: seq<JsString>, x: JsString)
    requires v.Members? && keys != [] && forall k :: k in keys ==> HasKey(v.members, k)
    ensures MembersRest(v, keys, x)
            == (if |keys| > 1 then [Comma] else []) + CanonicalMembers(v, keys[1..]) + [CloseBrace] + x
  {
  }

  lemma FirstOfFive(quoted: JsString, value: JsString, rest: JsString, close: JsString, x: JsString)
    ensures quoted + [Colon] + value + rest + close + x == quoted + ([Colon] + (value + (rest + close + x)))
  {
  }

  /** What follows the first member. */
  function MembersRest(v: JsonValue, keys: seq<JsString>, x: JsString): JsString
    requires v.Members? && keys != [] && forall k :: k in keys ==> HasKey(v.members, k)
  {
    if |keys| > 1 then [Comma] + MembersText(v, keys[1..], x) else [CloseBrace] + x
  }

  /** No value's text is the beginning of another's, as long as a delimiter follows. */
  lemma {:induction false} TextDetermines(a: JsonValue, b: JsonValue, x: JsString, y: JsString)
    requires WellFormed(a) && WellFormed(b) && Delimits(x) && Delimits(y)
    requires Canonicalize(a) + x == Canonicalize(b) + y
    ensures Same(a, b) && x == y
    decreases a, 1
  {
    FirstUnit(a);
    FirstUnit(b);
    assert Canonicalize(a)[0] == (Canonicalize(a) + x)[0] && Canonicalize(b)[0] == (Canonicalize(b) + y)[0];
    match a
    case Null => SplitAt(Canonicalize(a), Canonicalize(b), x, y);
    case Boolean(_) => SplitAt(Canonicalize(a), Canonicalize(b), x, y);
    case Numeral(d) => NumeralPrefix(d, b.digits, x, y);
    case Text(s) => QuotedPrefix(s, b.s, x, y);
    case Items(_) => ArrayDetermines(a, b, x, y);
    case Members(_) => ObjectDetermines(a, b, x, y);
  }

  lemma {:induction false} ArrayDetermines(a: JsonValue, b: JsonValue, x: JsString, y: JsString)
    requires WellFormed(a) && WellFormed(b) && a.Items? && b.Items? && Canonicalize(a) + x == Canonicalize(b) + y
    ensures Same(a, b) && x == y
    decreases a, 0, |a.items| + 1
  {
    assert Canonicalize(a) + x == [OpenBracket] + ItemsText(a, 0, x);
    assert Canonicalize(b) + y == [OpenBracket] + ItemsText(b, 0, y);
    SameHead(OpenBracket, ItemsText(a, 0, x), OpenBracket, ItemsText(b, 0, y));
    ItemsDetermine(a, b, 0, x, y);
  }

  lemma ObjectText(v: JsonValue, x: JsString)
    requires v.Members?
    ensures Canonicalize(v) + x == [OpenBrace] + MembersText(v, SortedKeys(v.members), x)
  {
  }

  lemma {:induction false} ObjectDetermines(a: JsonValue, b: JsonValue, x: JsString, y: JsString)
    requires WellFormed(a) && WellFormed(b) && a.Members? && b.Members? && Canonicalize(a) + x == Canonicalize(b) + y
    ensures Same(a, b) && x == y
    decreases a, 0, |SortedKeys(a.members)| + 1
  {
    var ka, kb := SortedKeys(a.members), SortedKeys(b.members);
    ObjectText(a, x);
    ObjectText(b, y);
    SameHead(OpenBrace, MembersText(a, ka, x), OpenBrace, MembersText(b, kb, y));
    MembersDetermine(a, b, ka, kb, x, y);
    SortedSame(a, b);
  }

  lemma SortedSame(a: JsonValue, b: JsonValue)
    requires a.Members? && b.Members? && SortedKeys(a.members) == SortedKeys(b.members)
    requires forall k :: k in SortedKeys(a.members) ==> HasKey(b.members, k) && Same(Lookup(a, k), Lookup(b, k))
    ensures Same(a, b)
  {
    SortedKeysAreKeys(a.members);
    SortedKeysAreKeys(b.members);
    MembersSame(a, b);
  }

  lemma MembersSame(a: JsonValue, b: JsonValue)
    requires a.Members? && b.Members?
    requires forall k :: HasKey(a.members, k) <==> HasKey(b.members, k)
    requires forall k :: HasKey(a.members, k) && HasKey(b.members, k) ==> Same(Lookup(a, k), Lookup(b, k))
    ensures Same(a, b)
  {
    assert forall k :: HasKey(a.members, k) && HasKey(b.members, k) ==>
      a.members[KeyIndex(a.members, k)].1 == Lookup(a, k) && b.members[KeyIndex(b.members, k)].1 == Lookup(b, k);
  }

  lemma SplitAt(a: JsString, b: JsString, x: JsString, y: JsString)
    requires a + x == b + y && |a| == |b|
    ensures a == b && x == y
  {
    assert (a + x)[..|a|] == a && (b + y)[..|a|] == b && (a + x)[|a|..] == x && (b + y)[|a|..] == y;
  }

  lemma {:induction false} ItemsDetermine(a: JsonValue, b: JsonValue, i: nat, x: JsString, y: JsString)
    requires a.Items? && b.Items? && WellFormed(a) && WellFormed(b) && i <= |a.items| && i <= |b.items|
    requires ItemsText(a, i, x) == ItemsText(b, i, y)
    ensures |a.items| == |b.items| && x == y
    ensures forall j :: i <= j < |a.items| ==> Same(a.items[j], b.items[j])
    decreases a, 0, |a.items| - i
  {
    if i == |a.items| || i == |b.items| {
      ItemsEnd(a, b, i, x, y);
    } else {
      ItemStep(a, b, i, x, y);
      TextDetermines(a.items[i], b.items[i], ItemsText(a, i + 1, x), ItemsText(b, i + 1, y));
      ItemsDetermine(a, b, i + 1, x, y);
    }
  }

  lemma ItemsEnd(a: JsonValue, b: JsonValue, i: nat, x: JsString, y: JsString)
    requires a.Items? && b.Items? && WellFormed(a) && WellFormed(b) && i <= |a.items| && i <= |b.items|
    requires ItemsText(a, i, x) == ItemsText(b, i, y) && (i == |a.items| || i == |b.items|)
    ensures |a.items| == |b.items| && x == y
  {
    ItemsTextIs(a, i, x);
    ItemsTextIs(b, i, y);
    if i < |a.items| { FirstUnit(a.items[i]); }
    if i < |b.items| { FirstUnit(b.items[i]); }
    assert ItemsText(a, i, x)[0] == ItemsText(b, i, y)[0];
    SameHead(CloseBracket, x, CloseBracket, y);
  }

  lemma ItemStep(a: JsonValue, b: JsonValue, i: nat, x: JsString, y: JsString)
    requires a.Items? && b.Items? && WellFormed(a) && WellFormed(b) && i < |a.items| && i < |b.items|
    requires ItemsText(a, i, x) == ItemsText(b, i, y)
    ensures var ra, rb := ItemsText(a, i + 1, x), ItemsText(b, i + 1, y);
            && Canonicalize(a.items[i]) + ra == Canonicalize(b.items[i]) + rb
            && Delimits(ra) && Delimits(rb)
  {
    ItemsTextIs(a, i, x);
    ItemsTextIs(b, i, y);
    ItemsTextIs(a, i + 1, x);
    ItemsTextIs(b, i + 1, y);
    if i > 0 {
      SameHead(Comma, Canonicalize(a.items[i]) + ItemsText(a, i + 1, x), Comma,
               Canonicalize(b.items[i]) + ItemsText(b, i + 1, y));
    }
  }

  lemma {:induction false} MembersDetermine(a: JsonValue, b: JsonValue, ka: seq<JsString>, kb: seq<JsString>,
                                            x: JsString, y: JsString)
    requires a.Members? && b.Members? && WellFormed(a) && WellFormed(b)
    requires (forall k :: k in ka ==> HasKey(a.members, k)) && (forall k :: k in kb ==> HasKey(b.members, k))
    requires MembersText(a, ka, x) == MembersText(b, kb, y)
    ensures ka == kb && x == y
    ensures forall k :: k in ka ==> HasKey(b.members, k) && Same(Lookup(a, k), Lookup(b, k))
    decreases a, 0, |ka|
  {
    if ka == [] || kb == [] {
      MembersEnd(a, b, ka, kb, x, y);
    } else {
      FirstMember(a, b, ka, kb, x, y);
      TextDetermines(Lookup(a, ka[0]), Lookup(b, kb[0]), MembersRest(a, ka, x), MembersRest(b, kb, y));
      MembersGoOn(a, b, ka, kb, x, y);
      if |ka| > 1 {
        MembersDetermine(a, b, ka[1..], kb[1..], x, y);
      }
      assert ka == [ka[0]] + ka[1..] && kb == [kb[0]] + kb[1..];
    }
  }

  lemma MembersEnd(a: JsonValue, b: JsonValue, ka: seq<JsString>, kb: seq<JsString>, x: JsString, y: JsString)
    requires a.Members? && b.Members?
    requires (forall k :: k in ka ==> HasKey(a.members, k)) && (forall k :: k in kb ==> HasKey(b.members, k))
    requires MembersText(a, ka, x) == MembersText(b, kb, y) && (ka == [] || kb == [])
    ensures ka == kb && x == y
  {
    MembersTextIs(a, ka, x);
    MembersTextIs(b, kb, y);
    assert MembersText(a, ka, x)[0] == MembersText(b, kb, y)[0];
    SameHead(CloseBrace, x, CloseBrace, y);
  }

  lemma FirstMember(a: JsonValue, b: JsonValue, ka: seq<JsString>, kb: seq<JsString>, x: JsString, y: JsString)
    requires a.Members? && b.Members? && ka != [] && kb != []
    requires (forall k :: k in ka ==> HasKey(a.members, k)) && (forall k :: k in kb ==> HasKey(b.members, k))
    requires MembersText(a, ka, x) == MembersText(b, kb, y)
    ensures var ra, rb := MembersRest(a, ka, x), MembersRest(b, kb, y);
            && ka[0] == kb[0] && Delimits(ra) && Delimits(rb)
            && Canonicalize(Lookup(a, ka[0])) + ra == Canonicalize(Lookup(b, kb[0])) + rb
  {
    var va, vb := Lookup(a, ka[0]), Lookup(b, kb[0]);
    var ra, rb := MembersRest(a, ka, x), MembersRest(b, kb, y);
    MembersTextIs(a, ka, x);
    MembersTextIs(b, kb, y);
    QuotedPrefix(ka[0], kb[0], [Colon] + (Canonicalize(va) + ra), [Colon] + (Canonicalize(vb) + rb));
    SameHead(Colon, Canonicalize(va) + ra, Colon, Canonicalize(vb) + rb);
  }

  lemma MembersGoOn(a: JsonValue, b: JsonValue, ka: seq<JsString>, kb: seq<JsString>, x: JsString, y: JsString)
    requires a.Members? && b.Members? && ka != [] && kb != []
    requires (forall k :: k in ka ==> HasKey(a.members, k)) && (forall k :: k in kb ==> HasKey(b.members, k))
    requires MembersRest(a, ka, x) == MembersRest(b, kb, y)
    ensures |ka| > 1 <==> |kb| > 1
    ensures |ka| > 1 ==> MembersText(a, ka[1..], x) == MembersText(b, kb[1..], y)
    ensures |ka| <= 1 ==> x == y
  {
    assert MembersRest(a, ka, x)[0] == MembersRest(b, kb, y)[0];
    if |ka| > 1 {
      SameHead(Comma, MembersText(a, ka[1..], x), Comma, MembersText(b, kb[1..], y));
    } else {
      SameHead(CloseBrace, x, CloseBrace, y);
    }
  }

  // ---------------------------------------------------------------- sorted keys

  lemma NotAboveIsOrder()
    ensures TotalPreorder(NotAbove)
  {
    forall a: JsString, b: JsString ensures NotAbove(a, b) || NotAbove(b, a) {
      LessTotal(a, b);
      if Less(a, b) && Less(b, a) {
        LessTransitive(a, b, a);
        LessIrreflexive(a);
      }
    }
    forall a: JsString, b: JsString, c: JsString | NotAbove(a, b) && NotAbove(b, c) ensures NotAbove(a, c) {
      LessTotal(a, b);
      LessTotal(b, c);
      if Less(c, a) {
        if Less(a, b) { LessTransitive(c, a, b); }
      }
    }
  }

  lemma SortedKeysAreKeys(ms: seq<(JsString, JsonValue)>)
    ensures forall k :: k in SortedKeys(ms) <==> HasKey(ms, k)
    ensures SortedBy(SortedKeys(ms), NotAbove)
  {
    NotAboveIsOrder();
    SortSorts(Keys(ms), NotAbove);
    forall k | HasKey(ms, k) ensures k in SortedKeys(ms) {
      var i :| 0 <= i < |ms| && ms[i].0 == k;
      assert Keys(ms)[i] == k;
    }
  }

  lemma SortedStrictly(ms: seq<(JsString, JsonValue)>)
    requires DistinctKeys(ms)
    ensures Ascending(SortedKeys(ms))
  {
    var keys, sorted := Keys(ms), SortedKeys(ms);
    SortedKeysAreKeys(ms);
    DistinctIsNoRepeats(keys);
    assert NoRepeats(sorted);
    NoRepeatsByIndex(sorted);
    forall i, j | 0 <= i < j < |sorted| ensures Less(sorted[i], sorted[j]) {
      assert NotAbove(sorted[i], sorted[j]);
      LessTotal(sorted[i], sorted[j]);
    }
  }

  lemma {:induction false} DistinctIsNoRepeats(keys: seq<JsString>)
    requires forall i, j :: 0 <= i < j < |keys| ==> keys[i] != keys[j]
    ensures NoRepeats(keys)
  {
    if keys != [] {
      var n := |keys| - 1;
      DistinctIsNoRepeats(keys[..n]);
      assert keys == keys[..n] + [keys[n]];
      assert keys[n] !in keys[..n];
    }
  }

  ghost predicate Ascending(keys: seq<JsString>) {
    forall i, j :: 0 <= i < j < |keys| ==> Less(keys[i], keys[j])
  }

  /** Ascending sequences of the same keys are the same sequence. */
  lemma {:induction false} OneAscending(a: seq<JsString>, b: seq<JsString>)
    requires Ascending(a) && Ascending(b) && forall k :: k in a <==> k in b
    ensures a == b
  {
    EmptyTogether(a, b);
    if a != [] {
      assert a[0] in b && b[0] in a;
      var j :| 0 <= j < |b| && b[j] == a[0];
      var i :| 0 <= i < |a| && a[i] == b[0];
      if Less(a[0], b[0]) && Less(b[0], a[0]) {
        LessTransitive(a[0], b[0], a[0]);
        LessIrreflexive(a[0]);
      }
      assert a[0] == b[0];
      forall k ensures k in a[1..] <==> k in b[1..] {
        LessIrreflexive(a[0]);
        assert k in a <==> k == a[0] || k in a[1..];
        assert k in b <==> k == b[0] || k in b[1..];
        assert k in a[1..] ==> Less(a[0], k);
        assert k in b[1..] ==> Less(b[0], k);
      }
      OneAscending(a[1..], b[1..]);
    }
  }

  // ---------------------------------------------------------------- injective up to key order

  lemma {:induction false} SameText(a: JsonValue, b: JsonValue)
    requires WellFormed(a) && WellFormed(b) && Same(a, b)
    ensures Canonicalize(a) == Canonicalize(b)
    decreases a, 1
  {
    match a
    case Items(items) => SameItems(a, b, 0);
    case Members(ms) =>
      SameKeys(a, b);
      SameMembers(a, b, SortedKeys(ms));
    case _ =>
  }

  lemma SameKeys(a: JsonValue, b: JsonValue)
    requires WellFormed(a) && WellFormed(b) && a.Members? && Same(a, b)
    ensures SortedKeys(a.members) == SortedKeys(b.members)
  {
    SortedStrictly(a.members);
    SortedStrictly(b.members);
    SortedKeysAreKeys(a.members);
    SortedKeysAreKeys(b.members);
    OneAscending(SortedKeys(a.members), SortedKeys(b.members));
  }

  lemma {:induction false} SameItems(a: JsonValue, b: JsonValue, i: nat)
    requires WellFormed(a) && WellFormed(b) && a.Items? && Same(a, b) && i <= |a.items|
    ensures CanonicalItems(a, i) == CanonicalItems(b, i)
    decreases a, 0, |a.items| - i
  {
    if i < |a.items| {
      SameText(a.items[i], b.items[i]);
      SameItems(a, b, i + 1);
    }
  }

  lemma {:induction false} SameMembers(a: JsonValue, b: JsonValue, keys: seq<JsString>)
    requires WellFormed(a) && WellFormed(b) && a.Members? && Same(a, b)
    requires forall k :: k in keys ==> HasKey(a.members, k) && HasKey(b.members, k)
    ensures CanonicalMembers(a, keys) == CanonicalMembers(b, keys)
    decreases a, 0, |keys|
  {
    if keys != [] {
      SameText(Lookup(a, keys[0]), Lookup(b, keys[0]));
      SameMembers(a, b, keys[1..]);
    }
  }

  /** Two values have the same canonical text exactly when they are equal ignoring the
      order of object members. */
  lemma CanonicalTextIffSame(a: JsonValue, b: JsonValue)
    requires WellFormed(a) && WellFormed(b)
    ensures Canonicalize(a) == Canonicalize(b) <==> Same(a, b)
  {
    if Canonicalize(a) == Canonicalize(b) {
      assert Canonicalize(a) + [] == Canonicalize(b) + [];
      TextDetermines(a, b, [], []);
    }
    if Same(a, b) {
      SameText(a, b);
    }
  }

  // ---------------------------------------------------------------- idempotency keys

  const ToolKey: JsString := [116, 111, 111, 108]
  const ArgsKey: JsString := [97, 114, 103, 115]
  const ScopeKey: JsString := [115, 99, 111, 112, 101]

  function KeyObject(tool: JsString, args: JsonValue, scope: Option<JsString>): JsonValue {
    Members([(ToolKey, Text(tool)), (ArgsKey, args), (ScopeKey, ScopeValue(scope))])
  }

  /** The text whose digest is the idempotency key. */
  function KeyPreimage(tool: JsString, args: JsonValue, scope: Option<JsString>): JsString {
    Canonicalize(KeyObject(tool, args, scope))
  }

  lemma KeyObjectLookups(tool: JsString, args: JsonValue, scope: Option<JsString>)
    ensures var v := KeyObject(tool, args, scope);
            && (forall k :: HasKey(v.members, k) <==> k == ToolKey || k == ArgsKey || k == ScopeKey)
            && Lookup(v, ToolKey) == Text(tool) && Lookup(v, ArgsKey) == args
            && Lookup(v, ScopeKey) == ScopeValue(scope)
  {
    var ms := KeyObject(tool, args, scope).members;
    assert ms[0].0 == ToolKey && ms[1].0 == ArgsKey && ms[2].0 == ScopeKey;
    assert KeyIndex(ms, ToolKey) == 0 && KeyIndex(ms, ArgsKey) == 1 && KeyIndex(ms, ScopeKey) == 2;
  }

  function ScopeValue(scope: Option<JsString>): JsonValue {
    if scope.Some? then Text(scope.value) else Null
  }

  lemma SameLeaves(tool: JsString, tool': JsString, scope: Option<JsString>, scope': Option<JsString>)
    ensures Same(Text(tool), Text(tool')) <==> tool == tool'
    ensures Same(ScopeValue(scope), ScopeValue(scope')) <==> scope == scope'
  {
  }

  lemma KeyObjectsSame(a: JsonValue, b: JsonValue)
    requires a.Members? && b.Members?
    requires forall k :: HasKey(a.members, k) <==> k == ToolKey || k == ArgsKey || k == ScopeKey
    requires forall k :: HasKey(b.members, k) <==> k == ToolKey || k == ArgsKey || k == ScopeKey
    ensures Same(a, b) <==>
      && Same(Lookup(a, ToolKey), Lookup(b, ToolKey))
      && Same(Lookup(a, ArgsKey), Lookup(b, ArgsKey))
      && Same(Lookup(a, ScopeKey), Lookup(b, ScopeKey))
  {
    assert forall k :: HasKey(a.members, k) && HasKey(b.members, k) ==>
      a.members[KeyIndex(a.members, k)].1 == Lookup(a, k) && b.members[KeyIndex(b.members, k)].1 == Lookup(b, k);
    assert HasKey(a.members, ToolKey) && HasKey(a.members, ArgsKey) && HasKey(a.members, ScopeKey);
  }

  /** Calls share a key's preimage exactly when tool and scope are the same and the
      arguments are equal ignoring member order; an absent scope is not the empty one. */
  lemma KeysAreDistinct(tool: JsString, args: JsonValue, scope: Option<JsString>, tool': JsString, args': JsonValue,
                        scope': Option<JsString>)
    requires WellFormed(args) && WellFormed(args')
    ensures KeyPreimage(tool, args, scope) == KeyPreimage(tool', args', scope')
      <==> tool == tool' && Same(args, args') && scope == scope'
  {
    var a, b := KeyObject(tool, args, scope), KeyObject(tool', args', scope');
    assert WellFormed(a) && WellFormed(b);
    CanonicalTextIffSame(a, b);
    KeyObjectLookups(tool, args, scope);
    KeyObjectLookups(tool', args', scope');
    KeyObjectsSame(a, b);
    SameLeaves(tool, tool', scope, scope');
  }
}
