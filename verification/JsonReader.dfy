/** An independent reader of JSON texts without white space, after sections 4 to 7 of
    RFC 8259, and what it makes of canonical texts. */
module JsonReader {
  import opened Prelude
  import opened CodeUnits
  import opened CanonicalJson

  // ---------------------------------------------------------------- the reader

  /** A sequence of code units, written as a string. */
  function Units(s: string): JsString {
    seq(|s|, i requires 0 <= i < |s| => (s[i] as int) % 0x1_0000)
  }

  function Begins(t: JsString, word: JsString): bool {
    |word| <= |t| && t[..|word|] == word
  }

  /** The length of the numeral at the beginning. */
  function NumeralRun(t: JsString): (n: nat)
    ensures n <= |t|
  {
    if t == [] || !NumeralUnit(t[0]) then 0 else 1 + NumeralRun(t[1..])
  }

  /** A value and what follows it. */
  function ReadValue(t: JsString): Option<(JsonValue, JsString)>
    decreases |t|, 0
  {
    if t == [] then None
    else if t[0] == '\"' as int then var (s, rest) := Unescape(t[1..]); Some((Text(s), rest))
    else if t[0] == '[' as int then
      match ReadItems(t[1..], true)
      case Some((items, rest)) => Some((Items(items), rest))
      case None => None
    else if t[0] == '{' as int then
      match ReadMembers(t[1..], true)
      case Some((members, rest)) => Some((Members(members), rest))
      case None => None
    else if NumeralRun(t) > 0 then Some((Numeral(t[..NumeralRun(t)]), t[NumeralRun(t)..]))
    else if Begins(t, Units("null")) then Some((Null, t[4..]))
    else if Begins(t, Units("true")) then Some((Boolean(true), t[4..]))
    else if Begins(t, Units("false")) then Some((Boolean(false), t[5..]))
    else None
  }

  /** The rest of an array, after its bracket or a comma. */
  function ReadItems(t: JsString, first: bool): Option<(seq<JsonValue>, JsString)>
    decreases |t|, 1
  {
    if first && t != [] && t[0] == ']' as int then Some(([], t[1..]))
    else
      match ReadValue(t)
      case None => None
      case Some((v, rest)) =>
        if rest == [] || |rest| >= |t| then None
        else if rest[0] == ']' as int then Some(([v], rest[1..]))
        else if rest[0] == ',' as int then
          match ReadItems(rest[1..], false)
          case Some((items, end)) => Some(([v] + items, end))
          case None => None
        else None
  }

  /** The rest of an object, after its brace or a comma. */
  function ReadMembers(t: JsString, first: bool): Option<(seq<(JsString, JsonValue)>, JsString)>
    decreases |t|, 1
  {
    if first && t != [] && t[0] == '}' as int then Some(([], t[1..]))
    else if t == [] || t[0] != '\"' as int then None
    else
      var (k, after) := Unescape(t[1..]);
      if after == [] || |after| >= |t| || after[0] != ':' as int then None
      else
        match ReadValue(after[1..])
        case None => None
        case Some((v, rest)) =>
          if rest == [] || |rest| >= |t| then None
          else if rest[0] == '}' as int then Some(([(k, v)], rest[1..]))
          else if rest[0] == ',' as int then
            match ReadMembers(rest[1..], false)
            case Some((members, end)) => Some(([(k, v)] + members, end))
            case None => None
          else None
  }

  // ---------------------------------------------------------------- a canonical text is read back

  /** Every object's members come in ascending key order. */
  ghost predicate InOrder(v: JsonValue) {
    match v
    case Items(items) => forall i :: 0 <= i < |items| ==> InOrder(items[i])
    case Members(ms) =>
      && (forall i, j :: 0 <= i < j < |ms| ==> Less(ms[i].0, ms[j].0))
      && forall i :: 0 <= i < |ms| ==> InOrder(ms[i].1)
    case _ => true
  }

  lemma Words()
    ensures Units("null") == NullText && Units("true") == TrueText && Units("false") == FalseText
  {
    assert forall i :: 0 <= i < 4 ==> Units("null")[i] == NullText[i];
    assert forall i :: 0 <= i < 4 ==> Units("true")[i] == TrueText[i];
    assert forall i :: 0 <= i < 5 ==> Units("false")[i] == FalseText[i];
  }

  lemma {:induction false} RunOf(d: JsString, x: JsString)
    requires (forall i :: 0 <= i < |d| ==> NumeralUnit(d[i])) && Delimits(x)
    ensures NumeralRun(d + x) == |d|
  {
    if d == [] {
      assert d + x == x;
    } else {
      assert (d + x)[1..] == d[1..] + x;
      RunOf(d[1..], x);
    }
  }

  lemma ReadsWord(word: JsString, x: JsString)
    requires |word| > 0
    ensures Begins(word + x, word) && (word + x)[|word|..] == x
  {
  }

  lemma ReadsLeaf(v: JsonValue, x: JsString)
    requires WellFormed(v) && Delimits(x) && !v.Items? && !v.Members?
    ensures ReadValue(Canonicalize(v) + x) == Some((v, x))
  {
    Words();
    var t := Canonicalize(v) + x;
    match v
    case Null => ReadsWord(NullText, x); assert NumeralRun(t) == 0;
    case Boolean(b) => ReadsWord(if b then TrueText else FalseText, x); assert NumeralRun(t) == 0;
    case Numeral(d) =>
      RunOf(d, x);
      assert t[..|d|] == d && t[|d|..] == x;
    case Text(s) =>
      assert t[1..] == Escape(s) + [Quote] + x;
      QuoteReads(s, x);
  }

  /** The text of the items from i on, without the comma before it. */
  function ItemsFrom(v: JsonValue, i: nat, x: JsString): JsString
    requires v.Items? && i < |v.items|
  {
    Canonicalize(v.items[i]) + ItemsText(v, i + 1, x)
  }

  /** What reading the items from i on gives. */
  ghost predicate ItemsRead(v: JsonValue, i: nat, ws: seq<JsonValue>)
    requires v.Items? && i <= |v.items|
  {
    && |ws| == |v.items| - i
    && forall j :: 0 <= j < |ws| ==> Same(v.items[i + j], ws[j]) && InOrder(ws[j])
  }

  lemma {:induction false} ReadsBack(v: JsonValue, x: JsString) returns (w: JsonValue)
    requires WellFormed(v) && Delimits(x)
    ensures ReadValue(Canonicalize(v) + x) == Some((w, x)) && Same(v, w) && InOrder(w)
    decreases v, 2
  {
    match v
    case Items(_) => w := ReadsArray(v, x);
    case Members(_) => w := ReadsObject(v, x);
    case _ =>
      w := v;
      ReadsLeaf(v, x);
  }

  lemma {:induction false} ReadsArray(v: JsonValue, x: JsString) returns (w: JsonValue)
    requires WellFormed(v) && Delimits(x) && v.Items?
    ensures ReadValue(Canonicalize(v) + x) == Some((w, x)) && Same(v, w) && InOrder(w)
    decreases v, 1
  {
    ArrayText(v, x);
    ItemsTextIs(v, 0, x);
    if v.items == [] {
      w := v;
      ArrayReads(ItemsText(v, 0, x), [], x);
    } else {
      var ws := ReadsItems(v, 0, x, true);
      w := Items(ws);
      ArrayReads(ItemsText(v, 0, x), ws, x);
    }
  }

  lemma ArrayText(v: JsonValue, x: JsString)
    requires v.Items?
    ensures Canonicalize(v) + x == [OpenBracket] + ItemsText(v, 0, x)
  {
  }

  lemma ArrayReads(inner: JsString, ws: seq<JsonValue>, x: JsString)
    requires ReadItems(inner, true) == Some((ws, x))
    ensures ReadValue([OpenBracket] + inner) == Some((Items(ws), x))
  {
    assert ([OpenBracket] + inner)[1..] == inner;
  }

  lemma ObjectReads(inner: JsString, ms: seq<(JsString, JsonValue)>, x: JsString)
    requires ReadMembers(inner, true) == Some((ms, x))
    ensures ReadValue([OpenBrace] + inner) == Some((Members(ms), x))
  {
    assert ([OpenBrace] + inner)[1..] == inner;
  }

  /** A value, and what stands behind it. */
  lemma ReadsOne(v: JsonValue, rest: JsString, t: JsString)
    requires t == Canonicalize(v) + rest && WellFormed(v)
    ensures |rest| < |t| && t[0] != ']' as int && t[0] != '}' as int
  {
    FirstUnit(v);
    assert t[0] == Canonicalize(v)[0];
  }

  lemma {:induction false} ReadsItems(v: JsonValue, i: nat, x: JsString, first: bool) returns (ws: seq<JsonValue>)
    requires v.Items? && WellFormed(v) && i < |v.items|
    ensures ReadItems(ItemsFrom(v, i, x), first) == Some((ws, x)) && ItemsRead(v, i, ws)
    decreases v, 0, |v.items| - i
  {
    var t, rest := ItemsFrom(v, i, x), ItemsText(v, i + 1, x);
    RestOfItems(v, i, x);
    ReadsOne(v.items[i], rest, t);
    var w := ReadsBack(v.items[i], rest);
    ItemsTurn(t, first, w, rest);
    if i + 1 == |v.items| {
      ws := [w];
    } else {
      var more := ReadsItems(v, i + 1, x, false);
      ws := [w] + more;
      ItemsReadMore(v, i, w, more);
    }
  }

  lemma ItemsReadMore(v: JsonValue, i: nat, w: JsonValue, more: seq<JsonValue>)
    requires v.Items? && i < |v.items| && Same(v.items[i], w) && InOrder(w) && ItemsRead(v, i + 1, more)
    ensures ItemsRead(v, i, [w] + more)
  {
    var ws := [w] + more;
    forall j | 0 <= j < |ws| ensures Same(v.items[i + j], ws[j]) && InOrder(ws[j]) {
      if j > 0 {
        assert ws[j] == more[j - 1] && v.items[i + j] == v.items[i + 1 + (j - 1)];
      }
    }
  }

  lemma RestOfItems(v: JsonValue, i: nat, x: JsString)
    requires v.Items? && i < |v.items|
    ensures var rest := ItemsText(v, i + 1, x);
            && rest != [] && Delimits(rest)
            && (i + 1 == |v.items| ==> rest[0] == ']' as int && rest[1..] == x)
            && (i + 1 < |v.items| ==> rest[0] == ',' as int && rest[1..] == ItemsFrom(v, i + 1, x))
  {
    ItemsTextIs(v, i + 1, x);
  }

  lemma ItemsTurn(t: JsString, first: bool, v: JsonValue, rest: JsString)
    requires ReadValue(t) == Some((v, rest)) && rest != [] && |rest| < |t| && t[0] != ']' as int
    ensures rest[0] == ']' as int ==> ReadItems(t, first) == Some(([v], rest[1..]))
    ensures rest[0] == ',' as int && ReadItems(rest[1..], false).Some? ==>
      ReadItems(t, first) == Some(([v] + ReadItems(rest[1..], false).value.0, ReadItems(rest[1..], false).value.1))
  {
  }

  /** What reading these members gives. */
  ghost predicate MembersRead(v: JsonValue, keys: seq<JsString>, ms: seq<(JsString, JsonValue)>)
    requires v.Members? && forall k :: k in keys ==> HasKey(v.members, k)
  {
    && |ms| == |keys|
    && forall j :: 0 <= j < |ms| ==> ms[j].0 == keys[j] && Same(Lookup(v, keys[j]), ms[j].1) && InOrder(ms[j].1)
  }

  lemma {:induction false} ReadsObject(v: JsonValue, x: JsString) returns (w: JsonValue)
    requires WellFormed(v) && Delimits(x) && v.Members?
    ensures ReadValue(Canonicalize(v) + x) == Some((w, x)) && Same(v, w) && InOrder(w)
    decreases v, 1
  {
    var keys := SortedKeys(v.members);
    ObjectText(v, x);
    MembersTextIs(v, keys, x);
    SortedStrictly(v.members);
    SortedKeysAreKeys(v.members);
    var ms := [];
    if keys != [] {
      ms := ReadsMembers(v, keys, x, true);
    }
    w := Members(ms);
    MembersSameAs(v, keys, ms);
    ObjectReads(MembersText(v, keys, x), ms, x);
  }

  lemma MembersSameAs(v: JsonValue, keys: seq<JsString>, ms: seq<(JsString, JsonValue)>)
    requires v.Members? && Ascending(keys) && (forall k :: k in keys <==> HasKey(v.members, k))
    requires MembersRead(v, keys, ms)
    ensures Same(v, Members(ms)) && InOrder(Members(ms))
  {
    var w := Members(ms);
    forall k ensures HasKey(ms, k) <==> HasKey(v.members, k) {
      if HasKey(v.members, k) {
        var j :| 0 <= j < |keys| && keys[j] == k;
        assert ms[j].0 == k;
      }
      if HasKey(ms, k) {
        var j :| 0 <= j < |ms| && ms[j].0 == k;
        assert keys[j] in keys;
      }
    }
    forall k | HasKey(v.members, k) && HasKey(ms, k) ensures Same(Lookup(v, k), Lookup(w, k)) {
      var j := KeyIndex(ms, k);
      assert ms[j].0 == keys[j] == k;
    }
    MembersSame(v, w);
  }

  lemma {:induction false} ReadsMembers(v: JsonValue, keys: seq<JsString>, x: JsString, first: bool)
    returns (ms: seq<(JsString, JsonValue)>)
    requires v.Members? && WellFormed(v) && keys != [] && forall k :: k in keys ==> HasKey(v.members, k)
    ensures ReadMembers(MembersText(v, keys, x), first) == Some((ms, x)) && MembersRead(v, keys, ms)
    decreases v, 0, |keys|
  {
    var t, rest := MembersText(v, keys, x), MembersRest(v, keys, x);
    var value := Lookup(v, keys[0]);
    FirstMemberText(v, keys, x);
    RestOfMembers(v, keys, x);
    var w := ReadsBack(value, rest);
    MembersTurn(t, first, keys[0], [Colon] + (Canonicalize(value) + rest), w, rest);
    if |keys| == 1 {
      ms := [(keys[0], w)];
      assert MembersRead(v, keys, ms);
    } else {
      var more := ReadsMembers(v, keys[1..], x, false);
      ms := [(keys[0], w)] + more;
      MembersReadMore(v, keys, w, more);
    }
  }

  lemma MembersReadMore(v: JsonValue, keys: seq<JsString>, w: JsonValue, more: seq<(JsString, JsonValue)>)
    requires v.Members? && keys != [] && forall k :: k in keys ==> HasKey(v.members, k)
    requires Same(Lookup(v, keys[0]), w) && InOrder(w) && MembersRead(v, keys[1..], more)
    ensures MembersRead(v, keys, [(keys[0], w)] + more)
  {
    var ms := [(keys[0], w)] + more;
    forall j | 0 <= j < |ms|
      ensures ms[j].0 == keys[j] && Same(Lookup(v, keys[j]), ms[j].1) && InOrder(ms[j].1)
    {
      if j > 0 {
        assert ms[j] == more[j - 1] && keys[j] == keys[1..][j - 1];
      }
    }
  }

  lemma FirstMemberText(v: JsonValue, keys: seq<JsString>, x: JsString)
    requires v.Members? && WellFormed(v) && keys != [] && forall k :: k in keys ==> HasKey(v.members, k)
    ensures var t, rest := MembersText(v, keys, x), MembersRest(v, keys, x);
            var after := [Colon] + (Canonicalize(Lookup(v, keys[0])) + rest);
            && t[0] == '\"' as int && Unescape(t[1..]) == (keys[0], after) && |rest| < |after| < |t|
            && after[1..] == Canonicalize(Lookup(v, keys[0])) + rest
  {
    var after := [Colon] + (Canonicalize(Lookup(v, keys[0])) + MembersRest(v, keys, x));
    MembersTextIs(v, keys, x);
    ReadsKey(keys[0], after, MembersText(v, keys, x));
  }

  lemma MembersTurn(t: JsString, first: bool, k: JsString, after: JsString, v: JsonValue, rest: JsString)
    requires t != [] && t[0] == '\"' as int && Unescape(t[1..]) == (k, after)
    requires after != [] && |after| < |t| && after[0] == ':' as int
    requires ReadValue(after[1..]) == Some((v, rest)) && rest != [] && |rest| < |t|
    ensures rest[0] == '}' as int ==> ReadMembers(t, first) == Some(([(k, v)], rest[1..]))
    ensures rest[0] == ',' as int && ReadMembers(rest[1..], false).Some? ==>
      ReadMembers(t, first)
      == Some(([(k, v)] + ReadMembers(rest[1..], false).value.0, ReadMembers(rest[1..], false).value.1))
  {
  }

  lemma RestOfMembers(v: JsonValue, keys: seq<JsString>, x: JsString)
    requires v.Members? && keys != [] && forall k :: k in keys ==> HasKey(v.members, k)
    ensures var rest := MembersRest(v, keys, x);
            && rest != [] && Delimits(rest)
            && (|keys| == 1 ==> rest[0] == '}' as int && rest[1..] == x)
            && (|keys| > 1 ==> rest[0] == ',' as int && rest[1..] == MembersText(v, keys[1..], x))
  {
  }

  lemma ReadsKey(k: JsString, after: JsString, t: JsString)
    requires t == Quoted(k) + after
    ensures t[0] == '\"' as int && Unescape(t[1..]) == (k, after) && |after| < |t|
  {
    assert t[1..] == Escape(k) + [Quote] + after;
    QuoteReads(k, after);
  }

  /** The canonical text of a value is a JSON text of it: read by the rules of JSON, it is
      the value itself, nothing is left over, and every object's members come in ascending
      key order. */
  lemma CanonicalTextIsJson(v: JsonValue)
    requires WellFormed(v)
    ensures exists w :: ReadValue(Canonicalize(v)) == Some((w, [])) && Same(v, w) && InOrder(w)
  {
    var w := ReadsBack(v, []);
    assert Canonicalize(v) + [] == Canonicalize(v);
  }

  // ---------------------------------------------------------------- what is escaped

  predicate Printable(t: JsString) {
    forall i :: 0 <= i < |t| ==> t[i] >= 32
  }

  lemma {:induction false} EscapesControls(s: JsString)
    ensures Printable(Escape(s))
  {
    if s != [] {
      EscapesControls(s[1..]);
      if |s| > 1 {
        EscapesControls(s[2..]);
      }
    }
  }

  /** A canonical text has no control characters: strings are escaped where section 7 of
      RFC 8259 demands it. */
  lemma {:induction false} NoControls(v: JsonValue)
    requires WellFormed(v)
    ensures Printable(Canonicalize(v))
    decreases v, 2
  {
    match v
    case Text(s) => EscapesControls(s);
    case Items(items) => NoControlsInItems(v, 0);
    case Members(ms) => NoControlsInMembers(v, SortedKeys(ms));
    case _ =>
  }

  lemma {:induction false} NoControlsInItems(v: JsonValue, i: nat)
    requires WellFormed(v) && v.Items? && i <= |v.items|
    ensures Printable(CanonicalItems(v, i))
    decreases v, 1, |v.items| - i
  {
    if i < |v.items| {
      NoControls(v.items[i]);
      NoControlsInItems(v, i + 1);
    }
  }

  lemma {:induction false} NoControlsInMembers(v: JsonValue, keys: seq<JsString>)
    requires WellFormed(v) && v.Members? && forall k :: k in keys ==> HasKey(v.members, k)
    ensures Printable(CanonicalMembers(v, keys))
    decreases v, 1, |keys|
  {
    if keys != [] {
      EscapesControls(keys[0]);
      NoControls(Lookup(v, keys[0]));
      NoControlsInMembers(v, keys[1..]);
      MemberPrintable(v, keys);
    }
  }

  lemma MemberPrintable(v: JsonValue, keys: seq<JsString>)
    requires v.Members? && keys != [] && forall k :: k in keys ==> HasKey(v.members, k)
    requires Printable(Escape(keys[0])) && Printable(Canonicalize(Lookup(v, keys[0])))
    requires Printable(CanonicalMembers(v, keys[1..]))
    ensures Printable(CanonicalMembers(v, keys))
  {
    var key, value := Quoted(keys[0]), Canonicalize(Lookup(v, keys[0]));
    var comma, rest := if |keys| > 1 then [Comma] else [], CanonicalMembers(v, keys[1..]);
    assert Printable(key) && Printable([Colon]) && Printable(comma);
    Joined(key, [Colon]);
    Joined(key + [Colon], value);
    Joined(key + [Colon] + value, comma);
    Joined(key + [Colon] + value + comma, rest);
  }

  lemma Joined(a: JsString, b: JsString)
    requires Printable(a) && Printable(b)
    ensures Printable(a + b)
  {
  }

  /** As the language's own printer has it: two-unit escapes where there are any, \u with
      lower-case digits for other control characters and unpaired surrogates, and nothing
      else escaped. */
  lemma EscapesLikeStringify()
    ensures Escape([8, 9, 10, 12, 13, 34, 92]) == Units("\\b\\t\\n\\f\\r\\\"\\\\")
    ensures Escape([31]) == Units("\\u001f") && Escape([0xDBFF]) == Units("\\udbff")
    ensures Escape([47]) == [47] && Escape([127]) == [127] && Escape([0xD83D, 0xDE00]) == [0xD83D, 0xDE00]
  {
    ShortUnits();
    EscapesEach([8, 9, 10, 12, 13, 34, 92]);
    EscapesHex();
    EscapesNothing();
  }

  lemma ShortUnits()
    ensures Units("\\b\\t\\n\\f\\r\\\"\\\\") == [92, 98, 92, 116, 92, 110, 92, 102, 92, 114, 92, 34, 92, 92]
  {
  }

  lemma EscapesNothing()
    ensures Escape([47]) == [47] && Escape([127]) == [127] && Escape([0xD83D, 0xDE00]) == [0xD83D, 0xDE00]
  {
    var a: JsString, b: JsString, c: JsString := [47], [127], [0xD83D, 0xDE00];
    assert a[1..] == [] && b[1..] == [] && c[2..] == [];
  }

  lemma EscapesEach(s: JsString)
    requires s == [8, 9, 10, 12, 13, 34, 92]
    ensures Escape(s) == [92, 98, 92, 116, 92, 110, 92, 102, 92, 114, 92, 34, 92, 92]
  {
    assert Escape(s[6..]) == [92, 92];
    assert Escape(s[5..]) == [92, 34] + Escape(s[5..][1..]);
    assert Escape(s[4..]) == [92, 114] + Escape(s[4..][1..]);
    assert Escape(s[3..]) == [92, 102] + Escape(s[3..][1..]);
    assert Escape(s[2..]) == [92, 110] + Escape(s[2..][1..]);
    assert Escape(s[1..]) == [92, 116] + Escape(s[1..][1..]);
    assert s[0..] == s;
    assert forall i :: 0 <= i < 6 ==> s[i..][1..] == s[i + 1..];
  }

  lemma EscapesHex()
    ensures Escape([31]) == Units("\\u001f") && Escape([0xDBFF]) == Units("\\udbff")
  {
    var a: JsString, b: JsString := [31], [0xDBFF];
    assert a[1..] == [] && b[1..] == [];
    assert Escape(a) == Escaped(31) + [] && Escape(b) == Escaped(0xDBFF) + [];
    assert Escaped(31) == [92, 117, 48, 48, 49, 102] && Escaped(0xDBFF) == [92, 117, 100, 98, 102, 102];
    assert Units("\\u001f") == [92, 117, 48, 48, 49, 102] && Units("\\udbff") == [92, 117, 100, 98, 102, 102];
  }
}
