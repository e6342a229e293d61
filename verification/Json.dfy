/**
 Compact JSON text as `json.dumps(…, sort_keys=True, separators=(",", ":"))` writes it, a reader by the grammar of
 RFC 8259, and the proof that the reader gets back every value that was written: it is what lets a hash of the text
 stand for the value.
 */
module Json {
  import opened Prelude

  /** A value. Objects list their members in key order; a number is the text Python prints for it. */
  datatype Value =
    | Null
    | Bool(b: bool)
    | Number(text: string)
    | Text(s: string)
    | Array(items: seq<Value>)
    | Object(members: seq<Member>)

  datatype Member = Member(key: string, value: Value)

  const NUMBER_CHARS: string := "0123456789+-.eENaInfity"
  const NUMBER_STARTS: string := "0123456789-NI"

  ghost predicate NumberText(t: string) {
    && t != "" && t[0] in NUMBER_STARTS
    && forall i :: 0 <= i < |t| ==> t[i] in NUMBER_CHARS
  }

  ghost predicate WellFormed(v: Value)
    decreases v
  {
    match v
    case Number(t) => NumberText(t)
    case Array(items) => forall i :: 0 <= i < |items| ==> WellFormed(items[i])
    case Object(members) => forall i :: 0 <= i < |members| ==> WellFormed(members[i].value)
    case _ => true
  }

  // ---- Strings -------------------------------------------------------------------------------

  function HexDigit(n: int): char
    requires 0 <= n < 16
  {
    "0123456789abcdef"[n]
  }

  /** `\uXXXX` for one UTF-16 code unit. */
  function CodeUnit(n: int): string
    requires 0 <= n < 0x1_0000
  {
    ['\\', 'u', HexDigit(n / 4096), HexDigit(n / 256 % 16), HexDigit(n / 16 % 16), HexDigit(n % 16)]
  }

  /** The escape of one character, all output being printable ASCII. */
  function Escape(ch: char): string {
    if ch == '"' then "\\\""
    else if ch == '\\' then "\\\\"
    else if ch == '\n' then "\\n"
    else if ch == '\r' then "\\r"
    else if ch == '\t' then "\\t"
    else if ch as int == 8 then "\\b"
    else if ch as int == 12 then "\\f"
    else if ' ' <= ch <= '~' then [ch]
    else if ch as int < 0x1_0000 then CodeUnit(ch as int)
    else
      var m := ch as int - 0x1_0000;
      CodeUnit(0xD800 + m / 1024) + CodeUnit(0xDC00 + m % 1024)
  }

  function EscapeAll(s: string): string {
    if s == "" then "" else Escape(s[0]) + EscapeAll(s[1..])
  }

  function Quote(s: string): string {
    "\"" + EscapeAll(s) + "\""
  }

  // ---- Values --------------------------------------------------------------------------------

  function Encode(v: Value): string
    decreases v, 1
  {
    match v
    case Null => "null"
    case Bool(b) => if b then "true" else "false"
    case Number(t) => t
    case Text(s) => Quote(s)
    case Array(items) => "[" + EncodeItems(items, true)
    case Object(members) => "{" + EncodeMembers(members, true)
  }

  /** The rest of an array, from one item on: `first` says no comma is due yet. */
  function EncodeItems(items: seq<Value>, first: bool): string
    decreases items, 0
  {
    if items == [] then "]"
    else (if first then "" else ",") + (Encode(items[0]) + EncodeItems(items[1..], false))
  }

  function EncodeMembers(members: seq<Member>, first: bool): string
    decreases members, 0
  {
    if members == [] then "}"
    else (if first then "" else ",")
         + (Quote(members[0].key) + (":" + (Encode(members[0].value) + EncodeMembers(members[1..], false))))
  }

  // ---- Reading -------------------------------------------------------------------------------

  /** What a reader has found, and the text it has not looked at. */
  datatype Found<+T> = Found(value: T, rest: string)

  predicate IsHex(ch: char) {
    '0' <= ch <= '9' || 'a' <= ch <= 'f' || 'A' <= ch <= 'F'
  }

  function HexValue(ch: char): (n: int)
    requires IsHex(ch)
    ensures 0 <= n < 16
  {
    if ch <= '9' then ch as int - '0' as int
    else if ch <= 'F' then ch as int - 'A' as int + 10
    else ch as int - 'a' as int + 10
  }

  /** `\uXXXX` */
  function ReadUnit(t: string): (r: Option<Found<int>>)
    ensures r.Some? ==> 0 <= r.value.value < 0x1_0000 && |r.value.rest| < |t|
  {
    if |t| >= 6 && t[0] == '\\' && t[1] == 'u' && IsHex(t[2]) && IsHex(t[3]) && IsHex(t[4]) && IsHex(t[5])
    then Some(Found(4096 * HexValue(t[2]) + 256 * HexValue(t[3]) + 16 * HexValue(t[4]) + HexValue(t[5]), t[6..]))
    else None
  }

  /** The character that `\` and `ch` stand for. */
  function ShortEscape(ch: char): Option<char> {
    if ch == '"' || ch == '\\' || ch == '/' then Some(ch)
    else if ch == 'n' then Some('\n')
    else if ch == 'r' then Some('\r')
    else if ch == 't' then Some('\t')
    else if ch == 'b' then Some(8 as char)
    else if ch == 'f' then Some(12 as char)
    else None
  }

  /** A character of the basic plane from one code unit, any other from a pair of surrogates. */
  function ReadLong(t: string): (r: Option<Found<char>>)
    ensures r.Some? ==> |r.value.rest| < |t|
  {
    match ReadUnit(t)
    case None => None
    case Some(Found(high, rest)) =>
      if high < 0xD800 || 0xE000 <= high then Some(Found(high as char, rest))
      else if 0xDC00 <= high then None
      else match ReadUnit(rest)
        case None => None
        case Some(Found(low, rest')) =>
          if 0xDC00 <= low < 0xE000 then Some(Found((0x1_0000 + 1024 * (high - 0xD800) + (low - 0xDC00)) as char, rest')) else None
  }

  /** One character inside a string. */
  function ReadChar(t: string): (r: Option<Found<char>>)
    ensures r.Some? ==> |r.value.rest| < |t|
  {
    if t == "" || t[0] == '"' || t[0] < ' ' then None
    else if t[0] != '\\' then Some(Found(t[0], t[1..]))
    else if |t| < 2 then None
    else if t[1] == 'u' then ReadLong(t)
    else if ShortEscape(t[1]).Some? then Some(Found(ShortEscape(t[1]).value, t[2..]))
    else None
  }

  /** A string, from behind its opening quote. */
  function ReadText(t: string): (r: Option<Found<string>>)
    ensures r.Some? ==> |r.value.rest| < |t|
    decreases |t|
  {
    if t != "" && t[0] == '"' then Some(Found("", t[1..]))
    else match ReadChar(t)
      case None => None
      case Some(Found(ch, rest)) =>
        match ReadText(rest)
        case None => None
        case Some(Found(s, rest')) => Some(Found([ch] + s, rest'))
  }

  /** How many characters at the front may belong to a number. */
  function NumberLength(t: string): (n: nat)
    ensures n <= |t|
  {
    if t == "" || t[0] !in NUMBER_CHARS then 0 else 1 + NumberLength(t[1..])
  }

  function ReadValue(t: string): (r: Option<Found<Value>>)
    ensures r.Some? ==> |r.value.rest| < |t|
    decreases |t|, 0
  {
    if t == "" then None
    else if t[0] == '"' then
      match ReadText(t[1..])
      case None => None
      case Some(Found(s, rest)) => Some(Found(Text(s), rest))
    else if t[0] == '[' then
      match ReadItems(t[1..], true)
      case None => None
      case Some(Found(items, rest)) => Some(Found(Array(items), rest))
    else if t[0] == '{' then
      match ReadMembers(t[1..], true)
      case None => None
      case Some(Found(members, rest)) => Some(Found(Object(members), rest))
    else if t[0] in NUMBER_STARTS then
      var n := NumberLength(t);
      if n == 0 then None else Some(Found(Number(t[..n]), t[n..]))
    else if "null" <= t then Some(Found(Null, t[4..]))
    else if "true" <= t then Some(Found(Bool(true), t[4..]))
    else if "false" <= t then Some(Found(Bool(false), t[5..]))
    else None
  }

  /** What follows the comma that is due, unless this is the first entry. */
  function Entry(t: string, first: bool): (u: Option<string>)
    ensures u.Some? ==> |u.value| <= |t|
  {
    if first then Some(t) else if t != "" && t[0] == ',' then Some(t[1..]) else None
  }

  function ReadItems(t: string, first: bool): (r: Option<Found<seq<Value>>>)
    ensures r.Some? ==> |r.value.rest| < |t|
    decreases |t|, 1
  {
    if t != "" && t[0] == ']' then Some(Found([], t[1..]))
    else match Entry(t, first)
      case None => None
      case Some(u) =>
        match ReadValue(u)
        case None => None
        case Some(Found(v, rest)) =>
          match ReadItems(rest, false)
          case None => None
          case Some(Found(items, rest')) => Some(Found([v] + items, rest'))
  }

  function ReadMembers(t: string, first: bool): (r: Option<Found<seq<Member>>>)
    ensures r.Some? ==> |r.value.rest| < |t|
    decreases |t|, 1
  {
    if t != "" && t[0] == '}' then Some(Found([], t[1..]))
    else match Entry(t, first)
      case None => None
      case Some(u) =>
        match ReadKey(u)
        case None => None
        case Some(Found(key, rest)) =>
          match ReadValue(rest)
          case None => None
          case Some(Found(v, rest')) =>
            match ReadMembers(rest', false)
            case None => None
            case Some(Found(members, rest'')) => Some(Found([Member(key, v)] + members, rest''))
  }

  /** A quoted key and its colon. */
  function ReadKey(t: string): (r: Option<Found<string>>)
    ensures r.Some? ==> |r.value.rest| < |t|
  {
    if t == "" || t[0] != '"' then None
    else match ReadText(t[1..])
      case None => None
      case Some(Found(key, rest)) => if rest != "" && rest[0] == ':' then Some(Found(key, rest[1..])) else None
  }

  /** The value of a whole text. */
  function Decode(t: string): Option<Value> {
    match ReadValue(t)
    case None => None
    case Some(Found(v, rest)) => if rest == "" then Some(v) else None
  }

  // ---- What was written is read back ------------------------------------------------------------

  lemma HexBack(n: int)
    requires 0 <= n < 16
    ensures IsHex(HexDigit(n)) && HexValue(HexDigit(n)) == n
  {
  }

  lemma FourDigits(n: int)
    requires 0 <= n < 0x1_0000
    ensures n == 4096 * (n / 4096) + 256 * (n / 256 % 16) + 16 * (n / 16 % 16) + n % 16
  {
    var a := n / 16;
    var b := a / 16;
    assert b == n / 256 && b / 16 == n / 4096;
    assert n == 16 * a + n % 16 && a == 16 * b + a % 16 && b == 16 * (b / 16) + b % 16;
  }

  lemma UnitBack(n: int, x: string)
    requires 0 <= n < 0x1_0000
    ensures ReadUnit(CodeUnit(n) + x) == Some(Found(n, x))
  {
    HexBack(n / 4096);
    HexBack(n / 256 % 16);
    HexBack(n / 16 % 16);
    HexBack(n % 16);
    FourDigits(n);
    assert (CodeUnit(n) + x)[6..] == x;
  }

  /** Characters beyond the basic plane come back from their two code units. */
  lemma PairBack(ch: char, x: string)
    requires ch as int >= 0x1_0000
    ensures var m := ch as int - 0x1_0000;
            ReadLong(CodeUnit(0xD800 + m / 1024) + CodeUnit(0xDC00 + m % 1024) + x) == Some(Found(ch, x))
  {
    var m := ch as int - 0x1_0000;
    assert m == 1024 * (m / 1024) + m % 1024;
    var high, low := CodeUnit(0xD800 + m / 1024), CodeUnit(0xDC00 + m % 1024);
    assert high + low + x == high + (low + x);
    UnitBack(0xD800 + m / 1024, low + x);
    UnitBack(0xDC00 + m % 1024, x);
  }

  /** Characters written as code units. */
  predicate LongEscape(ch: char) {
    && ch != '"' && ch != '\\' && ch != '\n' && ch != '\r' && ch != '\t' && ch as int != 8 && ch as int != 12
    && !(' ' <= ch <= '~')
  }

  lemma LongBack(ch: char, x: string)
    requires LongEscape(ch)
    ensures ReadChar(Escape(ch) + x) == Some(Found(ch, x))
  {
    var t := Escape(ch) + x;
    if ch as int < 0x1_0000 {
      UnitBack(ch as int, x);
    } else {
      PairBack(ch, x);
    }
    assert t[0] == '\\' && t[1] == 'u';
  }

  lemma CharBack(ch: char, x: string)
    ensures ReadChar(Escape(ch) + x) == Some(Found(ch, x))
  {
    if LongEscape(ch) {
      LongBack(ch, x);
    } else {
      var t := Escape(ch) + x;
      assert t[0] == Escape(ch)[0] && t[|Escape(ch)|..] == x;
      if |Escape(ch)| == 2 {
        assert t[1] == Escape(ch)[1];
      }
    }
  }

  lemma TextStep(t: string, ch: char, tail: string, s: string, x: string)
    requires t != "" && t[0] != '"' && ReadChar(t) == Some(Found(ch, tail)) && ReadText(tail) == Some(Found(s, x))
    ensures ReadText(t) == Some(Found([ch] + s, x))
  {
  }

  /** No escape starts like the end of a string. */
  lemma EscapeStart(ch: char)
    ensures Escape(ch) != "" && Escape(ch)[0] != '"'
  {
  }

  lemma EscapeTail(s: string, x: string)
    requires s != ""
    ensures EscapeAll(s) + ("\"" + x) == Escape(s[0]) + (EscapeAll(s[1..]) + ("\"" + x))
  {
  }

  lemma {:induction false} TextBack(s: string, x: string)
    ensures ReadText(EscapeAll(s) + ("\"" + x)) == Some(Found(s, x))
  {
    if s == "" {
      assert EscapeAll(s) + ("\"" + x) == "\"" + x;
    } else {
      var e, tail := Escape(s[0]), EscapeAll(s[1..]) + ("\"" + x);
      TextBack(s[1..], x);
      CharBack(s[0], tail);
      EscapeTail(s, x);
      EscapeStart(s[0]);
      assert (e + tail)[0] == e[0];
      TextStep(e + tail, s[0], tail, s[1..], x);
      assert s == [s[0]] + s[1..];
    }
  }

  /** A quoted string is read back, whatever follows it. */
  lemma QuoteBack(s: string, x: string)
    ensures Quote(s) + x != "" && (Quote(s) + x)[0] == '"' && ReadText((Quote(s) + x)[1..]) == Some(Found(s, x))
  {
    var u := EscapeAll(s) + ("\"" + x);
    assert Quote(s) + x == "\"" + u;
    assert ("\"" + u)[1..] == u;
    TextBack(s, x);
  }

  /** A following text that cannot be taken for more of a number. */
  ghost predicate Delimited(x: string) {
    x == "" || x[0] !in NUMBER_CHARS
  }

  lemma {:induction false} NumberBack(t: string, x: string)
    requires (forall i :: 0 <= i < |t| ==> t[i] in NUMBER_CHARS) && Delimited(x)
    ensures NumberLength(t + x) == |t|
  {
    if t == "" {
      assert t + x == x;
    } else {
      NumberBack(t[1..], x);
      assert (t + x)[1..] == t[1..] + x;
    }
  }

  lemma ItemsStart(items: seq<Value>, x: string)
    ensures Delimited(EncodeItems(items, false) + x)
  {
  }

  lemma MembersStart(members: seq<Member>, x: string)
    ensures Delimited(EncodeMembers(members, false) + x)
  {
  }

  lemma NumberStart(ch: char)
    requires ch in NUMBER_STARTS
    ensures ch != '"' && ch != '[' && ch != ']' && ch != '{'
  {
  }

  /** No value starts like the end of an array. */
  lemma ValueStart(v: Value)
    requires WellFormed(v)
    ensures Encode(v) != "" && Encode(v)[0] != ']'
  {
    match v
    case Number(t) => NumberStart(t[0]);
    case Text(s) => assert Quote(s)[0] == '"';
    case _ =>
  }

  lemma WordBack(v: Value, x: string)
    requires v.Null? || v.Bool?
    ensures ReadValue(Encode(v) + x) == Some(Found(v, x))
  {
    var t, n := Encode(v) + x, |Encode(v)|;
    assert t[0] == Encode(v)[0] && t[..n] == Encode(v) && t[n..] == x;
  }

  lemma NumberValueBack(text: string, x: string)
    requires NumberText(text) && Delimited(x)
    ensures ReadValue(text + x) == Some(Found(Number(text), x))
  {
    var t := text + x;
    NumberBack(text, x);
    NumberStart(text[0]);
    assert t[0] == text[0] && t[..|text|] == text && t[|text|..] == x;
  }

  lemma ScalarBack(v: Value, x: string)
    requires WellFormed(v) && Delimited(x) && !v.Array? && !v.Object?
    ensures ReadValue(Encode(v) + x) == Some(Found(v, x))
  {
    match v
    case Text(s) => QuoteBack(s, x);
    case Number(text) => NumberValueBack(text, x);
    case _ => WordBack(v, x);
  }

  lemma ArrayStep(u: string, items: seq<Value>, x: string)
    requires ReadItems(u, true) == Some(Found(items, x))
    ensures ReadValue("[" + u) == Some(Found(Array(items), x))
  {
    assert ("[" + u)[0] == '[' && ("[" + u)[1..] == u;
  }

  lemma ArrayText(items: seq<Value>, x: string)
    ensures Encode(Array(items)) + x == "[" + (EncodeItems(items, true) + x)
  {
    Regroup("[", EncodeItems(items, true), x);
  }

  lemma Regroup(a: string, b: string, x: string)
    ensures a + b + x == a + (b + x)
  {
  }

  lemma ObjectStep(u: string, members: seq<Member>, x: string)
    requires ReadMembers(u, true) == Some(Found(members, x))
    ensures ReadValue("{" + u) == Some(Found(Object(members), x))
  {
    assert ("{" + u)[0] == '{' && ("{" + u)[1..] == u;
  }

  lemma ObjectText(members: seq<Member>, x: string)
    ensures Encode(Object(members)) + x == "{" + (EncodeMembers(members, true) + x)
  {
    Regroup("{", EncodeMembers(members, true), x);
  }

  /** The text of a well-formed value is read back, if what follows cannot be taken for more of a number. */
  lemma {:induction false} ValueBack(v: Value, x: string)
    requires WellFormed(v) && Delimited(x)
    ensures ReadValue(Encode(v) + x) == Some(Found(v, x))
    decreases v, 1
  {
    match v
    case Array(items) =>
      ItemsBack(items, true, x);
      ArrayText(items, x);
      ArrayStep(EncodeItems(items, true) + x, items, x);
    case Object(members) =>
      MembersBack(members, true, x);
      ObjectText(members, x);
      ObjectStep(EncodeMembers(members, true) + x, members, x);
    case _ => ScalarBack(v, x);
  }

  lemma ItemsStep(t: string, first: bool, u: string, v: Value, tail: string, items: seq<Value>, x: string)
    requires t != "" && t[0] != ']' && Entry(t, first) == Some(u)
    requires ReadValue(u) == Some(Found(v, tail)) && ReadItems(tail, false) == Some(Found(items, x))
    ensures ReadItems(t, first) == Some(Found([v] + items, x))
  {
  }

  lemma MembersStep(t: string, first: bool, u: string, key: string, w: string, v: Value, tail: string, members: seq<Member>, x: string)
    requires t != "" && t[0] != '}' && Entry(t, first) == Some(u) && ReadKey(u) == Some(Found(key, w))
    requires ReadValue(w) == Some(Found(v, tail)) && ReadMembers(tail, false) == Some(Found(members, x))
    ensures ReadMembers(t, first) == Some(Found([Member(key, v)] + members, x))
  {
  }

  /** Behind the comma that is due comes the entry. */
  lemma EntryIs(u: string, first: bool)
    requires u != ""
    ensures Entry((if first then "" else ",") + u, first) == Some(u)
    ensures ((if first then "" else ",") + u)[0] == if first then u[0] else ','
  {
    assert ("," + u)[1..] == u && "" + u == u;
  }

  lemma ItemsText(items: seq<Value>, first: bool, x: string)
    requires items != []
    ensures EncodeItems(items, first) + x == (if first then "" else ",") + (Encode(items[0]) + (EncodeItems(items[1..], false) + x))
  {
  }

  lemma MembersText(members: seq<Member>, first: bool, x: string)
    requires members != []
    ensures EncodeMembers(members, first) + x
         == (if first then "" else ",")
            + (Quote(members[0].key) + (":" + (Encode(members[0].value) + (EncodeMembers(members[1..], false) + x))))
  {
    var comma, q := if first then "" else ",", Quote(members[0].key);
    var e, rest := Encode(members[0].value), EncodeMembers(members[1..], false);
    assert comma + (q + (":" + (e + rest))) + x == comma + (q + (":" + (e + (rest + x))));
  }

  /** One entry and the rest of an array, whatever their texts. */
  lemma ItemsJoin(e: string, tail: string, first: bool, v: Value, items: seq<Value>, x: string)
    requires e != "" && e[0] != ']'
    requires ReadValue(e + tail) == Some(Found(v, tail)) && ReadItems(tail, false) == Some(Found(items, x))
    ensures ReadItems((if first then "" else ",") + (e + tail), first) == Some(Found([v] + items, x))
  {
    assert (e + tail)[0] == e[0];
    EntryIs(e + tail, first);
    ItemsStep((if first then "" else ",") + (e + tail), first, e + tail, v, tail, items, x);
  }

  lemma {:induction false} ItemsBack(items: seq<Value>, first: bool, x: string)
    requires forall i :: 0 <= i < |items| ==> WellFormed(items[i])
    ensures ReadItems(EncodeItems(items, first) + x, first) == Some(Found(items, x))
    decreases items, 0
  {
    var t := EncodeItems(items, first) + x;
    if items == [] {
      assert t[0] == ']' && t[1..] == x;
    } else {
      var e, tail := Encode(items[0]), EncodeItems(items[1..], false) + x;
      ItemsStart(items[1..], x);
      ValueStart(items[0]);
      ValueBack(items[0], tail);
      ItemsBack(items[1..], false, x);
      ItemsText(items, first, x);
      ItemsJoin(e, tail, first, items[0], items[1..], x);
      assert items == [items[0]] + items[1..];
    }
  }

  /** One member and the rest of an object, whatever the texts of the value and the rest. */
  lemma MembersJoin(key: string, u: string, tail: string, first: bool, v: Value, members: seq<Member>, x: string)
    requires ReadValue(u) == Some(Found(v, tail)) && ReadMembers(tail, false) == Some(Found(members, x))
    ensures ReadMembers((if first then "" else ",") + (Quote(key) + (":" + u)), first) == Some(Found([Member(key, v)] + members, x))
  {
    var k := Quote(key) + (":" + u);
    KeyBack(key, u);
    EntryIs(k, first);
    MembersStep((if first then "" else ",") + k, first, k, key, u, v, tail, members, x);
  }

  lemma NoMembersBack(first: bool, x: string)
    ensures ReadMembers(EncodeMembers([], first) + x, first) == Some(Found([], x))
  {
    assert EncodeMembers([], first) + x == "}" + x && ("}" + x)[1..] == x;
  }

  lemma MembersGrow(members: seq<Member>, first: bool, x: string, tail: string)
    requires members != [] && tail == EncodeMembers(members[1..], false) + x
    requires ReadValue(Encode(members[0].value) + tail) == Some(Found(members[0].value, tail))
    requires ReadMembers(tail, false) == Some(Found(members[1..], x))
    ensures ReadMembers(EncodeMembers(members, first) + x, first) == Some(Found([members[0]] + members[1..], x))
  {
    var m := members[0];
    MembersText(members, first, x);
    MembersJoin(m.key, Encode(m.value) + tail, tail, first, m.value, members[1..], x);
  }

  lemma {:induction false} MembersBack(members: seq<Member>, first: bool, x: string)
    requires forall i :: 0 <= i < |members| ==> WellFormed(members[i].value)
    ensures ReadMembers(EncodeMembers(members, first) + x, first) == Some(Found(members, x))
    decreases members, 0
  {
    if members == [] {
      NoMembersBack(first, x);
    } else {
      var tail := EncodeMembers(members[1..], false) + x;
      MembersStart(members[1..], x);
      ValueBack(members[0].value, tail);
      MembersBack(members[1..], false, x);
      MembersGrow(members, first, x, tail);
      assert members == [members[0]] + members[1..];
    }
  }

  lemma KeyBack(key: string, x: string)
    ensures ReadKey(Quote(key) + (":" + x)) == Some(Found(key, x)) && (Quote(key) + (":" + x))[0] == '"'
  {
    QuoteBack(key, ":" + x);
    assert (":" + x)[1..] == x;
  }

  /** Reading is the inverse of writing. */
  lemma DecodeEncode(v: Value)
    requires WellFormed(v)
    ensures Decode(Encode(v)) == Some(v)
  {
    assert Encode(v) + "" == Encode(v);
    ValueBack(v, "");
  }

  // ---- So the text determines the value -------------------------------------------------------------

  /** Two texts that agree and start with equally long words start with the same word. */
  lemma Cancel(a: string, b: string, x: string, y: string)
    requires |a| == |b| && a + x == b + y
    ensures a == b && x == y
  {
    assert a == (a + x)[..|a|] && b == (b + y)[..|b|];
    assert x == (a + x)[|a|..] && y == (b + y)[|b|..];
  }

  lemma EscapeReads(c: char, d: char, x: string, y: string)
    requires Escape(c) + x == Escape(d) + y
    ensures c == d && x == y
  {
    CharBack(c, x);
    CharBack(d, y);
  }

  /** A quoted string ends where its own text says, whatever follows. */
  lemma QuoteReads(s: string, t: string, x: string, y: string)
    requires Quote(s) + x == Quote(t) + y
    ensures s == t && x == y
  {
    QuoteBack(s, x);
    QuoteBack(t, y);
  }

  /** The text of a well-formed value, followed by anything a number cannot swallow, determines the value. */
  lemma EncodeReads(v: Value, w: Value, x: string, y: string)
    requires WellFormed(v) && WellFormed(w) && Delimited(x) && Delimited(y)
    requires Encode(v) + x == Encode(w) + y
    ensures v == w && x == y
  {
    ValueBack(v, x);
    ValueBack(w, y);
  }

  /** Different well-formed values have different texts. */
  lemma EncodeInjective(v: Value, w: Value)
    requires WellFormed(v) && WellFormed(w) && Encode(v) == Encode(w)
    ensures v == w
  {
    DecodeEncode(v);
    DecodeEncode(w);
  }
}
