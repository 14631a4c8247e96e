/** The VLC collector's JSON printer, read back by the grammar of RFC 8259. Strings are byte strings. */
module Printer {
  import opened Sorting
  import opened Stamps
  import opened Events

  // ----- strings -----

  function Replace(s: string, c: char, put: string): string {
    if s == "" then "" else (if s[0] == c then put else [s[0]]) + Replace(s[1..], c, put)
  }

  function Hex(n: nat): char
    requires n < 16
  {
    "0123456789abcdef"[n]
  }

  // string.format("\\u%04x", ...) of a byte below 32.
  function Unicode(n: nat): string
    requires n < 32
  {
    "\\u00" + [Hex(n / 16), Hex(n % 16)]
  }

  predicate Control(c: char) {
    c < ' '
  }

  function ReplaceControls(s: string): string {
    if s == "" then "" else (if Control(s[0]) then Unicode(s[0] as nat) else [s[0]]) + ReplaceControls(s[1..])
  }

  // The substitutions, one after the other over the whole string.
  function Substituted(s: string): string {
    var a := Replace(Replace(s, '\\', "\\\\"), '"', "\\\"");
    var b := Replace(Replace(Replace(a, '\n', "\\n"), '\r', "\\r"), '\t', "\\t");
    ReplaceControls(b)
  }

  function EscapeStr(s: string): string {
    "\"" + Substituted(s) + "\""
  }

  // What section 7 of RFC 8259 asks for, character by character.
  function EscapeChar(c: char): string {
    if c == '\\' then "\\\\"
    else if c == '"' then "\\\""
    else if c == '\n' then "\\n"
    else if c == '\r' then "\\r"
    else if c == '\t' then "\\t"
    else if Control(c) then Unicode(c as nat)
    else [c]
  }

  function Escaped(s: string): string {
    if s == "" then "" else EscapeChar(s[0]) + Escaped(s[1..])
  }

  lemma Regroup(a: string, b: string, c: string)
    ensures a + (b + c) == a + b + c
  {
  }

  lemma Tail(s: string, t: string)
    requires s != ""
    ensures (s + t)[0] == s[0] && (s + t)[1..] == s[1..] + t && s + t != ""
  {
  }

  lemma {:induction false} ReplaceJoin(s: string, t: string, c: char, put: string)
    ensures Replace(s + t, c, put) == Replace(s, c, put) + Replace(t, c, put)
  {
    if s == "" {
      assert s + t == t;
    } else {
      ReplaceJoin(s[1..], t, c, put);
      Tail(s, t);
      Regroup(if s[0] == c then put else [s[0]], Replace(s[1..], c, put), Replace(t, c, put));
    }
  }

  lemma {:induction false} ControlsJoin(s: string, t: string)
    ensures ReplaceControls(s + t) == ReplaceControls(s) + ReplaceControls(t)
  {
    hide Unicode;
    if s == "" {
      assert s + t == t;
    } else {
      ControlsJoin(s[1..], t);
      Tail(s, t);
      Regroup(if Control(s[0]) then Unicode(s[0] as nat) else [s[0]], ReplaceControls(s[1..]), ReplaceControls(t));
    }
  }

  lemma SubstitutedJoin(s: string, t: string)
    ensures Substituted(s + t) == Substituted(s) + Substituted(t)
  {
    hide Replace, ReplaceControls;
    var a, b := Replace(s, '\\', "\\\\"), Replace(t, '\\', "\\\\");
    ReplaceJoin(s, t, '\\', "\\\\");
    ReplaceJoin(a, b, '"', "\\\"");
    a, b := Replace(a, '"', "\\\""), Replace(b, '"', "\\\"");
    ReplaceJoin(a, b, '\n', "\\n");
    a, b := Replace(a, '\n', "\\n"), Replace(b, '\n', "\\n");
    ReplaceJoin(a, b, '\r', "\\r");
    a, b := Replace(a, '\r', "\\r"), Replace(b, '\r', "\\r");
    ReplaceJoin(a, b, '\t', "\\t");
    ControlsJoin(Replace(a, '\t', "\\t"), Replace(b, '\t', "\\t"));
  }

  lemma {:induction false} Keeps(s: string, c: char, put: string)
    requires forall x | x in s :: x != c
    ensures Replace(s, c, put) == s
  {
    if s != "" {
      assert s[0] in s && forall x | x in s[1..] :: x in s;
      Keeps(s[1..], c, put);
      assert s == [s[0]] + s[1..];
    }
  }

  lemma {:induction false} KeepsAll(s: string)
    requires forall x | x in s :: !Control(x)
    ensures ReplaceControls(s) == s
  {
    hide Unicode;
    if s != "" {
      assert s[0] in s && forall x | x in s[1..] :: x in s;
      KeepsAll(s[1..]);
      assert s == [s[0]] + s[1..];
    }
  }

  lemma Becomes(c: char, put: string)
    ensures Replace([c], c, put) == put
  {
    assert put + "" == put;
  }

  // No substitution touches what an earlier one put in.
  lemma SubstitutedChar(c: char)
    ensures Substituted([c]) == EscapeChar(c)
  {
    hide Replace, ReplaceControls;
    if c == '\\' {
      Becomes(c, "\\\\");
      Keeps("\\\\", '"', "\\\"");
      Keeps("\\\\", '\n', "\\n");
      Keeps("\\\\", '\r', "\\r");
      Keeps("\\\\", '\t', "\\t");
      KeepsAll("\\\\");
    } else {
      Keeps([c], '\\', "\\\\");
      LaterChar(c);
    }
  }

  lemma LaterChar(c: char)
    requires c != '\\'
    ensures var a := Replace([c], '"', "\\\"");
      ReplaceControls(Replace(Replace(Replace(a, '\n', "\\n"), '\r', "\\r"), '\t', "\\t")) == EscapeChar(c)
  {
    hide Replace, ReplaceControls;
    var a := EscapeChar(c);
    if c == '"' {
      Becomes(c, a);
    } else {
      Keeps([c], '"', "\\\"");
    }
    var b := if c == '"' then a else [c];
    if c == '\n' {
      Becomes(c, a);
    } else {
      Keeps(b, '\n', "\\n");
    }
    b := if c == '\n' then a else b;
    if c == '\r' {
      Becomes(c, a);
    } else {
      Keeps(b, '\r', "\\r");
    }
    b := if c == '\r' then a else b;
    if c == '\t' {
      Becomes(c, a);
    } else {
      Keeps(b, '\t', "\\t");
    }
    b := if c == '\t' then a else b;
    if b == a {
      KeepsControls(c);
    } else {
      assert ReplaceControls([c]) == Unicode(c as nat) by { OneControl(c); }
    }
  }

  lemma KeepsControls(c: char)
    requires |EscapeChar(c)| <= 2
    ensures ReplaceControls(EscapeChar(c)) == EscapeChar(c)
  {
    KeepsAll(EscapeChar(c));
  }

  lemma OneControl(c: char)
    requires Control(c)
    ensures ReplaceControls([c]) == Unicode(c as nat)
  {
    assert Unicode(c as nat) + "" == Unicode(c as nat);
  }

  /** The chained substitutions are one pass over the characters. */
  lemma {:induction false} ChainIsOnePass(s: string)
    ensures Substituted(s) == Escaped(s)
  {
    if s != "" {
      ChainIsOnePass(s[1..]);
      SubstitutedChar(s[0]);
      SubstitutedJoin([s[0]], s[1..]);
      assert s == [s[0]] + s[1..];
      hide Substituted, EscapeChar;
    }
  }

  // ----- reading back -----

  function HexValue(c: char): Option<nat> {
    if '0' <= c <= '9' then Some(c as nat - '0' as nat)
    else if 'a' <= c <= 'f' then Some(c as nat - 'a' as nat + 10)
    else if 'A' <= c <= 'F' then Some(c as nat - 'A' as nat + 10)
    else None
  }

  function ReadHex(s: string): Option<nat>
    requires |s| == 4
  {
    var a, b, c, d := HexValue(s[0]), HexValue(s[1]), HexValue(s[2]), HexValue(s[3]);
    if a.None? || b.None? || c.None? || d.None? then None
    else Some(((a.value * 16 + b.value) * 16 + c.value) * 16 + d.value)
  }

  function Simple(c: char): Option<char> {
    match c
    case '"' => Some('"')
    case '\\' => Some('\\')
    case '/' => Some('/')
    case 'b' => Some(8 as char)
    case 'f' => Some(12 as char)
    case 'n' => Some('\n')
    case 'r' => Some('\r')
    case 't' => Some('\t')
    case _ => None
  }

  // The first character of a string body and what is left; None is a malformed body. A surrogate needs its
  // pair and is not a character by itself.
  function ReadChar(s: string): (r: Option<(char, string)>)
    requires s != ""
    ensures r.Some? ==> |r.value.1| < |s|
  {
    if Control(s[0]) then None
    else if s[0] != '\\' then Some((s[0], s[1..]))
    else if |s| < 2 then None
    else if s[1] == 'u' then
      if |s| < 6 then None
      else
        var n := ReadHex(s[2..6]);
        if n.None? || n.value >= 0xD800 then None else Some((n.value as char, s[6..]))
    else if Simple(s[1]).None? then None
    else Some((Simple(s[1]).value, s[2..]))
  }

  // A string body up to its closing quote.
  function ReadString(s: string): (r: Option<(string, string)>)
    ensures r.Some? ==> |r.value.1| < |s|
    decreases |s|
  {
    if s == "" then None
    else if s[0] == '"' then Some(("", s[1..]))
    else
      var c := ReadChar(s);
      if c.None? then None
      else
        var rest := ReadString(c.value.1);
        if rest.None? then None else Some(([c.value.0] + rest.value.0, rest.value.1))
  }

  lemma CharRoundTrip(c: char, rest: string)
    ensures (EscapeChar(c) + rest)[0] != '"' && ReadChar(EscapeChar(c) + rest) == Some((c, rest))
  {
    var e := EscapeChar(c);
    if |e| == 6 {
      assert (e + rest)[2..6] == "00" + [Hex(c as nat / 16), Hex(c as nat % 16)];
      HexRoundTrip(c as nat / 16);
      HexRoundTrip(c as nat % 16);
      assert (e + rest)[6..] == rest;
    } else if |e| == 2 {
      assert (e + rest)[2..] == rest;
    } else {
      assert (e + rest)[1..] == rest;
    }
  }

  lemma HexRoundTrip(n: nat)
    requires n < 16
    ensures HexValue(Hex(n)) == Some(n)
  {
    assert Hex(n) == if n < 10 then ('0' as nat + n) as char else ('a' as nat + n - 10) as char;
  }

  lemma {:induction false} BodyRoundTrip(s: string, rest: string)
    ensures ReadString(Escaped(s) + ("\"" + rest)) == Some((s, rest))
  {
    hide EscapeChar, ReadChar;
    var close := "\"" + rest;
    if s == "" {
      assert Escaped(s) + close == close && close[1..] == rest;
    } else {
      BodyRoundTrip(s[1..], rest);
      CharRoundTrip(s[0], Escaped(s[1..]) + close);
      Regroup(EscapeChar(s[0]), Escaped(s[1..]), close);
      assert s == [s[0]] + s[1..];
    }
  }

  /** What escape_str prints, a conforming reader reads back as the very same string. */
  lemma StringRoundTrip(s: string, rest: string)
    ensures EscapeStr(s) != "" && EscapeStr(s)[0] == '"'
    ensures ReadString(EscapeStr(s)[1..] + rest) == Some((s, rest))
  {
    ChainIsOnePass(s);
    BodyRoundTrip(s, rest);
    hide ReadString, Escaped, Substituted;
    assert EscapeStr(s)[1..] == Escaped(s) + "\"";
    Regroup(Escaped(s), "\"", rest);
  }

  // ----- values -----

  // A Lua value: a number is what string.format made of it, NotFinite if it is not finite, and a table is
  // its fields in whatever order pairs() yields them.
  datatype Value = Nil | Bool(b: bool) | Text(s: string) | Number(token: string) | NotFinite | Table(fields: seq<Field>)
  datatype Field = Field(key: string, value: Value)

  datatype Json = JNull | JBool(b: bool) | JString(s: string) | JNumber(token: string) | JObject(members: seq<Member>)
  datatype Member = Member(key: string, value: Json)

  predicate KeyLess(a: Member, b: Member) {
    StrLess(a.key, b.key)
  }

  // The JSON value a Lua value stands for, members in key order.
  function Canon(v: Value): Json {
    match v
    case Nil => JNull
    case Bool(b) => JBool(b)
    case Text(s) => JString(s)
    case Number(token) => JNumber(token)
    case NotFinite => JNull
    case Table(fields) => JObject(StableSort(CanonFields(fields), KeyLess))
  }

  function CanonFields(fields: seq<Field>): (ms: seq<Member>)
    ensures |ms| == |fields|
    ensures forall i | 0 <= i < |fields| :: ms[i] == Member(fields[i].key, Canon(fields[i].value))
  {
    if fields == [] then [] else [Member(fields[0].key, Canon(fields[0].value))] + CanonFields(fields[1..])
  }

  function Print(j: Json): string {
    match j
    case JNull => "null"
    case JBool(b) => if b then "true" else "false"
    case JString(s) => EscapeStr(s)
    case JNumber(token) => token
    case JObject(members) => "{" + PrintMembers(members) + "}"
  }

  function PrintMembers(members: seq<Member>): string {
    if members == [] then ""
    else if |members| == 1 then PrintMember(members[0])
    else PrintMember(members[0]) + "," + PrintMembers(members[1..])
  }

  function PrintMember(m: Member): string {
    EscapeStr(m.key) + ":" + Print(m.value)
  }

  // The text of a Lua value.
  function Encoded(v: Value): string {
    Print(Canon(v))
  }

  // ----- reading values back -----

  predicate NumberChar(c: char) {
    '0' <= c <= '9' || c == '-' || c == '.'
  }

  function ReadNumber(s: string): (r: (string, string))
    ensures s != "" && NumberChar(s[0]) ==> |r.1| < |s|
    ensures |r.1| <= |s|
  {
    if s != "" && NumberChar(s[0]) then
      var rest := ReadNumber(s[1..]);
      ([s[0]] + rest.0, rest.1)
    else ("", s)
  }

  function ReadValue(s: string): (r: Option<(Json, string)>)
    ensures r.Some? ==> |r.value.1| < |s|
    decreases |s|, 2
  {
    if s == "" then None
    else if s[0] == '"' then
      var t := ReadString(s[1..]);
      if t.None? then None else Some((JString(t.value.0), t.value.1))
    else if s[0] == '{' then
      if |s| > 1 && s[1] == '}' then Some((JObject([]), s[2..]))
      else
        var ms := ReadMembers(s[1..]);
        if ms.None? then None else Some((JObject(ms.value.0), ms.value.1))
    else if "null" <= s then Some((JNull, s[4..]))
    else if "true" <= s then Some((JBool(true), s[4..]))
    else if "false" <= s then Some((JBool(false), s[5..]))
    else if NumberChar(s[0]) then Some((JNumber(ReadNumber(s).0), ReadNumber(s).1))
    else None
  }

  // One member, a comma and more members, or the closing brace.
  function ReadMembers(s: string): (r: Option<(seq<Member>, string)>)
    ensures r.Some? ==> |r.value.1| < |s|
    decreases |s|, 1
  {
    var m := ReadMember(s);
    if m.None? || m.value.1 == "" then None
    else if m.value.1[0] == '}' then Some(([m.value.0], m.value.1[1..]))
    else if m.value.1[0] != ',' then None
    else
      var ms := ReadMembers(m.value.1[1..]);
      if ms.None? then None else Some(([m.value.0] + ms.value.0, ms.value.1))
  }

  function ReadMember(s: string): (r: Option<(Member, string)>)
    ensures r.Some? ==> |r.value.1| < |s|
    decreases |s|, 0
  {
    if s == "" || s[0] != '"' then None
    else
      var key := ReadString(s[1..]);
      if key.None? || key.value.1 == "" || key.value.1[0] != ':' then None
      else
        var v := ReadValue(key.value.1[1..]);
        if v.None? then None else Some((Member(key.value.0, v.value.0), v.value.1))
  }

  // Number tokens are what %d and %.6f can print.
  ghost predicate Wellformed(j: Json) {
    match j
    case JNumber(token) => token != "" && forall c | c in token :: NumberChar(c)
    case JObject(members) => forall m | m in members :: Wellformed(m.value)
    case _ => true
  }

  // A number is over where the next character cannot be part of it.
  predicate Stops(rest: string) {
    rest == "" || !NumberChar(rest[0])
  }

  lemma {:induction false} NumberRoundTrip(token: string, rest: string)
    requires Stops(rest) && forall c | c in token :: NumberChar(c)
    ensures ReadNumber(token + rest) == (token, rest)
  {
    if token == "" {
      assert token + rest == rest;
    } else {
      assert token[0] in token && forall c | c in token[1..] :: c in token;
      NumberRoundTrip(token[1..], rest);
      Tail(token, rest);
      assert token == [token[0]] + token[1..];
    }
  }

  lemma {:induction false} ValueRoundTrip(j: Json, rest: string)
    requires Wellformed(j) && Stops(rest)
    ensures ReadValue(Print(j) + rest) == Some((j, rest))
    decreases j, 1
  {
    hide ReadString, ReadMembers, ReadNumber, EscapeStr;
    var s := Print(j) + rest;
    match j
    case JNull => assert s[4..] == rest;
    case JBool(b) => assert s[if b then 4 else 5..] == rest;
    case JString(t) =>
      StringRoundTrip(t, rest);
      Tail(EscapeStr(t), rest);
    case JNumber(token) =>
      assert token[0] in token;
      Tail(token, rest);
      NumberRoundTrip(token, rest);
    case JObject(members) => ObjectRoundTrip(j, rest);
  }

  lemma {:induction false} ObjectRoundTrip(j: Json, rest: string)
    requires j.JObject? && Wellformed(j) && Stops(rest)
    ensures ReadValue(Print(j) + rest) == Some((j, rest))
    decreases j, 0
  {
    hide ReadString, ReadMembers, ReadNumber, EscapeStr;
    var s := Print(j) + rest;
    if j.members == [] {
      assert Print(j) == "{}";
      assert s[2..] == rest;
    } else {
      var body := PrintMembers(j.members) + ("}" + rest);
      assert s == "{" + body && s[1..] == body;
      MembersRoundTrip(j.members, rest);
      FirstQuote(j.members);
      assert s[1] == '"';
    }
  }

  lemma FirstQuote(members: seq<Member>)
    requires members != []
    ensures PrintMembers(members) != "" && PrintMembers(members)[0] == '"'
  {
    hide Substituted;
  }

  lemma {:induction false} MembersRoundTrip(members: seq<Member>, rest: string)
    requires members != [] && (forall m | m in members :: Wellformed(m.value))
    ensures ReadMembers(PrintMembers(members) + ("}" + rest)) == Some((members, rest))
    decreases members
  {
    hide ReadMember, PrintMember, Wellformed;
    var m, more := members[0], members[1..];
    var close := "}" + rest;
    if more == [] {
      MemberRoundTrip(m, close);
      assert members == [m] && close[1..] == rest;
    } else {
      MembersRoundTrip(more, rest);
      var tail := PrintMembers(more) + close;
      MemberRoundTrip(m, "," + tail);
      assert PrintMembers(members) + close == PrintMember(m) + ("," + tail);
      assert ("," + tail)[1..] == tail && members == [m] + more;
    }
  }

  lemma {:induction false} MemberRoundTrip(m: Member, rest: string)
    requires Wellformed(m.value) && Stops(rest)
    ensures ReadMember(PrintMember(m) + rest) == Some((m, rest))
    decreases m
  {
    hide ReadString, ReadValue, EscapeStr, Print, Wellformed;
    var tail := ":" + (Print(m.value) + rest);
    StringRoundTrip(m.key, tail);
    ValueRoundTrip(m.value, rest);
    assert PrintMember(m) + rest == EscapeStr(m.key) + tail;
    Tail(EscapeStr(m.key), tail);
    assert tail[1..] == Print(m.value) + rest;
  }

  // ----- the encoder -----

  ghost predicate Numeric(v: Value) {
    match v
    case Number(token) => token != "" && forall c | c in token :: NumberChar(c)
    case Table(fields) => forall f | f in fields :: Numeric(f.value)
    case _ => true
  }

  lemma {:induction false} CanonWellformed(v: Value)
    requires Numeric(v)
    ensures Wellformed(Canon(v))
    decreases v
  {
    if v.Table? {
      var ms := CanonFields(v.fields);
      forall i | 0 <= i < |ms| ensures Wellformed(ms[i].value) {
        CanonWellformed(v.fields[i].value);
      }
      SameElems(StableSort(ms, KeyLess), ms);
    }
  }

  /** json_encode read back by the grammar is the table it was given, members in key order. */
  lemma EncodeRoundTrip(v: Value)
    requires Numeric(v)
    ensures ReadValue(Encoded(v)) == Some((Canon(v), ""))
  {
    CanonWellformed(v);
    ValueRoundTrip(Canon(v), "");
    assert Print(Canon(v)) + "" == Print(Canon(v));
  }

  lemma EscapeCharPlain(c: char)
    ensures forall x | x in EscapeChar(c) :: !Control(x)
  {
  }

  lemma {:induction false} EscapedPlain(s: string)
    ensures forall x | x in Escaped(s) :: !Control(x)
  {
    if s != "" {
      EscapedPlain(s[1..]);
      EscapeCharPlain(s[0]);
    }
  }

  /** No control byte gets through unescaped, so one event is always one line. */
  lemma {:induction false} PrintIsOneLine(j: Json)
    requires Wellformed(j)
    ensures forall x | x in Print(j) :: !Control(x)
    decreases j
  {
    match j
    case JString(s) =>
      ChainIsOnePass(s);
      EscapedPlain(s);
    case JObject(members) => MembersAreOneLine(members);
    case _ =>
  }

  lemma {:induction false} MembersAreOneLine(members: seq<Member>)
    requires forall m | m in members :: Wellformed(m.value)
    ensures forall x | x in PrintMembers(members) :: !Control(x)
    decreases members
  {
    assert !Control(':') && !Control(',') && !Control('"');
    hide Wellformed, Control;
    if members != [] {
      ChainIsOnePass(members[0].key);
      EscapedPlain(members[0].key);
      PrintIsOneLine(members[0].value);
      MembersAreOneLine(members[1..]);
      hide Escaped, Substituted, Print;
    }
  }

  ghost predicate DistinctKeys(fields: seq<Field>) {
    forall i, j | 0 <= i < j < |fields| :: fields[i].key != fields[j].key
  }

  lemma SortedByKey(ms: seq<Member>)
    requires forall i, j | 0 <= i < j < |ms| :: ms[i].key != ms[j].key
    ensures Sorted(StableSort(ms, KeyLess), KeyLess) && Elems(StableSort(ms, KeyLess)) == Elems(ms)
  {
    forall x, y, z | KeyLess(x, y) && KeyLess(y, z) ensures KeyLess(x, z) {
      StrLessTransitive(x.key, y.key, z.key);
    }
    forall i, j | 0 <= i < j < |ms| ensures KeyLess(ms[j], ms[i]) || KeyLess(ms[i], ms[j]) {
      StrLessTotal(ms[i].key, ms[j].key);
    }
    StableSortRefines(ms, KeyLess, KeyLess);
  }

  lemma SortedAlike(ms: seq<Member>, ms': seq<Member>)
    requires forall i, j | 0 <= i < j < |ms| :: ms[i].key != ms[j].key
    requires forall i, j | 0 <= i < j < |ms'| :: ms'[i].key != ms'[j].key
    requires Elems(ms) == Elems(ms')
    ensures StableSort(ms, KeyLess) == StableSort(ms', KeyLess)
  {
    SortedByKey(ms);
    SortedByKey(ms');
    hide StableSort, StrLess;
    forall x, y: Member ensures !(KeyLess(x, y) && KeyLess(y, x)) {
      StrLessAsymmetric(x.key, y.key);
    }
    SortedUnique(StableSort(ms, KeyLess), StableSort(ms', KeyLess), KeyLess);
  }

  /** The text of a table does not depend on the order in which pairs() happens to visit it. */
  lemma PairsOrderIrrelevant(fields: seq<Field>, fields': seq<Field>)
    requires DistinctKeys(fields) && DistinctKeys(fields') && Elems(fields) == Elems(fields')
    ensures Encoded(Table(fields)) == Encoded(Table(fields'))
  {
    hide StableSort, Print, KeyLess, CanonFields, StrLess;
    CanonElems(fields, fields');
    CanonElems(fields', fields);
    SortedAlike(CanonFields(fields), CanonFields(fields'));
  }

  lemma CanonElems(fields: seq<Field>, fields': seq<Field>)
    requires Elems(fields) <= Elems(fields')
    ensures Elems(CanonFields(fields)) <= Elems(CanonFields(fields'))
  {
    hide Canon;
    forall m | m in CanonFields(fields) ensures m in CanonFields(fields') {
      var i :| 0 <= i < |fields| && CanonFields(fields)[i] == m;
      assert fields[i] in Elems(fields');
      var j :| 0 <= j < |fields'| && fields'[j] == fields[i];
      assert CanonFields(fields')[j] == m;
    }
  }

  // ----- the encoder as a loop -----

  predicate FieldLess(a: Field, b: Field) {
    StrLess(a.key, b.key)
  }

  lemma CanonCons(f: Field, fields: seq<Field>)
    ensures CanonFields([f] + fields) == [Member(f.key, Canon(f.value))] + CanonFields(fields)
  {
    hide Canon;
    assert ([f] + fields)[1..] == fields;
  }

  lemma {:induction false} CanonInsert(f: Field, fields: seq<Field>)
    ensures CanonFields(InsertStable(f, fields, FieldLess)) ==
      InsertStable(Member(f.key, Canon(f.value)), CanonFields(fields), KeyLess)
  {
    hide Canon, StrLess;
    var ms := CanonFields(fields);
    if fields != [] {
      assert FieldLess(fields[0], f) <==> KeyLess(ms[0], Member(f.key, Canon(f.value)));
      assert ms[1..] == CanonFields(fields[1..]);
    }
    hide FieldLess, KeyLess, CanonFields;
    if fields != [] && FieldLess(fields[0], f) {
      CanonInsert(f, fields[1..]);
      CanonCons(fields[0], InsertStable(f, fields[1..], FieldLess));
    } else {
      CanonCons(f, fields);
    }
  }

  // Sorting the fields and sorting the members is the same thing.
  lemma {:induction false} CanonSorted(fields: seq<Field>)
    ensures CanonFields(StableSort(fields, FieldLess)) == StableSort(CanonFields(fields), KeyLess)
  {
    hide Canon;
    if fields != [] {
      CanonSorted(fields[1..]);
      CanonInsert(fields[0], StableSort(fields[1..], FieldLess));
    }
  }

  function Join(parts: seq<string>): string {
    if parts == [] then "" else if |parts| == 1 then parts[0] else parts[0] + "," + Join(parts[1..])
  }

  lemma {:induction false} JoinMembers(parts: seq<string>, ms: seq<Member>)
    requires |parts| == |ms| && forall i | 0 <= i < |ms| :: parts[i] == PrintMember(ms[i])
    ensures Join(parts) == PrintMembers(ms)
  {
    hide PrintMember;
    if |ms| > 1 {
      JoinMembers(parts[1..], ms[1..]);
    }
  }

  /** json_encode: the keys are sorted, each field is printed in turn, and the parts are joined. */
  method Encode(v: Value) returns (text: string)
    ensures text == Encoded(v)
    decreases v, 1
  {
    match v
    case Nil => text := "null";
    case NotFinite => text := "null";
    case Bool(b) => text := if b then "true" else "false";
    case Text(s) => text := EscapeStr(s);
    case Number(token) => text := token;
    case Table(fields) =>
      var sorted := StableSort(fields, FieldLess);
      SameElems(sorted, fields);
      CanonSorted(fields);
      hide StableSort, FieldLess, Canon, Print, PrintMembers, CanonFields;
      PrintObject(v, sorted);
      var parts := EncodeFields(v, sorted);
      JoinMembers(parts, CanonFields(sorted));
      text := "{" + Join(parts) + "}";
  }

  method EncodeFields(v: Value, sorted: seq<Field>) returns (parts: seq<string>)
    requires v.Table? && forall f | f in sorted :: f in v.fields
    ensures |parts| == |sorted| && forall i | 0 <= i < |parts| :: parts[i] == PrintMember(CanonFields(sorted)[i])
    decreases v, 0
  {
    hide EscapeStr, Canon, Print, CanonFields;
    parts := [];
    while |parts| < |sorted|
      invariant |parts| <= |sorted|
      invariant forall i | 0 <= i < |parts| :: parts[i] == PrintMember(CanonFields(sorted)[i])
    {
      var f := sorted[|parts|];
      assert f in v.fields;
      var value := Encode(f.value);
      parts := parts + [EscapeStr(f.key) + ":" + value];
    }
  }

  lemma PrintObject(v: Value, sorted: seq<Field>)
    requires v.Table? && CanonFields(sorted) == StableSort(CanonFields(v.fields), KeyLess)
    ensures Print(Canon(v)) == "{" + PrintMembers(CanonFields(sorted)) + "}"
  {
    hide StableSort, PrintMembers, CanonFields;
  }
}
