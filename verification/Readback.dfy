/** What a reader of the printed text learns of the Lua value it stands for. */
module Readback {
  import opened Sorting
  import opened Stamps
  import opened Events
  import opened Printer

  // What a conforming reader makes of a whole text.
  ghost predicate Reads(text: string, j: Json) {
    ReadValue(text) == Some((j, ""))
  }

  /** A string is read back as that string, a number as its token, and true, false and null as themselves; a number
      that is not finite is read back as null. */
  lemma ScalarsReadBack(s: string, token: string, b: bool)
    ensures Reads(Encoded(Text(s)), JString(s)) && Reads(Encoded(Bool(b)), JBool(b))
    ensures Reads(Encoded(Nil), JNull) && Reads(Encoded(NotFinite), JNull)
    ensures token != "" && (forall c | c in token :: NumberChar(c)) ==> Reads(Encoded(Number(token)), JNumber(token))
  {
    hide ReadValue, Print, EscapeStr;
    EncodeRoundTrip(Text(s));
    EncodeRoundTrip(Bool(b));
    EncodeRoundTrip(Nil);
    EncodeRoundTrip(NotFinite);
    if token != "" && (forall c | c in token :: NumberChar(c)) {
      EncodeRoundTrip(Number(token));
    }
  }

  // A hexadecimal digit as the printer writes it, in lower case.
  predicate DigitOf(h: char, n: nat) {
    if n < 10 then '0' <= h <= '9' && h as nat == '0' as nat + n
    else n < 16 && 'a' <= h <= 'f' && h as nat == 'a' as nat + (n - 10)
  }

  // The character's code in four hexadecimal digits, the first two of them zero.
  ghost predicate IsCode(text: string, c: char) {
    && |text| == 6 && text[..4] == "\\u00"
    && DigitOf(text[4], c as nat / 16) && DigitOf(text[5], c as nat % 16)
  }

  ghost predicate PrintsAs(put: string, c: char) {
    if c == '\\' then put == "\\\\" else if c == '"' then put == "\\\"" else if c == '\n' then put == "\\n"
    else if c == '\r' then put == "\\r" else if c == '\t' then put == "\\t"
    else if c < ' ' then IsCode(put, c) else put == [c]
  }

  lemma CodeDigits(n: nat)
    requires n < 32
    ensures DigitOf(Unicode(n)[4], n / 16) && DigitOf(Unicode(n)[5], n % 16)
  {
  }

  lemma CharPrints(c: char)
    ensures PrintsAs(EscapeChar(c), c)
  {
    if c < ' ' {
      CodeDigits(c as nat);
    }
    hide DigitOf;
  }

  /** A string prints as its characters one after the other between quotes: the five short escapes, the code of any
      other control character, and all the rest as themselves. */
  lemma CharText(c: char, s: string) returns (put: string, more: string)
    ensures PrintsAs(put, c) && Encoded(Text("")) == "\"\""
    ensures Encoded(Text(s)) == "\"" + more + "\"" && Encoded(Text([c] + s)) == "\"" + (put + more) + "\""
  {
    put, more := EscapeChar(c), Escaped(s);
    ChainIsOnePass("");
    assert Escaped("") == "";
    hide Substituted, EscapeChar, PrintsAs, Escaped;
    ChainIsOnePass(s);
    ChainIsOnePass([c] + s);
    CharPrints(c);
    OneChar(c, s);
  }

  lemma OneChar(c: char, s: string)
    ensures Escaped([c] + s) == EscapeChar(c) + Escaped(s)
  {
    hide EscapeChar;
    assert ([c] + s)[1..] == s;
  }

  // A member that carries a field: its key, and what is read of the text of its value.
  ghost predicate CarriesField(m: Member, f: Field) {
    m.key == f.key && Reads(Encoded(f.value), m.value)
  }

  ghost predicate Ascending(ms: seq<Member>) {
    forall i, j | 0 <= i < j < |ms| :: StrLess(ms[i].key, ms[j].key)
  }

  // An object with exactly the keys of a table, ascending, each holding what the text of its field is read back as.
  ghost predicate Presents(ms: seq<Member>, fields: seq<Field>) {
    && Ascending(ms) && |ms| == |fields|
    && (forall m | m in ms :: exists f :: f in fields && CarriesField(m, f))
    && (forall f | f in fields :: exists m :: m in ms && CarriesField(m, f))
  }

  /** A table is read back as an object with exactly its keys, ascending, each holding what the text of its own field
      is read back as. */
  lemma TableReadsBack(fields: seq<Field>)
    requires DistinctKeys(fields) && Numeric(Table(fields))
    ensures exists ms :: Reads(Encoded(Table(fields)), JObject(ms)) && Presents(ms, fields)
  {
    hide ReadValue, Print, StableSort, StrLess, Canon, CanonFields, Numeric, CarriesField;
    EncodeRoundTrip(Table(fields));
    var ms := SortedMembers(fields);
    FieldsNumeric(fields);
    forall m | m in ms ensures exists f :: f in fields && CarriesField(m, f) {
      var f := FieldOf(fields, m);
      Carried(f);
    }
    forall f | f in fields ensures exists m :: m in ms && CarriesField(m, f) {
      MemberOf(fields, f);
      Carried(f);
    }
    assert Presents(ms, fields);
  }

  lemma Carried(f: Field)
    requires Numeric(f.value)
    ensures CarriesField(Member(f.key, Canon(f.value)), f)
  {
    EncodeRoundTrip(f.value);
    hide ReadValue, Encoded;
  }

  lemma FieldsNumeric(fields: seq<Field>)
    requires Numeric(Table(fields))
    ensures forall f | f in fields :: Numeric(f.value)
  {
  }

  lemma SortedMembers(fields: seq<Field>) returns (ms: seq<Member>)
    requires DistinctKeys(fields)
    ensures Canon(Table(fields)) == JObject(ms) && Ascending(ms) && |ms| == |fields|
    ensures Elems(ms) == Elems(CanonFields(fields))
  {
    hide StableSort, StrLess, Canon, CanonFields, DistinctKeys;
    ms := StableSort(CanonFields(fields), KeyLess);
    KeysKept(fields);
    TableCanon(fields);
    SortedByKey(CanonFields(fields));
  }

  lemma FieldOf(fields: seq<Field>, m: Member) returns (f: Field)
    requires m in Elems(CanonFields(fields))
    ensures f in fields && m == Member(f.key, Canon(f.value))
  {
    hide Canon;
    var i :| 0 <= i < |fields| && CanonFields(fields)[i] == m;
    f := fields[i];
  }

  lemma MemberOf(fields: seq<Field>, f: Field)
    requires f in fields
    ensures Member(f.key, Canon(f.value)) in Elems(CanonFields(fields))
  {
    hide Canon;
    var i :| 0 <= i < |fields| && fields[i] == f;
    assert CanonFields(fields)[i] in CanonFields(fields);
  }

  // ----- which values print alike -----

  // Equal but for the order in which tables list their fields: equally many, and each has its like.
  ghost predicate SameButOrder(v: Value, w: Value)
    decreases v
  {
    if v.Table? && w.Table? then
      && |v.fields| == |w.fields|
      && (forall f | f in v.fields :: exists g :: g in w.fields && g.key == f.key && SameButOrder(f.value, g.value))
    else v == w
  }

  // Strings, truth values, finite numbers, and tables of such with distinct keys.
  ghost predicate Plain(v: Value) {
    match v
    case Nil => false
    case NotFinite => false
    case Bool(_) => true
    case Text(_) => true
    case Number(token) => token != "" && forall c | c in token :: NumberChar(c)
    case Table(fields) => DistinctKeys(fields) && forall f | f in fields :: Plain(f.value)
  }

  lemma {:induction false} PlainNumeric(v: Value)
    requires Plain(v)
    ensures Numeric(v)
    decreases v
  {
    if v.Table? {
      forall f | f in v.fields ensures Numeric(f.value) {
        PlainNumeric(f.value);
      }
    }
  }

  lemma {:induction false} CanonTellsApart(v: Value, w: Value)
    requires Plain(v) && Plain(w) && Canon(v) == Canon(w)
    ensures SameButOrder(v, w)
    decreases v
  {
    if v.Table? {
      var ms := SortedMembers(v.fields);
      var ms' := SortedMembers(w.fields);
      hide Canon, CanonFields, DistinctKeys;
      forall f | f in v.fields
        ensures exists g :: g in w.fields && g.key == f.key && SameButOrder(f.value, g.value)
      {
        MemberOf(v.fields, f);
        var g := FieldOf(w.fields, Member(f.key, Canon(f.value)));
        CanonTellsApart(f.value, g.value);
      }
    }
  }

  lemma {:induction false} SameCanon(v: Value, w: Value)
    requires Plain(v) && Plain(w) && SameButOrder(v, w)
    ensures Canon(v) == Canon(w)
    decreases v
  {
    if v.Table? && w.Table? {
      forall f, g | f in v.fields && g in w.fields && SameButOrder(f.value, g.value)
        ensures Canon(f.value) == Canon(g.value)
      {
        SameCanon(f.value, g.value);
      }
      hide Canon, CanonFields, DistinctKeys;
      SameMembers(v.fields, w.fields);
      TablesAlike(v.fields, w.fields);
    }
  }

  lemma SameMembers(fields: seq<Field>, fields': seq<Field>)
    requires DistinctKeys(fields) && DistinctKeys(fields') && |fields| == |fields'|
    requires forall f | f in fields :: exists g ::
      g in fields' && g.key == f.key && SameButOrder(f.value, g.value)
    requires forall f, g | f in fields && g in fields' && SameButOrder(f.value, g.value) ::
      Canon(f.value) == Canon(g.value)
    ensures Elems(CanonFields(fields)) == Elems(CanonFields(fields'))
  {
    hide Canon, CanonFields, SameButOrder, DistinctKeys;
    forall m | m in Elems(CanonFields(fields)) ensures m in Elems(CanonFields(fields')) {
      var f := FieldOf(fields, m);
      var g :| g in fields' && g.key == f.key && SameButOrder(f.value, g.value);
      MemberOf(fields', g);
    }
    KeysKept(fields);
    KeysKept(fields');
    SubsetSize(Elems(CanonFields(fields)), Elems(CanonFields(fields')));
  }

  lemma {:induction false} DistinctSize(ms: seq<Member>)
    requires forall i, j | 0 <= i < j < |ms| :: ms[i].key != ms[j].key
    ensures |Elems(ms)| == |ms|
  {
    if ms != [] {
      var n := |ms| - 1;
      DistinctSize(ms[..n]);
      assert ms == ms[..n] + [ms[n]];
      assert Elems(ms) == Elems(ms[..n]) + {ms[n]};
      assert forall m | m in ms[..n] :: m.key != ms[n].key;
    }
  }

  lemma KeysKept(fields: seq<Field>)
    requires DistinctKeys(fields)
    ensures forall i, j | 0 <= i < j < |fields| :: CanonFields(fields)[i].key != CanonFields(fields)[j].key
    ensures |Elems(CanonFields(fields))| == |fields|
  {
    hide Canon;
    DistinctSize(CanonFields(fields));
  }

  lemma TableCanon(fields: seq<Field>)
    ensures Canon(Table(fields)) == JObject(StableSort(CanonFields(fields), KeyLess))
  {
    hide StableSort, CanonFields;
  }

  lemma TablesAlike(fields: seq<Field>, fields': seq<Field>)
    requires DistinctKeys(fields) && DistinctKeys(fields')
    requires Elems(CanonFields(fields)) == Elems(CanonFields(fields'))
    ensures Canon(Table(fields)) == Canon(Table(fields'))
  {
    hide StableSort, Canon, CanonFields, DistinctKeys, KeyLess;
    KeysKept(fields);
    KeysKept(fields');
    TableCanon(fields);
    TableCanon(fields');
    SortedAlike(CanonFields(fields), CanonFields(fields'));
  }

  /** Two plain values print alike exactly when they are equal up to the order of fields: nothing that an event says
      is lost in its text. */
  lemma PrintAlikeIff(v: Value, w: Value)
    requires Plain(v) && Plain(w)
    ensures Encoded(v) == Encoded(w) <==> SameButOrder(v, w)
  {
    PlainNumeric(v);
    PlainNumeric(w);
    EncodeRoundTrip(v);
    EncodeRoundTrip(w);
    hide ReadValue, Print, Plain, SameButOrder;
    if Encoded(v) == Encoded(w) {
      CanonTellsApart(v, w);
    }
    if SameButOrder(v, w) {
      SameCanon(v, w);
    }
  }
}
