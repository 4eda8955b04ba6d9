/** The stable text of a value, and why comparing two texts compares the values. */
module StableJson {
  import opened Sorting
  import opened Order

  /** A number is finite, known by the text it prints as, or not finite at all. */
  datatype Value =
    | Undefined
    | Null
    | Bool(value: bool)
    | Number(text: string)
    | NotFinite(name: string)
    | Str(chars: string)
    | List(items: seq<Value>)
    | Object(fields: seq<Field>)
  datatype Field = Field(key: string, value: Value)

  // ----- JSON text

  function HexDigit(n: nat): char
    requires n < 16
  {
    "0123456789abcdef"[n]
  }

  function EscapeChar(c: char): (s: string)
    ensures s != "" && s[0] != '"'
  {
    if c == '"' then "\\\""
    else if c == '\\' then "\\\\"
    else if c as int == 8 then "\\b"
    else if c as int == 9 then "\\t"
    else if c as int == 10 then "\\n"
    else if c as int == 12 then "\\f"
    else if c as int == 13 then "\\r"
    else if c as int < 32 then "\\u00" + [HexDigit(c as int / 16), HexDigit(c as int % 16)]
    else [c]
  }

  function Escaped(s: string): string {
    if s == "" then "" else EscapeChar(s[0]) + Escaped(s[1..])
  }

  function Quote(s: string): string {
    "\"" + Escaped(s) + "\""
  }

  /** Each text after the first follows a comma. */
  function Commas(texts: seq<string>): string {
    if texts == [] then "" else "," + texts[0] + Commas(texts[1..])
  }

  function Joined(texts: seq<string>): string {
    if texts == [] then "" else texts[0] + Commas(texts[1..])
  }

  /** JSON.stringify, with the fields in the order they stand. */
  function Print(v: Value): string
    decreases v
  {
    match v
    case Undefined => "undefined"
    case Null => "null"
    case Bool(b) => if b then "true" else "false"
    case Number(text) => text
    case NotFinite(_) => "null"
    case Str(s) => Quote(s)
    case List(vs) => "[" + Joined(Prints(vs)) + "]"
    case Object(fs) => "{" + Joined(PrintFields(fs)) + "}"
  }

  function Prints(vs: seq<Value>): (t: seq<string>)
    ensures |t| == |vs|
    decreases vs
  {
    if vs == [] then [] else [Print(vs[0])] + Prints(vs[1..])
  }

  function Entry(key: string, text: string): string {
    Quote(key) + ":" + text
  }

  function PrintFields(fs: seq<Field>): (t: seq<string>)
    ensures |t| == |fs|
    decreases fs
  {
    if fs == [] then [] else [Entry(fs[0].key, Print(fs[0].value))] + PrintFields(fs[1..])
  }

  // ----- the stable text: keys sorted at every level

  datatype Texted = Texted(key: string, text: string)

  function TextOrder(): (Texted, Texted) -> bool {
    (a: Texted, b: Texted) => AtMost(a.key, b.key)
  }

  function Stable(v: Value): string
    decreases v
  {
    match v
    case Undefined => "undefined"
    case Null => "null"
    case Bool(b) => if b then "true" else "false"
    case Number(text) => text
    case NotFinite(_) => "null"
    case Str(s) => Quote(s)
    case List(vs) => "[" + Joined(Stables(vs)) + "]"
    case Object(fs) => "{" + Joined(Entries(Sort(StableFields(fs), TextOrder()))) + "}"
  }

  function Stables(vs: seq<Value>): seq<string>
    decreases vs
  {
    if vs == [] then [] else [Stable(vs[0])] + Stables(vs[1..])
  }

  function StableFields(fs: seq<Field>): seq<Texted>
    decreases fs
  {
    if fs == [] then [] else [Texted(fs[0].key, Stable(fs[0].value))] + StableFields(fs[1..])
  }

  function Entries(ts: seq<Texted>): seq<string> {
    if ts == [] then [] else [Entry(ts[0].key, ts[0].text)] + Entries(ts[1..])
  }

  // ----- what two values have in common

  predicate IsNumberChar(c: char) {
    '0' <= c <= '9' || c == '-' || c == '+' || c == '.' || c == 'e'
  }

  predicate IsNumberText(s: string) {
    s != "" && ('0' <= s[0] <= '9' || s[0] == '-') && forall i :: 0 <= i < |s| ==> IsNumberChar(s[i])
  }

  predicate DistinctKeys(fs: seq<Field>) {
    forall i, j :: 0 <= i < j < |fs| ==> fs[i].key != fs[j].key
  }

  /** What any value is: numbers print as numbers, and no object repeats a key. */
  predicate Valid(v: Value)
    decreases v
  {
    match v
    case Number(text) => IsNumberText(text)
    case List(vs) => forall i :: 0 <= i < |vs| ==> Valid(vs[i])
    case Object(fs) => DistinctKeys(fs) && forall i :: 0 <= i < |fs| ==> Valid(fs[i].value)
    case _ => true
  }

  /** Equal up to the order of object keys, a number that is not finite counting as null. */
  predicate Same(a: Value, b: Value)
    decreases a
  {
    match a
    case Null => b.Null? || b.NotFinite?
    case NotFinite(_) => b.Null? || b.NotFinite?
    case List(vs) => b.List? && |vs| == |b.items| && forall i :: 0 <= i < |vs| ==> Same(vs[i], b.items[i])
    case Object(fs) => b.Object?
      && (forall i :: 0 <= i < |fs| ==> HasKey(b.fields, fs[i].key))
      && (forall j :: 0 <= j < |b.fields| ==> HasKey(fs, b.fields[j].key))
      && (forall i, j :: 0 <= i < |fs| && 0 <= j < |b.fields| && fs[i].key == b.fields[j].key ==> Same(fs[i].value, b.fields[j].value))
    case _ => a == b
  }

  predicate HasKey(fs: seq<Field>, key: string) {
    exists i :: 0 <= i < |fs| && fs[i].key == key
  }

  // ----- the canonical value

  function FieldOrder(): (Field, Field) -> bool {
    (a: Field, b: Field) => AtMost(a.key, b.key)
  }

  function Canon(v: Value): Value
    decreases v
  {
    match v
    case NotFinite(_) => Null
    case List(vs) => List(Canons(vs))
    case Object(fs) => Object(Sort(CanonFields(fs), FieldOrder()))
    case _ => v
  }

  function Canons(vs: seq<Value>): (c: seq<Value>)
    ensures |c| == |vs| && forall i :: 0 <= i < |vs| ==> c[i] == Canon(vs[i])
    decreases vs
  {
    if vs == [] then [] else [Canon(vs[0])] + Canons(vs[1..])
  }

  function CanonFields(fs: seq<Field>): (c: seq<Field>)
    ensures |c| == |fs| && forall i :: 0 <= i < |fs| ==> c[i] == Field(fs[i].key, Canon(fs[i].value))
    decreases fs
  {
    if fs == [] then [] else [Field(fs[0].key, Canon(fs[0].value))] + CanonFields(fs[1..])
  }

  // ----- the stable text prints the canonical value

  function TextedFields(fs: seq<Field>): (t: seq<Texted>) {
    if fs == [] then [] else [Texted(fs[0].key, Print(fs[0].value))] + TextedFields(fs[1..])
  }

  lemma {:induction false} InsertTexts(f: Field, fs: seq<Field>)
    ensures TextedFields(Insert(f, fs, FieldOrder())) == Insert(Texted(f.key, Print(f.value)), TextedFields(fs), TextOrder())
  {
    hide Print, AtMost;
    if fs != [] && !FieldOrder()(f, fs[0]) {
      InsertTexts(f, fs[1..]);
    } else {
      assert ([f] + fs)[1..] == fs;
    }
  }

  lemma {:induction false} SortTexts(fs: seq<Field>)
    ensures TextedFields(Sort(fs, FieldOrder())) == Sort(TextedFields(fs), TextOrder())
  {
    hide Print, Insert, FieldOrder, TextOrder;
    if fs != [] {
      SortTexts(fs[1..]);
      InsertTexts(fs[0], Sort(fs[1..], FieldOrder()));
    }
  }

  lemma {:induction false} EntriesArePrints(fs: seq<Field>)
    ensures Entries(TextedFields(fs)) == PrintFields(fs)
  {
    hide Print, Entry;
    if fs != [] { EntriesArePrints(fs[1..]); }
  }

  lemma {:induction false} StablePrintsCanon(v: Value)
    ensures Stable(v) == Print(Canon(v))
    decreases v
  {
    hide Sort, Joined, Quote;
    match v
    case List(vs) => StablesPrint(vs);
    case Object(fs) =>
      FieldsPrint(fs);
      SortTexts(CanonFields(fs));
      EntriesArePrints(Sort(CanonFields(fs), FieldOrder()));
    case _ =>
  }

  lemma {:induction false} StablesPrint(vs: seq<Value>)
    ensures Stables(vs) == Prints(Canons(vs))
    decreases vs
  {
    hide Stable, Print, Canon;
    if vs != [] {
      StablePrintsCanon(vs[0]);
      StablesPrint(vs[1..]);
    }
  }

  lemma {:induction false} FieldsPrint(fs: seq<Field>)
    ensures StableFields(fs) == TextedFields(CanonFields(fs))
    decreases fs
  {
    hide Stable, Print, Canon;
    if fs != [] {
      StablePrintsCanon(fs[0].value);
      FieldsPrint(fs[1..]);
    }
  }

  // ----- text can be read back

  /** What may follow a value: nothing, a comma, or a closing bracket. */
  predicate Stop(x: string) {
    x == "" || x[0] == ',' || x[0] == ']' || x[0] == '}'
  }

  /** Every number prints as one, and none is missing: what a canonical value is. */
  predicate Proper(v: Value)
    decreases v
  {
    match v
    case Number(text) => IsNumberText(text)
    case NotFinite(_) => false
    case List(vs) => forall i :: 0 <= i < |vs| ==> Proper(vs[i])
    case Object(fs) => forall i :: 0 <= i < |fs| ==> Proper(fs[i].value)
    case _ => true
  }

  predicate Leads(v: Value, c: char) {
    match v
    case Undefined => c == 'u'
    case Null => c == 'n'
    case Bool(b) => c == if b then 't' else 'f'
    case Number(_) => c == '-' || '0' <= c <= '9'
    case NotFinite(_) => c == 'n'
    case Str(_) => c == '"'
    case List(_) => c == '['
    case Object(_) => c == '{'
  }

  lemma LeadIs(v: Value)
    requires Proper(v)
    ensures Print(v) != "" && Leads(v, Print(v)[0])
  {
    hide Joined;
  }

  /** Equal texts that begin with pieces of equal length agree piece by piece. */
  lemma Cut(p: string, x: string, q: string, y: string)
    requires p + x == q + y && |p| == |q|
    ensures p == q && x == y
  {
    assert (p + x)[..|p|] == p && (q + y)[..|p|] == q && (p + x)[|p|..] == x && (q + y)[|p|..] == y;
  }

  lemma FirstOf(p: string, x: string)
    requires p != ""
    ensures p + x != "" && (p + x)[0] == p[0]
  {}

  lemma HexReads(m: nat, n: nat)
    requires m < 16 && n < 16 && HexDigit(m) == HexDigit(n)
    ensures m == n
  {
    hide HexDigit;
    HexIs(m);
    HexIs(n);
  }

  lemma HexIs(m: nat)
    requires m < 16
    ensures HexDigit(m) as int == if m < 10 then '0' as int + m else 'a' as int + m - 10
  {}

  lemma ControlText(c: char)
    requires |EscapeChar(c)| > 1 && EscapeChar(c)[1] == 'u'
    ensures c as int < 32 && EscapeChar(c) == ['\\', 'u', '0', '0', HexDigit(c as int / 16), HexDigit(c as int % 16)]
  {
    hide HexDigit;
  }

  lemma EscapeReads(c: char, d: char, x: string, y: string)
    requires EscapeChar(c) + x == EscapeChar(d) + y
    ensures c == d && x == y
  {
    var s, t := EscapeChar(c), EscapeChar(d);
    FirstOf(s, x);
    FirstOf(t, y);
    if s[0] == '\\' {
      assert (s + x)[1] == s[1] && (t + y)[1] == t[1];
      Cut(s, x, t, y);
      if s[1] == 'u' {
        ControlText(c);
        ControlText(d);
        HexReads(c as int / 16, d as int / 16);
        HexReads(c as int % 16, d as int % 16);
      }
    } else {
      Cut(s, x, t, y);
    }
  }

  lemma {:induction false} QuoteReads(s: string, t: string, x: string, y: string)
    requires Escaped(s) + "\"" + x == Escaped(t) + "\"" + y
    ensures s == t && x == y
  {
    hide EscapeChar;
    if s != "" && t != "" {
      assert Escaped(s) + "\"" + x == EscapeChar(s[0]) + (Escaped(s[1..]) + "\"" + x);
      assert Escaped(t) + "\"" + y == EscapeChar(t[0]) + (Escaped(t[1..]) + "\"" + y);
      EscapeReads(s[0], t[0], Escaped(s[1..]) + "\"" + x, Escaped(t[1..]) + "\"" + y);
      QuoteReads(s[1..], t[1..], x, y);
      assert s == [s[0]] + s[1..] && t == [t[0]] + t[1..];
    } else if s != "" {
      QuoteEnds(s, x);
      QuoteCloses(y);
    } else if t != "" {
      QuoteEnds(t, y);
      QuoteCloses(x);
    } else {
      assert Escaped(s) + "\"" + x == "\"" + x && Escaped(t) + "\"" + y == "\"" + y;
      Cut("\"", x, "\"", y);
    }
  }

  lemma QuoteCloses(x: string)
    ensures Escaped("") + "\"" + x != "" && (Escaped("") + "\"" + x)[0] == '"'
  {}

  lemma QuoteEnds(s: string, x: string)
    requires s != ""
    ensures Escaped(s) + "\"" + x != "" && (Escaped(s) + "\"" + x)[0] != '"'
  {
    hide EscapeChar;
    assert Escaped(s) + "\"" + x == EscapeChar(s[0]) + (Escaped(s[1..]) + "\"" + x);
    FirstOf(EscapeChar(s[0]), Escaped(s[1..]) + "\"" + x);
  }

  lemma NumberGoesOn(s: string, x: string, t: string, y: string)
    requires |s| < |t| && s + x == t + y && IsNumberText(t)
    ensures !Stop(x)
  {
    assert (s + x)[|s|] == x[0] && (t + y)[|s|] == t[|s|];
  }

  lemma NumberReads(s: string, t: string, x: string, y: string)
    requires IsNumberText(s) && IsNumberText(t) && Stop(x) && Stop(y) && s + x == t + y
    ensures s == t && x == y
  {
    hide *;
    if |s| < |t| { NumberGoesOn(s, x, t, y); }
    if |t| < |s| { NumberGoesOn(t, y, s, x); }
    Cut(s, x, t, y);
  }

  /** A printed value can be read off the front of any text that may follow it. */
  lemma {:induction false} Reads(a: Value, b: Value, x: string, y: string)
    requires Proper(a) && Proper(b) && Stop(x) && Stop(y) && Print(a) + x == Print(b) + y
    ensures a == b && x == y
    decreases a
  {
    hide Joined, Escaped, Stop, IsNumberText;
    LeadIs(a);
    LeadIs(b);
    FirstOf(Print(a), x);
    FirstOf(Print(b), y);
    match a
    case Number(s) => NumberReads(s, b.text, x, y);
    case Str(s) => StrReads(s, b.chars, x, y);
    case List(vs) =>
      Bracketed("[", Joined(Prints(vs)), "]", x, Joined(Prints(b.items)), y);
      ItemsRead(vs, b.items, x, y);
    case Object(fs) =>
      Bracketed("{", Joined(PrintFields(fs)), "}", x, Joined(PrintFields(b.fields)), y);
      FieldsRead(fs, b.fields, x, y);
    case _ => Cut(Print(a), x, Print(b), y);
  }

  lemma StrReads(s: string, t: string, x: string, y: string)
    requires Quote(s) + x == Quote(t) + y
    ensures s == t && x == y
  {
    hide Escaped;
    Bracketed("\"", Escaped(s), "\"", x, Escaped(t), y);
    QuoteReads(s, t, x, y);
  }

  lemma Bracketed(opening: string, s: string, closing: string, x: string, t: string, y: string)
    requires opening + s + closing + x == opening + t + closing + y
    ensures s + closing + x == t + closing + y
  {
    assert opening + s + closing + x == opening + (s + closing + x) && opening + t + closing + y == opening + (t + closing + y);
    Cut(opening, s + closing + x, opening, t + closing + y);
  }

  lemma ProperTail(vs: seq<Value>)
    requires Proper(List(vs)) && vs != []
    ensures Proper(vs[0]) && Proper(List(vs[1..]))
  {}

  lemma ProperFieldTail(fs: seq<Field>)
    requires Proper(Object(fs)) && fs != []
    ensures Proper(fs[0].value) && Proper(Object(fs[1..]))
  {}

  lemma CommasStop(texts: seq<string>, closing: string, x: string)
    requires closing == "]" || closing == "}"
    ensures Stop(Commas(texts) + closing + x)
    ensures texts == [] ==> (Commas(texts) + closing + x)[0] == closing[0]
    ensures texts != [] ==> (Commas(texts) + closing + x)[0] == ','
  {}

  lemma CommasHead(texts: seq<string>, closing: string, x: string)
    requires texts != []
    ensures Commas(texts) + closing + x == "," + (texts[0] + (Commas(texts[1..]) + closing + x))
  {}

  lemma {:induction false} CommasRead(a: seq<Value>, b: seq<Value>, x: string, y: string)
    requires Proper(List(a)) && Proper(List(b)) && Commas(Prints(a)) + "]" + x == Commas(Prints(b)) + "]" + y
    ensures a == b && x == y
    decreases a, 0
  {
    hide Print, Commas, Stop, Proper;
    CommasStop(Prints(a), "]", x);
    CommasStop(Prints(b), "]", y);
    if a != [] {
      CommasHead(Prints(a), "]", x);
      CommasHead(Prints(b), "]", y);
      CommasStop(Prints(a[1..]), "]", x);
      CommasStop(Prints(b[1..]), "]", y);
      ProperTail(a);
      ProperTail(b);
      Cut(",", Print(a[0]) + (Commas(Prints(a[1..])) + "]" + x), ",", Print(b[0]) + (Commas(Prints(b[1..])) + "]" + y));
      Reads(a[0], b[0], Commas(Prints(a[1..])) + "]" + x, Commas(Prints(b[1..])) + "]" + y);
      CommasRead(a[1..], b[1..], x, y);
      assert a == [a[0]] + a[1..] && b == [b[0]] + b[1..];
    } else {
      NoCommas(Prints(a));
      NoCommas(Prints(b));
      Closed(Commas(Prints(a)), Commas(Prints(b)), "]", x, y);
    }
  }

  lemma Closed(s: string, t: string, closing: string, x: string, y: string)
    requires s == "" && t == "" && s + closing + x == t + closing + y
    ensures x == y
  {
    assert s + closing + x == closing + x && t + closing + y == closing + y;
    Cut(closing, x, closing, y);
  }

  lemma JoinedHead(texts: seq<string>, closing: string, x: string)
    requires texts != []
    ensures Joined(texts) + closing + x == texts[0] + (Commas(texts[1..]) + closing + x)
  {}

  lemma JoinedEmpty(closing: string, x: string)
    requires closing != ""
    ensures Joined([]) + closing + x == closing + x && (closing + x)[0] == closing[0]
  {
    assert "" + closing == closing;
  }

  lemma {:induction false} ItemsRead(a: seq<Value>, b: seq<Value>, x: string, y: string)
    requires Proper(List(a)) && Proper(List(b)) && Joined(Prints(a)) + "]" + x == Joined(Prints(b)) + "]" + y
    ensures a == b && x == y
    decreases a, 1
  {
    hide Print, Commas, Joined, Stop, Proper;
    if a == [] || b == [] {
      ListEnds(a, x);
      ListEnds(b, y);
      if a == [] && b == [] { Cut("]", x, "]", y); }
    } else {
      JoinedHead(Prints(a), "]", x);
      JoinedHead(Prints(b), "]", y);
      CommasStop(Prints(a[1..]), "]", x);
      CommasStop(Prints(b[1..]), "]", y);
      ProperTail(a);
      ProperTail(b);
      Reads(a[0], b[0], Commas(Prints(a[1..])) + "]" + x, Commas(Prints(b[1..])) + "]" + y);
      CommasRead(a[1..], b[1..], x, y);
      assert a == [a[0]] + a[1..] && b == [b[0]] + b[1..];
    }
  }

  lemma ListEnds(a: seq<Value>, x: string)
    requires Proper(List(a))
    ensures Joined(Prints(a)) + "]" + x != "" && (a == [] <==> (Joined(Prints(a)) + "]" + x)[0] == ']')
    ensures a == [] ==> Joined(Prints(a)) + "]" + x == "]" + x
  {
    hide Print, Commas, Joined, Proper;
    if a == [] {
      JoinedEmpty("]", x);
    } else {
      JoinedHead(Prints(a), "]", x);
      ProperTail(a);
      LeadIs(a[0]);
      FirstOf(Print(a[0]), Commas(Prints(a)[1..]) + "]" + x);
    }
  }

  lemma EntryHead(key: string, text: string, x: string)
    ensures Entry(key, text) + x == "\"" + (Escaped(key) + "\"" + (":" + (text + x)))
  {}

  lemma {:induction false} EntryReads(f: Field, g: Field, x: string, y: string)
    requires Proper(f.value) && Proper(g.value) && Stop(x) && Stop(y)
    requires Entry(f.key, Print(f.value)) + x == Entry(g.key, Print(g.value)) + y
    ensures f == g && x == y
    decreases f, 0
  {
    hide Print, Escaped, Stop, Proper, Entry;
    EntryHead(f.key, Print(f.value), x);
    EntryHead(g.key, Print(g.value), y);
    var u, v := Print(f.value) + x, Print(g.value) + y;
    Cut("\"", Escaped(f.key) + "\"" + (":" + u), "\"", Escaped(g.key) + "\"" + (":" + v));
    QuoteReads(f.key, g.key, ":" + u, ":" + v);
    Cut(":", u, ":", v);
    Reads(f.value, g.value, x, y);
  }

  lemma {:induction false} FieldCommasRead(a: seq<Field>, b: seq<Field>, x: string, y: string)
    requires Proper(Object(a)) && Proper(Object(b)) && Commas(PrintFields(a)) + "}" + x == Commas(PrintFields(b)) + "}" + y
    ensures a == b && x == y
    decreases a, 0
  {
    hide Print, Commas, Stop, Proper, Entry;
    CommasStop(PrintFields(a), "}", x);
    CommasStop(PrintFields(b), "}", y);
    if a != [] {
      CommasHead(PrintFields(a), "}", x);
      CommasHead(PrintFields(b), "}", y);
      ProperFieldTail(a);
      ProperFieldTail(b);
      CommasStop(PrintFields(a[1..]), "}", x);
      CommasStop(PrintFields(b[1..]), "}", y);
      var u, v := Commas(PrintFields(a[1..])) + "}" + x, Commas(PrintFields(b[1..])) + "}" + y;
      Cut(",", Entry(a[0].key, Print(a[0].value)) + u, ",", Entry(b[0].key, Print(b[0].value)) + v);
      EntryReads(a[0], b[0], u, v);
      FieldCommasRead(a[1..], b[1..], x, y);
      assert a == [a[0]] + a[1..] && b == [b[0]] + b[1..];
    } else {
      NoCommas(PrintFields(a));
      NoCommas(PrintFields(b));
      Closed(Commas(PrintFields(a)), Commas(PrintFields(b)), "}", x, y);
    }
  }

  lemma NoCommas(texts: seq<string>)
    ensures texts == [] ==> Commas(texts) == ""
  {}

  lemma {:induction false} FieldsRead(a: seq<Field>, b: seq<Field>, x: string, y: string)
    requires Proper(Object(a)) && Proper(Object(b)) && Joined(PrintFields(a)) + "}" + x == Joined(PrintFields(b)) + "}" + y
    ensures a == b && x == y
    decreases a, 1
  {
    hide Print, Commas, Joined, Stop, Proper, Entry;
    if a == [] || b == [] {
      ObjectEnds(a, x);
      ObjectEnds(b, y);
      if a == [] && b == [] { Cut("}", x, "}", y); }
    } else {
      JoinedHead(PrintFields(a), "}", x);
      JoinedHead(PrintFields(b), "}", y);
      CommasStop(PrintFields(a[1..]), "}", x);
      CommasStop(PrintFields(b[1..]), "}", y);
      ProperFieldTail(a);
      ProperFieldTail(b);
      EntryReads(a[0], b[0], Commas(PrintFields(a[1..])) + "}" + x, Commas(PrintFields(b[1..])) + "}" + y);
      FieldCommasRead(a[1..], b[1..], x, y);
      assert a == [a[0]] + a[1..] && b == [b[0]] + b[1..];
    }
  }

  lemma ObjectEnds(a: seq<Field>, x: string)
    ensures Joined(PrintFields(a)) + "}" + x != "" && (a == [] <==> (Joined(PrintFields(a)) + "}" + x)[0] == '}')
    ensures a == [] ==> Joined(PrintFields(a)) + "}" + x == "}" + x
  {
    hide Print, Commas, Joined, Escaped, Entry;
    if a == [] {
      JoinedEmpty("}", x);
    } else {
      JoinedHead(PrintFields(a), "}", x);
      EntryHead(a[0].key, Print(a[0].value), Commas(PrintFields(a)[1..]) + "}" + x);
    }
  }

  // ----- canonical values agree exactly when the values do

  lemma FieldOrderIs()
    ensures TotalPreorder(FieldOrder())
  {
    hide Less;
    var le := FieldOrder();
    forall a, b ensures le(a, b) || le(b, a) { Connected(a.key, b.key); }
    forall a, b, c | le(a, b) && le(b, c) ensures le(a, c) {
      if a.key != b.key && b.key != c.key { Transitive(a.key, b.key, c.key); }
    }
  }

  lemma {:induction false} CanonIsProper(v: Value)
    requires Valid(v)
    ensures Proper(Canon(v))
    decreases v
  {
    hide Sort;
    match v
    case List(vs) =>
      forall i | 0 <= i < |vs| ensures Proper(Canon(vs[i])) { CanonIsProper(vs[i]); }
    case Object(fs) =>
      forall i | 0 <= i < |fs| ensures Proper(CanonFields(fs)[i].value) { CanonIsProper(fs[i].value); }
      SortIsProper(CanonFields(fs));
    case _ =>
  }

  lemma SortIsProper(fs: seq<Field>)
    requires forall i :: 0 <= i < |fs| ==> Proper(fs[i].value)
    ensures Proper(Object(Sort(fs, FieldOrder())))
  {
    hide Sort;
    FieldOrderIs();
    SortIsSortedPermutation(fs, FieldOrder());
    var t := Sort(fs, FieldOrder());
    forall i | 0 <= i < |t| ensures Proper(t[i].value) { assert t[i] in fs; }
  }

  lemma SameKeyOnce(fs: seq<Field>, f: Field, g: Field)
    requires DistinctKeys(fs) && f in fs && g in fs && f.key == g.key
    ensures f == g
  {}

  /** Without repeated keys, how often a field stands is whether it stands. */
  lemma {:induction false} CountIsMembership(fs: seq<Field>, f: Field)
    requires DistinctKeys(fs)
    ensures multiset(fs)[f] == if f in fs then 1 else 0
  {
    if f in fs {
      var i :| 0 <= i < |fs| && fs[i] == f;
      assert fs == fs[..i] + [fs[i]] + fs[i + 1..];
      assert f !in fs[..i] && f !in fs[i + 1..];
    }
  }

  lemma SameFieldsSameMultiset(a: seq<Field>, b: seq<Field>)
    requires DistinctKeys(a) && DistinctKeys(b) && forall f :: f in a <==> f in b
    ensures multiset(a) == multiset(b)
  {
    forall f ensures multiset(a)[f] == multiset(b)[f] {
      CountIsMembership(a, f);
      CountIsMembership(b, f);
    }
  }

  lemma SortedAlike(a: seq<Field>, b: seq<Field>)
    requires DistinctKeys(a) && DistinctKeys(b)
    ensures Sort(a, FieldOrder()) == Sort(b, FieldOrder()) <==> forall f :: f in a <==> f in b
  {
    hide Sort;
    var le := FieldOrder();
    FieldOrderIs();
    SortIsSortedPermutation(a, le);
    SortIsSortedPermutation(b, le);
    if forall f :: f in a <==> f in b {
      SameFieldsSameMultiset(a, b);
      var s, t := Sort(a, le), Sort(b, le);
      forall f, g | f in s && g in s && le(f, g) && le(g, f) ensures f == g {
        NoKeyTies(f, g);
        SameKeyOnce(a, f, g);
      }
      SortedIsUnique(s, t, le);
    } else {
      var f :| (f in a) != (f in b);
      assert (f in Sort(a, le)) != (f in Sort(b, le));
    }
  }

  lemma NoKeyTies(f: Field, g: Field)
    requires FieldOrder()(f, g) && FieldOrder()(g, f)
    ensures f.key == g.key
  {
    if f.key != g.key { Asymmetric(f.key, g.key); }
  }

  lemma CanonKeys(fs: seq<Field>)
    requires DistinctKeys(fs)
    ensures DistinctKeys(CanonFields(fs))
    ensures forall i :: 0 <= i < |fs| ==> CanonFields(fs)[i] in CanonFields(fs)
  {}

  /** Equal canonical values are the same up to key order, and the converse. */
  lemma {:induction false} SameIffCanon(a: Value, b: Value)
    requires Valid(a) && Valid(b)
    ensures Same(a, b) <==> Canon(a) == Canon(b)
    decreases a
  {
    hide Sort, IsNumberText, HasKey;
    if a.List? && b.List? {
      ListsSame(a.items, b.items);
    } else if a.Object? && b.Object? {
      ObjectsSame(a.fields, b.fields);
    }
  }

  lemma {:induction false} ListsSame(a: seq<Value>, b: seq<Value>)
    requires Valid(List(a)) && Valid(List(b))
    ensures Same(List(a), List(b)) <==> Canons(a) == Canons(b)
    decreases a
  {
    hide Canon, Canons;
    if |a| == |b| {
      forall i | 0 <= i < |a| ensures Same(a[i], b[i]) <==> Canon(a[i]) == Canon(b[i]) { SameIffCanon(a[i], b[i]); }
      if Canons(a) == Canons(b) {
        forall i | 0 <= i < |a| ensures Same(a[i], b[i]) { assert Canons(a)[i] == Canons(b)[i]; }
      }
    }
  }

  /** Every field of a has a partner in b: one of the same key and canonically the same value. */
  ghost predicate Partnered(a: seq<Field>, b: seq<Field>) {
    forall i :: 0 <= i < |a| ==> PartnerOf(a[i], b)
  }

  ghost predicate PartnerOf(f: Field, b: seq<Field>) {
    exists j :: 0 <= j < |b| && b[j].key == f.key && Canon(b[j].value) == Canon(f.value)
  }

  lemma PartneredIff(a: seq<Field>, b: seq<Field>)
    ensures (Partnered(a, b) && Partnered(b, a)) <==> forall f :: f in CanonFields(a) <==> f in CanonFields(b)
  {
    hide Canon, CanonFields, PartnerOf;
    InCanon(a, b);
    InCanon(b, a);
    if Partnered(a, b) && Partnered(b, a) {
      forall f ensures f in CanonFields(a) <==> f in CanonFields(b) {
        if f in CanonFields(a) { var i :| 0 <= i < |a| && CanonFields(a)[i] == f; assert PartnerOf(a[i], b); }
        if f in CanonFields(b) { var i :| 0 <= i < |b| && CanonFields(b)[i] == f; assert PartnerOf(b[i], a); }
      }
    } else if !Partnered(a, b) {
      var i :| 0 <= i < |a| && !PartnerOf(a[i], b);
      assert CanonFields(a)[i] in CanonFields(a);
    } else {
      var i :| 0 <= i < |b| && !PartnerOf(b[i], a);
      assert CanonFields(b)[i] in CanonFields(b);
    }
  }

  lemma InCanon(a: seq<Field>, b: seq<Field>)
    ensures forall i :: 0 <= i < |a| ==> (PartnerOf(a[i], b) <==> CanonFields(a)[i] in CanonFields(b))
  {
    hide Canon, CanonFields;
    forall i | 0 <= i < |a| ensures PartnerOf(a[i], b) <==> CanonFields(a)[i] in CanonFields(b) {
      if PartnerOf(a[i], b) {
        var j :| 0 <= j < |b| && b[j].key == a[i].key && Canon(b[j].value) == Canon(a[i].value);
        assert CanonFields(b)[j] == CanonFields(a)[i];
      }
      if CanonFields(a)[i] in CanonFields(b) {
        var j :| 0 <= j < |b| && CanonFields(b)[j] == CanonFields(a)[i];
        assert b[j].key == a[i].key && Canon(b[j].value) == Canon(a[i].value);
      }
    }
  }

  lemma {:induction false} ObjectsSame(a: seq<Field>, b: seq<Field>)
    requires Valid(Object(a)) && Valid(Object(b))
    ensures Same(Object(a), Object(b)) <==> Sort(CanonFields(a), FieldOrder()) == Sort(CanonFields(b), FieldOrder())
    decreases a
  {
    hide Sort, Canon, CanonFields, HasKey, PartnerOf;
    CanonKeys(a);
    CanonKeys(b);
    SortedAlike(CanonFields(a), CanonFields(b));
    PartneredIff(a, b);
    forall i, j | 0 <= i < |a| && 0 <= j < |b| ensures Same(a[i].value, b[j].value) <==> Canon(a[i].value) == Canon(b[j].value) {
      SameIffCanon(a[i].value, b[j].value);
    }
    PartnersSame(a, b);
  }

  lemma PartnersSame(a: seq<Field>, b: seq<Field>)
    requires DistinctKeys(a) && DistinctKeys(b)
    requires forall i, j :: 0 <= i < |a| && 0 <= j < |b| ==> (Same(a[i].value, b[j].value) <==> Canon(a[i].value) == Canon(b[j].value))
    ensures Same(Object(a), Object(b)) <==> Partnered(a, b) && Partnered(b, a)
  {
    hide Canon;
    if Same(Object(a), Object(b)) {
      forall i | 0 <= i < |a| ensures PartnerOf(a[i], b) {
        assert HasKey(b, a[i].key);
      }
      forall j | 0 <= j < |b| ensures PartnerOf(b[j], a) {
        assert HasKey(a, b[j].key);
      }
    }
    if Partnered(a, b) && Partnered(b, a) {
      forall i | 0 <= i < |a| ensures HasKey(b, a[i].key) { assert PartnerOf(a[i], b); }
      forall j | 0 <= j < |b| ensures HasKey(a, b[j].key) { assert PartnerOf(b[j], a); }
      forall i, j | 0 <= i < |a| && 0 <= j < |b| && a[i].key == b[j].key ensures Same(a[i].value, b[j].value) {
        assert PartnerOf(a[i], b);
      }
    }
  }

  /** Two values have the same stable text exactly when they are equal up to the order of object keys. */
  lemma StableIffSame(a: Value, b: Value)
    requires Valid(a) && Valid(b)
    ensures Stable(a) == Stable(b) <==> Same(a, b)
  {
    hide *;
    StablePrintsCanon(a);
    StablePrintsCanon(b);
    CanonIsProper(a);
    CanonIsProper(b);
    SameIffCanon(a, b);
    if Print(Canon(a)) == Print(Canon(b)) {
      NothingStops();
      assert Print(Canon(a)) + "" == Print(Canon(a)) && Print(Canon(b)) + "" == Print(Canon(b));
      Reads(Canon(a), Canon(b), "", "");
    }
  }

  lemma NothingStops()
    ensures Stop("")
  {}
}
