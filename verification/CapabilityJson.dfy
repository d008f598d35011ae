/** The JSON text of the documents: printing, and a parser for its grammar that inverts it. */
module CapabilityJson {
  import opened Wrappers
  import opened Ordering

  /** `strconv.AppendQuote` on printable ASCII, the only strings a validated document holds. */
  function Escape(s: string): string {
    if s == "" then ""
    else (if s[0] == '"' || s[0] == '\\' then ['\\', s[0]] else [s[0]]) + Escape(s[1..])
  }

  function Quote(s: string): string { "\"" + Escape(s) + "\"" }

  /** The document shape: texts, lists of texts and records with ordered members. */
  datatype Value = Text(text: string) | Texts(items: seq<string>) | Record(members: Members)
  datatype Members = End | Field(name: string, value: Value, tail: Members)

  function Print(v: Value): (r: string)
    decreases v
  {
    match v
    case Text(text) => Quote(text)
    case Texts(items) => "[" + if items == [] then "]" else Quote(items[0]) + PrintItems(items[1..])
    case Record(members) => "{" + if members.End? then "}" else PrintField(members) + PrintMembers(members.tail)
  }

  function PrintItems(items: seq<string>): string {
    if items == [] then "]" else "," + Quote(items[0]) + PrintItems(items[1..])
  }

  function PrintField(members: Members): string
    requires members.Field?
    decreases members, 0
  {
    Quote(members.name) + ":" + Print(members.value)
  }

  function PrintMembers(members: Members): string
    decreases members, 1
  {
    if members.End? then "}" else "," + PrintField(members) + PrintMembers(members.tail)
  }

  /** A parse either fails or yields a value and the unread input. */
  datatype Parse<+T> = Failed | Parsed(value: T, rest: string) {
    predicate IsFailure() { Failed? }
    function PropagateFailure<U>(): Parse<U> requires Failed? { Failed }
    function Extract(): (T, string) requires Parsed? { (value, rest) }
  }

  function Expect(s: string, c: char): (r: Parse<()>)
    ensures r.Parsed? ==> |r.rest| < |s| && s == [c] + r.rest
    ensures r.Failed? ==> s == "" || s[0] != c
  {
    if s != "" && s[0] == c then Parsed((), s[1..]) else Failed
  }

  /** The text after an opening quote. */
  function ParseEscaped(s: string): (r: Parse<string>)
    ensures r.Parsed? ==> |r.rest| < |s|
  {
    if s == "" then Failed
    else if s[0] == '"' then Parsed("", s[1..])
    else if s[0] == '\\' then
      if |s| < 2 || (s[1] != '"' && s[1] != '\\') then Failed
      else
        var (text, rest) :- ParseEscaped(s[2..]);
        Parsed([s[1]] + text, rest)
    else
      var (text, rest) :- ParseEscaped(s[1..]);
      Parsed([s[0]] + text, rest)
  }

  function ParseQuoted(s: string): (r: Parse<string>)
    ensures r.Parsed? ==> |r.rest| < |s|
  {
    var (_, s1) :- Expect(s, '"');
    ParseEscaped(s1)
  }

  function ParseItems(s: string): (r: Parse<seq<string>>)
    ensures r.Parsed? ==> |r.rest| < |s|
    decreases |s|
  {
    if s != "" && s[0] == ']' then Parsed([], s[1..])
    else
      var (_, s1) :- Expect(s, ',');
      var (item, s2) :- ParseQuoted(s1);
      var (items, s3) :- ParseItems(s2);
      Parsed([item] + items, s3)
  }

  function ParseMembers(s: string): (r: Parse<Members>)
    ensures r.Parsed? ==> |r.rest| < |s|
    decreases |s|, 0
  {
    if s != "" && s[0] == '}' then Parsed(End, s[1..])
    else
      var (_, s1) :- Expect(s, ',');
      ParseFieldAndTail(s1)
  }

  function ParseFieldAndTail(s: string): (r: Parse<Members>)
    ensures r.Parsed? ==> |r.rest| < |s|
    decreases |s|, 0
  {
    var (name, s1) :- ParseQuoted(s);
    var (_, s2) :- Expect(s1, ':');
    var (value, s3) :- ParseValue(s2);
    var (tail, s4) :- ParseMembers(s3);
    Parsed(Field(name, value, tail), s4)
  }

  function ParseValue(s: string): (r: Parse<Value>)
    ensures r.Parsed? ==> |r.rest| < |s|
    decreases |s|, 1
  {
    if s == "" then Failed
    else if s[0] == '[' then
      if |s| > 1 && s[1] == ']' then Parsed(Texts([]), s[2..])
      else
        var (item, s1) :- ParseQuoted(s[1..]);
        var (items, s2) :- ParseItems(s1);
        Parsed(Texts([item] + items), s2)
    else if s[0] == '{' then
      if |s| > 1 && s[1] == '}' then Parsed(Record(End), s[2..])
      else
        var (members, s1) :- ParseFieldAndTail(s[1..]);
        Parsed(Record(members), s1)
    else
      var (text, s1) :- ParseQuoted(s);
      Parsed(Text(text), s1)
  }

  lemma {:induction false} ParseEscapedInverts(t: string, rest: string)
    ensures ParseEscaped(Escape(t) + "\"" + rest) == Parsed(t, rest)
  {
    var s := Escape(t) + "\"" + rest;
    if t == "" {
      assert s[1..] == rest;
    } else {
      ParseEscapedInverts(t[1..], rest);
      var mark := if t[0] == '"' || t[0] == '\\' then ['\\', t[0]] else [t[0]];
      FourParts(mark, Escape(t[1..]), "\"", rest);
      NextCharacter(t[0], s, Escape(t[1..]) + "\"" + rest);
      assert [t[0]] + t[1..] == t;
    }
  }

  /** One escaped character in front of the rest. */
  lemma NextCharacter(c: char, s: string, after: string)
    requires s == (if c == '"' || c == '\\' then ['\\', c] else [c]) + after && ParseEscaped(after).Parsed?
    ensures ParseEscaped(s) == Parsed([c] + ParseEscaped(after).value, ParseEscaped(after).rest)
  {
    var k := if c == '"' || c == '\\' then 2 else 1;
    assert s[k..] == after && s[k - 1] == c;
  }

  lemma ParseQuotedInverts(t: string, rest: string)
    ensures ParseQuoted(Quote(t) + rest) == Parsed(t, rest)
  {
    ParseEscapedInverts(t, rest);
    assert (Quote(t) + rest)[1..] == Escape(t) + "\"" + rest;
  }

  lemma {:induction false} ParseItemsInverts(items: seq<string>, rest: string)
    ensures ParseItems(PrintItems(items) + rest) == Parsed(items, rest)
  {
    var s := PrintItems(items) + rest;
    if items == [] {
      assert s[1..] == rest;
    } else {
      var after := PrintItems(items[1..]) + rest;
      assert s == "," + (Quote(items[0]) + after);
      ParseQuotedInverts(items[0], after);
      ParseItemsInverts(items[1..], rest);
      NextItem(items[0], items[1..], s, after, rest);
      assert [items[0]] + items[1..] == items;
    }
  }

  lemma NextItem(item: string, items: seq<string>, s: string, after: string, rest: string)
    requires s == "," + (Quote(item) + after)
    requires ParseQuoted(Quote(item) + after) == Parsed(item, after) && ParseItems(after) == Parsed(items, rest)
    ensures ParseItems(s) == Parsed([item] + items, rest)
  {
    assert s[1..] == Quote(item) + after;
  }

  lemma {:induction false} ParseMembersInverts(members: Members, rest: string)
    ensures ParseMembers(PrintMembers(members) + rest) == Parsed(members, rest)
    decreases members, 1
  {
    var s := PrintMembers(members) + rest;
    if members.End? {
      assert s[1..] == rest;
    } else {
      ParseFieldInverts(members, rest);
      FourParts(",", PrintField(members), PrintMembers(members.tail), rest);
      NextMember(s, PrintField(members) + PrintMembers(members.tail) + rest);
    }
  }

  lemma FourParts(a: string, b: string, c: string, d: string)
    ensures a + b + c + d == a + (b + c + d)
    ensures a + (b + (c + d)) == a + b + c + d
    ensures a + (b + c) + d == a + (b + (c + d)) && a + (b + c) + d == a + (b + c + d)
  {
  }

  /** A comma leads to the next member. */
  lemma NextMember(s: string, after: string)
    requires s == "," + after
    ensures ParseMembers(s) == ParseFieldAndTail(after)
  {
    assert s[1..] == after && s[0] == ',';
    assert Expect(s, ',') == Parsed((), after);
  }

  lemma {:induction false} ParseFieldInverts(members: Members, rest: string)
    requires members.Field?
    ensures ParseFieldAndTail(PrintField(members) + PrintMembers(members.tail) + rest) == Parsed(members, rest)
    decreases members, 0
  {
    var s := PrintField(members) + PrintMembers(members.tail) + rest;
    var afterValue := PrintMembers(members.tail) + rest;
    var afterColon := Print(members.value) + afterValue;
    assert s == Quote(members.name) + ([':'] + afterColon);
    ParseQuotedInverts(members.name, [':'] + afterColon);
    assert ([':'] + afterColon)[1..] == afterColon;
    ParseValueInverts(members.value, afterValue);
    ParseMembersInverts(members.tail, rest);
  }

  /** Reading back what was printed recovers the value and leaves the rest untouched. */
  lemma {:induction false} ParseValueInverts(v: Value, rest: string)
    ensures ParseValue(Print(v) + rest) == Parsed(v, rest)
    decreases v
  {
    var s := Print(v) + rest;
    match v
    case Text(text) => ParseQuotedInverts(text, rest);
    case Texts(items) =>
      if items == [] {
        assert s[2..] == rest;
      } else {
        ParseQuotedInverts(items[0], PrintItems(items[1..]) + rest);
        ParseItemsInverts(items[1..], rest);
        FourParts("[", Quote(items[0]), PrintItems(items[1..]), rest);
        ListOpens(s, items[0], items[1..], PrintItems(items[1..]) + rest, rest);
        assert [items[0]] + items[1..] == items;
      }
    case Record(members) =>
      if members.End? {
        assert s[2..] == rest;
      } else {
        ParseFieldInverts(members, rest);
        FourParts("{", PrintField(members), PrintMembers(members.tail), rest);
        RecordOpens(s, PrintField(members) + PrintMembers(members.tail) + rest);
      }
  }

  lemma ListOpens(s: string, item: string, items: seq<string>, after: string, rest: string)
    requires s == "[" + (Quote(item) + after)
    requires ParseQuoted(Quote(item) + after) == Parsed(item, after) && ParseItems(after) == Parsed(items, rest)
    ensures ParseValue(s) == Parsed(Texts([item] + items), rest)
  {
    assert s[1..] == Quote(item) + after && s[0] == '[' && s[1] == '"';
  }

  lemma RecordOpens(s: string, after: string)
    requires s == "{" + after && ParseFieldAndTail(after).Parsed?
    ensures ParseValue(s) == Parsed(Record(ParseFieldAndTail(after).value), ParseFieldAndTail(after).rest)
  {
    assert s[1..] == after && s[0] == '{';
    assert Expect(after, '"').Parsed?;
  }

  lemma {:induction false} ParseEscapedExact(s: string)
    requires ParseEscaped(s).Parsed?
    ensures s == Escape(ParseEscaped(s).value) + "\"" + ParseEscaped(s).rest
  {
    if s[0] == '"' {
    } else {
      var k := if s[0] == '\\' then 2 else 1;
      ParseEscapedExact(s[k..]);
      var t := ParseEscaped(s).value;
      assert t[0] == s[k - 1] && t[1..] == ParseEscaped(s[k..]).value;
      assert s == s[..k] + s[k..];
      assert Escape(t) == s[..k] + Escape(t[1..]);
    }
  }

  lemma ParseQuotedExact(s: string)
    requires ParseQuoted(s).Parsed?
    ensures s == Quote(ParseQuoted(s).value) + ParseQuoted(s).rest
  {
    ParseEscapedExact(s[1..]);
    assert s == [s[0]] + s[1..];
  }

  lemma {:induction false} ParseItemsExact(s: string)
    requires ParseItems(s).Parsed?
    ensures s == PrintItems(ParseItems(s).value) + ParseItems(s).rest
    decreases |s|
  {
    assert s == [s[0]] + s[1..];
    if s[0] != ']' {
      ParseQuotedExact(s[1..]);
      var item := ParseQuoted(s[1..]);
      ParseItemsExact(item.rest);
      var items := ParseItems(item.rest);
      FourParts(",", Quote(item.value), PrintItems(items.value), items.rest);
      ItemAfterComma(s, item.value, items.value, items.rest);
    }
  }

  lemma ItemAfterComma(s: string, item: string, items: seq<string>, rest: string)
    requires s == "," + Quote(item) + PrintItems(items) + rest
    ensures s == PrintItems([item] + items) + rest
  {
    assert ([item] + items)[1..] == items;
  }

  lemma {:induction false} ParseMembersExact(s: string)
    requires ParseMembers(s).Parsed?
    ensures s == PrintMembers(ParseMembers(s).value) + ParseMembers(s).rest
    decreases |s|, 0
  {
    if s[0] == '}' {
      assert s == "}" + s[1..];
    } else {
      MemberAfterComma(s);
      ParseFieldExact(s[1..]);
      var m, rest := ParseMembers(s).value, ParseMembers(s).rest;
      FourParts(",", PrintField(m), PrintMembers(m.tail), rest);
    }
  }

  lemma MemberAfterComma(s: string)
    requires ParseMembers(s).Parsed? && s[0] != '}'
    ensures s[0] == ',' && s == "," + s[1..] && ParseMembers(s) == ParseFieldAndTail(s[1..])
  {
    assert Expect(s, ',').Parsed?;
    NextMember(s, s[1..]);
  }

  lemma {:induction false} ParseFieldExact(s: string)
    requires ParseFieldAndTail(s).Parsed?
    ensures ParseFieldAndTail(s).value.Field?
    ensures var m := ParseFieldAndTail(s).value; s == PrintField(m) + PrintMembers(m.tail) + ParseFieldAndTail(s).rest
    decreases |s|, 0
  {
    FieldParts(s);
    var s1 := ParseQuoted(s).rest;
    var value := ParseValue(s1[1..]);
    ParseQuotedExact(s);
    ParseValueExact(s1[1..]);
    ParseMembersExact(value.rest);
    FieldRebuilt(s, ParseQuoted(s).value, value.value, ParseMembers(value.rest).value, ParseMembers(value.rest).rest);
  }

  lemma FieldRebuilt(s: string, name: string, value: Value, tail: Members, rest: string)
    requires s == Quote(name) + (":" + (Print(value) + (PrintMembers(tail) + rest)))
    ensures var m := Field(name, value, tail); s == PrintField(m) + PrintMembers(m.tail) + rest
  {
    FourParts(Quote(name), ":", Print(value), PrintMembers(tail) + rest);
    FourParts(Quote(name) + ":", Print(value), PrintMembers(tail), rest);
  }

  /** A parsed field is a name, a colon, a value and more members. */
  lemma FieldParts(s: string)
    requires ParseFieldAndTail(s).Parsed?
    ensures ParseQuoted(s).Parsed? && |ParseQuoted(s).rest| > 0
    ensures var s1 := ParseQuoted(s).rest; s1 == ":" + s1[1..] && |s1| < |s| && ParseValue(s1[1..]).Parsed?
    ensures var value := ParseValue(ParseQuoted(s).rest[1..]);
            ParseMembers(value.rest).Parsed? && |value.rest| < |s|
            && ParseFieldAndTail(s) ==
               Parsed(Field(ParseQuoted(s).value, value.value, ParseMembers(value.rest).value),
               ParseMembers(value.rest).rest)
  {
    var s1 := ParseQuoted(s).rest;
    assert Expect(s1, ':').Parsed?;
    assert s1 == ":" + s1[1..];
  }

  /** Whatever the parser accepts is exactly the printing of what it returns: no second spelling is accepted. */
  lemma {:induction false} ParseValueExact(s: string)
    requires ParseValue(s).Parsed?
    ensures s == Print(ParseValue(s).value) + ParseValue(s).rest
    decreases |s|, 1
  {
    assert s == [s[0]] + s[1..];
    if s[0] == '[' {
      ParseListExact(s);
    } else if s[0] == '{' {
      if |s| > 1 && s[1] == '}' {
        assert s == "{}" + s[2..];
      } else {
        ParseFieldExact(s[1..]);
        var m, rest := ParseValue(s).value.members, ParseValue(s).rest;
        FourParts("{", PrintField(m), PrintMembers(m.tail), rest);
      }
    } else {
      ParseQuotedExact(s);
    }
  }

  lemma ParseListExact(s: string)
    requires ParseValue(s).Parsed? && s[0] == '['
    ensures s == Print(ParseValue(s).value) + ParseValue(s).rest
  {
    assert s == [s[0]] + s[1..];
    if |s| > 1 && s[1] == ']' {
      assert s == "[]" + s[2..];
    } else {
      ParseQuotedExact(s[1..]);
      var item := ParseQuoted(s[1..]);
      ParseItemsExact(item.rest);
      var items := ParseItems(item.rest);
      FourParts("[", Quote(item.value), PrintItems(items.value), items.rest);
      assert ([item.value] + items.value)[1..] == items.value;
    }
  }

  // ---- What the text is, spelled out ----

  function Join(parts: seq<string>): string {
    if parts == [] then "" else if |parts| == 1 then parts[0] else parts[0] + "," + Join(parts[1..])
  }

  function FieldTexts(ms: Members): seq<string> {
    if ms.End? then [] else ["\"" + Escape(ms.name) + "\":" + Print(ms.value)] + FieldTexts(ms.tail)
  }

  lemma {:induction false} ItemsAreJoined(items: seq<string>)
    requires items != []
    ensures Quote(items[0]) + PrintItems(items[1..]) == Join(Map(Quote, items)) + "]"
  {
    var rest := items[1..];
    assert Map(Quote, items)[1..] == Map(Quote, rest);
    if rest != [] {
      ItemsAreJoined(rest);
      FourParts(Quote(items[0]), ",", Join(Map(Quote, rest)), "]");
    }
  }

  lemma {:induction false} FieldsAreJoined(ms: Members)
    requires ms.Field?
    ensures PrintField(ms) + PrintMembers(ms.tail) == Join(FieldTexts(ms)) + "}"
    decreases ms
  {
    assert PrintField(ms) == FieldTexts(ms)[0] by {
      assert Quote(ms.name) + ":" == "\"" + Escape(ms.name) + "\":";
    }
    assert FieldTexts(ms)[1..] == FieldTexts(ms.tail);
    if ms.tail.Field? {
      FieldsAreJoined(ms.tail);
      FourParts(PrintField(ms), ",", Join(FieldTexts(ms.tail)), "}");
    }
  }

  /** Texts are quoted, lists bracketed and records braced, their parts joined by commas and nothing else. */
  lemma PrintedIsJson(v: Value)
    ensures match v
      case Text(text) => Print(v) == "\"" + Escape(text) + "\""
      case Texts(items) => Print(v) == "[" + Join(Map(Quote, items)) + "]"
      case Record(members) => Print(v) == "{" + Join(FieldTexts(members)) + "}"
  {
    match v
    case Text(_) =>
    case Texts(items) => if items != [] { ItemsAreJoined(items); }
    case Record(members) => if members.Field? { FieldsAreJoined(members); }
  }

  /** Quotation marks and backslashes get a backslash; every other character stands for itself. */
  lemma {:induction false} EscapeIsCharacterwise(a: string, c: char, b: string)
    ensures Escape(a + [c] + b) == Escape(a) + (if c == '"' || c == '\\' then ['\\', c] else [c]) + Escape(b)
    decreases |a|
  {
    var all := a + [c] + b;
    if a == [] {
      assert all[0] == c && all[1..] == b;
    } else {
      assert all[0] == a[0] && all[1..] == a[1..] + [c] + b;
      EscapeIsCharacterwise(a[1..], c, b);
    }
  }

  // ---- Order and lookup of members ----

  /** In every record, also a nested one, the member names increase strictly. */
  predicate InOrder(v: Value)
    decreases v
  {
    v.Record? ==> MembersInOrder(v.members)
  }

  predicate MembersInOrder(ms: Members)
    decreases ms
  {
    ms.Field? ==> Leads(ms.name, ms.tail) && InOrder(ms.value) && MembersInOrder(ms.tail)
  }

  /** `name` may stand right before these members. */
  predicate Leads(name: string, ms: Members) { ms.Field? ==> Less(name, ms.name) }

  /** The value of the member of this name; where names repeat, the first. */
  function Find(ms: Members, name: string): Option<Value>
    decreases ms
  {
    if ms.End? then None else if ms.name == name then Some(ms.value) else Find(ms.tail, name)
  }

  lemma {:induction false} LaterNamesAreLarger(name: string, ms: Members, other: string)
    requires Leads(name, ms) && MembersInOrder(ms) && Find(ms, other).Some?
    ensures Less(name, other)
    decreases ms
  {
    if ms.name != other {
      LaterNamesAreLarger(ms.name, ms.tail, other);
      LessTransitive(name, ms.name, other);
    }
  }

  /** Ordered members are determined by what can be found in them. */
  lemma {:induction false} OrderedMembersAgree(a: Members, b: Members)
    requires MembersInOrder(a) && MembersInOrder(b) && forall name :: Find(a, name) == Find(b, name)
    ensures a == b
    decreases a
  {
    if a.End? {
      if b.Field? { assert Find(b, b.name).Some?; }
    } else {
      assert Find(b, a.name) == Some(a.value);
      HeadsAgree(a, b);
      forall name ensures Find(a.tail, name) == Find(b.tail, name) { TailFind(a, b, name); }
      OrderedMembersAgree(a.tail, b.tail);
    }
  }

  lemma HeadsAgree(a: Members, b: Members)
    requires a.Field? && b.Field? && MembersInOrder(a) && MembersInOrder(b)
    requires Find(b, a.name) == Some(a.value) && Find(a, b.name) == Some(b.value)
    ensures a.name == b.name && a.value == b.value
  {
    if a.name != b.name {
      LaterNamesAreLarger(b.name, b.tail, a.name);
      LaterNamesAreLarger(a.name, a.tail, b.name);
      LessAsymmetric(a.name, b.name);
    }
  }

  lemma TailFind(a: Members, b: Members, name: string)
    requires a.Field? && b.Field? && MembersInOrder(a) && MembersInOrder(b) && a.name == b.name
    requires Find(a, name) == Find(b, name)
    ensures Find(a.tail, name) == Find(b.tail, name)
  {
    if name == a.name {
      LessIrreflexive(name);
      if Find(a.tail, name).Some? { LaterNamesAreLarger(name, a.tail, name); }
      if Find(b.tail, name).Some? { LaterNamesAreLarger(name, b.tail, name); }
    }
  }
}
