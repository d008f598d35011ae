/** The streaming JSON limit scanner of the resolve endpoint, against limits stated on the value tree. */
module JsonScanner {
  const MAX_DEPTH: nat := 64
  const MAX_TOKENS: nat := 65_536
  const MAX_ITEMS: nat := 4_096

  /** What `json.Decoder.Token` yields; commas and colons never appear. */
  datatype Token = Delim(mark: char) | Text(text: string) | Literal(raw: string)

  datatype Member = Member(key: string, value: Json)
  datatype Json = Scalar(token: Token) | Object(members: seq<Member>) | Array(items: seq<Json>)

  predicate WellFormed(v: Json) {
    match v
    case Scalar(token) => !token.Delim?
    case Object(members) => forall m | m in members :: WellFormed(m.value)
    case Array(items) => forall x | x in items :: WellFormed(x)
  }

  function Tokens(v: Json): (r: seq<Token>)
    ensures |r| > 0
    decreases v, 0
  {
    match v
    case Scalar(token) => [token]
    case Object(members) => [Delim('{')] + MemberTokens(members) + [Delim('}')]
    case Array(items) => [Delim('[')] + ItemTokens(items) + [Delim(']')]
  }

  function MemberTokens(members: seq<Member>): seq<Token>
    decreases members
  {
    if members == [] then []
    else [Text(members[0].key)] + Tokens(members[0].value) + MemberTokens(members[1..])
  }

  function ItemTokens(items: seq<Json>): seq<Token>
    decreases items
  {
    if items == [] then [] else Tokens(items[0]) + ItemTokens(items[1..])
  }

  function Max(a: nat, b: nat): nat { if a < b then b else a }

  /** How many collections enclose the deepest point of the value, itself included. */
  function Nesting(v: Json): nat
    decreases v, 0
  {
    match v
    case Scalar(_) => 0
    case Object(members) => 1 + MembersNesting(members)
    case Array(items) => 1 + ItemsNesting(items)
  }

  function MembersNesting(members: seq<Member>): nat
    decreases members
  {
    if members == [] then 0 else Max(Nesting(members[0].value), MembersNesting(members[1..]))
  }

  function ItemsNesting(items: seq<Json>): nat
    decreases items
  {
    if items == [] then 0 else Max(Nesting(items[0]), ItemsNesting(items[1..]))
  }

  /** Every collection is small enough and every object has distinct keys. */
  ghost predicate CollectionsConform(v: Json)
    decreases v, 0
  {
    match v
    case Scalar(_) => true
    case Object(members) => MembersConform(members)
    case Array(items) => ItemsConform(items)
  }

  ghost predicate MembersConform(members: seq<Member>)
    decreases members
  {
    && |members| <= MAX_ITEMS
    && (forall i, j :: 0 <= i < j < |members| ==> members[i].key != members[j].key)
    && (forall i :: 0 <= i < |members| ==> CollectionsConform(members[i].value))
  }

  ghost predicate ItemsConform(items: seq<Json>)
    decreases items
  {
    |items| <= MAX_ITEMS && forall i :: 0 <= i < |items| ==> CollectionsConform(items[i])
  }

  /** The tree specification of an accepted document. */
  ghost predicate Conforms(v: Json) {
    v.Object? && Nesting(v) <= MAX_DEPTH && |Tokens(v)| <= MAX_TOKENS && CollectionsConform(v)
  }

  // ---- The grammar: which token streams are JSON values ----

  datatype Parse<+T> = Failed | Parsed(value: T, rest: seq<Token>)

  predicate Closes(t: Token) { t == Delim('}') || t == Delim(']') }

  /** Nothing of the collection is left to read. */
  predicate Stops(s: seq<Token>) { s == [] || Closes(s[0]) }

  function ParseValue(s: seq<Token>): (p: Parse<Json>)
    ensures p.Parsed? ==> |p.rest| < |s|
    decreases |s|, 0
  {
    if s == [] then Failed
    else if !s[0].Delim? then Parsed(Scalar(s[0]), s[1..])
    else if s[0].mark == '{' then ParseObject(s[1..])
    else if s[0].mark == '[' then ParseArray(s[1..])
    else Failed
  }

  /** The rest of an opened object. */
  function ParseObject(s: seq<Token>): (p: Parse<Json>)
    ensures p.Parsed? ==> p.value.Object? && |p.rest| < |s|
    decreases |s|, 2
  {
    var m := ParseMembers(s);
    if m.Parsed? && m.rest != [] && m.rest[0] == Delim('}') then Parsed(Object(m.value), m.rest[1..]) else Failed
  }

  function ParseArray(s: seq<Token>): (p: Parse<Json>)
    ensures p.Parsed? ==> p.value.Array? && |p.rest| < |s|
    decreases |s|, 2
  {
    var m := ParseItems(s);
    if m.Parsed? && m.rest != [] && m.rest[0] == Delim(']') then Parsed(Array(m.value), m.rest[1..]) else Failed
  }

  /** Members up to, and not including, a closing delimiter or the end of the stream. */
  function ParseMembers(s: seq<Token>): (p: Parse<seq<Member>>)
    ensures p.Parsed? ==> |p.rest| <= |s|
    decreases |s|, 1
  {
    if Stops(s) then Parsed([], s)
    else if !s[0].Text? then Failed
    else
      var v := ParseValue(s[1..]);
      if v.Failed? then Failed
      else
        var more := ParseMembers(v.rest);
        if more.Failed? then Failed else Parsed([Member(s[0].text, v.value)] + more.value, more.rest)
  }

  function ParseItems(s: seq<Token>): (p: Parse<seq<Json>>)
    ensures p.Parsed? ==> |p.rest| <= |s|
    decreases |s|, 1
  {
    if Stops(s) then Parsed([], s)
    else
      var v := ParseValue(s);
      if v.Failed? then Failed
      else
        var more := ParseItems(v.rest);
        if more.Failed? then Failed else Parsed([v.value] + more.value, more.rest)
  }

  /** The tokens of a value are read back as that value. */
  lemma {:induction false} ParseInverts(v: Json, rest: seq<Token>)
    requires WellFormed(v)
    ensures ParseValue(Tokens(v) + rest) == Parsed(v, rest)
    decreases v, 0
  {
    var s := Tokens(v) + rest;
    match v
    case Scalar(token) => assert s[1..] == rest;
    case Object(members) =>
      MembersInvert(members, [Delim('}')] + rest);
      assert s[1..] == MemberTokens(members) + ([Delim('}')] + rest);
      assert ([Delim('}')] + rest)[1..] == rest;
    case Array(items) =>
      ItemsInvert(items, [Delim(']')] + rest);
      assert s[1..] == ItemTokens(items) + ([Delim(']')] + rest);
      assert ([Delim(']')] + rest)[1..] == rest;
  }

  lemma {:induction false} MembersInvert(members: seq<Member>, rest: seq<Token>)
    requires MembersWellFormed(members) && Stops(rest)
    ensures ParseMembers(MemberTokens(members) + rest) == Parsed(members, rest)
    decreases members
  {
    var s := MemberTokens(members) + rest;
    if members == [] {
      assert s == rest;
    } else {
      var later := MemberTokens(members[1..]) + rest;
      assert members[0] in members;
      ParseInverts(members[0].value, later);
      MembersInvert(members[1..], rest);
      MemberFirst(members[0], members[1..], rest);
      MemberParses(s, members[0], later, members[1..], rest);
      assert [members[0]] + members[1..] == members;
    }
  }

  lemma ThreeParts(a: seq<Token>, b: seq<Token>, c: seq<Token>, d: seq<Token>)
    ensures a + b + c + d == a + (b + (c + d))
  {
  }

  /** The tokens of one member stand in front of those of the others. */
  lemma {:induction false} MemberFirst(member: Member, more: seq<Member>, rest: seq<Token>)
    ensures MemberTokens([member] + more) + rest == [Text(member.key)] +
      (Tokens(member.value) + (MemberTokens(more) + rest))
  {
    assert ([member] + more)[1..] == more;
    ThreeParts([Text(member.key)], Tokens(member.value), MemberTokens(more), rest);
  }

  lemma MemberParses(s: seq<Token>, member: Member, later: seq<Token>, more: seq<Member>, rest: seq<Token>)
    requires s == [Text(member.key)] + (Tokens(member.value) + later)
    requires ParseValue(Tokens(member.value) + later) == Parsed(member.value, later)
    requires ParseMembers(later) == Parsed(more, rest)
    ensures ParseMembers(s) == Parsed([member] + more, rest)
  {
    assert s[1..] == Tokens(member.value) + later;
  }

  lemma ItemParses(s: seq<Token>, item: Json, later: seq<Token>, more: seq<Json>, rest: seq<Token>)
    requires WellFormed(item) && s == Tokens(item) + later
    requires ParseValue(s) == Parsed(item, later) && ParseItems(later) == Parsed(more, rest)
    ensures ParseItems(s) == Parsed([item] + more, rest)
  {
    assert s[0] == Tokens(item)[0];
  }

  lemma {:induction false} ItemsInvert(items: seq<Json>, rest: seq<Token>)
    requires (forall x :: x in items ==> WellFormed(x)) && Stops(rest)
    ensures ParseItems(ItemTokens(items) + rest) == Parsed(items, rest)
    decreases items
  {
    var s := ItemTokens(items) + rest;
    if items == [] {
      assert s == rest;
    } else {
      var later := ItemTokens(items[1..]) + rest;
      assert items[0] in items;
      ParseInverts(items[0], later);
      ItemsInvert(items[1..], rest);
      assert s == Tokens(items[0]) + later;
      ItemParses(s, items[0], later, items[1..], rest);
      assert [items[0]] + items[1..] == items;
    }
  }

  /** Only the tokens of a value are read as that value. */
  lemma {:induction false} ParseExact(s: seq<Token>)
    requires ParseValue(s).Parsed?
    ensures WellFormed(ParseValue(s).value) && s == Tokens(ParseValue(s).value) + ParseValue(s).rest
    decreases |s|, 0
  {
    assert s == [s[0]] + s[1..];
    if s[0].Delim? {
      if s[0].mark == '{' {
        MembersExact(s[1..]);
        CollectionExact(s, MemberTokens(ParseMembers(s[1..]).value), ParseMembers(s[1..]).rest);
      } else {
        ItemsExact(s[1..]);
        CollectionExact(s, ItemTokens(ParseItems(s[1..]).value), ParseItems(s[1..]).rest);
      }
    }
  }

  lemma CollectionExact(s: seq<Token>, inner: seq<Token>, after: seq<Token>)
    requires s != [] && after != [] && s[1..] == inner + after
    ensures s == [s[0]] + inner + [after[0]] + after[1..]
  {
    assert s == [s[0]] + s[1..] && after == [after[0]] + after[1..];
  }

  predicate MembersWellFormed(members: seq<Member>) {
    forall m :: m in members ==> WellFormed(m.value)
  }

  lemma {:induction false} MembersExact(s: seq<Token>)
    requires ParseMembers(s).Parsed?
    ensures var p := ParseMembers(s);
      MembersWellFormed(p.value) && s == MemberTokens(p.value) + p.rest && Stops(p.rest)
    decreases |s|
  {
    if !Stops(s) {
      ParseExact(s[1..]);
      var v := ParseValue(s[1..]);
      MembersExact(v.rest);
      var more := ParseMembers(v.rest);
      assert s == [s[0]] + s[1..];
      MemberFirst(Member(s[0].text, v.value), more.value, more.rest);
    }
  }

  lemma {:induction false} ItemsExact(s: seq<Token>)
    requires ParseItems(s).Parsed?
    ensures var p := ParseItems(s);
      (forall x :: x in p.value ==> WellFormed(x)) && s == ItemTokens(p.value) + p.rest && Stops(p.rest)
    decreases |s|, 1
  {
    if !Stops(s) {
      ParseExact(s);
      var v := ParseValue(s);
      ItemsExact(v.rest);
      var more := ParseItems(v.rest);
      assert ([v.value] + more.value)[1..] == more.value;
    }
  }

  // ---- What the limits say about the part still to be read ----

  /** The value is read at nesting level `depth` after `used` tokens, and is within every limit. */
  ghost predicate ValueFits(p: Parse<Json>, depth: nat, used: nat) {
    && p.Parsed? && depth + Nesting(p.value) <= MAX_DEPTH + 1 && CollectionsConform(p.value)
    && used + |Tokens(p.value)| <= MAX_TOKENS
  }

  /** The members conform one after the other, none repeating a key in `seen` or a key before it. */
  ghost predicate MembersFit(members: seq<Member>, seen: set<string>) {
    members == [] ||
      (members[0].key !in seen && CollectionsConform(members[0].value) &&
      MembersFit(members[1..], seen + {members[0].key}))
  }

  /** The members still to come, after `count` with the keys `seen`. */
  ghost predicate RestFits(p: Parse<seq<Member>>, depth: nat, used: nat, seen: set<string>, count: nat) {
    && p.Parsed? && count + |p.value| <= MAX_ITEMS && MembersFit(p.value, seen)
    && depth + MembersNesting(p.value) <= MAX_DEPTH && used + |MemberTokens(p.value)| <= MAX_TOKENS
  }

  ghost predicate ItemsFit(p: Parse<seq<Json>>, depth: nat, used: nat, count: nat) {
    && p.Parsed? && count + |p.value| <= MAX_ITEMS && (forall x :: x in p.value ==> CollectionsConform(x))
    && depth + ItemsNesting(p.value) <= MAX_DEPTH && used + |ItemTokens(p.value)| <= MAX_TOKENS
  }

  lemma {:induction false} MembersFitMeaning(members: seq<Member>, seen: set<string>)
    ensures MembersFit(members, seen) <==>
      && (forall i :: 0 <= i < |members| ==> CollectionsConform(members[i].value) && members[i].key !in seen)
      && (forall i, j :: 0 <= i < j < |members| ==> members[i].key != members[j].key)
  {
    if members != [] {
      MembersFitMeaning(members[1..], seen + {members[0].key});
      forall i | 0 < i < |members| ensures members[i] == members[1..][i - 1] {}
    }
  }

  lemma FitIsConform(members: seq<Member>)
    ensures MembersConform(members) <==> |members| <= MAX_ITEMS && MembersFit(members, {})
  {
    MembersFitMeaning(members, {});
  }

  lemma ItemsConformEach(items: seq<Json>)
    ensures ItemsConform(items) <==> |items| <= MAX_ITEMS && forall x :: x in items ==> CollectionsConform(x)
  {
    if |items| <= MAX_ITEMS && forall x :: x in items ==> CollectionsConform(x) {
      forall i | 0 <= i < |items| ensures CollectionsConform(items[i]) { assert items[i] in items; }
    }
  }

  /** One more member: its key is new, its value fits, and so does what follows. */
  lemma {:induction false} NextMemberFits(s: seq<Token>, depth: nat, used: nat, seen: set<string>, count: nat)
    requires !Stops(s)
    ensures RestFits(ParseMembers(s), depth, used, seen, count) <==>
      && s[0].Text? && s[0].text !in seen && ValueFits(ParseValue(s[1..]), depth + 1, used + 1)
      && RestFits(ParseMembers(ParseValue(s[1..]).rest), depth, used + 1 + |Tokens(ParseValue(s[1..]).value)|,
                  seen + {s[0].text}, count + 1)
    ensures s[0].Text? && ParseValue(s[1..]).Parsed? ==>
      SameEnd(ParseMembers(s), used, ParseMembers(ParseValue(s[1..]).rest),
        used + 1 + |Tokens(ParseValue(s[1..]).value)|)
  {
    if s[0].Text? && ParseValue(s[1..]).Parsed? {
      var v := ParseValue(s[1..]);
      var more := ParseMembers(v.rest);
      if more.Parsed? { assert ([Member(s[0].text, v.value)] + more.value)[1..] == more.value; }
    }
  }

  /** Both readings end at the same place after the same number of tokens. */
  ghost predicate SameEnd(p: Parse<seq<Member>>, used: nat, q: Parse<seq<Member>>, usedThen: nat) {
    && (p.Parsed? <==> q.Parsed?)
    && (p.Parsed? ==> p.rest == q.rest && used + |MemberTokens(p.value)| == usedThen + |MemberTokens(q.value)|)
  }

  lemma {:induction false} NextItemFits(s: seq<Token>, depth: nat, used: nat, count: nat)
    requires !Stops(s)
    ensures ItemsFit(ParseItems(s), depth, used, count) <==>
      && ValueFits(ParseValue(s), depth + 1, used)
      && ItemsFit(ParseItems(ParseValue(s).rest), depth, used + |Tokens(ParseValue(s).value)|, count + 1)
    ensures ParseValue(s).Parsed? ==>
      SameItemsEnd(ParseItems(s), used, ParseItems(ParseValue(s).rest), used + |Tokens(ParseValue(s).value)|)
  {
    var v := ParseValue(s);
    if v.Parsed? && ParseItems(v.rest).Parsed? {
      var more := ParseItems(v.rest).value;
      assert ([v.value] + more)[1..] == more && ([v.value] + more)[0] == v.value;
      assert forall x :: x in [v.value] + more <==> x == v.value || x in more;
    }
  }

  ghost predicate SameItemsEnd(p: Parse<seq<Json>>, used: nat, q: Parse<seq<Json>>, usedThen: nat) {
    && (p.Parsed? <==> q.Parsed?)
    && (p.Parsed? ==> p.rest == q.rest && used + |ItemTokens(p.value)| == usedThen + |ItemTokens(q.value)|)
  }

  // ---- The scanner ----

  datatype Read = Token(token: Token) | EndOfInput | Malformed | OverLimit

  /** `stream` are the tokens the decoder yields; `clean` says that only the end of the input follows them. */
  class Scanner {
    const stream: seq<Token>
    const clean: bool
    var pos: nat
    var tokens: nat

    constructor (stream: seq<Token>, clean: bool)
      ensures this.stream == stream && this.clean == clean && pos == 0 && tokens == 0
    {
      this.stream, this.clean := stream, clean;
      pos, tokens := 0, 0;
    }

    predicate Valid() reads this { pos <= |stream| }

    function Remaining(): seq<Token>
      requires Valid()
      reads this
    {
      stream[pos..]
    }

    predicate More()
      requires Valid()
      reads this
    {
      pos < |stream| && !Closes(stream[pos])
    }

    method NextToken() returns (r: Read)
      requires Valid()
      modifies this
      ensures Valid()
      ensures old(pos) == |stream| ==>
        r == (if clean then EndOfInput else Malformed) && pos == old(pos) && tokens == old(tokens)
      ensures old(pos) < |stream| ==>
        && old(Remaining()) == [stream[old(pos)]] + Remaining() && tokens == old(tokens) + 1
        && r == if tokens > MAX_TOKENS then OverLimit else Read.Token(stream[old(pos)])
    {
      if pos == |stream| { return if clean then EndOfInput else Malformed; }
      var token := stream[pos];
      pos := pos + 1;
      tokens := tokens + 1;
      if tokens > MAX_TOKENS { return OverLimit; }
      return Read.Token(token);
    }

    /** Scans one value at nesting level `depth`: accepted exactly when one stands here that fits,
        and then consumed exactly. */
    method ScanValue(depth: nat) returns (ok: bool)
      requires Valid() && 1 <= depth <= MAX_DEPTH + 1
      modifies this
      ensures Valid() && |Remaining()| <= |old(Remaining())|
      ensures ok <==> ValueFits(ParseValue(old(Remaining())), depth, old(tokens))
      ensures ok ==> var p := ParseValue(old(Remaining()));
        Remaining() == p.rest && tokens == old(tokens) + |Tokens(p.value)|
      decreases |Remaining()|, 0
    {
      var read := NextToken();
      if !read.Token? { return false; }
      if !read.token.Delim? { return true; }
      var open := read.token.mark;
      if open != '{' && open != '[' { return false; }
      ok := ScanCollection(open, depth);
    }

    /** The rest of an opened collection. */
    function Opened(open: char): Parse<Json>
      requires Valid()
      reads this
    {
      if open == '{' then ParseObject(Remaining()) else ParseArray(Remaining())
    }

    method ScanCollection(open: char, depth: nat) returns (ok: bool)
      requires Valid() && 1 <= depth <= MAX_DEPTH + 1 && 1 <= tokens <= MAX_TOKENS && (open == '{' || open == '[')
      modifies this
      ensures Valid() && |Remaining()| <= |old(Remaining())|
      ensures ok <==> ValueFits(old(Opened(open)), depth, old(tokens) - 1)
      ensures ok ==> var p := old(Opened(open)); Remaining() == p.rest && tokens == old(tokens) - 1 + |Tokens(p.value)|
      decreases |Remaining()|, 2
    {
      if depth > MAX_DEPTH { return false; }
      if open == '{' {
        var p := ParseMembers(Remaining());
        if p.Parsed? { FitIsConform(p.value); }
        ok := ScanMembers(depth);
      } else {
        var p := ParseItems(Remaining());
        if p.Parsed? { ItemsConformEach(p.value); }
        ok := ScanItems(depth);
      }
      if !ok { return; }
      var closing := NextToken();
      ok := closing == Read.Token(Delim(if open == '[' then ']' else '}'));
    }

    /** The object loop of the collection scan: it stops in front of the closing delimiter. */
    method ScanMembers(depth: nat) returns (ok: bool)
      requires Valid() && 1 <= depth <= MAX_DEPTH && tokens <= MAX_TOKENS
      modifies this
      ensures Valid() && |Remaining()| <= |old(Remaining())|
      ensures ok <==> RestFits(ParseMembers(old(Remaining())), depth, old(tokens), {}, 0)
      ensures ok ==> var p := ParseMembers(old(Remaining()));
        Remaining() == p.rest && tokens == old(tokens) + |MemberTokens(p.value)|
      decreases |Remaining()|, 1
    {
      var seen: set<string> := {};
      var items := 0;
      ghost var all, before := ParseMembers(Remaining()), tokens;
      while More()
        invariant Valid() && items <= MAX_ITEMS && tokens <= MAX_TOKENS && |Remaining()| <= |old(Remaining())|
        invariant RestFits(all, depth, before, {}, 0) <==>
          RestFits(ParseMembers(Remaining()), depth, tokens, seen, items)
        invariant SameEnd(all, before, ParseMembers(Remaining()), tokens)
        decreases |Remaining()|
      {
        NextMemberFits(Remaining(), depth, tokens, seen, items);
        items := items + 1;
        if items > MAX_ITEMS { return false; }
        var fits;
        fits, seen := ScanMember(depth, seen);
        if !fits { return false; }
      }
      return true;
    }

    /** One key and its value. */
    method ScanMember(depth: nat, seen: set<string>) returns (ok: bool, seen': set<string>)
      requires Valid() && 1 <= depth <= MAX_DEPTH && tokens <= MAX_TOKENS && More()
      modifies this
      ensures Valid() && |Remaining()| < |old(Remaining())|
      ensures ok <==>
        && old(Remaining())[0].Text? && old(Remaining())[0].text !in seen
        && ValueFits(ParseValue(old(Remaining())[1..]), depth + 1, old(tokens) + 1)
      ensures ok ==> var p := ParseValue(old(Remaining())[1..]);
        && Remaining() == p.rest && tokens == old(tokens) + 1 + |Tokens(p.value)|
        && seen' == seen + {old(Remaining())[0].text}
      decreases |Remaining()|, 0
    {
      seen' := seen;
      var rawKey := NextToken();
      assert old(Remaining())[1..] == Remaining();
      if !rawKey.Token? { return false, seen; }
      if !rawKey.token.Text? || rawKey.token.text in seen { return false, seen; }
      seen' := seen + {rawKey.token.text};
      ok := ScanValue(depth + 1);
    }

    /** The array loop of the collection scan. */
    method ScanItems(depth: nat) returns (ok: bool)
      requires Valid() && 1 <= depth <= MAX_DEPTH && tokens <= MAX_TOKENS
      modifies this
      ensures Valid() && |Remaining()| <= |old(Remaining())|
      ensures ok <==> ItemsFit(ParseItems(old(Remaining())), depth, old(tokens), 0)
      ensures ok ==> var p := ParseItems(old(Remaining()));
        Remaining() == p.rest && tokens == old(tokens) + |ItemTokens(p.value)|
      decreases |Remaining()|, 1
    {
      var items := 0;
      ghost var all, before := ParseItems(Remaining()), tokens;
      while More()
        invariant Valid() && items <= MAX_ITEMS && tokens <= MAX_TOKENS && |Remaining()| <= |old(Remaining())|
        invariant ItemsFit(all, depth, before, 0) <==> ItemsFit(ParseItems(Remaining()), depth, tokens, items)
        invariant SameItemsEnd(all, before, ParseItems(Remaining()), tokens)
        decreases |Remaining()|
      {
        NextItemFits(Remaining(), depth, tokens, items);
        items := items + 1;
        if items > MAX_ITEMS { return false; }
        var fits := ScanValue(depth + 1);
        if !fits { return false; }
      }
      return true;
    }
  }

  /** The streams the endpoint is meant to take: one conforming object, and nothing after it. */
  ghost predicate OneObject(stream: seq<Token>) {
    exists v :: WellFormed(v) && Conforms(v) && stream == Tokens(v)
  }

  lemma ObjectParses(stream: seq<Token>)
    ensures OneObject(stream) <==> var p := ParseValue(stream); p.Parsed? && p.rest == [] && Conforms(p.value)
  {
    if OneObject(stream) {
      var v :| WellFormed(v) && Conforms(v) && stream == Tokens(v);
      ParseInverts(v, []);
      assert Tokens(v) + [] == stream;
    }
    var p := ParseValue(stream);
    if p.Parsed? && p.rest == [] {
      ParseExact(stream);
      assert stream == Tokens(p.value);
    }
  }

  /** Any stream at all: accepted exactly when it is one conforming object and the input ends there. */
  method ValidateObject(stream: seq<Token>, clean: bool) returns (ok: bool)
    ensures ok <==> clean && OneObject(stream)
  {
    ObjectParses(stream);
    var scanner := new Scanner(stream, clean);
    assert scanner.Remaining() == stream;
    var first := scanner.NextToken();
    if first != Read.Token(Delim('{')) { return false; }
    assert scanner.Remaining() == stream[1..];
    ok := scanner.ScanCollection('{', 1);
    if !ok { return; }
    var last := scanner.NextToken();
    ok := last == EndOfInput;
  }
}
