/**
  extractJSON of internal/consolidation/prompts.go: finding the first JSON object
  in a model's answer, against the concrete syntax of RFC 8259, sections 2 to 7.
 */
module JsonScan {
  import opened Basics

  // --- The scanner --------------------------------------------------------------------

  datatype Scanner = Scanner(depth: int, inString: bool, escaped: bool)

  const START := Scanner(0, false, false)

  function Feed(s: Scanner, c: char): Scanner {
    if s.escaped then s.(escaped := false)
    else if c == '\\' && s.inString then s.(escaped := true)
    else if c == '"' then s.(inString := !s.inString)
    else if s.inString then s
    else if c == '{' then s.(depth := s.depth + 1)
    else if c == '}' then s.(depth := s.depth - 1)
    else s
  }

  /** The character is a closing brace that counts, and brings the depth to zero. */
  predicate Closes(s: Scanner, c: char) {
    !s.escaped && !s.inString && c == '}' && s.depth == 1
  }

  /** After how many characters the object that is open is closed, if it is. */
  function CloseAt(s: Scanner, text: string): (n: Option<nat>)
    ensures n.Some? ==> 1 <= n.value <= |text|
    decreases |text|
  {
    if text == "" then None
    else if Closes(s, text[0]) then Some(1)
    else
      match CloseAt(Feed(s, text[0]), text[1..])
      case None => None
      case Some(n) => Some(n + 1)
  }

  function FirstBrace(s: string): (i: nat)
    ensures i <= |s|
    ensures forall k :: 0 <= k < i ==> s[k] != '{'
    ensures i < |s| ==> s[i] == '{'
  {
    if s == "" || s[0] == '{' then 0 else FirstBrace(s[1..]) + 1
  }

  /** Where the result starts and ends. */
  function Span(s: string): (r: (nat, nat))
    ensures r.0 <= r.1 <= |s|
  {
    var start := FirstBrace(s);
    if start == |s| then (0, |s|)
    else
      match CloseAt(START, s[start..])
      case None => (start, |s|)
      case Some(n) => (start, start + n)
  }

  method ExtractJSON(s: string) returns (found: string)
    ensures found == s[Span(s).0..Span(s).1]
    ensures '{' !in s ==> found == s
    ensures '{' in s ==> exists i :: 0 <= i < |s| && s[i] == '{' && '{' !in s[..i] && found <= s[i..] && found != ""
    ensures '{' in s && CloseAt(START, s[FirstBrace(s)..]).None? ==> |found| == |s| - FirstBrace(s)
  {
    assert '{' in s <==> FirstBrace(s) < |s|;
    var start := IndexByte(s, '{');
    if start == |s| {
      return s;
    }
    var end := MatchingBrace(s, start);
    found := if end.Some? then s[start..start + end.value] else s[start..];
  }

  /** The scanning loop. */
  method MatchingBrace(s: string, start: nat) returns (end: Option<nat>)
    requires start <= |s|
    ensures end == CloseAt(START, s[start..])
  {
    var depth := 0;
    var inString, escaped := false, false;
    ghost var st := START;
    for i := start to |s|
      invariant st == Scanner(depth, inString, escaped)
      invariant CloseAt(START, s[start..]) == Shifted(CloseAt(st, s[i..]), i - start)
    {
      var c := s[i];
      CloseOneMore(st, s, i, i - start);
      st := Feed(st, c);
      if escaped {
        escaped := false;
      } else if c == '\\' && inString {
        escaped := true;
      } else if c == '"' {
        inString := !inString;
      } else if inString {
      } else if c == '{' {
        depth := depth + 1;
      } else if c == '}' {
        depth := depth - 1;
        if depth == 0 {
          return Some(i + 1 - start);
        }
      }
    }
    end := None;
  }

  lemma CloseOneMore(st: Scanner, s: string, i: nat, offset: nat)
    requires i < |s|
    ensures Shifted(CloseAt(st, s[i..]), offset)
            == if Closes(st, s[i]) then Some(offset + 1) else Shifted(CloseAt(Feed(st, s[i]), s[i + 1..]), offset + 1)
  {
    assert s[i..][0] == s[i] && s[i..][1..] == s[i + 1..];
  }

  function Shifted(n: Option<nat>, offset: nat): Option<nat> {
    match n
    case None => None
    case Some(k) => Some(k + offset)
  }

  method IndexByte(s: string, c: char) returns (i: nat)
    requires c == '{'
    ensures i == FirstBrace(s)
  {
    i := 0;
    while i < |s| && s[i] != c
      invariant i <= |s| && FirstBrace(s) == i + FirstBrace(s[i..])
    {
      assert s[i..][1..] == s[i + 1..];
      i := i + 1;
    }
  }

  // --- JSON texts --------------------------------------------------------------------------

  /** Section 2: blanks between tokens. */
  predicate Blank(ws: string) {
    forall i :: 0 <= i < |ws| ==> ws[i] in [' ', '\t', '\n', '\r']
  }

  /** Section 7: what a string is made of. */
  datatype Unit = Plain(c: char) | Escape(c: char) | Unicode(hex: string)

  predicate IsHex(c: char) {
    '0' <= c <= '9' || 'a' <= c <= 'f' || 'A' <= c <= 'F'
  }

  predicate UnitOk(u: Unit) {
    match u
    case Plain(c) => c != '"' && c != '\\' && c as int >= 0x20
    case Escape(c) => c in ['"', '\\', '/', 'b', 'f', 'n', 'r', 't']
    case Unicode(hex) => |hex| == 4 && forall i :: 0 <= i < 4 ==> IsHex(hex[i])
  }

  function UnitText(u: Unit): string {
    match u
    case Plain(c) => [c]
    case Escape(c) => ['\\', c]
    case Unicode(hex) => ['\\', 'u'] + hex
  }

  function UnitsText(units: seq<Unit>): string {
    if units == [] then "" else UnitText(units[0]) + UnitsText(units[1..])
  }

  predicate UnitsOk(units: seq<Unit>) {
    forall i :: 0 <= i < |units| ==> UnitOk(units[i])
  }

  /** A number or a literal name (sections 3 and 6); all that matters here is what it cannot contain. */
  predicate ScalarOk(token: string) {
    token != "" && forall i :: 0 <= i < |token| ==>
      '0' <= token[i] <= '9' || 'a' <= token[i] <= 'z' || token[i] in ['-', '+', '.', 'E']
  }

  /** A value with every blank and every escape it was written with. */
  datatype Json =
    | Scalar(token: string)
    | Text(units: seq<Unit>)
    | EmptyArray(ws: string)
    | Array(items: Items)
    | EmptyObject(ws: string)
    | Object(members: Members)

  datatype Items = LastItem(before: string, value: Json, after: string) | Items(before: string, value: Json, after: string, rest: Items)

  datatype Members =
    | LastMember(ws: string, key: seq<Unit>, colon: string, before: string, value: Json, after: string)
    | Members(ws: string, key: seq<Unit>, colon: string, before: string, value: Json, after: string, rest: Members)

  predicate JsonOk(j: Json) {
    match j
    case Scalar(token) => ScalarOk(token)
    case Text(units) => UnitsOk(units)
    case EmptyArray(ws) => Blank(ws)
    case Array(items) => ItemsOk(items)
    case EmptyObject(ws) => Blank(ws)
    case Object(members) => MembersOk(members)
  }

  predicate ItemsOk(i: Items) {
    Blank(i.before) && JsonOk(i.value) && Blank(i.after) && (i.Items? ==> ItemsOk(i.rest))
  }

  predicate MembersOk(m: Members) {
    && Blank(m.ws) && UnitsOk(m.key) && Blank(m.colon) && Blank(m.before) && JsonOk(m.value) && Blank(m.after)
    && (m.Members? ==> MembersOk(m.rest))
  }

  function StringText(units: seq<Unit>): string {
    "\"" + (UnitsText(units) + "\"")
  }

  function JsonText(j: Json): string {
    match j
    case Scalar(token) => token
    case Text(units) => StringText(units)
    case EmptyArray(ws) => "[" + (ws + "]")
    case Array(items) => "[" + (ItemsText(items) + "]")
    case EmptyObject(ws) => "{" + (ws + "}")
    case Object(members) => "{" + (MembersText(members) + "}")
  }

  function ItemsText(i: Items): string {
    i.before + (JsonText(i.value) + (i.after + if i.Items? then "," + ItemsText(i.rest) else ""))
  }

  function MembersText(m: Members): string {
    m.ws + (StringText(m.key) + (m.colon + (":" + (m.before + (JsonText(m.value) + (m.after
      + if m.Members? then "," + MembersText(m.rest) else ""))))))
  }

  // --- Finding an object ---------------------------------------------------------------------

  ghost predicate PassesBefore(s: Scanner, text: string, t: Scanner, more: string) {
    CloseAt(s, text + more) == Shifted(CloseAt(t, more), |text|)
  }

  /** Scanning the text from s on closes nothing and ends up in t, whatever follows. */
  ghost predicate Passes(s: Scanner, text: string, t: Scanner) {
    forall more :: PassesBefore(s, text, t, more)
  }

  lemma PassInTurn(s: Scanner, a: string, t: Scanner, b: string, u: Scanner)
    requires Passes(s, a, t) && Passes(t, b, u)
    ensures Passes(s, a + b, u)
  {
    forall more ensures PassesBefore(s, a + b, u, more) {
      assert (a + b) + more == a + (b + more);
      assert PassesBefore(s, a, t, b + more) && PassesBefore(t, b, u, more);
    }
  }

  lemma PassNothing(s: Scanner)
    ensures Passes(s, "", s)
  {
    forall more ensures PassesBefore(s, "", s, more) {
      assert "" + more == more;
    }
  }

  lemma PassOne(s: Scanner, c: char)
    requires !Closes(s, c)
    ensures Passes(s, [c], Feed(s, c))
  {
    forall more ensures PassesBefore(s, [c], Feed(s, c), more) {
      assert ([c] + more)[0] == c && ([c] + more)[1..] == more;
    }
  }

  /** Characters that mean nothing to the scanner. */
  lemma {:induction false} PassQuiet(s: Scanner, text: string)
    requires forall i :: 0 <= i < |text| ==> Feed(s, text[i]) == s && !Closes(s, text[i])
    ensures Passes(s, text, s)
  {
    if text == "" {
      PassNothing(s);
    } else {
      PassOne(s, text[0]);
      PassQuiet(s, text[1..]);
      PassInTurn(s, [text[0]], s, text[1..], s);
      assert [text[0]] + text[1..] == text;
    }
  }

  function Within(depth: int): Scanner {
    Scanner(depth, false, false)
  }

  function InString(depth: int): Scanner {
    Scanner(depth, true, false)
  }

  lemma PassUnit(depth: int, u: Unit)
    requires UnitOk(u)
    ensures Passes(InString(depth), UnitText(u), InString(depth))
  {
    var s := InString(depth);
    var e := s.(escaped := true);
    match u
    case Plain(c) => PassOne(s, c);
    case Escape(c) =>
      PassOne(s, '\\');
      PassOne(e, c);
      PassInTurn(s, ['\\'], e, [c], s);
      assert ['\\'] + [c] == ['\\', c];
    case Unicode(hex) =>
      PassOne(s, '\\');
      PassOne(e, 'u');
      PassInTurn(s, ['\\'], e, ['u'], s);
      assert ['\\'] + ['u'] == ['\\', 'u'];
      PassQuiet(s, hex);
      PassInTurn(s, ['\\', 'u'], s, hex, s);
  }

  lemma {:induction false} PassUnits(depth: int, units: seq<Unit>)
    requires UnitsOk(units)
    ensures Passes(InString(depth), UnitsText(units), InString(depth))
  {
    var s := InString(depth);
    if units == [] {
      PassNothing(s);
    } else {
      PassUnit(depth, units[0]);
      PassUnits(depth, units[1..]);
      PassInTurn(s, UnitText(units[0]), s, UnitsText(units[1..]), s);
    }
  }

  lemma PassString(depth: int, units: seq<Unit>)
    requires UnitsOk(units)
    ensures Passes(Within(depth), StringText(units), Within(depth))
  {
    PassOne(Within(depth), '"');
    PassUnits(depth, units);
    PassOne(InString(depth), '"');
    PassInTurn(InString(depth), UnitsText(units), InString(depth), "\"", Within(depth));
    PassInTurn(Within(depth), "\"", InString(depth), UnitsText(units) + "\"", Within(depth));
  }

  lemma PassBlank(depth: int, ws: string)
    requires Blank(ws)
    ensures Passes(Within(depth), ws, Within(depth))
  {
    PassQuiet(Within(depth), ws);
  }

  /** Brackets, commas and colons. */
  lemma PassMark(depth: int, c: char)
    requires c in ['[', ']', ',', ':']
    ensures Passes(Within(depth), [c], Within(depth))
  {
    PassOne(Within(depth), c);
  }

  lemma PassBrackets(depth: int, inner: string)
    requires Passes(Within(depth), inner, Within(depth))
    ensures Passes(Within(depth), "[" + (inner + "]"), Within(depth))
  {
    var s := Within(depth);
    PassMark(depth, '[');
    PassMark(depth, ']');
    PassInTurn(s, inner, s, "]", s);
    PassInTurn(s, "[", s, inner + "]", s);
  }

  lemma PassBraces(depth: int, inner: string)
    requires depth >= 1 && Passes(Within(depth + 1), inner, Within(depth + 1))
    ensures Passes(Within(depth), "{" + (inner + "}"), Within(depth))
  {
    var s, inside := Within(depth), Within(depth + 1);
    PassOne(s, '{');
    PassOne(inside, '}');
    PassInTurn(inside, inner, inside, "}", s);
    PassInTurn(s, "{", inside, inner + "}", s);
  }

  lemma {:induction false} PassJson(depth: int, j: Json)
    requires JsonOk(j) && depth >= 1
    ensures Passes(Within(depth), JsonText(j), Within(depth))
    decreases j
  {
    match j
    case Scalar(token) => PassQuiet(Within(depth), token);
    case Text(units) => PassString(depth, units);
    case EmptyArray(ws) => PassBlank(depth, ws); PassBrackets(depth, ws);
    case Array(items) => PassItems(depth, items); PassBrackets(depth, ItemsText(items));
    case EmptyObject(ws) => PassBlank(depth + 1, ws); PassBraces(depth, ws);
    case Object(members) => PassMembers(depth + 1, members); PassBraces(depth, MembersText(members));
  }

  lemma {:induction false} PassItems(depth: int, i: Items)
    requires ItemsOk(i) && depth >= 1
    ensures Passes(Within(depth), ItemsText(i), Within(depth))
    decreases i
  {
    var s := Within(depth);
    var tail := if i.Items? then "," + ItemsText(i.rest) else "";
    if i.Items? {
      PassMark(depth, ',');
      PassItems(depth, i.rest);
      PassInTurn(s, ",", s, ItemsText(i.rest), s);
    } else {
      PassNothing(s);
    }
    PassBlank(depth, i.after);
    PassInTurn(s, i.after, s, tail, s);
    PassJson(depth, i.value);
    PassInTurn(s, JsonText(i.value), s, i.after + tail, s);
    PassBlank(depth, i.before);
    PassInTurn(s, i.before, s, JsonText(i.value) + (i.after + tail), s);
  }

  lemma {:induction false} PassMembers(depth: int, m: Members)
    requires MembersOk(m) && depth >= 1
    ensures Passes(Within(depth), MembersText(m), Within(depth))
    decreases m
  {
    var s := Within(depth);
    var tail := if m.Members? then "," + MembersText(m.rest) else "";
    if m.Members? {
      PassMark(depth, ',');
      PassMembers(depth, m.rest);
      PassInTurn(s, ",", s, MembersText(m.rest), s);
    } else {
      PassNothing(s);
    }
    PassBlank(depth, m.after);
    PassInTurn(s, m.after, s, tail, s);
    PassJson(depth, m.value);
    var value := JsonText(m.value) + (m.after + tail);
    PassInTurn(s, JsonText(m.value), s, m.after + tail, s);
    PassBlank(depth, m.before);
    PassInTurn(s, m.before, s, value, s);
    PassMark(depth, ':');
    PassInTurn(s, ":", s, m.before + value, s);
    PassBlank(depth, m.colon);
    PassInTurn(s, m.colon, s, ":" + (m.before + value), s);
    PassString(depth, m.key);
    PassInTurn(s, StringText(m.key), s, m.colon + (":" + (m.before + value)), s);
    PassBlank(depth, m.ws);
    PassInTurn(s, m.ws, s, StringText(m.key) + (m.colon + (":" + (m.before + value))), s);
  }

  // --- The result --------------------------------------------------------------------------------

  predicate IsObject(j: Json) {
    JsonOk(j) && (j.EmptyObject? || j.Object?)
  }

  /** Scanning from an object's opening brace stops at its closing one. */
  lemma ObjectCloses(j: Json, suffix: string)
    requires IsObject(j)
    ensures CloseAt(START, JsonText(j) + suffix) == Some(|JsonText(j)|)
  {
    InnerPasses(j);
    ClosedAfter(Inner(j), suffix);
  }

  /** What an object has between its braces. */
  function Inner(j: Json): string
    requires j.EmptyObject? || j.Object?
  {
    if j.EmptyObject? then j.ws else MembersText(j.members)
  }

  lemma InnerPasses(j: Json)
    requires IsObject(j)
    ensures Passes(START, "{" + Inner(j), Within(1)) && JsonText(j) == "{" + (Inner(j) + "}")
  {
    if j.EmptyObject? {
      PassBlank(1, j.ws);
    } else {
      PassMembers(1, j.members);
    }
    PassOne(START, '{');
    PassInTurn(START, "{", Within(1), Inner(j), Within(1));
  }

  lemma ClosedAfter(inner: string, suffix: string)
    requires Passes(START, "{" + inner, Within(1))
    ensures CloseAt(START, ("{" + (inner + "}")) + suffix) == Some(|inner| + 2)
  {
    var more := "}" + suffix;
    assert ("{" + (inner + "}")) + suffix == ("{" + inner) + more;
    assert PassesBefore(START, "{" + inner, Within(1), more);
    assert more[0] == '}';
  }

  lemma FirstBraceAfter(prefix: string, rest: string)
    requires rest != "" && rest[0] == '{'
    ensures FirstBrace(prefix + rest) == |prefix| <==> '{' !in prefix
    ensures FirstBrace(prefix + rest) < |prefix + rest|
  {
    var s := prefix + rest;
    assert s[|prefix|] == '{';
    if '{' in prefix {
      var k :| 0 <= k < |prefix| && prefix[k] == '{';
      assert s[k] == '{';
    } else {
      assert forall k :: 0 <= k < |prefix| ==> s[k] == prefix[k];
    }
  }

  lemma SpanAfterPrefix(prefix: string, o: string, suffix: string)
    requires o != "" && o[0] == '{' && CloseAt(START, o + suffix) == Some(|o|)
    ensures Span(prefix + (o + suffix)) == (|prefix|, |prefix| + |o|) <==> '{' !in prefix
    ensures (prefix + (o + suffix))[|prefix|..|prefix| + |o|] == o
  {
    var rest := o + suffix;
    FirstBraceAfter(prefix, rest);
    assert (prefix + rest)[|prefix|..] == rest;
  }

  lemma StartsWithBrace(j: Json)
    requires IsObject(j)
    ensures JsonText(j) != "" && JsonText(j)[0] == '{'
  {
  }

  /**
    In any answer with a JSON object in it, what is extracted is exactly that
    object if and only if no brace comes before it; what follows never matters.
   */
  lemma ExtractsTheObjectIff(prefix: string, j: Json, suffix: string)
    requires IsObject(j)
    ensures var s := prefix + (JsonText(j) + suffix);
            Span(s) == (|prefix|, |prefix| + |JsonText(j)|) <==> '{' !in prefix
    ensures '{' !in prefix ==>
              var s := prefix + (JsonText(j) + suffix);
              s[Span(s).0..Span(s).1] == JsonText(j)
  {
    StartsWithBrace(j);
    ObjectCloses(j, suffix);
    SpanAfterPrefix(prefix, JsonText(j), suffix);
  }
}
