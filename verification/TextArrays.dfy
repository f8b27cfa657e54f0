/**
  internal/pgfmt/pgfmt.go: writing a list of texts as a Postgres array literal
  and reading one back.
 */
module TextArrays {

  // --- Writing ---------------------------------------------------------------------

  /** strings.ReplaceAll for a one-character pattern. */
  function ReplaceAll(s: string, c: char, into: string): string {
    if s == "" then "" else (if s[0] == c then into else [s[0]]) + ReplaceAll(s[1..], c, into)
  }

  /** Backslashes first, then quotes. */
  function Escape(s: string): string {
    ReplaceAll(ReplaceAll(s, '\\', "\\\\"), '"', "\\\"")
  }

  function Quoted(s: string): string {
    "\"" + Escape(s) + "\""
  }

  /** strings.Join with a comma. */
  function Joined(items: seq<string>): string {
    if items == [] then ""
    else if |items| == 1 then items[0]
    else Joined(items[..|items| - 1]) + ("," + items[|items| - 1])
  }

  function QuotedAll(items: seq<string>): seq<string> {
    seq(|items|, i requires 0 <= i < |items| => Quoted(items[i]))
  }

  method TextArray(items: seq<string>) returns (literal: string)
    ensures literal == "{" + Joined(QuotedAll(items)) + "}"
  {
    if |items| == 0 {
      assert QuotedAll(items) == [];
      return "{}";
    }
    var quoted: seq<string> := [];
    for i := 0 to |items|
      invariant quoted == QuotedAll(items)[..i]
    {
      var escaped := ReplaceAll(items[i], '\\', "\\\\");
      escaped := ReplaceAll(escaped, '"', "\\\"");
      quoted := quoted + ["\"" + escaped + "\""];
    }
    assert quoted == QuotedAll(items);
    literal := "{" + Joined(quoted) + "}";
  }

  // --- Reading -------------------------------------------------------------------------

  datatype Scanner = Scanner(out: seq<string>, current: string, inQuotes: bool, escaped: bool)

  const START := Scanner([], "", false, false)

  function Feed(s: Scanner, c: char): Scanner {
    if s.escaped then s.(current := s.current + [c], escaped := false)
    else if c == '\\' then s.(escaped := true)
    else if c == '"' then s.(inQuotes := !s.inQuotes)
    else if c == ',' && !s.inQuotes then s.(out := s.out + [s.current], current := "")
    else s.(current := s.current + [c])
  }

  function FeedAll(s: Scanner, text: string): Scanner {
    if text == "" then s else Feed(FeedAll(s, text[..|text| - 1]), text[|text| - 1])
  }

  function Trimmed(literal: string): string {
    var t := if literal != "" && literal[0] == '{' then literal[1..] else literal;
    if t != "" && t[|t| - 1] == '}' then t[..|t| - 1] else t
  }

  function Parsed(literal: string): seq<string> {
    if Trimmed(literal) == "" then []
    else
      var end := FeedAll(START, Trimmed(literal));
      end.out + [end.current]
  }

  method ParseTextArray(literal: string) returns (items: seq<string>)
    ensures items == Parsed(literal)
  {
    var trimmed := Trimmed(literal);
    if trimmed == "" {
      return [];
    }
    var out: seq<string> := [];
    var current := "";
    var inQuotes, escaped := false, false;
    for i := 0 to |trimmed|
      invariant Scanner(out, current, inQuotes, escaped) == FeedAll(START, trimmed[..i])
    {
      var c := trimmed[i];
      assert trimmed[..i + 1] == trimmed[..i] + [c];
      if escaped {
        current, escaped := current + [c], false;
      } else if c == '\\' {
        escaped := true;
      } else if c == '"' {
        inQuotes := !inQuotes;
      } else if c == ',' && !inQuotes {
        out, current := out + [current], "";
      } else {
        current := current + [c];
      }
    }
    assert trimmed[..|trimmed|] == trimmed;
    items := out + [current];
  }

  // --- There and back ----------------------------------------------------------------------

  lemma {:induction false} FeedInTurn(s: Scanner, a: string, b: string)
    ensures FeedAll(s, a + b) == FeedAll(FeedAll(s, a), b)
  {
    if b == "" {
      assert a + b == a;
    } else {
      assert (a + b)[..|a + b| - 1] == a + b[..|b| - 1];
      FeedInTurn(s, a, b[..|b| - 1]);
    }
  }

  lemma FeedOne(s: Scanner, c: char)
    ensures FeedAll(s, [c]) == Feed(s, c)
  {
    assert [c][..0] == "";
  }

  lemma FeedTwo(s: Scanner, c: char, d: char)
    ensures FeedAll(s, [c, d]) == Feed(Feed(s, c), d)
  {
    assert [c, d][..1] == [c];
    FeedOne(s, c);
  }

  lemma {:induction false} ReplaceInTurn(a: string, b: string, c: char, into: string)
    ensures ReplaceAll(a + b, c, into) == ReplaceAll(a, c, into) + ReplaceAll(b, c, into)
  {
    if a == "" {
      assert a + b == b;
    } else {
      assert (a + b)[1..] == a[1..] + b;
      ReplaceInTurn(a[1..], b, c, into);
    }
  }

  /** What escaping does to one character. */
  function EscapedChar(c: char): string {
    if c == '\\' then "\\\\" else if c == '"' then "\\\"" else [c]
  }

  lemma EscapeFirst(s: string)
    requires s != ""
    ensures Escape(s) == EscapedChar(s[0]) + Escape(s[1..])
  {
    var first := if s[0] == '\\' then "\\\\" else [s[0]];
    ReplaceInTurn(first, ReplaceAll(s[1..], '\\', "\\\\"), '"', "\\\"");
    assert first[1..] == (if s[0] == '\\' then "\\" else "");
    assert ReplaceAll(first, '"', "\\\"") == EscapedChar(s[0]);
  }

  lemma EscapedCharIsRead(s: Scanner, c: char)
    requires s.inQuotes && !s.escaped
    ensures FeedAll(s, EscapedChar(c)) == s.(current := s.current + [c])
  {
    FeedTwo(s, '\\', c);
    FeedOne(s, c);
  }

  /** Escaping character by character. */
  function Escaped(s: string): string {
    if s == "" then "" else EscapedChar(s[0]) + Escaped(s[1..])
  }

  lemma {:induction false} EscapeIsPerCharacter(s: string)
    ensures Escape(s) == Escaped(s)
    decreases |s|
  {
    if s != "" {
      EscapeFirst(s);
      EscapeIsPerCharacter(s[1..]);
    }
  }

  lemma AddFirst(before: string, text: string)
    requires text != ""
    ensures before + [text[0]] + text[1..] == before + text
  {
  }

  /** Inside quotes an escaped text is read back as the text. */
  lemma {:induction false} EscapedIsRead(s: Scanner, text: string)
    requires s.inQuotes && !s.escaped
    ensures FeedAll(s, Escaped(text)) == s.(current := s.current + text)
    decreases |text|
  {
    if text == "" {
      assert s.current + text == s.current;
    } else {
      FeedInTurn(s, EscapedChar(text[0]), Escaped(text[1..]));
      EscapedCharIsRead(s, text[0]);
      EscapedIsRead(s.(current := s.current + [text[0]]), text[1..]);
      AddFirst(s.current, text);
    }
  }

  /** A text that a server may leave unquoted. */
  predicate Bare(text: string) {
    text != "" && forall i :: 0 <= i < |text| ==> text[i] !in ['"', '\\', ',', '{', '}']
  }

  lemma {:induction false} BareIsRead(s: Scanner, text: string)
    requires !s.inQuotes && !s.escaped && forall i :: 0 <= i < |text| ==> text[i] !in ['"', '\\', ',', '{', '}']
    ensures FeedAll(s, text) == s.(current := s.current + text)
  {
    if text == "" {
      assert s.current + text == s.current;
    } else {
      BareIsRead(s, text[..|text| - 1]);
    }
  }

  /** One element as written: quoted, or bare where that is possible. */
  predicate Writes(written: string, text: string) {
    written == Quoted(text) || (written == text && Bare(text))
  }

  lemma ElementIsRead(s: Scanner, written: string, text: string)
    requires !s.inQuotes && !s.escaped && s.current == "" && Writes(written, text)
    ensures FeedAll(s, written) == s.(current := text)
  {
    if written == Quoted(text) {
      var inside := s.(inQuotes := true);
      FeedInTurn(s, "\"" + Escape(text), "\"");
      FeedInTurn(s, "\"", Escape(text));
      FeedOne(s, '"');
      EscapeIsPerCharacter(text);
      EscapedIsRead(inside, text);
      FeedOne(inside.(current := text), '"');
    } else {
      BareIsRead(s, text);
    }
  }

  /** A comma ends the element before it. */
  lemma NextElement(s: Scanner, written: string, text: string)
    requires !s.inQuotes && !s.escaped && Writes(written, text)
    ensures FeedAll(s, "," + written) == Scanner(s.out + [s.current], text, false, false)
  {
    var next := Scanner(s.out + [s.current], "", false, false);
    FeedInTurn(s, ",", written);
    FeedOne(s, ',');
    ElementIsRead(next, written, text);
  }

  ghost predicate WritesAll(written: seq<string>, items: seq<string>) {
    |written| == |items| && forall i :: 0 <= i < |items| ==> Writes(written[i], items[i])
  }

  /** The scanner after a list: all but the last element are out, the last one is current. */
  function After(items: seq<string>): Scanner
    requires items != []
  {
    Scanner(items[..|items| - 1], items[|items| - 1], false, false)
  }

  lemma AfterOneMore(items: seq<string>)
    requires |items| > 1
    ensures var before := After(items[..|items| - 1]);
            After(items) == Scanner(before.out + [before.current], items[|items| - 1], false, false)
  {
    var init := items[..|items| - 1];
    assert init[..|init| - 1] + [init[|init| - 1]] == init;
  }

  lemma {:induction false} ElementsAreRead(written: seq<string>, items: seq<string>)
    requires items != [] && WritesAll(written, items)
    ensures FeedAll(START, Joined(written)) == After(items)
    ensures Joined(written) != ""
  {
    var n := |items| - 1;
    if n == 0 {
      ElementIsRead(START, written[0], items[0]);
    } else {
      ElementsAreRead(written[..n], items[..n]);
      FeedInTurn(START, Joined(written[..n]), "," + written[n]);
      NextElement(After(items[..n]), written[n], items[n]);
      AfterOneMore(items);
    }
  }

  lemma TrimBraces(body: string)
    ensures Trimmed("{" + body + "}") == body
  {
    var literal := "{" + body + "}";
    assert literal[1..] == body + "}";
    assert (body + "}")[..|body|] == body;
  }

  /**
    Reading gives back the list whichever elements were quoted: those a server
    prints, and in particular all of them, as TextArray writes.
   */
  lemma LiteralIsRead(written: seq<string>, items: seq<string>)
    requires WritesAll(written, items)
    ensures Parsed("{" + Joined(written) + "}") == items
  {
    ParsedBody(Joined(written));
    if items != [] {
      ElementsAreRead(written, items);
      AfterAll(items);
    }
  }

  lemma ParsedBody(body: string)
    ensures Parsed("{" + body + "}")
            == if body == "" then [] else FeedAll(START, body).out + [FeedAll(START, body).current]
  {
    TrimBraces(body);
  }

  lemma AfterAll(items: seq<string>)
    requires items != []
    ensures After(items).out + [After(items).current] == items
  {
  }

  /** ParseTextArray undoes TextArray for every list of texts. */
  lemma TextArrayRoundTrips(items: seq<string>)
    ensures Parsed("{" + Joined(QuotedAll(items)) + "}") == items
  {
    LiteralIsRead(QuotedAll(items), items);
  }
}
