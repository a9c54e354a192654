// Printing and parsing a Postgres text[] literal (internal/models/models.go). A string is its
// sequence of characters.
module PgArray {
  import opened Prelude

  // ---- Printing ---------------------------------------------------------------------------------

  function Escaped(s: string): string {
    if s == "" then ""
    else Escaped(s[..|s| - 1]) + (if s[|s| - 1] == '"' || s[|s| - 1] == '\\' then ['\\', s[|s| - 1]] else [s[|s| - 1]])
  }

  function Quoted(s: string): string {
    ['"'] + Escaped(s) + ['"']
  }

  function Elements(a: seq<string>): string {
    if a == [] then ""
    else if |a| == 1 then Quoted(a[0])
    else Elements(a[..|a| - 1]) + [','] + Quoted(a[|a| - 1])
  }

  function Printed(a: seq<string>): string {
    ['{'] + Elements(a) + ['}']
  }

  method EscapeArrayElem(s: string) returns (out: string)
    ensures out == Escaped(s)
  {
    out := "";
    for i := 0 to |s|
      invariant out == Escaped(s[..i])
    {
      assert s[..i + 1][..i] == s[..i];
      if s[i] == '"' || s[i] == '\\' {
        out := out + ['\\'];
      }
      out := out + [s[i]];
    }
    assert s[..|s|] == s;
  }

  // A nil list and an empty one print alike.
  method Value(a: Option<seq<string>>) returns (out: string)
    ensures out == Printed(if a.None? then [] else a.value)
  {
    if a.None? {
      return "{}";
    }
    out := "{";
    for i := 0 to |a.value|
      invariant out == ['{'] + Elements(a.value[..i])
    {
      assert a.value[..i + 1][..i] == a.value[..i];
      if i > 0 {
        out := out + ",";
      }
      var element := EscapeArrayElem(a.value[i]);
      out := out + "\"" + element + "\"";
    }
    assert a.value[..|a.value|] == a.value;
    out := out + "}";
  }

  // ---- Parsing ------------------------------------------------------------------------------------

  // The parser's state between two characters.
  datatype Reader = Reader(out: seq<string>, cur: string, inQuote: bool, escaped: bool)

  const START := Reader([], "", false, false)

  function Next(p: Reader, c: char): Reader {
    if p.escaped then p.(cur := p.cur + [c], escaped := false)
    else if c == '\\' then p.(escaped := true)
    else if c == '"' then p.(inQuote := !p.inQuote)
    else if c == ',' && !p.inQuote then p.(out := p.out + [p.cur], cur := "")
    else p.(cur := p.cur + [c])
  }

  function Consumed(p: Reader, s: string): Reader {
    if s == "" then p else Next(Consumed(p, s[..|s| - 1]), s[|s| - 1])
  }

  function Parsed(s: string): Option<seq<string>> {
    if |s| < 2 || s[0] != '{' || s[|s| - 1] != '}' then None
    else if |s| == 2 then Some([])
    else
      var p := Consumed(START, s[1..|s| - 1]);
      Some(p.out + [p.cur])
  }

  method ParsePGArray(s: string) returns (r: Option<seq<string>>)
    ensures r == Parsed(s)
    ensures r.None? <==> |s| < 2 || s[0] != '{' || s[|s| - 1] != '}'
    ensures s == "{}" ==> r == Some([])
  {
    if |s| < 2 || s[0] != '{' || s[|s| - 1] != '}' {
      return None;
    }
    var body := s[1..|s| - 1];
    if |body| == 0 {
      return Some([]);
    }
    var out: seq<string>, cur: string, inQuote, escaped := [], "", false, false;
    for i := 0 to |body|
      invariant Reader(out, cur, inQuote, escaped) == Consumed(START, body[..i])
    {
      assert body[..i + 1][..i] == body[..i];
      var c := body[i];
      if escaped {
        cur := cur + [c];
        escaped := false;
      } else if c == '\\' {
        escaped := true;
      } else if c == '"' {
        inQuote := !inQuote;
      } else if c == ',' && !inQuote {
        out := out + [cur];
        cur := "";
      } else {
        cur := cur + [c];
      }
    }
    assert body[..|body|] == body;
    return Some(out + [cur]);
  }

  // ---- Parsing undoes printing ------------------------------------------------------------------

  lemma {:induction false} ConsumedConcat(p: Reader, a: string, b: string)
    ensures Consumed(p, a + b) == Consumed(Consumed(p, a), b)
  {
    if b == "" {
      assert a + b == a;
    } else {
      ConsumedConcat(p, a, b[..|b| - 1]);
      assert (a + b)[..|a + b| - 1] == a + b[..|b| - 1];
    }
  }

  lemma ConsumedOne(p: Reader, c: char)
    ensures Consumed(p, [c]) == Next(p, c)
  {
  }

  // Inside quotes an escaped string is read back as itself, whatever it holds.
  lemma {:induction false} EscapedReadsBack(p: Reader, s: string)
    requires p.inQuote && !p.escaped
    ensures Consumed(p, Escaped(s)) == p.(cur := p.cur + s)
  {
    if s != "" {
      var front, c := s[..|s| - 1], s[|s| - 1];
      EscapedReadsBack(p, front);
      var q := p.(cur := p.cur + front);
      assert p.cur + front + [c] == p.cur + s;
      if c == '"' || c == '\\' {
        ConsumedConcat(p, Escaped(front), ['\\', c]);
        ConsumedConcat(q, ['\\'], [c]);
        assert ['\\', c] == ['\\'] + [c];
        ConsumedOne(q, '\\');
        ConsumedOne(q.(escaped := true), c);
      } else {
        ConsumedConcat(p, Escaped(front), [c]);
        ConsumedOne(q, c);
      }
    } else {
      assert p.cur + s == p.cur;
    }
  }

  lemma QuotedReadsBack(p: Reader, s: string)
    requires !p.inQuote && !p.escaped
    ensures Consumed(p, Quoted(s)) == p.(cur := p.cur + s)
  {
    var quoting := p.(inQuote := true);
    ConsumedConcat(p, ['"'] + Escaped(s), ['"']);
    ConsumedConcat(p, ['"'], Escaped(s));
    ConsumedOne(p, '"');
    EscapedReadsBack(quoting, s);
    ConsumedOne(quoting.(cur := p.cur + s), '"');
  }

  lemma {:induction false} ElementsReadBack(a: seq<string>)
    requires a != []
    ensures Consumed(START, Elements(a)) == Reader(a[..|a| - 1], a[|a| - 1], false, false)
  {
    var front, last := a[..|a| - 1], a[|a| - 1];
    if |a| == 1 {
      QuotedReadsBack(START, last);
      assert "" + last == last;
    } else {
      ElementsReadBack(front);
      var p := Consumed(START, Elements(front));
      ConsumedConcat(START, Elements(front) + [','], Quoted(last));
      ConsumedConcat(START, Elements(front), [',']);
      ConsumedOne(p, ',');
      var q := Reader(front, "", false, false);
      assert front[..|front| - 1] + [front[|front| - 1]] == front;
      QuotedReadsBack(q, last);
      assert "" + last == last;
    }
  }

  // Every list of strings comes back as it was: empty lists, empty elements, quotes,
  // backslashes, commas and braces included.
  lemma ParsingUndoesPrinting(a: seq<string>)
    ensures Parsed(Printed(a)) == Some(a)
  {
    var s := Printed(a);
    assert s[1..|s| - 1] == Elements(a);
    if a != [] {
      ElementsReadBack(a);
      assert a[..|a| - 1] + [a[|a| - 1]] == a;
    }
  }

  // ---- What the database prints itself -------------------------------------------------------------
  // An element without a quote, a backslash, a comma, a brace or a space is printed as it stands.

  predicate Plain(s: string) {
    s != "" && forall c :: c in s ==> c !in {'"', '\\', ',', '{', '}', ' '}
  }

  // Each element as it stands or in quotes, as `plain` says.
  function Mixed(a: seq<string>, plain: seq<bool>): string
    requires |plain| == |a|
  {
    if a == [] then ""
    else
      var n := |a| - 1;
      var element := if plain[n] then a[n] else Quoted(a[n]);
      if n == 0 then element else Mixed(a[..n], plain[..n]) + [','] + element
  }

  ghost predicate MayPrint(a: seq<string>, plain: seq<bool>) {
    |plain| == |a| && forall i :: 0 <= i < |a| && plain[i] ==> Plain(a[i])
  }

  lemma {:induction false} PlainReadsBack(p: Reader, s: string)
    requires !p.inQuote && !p.escaped && forall c :: c in s ==> c !in {'"', '\\', ','}
    ensures Consumed(p, s) == p.(cur := p.cur + s)
  {
    if s == "" {
      assert p.cur + s == p.cur;
    } else {
      var n := |s| - 1;
      forall c | c in s[..n] ensures c in s {
      }
      PlainReadsBack(p, s[..n]);
      assert s[n] in s;
      assert p.cur + s[..n] + [s[n]] == p.cur + s;
    }
  }

  lemma {:induction false} ElementReadsBack(p: Reader, s: string, plain: bool)
    requires !p.inQuote && !p.escaped && (plain ==> Plain(s))
    ensures Consumed(p, if plain then s else Quoted(s)) == p.(cur := p.cur + s)
  {
    if plain {
      PlainReadsBack(p, s);
    } else {
      QuotedReadsBack(p, s);
    }
  }

  lemma {:induction false} MixedReadsBack(a: seq<string>, plain: seq<bool>)
    requires a != [] && MayPrint(a, plain)
    ensures Consumed(START, Mixed(a, plain)) == Reader(a[..|a| - 1], a[|a| - 1], false, false)
    ensures Mixed(a, plain) != ""
  {
    var n := |a| - 1;
    var element := if plain[n] then a[n] else Quoted(a[n]);
    if n == 0 {
      ElementReadsBack(START, a[n], plain[n]);
      assert "" + a[n] == a[n];
    } else {
      MixedReadsBack(a[..n], plain[..n]);
      OneElementMore(a[..n], Mixed(a[..n], plain[..n]), a[n], plain[n]);
    }
  }

  lemma {:induction false} OneElementMore(front: seq<string>, printed: string, s: string, plain: bool)
    requires front != [] && (plain ==> Plain(s))
    requires Consumed(START, printed) == Reader(front[..|front| - 1], front[|front| - 1], false, false)
    ensures Consumed(START, printed + [','] + if plain then s else Quoted(s)) == Reader(front, s, false, false)
  {
    ConsumedConcat(START, printed + [','], if plain then s else Quoted(s));
    ConsumedConcat(START, printed, [',']);
    ConsumedOne(Consumed(START, printed), ',');
    assert front[..|front| - 1] + [front[|front| - 1]] == front;
    ElementReadsBack(Reader(front, "", false, false), s, plain);
    assert "" + s == s;
  }

  // Whichever elements the database quotes, the list comes back.
  lemma {:induction false} DatabaseFormReadsBack(a: seq<string>, plain: seq<bool>)
    requires MayPrint(a, plain)
    ensures Parsed(['{'] + Mixed(a, plain) + ['}']) == Some(a)
  {
    var s := ['{'] + Mixed(a, plain) + ['}'];
    assert s[1..|s| - 1] == Mixed(a, plain);
    if a != [] {
      MixedReadsBack(a, plain);
      assert a[..|a| - 1] + [a[|a| - 1]] == a;
    }
  }

  // So two lists are stored alike only if they are alike.
  lemma PrintingIsInjective(a: seq<string>, b: seq<string>)
    requires Printed(a) == Printed(b)
    ensures a == b
  {
    ParsingUndoesPrinting(a);
    ParsingUndoesPrinting(b);
  }
}
