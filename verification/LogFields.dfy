/** The log-line printer and the parser that reads its lines back
    (app/log_fields.py, tests/conftest.py). */
module LogFields {
  /** A logged value; numbers and dates come as the text they print as. */
  datatype Value = Null | Bool(b: bool) | Text(text: string) | Items(items: seq<Value>)

  type Field = (string, Value)

  // -- rendering ------------------------------------------------------------------------

  function Render(v: Value): string {
    match v
    case Null => "None"
    case Bool(b) => if b then "true" else "false"
    case Text(text) => text
    case Items(items) => RenderAll(items)
  }

  function RenderAll(items: seq<Value>): string {
    if items == [] then ""
    else if |items| == 1 then Render(items[0])
    else Render(items[0]) + "," + RenderAll(items[1..])
  }

  function Scrub(s: string, printable: char -> bool): string {
    if s == "" then "" else (if printable(s[0]) then [s[0]] else "") + Scrub(s[1..], printable)
  }

  /** Scrubbing goes character by character: a printable one stays, any other goes. */
  lemma {:induction false} ScrubExactly(s: string, c: char, printable: char -> bool)
    ensures Scrub("", printable) == ""
    ensures Scrub(s + [c], printable) == if printable(c) then Scrub(s, printable) + [c] else Scrub(s, printable)
  {
    if s == "" {
      assert s + [c] == [c] && [c][1..] == "";
    } else {
      ScrubExactly(s[1..], c, printable);
      var first, rest := if printable(s[0]) then [s[0]] else "", Scrub(s[1..], printable);
      assert Scrub(s + [c], printable) == first + Scrub(s[1..] + [c], printable) by {
        assert (s + [c])[1..] == s[1..] + [c];
      }
      assert first + (rest + [c]) == first + rest + [c];
    }
  }

  /** So a printable text comes through unchanged. */
  lemma {:induction false} PrintableStays(s: string, printable: char -> bool)
    requires forall c <- s :: printable(c)
    ensures Scrub(s, printable) == s
  {
    if s != "" {
      assert s[0] in s;
      PrintableStays(s[1..], printable);
    }
  }

  /** Items are printed in order with a comma between each two. */
  lemma {:induction false} RendersExactly(items: seq<Value>, v: Value)
    ensures Render(Items([])) == "" && Render(Items([v])) == Render(v)
    ensures items != [] ==> Render(Items(items + [v])) == Render(Items(items)) + "," + Render(v)
    ensures Render(Bool(true)) == "true" && Render(Bool(false)) == "false"
    ensures forall text :: Render(Text(text)) == text
    decreases |items|
  {
    if items != [] {
      assert (items + [v])[1..] == items[1..] + [v];
      RendersExactly(items[1..], v);
    }
  }

  predicate KeyChar(c: char) {
    'A' <= c <= 'Z' || 'a' <= c <= 'z' || '0' <= c <= '9' || c == '_' || c == '.'
  }

  function StripTrailing(key: string): string {
    if key != "" && key[|key| - 1] == '_' then StripTrailing(key[..|key| - 1]) else key
  }

  /** What is left is the longest prefix that does not end in an underscore. */
  lemma {:induction false} StripsUnderscores(key: string)
    ensures StripTrailing(key) <= key
    ensures var r := StripTrailing(key); r == "" || r[|r| - 1] != '_'
    ensures forall i :: |StripTrailing(key)| <= i < |key| ==> key[i] == '_'
  {
    if key != "" && key[|key| - 1] == '_' {
      StripsUnderscores(key[..|key| - 1]);
    }
  }

  function Normal(key: string): (r: string)
    ensures forall c <- r :: KeyChar(c)
  {
    var stripped := StripTrailing(key);
    seq(|stripped|, i requires 0 <= i < |stripped| => if KeyChar(stripped[i]) then stripped[i] else '_')
  }

  /** A key's letters, digits, underscores and dots stay, underscores at its end excepted;
      anything else becomes an underscore. */
  lemma NormalExactly(key: string, i: nat)
    requires i < |StripTrailing(key)| && i < |key|
    ensures |Normal(key)| == |StripTrailing(key)|
    ensures var c := key[i];
      var stays := 'a' <= c <= 'z' || 'A' <= c <= 'Z' || '0' <= c <= '9' || c in "_.";
      Normal(key)[i] == if stays then c else '_'
  {
    StripsUnderscores(key);
  }

  function Replace(s: string, c: char, with: string): string {
    if s == "" then "" else (if s[0] == c then with else [s[0]]) + Replace(s[1..], c, with)
  }

  function Escape(s: string): string {
    Replace(Replace(s, '\\', "\\\\"), '"', "\\\"")
  }

  predicate NeedsQuoting(s: string) {
    ' ' in s || '=' in s || '"' in s
  }

  function Quoted(value: string): string {
    "\"" + Escape(value) + "\""
  }

  /** One field as the line carries it; the value is scrubbed already. */
  function Part(key: string, value: string): string {
    if value == "" || NeedsQuoting(value) then key + "=" + Quoted(value) else key + "=" + value
  }

  /** A value is quoted exactly when it is empty or holds a space, an equals sign or a quote. */
  lemma QuotedExactly(key: string, value: string)
    ensures Part(key, value) ==
      if value != "" && forall c <- value :: c != ' ' && c != '=' && c != '"' then key + "=" + value
      else key + "=" + "\"" + Escape(value) + "\""
  {
    assert key + "=" + Quoted(value) == key + "=" + "\"" + Escape(value) + "\"";
  }

  predicate Omitted(f: Field) {
    f.1.Null? || Render(f.1) == ""
  }

  function Parts(fields: seq<Field>, printable: char -> bool): seq<string> {
    if fields == [] then [] else
    var last := fields[|fields| - 1];
    Parts(fields[..|fields| - 1], printable)
    + if Omitted(last) then [] else [Part(Normal(last.0), Scrub(Render(last.1), printable))]
  }

  function Join(parts: seq<string>): string {
    if parts == [] then ""
    else if |parts| == 1 then parts[0]
    else parts[0] + " " + Join(parts[1..])
  }

  function Line(fields: seq<Field>, printable: char -> bool): string {
    Join(Parts(fields, printable))
  }

  method Kv(fields: seq<Field>, printable: char -> bool) returns (line: string)
    ensures line == Line(fields, printable)
  {
    var parts := [];
    for i := 0 to |fields|
      invariant parts == Parts(fields[..i], printable)
    {
      assert fields[..i + 1][..i] == fields[..i];
      var value := fields[i].1;
      if value.Null? {
        continue;
      }
      var key := Normal(fields[i].0);
      var rendered := Render(value);
      if rendered == "" {
        continue;
      }
      var scrubbed := Scrub(rendered, printable);
      if scrubbed == "" {
        assert Quoted("") == "\"\"";
        parts := parts + [key + "=" + "\"\""];
        continue;
      }
      if NeedsQuoting(scrubbed) {
        parts := parts + [key + "=" + ("\"" + Escape(scrubbed) + "\"")];
      } else {
        parts := parts + [key + "=" + scrubbed];
      }
    }
    assert fields[..|fields|] == fields;
    line := Join(parts);
  }

  // -- parsing --------------------------------------------------------------------------------

  /** The first position from `i` on that holds `=` or a space. */
  function KeyEnd(m: string, i: nat): (k: nat)
    requires i <= |m|
    ensures i <= k <= |m|
    decreases |m| - i
  {
    if i == |m| || m[i] == '=' || m[i] == ' ' then i else KeyEnd(m, i + 1)
  }

  function SpaceEnd(m: string, i: nat): (k: nat)
    requires i <= |m|
    ensures i <= k <= |m|
    decreases |m| - i
  {
    if i == |m| || m[i] == ' ' then i else SpaceEnd(m, i + 1)
  }

  /** How many characters one character of a quoted value takes up. */
  function Width(m: string, i: nat): nat
    requires i < |m|
  {
    if m[i] == '\\' && i + 1 < |m| then 2 else 1
  }

  /** The text up to the closing quote, escapes undone. */
  function QuotedValue(m: string, i: nat): string
    decreases |m| - i
  {
    if i >= |m| || m[i] == '"' then "" else
    [m[i + Width(m, i) - 1]] + QuotedValue(m, i + Width(m, i))
  }

  /** Where to go on after the closing quote. */
  function QuoteEnd(m: string, i: nat): (k: nat)
    ensures k > i
    decreases |m| - i
  {
    if i >= |m| || m[i] == '"' then i + 1 else QuoteEnd(m, i + Width(m, i))
  }

  function Parse(m: string, i: nat, fields: map<string, string>): map<string, string>
    decreases |m| - i
  {
    if i >= |m| then fields
    else if m[i] == ' ' then Parse(m, i + 1, fields)
    else
      var k := KeyEnd(m, i);
      if k == |m| then fields
      else if m[k] != '=' then Parse(m, k + 1, fields)
      else if k + 1 < |m| && m[k + 1] == '"' then
        Parse(m, QuoteEnd(m, k + 2), fields[m[i..k] := QuotedValue(m, k + 2)])
      else
        Parse(m, SpaceEnd(m, k + 1), fields[m[i..k] := m[k + 1..SpaceEnd(m, k + 1)]])
  }

  lemma Regroup(read: string, c: char, rest: string)
    ensures read + ([c] + rest) == read + [c] + rest
  {
  }

  /** `value` is what the quoted text holds between two positions. */
  ghost predicate ReadUpTo(m: string, from: nat, i: nat, value: string) {
    value + QuotedValue(m, i) == QuotedValue(m, from) && QuoteEnd(m, i) == QuoteEnd(m, from)
  }

  lemma UnquotedSoFar(m: string, from: nat, i: nat, value: string)
    requires i < |m| && m[i] != '"' && ReadUpTo(m, from, i, value)
    ensures ReadUpTo(m, from, i + Width(m, i), value + [m[i + Width(m, i) - 1]])
  {
    Regroup(value, m[i + Width(m, i) - 1], QuotedValue(m, i + Width(m, i)));
  }

  method ReadQuoted(message: string, from: nat) returns (value: string, i: nat)
    requires from <= |message|
    ensures value == QuotedValue(message, from) && i == QuoteEnd(message, from)
  {
    i, value := from, "";
    while i < |message| && message[i] != '"'
      invariant from <= i <= |message|
      invariant ReadUpTo(message, from, i, value)
    {
      UnquotedSoFar(message, from, i, value);
      if message[i] == '\\' && i + 1 < |message| {
        i := i + 1;
      }
      value := value + [message[i]];
      i := i + 1;
    }
    i := i + 1;
  }

  method ReadBare(message: string, from: nat) returns (value: string, i: nat)
    requires from <= |message|
    ensures i == SpaceEnd(message, from) && value == message[from..i]
  {
    i := from;
    while i < |message| && message[i] != ' '
      invariant from <= i <= |message|
      invariant SpaceEnd(message, i) == SpaceEnd(message, from)
    {
      i := i + 1;
    }
    value := message[from..i];
  }

  method SkipKey(message: string, start: nat) returns (i: nat)
    requires start <= |message|
    ensures i == KeyEnd(message, start)
  {
    i := start;
    while i < |message| && message[i] != '=' && message[i] != ' '
      invariant start <= i <= |message|
      invariant KeyEnd(message, i) == KeyEnd(message, start)
    {
      i := i + 1;
    }
  }

  method KvFields(message: string) returns (fields: map<string, string>)
    ensures fields == Parse(message, 0, map[])
  {
    fields := map[];
    var i, n := 0, |message|;
    while i < n
      invariant 0 <= i
      invariant Parse(message, i, fields) == Parse(message, 0, map[])
      decreases n - i
    {
      while i < n && message[i] == ' '
        invariant 0 <= i <= n
        invariant Parse(message, i, fields) == Parse(message, 0, map[])
      {
        i := i + 1;
      }
      var start := i;
      i := SkipKey(message, start);
      if i >= n || message[i] != '=' {
        i := i + 1;
        continue;
      }
      var key := message[start..i];
      i := i + 1;
      var value;
      if i < n && message[i] == '"' {
        value, i := ReadQuoted(message, i + 1);
      } else {
        value, i := ReadBare(message, i);
      }
      fields := fields[key := value];
    }
  }

  // -- reading back what was printed ------------------------------------------------------------------

  lemma {:induction false} ReplaceConcat(a: string, b: string, c: char, with: string)
    ensures Replace(a + b, c, with) == Replace(a, c, with) + Replace(b, c, with)
  {
    if a == "" {
      assert a + b == b;
    } else {
      assert (a + b)[1..] == a[1..] + b;
      ReplaceConcat(a[1..], b, c, with);
    }
  }

  function EscapeChar(c: char): string {
    if c == '\\' then "\\\\" else if c == '"' then "\\\"" else [c]
  }

  lemma EscapeFirst(s: string)
    requires s != ""
    ensures Escape(s) == EscapeChar(s[0]) + Escape(s[1..])
  {
    var first := if s[0] == '\\' then "\\\\" else [s[0]];
    ReplaceConcat(first, Replace(s[1..], '\\', "\\\\"), '"', "\\\"");
    assert first[1..] == if s[0] == '\\' then "\\" else "";
    assert Replace(first, '"', "\\\"") == EscapeChar(s[0]) by {
      if s[0] == '\\' {
        assert first[1..][1..] == "";
      }
    }
  }

  /** The text `part` stands in `m` from position `i` on. */
  ghost predicate Has(m: string, i: nat, part: string) {
    i + |part| <= |m| && m[i..i + |part|] == part
  }

  lemma HasBoth(m: string, i: nat, a: string, b: string)
    requires Has(m, i, a + b)
    ensures Has(m, i, a) && Has(m, i + |a|, b)
  {
    assert m[i..i + |a|] == (a + b)[..|a|] == a;
    assert m[i + |a|..i + |a| + |b|] == (a + b)[|a|..] == b;
  }

  lemma HasFirst(m: string, i: nat, part: string)
    requires Has(m, i, part) && part != ""
    ensures m[i] == part[0]
  {
    assert m[i] == m[i..i + |part|][0];
  }

  /** Unquoting undoes escaping, whatever the text and whatever follows. */
  lemma {:induction false} UnquoteEscape(m: string, i: nat, s: string)
    requires Has(m, i, Escape(s)) && Has(m, i + |Escape(s)|, "\"")
    ensures QuotedValue(m, i) == s && QuoteEnd(m, i) == i + |Escape(s)| + 1
    decreases |s|
  {
    HasFirst(m, i + |Escape(s)|, "\"");
    if s != "" {
      var first := EscapeChar(s[0]);
      EscapeFirst(s);
      HasBoth(m, i, first, Escape(s[1..]));
      HasFirst(m, i, first);
      if |first| == 2 {
        assert m[i + 1] == m[i..i + 2][1] == first[1];
      }
      UnquoteEscape(m, i + |first|, s[1..]);
      assert s == [s[0]] + s[1..];
    }
  }

  lemma {:induction false} KeyEndAt(m: string, i: nat, k: nat)
    requires i <= k <= |m| && (k == |m| || m[k] == '=' || m[k] == ' ')
    requires forall j :: i <= j < k ==> KeyChar(m[j])
    ensures KeyEnd(m, i) == k
    decreases k - i
  {
    if i < k {
      KeyEndAt(m, i + 1, k);
    }
  }

  lemma {:induction false} SpaceEndAt(m: string, i: nat, k: nat)
    requires i <= k <= |m| && (k == |m| || m[k] == ' ')
    requires forall j :: i <= j < k ==> m[j] != ' '
    ensures SpaceEnd(m, i) == k
    decreases k - i
  {
    if i < k {
      SpaceEndAt(m, i + 1, k);
    }
  }

  predicate EndsField(m: string, i: nat) {
    i >= |m| || m[i] == ' '
  }

  lemma KeyAt(m: string, i: nat, key: string)
    requires Has(m, i, key) && Has(m, i + |key|, "=") && forall c <- key :: KeyChar(c)
    ensures KeyEnd(m, i) == i + |key| && m[i + |key|] == '=' && m[i] != ' ' && m[i..i + |key|] == key
  {
    HasFirst(m, i + |key|, "=");
    forall j | i <= j < i + |key| ensures KeyChar(m[j]) {
      assert m[j] == m[i..i + |key|][j - i] && m[j] in key;
    }
    KeyEndAt(m, i, i + |key|);
  }

  lemma ParseQuoted(m: string, i: nat, key: string, value: string, fields: map<string, string>)
    requires forall c <- key :: KeyChar(c)
    requires Has(m, i, key) && Has(m, i + |key|, "=") && Has(m, i + |key| + 1, "\"")
    requires Has(m, i + |key| + 2, Escape(value)) && Has(m, i + |key| + 2 + |Escape(value)|, "\"")
    ensures Parse(m, i, fields) == Parse(m, i + |key| + |Escape(value)| + 3, fields[key := value])
  {
    QuotedFacts(m, i, key, value);
    ParseQuotedAt(m, i, i + |key|, key, value, i + |key| + |Escape(value)| + 3, fields);
  }

  lemma QuotedFacts(m: string, i: nat, key: string, value: string)
    requires forall c <- key :: KeyChar(c)
    requires Has(m, i, key) && Has(m, i + |key|, "=") && Has(m, i + |key| + 1, "\"")
    requires Has(m, i + |key| + 2, Escape(value)) && Has(m, i + |key| + 2 + |Escape(value)|, "\"")
    ensures i + |key| + 1 < |m| && KeyEnd(m, i) == i + |key| && m[i..i + |key|] == key
    ensures m[i] != ' ' && m[i + |key|] == '=' && m[i + |key| + 1] == '"'
    ensures QuotedValue(m, i + |key| + 2) == value && QuoteEnd(m, i + |key| + 2) == i + |key| + |Escape(value)| + 3
  {
    KeyAt(m, i, key);
    HasFirst(m, i + |key| + 1, "\"");
    UnquoteEscape(m, i + |key| + 2, value);
  }

  lemma QuotedLayout(m: string, i: nat, key: string, value: string)
    requires Has(m, i, key + "=" + Quoted(value))
    ensures Has(m, i, key) && Has(m, i + |key|, "=") && Has(m, i + |key| + 1, "\"")
    ensures Has(m, i + |key| + 2, Escape(value)) && Has(m, i + |key| + 2 + |Escape(value)|, "\"")
    ensures |key + "=" + Quoted(value)| == |key| + |Escape(value)| + 3
  {
    HasBoth(m, i, key + "=", Quoted(value));
    HasBoth(m, i, key, "=");
    HasBoth(m, i + |key| + 1, "\"" + Escape(value), "\"");
    HasBoth(m, i + |key| + 1, "\"", Escape(value));
  }

  lemma ParseQuotedAt(m: string, i: nat, k: nat, key: string, value: string, end: nat, fields: map<string, string>)
    requires i <= k && k + 1 < |m| && KeyEnd(m, i) == k && m[i] != ' ' && m[k] == '=' && m[k + 1] == '"'
    requires m[i..k] == key && QuotedValue(m, k + 2) == value && QuoteEnd(m, k + 2) == end
    ensures Parse(m, i, fields) == Parse(m, end, fields[key := value])
  {
  }

  lemma ParseBare(m: string, i: nat, key: string, value: string, fields: map<string, string>)
    requires forall c <- key :: KeyChar(c)
    requires value != "" && !NeedsQuoting(value) && EndsField(m, i + |key + "=" + value|)
    requires Has(m, i, key + "=" + value)
    ensures Parse(m, i, fields) == Parse(m, i + |key + "=" + value|, fields[key := value])
  {
    HasBoth(m, i, key + "=", value);
    HasBoth(m, i, key, "=");
    KeyAt(m, i, key);
    BareFacts(m, i + |key| + 1, value);
    ParseBareAt(m, i, i + |key|, key, value, i + |key| + 1 + |value|, fields);
  }

  lemma BareFacts(m: string, from: nat, value: string)
    requires Has(m, from, value) && value != "" && !NeedsQuoting(value) && EndsField(m, from + |value|)
    ensures from < |m| && m[from] != '"'
    ensures SpaceEnd(m, from) == from + |value| && m[from..from + |value|] == value
  {
    PlainText(value);
    HasFirst(m, from, value);
    forall j | from <= j < from + |value| ensures m[j] != ' ' {
      HasAt(m, from, value, j);
    }
    SpaceEndAt(m, from, from + |value|);
  }

  lemma PlainText(value: string)
    requires !NeedsQuoting(value)
    ensures forall j :: 0 <= j < |value| ==> value[j] != ' ' && value[j] != '"'
  {
    forall j | 0 <= j < |value| ensures value[j] != ' ' && value[j] != '"' {
      assert value[j] in value;
    }
  }

  lemma HasAt(m: string, i: nat, part: string, j: nat)
    requires Has(m, i, part) && i <= j < i + |part|
    ensures m[j] == part[j - i]
  {
    assert m[j] == m[i..i + |part|][j - i];
  }

  lemma ParseBareAt(m: string, i: nat, k: nat, key: string, value: string, end: nat, fields: map<string, string>)
    requires i <= k && k + 1 < |m| && KeyEnd(m, i) == k && m[i] != ' ' && m[k] == '=' && m[k + 1] != '"'
    requires m[i..k] == key && SpaceEnd(m, k + 1) == end && m[k + 1..end] == value
    ensures Parse(m, i, fields) == Parse(m, end, fields[key := value])
  {
  }

  lemma ParsePart(m: string, i: nat, key: string, value: string, fields: map<string, string>)
    requires forall c <- key :: KeyChar(c)
    requires Has(m, i, Part(key, value)) && EndsField(m, i + |Part(key, value)|)
    ensures Parse(m, i, fields) == Parse(m, i + |Part(key, value)|, fields[key := value])
  {
    if value == "" || NeedsQuoting(value) {
      QuotedLayout(m, i, key, value);
      ParseQuoted(m, i, key, value, fields);
    } else {
      ParseBare(m, i, key, value, fields);
    }
  }

  /** The fields of a line, as keys to scrubbed values; the later of two fields
      whose keys normalise alike wins. */
  function FieldMap(fields: seq<Field>, printable: char -> bool): map<string, string> {
    if fields == [] then map[] else
    var last := fields[|fields| - 1];
    var rest := FieldMap(fields[..|fields| - 1], printable);
    if Omitted(last) then rest else rest[Normal(last.0) := Scrub(Render(last.1), printable)]
  }

  lemma {:induction false} JoinMore(parts: seq<string>, part: string)
    ensures Join(parts + [part]) == if parts == [] then part else Join(parts) + " " + part
  {
    if |parts| > 0 {
      assert (parts + [part])[1..] == parts[1..] + [part];
      JoinMore(parts[1..], part);
      if |parts| == 1 {
        assert parts[1..] == [];
      }
    }
  }

  lemma {:induction false} NoParts(fields: seq<Field>, printable: char -> bool)
    requires Parts(fields, printable) == []
    ensures FieldMap(fields, printable) == map[]
  {
    if fields != [] {
      NoParts(fields[..|fields| - 1], printable);
    }
  }

  /** Parsing a text that begins with a line, up to the end of a field, reads the
      line's fields and goes on behind them. */
  lemma {:induction false} ParseLine(m: string, fields: seq<Field>, printable: char -> bool)
    requires Has(m, 0, Line(fields, printable)) && EndsField(m, |Line(fields, printable)|)
    ensures Parse(m, 0, map[]) == Parse(m, |Line(fields, printable)|, FieldMap(fields, printable))
    decreases |fields|
  {
    if fields != [] {
      var rest, last := fields[..|fields| - 1], fields[|fields| - 1];
      if Omitted(last) {
        assert Parts(fields, printable) == Parts(rest, printable);
        ParseLine(m, rest, printable);
      } else {
        var key, value := Normal(last.0), Scrub(Render(last.1), printable);
        assert Parts(fields, printable) == Parts(rest, printable) + [Part(key, value)];
        JoinMore(Parts(rest, printable), Part(key, value));
        if Parts(rest, printable) == [] {
          NoParts(rest, printable);
          ParsePart(m, 0, key, value, map[]);
        } else {
          ParseNext(m, Line(rest, printable), key, value, FieldMap(rest, printable));
          ParseLine(m, rest, printable);
        }
      }
    }
  }

  lemma ParseNext(m: string, head: string, key: string, value: string, fields: map<string, string>)
    requires forall c <- key :: KeyChar(c)
    requires Has(m, 0, head + " " + Part(key, value)) && EndsField(m, |head + " " + Part(key, value)|)
    ensures Has(m, 0, head) && EndsField(m, |head|)
    ensures Parse(m, |head|, fields) == Parse(m, |head + " " + Part(key, value)|, fields[key := value])
  {
    AfterHead(m, head, Part(key, value));
    ParsePart(m, |head| + 1, key, value, fields);
    ParseSpace(m, |head|, fields);
  }

  lemma AfterHead(m: string, head: string, part: string)
    requires Has(m, 0, head + " " + part)
    ensures Has(m, 0, head) && |head| < |m| && m[|head|] == ' ' && Has(m, |head| + 1, part)
    ensures |head + " " + part| == |head| + 1 + |part|
  {
    HasBoth(m, 0, head + " ", part);
    HasBoth(m, 0, head, " ");
    HasFirst(m, |head|, " ");
  }

  lemma ParseSpace(m: string, i: nat, fields: map<string, string>)
    requires i < |m| && m[i] == ' '
    ensures Parse(m, i, fields) == Parse(m, i + 1, fields)
  {
  }

  /** What is printed is read back, for all fields and values. */
  lemma RoundTrip(fields: seq<Field>, printable: char -> bool)
    ensures Parse(Line(fields, printable), 0, map[]) == FieldMap(fields, printable)
  {
    var line := Line(fields, printable);
    assert line[0..0 + |line|] == line;
    ParseLine(line, fields, printable);
  }

  ghost predicate DistinctKeys(fields: seq<Field>) {
    forall i, j :: 0 <= i < j < |fields| ==> Normal(fields[i].0) != Normal(fields[j].0)
  }

  lemma {:induction false} FieldMapKeys(fields: seq<Field>, printable: char -> bool, key: string)
    ensures key in FieldMap(fields, printable) ==>
      exists i :: 0 <= i < |fields| && !Omitted(fields[i]) && Normal(fields[i].0) == key
  {
    if fields != [] && key in FieldMap(fields, printable) {
      var rest, last := fields[..|fields| - 1], fields[|fields| - 1];
      if Omitted(last) || Normal(last.0) != key {
        FieldMapKeys(rest, printable, key);
        var i :| 0 <= i < |rest| && !Omitted(rest[i]) && Normal(rest[i].0) == key;
        assert fields[i] == rest[i];
      } else {
        assert fields[|fields| - 1] == last;
      }
    }
  }

  lemma {:induction false} FieldMapAt(fields: seq<Field>, printable: char -> bool, i: nat)
    requires DistinctKeys(fields) && i < |fields| && !Omitted(fields[i])
    ensures Normal(fields[i].0) in FieldMap(fields, printable)
    ensures FieldMap(fields, printable)[Normal(fields[i].0)] == Scrub(Render(fields[i].1), printable)
  {
    var rest := fields[..|fields| - 1];
    if i < |fields| - 1 {
      FieldMapAt(rest, printable, i);
    }
  }

  /** With keys that normalise apart, the parser returns exactly the fields that
      were not omitted, each with its scrubbed value. */
  lemma EveryFieldReadsBack(fields: seq<Field>, printable: char -> bool, key: string)
    requires DistinctKeys(fields)
    ensures var read := Parse(Line(fields, printable), 0, map[]);
      && (key in read <==> exists i :: 0 <= i < |fields| && !Omitted(fields[i]) && Normal(fields[i].0) == key)
      && (forall i :: 0 <= i < |fields| && !Omitted(fields[i]) && Normal(fields[i].0) == key ==>
            key in read && read[key] == Scrub(Render(fields[i].1), printable))
  {
    RoundTrip(fields, printable);
    FieldMapKeys(fields, printable, key);
    forall i | 0 <= i < |fields| && !Omitted(fields[i]) && Normal(fields[i].0) == key
      ensures key in FieldMap(fields, printable) &&
        FieldMap(fields, printable)[key] == Scrub(Render(fields[i].1), printable)
    {
      FieldMapAt(fields, printable, i);
    }
  }

  /** So a field whose text is printable reads back as that very text. */
  lemma PrintableReadsBack(fields: seq<Field>, printable: char -> bool, i: nat)
    requires DistinctKeys(fields) && i < |fields| && fields[i].1 != Null && Render(fields[i].1) != ""
    requires forall c <- Render(fields[i].1) :: printable(c)
    ensures var read := Parse(Line(fields, printable), 0, map[]);
      Normal(fields[i].0) in read && read[Normal(fields[i].0)] == Render(fields[i].1)
  {
    EveryFieldReadsBack(fields, printable, Normal(fields[i].0));
    PrintableStays(Render(fields[i].1), printable);
  }

  // -- no value can forge a line -----------------------------------------------------------------------

  predicate Safe(c: char, printable: char -> bool) {
    printable(c) || KeyChar(c) || c == '=' || c == '"' || c == '\\' || c == ' '
  }

  predicate AllSafe(s: string, printable: char -> bool) {
    forall c <- s :: Safe(c, printable)
  }

  lemma {:induction false} ScrubSafe(s: string, printable: char -> bool)
    ensures forall c <- Scrub(s, printable) :: printable(c) && c in s
  {
    if s != "" {
      ScrubSafe(s[1..], printable);
    }
  }

  lemma {:induction false} EscapeSafe(s: string, printable: char -> bool)
    requires AllSafe(s, printable)
    ensures AllSafe(Escape(s), printable)
  {
    if s != "" {
      EscapeFirst(s);
      EscapeSafe(s[1..], printable);
    }
  }

  lemma PartSafe(key: string, value: string, printable: char -> bool)
    requires (forall c <- key :: KeyChar(c)) && forall c <- value :: printable(c)
    ensures AllSafe(Part(key, value), printable)
  {
    EscapeSafe(value, printable);
  }

  /** Every character of a line is printable or one of the grammar's own: no
      value, however hostile, puts a line break or a control character in it. */
  lemma {:induction false} NoInjection(fields: seq<Field>, printable: char -> bool)
    ensures AllSafe(Line(fields, printable), printable)
    ensures forall c <- Line(fields, printable) ::
      printable(c) || 'a' <= c <= 'z' || 'A' <= c <= 'Z' || '0' <= c <= '9' || c in "_.=\"\\ "
  {
    if fields != [] {
      var rest, last := fields[..|fields| - 1], fields[|fields| - 1];
      NoInjection(rest, printable);
      if Omitted(last) {
        assert Parts(fields, printable) == Parts(rest, printable);
      } else {
        ScrubSafe(Render(last.1), printable);
        PartSafe(Normal(last.0), Scrub(Render(last.1), printable), printable);
        JoinMore(Parts(rest, printable), Part(Normal(last.0), Scrub(Render(last.1), printable)));
      }
    }
  }
}
