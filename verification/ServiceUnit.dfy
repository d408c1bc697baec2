/** Quoting the command line of a service unit, and reading it back. */
module ServiceUnit {
  import opened Options
  import opened Splitting

  // ----- The printer -----

  /** value.replace(c, by) */
  function Replace(s: string, c: char, text: string): string {
    if s == "" then "" else (if s[0] == c then text else [s[0]]) + Replace(s[1..], c, text)
  }

  predicate Control(c: char) {
    c as int < 32 || c as int == 127
  }

  predicate Plain(value: string) {
    value != "" && forall i :: 0 <= i < |value| ==> !Control(value[i])
  }

  function Argument(value: string): Option<string> {
    if !Plain(value) then None
    else Some("\"" + Replace(Replace(Replace(Replace(value, '\\', "\\\\"), '"', "\\\""), '%', "%%"), '$', "$$") + "\"")
  }

  /** The arguments joined by single spaces; the first that cannot be quoted raises. */
  function Command(values: seq<string>): Option<string> {
    if values == [] then Some("")
    else
      var first, rest := Argument(values[0]), Command(values[1..]);
      if first.None? || rest.None? then None
      else if |values| == 1 then first
      else Some(first.value + " " + rest.value)
  }

  // ----- The reader -----

  /** One word of a command line, up to a space outside quotes, and the rest. A backslash escapes a backslash or a
      quote; any other escape is not read. */
  function Word(line: string, quoted: bool): (r: Option<(string, string)>)
    ensures r.Some? ==> |r.value.1| <= |line|
    ensures r.Some? && line != "" && (quoted || line[0] != ' ') ==> |r.value.1| < |line|
    ensures r.Some? && r.value.1 != "" ==> r.value.1[0] == ' '
    decreases |line|
  {
    if line == "" then if quoted then None else Some(("", ""))
    else if line[0] == '"' then Word(line[1..], !quoted)
    else if line[0] == ' ' && !quoted then Some(("", line))
    else if line[0] == '\\' then
      if |line| < 2 || !(line[1] == '\\' || line[1] == '"') then None else Prepend(line[1], Word(line[2..], quoted))
    else Prepend(line[0], Word(line[1..], quoted))
  }

  function Prepend(c: char, r: Option<(string, string)>): Option<(string, string)> {
    if r.None? then None else Some(([c] + r.value.0, r.value.1))
  }

  /** Doubled marks stand for themselves; a single one would be a specifier or a variable, which is not read. */
  function Undouble(word: string, mark: char): Option<string>
    decreases |word|
  {
    if word == "" then Some("")
    else if word[0] == mark then
      if |word| < 2 || word[1] != mark then None else Push(mark, Undouble(word[2..], mark))
    else Push(word[0], Undouble(word[1..], mark))
  }

  function Push(c: char, r: Option<string>): Option<string> {
    if r.None? then None else Some([c] + r.value)
  }

  /** Specifiers are expanded before variables. */
  function Expand(word: string): Option<string> {
    var once := Undouble(word, '%');
    if once.None? then None else Undouble(once.value, '$')
  }

  function Read(line: string): Option<seq<string>>
    decreases |line|
  {
    if line == "" then Some([])
    else if line[0] == ' ' then Read(line[1..])
    else
      match Word(line, false)
      case None => None
      case Some((word, rest)) =>
        var value, more := Expand(word), Read(rest);
        if value.None? || more.None? then None else Some([value.value] + more.value)
  }

  // ----- Four replacements are one escape per character -----

  function Escape(c: char): string {
    if c == '\\' then "\\\\" else if c == '"' then "\\\"" else if c == '%' then "%%" else if c == '$' then "$$" else [c]
  }

  function Escaped(value: string): string {
    if value == "" then "" else Escape(value[0]) + Escaped(value[1..])
  }

  lemma {:induction false} ReplaceAppend(a: string, b: string, c: char, text: string)
    ensures Replace(a + b, c, text) == Replace(a, c, text) + Replace(b, c, text)
  {
    if a == "" {
      assert a + b == b;
    } else {
      assert (a + b)[1..] == a[1..] + b;
      ReplaceAppend(a[1..], b, c, text);
    }
  }

  function Four(value: string): string {
    Replace(Replace(Replace(Replace(value, '\\', "\\\\"), '"', "\\\""), '%', "%%"), '$', "$$")
  }

  lemma FourAppend(a: string, b: string)
    ensures Four(a + b) == Four(a) + Four(b)
  {
    hide Replace;
    ReplaceAppend(a, b, '\\', "\\\\");
    var a1, b1 := Replace(a, '\\', "\\\\"), Replace(b, '\\', "\\\\");
    ReplaceAppend(a1, b1, '"', "\\\"");
    var a2, b2 := Replace(a1, '"', "\\\""), Replace(b1, '"', "\\\"");
    ReplaceAppend(a2, b2, '%', "%%");
    ReplaceAppend(Replace(a2, '%', "%%"), Replace(b2, '%', "%%"), '$', "$$");
  }

  lemma ReplaceOne(x: char, c: char, text: string)
    ensures Replace([x], c, text) == if x == c then text else [x]
  {
    assert [x][1..] == "";
  }

  lemma ReplaceTwo(x: char, y: char, c: char, text: string)
    requires x != c && y != c
    ensures Replace([x, y], c, text) == [x, y]
  {
    assert [x, y][1..] == [y];
    ReplaceOne(y, c, text);
  }

  lemma FourOne(x: char)
    ensures Four([x]) == Escape(x)
  {
    hide Replace;
    ReplaceOne(x, '\\', "\\\\");
    ReplaceOne(x, '"', "\\\"");
    ReplaceOne(x, '%', "%%");
    ReplaceOne(x, '$', "$$");
    if x == '\\' {
      assert "\\\\" == ['\\', '\\'];
      ReplaceTwo('\\', '\\', '"', "\\\"");
      ReplaceTwo('\\', '\\', '%', "%%");
      ReplaceTwo('\\', '\\', '$', "$$");
    } else if x == '"' {
      assert "\\\"" == ['\\', '"'];
      ReplaceTwo('\\', '"', '%', "%%");
      ReplaceTwo('\\', '"', '$', "$$");
    } else if x == '%' {
      assert "%%" == ['%', '%'];
      ReplaceTwo('%', '%', '$', "$$");
    }
  }

  /** No replacement touches what an earlier one put in. */
  lemma {:induction false} ReplacementsAreOneEscape(value: string)
    ensures Four(value) == Escaped(value)
  {
    hide Four, Escape;
    if value == "" {
      FourNone();
    } else {
      assert value == [value[0]] + value[1..];
      FourAppend([value[0]], value[1..]);
      FourOne(value[0]);
      ReplacementsAreOneEscape(value[1..]);
    }
  }

  lemma FourNone()
    ensures Four("") == ""
  {
  }

  // ----- Reading back -----

  function Doubled(value: string): string {
    if value == "" then ""
    else (if value[0] == '%' || value[0] == '$' then [value[0], value[0]] else [value[0]]) + Doubled(value[1..])
  }

  function DollarsDoubled(value: string): string {
    if value == "" then ""
    else (if value[0] == '$' then "$$" else [value[0]]) + DollarsDoubled(value[1..])
  }

  /** An escaped character is read as itself, or as its double. */
  lemma WordEscape(c: char, more: string)
    ensures Word(Escape(c) + more, true)
         == if c == '%' || c == '$' then Prepend(c, Prepend(c, Word(more, true))) else Prepend(c, Word(more, true))
  {
    var line := Escape(c) + more;
    if c == '\\' || c == '"' {
      assert line[2..] == more && line[0] == '\\' && line[1] == c;
    } else if c == '%' || c == '$' {
      assert line[0] == c && line[1..][0] == c && line[1..][1..] == more;
      assert Word(line[1..], true) == Prepend(c, Word(more, true));
    } else {
      assert line[0] == c && line[1..] == more;
    }
  }

  /** Reading an escaped value inside quotes stops exactly at its closing quote. */
  lemma {:induction false} QuotedWord(value: string, tail: string)
    requires tail == "" || tail[0] == ' '
    ensures Word(Escaped(value) + "\"" + tail, true) == Some((Doubled(value), tail))
  {
    hide Escape;
    var line := Escaped(value) + "\"" + tail;
    if value == "" {
      assert line[1..] == tail;
    } else {
      hide Word;
      var c, more := value[0], Escaped(value[1..]) + "\"" + tail;
      QuotedWord(value[1..], tail);
      assert line == Escape(c) + more;
      WordEscape(c, more);
      assert [c] + ([c] + Doubled(value[1..])) == [c, c] + Doubled(value[1..]);
    }
  }

  lemma {:induction false} UndoublePercent(value: string)
    ensures Undouble(Doubled(value), '%') == Some(DollarsDoubled(value))
  {
    if value != "" {
      var c, word, rest := value[0], Doubled(value), Doubled(value[1..]);
      UndoublePercent(value[1..]);
      if c == '%' {
        assert word[0] == '%' && word[1] == '%' && word[2..] == rest;
      } else if c == '$' {
        assert word[0] == '$' && word[1..] == ['$'] + rest && (['$'] + rest)[1..] == rest;
        assert Undouble(['$'] + rest, '%') == Push('$', Undouble(rest, '%'));
        assert ['$'] + (['$'] + DollarsDoubled(value[1..])) == "$$" + DollarsDoubled(value[1..]);
      } else {
        assert word[0] == c && word[1..] == rest;
      }
    }
  }

  lemma {:induction false} UndoubleDollar(value: string)
    ensures Undouble(DollarsDoubled(value), '$') == Some(value)
  {
    if value != "" {
      var c, word, rest := value[0], DollarsDoubled(value), DollarsDoubled(value[1..]);
      UndoubleDollar(value[1..]);
      assert value == [c] + value[1..];
      if c == '$' {
        assert word[0] == '$' && word[1] == '$' && word[2..] == rest;
      } else {
        assert word[0] == c && word[1..] == rest;
      }
    }
  }

  /** One quoted argument is read as one word, which expands to the value. */
  lemma ArgumentReads(value: string, tail: string)
    requires Plain(value) && (tail == "" || tail[0] == ' ')
    ensures var line := Argument(value).value + tail;
            line != "" && line[0] == '"' && Word(line, false) == Some((Doubled(value), tail))
    ensures Expand(Doubled(value)) == Some(value)
  {
    hide Replace, Undouble, Doubled;
    ReplacementsAreOneEscape(value);
    QuotedWord(value, tail);
    var line, inner := Argument(value).value + tail, Escaped(value) + "\"";
    assert Argument(value).value == "\"" + inner;
    assert line[1..] == inner + tail;
    UndoublePercent(value);
    UndoubleDollar(value);
  }

  /** Not empty, and no character below the space or the delete character. */
  predicate Quotable(value: string) {
    value != "" && forall c :: c in value ==> ' ' <= c && c != '\U{7F}'
  }

  lemma PlainIs(value: string)
    ensures Plain(value) <==> Quotable(value)
  {
    assert forall i :: 0 <= i < |value| ==> value[i] in value;
  }

  /** The text of a command line: the arguments, escaped and in quotes, with single spaces between them. */
  lemma {:induction false} CommandText(values: seq<string>, quoted: seq<string>)
    requires Command(values).Some? && |quoted| == |values|
    requires forall i :: 0 <= i < |values| ==> quoted[i] == "\"" + Escaped(values[i]) + "\""
    ensures Command(values).value == JoinWith(quoted, ' ')
  {
    hide Replace, Escaped, Plain;
    if values != [] {
      ReplacementsAreOneEscape(values[0]);
      CommandText(values[1..], quoted[1..]);
    }
  }

  /** A command line is refused exactly when some argument is empty or holds a control character; otherwise reading it
      returns the arguments, all of them and nothing else. */
  lemma CommandRoundTrip(values: seq<string>)
    ensures Command(values).Some? <==> forall i :: 0 <= i < |values| ==> Quotable(values[i])
    ensures Command(values).Some? ==> Read(Command(values).value) == Some(values)
  {
    hide Plain, Quotable, Command, Read;
    CommandReads(values);
    forall i | 0 <= i < |values|
      ensures Plain(values[i]) <==> Quotable(values[i])
    {
      PlainIs(values[i]);
    }
  }

  lemma {:induction false} CommandReads(values: seq<string>)
    ensures Command(values).Some? <==> forall i :: 0 <= i < |values| ==> Plain(values[i])
    ensures Command(values).Some? ==> Read(Command(values).value) == Some(values)
  {
    hide Plain, Argument, Word, Expand;
    if values != [] {
      var first, rest := values[0], values[1..];
      CommandReads(rest);
      assert forall i :: 0 <= i < |rest| ==> values[i + 1] == rest[i];
      ArgumentOk(first);
      if Command(values).Some? {
        assert values == [first] + rest;
        if rest == [] {
          ReadOne(first, "");
          assert Argument(first).value + "" == Argument(first).value;
          assert |values| == 1;
        } else {
          var tail := " " + Command(rest).value;
          assert tail[1..] == Command(rest).value;
          ReadOne(first, tail);
          assert Command(values).value == Argument(first).value + tail;
        }
      }
    }
  }

  lemma ReadOne(value: string, tail: string)
    requires Plain(value) && (tail == "" || tail[0] == ' ') && Read(tail).Some?
    ensures Read(Argument(value).value + tail) == Some([value] + Read(tail).value)
  {
    hide Plain, Argument, Word, Expand, Doubled;
    ArgumentOk(value);
    ArgumentReads(value, tail);
    var line := Argument(value).value + tail;
    assert Word(line, false).value.0 == Doubled(value) && Word(line, false).value.1 == tail;
    assert line != "" && line[0] != ' ';
  }

  lemma ArgumentOk(value: string)
    ensures Argument(value).Some? <==> Plain(value)
  {
  }
}
