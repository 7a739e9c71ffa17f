/** SQL quoting: what is printed between quotes is read back by the lexer, in lists as well. */
module Quoting {
  import opened Rows

  /** str.replace of a quote by two. */
  function Doubled(quote: char, text: string): string {
    if text == [] then []
    else (if text[0] == quote then [quote, quote] else [text[0]]) + Doubled(quote, text[1..])
  }

  function Quote(quote: char, text: string): string {
    [quote] + Doubled(quote, text) + [quote]
  }

  function QuoteStrLiteral(value: string): string {
    Quote('\'', value)
  }

  /** The SQL lexer inside quotes: two quotes stand for one, a single one ends the token. */
  function LexBody(quote: char, text: string): Option<(string, string)> {
    if text == [] then None
    else if text[0] != quote then
      var rest := LexBody(quote, text[1..]);
      if rest.None? then None else Some(([text[0]] + rest.value.0, rest.value.1))
    else if |text| > 1 && text[1] == quote then
      var rest := LexBody(quote, text[2..]);
      if rest.None? then None else Some(([quote] + rest.value.0, rest.value.1))
    else Some(([], text[1..]))
  }

  /** A quoted token at the front of a text: what it denotes and what follows. */
  function Lex(quote: char, text: string): Option<(string, string)> {
    if text == [] || text[0] != quote then None else LexBody(quote, text[1..])
  }

  lemma {:induction false} LexBodyReads(quote: char, text: string, suffix: string)
    requires suffix == [] || suffix[0] != quote
    ensures LexBody(quote, Doubled(quote, text) + [quote] + suffix) == Some((text, suffix))
  {
    var whole := Doubled(quote, text) + [quote] + suffix;
    if text == [] {
      assert whole == [quote] + suffix;
      assert whole[1..] == suffix;
    } else {
      var rest := Doubled(quote, text[1..]) + [quote] + suffix;
      LexBodyReads(quote, text[1..], suffix);
      if text[0] == quote {
        assert whole == [quote, quote] + rest;
        assert whole[2..] == rest;
      } else {
        assert whole == [text[0]] + rest;
        assert whole[1..] == rest;
      }
      assert [text[0]] + text[1..] == text;
    }
  }

  /** The token read at the front is no shorter a prefix of the text than its remainder leaves. */
  lemma {:induction false} LexBodyConsumes(quote: char, text: string)
    requires LexBody(quote, text).Some?
    ensures |LexBody(quote, text).value.1| < |text|
  {
    if text[0] != quote {
      LexBodyConsumes(quote, text[1..]);
    } else if |text| > 1 && text[1] == quote {
      LexBodyConsumes(quote, text[2..]);
    }
  }

  lemma {:induction false} LexBodyMerges(quote: char, text: string, suffix: string)
    requires suffix != [] && suffix[0] == quote
    ensures LexBody(quote, Doubled(quote, text) + [quote] + suffix) != Some((text, suffix))
  {
    var whole := Doubled(quote, text) + [quote] + suffix;
    if text == [] {
      assert whole == [quote] + suffix;
      assert whole[2..] == suffix[1..];
    } else {
      var rest := Doubled(quote, text[1..]) + [quote] + suffix;
      LexBodyMerges(quote, text[1..], suffix);
      if text[0] == quote {
        assert whole == [quote, quote] + rest;
        assert whole[2..] == rest;
      } else {
        assert whole == [text[0]] + rest;
        assert whole[1..] == rest;
      }
      var r := LexBody(quote, rest);
      if r.Some? && [text[0]] + r.value.0 == text {
        assert r.value.0 == text[1..] by {
          assert ([text[0]] + r.value.0)[1..] == r.value.0;
        }
      }
    }
  }

  /** A quoted text followed by anything reads back as itself exactly when no further quote follows. */
  lemma QuoteRoundTrip(quote: char, text: string, suffix: string)
    ensures Lex(quote, Quote(quote, text) + suffix) == Some((text, suffix)) <==> suffix == [] || suffix[0] != quote
  {
    var whole := Quote(quote, text) + suffix;
    assert whole[1..] == Doubled(quote, text) + [quote] + suffix;
    if suffix == [] || suffix[0] != quote {
      LexBodyReads(quote, text, suffix);
    } else {
      LexBodyMerges(quote, text, suffix);
    }
  }

  /** Different names never print the same. */
  lemma QuoteIsInjective(quote: char, a: string, b: string)
    requires Quote(quote, a) == Quote(quote, b)
    ensures a == b
  {
    QuoteRoundTrip(quote, a, []);
    QuoteRoundTrip(quote, b, []);
    assert Quote(quote, a) + [] == Quote(quote, a);
    assert Quote(quote, b) + [] == Quote(quote, b);
  }

  // ------------------------------------------------------------------ Lists

  /** ", ".join of the quoted texts. */
  function Joined(quote: char, texts: seq<string>): string
    requires texts != []
  {
    if |texts| == 1 then Quote(quote, texts[0])
    else Quote(quote, texts[0]) + ", " + Joined(quote, texts[1..])
  }

  /** Quoted tokens separated by comma and space, and what follows the last of them. */
  function ParseList(quote: char, text: string): Option<(seq<string>, string)>
    decreases |text|
  {
    var first := Lex(quote, text);
    if first.None? then None
    else
      var (head, after) := first.value;
      LexBodyConsumes(quote, text[1..]);
      if |after| >= 2 && after[..2] == ", " then
        var rest := ParseList(quote, after[2..]);
        if rest.None? then None else Some(([head] + rest.value.0, rest.value.1))
      else Some(([head], after))
  }

  /** A printed list reads back as the list, up to a suffix that continues neither a token nor the list. */
  lemma {:induction false} JoinedRoundTrip(quote: char, texts: seq<string>, suffix: string)
    requires texts != [] && quote != ',' && quote != ' '
    requires suffix == [] || (suffix[0] != quote && suffix[0] != ',')
    ensures ParseList(quote, Joined(quote, texts) + suffix) == Some((texts, suffix))
  {
    var whole := Joined(quote, texts) + suffix;
    if |texts| == 1 {
      QuoteRoundTrip(quote, texts[0], suffix);
      assert texts == [texts[0]];
    } else {
      var rest := Joined(quote, texts[1..]) + suffix;
      var after := ", " + rest;
      assert whole == Quote(quote, texts[0]) + after;
      QuoteRoundTrip(quote, texts[0], after);
      assert after[..2] == ", " && after[2..] == rest;
      JoinedRoundTrip(quote, texts[1..], suffix);
      assert texts == [texts[0]] + texts[1..];
    }
  }

  /** _input_source over given files: one literal, or a bracketed list of literals. */
  function InputSource(files: seq<string>): string {
    if |files| == 1 then QuoteStrLiteral(files[0])
    else if files == [] then "[]"
    else "[" + Joined('\'', files) + "]"
  }

  /** What read_parquet takes from its first argument. */
  function ReadSource(text: string): Option<(seq<string>, string)> {
    if text != [] && text[0] == '[' then
      if |text| > 1 && text[1] == ']' then Some(([], text[2..]))
      else
        var files := ParseList('\'', text[1..]);
        if files.None? || files.value.1 == [] || files.value.1[0] != ']' then None
        else Some((files.value.0, files.value.1[1..]))
    else
      var file := Lex('\'', text);
      if file.None? then None else Some(([file.value.0], file.value.1))
  }

  lemma BracketedRoundTrip(files: seq<string>, suffix: string)
    requires files != []
    ensures ReadSource("[" + (Joined('\'', files) + ("]" + suffix))) == Some((files, suffix))
  {
    var list := Joined('\'', files) + ("]" + suffix);
    JoinedRoundTrip('\'', files, "]" + suffix);
    assert ("[" + list)[1..] == list;
    assert list[0] == '\'';
    assert ("]" + suffix)[1..] == suffix;
  }

  lemma SingleRoundTrip(file: string, suffix: string)
    requires suffix == [] || suffix[0] != '\''
    ensures ReadSource(QuoteStrLiteral(file) + suffix) == Some(([file], suffix))
  {
    QuoteRoundTrip('\'', file, suffix);
  }

  /** The engine reads exactly the files it was given, whatever their paths contain. */
  lemma InputSourceRoundTrip(files: seq<string>, suffix: string)
    requires suffix == [] || suffix[0] != '\''
    ensures ReadSource(InputSource(files) + suffix) == Some((files, suffix))
  {
    if |files| == 1 {
      SingleRoundTrip(files[0], suffix);
      assert files == [files[0]];
    } else if files == [] {
      assert ("[]" + suffix)[2..] == suffix;
    } else {
      BracketedRoundTrip(files, suffix);
      assert "[" + Joined('\'', files) + "]" + suffix == "[" + (Joined('\'', files) + ("]" + suffix));
    }
  }
}
