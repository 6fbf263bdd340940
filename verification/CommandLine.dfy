/** Splitting one command into its arguments, and the rendering that splits back to them. */
module CommandLine {
  import opened Contracts

  datatype Scan = Scan(quote: Option<char>, value: string, started: bool, tokens: seq<string>)
  datatype Error = Operator | Unclosed | Empty
  datatype Parsed = Rejected(error: Error) | Command(executable: string, arguments: seq<string>)

  const OPERATORS: set<char> := {';', '|', '&', '>', '<', '\r', '\n'}
  const QUOTES: set<char> := {'\'', '"'}
  const BEGIN: Scan := Scan(None, "", false, [])

  /** What one character does to the scan; none for an operator outside quotes. */
  function Read(s: Scan, c: char): Option<Scan> {
    if s.quote.Some? then
      Some(if c == s.quote.value then s.(quote := None, started := true)
           else s.(value := s.value + [c], started := true))
    else if c in QUOTES then Some(s.(quote := Some(c), started := true))
    else if c in OPERATORS then None
    else if WhiteSpace(c) then
      Some(if s.started then Scan(None, "", false, s.tokens + [s.value]) else s)
    else Some(s.(value := s.value + [c], started := true))
  }

  function ReadAll(s: Scan, text: string): Option<Scan>
    decreases |text|
  {
    if text == "" then Some(s)
    else
      var next := Read(s, text[0]);
      if next.None? then None else ReadAll(next.value, text[1..])
  }

  function Finish(s: Scan): Parsed {
    if s.quote.Some? then Rejected(Unclosed)
    else
      var tokens := if s.started then s.tokens + [s.value] else s.tokens;
      if tokens == [] then Rejected(Empty) else Command(tokens[0], tokens[1..])
  }

  function Parsing(text: string): Parsed {
    var s := ReadAll(BEGIN, text);
    if s.None? then Rejected(Operator) else Finish(s.value)
  }

  /** The character loop: one token buffer, one quote state, one list of tokens. */
  method Parse(text: string) returns (parsed: Parsed)
    ensures parsed == Parsing(text)
  {
    var tokens: seq<string> := [];
    var value, quote, started := "", None, false;
    var i := 0;
    while i < |text|
      invariant 0 <= i <= |text| && (!started ==> value == "" && quote.None?)
      invariant ReadAll(BEGIN, text) == ReadAll(Scan(quote, value, started, tokens), text[i..])
    {
      var c := text[i];
      assert text[i..][0] == c && text[i..][1..] == text[i + 1..];
      i := i + 1;
      if quote.Some? {
        if c == quote.value { quote := None; } else { value := value + [c]; }
        started := true;
        continue;
      }
      if c in QUOTES {
        quote, started := Some(c), true;
        continue;
      }
      if c in OPERATORS { return Rejected(Operator); }
      if WhiteSpace(c) {
        if started { tokens, value, started := tokens + [value], "", false; }
        continue;
      }
      value, started := value + [c], true;
    }
    if quote.Some? { return Rejected(Unclosed); }
    if started { tokens := tokens + [value]; }
    if tokens == [] { return Rejected(Empty); }
    parsed := Command(tokens[0], tokens[1..]);
  }

  // ---- Rendering ----

  /** An argument in single quotes, with each single quote of its own put between double quotes. */
  function Inside(arg: string): string {
    if arg == "" then "" else (if arg[0] == '\'' then "'\"'\"'" else [arg[0]]) + Inside(arg[1..])
  }

  function Quoted(arg: string): string { "'" + Inside(arg) + "'" }

  function Render(args: seq<string>): string
    requires args != []
  {
    if |args| == 1 then Quoted(args[0]) else Quoted(args[0]) + " " + Render(args[1..])
  }

  lemma {:induction false} ReadTwo(s: Scan, a: string, b: string)
    ensures ReadAll(s, a + b) == if ReadAll(s, a).None? then None else ReadAll(ReadAll(s, a).value, b)
    decreases |a|
  {
    if a == "" {
      assert a + b == b;
    } else {
      assert (a + b)[0] == a[0] && (a + b)[1..] == a[1..] + b;
      if Read(s, a[0]).Some? { ReadTwo(Read(s, a[0]).value, a[1..], b); }
    }
  }

  lemma {:induction false} ReadOne(s: Scan, c: char)
    ensures ReadAll(s, [c]) == Read(s, c)
  {
    if Read(s, c).Some? { assert ReadAll(Read(s, c).value, [c][1..]) == Read(s, c); }
  }

  /** Inside single quotes the rendering adds exactly the argument and stays inside. */
  lemma {:induction false} InsideAdds(s: Scan, arg: string)
    requires s.quote == Some('\'') && s.started
    ensures ReadAll(s, Inside(arg)) == Some(s.(value := s.value + arg))
    decreases |arg|
  {
    if arg == "" {
      assert s.value + arg == s.value;
    } else {
      var first := if arg[0] == '\'' then "'\"'\"'" else [arg[0]];
      var next := s.(value := s.value + [arg[0]]);
      if arg[0] == '\'' { QuoteAdds(s); } else { ReadOne(s, arg[0]); }
      assert ReadAll(s, first) == Some(next);
      ReadTwo(s, first, Inside(arg[1..]));
      InsideAdds(next, arg[1..]);
      assert s.value + [arg[0]] + arg[1..] == s.value + arg;
    }
  }

  lemma {:induction false} QuoteAdds(s: Scan)
    requires s.quote == Some('\'') && s.started
    ensures ReadAll(s, "'\"'\"'") == Some(s.(value := s.value + ['\'']))
  {
    var a := s.(quote := None);
    var b := s.(quote := Some('"'));
    var c := b.(value := s.value + ['\'']);
    var d := c.(quote := None);
    ReadTwo(s, "'", "\"'\"'");
    ReadOne(s, '\'');
    ReadTwo(a, "\"", "'\"'");
    ReadOne(a, '"');
    ReadTwo(b, "'", "\"'");
    ReadOne(b, '\'');
    ReadTwo(c, "\"", "'");
    ReadOne(c, '"');
    ReadOne(d, '\'');
    assert "'" + "\"'\"'" == "'\"'\"'" && "\"" + "'\"'" == "\"'\"'" && "'" + "\"'" == "'\"'" && "\"" + "'" == "\"'";
  }

  lemma {:induction false} QuotedAdds(tokens: seq<string>, arg: string)
    ensures ReadAll(Scan(None, "", false, tokens), Quoted(arg)) == Some(Scan(None, arg, true, tokens))
  {
    var s := Scan(None, "", false, tokens);
    var inner := Scan(Some('\''), "", true, tokens);
    ReadTwo(s, "'" + Inside(arg), "'");
    ReadTwo(s, "'", Inside(arg));
    ReadOne(s, '\'');
    InsideAdds(inner, arg);
    assert "" + arg == arg;
    ReadOne(inner.(value := arg), '\'');
  }

  lemma {:induction false} RenderReads(tokens: seq<string>, args: seq<string>)
    requires args != []
    ensures ReadAll(Scan(None, "", false, tokens), Render(args))
            == Some(Scan(None, args[|args| - 1], true, tokens + args[..|args| - 1]))
    decreases |args|
  {
    var s := Scan(None, "", false, tokens);
    QuotedAdds(tokens, args[0]);
    if |args| == 1 {
      assert tokens + args[..0] == tokens;
    } else {
      var rest := args[1..];
      ReadTwo(s, Quoted(args[0]) + " ", Render(rest));
      ReadTwo(s, Quoted(args[0]), " ");
      ReadOne(Scan(None, args[0], true, tokens), ' ');
      RenderReads(tokens + [args[0]], rest);
      assert tokens + [args[0]] + rest[..|rest| - 1] == tokens + args[..|args| - 1];
    }
  }

  /** Every non-empty list of arguments has a rendering that parses back to exactly that list. */
  lemma {:induction false} ParseInvertsRender(args: seq<string>)
    requires args != []
    ensures Parsing(Render(args)) == Command(args[0], args[1..])
  {
    RenderReads([], args);
    assert [] + args[..|args| - 1] + [args[|args| - 1]] == args;
  }

  // ---- What is accepted ----

  /** The quote that is open after this text, looking at quotes alone. */
  function Open(text: string): Option<char> {
    if text == "" then None
    else
      var n := |text| - 1;
      var before := Open(text[..n]);
      if before.Some? then (if text[n] == before.value then None else before)
      else if text[n] in QUOTES then Some(text[n]) else None
  }

  /** An operator character outside quotes. */
  predicate OperatorAt(text: string, i: int) { 0 <= i < |text| && Open(text[..i]).None? && text[i] in OPERATORS }

  /** A character that belongs to some argument: it is quoted, opens a quote, or is neither space nor operator. */
  predicate MatterAt(text: string, i: int) {
    0 <= i < |text| && (Open(text[..i]).Some? || text[i] in QUOTES || (text[i] !in OPERATORS && !WhiteSpace(text[i])))
  }

  /** What the scan of a prefix tells. */
  ghost predicate Tells(text: string, r: Option<Scan>) {
    && (r.None? <==> exists i :: OperatorAt(text, i))
    && (r.Some? ==> r.value.quote == Open(text))
    && (r.Some? ==> (r.value.started || r.value.tokens != [] <==> exists i :: MatterAt(text, i)))
    && (r.Some? && r.value.quote.Some? ==> r.value.started)
  }

  lemma {:induction false} ScanTells(text: string)
    ensures Tells(text, ReadAll(BEGIN, text))
    decreases |text|
  {
    if text != "" {
      var n := |text| - 1;
      var before := text[..n];
      ScanTells(before);
      assert before + [text[n]] == text;
      ReadTwo(BEGIN, before, [text[n]]);
      var r := ReadAll(BEGIN, before);
      if r.Some? { ReadOne(r.value, text[n]); }
      PrefixPlaces(text);
    }
  }

  lemma {:induction false} PrefixPlaces(text: string)
    requires text != ""
    ensures var n := |text| - 1;
            && ((exists i :: OperatorAt(text, i)) <==> (exists i :: OperatorAt(text[..n], i)) || OperatorAt(text, n))
            && ((exists i :: MatterAt(text, i)) <==> (exists i :: MatterAt(text[..n], i)) || MatterAt(text, n))
  {
    var n := |text| - 1;
    forall i | 0 <= i < n ensures OperatorAt(text, i) == OperatorAt(text[..n], i)
        && MatterAt(text, i) == MatterAt(text[..n], i) {
      assert text[..n][..i] == text[..i];
    }
  }

  /** A text is accepted exactly when its quotes are balanced, no operator stands outside them, and some argument is
      there. */
  lemma {:induction false} AcceptedTexts(text: string)
    ensures Parsing(text).Command? <==> Open(text).None? && (forall i :: !OperatorAt(text, i)) && exists i ::
            MatterAt(text, i)
    ensures Parsing(text) == Rejected(Operator) <==> exists i :: OperatorAt(text, i)
    ensures Parsing(text) == Rejected(Unclosed) <==> Open(text).Some? && forall i :: !OperatorAt(text, i)
  {
    ScanTells(text);
  }

  // ---- What is read ----

  /** The characters that end up in arguments: all but the quotes that delimit and the white space outside them. */
  function Kept(text: string): string {
    if text == "" then ""
    else
      var n := |text| - 1;
      var quote, c := Open(text[..n]), text[n];
      var dropped := if quote.Some? then c == quote.value else c in QUOTES || WhiteSpace(c);
      Kept(text[..n]) + if dropped then "" else [c]
  }

  function Joined(words: seq<string>): string {
    if words == [] then "" else Joined(words[..|words| - 1]) + words[|words| - 1]
  }

  lemma {:induction false} ScanKeeps(text: string)
    requires ReadAll(BEGIN, text).Some?
    ensures var s := ReadAll(BEGIN, text).value;
            Joined(s.tokens) + s.value == Kept(text) && (!s.started ==> s.value == "")
    decreases |text|
  {
    if text != "" {
      var n := |text| - 1;
      var before := text[..n];
      assert before + [text[n]] == text;
      ReadTwo(BEGIN, before, [text[n]]);
      ScanKeeps(before);
      ScanTells(before);
      var r := ReadAll(BEGIN, before).value;
      ReadOne(r, text[n]);
      assert (r.tokens + [r.value])[..|r.tokens|] == r.tokens;
    }
  }

  /** Nothing is lost and nothing is made up: the arguments of an accepted text, one after another, are exactly the
      characters it keeps. */
  lemma {:induction false} ArgumentsAreKept(text: string)
    requires Parsing(text).Command?
    ensures Joined([Parsing(text).executable] + Parsing(text).arguments) == Kept(text)
  {
    ScanKeeps(text);
    var s := ReadAll(BEGIN, text).value;
    var tokens := if s.started then s.tokens + [s.value] else s.tokens;
    assert tokens[..|tokens| - 1] + [tokens[|tokens| - 1]] == tokens;
    assert [tokens[0]] + tokens[1..] == tokens;
    assert (s.tokens + [s.value])[..|s.tokens|] == s.tokens;
  }

  // ---- The grammar of commands ----

  /** A piece of a word: characters that stand for themselves, or a quoted stretch. */
  datatype Piece = Bare(text: string) | InQuotes(quote: char, text: string) {
    predicate Valid() {
      if Bare? then text != "" && forall i :: 0 <= i < |text| ==> Plain(text[i])
      else quote in QUOTES && quote !in text
    }
    function Spelled(): string { if Bare? then text else [quote] + text + [quote] }
  }

  predicate Plain(c: char) { c !in QUOTES && c !in OPERATORS && !WhiteSpace(c) }

  /** White space between words; a line break is an operator. */
  predicate Gap(s: string) { forall i :: 0 <= i < |s| ==> WhiteSpace(s[i]) && s[i] !in OPERATORS }

  /** A word and the white space before it. */
  datatype Word = Word(gap: string, pieces: seq<Piece>) {
    predicate Valid() { Gap(gap) && pieces != [] && forall i :: 0 <= i < |pieces| ==> pieces[i].Valid() }
  }

  function Spelling(pieces: seq<Piece>): string {
    if pieces == [] then "" else Spelling(pieces[..|pieces| - 1]) + pieces[|pieces| - 1].Spelled()
  }

  function Meaning(pieces: seq<Piece>): string {
    if pieces == [] then "" else Meaning(pieces[..|pieces| - 1]) + pieces[|pieces| - 1].text
  }

  function Written(words: seq<Word>): string {
    if words == [] then ""
    else
      var last := words[|words| - 1];
      Written(words[..|words| - 1]) + last.gap + Spelling(last.pieces)
  }

  function Meanings(words: seq<Word>): (args: seq<string>)
    ensures |args| == |words|
  {
    if words == [] then [] else Meanings(words[..|words| - 1]) + [Meaning(words[|words| - 1].pieces)]
  }

  /** Words are valid, and white space separates each from the one before. */
  predicate WellWritten(words: seq<Word>) {
    forall i :: 0 <= i < |words| ==> words[i].Valid() && (i > 0 ==> words[i].gap != "")
  }

  lemma {:induction false} PlainAdds(s: Scan, text: string)
    requires s.quote.None? && forall i :: 0 <= i < |text| ==> Plain(text[i])
    ensures ReadAll(s, text) == Some(s.(value := s.value + text, started := s.started || text != ""))
    decreases |text|
  {
    if text == "" {
      assert s.value + text == s.value;
    } else {
      var next := s.(value := s.value + [text[0]], started := true);
      PlainAdds(next, text[1..]);
      assert s.value + [text[0]] + text[1..] == s.value + text;
    }
  }

  lemma {:induction false} InsideQuotesAdds(s: Scan, text: string)
    requires s.quote.Some? && s.started && s.quote.value !in text
    ensures ReadAll(s, text) == Some(s.(value := s.value + text))
    decreases |text|
  {
    if text == "" {
      assert s.value + text == s.value;
    } else {
      InsideQuotesAdds(s.(value := s.value + [text[0]]), text[1..]);
      assert s.value + [text[0]] + text[1..] == s.value + text;
    }
  }

  lemma {:induction false} PieceAdds(s: Scan, p: Piece)
    requires s.quote.None? && p.Valid()
    ensures ReadAll(s, p.Spelled()) == Some(s.(value := s.value + p.text, started := true))
  {
    if p.Bare? {
      PlainAdds(s, p.text);
    } else {
      var open := s.(quote := Some(p.quote), started := true);
      ReadTwo(s, [p.quote] + p.text, [p.quote]);
      ReadTwo(s, [p.quote], p.text);
      ReadOne(s, p.quote);
      InsideQuotesAdds(open, p.text);
      ReadOne(open.(value := s.value + p.text), p.quote);
    }
  }

  lemma {:induction false} PiecesAdd(s: Scan, pieces: seq<Piece>)
    requires s.quote.None? && forall i :: 0 <= i < |pieces| ==> pieces[i].Valid()
    ensures ReadAll(s, Spelling(pieces))
            == Some(s.(value := s.value + Meaning(pieces), started := s.started || pieces != []))
    decreases |pieces|
  {
    hide Read, Piece.Valid, Piece.Spelled;
    if pieces == [] {
      assert s.value + Meaning(pieces) == s.value;
    } else {
      var n := |pieces| - 1;
      PiecesAdd(s, pieces[..n]);
      ReadTwo(s, Spelling(pieces[..n]), pieces[n].Spelled());
      PieceAdds(s.(value := s.value + Meaning(pieces[..n]), started := s.started || n > 0), pieces[n]);
      assert s.value + Meaning(pieces[..n]) + pieces[n].text == s.value + Meaning(pieces);
    }
  }

  lemma {:induction false} GapEnds(s: Scan, gap: string)
    requires s.quote.None? && Gap(gap)
    ensures ReadAll(s, gap)
            == Some(if s.started && gap != "" then Scan(None, "", false, s.tokens + [s.value]) else s)
    decreases |gap|
  {
    if gap != "" {
      assert gap[0] !in QUOTES;
      GapEnds(if s.started then Scan(None, "", false, s.tokens + [s.value]) else s, gap[1..]);
    }
  }

  /** Reading words: all but the last are done, the last is still in the buffer. */
  lemma {:induction false} WordsAdd(words: seq<Word>)
    requires WellWritten(words)
    ensures ReadAll(BEGIN, Written(words))
            == Some(if words == [] then BEGIN
                    else Scan(None, Meanings(words)[|words| - 1], true, Meanings(words)[..|words| - 1]))
    decreases |words|
  {
    if words != [] {
      var n := |words| - 1;
      var rest, last := words[..n], words[n];
      WordsAdd(rest);
      var s := ReadAll(BEGIN, Written(rest)).value;
      ReadTwo(BEGIN, Written(rest) + last.gap, Spelling(last.pieces));
      ReadTwo(BEGIN, Written(rest), last.gap);
      GapEnds(s, last.gap);
      PiecesAdd(Scan(None, "", false, Meanings(rest)), last.pieces);
      if n > 0 { assert Meanings(rest)[..n - 1] + [Meanings(rest)[n - 1]] == Meanings(rest); }
      assert "" + Meaning(last.pieces) == Meaning(last.pieces);
      assert Meanings(words)[..n] == Meanings(rest);
    }
  }

  /** Words separated by white space, each of bare and quoted pieces, are read as what their pieces say. */
  lemma {:induction false} WordsAreRead(words: seq<Word>, end: string)
    requires words != [] && WellWritten(words) && Gap(end)
    ensures Parsing(Written(words) + end) == Command(Meanings(words)[0], Meanings(words)[1..])
  {
    var n := |words| - 1;
    WordsAdd(words);
    var s := ReadAll(BEGIN, Written(words)).value;
    ReadTwo(BEGIN, Written(words), end);
    GapEnds(s, end);
    assert Meanings(words)[..n] + [Meanings(words)[n]] == Meanings(words);
  }

  /** A text as words read to their end, then a last one that may still be open. */
  datatype Parts = Parts(words: seq<Word>, gap: string, pieces: seq<Piece>, open: Option<char>, rest: string)

  ghost predicate Fits(text: string, p: Parts, s: Scan) {
    && text == Written(p.words) + p.gap + Spelling(p.pieces) + (if p.open.Some? then [p.open.value] + p.rest else "")
    && WellWritten(p.words) && Gap(p.gap) && (p.words != [] ==> p.gap != "")
    && (forall i :: 0 <= i < |p.pieces| ==> p.pieces[i].Valid())
    && (p.open.Some? ==> p.open.value in QUOTES && p.open.value !in p.rest) && (p.open.None? ==> p.rest == "")
    && s == Scan(p.open, Meaning(p.pieces) + p.rest, p.pieces != [] || p.open.Some?, Meanings(p.words))
  }

  /** What one more character makes of the parts. */
  function Extended(p: Parts, c: char): Parts {
    if p.open.Some? then
      if c == p.open.value then p.(pieces := p.pieces + [InQuotes(c, p.rest)], open := None, rest := "")
      else p.(rest := p.rest + [c])
    else if c in QUOTES then p.(open := Some(c))
    else if WhiteSpace(c) then
      if p.pieces == [] then p.(gap := p.gap + [c]) else Parts(p.words + [Word(p.gap, p.pieces)], [c], [], None, "")
    else p.(pieces := p.pieces + [Bare([c])])
  }

  lemma {:induction false} OnePieceMore(pieces: seq<Piece>, piece: Piece)
    ensures Spelling(pieces + [piece]) == Spelling(pieces) + piece.Spelled()
    ensures Meaning(pieces + [piece]) == Meaning(pieces) + piece.text
  {
    assert (pieces + [piece])[..|pieces|] == pieces;
  }

  lemma {:induction false} OneWordMore(words: seq<Word>, word: Word)
    ensures Written(words + [word]) == Written(words) + word.gap + Spelling(word.pieces)
    ensures Meanings(words + [word]) == Meanings(words) + [Meaning(word.pieces)]
  {
    assert (words + [word])[..|words|] == words;
  }

  lemma {:induction false} QuotedCharMore(text: string, p: Parts, s: Scan, c: char)
    requires Fits(text, p, s) && p.open.Some?
    ensures Read(s, c).Some? && Fits(text + [c], Extended(p, c), Read(s, c).value)
  {
    hide WellWritten, Gap, Written, Meanings, Spelling, Meaning;
    var before := Written(p.words) + p.gap;
    if c == p.open.value {
      OnePieceMore(p.pieces, InQuotes(c, p.rest));
      assert before + Spelling(p.pieces) + ([c] + p.rest) + [c] == before + (Spelling(p.pieces) + ([c] + p.rest + [c]));
      assert Meaning(p.pieces) + p.rest + "" == Meaning(p.pieces) + p.rest;
    } else {
      assert [p.open.value] + p.rest + [c] == [p.open.value] + (p.rest + [c]);
      assert Meaning(p.pieces) + p.rest + [c] == Meaning(p.pieces) + (p.rest + [c]);
    }
  }

  lemma {:induction false} SpaceMore(text: string, p: Parts, s: Scan, c: char)
    requires Fits(text, p, s) && p.open.None? && WhiteSpace(c) && Read(s, c).Some?
    ensures Fits(text + [c], Extended(p, c), Read(s, c).value)
  {
    hide WhiteSpace, Written, Meanings;
    assert c !in QUOTES && c !in OPERATORS by { NoQuoteIsSpace(c); }
    if p.pieces == [] {
      assert Spelling(p.pieces) == "" && Written(p.words) + p.gap + [c] == Written(p.words) + (p.gap + [c]);
    } else {
      WordEnds(text, p, s, c);
    }
  }

  lemma {:induction false} NoQuoteIsSpace(c: char)
    requires WhiteSpace(c)
    ensures c !in QUOTES
  {
  }

  lemma {:induction false} WordEnds(text: string, p: Parts, s: Scan, c: char)
    requires Fits(text, p, s) && p.open.None? && p.pieces != [] && Gap([c])
    ensures var word := Word(p.gap, p.pieces);
            Fits(text + [c], Parts(p.words + [word], [c], [], None, ""), Scan(None, "", false, s.tokens + [s.value]))
  {
    hide Gap, Piece.Valid, Written, Meanings;
    OneWordMore(p.words, Word(p.gap, p.pieces));
    assert Spelling([]) == "" && Meaning([]) == "";
    hide Spelling, Meaning;
    assert Meaning(p.pieces) + "" == Meaning(p.pieces);
  }

  lemma {:induction false} BareCharMore(text: string, p: Parts, s: Scan, c: char)
    requires Fits(text, p, s) && p.open.None? && !WhiteSpace(c) && Read(s, c).Some?
    ensures Fits(text + [c], Extended(p, c), Read(s, c).value)
  {
    hide WellWritten;
    if c !in QUOTES { OnePieceMore(p.pieces, Bare([c])); }
  }

  lemma {:induction false} OneCharMore(text: string, p: Parts, s: Scan, c: char)
    requires Fits(text, p, s) && Read(s, c).Some?
    ensures Fits(text + [c], Extended(p, c), Read(s, c).value)
  {
    hide Fits, Read;
    if p.open.Some? {
      QuotedCharMore(text, p, s, c);
    } else if WhiteSpace(c) {
      SpaceMore(text, p, s, c);
    } else {
      BareCharMore(text, p, s, c);
    }
  }

  lemma {:induction false} TextHasParts(text: string) returns (p: Parts)
    requires ReadAll(BEGIN, text).Some?
    ensures Fits(text, p, ReadAll(BEGIN, text).value)
    decreases |text|
  {
    hide Fits, Read;
    if text == "" {
      p := Parts([], "", [], None, "");
      EmptyFits(p);
    } else {
      var n := |text| - 1;
      assert text[..n] + [text[n]] == text;
      ReadTwo(BEGIN, text[..n], [text[n]]);
      p := TextHasParts(text[..n]);
      ReadOne(ReadAll(BEGIN, text[..n]).value, text[n]);
      OneCharMore(text[..n], p, ReadAll(BEGIN, text[..n]).value, text[n]);
      p := Extended(p, text[n]);
    }
  }

  lemma {:induction false} EmptyFits(p: Parts)
    requires p == Parts([], "", [], None, "")
    ensures Fits("", p, BEGIN)
  {
  }

  /** Where a text is accepted, nothing is left open and there is some word. */
  lemma {:induction false} AcceptedIsWhole(text: string, p: Parts)
    requires Parsing(text).Command? && Fits(text, p, ReadAll(BEGIN, text).value)
    ensures p.open.None? && (p.pieces == [] ==> p.words != [])
  {
    hide ReadAll, Written, Spelling, Meaning, WellWritten, Gap;
  }

  lemma {:induction false} WholeIsWords(text: string, p: Parts, s: Scan)
    requires Fits(text, p, s) && p.open.None?
    ensures p.pieces == [] ==> WellWritten(p.words) && Gap(p.gap) && text == Written(p.words) + p.gap
    ensures p.pieces != [] ==>
              WellWritten(p.words + [Word(p.gap, p.pieces)]) && text == Written(p.words + [Word(p.gap, p.pieces)])
  {
    hide Gap, Piece.Valid, Written, Meanings, Meaning;
    OneWordMore(p.words, Word(p.gap, p.pieces));
    assert Spelling([]) == "";
    hide Spelling;
  }

  /** Every accepted text is written as words separated by white space, and its arguments are what they say. */
  lemma {:induction false} AcceptedTextsAreWords(text: string) returns (words: seq<Word>, end: string)
    requires Parsing(text).Command?
    ensures words != [] && WellWritten(words) && Gap(end) && text == Written(words) + end
    ensures Parsing(text) == Command(Meanings(words)[0], Meanings(words)[1..])
  {
    var p := TextHasParts(text);
    AcceptedIsWhole(text, p);
    hide Fits, Written, Spelling, WellWritten;
    WholeIsWords(text, p, ReadAll(BEGIN, text).value);
    if p.pieces != [] {
      words, end := p.words + [Word(p.gap, p.pieces)], "";
      assert Written(words) + "" == Written(words);
    } else {
      words, end := p.words, p.gap;
    }
    WordsAreRead(words, end);
  }
}
