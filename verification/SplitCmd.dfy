/** The shell-less command splitter (splitCmd): fields, honouring single and
    double quotes. A char stands for a byte. */
module SplitCmd {
  import opened Common

  /** The splitter's variables: the quote it is inside, the field being built,
      the fields done. */
  datatype Lexer = Lexer(quote: Option<char>, cur: string, out: seq<string>)

  const Idle := Lexer(None, "", [])

  predicate IsQuote(c: char) { c == '\'' || c == '"' }

  predicate IsSpace(c: char) { c == ' ' || c == '\t' || c == '\n' }

  function Flush(st: Lexer): Lexer {
    if |st.cur| > 0 then st.(out := st.out + [st.cur], cur := "") else st
  }

  function Feed(st: Lexer, c: char): Lexer {
    if st.quote.Some? then
      if Some(c) == st.quote then st.(quote := None) else st.(cur := st.cur + [c])
    else if IsQuote(c) then st.(quote := Some(c))
    else if IsSpace(c) then Flush(st)
    else st.(cur := st.cur + [c])
  }

  function FeedAll(st: Lexer, s: string): Lexer
    decreases |s|
  {
    if s == "" then st else FeedAll(Feed(st, s[0]), s[1..])
  }

  function Split(s: string): seq<string> {
    Flush(FeedAll(Idle, s)).out
  }

  method SplitCmd(s: string) returns (out: seq<string>)
    ensures out == Split(s)
    ensures forall k :: 0 <= k < |out| ==> out[k] != ""
  {
    var cur: string := "";
    var quote: Option<char> := None;
    out := [];
    var i := 0;
    while i < |s|
      invariant 0 <= i <= |s|
      invariant Lexer(quote, cur, out) == FeedAll(Idle, s[..i])
      invariant forall k :: 0 <= k < |out| ==> out[k] != ""
    {
      var c := s[i];
      FeedAllAppend(Idle, s[..i], [c]);
      assert s[..i + 1] == s[..i] + [c];
      if quote.Some? {
        if quote == Some(c) {
          quote := None;
        } else {
          cur := cur + [c];
        }
      } else if IsQuote(c) {
        quote := Some(c);
      } else if IsSpace(c) {
        if |cur| > 0 {
          out := out + [cur];
          cur := "";
        }
      } else {
        cur := cur + [c];
      }
      i := i + 1;
    }
    assert s[..i] == s;
    if |cur| > 0 {
      out := out + [cur];
    }
  }

  lemma {:induction false} FeedAllAppend(st: Lexer, a: string, b: string)
    ensures FeedAll(st, a + b) == FeedAll(FeedAll(st, a), b)
    decreases |a|
  {
    if a == "" {
      assert a + b == b;
    } else {
      assert (a + b)[1..] == a[1..] + b;
      FeedAllAppend(Feed(st, a[0]), a[1..], b);
    }
  }

  // ---- Every way of writing a list of fields ----

  /** A stretch of a field as it may be written: bare, or inside either quote. */
  datatype Segment = Bare(text: string) | Single(text: string) | Double(text: string)

  predicate Writable(g: Segment) {
    match g
    case Bare(text) => forall k :: 0 <= k < |text| ==> !IsQuote(text[k]) && !IsSpace(text[k])
    case Single(text) => '\'' !in text
    case Double(text) => '"' !in text
  }

  function WriteSegment(g: Segment): string {
    match g
    case Bare(text) => text
    case Single(text) => "'" + text + "'"
    case Double(text) => "\"" + text + "\""
  }

  function WriteField(gs: seq<Segment>): string {
    if gs == [] then "" else WriteSegment(gs[0]) + WriteField(gs[1..])
  }

  function TextOf(gs: seq<Segment>): string {
    if gs == [] then "" else gs[0].text + TextOf(gs[1..])
  }

  /** A field and the white space written after it. */
  datatype Written = Written(field: seq<Segment>, gap: string)

  predicate Spaces(s: string) {
    forall k :: 0 <= k < |s| ==> IsSpace(s[k])
  }

  /** Every segment can be written so, and fields are kept apart by white space;
      only the last may be followed by none. */
  predicate WellWritten(line: seq<Written>) {
    forall k :: 0 <= k < |line| ==>
      && (forall j :: 0 <= j < |line[k].field| ==> Writable(line[k].field[j]))
      && Spaces(line[k].gap)
      && (k < |line| - 1 ==> line[k].gap != "")
  }

  function WriteLine(line: seq<Written>): string {
    if line == [] then "" else WriteField(line[0].field) + line[0].gap + WriteLine(line[1..])
  }

  /** The texts of the fields that have any: a field written as nothing but
      empty quotes leaves no trace. */
  function Texts(line: seq<Written>): seq<string> {
    if line == [] then []
    else (if TextOf(line[0].field) == "" then [] else [TextOf(line[0].field)]) + Texts(line[1..])
  }

  lemma {:induction false} FeedBare(st: Lexer, text: string)
    requires st.quote.None? && Writable(Bare(text))
    ensures FeedAll(st, text) == st.(cur := st.cur + text)
    decreases |text|
  {
    if text == "" {
      assert st.cur + text == st.cur;
    } else {
      FeedBare(st.(cur := st.cur + [text[0]]), text[1..]);
      assert (st.cur + [text[0]]) + text[1..] == st.cur + text;
    }
  }

  lemma {:induction false} FeedInside(st: Lexer, text: string)
    requires st.quote.Some? && st.quote.value !in text
    ensures FeedAll(st, text) == st.(cur := st.cur + text)
    decreases |text|
  {
    if text == "" {
      assert st.cur + text == st.cur;
    } else {
      FeedInside(st.(cur := st.cur + [text[0]]), text[1..]);
      assert (st.cur + [text[0]]) + text[1..] == st.cur + text;
    }
  }

  lemma FeedQuoted(st: Lexer, q: char, text: string)
    requires st.quote.None? && IsQuote(q) && q !in text
    ensures FeedAll(st, [q] + text + [q]) == st.(cur := st.cur + text)
  {
    var s := [q] + text + [q];
    var inside := st.(quote := Some(q));
    assert s[1..] == text + [q];
    FeedAllAppend(inside, text, [q]);
    FeedInside(inside, text);
    var last := inside.(cur := st.cur + text);
    assert FeedAll(last, [q]) == FeedAll(Feed(last, q), "");
  }

  lemma FeedSegment(st: Lexer, g: Segment)
    requires st.quote.None? && Writable(g)
    ensures FeedAll(st, WriteSegment(g)) == st.(cur := st.cur + g.text)
  {
    match g {
      case Bare(text) => FeedBare(st, text);
      case Single(text) => FeedQuoted(st, '\'', text);
      case Double(text) => FeedQuoted(st, '"', text);
    }
  }

  lemma FeedBoth(st: Lexer, a: string, b: string, x: string, y: string)
    requires FeedAll(st, a) == st.(cur := st.cur + x)
    requires FeedAll(st.(cur := st.cur + x), b) == st.(cur := st.cur + x + y)
    ensures FeedAll(st, a + b) == st.(cur := st.cur + (x + y))
  {
    FeedAllAppend(st, a, b);
    assert st.cur + x + y == st.cur + (x + y);
  }

  lemma {:induction false} FeedField(st: Lexer, gs: seq<Segment>)
    requires st.quote.None? && forall j :: 0 <= j < |gs| ==> Writable(gs[j])
    ensures FeedAll(st, WriteField(gs)) == st.(cur := st.cur + TextOf(gs))
    decreases |gs|
  {
    if gs == [] {
      assert st.cur + "" == st.cur;
    } else {
      FeedSegment(st, gs[0]);
      FeedField(st.(cur := st.cur + gs[0].text), gs[1..]);
      FeedBoth(st, WriteSegment(gs[0]), WriteField(gs[1..]), gs[0].text, TextOf(gs[1..]));
    }
  }

  lemma {:induction false} FeedSpaces(st: Lexer, gap: string)
    requires st.quote.None? && Spaces(gap)
    ensures FeedAll(st, gap) == if gap == "" then st else Flush(st)
    decreases |gap|
  {
    if gap != "" {
      FeedSpaces(Flush(st), gap[1..]);
    }
  }

  lemma FeedWritten(out: seq<string>, w: Written)
    requires Spaces(w.gap) && forall j :: 0 <= j < |w.field| ==> Writable(w.field[j])
    ensures FeedAll(Lexer(None, "", out), WriteField(w.field) + w.gap)
            == if w.gap == "" then Lexer(None, TextOf(w.field), out) else Flush(Lexer(None, TextOf(w.field), out))
  {
    var st := Lexer(None, "", out);
    FeedAllAppend(st, WriteField(w.field), w.gap);
    FeedField(st, w.field);
    assert "" + TextOf(w.field) == TextOf(w.field);
    FeedSpaces(Lexer(None, TextOf(w.field), out), w.gap);
  }

  lemma {:induction false} FeedLine(out: seq<string>, line: seq<Written>)
    requires WellWritten(line)
    ensures Flush(FeedAll(Lexer(None, "", out), WriteLine(line))).out == out + Texts(line)
    decreases |line|
  {
    if line == [] {
      assert out + [] == out;
    } else {
      var w, done := line[0], AfterField(out, line[0]);
      WellWrittenTail(line);
      FeedAllAppend(Lexer(None, "", out), WriteField(w.field) + w.gap, WriteLine(line[1..]));
      FeedWritten(out, w);
      if w.gap != "" {
        FeedLine(done, line[1..]);
      } else {
        assert line[1..] == [];
        assert done + [] == done;
      }
      TextsOfRest(out, line);
    }
  }

  function AfterField(out: seq<string>, w: Written): seq<string> {
    if TextOf(w.field) == "" then out else out + [TextOf(w.field)]
  }

  lemma {:induction false} TextsOfRest(out: seq<string>, line: seq<Written>)
    requires line != []
    ensures out + Texts(line) == AfterField(out, line[0]) + Texts(line[1..])
  {
    var text, rest := TextOf(line[0].field), Texts(line[1..]);
    if text != "" {
      assert out + ([text] + rest) == out + [text] + rest;
    }
  }

  lemma WellWrittenTail(line: seq<Written>)
    requires line != [] && WellWritten(line)
    ensures WellWritten(line[1..])
  {
    var rest := line[1..];
    forall k | 0 <= k < |rest|
      ensures (forall j :: 0 <= j < |rest[k].field| ==> Writable(rest[k].field[j])) && Spaces(rest[k].gap)
              && (k < |rest| - 1 ==> rest[k].gap != "")
    {
      assert rest[k] == line[k + 1];
    }
  }

  /** However a list of fields is written — any mix of bare and quoted stretches,
      any white space before, between and after — splitting gives back exactly
      the texts of the nonempty ones, in order. */
  lemma SplitReadsAnyWriting(lead: string, line: seq<Written>)
    requires Spaces(lead) && WellWritten(line)
    ensures Split(lead + WriteLine(line)) == Texts(line)
  {
    FeedAllAppend(Idle, lead, WriteLine(line));
    FeedSpaces(Idle, lead);
    FeedLine([], line);
    assert [] + Texts(line) == Texts(line);
  }

  // ---- A printer for any list of nonempty fields ----

  function QuoteChar(c: char): Segment {
    if c == '\'' then Double([c]) else Single([c])
  }

  function QuoteAll(text: string): seq<Segment> {
    if text == "" then [] else [QuoteChar(text[0])] + QuoteAll(text[1..])
  }

  function Print(fields: seq<string>, sep: char): seq<Written> {
    if fields == [] then [] else [Written(QuoteAll(fields[0]), [sep])] + Print(fields[1..], sep)
  }

  lemma {:induction false} QuoteAllWrites(text: string)
    ensures TextOf(QuoteAll(text)) == text
    ensures forall j :: 0 <= j < |QuoteAll(text)| ==> Writable(QuoteAll(text)[j])
  {
    if text != "" {
      QuoteAllWrites(text[1..]);
      assert [text[0]] + text[1..] == text;
    }
  }

  lemma {:induction false} PrintWrites(fields: seq<string>, sep: char)
    requires forall k :: 0 <= k < |fields| ==> fields[k] != ""
    requires sep == ' ' || sep == '\t' || sep == '\n'
    ensures WellWritten(Print(fields, sep)) && Texts(Print(fields, sep)) == fields
  {
    if fields != [] {
      QuoteAllWrites(fields[0]);
      PrintWrites(fields[1..], sep);
      assert [fields[0]] + fields[1..] == fields;
    }
  }

  /** Splitting inverts printing, for fields of any bytes at all, both quotes and
      white space included, and whichever blank, tab or line break parts them. */
  lemma SplitInvertsPrint(fields: seq<string>, sep: char)
    requires forall k :: 0 <= k < |fields| ==> fields[k] != ""
    requires sep == ' ' || sep == '\t' || sep == '\n'
    ensures Split(WriteLine(Print(fields, sep))) == fields
  {
    PrintWrites(fields, sep);
    SplitReadsAnyWriting("", Print(fields, sep));
    assert "" + WriteLine(Print(fields, sep)) == WriteLine(Print(fields, sep));
  }

  /** Nothing but those three and the two quotes is special: a line of any other
      characters is one field, as it stands. */
  lemma PlainTextIsOneField(text: string)
    requires text != ""
    requires forall c :: c in text ==> c != ' ' && c != '\t' && c != '\n' && c != '\'' && c != '"'
    ensures Split(text) == [text]
  {
    assert forall k :: 0 <= k < |text| ==> text[k] in text;
    FeedBare(Idle, text);
    assert "" + text == text;
    assert [] + [text] == [text];
  }
}
