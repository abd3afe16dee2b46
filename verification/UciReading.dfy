/** What each kind of line means to the parser, by its text: comments and blank lines mean nothing, the three
    keywords do what they say, and everything else is refused with its line number and reason. */
module UciReading {
  import opened Basics
  import opened GoStrings
  import opened Uci
  import opened UciLines

  // ---------------------------------------------------------------- trimming and words

  /** Text with white space at neither end. */
  predicate Trimmed(s: string) { s != "" && !IsSpace(s[0]) && !IsSpace(s[|s| - 1]) }

  /** A run of characters without white space. */
  predicate Word(s: string) { s != "" && NoSpace(s) }

  predicate Gap(s: string) { s != "" && AllSpace(s) }

  lemma {:induction false} TrimRightFirst(s: string)
    requires s != "" && !IsSpace(s[0])
    ensures TrimRight(s) != "" && TrimRight(s)[0] == s[0]
  {
    if IsSpace(s[|s| - 1]) {
      TrimRightFirst(s[..|s| - 1]);
    }
  }

  lemma {:induction false} TrimRightTrail(body: string, trail: string)
    requires AllSpace(trail) && Trimmed(body)
    ensures TrimRight(body + trail) == body
  {
    if trail == "" {
      assert body + trail == body;
    } else {
      var n := |trail| - 1;
      assert (body + trail)[..|body| + n] == body + trail[..n] && (body + trail)[|body| + n] == trail[n];
      TrimRightTrail(body, trail[..n]);
    }
  }

  lemma TrimmedLine(indent: string, body: string, trail: string)
    requires AllSpace(indent) && AllSpace(trail) && Trimmed(body)
    ensures TrimSpace(indent + body + trail) == body
  {
    assert indent + body + trail == indent + (body + trail);
    TrimLeftIndented(indent, body + trail);
    TrimRightTrail(body, trail);
  }

  lemma {:induction false} WordRead(word: string, gap: string, rest: string)
    requires Word(word) && Gap(gap) && rest != "" && !IsSpace(rest[0])
    ensures SplitFirst(word + gap + rest) == Split(word, rest, true)
  {
    var tail := gap + rest;
    assert word + gap + rest == word + tail && tail[0] == gap[0];
    IndexSpaceToken(word, tail);
    assert (word + tail)[..|word|] == word && (word + tail)[|word|..] == tail;
    TrimLeftIndented(gap, rest);
  }

  lemma LoneWord(word: string)
    requires Word(word)
    ensures SplitFirst(word) == Split(word, "", false)
  {
    IndexSpaceToken(word, "");
    assert word + "" == word;
  }

  lemma TwoWords(first: string, gap: string, rest: string)
    requires Word(first) && Gap(gap) && Trimmed(rest)
    ensures Trimmed(first + gap + rest) && SplitFirst(first + gap + rest) == Split(first, rest, true)
  {
    WordRead(first, gap, rest);
    var body := first + gap + rest;
    assert body[0] == first[0] && body[|body| - 1] == rest[|rest| - 1];
  }

  // ---------------------------------------------------------------- comments and blank lines

  /** A line of white space, or one whose first other character is '#'. */
  predicate Comment(raw: string) {
    AllSpace(raw) || exists n :: 0 <= n < |raw| && AllSpace(raw[..n]) && raw[n] == '#'
  }

  lemma CommentIsBlank(raw: string)
    requires Comment(raw)
    ensures Classify(raw) == Blank
  {
    if AllSpace(raw) {
      TrimLeftSpace(raw);
    } else {
      var n :| 0 <= n < |raw| && AllSpace(raw[..n]) && raw[n] == '#';
      assert raw == raw[..n] + raw[n..];
      TrimLeftIndented(raw[..n], raw[n..]);
      TrimRightFirst(raw[n..]);
    }
  }

  /** How one line more, in front of the offending one, shows in the result. */
  function Shifted(r: ParseResult, from: nat): ParseResult {
    if r.Rejected? && r.line > from then Rejected(r.line + 1, r.reason) else r
  }

  lemma {:induction false} RejectedWithin(lines: seq<string>)
    ensures ParseLines(lines).Rejected? ==> 0 < ParseLines(lines).line <= |lines|
  {
    if lines != [] {
      RejectedWithin(Front(lines));
    }
  }

  /** A comment or blank line, wherever it stands, changes nothing but the numbers of the lines after it. */
  lemma {:induction false} CommentsSkipped(a: seq<string>, raw: string, b: seq<string>)
    requires Comment(raw)
    ensures ParseLines(a + [raw] + b) == Shifted(ParseLines(a + b), |a|)
  {
    hide Comment, Classify;
    if b == [] {
      assert a + [raw] + b == a + [raw] && a + b == a && Front(a + [raw]) == a;
      CommentIsBlank(raw);
      RejectedWithin(a);
    } else {
      assert Front(a + [raw] + b) == a + [raw] + Front(b) && Front(a + b) == a + Front(b);
      assert Last(a + [raw] + b) == Last(b) == Last(a + b);
      CommentsSkipped(a, raw, Front(b));
      RejectedWithin(a + Front(b));
    }
  }

  /** The same of a text, between any two of its lines. */
  lemma CommentedText(a: seq<string>, raw: string, b: seq<string>)
    requires Comment(raw) && '\n' !in raw && a + b != []
    requires forall line :: line in a + b ==> '\n' !in line
    ensures Parse(JoinLines(a + [raw] + b)) == Shifted(Parse(JoinLines(a + b)), |a|)
  {
    hide Comment, ParseLines;
    forall i | 0 <= i < |a + b| ensures '\n' !in (a + b)[i] {
      assert (a + b)[i] in a + b;
    }
    forall i | 0 <= i < |a + [raw] + b| ensures '\n' !in (a + [raw] + b)[i] {
      if i != |a| {
        assert (a + [raw] + b)[i] in a + b;
      }
    }
    SplitJoin(a + b);
    SplitJoin(a + [raw] + b);
    CommentsSkipped(a, raw, b);
  }

  lemma SpaceChars()
    ensures IsSpace(' ') && IsSpace('\t') && IsSpace('\r') && IsSpace('\n')
    ensures forall c: char :: 'a' <= c <= 'z' || 'A' <= c <= 'Z' || '0' <= c <= '9' ==> !IsSpace(c)
    ensures !IsSpace('#') && !IsSpace('\'') && !IsSpace('"') && !IsSpace('_')
  {
  }

  // ---------------------------------------------------------------- the other lines

  /** One line behind lines that parse to a document. */
  lemma OneMore(a: seq<string>, doc: Document, raw: string)
    requires ParseLines(a) == Parsed(doc)
    ensures ParseLines(a + [raw]) == ParseLine(doc, Classify(raw), |a| + 1)
  {
    assert Front(a + [raw]) == a;
  }

  lemma KeywordLine(indent: string, word: string, gap: string, rest: string, trail: string)
    requires AllSpace(indent) && AllSpace(trail) && Word(word) && word[0] != '#' && Gap(gap) && Trimmed(rest)
    ensures Classify(indent + (word + gap + rest) + trail)
         == if word == "config" then Header(SectionKey(rest))
            else if word == "option" || word == "list" then
              var kv := SplitFirst(rest);
              if !kv.ok then Bare else Entry(word == "list", Unquote(kv.first), Unquote(kv.rest))
            else Unknown
  {
    hide TrimSpace, SplitFirst, SectionKey, Unquote;
    var body := word + gap + rest;
    assert body[0] == word[0];
    TwoWords(word, gap, rest);
    TrimmedLine(indent, body, trail);
  }

  lemma Keywords()
    ensures Word("config") && Word("option") && Word("list")
    ensures "config"[0] != '#' && "option"[0] != '#' && "list"[0] != '#' && "list" != "config" && "option" != "config"
    ensures "list" != "option"
  {
  }

  /** `config TYPE` opens a section of that type and without a name. */
  lemma HeaderRead(a: seq<string>, doc: Document, indent: string, gap: string, typ: string, trail: string)
    requires ParseLines(a) == Parsed(doc) && AllSpace(indent) && Gap(gap) && Word(typ) && AllSpace(trail)
    ensures ParseLines(a + [indent + ("config" + gap + typ) + trail])
         == Parsed(doc + [Section(Key(Unquote(typ), ""), map[], map[])])
  {
    Keywords();
    LoneWord(typ);
    assert SectionKey(typ) == Key(Unquote(typ), "");
    hide Classify, SplitFirst, SectionKey, Unquote, ParseLines;
    KeywordLine(indent, "config", gap, typ, trail);
    OneMore(a, doc, indent + ("config" + gap + typ) + trail);
  }

  /** `config TYPE NAME` opens a section of that type and name. */
  lemma NamedHeaderRead(a: seq<string>, doc: Document, indent: string, gap: string, typ: string, gap2: string, name: string, trail: string)
    requires ParseLines(a) == Parsed(doc) && AllSpace(indent) && AllSpace(trail)
    requires Gap(gap) && Word(typ) && Gap(gap2) && Trimmed(name)
    ensures ParseLines(a + [indent + ("config" + gap + (typ + gap2 + name)) + trail])
         == Parsed(doc + [Section(Key(Unquote(typ), Unquote(name)), map[], map[])])
  {
    Keywords();
    TwoWords(typ, gap2, name);
    var rest := typ + gap2 + name;
    assert SectionKey(rest) == Key(Unquote(typ), Unquote(name));
    hide Classify, SplitFirst, SectionKey, Unquote, ParseLines;
    KeywordLine(indent, "config", gap, rest, trail);
    OneMore(a, doc, indent + ("config" + gap + rest) + trail);
  }

  lemma EntryRead(a: seq<string>, doc: Document, indent: string, keyword: string, gap: string, name: string, gap2: string, value: string, trail: string)
    requires ParseLines(a) == Parsed(doc) && AllSpace(indent) && AllSpace(trail) && (keyword == "option" || keyword == "list")
    requires Gap(gap) && Word(name) && Gap(gap2) && Trimmed(value)
    ensures ParseLines(a + [indent + (keyword + gap + (name + gap2 + value)) + trail])
         == ParseLine(doc, Entry(keyword == "list", Unquote(name), Unquote(value)), |a| + 1)
  {
    Keywords();
    TwoWords(name, gap2, value);
    hide Classify, SplitFirst, SectionKey, Unquote, ParseLines, ParseLine;
    var rest := name + gap2 + value;
    KeywordLine(indent, keyword, gap, rest, trail);
    OneMore(a, doc, indent + (keyword + gap + rest) + trail);
  }

  /** `option NAME VALUE` sets the option in the last section, replacing what it was; outside a section it is
      refused. */
  lemma OptionRead(a: seq<string>, doc: Document, indent: string, gap: string, name: string, gap2: string, value: string, trail: string)
    requires ParseLines(a) == Parsed(doc) && AllSpace(indent) && AllSpace(trail)
    requires Gap(gap) && Word(name) && Gap(gap2) && Trimmed(value)
    ensures ParseLines(a + [indent + ("option" + gap + (name + gap2 + value)) + trail])
         == if doc == [] then Rejected(|a| + 1, OutsideSection)
            else Parsed(Front(doc) + [Last(doc).(options := Last(doc).options[Unquote(name) := Unquote(value)])])
  {
    Keywords();
    hide ParseLines, Unquote;
    EntryRead(a, doc, indent, "option", gap, name, gap2, value, trail);
  }

  /** `list NAME VALUE` adds the value at the end of the list in the last section. */
  lemma ListRead(a: seq<string>, doc: Document, indent: string, gap: string, name: string, gap2: string, value: string, trail: string)
    requires ParseLines(a) == Parsed(doc) && AllSpace(indent) && AllSpace(trail)
    requires Gap(gap) && Word(name) && Gap(gap2) && Trimmed(value)
    ensures ParseLines(a + [indent + ("list" + gap + (name + gap2 + value)) + trail])
         == if doc == [] then Rejected(|a| + 1, OutsideSection)
            else
              var lists, n := Last(doc).lists, Unquote(name);
              Parsed(Front(doc) + [Last(doc).(lists := lists[n := (if n in lists then lists[n] else []) + [Unquote(value)]])])
  {
    Keywords();
    hide ParseLines, Unquote;
    EntryRead(a, doc, indent, "list", gap, name, gap2, value, trail);
  }

  /** A single word is refused, whatever it is, unless it begins a comment. */
  lemma LoneWordRefused(a: seq<string>, doc: Document, indent: string, word: string, trail: string)
    requires ParseLines(a) == Parsed(doc) && AllSpace(indent) && AllSpace(trail) && Word(word) && word[0] != '#'
    ensures ParseLines(a + [indent + word + trail]) == Rejected(|a| + 1, Malformed)
  {
    LoneWord(word);
    hide SplitFirst, TrimSpace, ParseLines;
    TrimmedLine(indent, word, trail);
    OneMore(a, doc, indent + word + trail);
  }

  /** An option or list with a name only is refused. */
  lemma BareRefused(a: seq<string>, doc: Document, indent: string, keyword: string, gap: string, name: string, trail: string)
    requires ParseLines(a) == Parsed(doc) && AllSpace(indent) && AllSpace(trail)
    requires (keyword == "option" || keyword == "list") && Gap(gap) && Word(name)
    ensures ParseLines(a + [indent + (keyword + gap + name) + trail])
         == Rejected(|a| + 1, if doc == [] then OutsideSection else Malformed)
  {
    Keywords();
    LoneWord(name);
    var raw := indent + (keyword + gap + name) + trail;
    hide Classify, SplitFirst, SectionKey, Unquote, ParseLines, ParseLine;
    KeywordLine(indent, keyword, gap, name, trail);
    OneMore(a, doc, raw);
    assert Classify(raw) == Bare;
    BareIs(doc, |a| + 1);
  }

  lemma BareIs(doc: Document, number: nat)
    ensures ParseLine(doc, Bare, number) == Rejected(number, if doc == [] then OutsideSection else Malformed)
  {
  }

  /** Any other keyword is refused. */
  lemma UnknownRefused(a: seq<string>, doc: Document, indent: string, keyword: string, gap: string, rest: string, trail: string)
    requires ParseLines(a) == Parsed(doc) && AllSpace(indent) && AllSpace(trail)
    requires Word(keyword) && keyword[0] != '#' && keyword !in {"config", "option", "list"} && Gap(gap) && Trimmed(rest)
    ensures ParseLines(a + [indent + (keyword + gap + rest) + trail]) == Rejected(|a| + 1, UnknownKeyword)
  {
    hide Classify, SplitFirst, SectionKey, Unquote, ParseLines;
    KeywordLine(indent, keyword, gap, rest, trail);
    OneMore(a, doc, indent + (keyword + gap + rest) + trail);
  }

  /** These are all the lines there are: a line that is no comment is one word, or a word and what follows
      it, with white space around. */
  lemma {:induction false} EveryLine(raw: string) returns (indent: string, body: string, trail: string)
    ensures raw == indent + body + trail && AllSpace(indent) && AllSpace(trail)
    ensures AllSpace(raw) <==> body == ""
    ensures body == "" || Trimmed(body)
  {
    var n := 0;
    while n < |raw| && IsSpace(raw[n])
      invariant n <= |raw| && AllSpace(raw[..n])
    {
      n := n + 1;
    }
    indent := raw[..n];
    if n == |raw| {
      assert raw == indent;
      return raw, "", "";
    }
    var m := |raw|;
    while IsSpace(raw[m - 1])
      invariant n < m <= |raw| && AllSpace(raw[m..]) && !IsSpace(raw[n])
      decreases m
    {
      m := m - 1;
    }
    body, trail := raw[n..m], raw[m..];
    assert !IsSpace(raw[n]);
  }

  lemma {:induction false} WordOrMore(body: string) returns (word: string, gap: string, rest: string)
    requires Trimmed(body)
    ensures Word(word) && body == word + gap + rest && word[0] == body[0]
    ensures (gap == "" && rest == "") || (Gap(gap) && Trimmed(rest))
  {
    var n := 0;
    while n < |body| && !IsSpace(body[n])
      invariant n <= |body| && NoSpace(body[..n])
    {
      n := n + 1;
    }
    word := body[..n];
    if n == |body| {
      assert word == body;
      return body, "", "";
    }
    var m := n;
    while IsSpace(body[m])
      invariant n <= m < |body| && forall i :: n <= i < m ==> IsSpace(body[i])
      decreases |body| - m
    {
      m := m + 1;
    }
    gap, rest := body[n..m], body[m..];
    assert rest[|rest| - 1] == body[|body| - 1];
    assert body == word + gap + rest;
  }

  // ---------------------------------------------------------------- quoting

  /** Quoting goes character by character and touches quotes alone. */
  lemma {:induction false} QuoteEach(value: string)
    ensures Quote("") == ""
    ensures value != "" ==> Quote(value) == (if value[0] == '\'' then "'\\''" else [value[0]]) + Quote(value[1..])
  {
  }

  /** A value without quotes is read alike between single quotes, between double quotes, and, if it does not
      itself begin and end in double quotes, bare. */
  lemma {:induction false} PlainRead(value: string)
    requires '\'' !in value
    ensures Unquote("'" + value + "'") == value && Unquote("\"" + value + "\"") == value
    ensures |value| < 2 || value[0] != '"' || value[|value| - 1] != '"' ==> Unquote(value) == value
  {
    NothingReplaced(value);
    var s, d := "'" + value + "'", "\"" + value + "\"";
    assert s[1..|s| - 1] == value && d[1..|d| - 1] == value;
  }

  lemma {:induction false} NothingReplaced(value: string)
    requires '\'' !in value
    ensures ReplaceAll(value, "'\\''", "'") == value
  {
    if value != "" {
      NothingReplaced(value[1..]);
      assert value[0] != '\'' && "'\\''"[0] == '\'';
    }
  }

  // ---------------------------------------------------------------- what the rewriter writes

  /** An option line of an update. */
  predicate OptionLine(u: Update, indent: string, raw: string) {
    raw == indent + "option " + u.option + " '" + Quote(u.value) + "'"
  }

  predicate ReplacesLine(u: Update, line: string, raw: string) {
    AllSpace(Indent(line)) && Recognise(line) == SeenOption(u.option) && OptionLine(u, Indent(line), raw)
  }

  predicate OpensSection(u: Update, raw: string) {
    raw == "config " + u.key.typ + (if u.key.name == "" then "" else " '" + Quote(u.key.name) + "'")
  }

  /** A line of the output: one of the text's own, an option's own line with its value replaced and its indent
      kept, a new option behind one tab, or the header of a new section. */
  ghost predicate MayStand(us: seq<Update>, lines: seq<string>, raw: string) {
    || raw in lines
    || (exists u :: u in us && OptionLine(u, "\t", raw))
    || (exists u, line :: u in us && line in lines && ReplacesLine(u, line, raw))
    || (exists u :: u in us && OpensSection(u, raw))
  }

  ghost predicate AllMayStand(us: seq<Update>, lines: seq<string>, result: seq<string>) {
    forall raw :: raw in result ==> MayStand(us, lines, raw)
  }

  lemma AddStands(us: seq<Update>, lines: seq<string>, st: State, u: Update)
    requires AllMayStand(us, lines, st.result) && u in us
    ensures AllMayStand(us, lines, AddMissing(st, u).result)
  {
    assert OptionLine(u, "\t", Render("\t", u.option, u.value));
    hide Render, Quote;
  }

  lemma {:induction false} AddAllStand(us: seq<Update>, lines: seq<string>, st: State, missing: seq<Update>)
    requires AllMayStand(us, lines, st.result) && forall u :: u in missing ==> u in us
    ensures AllMayStand(us, lines, AddAllMissing(st, missing).result)
  {
    hide AllMayStand, AddMissing;
    if missing != [] {
      AddAllStand(us, lines, st, Front(missing));
      AddStands(us, lines, AddAllMissing(st, Front(missing)), Last(missing));
    }
  }

  lemma FlushStands(us: seq<Update>, lines: seq<string>, st: State)
    requires AllMayStand(us, lines, st.result)
    ensures AllMayStand(us, lines, FlushMissing(us, st).result)
  {
    hide AllMayStand;
    if st.current.Some? {
      AddAllStand(us, lines, st, Pending(us, st.current.value));
    }
  }

  lemma LineStands(us: seq<Update>, lines: seq<string>, st: State, raw: string)
    requires AllMayStand(us, lines, st.result) && raw in lines
    ensures AllMayStand(us, lines, RewriteLine(us, st, raw).result)
  {
    FlushStands(us, lines, st);
    RecogniseAgrees(raw);
    IndentIsSpace(raw);
    hide FlushMissing, Recognise, Indent, Classify;
    match Classify(raw)
    case Entry(false, name, _) =>
      if st.current.Some? && FindUpdate(us, Id(st.current.value, name)).Some? {
        var u := FindUpdate(us, Id(st.current.value, name)).value;
        assert ReplacesLine(u, raw, Render(Indent(raw), name, u.value));
      }
    case _ =>
  }

  lemma {:induction false} LinesStand(us: seq<Update>, lines: seq<string>, done: seq<string>)
    requires forall raw :: raw in done ==> raw in lines
    ensures AllMayStand(us, lines, RewriteLines(us, done).result)
  {
    hide AllMayStand, RewriteLine;
    if done == [] {
      NoneStand(us, lines);
    } else {
      LinesStand(us, lines, Front(done));
      LineStands(us, lines, RewriteLines(us, Front(done)), Last(done));
    }
  }

  lemma NoneStand(us: seq<Update>, lines: seq<string>)
    ensures AllMayStand(us, lines, [])
  {
  }

  lemma HeaderStands(us: seq<Update>, lines: seq<string>, st: State, u: Update)
    requires AllMayStand(us, lines, st.result) && u in us
    ensures AllMayStand(us, lines, st.result + [HeaderLine(u.key)])
  {
    assert OpensSection(u, HeaderLine(u.key));
    hide HeaderLine, OpensSection, OptionLine, ReplacesLine;
  }

  lemma {:induction false} AppendStands(us: seq<Update>, lines: seq<string>, st: State, new_: seq<Update>)
    requires AllMayStand(us, lines, st.result) && forall u :: u in new_ ==> u in us
    ensures AllMayStand(us, lines, AppendNew(new_, st).st.result)
  {
    hide AllMayStand, AddMissing, HeaderLine;
    if new_ != [] {
      var t, u := AppendNew(Front(new_), st), Last(new_);
      AppendStands(us, lines, st, Front(new_));
      HeaderStands(us, lines, t.st, u);
      var header := if u.key in t.headed then [] else [HeaderLine(u.key)];
      assert t.st.result + [] == t.st.result;
      AddStands(us, lines, t.st.(result := t.st.result + header), u);
    }
  }

  /** Every line of the rewritten text, for any text and any updates. */
  lemma OutputLines(us: seq<Update>, lines: seq<string>)
    ensures AllMayStand(us, lines, RewriteAll(us, lines).result)
  {
    hide AllMayStand;
    LinesStand(us, lines, lines);
    FlushStands(us, lines, RewriteLines(us, lines));
    AppendStands(us, lines, FlushMissing(us, RewriteLines(us, lines)), us);
  }
}
