/** What single lines written by the rewriter mean to the parser. */
module UciLines {
  import opened GoStrings
  import opened Uci

  /** A name that can be written without quotes and read back unchanged. */
  predicate PlainName(name: string) {
    name != "" && NoSpace(name) && Unquote(name) == name
  }

  lemma {:induction false} ReplaceQuoted(value: string)
    ensures ReplaceAll(Quote(value), "'\\''", "'") == value
  {
    if value != "" {
      var rest := Quote(value[1..]);
      ReplaceQuoted(value[1..]);
      if value[0] == '\'' {
        assert Quote(value) == "'\\''" + rest;
        assert ("'\\''" + rest)[4..] == rest;
        assert "'\\''" <= "'\\''" + rest;
      } else {
        assert Quote(value) == [value[0]] + rest;
        assert ([value[0]] + rest)[1..] == rest;
        assert Quote(value)[0] != "'\\''"[0];
      }
    }
  }

  /** Unquoting undoes quoting, for every value. */
  lemma {:induction false} UnquoteQuote(value: string)
    ensures Unquote("'" + Quote(value) + "'") == value
  {
    ReplaceQuoted(value);
    var s := "'" + Quote(value) + "'";
    assert s[1..|s| - 1] == Quote(value);
  }

  lemma TrimRightKeeps(s: string)
    requires s != "" && !IsSpace(s[|s| - 1])
    ensures TrimRight(s) == s
  {
  }

  lemma {:induction false} SplitFirstToken(token: string, rest: string)
    requires NoSpace(token) && rest != "" && !IsSpace(rest[0])
    ensures SplitFirst(token + " " + rest) == Split(token, rest, true)
    ensures SplitFirst(token) == Split(token, "", false)
  {
    var tail := " " + rest;
    assert token + " " + rest == token + tail;
    IndexSpaceToken(token, tail);
    IndexSpaceToken(token, "");
    assert token + "" == token;
    assert (token + tail)[|token|..] == tail && (token + tail)[..|token|] == token;
    TrimLeftIndented(" ", rest);
  }

  lemma {:induction false} IndentIsSpace(s: string)
    ensures AllSpace(Indent(s))
  {
    if s != "" && IsSpace(s[0]) {
      IndentIsSpace(s[1..]);
      assert Indent(s) == [s[0]] + Indent(s[1..]);
    }
  }

  /** Decoding a line made of an indent, a keyword and the rest. */
  lemma {:induction false} LineTokens(indent: string, keyword: string, rest: string)
    requires AllSpace(indent) && keyword != "" && NoSpace(keyword)
    requires rest != "" && !IsSpace(rest[0]) && !IsSpace(rest[|rest| - 1])
    ensures var raw := indent + (keyword + " " + rest);
            && SplitFirst(TrimSpace(raw)) == Split(keyword, rest, true)
            && TrimSpace(raw) != "" && TrimSpace(raw)[0] == keyword[0]
            && Indent(raw) == indent
  {
    var body := keyword + " " + rest;
    assert body[0] == keyword[0] && body[|body| - 1] == rest[|rest| - 1];
    TrimLeftIndented(indent, body);
    TrimRightKeeps(body);
    SplitFirstToken(keyword, rest);
  }

  lemma ClassifyOption(raw: string, name: string, quoted: string)
    requires var s := SplitFirst(TrimSpace(raw));
             s.ok && s.first == "option" && SplitFirst(s.rest) == Split(name, quoted, true)
    requires TrimSpace(raw) != "" && TrimSpace(raw)[0] != '#'
    ensures Classify(raw) == Entry(false, Unquote(name), Unquote(quoted))
  {
  }

  /** A line the rewriter writes for an option is read back as exactly that option, with its indent. */
  lemma {:induction false} RenderedOption(indent: string, option: string, value: string)
    requires AllSpace(indent) && PlainName(option)
    ensures Classify(Render(indent, option, value)) == Entry(false, option, value)
    ensures Indent(Render(indent, option, value)) == indent
  {
    var quoted := "'" + Quote(value) + "'";
    var rest := option + " " + quoted;
    assert rest[0] == option[0] && rest[|rest| - 1] == '\'';
    assert Render(indent, option, value) == indent + ("option" + " " + rest);
    LineTokens(indent, "option", rest);
    SplitFirstToken(option, quoted);
    UnquoteQuote(value);
    ClassifyOption(Render(indent, option, value), option, quoted);
  }

  lemma SectionKeyRead(key: Key)
    requires PlainName(key.typ)
    ensures SectionKey(if key.name == "" then key.typ else key.typ + " " + ("'" + Quote(key.name) + "'")) == key
  {
    SplitFirstToken(key.typ, "'" + Quote(key.name) + "'");
    UnquoteQuote(key.name);
  }

  /** The header the rewriter writes for a new section opens exactly that section. */
  lemma {:induction false} RenderedHeader(key: Key)
    requires PlainName(key.typ)
    ensures Classify(HeaderLine(key)) == Header(key)
  {
    var quoted := "'" + Quote(key.name) + "'";
    var rest := if key.name == "" then key.typ else key.typ + " " + quoted;
    assert rest[0] == key.typ[0];
    assert HeaderLine(key) == "" + ("config" + " " + rest);
    LineTokens("", "config", rest);
    SectionKeyRead(key);
    hide TrimSpace, SplitFirst, SectionKey, Indent, Quote, IsSpace;
  }

  lemma {:induction false} QuoteNoNewline(value: string)
    requires '\n' !in value
    ensures '\n' !in Quote(value)
  {
    if value != "" {
      QuoteNoNewline(value[1..]);
      var rest := Quote(value[1..]);
      if value[0] == '\'' {
        assert Quote(value) == "'\\''" + rest;
      } else {
        assert Quote(value) == [value[0]] + rest;
      }
    }
  }
}
